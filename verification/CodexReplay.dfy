/** What a Codex session log says, line by line and without the scanner's state: which lines belong to the replay of a
    parent session, and which events the others stand for. */
module CodexReplay {
  import opened Wrappers
  import opened CodexTotals

  // ----- the replay of a parent session -----

  /** Line k is the session's own metadata: the first in the log. */
  ghost predicate OwnMeta(lines: seq<Line>, k: int) {
    0 <= k < |lines| && lines[k].SessionMeta? && forall i :: 0 <= i < k ==> !lines[i].SessionMeta?
  }

  /** The line starts a task of the session itself: one that starts at or after its creation or, if that is not known,
      at or after the time at which the line was written. */
  predicate OwnTask(line: Line, created: Option<int>) {
    && line.TaskStarted? && line.startedAt.Some?
    && match created
       case Some(time) => line.startedAt.value >= time as real
       case None => line.writtenAt.Some? && line.startedAt.value >= line.writtenAt.value as real
  }

  ghost predicate NoOwnTask(lines: seq<Line>, k: int)
    requires OwnMeta(lines, k)
  {
    forall i :: k < i < |lines| ==> !OwnTask(lines[i], lines[k].created)
  }

  /** The lines end in the replay: they come from a child session that has not started a task of its own. */
  ghost predicate InReplay(lines: seq<Line>) {
    exists k :: OwnMeta(lines, k) && lines[k].child && NoOwnTask(lines, k)
  }

  /** The gate is set exactly as long as the lines end in the replay. */
  lemma GateIsReplay(lines: seq<Line>)
    ensures After(START, lines).gate.Some? <==> InReplay(lines)
  {
    hide NoOwnTask;
    GateAfter(lines);
    SomeMeta(lines);
    if k :| OwnMeta(lines, k) {
      forall l | OwnMeta(lines, l)
        ensures l == k
      {
        OneOwnMeta(lines, k, l);
      }
    }
  }

  lemma OneOwnMeta(lines: seq<Line>, k: int, l: int)
    requires OwnMeta(lines, k) && OwnMeta(lines, l)
    ensures k == l
  {
  }

  lemma {:induction false} SomeMeta(lines: seq<Line>)
    ensures (exists i :: 0 <= i < |lines| && lines[i].SessionMeta?) ==> exists k :: OwnMeta(lines, k)
  {
    if lines != [] {
      var n := |lines| - 1;
      SomeMeta(lines[..n]);
      if k :| OwnMeta(lines[..n], k) {
        assert OwnMeta(lines, k);
      } else if lines[n].SessionMeta? {
        assert forall i :: 0 <= i < n ==> lines[..n][i] == lines[i];
        assert OwnMeta(lines, n);
      }
    }
  }

  lemma {:induction false} GateAfter(lines: seq<Line>)
    ensures var s := After(START, lines);
            && (s.sawMeta <==> exists i :: 0 <= i < |lines| && lines[i].SessionMeta?)
            && (!s.sawMeta ==> s.gate.None?)
            && forall k :: OwnMeta(lines, k) ==>
                 s.gate == if lines[k].child && NoOwnTask(lines, k) then Some(GateOf(lines[k].created)) else None
    decreases |lines|
  {
    if lines != [] {
      var n := |lines| - 1;
      var before, line := lines[..n], lines[n];
      assert lines == before + [line];
      Split(START, before, [line]);
      assert After(After(START, before), [line]) == Step(After(START, before), line);
      GateAfter(before);
      GateStep(After(START, before), line);
      forall k | OwnMeta(lines, k)
        ensures After(START, lines).gate ==
                  if lines[k].child && NoOwnTask(lines, k) then Some(GateOf(lines[k].created)) else None
      {
        MetaOfMore(before, line, k);
      }
      assert forall i :: 0 <= i < n ==> before[i] == lines[i];
    }
  }

  lemma MetaOfMore(before: seq<Line>, line: Line, k: int)
    requires OwnMeta(before + [line], k)
    ensures var lines, n := before + [line], |before|;
            && (k < n ==> OwnMeta(before, k) && before[k] == lines[k])
            && (k < n ==> (NoOwnTask(lines, k) <==> NoOwnTask(before, k) && !OwnTask(line, lines[k].created)))
            && (k == n ==> line.SessionMeta? && NoOwnTask(lines, k))
            && (k == n ==> forall i :: 0 <= i < n ==> !before[i].SessionMeta?)
  {
    var lines := before + [line];
    assert forall i :: 0 <= i < |before| ==> before[i] == lines[i];
    assert lines[|before|] == line;
  }

  function GateOf(created: Option<int>): Gate {
    if created.Some? then UntilStartedAt(created.value) else UntilSelfTimedTaskStarted
  }

  lemma GateStep(s: State, line: Line)
    ensures Step(s, line).sawMeta <==> s.sawMeta || line.SessionMeta?
    ensures line.SessionMeta? && !s.sawMeta ==>
              Step(s, line).gate == if line.child then Some(GateOf(line.created)) else s.gate
    ensures !line.SessionMeta? || s.sawMeta ==>
              forall created :: s.gate == Some(GateOf(created)) ==>
                Step(s, line).gate == if OwnTask(line, created) then None else s.gate
    ensures (!line.SessionMeta? || s.sawMeta) && s.gate.None? ==> Step(s, line).gate.None?
  {
  }

  // ----- the events -----

  /** The last service tier that the lines set. */
  function LastTier(lines: seq<Line>): Option<string> {
    if lines == [] then None
    else
      var line := lines[|lines| - 1];
      if line.ThreadSettings? && line.tier.Some? then line.tier else LastTier(lines[..|lines| - 1])
  }

  /** The tokens by which a cumulative count rose, no fewer than none. */
  function Rise(now: nat, before: nat): nat {
    if now >= before then now - before else 0
  }

  /** The usage that a token line stands for after these lines: what it says itself, or else by how much the totals rose
      since they were last given; nothing in a replay, and nothing if the totals did not move. */
  ghost function UsageAfter(before: seq<Line>, line: Line): Option<Usage>
    requires line.TokenCount?
  {
    var p := LastTotals(before);
    if InReplay(before) || (line.totals.Some? && line.totals == p) then None
    else if line.last.Some? then line.last
    else if line.totals.None? || p.None? then line.totals
    else
      var t, u := line.totals.value, p.value;
      Some(Usage(Rise(t.input, u.input), Rise(t.cached, u.cached), Rise(t.output, u.output),
                 Rise(t.reasoning, u.reasoning), Rise(t.total, u.total)))
  }

  /** The event of a line after these lines. No more tokens are cached than were put in; the model is the one named on
      the line, or the last one known. */
  ghost function EventAfter(before: seq<Line>, line: Line): Option<Event>
    decreases |before|, 1
  {
    if !line.TokenCount? || UsageAfter(before, line).None? then None
    else
      var u := UsageAfter(before, line).value;
      if u.input == 0 && u.cached == 0 && u.output == 0 && u.reasoning == 0 then None
      else
        var known := LastModel(before);
        var model := if line.named.Some? then line.named.value else if known.Some? then known.value else "gpt-5";
        var cached := if u.cached <= u.input then u.cached else u.input;
        Some(Event(line.timestamp, model, Usage(u.input, cached, u.output, u.reasoning, u.total),
                   LastTier(before) in {Some("fast"), Some("priority")}, LastTier(before) == Some("ultrafast")))
  }

  /** The last model that a turn context or an event named. */
  ghost function LastModel(lines: seq<Line>): Option<string>
    decreases |lines|, 0
  {
    if lines == [] then None
    else
      var before, line := lines[..|lines| - 1], lines[|lines| - 1];
      if line.TurnContext? && line.model.Some? then line.model
      else if EventAfter(before, line).Some? then Some(EventAfter(before, line).value.model)
      else LastModel(before)
  }

  ghost function EventsOf(lines: seq<Line>): seq<Event> {
    if lines == [] then []
    else
      var before, e := lines[..|lines| - 1], EventAfter(lines[..|lines| - 1], lines[|lines| - 1]);
      EventsOf(before) + if e.Some? then [e.value] else []
  }

  /** The scanner's state is what the lines so far say. */
  lemma {:induction false} StateIsHistory(lines: seq<Line>)
    ensures var s := After(START, lines);
            && s.previous == LastTotals(lines) && s.model == LastModel(lines)
            && (s.fast <==> LastTier(lines) in {Some("fast"), Some("priority")})
            && (s.ultrafast <==> LastTier(lines) == Some("ultrafast"))
    ensures Emitted(START, lines) == EventsOf(lines)
    decreases |lines|
  {
    if lines != [] {
      var n := |lines| - 1;
      var before, line := lines[..n], lines[n];
      StateIsHistory(before);
      GateIsReplay(before);
      OneMoreLine(lines);
      hide InReplay, LastTotals, LastTier, LastModel, EventAfter, EventsOf, Step, EmittedAt, After, Emitted;
      LineIsRead(After(START, before), before, line);
    }
  }

  lemma OneMoreLine(lines: seq<Line>)
    requires lines != []
    ensures var n := |lines| - 1;
            var before, line, e := lines[..n], lines[n], EventAfter(lines[..n], lines[n]);
            && After(START, lines) == Step(After(START, before), line)
            && Emitted(START, lines) == Emitted(START, before) + EmittedAt(After(START, before), line)
            && LastTotals(lines) == (if line.TokenCount? && line.totals.Some? then line.totals else LastTotals(before))
            && LastTier(lines) == (if line.ThreadSettings? && line.tier.Some? then line.tier else LastTier(before))
            && LastModel(lines) == (if line.TurnContext? && line.model.Some? then line.model
                                    else if e.Some? then Some(e.value.model) else LastModel(before))
            && EventsOf(lines) == EventsOf(before) + (if e.Some? then [e.value] else [])
  {
    hide EventAfter, EmittedAt, Step;
    var n := |lines| - 1;
    var before, line := lines[..n], lines[n];
    assert lines == before + [line];
    Split(START, before, [line]);
    var s := After(START, before);
    assert After(s, [line]) == Step(s, line) && Emitted(s, [line]) == EmittedAt(s, line) + [];
  }

  lemma LineIsRead(s: State, before: seq<Line>, line: Line)
    requires s.previous == LastTotals(before) && s.model == LastModel(before)
    requires s.fast <==> LastTier(before) in {Some("fast"), Some("priority")}
    requires s.ultrafast <==> LastTier(before) == Some("ultrafast")
    requires s.gate.Some? <==> InReplay(before)
    ensures var e := EventAfter(before, line);
            && EmittedAt(s, line) == (if e.Some? then [e.value] else [])
            && var t := Step(s, line);
            && t.previous == (if line.TokenCount? && line.totals.Some? then line.totals else s.previous)
            && t.model == (if line.TurnContext? && line.model.Some? then line.model
                           else if e.Some? then Some(e.value.model) else s.model)
            && var tier := if line.ThreadSettings? && line.tier.Some? then line.tier else LastTier(before);
            (t.fast <==> tier in {Some("fast"), Some("priority")}) && (t.ultrafast <==> tier == Some("ultrafast"))
  {
    hide InReplay, LastTotals, LastModel, LastTier;
  }

  /** What the scanner makes of a log are the events that its lines stand for. */
  lemma EventsOfLog(lines: seq<Line>)
    ensures Emitted(START, lines) == EventsOf(lines)
  {
    StateIsHistory(lines);
  }

  /** A session that is not a child is never taken for a replay. */
  lemma OwnSessionIsCounted(lines: seq<Line>, k: int)
    requires OwnMeta(lines, k) && !lines[k].child
    ensures !InReplay(lines)
  {
    forall l | OwnMeta(lines, l)
      ensures l == k
    {
      OneOwnMeta(lines, k, l);
    }
  }

  /** The cumulative count that the lines give last. */
  function Total(lines: seq<Line>, field: Field): nat {
    if LastTotals(lines).Some? then Of(LastTotals(lines).value, field) else 0
  }

  predicate TakenBackAt(lines: seq<Line>, i: nat, field: Field)
    requires i < |lines|
  {
    Total(lines[..i + 1], field) < Total(lines[..i], field)
  }

  /** From line n on no line takes the cumulative count back. */
  ghost predicate NeverTakenBack(lines: seq<Line>, n: nat, field: Field) {
    forall i :: n <= i < |lines| ==> !TakenBackAt(lines, i, field)
  }

  lemma TotalIsBaseline(lines: seq<Line>, field: Field)
    ensures Baseline(After(START, lines), field) == Total(lines, field)
  {
    hide LastTotals, After;
    StateIsHistory(lines);
  }

  lemma FallsAtLine(before: seq<Line>, line: Line, field: Field)
    ensures var s := After(START, before);
            Baseline(Step(s, line), field) < Baseline(s, field) <==>
            Total(before + [line], field) < Total(before, field)
  {
    hide Baseline, Total, Step;
    TotalIsBaseline(before, field);
    TotalIsBaseline(before + [line], field);
    Split(START, before, [line]);
    assert After(After(START, before), [line]) == Step(After(START, before), line);
  }

  lemma FallsAtIndex(before: seq<Line>, live: seq<Line>, i: nat, field: Field)
    requires i < |live|
    ensures FallsAt(After(START, before), live, i, field) <==> TakenBackAt(before + live, |before| + i, field)
  {
    hide Baseline, Total, Step, After;
    var lines, n := before + live, |before| + i;
    assert lines[..n] == before + live[..i] && lines[..n + 1] == lines[..n] + [live[i]];
    Split(START, before, live[..i]);
    FallsAtLine(lines[..n], live[i], field);
  }

  lemma NeverFallsFrom(before: seq<Line>, live: seq<Line>, field: Field)
    ensures NeverFalls(After(START, before), live, field) <==> NeverTakenBack(before + live, |before|, field)
  {
    hide FallsAt, TakenBackAt, After;
    var lines, n := before + live, |before|;
    forall i | 0 <= i < |live|
      ensures FallsAt(After(START, before), live, i, field) <==> TakenBackAt(lines, n + i, field)
    {
      FallsAtIndex(before, live, i, field);
    }
    if NeverFalls(After(START, before), live, field) {
      forall i | n <= i < |lines|
        ensures !TakenBackAt(lines, i, field)
      {
        assert !FallsAt(After(START, before), live, i - n, field);
      }
    }
  }

  /** A child session: what it replayed from its parent is not counted, and from its first own task on it counts from
      the totals that the replay ended with. */
  lemma ChildSessionCountsItsOwn(created: Option<int>, replay: seq<Line>, started: Line, live: seq<Line>, field: Field)
    requires forall line :: line in replay ==> !OwnTask(line, created)
    requires OwnTask(started, created)
    requires forall line :: line in live ==> line.TokenCount? ==> line.last.None?
    ensures var replayed := [SessionMeta(true, created)] + replay;
            var lines := replayed + [started] + live;
            var counted := Sum(EventsOf(lines), field);
            && counted >= Total(lines, field) - Total(replayed, field)
            && (counted == Total(lines, field) - Total(replayed, field)
                <==> NeverTakenBack(lines, |replayed| + 1, field))
  {
    hide NeverFalls, NeverTakenBack, EventsOf, LastTotals, Total;
    var replayed := [SessionMeta(true, created)] + replay;
    assert OwnMeta(replayed, 0) && NoOwnTask(replayed, 0);
    GateIsReplay(replayed);
    GateAfter(replayed);
    GateStep(After(START, replayed), started);
    Split(START, replayed, [started]);
    assert After(After(START, replayed), [started]) == Step(After(START, replayed), started);
    CountsAfterTheGate(replayed, started, live, field);
    EventsOfLog(replayed + [started] + live);
    TotalIsBaseline(replayed, field);
    TotalIsBaseline(replayed + [started] + live, field);
    NeverFallsFrom(replayed + [started], live, field);
    StateIsHistory(replayed);
  }
}
