/** Turning the cumulative totals of a Codex session log into usage events. */
module CodexTotals {
  import opened Wrappers

  const FALLBACK_MODEL := "gpt-5"

  datatype Usage = Usage(input: nat, cached: nat, output: nat, reasoning: nat, total: nat)

  datatype Gate = UntilStartedAt(created: int) | UntilSelfTimedTaskStarted

  /** A line of the log, as far as the scanner tells lines apart. Times are seconds. */
  datatype Line =
    | Ignored
    | TurnContext(model: Option<string>)
    | SessionMeta(child: bool, created: Option<int>)
    | ThreadSettings(tier: Option<string>)
    | TaskStarted(startedAt: Option<real>, writtenAt: Option<int>)
    | TokenCount(timestamp: int, last: Option<Usage>, totals: Option<Usage>, named: Option<string>)

  datatype Event = Event(timestamp: int, model: string, usage: Usage, fast: bool, ultrafast: bool)

  datatype State = State(previous: Option<Usage>, model: Option<string>, fast: bool, ultrafast: bool,
                         sawMeta: bool, gate: Option<Gate>)

  const START := State(None, None, false, false, false, None)

  function Max(x: int, y: int): int { if x < y then y else x }

  function Min(x: nat, y: nat): nat { if x < y then x else y }

  function Subtracting(usage: Usage, previous: Option<Usage>): Usage {
    var p := if previous.Some? then previous.value else Usage(0, 0, 0, 0, 0);
    Usage(Max(usage.input - p.input, 0), Max(usage.cached - p.cached, 0), Max(usage.output - p.output, 0),
          Max(usage.reasoning - p.reasoning, 0), Max(usage.total - p.total, 0))
  }

  predicate IsCleared(gate: Gate, startedAt: real, writtenAt: Option<int>) {
    match gate
    case UntilStartedAt(created) => startedAt >= created as real
    case UntilSelfTimedTaskStarted => writtenAt.Some? && startedAt >= writtenAt.value as real
  }

  // ----- what one line does -----

  /** The usage a token line reports: nothing while the gate is set or when the totals did not move. */
  function Reported(s: State, line: Line): Option<Usage>
    requires line.TokenCount?
  {
    if s.gate.Some? || (line.totals.Some? && line.totals == s.previous) then None
    else if line.last.Some? then line.last
    else if line.totals.Some? then Some(Subtracting(line.totals.value, s.previous))
    else None
  }

  predicate Counts(usage: Usage) { usage.input > 0 || usage.cached > 0 || usage.output > 0 || usage.reasoning > 0 }

  function ModelOf(s: State, line: Line): string
    requires line.TokenCount?
  {
    if line.named.Some? then line.named.value else if s.model.Some? then s.model.value else FALLBACK_MODEL
  }

  function EmittedAt(s: State, line: Line): seq<Event> {
    if line.TokenCount? && Reported(s, line).Some? && Counts(Reported(s, line).value) then
      var usage := Reported(s, line).value;
      [Event(line.timestamp, ModelOf(s, line), usage.(cached := Min(usage.cached, usage.input)), s.fast, s.ultrafast)]
    else []
  }

  function Step(s: State, line: Line): State {
    match line
    case Ignored => s
    case TurnContext(model) => if model.Some? then s.(model := model) else s
    case SessionMeta(child, created) =>
      if s.sawMeta then s
      else if !child then s.(sawMeta := true)
      else s.(sawMeta := true,
              gate := Some(if created.Some? then UntilStartedAt(created.value) else UntilSelfTimedTaskStarted))
    case ThreadSettings(tier) =>
      if tier.None? then s
      else s.(ultrafast := tier.value == "ultrafast", fast := tier.value == "fast" || tier.value == "priority")
    case TaskStarted(startedAt, writtenAt) =>
      if s.gate.Some? && startedAt.Some? && IsCleared(s.gate.value, startedAt.value, writtenAt) then s.(gate := None)
        else s
    case TokenCount(_, _, totals, _) =>
      var moved := if totals.Some? then s.(previous := totals) else s;
      if EmittedAt(s, line) != [] then moved.(model := Some(ModelOf(s, line))) else moved
  }

  function After(s: State, lines: seq<Line>): State
    decreases |lines|
  {
    if lines == [] then s else After(Step(s, lines[0]), lines[1..])
  }

  function Emitted(s: State, lines: seq<Line>): seq<Event>
    decreases |lines|
  {
    if lines == [] then [] else EmittedAt(s, lines[0]) + Emitted(Step(s, lines[0]), lines[1..])
  }

  // ----- the scanner -----

  lemma TokenStep(s: State, line: Line)
    requires line.TokenCount?
    ensures var moved := s.(previous := if line.totals.Some? then line.totals else s.previous);
            if Reported(s, line).None? || !Counts(Reported(s, line).value) then
              Step(s, line) == moved && EmittedAt(s, line) == []
            else
              var usage := Reported(s, line).value;
              && Step(s, line) == moved.(model := Some(ModelOf(s, line)))
              && EmittedAt(s, line)
                == [Event(line.timestamp, ModelOf(s, line), usage.(cached := Min(usage.cached, usage.input)),
                                              s.fast, s.ultrafast)]
  {
  }

  method CountTokens(line: Line, previousTotals: Option<Usage>, currentModel: Option<string>, fast: bool,
                     ultrafast: bool,
                     sawSessionMeta: bool, replayGate: Option<Gate>)
    returns (totalsAfter: Option<Usage>, modelAfter: Option<string>, event: Option<Event>)
    requires line.TokenCount?
    ensures var s := State(previousTotals, currentModel, fast, ultrafast, sawSessionMeta, replayGate);
            && Step(s, line) == s.(previous := totalsAfter, model := modelAfter)
            && EmittedAt(s, line) == if event.Some? then [event.value] else []
  {
    hide Subtracting, Min, Max, Step, EmittedAt;
    TokenStep(State(previousTotals, currentModel, fast, ultrafast, sawSessionMeta, replayGate), line);
    var last, totals, named := line.last, line.totals, line.named;
    totalsAfter, modelAfter, event := previousTotals, currentModel, None;
    if replayGate.Some? {
      if totals.Some? {
        totalsAfter := totals;
      }
      return;
    }
    if totals.Some? && previousTotals.Some? && totals.value == previousTotals.value {
      return;
    }
    var usage;
    if last.Some? {
      usage := last.value;
    } else if totals.Some? {
      usage := Subtracting(totals.value, previousTotals);
    } else {
      return;
    }
    if totals.Some? {
      totalsAfter := totals;
    }
    if usage.input <= 0 && usage.cached <= 0 && usage.output <= 0 && usage.reasoning <= 0 {
      return;
    }
    if named.Some? {
      modelAfter := named;
    } else if modelAfter.None? {
      modelAfter := Some(FALLBACK_MODEL);
    }
    var cached := Min(usage.cached, usage.input);
    event := Some(Event(line.timestamp, modelAfter.value, usage.(cached := cached), fast, ultrafast));
  }

  method ParseFile(lines: seq<Line>) returns (events: seq<Event>)
    ensures events == Emitted(START, lines)
  {
    hide After, Emitted, IsCleared, Reported, Counts, ModelOf;
    events := [];
    var previousTotals: Option<Usage> := None;
    var currentModel: Option<string> := None;
    var tierIsFast, tierIsUltrafast := false, false;
    var sawSessionMeta := false;
    var replayGate: Option<Gate> := None;
    EmittedFrom(START, lines, 0);
    for i := 0 to |lines|
      invariant State(previousTotals, currentModel, tierIsFast, tierIsUltrafast, sawSessionMeta, replayGate)
                  == After(START, lines[..i])
      invariant events + Emitted(After(START, lines[..i]), lines[i..]) == Emitted(START, lines)
    {
      EmittedFrom(START, lines, i);
      var line := lines[i];
      match line {
        case Ignored =>
        case TurnContext(model) =>
          if model.Some? {
            currentModel := model;
          }
        case SessionMeta(child, created) =>
          if !sawSessionMeta {
            sawSessionMeta := true;
            if child {
              if created.Some? {
                replayGate := Some(UntilStartedAt(created.value));
              } else {
                replayGate := Some(UntilSelfTimedTaskStarted);
              }
            }
          }
        case ThreadSettings(tier) =>
          if tier.Some? {
            tierIsUltrafast := tier.value == "ultrafast";
            tierIsFast := !tierIsUltrafast && (tier.value == "fast" || tier.value == "priority");
          }
        case TaskStarted(startedAt, writtenAt) =>
          if replayGate.Some? && startedAt.Some? && IsCleared(replayGate.value, startedAt.value, writtenAt) {
            replayGate := None;
          }
        case TokenCount(_, _, _, _) =>
          var event;
          previousTotals, currentModel, event :=
            CountTokens(line, previousTotals, currentModel, tierIsFast, tierIsUltrafast, sawSessionMeta, replayGate);
          if event.Some? {
            events := events + [event.value];
          }
      }
    }
    EmittedFrom(START, lines, |lines|);
  }

  /** Reading one more line, and nothing more at the end. */
  lemma EmittedFrom(s: State, lines: seq<Line>, i: nat)
    requires i <= |lines|
    ensures After(s, lines[..0]) == s && Emitted(s, lines[0..]) == Emitted(s, lines)
    ensures i < |lines| ==> After(s, lines[..i + 1]) == Step(After(s, lines[..i]), lines[i])
    ensures i < |lines| ==> var t := After(s, lines[..i]);
                            Emitted(t, lines[i..])
                              == EmittedAt(t, lines[i]) + Emitted(Step(t, lines[i]), lines[i + 1..])
    ensures i == |lines| ==> Emitted(After(s, lines[..i]), lines[i..]) == []
  {
    assert lines[0..] == lines;
    if i < |lines| {
      assert lines[i..][1..] == lines[i + 1..];
      assert lines[..i + 1] == lines[..i] + [lines[i]];
      Split(s, lines[..i], [lines[i]]);
    }
  }

  lemma {:induction false} Split(s: State, a: seq<Line>, b: seq<Line>)
    ensures After(s, a + b) == After(After(s, a), b)
    ensures Emitted(s, a + b) == Emitted(s, a) + Emitted(After(s, a), b)
    decreases |a|
  {
    hide Step, EmittedAt;
    if a == [] {
      assert a + b == b;
    } else {
      assert (a + b)[1..] == a[1..] + b;
      Split(Step(s, a[0]), a[1..], b);
    }
  }

  // ----- the replay gate -----

  /** After the session's first metadata line the gate never comes back once it is clear. */
  lemma {:induction false} ClearedForGood(s: State, lines: seq<Line>)
    requires s.sawMeta && s.gate.None?
    ensures After(s, lines).sawMeta && After(s, lines).gate.None?
    decreases |lines|
  {
    if lines != [] {
      ClearedForGood(Step(s, lines[0]), lines[1..]);
    }
  }

  /** The totals that a stretch of lines leaves behind. */
  function LastTotals(lines: seq<Line>): Option<Usage> {
    if lines == [] then None
    else if lines[|lines| - 1].TokenCount? && lines[|lines| - 1].totals.Some? then lines[|lines| - 1].totals
    else LastTotals(lines[..|lines| - 1])
  }

  /** While the gate of a child session is set, the replayed lines emit nothing, but their totals are remembered. */
  lemma {:induction false} ReplayIsNotCounted(lines: seq<Line>)
    requires lines != [] && lines[0].SessionMeta? && After(START, lines).gate.Some?
    ensures Emitted(START, lines) == [] && After(START, lines).previous == LastTotals(lines)
    decreases |lines|
  {
    var n := |lines| - 1;
    var before, line := lines[..n], lines[n];
    assert lines == before + [line];
    Split(START, before, [line]);
    var s := After(START, before);
    assert After(s, [line]) == Step(s, line) && Emitted(s, [line]) == EmittedAt(s, line);
    if n > 0 {
      Sees(lines[0], before);
      if s.gate.None? {
        ClearedForGood(s, [line]);
        assert false;
      }
      ReplayIsNotCounted(before);
    }
  }

  lemma Sees(meta: Line, lines: seq<Line>)
    requires meta.SessionMeta? && lines != [] && lines[0] == meta
    ensures After(START, lines).sawMeta
  {
    StaysSeen(Step(START, meta), lines[1..]);
  }

  lemma {:induction false} StaysSeen(s: State, lines: seq<Line>)
    requires s.sawMeta
    ensures After(s, lines).sawMeta
    decreases |lines|
  {
    if lines != [] {
      StaysSeen(Step(s, lines[0]), lines[1..]);
    }
  }

  // ----- the counts -----

  datatype Field = Input | Output | Reasoning

  function Of(usage: Usage, field: Field): nat {
    match field
    case Input => usage.input
    case Output => usage.output
    case Reasoning => usage.reasoning
  }

  function Sum(events: seq<Event>, field: Field): nat {
    if events == [] then 0 else Of(events[0].usage, field) + Sum(events[1..], field)
  }

  /** The cumulative count that the session has reported last. */
  function Baseline(s: State, field: Field): nat {
    if s.previous.Some? then Of(s.previous.value, field) else 0
  }

  /** How much cumulative counts fell along the lines. */
  function Drops(s: State, lines: seq<Line>, field: Field): nat
    decreases |lines|
  {
    if lines == [] then 0
    else Max(Baseline(s, field) - Baseline(Step(s, lines[0]), field), 0) + Drops(Step(s, lines[0]), lines[1..], field)
  }

  predicate FallsAt(s: State, lines: seq<Line>, i: nat, field: Field)
    requires i < |lines|
  {
    Baseline(Step(After(s, lines[..i]), lines[i]), field) < Baseline(After(s, lines[..i]), field)
  }

  predicate NeverFalls(s: State, lines: seq<Line>, field: Field) {
    forall i :: 0 <= i < |lines| ==> !FallsAt(s, lines, i, field)
  }

  /** No gate in front of the lines or inside, and no line brings its own usage. */
  predicate CumulativeOnly(s: State, lines: seq<Line>) {
    && s.gate.None?
    && (forall line :: line in lines ==> line.TokenCount? ==> line.last.None?)
    && (s.sawMeta || forall line :: line in lines ==> !line.SessionMeta?)
  }

  /** The emitted counts add up to what the cumulative ones rose by, plus what they fell by on the way. */
  lemma {:induction false} Telescopes(s: State, lines: seq<Line>, field: Field)
    requires CumulativeOnly(s, lines)
    ensures Sum(Emitted(s, lines), field)
              == Baseline(After(s, lines), field) - Baseline(s, field) + Drops(s, lines, field)
    decreases |lines|
  {
    if lines != [] {
      hide Step, EmittedAt, Baseline, Of;
      var next := Step(s, lines[0]);
      OneLine(s, lines[0], field);
      Telescopes(next, lines[1..], field);
      var rest := Emitted(next, lines[1..]);
      var first := EmittedAt(s, lines[0]);
      assert first != [] ==> (first + rest)[1..] == rest;
      assert first == [] ==> first + rest == rest;
    }
  }

  lemma OneLine(s: State, line: Line, field: Field)
    requires s.gate.None? && (line.TokenCount? ==> line.last.None?) && (s.sawMeta || !line.SessionMeta?)
    ensures var next := Step(s, line);
            var emitted := EmittedAt(s, line);
            && next.gate.None? && next.sawMeta == s.sawMeta && |emitted| <= 1
            && Baseline(next, field) - Baseline(s, field) + Max(Baseline(s, field) - Baseline(next, field), 0)
               == if emitted == [] then 0 else Of(emitted[0].usage, field)
  {
  }

  /** So they are at least the rise, and equal to it exactly when the cumulative count never falls. */
  lemma TotalsTelescope(s: State, lines: seq<Line>, field: Field)
    requires CumulativeOnly(s, lines)
    ensures Sum(Emitted(s, lines), field) >= Baseline(After(s, lines), field) - Baseline(s, field)
    ensures Sum(Emitted(s, lines), field) == Baseline(After(s, lines), field) - Baseline(s, field) <==>
              NeverFalls(s, lines, field)
  {
    hide NeverFalls;
    Telescopes(s, lines, field);
    NoDrops(s, lines, field);
  }

  lemma {:induction false} NoDrops(s: State, lines: seq<Line>, field: Field)
    ensures Drops(s, lines, field) == 0 <==> NeverFalls(s, lines, field)
    decreases |lines|
  {
    if lines != [] {
      hide Step, Baseline;
      var next, rest := Step(s, lines[0]), lines[1..];
      NoDrops(next, rest, field);
      assert lines[..0] == [];
      assert FallsAt(s, lines, 0, field) <==> Baseline(next, field) < Baseline(s, field);
      forall i | 0 <= i < |rest|
        ensures FallsAt(next, rest, i, field) <==> FallsAt(s, lines, i + 1, field)
      {
        assert lines[..i + 1][1..] == rest[..i] && lines[i + 1] == rest[i];
      }
      hide FallsAt;
      assert forall i :: 0 < i < |lines| ==> (FallsAt(s, lines, i, field) <==> FallsAt(next, rest, i - 1, field));
    }
  }

  /** What a session emits after its gate was cleared counts from the totals its replay ended with. */
  lemma CountsAfterTheGate(replayed: seq<Line>, started: Line, live: seq<Line>, field: Field)
    requires replayed != [] && replayed[0].SessionMeta? && After(START, replayed).gate.Some?
    requires started.TaskStarted? && Step(After(START, replayed), started).gate.None?
    requires forall line :: line in live ==> line.TokenCount? ==> line.last.None?
    ensures var lines := replayed + [started] + live;
            var baseline := if LastTotals(replayed).Some? then Of(LastTotals(replayed).value, field) else 0;
            && Sum(Emitted(START, lines), field) >= Baseline(After(START, lines), field) - baseline
            && (Sum(Emitted(START, lines), field) == Baseline(After(START, lines), field) - baseline
                <==> NeverFalls(Step(After(START, replayed), started), live, field))
  {
    hide NeverFalls;
    var gated := After(START, replayed);
    var cleared := Step(gated, started);
    ReplayIsNotCounted(replayed);
    Sees(replayed[0], replayed);
    Split(START, replayed, [started]);
    Split(START, replayed + [started], live);
    assert After(gated, [started]) == cleared && Emitted(gated, [started]) == [];
    assert Emitted(START, replayed + [started] + live) == Emitted(cleared, live);
    TotalsTelescope(cleared, live, field);
  }

  /** Repeating the totals of the line before changes nothing at all. */
  lemma RepeatedTotalsAreSkipped(s: State, line: Line)
    requires line.TokenCount? && line.totals.Some? && line.totals == s.previous
    ensures Step(s, line) == s && EmittedAt(s, line) == []
  {
  }
}
