/** What the provider watch actor is given, how its runs answer to that, and what its subscribers may rely on. */
module WatchInputs {
  import opened Wrappers
  import opened WatchMaps
  import opened WatchSpec

  /** Commands, file-system events and looks at the clock, with the time and the file system each handler sees. */
  datatype Input =
    | ClearInput(provider: Provider, fs: Fs)
    | ReplaceInput(provider: Provider, files: seq<FileSubscription>, fs: Fs, now: nat)
    | EventInput(event: FsEvent, fs: Fs, now: nat)
    | TimeInput(now: nat)

  /** The actor's targets, the watch calls refused so far, and the registered roots whose watch is dead. */
  datatype Moment = Moment(targets: map<Path, TargetState>, refused: seq<Path>, blind: set<Path>)

  // ----- what a run answers to -----

  function FilesIn(subs: set<Pair>, p: Provider): set<Path> {
    set x | x in subs && x.0 == p :: x.1
  }

  /** The step is the one that the input calls for in this state, and the targets change accordingly. */
  ghost predicate Handled(input: Input, step: Step, m: Monitor, before: Moment, after: Moment) {
    && before.refused <= after.refused
    && after.blind <= before.blind + Blinded(input, before.targets.Keys)
    && match input
    case ClearInput(p, _) => step == ClearStep(p)
      && after.targets == ClearedTargets(before.targets, p, FilesIn(m.subs, p))
    case ReplaceInput(p, files, fs, now) =>
      && step.ReplaceStep? && step == ReplaceStep(p, step.added, step.touched, now)
      && ReplacedAs(p, files, fs, step.added, step.touched, ClearedTargets(before.targets, p, FilesIn(m.subs, p)),
                    after.targets, after.refused[|before.refused|..])
    case EventInput(event, fs, now) =>
      && step.EventStep? && step == EventStep(step.touched, now)
      && var roots := RootsOf(PathsOf(event), before.targets.Keys);
      && Faithful(fs, before.targets, after.targets, step.touched, PathsOf(event), roots)
      && PathsOf(event) * before.targets.Keys <= step.touched
      && (after.refused == [] ==> Announces(fs, before.targets, step.touched, PathsOf(event), roots))
    case TimeInput(now) =>
      && step == (if Due(m, now) then FireStep(now) else IdleStep(now))
      && after.targets == before.targets
  }

  /** The roots that an input may leave with a dead watch: subscribed paths of which it says that they went away. */
  function Blinded(input: Input, subscribed: set<Path>): set<Path> {
    if input.EventInput? && Removal(input.event) then PathsOf(input.event) * subscribed else {}
  }

  /** The provider's new files are the installable ones, except where a watch was refused; of these, exactly those are
      announced whose existence differs from what was declared or last observed. */
  ghost predicate ReplacedAs(p: Provider, files: seq<FileSubscription>, fs: Fs, added: set<Path>, touched: set<Path>,
                             cleared: map<Path, TargetState>, after: map<Path, TargetState>, refused: seq<Path>) {
    && touched <= added <= Installable(fs, files) && SkippedAreRefused(fs, files, added, refused)
    && after.Keys == cleared.Keys + added
    && (forall f :: f in after && f !in added ==> after[f] == cleared[f])
    && (forall f :: f in added ==> Subscribed(fs, cleared, p, f, files, after[f], f in touched))
  }

  /** The providers of each target are those subscribed to its file. */
  ghost predicate Tracks(m: Monitor, targets: map<Path, TargetState>) {
    forall p, f :: (p, f) in m.subs <==> f in targets && p in targets[f].providers
  }

  /** Every input is handled by one step. */
  ghost predicate Served(inputs: seq<Input>, steps: seq<Step>, moments: seq<Moment>) {
    && |steps| == |inputs| && |moments| == |inputs| + 1 && Possible(steps)
    && (forall i :: 0 <= i < |moments| ==> Tracks(After(steps[..i]), moments[i].targets))
    && (forall i :: 0 <= i < |inputs| ==> Handled(inputs[i], steps[i], After(steps[..i]), moments[i], moments[i + 1]))
  }

  lemma NothingServed(moment: Moment)
    requires Tracks(INITIAL, moment.targets)
    ensures Served([], [], [moment]) && After([]) == INITIAL && Announcements([]) == []
  {
  }

  lemma ServedMore(inputs: seq<Input>, steps: seq<Step>, moments: seq<Moment>, input: Input, step: Step, moment: Moment)
    requires Served(inputs, steps, moments) && Handled(input, step, After(steps), moments[|inputs|], moment)
    requires step.FireStep? ==> Due(After(steps), step.now)
    requires step.IdleStep? ==> !Due(After(steps), step.now)
    requires Tracks(Apply(After(steps), step), moment.targets)
    ensures Served(inputs + [input], steps + [step], moments + [moment])
    ensures After(steps + [step]) == Apply(After(steps), step)
    ensures Announcements(steps + [step]) == Announcements(steps) + if step.FireStep? then Announcement(After(steps))
              else []
  {
    hide Handled, Tracks, After, Possible, Announcements, Announcement;
    OneMoreStep(steps, step);
    var n, more, later := |inputs|, steps + [step], moments + [moment];
    forall i | 0 <= i <= n
      ensures Tracks(After(more[..i]), later[i].targets)
    {
      assert more[..i] == steps[..i] && later[i] == moments[i];
    }
    assert more[..n + 1] == more && steps[..n] == steps;
    forall i | 0 <= i <= n
      ensures Handled((inputs + [input])[i], more[i], After(more[..i]), later[i], later[i + 1])
    {
      assert more[..i] == steps[..i] && later[i] == moments[i];
      if i < n {
        assert (inputs + [input])[i] == inputs[i] && more[i] == steps[i] && later[i + 1] == moments[i + 1];
      }
    }
  }

  lemma OneMoreStep(steps: seq<Step>, step: Step)
    requires Possible(steps)
    requires step.FireStep? ==> Due(After(steps), step.now)
    requires step.IdleStep? ==> !Due(After(steps), step.now)
    ensures var more := steps + [step];
            && Possible(more) && After(more) == Apply(After(steps), step)
            && Announcements(more) == Announcements(steps) + if step.FireStep? then Announcement(After(steps)) else []
  {
    hide Due;
    var more := steps + [step];
    assert more[..|more| - 1] == steps;
    forall j | 0 <= j < |more|
      ensures more[j].FireStep? ==> Due(After(more[..j]), more[j].now)
      ensures more[j].IdleStep? ==> !Due(After(more[..j]), more[j].now)
    {
      assert more[..j] == steps[..j];
      if j == |steps| {
        assert steps[..j] == steps;
      }
    }
  }

  lemma SameLength(inputs: seq<Input>, steps: seq<Step>, moments: seq<Moment>)
    requires Served(inputs, steps, moments)
    ensures |steps| == |inputs| && |moments| == |inputs| + 1
  {
  }

  // ----- what is sent -----

  /** What the timer sends: one ProvidersChanged, or nothing if nobody is pending any more. */
  function Announcement(m: Monitor): seq<set<Provider>> {
    if Providers(m.pending) == {} then [] else [Providers(m.pending)]
  }

  function Announcements(steps: seq<Step>): seq<set<Provider>> {
    if steps == [] then []
    else
      var before, last := steps[..|steps| - 1], steps[|steps| - 1];
      Announcements(before) + if last.FireStep? then Announcement(After(before)) else []
  }

  /** What is announced is sent. */
  lemma {:induction false} AnnouncedIsSent(steps: seq<Step>, j: nat)
    requires j < |steps| && steps[j].FireStep? && Announced(steps, j) != {}
    ensures Announced(steps, j) in Announcements(steps)
    decreases |steps|
  {
    var before := steps[..|steps| - 1];
    if j < |before| {
      assert before[..j] == steps[..j];
      AnnouncedIsSent(before, j);
    }
  }

  // ----- what subscribers may rely on -----

  predicate Keeps(input: Input, p: Provider) {
    !((input.ClearInput? || input.ReplaceInput?) && input.provider == p)
  }

  lemma StepFollows(inputs: seq<Input>, steps: seq<Step>, moments: seq<Moment>, i: nat)
    requires Served(inputs, steps, moments) && i < |inputs|
    ensures Handled(inputs[i], steps[i], After(steps[..i]), moments[i], moments[i + 1])
    ensures Tracks(After(steps[..i]), moments[i].targets)
    ensures Tracks(After(steps[..i + 1]), moments[i + 1].targets)
    ensures After(steps[..i + 1]) == Apply(After(steps[..i]), steps[i])
    ensures forall p :: Withdraws(steps[i], p) <==> !Keeps(inputs[i], p)
  {
    hide Tracks;
    AfterStep(steps, i);
  }

  /** What an event tells of file f: it names f, or reports f's root or a path directly below it that is not itself
      subscribed, and f is found changed with a directory left above it, while no watch call was refused. */
  predicate Tells(event: FsEvent, fs: Fs, before: Moment, after: Moment, f: Path)
    requires f in before.targets
  {
    || f in PathsOf(event)
    || (after.refused == [] && Under(before.targets[f], RootsOf(PathsOf(event), before.targets.Keys))
        && Differs(fs, f, before.targets[f]))
  }

  /** Input i is an event that tells of file f, which p is subscribed to. */
  ghost predicate ToldOf(inputs: seq<Input>, steps: seq<Step>, moments: seq<Moment>, i: nat, p: Provider, f: Path)
    requires i < |inputs| == |steps| && |moments| == |inputs| + 1
  {
    && inputs[i].EventInput? && (p, f) in After(steps[..i]).subs && f in moments[i].targets
    && Tells(inputs[i].event, inputs[i].fs, moments[i], moments[i + 1], f)
  }

  /** While no watch call is refused, an event touches exactly the files it tells of. */
  lemma EventTouches(inputs: seq<Input>, steps: seq<Step>, moments: seq<Moment>, i: nat, f: Path)
    requires Served(inputs, steps, moments) && i < |inputs| && inputs[i].EventInput? && f in moments[i].targets
    ensures Tells(inputs[i].event, inputs[i].fs, moments[i], moments[i + 1], f) ==> f in Touched(steps[i])
    ensures moments[i + 1].refused == [] && f in Touched(steps[i]) ==>
              Tells(inputs[i].event, inputs[i].fs, moments[i], moments[i + 1], f)
  {
    hide Served, Faithful, RootsOf, Differs, Under;
    StepFollows(inputs, steps, moments, i);
  }

  /** An event that tells of a file somebody is subscribed to notifies them. */
  lemma EventNotifies(inputs: seq<Input>, steps: seq<Step>, moments: seq<Moment>, i: nat, p: Provider, f: Path)
    requires Served(inputs, steps, moments) && i < |inputs| && |steps| == |inputs| && |moments| == |inputs| + 1
    requires ToldOf(inputs, steps, moments, i, p, f)
    ensures Notifies(steps, i, p) && Touched(steps[i]) != {}
  {
    hide Served, Faithful, Announces, Tells;
    StepFollows(inputs, steps, moments, i);
    EventTouches(inputs, steps, moments, i, f);
    assert f in Touched(steps[i]) && (p, f) in After(steps[..i + 1]).subs;
  }

  /** No event is lost: if an event tells of a file that p is subscribed to, then the next time the timer runs p is
      announced and the announcement is sent, unless p was cleared or replaced in between. */
  lemma EventIsAnnounced(inputs: seq<Input>, steps: seq<Step>, moments: seq<Moment>, i: nat, j: nat, p: Provider,
                         f: Path)
    requires Served(inputs, steps, moments) && |steps| == |inputs| && |moments| == |inputs| + 1
    requires i < j < |inputs| && ToldOf(inputs, steps, moments, i, p, f)
    requires forall k :: i < k < j ==> Keeps(inputs[k], p) && !steps[k].FireStep?
    requires inputs[j].TimeInput? && Due(After(steps[..j]), inputs[j].now)
    ensures steps[j].FireStep? && p in Announced(steps, j) && Announced(steps, j) in Announcements(steps)
  {
    hide Served, Handled, ToldOf;
    EventNotifies(inputs, steps, moments, i, p, f);
    forall k | i < k < j
      ensures !Withdraws(steps[k], p)
    {
      StepFollows(inputs, steps, moments, k);
    }
    TimerRuns(inputs, steps, moments, j);
    assert Owed(steps, i, j, p);
    AnnouncedExactlyWhenOwed(steps, j, p);
    AnnouncedIsSent(steps, j);
  }

  lemma TimerRuns(inputs: seq<Input>, steps: seq<Step>, moments: seq<Moment>, j: nat)
    requires Served(inputs, steps, moments) && j < |inputs| && inputs[j].TimeInput?
    ensures |steps| == |inputs| && steps[j] == if Due(After(steps[..j]), inputs[j].now) then FireStep(inputs[j].now)
              else IdleStep(inputs[j].now)
  {
    StepFollows(inputs, steps, moments, j);
  }

  /** Nor is it put off for ever: a quiet period of the debounce delay before a look at the clock is enough. */
  lemma QuietPeriodDelivers(inputs: seq<Input>, steps: seq<Step>, moments: seq<Moment>, i: nat, j: nat, p: Provider,
                            f: Path)
    requires Served(inputs, steps, moments) && |steps| == |inputs| && |moments| == |inputs| + 1
    requires i < j < |inputs| && ToldOf(inputs, steps, moments, i, p, f)
    requires forall k :: i < k < j ==> Keeps(inputs[k], p)
    requires inputs[j].TimeInput?
    requires forall k :: i <= k < j && (inputs[k].EventInput? || inputs[k].ReplaceInput?) ==>
               inputs[k].now + DEBOUNCE_DELAY <= inputs[j].now
    ensures exists n ::
              i < n <= j && steps[n].FireStep? && p in Announced(steps, n)
                && Announced(steps, n) in Announcements(steps)
  {
    hide Served, Handled, Announcements, ToldOf;
    var n := FirstTimer(inputs, steps, moments, i, j);
    EventNotifies(inputs, steps, moments, i, p, f);
    if n == j {
      DueAfterQuiet(inputs, steps, moments, i, j);
    } else {
      TimerDue(inputs, steps, moments, n);
    }
    EventIsAnnounced(inputs, steps, moments, i, n, p, f);
  }

  /** The first time after i that the timer runs, or j if it does not run before. */
  lemma {:induction false} FirstTimer(inputs: seq<Input>, steps: seq<Step>, moments: seq<Moment>, i: nat, j: nat)
    returns (n: nat)
    requires Served(inputs, steps, moments) && i < j < |inputs|
    ensures i < n <= j && (n < j ==> steps[n].FireStep?) && forall k :: i < k < n ==> !steps[k].FireStep?
    decreases j
  {
    if i + 1 == j {
      n := j;
    } else {
      n := FirstTimer(inputs, steps, moments, i, j - 1);
      if n == j - 1 && !steps[n].FireStep? {
        n := j;
      }
    }
  }

  lemma TimerDue(inputs: seq<Input>, steps: seq<Step>, moments: seq<Moment>, n: nat)
    requires Served(inputs, steps, moments) && n < |inputs| && steps[n].FireStep?
    ensures inputs[n].TimeInput? && Due(After(steps[..n]), inputs[n].now)
  {
    StepFollows(inputs, steps, moments, n);
  }

  lemma DueAfterQuiet(inputs: seq<Input>, steps: seq<Step>, moments: seq<Moment>, i: nat, j: nat)
    requires Served(inputs, steps, moments) && i < j < |inputs| && inputs[j].TimeInput?
    requires Touched(steps[i]) != {} && forall k :: i < k < j ==> !steps[k].FireStep?
    requires forall k :: i <= k < j && (inputs[k].EventInput? || inputs[k].ReplaceInput?) ==>
               inputs[k].now + DEBOUNCE_DELAY <= inputs[j].now
    ensures Due(After(steps[..j]), inputs[j].now)
  {
    hide Served, Handled;
    SameLength(inputs, steps, moments);
    DeadlineIsSet(inputs, steps, moments, i, j);
    var before := steps[..j];
    DeadlineIsTrailing(before);
    var k: nat :| k < j && Touched(before[k]) != {} && After(before).deadline.value == before[k].now + DEBOUNCE_DELAY
      && forall l :: k < l < j ==> Touched(before[l]) == {} && !before[l].FireStep?;
    assert before[i] == steps[i] && before[k] == steps[k];
    TouchedAt(inputs, steps, moments, k);
  }

  lemma TouchedAt(inputs: seq<Input>, steps: seq<Step>, moments: seq<Moment>, k: nat)
    requires Served(inputs, steps, moments) && k < |inputs| && Touched(steps[k]) != {}
    ensures (inputs[k].EventInput? || inputs[k].ReplaceInput?) && steps[k].now == inputs[k].now
  {
    StepFollows(inputs, steps, moments, k);
  }

  lemma {:induction false} DeadlineIsSet(inputs: seq<Input>, steps: seq<Step>, moments: seq<Moment>, i: nat, j: nat)
    requires Served(inputs, steps, moments) && i < j <= |inputs|
    requires Touched(steps[i]) != {} && forall k :: i < k < j ==> !steps[k].FireStep?
    ensures |steps| == |inputs| && After(steps[..j]).deadline.Some?
    decreases j
  {
    hide Served, After;
    SameLength(inputs, steps, moments);
    AfterStep(steps, j - 1);
    if i + 1 < j {
      DeadlineIsSet(inputs, steps, moments, i, j - 1);
    }
  }

  /** The input is a reason to notify p of f: an event that names f or finds it changed, or a command that subscribes to
      f and finds it other than declared or last observed. */
  ghost predicate Cause(input: Input, m: Monitor, before: Moment, after: Moment, p: Provider, f: Path) {
    match input
    case EventInput(event, fs, _) =>
      && (p, f) in m.subs && f in before.targets
      && (f in PathsOf(event)
          || (Under(before.targets[f], RootsOf(PathsOf(event), before.targets.Keys))
              && Differs(fs, f, before.targets[f])))
    case ReplaceInput(q, files, fs, _) =>
      && f in Installable(fs, files) && f in after.targets && p in after.targets[f].providers
      && exists d :: FileSubscription(f, d) in files
                     && Changed(Registered(fs, ClearedTargets(before.targets, q, FilesIn(m.subs, q)), q, f, d),
                                fs.Exists(f))
    case _ => false
  }

  ghost predicate HasCause(input: Input, m: Monitor, before: Moment, after: Moment, p: Provider) {
    exists f: Path :: Cause(input, m, before, after, p, f)
  }

  /** Input i is a reason to notify p that nothing withdrew before step j, with no run of the timer in between. */
  ghost predicate CausedAt(inputs: seq<Input>, steps: seq<Step>, moments: seq<Moment>, i: nat, j: nat, p: Provider)
    requires i < j <= |inputs| == |steps| && |moments| == |inputs| + 1
  {
    && HasCause(inputs[i], After(steps[..i]), moments[i], moments[i + 1], p)
    && forall k :: i < k < j ==> Keeps(inputs[k], p) && !steps[k].FireStep?
  }

  /** No notification is invented: whoever is announced had a reason that nothing withdrew since the timer last ran. */
  lemma AnnouncementHasCause(inputs: seq<Input>, steps: seq<Step>, moments: seq<Moment>, j: nat, p: Provider)
    requires Served(inputs, steps, moments) && j < |inputs| && steps[j].FireStep? && p in Announced(steps, j)
    ensures |steps| == |inputs| && |moments| == |inputs| + 1
    ensures exists i: nat :: i < j && CausedAt(inputs, steps, moments, i, j, p)
  {
    hide Served, Handled, Cause;
    SameLength(inputs, steps, moments);
    AnnouncedExactlyWhenOwed(steps, j, p);
    var i: nat :| i < j && Owed(steps, i, j, p);
    forall k | i < k < j
      ensures Keeps(inputs[k], p)
    {
      StepFollows(inputs, steps, moments, k);
    }
    var f :| f in Touched(steps[i]) && (p, f) in After(steps[..i + 1]).subs;
    TouchHasCause(inputs, steps, moments, i, p, f);
    assert CausedAt(inputs, steps, moments, i, j, p);
  }

  lemma TouchHasCause(inputs: seq<Input>, steps: seq<Step>, moments: seq<Moment>, i: nat, p: Provider, f: Path)
    requires Served(inputs, steps, moments) && i < |inputs|
    requires f in Touched(steps[i]) && (p, f) in After(steps[..i + 1]).subs
    ensures Cause(inputs[i], After(steps[..i]), moments[i], moments[i + 1], p, f)
  {
    hide Served, Announces, Quiet, ClearedTargets;
    StepFollows(inputs, steps, moments, i);
  }

  /** What an input makes of the subscriptions if no watch call is refused. */
  function Subscribing(subs: set<Pair>, input: Input): set<Pair> {
    match input
    case ClearInput(p, _) => Without(subs, p)
    case ReplaceInput(p, files, fs, _) => Without(subs, p) + PairsOf(p, Installable(fs, files))
    case _ => subs
  }

  function Subscriptions(inputs: seq<Input>): set<Pair> {
    if inputs == [] then {} else Subscribing(Subscriptions(inputs[..|inputs| - 1]), inputs[|inputs| - 1])
  }

  lemma HandledSubscribes(input: Input, step: Step, m: Monitor, before: Moment, after: Moment)
    requires Handled(input, step, m, before, after) && after.refused == []
    ensures before.refused == [] && Apply(m, step).subs == Subscribing(m.subs, input)
  {
    hide Faithful, Announces, Subscribed, ClearedTargets, Installable;
  }

  /** As long as no watch call is refused, the subscriptions are what the commands alone say. */
  lemma {:induction false} SubscriptionsFollowCommands(inputs: seq<Input>, steps: seq<Step>, moments: seq<Moment>,
                                                       n: nat)
    requires Served(inputs, steps, moments) && n <= |inputs| && moments[n].refused == []
    ensures After(steps[..n]).subs == Subscriptions(inputs[..n])
    decreases n
  {
    SameLength(inputs, steps, moments);
    if n > 0 {
      hide Served, Handled, Subscribing;
      StepFollows(inputs, steps, moments, n - 1);
      HandledSubscribes(inputs[n - 1], steps[n - 1], After(steps[..n - 1]), moments[n - 1], moments[n]);
      SubscriptionsFollowCommands(inputs, steps, moments, n - 1);
      assert inputs[..n][..n - 1] == inputs[..n - 1];
    }
  }

  /** The input is an event that a path was removed or renamed. */
  predicate SaysGone(input: Input, f: Path) {
    && input.EventInput? && input.event.Reported? && f in input.event.paths
    && (input.event.kind.Remove? || input.event.kind.Rename?)
  }

  /** Every registered root has a live watch after any run in which no subscribed path was itself removed or renamed. */
  lemma {:induction false} RootsStayLive(inputs: seq<Input>, steps: seq<Step>, moments: seq<Moment>, n: nat)
    requires Served(inputs, steps, moments) && n <= |inputs| && moments[0].blind == {}
    requires forall i, f :: 0 <= i < n && SaysGone(inputs[i], f) ==> f !in moments[i].targets
    ensures moments[n].blind == {}
  {
    if n > 0 {
      hide Served;
      RootsStayLive(inputs, steps, moments, n - 1);
      SameLength(inputs, steps, moments);
      StepFollows(inputs, steps, moments, n - 1);
    }
  }

  // ----- which events count -----

  /** Whatever is created, removed, renamed, modified or changed in an unknown way: if p is subscribed to a path that
      the event lists, it is announced the next time the timer runs, unless it was cleared or replaced in between. */
  lemma ListedPathIsAnnounced(inputs: seq<Input>, steps: seq<Step>, moments: seq<Moment>, i: nat, j: nat, p: Provider,
                              f: Path)
    requires Served(inputs, steps, moments) && |steps| == |inputs| && |moments| == |inputs| + 1 && i < j < |inputs|
    requires inputs[i].EventInput? && inputs[i].event.Reported? && f in inputs[i].event.paths
    requires inputs[i].event.kind in {Create, Remove, Rename, Modify, Other}
    requires (p, f) in After(steps[..i]).subs
    requires forall k :: i < k < j ==> Keeps(inputs[k], p) && !steps[k].FireStep?
    requires inputs[j].TimeInput? && Due(After(steps[..j]), inputs[j].now)
    ensures f in Touched(steps[i])
    ensures steps[j].FireStep? && p in Announced(steps, j) && Announced(steps, j) in Announcements(steps)
  {
    hide Served;
    StepFollows(inputs, steps, moments, i);
    EventTouches(inputs, steps, moments, i, f);
    EventIsAnnounced(inputs, steps, moments, i, j, p, f);
  }

  /** Changes of metadata, mere accesses and errors of the backend change nothing. */
  lemma OtherEventsAreIgnored(inputs: seq<Input>, steps: seq<Step>, moments: seq<Moment>, i: nat)
    requires Served(inputs, steps, moments) && |steps| == |inputs| && |moments| == |inputs| + 1 && i < |inputs|
    requires inputs[i].EventInput?
    requires inputs[i].event.BackendError? || inputs[i].event.kind in {Metadata, Access}
    ensures Touched(steps[i]) == {} && moments[i + 1].targets == moments[i].targets
    ensures After(steps[..i + 1]) == After(steps[..i])
  {
    hide Served;
    StepFollows(inputs, steps, moments, i);
  }

  // ----- a change that is missed -----

  const DIRS := Fs({["a"]}, {})
  const OUTER: Path := ["a", "b"]
  const INNER: Path := ["a", "b", "c"]
  const INNER_THERE := Fs({["a"], OUTER}, {INNER})

  /** One provider subscribes to /a/b and another to /a/b/c while only /a is there; then /a/b arrives with c inside, and
      the event names /a/b. */
  function Nested(): seq<Input> {
    [ReplaceInput("p", [FileSubscription(OUTER, false)], DIRS, 0),
     ReplaceInput("q", [FileSubscription(INNER, false)], DIRS, 0),
     EventInput(Reported(Create, [OUTER]), INNER_THERE, 0)]
  }

  lemma OnlyRoot()
    ensures ComputeRoot(DIRS, OUTER) == Some(["a"]) && ComputeRoot(DIRS, INNER) == Some(["a"])
    ensures ComputeRoot(INNER_THERE, INNER).Some? && INNER_THERE.Exists(INNER) && !DIRS.Exists(INNER)
  {
    assert OUTER[..1] == ["a"] && INNER[..2] == OUTER && OUTER != ["a"];
    assert NearestNonRootAncestor(DIRS, ["a"]) == Some(["a"]);
    assert NearestNonRootAncestor(DIRS, OUTER) == Some(["a"]);
  }

  /** The second file is then missed, even though its root is watched, it is found changed and no watch was refused: the
      event is used up by the subscription to /a/b. */
  lemma ChangeBelowSubscribedPathIsMissed(steps: seq<Step>, moments: seq<Moment>)
    requires Served(Nested(), steps, moments) && moments[0].targets == map[] && moments[3].refused == []
    ensures INNER in moments[2].targets && moments[2].targets[INNER].root == Some(["a"])
    ensures Differs(INNER_THERE, INNER, moments[2].targets[INNER]) && INNER !in Touched(steps[2])
    ensures moments[3].targets[INNER] == moments[2].targets[INNER]
  {
    hide Served, Handled;
    OnlyRoot();
    SameLength(Nested(), steps, moments);
    StepFollows(Nested(), steps, moments, 0);
    StepFollows(Nested(), steps, moments, 1);
    StepFollows(Nested(), steps, moments, 2);
    NothingRefused(Nested()[2], steps[2], After(steps[..2]), moments[2], moments[3]);
    NothingRefused(Nested()[1], steps[1], After(steps[..1]), moments[1], moments[2]);
    FirstSubscription("p", OUTER, steps[0], After(steps[..0]), moments[0], moments[1]);
    FirstSubscription("q", INNER, steps[1], After(steps[..1]), moments[1], moments[2]);
    NamedOnly(steps[2], After(steps[..2]), moments[2], moments[3]);
  }

  lemma NothingRefused(input: Input, step: Step, m: Monitor, before: Moment, after: Moment)
    requires Handled(input, step, m, before, after) && after.refused == []
    ensures before.refused == []
  {
  }

  lemma FirstSubscription(p: Provider, f: Path, step: Step, m: Monitor, before: Moment, after: Moment)
    requires Handled(ReplaceInput(p, [FileSubscription(f, false)], DIRS, 0), step, m, before, after)
    requires ComputeRoot(DIRS, f) == Some(["a"]) && !DIRS.Exists(f)
    requires after.refused == [] && f !in before.targets && Tracks(m, before.targets)
    requires FilesIn(m.subs, p) == {}
    ensures after.targets.Keys == before.targets.Keys + {f}
    ensures after.targets[f] == TargetState({p}, Some(["a"]), false, None)
    ensures forall g :: g in before.targets ==> after.targets[g] == before.targets[g]
  {
  }

  lemma NamedOnly(step: Step, m: Monitor, before: Moment, after: Moment)
    requires Handled(Nested()[2], step, m, before, after) && OUTER in before.targets && INNER in before.targets
    ensures INNER !in Touched(step) && after.targets[INNER] == before.targets[INNER]
  {
    assert PathsOf(Nested()[2].event) == {OUTER};
    RootsOfPath(OUTER, before.targets.Keys);
  }
}
