/** Mutual exclusion of the auth file lock over all interleavings of any number of processes, crashes
    included. Creating the directory and opening it is one step, and so is testing it for staleness
    and removing it; a heartbeat and a release are two steps each. A new directory may get any inode
    number, also one that was used before. */
module LockProtocol {
  import opened AuthLock

  /** STALE_AFTER, in milliseconds. */
  const STALE_AFTER: nat := 30000

  type Pid = nat

  datatype Phase = Running | Stamping | Removing

  /** A process outside the lock, in the acquisition loop, or with a handle. Stamping and Removing are
      after the verification and before the write of a heartbeat and of a release. */
  datatype Process = Idle | Waiting(recoveredStale: bool) | Live(h: Handle, phase: Phase)

  datatype System = System(now: Time, entry: Entry, mtime: map<Inode, Time>, processes: map<Pid, Process>)

  datatype Step =
    | Start(p: Pid)
    | Create(p: Pid, inode: Inode)
    | RemoveStale(p: Pid)
    | GiveUp(p: Pid)
    | BeginHeartbeat(p: Pid, ioOk: bool)
    | Stamp(p: Pid, readOk: bool)
    | CheckOwnership(p: Pid, ioOk: bool)
    | BeginRelease(p: Pid, ioOk: bool)
    | Remove(p: Pid, removeOk: bool)
    | Crash(p: Pid)
    | Tick(now: Time)

  predicate IsLive(s: System, p: Pid) {
    p in s.processes && s.processes[p].Live?
  }

  predicate InPhase(s: System, p: Pid, phase: Phase) {
    IsLive(s, p) && s.processes[p].phase == phase
  }

  predicate Stale(s: System) {
    && s.entry.Directory? && s.entry.inode in s.mtime
    && s.mtime[s.entry.inode] <= s.now && s.now - s.mtime[s.entry.inode] > STALE_AFTER
  }

  predicate Enabled(s: System, step: Step) {
    match step
    case Start(p) => p !in s.processes || s.processes[p].Idle?
    case Create(p, inode) => p in s.processes && s.processes[p].Waiting? && s.entry.Missing?
    case RemoveStale(p) => p in s.processes && s.processes[p] == Waiting(false) && Stale(s)
    case GiveUp(p) => p in s.processes && s.processes[p].Waiting?
    case BeginHeartbeat(p, _) => InPhase(s, p, Running) && !s.processes[p].h.failed
    case Stamp(p, _) => InPhase(s, p, Stamping)
    case CheckOwnership(p, _) => InPhase(s, p, Running)
    case BeginRelease(p, _) => InPhase(s, p, Running)
    case Remove(p, _) => InPhase(s, p, Removing)
    case Crash(p) => p in s.processes
    case Tick(now) => s.now <= now
  }

  function Set(s: System, p: Pid, process: Process): System {
    s.(processes := s.processes[p := process])
  }

  function Apply(s: System, step: Step): System
    requires Enabled(s, step)
  {
    match step
    case Start(p) => Set(s, p, Waiting(false))
    case Create(p, inode) =>
      Set(s.(entry := Directory(inode), mtime := s.mtime[inode := s.now]), p,
          Live(Handle(inode, s.now, false, false), Running))
    case RemoveStale(p) => Set(s.(entry := Missing), p, Waiting(true))
    case GiveUp(p) => Set(s, p, Idle)
    case BeginHeartbeat(p, ioOk) =>
      var h := s.processes[p].h;
      if ioOk && Verifies(h, s.entry, s.mtime) then Set(s, p, Live(h, Stamping))
        else Set(s, p, Live(h.(failed := true), Running))
    case Stamp(p, readOk) =>
      var h := s.processes[p].h;
      Set(s.(mtime := s.mtime[h.dir := s.now]), p, Live(Refreshed(h, s.now, readOk), Running))
    case CheckOwnership(p, ioOk) =>
      var h := s.processes[p].h;
      Set(s, p, Live(Checked(h, ioOk && Verifies(h, s.entry, s.mtime)), Running))
    case BeginRelease(p, ioOk) =>
      var h := s.processes[p].h;
      if ioOk && Verifies(h, s.entry, s.mtime) then Set(s, p, Live(h, Removing)) else Set(s, p, Idle)
    case Remove(p, removeOk) => Set(s.(entry := if removeOk then Missing else s.entry), p, Idle)
    case Crash(p) => Set(s, p, Idle)
    case Tick(now) => s.(now := now)
  }

  /** A live handle that has not failed a check or heartbeat. */
  predicate Holds(s: System, p: Pid) {
    IsLive(s, p) && !s.processes[p].h.failed
  }

  /** The assumption on the heartbeat: no holder's directory is older than STALE_AFTER. */
  ghost predicate Timely(s: System) {
    forall p :: Holds(s, p) && s.processes[p].h.dir in s.mtime ==> s.now <= s.mtime[s.processes[p].h.dir] + STALE_AFTER
  }

  /** The initial system: no process has a handle; a directory left behind by a crash may be there. */
  ghost predicate Initial(s: System) {
    && (forall p :: !IsLive(s, p))
    && (s.entry.Directory? ==> s.entry.inode in s.mtime)
  }

  ghost predicate Execution(ss: seq<System>, steps: seq<Step>) {
    && |ss| == |steps| + 1 && Initial(ss[0])
    && forall i :: 0 <= i < |steps| ==> Enabled(ss[i], steps[i]) && ss[i + 1] == Apply(ss[i], steps[i])
  }

  /** Every holder owns the directory at the path, and there is only one holder. */
  ghost predicate Exclusive(s: System) {
    && (forall p :: Holds(s, p) ==> Verifies(s.processes[p].h, s.entry, s.mtime))
    && (forall p, q :: Holds(s, p) && Holds(s, q) ==> p == q)
    && (forall p :: IsLive(s, p) && s.processes[p].phase != Running ==> Holds(s, p))
  }

  lemma CreateKeepsExclusion(s: System, p: Pid, inode: Inode)
    requires Exclusive(s) && Enabled(s, Create(p, inode))
    ensures Exclusive(Apply(s, Create(p, inode)))
  {
    var next := Apply(s, Create(p, inode));
    assert forall q :: !Holds(s, q);
    assert forall q :: IsLive(next, q) && q != p ==> IsLive(s, q) && !Holds(s, q);
    assert forall q :: Holds(next, q) ==> q == p;
  }

  lemma RemoveStaleKeepsExclusion(s: System, p: Pid)
    requires Exclusive(s) && Timely(s) && Enabled(s, RemoveStale(p))
    ensures Exclusive(Apply(s, RemoveStale(p)))
  {
    assert forall q :: !Holds(s, q);
    assert forall q :: Holds(Apply(s, RemoveStale(p)), q) ==> Holds(s, q);
  }

  lemma RemoveKeepsExclusion(s: System, p: Pid, removeOk: bool)
    requires Exclusive(s) && Enabled(s, Remove(p, removeOk))
    ensures Exclusive(Apply(s, Remove(p, removeOk)))
  {
    assert forall q :: Holds(s, q) ==> q == p;
    assert forall q :: Holds(Apply(s, Remove(p, removeOk)), q) ==> q != p && Holds(s, q);
  }

  lemma StampKeepsExclusion(s: System, p: Pid, readOk: bool)
    requires Exclusive(s) && Enabled(s, Stamp(p, readOk))
    ensures Exclusive(Apply(s, Stamp(p, readOk)))
  {
    assert Holds(s, p);
    assert forall q :: Holds(Apply(s, Stamp(p, readOk)), q) ==> Holds(s, q);
  }

  /** The other steps write nothing, and give nobody a handle. */
  lemma OtherStepsKeepExclusion(s: System, step: Step)
    requires Exclusive(s) && Enabled(s, step)
    requires !step.Create? && !step.RemoveStale? && !step.Remove? && !step.Stamp?
    ensures Exclusive(Apply(s, step))
  {
    var next := Apply(s, step);
    assert next.entry == s.entry && next.mtime == s.mtime;
    forall q | IsLive(next, q)
      ensures IsLive(s, q) && (Holds(next, q) ==> Holds(s, q) && next.processes[q].h == s.processes[q].h)
      ensures next.processes[q].phase != Running ==> Holds(next, q)
    {
      if step.Tick? || q != step.p {
        assert next.processes[q] == s.processes[q];
      }
    }
  }

  lemma StepKeepsExclusion(s: System, step: Step)
    requires Exclusive(s) && Timely(s) && Enabled(s, step)
    ensures Exclusive(Apply(s, step))
  {
    hide Exclusive, Timely, Enabled, Apply;
    match step
    case Create(p, inode) => CreateKeepsExclusion(s, p, inode);
    case RemoveStale(p) => RemoveStaleKeepsExclusion(s, p);
    case Stamp(p, readOk) => StampKeepsExclusion(s, p, readOk);
    case Remove(p, removeOk) => RemoveKeepsExclusion(s, p, removeOk);
    case _ => OtherStepsKeepExclusion(s, step);
  }

  /** At most one live handle holds the lock at any time, and it owns the directory at the path:
      for every execution in which no holder's heartbeat is late. */
  lemma {:induction false} MutualExclusion(ss: seq<System>, steps: seq<Step>, i: nat)
    requires Execution(ss, steps) && i < |ss|
    requires forall j :: 0 <= j < i ==> Timely(ss[j])
    ensures Exclusive(ss[i])
  {
    if i > 0 {
      MutualExclusion(ss, steps, i - 1);
      StepKeepsExclusion(ss[i - 1], steps[i - 1]);
    }
  }

  lemma Then(ss: seq<System>, steps: seq<Step>, s: System, step: Step)
    returns (more: seq<System>, moreSteps: seq<Step>, next: System)
    requires Execution(ss, steps) && s == ss[|ss| - 1] && Enabled(s, step)
    ensures Execution(more, moreSteps) && next == more[|more| - 1] && next == Apply(s, step)
  {
    next := Apply(s, step);
    more, moreSteps := ss + [next], steps + [step];
  }

  /** The assumption is needed: a holder whose heartbeat is late by one millisecond can lose the lock to
      another process without noticing. Only the new holder still verifies. */
  lemma LateHeartbeatBreaksExclusion() returns (ss: seq<System>, steps: seq<Step>)
    ensures Execution(ss, steps)
    ensures var last := ss[|ss| - 1];
            && Holds(last, 0) && Holds(last, 1)
            && !Verifies(last.processes[0].h, last.entry, last.mtime)
            && Verifies(last.processes[1].h, last.entry, last.mtime)
  {
    var s := System(0, Missing, map[], map[]);
    ss, steps := [s], [];
    assert Execution(ss, steps);
    hide Execution;
    ss, steps, s := Then(ss, steps, s, Start(0));
    ss, steps, s := Then(ss, steps, s, Create(0, 0));
    ss, steps, s := Then(ss, steps, s, Start(1));
    ss, steps, s := Then(ss, steps, s, Tick(STALE_AFTER + 1));
    ss, steps, s := Then(ss, steps, s, RemoveStale(1));
    ss, steps, s := Then(ss, steps, s, Create(1, 1));
  }

  // ----- the steps of a process are the operations of its handle -----

  function WorldOf(s: System): World {
    World(s.entry, s.mtime, map p | p in s.processes && s.processes[p].Live? :: s.processes[p].h)
  }

  /** Creating the directory is opening a handle on it. */
  lemma CreateOpens(s: System, p: Pid, inode: Inode)
    requires Enabled(s, Create(p, inode))
    ensures var made := WorldOf(s).(entry := Directory(inode), mtime := s.mtime[inode := s.now]);
            Allowed(made, OpenAction(p)) && WorldOf(Apply(s, Create(p, inode))) == Do(made, OpenAction(p))
  {
  }

  /** The two steps of a heartbeat are a refresh of the handle; the second is left out if the first fails. */
  lemma HeartbeatRefreshes(s: System, p: Pid, ioOk: bool, readOk: bool)
    requires Enabled(s, BeginHeartbeat(p, ioOk))
    ensures var begun, refresh := Apply(s, BeginHeartbeat(p, ioOk)), RefreshAction(p, s.now, ioOk, readOk);
            var done := if InPhase(begun, p, Stamping) then Apply(begun, Stamp(p, readOk)) else begun;
            InPhase(done, p, Running) && Allowed(WorldOf(s), refresh) && WorldOf(done) == Do(WorldOf(s), refresh)
  {
  }

  lemma OwnershipIsChecked(s: System, p: Pid, ioOk: bool)
    requires Enabled(s, CheckOwnership(p, ioOk))
    ensures Allowed(WorldOf(s), CheckAction(p, ioOk))
    ensures WorldOf(Apply(s, CheckOwnership(p, ioOk))) == Do(WorldOf(s), CheckAction(p, ioOk))
  {
  }

  /** The two steps of a release finish the handle, which is then forgotten. */
  lemma ReleaseFinishes(s: System, p: Pid, ioOk: bool, removeOk: bool)
    requires Enabled(s, BeginRelease(p, ioOk))
    ensures var begun, finish := Apply(s, BeginRelease(p, ioOk)), FinishAction(p, ioOk, removeOk);
            var done := if InPhase(begun, p, Removing) then Apply(begun, Remove(p, removeOk)) else begun;
            && done.processes[p].Idle? && Allowed(WorldOf(s), finish)
            && var finished := Do(WorldOf(s), finish);
            WorldOf(done) == finished.(handles := finished.handles - {p}) && finished.handles[p].released
  {
  }
}
