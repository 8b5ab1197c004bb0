/** Taking the auth file lock: the acquisition loop of one process among others that follow the same protocol. */
module LockAcquire {
  import opened AuthLock
  import opened LockProtocol

  predicate ByOther(step: Step, p: Pid) {
    step.Tick? || step.p != p
  }

  datatype CreateResult = Created | AlreadyExists | CreateFailed
  datatype StatResult = IsDirectory(mtime: Time) | NotDirectory | NotFound | StatFailed
  datatype RemoveResult = Removed | AlreadyGone | RemoveFailed

  /** The shared file system and its clock. Between any two calls of a process the others take any steps that the
      protocol allows them, and time passes. The execution so far is kept in `states` and `steps`. */
  class SharedFiles {
    var now: System
    var elapsed: nat
    ghost var tries: nat     // calls that create the directory
    ghost var refusals: nat  // answers other than that a directory is there or is not
    ghost var states: seq<System>
    ghost var steps: seq<Step>

    ghost predicate Valid()
      reads this
    {
      && Execution(states, steps) && |states| == |steps| + 1 && now == states[|steps|]
      && (now.entry.Directory? ==> now.entry.inode in now.mtime)
    }

    constructor (s: System)
      requires Initial(s)
      ensures Valid() && now == s && steps == [] && elapsed == 0
    {
      now, elapsed, states, steps, tries, refusals := s, 0, [s], [], 0, 0;
    }

    method Take(step: Step)
      requires Valid() && Enabled(now, step)
      modifies this`now, this`states, this`steps
      ensures Valid() && now == Apply(old(now), step)
      ensures states == old(states) + [now] && steps == old(steps) + [step]
    {
      now := Apply(now, step);
      states, steps := states + [now], steps + [step];
    }

    /** Steps of the other processes, and time. */
    method Others(p: Pid)
      requires Valid() && p in now.processes
      modifies this`now, this`elapsed, this`states, this`steps
      ensures Valid() && p in now.processes && now.processes[p] == old(now).processes[p]
      ensures old(states) <= states && old(steps) <= steps && elapsed >= old(elapsed)
      ensures forall i :: |old(steps)| <= i < |steps| ==> ByOther(steps[i], p)
    {
      hide Execution;
      var n: int := *;
      for k := 0 to if n > 0 then n else 0
        invariant Valid() && p in now.processes && now.processes[p] == old(now).processes[p]
        invariant old(states) <= states && old(steps) <= steps && elapsed == old(elapsed)
        invariant forall i :: |old(steps)| <= i < |steps| ==> ByOther(steps[i], p)
      {
        var step: Step := *;
        if Enabled(now, step) && ByOther(step, p) {
          Take(step);
        }
      }
      var passed: int := *;
      elapsed := elapsed + if passed > 0 then passed else 0;
    }

    method CreateDir(p: Pid) returns (r: CreateResult)
      requires Valid() && p in now.processes && now.processes[p].Waiting?
      modifies this
      ensures Valid() && old(states) <= states && old(steps) <= steps && elapsed >= old(elapsed)
      ensures tries == old(tries) + 1 && refusals == old(refusals) + if r.CreateFailed? then 1 else 0
      ensures p in now.processes
      ensures !r.Created? ==>
                && now.processes[p] == old(now).processes[p]
                && forall i :: |old(steps)| <= i < |steps| ==> ByOther(steps[i], p)
      ensures r.Created? ==>
                && TookLock(states, steps, p) && |steps| > |old(steps)|
                && forall i :: |old(steps)| <= i < |steps| - 1 ==> ByOther(steps[i], p)
    {
      hide Execution;
      tries := tries + 1;
      Others(p);
      var fails := *;
      if fails {
        refusals := refusals + 1;
        return CreateFailed;
      }
      if !now.entry.Missing? {
        return AlreadyExists;
      }
      var inode: int := *;
      Take(Create(p, if inode > 0 then inode else 0));
      r := Created;
    }

    method Stat(p: Pid) returns (r: StatResult)
      requires Valid() && p in now.processes
      modifies this
      ensures Valid() && p in now.processes && now.processes[p] == old(now).processes[p]
      ensures old(states) <= states && old(steps) <= steps && elapsed >= old(elapsed)
      ensures forall i :: |old(steps)| <= i < |steps| ==> ByOther(steps[i], p)
      ensures tries == old(tries) && refusals == old(refusals) + if r.NotDirectory? || r.StatFailed? then 1 else 0
      ensures match r
              case IsDirectory(mtime) => now.entry.Directory? && mtime == now.mtime[now.entry.inode]
              case NotDirectory => now.entry.Other?
              case NotFound => now.entry.Missing?
              case StatFailed => true
    {
      hide Execution;
      Others(p);
      var fails := *;
      if fails {
        refusals := refusals + 1;
        return StatFailed;
      }
      match now.entry
      case Missing => r := NotFound;
      case Directory(inode) => r := IsDirectory(now.mtime[inode]);
      case Other =>
        refusals := refusals + 1;
        r := NotDirectory;
    }

    /** Removing a directory just found stale; it may be gone by then. */
    method RemoveDir(p: Pid) returns (r: RemoveResult)
      requires Valid() && Enabled(now, RemoveStale(p))
      modifies this
      ensures Valid() && old(states) <= states && old(steps) <= steps && elapsed >= old(elapsed)
      ensures tries == old(tries) && refusals == old(refusals) + if r.RemoveFailed? then 1 else 0
      ensures p in now.processes && now.processes[p] == if r.Removed? then Waiting(true) else Waiting(false)
      ensures r.Removed? ==> states == old(states) + [now] && steps == old(steps) + [RemoveStale(p)]
      ensures !r.Removed? ==> forall i :: |old(steps)| <= i < |steps| ==> ByOther(steps[i], p)
    {
      hide Execution;
      var outcome: RemoveResult := *;
      if outcome.Removed? {
        Take(RemoveStale(p));
        return Removed;
      }
      Others(p);
      if outcome.AlreadyGone? && now.entry.Missing? {
        return AlreadyGone;
      }
      refusals := refusals + 1;
      r := RemoveFailed;
    }
  }

  /** The last step was p's creation of the directory. */
  ghost predicate TookLock(ss: seq<System>, steps: seq<Step>, p: Pid) {
    && |ss| == |steps| + 1 && steps != [] && steps[|steps| - 1].Create? && steps[|steps| - 1].p == p
    && InPhase(ss[|steps|], p, Running) && Holds(ss[|steps|], p)
    && ss[|steps|].entry == Directory(ss[|steps|].processes[p].h.dir)
  }

  // ----- the loop -----

  /** A directory the loop found at the path: the system then, whether the loop set about removing the directory as
      stale, and how long it had been trying. */
  datatype Look = Look(state: System, removing: bool, elapsed: nat)

  ghost predicate SawStale(looks: seq<Look>) {
    exists k :: 0 <= k < |looks| && Stale(looks[k].state)
  }

  /** Every look saw a state of the execution; what is removed was stale, and the first stale directory is. */
  ghost predicate Recovers(looks: seq<Look>, ss: seq<System>) {
    && (forall k :: 0 <= k < |looks| ==> looks[k].state in ss)
    && (forall k :: 0 <= k < |looks| ==>
        (looks[k].removing <==> Stale(looks[k].state) && !SawStale(looks[..k])))
  }

  /** At the first n looks the loop had time left, or set about removing the directory. */
  ghost predicate InTime(looks: seq<Look>, n: int, wait: nat) {
    forall k :: 0 <= k < n && k < |looks| ==> looks[k].removing || looks[k].elapsed < wait
  }

  /** p's steps in this part of the execution are those of a process that waits for the lock: it starts, removes at most
      one directory, which is stale, and creates the directory or gives up. */
  ghost predicate WaitsProperly(ss: seq<System>, steps: seq<Step>, n: nat, p: Pid) {
    && |ss| == |steps| + 1
    && (forall i :: n <= i < |steps| && steps[i] == RemoveStale(p) ==> Stale(ss[i]))
    && (forall i, j :: n <= i < j < |steps| ==> !(steps[i] == RemoveStale(p) && steps[j] == RemoveStale(p)))
    && (forall i :: n <= i < |steps| && !ByOther(steps[i], p) ==>
        steps[i].Start? || steps[i].RemoveStale? || steps[i].Create? || steps[i].GiveUp?)
  }

  datatype Acquisition = Acquired | TimedOut | Refused | StillTrying

  /** Tries until the directory is created, at most so many times. The first directory that is stale is removed; only a
      directory that is not removed can be waited for in vain. */
  method Acquire(files: SharedFiles, p: Pid, wait: nat, attempts: nat) returns (r: Acquisition, ghost looks: seq<Look>)
    requires files.Valid() && Enabled(files.now, Start(p)) && files.elapsed == 0
    modifies files
    ensures files.Valid() && old(files.states) <= files.states && old(files.steps) <= files.steps
    ensures WaitsProperly(files.states, files.steps, |old(files.steps)|, p)
    ensures Recovers(looks, files.states)
    ensures r.Acquired? ==> TookLock(files.states, files.steps, p)
    ensures r.TimedOut? || r.Refused? ==> p in files.now.processes && files.now.processes[p].Idle?
    ensures r.Refused? <==> files.refusals > old(files.refusals)
    ensures InTime(looks, |looks| - 1, wait) && (r.TimedOut? <==> !InTime(looks, |looks|, wait))
    ensures r.StillTrying? ==> files.tries == old(files.tries) + attempts
  {
    hide Execution, WaitsProperly, Recovers, Apply, Stale, SawStale, NoRemoval, TookLock, InTime;
    ghost var n := |files.steps|;
    looks := [];
    NoLook(files.states);
    NoTime(wait);
    StartsWaiting(files.states, files.steps, p, files.now);
    files.Take(Start(p));
    LooksStay(looks, old(files.states), files.states);
    var recoveredStale := false;
    for t := 0 to attempts
      invariant old(files.states) <= files.states && old(files.steps) <= files.steps
      invariant Waits(files, p, n, recoveredStale, looks)
      invariant files.refusals == old(files.refusals) && files.tries == old(files.tries) + t
      invariant InTime(looks, |looks| - 1, wait) && InTime(looks, |looks|, wait)
    {
      r, recoveredStale, looks := TryOnce(files, p, wait, n, recoveredStale, looks);
      if !r.StillTrying? {
        return;
      }
    }
    r := StillTrying;
  }

  /** One round of the loop. */
  method TryOnce(files: SharedFiles, p: Pid, wait: nat, ghost n: nat, recovered: bool, ghost before: seq<Look>)
    returns (r: Acquisition, recoveredStale: bool, ghost looks: seq<Look>)
    requires Waits(files, p, n, recovered, before) && InTime(before, |before|, wait)
    modifies files
    ensures old(files.states) <= files.states && old(files.steps) <= files.steps
    ensures files.Valid() && WaitsProperly(files.states, files.steps, n, p) && Recovers(looks, files.states)
    ensures r.StillTrying? ==> Waits(files, p, n, recoveredStale, looks)
    ensures r.Acquired? ==> TookLock(files.states, files.steps, p)
    ensures r.TimedOut? || r.Refused? ==> p in files.now.processes && files.now.processes[p].Idle?
    ensures files.tries == old(files.tries) + 1
    ensures files.refusals == old(files.refusals) + if r.Refused? then 1 else 0
    ensures InTime(looks, |looks| - 1, wait) && (r.TimedOut? <==> !InTime(looks, |looks|, wait))
  {
    hide Execution, WaitsProperly, Recovers, Apply, Stale, SawStale, NoRemoval, TookLock, InTime;
    recoveredStale, looks := recovered, before;
    FewerLooks(looks, wait);
    var created := TryCreate(files, p, n, recoveredStale, looks);
    if created.Created? {
      return Acquired, recoveredStale, looks;
    }
    if created.CreateFailed? {
      GiveUpWaiting(files, p, n, recoveredStale, looks);
      return Refused, recoveredStale, looks;
    }
    var stat := LookAt(files, p, n, recoveredStale, looks);
    if stat.NotFound? {
      return StillTrying, recoveredStale, looks;
    }
    if !stat.IsDirectory? {
      GiveUpWaiting(files, p, n, recoveredStale, looks);
      return Refused, recoveredStale, looks;
    }
    StaleByAge(files.now, stat.mtime);
    OneMoreLook(looks, files.now, files.elapsed, files.states);
    var removing := !recoveredStale && files.now.now - stat.mtime > STALE_AFTER;
    OneMoreTime(looks, Look(files.now, removing, files.elapsed), wait);
    looks := looks + [Look(files.now, removing, files.elapsed)];
    if removing {
      var removed := RemoveDirectory(files, p, n, looks);
      recoveredStale := true;
      if removed.RemoveFailed? {
        GiveUpWaiting(files, p, n, recoveredStale, looks);
        return Refused, recoveredStale, looks;
      }
      return StillTrying, recoveredStale, looks;
    }
    if files.elapsed >= wait {
      GiveUpWaiting(files, p, n, recoveredStale, looks);
      return TimedOut, recoveredStale, looks;
    }
    r := StillTrying;
  }

  /** p waits for the lock; it started at step n, and these are its looks so far. */
  ghost predicate Waits(files: SharedFiles, p: Pid, n: nat, recoveredStale: bool, looks: seq<Look>)
    reads files
  {
    && files.Valid() && n <= |files.steps| && WaitsProperly(files.states, files.steps, n, p)
    && p in files.now.processes && files.now.processes[p].Waiting?
    && (!recoveredStale ==> files.now.processes[p] == Waiting(false) && NoRemoval(files.steps, n, p))
    && Recovers(looks, files.states) && (recoveredStale <==> SawStale(looks))
  }

  method TryCreate(files: SharedFiles, p: Pid, ghost n: nat, ghost recoveredStale: bool, ghost looks: seq<Look>)
    returns (r: CreateResult)
    requires Waits(files, p, n, recoveredStale, looks)
    modifies files
    ensures old(files.states) <= files.states && old(files.steps) <= files.steps
    ensures files.tries == old(files.tries) + 1
    ensures files.refusals == old(files.refusals) + if r.CreateFailed? then 1 else 0
    ensures if r.Created? then
              && files.Valid() && WaitsProperly(files.states, files.steps, n, p) && Recovers(looks, files.states)
              && TookLock(files.states, files.steps, p)
            else Waits(files, p, n, recoveredStale, looks)
  {
    hide Execution, WaitsProperly, Recovers, Apply, Stale, SawStale, NoRemoval, TookLock;
    ghost var ss, steps := files.states, files.steps;
    r := files.CreateDir(p);
    LooksStay(looks, ss, files.states);
    if r.Created? {
      CreatesAtLast(ss, steps, files.states, files.steps, n, p);
    } else {
      OthersWait(ss, steps, files.states, files.steps, n, p);
    }
  }

  method LookAt(files: SharedFiles, p: Pid, ghost n: nat, ghost recoveredStale: bool, ghost looks: seq<Look>)
    returns (r: StatResult)
    requires Waits(files, p, n, recoveredStale, looks)
    modifies files
    ensures Waits(files, p, n, recoveredStale, looks)
    ensures old(files.states) <= files.states && old(files.steps) <= files.steps && files.now in files.states
    ensures files.tries == old(files.tries)
    ensures files.refusals == old(files.refusals) + if r.NotDirectory? || r.StatFailed? then 1 else 0
    ensures r.IsDirectory? ==> files.now.entry.Directory? && r.mtime == files.now.mtime[files.now.entry.inode]
  {
    hide Execution, WaitsProperly, Recovers, Apply, Stale, SawStale, NoRemoval;
    ghost var ss, steps := files.states, files.steps;
    r := files.Stat(p);
    LooksStay(looks, ss, files.states);
    OthersWait(ss, steps, files.states, files.steps, n, p);
  }

  /** Removes the directory that the last look found stale. */
  method RemoveDirectory(files: SharedFiles, p: Pid, ghost n: nat, ghost looks: seq<Look>) returns (r: RemoveResult)
    requires files.Valid() && n <= |files.steps| && WaitsProperly(files.states, files.steps, n, p)
    requires p in files.now.processes && files.now.processes[p] == Waiting(false) && NoRemoval(files.steps, n, p)
    requires Stale(files.now) && Recovers(looks, files.states) && SawStale(looks)
    modifies files
    ensures Waits(files, p, n, true, looks)
    ensures old(files.states) <= files.states && old(files.steps) <= files.steps
    ensures files.tries == old(files.tries)
    ensures files.refusals == old(files.refusals) + if r.RemoveFailed? then 1 else 0
  {
    hide Execution, WaitsProperly, Recovers, Apply, Stale, SawStale, NoRemoval;
    ghost var ss, steps := files.states, files.steps;
    r := files.RemoveDir(p);
    LooksStay(looks, ss, files.states);
    if r.Removed? {
      RemovesOnce(ss, steps, files.now, n, p);
    } else {
      OthersWait(ss, steps, files.states, files.steps, n, p);
    }
  }

  method GiveUpWaiting(files: SharedFiles, p: Pid, ghost n: nat, ghost recoveredStale: bool, ghost looks: seq<Look>)
    requires Waits(files, p, n, recoveredStale, looks)
    modifies files`now, files`states, files`steps
    ensures files.Valid() && old(files.states) <= files.states && old(files.steps) <= files.steps
    ensures p in files.now.processes && files.now.processes[p].Idle?
    ensures WaitsProperly(files.states, files.steps, n, p) && Recovers(looks, files.states)
  {
    hide Execution, WaitsProperly, Recovers, SawStale, NoRemoval;
    ghost var ss, steps := files.states, files.steps;
    files.Take(GiveUp(p));
    StepsOn(ss, steps, files.now, n, p, GiveUp(p));
    LooksStay(looks, ss, files.states);
  }

  /** Whoever has taken the lock is the only holder and owns the directory, if no holder's heartbeat was late so far. */
  lemma TakenAlone(ss: seq<System>, steps: seq<Step>, p: Pid)
    requires Execution(ss, steps) && TookLock(ss, steps, p) && forall j :: 0 <= j < |steps| ==> Timely(ss[j])
    ensures var last := ss[|steps|];
            && Holds(last, p) && Verifies(last.processes[p].h, last.entry, last.mtime)
            && forall q :: Holds(last, q) ==> q == p
  {
    hide Execution, Timely;
    MutualExclusion(ss, steps, |steps|);
  }

  // ----- steps of the proof -----

  ghost predicate NoRemoval(steps: seq<Step>, n: nat, p: Pid) {
    forall i :: n <= i < |steps| ==> steps[i] != RemoveStale(p)
  }

  lemma NoLook(ss: seq<System>)
    ensures Recovers([], ss) && !SawStale([])
  {
  }

  lemma NoTime(wait: nat)
    ensures forall n :: InTime([], n, wait)
  {
  }

  lemma FewerLooks(looks: seq<Look>, wait: nat)
    ensures InTime(looks, |looks|, wait) ==> InTime(looks, |looks| - 1, wait)
  {
  }

  lemma OneMoreTime(looks: seq<Look>, look: Look, wait: nat)
    requires InTime(looks, |looks|, wait)
    ensures var more := looks + [look];
            InTime(more, |more| - 1, wait) && (InTime(more, |more|, wait) <==> look.removing || look.elapsed < wait)
  {
    assert (looks + [look])[|looks|] == look;
  }

  lemma LooksStay(looks: seq<Look>, ss: seq<System>, more: seq<System>)
    requires Recovers(looks, ss) && ss <= more
    ensures Recovers(looks, more)
  {
    hide Stale;
    forall k | 0 <= k < |looks|
      ensures looks[k].state in more
    {
      var i :| 0 <= i < |ss| && ss[i] == looks[k].state;
      assert more[i] == ss[i];
    }
  }

  lemma OneMoreLook(looks: seq<Look>, s: System, elapsed: nat, ss: seq<System>)
    requires Recovers(looks, ss) && s in ss
    ensures var more := looks + [Look(s, Stale(s) && !SawStale(looks), elapsed)];
            Recovers(more, ss) && (SawStale(more) <==> SawStale(looks) || Stale(s))
  {
    hide Stale;
    var more := looks + [Look(s, Stale(s) && !SawStale(looks), elapsed)];
    assert more[|looks|].state == s && forall k :: 0 <= k < |looks| ==> more[k] == looks[k];
    forall k | 0 <= k <= |looks|
      ensures more[..k] == looks[..k]
    {
    }
    assert looks[..|looks|] == looks;
  }

  /** A directory is stale once it is older than thirty seconds. */
  lemma StaleByAge(s: System, mtime: Time)
    requires s.entry.Directory? && s.entry.inode in s.mtime && mtime == s.mtime[s.entry.inode]
    ensures Stale(s) <==> s.now - mtime > 30000
  {
  }

  lemma StartsWaiting(ss: seq<System>, steps: seq<Step>, p: Pid, s: System)
    requires |ss| == |steps| + 1 && Enabled(s, Start(p))
    ensures WaitsProperly(ss + [Apply(s, Start(p))], steps + [Start(p)], |steps|, p)
    ensures NoRemoval(steps + [Start(p)], |steps|, p)
    ensures Apply(s, Start(p)).processes == s.processes[p := Waiting(false)]
  {
  }

  lemma OthersWait(ss: seq<System>, steps: seq<Step>, more: seq<System>, moreSteps: seq<Step>, n: nat, p: Pid)
    requires WaitsProperly(ss, steps, n, p) && ss <= more && steps <= moreSteps && |more| == |moreSteps| + 1
    requires forall i :: |steps| <= i < |moreSteps| ==> ByOther(moreSteps[i], p)
    ensures WaitsProperly(more, moreSteps, n, p)
    ensures NoRemoval(steps, n, p) ==> NoRemoval(moreSteps, n, p)
  {
    hide Stale;
  }

  lemma StepsOn(ss: seq<System>, steps: seq<Step>, next: System, n: nat, p: Pid, step: Step)
    requires WaitsProperly(ss, steps, n, p) && (step.GiveUp? || step.Create?)
    ensures WaitsProperly(ss + [next], steps + [step], n, p)
  {
    hide Stale;
  }

  lemma RemovesOnce(ss: seq<System>, steps: seq<Step>, next: System, n: nat, p: Pid)
    requires WaitsProperly(ss, steps, n, p) && NoRemoval(steps, n, p) && Stale(ss[|steps|])
    ensures WaitsProperly(ss + [next], steps + [RemoveStale(p)], n, p)
  {
    hide Stale;
  }

  lemma CreatesAtLast(ss: seq<System>, steps: seq<Step>, more: seq<System>, moreSteps: seq<Step>, n: nat, p: Pid)
    requires WaitsProperly(ss, steps, n, p) && ss <= more && steps <= moreSteps && TookLock(more, moreSteps, p)
    requires forall i :: |steps| <= i < |moreSteps| - 1 ==> ByOther(moreSteps[i], p)
    requires |steps| < |moreSteps|
    ensures WaitsProperly(more, moreSteps, n, p)
  {
    hide Stale, InPhase, Holds;
  }
}
