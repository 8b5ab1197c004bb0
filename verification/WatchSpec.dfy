/** What the provider watch actor promises, without its indexes: a provider-by-file relation, a set
    of (provider, file) pairs waiting to be announced, and one trailing debounce deadline.
    The delivery guarantees are proved here, over whole runs; WatchActor shows that the actor's
    maps implement this machine. */
module WatchSpec {
  import opened Wrappers

  type Provider = string

  /** An absolute lexical path, as its components below the filesystem root (the root is []). */
  type Path = seq<string>

  type Pair = (Provider, Path)

  /** RESTART_DEBOUNCE_DELAY, in milliseconds. */
  const DEBOUNCE_DELAY: nat := 1000

  datatype Monitor = Monitor(subs: set<Pair>, pending: set<Pair>, deadline: Option<nat>)

  const INITIAL := Monitor({}, {}, None)

  function Without(pairs: set<Pair>, p: Provider): set<Pair> {
    set x | x in pairs && x.0 != p
  }

  function PairsOf(p: Provider, files: set<Path>): set<Pair> {
    set f | f in files :: (p, f)
  }

  function Providers(pairs: set<Pair>): set<Provider> {
    set x | x in pairs :: x.0
  }

  function Clear(m: Monitor, p: Provider): Monitor {
    m.(subs := Without(m.subs, p), pending := Without(m.pending, p))
  }

  /** Every provider subscribed to a touched file becomes pending and the deadline restarts. */
  function Touch(m: Monitor, touched: set<Path>, now: nat): Monitor {
    if touched == {} then m
    else m.(pending := m.pending + (set x | x in m.subs && x.1 in touched),
            deadline := Some(now + DEBOUNCE_DELAY))
  }

  function Replace(m: Monitor, p: Provider, added: set<Path>, touched: set<Path>, now: nat): Monitor {
    var cleared := Clear(m, p);
    Touch(cleared.(subs := cleared.subs + PairsOf(p, added)), touched, now)
  }

  function Fire(m: Monitor): Monitor {
    m.(pending := {}, deadline := None)
  }

  /** One step of a run: two commands, a file-system event, and time passing with or without the timer running. */
  datatype Step =
    | ClearStep(provider: Provider)
    | ReplaceStep(provider: Provider, added: set<Path>, touched: set<Path>, now: nat)
    | EventStep(touched: set<Path>, now: nat)
    | FireStep(now: nat)
    | IdleStep(now: nat)

  function Apply(m: Monitor, s: Step): Monitor {
    match s
    case ClearStep(p) => Clear(m, p)
    case ReplaceStep(p, added, touched, now) => Replace(m, p, added, touched, now)
    case EventStep(touched, now) => Touch(m, touched, now)
    case FireStep(_) => Fire(m)
    case IdleStep(_) => m
  }

  function After(steps: seq<Step>): Monitor {
    if steps == [] then INITIAL else Apply(After(steps[..|steps| - 1]), steps[|steps| - 1])
  }

  predicate Due(m: Monitor, now: nat) {
    m.deadline.Some? && m.deadline.value <= now
  }

  /** The timer runs exactly when a deadline is set and has been reached. */
  ghost predicate Possible(steps: seq<Step>) {
    forall j :: 0 <= j < |steps| ==>
      && (steps[j].FireStep? ==> Due(After(steps[..j]), steps[j].now))
      && (steps[j].IdleStep? ==> !Due(After(steps[..j]), steps[j].now))
  }

  function Touched(s: Step): set<Path> {
    if s.ReplaceStep? || s.EventStep? then s.touched else {}
  }

  /** Step i touches a file that p is subscribed to once step i is done. */
  ghost predicate Notifies(steps: seq<Step>, i: nat, p: Provider)
    requires i < |steps|
  {
    exists f :: f in Touched(steps[i]) && (p, f) in After(steps[..i + 1]).subs
  }

  predicate Withdraws(s: Step, p: Provider) {
    (s.ClearStep? || s.ReplaceStep?) && s.provider == p
  }

  /** A notification of p at step i is still owed before step j: since i the timer has not run and
      p was neither cleared nor replaced. */
  ghost predicate Owed(steps: seq<Step>, i: nat, j: nat, p: Provider)
    requires i < j <= |steps|
  {
    && Notifies(steps, i, p)
    && forall k :: i < k < j ==> !steps[k].FireStep? && !Withdraws(steps[k], p)
  }

  /** Some notification of p is still owed before step j. */
  ghost predicate OwedAt(steps: seq<Step>, j: nat, p: Provider)
    requires j <= |steps|
  {
    exists i: nat :: i < j && Owed(steps, i, j, p)
  }

  /** The ids announced by the timer step j. */
  function Announced(steps: seq<Step>, j: nat): set<Provider>
    requires j < |steps| && steps[j].FireStep?
  {
    Providers(After(steps[..j]).pending)
  }

  lemma AfterStep(steps: seq<Step>, i: nat)
    requires i < |steps|
    ensures After(steps[..i + 1]) == Apply(After(steps[..i]), steps[i])
  {
    assert steps[..i + 1][..i] == steps[..i];
  }

  /** After any run a provider is pending exactly when it is owed a notification. */
  lemma {:induction false} PendingIsOwed(steps: seq<Step>, j: nat, p: Provider)
    requires j <= |steps|
    ensures p in Providers(After(steps[..j]).pending) <==> OwedAt(steps, j, p)
  {
    if j == 0 {
      assert Providers({}) == {};
    } else {
      PendingIsOwed(steps, j - 1, p);
      AfterStep(steps, j - 1);
      PendingAfterStep(After(steps[..j - 1]), steps[j - 1], p);
      OwedAfterStep(steps, j, p);
      assert Notifies(steps, j - 1, p) <==>
             exists f :: f in Touched(steps[j - 1]) && (p, f) in After(steps[..j]).subs;
    }
  }

  lemma OwedAfterStep(steps: seq<Step>, j: nat, p: Provider)
    requires 0 < j <= |steps|
    ensures OwedAt(steps, j, p) <==>
            || Notifies(steps, j - 1, p)
            || (!steps[j - 1].FireStep? && !Withdraws(steps[j - 1], p) && OwedAt(steps, j - 1, p))
  {
    var n := j - 1;
    if OwedAt(steps, j, p) {
      var i: nat :| i < j && Owed(steps, i, j, p);
      if i < n {
        assert Owed(steps, i, n, p);
      }
    }
    if Notifies(steps, n, p) {
      assert Owed(steps, n, j, p);
    } else if !steps[n].FireStep? && !Withdraws(steps[n], p) && OwedAt(steps, n, p) {
      var i: nat :| i < n && Owed(steps, i, n, p);
      assert Owed(steps, i, j, p);
    }
  }

  lemma PendingAfterStep(m: Monitor, s: Step, p: Provider)
    ensures p in Providers(Apply(m, s).pending) <==>
            || (!s.FireStep? && !Withdraws(s, p) && p in Providers(m.pending))
            || exists f :: f in Touched(s) && (p, f) in Apply(m, s).subs
  {
  }

  /** No notification is lost and none is invented: the timer announces p exactly when some earlier
      step touched a file p was subscribed to and since then the timer has not run and p was neither
      cleared nor replaced. So an entry withdrawn by Clear or Replace is never revived. */
  lemma AnnouncedExactlyWhenOwed(steps: seq<Step>, j: nat, p: Provider)
    requires j < |steps| && steps[j].FireStep?
    ensures p in Announced(steps, j) <==> exists i: nat :: i < j && Owed(steps, i, j, p)
  {
    PendingIsOwed(steps, j, p);
  }

  /** Whatever is pending is subscribed, and a non-empty pending set implies a deadline. */
  ghost predicate Consistent(m: Monitor) {
    m.pending <= m.subs && (m.pending != {} ==> m.deadline.Some?)
  }

  lemma {:induction false} RunsAreConsistent(steps: seq<Step>)
    ensures Consistent(After(steps))
  {
    if steps != [] {
      RunsAreConsistent(steps[..|steps| - 1]);
    }
  }

  /** Every announced id is subscribed to some file at the moment it is announced. */
  lemma AnnouncedAreSubscribed(steps: seq<Step>, j: nat)
    requires j < |steps| && steps[j].FireStep?
    ensures Announced(steps, j) <= Providers(After(steps[..j]).subs)
  {
    RunsAreConsistent(steps[..j]);
  }

  /** The debounce is trailing: a deadline belongs to the latest touching step, and neither another
      touch nor the timer came after it. */
  lemma {:induction false} DeadlineIsTrailing(steps: seq<Step>)
    requires After(steps).deadline.Some?
    ensures exists i: nat :: i < |steps| && Touched(steps[i]) != {}
              && After(steps).deadline.value == steps[i].now + DEBOUNCE_DELAY
              && forall k :: i < k < |steps| ==> Touched(steps[k]) == {} && !steps[k].FireStep?
  {
    var n := |steps| - 1;
    if Touched(steps[n]) == {} {
      var before := steps[..n];
      DeadlineIsTrailing(before);
      var i: nat :| i < n && Touched(before[i]) != {}
        && After(before).deadline.value == before[i].now + DEBOUNCE_DELAY
        && forall k :: i < k < n ==> Touched(before[k]) == {} && !before[k].FireStep?;
      assert forall k :: i < k < n ==> steps[k] == before[k];
      assert Touched(steps[i]) != {};
    }
  }

  /** An announcement comes at least the debounce delay after the latest touch before it: when the
      timer runs at step j, that touch happened at a step i whose time is that far in the past. */
  lemma AnnouncedAfterQuietPeriod(steps: seq<Step>, j: nat)
    requires Possible(steps) && j < |steps| && steps[j].FireStep?
    ensures exists i: nat :: i < j && Touched(steps[i]) != {}
              && steps[i].now + DEBOUNCE_DELAY <= steps[j].now
              && forall k :: i < k < j ==> Touched(steps[k]) == {} && !steps[k].FireStep?
  {
    var before := steps[..j];
    DeadlineIsTrailing(before);
    var i: nat :| i < j && Touched(before[i]) != {}
      && After(before).deadline.value == before[i].now + DEBOUNCE_DELAY
      && forall k :: i < k < j ==> Touched(before[k]) == {} && !before[k].FireStep?;
    assert forall k :: i < k < j ==> steps[k] == before[k];
    assert Touched(steps[i]) != {};
  }
}
