/** The auth file lock: a directory at a shared path, owned through an open handle that remembers the
    directory's identity and its last modification time. */
module AuthLock {
  /** Identity of a directory (device and inode); an open handle keeps it from being reused. */
  type Inode = nat
  type Time = nat

  datatype Entry = Missing | Directory(inode: Inode) | Other

  datatype Handle = Handle(dir: Inode, modified: Time, failed: bool, released: bool)

  /** The handle owns what is at the path: the same directory, last modified by this handle. */
  predicate Verifies(h: Handle, entry: Entry, mtime: map<Inode, Time>) {
    !h.released && !h.failed && entry == Directory(h.dir) && h.dir in mtime && mtime[h.dir] == h.modified
  }

  /** The lock's directory, with the modification times of all directories. */
  class Disk {
    var entry: Entry
    var mtime: map<Inode, Time>

    constructor (entry: Entry, mtime: map<Inode, Time>)
      ensures this.entry == entry && this.mtime == mtime
    {
      this.entry, this.mtime := entry, mtime;
    }
  }

  /** `ioOk` says whether the operating system answers the calls of one operation. */
  class LockCheck {
    const disk: Disk
    const directory: Inode
    var modified: Time
    var failed: bool
    var released: bool

    constructor (disk: Disk, directory: Inode, modified: Time)
      ensures this.disk == disk && Abs() == Handle(directory, modified, false, false)
    {
      this.disk, this.directory, this.modified := disk, directory, modified;
      failed, released := false, false;
    }

    ghost function Abs(): Handle
      reads this
    {
      Handle(directory, modified, failed, released)
    }

    /** The world with this handle in it. */
    ghost function In(id: Id): World
      reads this, disk
    {
      World(disk.entry, disk.mtime, map[id := Abs()])
    }

    method Verify(ioOk: bool) returns (ok: bool)
      ensures ok == (ioOk && Verifies(Abs(), disk.entry, disk.mtime))
    {
      if released || failed || !ioOk {
        return false;
      }
      match disk.entry
      case Directory(inode) => ok := inode == directory && directory in disk.mtime && disk.mtime[directory] == modified;
      case _ => ok := false;
    }

    /** A failed check is remembered. */
    method Check(ioOk: bool) returns (ok: bool)
      modifies this`failed
      ensures ok == (ioOk && Verifies(old(Abs()), disk.entry, disk.mtime))
      ensures Abs() == Checked(old(Abs()), ok)
      ensures forall id :: In(id) == Do(old(In(id)), CheckAction(id, ioOk))
    {
      ok := Verify(ioOk);
      if !ok {
        failed := true;
      }
    }

    /** The heartbeat: verifies, stamps the directory with the current time, and reads the stamp back. If only the
        reading fails, the directory is stamped and the handle fails all the same. */
    method Refresh(now: Time, ioOk: bool, readOk: bool) returns (ok: bool)
      modifies this`modified, this`failed, disk`mtime
      ensures var stamped := ioOk && Verifies(old(Abs()), disk.entry, old(disk.mtime));
              && ok == (stamped && readOk) && Abs() == Refreshed(old(Abs()), now, ok)
              && disk.mtime == if stamped then old(disk.mtime)[directory := now] else old(disk.mtime)
      ensures forall id :: In(id) == Do(old(In(id)), RefreshAction(id, now, ioOk, readOk))
    {
      ok := Verify(ioOk);
      if ok {
        disk.mtime := disk.mtime[directory := now];
        if readOk {
          modified := disk.mtime[directory];
        }
        ok := readOk;
      }
      if !ok {
        failed := true;
      }
    }

    /** Releases the lock, and removes the directory only if it is still owned; removing it may fail. */
    method Finish(ioOk: bool, removeOk: bool) returns (ok: bool)
      modifies this`released, disk`entry
      ensures ok == (ioOk && removeOk && Verifies(old(Abs()), old(disk.entry), disk.mtime))
      ensures Abs() == old(Abs()).(released := true)
      ensures disk.entry == if ok then Missing else old(disk.entry)
      ensures forall id :: In(id) == Do(old(In(id)), FinishAction(id, ioOk, removeOk))
    {
      ok := Verify(ioOk);
      released := true;
      if ok {
        if removeOk {
          disk.entry := Missing;
        }
        ok := removeOk;
      }
    }
  }

  function Checked(h: Handle, ok: bool): Handle {
    if ok then h else h.(failed := true)
  }

  function Refreshed(h: Handle, now: Time, ok: bool): Handle {
    if ok then h.(modified := now) else h.(failed := true)
  }

  // ----- any number of handles while others replace the directory at any time -----

  type Id = nat

  datatype World = World(entry: Entry, mtime: map<Inode, Time>, handles: map<Id, Handle>)

  /** What happens to the world: a handle is opened on whatever directory is at the path (also one that
      another process has created meanwhile), a handle checks, refreshes or finishes, or somebody else
      replaces the entry or stamps directories. */
  datatype Action =
    | OpenAction(id: Id)
    | CheckAction(id: Id, ioOk: bool)
    | RefreshAction(id: Id, now: Time, ioOk: bool, readOk: bool)
    | FinishAction(id: Id, ioOk: bool, removeOk: bool)
    | OutsideAction(entry: Entry, mtime: map<Inode, Time>)

  /** A handle is opened on a directory that is there, and used after it was opened. */
  predicate Allowed(w: World, a: Action) {
    match a
    case OpenAction(id) => id !in w.handles && w.entry.Directory? && w.entry.inode in w.mtime
    case CheckAction(id, _) => id in w.handles
    case RefreshAction(id, _, _, _) => id in w.handles
    case FinishAction(id, _, _) => id in w.handles
    case OutsideAction(_, _) => true
  }

  function Do(w: World, a: Action): World
    requires Allowed(w, a)
  {
    match a
    case OpenAction(id) => w.(handles := w.handles[id := Handle(w.entry.inode, w.mtime[w.entry.inode], false, false)])
    case CheckAction(id, ioOk) =>
      w.(handles := w.handles[id := Checked(w.handles[id], ioOk && Verifies(w.handles[id], w.entry, w.mtime))])
    case RefreshAction(id, now, ioOk, readOk) =>
      var h := w.handles[id];
      var stamped := ioOk && Verifies(h, w.entry, w.mtime);
      w.(handles := w.handles[id := Refreshed(h, now, stamped && readOk)],
         mtime := if stamped then w.mtime[h.dir := now] else w.mtime)
    case FinishAction(id, ioOk, removeOk) =>
      var h := w.handles[id];
      var removed := ioOk && removeOk && Verifies(h, w.entry, w.mtime);
      w.(handles := w.handles[id := h.(released := true)], entry := if removed then Missing else w.entry)
    case OutsideAction(entry, mtime) => w.(entry := entry, mtime := mtime)
  }

  ghost predicate Run(ws: seq<World>, actions: seq<Action>) {
    && |ws| == |actions| + 1
    && forall i :: 0 <= i < |actions| ==> Allowed(ws[i], actions[i]) && ws[i + 1] == Do(ws[i], actions[i])
  }

  ghost predicate VerifiesIn(w: World, id: Id) {
    id in w.handles && Verifies(w.handles[id], w.entry, w.mtime)
  }

  /** The handle has failed or was released. */
  predicate Spent(w: World, id: Id) {
    id in w.handles && (w.handles[id].failed || w.handles[id].released)
  }

  /** Whatever others do to the path and whatever the clocks show: a spent handle never verifies again. */
  lemma {:induction false} SpentNeverVerifies(ws: seq<World>, actions: seq<Action>, i: nat, j: nat, id: Id)
    requires Run(ws, actions) && i <= j < |ws| && Spent(ws[i], id)
    ensures Spent(ws[j], id) && !VerifiesIn(ws[j], id)
  {
    if i < j {
      SpentNeverVerifies(ws, actions, i, j - 1, id);
      assert ws[j] == Do(ws[j - 1], actions[j - 1]);
    }
  }

  /** A check or heartbeat that fails, and every finish, ends the handle for good. */
  lemma FailureIsFinal(ws: seq<World>, actions: seq<Action>, i: nat, j: nat)
    requires Run(ws, actions) && i < j < |ws|
    requires match actions[i]
             case CheckAction(id, ioOk) => !ioOk || !VerifiesIn(ws[i], id)
             case RefreshAction(id, _, ioOk, readOk) => !ioOk || !readOk || !VerifiesIn(ws[i], id)
             case FinishAction(_, _, _) => true
             case _ => false
    ensures !VerifiesIn(ws[j], actions[i].id)
  {
    SpentNeverVerifies(ws, actions, i + 1, j, actions[i].id);
  }

  /** A finish takes away the directory exactly if the handle verifies and the removal succeeds, and nothing else. */
  lemma WhatFinishRemoves(w: World, id: Id, ioOk: bool, removeOk: bool)
    requires id in w.handles
    ensures var after := Do(w, FinishAction(id, ioOk, removeOk));
            && after.entry == (if ioOk && removeOk && VerifiesIn(w, id) then Missing else w.entry)
            && after.mtime == w.mtime && after.handles == w.handles[id := w.handles[id].(released := true)]
  {
  }

  /** Handles on different directories never verify in the same state. */
  lemma OneDirectoryVerifies(w: World, a: Id, b: Id)
    requires VerifiesIn(w, a) && VerifiesIn(w, b)
    ensures w.handles[a].dir == w.handles[b].dir && w.handles[a].modified == w.handles[b].modified
  {
  }

  // ----- directories whose times do not run backwards -----

  /** The action takes no directory's time back. */
  predicate Forward(w: World, a: Action)
    requires Allowed(w, a)
  {
    match a
    case RefreshAction(id, now, _, _) => w.handles[id].dir in w.mtime ==> w.mtime[w.handles[id].dir] <= now
    case OutsideAction(_, mtime) => forall d :: d in w.mtime ==> d in mtime && w.mtime[d] <= mtime[d]
    case _ => true
  }

  /** The handle is spent, or its directory was stamped later than it remembers. */
  ghost predicate Outdated(w: World, id: Id) {
    id in w.handles &&
    var h := w.handles[id];
    Spent(w, id) || (h.dir in w.mtime && h.modified < w.mtime[h.dir])
  }

  lemma OutdatedStays(w: World, a: Action, id: Id)
    requires Allowed(w, a) && Forward(w, a) && Outdated(w, id)
    ensures Outdated(Do(w, a), id)
  {
  }

  lemma {:induction false} OutdatedNeverVerifies(ws: seq<World>, actions: seq<Action>, i: nat, j: nat, id: Id)
    requires Run(ws, actions) && i <= j < |ws| && Outdated(ws[i], id)
    requires forall k :: i <= k < j ==> Forward(ws[k], actions[k])
    ensures Outdated(ws[j], id) && !VerifiesIn(ws[j], id)
  {
    if i < j {
      OutdatedNeverVerifies(ws, actions, i, j - 1, id);
      OutdatedStays(ws[j - 1], actions[j - 1], id);
    }
  }

  /** Two handles that came to share a directory: a heartbeat of one to a newer time than the other remembers makes the
      other fail for good, as long as nobody takes the directory's time back. */
  lemma HeartbeatDisplaces(ws: seq<World>, actions: seq<Action>, i: nat, j: nat, other: Id)
    requires Run(ws, actions) && i < j < |ws| && actions[i].RefreshAction?
    requires actions[i].ioOk && VerifiesIn(ws[i], actions[i].id)
    requires other in ws[i].handles && other != actions[i].id
    requires ws[i].handles[other].dir == ws[i].handles[actions[i].id].dir
    requires ws[i].handles[other].modified < actions[i].now
    requires forall k :: i < k < j ==> Forward(ws[k], actions[k])
    ensures !VerifiesIn(ws[j], other)
  {
    assert ws[i + 1] == Do(ws[i], actions[i]);
    OutdatedNeverVerifies(ws, actions, i + 1, j, other);
  }

  /** The directory has this time. */
  predicate Shows(w: World, dir: Inode, t: Time) {
    dir in w.mtime && w.mtime[dir] == t
  }

  /** The action sets the directory's time to t. */
  predicate SetsTime(w: World, a: Action, dir: Inode, t: Time)
    requires Allowed(w, a)
  {
    match a
    case RefreshAction(id, now, _, _) => w.handles[id].dir == dir && now == t
    case OutsideAction(_, mtime) => dir in mtime && mtime[dir] == t
    case _ => false
  }

  /** Since action k the directory has had this time. */
  ghost predicate SetSince(ws: seq<World>, actions: seq<Action>, k: nat, j: nat, dir: Inode, t: Time)
    requires Run(ws, actions) && k < j < |ws|
  {
    SetsTime(ws[k], actions[k], dir, t) && forall l :: k < l <= j ==> Shows(ws[l], dir, t)
  }

  /** In state l the path is the handle's directory, the handle is not spent, and after step i someone set the
      directory's time to t, where it has been since. */
  ghost predicate SetBack(ws: seq<World>, actions: seq<Action>, i: nat, l: nat, id: Id, dir: Inode, t: Time)
    requires Run(ws, actions) && l < |ws|
  {
    && !Spent(ws[l], id) && ws[l].entry == Directory(dir)
    && exists k :: i < k < l && SetSince(ws, actions, k, l, dir, t)
  }

  /** Exactly when a displaced handle ever verifies again, whatever others do and whatever clocks show: if and only if
      somebody sets the directory's time back to the one it remembers and puts the directory back, before it notices. */
  lemma DisplacedUntilTimeIsSetBack(ws: seq<World>, actions: seq<Action>, i: nat, j: nat, other: Id)
    requires Run(ws, actions) && i < j < |ws| && actions[i].RefreshAction?
    requires actions[i].ioOk && VerifiesIn(ws[i], actions[i].id)
    requires other in ws[i].handles && other != actions[i].id
    requires ws[i].handles[other].dir == ws[i].handles[actions[i].id].dir
    requires ws[i].handles[other].modified != actions[i].now
    ensures var h := ws[i].handles[other];
            (exists l :: i < l <= j && VerifiesIn(ws[l], other)) <==>
            (exists l :: i < l <= j && SetBack(ws, actions, i, l, other, h.dir, h.modified))
  {
    assert |ws| == |actions| + 1;
    hide Run, Verifies;
    var h := ws[i].handles[other];
    HeartbeatSetsTime(ws, actions, i, other);
    if l :| i < l <= j && VerifiesIn(ws[l], other) {
      var first := FirstVerified(ws, i, l, other);
      SameHandle(ws, actions, i + 1, first, other);
      ShowsRemembered(ws[first], other);
      var k := LastSet(ws, actions, i + 1, first, h.dir, h.modified);
      assert SetBack(ws, actions, i, first, other, h.dir, h.modified);
    }
    if l :| i < l <= j && SetBack(ws, actions, i, l, other, h.dir, h.modified) {
      if forall n :: i < n < l ==> !VerifiesIn(ws[n], other) {
        SameHandle(ws, actions, i + 1, l, other);
        ShowsRemembered(ws[l], other);
      }
    }
  }

  lemma HeartbeatSetsTime(ws: seq<World>, actions: seq<Action>, i: nat, other: Id)
    requires Run(ws, actions) && i < |actions| && actions[i].RefreshAction?
    requires actions[i].ioOk && VerifiesIn(ws[i], actions[i].id)
    requires other in ws[i].handles && other != actions[i].id
    requires ws[i].handles[other].dir == ws[i].handles[actions[i].id].dir
    requires ws[i].handles[other].modified != actions[i].now
    ensures var h := ws[i].handles[other];
            !Shows(ws[i + 1], h.dir, h.modified) && other in ws[i + 1].handles && ws[i + 1].handles[other] == h
  {
  }

  lemma ShowsRemembered(w: World, id: Id)
    requires id in w.handles
    ensures var h := w.handles[id];
            VerifiesIn(w, id) <==> !Spent(w, id) && w.entry == Directory(h.dir) && Shows(w, h.dir, h.modified)
  {
  }

  lemma {:induction false} FirstVerified(ws: seq<World>, i: nat, l: nat, id: Id) returns (first: nat)
    requires i < l < |ws| && VerifiesIn(ws[l], id)
    ensures i < first <= l && VerifiesIn(ws[first], id) && forall n :: i < n < first ==> !VerifiesIn(ws[n], id)
  {
    if n :| i < n < l && VerifiesIn(ws[n], id) {
      first := FirstVerified(ws, i, n, id);
    } else {
      first := l;
    }
  }

  /** As long as a handle does not verify, it remembers what it did, unless it is spent. */
  lemma {:induction false} SameHandle(ws: seq<World>, actions: seq<Action>, i: nat, j: nat, id: Id)
    requires Run(ws, actions) && i <= j < |ws| && id in ws[i].handles
    requires forall n :: i <= n < j ==> !VerifiesIn(ws[n], id)
    ensures id in ws[j].handles && ws[j].handles[id].dir == ws[i].handles[id].dir
    ensures !Spent(ws[j], id) ==> ws[j].handles[id].modified == ws[i].handles[id].modified
  {
    if i < j {
      SameHandle(ws, actions, i, j - 1, id);
      assert ws[j] == Do(ws[j - 1], actions[j - 1]);
    }
  }

  lemma {:induction false} LastSet(ws: seq<World>, actions: seq<Action>, i: nat, j: nat, dir: Inode, t: Time)
    returns (k: nat)
    requires Run(ws, actions) && i <= j < |ws| && !Shows(ws[i], dir, t) && Shows(ws[j], dir, t)
    ensures i <= k < j && SetSince(ws, actions, k, j, dir, t)
  {
    assert ws[j] == Do(ws[j - 1], actions[j - 1]);
    if Shows(ws[j - 1], dir, t) {
      k := LastSet(ws, actions, i, j - 1, dir, t);
    } else {
      k := j - 1;
    }
  }

  /** The last condition is needed: once somebody takes the time back, the displaced handle verifies again. */
  lemma TimesTakenBackReviveAHandle() returns (ws: seq<World>, actions: seq<Action>)
    ensures Run(ws, actions) && |ws| == 5
    ensures actions[2] == RefreshAction(0, 7, true, true) && VerifiesIn(ws[2], 0) && !VerifiesIn(ws[3], 1)
    ensures VerifiesIn(ws[4], 1)
  {
    actions := [OpenAction(0), OpenAction(1), RefreshAction(0, 7, true, true),
                OutsideAction(Directory(0), map[0 := 5])];
    var w0 := World(Directory(0), map[0 := 5], map[]);
    var w1 := Do(w0, actions[0]);
    var w2 := Do(w1, actions[1]);
    var w3 := Do(w2, actions[2]);
    ws := [w0, w1, w2, w3, Do(w3, actions[3])];
  }
}
