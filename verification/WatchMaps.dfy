/** The maps of the provider watch actor as values: the file system they are compared with, the invariants that tie them
    together, and what each kind of change keeps of them. */
module WatchMaps {
  import opened Wrappers
  import opened WatchSpec

  /** The file system, held fixed while one handler runs. */
  datatype Fs = Fs(dirs: set<Path>, files: set<Path>) {
    predicate Exists(path: Path) {
      path in dirs || path in files
    }
  }

  /** With nothing left to reconcile the file system no longer matters to the invariants. */
  const NO_FILES := Fs({}, {})

  /** The longest directory on the way up from path, the filesystem root excluded. */
  function NearestNonRootAncestor(fs: Fs, path: Path): (r: Option<Path>)
    ensures r.Some? ==> 0 < |r.value| <= |path| && r.value <= path && r.value in fs.dirs
    ensures r.Some? ==> forall n :: |r.value| < n <= |path| ==> path[..n] !in fs.dirs
    ensures r.None? ==> forall n :: 0 < n <= |path| ==> path[..n] !in fs.dirs
  {
    if path == [] then None
    else if path in fs.dirs then assert path[..|path|] == path; Some(path)
    else
      assert path[..|path|] == path;
      assert forall n :: 0 < n < |path| ==> path[..|path| - 1][..n] == path[..n];
      NearestNonRootAncestor(fs, path[..|path| - 1])
  }

  function ComputeRoot(fs: Fs, target: Path): (r: Option<Path>)
    ensures r.Some? ==> Above(r.value, target) && r.value in fs.dirs
  {
    if target == [] then None else NearestNonRootAncestor(fs, target[..|target| - 1])
  }

  /** root is an ancestor directory of target's parent, or that parent, and is not "/". */
  predicate Above(root: Path, target: Path) {
    0 < |root| < |target| && root <= target
  }

  datatype TargetState = TargetState(
    providers: set<Provider>,
    root: Option<Path>,         // the current watch root; None once only "/" is left
    observed: bool,             // last observed existence of the file
    declared: Option<bool>)     // existence at declaration, until first reconciled

  datatype FileSubscription = FileSubscription(path: Path, existed: bool)

  datatype EventKind = Create | Remove | Rename | Modify | Metadata | Access | Other

  predicate Interesting(kind: EventKind) {
    !kind.Metadata? && !kind.Access?
  }

  /** What reconciling makes of a target whose root is watched. */
  function Settle(s: TargetState, root: Path, exists_: bool): TargetState {
    TargetState(s.providers, Some(root), exists_, None)
  }

  /** The two comparisons that make reconciling a target announce its providers. */
  predicate Changed(s: TargetState, exists_: bool) {
    (s.declared.Some? && s.declared.value != exists_) || s.observed != exists_
  }

  /** The target is found changed by a reconciliation; with no directory but "/" left above it, it is not even looked
      at. */
  predicate Differs(fs: Fs, target: Path, s: TargetState) {
    ComputeRoot(fs, target).Some? && Changed(s, fs.Exists(target))
  }

  // ----- the invariants that tie the maps together -----

  function FilesOf(pf: map<Provider, set<Path>>, p: Provider): set<Path> {
    if p in pf then pf[p] else {}
  }

  function WithFiles(pf: map<Provider, set<Path>>, p: Provider, files: set<Path>): (r: map<Provider, set<Path>>)
    ensures r - {p} == pf - {p} && FilesOf(r, p) == files && (p in r <==> files != {})
    ensures forall q :: q != p ==> (q in r <==> q in pf) && (q in pf ==> r[q] == pf[q])
  {
    if files == {} then pf - {p} else pf[p := files]
  }

  /** p is among the providers of f's target exactly when f is among p's files; no empty entries. */
  ghost predicate IndexAgrees(pf: map<Provider, set<Path>>, targets: map<Path, TargetState>) {
    && (forall p :: p in pf ==> pf[p] != {})
    && (forall f :: f in targets ==> targets[f].providers != {})
    && (forall p, f :: p in pf && f in pf[p] ==> f in targets && p in targets[f].providers)
    && (forall p, f :: f in targets && p in targets[f].providers ==> p in pf && f in pf[p])
  }

  ghost predicate PendingAgrees(pending: map<Path, set<Provider>>, targets: map<Path, TargetState>) {
    forall f :: f in pending ==> f in targets && pending[f] <= targets[f].providers
  }

  /** A target is attached only to its current root, which lies above it. A target in todo, about to
      be reconciled, is attached to the root it is going to have, and perhaps still to its old one. */
  ghost predicate RootsAgree(roots: map<Path, set<Path>>, targets: map<Path, TargetState>, fs: Fs, todo: set<Path>) {
    && (forall r, t :: r in roots && t in roots[r] ==>
          && t in targets && Above(r, t)
          && (targets[t].root == Some(r) || (t in todo && ComputeRoot(fs, t) == Some(r))))
    && (forall t :: t in todo ==> && t in targets && ComputeRoot(fs, t).Some?
                                  && Attached(roots, ComputeRoot(fs, t).value, t))
  }

  ghost predicate Attached(roots: map<Path, set<Path>>, r: Path, t: Path) {
    r in roots && t in roots[r]
  }

  /** Every target that has a root is attached to it, except those in detached. */
  ghost predicate AllAttached(roots: map<Path, set<Path>>, targets: map<Path, TargetState>, detached: set<Path>) {
    forall t :: t in targets && t !in detached && targets[t].root.Some? ==> Attached(roots, targets[t].root.value, t)
  }

  ghost predicate NoEmptyRoot(roots: map<Path, set<Path>>) {
    forall r :: r in roots ==> roots[r] != {}
  }

  function SubPairs(pf: map<Provider, set<Path>>): set<Pair> {
    set p, f | p in pf && f in pf[p] :: (p, f)
  }

  function PendingPairs(pending: map<Path, set<Provider>>): set<Pair> {
    set f, p | f in pending && p in pending[f] :: (p, f)
  }

  datatype FsEvent = BackendError | Reported(kind: EventKind, paths: seq<Path>)

  function SetOf(paths: seq<Path>): set<Path> {
    set path | path in paths
  }

  /** The paths of an event that is not ignored. */
  function PathsOf(event: FsEvent): set<Path> {
    if event.Reported? && Interesting(event.kind) then SetOf(event.paths) else {}
  }

  /** The event says that directories it names went away. */
  predicate Removal(event: FsEvent) {
    event.Reported? && (event.kind.Remove? || event.kind.Rename?)
  }

  // ----- what an event notices -----

  lemma SnapshotProviders(pending: map<Path, set<Provider>>)
    ensures (set f, p | f in pending && p in pending[f] :: p) == Providers(PendingPairs(pending))
  {
    forall f, p | f in pending && p in pending[f]
      ensures p in Providers(PendingPairs(pending))
    {
      assert (p, f) in PendingPairs(pending);
    }
  }

  /** The roots an event path is compared with: its parent and itself. */
  function Around(path: Path): set<Path> {
    {path} + if path == [] then {} else {path[..|path| - 1]}
  }

  /** Nothing worth announcing was seen in this target. */
  ghost predicate Quiet(fs: Fs, target: Path, before: TargetState, after: TargetState) {
    after == before || Reconciled(fs, target, before, after, false)
  }

  /** The roots whose targets are looked at when these paths are reported: those around each path that is not itself
      subscribed. */
  function RootsOf(paths: set<Path>, subscribed: set<Path>): set<Path> {
    set path, r | path in paths && path !in subscribed && r in Around(path) :: r
  }

  predicate Under(s: TargetState, roots: set<Path>) {
    s.root.Some? && s.root.value in roots
  }

  /** Announced targets were named, or hang under one of the roots and were found changed; the others under the roots
      are quiet, and whatever is neither named nor under the roots stays as it is. */
  ghost predicate Faithful(fs: Fs, before: map<Path, TargetState>, after: map<Path, TargetState>, touched: set<Path>,
                           named: set<Path>, roots: set<Path>) {
    && after.Keys == before.Keys && touched <= before.Keys
    && (forall t :: t in before && t !in touched ==> Quiet(fs, t, before[t], after[t]))
    && (forall t :: t in touched && t !in named ==> Under(before[t], roots) && Differs(fs, t, before[t]))
    && (forall t :: t in before && t !in named && !Under(before[t], roots) ==> after[t] == before[t])
  }

  /** Every target that was attached to root is announced or has just been looked at. */
  ghost predicate Noticed(fs: Fs, before: map<Path, TargetState>, after: map<Path, TargetState>, touched: set<Path>,
                          root: Path) {
    forall t :: t in before && t in after && before[t].root == Some(root) ==> t in touched || Reached(fs, t, after[t])
  }

  ghost predicate AllNoticed(fs: Fs, before: map<Path, TargetState>, after: map<Path, TargetState>,
                             touched: set<Path>, roots: set<Path>) {
    forall r :: r in roots ==> Noticed(fs, before, after, touched, r)
  }

  /** Exactly the targets that are named, or hang under one of the roots and are found changed, are announced. */
  ghost predicate Announces(fs: Fs, before: map<Path, TargetState>, touched: set<Path>, named: set<Path>,
                            roots: set<Path>) {
    forall t :: t in before ==> (t in touched <==> t in named || (Under(before[t], roots) && Differs(fs, t, before[t])))
  }

  lemma ExactlyChangesAreAnnounced(fs: Fs, before: map<Path, TargetState>, after: map<Path, TargetState>,
                                   touched: set<Path>, named: set<Path>, roots: set<Path>)
    requires Faithful(fs, before, after, touched, named, roots) && AllNoticed(fs, before, after, touched, roots)
    requires named * before.Keys <= touched
    ensures Announces(fs, before, touched, named, roots)
  {
    forall t | t in before && t !in named && Under(before[t], roots) && t !in touched
      ensures !Differs(fs, t, before[t])
    {
      assert Noticed(fs, before, after, touched, before[t].root.value);
      assert Quiet(fs, t, before[t], after[t]) && Reached(fs, t, after[t]);
    }
  }

  /** The disappearance of a file together with the last directory above it is not announced: whatever reconciling makes
      of the file, its record still says that it exists, and nobody hears of it. */
  lemma LastDirectoryVanishes()
    ensures var target, root, fs := ["a", "f"], ["a"], Fs({}, {});
            var before := TargetState({"p"}, Some(root), true, None);
            && ComputeRoot(Fs({root}, {target}), target) == Some(root) && before.observed != fs.Exists(target)
            && forall after, changed :: Reconciled(fs, target, before, after, changed) ==>
              !changed && after.observed != fs.Exists(target)
  {
    var target, root, fs := ["a", "f"], ["a"], Fs({}, {});
    assert target[..1] == root && root <= target;
    assert NearestNonRootAncestor(Fs({root}, {target}), root) == Some(root);
    assert NearestNonRootAncestor(fs, root) == None;
  }

  lemma TargetEventIsFaithful(fs: Fs, before: map<Path, TargetState>, after: map<Path, TargetState>, path: Path)
    requires path in before && after == before[path := before[path].(observed := fs.Exists(path))]
    ensures Faithful(fs, before, after, {path}, {path}, {}) && Announces(fs, before, {path}, {path}, {})
  {
  }

  lemma NothingIsFaithful(fs: Fs, targets: map<Path, TargetState>)
    ensures Faithful(fs, targets, targets, {}, {}, {}) && AllNoticed(fs, targets, targets, {}, {})
  {
  }

  lemma NoRoots(fs: Fs, before: map<Path, TargetState>, after: map<Path, TargetState>, touched: set<Path>)
    ensures AllNoticed(fs, before, after, touched, {})
  {
  }

  lemma FaithfulMore(fs: Fs, before: map<Path, TargetState>, after: map<Path, TargetState>, touched: set<Path>,
                     named: set<Path>, more: set<Path>, roots: set<Path>, moreRoots: set<Path>)
    requires Faithful(fs, before, after, touched, named, roots) && named <= more && roots <= moreRoots
    ensures Faithful(fs, before, after, touched, more, moreRoots)
  {
  }

  lemma RootEventIsFaithful(fs: Fs, roots: map<Path, set<Path>>, before: map<Path, TargetState>,
                            after: map<Path, TargetState>, root: Path, affected: set<Path>, touched: set<Path>)
    requires ReconciledAll(fs, before, after, affected, touched)
    requires affected == (if root in roots then roots[root] else {})
    requires RootsAgree(roots, before, fs, {})
    ensures Faithful(fs, before, after, touched, {}, {root})
  {
    assert forall t :: t in affected ==> Under(before[t], {root});
    forall t | t in before
      ensures t !in touched ==> Quiet(fs, t, before[t], after[t])
      ensures t in touched ==> Differs(fs, t, before[t])
    {
      if t in affected {
        assert Reconciled(fs, t, before[t], after[t], t in touched);
      }
    }
  }

  lemma RootEventIsNoticed(fs: Fs, roots: map<Path, set<Path>>, before: map<Path, TargetState>,
                           after: map<Path, TargetState>, root: Path, affected: set<Path>, touched: set<Path>)
    requires affected == (if root in roots then roots[root] else {}) && affected <= after.Keys
    requires AllAttached(roots, before, {}) && forall t :: t in affected ==> Reached(fs, t, after[t])
    ensures AllNoticed(fs, before, after, touched, {root})
  {
    hide Reached;
  }

  lemma NothingUnder(fs: Fs, roots: map<Path, set<Path>>, targets: map<Path, TargetState>, root: Path)
    requires root !in roots
    ensures Faithful(fs, targets, targets, {}, {}, {root})
    ensures AllAttached(roots, targets, {}) ==> AllNoticed(fs, targets, targets, {}, {root})
  {
  }

  lemma RootsOfPath(path: Path, subscribed: set<Path>)
    ensures RootsOf({path}, subscribed) == if path in subscribed then {} else Around(path)
  {
  }

  lemma NoRootsOfNothing(subscribed: set<Path>)
    ensures RootsOf({}, subscribed) == {}
  {
  }

  lemma RootsOfMore(paths: set<Path>, path: Path, subscribed: set<Path>)
    ensures RootsOf(paths + {path}, subscribed) == RootsOf(paths, subscribed) + RootsOf({path}, subscribed)
  {
  }

  lemma QuietTwice(fs: Fs, target: Path, before: TargetState, between: TargetState, after: TargetState)
    requires Quiet(fs, target, before, between) && Quiet(fs, target, between, after)
    ensures Quiet(fs, target, before, after)
    ensures Reached(fs, target, between) ==> Reached(fs, target, after)
    ensures between.root != before.root ==> Reached(fs, target, between)
  {
  }

  lemma FaithfulBoth(fs: Fs, before: map<Path, TargetState>, between: map<Path, TargetState>,
                     after: map<Path, TargetState>, earlier: set<Path>, later: set<Path>,
                     named: set<Path>, more: set<Path>, roots: set<Path>, moreRoots: set<Path>)
    requires Faithful(fs, before, between, earlier, named, roots)
    requires Faithful(fs, between, after, later, more, moreRoots)
    ensures Faithful(fs, before, after, earlier + later, named + more, roots + moreRoots) && after.Keys == before.Keys
  {
    forall t | t in before && t !in earlier + later
      ensures Quiet(fs, t, before[t], after[t])
    {
      QuietTwice(fs, t, before[t], between[t], after[t]);
    }
    forall t | t in earlier + later && t !in named + more
      ensures Under(before[t], roots + moreRoots) && Differs(fs, t, before[t])
    {
      if t !in earlier {
        assert Quiet(fs, t, before[t], between[t]);
      }
    }
  }

  /** What was noticed stays noticed. */
  lemma NoticedLater(fs: Fs, before: map<Path, TargetState>, between: map<Path, TargetState>,
                     after: map<Path, TargetState>, earlier: set<Path>, later: set<Path>, more: set<Path>,
                     moreRoots: set<Path>, root: Path)
    requires Faithful(fs, between, after, later, more, moreRoots)
    ensures Noticed(fs, before, between, earlier, root) ==> Noticed(fs, before, after, earlier + later, root)
  {
  }

  /** A root looked at later in the same event is noticed with respect to the beginning, too. */
  lemma NoticedNow(fs: Fs, before: map<Path, TargetState>, between: map<Path, TargetState>,
                   after: map<Path, TargetState>, earlier: set<Path>, later: set<Path>,
                   named: set<Path>, more: set<Path>, roots: set<Path>, moreRoots: set<Path>, root: Path)
    requires Faithful(fs, before, between, earlier, named, roots)
    requires Faithful(fs, between, after, later, more, moreRoots)
    ensures Noticed(fs, between, after, later, root) ==> Noticed(fs, before, after, earlier + later, root)
  {
  }

  /** Two parts of an event make up one. */
  lemma BothParts(fs: Fs, before: map<Path, TargetState>, between: map<Path, TargetState>,
                  after: map<Path, TargetState>, earlier: set<Path>, later: set<Path>,
                  named: set<Path>, more: set<Path>, roots: set<Path>, moreRoots: set<Path>)
    requires Faithful(fs, before, between, earlier, named, roots)
    requires Faithful(fs, between, after, later, more, moreRoots)
    ensures Faithful(fs, before, after, earlier + later, named + more, roots + moreRoots) && after.Keys == before.Keys
    ensures AllNoticed(fs, before, between, earlier, roots) && AllNoticed(fs, between, after, later, moreRoots) ==>
              AllNoticed(fs, before, after, earlier + later, roots + moreRoots)
  {
    hide Faithful, Noticed;
    FaithfulBoth(fs, before, between, after, earlier, later, named, more, roots, moreRoots);
    forall r
      ensures Noticed(fs, before, between, earlier, r) ==> Noticed(fs, before, after, earlier + later, r)
      ensures Noticed(fs, between, after, later, r) ==> Noticed(fs, before, after, earlier + later, r)
    {
      NoticedLater(fs, before, between, after, earlier, later, more, moreRoots, r);
      NoticedNow(fs, before, between, after, earlier, later, named, more, roots, moreRoots, r);
    }
  }

  /** Looking at one more root. */
  lemma OneMoreRoot(fs: Fs, before: map<Path, TargetState>, between: map<Path, TargetState>,
                    after: map<Path, TargetState>, earlier: set<Path>, later: set<Path>, touched: set<Path>,
                    roots: set<Path>, root: Path)
    requires Faithful(fs, before, between, earlier, {}, roots) && Faithful(fs, between, after, later, {}, {root})
    requires touched == earlier + later
    ensures Faithful(fs, before, after, touched, {}, roots + {root})
    ensures AllNoticed(fs, before, between, earlier, roots) && AllNoticed(fs, between, after, later, {root}) ==>
              AllNoticed(fs, before, after, touched, roots + {root})
  {
    hide Faithful, AllNoticed;
    BothParts(fs, before, between, after, earlier, later, {}, {}, roots, {root});
    var nothing: set<Path> := {};
    assert nothing + nothing == nothing;
  }

  /** The given files that have a directory other than "/" above them. */
  function Installable(fs: Fs, files: seq<FileSubscription>): set<Path> {
    set sub | sub in files && ComputeRoot(fs, sub.path).Some? :: sub.path
  }

  /** An installable file is left out only if the watch on its root was refused. */
  ghost predicate SkippedAreRefused(fs: Fs, files: seq<FileSubscription>, added: set<Path>, refused: seq<Path>) {
    forall f :: f in Installable(fs, files) && f !in added ==>
      ComputeRoot(fs, f).Some? && ComputeRoot(fs, f).value in refused
  }

  lemma SkippedNone(fs: Fs, refused: seq<Path>)
    ensures SkippedAreRefused(fs, [], {}, refused[|refused|..])
  {
  }

  lemma SkippedLater(fs: Fs, files: seq<FileSubscription>, added: set<Path>, refused: seq<Path>, refused': seq<Path>,
                     n: nat)
    requires n <= |refused| && refused <= refused' && SkippedAreRefused(fs, files, added, refused[n..])
    ensures SkippedAreRefused(fs, files, added, refused'[n..])
  {
  }

  lemma SkippedOneMore(fs: Fs, files: seq<FileSubscription>, sub: FileSubscription, added: set<Path>,
                       refused: seq<Path>, tried: bool)
    requires SkippedAreRefused(fs, files, added, refused)
    requires tried <==> ComputeRoot(fs, sub.path).Some?
    ensures !tried ==> SkippedAreRefused(fs, files + [sub], added, refused)
    ensures tried ==> && SkippedAreRefused(fs, files + [sub], added + {sub.path}, refused)
                      && SkippedAreRefused(fs, files + [sub], added, refused + [ComputeRoot(fs, sub.path).value])
                      && sub.path in Installable(fs, files + [sub])
  {
  }

  /** The state of f's target when p subscribes to it, before it is reconciled. */
  function Registered(fs: Fs, known: map<Path, TargetState>, p: Provider, f: Path, existed: bool): TargetState {
    if f in known then
      known[f].(providers := known[f].providers + {p}, declared := if known[f].declared.Some? then known[f].declared
                else Some(existed))
    else
      TargetState({p}, ComputeRoot(fs, f), fs.Exists(f), Some(existed))
  }

  ghost predicate RegisteredAll(fs: Fs, known: map<Path, TargetState>, after: map<Path, TargetState>, p: Provider,
                                files: seq<FileSubscription>, added: set<Path>) {
    && after.Keys == known.Keys + added
    && (forall f :: f in after && f !in added ==> after[f] == known[f])
    && (forall f :: f in added ==>
        exists d :: FileSubscription(f, d) in files && after[f] == Registered(fs, known, p, f, d))
  }

  /** The state of a newly subscribed file after Replace, and when its providers are announced. */
  ghost predicate Subscribed(fs: Fs, known: map<Path, TargetState>, p: Provider, f: Path, files: seq<FileSubscription>,
                             after: TargetState, announced: bool) {
    && ComputeRoot(fs, f).Some?
    && exists d :: && FileSubscription(f, d) in files
                   && after == Settle(Registered(fs, known, p, f, d), ComputeRoot(fs, f).value, fs.Exists(f))
                   && (announced <==> Changed(Registered(fs, known, p, f, d), fs.Exists(f)))
  }

  lemma NothingAdded(m: Monitor, p: Provider, now: nat)
    requires m.subs == Without(m.subs, p) && m.pending == Without(m.pending, p)
    ensures WatchSpec.Replace(m, p, {}, {}, now) == m
  {
  }

  lemma AddedPairs(pf: map<Provider, set<Path>>, p: Provider, files: set<Path>)
    requires p !in pf
    ensures SubPairs(WithFiles(pf, p, files)) == SubPairs(pf) + PairsOf(p, files)
    ensures files == {} ==> WithFiles(pf, p, files) == pf
  {
  }

  lemma NothingRegistered(pf: map<Provider, set<Path>>, targets: map<Path, TargetState>, p: Provider,
                          files: seq<FileSubscription>, fs: Fs)
    requires p !in pf && IndexAgrees(pf, targets)
    ensures IndexAgrees(WithFiles(pf, p, {}), targets)
    ensures RegisteredAll(fs, targets, targets, p, files, {})
  {
    assert WithFiles(pf, p, {}) == pf;
  }

  lemma RegisteredOneMore(fs: Fs, known: map<Path, TargetState>, targets: map<Path, TargetState>, p: Provider,
                          files: seq<FileSubscription>, added: set<Path>, sub: FileSubscription, state: TargetState)
    requires RegisteredAll(fs, known, targets, p, files, added) && sub in files
    requires state
               == (if sub.path in targets then Registered(fs, targets, p, sub.path, sub.existed)
                   else Registered(fs, map[], p, sub.path, sub.existed))
    ensures RegisteredAll(fs, known, targets[sub.path := state], p, files, added + {sub.path})
  {
  }

  lemma RegisterKeepsIndex(pf: map<Provider, set<Path>>, pending: map<Path, set<Provider>>,
                           targets: map<Path, TargetState>,
                           added: set<Path>, p: Provider, f: Path, state: TargetState)
    requires p !in pf && IndexAgrees(WithFiles(pf, p, added), targets) && PendingAgrees(pending, targets)
    requires state.providers == (if f in targets then targets[f].providers else {}) + {p}
    ensures IndexAgrees(WithFiles(pf, p, added + {f}), targets[f := state])
    ensures PendingAgrees(pending, targets[f := state])
  {
    var pf0, pf1, targets' := WithFiles(pf, p, added), WithFiles(pf, p, added + {f}), targets[f := state];
    forall q, g | q in pf1 && g in pf1[q]
      ensures g in targets' && q in targets'[g].providers
    {
      if q == p {
        assert g in added ==> g in FilesOf(pf0, p);
      }
    }
    forall q, g | g in targets' && q in targets'[g].providers
      ensures q in pf1 && g in pf1[q]
    {
      if q == p {
        assert g != f ==> g in FilesOf(pf0, p);
      }
    }
  }

  lemma RegisterKeepsRoots(before: map<Path, set<Path>>, after: map<Path, set<Path>>, targets: map<Path, TargetState>,
                           fs: Fs,
                           added: set<Path>, f: Path, root: Path, state: TargetState)
    requires ComputeRoot(fs, f) == Some(root) && RootsAgree(before, targets, fs, added)
    requires Moved(before, after, None, root, f)
    requires state.root == if f in targets then targets[f].root else Some(root)
    ensures RootsAgree(after, targets[f := state], fs, added + {f})
    ensures AllAttached(before, targets, {}) ==> AllAttached(after, targets[f := state], {})
  {
    var targets' := targets[f := state];
    forall t | t in added + {f}
      ensures t in targets' && ComputeRoot(fs, t).Some? && Attached(after, ComputeRoot(fs, t).value, t)
    {
      if t in added {
        assert Attached(before, ComputeRoot(fs, t).value, t);
      }
    }
    if AllAttached(before, targets, {}) {
      forall t | t in targets' && targets'[t].root.Some?
        ensures Attached(after, targets'[t].root.value, t)
      {
        if t in targets {
          assert Attached(before, targets[t].root.value, t);
        }
      }
    }
  }

  lemma RemoveRootKeepsRoots(roots: map<Path, set<Path>>, targets: map<Path, TargetState>, fs: Fs, root: Path)
    requires RootsAgree(roots, targets, fs, {})
    ensures RootsAgree(roots - {root}, targets, fs, {})
    ensures AllAttached(roots, targets, {}) ==>
              AllAttached(roots - {root}, targets, if root in roots then roots[root] else {})
    ensures NoEmptyRoot(roots) ==> NoEmptyRoot(roots - {root})
  {
  }

  lemma SubscribedAll(fs: Fs, known: map<Path, TargetState>, registered: map<Path, TargetState>,
                      after: map<Path, TargetState>,
                      p: Provider, files: seq<FileSubscription>, added: set<Path>, touched: set<Path>)
    requires RegisteredAll(fs, known, registered, p, files, added) && added <= Installable(fs, files)
    requires ReconciledAll(fs, registered, after, added, touched)
    requires forall t :: t in added ==> Reached(fs, t, after[t])
    ensures after.Keys == known.Keys + added
    ensures forall f :: f in after && f !in added ==> after[f] == known[f]
    ensures forall f :: f in added ==> Subscribed(fs, known, p, f, files, after[f], f in touched)
  {
  }

  /** The targets once p lost interest in `files`: a target whose only provider was p is gone. */
  function ClearedTargets(targets: map<Path, TargetState>, p: Provider, files: set<Path>): map<Path, TargetState> {
    map f | f in targets && !(f in files && targets[f].providers == {p}) ::
      if f in files then targets[f].(providers := targets[f].providers - {p}) else targets[f]
  }

  lemma ClearedOfNothing(targets: map<Path, TargetState>, p: Provider)
    ensures ClearedTargets(targets, p, {}) == targets
  {
  }

  function WithoutProvider(targets: map<Path, TargetState>, p: Provider, f: Path): map<Path, TargetState>
    requires f in targets
  {
    if targets[f].providers == {p} then targets - {f}
    else targets[f := targets[f].(providers := targets[f].providers - {p})]
  }

  lemma RemovedFromIndex(pf: map<Provider, set<Path>>, targets: map<Path, TargetState>, p: Provider, f: Path,
                         rest: set<Path>)
    requires p !in pf && f in rest && f in targets && IndexAgrees(WithFiles(pf, p, rest), targets)
    ensures IndexAgrees(WithFiles(pf, p, rest - {f}), WithoutProvider(targets, p, f))
    ensures p in targets[f].providers
  {
    var pf0, pf1 := WithFiles(pf, p, rest), WithFiles(pf, p, rest - {f});
    var after := WithoutProvider(targets, p, f);
    assert p in pf0 && f in pf0[p];
    forall q, g | q in pf1 && g in pf1[q]
      ensures g in after && q in after[g].providers
    {
      assert q in pf0 && g in pf0[q];
    }
    forall q, g | g in after && q in after[g].providers
      ensures q in pf1 && g in pf1[q]
    {
      assert g in targets && q in targets[g].providers && (g, q) != (f, p);
      assert q in pf0 && g in pf0[q];
      assert q == p ==> g in FilesOf(pf1, p);
    }
  }

  lemma ClearedOneMore(before: map<Path, TargetState>, between: map<Path, TargetState>, after: map<Path, TargetState>,
                       p: Provider, f: Path, done: set<Path>)
    requires between == ClearedTargets(before, p, done)
    requires f in between && f !in done && after == WithoutProvider(between, p, f)
    ensures after == ClearedTargets(before, p, done + {f})
  {
  }

  lemma WithdrawnPairs(pf: map<Provider, set<Path>>, p: Provider)
    ensures SubPairs(pf - {p}) == Without(SubPairs(pf), p)
  {
  }

  lemma WithdrawnSnapshots(pending: map<Path, set<Provider>>, p: Provider)
    ensures PendingPairs(map f | f in pending :: pending[f] - {p}) == Without(PendingPairs(pending), p)
  {
  }

  lemma EmptySnapshot(pending: map<Path, set<Provider>>, f: Path)
    ensures f in pending && pending[f] == {} ==> PendingPairs(pending - {f}) == PendingPairs(pending)
    ensures f !in pending ==> pending - {f} == pending
  {
  }

  lemma DropKeepsRoots(before: map<Path, set<Path>>, after: map<Path, set<Path>>, targets: map<Path, TargetState>,
                       fs: Fs, target: Path)
    requires target in targets && RootsAgree(before, targets, fs, {})
    requires match targets[target].root
             case Some(r) => Detached(before, after, r, target)
             case None => after == before
    ensures RootsAgree(after, targets - {target}, fs, {})
    ensures AllAttached(before, targets, {}) ==> AllAttached(after, targets - {target}, {})
  {
  }

  lemma SameProviders(pf: map<Provider, set<Path>>, pending: map<Path, set<Provider>>,
                      targets: map<Path, TargetState>, targets': map<Path, TargetState>)
    requires IndexAgrees(pf, targets) && PendingAgrees(pending, targets)
    requires targets'.Keys == targets.Keys && forall t :: t in targets ==> targets'[t].providers == targets[t].providers
    ensures IndexAgrees(pf, targets') && PendingAgrees(pending, targets')
  {
  }

  lemma SameRoots(roots: map<Path, set<Path>>, targets: map<Path, TargetState>, targets': map<Path, TargetState>,
                  fs: Fs,
                  todo: set<Path>, detached: set<Path>)
    requires RootsAgree(roots, targets, fs, todo)
    requires targets'.Keys == targets.Keys && forall t :: t in targets ==> targets'[t].root == targets[t].root
    ensures RootsAgree(roots, targets', fs, todo)
    ensures AllAttached(roots, targets, detached) ==> AllAttached(roots, targets', detached)
  {
  }

  lemma AnyFiles(roots: map<Path, set<Path>>, targets: map<Path, TargetState>, fs: Fs, fs': Fs)
    requires RootsAgree(roots, targets, fs, {})
    ensures RootsAgree(roots, targets, fs', {})
  {
  }

  /** What reconciling did to one target: it lost its root, or it settled under the new one, or (the
      new root could not be watched) it stayed as it was. */
  ghost predicate Reconciled(fs: Fs, target: Path, before: TargetState, after: TargetState, changed: bool) {
    match ComputeRoot(fs, target)
    case None => after == before.(root := None) && !changed
    case Some(r) =>
      || (after == Settle(before, r, fs.Exists(target)) && changed == Changed(before, fs.Exists(target)))
      || (after == before && !changed)
  }

  /** What reconciling did to the targets, of which it looked at `affected` and touched some. */
  ghost predicate ReconciledAll(fs: Fs, before: map<Path, TargetState>, after: map<Path, TargetState>,
                                affected: set<Path>, touched: set<Path>) {
    && after.Keys == before.Keys && touched <= affected <= after.Keys
    && (forall t :: t in after && t !in affected ==> after[t] == before[t])
    && (forall t :: t in affected ==> Reconciled(fs, t, before[t], after[t], t in touched))
  }

  lemma ReconciledOneMore(fs: Fs, before: map<Path, TargetState>, between: map<Path, TargetState>,
                          after: map<Path, TargetState>, done: set<Path>, touched: set<Path>, t: Path, changed: bool)
    requires ReconciledAll(fs, before, between, done, touched)
    requires t in between && t !in done && t in after && after == between[t := after[t]]
    requires Reconciled(fs, t, between[t], after[t], changed)
    ensures ReconciledAll(fs, before, after, done + {t}, touched + if changed then {t} else {})
  {
  }

  /** The target's root is where the file system now puts it, and its existence has been observed. */
  ghost predicate Reached(fs: Fs, target: Path, s: TargetState) {
    && s.root == ComputeRoot(fs, target)
    && (s.root.Some? ==> s == Settle(s, s.root.value, fs.Exists(target)))
  }

  lemma EnqueuedPairs(pf: map<Provider, set<Path>>, targets: map<Path, TargetState>, pending: map<Path, set<Provider>>,
                      target: Path)
    requires IndexAgrees(pf, targets) && target in targets
    ensures var snapshot := (if target in pending then pending[target] else {}) + targets[target].providers;
            PendingPairs(pending[target := snapshot])
            == PendingPairs(pending) + (set x | x in SubPairs(pf) && x.1 in {target})
  {
  }

  lemma TouchTwice(m: Monitor, a: set<Path>, b: set<Path>, now: nat)
    ensures Touch(Touch(m, a, now), b, now) == Touch(m, a + b, now)
  {
  }

  lemma UnrootKeepsRoots(before: map<Path, set<Path>>, after: map<Path, set<Path>>, targets: map<Path, TargetState>,
                         fs: Fs,
                         todo: set<Path>, detached: set<Path>, target: Path)
    requires target in targets && ComputeRoot(fs, target).None?
    requires RootsAgree(before, targets, fs, todo)
    requires match targets[target].root
             case Some(r) => Detached(before, after, r, target)
             case None => after == before
    ensures var targets' := targets[target := targets[target].(root := None)];
            && RootsAgree(after, targets', fs, todo)
            && (AllAttached(before, targets, detached) ==> AllAttached(after, targets', detached - {target}))
  {
    var targets' := targets[target := targets[target].(root := None)];
    forall t | t in todo
      ensures Attached(after, ComputeRoot(fs, t).value, t)
    {
      assert Attached(before, ComputeRoot(fs, t).value, t);
    }
    if AllAttached(before, targets, detached) {
      forall t | t in targets' && t !in detached - {target} && targets'[t].root.Some?
        ensures Attached(after, targets'[t].root.value, t)
      {
        assert Attached(before, targets[t].root.value, t);
      }
    }
  }

  /** The registry after target left root: no other target is affected, and root may be gone if
      it has none left. */
  ghost predicate Detached(before: map<Path, set<Path>>, after: map<Path, set<Path>>, root: Path, target: Path) {
    && before.Keys - {root} <= after.Keys <= before.Keys
    && (forall r :: r in after ==> after[r] == if r == root then before[r] - {target} else before[r])
    && (root in before && root !in after ==> before[root] <= {target})
  }

  /** The registry after target moved from `from` to newRoot. */
  ghost predicate Moved(before: map<Path, set<Path>>, after: map<Path, set<Path>>, from: Option<Path>, newRoot: Path,
                        target: Path) {
    && newRoot in after && after[newRoot] == (if newRoot in before then before[newRoot] else {}) + {target}
    && (forall r :: r in after && r != newRoot ==>
        r in before && after[r] == if Some(r) == from then before[r] - {target} else before[r])
    && (forall r :: r in before && r !in after ==> Some(r) == from && before[r] <= {target})
  }

  /** Attaching target to newRoot and then taking it away from its old root moves it. */
  lemma AttachAndDetach(before: map<Path, set<Path>>, after: map<Path, set<Path>>, from: Option<Path>, newRoot: Path,
                        target: Path)
    requires var attached := before[newRoot := (if newRoot in before then before[newRoot] else {}) + {target}];
             if from.Some? && from.value != newRoot then Detached(attached, after, from.value, target)
             else after == attached
    ensures Moved(before, after, from, newRoot, target)
    ensures NoEmptyRoot(before) && (from.Some? && from.value in after ==> after[from.value] != {}) ==>
              NoEmptyRoot(after)
  {
  }

  lemma MoveKeepsRoots(before: map<Path, set<Path>>, after: map<Path, set<Path>>, targets: map<Path, TargetState>,
                       fs: Fs,
                       todo: set<Path>, detached: set<Path>, target: Path, newRoot: Path)
    requires target in targets && ComputeRoot(fs, target) == Some(newRoot)
    requires RootsAgree(before, targets, fs, todo)
    requires Moved(before, after, targets[target].root, newRoot, target)
    ensures var targets' := targets[target := targets[target].(root := Some(newRoot))];
            && RootsAgree(after, targets', fs, todo - {target})
            && (AllAttached(before, targets, detached) ==> AllAttached(after, targets', detached - {target}))
  {
    var targets' := targets[target := targets[target].(root := Some(newRoot))];
    forall t | t in todo - {target}
      ensures Attached(after, ComputeRoot(fs, t).value, t)
    {
      assert Attached(before, ComputeRoot(fs, t).value, t);
    }
    if AllAttached(before, targets, detached) {
      forall t | t in targets' && t !in detached - {target} && targets'[t].root.Some?
        ensures Attached(after, targets'[t].root.value, t)
      {
        if t != target {
          assert Attached(before, targets[t].root.value, t);
        }
      }
    }
  }
}
