/** The provider watch actor: three cross-linked maps, pending snapshots and one debounce deadline,
    driven by commands, file-system events and the timer over a backend whose calls may fail. */
module WatchActor {
  import opened Wrappers
  import opened WatchInputs
  import opened WatchMaps
  import opened WatchSpec

  /** The operating system's watches. Either call may fail; `refused` lists the paths of the failed
      watch calls in order and `stuck` counts the failed unwatch calls. A watch is gone with its directory: `dead`
      holds the paths of which an event said so and that were not watched again since. */
  class Backend {
    ghost var installed: set<Path>
    ghost var refused: seq<Path>
    ghost var stuck: nat
    ghost var dead: set<Path>

    constructor ()
      ensures installed == {} && refused == [] && stuck == 0 && dead == {}
    {
      installed, refused, stuck, dead := {}, [], 0, {};
    }

    /** An event says that the directory was removed or renamed. */
    ghost method Report(path: Path)
      modifies this`dead
      ensures dead == old(dead) + {path}
    {
      dead := dead + {path};
    }

    method Watch(path: Path) returns (ok: bool)
      modifies this
      ensures installed == if ok then old(installed) + {path} else old(installed)
      ensures refused == if ok then old(refused) else old(refused) + [path]
      ensures dead == if ok then old(dead) - {path} else old(dead)
      ensures stuck == old(stuck)
    {
      ok := *;
      if ok {
        installed, dead := installed + {path}, dead - {path};
      } else {
        refused := refused + [path];
      }
    }

    method Unwatch(path: Path) returns (ok: bool)
      modifies this
      ensures installed == if ok then old(installed) - {path} else old(installed)
      ensures refused == old(refused) && dead == old(dead)
      ensures stuck == if ok then old(stuck) else old(stuck) + 1
    {
      ok := *;
      if ok {
        installed := installed - {path};
      } else {
        stuck := stuck + 1;
      }
    }
  }

  class ProviderWatchActor {
    var providerFiles: map<Provider, set<Path>>
    var targets: map<Path, TargetState>
    var watchRoots: map<Path, set<Path>>
    var deadline: Option<nat>
    var pending: map<Path, set<Provider>>
    var sent: seq<set<Provider>>
    const backend: Backend
    ghost var excused: set<Path>  // the registered roots that may be left with a dead watch

    constructor ()
      ensures Valid() && Abs() == INITIAL && sent == [] && fresh(backend)
    {
      providerFiles, targets, watchRoots, deadline, pending, sent := map[], map[], map[], None, map[], [];
      excused := {};
      backend := new Backend();
    }

    /** The state as the specification sees it. */
    ghost function Abs(): Monitor
      reads this
    {
      Monitor(SubPairs(providerFiles), PendingPairs(pending), deadline)
    }

    /** The registered roots whose watch is dead: nothing under them is heard of. */
    ghost function Blind(): set<Path>
      reads this, backend
    {
      watchRoots.Keys * backend.dead
    }

    ghost predicate Watching(fs: Fs, todo: set<Path>, detached: set<Path>)
      reads this, backend
    {
      && RootsAgree(watchRoots, targets, fs, todo)
      && watchRoots.Keys <= backend.installed && Blind() <= excused
      && (backend.refused == [] ==> AllAttached(watchRoots, targets, detached))
      && (backend.stuck == 0 ==> NoEmptyRoot(watchRoots))
    }

    ghost predicate Indexed()
      reads this
    {
      && IndexAgrees(providerFiles, targets)
      && PendingAgrees(pending, targets)
      && (pending != map[] ==> deadline.Some?)
    }

    ghost predicate Valid()
      reads this, backend
    {
      && Indexed()
      && Watching(NO_FILES, {}, {})
    }

    method InstallWatch(root: Path, fs: Fs) returns (ok: bool)
      modifies this`watchRoots, backend
      ensures watchRoots == if ok && root !in old(watchRoots) then old(watchRoots)[root := {}] else old(watchRoots)
      ensures ok ==> root in watchRoots && backend.refused == old(backend.refused)
      ensures !ok ==> backend.refused == old(backend.refused) + [root]
      ensures backend.stuck == old(backend.stuck) && Blind() <= old(Blind())
      ensures backend.installed == old(backend.installed)
                || (ok && backend.installed == old(backend.installed) + {root})
      ensures ok && root !in old(watchRoots) ==> root in backend.installed
      ensures root in old(watchRoots) && fs.Exists(root) ==> ok && backend.installed == old(backend.installed)
    {
      if root in watchRoots {
        if fs.Exists(root) {
          return true;
        }
        var saved := watchRoots[root];
        ok := backend.Watch(root);
        if ok {
          watchRoots := watchRoots[root := saved];
        }
        return;
      }
      ok := backend.Watch(root);
      if ok {
        watchRoots := watchRoots[root := {}];
      }
    }

    /** Gives up an empty root. A failed unwatch keeps it registered unless its directory is gone. */
    method ReleaseWatchIfEmpty(root: Path, fs: Fs)
      modifies this`watchRoots, backend
      ensures watchRoots == old(watchRoots) || watchRoots == old(watchRoots) - {root}
      ensures root in old(watchRoots) && root !in watchRoots ==> old(watchRoots)[root] == {}
      ensures root in watchRoots && watchRoots[root] == {} ==> fs.Exists(root) && backend.stuck > old(backend.stuck)
      ensures backend.refused == old(backend.refused) && backend.stuck >= old(backend.stuck)
      ensures Blind() <= old(Blind())
      ensures backend.installed == old(backend.installed)
              || (backend.installed == old(backend.installed) - {root} && root !in watchRoots)
    {
      if root in watchRoots && watchRoots[root] != {} {
        return;
      }
      if root in watchRoots {
        var ok := backend.Unwatch(root);
        if !ok {
          if !fs.Exists(root) {
            watchRoots := watchRoots - {root};
          }
        } else {
          watchRoots := watchRoots - {root};
        }
      }
    }

    /** Takes target out of root's set and gives the root up if that was its last target. */
    method Detach(target: Path, root: Path, fs: Fs)
      modifies this`watchRoots, backend
      ensures Detached(old(watchRoots), watchRoots, root, target)
      ensures root in watchRoots && watchRoots[root] == {} ==> backend.stuck > old(backend.stuck)
      ensures backend.refused == old(backend.refused) && backend.stuck >= old(backend.stuck)
      ensures Blind() <= old(Blind())
      ensures old(watchRoots.Keys <= backend.installed) ==> watchRoots.Keys <= backend.installed
    {
      if root in watchRoots {
        watchRoots := watchRoots[root := watchRoots[root] - {target}];
      }
      ReleaseWatchIfEmpty(root, fs);
    }

    /** The registry's side of a move: installs newRoot before giving up the old root. */
    method Reattach(target: Path, oldRoot: Option<Path>, newRoot: Path, fs: Fs) returns (ok: bool)
      modifies this`watchRoots, backend
      ensures ok ==> Moved(old(watchRoots), watchRoots, oldRoot, newRoot, target)
      ensures !ok ==> watchRoots == old(watchRoots)
      ensures backend.refused == old(backend.refused) + if ok then [] else [newRoot]
      ensures newRoot in old(watchRoots) && fs.Exists(newRoot) ==> ok
      ensures old(watchRoots.Keys <= backend.installed) ==> watchRoots.Keys <= backend.installed
      ensures backend.stuck >= old(backend.stuck) && Blind() <= old(Blind())
      ensures backend.stuck == old(backend.stuck) && old(NoEmptyRoot(watchRoots)) ==> NoEmptyRoot(watchRoots)
    {
      hide Moved, Detached, NoEmptyRoot;
      ghost var before := watchRoots;
      ok := InstallWatch(newRoot, fs);
      if !ok {
        return;
      }
      watchRoots := watchRoots[newRoot := watchRoots[newRoot] + {target}];
      if oldRoot.Some? && oldRoot.value != newRoot {
        Detach(target, oldRoot.value, fs);
      }
      AttachAndDetach(before, watchRoots, oldRoot, newRoot, target);
    }

    /** Moves target to newRoot. */
    method Move(target: Path, newRoot: Path, fs: Fs, ghost todo: set<Path>, ghost detached: set<Path>)
      returns (ok: bool)
      requires target in targets && ComputeRoot(fs, target) == Some(newRoot)
      requires Indexed()
      requires Watching(fs, todo, detached)
      modifies this`targets, this`watchRoots, backend
      ensures Indexed()
      ensures Watching(fs, todo - {target}, detached - {target})
      ensures targets == if ok then old(targets)[target := old(targets[target]).(root := Some(newRoot))]
                else old(targets)
      ensures backend.refused == old(backend.refused) + if ok then [] else [newRoot]
      ensures target in todo ==> ok
    {
      hide IndexAgrees, PendingAgrees;
      ghost var before := watchRoots;
      assert target in todo ==> newRoot in watchRoots;
      ok := Reattach(target, targets[target].root, newRoot, fs);
      if ok {
        MoveKeepsRoots(before, watchRoots, targets, fs, todo, detached, target, newRoot);
        SameProviders(providerFiles, pending, targets, targets[target := targets[target].(root := Some(newRoot))]);
        targets := targets[target := targets[target].(root := Some(newRoot))];
      } else {
        assert target !in todo;
        assert todo - {target} == todo;
      }
    }

    /** With no directory but "/" left above it, the target loses its root. */
    method Unroot(target: Path, fs: Fs, ghost todo: set<Path>, ghost detached: set<Path>)
      requires target in targets && ComputeRoot(fs, target).None?
      requires Indexed()
      requires Watching(fs, todo, detached)
      modifies this`targets, this`watchRoots, backend
      ensures Indexed()
      ensures Watching(fs, todo, detached - {target})
      ensures target !in todo
      ensures targets == old(targets)[target := old(targets[target]).(root := None)]
      ensures backend.refused == old(backend.refused)
    {
      hide IndexAgrees, PendingAgrees;
      ghost var before := watchRoots;
      var oldRoot := targets[target].root;
      if oldRoot.Some? {
        Detach(target, oldRoot.value, fs);
      }
      UnrootKeepsRoots(before, watchRoots, targets, fs, todo, detached, target);
      SameProviders(providerFiles, pending, targets, targets[target := targets[target].(root := None)]);
      targets := targets[target := targets[target].(root := None)];
    }

    /** Recomputes a target's root, migrates it, and announces its providers if its existence differs
        from the last observation or from its declaration. */
    method ReconcileTarget(target: Path, fs: Fs, now: nat, ghost todo: set<Path>, ghost detached: set<Path>)
      returns (changed: bool)
      requires Indexed() && target in targets && Watching(fs, todo, detached)
      modifies this`targets, this`watchRoots, this`pending, this`deadline, backend
      ensures Indexed() && Watching(fs, todo - {target}, detached - {target})
      ensures target in targets && targets == old(targets)[target := targets[target]]
      ensures Reconciled(fs, target, old(targets[target]), targets[target], changed)
      ensures old(backend.refused) <= backend.refused
      ensures backend.refused == old(backend.refused) || target in todo ==> Reached(fs, target, targets[target])
      ensures Abs() == Touch(old(Abs()), if changed then {target} else {}, now)
    {
      hide IndexAgrees, PendingAgrees, RootsAgree, AllAttached, NoEmptyRoot;
      var newRoot := ComputeRoot(fs, target);
      if newRoot.None? {
        Unroot(target, fs, todo, detached);
        assert todo - {target} == todo;
        return false;
      }
      var ok := Move(target, newRoot.value, fs, todo, detached);
      if !ok {
        return false;
      }
      changed := Observe(target, newRoot.value, fs, now, todo - {target}, detached - {target});
    }

    method Observe(target: Path, root: Path, fs: Fs, now: nat, ghost todo: set<Path>, ghost detached: set<Path>)
      returns (changed: bool)
      requires Indexed() && target in targets && targets[target].root == Some(root) && Watching(fs, todo, detached)
      modifies this`targets, this`pending, this`deadline
      ensures Indexed() && Watching(fs, todo, detached)
      ensures targets == old(targets)[target := Settle(old(targets[target]), root, fs.Exists(target))]
      ensures changed == Changed(old(targets[target]), fs.Exists(target))
      ensures Abs() == Touch(old(Abs()), if changed then {target} else {}, now)
    {
      hide IndexAgrees, PendingAgrees, RootsAgree, AllAttached, NoEmptyRoot;
      var state := targets[target];
      var exists_ := fs.Exists(target);
      changed := false;
      if state.declared.Some? && exists_ != state.declared.value {
        changed := true;
      }
      state := state.(declared := None);
      if exists_ != state.observed {
        changed := true;
        state := state.(observed := exists_);
      }
      SameProviders(providerFiles, pending, targets, targets[target := state]);
      SameRoots(watchRoots, targets, targets[target := state], fs, todo, detached);
      targets := targets[target := state];
      if changed {
        Enqueue(target, now);
      }
    }

    /** Adds the target's providers to its snapshot and restarts the deadline. */
    method Enqueue(target: Path, now: nat)
      requires Indexed() && target in targets
      modifies this`pending, this`deadline
      ensures Indexed()
      ensures Abs() == Touch(old(Abs()), {target}, now)
    {
      EnqueuedPairs(providerFiles, targets, pending, target);
      pending := pending[target := (if target in pending then pending[target] else {}) + targets[target].providers];
      deadline := Some(now + DEBOUNCE_DELAY);
    }

    /** Reconciles every target of a set, in an arbitrary order. */
    method ReconcileAll(affected: set<Path>, fs: Fs, now: nat, ghost todo: set<Path>, ghost detached: set<Path>)
      returns (ghost touched: set<Path>)
      requires Indexed() && affected <= targets.Keys && Watching(fs, todo, detached)
      modifies this`targets, this`watchRoots, this`pending, this`deadline, backend
      ensures Indexed() && Watching(fs, todo - affected, detached - affected)
      ensures ReconciledAll(fs, old(targets), targets, affected, touched)
      ensures old(backend.refused) <= backend.refused
      ensures forall t :: t in affected && (backend.refused == old(backend.refused) || t in todo) ==>
                Reached(fs, t, targets[t])
      ensures Abs() == Touch(old(Abs()), touched, now)
    {
      hide IndexAgrees, PendingAgrees, RootsAgree, AllAttached, NoEmptyRoot, Reconciled;
      assert todo - {} == todo && detached - {} == detached;
      touched := {};
      var rest := affected;
      ghost var done := {};
      while rest != {}
        invariant done == affected - rest && rest <= affected <= targets.Keys
        invariant Indexed() && Watching(fs, todo - done, detached - done)
        invariant ReconciledAll(fs, old(targets), targets, done, touched)
        invariant old(backend.refused) <= backend.refused
        invariant forall t :: t in done && (backend.refused == old(backend.refused) || t in todo) ==>
                    Reached(fs, t, targets[t])
        invariant Abs() == Touch(old(Abs()), touched, now)
      {
        var t :| t in rest;
        ghost var before, refused := targets, backend.refused;
        var changed := ReconcileTarget(t, fs, now, todo - done, detached - done);
        TouchTwice(old(Abs()), touched, if changed then {t} else {}, now);
        ReconciledOneMore(fs, old(targets), before, targets, done, touched, t, changed);
        assert todo - done - {t} == todo - (done + {t});
        assert detached - done - {t} == detached - (done + {t});
        rest, done := rest - {t}, done + {t};
        touched := touched + if changed then {t} else {};
      }
      assert done == affected;
    }

    /** Removes a target nobody is interested in any more. */
    method Drop(target: Path, fs: Fs)
      requires target in targets && Watching(fs, {}, {})
      modifies this`targets, this`pending, this`watchRoots, backend
      ensures Watching(fs, {}, {})
      ensures targets == old(targets) - {target} && pending == old(pending) - {target}
      ensures backend.refused == old(backend.refused)
    {
      ghost var before, all := watchRoots, targets;
      var root := targets[target].root;
      targets := targets - {target};
      pending := pending - {target};
      if root.Some? {
        Detach(target, root.value, fs);
      }
      DropKeepsRoots(before, watchRoots, all, fs, target);
    }

    method ClearProviderInternal(p: Provider, fs: Fs)
      requires Valid()
      modifies this`providerFiles, this`targets, this`watchRoots, this`pending, backend
      ensures Valid() && p !in providerFiles
      ensures Abs() == WatchSpec.Clear(old(Abs()), p)
      ensures targets == ClearedTargets(old(targets), p, old(FilesOf(providerFiles, p)))
      ensures backend.refused == old(backend.refused)
    {
      hide RootsAgree, AllAttached, NoEmptyRoot, PendingAgrees;
      AnyFiles(watchRoots, targets, NO_FILES, fs);
      WithdrawnPairs(providerFiles, p);
      WithdrawPending(p);
      if p in providerFiles {
        var files := providerFiles[p];
        providerFiles := providerFiles - {p};
        assert WithFiles(providerFiles, p, files) == old(providerFiles);
        RemoveFromTargets(p, files, fs);
      } else {
        assert providerFiles - {p} == providerFiles;
      }
      AnyFiles(watchRoots, targets, fs, NO_FILES);
    }

    /** Takes p out of every pending snapshot. */
    method WithdrawPending(p: Provider)
      requires PendingAgrees(pending, targets)
      modifies this`pending
      ensures PendingAgrees(pending, targets) && PendingPairs(pending) == Without(old(PendingPairs(pending)), p)
      ensures pending.Keys == old(pending.Keys) && forall f :: f in pending ==> p !in pending[f]
    {
      WithdrawnSnapshots(pending, p);
      pending := map f | f in pending :: pending[f] - {p};
    }

    /** Removes p from the target of each of its files, in an arbitrary order. */
    method RemoveFromTargets(p: Provider, files: set<Path>, fs: Fs)
      requires p !in providerFiles && IndexAgrees(WithFiles(providerFiles, p, files), targets)
      requires PendingAgrees(pending, targets) && forall f :: f in pending ==> p !in pending[f]
      requires Watching(fs, {}, {})
      modifies this`targets, this`watchRoots, this`pending, backend
      ensures IndexAgrees(providerFiles, targets)
      ensures PendingAgrees(pending, targets) && PendingPairs(pending) == old(PendingPairs(pending))
      ensures pending.Keys <= old(pending.Keys)
      ensures Watching(fs, {}, {})
      ensures targets == ClearedTargets(old(targets), p, files)
      ensures backend.refused == old(backend.refused)
    {
      hide RootsAgree, AllAttached, NoEmptyRoot, IndexAgrees, PendingAgrees, PendingPairs, ClearedTargets;
      var rest, done := files, {};
      ClearedOfNothing(targets, p);
      while rest != {}
        invariant done == files - rest && rest <= files
        invariant targets == ClearedTargets(old(targets), p, done)
        invariant IndexAgrees(WithFiles(providerFiles, p, rest), targets)
        invariant PendingAgrees(pending, targets) && PendingPairs(pending) == old(PendingPairs(pending))
        invariant pending.Keys <= old(pending.Keys) && forall f :: f in pending ==> p !in pending[f]
        invariant Watching(fs, {}, {})
        invariant backend.refused == old(backend.refused)
      {
        var f :| f in rest;
        ghost var before := targets;
        RemoveFromTarget(p, f, rest, fs);
        ClearedOneMore(old(targets), before, targets, p, f, done);
        rest, done := rest - {f}, done + {f};
      }
      assert done == files && WithFiles(providerFiles, p, rest) == providerFiles;
    }

    method RemoveFromTarget(p: Provider, f: Path, ghost rest: set<Path>, fs: Fs)
      requires p !in providerFiles && f in rest
      requires IndexAgrees(WithFiles(providerFiles, p, rest), targets)
      requires PendingAgrees(pending, targets) && forall g :: g in pending ==> p !in pending[g]
      requires Watching(fs, {}, {})
      modifies this`targets, this`watchRoots, this`pending, backend
      ensures IndexAgrees(WithFiles(providerFiles, p, rest - {f}), targets)
      ensures PendingAgrees(pending, targets) && PendingPairs(pending) == old(PendingPairs(pending))
      ensures pending == old(pending) || pending == old(pending) - {f}
      ensures Watching(fs, {}, {})
      ensures f in old(targets) && targets == WithoutProvider(old(targets), p, f)
      ensures backend.refused == old(backend.refused)
    {
      hide RootsAgree, AllAttached, NoEmptyRoot;
      assert f in WithFiles(providerFiles, p, rest)[p];
      RemovedFromIndex(providerFiles, targets, p, f, rest);
      var state := targets[f].(providers := targets[f].providers - {p});
      if state.providers == {} {
        EmptySnapshot(pending, f);
        Drop(f, fs);
      } else {
        SameRoots(watchRoots, targets, targets[f := state], fs, {}, {});
        targets := targets[f := state];
      }
    }

    method HandleClearProvider(p: Provider, fs: Fs)
      requires Valid()
      modifies this`providerFiles, this`targets, this`watchRoots, this`pending, backend
      ensures Valid() && p !in providerFiles
      ensures Abs() == WatchSpec.Clear(old(Abs()), p)
      ensures targets == ClearedTargets(old(targets), p, old(FilesOf(providerFiles, p)))
      ensures backend.refused == old(backend.refused)
    {
      ClearProviderInternal(p, fs);
    }

    /** Replaces p's subscriptions by those of the given files that can be watched. `added` are the
        files now subscribed and `touched` those whose existence differs from what was declared
        (or, for a file shared with another provider, last observed). */
    method HandleReplaceProvider(p: Provider, files: seq<FileSubscription>, fs: Fs, now: nat)
      returns (ghost added: set<Path>, ghost touched: set<Path>)
      requires Valid()
      modifies this`providerFiles, this`targets, this`watchRoots, this`pending, this`deadline, backend
      ensures Valid()
      ensures Abs() == WatchSpec.Replace(old(Abs()), p, added, touched, now)
      ensures added <= Installable(fs, files) && touched <= added
      ensures old(backend.refused) <= backend.refused
      ensures SkippedAreRefused(fs, files, added, backend.refused[|old(backend.refused)|..])
      ensures targets.Keys == ClearedTargets(old(targets), p, old(FilesOf(providerFiles, p))).Keys + added
      ensures forall f :: f in targets && f !in added ==>
                targets[f] == ClearedTargets(old(targets), p, old(FilesOf(providerFiles, p)))[f]
      ensures forall f :: f in added ==>
                Subscribed(fs, ClearedTargets(old(targets), p, old(FilesOf(providerFiles, p))), p, f, files,
                           targets[f], f in touched)
    {
      hide IndexAgrees, PendingAgrees, RootsAgree, AllAttached, NoEmptyRoot, SkippedAreRefused, Subscribed;
      ClearProviderInternal(p, fs);
      added, touched := {}, {};
      if files == [] {
        NothingAdded(Abs(), p, now);
        SkippedNone(fs, backend.refused);
        return;
      }
      added, touched := Subscribe(p, files, fs, now);
    }

    method Subscribe(p: Provider, files: seq<FileSubscription>, fs: Fs, now: nat)
      returns (ghost added: set<Path>, ghost touched: set<Path>)
      requires Valid() && p !in providerFiles
      modifies this`providerFiles, this`targets, this`watchRoots, this`pending, this`deadline, backend
      ensures Valid()
      ensures Abs() == Touch(old(Abs()).(subs := old(Abs()).subs + PairsOf(p, added)), touched, now)
      ensures added <= Installable(fs, files) && touched <= added
      ensures old(backend.refused) <= backend.refused
      ensures SkippedAreRefused(fs, files, added, backend.refused[|old(backend.refused)|..])
      ensures targets.Keys == old(targets).Keys + added
      ensures forall f :: f in targets && f !in added ==> targets[f] == old(targets)[f]
      ensures forall f :: f in added ==> Subscribed(fs, old(targets), p, f, files, targets[f], f in touched)
    {
      hide IndexAgrees, PendingAgrees, RootsAgree, AllAttached, NoEmptyRoot, SkippedAreRefused, Subscribed, Touch;
      var addedFiles := AddFiles(p, files, fs);
      added := addedFiles;
      AddedPairs(providerFiles, p, addedFiles);
      if addedFiles != {} {
        providerFiles := providerFiles[p := addedFiles];
      }
      ghost var registered, refused := targets, backend.refused;
      touched := ReconcileAll(addedFiles, fs, now, addedFiles, {});
      assert addedFiles - addedFiles == {} && {} - addedFiles == {};
      SkippedLater(fs, files, added, refused, backend.refused, |old(backend.refused)|);
      SubscribedAll(fs, old(targets), registered, targets, p, files, addedFiles, touched);
      AnyFiles(watchRoots, targets, fs, NO_FILES);
    }

    /** The registration loop: skips files that have no parent, no directory above them but "/", or
        whose root cannot be watched. */
    method AddFiles(p: Provider, files: seq<FileSubscription>, fs: Fs) returns (added: set<Path>)
      requires Valid() && p !in providerFiles
      modifies this`targets, this`watchRoots, backend
      ensures IndexAgrees(WithFiles(providerFiles, p, added), targets) && PendingAgrees(pending, targets)
      ensures Watching(fs, added, {})
      ensures added <= Installable(fs, files) && RegisteredAll(fs, old(targets), targets, p, files, added)
      ensures old(backend.refused) <= backend.refused
      ensures SkippedAreRefused(fs, files, added, backend.refused[|old(backend.refused)|..])
    {
      hide IndexAgrees, PendingAgrees, RootsAgree, AllAttached, NoEmptyRoot, RegisteredAll, SkippedAreRefused;
      added := {};
      AnyFiles(watchRoots, targets, NO_FILES, fs);
      NothingRegistered(providerFiles, targets, p, files, fs);
      SkippedNone(fs, backend.refused);
      var i := 0;
      while i < |files|
        invariant 0 <= i <= |files|
        invariant IndexAgrees(WithFiles(providerFiles, p, added), targets) && PendingAgrees(pending, targets)
        invariant Watching(fs, added, {})
        invariant added <= Installable(fs, files) && RegisteredAll(fs, old(targets), targets, p, files, added)
        invariant old(backend.refused) <= backend.refused
        invariant SkippedAreRefused(fs, files[..i], added, backend.refused[|old(backend.refused)|..])
      {
        var sub := files[i];
        i := i + 1;
        ghost var refused := backend.refused[|old(backend.refused)|..];
        assert files[..i] == files[..i - 1] + [sub];
        var root := ComputeRoot(fs, sub.path);
        if sub.path == [] || root.None? {
          SkippedOneMore(fs, files[..i - 1], sub, added, refused, false);
          continue;
        }
        SkippedOneMore(fs, files[..i - 1], sub, added, refused, true);
        var ok := Register(p, sub, root.value, fs, added, files, old(targets));
        assert backend.refused[|old(backend.refused)|..] == if ok then refused else refused + [root.value];
        if ok {
          added := added + {sub.path};
        }
      }
      assert files[..i] == files;
    }

    method Register(p: Provider, sub: FileSubscription, root: Path, fs: Fs, ghost added: set<Path>,
                    ghost files: seq<FileSubscription>, ghost known: map<Path, TargetState>) returns (ok: bool)
      requires p !in providerFiles && sub in files && ComputeRoot(fs, sub.path) == Some(root)
      requires IndexAgrees(WithFiles(providerFiles, p, added), targets) && PendingAgrees(pending, targets)
      requires Watching(fs, added, {}) && RegisteredAll(fs, known, targets, p, files, added)
      modifies this`targets, this`watchRoots, backend
      ensures backend.refused == old(backend.refused) + if ok then [] else [root]
      ensures var added' := if ok then added + {sub.path} else added;
              && IndexAgrees(WithFiles(providerFiles, p, added'), targets) && PendingAgrees(pending, targets)
              && Watching(fs, added', {}) && RegisteredAll(fs, known, targets, p, files, added')
    {
      hide IndexAgrees, PendingAgrees, RootsAgree, AllAttached, NoEmptyRoot, RegisteredAll, Moved;
      ghost var before := watchRoots;
      ok := Reattach(sub.path, None, root, fs);
      if !ok {
        return;
      }
      var f, exists_ := sub.path, fs.Exists(sub.path);
      var state := if f in targets then targets[f] else TargetState({p}, Some(root), exists_, Some(sub.existed));
      state := state.(providers := state.providers + {p});
      if state.declared.None? {
        state := state.(declared := Some(sub.existed));
      }
      RegisterKeepsIndex(providerFiles, pending, targets, added, p, f, state);
      RegisterKeepsRoots(before, watchRoots, targets, fs, added, f, root, state);
      RegisteredOneMore(fs, known, targets, p, files, added, sub, state);
      targets := targets[f := state];
    }

    /** A change of the target itself: its providers are announced whatever became of it. */
    method HandleTargetEvent(target: Path, fs: Fs, now: nat)
      requires Valid() && target in targets
      modifies this`targets, this`pending, this`deadline
      ensures Valid()
      ensures targets == old(targets)[target := old(targets[target]).(observed := fs.Exists(target))]
      ensures Abs() == Touch(old(Abs()), {target}, now)
    {
      hide IndexAgrees, PendingAgrees, RootsAgree, AllAttached, NoEmptyRoot;
      Enqueue(target, now);
      var state := targets[target].(observed := fs.Exists(target));
      SameProviders(providerFiles, pending, targets, targets[target := state]);
      SameRoots(watchRoots, targets, targets[target := state], NO_FILES, {}, {});
      targets := targets[target := state];
    }

    /** Reconciles every target attached to root. If the event says that root itself went away, its
        backend watch is dead, so it is first taken out of the registry. */
    method HandleRootEvent(root: Path, removed: bool, fs: Fs, now: nat) returns (ghost touched: set<Path>)
      requires Valid()
      modifies this`targets, this`watchRoots, this`pending, this`deadline, this`excused, backend
      ensures Valid() && excused == if removed then old(excused) - {root} else old(excused)
      ensures Faithful(fs, old(targets), targets, touched, {}, {root})
      ensures old(backend.refused) <= backend.refused
      ensures backend.refused == [] ==> AllNoticed(fs, old(targets), targets, touched, {root})
      ensures Abs() == Touch(old(Abs()), touched, now)
    {
      hide IndexAgrees, PendingAgrees, AllAttached, NoEmptyRoot, RootsAgree, Faithful, Noticed, AllNoticed;
      ghost var roots := watchRoots;
      AnyFiles(watchRoots, targets, NO_FILES, fs);
      var saved := if root in watchRoots then watchRoots[root] else {};
      if removed {
        RemoveRootKeepsRoots(watchRoots, targets, fs, root);
        watchRoots, excused := watchRoots - {root}, excused - {root};
        touched := ReconcileAll(saved, fs, now, {}, saved);
      } else {
        touched := ReconcileAll(saved, fs, now, {}, {});
      }
      assert {} - saved == {} && saved - saved == {};
      AnyFiles(watchRoots, targets, fs, NO_FILES);
      RootEventIsFaithful(fs, roots, old(targets), targets, root, saved, touched);
      if backend.refused == [] {
        RootEventIsNoticed(fs, roots, old(targets), targets, root, saved, touched);
      }
    }

    /** One path of an event. A path that is itself subscribed is announced, and nothing else is looked at, not even the
        targets below it; if it is a watched directory that went away, the registry keeps its dead watch. */
    method HandlePath(path: Path, removed: bool, fs: Fs, now: nat) returns (ghost touched: set<Path>)
      requires Valid()
      modifies this`targets, this`watchRoots, this`pending, this`deadline, this`excused, backend
      ensures Valid()
      ensures path in old(targets) ==>
                && watchRoots == old(watchRoots)
                && Blind() == old(Blind()) + if removed && path in watchRoots then {path} else {}
      ensures removed ==> excused == old(excused) - {path} || (path in old(targets) && excused == old(excused) + {path})
      ensures !removed ==> excused == old(excused)
      ensures Faithful(fs, old(targets), targets, touched, {path}, RootsOf({path}, old(targets).Keys))
      ensures path in old(targets) ==>
                touched == {path}
                  && targets == old(targets)[path := old(targets[path]).(observed := fs.Exists(path))]
      ensures old(backend.refused) <= backend.refused
      ensures backend.refused == [] ==>
                && AllNoticed(fs, old(targets), targets, touched, RootsOf({path}, old(targets).Keys))
                && Announces(fs, old(targets), touched, {path}, RootsOf({path}, old(targets).Keys))
      ensures Abs() == Touch(old(Abs()), touched, now)
    {
      hide IndexAgrees, PendingAgrees, RootsAgree, NoEmptyRoot, Faithful, Noticed, AllNoticed, AllAttached, Announces;
      RootsOfPath(path, targets.Keys);
      NothingIsFaithful(fs, targets);
      if removed {
        excused := if path in watchRoots then excused + {path} else excused - {path};
        backend.Report(path);
      }
      if path in targets {
        HandleTargetEvent(path, fs, now);
        touched := {path};
        TargetEventIsFaithful(fs, old(targets), targets, path);
        NoRoots(fs, old(targets), targets, touched);
        return;
      }
      touched := HandleRoots(path, removed, fs, now);
      FaithfulMore(fs, old(targets), targets, touched, {}, {path}, Around(path), Around(path));
      if backend.refused == [] {
        ExactlyChangesAreAnnounced(fs, old(targets), targets, touched, {path}, Around(path));
      }
    }

    /** Looks the path's directory and the path itself up among the roots. */
    method HandleRoots(path: Path, removed: bool, fs: Fs, now: nat) returns (ghost touched: set<Path>)
      requires Valid()
      modifies this`targets, this`watchRoots, this`pending, this`deadline, this`excused, backend
      ensures Valid()
      ensures excused == if removed && path in old(watchRoots) then old(excused) - {path} else old(excused)
      ensures Faithful(fs, old(targets), targets, touched, {}, Around(path))
      ensures old(backend.refused) <= backend.refused
      ensures backend.refused == [] ==> AllNoticed(fs, old(targets), targets, touched, Around(path))
      ensures Abs() == Touch(old(Abs()), touched, now)
    {
      hide IndexAgrees, PendingAgrees, RootsAgree, NoEmptyRoot, Faithful, AllNoticed, AllAttached;
      var parent := if path == [] then [] else path[..|path| - 1];
      var parentIsRoot := path != [] && parent in watchRoots;
      var selfIsRoot := path in watchRoots;
      touched := {};
      ghost var looked: set<Path> := {};
      NothingIsFaithful(fs, targets);
      if !selfIsRoot {
        NothingUnder(fs, watchRoots, targets, path);
        looked := {path};
      }
      if parentIsRoot {
        touched := HandleRootEvent(parent, false, fs, now);
        OneMoreRoot(fs, old(targets), old(targets), targets, {}, touched, touched, looked, parent);
        looked := looked + {parent};
      } else if path != [] {
        NothingUnder(fs, watchRoots, targets, parent);
        OneMoreRoot(fs, targets, targets, targets, {}, {}, {}, looked, parent);
        looked := looked + {parent};
      }
      if selfIsRoot {
        ghost var between, earlier := targets, touched;
        ghost var later := HandleRootEvent(path, removed, fs, now);
        touched := earlier + later;
        TouchTwice(old(Abs()), earlier, later, now);
        OneMoreRoot(fs, old(targets), between, targets, earlier, later, touched, looked, path);
        looked := looked + {path};
      }
      assert looked == Around(path);
    }

    /** One batch of file-system events. A target is announced if the event names it, or if a reported path that is not
        itself subscribed is the target's root or lies directly below it, and the target is found changed with a
        directory left above it. */
    method HandleFsEvent(event: FsEvent, fs: Fs, now: nat) returns (ghost touched: set<Path>)
      requires Valid()
      modifies this`targets, this`watchRoots, this`pending, this`deadline, this`excused, backend
      ensures Valid()
      ensures Blind() <= old(Blind()) + if Removal(event) then PathsOf(event) * old(targets).Keys else {}
      ensures Abs() == Touch(old(Abs()), touched, now)
      ensures var roots := RootsOf(PathsOf(event), old(targets).Keys);
              && Faithful(fs, old(targets), targets, touched, PathsOf(event), roots)
              && (backend.refused == [] ==> Announces(fs, old(targets), touched, PathsOf(event), roots))
      ensures PathsOf(event) * old(targets).Keys <= touched
      ensures old(backend.refused) <= backend.refused
    {
      hide IndexAgrees, PendingAgrees, RootsAgree, NoEmptyRoot, AllAttached, Faithful, AllNoticed, Announces, RootsOf;
      touched := {};
      NothingIsFaithful(fs, targets);
      ghost var subscribed := targets.Keys;
      excused := Blind();
      NoRootsOfNothing(subscribed);
      if event.BackendError? || !Interesting(event.kind) {
        ExactlyChangesAreAnnounced(fs, targets, targets, {}, {}, {});
        return;
      }
      var i := 0;
      assert SetOf(event.paths[..i]) == {};
      while i < |event.paths|
        invariant 0 <= i <= |event.paths|
        invariant Valid() && Abs() == Touch(old(Abs()), touched, now)
        invariant excused <= old(Blind()) + if Removal(event) then SetOf(event.paths[..i]) * subscribed else {}
        invariant var named := SetOf(event.paths[..i]);
                  && Faithful(fs, old(targets), targets, touched, named, RootsOf(named, subscribed))
                  && named * subscribed <= touched && targets.Keys == subscribed
                  && (backend.refused == [] ==>
                        AllNoticed(fs, old(targets), targets, touched, RootsOf(named, subscribed)))
        invariant old(backend.refused) <= backend.refused
      {
        var path := event.paths[i];
        ghost var between, earlier, named := targets, touched, SetOf(event.paths[..i]);
        ghost var later := HandlePath(path, event.kind.Remove? || event.kind.Rename?, fs, now);
        touched := earlier + later;
        i := i + 1;
        assert SetOf(event.paths[..i]) == named + {path} by {
          assert event.paths[..i] == event.paths[..i - 1] + [path];
        }
        RootsOfMore(named, path, subscribed);
        BothParts(fs, old(targets), between, targets, earlier, later, named, {path}, RootsOf(named, subscribed),
                  RootsOf({path}, subscribed));
        TouchTwice(old(Abs()), earlier, later, now);
      }
      assert event.paths[..i] == event.paths;
      if backend.refused == [] {
        ExactlyChangesAreAnnounced(fs, old(targets), targets, touched, PathsOf(event),
                                   RootsOf(PathsOf(event), subscribed));
      }
    }

    method HandleDeadline()
      requires Valid()
      modifies this`pending, this`deadline, this`sent
      ensures Valid()
      ensures Abs() == Fire(old(Abs()))
      ensures sent == old(sent) + Announcement(old(Abs()))
    {
      hide IndexAgrees, RootsAgree, AllAttached, NoEmptyRoot;
      deadline := None;
      if pending == map[] {
        assert Providers({}) == {};
        return;
      }
      var ids := set f, p | f in pending && p in pending[f] :: p;
      SnapshotProviders(pending);
      pending := map[];
      if ids != {} {
        sent := sent + [ids];
      }
    }

    ghost function Now(): Moment
      reads this, backend
    {
      Moment(targets, backend.refused, Blind())
    }

    /** Handles one input, by the step that it calls for. */
    method Handle(input: Input) returns (ghost step: Step)
      requires Valid()
      modifies this, backend
      ensures Valid() && Handled(input, step, old(Abs()), old(Now()), Now()) && Abs() == Apply(old(Abs()), step)
      ensures (step.FireStep? ==> Due(old(Abs()), step.now)) && (step.IdleStep? ==> !Due(old(Abs()), step.now))
      ensures sent == old(sent) + if step.FireStep? then Announcement(old(Abs())) else []
    {
      hide IndexAgrees, PendingAgrees, RootsAgree, AllAttached, NoEmptyRoot;
      hide Faithful, Announces, SkippedAreRefused, Subscribed;
      excused := Blind();
      match input {
        case ClearInput(p, fs) =>
          FilesOfPairs(providerFiles, p);
          HandleClearProvider(p, fs);
          step := ClearStep(p);
        case ReplaceInput(p, files, fs, now) =>
          FilesOfPairs(providerFiles, p);
          ghost var added, touched := HandleReplaceProvider(p, files, fs, now);
          step := ReplaceStep(p, added, touched, now);
        case EventInput(event, fs, now) =>
          ghost var touched := HandleFsEvent(event, fs, now);
          step := EventStep(touched, now);
        case TimeInput(now) =>
          if deadline.None? || now < deadline.value {
            step := IdleStep(now);
          } else {
            HandleDeadline();
            step := FireStep(now);
          }
      }
    }

    /** The actor's loop. `inputs` is what its three sources deliver, in the order in which it serves them, with a look
        at the clock whenever the timer may run. */
    method Serve(inputs: seq<Input>) returns (ghost steps: seq<Step>, ghost moments: seq<Moment>)
      requires Valid() && Abs() == INITIAL && sent == []
      modifies this, backend
      ensures Valid()
      ensures Served(inputs, steps, moments) && moments[0] == old(Now()) && moments[|inputs|] == Now()
      ensures Abs() == After(steps) && sent == Announcements(steps)
    {
      hide IndexAgrees, PendingAgrees, RootsAgree, AllAttached, NoEmptyRoot, Handled, Served, Possible, Tracks;
      steps, moments := [], [Now()];
      Tracked(providerFiles, pending, targets, deadline);
      NothingServed(Now());
      var i := 0;
      assert inputs[..0] == [];
      while i < |inputs|
        invariant 0 <= i <= |inputs|
        invariant Valid()
        invariant Served(inputs[..i], steps, moments) && |moments| == i + 1 && moments[0] == old(Now())
        invariant moments[i] == Now()
        invariant Abs() == After(steps) && sent == Announcements(steps)
      {
        ghost var step := Handle(inputs[i]);
        Tracked(providerFiles, pending, targets, deadline);
        ServedMore(inputs[..i], steps, moments, inputs[i], step, Now());
        assert inputs[..i + 1] == inputs[..i] + [inputs[i]];
        steps, moments := steps + [step], moments + [Now()];
        i := i + 1;
      }
      assert inputs[..i] == inputs;
    }
  }

  lemma FilesOfPairs(pf: map<Provider, set<Path>>, p: Provider)
    ensures FilesIn(SubPairs(pf), p) == FilesOf(pf, p)
  {
    forall f | f in FilesOf(pf, p)
      ensures f in FilesIn(SubPairs(pf), p)
    {
      assert (p, f) in SubPairs(pf);
    }
  }

  lemma Tracked(pf: map<Provider, set<Path>>, pending: map<Path, set<Provider>>, targets: map<Path, TargetState>,
                deadline: Option<nat>)
    requires IndexAgrees(pf, targets)
    ensures Tracks(Monitor(SubPairs(pf), PendingPairs(pending), deadline), targets)
  {
  }
}
