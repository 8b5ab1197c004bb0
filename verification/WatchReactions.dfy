/** What the provider watch actor does with its inputs, in terms of the files that are there and the paths that are
    given alone. */
module WatchReactions {
  import opened Wrappers
  import opened WatchMaps
  import opened WatchSpec
  import opened WatchInputs

  /** The path is a file or a directory. */
  predicate There(fs: Fs, f: Path) {
    f in fs.dirs || f in fs.files
  }

  /** The first n components lead to a directory that is not "/", above the file. */
  predicate DirectoryAbove(fs: Fs, f: Path, n: int) {
    0 < n < |f| && f[..n] in fs.dirs
  }

  ghost predicate HasDirectory(fs: Fs, f: Path) {
    exists n :: DirectoryAbove(fs, f, n)
  }

  /** The nearest directory above a file. */
  ghost predicate IsRoot(fs: Fs, f: Path, root: Path) {
    DirectoryAbove(fs, f, |root|) && root == f[..|root|] && forall n :: |root| < n ==> !DirectoryAbove(fs, f, n)
  }

  lemma RootOf(fs: Fs, f: Path)
    ensures ComputeRoot(fs, f).Some? <==> HasDirectory(fs, f)
    ensures ComputeRoot(fs, f).Some? ==> IsRoot(fs, f, ComputeRoot(fs, f).value)
  {
    if f != [] {
      var parent := f[..|f| - 1];
      assert forall n :: 0 <= n < |f| ==> parent[..n] == f[..n];
      var r := NearestNonRootAncestor(fs, parent);
      if r.Some? {
        assert r.value == f[..|r.value|];
        assert DirectoryAbove(fs, f, |r.value|);
      }
    }
  }

  /** The file's record is that it was there when it should not be, or the other way round. */
  predicate Surprising(s: TargetState, there: bool) {
    s.observed == !there || s.declared == Some(!there)
  }

  /** The event lists the root or something directly below it that nobody is subscribed to. */
  predicate ListsAround(paths: seq<Path>, subscribed: set<Path>, root: Path) {
    exists path :: path in paths && path !in subscribed && (path == root || (path != [] && path[..|path| - 1] == root))
  }

  lemma RootsAround(paths: seq<Path>, subscribed: set<Path>, root: Path)
    ensures root in RootsOf(SetOf(paths), subscribed) <==> ListsAround(paths, subscribed, root)
  {
    if path :| path in paths && path !in subscribed && (path == root || (path != [] && path[..|path| - 1] == root)) {
      assert path in SetOf(paths) && root in Around(path);
    }
  }

  /** What an event tells of a file. */
  lemma WhatEventsTell(event: FsEvent, fs: Fs, before: Moment, after: Moment, f: Path)
    requires f in before.targets
    ensures var s := before.targets[f];
            Tells(event, fs, before, after, f) <==>
            && event.Reported? && event.kind in {Create, Remove, Rename, Modify, Other}
            && (f in event.paths
                || (after.refused == [] && s.root.Some? && ListsAround(event.paths, before.targets.Keys, s.root.value)
                    && HasDirectory(fs, f) && Surprising(s, There(fs, f))))
  {
    hide HasDirectory, ListsAround, RootsOf, ComputeRoot;
    RootOf(fs, f);
    if event.Reported? && before.targets[f].root.Some? {
      RootsAround(event.paths, before.targets.Keys, before.targets[f].root.value);
    }
    if !(event.Reported? && Interesting(event.kind)) {
      assert RootsOf({}, before.targets.Keys) == {} by {
        NoRootsOfNothing(before.targets.Keys);
      }
    }
  }

  // ----- commands -----

  /** Every target has a provider. */
  ghost predicate Needed(targets: map<Path, TargetState>) {
    forall f :: f in targets ==> targets[f].providers != {}
  }

  lemma {:induction false} TargetsAreNeeded(inputs: seq<Input>, steps: seq<Step>, moments: seq<Moment>, n: nat)
    requires Served(inputs, steps, moments) && moments[0].targets == map[]
    requires |steps| == |inputs| && |moments| == |inputs| + 1 && n <= |inputs|
    ensures Needed(moments[n].targets)
  {
    if n > 0 {
      hide Served, Handled, Needed, Tracks;
      TargetsAreNeeded(inputs, steps, moments, n - 1);
      StepFollows(inputs, steps, moments, n - 1);
      StaysNeeded(inputs[n - 1], steps[n - 1], After(steps[..n - 1]), moments[n - 1], moments[n]);
    }
  }

  lemma SubscriberIsProvider(fs: Fs, known: map<Path, TargetState>, p: Provider, f: Path, files: seq<FileSubscription>,
                             after: TargetState, announced: bool)
    requires Subscribed(fs, known, p, f, files, after, announced)
    ensures p in after.providers
  {
  }

  lemma StaysNeeded(input: Input, step: Step, m: Monitor, before: Moment, after: Moment)
    requires Handled(input, step, m, before, after) && Tracks(m, before.targets) && Needed(before.targets)
    requires Tracks(Apply(m, step), after.targets)
    ensures Needed(after.targets)
  {
    match input
    case ClearInput(p, _) => AfterClearing(m, before.targets, p);
    case ReplaceInput(p, files, fs, _) =>
      hide ClearedTargets, Subscribed;
      AfterClearing(m, before.targets, p);
      var cleared := ClearedTargets(before.targets, p, FilesIn(m.subs, p));
      forall f | f in step.added
        ensures p in after.targets[f].providers
      {
        SubscriberIsProvider(fs, cleared, p, f, files, after.targets[f], f in step.touched);
      }
    case EventInput(_, _, _) =>
      hide Quiet, Faithful, Announces;
      forall f | f in after.targets
        ensures after.targets[f].providers == before.targets[f].providers
      {
        assert forall q :: (q, f) in m.subs <==> q in before.targets[f].providers;
      }
    case TimeInput(_) =>
  }

  /** After a clear, or before a replacement's new files, p is gone from the providers of every file, files of nobody
      else are forgotten, and nothing else changes. */
  lemma AfterClearing(m: Monitor, targets: map<Path, TargetState>, p: Provider)
    requires Tracks(m, targets) && Needed(targets)
    ensures var cleared := ClearedTargets(targets, p, FilesIn(m.subs, p));
            && (forall f :: f in cleared <==> exists q :: q != p && (q, f) in m.subs)
            && (forall f :: f in cleared ==>
                f in targets && cleared[f] == targets[f].(providers := targets[f].providers - {p}))
  {
    forall f | f in targets
      ensures f in FilesIn(m.subs, p) <==> p in targets[f].providers
    {
      assert (p, f) in m.subs ==> (p, f).1 in FilesIn(m.subs, p);
    }
  }

  /** The list names the file, and every mention of it says whether it was there. */
  predicate Declares(files: seq<FileSubscription>, f: Path, existed: bool) {
    FileSubscription(f, existed) in files && FileSubscription(f, !existed) !in files
  }

  /** Who else is subscribed to the file. */
  function Others(m: Monitor, p: Provider, f: Path): set<Provider> {
    set x | x in m.subs && x.1 == f && x.0 != p :: x.0
  }

  lemma OthersStay(m: Monitor, targets: map<Path, TargetState>, p: Provider, f: Path)
    requires Tracks(m, targets) && Needed(targets)
    ensures var cleared := ClearedTargets(targets, p, FilesIn(m.subs, p));
            && (f in cleared <==> Others(m, p, f) != {})
            && (f in cleared ==> f in targets && cleared[f] == targets[f].(providers := Others(m, p, f)))
  {
    AfterClearing(m, targets, p);
    forall q
      ensures q in Others(m, p, f) <==> (q, f) in m.subs && q != p
    {
      assert (q, f) in m.subs && q != p ==> (q, f).0 in Others(m, p, f);
    }
  }

  /** The file was not there as last seen, or as p or somebody before it declared. */
  predicate Unexpected(was: TargetState, existed: bool, there: bool) {
    was.observed != there || (if was.declared.Some? then was.declared.value else existed) != there
  }

  lemma SubscribedFile(fs: Fs, known: map<Path, TargetState>, p: Provider, f: Path, files: seq<FileSubscription>,
                       after: TargetState, announced: bool, existed: bool)
    requires Subscribed(fs, known, p, f, files, after, announced) && Declares(files, f, existed)
    ensures after.root.Some? && IsRoot(fs, f, after.root.value) && after.observed == There(fs, f)
    ensures after.declared.None? && after.providers == (if f in known then known[f].providers else {}) + {p}
    ensures announced <==> if f in known then Unexpected(known[f], existed, There(fs, f)) else existed != There(fs, f)
  {
    hide ComputeRoot, IsRoot;
    RootOf(fs, f);
    var d :| && FileSubscription(f, d) in files
             && after == Settle(Registered(fs, known, p, f, d), ComputeRoot(fs, f).value, fs.Exists(f))
             && (announced <==> Changed(Registered(fs, known, p, f, d), fs.Exists(f)));
    assert d == existed;
  }

  /** A file that p subscribes to with a directory above it, while no watch call is refused: p is subscribed, the file's
      root is the nearest directory above it, its record is up to date, and it is announced exactly if it was not as
      declared or, with others subscribed to it, as last seen or declared before. */
  lemma NewSubscription(inputs: seq<Input>, steps: seq<Step>, moments: seq<Moment>, i: nat, f: Path, existed: bool)
    requires Served(inputs, steps, moments) && |steps| == |inputs| && |moments| == |inputs| + 1
    requires i < |inputs| && inputs[i].ReplaceInput? && Declares(inputs[i].files, f, existed)
    requires HasDirectory(inputs[i].fs, f) && moments[i + 1].refused == moments[i].refused
    requires moments[0].targets == map[]
    ensures var p, there := inputs[i].provider, There(inputs[i].fs, f);
            var others := Others(After(steps[..i]), p, f);
            && (p, f) in After(steps[..i + 1]).subs && f in moments[i + 1].targets
            && var s := moments[i + 1].targets[f];
            && s.root.Some? && IsRoot(inputs[i].fs, f, s.root.value)
            && s.providers == others + {p} && s.observed == there && s.declared.None?
            && (others != {} ==> f in moments[i].targets)
            && (f in Touched(steps[i]) <==>
                if others == {} then existed != there else Unexpected(moments[i].targets[f], existed, there))
  {
    hide Served, Subscribed, ClearedTargets, ComputeRoot, IsRoot, HasDirectory, Others;
    var ReplaceInput(p, files, fs, now) := inputs[i];
    var m, before, after := After(steps[..i]), moments[i], moments[i + 1];
    StepFollows(inputs, steps, moments, i);
    TargetsAreNeeded(inputs, steps, moments, i);
    RootOf(fs, f);
    OthersStay(m, before.targets, p, f);
    var cleared := ClearedTargets(before.targets, p, FilesIn(m.subs, p));
    assert f in Installable(fs, files);
    assert f in steps[i].added;
    SubscribedFile(fs, cleared, p, f, files, after.targets[f], f in steps[i].touched, existed);
  }

  /** A provider is subscribed only to listed files with a directory above them. */
  lemma OnlyListedFiles(inputs: seq<Input>, steps: seq<Step>, moments: seq<Moment>, i: nat, f: Path)
    requires Served(inputs, steps, moments) && |steps| == |inputs| && i < |inputs| && inputs[i].ReplaceInput?
    requires (inputs[i].provider, f) in After(steps[..i + 1]).subs
    ensures HasDirectory(inputs[i].fs, f)
    ensures exists existed :: FileSubscription(f, existed) in inputs[i].files
  {
    hide Served, Subscribed, ClearedTargets, ComputeRoot, HasDirectory;
    StepFollows(inputs, steps, moments, i);
    RootOf(inputs[i].fs, f);
    assert f in steps[i].added;
    var sub :| sub in inputs[i].files && ComputeRoot(inputs[i].fs, sub.path).Some? && sub.path == f;
    assert FileSubscription(f, sub.existed) == sub;
  }

  /** A clear ends all subscriptions of the provider, and nobody else's. */
  lemma ClearEndsSubscriptions(inputs: seq<Input>, steps: seq<Step>, moments: seq<Moment>, i: nat, x: Pair)
    requires Served(inputs, steps, moments) && |steps| == |inputs| && i < |inputs| && inputs[i].ClearInput?
    ensures x in After(steps[..i + 1]).subs <==> x in After(steps[..i]).subs && x.0 != inputs[i].provider
    ensures Touched(steps[i]) == {}
  {
    hide Served;
    StepFollows(inputs, steps, moments, i);
  }

  /** What says that a directory went away, and which subscribed paths an input says that of. */
  lemma WhatGoesAway(input: Input, subscribed: set<Path>, f: Path)
    ensures input.EventInput? ==>
              (Removal(input.event) <==> input.event.Reported? && input.event.kind in {Remove, Rename})
    ensures f in Blinded(input, subscribed) <==> SaysGone(input, f) && f in subscribed
  {
  }
}
