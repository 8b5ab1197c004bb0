/** From an override's patch manifest to the transformed plugin script. */
module PatchScript {
  import opened Wrappers
  import opened ScriptLang
  import opened ScriptPatch
  import opened PatchShape
  import opened PatchMeaning

  // ----- internal names -----

  const INTERNAL_PREFIX: Name := "__openusage_original_"

  predicate IsDigit(c: char) {
    '0' <= c <= '9'
  }

  predicate IsNameChar(c: char) {
    'a' <= c <= 'z' || 'A' <= c <= 'Z' || IsDigit(c) || c == '_' || c == '$'
  }

  function Sanitize(target: Name): Name {
    seq(|target|, i requires 0 <= i < |target| => if IsNameChar(target[i]) then target[i] else '_')
  }

  predicate EndsInDigit(s: Name) {
    s != "" && IsDigit(s[|s| - 1])
  }

  function MakeInternalOriginalName(target: Name): Name {
    var out := INTERNAL_PREFIX + Sanitize(target);
    if EndsInDigit(out) then out + "_" else out
  }

  /** Two targets get the same internal name exactly when they are sanitized alike, or one sanitized
      name ends in a digit and the other is that name with an underscore. */
  lemma InternalNamesCollide(a: Name, b: Name)
    ensures MakeInternalOriginalName(a) == MakeInternalOriginalName(b) <==>
            var (s, t) := (Sanitize(a), Sanitize(b));
            s == t || (EndsInDigit(s) && t == s + "_") || (EndsInDigit(t) && s == t + "_")
  {
    var s, t := Sanitize(a), Sanitize(b);
    TailOfName(s, EndsInDigit(s));
    TailOfName(t, EndsInDigit(t));
    assert MakeInternalOriginalName(a) == INTERNAL_PREFIX + Tail(s);
    assert MakeInternalOriginalName(b) == INTERNAL_PREFIX + Tail(t);
    assert (INTERNAL_PREFIX + Tail(s))[|INTERNAL_PREFIX|..] == Tail(s);
    assert (INTERNAL_PREFIX + Tail(t))[|INTERNAL_PREFIX|..] == Tail(t);
    if Tail(s) == Tail(t) && EndsInDigit(s) != EndsInDigit(t) {
      assert (s + "_")[..|s|] == s && (t + "_")[..|t|] == t;
    } else if Tail(s) == Tail(t) && EndsInDigit(s) {
      assert (s + "_")[..|s|] == s && (t + "_")[..|t|] == t;
    }
  }

  function Tail(s: Name): Name {
    if EndsInDigit(s) then s + "_" else s
  }

  lemma TailOfName(s: Name, digit: bool)
    requires digit == EndsInDigit(s)
    ensures EndsInDigit(INTERNAL_PREFIX + s) == digit
    ensures INTERNAL_PREFIX + (s + "_") == INTERNAL_PREFIX + s + "_"
  {
  }

  // ----- the manifest -----

  datatype Element =
    | Hole
    | Text(target: string)
    | Object(targetField: Option<string>, withField: Option<string>, modeField: Option<string>)
    | OtherElement

  datatype TransformError =
    | InvalidElement(index: nat)
    | DuplicateTarget(name: Name)
    | DuplicateCallback(name: Name)
    | EmptyManifest
    | UndeclaredFunction(name: Name)
    | TargetsNotFound(names: seq<Name>)

  /** White space as Unicode defines it. */
  predicate IsWhiteSpace(c: char) {
    || '\t' <= c <= '\r' || c == ' ' || c in ['\U{0085}', '\U{00A0}', '\U{1680}']
    || '\U{2000}' <= c <= '\U{200A}' || c in ['\U{2028}', '\U{2029}', '\U{202F}', '\U{205F}', '\U{3000}']
  }

  predicate Blank(s: string) {
    forall i :: 0 <= i < |s| ==> IsWhiteSpace(s[i])
  }

  /** The patch an element describes; None if it describes none. */
  function SpecOf(e: Element): Option<PatchSpec> {
    match e
    case Text(t) => if Blank(t) then None else Some(PatchSpec(t, t, Wrap))
    case Object(Some(t), name, mode) =>
      var patch := if name.Some? then name.value else t;
      if Blank(t) || Blank(patch) then None
      else if mode.None? || mode.value == "wrap" then Some(PatchSpec(t, patch, Wrap))
      else if mode.value == "replace" then Some(PatchSpec(t, patch, PatchMode.Replace))
      else None
    case _ => None
  }

  predicate WellFormed(e: Element) {
    e.Hole? || SpecOf(e).Some?
  }

  function SpecsOf(elements: seq<Element>): seq<PatchSpec> {
    if elements == [] then []
    else
      var before, e := SpecsOf(elements[..|elements| - 1]), elements[|elements| - 1];
      if SpecOf(e).Some? then before + [SpecOf(e).value] else before
  }

  ghost predicate Distinct(specs: seq<PatchSpec>) {
    forall i, j :: 0 <= i < j < |specs| ==>
      specs[i].target != specs[j].target && specs[i].patchFunction != specs[j].patchFunction
  }

  function TargetSet(specs: seq<PatchSpec>): set<Name> {
    set s | s in specs :: s.target
  }

  function CallbackSet(specs: seq<PatchSpec>): set<Name> {
    set s | s in specs :: s.patchFunction
  }

  method ParsePatchSpecs(elements: seq<Element>) returns (r: Result<seq<PatchSpec>, TransformError>)
    ensures r.Success? <==> (forall e :: e in elements ==> WellFormed(e)) && Distinct(SpecsOf(elements))
    ensures r.Success? ==> r.value == SpecsOf(elements)
  {
    hide SpecOf, SpecsOf, Distinct, TargetSet, CallbackSet;
    var specs: seq<PatchSpec> := [];
    var seenTargets: set<Name>, seenCallbacks: set<Name> := {}, {};
    var i := 0;
    NoSpecs(elements);
    while i < |elements|
      invariant 0 <= i <= |elements|
      invariant specs == SpecsOf(elements[..i]) && Distinct(specs)
      invariant forall j :: 0 <= j < i ==> WellFormed(elements[j])
      invariant seenTargets == TargetSet(specs) && seenCallbacks == CallbackSet(specs)
    {
      var e := elements[i];
      OneMoreElement(elements, i);
      i := i + 1;
      if e.Hole? {
        continue;
      }
      var spec := SpecOf(e);
      if spec.None? {
        assert e in elements && !WellFormed(e);
        return Failure(InvalidElement(i - 1));
      }
      SpecsOfPrefix(elements, i);
      OneMoreSpec(specs, spec.value, SpecsOf(elements));
      if spec.value.target in seenTargets {
        return Failure(DuplicateTarget(spec.value.target));
      }
      if spec.value.patchFunction in seenCallbacks {
        return Failure(DuplicateCallback(spec.value.patchFunction));
      }
      seenTargets := seenTargets + {spec.value.target};
      seenCallbacks := seenCallbacks + {spec.value.patchFunction};
      specs := specs + [spec.value];
    }
    assert elements[..i] == elements;
    return Success(specs);
  }

  lemma NoSpecs(elements: seq<Element>)
    ensures SpecsOf(elements[..0]) == [] && Distinct([]) && TargetSet([]) == {} && CallbackSet([]) == {}
  {
  }

  lemma OneMoreElement(elements: seq<Element>, i: nat)
    requires i < |elements|
    ensures var spec, before := SpecOf(elements[i]), SpecsOf(elements[..i]);
            SpecsOf(elements[..i + 1]) == if spec.Some? then before + [spec.value] else before
    ensures elements[i].Hole? ==> SpecOf(elements[i]).None?
  {
    assert elements[..i + 1][..i] == elements[..i];
  }

  /** One more spec keeps them distinct, unless its target or its callback is taken; then no longer list is distinct. */
  lemma OneMoreSpec(specs: seq<PatchSpec>, spec: PatchSpec, all: seq<PatchSpec>)
    requires Distinct(specs) && specs + [spec] <= all
    ensures var taken := spec.target in TargetSet(specs) || spec.patchFunction in CallbackSet(specs);
            if taken then !Distinct(all) else Distinct(specs + [spec])
    ensures TargetSet(specs + [spec]) == TargetSet(specs) + {spec.target}
    ensures CallbackSet(specs + [spec]) == CallbackSet(specs) + {spec.patchFunction}
  {
    assert all[|specs|] == spec && forall j :: 0 <= j < |specs| ==> all[j] == specs[j];
    if spec.target in TargetSet(specs) {
      var j :| 0 <= j < |specs| && specs[j].target == spec.target;
      assert all[j].target == all[|specs|].target;
    } else if spec.patchFunction in CallbackSet(specs) {
      var j :| 0 <= j < |specs| && specs[j].patchFunction == spec.patchFunction;
      assert all[j].patchFunction == all[|specs|].patchFunction;
    }
  }

  lemma {:induction false} SpecsOfPrefix(elements: seq<Element>, i: nat)
    requires i <= |elements|
    ensures SpecsOf(elements[..i]) <= SpecsOf(elements)
    decreases |elements| - i
  {
    if i < |elements| {
      SpecsOfPrefix(elements, i + 1);
      assert elements[..i + 1][..i] == elements[..i];
    } else {
      assert elements[..i] == elements;
    }
  }

  // ----- the transformation -----

  datatype TransformResult = TransformResult(script: seq<Node>, patchedFunctions: seq<Name>, callbackNames: seq<Name>)

  function Compile(spec: PatchSpec): CompiledPatch {
    CompiledPatch(spec, MakeInternalOriginalName(spec.target))
  }

  function PatchesOf(specs: seq<PatchSpec>): Patches {
    if specs == [] then map[]
    else
      var spec := specs[|specs| - 1];
      PatchesOf(specs[..|specs| - 1])[spec.target := Compile(spec)]
  }

  function TargetsOf(specs: seq<PatchSpec>): seq<Name> {
    seq(|specs|, i requires 0 <= i < |specs| => specs[i].target)
  }

  function CallbacksOf(specs: seq<PatchSpec>): seq<Name> {
    seq(|specs|, i requires 0 <= i < |specs| => specs[i].patchFunction)
  }

  function Missing(specs: seq<PatchSpec>, applied: set<Name>): (r: seq<Name>)
    ensures r == [] <==> forall s :: s in specs ==> s.target in applied
    ensures forall k :: k in r ==> k !in applied && exists s :: s in specs && s.target == k
    ensures forall s :: s in specs && s.target !in applied ==> s.target in r
  {
    if specs == [] then []
    else
      var before, s := Missing(specs[..|specs| - 1], applied), specs[|specs| - 1];
      assert specs == specs[..|specs| - 1] + [s];
      if s.target in applied then before else before + [s.target]
  }

  /** The manifest parses, is not empty, and names only callbacks the override declares. */
  ghost predicate Accepted(elements: seq<Element>, declared: set<Name>) {
    && (forall e :: e in elements ==> WellFormed(e))
    && Distinct(SpecsOf(elements))
    && SpecsOf(elements) != []
    && forall s :: s in SpecsOf(elements) ==> s.patchFunction in declared
  }

  /** `manifest` is None if there is no override or no patch manifest in it; `declared` are the
      override's top-level functions. */
  method TransformPluginScript(script: seq<Node>, manifest: Option<seq<Element>>, declared: set<Name>)
    returns (r: Result<TransformResult, TransformError>)
    ensures manifest.None? ==> r == Success(TransformResult(script, [], []))
    ensures manifest.Some? ==>
              (r.Success? <==> && Accepted(manifest.value, declared)
                               && forall s :: s in SpecsOf(manifest.value) ==> s.target in DeclarationsAll(script))
    ensures manifest.Some? && r.Success? ==>
              var specs := SpecsOf(manifest.value);
              r.value
                == TransformResult(Statements(script, PatchesOf(specs), {}).0, TargetsOf(specs), CallbacksOf(specs))
    ensures manifest.Some? && r.Success? ==>
              var specs := SpecsOf(manifest.value);
              && |r.value.patchedFunctions| == |r.value.callbackNames| == |specs|
              && forall i :: 0 <= i < |specs| ==>
                r.value.patchedFunctions[i] == specs[i].target && r.value.callbackNames[i] == specs[i].patchFunction
    ensures manifest.Some? && r.Failure? && Accepted(manifest.value, declared) ==>
              && r.error.TargetsNotFound? && r.error.names != []
              && forall s :: s in SpecsOf(manifest.value) ==>
                (s.target in r.error.names <==> s.target !in DeclarationsAll(script))
  {
    if manifest.None? {
      return Success(TransformResult(script, [], []));
    }
    hide Statements, DeclarationsAll, SpecsOf, WellFormed;
    var parsed := ParsePatchSpecs(manifest.value);
    if parsed.Failure? {
      return Failure(parsed.error);
    }
    var specs := parsed.value;
    if specs == [] {
      return Failure(EmptyManifest);
    }
    for i := 0 to |specs|
      invariant forall j :: 0 <= j < i ==> specs[j].patchFunction in declared
    {
      if specs[i].patchFunction !in declared {
        assert specs[i] in specs;
        return Failure(UndeclaredFunction(specs[i].patchFunction));
      }
    }
    var output, missing := Inject(script, specs);
    if missing != [] {
      return Failure(TargetsNotFound(missing));
    }
    return Success(TransformResult(output, TargetsOf(specs), CallbacksOf(specs)));
  }

  /** Runs the injector and reports the targets it did not find. */
  method Inject(script: seq<Node>, specs: seq<PatchSpec>) returns (output: seq<Node>, missing: seq<Name>)
    ensures output == Statements(script, PatchesOf(specs), {}).0
    ensures missing == [] <==> forall s :: s in specs ==> s.target in DeclarationsAll(script)
    ensures forall k :: k in missing <==> k !in DeclarationsAll(script) && exists s :: s in specs && s.target == k
  {
    hide Statements, Renaming, DeclarationsAll;
    FiledPatches(specs);
    var injector := new FunctionPatchInjector(PatchesOf(specs));
    output := injector.VisitStatements(script);
    StatementsRename(script, PatchesOf(specs), {});
    assert injector.applied == set k | k in DeclarationsAll(script) && k in PatchesOf(specs);
    missing := Missing(specs, injector.applied);
  }

  lemma {:induction false} FiledPatches(specs: seq<PatchSpec>)
    ensures Filed(PatchesOf(specs))
    ensures PatchesOf(specs).Keys == set s | s in specs :: s.target
    ensures forall k :: k in PatchesOf(specs) ==> PatchesOf(specs)[k] == Compile(PatchesOf(specs)[k].spec)
  {
    if specs != [] {
      var before := specs[..|specs| - 1];
      FiledPatches(before);
      assert specs == before + [specs[|specs| - 1]];
    }
  }

  /** Targets whose internal names cannot clash: plain identifiers, none of them internal, and no
      target that ends in a digit beside that target with an underscore. */
  ghost predicate SafeTargets(specs: seq<PatchSpec>) {
    && (forall s :: s in specs ==>
        (forall i :: 0 <= i < |s.target| ==> IsNameChar(s.target[i])) && !(INTERNAL_PREFIX <= s.target))
    && (forall s, t :: s in specs && t in specs && EndsInDigit(s.target) ==> t.target != s.target + "_")
  }

  lemma SafeTargetsAreWellNamed(specs: seq<PatchSpec>)
    requires SafeTargets(specs)
    ensures WellNamed(PatchesOf(specs))
  {
    FiledPatches(specs);
    var patches := PatchesOf(specs);
    forall k | k in patches
      ensures INTERNAL_PREFIX <= patches[k].originalName && exists s :: s in specs && s.target == k && Sanitize(k) == k
    {
      var s :| s in specs && s.target == k;
      assert Sanitize(k) == k;
    }
    forall k, m | k in patches && m in patches && patches[k].originalName == patches[m].originalName
      ensures k == m
    {
      var s :| s in specs && s.target == k;
      var t :| t in specs && t.target == m;
      InternalNamesCollide(k, m);
    }
    forall x | x in Internals(patches)
      ensures INTERNAL_PREFIX <= x
    {
    }
    assert WRAPPER_ARGS[12] != INTERNAL_PREFIX[12] && WRAPPER_CALLBACK[12] != INTERNAL_PREFIX[12];
  }

  /** The whole promise of the transformation for safe targets: exactly the first declarations are renamed, erasing
      gives back the script, and, unless a callback has the name of a function that the script declares in its outermost
      list, the script keeps its meaning under every host that forwards. */
  lemma TransformedScripts(script: seq<Node>, specs: seq<PatchSpec>)
    requires SafeTargets(specs) && FreshAll(script, PatchesOf(specs))
    ensures var patched := Statements(script, PatchesOf(specs), {}).0;
            && DeclarationsAll(patched) == Renaming(DeclarationsAll(script), PatchesOf(specs), {})
            && EraseAll(patched, PatchesOf(specs)) == script
            && forall host: Host, fuel: nat ::
              CallbacksAreForeign(script, PatchesOf(specs)) && Forwards(host, PatchesOf(specs)) ==>
                 && (Run(script, host, fuel) != Timeout ==> Run(patched, host, 2 * fuel) == Run(script, host, fuel))
                 && (Run(patched, host, fuel) != Timeout ==> Run(script, host, fuel) == Run(patched, host, fuel))
  {
    SafeTargetsAreWellNamed(specs);
    StatementsErase(script, PatchesOf(specs), {});
    StatementsRename(script, PatchesOf(specs), {});
    forall host: Host, fuel: nat | CallbacksAreForeign(script, PatchesOf(specs)) && Forwards(host, PatchesOf(specs))
      ensures var patched := Statements(script, PatchesOf(specs), {}).0;
              && (Run(script, host, fuel) != Timeout ==> Run(patched, host, 2 * fuel) == Run(script, host, fuel))
              && (Run(patched, host, fuel) != Timeout ==> Run(script, host, fuel) == Run(patched, host, fuel))
    {
      PatchingPreservesMeaning(script, PatchesOf(specs), host, fuel);
    }
  }
}
