/** What the elements of a patch manifest mean, in terms of their own fields: which are accepted, which patches they
    describe, and what the callback of each is handed. */
module PatchManifest {
  import opened Wrappers
  import opened ScriptLang
  import opened ScriptPatch
  import opened PatchShape
  import opened PatchMeaning
  import opened PatchScript

  /** The code points with the property White_Space. */
  const WHITE_SPACE: set<int> :=
    {9, 10, 11, 12, 13, 32, 133, 160, 5760, 8192, 8193, 8194, 8195, 8196, 8197, 8198, 8199, 8200, 8201, 8202, 8232,
     8233, 8239, 8287, 12288}

  predicate IsText(s: string) {
    exists i :: 0 <= i < |s| && s[i] as int !in WHITE_SPACE
  }

  lemma NotBlank(s: string)
    ensures IsText(s) <==> !Blank(s)
  {
    forall c: char
      ensures IsWhiteSpace(c) <==> c as int in WHITE_SPACE
    {
    }
    hide IsWhiteSpace;
  }

  /** A string literal stands for a wrap patch of that target with a callback of the same name. */
  lemma TextElement(target: string, spec: PatchSpec)
    ensures SpecOf(Text(target)) == Some(spec) <==>
            && IsText(target) && spec.target == target && spec.patchFunction == target && spec.mode.Wrap?
    ensures WellFormed(Text(target)) <==> IsText(target)
  {
    hide Blank, IsText;
    NotBlank(target);
  }

  /** An object needs a target; its callback is named by `with`, or else like the target, and may not be blank; its mode
      is "wrap" unless it says "replace", and it may not say anything else. */
  lemma ObjectElement(target: Option<string>, with_: Option<string>, mode: Option<string>, spec: PatchSpec)
    ensures WellFormed(Object(target, with_, mode)) <==>
            && target.Some? && IsText(target.value)
            && (with_.Some? ==> IsText(with_.value))
            && (mode.Some? ==> mode.value == "wrap" || mode.value == "replace")
    ensures SpecOf(Object(target, with_, mode)) == Some(spec) <==>
            && target == Some(spec.target) && IsText(spec.target) && IsText(spec.patchFunction)
            && with_ in {Some(spec.patchFunction), None} && (with_.None? ==> spec.patchFunction == spec.target)
            && (mode.Some? ==> mode.value == "wrap" || mode.value == "replace")
            && (spec.mode.Replace? <==> mode == Some("replace"))
  {
    hide Blank, IsText;
    if target.Some? {
      NotBlank(target.value);
    }
    if with_.Some? {
      NotBlank(with_.value);
    }
  }

  /** Holes are passed over; anything else that is neither a string literal nor an object is refused. */
  lemma OtherElements()
    ensures SpecOf(Hole) == None && WellFormed(Hole) && SpecOf(OtherElement) == None && !WellFormed(OtherElement)
  {
  }

  /** The specs of a manifest are those of its elements, in order. */
  lemma {:induction false} SpecsInOrder(elements: seq<Element>, more: seq<Element>)
    ensures SpecsOf(elements + more) == SpecsOf(elements) + SpecsOf(more)
    ensures |elements| == 1 ==>
              SpecsOf(elements) == if SpecOf(elements[0]).Some? then [SpecOf(elements[0]).value] else []
    decreases |more|
  {
    hide SpecOf;
    if |elements| == 1 {
      assert elements[..0] == [] && SpecsOf([]) == [];
    }
    if more == [] {
      assert elements + more == elements;
    } else {
      SpecsInOrder(elements, more[..|more| - 1]);
      assert (elements + more)[..|elements + more| - 1] == elements + more[..|more| - 1];
    }
  }

  lemma SpecIsListed(elements: seq<Element>, i: nat, spec: PatchSpec) returns (k: nat)
    requires i < |elements| && SpecOf(elements[i]) == Some(spec)
    ensures k < |SpecsOf(elements)| && SpecsOf(elements)[k] == spec
  {
    hide SpecOf, SpecsOf;
    var before, one, after := elements[..i], [elements[i]], elements[i + 1..];
    SpecsInOrder(before, one);
    SpecsInOrder(one, []);
    SpecsInOrder(before + one, after);
    assert elements == before + one + after;
    k := |SpecsOf(before)|;
  }

  /** Each element of an accepted manifest leads to a patch filed under its target. */
  lemma ElementIsPatched(elements: seq<Element>, i: nat, spec: PatchSpec)
    requires i < |elements| && SpecOf(elements[i]) == Some(spec) && Distinct(SpecsOf(elements))
    ensures var patches := PatchesOf(SpecsOf(elements));
            spec.target in patches && patches[spec.target] == Compile(spec)
  {
    hide SpecOf, SpecsOf, PatchesOf, Distinct, Compile;
    var k := SpecIsListed(elements, i, spec);
    PatchIsFiled(SpecsOf(elements), k);
  }

  lemma {:induction false} PatchIsFiled(specs: seq<PatchSpec>, k: nat)
    requires k < |specs| && Distinct(specs)
    ensures specs[k].target in PatchesOf(specs) && PatchesOf(specs)[specs[k].target] == Compile(specs[k])
  {
    hide Compile;
    var n := |specs| - 1;
    if k < n {
      PatchIsFiled(specs[..n], k);
      assert specs[k].target != specs[n].target;
    }
  }

  lemma {:induction false} SpecsAreOfElements(elements: seq<Element>, spec: PatchSpec)
    ensures spec in SpecsOf(elements) <==> exists e :: e in elements && SpecOf(e) == Some(spec)
  {
    hide SpecOf;
    if elements != [] {
      var n := |elements| - 1;
      SpecsAreOfElements(elements[..n], spec);
      assert elements == elements[..n] + [elements[n]];
    }
  }

  /** No two elements have the same target or the same callback. */
  ghost predicate Apart(elements: seq<Element>) {
    forall i, j :: 0 <= i < j < |elements| ==> DescribeOthers(elements[i], elements[j])
  }

  predicate DescribeOthers(a: Element, b: Element) {
    SpecOf(a).Some? && SpecOf(b).Some? ==>
      SpecOf(a).value.target != SpecOf(b).value.target && SpecOf(a).value.patchFunction != SpecOf(b).value.patchFunction
  }

  lemma NothingIsApart()
    ensures Distinct(SpecsOf([])) && Apart([])
  {
  }

  lemma {:induction false} DistinctIsApart(elements: seq<Element>)
    ensures Distinct(SpecsOf(elements)) <==> Apart(elements)
  {
    hide SpecOf, SpecsOf, Distinct, Apart;
    if elements == [] {
      NothingIsApart();
    } else {
      var before, e := elements[..|elements| - 1], elements[|elements| - 1];
      assert elements == before + [e];
      DistinctIsApart(before);
      OneMoreIsApart(before, e);
      SpecsInOrder(before, [e]);
      SpecsInOrder([e], []);
      if SpecOf(e).Some? {
        OneMoreIsDistinct(SpecsOf(before), SpecOf(e).value);
        forall spec
          ensures spec in SpecsOf(before) <==> exists e' :: e' in before && SpecOf(e') == Some(spec)
        {
          SpecsAreOfElements(before, spec);
        }
      } else {
        assert SpecsOf(elements) == SpecsOf(before);
      }
    }
  }

  lemma OneMoreIsApart(elements: seq<Element>, e: Element)
    ensures Apart(elements + [e]) <==> Apart(elements) && forall e' :: e' in elements ==> DescribeOthers(e', e)
  {
    hide DescribeOthers;
    var more := elements + [e];
    assert forall i :: 0 <= i < |elements| ==> more[i] == elements[i];
    if Apart(more) {
      forall e' | e' in elements
        ensures DescribeOthers(e', e)
      {
        var i :| 0 <= i < |elements| && elements[i] == e';
        assert DescribeOthers(more[i], more[|elements|]);
      }
    }
  }

  lemma OneMoreIsDistinct(specs: seq<PatchSpec>, spec: PatchSpec)
    ensures Distinct(specs + [spec]) <==>
            && Distinct(specs)
            && forall s :: s in specs ==> s.target != spec.target && s.patchFunction != spec.patchFunction
  {
    var more := specs + [spec];
    assert forall i :: 0 <= i < |specs| ==> more[i] == specs[i];
    if Distinct(more) {
      forall s | s in specs
        ensures s.target != spec.target && s.patchFunction != spec.patchFunction
      {
        var i :| 0 <= i < |specs| && specs[i] == s;
        assert more[i].target != more[|specs|].target && more[i].patchFunction != more[|specs|].patchFunction;
      }
    }
  }

  /** A manifest is accepted if it has an element other than holes, every element is well formed, no two have the same
      target or callback, and every callback is declared. */
  lemma AcceptedManifests(elements: seq<Element>, declared: set<Name>)
    ensures Accepted(elements, declared) <==>
            && (forall e :: e in elements ==> e.Hole? || SpecOf(e).Some?)
            && (exists e :: e in elements && !e.Hole?)
            && Apart(elements)
            && (forall e :: e in elements && SpecOf(e).Some? ==> SpecOf(e).value.patchFunction in declared)
  {
    hide SpecOf, Distinct, Apart, SpecsOf;
    DistinctIsApart(elements);
    forall spec
      ensures spec in SpecsOf(elements) <==> exists e :: e in elements && SpecOf(e) == Some(spec)
    {
      SpecsAreOfElements(elements, spec);
    }
    OtherElements();
    assert SpecsOf(elements) != [] <==> exists spec :: spec in SpecsOf(elements) by {
      if SpecsOf(elements) != [] {
        assert SpecsOf(elements)[0] in SpecsOf(elements);
      }
    }
  }

  // ----- internal names -----

  /** The internal name of a target: ASCII letters, digits, `_` and `$` stay, every other character becomes `_`, and
      another `_` follows a digit at the end. */
  lemma InternalNameOf(target: Name)
    ensures var name, n := MakeInternalOriginalName(target), |"__openusage_original_"|;
            && name[..n] == "__openusage_original_"
            && |name| == n + |target| + (if target != "" && target[|target| - 1] in "0123456789" then 1 else 0)
            && (|name| > n + |target| ==> name[n + |target|] == '_')
            && forall i :: 0 <= i < |target| ==>
                 var c := target[i] as int;
                 var stays := 48 <= c <= 57 || 65 <= c <= 90 || c == 95 || 97 <= c <= 122 || c == 36;
                 name[n + i] == if stays then target[i] else '_'
  {
    SanitizedCharacters(target);
    hide Sanitize, IsNameChar;
    var out := INTERNAL_PREFIX + Sanitize(target);
    assert out[|out| - 1] == if target == "" then '_' else Sanitize(target)[|target| - 1];
    LastDigit(target);
  }

  lemma SanitizedCharacters(target: Name)
    ensures |Sanitize(target)| == |target|
    ensures forall i :: 0 <= i < |target| ==>
              var c := target[i] as int;
              var stays := 48 <= c <= 57 || 65 <= c <= 90 || c == 95 || 97 <= c <= 122 || c == 36;
              Sanitize(target)[i] == if stays then target[i] else '_'
  {
  }

  lemma LastDigit(target: Name)
    requires |Sanitize(target)| == |target|
    ensures target != "" ==>
              var n := |target| - 1;
              IsDigit(Sanitize(target)[n]) <==> target[n] in "0123456789"
  {
  }

  // ----- what the callbacks are handed -----

  /** Under "replace" a callback is handed the arguments only: one that calls the function it is handed throws. */
  lemma ReplaceHandsArgumentsOnly(k: Name, vs: seq<Value>, home: Env, st: Store, host: Host, patches: Patches,
                                  fuel: nat)
    requires k in patches && WellNamed(patches) && patches[k].spec.mode.Replace? && fuel > 0
    requires patches[k].spec.patchFunction in host && host[patches[k].spec.patchFunction].PassThrough?
    ensures var w := WrapperOf(patches[k]);
            Invoke(w.params, w.body, vs, home, st, host, fuel) == Thrown(st)
  {
    hide Invoke, Apply;
    var p := patches[k];
    var w := WrapperOf(p);
    var env := Frame(CallFrame(w.params, w.body, vs, |st.cells|), home);
    WrapperScope(p, vs, st);
    InvokeBody(w.params, w.body, vs, home, st, host, fuel);
    CallbackIsTried(p, env, st, host, fuel - 1);
    hide WrapperOf, CallFrame;
    assert Eval(w.body[2].e, env, st, host, fuel - 1) == Thrown(st);
    assert Eval(w.body[2], env, st, host, fuel - 1) == Thrown(st);
  }

  /** Under "wrap" it is handed the original first: the call answers as the original does. */
  lemma WrapHandsTheOriginal(k: Name, vs: seq<Value>, home: Env, st: Store, host: Host, patches: Patches, fuel: nat)
    requires k in patches && WellNamed(patches) && patches[k].spec.mode.Wrap? && fuel > 0
    requires patches[k].spec.patchFunction in host && host[patches[k].spec.patchFunction].PassThrough?
    requires home.Frame? && patches[k].originalName in home.binds
    requires home.binds[patches[k].originalName].Fun? && home.binds[patches[k].originalName].decl.Fn?
    ensures var w, d := WrapperOf(patches[k]), home.binds[patches[k].originalName].decl;
            Invoke(w.params, w.body, vs, home, st, host, fuel) == Invoke(d.params, d.body, vs, home, st, host, fuel - 1)
  {
    hide Invoke;
    var p := patches[k];
    var w, d := WrapperOf(p), home.binds[p.originalName].decl;
    var env := Frame(CallFrame(w.params, w.body, vs, |st.cells|), home);
    WrapperScope(p, vs, st);
    InternalNames(k, patches);
    assert p.originalName !in env.binds;
    assert Lookup(env, p.originalName) == Some((home.binds[p.originalName], home));
    assert Apply(p.originalName, vs, env, st, host, fuel - 1) == Invoke(d.params, d.body, vs, home, st, host, fuel - 1);
    WrapperBody(p, vs, env, st, host, fuel - 1);
    InvokeBody(w.params, w.body, vs, home, st, host, fuel);
  }

  /** So for an object in an accepted manifest: with a callback installed that just calls what it is handed, under the
      name that `with` gives or else the target's, a call of the target answers as the original unless the mode is
      "replace"; then it throws. */
  lemma ModeOfElement(elements: seq<Element>, i: nat, vs: seq<Value>, home: Env, st: Store, host: Host, fuel: nat)
    requires i < |elements| && elements[i].Object? && elements[i].targetField.Some?
    requires (forall e :: e in elements ==> WellFormed(e)) && Distinct(SpecsOf(elements))
    requires WellNamed(PatchesOf(SpecsOf(elements))) && fuel > 0
    requires var e := elements[i];
             var callback := if e.withField.Some? then e.withField.value else e.targetField.value;
             callback in host && host[callback].PassThrough?
    requires var original := MakeInternalOriginalName(elements[i].targetField.value);
             home.Frame? && original in home.binds && home.binds[original].Fun? && home.binds[original].decl.Fn?
    ensures var e, patches := elements[i], PatchesOf(SpecsOf(elements));
            && e.targetField.value in patches
            && var p := patches[e.targetField.value];
            var w, d := WrapperOf(p), home.binds[MakeInternalOriginalName(e.targetField.value)].decl;
            && w.name == e.targetField.value
            && Invoke(w.params, w.body, vs, home, st, host, fuel) ==
                 if e.modeField == Some("replace") then Thrown(st)
                 else Invoke(d.params, d.body, vs, home, st, host, fuel - 1)
  {
    hide WellNamed, Invoke, SpecOf, SpecsOf, PatchesOf, MakeInternalOriginalName, Distinct;
    var e := elements[i];
    assert e in elements && WellFormed(e);
    var spec := SpecOf(e).value;
    ObjectElement(e.targetField, e.withField, e.modeField, spec);
    ElementIsPatched(elements, i, spec);
    FiledPatches(SpecsOf(elements));
    var patches := PatchesOf(SpecsOf(elements));
    WrapperDeclaresTarget(patches[spec.target]);
    if spec.mode.Replace? {
      ReplaceHandsArgumentsOnly(spec.target, vs, home, st, host, patches, fuel);
    } else {
      WrapHandsTheOriginal(spec.target, vs, home, st, host, patches, fuel);
    }
  }
}
