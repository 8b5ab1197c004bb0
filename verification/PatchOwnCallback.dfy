/** Why a callback must not have the name of one of the script's outermost functions: the wrapper of such a target finds
    itself on globalThis and calls itself without end. */
module PatchOwnCallback {
  import opened Wrappers
  import opened ScriptLang
  import opened ScriptPatch
  import opened PatchShape
  import opened PatchMeaning
  import opened PatchScript
  import opened PatchCollision

  /** The outermost scope around env holds the wrapper of p under the name of p's callback. */
  predicate FindsItself(p: CompiledPatch, env: Env) {
    Lookup(Outermost(env), p.spec.patchFunction) == Some((Fun(WrapperOf(p)), Outermost(env)))
  }

  /** Such a wrapper never ends, however deep calls may go. */
  lemma {:induction false} CallsItselfForever(p: CompiledPatch, vs: seq<Value>, home: Env, st: Store, host: Host,
                                              fuel: nat)
    requires home.Frame? && FindsItself(p, home) && p.spec.patchFunction !in host
    ensures Invoke(WrapperOf(p).params, WrapperOf(p).body, vs, home, st, host, fuel) == Timeout
    decreases fuel
  {
    WrapperDeclaresTarget(p);
    if fuel > 0 {
      hide Invoke, WrapperOf, Apply;
      var w := WrapperOf(p);
      var env := Frame(CallFrame(w.params, w.body, vs, |st.cells|), home);
      var handed := if p.spec.mode.Wrap? then [FunctionValue] else [];
      WrapperScope(p, vs, st);
      OutermostTwice(home);
      CallsItselfForever(p, handed + vs, Outermost(home), st, host, fuel - 1);
      FoundWrapper(p, handed + vs, home, st, host, fuel - 1);
      CallbackBody(p, vs, env, st, host, fuel - 1);
      InvokeBody(w.params, w.body, vs, home, st, host, fuel);
    }
  }

  lemma {:induction false} OutermostTwice(env: Env)
    ensures Outermost(Outermost(env)) == Outermost(env) && (env.Frame? ==> Outermost(env).Frame?)
  {
    if env.Frame? && env.up.Frame? {
      OutermostTwice(env.up);
    }
  }

  lemma FoundWrapper(p: CompiledPatch, vs: seq<Value>, env: Env, st: Store, host: Host, fuel: nat)
    requires FindsItself(p, env)
    ensures Apply(p.spec.patchFunction, vs, Outermost(env), st, host, fuel)
            == Invoke(WrapperOf(p).params, WrapperOf(p).body, vs, Outermost(env), st, host, fuel)
  {
  }

  /** A wrapper whose callback is a global function calls that one. */
  lemma CallbackBody(p: CompiledPatch, vs: seq<Value>, env: Env, st: Store, host: Host, fuel: nat)
    requires env.Frame? && WRAPPER_ARGS in env.binds && env.binds[WRAPPER_ARGS] == Args(vs)
    requires WRAPPER_CALLBACK in env.binds && env.binds[WRAPPER_CALLBACK] == Global(p.spec.patchFunction)
    requires p.spec.patchFunction !in host && GlobalFunction(env, p.spec.patchFunction)
    ensures var handed := if p.spec.mode.Wrap? then [FunctionValue] else [];
            var out := Apply(p.spec.patchFunction, handed + vs, Outermost(env), st, host, fuel);
            out == Timeout ==> EvalSeq(WrapperOf(p).body, env, st, host, fuel) == Timeout
  {
    hide Apply, Outermost;
    var body := WrapperOf(p).body;
    var tail := body[1..];
    assert tail[0] == body[1] && tail[1..] == [body[2]] && tail[1..][0] == body[2];
    assert Eval(body[1], env, st, host, fuel) == Done(Undefined, st);
    assert EvalSeq(body, env, st, host, fuel) == EvalSeq(tail[1..], env, st, host, fuel);
    var call := CallGlobal(WRAPPER_CALLBACK, if p.spec.mode.Wrap? then Some(p.originalName) else None, WRAPPER_ARGS);
    assert body[2] == Return(call) && Lookup(env, WRAPPER_ARGS) == Some((Args(vs), env));
    assert Eval(call, env, st, host, fuel) == ApplyGlobal(call.x, call.original, vs, env, st, host, fuel);
    var out := Apply(p.spec.patchFunction, (if p.spec.mode.Wrap? then [FunctionValue] else []) + vs, Outermost(env),
                     st, host, fuel);
    assert ApplyGlobal(call.x, call.original, vs, env, st, host, fuel) == out;
    assert out == Timeout ==> Eval(body[2], env, st, host, fuel) == Timeout;
  }

  /** A patch that names no callback of its own uses the target's name for it. If nothing is installed, and the
      outermost scope has no other function of that name, a call through its wrapper ends like the original exactly when
      the target is not itself declared in the outermost scope. */
  lemma UnnamedCallbackNeedsInnerTarget(p: CompiledPatch, vs: seq<Value>, home: Env, st: Store, host: Host, depth: nat)
    requires home.Frame? && p.spec.patchFunction !in host
    requires p.originalName in home.binds && home.binds[p.originalName].Fun? && home.binds[p.originalName].decl.Fn?
    requires p.originalName !in [WRAPPER_ARGS, WRAPPER_CALLBACK]
    requires GlobalFunction(home, p.spec.patchFunction) ==> FindsItself(p, home)
    requires var d := home.binds[p.originalName].decl; Invoke(d.params, d.body, vs, home, st, host, depth) != Timeout
    ensures (exists fuel: nat :: Invoke(WrapperOf(p).params, WrapperOf(p).body, vs, home, st, host, fuel) != Timeout)
            <==> !GlobalFunction(home, p.spec.patchFunction)
  {
    WrapperDeclaresTarget(p);
    hide Invoke, WrapperOf, Apply;
    var d := home.binds[p.originalName].decl;
    if GlobalFunction(home, p.spec.patchFunction) {
      forall fuel: nat
        ensures Invoke(WrapperOf(p).params, WrapperOf(p).body, vs, home, st, host, fuel) == Timeout
      {
        CallsItselfForever(p, vs, home, st, host, fuel);
      }
    } else {
      ForwardsBelow(p, vs, home, st, host, depth);
    }
  }

  lemma ForwardsBelow(p: CompiledPatch, vs: seq<Value>, home: Env, st: Store, host: Host, fuel: nat)
    requires home.Frame? && p.spec.patchFunction !in host && !GlobalFunction(home, p.spec.patchFunction)
    requires p.originalName in home.binds && home.binds[p.originalName].Fun? && home.binds[p.originalName].decl.Fn?
    requires p.originalName !in [WRAPPER_ARGS, WRAPPER_CALLBACK]
    ensures var d := home.binds[p.originalName].decl;
            Invoke(WrapperOf(p).params, WrapperOf(p).body, vs, home, st, host, fuel + 1)
            == Invoke(d.params, d.body, vs, home, st, host, fuel)
  {
    WrapperDeclaresTarget(p);
    hide Invoke, WrapperOf;
    var w := WrapperOf(p);
    var env := Frame(CallFrame(w.params, w.body, vs, |st.cells|), home);
    WrapperScope(p, vs, st);
    assert Lookup(env, p.originalName) == Lookup(home, p.originalName);
    WrapperBody(p, vs, env, st, host, fuel);
    InvokeBody(w.params, w.body, vs, home, st, host, fuel + 1);
  }

  // ----- a script that patching breaks -----

  /** A manifest that only lists the name of an outermost function is accepted and breaks the script: the source calls
      the function and ends, the patched script does not, with nothing installed. */
  lemma OutermostTargetRecurses()
    ensures var specs := [PatchSpec("f", "f", Wrap)];
            var script := [Constant("f", 1), Effect(Call("f", []))];
            && SpecsOf([Text("f")]) == specs
            && Run(script, map[], 2) == Done(Undefined, Store([], [Num(1)]))
            && (forall fuel: nat :: Run(Statements(script, PatchesOf(specs), {}).0, map[], fuel) == Timeout)
            && SafeTargets(specs) && FreshAll(script, PatchesOf(specs)) && Forwards(map[], PatchesOf(specs))
            && !CallbacksAreForeign(script, PatchesOf(specs))
  {
    hide Run, Statements, PatchesOf, Compile, Constant, FreshAll;
    var specs := [PatchSpec("f", "f", Wrap)];
    var p, call := Compile(specs[0]), Effect(Call("f", []));
    OnePatch();
    SourceEnds();
    IsFresh();
    PatchedList(p, call);
    forall fuel: nat
      ensures Run(Statements([Constant("f", 1), call], PatchesOf(specs), {}).0, map[], fuel) == Timeout
    {
      PatchedRecurses(p, call, fuel);
    }
    WrapperDeclaresTarget(p);
    DeclaredOfCons(Constant(p.originalName, 1), [WrapperOf(p), call]);
    DeclaredOfCons(WrapperOf(p), [call]);
    assert [Constant(p.originalName, 1)] + [WrapperOf(p), call] == [Constant(p.originalName, 1), WrapperOf(p), call];
    assert [WrapperOf(p)] + [call] == [WrapperOf(p), call];
    assert "f" in PatchesOf(specs);
  }

  lemma OnePatch()
    ensures var specs := [PatchSpec("f", "f", Wrap)];
            && SpecsOf([Text("f")]) == specs && SafeTargets(specs)
            && PatchesOf(specs) == map["f" := Compile(specs[0])]
            && Compile(specs[0]).spec == specs[0] && Compile(specs[0]).originalName != "f"
  {
    hide Blank, SpecsOf, PatchesOf, MakeInternalOriginalName, SafeTargets;
    var spec := PatchSpec("f", "f", Wrap);
    NotBlank();
    SpecsOfOne(Text("f"), spec);
    PatchesOfOne(spec);
    LongerName("f");
    SafeTarget(spec);
  }

  lemma NotBlank()
    ensures !Blank("f")
  {
    assert "f"[0] == 'f';
  }

  lemma SpecsOfOne(e: Element, spec: PatchSpec)
    requires SpecOf(e) == Some(spec)
    ensures SpecsOf([e]) == [spec]
  {
    hide SpecOf;
    assert [e][..0] == [] && SpecsOf([]) == [];
  }

  lemma PatchesOfOne(spec: PatchSpec)
    ensures PatchesOf([spec]) == map[spec.target := Compile(spec)]
  {
    hide Compile;
    assert [spec][..0] == [] && PatchesOf([]) == map[];
  }

  lemma LongerName(target: Name)
    ensures |MakeInternalOriginalName(target)| > |target|
  {
    hide EndsInDigit;
    assert |INTERNAL_PREFIX| > 0;
  }

  lemma SafeTarget(spec: PatchSpec)
    requires spec.target == "f"
    ensures SafeTargets([spec])
  {
    assert spec.target[0] == 'f' && !EndsInDigit(spec.target);
    assert |INTERNAL_PREFIX| > |spec.target|;
  }

  lemma SourceEnds()
    ensures Run([Constant("f", 1), Effect(Call("f", []))], map[], 2) == Done(Undefined, Store([], [Num(1)]))
  {
    hide Run, Apply, EvalSeq;
    var one, call := Constant("f", 1), Effect(Call("f", []));
    RunDeclarations([one], call, 2);
    assert [one] + [call] == [one, call] && [one][1..] == [];
    CallsConstant("f", "f", 1, Frame(Bound([one]), Top), map[], 2);
    EffectOfCall("f", 1, Frame(Bound([one]), Top), 2);
  }

  lemma IsFresh()
    ensures FreshAll([Constant("f", 1), Effect(Call("f", []))], PatchesOf([PatchSpec("f", "f", Wrap)]))
  {
    OnePatch();
    hide PatchesOf, Compile, Fresh, FreshAll;
    var patches := PatchesOf([PatchSpec("f", "f", Wrap)]);
    assert "f" !in Internals(patches);
    var one, call := Constant("f", 1), Effect(Call("f", []));
    FreshLeaf(Const(Num(1)), patches);
    FreshLeaf(Call("f", []), patches);
    FreshAround(Return(Const(Num(1))), Const(Num(1)), patches);
    FreshAround(one, Return(Const(Num(1))), patches);
    FreshAround(call, Call("f", []), patches);
    FreshPair(one, call, patches);
  }

  lemma FreshLeaf(n: Node, patches: Patches)
    requires OwnNames(n) !! Internals(patches) && Parts(n) == [] && Body(n) == []
    ensures Fresh(n, patches)
  {
  }

  lemma FreshAround(n: Node, inner: Node, patches: Patches)
    requires OwnNames(n) !! Internals(patches) && Fresh(inner, patches)
    requires (Parts(n) == [inner] && Body(n) == []) || (Parts(n) == [] && Body(n) == [inner])
    ensures Fresh(n, patches)
  {
    assert [inner][1..] == [] && FreshAll([inner], patches) && FreshAll([], patches);
  }

  lemma FreshPair(a: Node, b: Node, patches: Patches)
    requires Fresh(a, patches) && Fresh(b, patches)
    ensures FreshAll([a, b], patches)
  {
    assert [a, b][1..] == [b] && [b][1..] == [] && FreshAll([], patches) && FreshAll([b], patches);
  }

  lemma PatchedList(p: CompiledPatch, call: Node)
    requires call == Effect(Call("f", []))
    ensures Statements([Constant("f", 1), call], map["f" := p], {}).0
              == [Constant(p.originalName, 1), WrapperOf(p), call]
  {
    hide WrapperOf, Statements, Children;
    var patches := map["f" := p];
    UnchangedConstant("f", 1, patches, {});
    UnchangedCall(call, "f", patches, {"f"});
    VisitFirst(Constant("f", 1), [call], patches, {});
    VisitFirst(call, [], patches, {"f"});
    VisitNone(patches, {"f"});
    assert {} + {"f"} == {"f"} && [Constant("f", 1)] + [call] == [Constant("f", 1), call] && [call] + [] == [call];
  }

  lemma PatchedRecurses(p: CompiledPatch, call: Node, fuel: nat)
    requires call == Effect(Call("f", [])) && p.spec == PatchSpec("f", "f", Wrap) && p.originalName != "f"
    ensures Run([Constant(p.originalName, 1), WrapperOf(p), call], map[], fuel) == Timeout
  {
    hide Run, Apply, Invoke, WrapperOf, EvalSeq;
    WrapperDeclaresTarget(p);
    var fns := [Constant(p.originalName, 1), WrapperOf(p)];
    var env := Frame(Bound(fns), Top);
    assert fns + [call] == [Constant(p.originalName, 1), WrapperOf(p), call];
    RunDeclarations(fns, call, fuel);
    assert fns[1..] == [WrapperOf(p)] && [WrapperOf(p)][1..] == [];
    assert Bound(fns[1..]) == map["f" := Fun(WrapperOf(p))];
    assert Outermost(env) == env && FindsItself(p, env);
    CallsItselfForever(p, [], env, Store([], []), map[], fuel);
    FoundWrapper(p, [], env, Store([], []), map[], fuel);
    CallTimesOut(call, env, fuel);
  }

  lemma CallTimesOut(call: Node, env: Env, fuel: nat)
    requires call == Effect(Call("f", [])) && Apply("f", [], env, Store([], []), map[], fuel) == Timeout
    ensures EvalSeq([call], env, Store([], []), map[], fuel) == Timeout
  {
    hide Apply;
    assert Eval(call.e, env, Store([], []), map[], fuel) == Timeout;
    assert Eval(call, env, Store([], []), map[], fuel) == Timeout;
  }
}
