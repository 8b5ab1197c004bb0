/** Why the internal names must be pairwise distinct. */
module PatchCollision {
  import opened ScriptLang
  import opened ScriptPatch
  import opened PatchShape
  import opened PatchMeaning
  import opened PatchScript

  /** Distinct internal names are needed: `a1` and `a1_` share theirs, and patching both in one scope
      makes a call of the first run the second. */
  lemma CollidingTargetsChangeMeaning()
    ensures var specs := [PatchSpec("a1", "f", Wrap), PatchSpec("a1_", "g", Wrap)];
            var script := [Constant("a1", 1), Constant("a1_", 2), Effect(Call("a1", []))];
            && Distinct(specs)
            && Run(script, map[], 2) == Done(Undefined, Store([], [Num(1)]))
            && Run(Statements(script, PatchesOf(specs), {}).0, map[], 4) == Done(Undefined, Store([], [Num(2)]))
  {
    hide Run, Statements, PatchesOf, Compile, Constant;
    SourceOfCollision();
    PatchedCollision();
  }

  lemma SourceOfCollision()
    ensures Run([Constant("a1", 1), Constant("a1_", 2), Effect(Call("a1", []))], map[], 2)
              == Done(Undefined, Store([], [Num(1)]))
  {
    hide Run, Apply, EvalSeq;
    var one, two, call := Constant("a1", 1), Constant("a1_", 2), Effect(Call("a1", []));
    var script := [one, two, call];
    RunDeclarations([one, two], call, 2);
    assert [one, two] + [call] == script && [one, two][1..] == [two] && [two][1..] == [];
    assert Bound([two]) == map["a1_" := Fun(two)];
    CallsConstant("a1", "a1", 1, Frame(Bound([one, two]), Top), map[], 2);
    EffectOfCall("a1", 1, Frame(Bound([one, two]), Top), 2);
  }

  lemma PatchedCollision()
    ensures var specs := [PatchSpec("a1", "f", Wrap), PatchSpec("a1_", "g", Wrap)];
            var script := [Constant("a1", 1), Constant("a1_", 2), Effect(Call("a1", []))];
            Run(Statements(script, PatchesOf(specs), {}).0, map[], 4) == Done(Undefined, Store([], [Num(2)]))
  {
    hide Run, Apply, EvalSeq, Statements, PatchesOf, Bound, WrapperOf;
    var specs := [PatchSpec("a1", "f", Wrap), PatchSpec("a1_", "g", Wrap)];
    var patches, call := PatchesOf(specs), Effect(Call("a1", []));
    var p1, p2 := Compile(specs[0]), Compile(specs[1]);
    CollidingPatches();
    var o := p1.originalName;
    var fns := [Constant(o, 1), WrapperOf(p1), Constant(o, 2), WrapperOf(p2)];
    PatchedConstants(p1, p2, call, patches);
    WrapperDeclaresTarget(p1);
    WrapperDeclaresTarget(p2);
    assert fns + [call] == [Constant(o, 1), WrapperOf(p1), Constant(o, 2), WrapperOf(p2), call];
    RunDeclarations(fns, call, 4);
    BoundPatches(p1, p2);
    assert o != "f" && Lookup(Frame(Bound(fns), Top), "f") == Lookup(Top, "f");
    CallsWrapper(p1, "a1", 2, Frame(Bound(fns), Top), 4);
    EffectOfCall("a1", 2, Frame(Bound(fns), Top), 4);
  }

  lemma BoundPatches(p1: CompiledPatch, p2: CompiledPatch)
    requires p1.spec.target == "a1" && p2.spec.target == "a1_" && p1.originalName == p2.originalName
    requires p1.originalName !in ["a1", "a1_"]
    ensures var o := p1.originalName;
            var env := Bound([Constant(o, 1), WrapperOf(p1), Constant(o, 2), WrapperOf(p2)]);
            && o in env && env[o] == Fun(Constant(o, 2)) && "a1" in env && env["a1"] == Fun(WrapperOf(p1))
            && env.Keys == {o, "a1", "a1_"}
  {
    var o := p1.originalName;
    hide WrapperOf;
    WrapperDeclaresTarget(p1);
    WrapperDeclaresTarget(p2);
    var fns := [Constant(o, 1), WrapperOf(p1), Constant(o, 2), WrapperOf(p2)];
    assert fns[1..] == [WrapperOf(p1), Constant(o, 2), WrapperOf(p2)]
             && fns[1..][1..] == [Constant(o, 2), WrapperOf(p2)];
    assert fns[1..][1..][1..] == [WrapperOf(p2)] && [WrapperOf(p2)][1..] == [];
    assert Bound([WrapperOf(p2)]) == map["a1_" := Fun(WrapperOf(p2))];
    assert Bound(fns[1..][1..]) == map[o := Fun(Constant(o, 2))] + map["a1_" := Fun(WrapperOf(p2))];
    assert Bound(fns[1..])["a1"] == Fun(WrapperOf(p1));
  }

  function Constant(name: Name, n: int): Node {
    Fn(name, Fixed([]), [Return(Const(Num(n)))])
  }

  lemma CollidingPatches()
    ensures var specs := [PatchSpec("a1", "f", Wrap), PatchSpec("a1_", "g", Wrap)];
            && PatchesOf(specs) == map["a1" := Compile(specs[0]), "a1_" := Compile(specs[1])]
            && Compile(specs[0]).originalName == Compile(specs[1]).originalName
            && Compile(specs[0]).originalName !in ["f", "a1", "a1_", WRAPPER_ARGS, WRAPPER_CALLBACK]
  {
  }

  lemma PatchedConstants(p1: CompiledPatch, p2: CompiledPatch, call: Node, patches: Patches)
    requires call == Effect(Call("a1", [])) && patches == map["a1" := p1, "a1_" := p2]
    ensures Statements([Constant("a1", 1), Constant("a1_", 2), call], patches, {}).0
            == [Constant(p1.originalName, 1), WrapperOf(p1), Constant(p2.originalName, 2), WrapperOf(p2), call]
  {
    hide WrapperOf, Statements, Children;
    var one, two := Constant("a1", 1), Constant("a1_", 2);
    UnchangedConstant("a1", 1, patches, {});
    UnchangedConstant("a1_", 2, patches, {"a1"});
    UnchangedCall(call, "a1", patches, {"a1"} + {"a1_"});
    VisitFirst(one, [two, call], patches, {});
    VisitFirst(two, [call], patches, {"a1"});
    VisitFirst(call, [], patches, {"a1"} + {"a1_"});
    VisitNone(patches, {"a1"} + {"a1_"});
    assert {} + {"a1"} == {"a1"};
    assert [one] + [two, call] == [one, two, call] && [two] + [call] == [two, call] && [call] + [] == [call];
  }

  lemma VisitNone(patches: Patches, applied: set<Name>)
    ensures Each([], patches, applied) == ([], applied) && Statements([], patches, applied) == ([], applied)
  {
  }

  lemma VisitFirst(n: Node, rest: seq<Node>, patches: Patches, applied: set<Name>)
    requires Children(n, patches, applied) == (n, applied)
    ensures Patchable(n, patches, applied) ==>
              Statements([n] + rest, patches, applied).0
              == [n.(name := patches[n.name].originalName), WrapperOf(patches[n.name])]
                 + Statements(rest, patches, applied + {n.name}).0
    ensures !Patchable(n, patches, applied) ==>
              && Statements([n] + rest, patches, applied)
                == ([n] + Statements(rest, patches, applied).0, Statements(rest, patches, applied).1)
              && Each([n] + rest, patches, applied)
                == ([n] + Each(rest, patches, applied).0, Each(rest, patches, applied).1)
  {
  }

  lemma VisitOne(n: Node, patches: Patches, applied: set<Name>)
    requires Children(n, patches, applied) == (n, applied) && !Patchable(n, patches, applied)
    ensures Each([n], patches, applied) == ([n], applied) && Statements([n], patches, applied) == ([n], applied)
  {
    hide Each, Statements;
    VisitNone(patches, applied);
    VisitFirst(n, [], patches, applied);
    assert [n] + [] == [n];
  }

  lemma Unchanged(n: Node, patches: Patches, applied: set<Name>)
    requires Each(Parts(n), patches, applied) == (Parts(n), applied)
    requires Statements(Body(n), patches, applied) == (Body(n), applied)
    ensures Children(n, patches, applied) == (n, applied)
  {
  }

  lemma UnchangedConstant(name: Name, n: int, patches: Patches, applied: set<Name>)
    ensures Children(Constant(name, n), patches, applied) == (Constant(name, n), applied)
  {
    hide Each, Statements, Children;
    var c := Const(Num(n));
    VisitNone(patches, applied);
    Unchanged(c, patches, applied);
    VisitOne(c, patches, applied);
    Unchanged(Return(c), patches, applied);
    VisitOne(Return(c), patches, applied);
    Unchanged(Constant(name, n), patches, applied);
  }

  lemma UnchangedCall(call: Node, f: Name, patches: Patches, applied: set<Name>)
    requires call == Effect(Call(f, []))
    ensures Children(call, patches, applied) == (call, applied)
  {
    hide Each, Statements, Children;
    VisitNone(patches, applied);
    Unchanged(call.e, patches, applied);
    VisitOne(call.e, patches, applied);
    Unchanged(call, patches, applied);
  }

  /** Running function declarations and then one call evaluates the call where they are bound. */
  lemma {:induction false} RunDeclarations(fns: seq<Node>, call: Node, fuel: nat)
    requires call.Effect? && forall i :: 0 <= i < |fns| ==> fns[i].Fn?
    ensures Run(fns + [call], map[], fuel) == EvalSeq([call], Frame(Bound(fns), Top), Store([], []), map[], fuel)
  {
    HoistDeclarations(fns, call);
    assert [] + NewCells(0) == [];
    SkipDeclarations(fns, call, Frame(Bound(fns), Top), fuel);
  }

  function Bound(fns: seq<Node>): map<Name, Binding>
    requires forall i :: 0 <= i < |fns| ==> fns[i].Fn?
  {
    if fns == [] then map[] else map[fns[0].name := Fun(fns[0])] + Bound(fns[1..])
  }

  lemma {:induction false} HoistDeclarations(fns: seq<Node>, call: Node)
    requires call.Effect? && forall i :: 0 <= i < |fns| ==> fns[i].Fn?
    ensures Hoist(fns + [call], 0) == Bound(fns) && LetCount(fns + [call]) == 0
  {
    if fns == [] {
      assert [] + [call] == [call] && [call][1..] == [];
    } else {
      HoistDeclarations(fns[1..], call);
      assert (fns + [call])[1..] == fns[1..] + [call];
    }
  }

  lemma {:induction false} SkipDeclarations(fns: seq<Node>, call: Node, env: Env, fuel: nat)
    requires forall i :: 0 <= i < |fns| ==> fns[i].Fn?
    ensures EvalSeq(fns + [call], env, Store([], []), map[], fuel) == EvalSeq([call], env, Store([], []), map[], fuel)
  {
    if fns == [] {
      assert [] + [call] == [call];
    } else {
      SkipDeclarations(fns[1..], call, env, fuel);
      assert (fns + [call])[1..] == fns[1..] + [call];
    }
  }

  lemma CallsConstant(f: Name, name: Name, n: int, env: Env, host: Host, fuel: nat)
    requires fuel > 0 && env.Frame? && f in env.binds && env.binds[f] == Fun(Constant(name, n))
    ensures Apply(f, [], env, Store([], []), host, fuel) == Done(Num(n), Store([], []))
  {
    var c := Const(Num(n));
    var body := [Return(c)];
    var home := env;
    var frame := Frame(CallFrame(Fixed([]), body, [], 0), home);
    assert body[1..] == [] && LetCount([]) == 0;
    assert LetCount(body) == 0;
    assert CallStore(Fixed([]), body, [], Store([], [])) == Store([], []);
    assert Eval(c, frame, Store([], []), host, fuel - 1) == Done(Num(n), Store([], []));
    assert EvalSeq(body, frame, Store([], []), host, fuel - 1) == Returned(Num(n), Store([], []));
    InvokeBody(Fixed([]), body, [], home, Store([], []), host, fuel);
  }

  lemma EffectOfCall(f: Name, n: int, env: Env, fuel: nat)
    requires Apply(f, [], env, Store([], []), map[], fuel) == Done(Num(n), Store([], []))
    ensures EvalSeq([Effect(Call(f, []))], env, Store([], []), map[], fuel) == Done(Undefined, Store([], [Num(n)]))
  {
    hide Apply;
    var call := Call(f, []);
    assert Eval(call, env, Store([], []), map[], fuel) == Done(Num(n), Store([], []));
    assert Eval(Effect(call), env, Store([], []), map[], fuel) == Done(Undefined, Store([], [Num(n)]));
    assert [Effect(call)][1..] == [];
    assert EvalSeq([], env, Store([], [Num(n)]), map[], fuel) == Done(Undefined, Store([], [Num(n)]));
  }

  /** Without a callback a wrapper calls whatever its internal name is bound to. */
  lemma CallsWrapper(p: CompiledPatch, f: Name, n: int, env: Env, fuel: nat)
    requires fuel > 1 && env.Frame? && f in env.binds && env.binds[f] == Fun(WrapperOf(p))
    requires p.originalName in env.binds && env.binds[p.originalName] == Fun(Constant(p.originalName, n))
    requires p.originalName != WRAPPER_ARGS && p.originalName != WRAPPER_CALLBACK
    requires !GlobalFunction(env, p.spec.patchFunction)
    ensures Apply(f, [], env, Store([], []), map[], fuel) == Done(Num(n), Store([], []))
  {
    hide Invoke, WrapperOf;
    var st := Store([], []);
    var w := WrapperOf(p);
    WrapperDeclaresTarget(p);
    WrapperScope(p, [], st);
    var frame := Frame(CallFrame(w.params, w.body, [], 0), env);
    WrapperBody(p, [], frame, st, map[], fuel - 1);
    InvokeBody(w.params, w.body, [], env, st, map[], fuel);
    assert Lookup(frame, p.originalName) == Lookup(env, p.originalName);
    CallsConstant(p.originalName, p.originalName, n, env, map[], fuel - 1);
  }
}
