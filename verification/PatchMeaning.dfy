/** A patched script means what its source means, when no callback is installed and when a wrap
    callback just calls the original. */
module PatchMeaning {
  import opened Wrappers
  import opened ScriptLang
  import opened ScriptPatch
  import opened PatchShape

  /** Each patch's callback is missing, or is a wrap callback that just calls the original. */
  ghost predicate Forwards(host: Host, patches: Patches) {
    forall k :: k in patches ==>
      var spec := patches[k].spec;
      spec.patchFunction in host ==> spec.mode.Wrap? && host[spec.patchFunction].PassThrough?
  }

  /** No patch takes a function of the outermost scope for its callback. */
  ghost predicate Unclaimed(env: Env, patches: Patches) {
    forall k :: k in patches ==> !GlobalFunction(env, patches[k].spec.patchFunction)
  }

  // ----- environments of the source run and of the patched run -----

  /** What x is bound to in the source, given the bindings of the same scope in the patched script: a
      wrapper stands for the renamed declaration beside it. */
  ghost predicate Stands(x: Name, source: Binding, patched: map<Name, Binding>, patches: Patches)
    requires x in patched
  {
    match patched[x]
    case Fun(d) =>
      if x in patches && d == WrapperOf(patches[x]) then
        var original := patches[x].originalName;
        && original in patched && patched[original].Fun?
        && var d0 := patched[original].decl;
        && Renamed(d0, patches) && Patched(Unrename(d0, patches), patches)
        && source == Fun(Erase(Unrename(d0, patches), patches))
      else
        d.Fn? && Patched(d, patches) && source == Fun(Erase(d, patches))
    case Global(key) => source == patched[x] && key !in Internals(patches)
    case b => source == b
  }

  ghost predicate SameScope(source: map<Name, Binding>, patched: map<Name, Binding>, patches: Patches) {
    && (forall x :: x in source ==> x !in Internals(patches))
    && (forall x :: x !in Internals(patches) ==> (x in source <==> x in patched))
    && (forall x :: x in source && x in patched ==> Stands(x, source[x], patched, patches))
  }

  ghost predicate SameEnv(source: Env, patched: Env, patches: Patches) {
    match source
    case Top => patched.Top?
    case Frame(binds, up) =>
      patched.Frame? && SameScope(binds, patched.binds, patches)
      && SameEnv(up, patched.up, patches)
  }

  lemma StandsElsewhere(x: Name, source: Binding, patched: map<Name, Binding>, other: map<Name, Binding>,
                        patches: Patches)
    requires x in patched && x in other && other[x] == patched[x] && Stands(x, source, patched, patches)
    requires x in patches && patches[x].originalName in patched ==>
               patches[x].originalName in other && other[patches[x].originalName] == patched[patches[x].originalName]
    ensures Stands(x, source, other, patches)
  {
  }

  /** A later scope may override an earlier one unless it redeclares an internal name. */
  lemma ScopesUnite(s1: map<Name, Binding>, p1: map<Name, Binding>, s2: map<Name, Binding>, p2: map<Name, Binding>,
                    patches: Patches)
    requires WellNamed(patches) && SameScope(s1, p1, patches) && SameScope(s2, p2, patches)
    requires p1.Keys * p2.Keys !! Internals(patches)
    ensures SameScope(s1 + s2, p1 + p2, patches)
  {
    hide Stands, Internals, WellNamed;
    forall x | x in s1 + s2 && x in p1 + p2
      ensures Stands(x, (s1 + s2)[x], p1 + p2, patches)
    {
      if x in p2 {
        StandsElsewhere(x, s2[x], p2, p1 + p2, patches);
      } else {
        if x in patches {
          InternalNames(x, patches);
        }
        StandsElsewhere(x, s1[x], p1, p1 + p2, patches);
      }
    }
  }

  /** Entering a patched statement list and entering its source allocate the same cells and give
      corresponding scopes. */
  lemma {:induction false} HoistedScopes(ns: seq<Node>, next: nat, patches: Patches)
    requires WellNamed(patches) && PatchedAll(ns, patches)
    ensures SameScope(Hoist(EraseAll(ns, patches), next), Hoist(ns, next), patches)
    ensures LetCount(EraseAll(ns, patches)) == LetCount(ns)
    ensures Hoist(ns, next).Keys * Internals(patches) <= Declared(ns)
    decreases SizeAll(ns)
  {
    hide Erase, Patched, Stands, Internals, WellNamed, WrapperOf;
    if ns == [] {
    } else if Renamed(ns[0], patches) {
      SizeOfTail(ns);
      HoistedScopes(ns[2..], next, patches);
      HoistedPair(ns, next, patches);
    } else {
      var n := ns[0];
      var next' := if n.Let? then next + 1 else next;
      HoistedScopes(ns[1..], next', patches);
      var e := Erase(n, patches);
      assert EraseAll(ns, patches) == [e] + EraseAll(ns[1..], patches);
      HoistOfCons(e, EraseAll(ns[1..], patches), next);
      HoistOfCons(n, ns[1..], next);
      assert ns == [n] + ns[1..];
      HoistedOne(n, next, patches);
      ScopesUnite(Own(e, next), Own(n, next), Hoist(EraseAll(ns[1..], patches), next'), Hoist(ns[1..], next'), patches);
    }
  }

  lemma HoistedPair(ns: seq<Node>, next: nat, patches: Patches)
    requires WellNamed(patches) && ns != [] && Renamed(ns[0], patches) && PatchedAll(ns, patches)
    requires SameScope(Hoist(EraseAll(ns[2..], patches), next), Hoist(ns[2..], next), patches)
    requires LetCount(EraseAll(ns[2..], patches)) == LetCount(ns[2..])
    requires Hoist(ns[2..], next).Keys * Internals(patches) <= Declared(ns[2..])
    ensures SameScope(Hoist(EraseAll(ns, patches), next), Hoist(ns, next), patches)
    ensures LetCount(EraseAll(ns, patches)) == LetCount(ns)
    ensures Hoist(ns, next).Keys * Internals(patches) <= Declared(ns)
  {
    hide Erase, Patched, SameScope, Internals, WellNamed, WrapperOf, Hoist, Declared;
    var d, w, rest := ns[0], ns[1], ns[2..];
    var k := TargetOf(d.name, patches);
    assert w == WrapperOf(patches[k]);
    WrapperDeclaresTarget(patches[k]);
    var e := Erase(Unrename(d, patches), patches);
    assert EraseAll(ns, patches) == [e] + EraseAll(rest, patches);
    assert ns == [d] + ([w] + rest);
    HoistOfCons(e, EraseAll(rest, patches), next);
    HoistOfCons(d, [w] + rest, next);
    HoistOfCons(w, rest, next);
    var s1, p1 := Own(e, next), Own(d, next) + Own(w, next);
    PairScope(d, next, patches);
    assert p1 + Hoist(rest, next) == Own(d, next) + (Own(w, next) + Hoist(rest, next));
    ScopesUnite(s1, p1, Hoist(EraseAll(rest, patches), next), Hoist(rest, next), patches);
    DeclaredOfCons(d, [w] + rest);
    DeclaredOfCons(w, rest);
  }

  lemma DeclaredOfCons(n: Node, rest: seq<Node>)
    ensures Declared([n] + rest) == (if n.Fn? then {n.name} else {}) + Declared(rest)
  {
  }

  lemma PairScope(d: Node, next: nat, patches: Patches)
    requires WellNamed(patches) && Renamed(d, patches) && Patched(Unrename(d, patches), patches)
    ensures var k := TargetOf(d.name, patches);
            var s1 := Own(Erase(Unrename(d, patches), patches), next);
            var p1 := Own(d, next) + Own(WrapperOf(patches[k]), next);
            && SameScope(s1, p1, patches) && p1.Keys == {d.name, k} && k !in Internals(patches)
  {
    hide Erase, Patched;
    var k := TargetOf(d.name, patches);
    InternalNames(k, patches);
    var e := Erase(Unrename(d, patches), patches);
    assert e.Fn? && e.name == k by {
      ErasedName(Unrename(d, patches), patches);
    }
  }

  lemma ErasedName(n: Node, patches: Patches)
    requires n.Fn?
    ensures Erase(n, patches).Fn? && Erase(n, patches).name == n.name && Erase(n, patches).params == n.params
    ensures Erase(n, patches).body == EraseAll(n.body, patches)
  {
  }

  /** The binding one statement contributes to its list's scope. */
  function Own(n: Node, next: nat): map<Name, Binding> {
    match n
    case Let(x, _) => map[x := Cell(next)]
    case Fn(name, _, _) => map[name := Fun(n)]
    case ConstGlobal(x, key) => map[x := Global(key)]
    case _ => map[]
  }

  lemma HoistOfCons(n: Node, rest: seq<Node>, next: nat)
    ensures Hoist([n] + rest, next) == Own(n, next) + Hoist(rest, if n.Let? then next + 1 else next)
    ensures LetCount([n] + rest) == (if n.Let? then 1 else 0) + LetCount(rest)
  {
  }

  lemma HoistedOne(n: Node, next: nat, patches: Patches)
    requires WellNamed(patches) && Patched(n, patches)
    ensures SameScope(Own(Erase(n, patches), next), Own(n, next), patches)
    ensures Own(n, next).Keys !! Internals(patches)
  {
    hide Patched, Erase, WrapperOf, Internals, WellNamed;
    OwnNamesAreNotInternal(n, patches);
    if n.Fn? {
      ErasedName(n, patches);
      if n.name in patches {
        WrapperIsNotPatched(n.name, patches);
      }
      assert Stands(n.name, Fun(Erase(n, patches)), Own(n, next), patches);
    } else {
      ErasedBinding(n, next, patches);
    }
  }

  lemma OwnNamesAreNotInternal(n: Node, patches: Patches)
    requires Patched(n, patches)
    ensures OwnNames(n) !! Internals(patches)
  {
  }

  lemma ErasedBinding(n: Node, next: nat, patches: Patches)
    requires !n.Fn?
    ensures Own(Erase(n, patches), next) == Own(n, next)
  {
  }

  /** A wrapper on its own uses an internal name. */
  lemma WrapperIsNotPatched(k: Name, patches: Patches)
    requires k in patches
    ensures !Patched(WrapperOf(patches[k]), patches)
  {
    var body := WrapperOf(patches[k]).body;
    var call := CallSpread(patches[k].originalName, WRAPPER_ARGS);
    assert call.f in Internals(patches) && call.f in OwnNames(call);
    assert !Patched(call, patches);
    assert Parts(Return(call)) == [call];
    assert !Patched(Return(call), patches);
    assert body[1] == IfNotFunction(WRAPPER_CALLBACK, Return(call)) && Parts(body[1]) == [Return(call)];
    assert !Patched(body[1], patches);
    assert body[1..][0] == body[1] && !Renamed(body[0], patches) && !Renamed(body[1], patches);
    assert !PatchedAll(body[1..], patches);
    assert !PatchedAll(body, patches);
  }

  // ----- the simulation -----

  /** s is a run of the source, low and high are runs of the patched script with less and with more
      fuel: where one side ends, the other ends alike. */
  ghost predicate Agree(s: Outcome, low: Outcome, high: Outcome) {
    (s != Timeout ==> high == s) && (low != Timeout ==> s == low)
  }

  ghost predicate AgreeArgs(s: ArgsOutcome, low: ArgsOutcome, high: ArgsOutcome) {
    (s != Stopped(Timeout) ==> high == s) && (low != Stopped(Timeout) ==> s == low)
  }

  /** A call through a wrapper is one call deeper, so the patched run needs up to twice the fuel. */
  ghost predicate Setting(es: Env, et: Env, host: Host, patches: Patches, low: nat, fuel: nat, high: nat) {
    && WellNamed(patches) && SameEnv(es, et, patches) && et.Frame? && Unclaimed(et, patches) && Forwards(host, patches)
    && low <= fuel && 2 * fuel <= high
  }

  ghost predicate SameLookup(es: Env, et: Env, x: Name, patches: Patches) {
    match (Lookup(es, x), Lookup(et, x))
    case (None, None) => true
    case (Some((b, hs)), Some((b', ht))) =>
      && hs.Frame? && ht.Frame? && SameEnv(hs, ht, patches)
      && x in ht.binds && b' == ht.binds[x] && Stands(x, b, ht.binds, patches) && Outermost(ht) == Outermost(et)
    case _ => false
  }

  lemma {:induction false} LookupsAgree(es: Env, et: Env, x: Name, patches: Patches)
    requires SameEnv(es, et, patches) && x !in Internals(patches)
    ensures SameLookup(es, et, x, patches)
  {
    hide Stands, Internals;
    if es.Frame? && x !in es.binds {
      LookupsAgree(es.up, et.up, x, patches);
    }
  }

  lemma {:induction false} OutermostAgrees(es: Env, et: Env, patches: Patches)
    requires SameEnv(es, et, patches)
    ensures SameEnv(Outermost(es), Outermost(et), patches)
    ensures Outermost(Outermost(et)) == Outermost(et) && (et.Frame? ==> Outermost(et).Frame?)
  {
    hide SameScope;
    if et.Frame? && et.up.Frame? {
      OutermostAgrees(es.up, et.up, patches);
    }
  }

  /** Reading and writing variables, and testing for a function, do not see the difference. */
  lemma VariablesAgree(es: Env, et: Env, x: Name, st: Store, host: Host, patches: Patches)
    requires SameEnv(es, et, patches) && x !in Internals(patches)
    ensures Read(es, x, st) == Read(et, x, st)
    ensures forall v, declaring :: Write(es, x, v, st, declaring) == Write(et, x, v, st, declaring)
    ensures IsFunction(es, x, host) == IsFunction(et, x, host)
  {
    hide Patched, Internals;
    LookupsAgree(es, et, x, patches);
    if Lookup(et, x).Some? && Lookup(et, x).value.0.Global? {
      OutermostAgrees(es, et, patches);
      LookupsAgree(Outermost(es), Outermost(et), Lookup(et, x).value.0.key, patches);
    }
  }

  lemma ErasedForms(t: Node, patches: Patches)
    ensures t.Add? ==> Erase(t, patches) == Add(Erase(t.l, patches), Erase(t.r, patches))
    ensures t.Call? ==> Erase(t, patches) == Call(t.f, EraseEach(t.args, patches))
    ensures t.Closure? ==> Erase(t, patches) == Closure(EraseAll(t.body, patches))
    ensures t.Effect? ==> Erase(t, patches) == Effect(Erase(t.e, patches))
    ensures t.Let? ==> Erase(t, patches) == Let(t.x, Erase(t.e, patches))
    ensures t.Assign? ==> Erase(t, patches) == Assign(t.x, Erase(t.e, patches))
    ensures t.Return? ==> Erase(t, patches) == Return(Erase(t.e, patches))
    ensures t.If? ==> Erase(t, patches) == If(Erase(t.c, patches), Erase(t.thn, patches), Erase(t.els, patches))
    ensures t.IfNotFunction? ==> Erase(t, patches) == IfNotFunction(t.x, Erase(t.thn, patches))
    ensures t.Block? ==> Erase(t, patches) == Block(EraseAll(t.body, patches))
    ensures t.Const? || t.Var? || t.CallSpread? || t.CallGlobal? || t.ConstGlobal? ==> Erase(t, patches) == t
  {
    hide Erase, EraseEach, EraseAll;
    assert Erase(t, patches) == Rebuild(t, EraseEach(Parts(t), patches), EraseAll(Body(t), patches)) by {
      ErasedTree(t, patches);
    }
    ErasedAt(Parts(t), patches);
  }

  lemma ErasedTree(t: Node, patches: Patches)
    ensures Erase(t, patches) == Rebuild(t, EraseEach(Parts(t), patches), EraseAll(Body(t), patches))
    ensures Patched(t, patches) <==>
              OwnNames(t) !! Internals(patches) && PatchedEach(Parts(t), patches) && PatchedAll(Body(t), patches)
  {
  }

  lemma {:induction false} ErasedAt(ns: seq<Node>, patches: Patches)
    ensures forall i :: 0 <= i < |ns| ==> EraseEach(ns, patches)[i] == Erase(ns[i], patches)
    ensures PatchedEach(ns, patches) ==> forall i :: 0 <= i < |ns| ==> Patched(ns[i], patches)
  {
    hide Erase, Patched;
    if ns != [] {
      ErasedAt(ns[1..], patches);
    }
  }

  lemma PatchedForms(t: Node, patches: Patches)
    requires Patched(t, patches)
    ensures OwnNames(t) !! Internals(patches)
    ensures t.Add? ==> Patched(t.l, patches) && Patched(t.r, patches)
    ensures t.Call? ==> PatchedEach(t.args, patches)
    ensures t.Effect? || t.Let? || t.Assign? || t.Return? ==> Patched(t.e, patches)
    ensures t.If? ==> Patched(t.c, patches) && Patched(t.thn, patches) && Patched(t.els, patches)
    ensures t.IfNotFunction? ==> Patched(t.thn, patches)
    ensures t.Closure? || t.Block? || t.Fn? ==> PatchedAll(t.body, patches)
  {
    hide Patched, PatchedEach, PatchedAll, OwnNames;
    ErasedTree(t, patches);
    ErasedAt(Parts(t), patches);
    assert t.Add? ==> Parts(t)[0] == t.l && Parts(t)[1] == t.r;
    assert t.If? ==> Parts(t)[0] == t.c && Parts(t)[1] == t.thn && Parts(t)[2] == t.els;
    assert t.Effect? || t.Let? || t.Assign? || t.Return? ==> Parts(t)[0] == t.e;
    assert t.IfNotFunction? ==> Parts(t)[0] == t.thn;
  }

  lemma {:induction false} SimEval(t: Node, es: Env, et: Env, st: Store, host: Host, patches: Patches, low: nat,
                                   fuel: nat, high: nat)
    requires Setting(es, et, host, patches, low, fuel, high) && Patched(t, patches)
    ensures Agree(Eval(Erase(t, patches), es, st, host, fuel), Eval(t, et, st, host, low), Eval(t, et, st, host, high))
    decreases fuel, Size(t), 1
  {
    hide Patched, PatchedAll, PatchedEach, Erase, EraseAll, EraseEach, SameEnv, WellNamed, Forwards, Internals;
    hide Invoke, EvalBlock, EvalSeq, EvalArgs, Apply, Read, Write, IsFunction;
    PatchedForms(t, patches);
    ErasedForms(t, patches);
    match t
    case Const(_) =>
    case Var(x) => VariablesAgree(es, et, x, st, host, patches);
    case Add(_, _) => SimAdd(t, es, et, st, host, patches, low, fuel, high);
    case Call(_, _) => SimCall(t, es, et, st, host, patches, low, fuel, high);
    case CallSpread(_, _) => SimSpread(t, es, et, st, host, patches, low, fuel, high);
    case CallGlobal(_, _, _) => SimGlobal(t, es, et, st, host, patches, low, fuel, high);
    case Closure(body) => SimBlock(body, es, et, st, host, patches, low, fuel, high);
    case Effect(e) => SimUnary(t, e, es, et, st, host, patches, low, fuel, high);
    case Let(x, e) => SimStore(t, es, et, st, host, patches, low, fuel, high);
    case Assign(x, e) => SimStore(t, es, et, st, host, patches, low, fuel, high);
    case If(_, _, _) => SimIf(t, es, et, st, host, patches, low, fuel, high);
    case IfNotFunction(_, thn) => SimUnary(t, thn, es, et, st, host, patches, low, fuel, high);
    case Block(body) => SimBlock(body, es, et, st, host, patches, low, fuel, high);
    case Return(e) => SimUnary(t, e, es, et, st, host, patches, low, fuel, high);
    case Fn(_, _, _) =>
    case ConstGlobal(_, _) =>
  }

  lemma {:induction false} SimAdd(t: Node, es: Env, et: Env, st: Store, host: Host, patches: Patches, low: nat,
                                  fuel: nat, high: nat)
    requires Setting(es, et, host, patches, low, fuel, high) && Patched(t, patches) && t.Add?
    ensures Agree(Eval(Erase(t, patches), es, st, host, fuel), Eval(t, et, st, host, low), Eval(t, et, st, host, high))
    decreases fuel, Size(t), 0
  {
    hide Patched, Erase, Setting;
    PatchedForms(t, patches);
    ErasedForms(t, patches);
    SimEval(t.l, es, et, st, host, patches, low, fuel, high);
    var a := Eval(Erase(t.l, patches), es, st, host, fuel);
    if a.Done? {
      SimEval(t.r, es, et, a.st, host, patches, low, fuel, high);
    }
  }

  lemma {:induction false} SimIf(t: Node, es: Env, et: Env, st: Store, host: Host, patches: Patches, low: nat,
                                 fuel: nat, high: nat)
    requires Setting(es, et, host, patches, low, fuel, high) && Patched(t, patches) && t.If?
    ensures Agree(Eval(Erase(t, patches), es, st, host, fuel), Eval(t, et, st, host, low), Eval(t, et, st, host, high))
    decreases fuel, Size(t), 0
  {
    hide Patched, Erase, Setting;
    PatchedForms(t, patches);
    ErasedForms(t, patches);
    SimEval(t.c, es, et, st, host, patches, low, fuel, high);
    var a := Eval(Erase(t.c, patches), es, st, host, fuel);
    if a.Done? {
      SimEval(if a.v.Num? && a.v.n != 0 then t.thn else t.els, es, et, a.st, host, patches, low, fuel, high);
    }
  }

  lemma {:induction false} SimUnary(t: Node, e: Node, es: Env, et: Env, st: Store, host: Host, patches: Patches,
                                    low: nat, fuel: nat, high: nat)
    requires Setting(es, et, host, patches, low, fuel, high) && Patched(t, patches)
    requires match t
             case Effect(e') => e == e'
             case Return(e') => e == e'
             case IfNotFunction(_, thn) => e == thn
             case _ => false
    ensures Agree(Eval(Erase(t, patches), es, st, host, fuel), Eval(t, et, st, host, low), Eval(t, et, st, host, high))
    decreases fuel, Size(t), 0
  {
    hide Patched, Erase, IsFunction, SameEnv, Internals;
    PatchedForms(t, patches);
    ErasedForms(t, patches);
    SimEval(e, es, et, st, host, patches, low, fuel, high);
    if t.IfNotFunction? {
      VariablesAgree(es, et, t.x, st, host, patches);
    }
  }

  lemma {:induction false} SimStore(t: Node, es: Env, et: Env, st: Store, host: Host, patches: Patches, low: nat,
                                    fuel: nat, high: nat)
    requires Setting(es, et, host, patches, low, fuel, high) && Patched(t, patches) && (t.Let? || t.Assign?)
    ensures Agree(Eval(Erase(t, patches), es, st, host, fuel), Eval(t, et, st, host, low), Eval(t, et, st, host, high))
    decreases fuel, Size(t), 0
  {
    hide Patched, Erase, Write;
    PatchedForms(t, patches);
    ErasedForms(t, patches);
    SimEval(t.e, es, et, st, host, patches, low, fuel, high);
    var a := Eval(Erase(t.e, patches), es, st, host, fuel);
    if a.Done? {
      VariablesAgree(es, et, t.x, a.st, host, patches);
    }
  }

  lemma {:induction false} SimCall(t: Node, es: Env, et: Env, st: Store, host: Host, patches: Patches, low: nat,
                                   fuel: nat, high: nat)
    requires Setting(es, et, host, patches, low, fuel, high) && Patched(t, patches) && t.Call?
    ensures Agree(Eval(Erase(t, patches), es, st, host, fuel), Eval(t, et, st, host, low), Eval(t, et, st, host, high))
    decreases fuel, Size(t), 0
  {
    hide Patched, Erase, Apply, EvalArgs, Setting;
    PatchedForms(t, patches);
    ErasedForms(t, patches);
    SimArgs(t.args, es, et, st, host, patches, low, fuel, high);
    var a := EvalArgs(EraseEach(t.args, patches), es, st, host, fuel);
    if a.Evaluated? {
      SimApply(t.f, a.vs, es, et, a.st, host, patches, low, fuel, high);
    }
  }

  lemma {:induction false} SimArgs(ts: seq<Node>, es: Env, et: Env, st: Store, host: Host, patches: Patches, low: nat,
                                   fuel: nat, high: nat)
    requires Setting(es, et, host, patches, low, fuel, high) && PatchedEach(ts, patches)
    ensures AgreeArgs(EvalArgs(EraseEach(ts, patches), es, st, host, fuel), EvalArgs(ts, et, st, host, low),
                      EvalArgs(ts, et, st, host, high))
    decreases fuel, SizeAll(ts), 0
  {
    hide Patched, Erase, Setting, Eval;
    if ts != [] {
      SimEval(ts[0], es, et, st, host, patches, low, fuel, high);
      var a := Eval(Erase(ts[0], patches), es, st, host, fuel);
      assert EraseEach(ts, patches)[0] == Erase(ts[0], patches)
               && EraseEach(ts, patches)[1..] == EraseEach(ts[1..], patches);
      if a.Done? {
        SimArgs(ts[1..], es, et, a.st, host, patches, low, fuel, high);
      }
    }
  }

  lemma {:induction false} SimSpread(t: Node, es: Env, et: Env, st: Store, host: Host, patches: Patches, low: nat,
                                     fuel: nat, high: nat)
    requires Setting(es, et, host, patches, low, fuel, high) && Patched(t, patches) && t.CallSpread?
    ensures Agree(Eval(Erase(t, patches), es, st, host, fuel), Eval(t, et, st, host, low), Eval(t, et, st, host, high))
    decreases fuel, Size(t), 0
  {
    hide Patched, Erase, Apply;
    PatchedForms(t, patches);
    ErasedForms(t, patches);
    LookupsAgree(es, et, t.rest, patches);
    if Lookup(es, t.rest).Some? && Lookup(es, t.rest).value.0.Args? {
      SimApply(t.f, Lookup(es, t.rest).value.0.vs, es, et, st, host, patches, low, fuel, high);
    }
  }

  lemma {:induction false} SimGlobal(t: Node, es: Env, et: Env, st: Store, host: Host, patches: Patches, low: nat,
                                     fuel: nat, high: nat)
    requires Setting(es, et, host, patches, low, fuel, high) && Patched(t, patches) && t.CallGlobal?
    ensures Agree(Eval(Erase(t, patches), es, st, host, fuel), Eval(t, et, st, host, low), Eval(t, et, st, host, high))
    decreases fuel, Size(t), 0
  {
    hide Patched, Erase, ApplyGlobal;
    PatchedForms(t, patches);
    ErasedForms(t, patches);
    LookupsAgree(es, et, t.rest, patches);
    if Lookup(es, t.rest).Some? && Lookup(es, t.rest).value.0.Args? {
      SimApplyGlobal(t.x, t.original, Lookup(es, t.rest).value.0.vs, es, et, st, host, patches, low, fuel, high);
    }
  }

  lemma {:induction false} SimApplyGlobal(x: Name, original: Option<Name>, vs: seq<Value>, es: Env, et: Env, st: Store,
                                          host: Host,
                                          patches: Patches, low: nat, fuel: nat, high: nat)
    requires Setting(es, et, host, patches, low, fuel, high) && x !in Internals(patches)
    requires original.Some? ==> original.value !in Internals(patches)
    ensures Agree(ApplyGlobal(x, original, vs, es, st, host, fuel),
                  ApplyGlobal(x, original, vs, et, st, host, low), ApplyGlobal(x, original, vs, et, st, host, high))
    decreases fuel, 0, 3
  {
    hide Apply, Setting, Outermost, Internals;
    LookupsInSetting(es, et, x, host, patches, low, fuel, high);
    if original.Some? {
      SimApply(original.value, vs, es, et, st, host, patches, low, fuel, high);
    }
    if Lookup(es, x).Some? && Lookup(es, x).value.0.Global? {
      var passed := (if original.Some? then [FunctionValue] else []) + vs;
      SimApply(Lookup(es, x).value.0.key, passed, Outermost(es), Outermost(et),
               st, host, patches, low, fuel, high);
    }
  }

  lemma LookupsInSetting(es: Env, et: Env, x: Name, host: Host, patches: Patches, low: nat, fuel: nat, high: nat)
    requires Setting(es, et, host, patches, low, fuel, high) && x !in Internals(patches)
    ensures Setting(Outermost(es), Outermost(et), host, patches, low, fuel, high)
    ensures var b, c := Lookup(es, x), Lookup(et, x);
            var global := b.Some? && b.value.0.Global?;
            && global == (c.Some? && c.value.0.Global?)
            && (global ==> b.value.0 == c.value.0 && b.value.0.key !in Internals(patches))
  {
    LookupsAgree(es, et, x, patches);
    OutermostAgrees(es, et, patches);
  }

  /** Statement lists: a renamed declaration and its wrapper do nothing when they are reached. */
  lemma {:induction false} SimSeq(ts: seq<Node>, es: Env, et: Env, st: Store, host: Host, patches: Patches, low: nat,
                                  fuel: nat, high: nat)
    requires Setting(es, et, host, patches, low, fuel, high) && PatchedAll(ts, patches)
    ensures Agree(EvalSeq(EraseAll(ts, patches), es, st, host, fuel), EvalSeq(ts, et, st, host, low),
                  EvalSeq(ts, et, st, host, high))
    decreases fuel, SizeAll(ts), 0
  {
    hide Patched, Erase, Setting, Eval, WrapperOf, Renamed;
    if ts == [] {
    } else if Renamed(ts[0], patches) {
      SizeOfTail(ts);
      SimSeq(ts[2..], es, et, st, host, patches, low, fuel, high);
      PairIsSkipped(ts, es, st, host, patches, fuel);
      PairIsSkipped(ts, et, st, host, patches, low);
      PairIsSkipped(ts, et, st, host, patches, high);
    } else {
      SimEval(ts[0], es, et, st, host, patches, low, fuel, high);
      var a := Eval(Erase(ts[0], patches), es, st, host, fuel);
      assert EraseAll(ts, patches) == [Erase(ts[0], patches)] + EraseAll(ts[1..], patches);
      assert EraseAll(ts, patches)[1..] == EraseAll(ts[1..], patches);
      if a.Done? {
        SimSeq(ts[1..], es, et, a.st, host, patches, low, fuel, high);
      }
    }
  }

  lemma PairIsSkipped(ts: seq<Node>, env: Env, st: Store, host: Host, patches: Patches, fuel: nat)
    requires PatchedAll(ts, patches) && ts != [] && Renamed(ts[0], patches)
    ensures EvalSeq(ts, env, st, host, fuel) == EvalSeq(ts[2..], env, st, host, fuel)
    ensures EvalSeq(EraseAll(ts, patches), env, st, host, fuel)
              == EvalSeq(EraseAll(ts[2..], patches), env, st, host, fuel)
  {
    hide Patched, Erase, EvalSeq, WrapperOf;
    var rest := ts[2..];
    var e := Erase(Unrename(ts[0], patches), patches);
    assert EraseAll(ts, patches) == [e] + EraseAll(rest, patches);
    assert ts == [ts[0]] + ([ts[1]] + rest);
    WrapperDeclaresTarget(patches[TargetOf(ts[0].name, patches)]);
    SkipFn(e, EraseAll(rest, patches), env, st, host, fuel);
    SkipFn(ts[0], [ts[1]] + rest, env, st, host, fuel);
    SkipFn(ts[1], rest, env, st, host, fuel);
  }

  lemma SkipFn(n: Node, rest: seq<Node>, env: Env, st: Store, host: Host, fuel: nat)
    requires n.Fn?
    ensures EvalSeq([n] + rest, env, st, host, fuel) == EvalSeq(rest, env, st, host, fuel)
  {
  }

  lemma {:induction false} SimBlock(ts: seq<Node>, es: Env, et: Env, st: Store, host: Host, patches: Patches, low: nat,
                                    fuel: nat, high: nat)
    requires Setting(es, et, host, patches, low, fuel, high) && PatchedAll(ts, patches)
    ensures Agree(EvalBlock(EraseAll(ts, patches), es, st, host, fuel), EvalBlock(ts, et, st, host, low),
                  EvalBlock(ts, et, st, host, high))
    decreases fuel, SizeAll(ts), 1
  {
    hide PatchedAll, EraseAll, SameScope, SameEnv, EvalSeq, Hoist, LetCount, WellNamed, Forwards;
    HoistedScopes(ts, |st.cells|, patches);
    PushScope(es, et, Hoist(EraseAll(ts, patches), |st.cells|), Hoist(ts, |st.cells|), patches);
    SimSeq(ts, Frame(Hoist(EraseAll(ts, patches), |st.cells|), es), Frame(Hoist(ts, |st.cells|), et),
           st.(cells := st.cells + NewCells(LetCount(ts))), host, patches, low, fuel, high);
  }

  // ----- calls -----

  /** Through its wrapper a call reaches the renamed declaration in the wrapper's own scope. */
  lemma WrapperForwards(k: Name, vs: seq<Value>, home: Env, st: Store, host: Host, patches: Patches, fuel: nat)
    requires k in patches && WellNamed(patches) && Forwards(host, patches) && Unclaimed(home, patches)
    requires home.Frame? && patches[k].originalName in home.binds
    requires home.binds[patches[k].originalName].Fun? && home.binds[patches[k].originalName].decl.Fn?
    ensures var w, d := WrapperOf(patches[k]), home.binds[patches[k].originalName].decl;
            Invoke(w.params, w.body, vs, home, st, host, fuel)
            == if fuel == 0 then Timeout else Invoke(d.params, d.body, vs, home, st, host, fuel - 1)
  {
    if fuel > 0 {
      hide Invoke;
      var p := patches[k];
      var w, d := WrapperOf(p), home.binds[p.originalName].decl;
      var env := Frame(CallFrame(w.params, w.body, vs, |st.cells|), home);
      WrapperScope(p, vs, st);
      InternalNames(k, patches);
      var call := CallSpread(p.originalName, WRAPPER_ARGS);
      assert p.originalName !in env.binds;
      assert Lookup(env, p.originalName) == Some((home.binds[p.originalName], home));
      assert Apply(p.originalName, vs, env, st, host, fuel - 1)
               == Invoke(d.params, d.body, vs, home, st, host, fuel - 1);
      WrapperBody(p, vs, env, st, host, fuel - 1);
      InvokeBody(w.params, w.body, vs, home, st, host, fuel);
    }
  }

  lemma InvokeBody(params: Params, body: seq<Node>, vs: seq<Value>, home: Env, st: Store, host: Host, fuel: nat)
    requires fuel > 0
    ensures Invoke(params, body, vs, home, st, host, fuel)
            == Finish(EvalSeq(body, Frame(CallFrame(params, body, vs, |st.cells|), home),
                              CallStore(params, body, vs, st), host, fuel - 1))
  {
  }

  lemma WrapperScope(p: CompiledPatch, vs: seq<Value>, st: Store)
    ensures var w := WrapperOf(p);
            && CallFrame(w.params, w.body, vs, |st.cells|)
              == map[WRAPPER_ARGS := Args(vs), WRAPPER_CALLBACK := Global(p.spec.patchFunction)]
            && CallStore(w.params, w.body, vs, st) == st
  {
    var w := WrapperOf(p);
    var tail := w.body[1..];
    assert tail == [w.body[1], w.body[2]] && tail[1..] == [w.body[2]] && tail[1..][1..] == [];
    assert Hoist(tail[1..], |st.cells|) == map[] && LetCount(tail[1..]) == 0;
    assert Hoist(tail, |st.cells|) == map[] && LetCount(tail) == 0;
    assert st.cells + [] + NewCells(0) == st.cells;
  }

  /** The wrapper's statements hand the outcome of calling the original on. */
  lemma WrapperBody(p: CompiledPatch, vs: seq<Value>, env: Env, st: Store, host: Host, fuel: nat)
    requires env.Frame? && WRAPPER_ARGS in env.binds && env.binds[WRAPPER_ARGS] == Args(vs)
    requires WRAPPER_CALLBACK in env.binds && env.binds[WRAPPER_CALLBACK] == Global(p.spec.patchFunction)
    requires if p.spec.patchFunction in host then p.spec.mode.Wrap? && host[p.spec.patchFunction].PassThrough?
             else !GlobalFunction(env, p.spec.patchFunction)
    ensures Finish(EvalSeq(WrapperOf(p).body, env, st, host, fuel)) == Apply(p.originalName, vs, env, st, host, fuel)
  {
    hide Apply;
    var body := WrapperOf(p).body;
    var tail := body[1..];
    assert tail[0] == body[1] && tail[1..] == [body[2]] && tail[1..][1..] == [];
    assert EvalSeq(body, env, st, host, fuel) == EvalSeq(tail, env, st, host, fuel);
    var out := Apply(p.originalName, vs, env, st, host, fuel);
    assert !out.Returned? by {
      ApplyNeverReturns(p.originalName, vs, env, st, host, fuel);
    }
    var call := CallSpread(p.originalName, WRAPPER_ARGS);
    assert Eval(call, env, st, host, fuel) == out;
    if p.spec.patchFunction in host {
      assert Eval(body[1], env, st, host, fuel) == Done(Undefined, st);
      assert EvalSeq(tail, env, st, host, fuel) == EvalSeq(tail[1..], env, st, host, fuel);
      assert Eval(body[2].e, env, st, host, fuel) == out;
      assert tail[1..][0] == body[2];
      assert EvalSeq([], env, st, host, fuel) == Done(Undefined, st);
      assert Eval(body[2], env, st, host, fuel) == if out.Done? then Returned(out.v, out.st) else out;
    } else {
      assert Eval(body[1], env, st, host, fuel) == Eval(Return(call), env, st, host, fuel);
    }
  }

  lemma ApplyNeverReturns(f: Name, vs: seq<Value>, env: Env, st: Store, host: Host, fuel: nat)
    ensures !Apply(f, vs, env, st, host, fuel).Returned?
  {
  }

  lemma {:induction false} SimInvoke(d: Node, vs: seq<Value>, hs: Env, ht: Env, st: Store, host: Host,
                                     patches: Patches, low: nat, fuel: nat, high: nat)
    requires WellNamed(patches) && SameEnv(hs, ht, patches) && ht.Frame? && Unclaimed(ht, patches)
    requires Forwards(host, patches)
    requires low <= fuel && 2 * fuel <= high + 1
    requires d.Fn? && Patched(d, patches)
    ensures Agree(Invoke(d.params, EraseAll(d.body, patches), vs, hs, st, host, fuel),
                  Invoke(d.params, d.body, vs, ht, st, host, low), Invoke(d.params, d.body, vs, ht, st, host, high))
    decreases fuel, 0, 0
  {
    if fuel > 0 {
      hide Patched, PatchedAll, EraseAll, SameEnv, WellNamed, Forwards, Unclaimed, Setting;
      hide EvalSeq, CallFrame, CallStore, Invoke;
      PatchedForms(d, patches);
      var erased := EraseAll(d.body, patches);
      BodySetting(d, vs, hs, ht, st, host, patches, low, fuel, high);
      InvokeBody(d.params, erased, vs, hs, st, host, fuel);
      if low > 0 {
        InvokeBody(d.params, d.body, vs, ht, st, host, low);
      } else {
        InvokeWithoutFuel(d.params, d.body, vs, ht, st, host);
      }
      InvokeBody(d.params, d.body, vs, ht, st, host, high);
      SimSeq(d.body, Frame(CallFrame(d.params, erased, vs, |st.cells|), hs),
             Frame(CallFrame(d.params, d.body, vs, |st.cells|), ht),
             CallStore(d.params, d.body, vs, st), host, patches, if low == 0 then 0 else low - 1, fuel - 1, high - 1);
    }
  }

  /** The scopes in which the two bodies run correspond again. */
  lemma BodySetting(d: Node, vs: seq<Value>, hs: Env, ht: Env, st: Store, host: Host, patches: Patches, low: nat,
                    fuel: nat, high: nat)
    requires WellNamed(patches) && SameEnv(hs, ht, patches) && ht.Frame? && Unclaimed(ht, patches)
    requires Forwards(host, patches) && low <= fuel && 0 < 2 * fuel <= high + 1
    requires d.Fn? && Patched(d, patches)
    ensures var erased := EraseAll(d.body, patches);
            && Setting(Frame(CallFrame(d.params, erased, vs, |st.cells|), hs),
                       Frame(CallFrame(d.params, d.body, vs, |st.cells|), ht), host, patches,
                       if low == 0 then 0 else low - 1, fuel - 1, high - 1)
            && CallStore(d.params, erased, vs, st) == CallStore(d.params, d.body, vs, st)
  {
    hide Patched, EraseAll, SameScope, SameEnv, WellNamed, Forwards, CallFrame, CallStore, Outermost;
    CallScopes(d, vs, st, patches);
    var source, patched := CallFrame(d.params, EraseAll(d.body, patches), vs, |st.cells|),
                           CallFrame(d.params, d.body, vs, |st.cells|);
    PushScope(hs, ht, source, patched, patches);
    OutermostOfFrame(patched, ht);
  }

  lemma OutermostOfFrame(binds: map<Name, Binding>, up: Env)
    ensures up.Frame? ==> Outermost(Frame(binds, up)) == Outermost(up)
  {
  }

  lemma CallScopes(d: Node, vs: seq<Value>, st: Store, patches: Patches)
    requires WellNamed(patches) && d.Fn? && Patched(d, patches)
    ensures var erased := EraseAll(d.body, patches);
            && SameScope(CallFrame(d.params, erased, vs, |st.cells|), CallFrame(d.params, d.body, vs, |st.cells|),
                         patches)
            && CallStore(d.params, erased, vs, st) == CallStore(d.params, d.body, vs, st)
  {
    hide Patched, PatchedAll, EraseAll, SameScope, WellNamed, Hoist, Internals;
    PatchedForms(d, patches);
    var next := |st.cells|;
    match d.params {
      case Fixed(names) =>
        HoistedScopes(d.body, next + |names|, patches);
        ParamScope(names, next, patches);
        ScopesUnite(ParamBinds(names, next), ParamBinds(names, next), Hoist(EraseAll(d.body, patches), next + |names|),
                    Hoist(d.body, next + |names|), patches);
      case Rest(name) =>
        HoistedScopes(d.body, next, patches);
        RestScope(name, vs, patches);
        ScopesUnite(map[name := Args(vs)], map[name := Args(vs)], Hoist(EraseAll(d.body, patches), next),
                    Hoist(d.body, next), patches);
    }
  }

  lemma PushScope(es: Env, et: Env, source: map<Name, Binding>, patched: map<Name, Binding>, patches: Patches)
    requires SameEnv(es, et, patches) && SameScope(source, patched, patches)
    ensures SameEnv(Frame(source, es), Frame(patched, et), patches)
  {
  }

  lemma RestScope(name: Name, vs: seq<Value>, patches: Patches)
    requires name !in Internals(patches)
    ensures SameScope(map[name := Args(vs)], map[name := Args(vs)], patches)
  {
  }

  lemma {:induction false} ParamScope(names: seq<Name>, next: nat, patches: Patches)
    requires forall x :: x in names ==> x !in Internals(patches)
    ensures SameScope(ParamBinds(names, next), ParamBinds(names, next), patches)
    ensures forall x :: x in ParamBinds(names, next) ==> x in names && ParamBinds(names, next)[x].Cell?
  {
    if names != [] {
      ParamScope(names[1..], next + 1, patches);
    }
  }

  /** A call through the wrapper that stands for e. */
  lemma {:induction false} SimWrapped(f: Name, e: Node, vs: seq<Value>, hs: Env, ht: Env, st: Store, host: Host,
                                      patches: Patches, low: nat, fuel: nat, high: nat)
    requires Setting(hs, ht, host, patches, low, fuel, high) && f in patches
    requires f in ht.binds && ht.binds[f] == Fun(WrapperOf(patches[f]))
    requires Stands(f, Fun(e), ht.binds, patches)
    ensures var w := WrapperOf(patches[f]);
            Agree(Invoke(e.params, e.body, vs, hs, st, host, fuel), Invoke(w.params, w.body, vs, ht, st, host, low),
                  Invoke(w.params, w.body, vs, ht, st, host, high))
    decreases fuel, 0, 1
  {
    hide Patched, Erase, EraseAll, Invoke, WrapperOf, WellNamed, Forwards, Unclaimed, SameEnv;
    var u := Unrename(ht.binds[patches[f].originalName].decl, patches);
    ErasedName(u, patches);
    WrapperForwards(f, vs, ht, st, host, patches, low);
    WrapperForwards(f, vs, ht, st, host, patches, high);
    if fuel > 0 {
      SimInvoke(u, vs, hs, ht, st, host, patches, if low == 0 then 0 else low - 1, fuel, high - 1);
    } else {
      InvokeWithoutFuel(e.params, e.body, vs, hs, st, host);
    }
  }

  lemma {:induction false} SimApply(f: Name, vs: seq<Value>, es: Env, et: Env, st: Store, host: Host, patches: Patches,
                                    low: nat, fuel: nat, high: nat)
    requires Setting(es, et, host, patches, low, fuel, high) && f !in Internals(patches)
    ensures Agree(Apply(f, vs, es, st, host, fuel), Apply(f, vs, et, st, host, low), Apply(f, vs, et, st, host, high))
    decreases fuel, 0, 2
  {
    hide Patched, Erase, EraseAll, Invoke, WrapperOf, WellNamed, Forwards;
    LookupsAgree(es, et, f, patches);
    match (Lookup(es, f), Lookup(et, f))
    case (Some((Fun(e), hs)), Some((Fun(d), ht))) =>
      if f in patches && d == WrapperOf(patches[f]) {
        WrapperDeclaresTarget(patches[f]);
        SimWrapped(f, e, vs, hs, ht, st, host, patches, low, fuel, high);
      } else {
        ErasedName(d, patches);
        SimInvoke(d, vs, hs, ht, st, host, patches, low, fuel, high);
      }
    case _ =>
  }

  lemma InvokeWithoutFuel(params: Params, body: seq<Node>, vs: seq<Value>, home: Env, st: Store, host: Host)
    ensures Invoke(params, body, vs, home, st, host, 0) == Timeout
  {
  }

  // ----- the theorem -----

  /** No callback has the name of a function that the patched script declares in its outermost statement list: such a
      function, the wrapper of a target included, would be found on globalThis in its place. */
  ghost predicate CallbacksAreForeign(script: seq<Node>, patches: Patches) {
    forall k :: k in patches ==> patches[k].spec.patchFunction !in Declared(Statements(script, patches, {}).0)
  }

  /** Patching preserves meaning. For every script that uses no internal name, callbacks that are not the script's own
      functions, and every host that installs no callback or only wrap callbacks that call the original: whenever the
      source ends, the patched script ends alike with at most twice the call depth, and whenever the patched script
      ends, so does the source, alike. Outcomes include all variables and all effects. */
  lemma PatchingPreservesMeaning(script: seq<Node>, patches: Patches, host: Host, fuel: nat)
    requires WellNamed(patches) && FreshAll(script, patches) && CallbacksAreForeign(script, patches)
    requires Forwards(host, patches)
    ensures var patched := Statements(script, patches, {}).0;
            && (Run(script, host, fuel) != Timeout ==> Run(patched, host, 2 * fuel) == Run(script, host, fuel))
            && (Run(patched, host, fuel) != Timeout ==> Run(script, host, fuel) == Run(patched, host, fuel))
  {
    hide Statements, EvalSeq, Hoist, PatchedAll, EraseAll, LetCount, Declared, SameScope, FreshAll, WellNamed, Forwards;
    var patched := Statements(script, patches, {}).0;
    StatementsErase(script, patches, {});
    HoistedScopes(patched, 0, patches);
    PushScope(Top, Top, Hoist(script, 0), Hoist(patched, 0), patches);
    NothingClaimed(script, patches);
    SimSeq(patched, Frame(Hoist(script, 0), Top), Frame(Hoist(patched, 0), Top),
           Store([] + NewCells(LetCount(patched)), []),
           host, patches, fuel, fuel, 2 * fuel);
  }

  lemma NothingClaimed(script: seq<Node>, patches: Patches)
    requires CallbacksAreForeign(script, patches)
    ensures Unclaimed(Frame(Hoist(Statements(script, patches, {}).0, 0), Top), patches)
  {
    hide Hoist, Declared, Statements;
    var patched := Statements(script, patches, {}).0;
    HoistedFunctions(patched, 0);
    var env := Frame(Hoist(patched, 0), Top);
    forall k | k in patches
      ensures !GlobalFunction(env, patches[k].spec.patchFunction)
    {
      var f := patches[k].spec.patchFunction;
      assert f !in Declared(patched);
      assert Outermost(env) == env && Lookup(env.up, f) == None;
    }
  }

  lemma {:induction false} HoistedFunctions(ns: seq<Node>, next: nat)
    ensures forall x :: x in Hoist(ns, next) && Hoist(ns, next)[x].Fun? ==> x in Declared(ns)
  {
    if ns != [] {
      HoistedFunctions(ns[1..], if ns[0].Let? then next + 1 else next);
    }
  }

  /** The condition can be checked before patching. */
  lemma ForeignBeforePatching(script: seq<Node>, patches: Patches)
    requires WellNamed(patches)
    requires forall k :: k in patches ==> patches[k].spec.patchFunction !in Declared(script) + Internals(patches)
    ensures CallbacksAreForeign(script, patches)
  {
    hide Declared, Statements, Internals, WellNamed;
    PatchedDeclares(script, patches, {});
  }

  /** Patching declares nothing new but internal names. */
  lemma {:induction false} PatchedDeclares(ns: seq<Node>, patches: Patches, applied: set<Name>)
    requires WellNamed(patches)
    ensures Declared(Statements(ns, patches, applied).0) <= Declared(ns) + Internals(patches)
    decreases |ns|
  {
    if ns != [] {
      hide Children, WellNamed, WrapperOf, Declared;
      var (n, a) := Children(ns[0], patches, applied);
      var rest := ns[1..];
      assert ns == [ns[0]] + rest;
      DeclaredOfCons(ns[0], rest);
      SameDeclaration(ns[0], patches, applied);
      if Patchable(n, patches, a) {
        PatchedDeclares(rest, patches, a + {n.name});
        var d, w := n.(name := patches[n.name].originalName), WrapperOf(patches[n.name]);
        var more := Statements(rest, patches, a + {n.name}).0;
        InternalNames(n.name, patches);
        FiledUnder(n.name, patches);
        WrapperDeclaresTarget(patches[n.name]);
        DeclaredOfCons(d, [w] + more);
        DeclaredOfCons(w, more);
        assert [d, w] + more == [d] + ([w] + more);
      } else {
        PatchedDeclares(rest, patches, a);
        DeclaredOfCons(n, Statements(rest, patches, a).0);
      }
    }
  }

  lemma SameDeclaration(n: Node, patches: Patches, applied: set<Name>)
    ensures var n' := Children(n, patches, applied).0;
            n'.Fn? == n.Fn? && (n.Fn? ==> n'.name == n.name)
  {
    SizeOfTree(n);
  }

  lemma FiledUnder(k: Name, patches: Patches)
    requires WellNamed(patches) && k in patches
    ensures patches[k].spec.target == k
  {
  }

  /** Once a callback of its own is installed, a wrapped or replaced function is that callback: the
      original is not called. */
  lemma InstalledCallbackAnswers(k: Name, vs: seq<Value>, home: Env, st: Store, host: Host, patches: Patches, fuel: nat)
    requires k in patches && WellNamed(patches) && fuel > 0
    requires patches[k].spec.patchFunction in host && host[patches[k].spec.patchFunction].Native?
    ensures var w := WrapperOf(patches[k]);
            Invoke(w.params, w.body, vs, home, st, host, fuel) == Done(host[patches[k].spec.patchFunction].f(vs), st)
  {
    hide Invoke, Apply;
    var p := patches[k];
    var w := WrapperOf(p);
    var env := Frame(CallFrame(w.params, w.body, vs, |st.cells|), home);
    WrapperScope(p, vs, st);
    InvokeBody(w.params, w.body, vs, home, st, host, fuel);
    CallbackIsTried(p, env, st, host, fuel - 1);
    hide WrapperOf, CallFrame;
    assert Eval(w.body[2].e, env, st, host, fuel - 1) == Done(host[p.spec.patchFunction].f(vs), st);
    assert Eval(w.body[2], env, st, host, fuel - 1) == Returned(host[p.spec.patchFunction].f(vs), st);
  }

  /** With a callback of its own a wrapper comes to its last statement. */
  lemma CallbackIsTried(p: CompiledPatch, env: Env, st: Store, host: Host, fuel: nat)
    requires env.Frame? && WRAPPER_CALLBACK in env.binds
    requires env.binds[WRAPPER_CALLBACK] == Global(p.spec.patchFunction) && p.spec.patchFunction in host
    ensures var body := WrapperOf(p).body;
            && |body| == 3 && body[2].Return? && body[2].e.CallGlobal?
            && body[2].e == CallGlobal(WRAPPER_CALLBACK, if p.spec.mode.Wrap? then Some(p.originalName) else None,
                                       WRAPPER_ARGS)
            && EvalSeq(body, env, st, host, fuel) == EvalSeq([body[2]], env, st, host, fuel)
  {
    hide Apply;
    var body := WrapperOf(p).body;
    var tail := body[1..];
    assert tail[0] == body[1] && tail[1..] == [body[2]];
    assert Eval(body[1], env, st, host, fuel) == Done(Undefined, st);
  }
}
