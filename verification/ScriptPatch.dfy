/** The function patch injector: it renames a declared function and adds, right after it, a wrapper of
    the old name that forwards to the renamed function or to an installed callback. */
module ScriptPatch {
  import opened Wrappers
  import opened ScriptLang

  datatype PatchMode = Wrap | Replace

  datatype PatchSpec = PatchSpec(target: Name, patchFunction: Name, mode: PatchMode)

  /** A compiled patch: its wrapper refers to the target by the internal name. */
  datatype CompiledPatch = CompiledPatch(spec: PatchSpec, originalName: Name)

  /** The patches by target name. */
  type Patches = map<Name, CompiledPatch>

  const WRAPPER_ARGS: Name := "__openusage_args"
  const WRAPPER_CALLBACK: Name := "__openusage_patch_fn"

  /** The wrapper's declaration. */
  function WrapperOf(p: CompiledPatch): Node {
    Fn(p.spec.target, Rest(WRAPPER_ARGS),
       [ConstGlobal(WRAPPER_CALLBACK, p.spec.patchFunction),
        IfNotFunction(WRAPPER_CALLBACK, Return(CallSpread(p.originalName, WRAPPER_ARGS))),
        Return(CallGlobal(WRAPPER_CALLBACK, if p.spec.mode.Wrap? then Some(p.originalName) else None, WRAPPER_ARGS))])
  }

  // ----- what the visitor computes -----

  /** Whether the visitor patches this statement of a list. */
  predicate Patchable(n: Node, patches: Patches, applied: set<Name>) {
    n.Fn? && n.name in patches && n.name !in applied
  }

  function Children(n: Node, patches: Patches, applied: set<Name>): (Node, set<Name>)
    decreases Size(n), 1
  {
    SizeOfTree(n);
    var (parts, a) := Each(Parts(n), patches, applied);
    var (body, b) := Statements(Body(n), patches, a);
    (Rebuild(n, parts, body), b)
  }

  function Each(ns: seq<Node>, patches: Patches, applied: set<Name>): (r: (seq<Node>, set<Name>))
    ensures |r.0| == |ns|
    decreases SizeAll(ns), 0
  {
    if ns == [] then ([], applied)
    else
      var (n, a) := Children(ns[0], patches, applied);
      var (rest, b) := Each(ns[1..], patches, a);
      ([n] + rest, b)
  }

  /** A list of statements after the visit: each is visited, then patched if it declares a target
      that was not patched before. */
  function Statements(ns: seq<Node>, patches: Patches, applied: set<Name>): (seq<Node>, set<Name>)
    decreases SizeAll(ns), 0
  {
    if ns == [] then ([], applied)
    else
      var (n, a) := Children(ns[0], patches, applied);
      if Patchable(n, patches, a) then
        var (rest, b) := Statements(ns[1..], patches, a + {n.name});
        ([n.(name := patches[n.name].originalName), WrapperOf(patches[n.name])] + rest, b)
      else
        var (rest, b) := Statements(ns[1..], patches, a);
        ([n] + rest, b)
  }

  /** The injector: visits a tree and rewrites the statement lists it meets, noting in `applied` which
      targets are done. */
  class FunctionPatchInjector {
    const patches: Patches
    var applied: set<Name>

    constructor (patches: Patches)
      ensures this.patches == patches && applied == {}
    {
      this.patches := patches;
      applied := {};
    }

    method Visit(n: Node) returns (r: Node)
      modifies this
      ensures (r, applied) == Children(n, patches, old(applied))
      decreases Size(n), 1
    {
      SizeOfTree(n);
      var parts := VisitEach(Parts(n));
      var body := VisitStatements(Body(n));
      r := Rebuild(n, parts, body);
    }

    method VisitEach(ns: seq<Node>) returns (output: seq<Node>)
      modifies this
      ensures (output, applied) == Each(ns, patches, old(applied))
      decreases SizeAll(ns), 0
    {
      output := [];
      var i := 0;
      assert ns[i..] == ns && output + Each(ns, patches, applied).0 == Each(ns, patches, applied).0;
      while i < |ns|
        invariant 0 <= i <= |ns|
        invariant var (rest, a) := Each(ns[i..], patches, applied);
                  Each(ns, patches, old(applied)) == (output + rest, a)
      {
        SizeAt(ns, i);
        var n := Visit(ns[i]);
        assert ns[i..][0] == ns[i] && ns[i..][1..] == ns[i + 1..];
        ghost var before, rest := output, Each(ns[i + 1..], patches, applied).0;
        output := output + [n];
        assert before + ([n] + rest) == output + rest;
        i := i + 1;
      }
      assert output + [] == output;
    }

    method VisitStatements(ns: seq<Node>) returns (output: seq<Node>)
      modifies this
      ensures (output, applied) == Statements(ns, patches, old(applied))
      decreases SizeAll(ns), 0
    {
      hide Statements, Children, Patchable, WrapperOf;
      output := [];
      var i := 0;
      assert ns[i..] == ns && output + Statements(ns, patches, applied).0 == Statements(ns, patches, applied).0;
      NoStatements(patches);
      while i < |ns|
        invariant 0 <= i <= |ns|
        invariant var (rest, a) := Statements(ns[i..], patches, applied);
                  Statements(ns, patches, old(applied)) == (output + rest, a)
      {
        SizeAt(ns, i);
        StatementsFrom(ns, i, patches, applied);
        var n := Visit(ns[i]);
        var n', injected := TryPatch(n);
        ghost var before, rest := output, Statements(ns[i + 1..], patches, applied).0;
        output := output + [n'] + injected;
        assert before + ([n'] + injected + rest) == output + rest;
        i := i + 1;
      }
      assert ns[i..] == [] && output + [] == output;
    }

    method TryPatch(n: Node) returns (n': Node, injected: seq<Node>)
      modifies this
      ensures if Patchable(n, patches, old(applied))
              then n' == n.(name := patches[n.name].originalName) && injected == [WrapperOf(patches[n.name])]
                   && applied == old(applied) + {n.name}
              else n' == n && injected == [] && applied == old(applied)
    {
      n', injected := n, [];
      if n.Fn? && n.name in patches && n.name !in applied {
        var p := patches[n.name];
        n' := n.(name := p.originalName);
        injected := [WrapperOf(p)];
        applied := applied + {n.name};
      }
    }
  }

  lemma NoStatements(patches: Patches)
    ensures forall applied :: Statements([], patches, applied) == ([], applied)
  {
  }

  /** The list from its statement i on: the visited statement, its wrapper if it is patched, and the rest. */
  lemma StatementsFrom(ns: seq<Node>, i: nat, patches: Patches, applied: set<Name>)
    requires i < |ns|
    ensures var (n, a) := Children(ns[i], patches, applied);
            Statements(ns[i..], patches, applied) ==
              if Patchable(n, patches, a) then
                var (rest, b) := Statements(ns[i + 1..], patches, a + {n.name});
                ([n.(name := patches[n.name].originalName)] + [WrapperOf(patches[n.name])] + rest, b)
              else
                var (rest, b) := Statements(ns[i + 1..], patches, a);
                ([n] + [] + rest, b)
  {
    hide Children, WrapperOf;
    assert ns[i..][0] == ns[i] && ns[i..][1..] == ns[i + 1..];
    var (n, a) := Children(ns[i], patches, applied);
    if Patchable(n, patches, a) {
      var n', wrapper := n.(name := patches[n.name].originalName), WrapperOf(patches[n.name]);
      assert [n'] + [wrapper] == [n', wrapper];
    } else {
      assert [n] + [] == [n];
    }
  }

  lemma {:induction false} SizeAt(ns: seq<Node>, i: nat)
    requires i < |ns|
    ensures Size(ns[i]) < SizeAll(ns)
  {
    if i > 0 {
      SizeAt(ns[1..], i - 1);
    }
  }
}
