/** What the injector does to the tree: erasing the wrappers and undoing the renames gives back the
    source, and exactly the first declaration of each target, in the order of the visit, is renamed. */
module PatchShape {
  import opened ScriptLang
  import opened ScriptPatch

  ghost function Internals(patches: Patches): set<Name> {
    set k | k in patches :: patches[k].originalName
  }

  /** The hypotheses on a set of patches: each is filed under its target, and the internal names are
      pairwise distinct, are not targets, and are not the wrapper's own local names. */
  ghost predicate WellNamed(patches: Patches) {
    && Filed(patches)
    && (forall k, m :: k in patches && m in patches && patches[k].originalName == patches[m].originalName ==> k == m)
    && patches.Keys !! Internals(patches)
    && WRAPPER_ARGS !in Internals(patches) && WRAPPER_CALLBACK !in Internals(patches)
  }

  /** Each patch is filed under its target. */
  ghost predicate Filed(patches: Patches) {
    forall k :: k in patches ==> patches[k].spec.target == k
  }

  /** The target with this internal name. */
  ghost function TargetOf(original: Name, patches: Patches): (k: Name)
    requires original in Internals(patches)
    ensures k in patches && patches[k].originalName == original
  {
    var k :| k in patches && patches[k].originalName == original;
    k
  }

  /** The names a node uses itself, its subtrees aside. */
  function OwnNames(n: Node): set<Name> {
    match n
    case Var(x) => {x}
    case Call(f, _) => {f}
    case CallSpread(f, rest) => {f, rest}
    case CallGlobal(x, original, rest) => {x, rest} + if original.Some? then {original.value} else {}
    case Let(x, _) => {x}
    case Assign(x, _) => {x}
    case IfNotFunction(x, _) => {x}
    case Fn(name, Fixed(names), _) => {name} + set x | x in names
    case Fn(name, Rest(rest), _) => {name, rest}
    case ConstGlobal(x, key) => {x, key}
    case _ => {}
  }

  /** The tree uses no internal name. */
  ghost predicate Fresh(n: Node, patches: Patches)
    decreases Size(n), 1
  {
    SizeOfTree(n);
    OwnNames(n) !! Internals(patches) && FreshAll(Parts(n), patches) && FreshAll(Body(n), patches)
  }

  ghost predicate FreshAll(ns: seq<Node>, patches: Patches)
    decreases SizeAll(ns), 0
  {
    ns != [] ==> Fresh(ns[0], patches) && FreshAll(ns[1..], patches)
  }

  lemma SizeOfTail(ns: seq<Node>)
    requires |ns| >= 2
    ensures Size(ns[0]) + SizeAll(ns[2..]) < SizeAll(ns)
  {
  }

  // ----- erasing -----

  /** A declaration that carries an internal name. */
  ghost predicate Renamed(n: Node, patches: Patches) {
    n.Fn? && n.name in Internals(patches)
  }

  ghost function Unrename(n: Node, patches: Patches): (r: Node)
    requires Renamed(n, patches)
    ensures r.Fn? && Size(r) == Size(n)
  {
    n.(name := TargetOf(n.name, patches))
  }

  ghost function Erase(n: Node, patches: Patches): (r: Node)
    ensures r.Fn? == n.Fn? && r.Let? == n.Let? && r.ConstGlobal? == n.ConstGlobal?
    decreases Size(n), 1
  {
    SizeOfTree(n);
    Rebuild(n, EraseEach(Parts(n), patches), EraseAll(Body(n), patches))
  }

  ghost function EraseEach(ns: seq<Node>, patches: Patches): (r: seq<Node>)
    ensures |r| == |ns|
    decreases SizeAll(ns), 0
  {
    if ns == [] then [] else [Erase(ns[0], patches)] + EraseEach(ns[1..], patches)
  }

  /** Drops the wrapper after each renamed declaration and gives the declaration its name back. */
  ghost function EraseAll(ns: seq<Node>, patches: Patches): seq<Node>
    decreases SizeAll(ns), 0
  {
    if ns == [] then []
    else if Renamed(ns[0], patches) && |ns| >= 2 then
      SizeOfTail(ns);
      [Erase(Unrename(ns[0], patches), patches)] + EraseAll(ns[2..], patches)
    else [Erase(ns[0], patches)] + EraseAll(ns[1..], patches)
  }

  /** The trees the injector can produce: internal names occur only in pairs of a renamed declaration
      and, right after it, its wrapper, and no list declares an internal name twice. */
  ghost predicate Patched(n: Node, patches: Patches)
    decreases Size(n), 1
  {
    SizeOfTree(n);
    OwnNames(n) !! Internals(patches) && PatchedEach(Parts(n), patches) && PatchedAll(Body(n), patches)
  }

  ghost predicate PatchedEach(ns: seq<Node>, patches: Patches)
    decreases SizeAll(ns), 0
  {
    ns != [] ==> Patched(ns[0], patches) && PatchedEach(ns[1..], patches)
  }

  ghost predicate PatchedAll(ns: seq<Node>, patches: Patches)
    decreases SizeAll(ns), 0
  {
    if ns == [] then true
    else if Renamed(ns[0], patches) then
      && |ns| >= 2
      && ns[1] == WrapperOf(patches[TargetOf(ns[0].name, patches)])
      && Patched(Unrename(ns[0], patches), patches)
      && (SizeOfTail(ns); PatchedAll(ns[2..], patches))
      && ns[0].name !in Declared(ns[2..])
    else Patched(ns[0], patches) && PatchedAll(ns[1..], patches)
  }

  /** The functions a statement list declares. */
  function Declared(ns: seq<Node>): set<Name> {
    if ns == [] then {} else (if ns[0].Fn? then {ns[0].name} else {}) + Declared(ns[1..])
  }

  ghost function InternalsOf(targets: set<Name>, patches: Patches): set<Name> {
    set k | k in targets && k in patches :: patches[k].originalName
  }

  lemma {:induction false} VisitErases(n: Node, patches: Patches, applied: set<Name>)
    requires WellNamed(patches) && Fresh(n, patches)
    ensures var (n', a) := Children(n, patches, applied);
            && Erase(n', patches) == n && Patched(n', patches) && OwnNames(n') == OwnNames(n)
            && n'.Fn? == n.Fn? && (n.Fn? ==> n'.name == n.name)
            && applied <= a
    decreases Size(n), 1
  {
    hide Rebuild, OwnNames, Parts, Body;
    SizeOfTree(n);
    var (parts, a) := Each(Parts(n), patches, applied);
    EachErases(Parts(n), patches, applied);
    StatementsErase(Body(n), patches, a);
    var body := Statements(Body(n), patches, a).0;
    RebuiltTree(n, parts, body);
    SizeOfTree(Rebuild(n, parts, body));
  }

  lemma RebuiltTree(n: Node, parts: seq<Node>, body: seq<Node>)
    requires |parts| == |Parts(n)| && (Body(n) == [] ==> body == [])
    ensures var r := Rebuild(n, parts, body);
            && Parts(r) == parts && Body(r) == body && Rebuild(r, Parts(n), Body(n)) == n
            && OwnNames(r) == OwnNames(n) && r.Fn? == n.Fn? && (n.Fn? ==> r.name == n.name)
  {
  }

  lemma {:induction false} EachErases(ns: seq<Node>, patches: Patches, applied: set<Name>)
    requires WellNamed(patches) && FreshAll(ns, patches)
    ensures var (ns', a) := Each(ns, patches, applied);
            EraseEach(ns', patches) == ns && PatchedEach(ns', patches) && applied <= a
    decreases SizeAll(ns), 0
  {
    if ns != [] {
      VisitErases(ns[0], patches, applied);
      EachErases(ns[1..], patches, Children(ns[0], patches, applied).1);
    }
  }

  /** Erasing a patched list gives back the source. */
  lemma {:induction false} StatementsErase(ns: seq<Node>, patches: Patches, applied: set<Name>)
    requires WellNamed(patches) && FreshAll(ns, patches)
    ensures var (ns', a) := Statements(ns, patches, applied);
            && EraseAll(ns', patches) == ns && PatchedAll(ns', patches)
            && applied <= a && Declared(ns') * Internals(patches) <= InternalsOf(a - applied, patches)
    decreases SizeAll(ns), 0
  {
    hide Erase, Patched, Internals, InternalsOf, WrapperOf, Children, WellNamed;
    if ns != [] {
      var (n, a) := Children(ns[0], patches, applied);
      VisitErases(ns[0], patches, applied);
      if Patchable(n, patches, a) {
        StatementsErase(ns[1..], patches, a + {n.name});
        var (rest, b) := Statements(ns[1..], patches, a + {n.name});
        var later := b - (a + {n.name});
        PairErases(n, rest, patches, later);
        InternalsOfMore(later + {n.name}, b - applied, patches);
      } else {
        StatementsErase(ns[1..], patches, a);
        var (rest, b) := Statements(ns[1..], patches, a);
        assert ([n] + rest)[1..] == rest;
        InternalsOfMore(b - a, b - applied, patches);
        assert n.Fn? ==> n.name in OwnNames(n);
      }
    }
  }

  lemma PairErases(n: Node, rest: seq<Node>, patches: Patches, later: set<Name>)
    requires WellNamed(patches) && n.Fn? && n.name in patches && Patched(n, patches)
    requires PatchedAll(rest, patches)
    requires Declared(rest) * Internals(patches) <= InternalsOf(later, patches) && n.name !in later
    ensures var pair := [n.(name := patches[n.name].originalName), WrapperOf(patches[n.name])];
            && EraseAll(pair + rest, patches) == [Erase(n, patches)] + EraseAll(rest, patches)
            && PatchedAll(pair + rest, patches)
            && Declared(pair + rest) * Internals(patches) <= InternalsOf(later + {n.name}, patches)
  {
    hide Erase, Patched, Internals, WrapperOf;
    var renamed, wrapper := n.(name := patches[n.name].originalName), WrapperOf(patches[n.name]);
    var ns := [renamed, wrapper] + rest;
    assert ns[2..] == rest && ns[1..] == [wrapper] + rest && ns[1..][1..] == rest;
    InternalNames(n.name, patches);
    assert Unrename(renamed, patches) == n;
    NotLater(n.name, patches, later);
    InternalsOfMore(later, later + {n.name}, patches);
    assert renamed.name in InternalsOf(later + {n.name}, patches);
    assert wrapper.Fn? && wrapper.name == n.name by {
      assert wrapper == WrapperOf(patches[n.name]);
      WrapperDeclaresTarget(patches[n.name]);
    }
    assert Declared(ns) == {renamed.name, wrapper.name} + Declared(rest);
  }

  lemma InternalNames(k: Name, patches: Patches)
    requires WellNamed(patches) && k in patches
    ensures patches[k].originalName in Internals(patches) && TargetOf(patches[k].originalName, patches) == k
    ensures k !in Internals(patches)
  {
  }

  lemma InternalsOfMore(few: set<Name>, many: set<Name>, patches: Patches)
    requires few <= many
    ensures InternalsOf(few, patches) <= InternalsOf(many, patches)
  {
  }

  lemma NotLater(k: Name, patches: Patches, later: set<Name>)
    requires WellNamed(patches) && k in patches && k !in later
    ensures patches[k].originalName !in InternalsOf(later, patches)
  {
  }

  lemma WrapperDeclaresTarget(p: CompiledPatch)
    ensures WrapperOf(p).Fn? && WrapperOf(p).name == p.spec.target
  {
  }

  // ----- which declarations are renamed -----

  /** The function declarations inside a node's statement lists, in the order of the visit: a
      function's own list comes before the function itself. */
  function Declarations(n: Node): seq<Name>
    decreases Size(n), 1
  {
    SizeOfTree(n);
    DeclarationsEach(Parts(n)) + DeclarationsAll(Body(n))
  }

  function DeclarationsEach(ns: seq<Node>): seq<Name>
    decreases SizeAll(ns), 0
  {
    if ns == [] then [] else Declarations(ns[0]) + DeclarationsEach(ns[1..])
  }

  function DeclarationsAll(ns: seq<Node>): seq<Name>
    decreases SizeAll(ns), 0
  {
    if ns == [] then [] else Declarations(ns[0]) + OwnDeclaration(ns[0]) + DeclarationsAll(ns[1..])
  }

  function OwnDeclaration(n: Node): seq<Name> {
    if n.Fn? then [n.name] else []
  }

  /** The declarations after patching: the first occurrence of a target not applied before is renamed
      and followed by the wrapper's declaration of the old name; every other one stays. */
  function Renaming(names: seq<Name>, patches: Patches, applied: set<Name>): seq<Name> {
    if names == [] then []
    else
      var before, k := names[..|names| - 1], names[|names| - 1];
      Renaming(before, patches, applied) +
      if k in patches && k !in applied && k !in before then [patches[k].originalName, k] else [k]
  }

  /** The targets applied once these declarations were visited. */
  function AppliedAfter(names: seq<Name>, patches: Patches, applied: set<Name>): set<Name> {
    applied + set k | k in names && k in patches
  }

  lemma RenamingOneMore(names: seq<Name>, k: Name, patches: Patches, applied: set<Name>)
    ensures Renaming(names + [k], patches, applied)
            == Renaming(names, patches, applied) + if k in patches && k !in applied && k !in names then
              [patches[k].originalName, k] else [k]
  {
  }

  lemma AppliedInTwoParts(x: seq<Name>, y: seq<Name>, patches: Patches, applied: set<Name>)
    ensures AppliedAfter(x + y, patches, applied) == AppliedAfter(y, patches, AppliedAfter(x, patches, applied))
    ensures forall k :: k in patches ==> (k in AppliedAfter(x, patches, applied) <==> k in applied || k in x)
  {
  }

  lemma {:induction false} RenamingInTwoParts(x: seq<Name>, y: seq<Name>, patches: Patches, applied: set<Name>)
    ensures Renaming(x + y, patches, applied)
              == Renaming(x, patches, applied) + Renaming(y, patches, AppliedAfter(x, patches, applied))
    ensures AppliedAfter(x + y, patches, applied) == AppliedAfter(y, patches, AppliedAfter(x, patches, applied))
  {
    hide Renaming, AppliedAfter;
    AppliedInTwoParts(x, y, patches, applied);
    if y == [] {
      assert x + y == x;
      RenamingNone(patches, AppliedAfter(x, patches, applied));
    } else {
      var before, k := y[..|y| - 1], y[|y| - 1];
      RenamingInTwoParts(x, before, patches, applied);
      assert y == before + [k] && x + y == (x + before) + [k];
      RenamingOneMore(x + before, k, patches, applied);
      RenamingOneMore(before, k, patches, AppliedAfter(x, patches, applied));
    }
  }

  lemma {:induction false} VisitRenames(n: Node, patches: Patches, applied: set<Name>)
    requires Filed(patches)
    ensures var (n', a) := Children(n, patches, applied);
            && Declarations(n') == Renaming(Declarations(n), patches, applied)
              && OwnDeclaration(n') == OwnDeclaration(n)
            && a == AppliedAfter(Declarations(n), patches, applied)
    decreases Size(n), 1
  {
    hide Renaming, AppliedAfter;
    SizeOfTree(n);
    var (parts, a) := Each(Parts(n), patches, applied);
    EachRenames(Parts(n), patches, applied);
    StatementsRename(Body(n), patches, a);
    RenamingInTwoParts(DeclarationsEach(Parts(n)), DeclarationsAll(Body(n)), patches, applied);
    RebuiltTree(n, parts, Statements(Body(n), patches, a).0);
  }

  lemma RenamingNone(patches: Patches, applied: set<Name>)
    ensures Renaming([], patches, applied) == [] && AppliedAfter([], patches, applied) == applied
  {
  }

  lemma RenamingOne(k: Name, patches: Patches, applied: set<Name>)
    ensures Renaming([k], patches, applied) == if k in patches && k !in applied then [patches[k].originalName, k]
              else [k]
    ensures AppliedAfter([k], patches, applied) == if k in patches && k !in applied then applied + {k} else applied
  {
  }

  lemma DeclarationsOfOne(n: Node)
    ensures DeclarationsEach([n]) == Declarations(n)
    ensures Parts(n) == [] && Body(n) == [] ==> Declarations(n) == []
  {
  }

  lemma WrapperDeclaresOnlyItself(p: CompiledPatch)
    ensures Declarations(WrapperOf(p)) == [] && OwnDeclaration(WrapperOf(p)) == [p.spec.target]
  {
    hide Declarations;
    var body := WrapperOf(p).body;
    var call := CallSpread(p.originalName, WRAPPER_ARGS);
    assert body[0].ConstGlobal? && body[1] == IfNotFunction(WRAPPER_CALLBACK, Return(call)) && body[2].Return?
             && body[2].e.CallGlobal?;
    DeclarationsOfUnary(body[1]);
    DeclarationsOfUnary(body[1].thn);
    DeclarationsOfUnary(body[2]);
    DeclarationsOfOne(call);
    DeclarationsOfOne(body[2].e);
    DeclarationsOfOne(body[0]);
    assert body[1..] == [body[1], body[2]] && body[1..][1..] == [body[2]] && [body[2]][1..] == [];
    assert DeclarationsAll([body[2]]) == [];
    assert DeclarationsAll(body[1..]) == [];
    assert DeclarationsAll(body) == [];
    DeclarationsOfFn(WrapperOf(p));
  }

  lemma DeclarationsOfUnary(n: Node)
    requires n.Return? || n.IfNotFunction?
    ensures Declarations(n) == Declarations(if n.Return? then n.e else n.thn)
  {
    DeclarationsOfOne(if n.Return? then n.e else n.thn);
  }

  lemma DeclarationsOfFn(n: Node)
    requires n.Fn?
    ensures Declarations(n) == DeclarationsAll(n.body)
  {
  }

  lemma {:induction false} EachRenames(ns: seq<Node>, patches: Patches, applied: set<Name>)
    requires Filed(patches)
    ensures var (ns', a) := Each(ns, patches, applied);
            && DeclarationsEach(ns') == Renaming(DeclarationsEach(ns), patches, applied)
            && a == AppliedAfter(DeclarationsEach(ns), patches, applied)
    decreases SizeAll(ns), 0
  {
    if ns != [] {
      var (n, a) := Children(ns[0], patches, applied);
      VisitRenames(ns[0], patches, applied);
      EachRenames(ns[1..], patches, a);
      RenamingInTwoParts(Declarations(ns[0]), DeclarationsEach(ns[1..]), patches, applied);
      var rest := Each(ns[1..], patches, a).0;
      assert ([n] + rest)[1..] == rest;
    }
  }

  /** Exactly the first declaration of each target, in the order of the visit, is renamed, and the
      targets applied are exactly those that are declared in some statement list. */
  lemma {:induction false} StatementsRename(ns: seq<Node>, patches: Patches, applied: set<Name>)
    requires Filed(patches)
    ensures var (ns', a) := Statements(ns, patches, applied);
            && DeclarationsAll(ns') == Renaming(DeclarationsAll(ns), patches, applied)
            && a == AppliedAfter(DeclarationsAll(ns), patches, applied)
    decreases SizeAll(ns), 0
  {
    hide Renaming, AppliedAfter, Children, WrapperOf, Declarations;
    if ns != [] {
      var (n, a) := Children(ns[0], patches, applied);
      VisitRenames(ns[0], patches, applied);
      var inner, own, after := Declarations(ns[0]), OwnDeclaration(ns[0]), DeclarationsAll(ns[1..]);
      RenamingInTwoParts(inner + own, after, patches, applied);
      RenamingInTwoParts(inner, own, patches, applied);
      RenamingNone(patches, a);
      if own != [] {
        RenamingOne(own[0], patches, a);
      }
      var b := AppliedAfter(own, patches, a);
      StatementsRename(ns[1..], patches, b);
      var rest := Statements(ns[1..], patches, b).0;
      if Patchable(n, patches, a) {
        var renamed, wrapper := n.(name := patches[n.name].originalName), WrapperOf(patches[n.name]);
        WrapperDeclaresOnlyItself(patches[n.name]);
        DeclarationsOfFn(n);
        DeclarationsOfFn(renamed);
        DeclarationsOfPair(renamed, wrapper, rest);
        assert [wrapper.name] == [own[0]];
      } else {
        DeclarationsOfCons(n, rest);
      }
    } else {
      RenamingNone(patches, applied);
    }
  }

  lemma DeclarationsOfPair(renamed: Node, wrapper: Node, rest: seq<Node>)
    ensures DeclarationsAll([renamed, wrapper] + rest)
            == Declarations(renamed) + OwnDeclaration(renamed)
               + (Declarations(wrapper) + OwnDeclaration(wrapper) + DeclarationsAll(rest))
  {
    hide DeclarationsAll;
    assert [renamed, wrapper] + rest == [renamed] + ([wrapper] + rest);
    DeclarationsOfCons(renamed, [wrapper] + rest);
    DeclarationsOfCons(wrapper, rest);
  }

  lemma DeclarationsOfCons(n: Node, rest: seq<Node>)
    ensures DeclarationsAll([n] + rest) == Declarations(n) + OwnDeclaration(n) + DeclarationsAll(rest)
  {
  }
}
