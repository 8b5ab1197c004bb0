/** A small first-order script language: nested blocks, hoisted function declarations, mutable
    variables captured by nested functions, immediately invoked closures, rest parameters with
    spread calls, and functions looked up on globalThis: what the host installed there, and what the
    script declares in its outermost statement list. Expressions and statements form one
    syntactic category, so the interpreter is one function. */
module ScriptLang {
  import opened Wrappers

  type Name = string

  /** A function handed over as an argument is a value, but scripts cannot call it. */
  datatype Value = Undefined | Num(n: int) | FunctionValue | Uninitialized

  datatype Params = Fixed(names: seq<Name>) | Rest(name: Name)

  datatype Node =
    | Const(v: Value)
    | Var(x: Name)
    | Add(l: Node, r: Node)
    | Call(f: Name, args: seq<Node>)
    | CallSpread(f: Name, rest: Name)                            // f(...rest)
    | CallGlobal(x: Name, original: Option<Name>, rest: Name)    // x(original, ...rest) or x(...rest)
    | Closure(body: seq<Node>)                                   // (function () { body })()
    | Effect(e: Node)                                            // an observable effect
    | Let(x: Name, e: Node)
    | Assign(x: Name, e: Node)
    | If(c: Node, thn: Node, els: Node)
    | IfNotFunction(x: Name, thn: Node)                          // if (typeof x !== "function") thn
    | Block(body: seq<Node>)
    | Return(e: Node)
    | Fn(name: Name, params: Params, body: seq<Node>)
    | ConstGlobal(x: Name, key: Name)                            // const x = globalThis[key]

  /** What the host installed on globalThis: a callback that just calls the function it is handed,
      or one that computes its result from the arguments alone. */
  datatype Callback = PassThrough | Native(f: seq<Value> -> Value)
  type Host = map<Name, Callback>

  datatype Store = Store(cells: seq<Value>, effects: seq<Value>)

  datatype Binding = Cell(loc: nat) | Fun(decl: Node) | Args(vs: seq<Value>) | Global(key: Name)

  datatype Env = Top | Frame(binds: map<Name, Binding>, up: Env)

  datatype Outcome = Timeout | Done(v: Value, st: Store) | Returned(v: Value, st: Store) | Thrown(st: Store)

  datatype ArgsOutcome = Evaluated(vs: seq<Value>, st: Store) | Stopped(out: Outcome)

  // ----- trees -----

  /** The subtrees of a node that are not in a statement list. */
  function Parts(n: Node): seq<Node> {
    match n
    case Add(l, r) => [l, r]
    case Call(_, args) => args
    case Effect(e) => [e]
    case Let(_, e) => [e]
    case Assign(_, e) => [e]
    case If(c, thn, els) => [c, thn, els]
    case IfNotFunction(_, thn) => [thn]
    case Return(e) => [e]
    case _ => []
  }

  /** The statement list of a closure, a block or a function. */
  function Body(n: Node): seq<Node> {
    match n
    case Closure(body) => body
    case Block(body) => body
    case Fn(_, _, body) => body
    case _ => []
  }

  /** The node with other subtrees. */
  function Rebuild(n: Node, parts: seq<Node>, body: seq<Node>): (r: Node)
    requires |parts| == |Parts(n)|
    ensures Parts(r) == parts && (n.Closure? || n.Block? || n.Fn? ==> Body(r) == body)
  {
    match n
    case Add(_, _) => Add(parts[0], parts[1])
    case Call(f, _) => Call(f, parts)
    case Closure(_) => Closure(body)
    case Effect(_) => Effect(parts[0])
    case Let(x, _) => Let(x, parts[0])
    case Assign(x, _) => Assign(x, parts[0])
    case If(_, _, _) => If(parts[0], parts[1], parts[2])
    case IfNotFunction(x, _) => IfNotFunction(x, parts[0])
    case Block(_) => Block(body)
    case Return(_) => Return(parts[0])
    case Fn(name, params, _) => Fn(name, params, body)
    case _ => n
  }

  function Size(n: Node): nat {
    match n
    case Add(l, r) => 3 + Size(l) + Size(r)
    case Call(_, args) => 1 + SizeAll(args)
    case Closure(body) => 1 + SizeAll(body)
    case Effect(e) => 2 + Size(e)
    case Let(_, e) => 2 + Size(e)
    case Assign(_, e) => 2 + Size(e)
    case If(c, thn, els) => 4 + Size(c) + Size(thn) + Size(els)
    case IfNotFunction(_, thn) => 2 + Size(thn)
    case Block(body) => 1 + SizeAll(body)
    case Return(e) => 2 + Size(e)
    case Fn(_, _, body) => 1 + SizeAll(body)
    case _ => 1
  }

  function SizeAll(ns: seq<Node>): nat {
    if ns == [] then 0 else 1 + Size(ns[0]) + SizeAll(ns[1..])
  }

  lemma SizeOfTree(n: Node)
    ensures Size(n) == 1 + SizeAll(Parts(n)) + SizeAll(Body(n))
    ensures Rebuild(n, Parts(n), Body(n)) == n
  {
    SizeOfParts(Parts(n));
    RebuildOfParts(n);
  }

  lemma SizeOfParts(parts: seq<Node>)
    ensures parts == [] ==> SizeAll(parts) == 0
    ensures |parts| == 1 ==> SizeAll(parts) == 1 + Size(parts[0])
    ensures |parts| == 2 ==> SizeAll(parts) == 2 + Size(parts[0]) + Size(parts[1])
    ensures |parts| == 3 ==> SizeAll(parts) == 3 + Size(parts[0]) + Size(parts[1]) + Size(parts[2])
  {
    hide Size;
    if 1 <= |parts| <= 3 {
      SizeOfParts(parts[1..]);
    }
  }

  lemma RebuildOfParts(n: Node)
    ensures Rebuild(n, Parts(n), Body(n)) == n
  {
  }

  // ----- scopes -----

  function LetCount(ns: seq<Node>): nat {
    if ns == [] then 0 else (if ns[0].Let? then 1 else 0) + LetCount(ns[1..])
  }

  /** What entering a list of statements binds: its variables, from cell `next` on, and its function
      declarations; a later declaration of the same name wins. */
  function Hoist(ns: seq<Node>, next: nat): map<Name, Binding> {
    if ns == [] then map[]
    else match ns[0]
      case Let(x, _) => map[x := Cell(next)] + Hoist(ns[1..], next + 1)
      case Fn(name, _, _) => map[name := Fun(ns[0])] + Hoist(ns[1..], next)
      case ConstGlobal(x, key) => map[x := Global(key)] + Hoist(ns[1..], next)
      case _ => Hoist(ns[1..], next)
  }

  function NewCells(n: nat): seq<Value> {
    seq(n, _ => Uninitialized)
  }

  function ParamBinds(names: seq<Name>, next: nat): map<Name, Binding> {
    if names == [] then map[] else map[names[0] := Cell(next)] + ParamBinds(names[1..], next + 1)
  }

  function ParamCells(names: seq<Name>, args: seq<Value>): seq<Value> {
    seq(|names|, i => if 0 <= i < |args| then args[i] else Undefined)
  }

  function CallFrame(params: Params, body: seq<Node>, args: seq<Value>, next: nat): map<Name, Binding> {
    match params
    case Fixed(names) => ParamBinds(names, next) + Hoist(body, next + |names|)
    case Rest(name) => map[name := Args(args)] + Hoist(body, next)
  }

  function CallStore(params: Params, body: seq<Node>, args: seq<Value>, st: Store): Store {
    var cells := if params.Fixed? then ParamCells(params.names, args) else [];
    st.(cells := st.cells + cells + NewCells(LetCount(body)))
  }

  /** The innermost binding of x, with the environment that holds it. */
  function Lookup(env: Env, x: Name): Option<(Binding, Env)> {
    match env
    case Top => None
    case Frame(binds, up) => if x in binds then Some((binds[x], env)) else Lookup(up, x)
  }

  /** The outermost scope around env. */
  function Outermost(env: Env): Env {
    if env.Frame? && env.up.Frame? then Outermost(env.up) else env
  }

  /** The script declares a function of this name in its outermost scope, so it is a property of globalThis. */
  predicate GlobalFunction(env: Env, key: Name) {
    Lookup(Outermost(env), key).Some? && Lookup(Outermost(env), key).value.0.Fun?
  }

  function Read(env: Env, x: Name, st: Store): Outcome {
    match Lookup(env, x)
    case Some((Cell(l), _)) =>
      if l < |st.cells| && st.cells[l] != Uninitialized then Done(st.cells[l], st) else Thrown(st)
    case _ => Thrown(st)
  }

  function Write(env: Env, x: Name, v: Value, st: Store, declaring: bool): Outcome {
    match Lookup(env, x)
    case Some((Cell(l), _)) =>
      if l < |st.cells| && (declaring || st.cells[l] != Uninitialized)
      then Done(Undefined, st.(cells := st.cells[l := v]))
      else Thrown(st)
    case _ => Thrown(st)
  }

  // ----- the interpreter -----

  /** A call's outcome from its body's. */
  function Finish(out: Outcome): Outcome {
    match out
    case Returned(v, st) => Done(v, st)
    case Done(_, st) => Done(Undefined, st)
    case _ => out
  }

  function Plus(a: Value, b: Value): Value {
    if a.Num? && b.Num? then Num(a.n + b.n) else Undefined
  }

  /** Evaluates a node; `fuel` bounds the depth of calls. */
  function Eval(n: Node, env: Env, st: Store, host: Host, fuel: nat): Outcome
    decreases fuel, Size(n)
  {
    match n
    case Const(v) => Done(v, st)
    case Var(x) => Read(env, x, st)
    case Add(l, r) =>
      var a := Eval(l, env, st, host, fuel);
      if !a.Done? then a else
      var b := Eval(r, env, a.st, host, fuel);
      if !b.Done? then b else Done(Plus(a.v, b.v), b.st)
    case Call(f, args) =>
      (match EvalArgs(args, env, st, host, fuel)
       case Stopped(out) => out
       case Evaluated(vs, st1) => Apply(f, vs, env, st1, host, fuel))
    case CallSpread(f, rest) =>
      (match Lookup(env, rest)
       case Some((Args(vs), _)) => Apply(f, vs, env, st, host, fuel)
       case _ => Thrown(st))
    case CallGlobal(x, original, rest) =>
      (match Lookup(env, rest)
       case Some((Args(vs), _)) => ApplyGlobal(x, original, vs, env, st, host, fuel)
       case _ => Thrown(st))
    case Closure(body) => Finish(EvalBlock(body, env, st, host, fuel))
    case Effect(e) =>
      var a := Eval(e, env, st, host, fuel);
      if !a.Done? then a else Done(Undefined, a.st.(effects := a.st.effects + [a.v]))
    case Let(x, e) =>
      var a := Eval(e, env, st, host, fuel);
      if !a.Done? then a else Write(env, x, a.v, a.st, true)
    case Assign(x, e) =>
      var a := Eval(e, env, st, host, fuel);
      if !a.Done? then a else Write(env, x, a.v, a.st, false)
    case If(c, thn, els) =>
      var a := Eval(c, env, st, host, fuel);
      if !a.Done? then a else Eval(if a.v.Num? && a.v.n != 0 then thn else els, env, a.st, host, fuel)
    case IfNotFunction(x, thn) =>
      if IsFunction(env, x, host) then Done(Undefined, st) else Eval(thn, env, st, host, fuel)
    case Block(body) => EvalBlock(body, env, st, host, fuel)
    case Return(e) =>
      var a := Eval(e, env, st, host, fuel);
      if !a.Done? then a else Returned(a.v, a.st)
    case Fn(_, _, _) => Done(Undefined, st)
    case ConstGlobal(_, _) => Done(Undefined, st)
  }

  function IsFunction(env: Env, x: Name, host: Host): bool {
    match Lookup(env, x)
    case Some((Fun(_), _)) => true
    case Some((Global(key), _)) => key in host || GlobalFunction(env, key)
    case _ => false
  }

  function EvalArgs(ns: seq<Node>, env: Env, st: Store, host: Host, fuel: nat): ArgsOutcome
    decreases fuel, SizeAll(ns)
  {
    if ns == [] then Evaluated([], st)
    else
      var a := Eval(ns[0], env, st, host, fuel);
      if !a.Done? then Stopped(a) else
      match EvalArgs(ns[1..], env, a.st, host, fuel)
      case Stopped(out) => Stopped(out)
      case Evaluated(vs, st1) => Evaluated([a.v] + vs, st1)
  }

  function EvalSeq(ns: seq<Node>, env: Env, st: Store, host: Host, fuel: nat): Outcome
    decreases fuel, SizeAll(ns), 0
  {
    if ns == [] then Done(Undefined, st)
    else
      var a := Eval(ns[0], env, st, host, fuel);
      if !a.Done? then a else EvalSeq(ns[1..], env, a.st, host, fuel)
  }

  function EvalBlock(ns: seq<Node>, env: Env, st: Store, host: Host, fuel: nat): Outcome
    decreases fuel, SizeAll(ns), 1
  {
    EvalSeq(ns, Frame(Hoist(ns, |st.cells|), env), st.(cells := st.cells + NewCells(LetCount(ns))), host, fuel)
  }

  /** Calls the function named f as seen from env. */
  function Apply(f: Name, vs: seq<Value>, env: Env, st: Store, host: Host, fuel: nat): Outcome
    decreases fuel, 0, 1
  {
    match Lookup(env, f)
    case Some((Fun(Fn(_, params, body)), home)) => Invoke(params, body, vs, home, st, host, fuel)
    case _ => Thrown(st)
  }

  /** Runs a function's body in a new scope of the environment it was declared in. */
  function Invoke(params: Params, body: seq<Node>, vs: seq<Value>, home: Env, st: Store, host: Host,
                  fuel: nat): (out: Outcome)
    ensures !out.Returned?
    decreases fuel, 0, 0
  {
    if fuel == 0 then Timeout
    else Finish(EvalSeq(body, Frame(CallFrame(params, body, vs, |st.cells|), home), CallStore(params, body, vs, st),
                        host, fuel - 1))
  }

  /** Calls the function that x stands for on globalThis, handing it the function named `original` if one is given. */
  function ApplyGlobal(x: Name, original: Option<Name>, vs: seq<Value>, env: Env, st: Store, host: Host,
                       fuel: nat): Outcome
    decreases fuel, 0, 2
  {
    match Lookup(env, x)
    case Some((Global(key), _)) =>
      if key !in host then
        Apply(key, (if original.Some? then [FunctionValue] else []) + vs, Outermost(env), st, host, fuel)
      else (match host[key]
            case Native(f) => Done(f(vs), st)
            case PassThrough => if original.Some? then Apply(original.value, vs, env, st, host, fuel) else Thrown(st))
    case _ => Thrown(st)
  }

  /** Runs a script from the empty store. */
  function Run(script: seq<Node>, host: Host, fuel: nat): Outcome {
    EvalBlock(script, Top, Store([], []), host, fuel)
  }
}
