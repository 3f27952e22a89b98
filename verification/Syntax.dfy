/** The abstract syntax that the interpreter reads (docs/rinha-ast.ebnf) and the class of programs
    that its single-pass compiler treats correctly. */
module Syntax {
  import opened Values

  datatype Location = Location(start: nat, end: nat, filename: string)

  datatype Parameter = Parameter(text: string, loc: Location)

  datatype UnOp = Print | First | Second

  datatype Term =
    | Int(value: nat, loc: Location)
    | Str(text: string, loc: Location)
    | Bool(flag: bool, loc: Location)
    | Var(name: string, loc: Location)
    | Call(callee: Term, args: seq<Term>, loc: Location)
    | Binary(lhs: Term, op: BinOp, rhs: Term, loc: Location)
    | Unary(unop: UnOp, operand: Term, loc: Location)
    | Pair(fst: Term, snd: Term, loc: Location)
    | Function(params: seq<Parameter>, body: Term, loc: Location)
    | Let(bound: Parameter, definition: Term, next: Term, loc: Location)
    | If(cond: Term, thn: Term, els: Term, loc: Location)

  datatype File = File(name: string, expression: Term, loc: Location)

  function ParamNames(ps: seq<Parameter>): set<string> {
    set p | p in ps :: p.text
  }

  /** Free variables. A `let` is recursive exactly when its value is a function. */
  function FreeVars(t: Term): set<string> {
    match t
    case Int(_, _) | Str(_, _) | Bool(_, _) => {}
    case Var(x, _) => {x}
    case Call(f, args, _) => FreeVars(f) + FreeVarsAll(args)
    case Binary(l, _, r, _) => FreeVars(l) + FreeVars(r)
    case Unary(_, e, _) => FreeVars(e)
    case Pair(l, r, _) => FreeVars(l) + FreeVars(r)
    case Function(ps, b, _) => FreeVars(b) - ParamNames(ps)
    case Let(x, v, n, _) =>
      (if v.Function? then FreeVars(v) - {x.text} else FreeVars(v)) + (FreeVars(n) - {x.text})
    case If(c, a, b, _) => FreeVars(c) + FreeVars(a) + FreeVars(b)
  }

  function FreeVarsAll(ts: seq<Term>): set<string> {
    if ts == [] then {} else FreeVars(ts[0]) + FreeVarsAll(ts[1..])
  }

  /** The names that `let`s of t bind in the function t belongs to (not in functions nested in t). */
  function LetNames(t: Term): set<string> {
    match t
    case Int(_, _) | Str(_, _) | Bool(_, _) | Var(_, _) | Function(_, _, _) => {}
    case Call(f, args, _) => LetNames(f) + LetNamesAll(args)
    case Binary(l, _, r, _) => LetNames(l) + LetNames(r)
    case Unary(_, e, _) => LetNames(e)
    case Pair(l, r, _) => LetNames(l) + LetNames(r)
    case Let(x, v, n, _) => {x.text} + LetNames(v) + LetNames(n)
    case If(c, a, b, _) => LetNames(c) + LetNames(a) + LetNames(b)
  }

  function LetNamesAll(ts: seq<Term>): set<string> {
    if ts == [] then {} else LetNames(ts[0]) + LetNamesAll(ts[1..])
  }

  /** t is not compiled to a tail call when it is compiled in tail position. */
  predicate NoTailCall(t: Term) {
    match t
    case Call(_, _, _) | Let(_, _, _, _) => false
    case If(_, a, b, _) => NoTailCall(a) && NoTailCall(b)
    case _ => true
  }

  /** Terms that the compiler handles anywhere: no `let` outside a nested function, and the branches
      of an `if`, which are always compiled as tail positions, are not calls. */
  predicate Operand(t: Term)
    decreases t, 0
  {
    match t
    case Int(_, _) | Str(_, _) | Bool(_, _) | Var(_, _) => true
    case Call(f, args, _) => |args| < 256 && Operand(f) && Operands(args)
    case Binary(l, _, r, _) => Operand(l) && Operand(r)
    case Unary(_, e, _) => Operand(e)
    case Pair(l, r, _) => Operand(l) && Operand(r)
    case Function(_, b, _) => Spine(b)
    case Let(_, _, _, _) => false
    case If(c, a, b, _) => Operand(c) && Operand(a) && Operand(b) && NoTailCall(a) && NoTailCall(b)
  }

  predicate Operands(ts: seq<Term>)
    decreases ts, 0
  {
    ts == [] || (Operand(ts[0]) && Operands(ts[1..]))
  }

  /** Spine form: a chain of `let`s and `if`s that ends in operands. Variables bound in the first
      branch of an `if` stay in the compiler's table while the second branch is compiled, so a
      branch may bind only if the other neither binds nor mentions those names. */
  predicate Spine(t: Term)
    decreases t, 1
  {
    match t
    case Let(x, v, n, _) =>
      && Operand(v)
      && (!v.Function? ==> x.text !in FreeVars(v))
      && Spine(n)
    case If(c, a, b, _) =>
      && Operand(c) && Spine(a) && Spine(b)
      && (LetNames(a) == {} || (LetNames(b) == {} && LetNames(a) !! FreeVars(b)))
    case Call(f, args, _) => |args| < 256 && Operand(f) && Operands(args)
    case _ => Operand(t)
  }

  /** The functions directly inside t, without those nested in them, in the order of the text. */
  function InnerFunctions(t: Term): (fs: seq<Term>)
    ensures forall f | f in fs :: f.Function?
  {
    match t
    case Int(_, _) | Str(_, _) | Bool(_, _) | Var(_, _) => []
    case Function(_, _, _) => [t]
    case Call(f, args, _) => InnerFunctions(f) + InnerFunctionsAll(args)
    case Binary(l, _, r, _) => InnerFunctions(l) + InnerFunctions(r)
    case Unary(_, e, _) => InnerFunctions(e)
    case Pair(l, r, _) => InnerFunctions(l) + InnerFunctions(r)
    case Let(_, v, n, _) => InnerFunctions(v) + InnerFunctions(n)
    case If(c, a, b, _) => InnerFunctions(c) + InnerFunctions(a) + InnerFunctions(b)
  }

  function InnerFunctionsAll(ts: seq<Term>): (fs: seq<Term>)
    ensures forall f | f in fs :: f.Function?
  {
    if ts == [] then [] else InnerFunctions(ts[0]) + InnerFunctionsAll(ts[1..])
  }

  /** The number of `let`s of t in the function t belongs to. */
  function LetCount(t: Term): nat {
    match t
    case Int(_, _) | Str(_, _) | Bool(_, _) | Var(_, _) | Function(_, _, _) => 0
    case Call(f, args, _) => LetCount(f) + LetCountAll(args)
    case Binary(l, _, r, _) => LetCount(l) + LetCount(r)
    case Unary(_, e, _) => LetCount(e)
    case Pair(l, r, _) => LetCount(l) + LetCount(r)
    case Let(_, v, n, _) => 1 + LetCount(v) + LetCount(n)
    case If(c, a, b, _) => LetCount(c) + LetCount(a) + LetCount(b)
  }

  function LetCountAll(ts: seq<Term>): nat {
    if ts == [] then 0 else LetCount(ts[0]) + LetCountAll(ts[1..])
  }

  /** The number of functions directly inside t, not counting those nested in them. */
  function FunctionCount(t: Term): nat {
    |InnerFunctions(t)|
  }

  function FunctionCountAll(ts: seq<Term>): nat {
    |InnerFunctionsAll(ts)|
  }

  /** Every function in t has at most 256 functions directly inside it: an index is one byte. */
  predicate ChildTablesFit(t: Term) {
    match t
    case Int(_, _) | Str(_, _) | Bool(_, _) | Var(_, _) => true
    case Function(_, b, _) => FunctionCount(b) <= 256 && ChildTablesFit(b)
    case Call(f, args, _) => ChildTablesFit(f) && ChildTablesFitAll(args)
    case Binary(l, _, r, _) => ChildTablesFit(l) && ChildTablesFit(r)
    case Unary(_, e, _) => ChildTablesFit(e)
    case Pair(l, r, _) => ChildTablesFit(l) && ChildTablesFit(r)
    case Let(_, v, n, _) => ChildTablesFit(v) && ChildTablesFit(n)
    case If(c, a, b, _) => ChildTablesFit(c) && ChildTablesFit(a) && ChildTablesFit(b)
  }

  predicate ChildTablesFitAll(ts: seq<Term>) {
    ts == [] || (ChildTablesFit(ts[0]) && ChildTablesFitAll(ts[1..]))
  }
}
