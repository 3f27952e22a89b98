/** The pure recursive compiler: what src/compiler.c emits for a term, as a function of the term.

    A Context is the chain of Compiler structs, innermost first. Jump targets are computed from the
    lengths of the parts; the compiler itself back-patches them (see module SinglePass). */
module Codegen {
  import opened Values
  import opened Syntax
  import opened Bytecode

  datatype Variable = Variable(name: string, isLocal: bool, index: byte)

  /** The state of one Compiler struct and its Function, without the code. `nextIndex` counts on;
      the struct keeps it modulo 256. */
  datatype Context =
    | NoContext
    | Context(
        variables: seq<Variable>,
        nextIndex: nat,
        constants: seq<Value>,
        nonlocals: seq<Nonlocal>,
        functions: seq<CompiledFunction>,
        enclosing: Context)

  datatype CompileError =
    | SyntaxError
    | UndefinedVariable(name: string)
    | TooManyVariables
    | VariableTableOverrun
    | TooManyNonlocals
    | TooManyConstants
    | IntegerOverflow
    | TooMuchCode
    | CodeBufferOverrun

  datatype Result<+T> = Ok(value: T) | Err(error: CompileError) {
    predicate IsFailure() {
      Err?
    }
    function PropagateFailure<U>(): Result<U>
      requires Err?
    {
      Err(error)
    }
    function Extract(): T
      requires Ok?
    {
      value
    }
  }

  /** The context after compiling a term and the bytes emitted for it. */
  datatype Emitted = Emitted(context: Context, bytes: seq<byte>)

  /** `emit` is false in check mode. `tailCalls` is true in the compiler; without it every tail call
      is an ordinary call followed by the return of its function. `reserveTwo` is false in the
      compiler; with it chunk_emit_word makes room for both bytes of a word. */
  datatype Mode = Mode(emit: bool, tailCalls: bool, reserveTwo: bool)

  /** The compiler of the repository. */
  const FULL: Mode := Mode(true, true, false)

  const MAX_VARIABLES: nat := 255
  const MAX_BYTE: nat := 255
  const MAX_WORD: nat := 65535

  function Depth(c: Context): nat {
    if c.NoContext? then 0 else 1 + Depth(c.enclosing)
  }

  function NewContext(enclosing: Context): (c: Context)
    ensures Depth(c) == 1 + Depth(enclosing)
  {
    Context([], 1, [], [], [], enclosing)
  }

  // ----- variables -----

  /** The last entry of the table with this name. */
  function Lookup(vs: seq<Variable>, name: string): Option<Variable> {
    if vs == [] then None
    else if vs[|vs| - 1].name == name then Some(vs[|vs| - 1])
    else Lookup(vs[..|vs| - 1], name)
  }

  /** The test lets entry 255 through, but the table has 255 entries: such a write is past its end. */
  function AddVariable(c: Context, v: Variable): Result<Context>
    requires c.Context?
  {
    if |c.variables| > MAX_BYTE then Err(TooManyVariables)
    else if |c.variables| >= MAX_VARIABLES then Err(VariableTableOverrun)
    else Ok(c.(variables := c.variables + [v]))
  }

  function AddLocal(c: Context, name: string): (r: Result<Context>)
    requires c.Context?
    ensures r.Ok? ==> r.value.Context?
  {
    var c1 :- AddVariable(c, Variable(name, true, c.nextIndex % 256));
    Ok(c1.(nextIndex := c.nextIndex + 1))
  }

  function AddNonlocal(c: Context, n: Nonlocal): Result<Context>
    requires c.Context?
  {
    if |c.nonlocals| > MAX_BYTE then Err(TooManyNonlocals)
    else Ok(c.(nonlocals := c.nonlocals + [n]))
  }

  /** Looks a name up through the chain of functions; each function between the use and the
      definition captures the variable. */
  function Resolve(c: Context, name: string): (r: Result<(Context, Variable)>)
    requires c.Context?
    ensures r.Ok? ==> Depth(r.value.0) == Depth(c)
    decreases c
  {
    match Lookup(c.variables, name)
    case Some(v) => Ok((c, v))
    case None =>
      if c.enclosing.NoContext? then Err(UndefinedVariable(name))
      else
        var (outer, v) :- Resolve(c.enclosing, name);
        var c1 :- AddNonlocal(c.(enclosing := outer), Nonlocal(v.isLocal, v.index, name));
        var captured := Variable(name, false, |c.nonlocals|);
        var c2 :- AddVariable(c1, captured);
        Ok((c2, captured))
  }

  function AddParams(c: Context, ps: seq<Parameter>): (r: Result<Context>)
    requires c.Context?
    ensures r.Ok? ==> r.value.Context? && r.value.enclosing == c.enclosing
    decreases ps
  {
    if ps == [] then Ok(c)
    else
      var c1 :- AddLocal(c, ps[0].text);
      AddParams(c1, ps[1..])
  }

  function AddConstant(c: Context, v: Value): Result<(Context, byte)>
    requires c.Context?
  {
    if |c.constants| > MAX_BYTE then Err(TooManyConstants)
    else Ok((c.(constants := c.constants + [v]), |c.constants|))
  }

  // ----- emission -----

  /** The sizes a code buffer takes: it starts at 8 bytes and doubles. */
  predicate IsCapacity(n: nat) {
    n == 8 || (n > 8 && n % 2 == 0 && IsCapacity(n / 2))
  }

  /** Writing a word reserves one byte only. With `count` bytes in the buffer the second byte falls
      outside it exactly when the first takes the last free place. */
  predicate WordOverruns(count: nat) {
    IsCapacity(count + 1)
  }

  /** An opcode at position base followed by a word. */
  function EmitWithWord(m: Mode, i: Instr, base: nat): Result<seq<byte>>
    requires |Encode(i)| == 3
  {
    if !m.reserveTwo && WordOverruns(base + 1) then Err(CodeBufferOverrun) else Ok(Encode(i))
  }

  function Target(position: nat): Result<word> {
    if position > MAX_WORD then Err(TooMuchCode) else Ok(position)
  }

  function Leaf(m: Mode, c: Context, i: Instr): Result<Emitted> {
    Ok(Emitted(c, if m.emit then Encode(i) else []))
  }

  function CompileConstant(m: Mode, c: Context, v: Value): Result<Emitted>
    requires c.Context?
  {
    if !m.emit then Ok(Emitted(c, []))
    else
      var (c1, index) :- AddConstant(c, v);
      Ok(Emitted(c1, Encode(IConstant(index))))
  }

  function CompileInt(m: Mode, c: Context, n: nat, base: nat): Result<Emitted>
    requires c.Context?
  {
    if !m.emit then Ok(Emitted(c, []))
    else if n > INT_MAX then Err(IntegerOverflow)
    else if n <= MAX_WORD then
      var bytes :- EmitWithWord(m, IInt(n), base);
      Ok(Emitted(c, bytes))
    else CompileConstant(m, c, IntValue(n))
  }

  function CompileVar(m: Mode, c: Context, name: string): Result<Emitted>
    requires c.Context?
  {
    var (c1, v) :- Resolve(c, name);
    Leaf(m, c1, if v.isLocal then ILocal(v.index) else INonlocal(v.index))
  }

  function CallInstr(m: Mode, isTail: bool, nargs: nat): Instr {
    if isTail && m.tailCalls then ITailCall(nargs % 256) else ICall(nargs % 256)
  }

  /** e, then the instruction i. */
  function Append(m: Mode, e: Emitted, i: Instr): Emitted {
    if m.emit then e.(bytes := e.bytes + Encode(i)) else e
  }

  /** The function of a finished Compiler, whose code is `bytes`. */
  function Finish(c: Context, arity: nat, bytes: seq<byte>): CompiledFunction
    requires c.Context?
  {
    CompiledFunction(arity % 256, bytes, c.constants, c.nonlocals, c.functions)
  }

  /** Compiles a term at code position base. */
  function Compile(m: Mode, t: Term, isTail: bool, c: Context, base: nat): (r: Result<Emitted>)
    requires c.Context?
    ensures r.Ok? ==> Depth(r.value.context) == Depth(c)
    decreases t, 1
  {
    match t
    case Int(n, _) => CompileInt(m, c, n, base)
    case Str(s, _) => CompileConstant(m, c, StrValue(s))
    case Bool(b, _) => Leaf(m, c, if b then ITrue else IFalse)
    case Var(x, _) => CompileVar(m, c, x)
    case Call(_, _, _) => CompileCall(m, t, isTail, c, base)
    case Binary(_, _, _, _) => CompileBinary(m, t, c, base)
    case Unary(_, _, _) => CompileUnary(m, t, c, base)
    case Pair(_, _, _) => CompilePair(m, t, c, base)
    case Function(ps, b, _) => CompileClosure(m, t, c)
    case Let(_, _, _, _) => CompileLet(m, t, c, base)
    case If(_, _, _, _) => CompileIf(m, t, c, base)
  }

  function CompileCall(m: Mode, t: Term, isTail: bool, c: Context, base: nat): (r: Result<Emitted>)
    requires t.Call? && c.Context?
    ensures r.Ok? ==> Depth(r.value.context) == Depth(c)
    decreases t, 0
  {
    var e1 :- Compile(m, t.callee, false, c, base);
    var e2 :- CompileAll(m, t.args, e1.context, base + |e1.bytes|);
    Ok(Append(m, Emitted(e2.context, e1.bytes + e2.bytes), CallInstr(m, isTail, |t.args|)))
  }

  function CompileBinary(m: Mode, t: Term, c: Context, base: nat): (r: Result<Emitted>)
    requires t.Binary? && c.Context?
    ensures r.Ok? ==> Depth(r.value.context) == Depth(c)
    decreases t, 0
  {
    var e1 :- Compile(m, t.lhs, false, c, base);
    var e2 :- Compile(m, t.rhs, false, e1.context, base + |e1.bytes|);
    Ok(Append(m, Emitted(e2.context, e1.bytes + e2.bytes), IBinary(t.op)))
  }

  function CompileUnary(m: Mode, t: Term, c: Context, base: nat): (r: Result<Emitted>)
    requires t.Unary? && c.Context?
    ensures r.Ok? ==> Depth(r.value.context) == Depth(c)
    decreases t, 0
  {
    var e1 :- Compile(m, t.operand, false, c, base);
    Ok(Append(m, e1, IUnary(t.unop)))
  }

  function CompilePair(m: Mode, t: Term, c: Context, base: nat): (r: Result<Emitted>)
    requires t.Pair? && c.Context?
    ensures r.Ok? ==> Depth(r.value.context) == Depth(c)
    decreases t, 0
  {
    var e1 :- Compile(m, t.fst, false, c, base);
    var e2 :- Compile(m, t.snd, false, e1.context, base + |e1.bytes|);
    Ok(Append(m, Emitted(e2.context, e1.bytes + e2.bytes), ITuple))
  }

  function CompileClosure(m: Mode, t: Term, c: Context): (r: Result<Emitted>)
    requires t.Function? && c.Context?
    ensures r.Ok? ==> Depth(r.value.context) == Depth(c)
    decreases t, 0
  {
    var (outer, fn) :- CompileFunction(m, t.params, t.body, c);
    if !m.emit then Ok(Emitted(outer, []))
    else Ok(Emitted(outer.(functions := outer.functions + [fn]),
                    Encode(IClosure(|outer.functions| % 256))))
  }

  /** The name is declared before its value is compiled; the rest is always a tail position. */
  function CompileLet(m: Mode, t: Term, c: Context, base: nat): (r: Result<Emitted>)
    requires t.Let? && c.Context?
    ensures r.Ok? ==> Depth(r.value.context) == Depth(c)
    decreases t, 0
  {
    var c1 :- AddLocal(c, t.bound.text);
    var e1 :- Compile(m, t.definition, false, c1, base);
    var e2 :- Compile(m, t.next, true, e1.context, base + |e1.bytes|);
    Ok(Emitted(e2.context, e1.bytes + e2.bytes))
  }

  /** Both branches are always tail positions. */
  function CompileIf(m: Mode, t: Term, c: Context, base: nat): (r: Result<Emitted>)
    requires t.If? && c.Context?
    ensures r.Ok? ==> Depth(r.value.context) == Depth(c)
    decreases t, 0
  {
    var e0 :- Compile(m, t.cond, false, c, base);
    if !m.emit then
      var e1 :- Compile(m, t.thn, true, e0.context, base);
      var e2 :- Compile(m, t.els, true, e1.context, base);
      Ok(Emitted(e2.context, e0.bytes + e1.bytes + e2.bytes))
    else
      var p1 := base + |e0.bytes|;
      var _ :- EmitWithWord(m, IJumpIfFalse(0), p1);
      var e1 :- Compile(m, t.thn, true, e0.context, p1 + 3);
      var p2 := p1 + 3 + |e1.bytes|;
      var _ :- EmitWithWord(m, IJump(0), p2);
      var otherwise :- Target(p2 + 3);
      var e2 :- Compile(m, t.els, true, e1.context, p2 + 3);
      var end :- Target(p2 + 3 + |e2.bytes|);
      Ok(Emitted(e2.context, e0.bytes + Encode(IJumpIfFalse(otherwise)) + e1.bytes +
                             Encode(IJump(end)) + e2.bytes))
  }

  function CompileAll(m: Mode, ts: seq<Term>, c: Context, base: nat): (r: Result<Emitted>)
    requires c.Context?
    ensures r.Ok? ==> Depth(r.value.context) == Depth(c)
    decreases ts, 1
  {
    if ts == [] then Ok(Emitted(c, []))
    else
      var e1 :- Compile(m, ts[0], false, c, base);
      var e2 :- CompileAll(m, ts[1..], e1.context, base + |e1.bytes|);
      Ok(Emitted(e2.context, e1.bytes + e2.bytes))
  }

  /** The context of the enclosing function after compiling a function in it, and that function. */
  function CompileFunction(m: Mode, ps: seq<Parameter>, body: Term, c: Context)
    : (r: Result<(Context, CompiledFunction)>)
    requires c.Context?
    ensures r.Ok? ==> Depth(r.value.0) == Depth(c)
    decreases body, 2
  {
    var inner :- AddParams(NewContext(c), ps);
    var e :- Compile(m, body, true, inner, 0);
    Ok((e.context.enclosing, Finish(e.context, |ps|, Append(m, e, IReturn).bytes)))
  }

  /** compile_file, on the AST: the expression, then the return that ends the program. */
  function CompileProgram(m: Mode, program: Term): Result<CompiledFunction> {
    var e :- Compile(m, program, false, NewContext(NoContext), 0);
    Ok(Finish(e.context, 0, Append(m, e, IReturn).bytes))
  }

  /** The layout of a compiled `if`: the parts, where they stand, and the two jumps. */
  lemma IfLayout(m: Mode, t: Term, c: Context, base: nat)
    returns (e0: Emitted, e1: Emitted, e2: Emitted, otherwise: word, end: word)
    requires t.If? && m.emit && c.Context? && CompileIf(m, t, c, base).Ok?
    ensures Compile(m, t.cond, false, c, base) == Ok(e0) && e0.context.Context?
    ensures Compile(m, t.thn, true, e0.context, base + |e0.bytes| + 3) == Ok(e1) && e1.context.Context?
    ensures otherwise == base + |e0.bytes| + 3 + |e1.bytes| + 3
    ensures Compile(m, t.els, true, e1.context, otherwise) == Ok(e2)
    ensures end == otherwise + |e2.bytes|
    ensures CompileIf(m, t, c, base).value ==
      Emitted(e2.context, e0.bytes + Encode(IJumpIfFalse(otherwise)) + e1.bytes + Encode(IJump(end)) + e2.bytes)
  {
    hide EmitWithWord, Encode, CompileInt, CompileConstant, CompileVar, CompileCall, CompileBinary, CompileUnary,
      CompilePair, CompileClosure, CompileLet;
    e0 := Compile(m, t.cond, false, c, base).value;
    e1 := Compile(m, t.thn, true, e0.context, base + |e0.bytes| + 3).value;
    otherwise := base + |e0.bytes| + 3 + |e1.bytes| + 3;
    e2 := Compile(m, t.els, true, e1.context, otherwise).value;
    end := otherwise + |e2.bytes|;
  }
}
