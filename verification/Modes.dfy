/** The compiler run in different modes on the same term: without emitting code (`check` instead of
    `compile`), and with ordinary calls in place of tail calls. */
module Modes {
  import opened Values
  import opened Syntax
  import opened Bytecode
  import opened Codegen

  /** The same code, but some tail calls of the first are calls in the second. */
  ghost predicate SameButTails(a: seq<byte>, b: seq<byte>) {
    |a| == |b| && forall i :: 0 <= i < |a| && a[i] != b[i] ==> a[i] == 28 && b[i] == 27
  }

  /** The same function, up to tail calls in its code and in the functions nested in it. */
  ghost predicate Untailed(f: CompiledFunction, g: CompiledFunction) {
    && f.arity == g.arity && f.constants == g.constants && f.nonlocals == g.nonlocals
    && SameButTails(f.code, g.code)
    && |f.functions| == |g.functions|
    && forall i :: 0 <= i < |f.functions| ==> Untailed(f.functions[i], g.functions[i])
  }

  ghost predicate UntailedAll(fs: seq<CompiledFunction>, gs: seq<CompiledFunction>) {
    |fs| == |gs| && forall i :: 0 <= i < |fs| ==> Untailed(fs[i], gs[i])
  }

  /** The same variables, slots and captured variables in the whole chain of functions. When both
      sides emit, also the same constants and the same functions up to tail calls. */
  ghost predicate Alike(full: bool, c: Context, d: Context) {
    if c.NoContext? then d.NoContext?
    else
      && d.Context?
      && c.variables == d.variables && c.nextIndex == d.nextIndex && c.nonlocals == d.nonlocals
      && (full ==> c.constants == d.constants && UntailedAll(c.functions, d.functions))
      && Alike(full, c.enclosing, d.enclosing)
  }

  /** The limits that only show when code is emitted. */
  predicate EmitLimit(e: CompileError) {
    e == TooManyConstants || e == IntegerOverflow || e == TooMuchCode || e == CodeBufferOverrun
  }

  /** The full compiler's result and that of another mode. */
  ghost predicate Agree(full: bool, r: Result<Emitted>, r': Result<Emitted>) {
    match r
    case Err(e) => r' == Err(e) || (!full && EmitLimit(e))
    case Ok(e) =>
      && r'.Ok? && Alike(full, e.context, r'.value.context)
      && (full ==> SameButTails(e.bytes, r'.value.bytes))
  }

  ghost predicate Same(full: bool, r: Result<Context>, r': Result<Context>) {
    match r
    case Err(e) => r' == Err(e)
    case Ok(c) => r'.Ok? && Alike(full, c, r'.value)
  }

  lemma Both(a: seq<byte>, b: seq<byte>, a': seq<byte>, b': seq<byte>)
    requires SameButTails(a, b) && SameButTails(a', b')
    ensures SameButTails(a + a', b + b')
  {
  }

  lemma Copy(a: seq<byte>)
    ensures SameButTails(a, a)
  {
  }

  // ----- variables -----

  lemma AddLocalAgrees(full: bool, c: Context, d: Context, x: string)
    requires c.Context? && Alike(full, c, d)
    ensures Same(full, AddLocal(c, x), AddLocal(d, x))
  {
  }

  lemma {:induction false} AddParamsAgree(full: bool, c: Context, d: Context, ps: seq<Parameter>)
    requires c.Context? && Alike(full, c, d)
    ensures Same(full, AddParams(c, ps), AddParams(d, ps))
    decreases ps
  {
    hide Alike, AddLocal;
    AlikeParts(full, c, d);
    if ps != [] {
      AddLocalAgrees(full, c, d, ps[0].text);
      var r, r' := AddLocal(c, ps[0].text), AddLocal(d, ps[0].text);
      if r.Ok? {
        AlikeParts(full, r.value, r'.value);
        AddParamsAgree(full, r.value, r'.value, ps[1..]);
      }
    }
  }

  lemma AlikeParts(full: bool, c: Context, d: Context)
    requires Alike(full, c, d)
    ensures c.Context? <==> d.Context?
    ensures c.Context? ==> Alike(full, c.enclosing, d.enclosing)
  {
  }

  lemma {:induction false} ResolveAgrees(full: bool, c: Context, d: Context, x: string)
    requires c.Context? && Alike(full, c, d)
    ensures match Resolve(c, x)
      case Err(e) => Resolve(d, x) == Err(e)
      case Ok(r) => Resolve(d, x).Ok? && Alike(full, r.0, Resolve(d, x).value.0) && r.1 == Resolve(d, x).value.1
    decreases c
  {
    if Lookup(c.variables, x).None? && c.enclosing.Context? {
      ResolveAgrees(full, c.enclosing, d.enclosing, x);
    }
  }

  // ----- terms -----

  ghost predicate Comparable(m: Mode, c: Context, d: Context, base: nat, base': nat) {
    c.Context? && Alike(m.emit, c, d) && (m.emit ==> !m.reserveTwo && base == base')
  }

  lemma LeafAgrees(m: Mode, c: Context, d: Context, i: Instr, i': Instr)
    requires Alike(m.emit, c, d) && (i == i' || exists n: byte :: i == ITailCall(n) && i' == ICall(n))
    ensures Agree(m.emit, Leaf(FULL, c, i), Leaf(m, d, i'))
  {
  }

  lemma ConstantAgrees(m: Mode, c: Context, d: Context, v: Value)
    requires c.Context? && d.Context? && Alike(m.emit, c, d)
    ensures Agree(m.emit, CompileConstant(FULL, c, v), CompileConstant(m, d, v))
  {
    hide UntailedAll, Encode, SameButTails;
    if CompileConstant(FULL, c, v).Ok? {
      Copy(Encode(IConstant(|c.constants|)));
      var c1 := AddConstant(c, v).value.0;
      if m.emit {
        assert Alike(true, c1, AddConstant(d, v).value.0);
      } else {
        assert Alike(false, c1, d);
      }
    } else {
      assert CompileConstant(FULL, c, v) == Err(TooManyConstants);
      assert m.emit ==> CompileConstant(m, d, v) == Err(TooManyConstants);
    }
  }

  lemma IntAgrees(m: Mode, c: Context, d: Context, n: nat, base: nat, base': nat)
    requires d.Context? && Comparable(m, c, d, base, base')
    ensures Agree(m.emit, CompileInt(FULL, c, n, base), CompileInt(m, d, n, base'))
  {
    hide Alike, WordOverruns, SameButTails;
    ConstantAgrees(m, c, d, IntValue(n));
    if n <= MAX_WORD {
      Copy(Encode(IInt(n)));
    }
  }

  /** Two results that agree, each followed by an instruction. */
  lemma AppendAgrees(m: Mode, e: Emitted, e': Emitted, i: Instr, i': Instr)
    requires Agree(m.emit, Ok(e), Ok(e')) && (i == i' || exists n: byte :: i == ITailCall(n) && i' == ICall(n))
    ensures Agree(m.emit, Ok(Append(FULL, e, i)), Ok(Append(m, e', i')))
  {
    hide Alike, SameButTails;
    if m.emit {
      EncodingsAgree(i, i');
      Both(e.bytes, e'.bytes, Encode(i), Encode(i'));
    }
  }

  lemma EncodingsAgree(i: Instr, i': Instr)
    requires i == i' || exists n: byte :: i == ITailCall(n) && i' == ICall(n)
    ensures SameButTails(Encode(i), Encode(i'))
  {
  }

  lemma JoinAgrees(m: Mode, e1: Emitted, e1': Emitted, e2: Emitted, e2': Emitted)
    requires Agree(m.emit, Ok(e1), Ok(e1')) && Agree(m.emit, Ok(e2), Ok(e2'))
    ensures Agree(m.emit, Ok(Emitted(e2.context, e1.bytes + e2.bytes)), Ok(Emitted(e2'.context, e1'.bytes + e2'.bytes)))
  {
    hide Alike;
    if m.emit {
      Both(e1.bytes, e1'.bytes, e2.bytes, e2'.bytes);
    }
  }

  /** The next part is compiled at comparable positions. */
  lemma NextPart(m: Mode, base: nat, base': nat, e: Emitted, e': Emitted)
    requires Agree(m.emit, Ok(e), Ok(e')) && e.context.Context? && (m.emit ==> !m.reserveTwo && base == base')
    ensures e'.context.Context? && Comparable(m, e.context, e'.context, base + |e.bytes|, base' + |e'.bytes|)
  {
    AlikeParts(m.emit, e.context, e'.context);
    hide Alike;
  }

  /** In every mode a term is accepted or rejected for the same reason and binds and captures the
      same variables, unless the full compiler hits a limit on the code it emits. */
  lemma {:induction false} CompileAgrees(m: Mode, t: Term, isTail: bool, c: Context, d: Context, base: nat, base': nat)
    requires d.Context? && Comparable(m, c, d, base, base')
    ensures Agree(m.emit, Compile(FULL, t, isTail, c, base), Compile(m, t, isTail, d, base'))
    decreases t, 2
  {
    hide Alike, Agree, CompileCall, CompileBinary, CompileUnary, CompilePair, CompileClosure, CompileLet, CompileIf,
      CompileInt, CompileConstant;
    match t
    case Int(n, _) => IntAgrees(m, c, d, n, base, base');
    case Str(s, _) => ConstantAgrees(m, c, d, StrValue(s));
    case Bool(b, _) =>
      var i := if b then ITrue else IFalse;
      LeafAgrees(m, c, d, i, i);
    case Var(x, _) => VarAgrees(m, c, d, x);
    case Call(_, _, _) => CallAgrees(m, t, isTail, c, d, base, base');
    case Binary(_, _, _, _) => BinaryAgrees(m, t, c, d, base, base');
    case Pair(_, _, _) => PairAgrees(m, t, c, d, base, base');
    case Unary(_, _, _) => UnaryAgrees(m, t, c, d, base, base');
    case Function(_, _, _) => ClosureAgrees(m, t, c, d);
    case Let(_, _, _, _) => LetAgrees(m, t, c, d, base, base');
    case If(_, _, _, _) => IfAgrees(m, t, c, d, base, base');
  }

  lemma VarAgrees(m: Mode, c: Context, d: Context, x: string)
    requires c.Context? && d.Context? && Alike(m.emit, c, d)
    ensures Agree(m.emit, CompileVar(FULL, c, x), CompileVar(m, d, x))
  {
    hide Alike, Resolve, Encode;
    ResolveAgrees(m.emit, c, d, x);
    if Resolve(c, x).Ok? {
      var (c1, v) := Resolve(c, x).value;
      var i := if v.isLocal then ILocal(v.index) else INonlocal(v.index);
      LeafAgrees(m, c1, Resolve(d, x).value.0, i, i);
    }
  }

  lemma {:induction false} BinaryAgrees(m: Mode, t: Term, c: Context, d: Context, base: nat, base': nat)
    requires t.Binary? && d.Context? && Comparable(m, c, d, base, base')
    ensures Agree(m.emit, CompileBinary(FULL, t, c, base), CompileBinary(m, t, d, base'))
    decreases t, 1
  {
    hide Compile, Alike, SameButTails, Encode;
    CompileAgrees(m, t.lhs, false, c, d, base, base');
    var r1, r1' := Compile(FULL, t.lhs, false, c, base), Compile(m, t.lhs, false, d, base');
    if r1.Ok? {
      var e1, e1' := r1.value, r1'.value;
      NextPart(m, base, base', e1, e1');
      CompileAgrees(m, t.rhs, false, e1.context, e1'.context, base + |e1.bytes|, base' + |e1'.bytes|);
      var r2, r2' := Compile(FULL, t.rhs, false, e1.context, base + |e1.bytes|), Compile(m, t.rhs, false,
                             e1'.context, base' + |e1'.bytes|);
      if r2.Ok? {
        JoinAgrees(m, e1, e1', r2.value, r2'.value);
        AppendAgrees(m, Emitted(r2.value.context, e1.bytes + r2.value.bytes),
                     Emitted(r2'.value.context, e1'.bytes + r2'.value.bytes), IBinary(t.op), IBinary(t.op));
      }
    }
  }

  lemma {:induction false} PairAgrees(m: Mode, t: Term, c: Context, d: Context, base: nat, base': nat)
    requires t.Pair? && d.Context? && Comparable(m, c, d, base, base')
    ensures Agree(m.emit, CompilePair(FULL, t, c, base), CompilePair(m, t, d, base'))
    decreases t, 1
  {
    hide Compile, Alike, SameButTails, Encode;
    CompileAgrees(m, t.fst, false, c, d, base, base');
    var r1, r1' := Compile(FULL, t.fst, false, c, base), Compile(m, t.fst, false, d, base');
    if r1.Ok? {
      var e1, e1' := r1.value, r1'.value;
      NextPart(m, base, base', e1, e1');
      CompileAgrees(m, t.snd, false, e1.context, e1'.context, base + |e1.bytes|, base' + |e1'.bytes|);
      var r2, r2' := Compile(FULL, t.snd, false, e1.context, base + |e1.bytes|), Compile(m, t.snd, false,
                             e1'.context, base' + |e1'.bytes|);
      if r2.Ok? {
        JoinAgrees(m, e1, e1', r2.value, r2'.value);
        AppendAgrees(m, Emitted(r2.value.context, e1.bytes + r2.value.bytes),
                     Emitted(r2'.value.context, e1'.bytes + r2'.value.bytes), ITuple, ITuple);
      }
    }
  }

  lemma {:induction false} UnaryAgrees(m: Mode, t: Term, c: Context, d: Context, base: nat, base': nat)
    requires t.Unary? && d.Context? && Comparable(m, c, d, base, base')
    ensures Agree(m.emit, CompileUnary(FULL, t, c, base), CompileUnary(m, t, d, base'))
    decreases t, 1
  {
    hide Compile, Alike, SameButTails, Encode;
    CompileAgrees(m, t.operand, false, c, d, base, base');
    var r1, r1' := Compile(FULL, t.operand, false, c, base), Compile(m, t.operand, false, d, base');
    if r1.Ok? {
      AppendAgrees(m, r1.value, r1'.value, IUnary(t.unop), IUnary(t.unop));
    }
  }

  lemma {:induction false} CallAgrees(m: Mode, t: Term, isTail: bool, c: Context, d: Context, base: nat, base': nat)
    requires t.Call? && d.Context? && Comparable(m, c, d, base, base')
    ensures Agree(m.emit, CompileCall(FULL, t, isTail, c, base), CompileCall(m, t, isTail, d, base'))
    decreases t, 1
  {
    hide Compile, CompileAll, Alike, SameButTails, Encode;
    CompileAgrees(m, t.callee, false, c, d, base, base');
    var r1, r1' := Compile(FULL, t.callee, false, c, base), Compile(m, t.callee, false, d, base');
    if r1.Ok? {
      var e1, e1' := r1.value, r1'.value;
      NextPart(m, base, base', e1, e1');
      CompileAllAgrees(m, t.args, e1.context, e1'.context, base + |e1.bytes|, base' + |e1'.bytes|);
      var r2, r2' := CompileAll(FULL, t.args, e1.context, base + |e1.bytes|), CompileAll(m, t.args, e1'.context,
                                base' + |e1'.bytes|);
      if r2.Ok? {
        JoinAgrees(m, e1, e1', r2.value, r2'.value);
        AppendAgrees(m, Emitted(r2.value.context, e1.bytes + r2.value.bytes),
                     Emitted(r2'.value.context, e1'.bytes + r2'.value.bytes),
                     CallInstr(FULL, isTail, |t.args|), CallInstr(m, isTail, |t.args|));
      }
    }
  }

  lemma {:induction false} CompileAllAgrees(m: Mode, ts: seq<Term>, c: Context, d: Context, base: nat, base': nat)
    requires d.Context? && Comparable(m, c, d, base, base')
    ensures Agree(m.emit, CompileAll(FULL, ts, c, base), CompileAll(m, ts, d, base'))
    decreases ts, 1
  {
    hide Compile, Alike, SameButTails;
    if ts == [] {
      Copy([]);
    } else {
      CompileAgrees(m, ts[0], false, c, d, base, base');
      var r1, r1' := Compile(FULL, ts[0], false, c, base), Compile(m, ts[0], false, d, base');
      if r1.Ok? {
        var e1, e1' := r1.value, r1'.value;
        NextPart(m, base, base', e1, e1');
        CompileAllAgrees(m, ts[1..], e1.context, e1'.context, base + |e1.bytes|, base' + |e1'.bytes|);
        var r2, r2' := CompileAll(FULL, ts[1..], e1.context, base + |e1.bytes|), CompileAll(m, ts[1..], e1'.context,
                                  base' + |e1'.bytes|);
        if r2.Ok? {
          JoinAgrees(m, e1, e1', r2.value, r2'.value);
        }
      }
    }
  }

  lemma {:induction false} LetAgrees(m: Mode, t: Term, c: Context, d: Context, base: nat, base': nat)
    requires t.Let? && d.Context? && Comparable(m, c, d, base, base')
    ensures Agree(m.emit, CompileLet(FULL, t, c, base), CompileLet(m, t, d, base'))
    decreases t, 1
  {
    hide Compile, Alike, SameButTails, AddLocal;
    AddLocalAgrees(m.emit, c, d, t.bound.text);
    var r0, r0' := AddLocal(c, t.bound.text), AddLocal(d, t.bound.text);
    if r0.Ok? {
      CompileAgrees(m, t.definition, false, r0.value, r0'.value, base, base');
      var r1, r1' := Compile(FULL, t.definition, false, r0.value, base), Compile(m, t.definition, false, r0'.value,
                             base');
      if r1.Ok? {
        var e1, e1' := r1.value, r1'.value;
        NextPart(m, base, base', e1, e1');
        CompileAgrees(m, t.next, true, e1.context, e1'.context, base + |e1.bytes|, base' + |e1'.bytes|);
        var r2, r2' := Compile(FULL, t.next, true, e1.context, base + |e1.bytes|), Compile(m, t.next, true,
                               e1'.context, base' + |e1'.bytes|);
        if r2.Ok? {
          JoinAgrees(m, e1, e1', r2.value, r2'.value);
        }
      }
    }
  }

  /** The bytes of an `if` whose branches agree. */
  lemma IfBytesAgree(b0: seq<byte>, b0': seq<byte>, b1: seq<byte>, b1': seq<byte>, b2: seq<byte>, b2': seq<byte>,
                     otherwise: word, end: word)
    requires SameButTails(b0, b0') && SameButTails(b1, b1') && SameButTails(b2, b2')
    ensures SameButTails(b0 + Encode(IJumpIfFalse(otherwise)) + b1 + Encode(IJump(end)) + b2,
                         b0' + Encode(IJumpIfFalse(otherwise)) + b1' + Encode(IJump(end)) + b2')
  {
    var j1, j2 := Encode(IJumpIfFalse(otherwise)), Encode(IJump(end));
    hide SameButTails, Encode;
    Copy(j1);
    Copy(j2);
    Both(b0, b0', j1, j1);
    Both(b0 + j1, b0' + j1, b1, b1');
    Both(b0 + j1 + b1, b0' + j1 + b1', j2, j2);
    Both(b0 + j1 + b1 + j2, b0' + j1 + b1' + j2, b2, b2');
  }

  /** The part of compile_if that compiles the two branches after the condition e0. */
  lemma {:induction false} IfAgrees(m: Mode, t: Term, c: Context, d: Context, base: nat, base': nat)
    requires t.If? && d.Context? && Comparable(m, c, d, base, base')
    ensures Agree(m.emit, CompileIf(FULL, t, c, base), CompileIf(m, t, d, base'))
    decreases t, 1
  {
    hide Compile, Alike, SameButTails, Encode, WordOverruns;
    CompileAgrees(m, t.cond, false, c, d, base, base');
    var r0, r0' := Compile(FULL, t.cond, false, c, base), Compile(m, t.cond, false, d, base');
    if r0.Ok? {
      var e0, e0' := r0.value, r0'.value;
      NextPart(m, base, base', e0, e0');
      Lengths(m, e0, e0');
      var p1, p1' := base + |e0.bytes| + 3, if m.emit then base' + |e0'.bytes| + 3 else base';
      CompileAgrees(m, t.thn, true, e0.context, e0'.context, p1, p1');
      var r1, r1' := Compile(FULL, t.thn, true, e0.context, p1), Compile(m, t.thn, true, e0'.context, p1');
      if r1.Ok? {
        var e1, e1' := r1.value, r1'.value;
        NextPart(m, p1, p1', e1, e1');
        Lengths(m, e1, e1');
        var p2, p2' := p1 + |e1.bytes| + 3, if m.emit then p1' + |e1'.bytes| + 3 else base';
        CompileAgrees(m, t.els, true, e1.context, e1'.context, p2, p2');
        var r2, r2' := Compile(FULL, t.els, true, e1.context, p2), Compile(m, t.els, true, e1'.context, p2');
        if r2.Ok? {
          Lengths(m, r2.value, r2'.value);
          if m.emit && CompileIf(FULL, t, c, base).Ok? {
            IfBytesAgree(e0.bytes, e0'.bytes, e1.bytes, e1'.bytes, r2.value.bytes, r2'.value.bytes, p2,
                         p2 + |r2.value.bytes|);
          }
        }
      }
    }
  }

  lemma Lengths(m: Mode, e: Emitted, e': Emitted)
    requires Agree(m.emit, Ok(e), Ok(e'))
    ensures m.emit ==> |e.bytes| == |e'.bytes|
  {
  }

  // ----- functions -----

  ghost predicate FunctionsAgree(full: bool, r: Result<(Context, CompiledFunction)>,
                                 r': Result<(Context, CompiledFunction)>) {
    match r
    case Err(e) => r' == Err(e) || (!full && EmitLimit(e))
    case Ok(f) => r'.Ok? && Alike(full, f.0, r'.value.0) && (full ==> Untailed(f.1, r'.value.1))
  }

  lemma {:induction false} FunctionAgrees(m: Mode, ps: seq<Parameter>, b: Term, c: Context, d: Context)
    requires d.Context? && Comparable(m, c, d, 0, 0)
    ensures FunctionsAgree(m.emit, CompileFunction(FULL, ps, b, c), CompileFunction(m, ps, b, d))
    decreases b, 3
  {
    hide Compile, SameButTails, Encode, Untailed;
    var k, k' := NewContext(c), NewContext(d);
    assert UntailedAll([], []);
    AddParamsAgree(m.emit, k, k', ps);
    var r, r' := AddParams(k, ps), AddParams(k', ps);
    if r.Ok? {
      CompileAgrees(m, b, true, r.value, r'.value, 0, 0);
      var e, e' := Compile(FULL, b, true, r.value, 0), Compile(m, b, true, r'.value, 0);
      if e.Ok? {
        AppendAgrees(m, e.value, e'.value, IReturn, IReturn);
        FinishAgrees(m, Append(FULL, e.value, IReturn), Append(m, e'.value, IReturn), |ps|);
      }
    }
  }

  lemma FinishAgrees(m: Mode, e: Emitted, e': Emitted, arity: nat)
    requires Agree(m.emit, Ok(e), Ok(e')) && e.context.Context? && e'.context.Context?
    ensures m.emit ==> Untailed(Finish(e.context, arity, e.bytes), Finish(e'.context, arity, e'.bytes))
  {
  }

  lemma {:induction false} ClosureAgrees(m: Mode, t: Term, c: Context, d: Context)
    requires t.Function? && d.Context? && Comparable(m, c, d, 0, 0)
    ensures Agree(m.emit, CompileClosure(FULL, t, c), CompileClosure(m, t, d))
    decreases t, 1
  {
    hide CompileFunction, Encode, Untailed;
    FunctionAgrees(m, t.params, t.body, c, d);
    var r, r' := CompileFunction(FULL, t.params, t.body, c), CompileFunction(m, t.params, t.body, d);
    if r.Ok? {
      assert m.emit ==> UntailedAll(r.value.0.functions + [r.value.1], r'.value.0.functions + [r'.value.1]);
    }
  }

  // ----- programs -----

  ghost predicate ProgramsAgree(full: bool, r: Result<CompiledFunction>, r': Result<CompiledFunction>) {
    match r
    case Err(e) => r' == Err(e) || (!full && EmitLimit(e))
    case Ok(f) => r'.Ok? && (full ==> Untailed(f, r'.value))
  }

  lemma ProgramAgrees(m: Mode, program: Term)
    requires m.emit ==> !m.reserveTwo
    ensures ProgramsAgree(m.emit, CompileProgram(FULL, program), CompileProgram(m, program))
  {
    hide Compile, SameButTails, Encode, Untailed;
    var c := NewContext(NoContext);
    assert UntailedAll([], []);
    CompileAgrees(m, program, false, c, c, 0, 0);
    var r, r' := Compile(FULL, program, false, c, 0), Compile(m, program, false, c, 0);
    if r.Ok? {
      AppendAgrees(m, r.value, r'.value, IReturn, IReturn);
      AlikeParts(m.emit, r.value.context, r'.value.context);
      FinishAgrees(m, Append(FULL, r.value, IReturn), Append(m, r'.value, IReturn), 0);
    }
  }

  /** `check` accepts every program that `compile` accepts, and rejects for the same reason what
      `compile` rejects, except for the limits on emitted code, which it cannot see. */
  lemma CheckAgrees(program: Term, tails: bool)
    ensures match CompileProgram(FULL, program)
      case Ok(_) => CompileProgram(Mode(false, tails, false), program).Ok?
      case Err(e) =>
        e in {TooManyConstants, IntegerOverflow, TooMuchCode, CodeBufferOverrun} ||
        CompileProgram(Mode(false, tails, false), program) == Err(e)
  {
    hide CompileProgram;
    ProgramAgrees(Mode(false, tails, false), program);
  }
}
