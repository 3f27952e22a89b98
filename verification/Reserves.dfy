/** The defect of chunk_emit_word (src/chunk.c reserves one byte for a word): which programs it hits. The
    compiler accepts a program exactly when a compiler that reserves both bytes accepts it and no 16-bit
    operand of its code would have taken the last free place of a full buffer. Also here: how many
    variables one function may declare. */
module Reserves {
  import opened Values
  import opened Syntax
  import opened Bytecode
  import opened Codegen
  import opened Scoping
  import opened Boundaries
  import opened Dumps
  import opened Programs

  // ----- code without an overrun -----

  /** A sequence of whole instructions. */
  predicate Whole(bytes: seq<byte>) {
    bytes == [] ||
    var n := InstrSize(bytes[0]);
    0 < n <= |bytes| && Whole(bytes[n..])
  }

  /** No 16-bit operand in these instructions, which stand at position base, starts in the last place
      of a buffer. */
  predicate Clear(bytes: seq<byte>, base: nat)
    requires Whole(bytes)
  {
    bytes == [] ||
    var n := InstrSize(bytes[0]);
    (n == 3 ==> !WordOverruns(base + 1)) && Clear(bytes[n..], base + n)
  }

  ghost predicate ClearTree(fn: CompiledFunction) {
    Whole(fn.code) && Clear(fn.code, 0) && forall f | f in fn.functions :: ClearTree(f)
  }

  /** The functions that d has and c has not are clear. */
  ghost predicate NewClear(c: Context, d: Context)
    requires c.Context? && d.Context?
  {
    forall k | |c.functions| <= k < |d.functions| :: ClearTree(d.functions[k])
  }

  lemma FirstWhole(a: seq<byte>, b: seq<byte>)
    requires a != [] && Whole(a)
    ensures var n := InstrSize(a[0]);
      0 < n <= |a| && Whole(a[n..]) && (a + b)[n..] == a[n..] + b && (Whole(a + b) <==> Whole(a[n..] + b))
  {
    hide InstrSize;
    var n := InstrSize(a[0]);
    assert (a + b)[n..] == a[n..] + b;
  }

  lemma FirstClear(a: seq<byte>, base: nat)
    requires a != [] && Whole(a)
    ensures var n := InstrSize(a[0]);
      0 < n <= |a| && Whole(a[n..]) &&
      (Clear(a, base) <==> (n == 3 ==> !WordOverruns(base + 1)) && Clear(a[n..], base + n))
  {
    hide InstrSize, WordOverruns;
  }

  lemma NothingClear(base: nat)
    ensures Whole([]) && Clear([], base)
  {
  }

  lemma {:induction false} ClearJoin(a: seq<byte>, b: seq<byte>, base: nat)
    requires Whole(a) && Whole(b)
    ensures Whole(a + b)
    ensures Clear(a + b, base) <==> Clear(a, base) && Clear(b, base + |a|)
    decreases |a|
  {
    hide *;
    if a == [] {
      assert a + b == b;
      NothingClear(base);
    } else {
      var n := InstrSize(a[0]);
      FirstWhole(a, b);
      FirstClear(a, base);
      ClearJoin(a[n..], b, base + n);
      FirstClear(a + b, base);
    }
  }

  lemma ClearOne(i: Instr, base: nat)
    ensures Whole(Encode(i))
    ensures Clear(Encode(i), base) <==> |Encode(i)| != 3 || !WordOverruns(base + 1)
  {
    hide WordOverruns;
    DecodeEncoded(Encode(i), 0, i);
    var n := InstrSize(Encode(i)[0]);
    assert Encode(i)[n..] == [];
  }

  /** In terms of the lines of the disassembler: the operand of the instruction at p is written at
      p + 1, and a buffer of p + 2 bytes would have no room for its second byte. */
  lemma {:induction false} ClearLines(code: seq<byte>, ip: nat)
    requires ip <= |code|
    ensures Sweep(code, ip).Some? <==> Whole(code[ip..])
    ensures Whole(code[ip..]) ==>
      (Clear(code[ip..], ip) <==>
       forall l | l in Sweep(code, ip).value :: |Encode(l.1)| == 3 ==> !IsCapacity(l.0 + 2))
    decreases |code| - ip
  {
    hide IsCapacity, Encode;
    if ip < |code| && Decode(code, ip).Some? {
      var i := Decode(code, ip).value;
      DecodedSize(code, ip);
      DecodedLength(code, ip);
      hide Decode, InstrSize;
      var n := |Encode(i)|;
      ClearLines(code, ip + n);
      assert code[ip..][n..] == code[ip + n..];
    }
  }

  lemma DecodedLength(code: seq<byte>, ip: nat)
    requires Decode(code, ip).Some?
    ensures |Encode(Decode(code, ip).value)| == InstrSize(code[ip])
  {
  }

  // ----- one byte and two -----

  /** What reserving two bytes gives and what reserving one gives. */
  ghost predicate Meets(c: Context, base: nat, two: Result<Emitted>, one: Result<Emitted>)
    requires c.Context?
  {
    match two
    case Err(e) => one == Err(e) || one == Err(CodeBufferOverrun)
    case Ok(e) =>
      && e.context.Context? && Wf(e.context) && c.functions <= e.context.functions && Whole(e.bytes)
      && one == if Clear(e.bytes, base) && NewClear(c, e.context) then two else Err(CodeBufferOverrun)
  }

  function Two(m: Mode): Mode {
    m.(reserveTwo := true)
  }

  function One(m: Mode): Mode {
    m.(reserveTwo := false)
  }

  /** The result of compiling one part after another. */
  function Then(r1: Result<Emitted>, r2: Result<Emitted>): Result<Emitted> {
    if r1.Err? then r1
    else if r2.Err? then r2
    else Ok(Emitted(r2.value.context, r1.value.bytes + r2.value.bytes))
  }

  lemma ThenMeets(c: Context, base: nat, two1: Result<Emitted>, one1: Result<Emitted>, two2: Result<Emitted>,
                  one2: Result<Emitted>)
    requires c.Context? && Meets(c, base, two1, one1)
    requires two1.Ok? ==> Meets(two1.value.context, base + |two1.value.bytes|, two2, one2)
    ensures Meets(c, base, Then(two1, two2), Then(one1, one2))
  {
    hide WordOverruns, InstrSize, Wf, Whole, Clear, ClearTree;
    if two1.Ok? && two2.Ok? {
      ClearJoin(two1.value.bytes, two2.value.bytes, base);
    }
  }

  /** A short instruction behind the code. */
  function Behind(r: Result<Emitted>, i: Instr): Result<Emitted> {
    if r.Err? then r else Ok(Emitted(r.value.context, r.value.bytes + Encode(i)))
  }

  lemma BehindMeets(c: Context, base: nat, two: Result<Emitted>, one: Result<Emitted>, i: Instr)
    requires c.Context? && Meets(c, base, two, one) && |Encode(i)| != 3
    ensures Meets(c, base, Behind(two, i), Behind(one, i))
  {
    hide WordOverruns, Encode, InstrSize, Wf, Whole, Clear, ClearTree;
    if two.Ok? {
      ClearOne(i, base + |two.value.bytes|);
      ClearJoin(two.value.bytes, Encode(i), base);
    }
  }

  /** One instruction that changes the lists of constants and functions at most. */
  lemma InstrMeets(c: Context, base: nat, d: Context, i: Instr)
    requires c.Context? && d.Context? && Wf(d) && d.functions == c.functions && |Encode(i)| != 3
    ensures Meets(c, base, Ok(Emitted(d, Encode(i))), Ok(Emitted(d, Encode(i))))
  {
    hide WordOverruns, Encode, InstrSize, Wf, Whole, Clear, ClearTree;
    ClearOne(i, base);
  }

  lemma ConstantMeets(m: Mode, c: Context, base: nat, v: Value)
    requires m.emit && c.Context? && Wf(c)
    ensures Meets(c, base, CompileConstant(Two(m), c, v), CompileConstant(One(m), c, v))
  {
    hide Meets;
    if |c.constants| <= MAX_BYTE {
      var d := c.(constants := c.constants + [v]);
      ListsGrow(c, d);
      InstrMeets(c, base, d, IConstant(|c.constants|));
    } else {
      FailsAlike(c, base, TooManyConstants);
    }
  }

  lemma FailsAlike(c: Context, base: nat, e: CompileError)
    requires c.Context?
    ensures Meets(c, base, Err(e), Err(e)) && Meets(c, base, Err(e), Err(CodeBufferOverrun))
  {
  }

  lemma IntMeets(m: Mode, c: Context, base: nat, n: nat)
    requires m.emit && c.Context? && Wf(c)
    ensures Meets(c, base, CompileInt(Two(m), c, n, base), CompileInt(One(m), c, n, base))
  {
    hide Wf, WordOverruns, Whole, Clear;
    if n <= MAX_WORD {
      ClearOne(IInt(n), base);
    } else {
      ConstantMeets(m, c, base, IntValue(n));
    }
  }

  lemma VarMeets(m: Mode, c: Context, base: nat, x: string)
    requires m.emit && c.Context? && Wf(c)
    ensures Meets(c, base, CompileVar(Two(m), c, x), CompileVar(One(m), c, x))
  {
    hide Wf, Meets;
    if Resolve(c, x).Ok? {
      ResolveCaptures(c, x);
      ResolveFunctions(c, x);
      var (d, v) := Resolve(c, x).value;
      hide Resolve;
      InstrMeets(c, base, d, if v.isLocal then ILocal(v.index) else INonlocal(v.index));
    } else {
      FailsAlike(c, base, Resolve(c, x).error);
    }
  }

  // ----- terms -----

  /** Reserving one byte fails exactly where the code that two bytes give is not clear. */
  lemma {:induction false} CompileMeets(m: Mode, t: Term, isTail: bool, c: Context, base: nat)
    requires m.emit && c.Context? && Wf(c)
    ensures Meets(c, base, Compile(Two(m), t, isTail, c, base), Compile(One(m), t, isTail, c, base))
    decreases t, 1
  {
    hide Wf, Meets, CompileCall, CompileBinary, CompileUnary, CompilePair, CompileClosure, CompileLet, CompileIf,
      CompileInt, CompileConstant, CompileVar;
    match t
    case Int(n, _) => IntMeets(m, c, base, n);
    case Str(s, _) => ConstantMeets(m, c, base, StrValue(s));
    case Bool(b, _) => InstrMeets(c, base, c, if b then ITrue else IFalse);
    case Var(x, _) => VarMeets(m, c, base, x);
    case Call(_, _, _) => CallMeets(m, t, isTail, c, base);
    case Binary(_, _, _, _) => BinaryMeets(m, t, c, base);
    case Pair(_, _, _) => PairMeets(m, t, c, base);
    case Unary(_, _, _) => UnaryMeets(m, t, c, base);
    case Function(_, _, _) => ClosureMeets(m, t, c, base);
    case Let(_, _, _, _) => LetMeets(m, t, c, base);
    case If(_, _, _, _) => IfMeets(m, t, c, base);
  }

  lemma {:induction false} BinaryMeets(m: Mode, t: Term, c: Context, base: nat)
    requires t.Binary? && m.emit && c.Context? && Wf(c)
    ensures Meets(c, base, CompileBinary(Two(m), t, c, base), CompileBinary(One(m), t, c, base))
    decreases t, 0
  {
    hide Compile, Wf, Encode;
    var r1, s1 := Compile(Two(m), t.lhs, false, c, base), Compile(One(m), t.lhs, false, c, base);
    CompileMeets(m, t.lhs, false, c, base);
    if r1.Ok? {
      var d, p := r1.value.context, base + |r1.value.bytes|;
      CompileMeets(m, t.rhs, false, d, p);
      var r2, s2 := Compile(Two(m), t.rhs, false, d, p), Compile(One(m), t.rhs, false, d, p);
      ThenMeets(c, base, r1, s1, r2, s2);
      Short(IBinary(t.op));
      BehindMeets(c, base, Then(r1, r2), Then(s1, s2), IBinary(t.op));
    }
  }

  lemma Short(i: Instr)
    requires !i.IInt? && !i.IJump? && !i.IJumpIfFalse?
    ensures |Encode(i)| != 3
  {
  }

  lemma {:induction false} PairMeets(m: Mode, t: Term, c: Context, base: nat)
    requires t.Pair? && m.emit && c.Context? && Wf(c)
    ensures Meets(c, base, CompilePair(Two(m), t, c, base), CompilePair(One(m), t, c, base))
    decreases t, 0
  {
    hide Compile, Wf, Encode;
    var r1, s1 := Compile(Two(m), t.fst, false, c, base), Compile(One(m), t.fst, false, c, base);
    CompileMeets(m, t.fst, false, c, base);
    if r1.Ok? {
      var d, p := r1.value.context, base + |r1.value.bytes|;
      CompileMeets(m, t.snd, false, d, p);
      var r2, s2 := Compile(Two(m), t.snd, false, d, p), Compile(One(m), t.snd, false, d, p);
      ThenMeets(c, base, r1, s1, r2, s2);
      Short(ITuple);
      BehindMeets(c, base, Then(r1, r2), Then(s1, s2), ITuple);
    }
  }

  lemma {:induction false} UnaryMeets(m: Mode, t: Term, c: Context, base: nat)
    requires t.Unary? && m.emit && c.Context? && Wf(c)
    ensures Meets(c, base, CompileUnary(Two(m), t, c, base), CompileUnary(One(m), t, c, base))
    decreases t, 0
  {
    hide Compile, Wf, Encode, Meets;
    CompileMeets(m, t.operand, false, c, base);
    Short(IUnary(t.unop));
    BehindMeets(c, base, Compile(Two(m), t.operand, false, c, base), Compile(One(m), t.operand, false, c, base),
                IUnary(t.unop));
  }

  lemma {:induction false} CallMeets(m: Mode, t: Term, isTail: bool, c: Context, base: nat)
    requires t.Call? && m.emit && c.Context? && Wf(c)
    ensures Meets(c, base, CompileCall(Two(m), t, isTail, c, base), CompileCall(One(m), t, isTail, c, base))
    decreases t, 0
  {
    hide Compile, CompileAll, Wf, Encode, Meets;
    var r1, s1 := Compile(Two(m), t.callee, false, c, base), Compile(One(m), t.callee, false, c, base);
    CompileMeets(m, t.callee, false, c, base);
    MeetsParts(c, base, r1, s1);
    if r1.Ok? {
      var d, p := r1.value.context, base + |r1.value.bytes|;
      CompileAllMeets(m, t.args, d, p);
      var r2, s2 := CompileAll(Two(m), t.args, d, p), CompileAll(One(m), t.args, d, p);
      ThenMeets(c, base, r1, s1, r2, s2);
      var i := CallInstr(m, isTail, |t.args|);
      Short(i);
      BehindMeets(c, base, Then(r1, r2), Then(s1, s2), i);
    }
  }

  lemma {:induction false} CompileAllMeets(m: Mode, ts: seq<Term>, c: Context, base: nat)
    requires m.emit && c.Context? && Wf(c)
    ensures Meets(c, base, CompileAll(Two(m), ts, c, base), CompileAll(One(m), ts, c, base))
    decreases ts, 0
  {
    hide Compile, Wf, Encode;
    if ts != [] {
      var r1, s1 := Compile(Two(m), ts[0], false, c, base), Compile(One(m), ts[0], false, c, base);
      CompileMeets(m, ts[0], false, c, base);
      if r1.Ok? {
        var d, p := r1.value.context, base + |r1.value.bytes|;
        CompileAllMeets(m, ts[1..], d, p);
        ThenMeets(c, base, r1, s1, CompileAll(Two(m), ts[1..], d, p), CompileAll(One(m), ts[1..], d, p));
      }
    }
  }

  lemma {:induction false} LetMeets(m: Mode, t: Term, c: Context, base: nat)
    requires t.Let? && m.emit && c.Context? && Wf(c)
    ensures Meets(c, base, CompileLet(Two(m), t, c, base), CompileLet(One(m), t, c, base))
    decreases t, 0
  {
    hide Compile, Wf, Encode;
    if AddLocal(c, t.bound.text).Ok? {
      var c1 := AddLocal(c, t.bound.text).value;
      AddLocalWf(c, t.bound.text);
      var r1, s1 := Compile(Two(m), t.definition, false, c1, base), Compile(One(m), t.definition, false, c1, base);
      CompileMeets(m, t.definition, false, c1, base);
      if r1.Ok? {
        var d, p := r1.value.context, base + |r1.value.bytes|;
        CompileMeets(m, t.next, true, d, p);
        ThenMeets(c1, base, r1, s1, Compile(Two(m), t.next, true, d, p), Compile(One(m), t.next, true, d, p));
      }
    }
  }

  /** A jump between two parts. */
  lemma JumpBetween(a: seq<byte>, i: Instr, b: seq<byte>, base: nat)
    requires Whole(a) && Whole(b) && |Encode(i)| == 3
    ensures Whole(a + Encode(i) + b)
    ensures Clear(a + Encode(i) + b, base) <==>
      Clear(a, base) && !WordOverruns(base + |a| + 1) && Clear(b, base + |a| + 3)
  {
    hide Encode, WordOverruns, Whole, Clear;
    ClearOne(i, base + |a|);
    ClearJoin(a, Encode(i), base);
    ClearJoin(a + Encode(i), b, base);
  }

  lemma IfClear(b0: seq<byte>, b1: seq<byte>, b2: seq<byte>, otherwise: word, end: word, base: nat)
    requires Whole(b0) && Whole(b1) && Whole(b2)
    ensures var bytes := b0 + Encode(IJumpIfFalse(otherwise)) + b1 + Encode(IJump(end)) + b2;
      var p1, p2 := base + |b0|, base + |b0| + 3 + |b1|;
      Whole(bytes) &&
      (Clear(bytes, base) <==>
       && Clear(b0, base) && !WordOverruns(p1 + 1) && Clear(b1, p1 + 3)
       && !WordOverruns(p2 + 1) && Clear(b2, p2 + 3))
  {
    hide *;
    JumpSizes(otherwise);
    JumpSizes(end);
    JumpBetween(b0, IJumpIfFalse(otherwise), b1, base);
    JumpBetween(b0 + Encode(IJumpIfFalse(otherwise)) + b1, IJump(end), b2, base);
  }

  lemma {:induction false} IfMeets(m: Mode, t: Term, c: Context, base: nat)
    requires t.If? && m.emit && c.Context? && Wf(c)
    ensures Meets(c, base, CompileIf(Two(m), t, c, base), CompileIf(One(m), t, c, base))
    decreases t, 0
  {
    hide Compile, Wf, Encode, WordOverruns, Whole, Clear, ClearTree;
    JumpSizes(0);
    CompileMeets(m, t.cond, false, c, base);
    var r0 := Compile(Two(m), t.cond, false, c, base);
    if r0.Ok? {
      var e0, p1 := r0.value, base + |r0.value.bytes| + 3;
      CompileMeets(m, t.thn, true, e0.context, p1);
      var r1 := Compile(Two(m), t.thn, true, e0.context, p1);
      if r1.Ok? {
        var e1, p2 := r1.value, p1 + |r1.value.bytes| + 3;
        CompileMeets(m, t.els, true, e1.context, p2);
        var r2 := Compile(Two(m), t.els, true, e1.context, p2);
        if r2.Ok? && p2 + |r2.value.bytes| <= MAX_WORD {
          var e2 := r2.value;
          IfClear(e0.bytes, e1.bytes, e2.bytes, p2, p2 + |e2.bytes|, base);
        }
      }
    }
  }

  // ----- functions -----

  ghost predicate FunctionMeets(c: Context, two: Result<(Context, CompiledFunction)>,
                                one: Result<(Context, CompiledFunction)>)
    requires c.Context?
  {
    match two
    case Err(e) => one == Err(e) || one == Err(CodeBufferOverrun)
    case Ok(f) =>
      && f.0.Context? && Wf(f.0) && f.0.functions == c.functions
      && one == if ClearTree(f.1) then two else Err(CodeBufferOverrun)
  }

  lemma TreeIs(fn: CompiledFunction)
    ensures ClearTree(fn) <==> Whole(fn.code) && Clear(fn.code, 0) && forall f | f in fn.functions :: ClearTree(f)
  {
  }

  /** The code of a finished function. */
  lemma FinishMeets(inner: Context, two: Result<Emitted>, one: Result<Emitted>, arity: nat)
    requires inner.Context? && inner.functions == [] && Meets(inner, 0, two, one) && two.Ok?
    ensures var fn := Finish(two.value.context, arity, two.value.bytes);
      one == if ClearTree(fn) then two else Err(CodeBufferOverrun)
  {
    hide Whole, Clear, Wf;
    var d := two.value.context;
    hide ClearTree;
    if NewClear(inner, d) {
      forall f | f in d.functions ensures ClearTree(f) {
        var k :| 0 <= k < |d.functions| && d.functions[k] == f;
        assert |inner.functions| <= k;
      }
    }
    if forall f | f in d.functions :: ClearTree(f) {
      forall k | 0 <= k < |d.functions| ensures ClearTree(d.functions[k]) {
        assert d.functions[k] in d.functions;
      }
    }
    assert ClearTree(Finish(d, arity, two.value.bytes)) <==>
      Clear(two.value.bytes, 0) && NewClear(inner, d) by { TreeIs(Finish(d, arity, two.value.bytes)); }
  }

  lemma {:induction false} BodyMeets(m: Mode, ps: seq<Parameter>, b: Term, c: Context)
    requires m.emit && c.Context? && Wf(c)
    ensures FunctionMeets(c, CompileFunction(Two(m), ps, b, c), CompileFunction(One(m), ps, b, c))
    decreases b, 2
  {
    hide Compile, Wf, Encode, Meets, ClearTree;
    if BodyContext(ps, c).Ok? {
      var inner := BodyContext(ps, c).value;
      BodyContextWf(ps, c);
      AddParamsFunctions(NewContext(c), ps);
      CompileMeets(m, b, true, inner, 0);
      var two, one := Compile(Two(m), b, true, inner, 0), Compile(One(m), b, true, inner, 0);
      Short(IReturn);
      BehindMeets(inner, 0, two, one, IReturn);
      if two.Ok? {
        CompileGrows(Two(m), b, true, inner, 0);
        FunctionGrows(Two(m), ps, b, c);
        FinishMeets(inner, Behind(two, IReturn), Behind(one, IReturn), |ps|);
      } else {
        assert one == two || one == Err(CodeBufferOverrun) by { MeetsError(inner, 0, two, one); }
      }
    }
  }

  lemma MeetsParts(c: Context, base: nat, two: Result<Emitted>, one: Result<Emitted>)
    requires c.Context? && Meets(c, base, two, one)
    ensures if two.Ok? then two.value.context.Context? && Wf(two.value.context) else one.Err?
    ensures two.Ok? && one.Ok? ==> one == two
  {
    hide Wf, Whole, Clear;
  }

  lemma MeetsError(c: Context, base: nat, two: Result<Emitted>, one: Result<Emitted>)
    requires c.Context? && Meets(c, base, two, one) && two.Err?
    ensures one == two || one == Err(CodeBufferOverrun)
  {
  }

  lemma {:induction false} ClosureMeets(m: Mode, t: Term, c: Context, base: nat)
    requires t.Function? && m.emit && c.Context? && Wf(c)
    ensures Meets(c, base, CompileClosure(Two(m), t, c), CompileClosure(One(m), t, c))
    decreases t, 0
  {
    hide CompileFunction, Wf, Encode, ClearTree, Whole, Clear;
    BodyMeets(m, t.params, t.body, c);
    var two := CompileFunction(Two(m), t.params, t.body, c);
    if two.Ok? {
      var (outer, fn) := two.value;
      var d := outer.(functions := outer.functions + [fn]);
      ListsGrow(outer, d);
      var i := IClosure(|outer.functions| % 256);
      Short(i);
      ClearOne(i, base);
      assert d.functions[|c.functions|] == fn;
    }
  }

  // ----- programs -----

  /** The compiler accepts a program exactly when one that reserves two bytes accepts it and no 16-bit
      operand in the code it then emits, for the program or a function in it, would take the last
      place of a full buffer. */
  lemma OverrunExactly(m: Mode, program: Term, main: CompiledFunction)
    requires m.emit
    ensures CompileProgram(One(m), program) == Ok(main) <==>
      CompileProgram(Two(m), program) == Ok(main) && ClearTree(main)
    ensures CompileProgram(Two(m), program) == Ok(main) && !ClearTree(main) ==>
      CompileProgram(One(m), program) == Err(CodeBufferOverrun)
  {
    hide Compile, Wf, Encode, Meets, ClearTree;
    var c := NewContext(NoContext);
    NewContextWf(NoContext);
    CompileMeets(m, program, false, c, 0);
    var two, one := Compile(Two(m), program, false, c, 0), Compile(One(m), program, false, c, 0);
    Short(IReturn);
    BehindMeets(c, 0, two, one, IReturn);
    if two.Ok? {
      FinishMeets(c, Behind(two, IReturn), Behind(one, IReturn), 0);
    } else {
      MeetsError(c, 0, two, one);
    }
  }

  // ----- programs that are rejected -----

  const NOWHERE: Location := Location(0, 0, "")

  /** a op (b op2 c), for three small numbers */
  function ThreeNumbers(a: nat, op: BinOp, b: nat, op2: BinOp, c: nat): Term {
    Binary(Int(a, NOWHERE), op, Binary(Int(b, NOWHERE), op2, Int(c, NOWHERE), NOWHERE), NOWHERE)
  }

  lemma NumberFine(t: Term)
    requires t.Int?
    ensures Operand(t) && FreeVars(t) == {} && InnerFunctions(t) == [] && ChildTablesFit(t)
  {
  }

  lemma ThreeNumbersSupported(a: nat, op: BinOp, b: nat, op2: BinOp, c: nat)
    ensures Supported(ThreeNumbers(a, op, b, op2, c))
  {
    var t := ThreeNumbers(a, op, b, op2, c);
    NumberFine(t.lhs);
    NumberFine(t.rhs.lhs);
    NumberFine(t.rhs.rhs);
    assert Operand(t.rhs) && FreeVars(t.rhs) == {} && FunctionCount(t.rhs) == 0 && ChildTablesFit(t.rhs);
  }

  lemma NumberCompiles(m: Mode, n: word, k: Context, base: nat)
    requires m.emit && k.Context?
    ensures Compile(m, Int(n, NOWHERE), false, k, base) ==
      if !m.reserveTwo && WordOverruns(base + 1) then Err(CodeBufferOverrun) else Ok(Emitted(k, Encode(IInt(n))))
  {
  }

  /** The third number is written at position 7, the last place of the first buffer. */
  lemma ThreeNumbersOverrun(m: Mode, a: word, op: BinOp, b: word, op2: BinOp, c: word)
    requires m.emit
    ensures Supported(ThreeNumbers(a, op, b, op2, c))
    ensures if m.reserveTwo then CompileProgram(m, ThreeNumbers(a, op, b, op2, c)).Ok?
            else CompileProgram(m, ThreeNumbers(a, op, b, op2, c)) == Err(CodeBufferOverrun)
  {
    var t, k := ThreeNumbers(a, op, b, op2, c), NewContext(NoContext);
    ThreeNumbersSupported(a, op, b, op2, c);
    assert !WordOverruns(1) && !WordOverruns(4) && WordOverruns(7);
    NumberSize(a);
    NumberSize(b);
    NumberCompiles(m, a, k, 0);
    NumberCompiles(m, b, k, 3);
    NumberCompiles(m, c, k, 6);
    hide Encode, WordOverruns, Supported;
    assert Compile(m, t.rhs, false, k, 3) == CompileBinary(m, t.rhs, k, 3);
    assert Compile(m, t, false, k, 0) == CompileBinary(m, t, k, 0);
    hide Compile;
  }

  lemma NumberSize(n: word)
    ensures |Encode(IInt(n))| == 3
  {
  }

  /** let x = true; let y = true; ... true, for these names */
  function Lets(xs: seq<string>): Term {
    if xs == [] then Bool(true, NOWHERE)
    else Let(Parameter(xs[0], NOWHERE), Bool(true, NOWHERE), Lets(xs[1..]), NOWHERE)
  }

  lemma {:induction false} LetsCompile(m: Mode, xs: seq<string>, isTail: bool, c: Context, base: nat)
    requires c.Context? && |c.variables| <= MAX_VARIABLES
    ensures if |c.variables| + |xs| <= MAX_VARIABLES then Compile(m, Lets(xs), isTail, c, base).Ok?
            else Compile(m, Lets(xs), isTail, c, base) == Err(VariableTableOverrun)
    decreases xs
  {
    hide Encode;
    if xs != [] && |c.variables| < MAX_VARIABLES {
      var c1 := AddLocal(c, xs[0]).value;
      var e1 := Compile(m, Bool(true, NOWHERE), false, c1, base).value;
      LetsCompile(m, xs[1..], true, c1, base + |e1.bytes|);
    }
  }

  lemma {:induction false} LetsSupported(xs: seq<string>)
    ensures Spine(Lets(xs)) && FreeVars(Lets(xs)) == {} && FunctionCount(Lets(xs)) == 0 && ChildTablesFit(Lets(xs))
    decreases xs
  {
    if xs != [] {
      LetsSupported(xs[1..]);
    }
  }

  /** One function can declare 255 variables; the next one is written past the end of the table. */
  lemma LetsOverrun(m: Mode, xs: seq<string>)
    ensures Supported(Lets(xs))
    ensures if |xs| <= 255 then CompileProgram(m, Lets(xs)).Ok?
            else CompileProgram(m, Lets(xs)) == Err(VariableTableOverrun)
  {
    hide Compile, Encode;
    LetsSupported(xs);
    LetsCompile(m, xs, false, NewContext(NoContext), 0);
  }
}
