/** How much of the value stack compiled code can use. A function's need is computed from its body; if
    no function needs more than `max` slots, frame k starts at most k * (max - 1) above the bottom, so
    the size of the stack can be chosen such that only the callstack ever overflows. */
module StackBound {
  import opened Values
  import opened Syntax
  import opened Bytecode
  import opened Codegen
  import opened Scoping
  import opened Boundaries
  import opened Dumps
  import opened Machine

  function Max(a: int, b: int): int {
    if a < b then b else a
  }

  // ----- the need of a term -----

  /** The most slots in use after t, which starts with h in use. */
  function After(t: Term, h: int): int
    decreases t, 0
  {
    match t
    case Int(_, _) | Str(_, _) | Bool(_, _) | Var(_, _) | Function(_, _, _) => h + 1
    case Call(f, args, _) => AfterAll(args, After(f, h)) - |args| % 256
    case Binary(l, _, r, _) => After(r, After(l, h)) - 1
    case Unary(_, e, _) => After(e, h)
    case Pair(l, r, _) => After(r, After(l, h)) - 1
    case Let(_, v, n, _) => After(n, After(v, h))
    case If(c, a, b, _) => Max(After(a, After(c, h) - 1), After(b, After(c, h) - 1))
  }

  function AfterAll(ts: seq<Term>, h: int): int {
    if ts == [] then h else AfterAll(ts[1..], After(ts[0], h))
  }

  /** The most slots in use at any moment while t runs. */
  function Need(t: Term, h: int): (n: int)
    ensures h <= n
    decreases t, 1
  {
    Max(h, Max(After(t, h),
      match t
      case Int(_, _) | Str(_, _) | Bool(_, _) | Var(_, _) | Function(_, _, _) => h
      case Call(f, args, _) => Max(Need(f, h), NeedAll(args, After(f, h)))
      case Binary(l, _, r, _) => Max(Need(l, h), Need(r, After(l, h)))
      case Unary(_, e, _) => Need(e, h)
      case Pair(l, r, _) => Max(Need(l, h), Need(r, After(l, h)))
      case Let(_, v, n, _) => Max(Need(v, h), Need(n, After(v, h)))
      case If(c, a, b, _) => Max(Need(c, h), Max(Need(a, After(c, h) - 1), Need(b, After(c, h) - 1)))))
  }

  function NeedAll(ts: seq<Term>, h: int): (n: int)
    ensures h <= n
  {
    if ts == [] then h else Max(Need(ts[0], h), NeedAll(ts[1..], After(ts[0], h)))
  }

  /** Every function in t needs at most max slots: slot 0 for itself, its arguments, and its body. */
  predicate FunctionsFit(t: Term, max: int) {
    match t
    case Int(_, _) | Str(_, _) | Bool(_, _) | Var(_, _) => true
    case Function(ps, b, _) => Need(b, 1 + |ps|) <= max && FunctionsFit(b, max)
    case Call(f, args, _) => FunctionsFit(f, max) && AllFunctionsFit(args, max)
    case Binary(l, _, r, _) => FunctionsFit(l, max) && FunctionsFit(r, max)
    case Unary(_, e, _) => FunctionsFit(e, max)
    case Pair(l, r, _) => FunctionsFit(l, max) && FunctionsFit(r, max)
    case Let(_, v, n, _) => FunctionsFit(v, max) && FunctionsFit(n, max)
    case If(c, a, b, _) => FunctionsFit(c, max) && FunctionsFit(a, max) && FunctionsFit(b, max)
  }

  predicate AllFunctionsFit(ts: seq<Term>, max: int) {
    ts == [] || (FunctionsFit(ts[0], max) && AllFunctionsFit(ts[1..], max))
  }

  // ----- heights of instructions -----

  /** The bound at instruction k, or a behind the last. */
  function BoundAt(hs: seq<int>, k: nat, a: int): int
    requires k <= |hs|
  {
    if k < |hs| then hs[k] else a
  }

  ghost predicate JumpFlows(s: seq<Instr>, base: nat, hs: seq<int>, a: int, k: nat)
    requires |hs| == |s| && k < |s|
  {
    JumpTarget(s[k]).Some? ==>
      exists j :: k < j <= |s| && JumpTarget(s[k]).value == base + Offset(s, j) &&
                  hs[k] + Effect(s[k]) <= BoundAt(hs, j, a)
  }

  /** hs bounds the slots in use before each instruction of s, which starts with at most h of them in
      use and ends with at most a. */
  ghost predicate Flow(s: seq<Instr>, base: nat, hs: seq<int>, h: int, a: int, max: int) {
    && |hs| == |s| && h <= BoundAt(hs, 0, a)
    && (forall k :: 0 <= k < |s| ==> hs[k] <= max)
    && (forall k :: 0 <= k < |s| && !NoFallThrough(s[k]) ==> hs[k] + Effect(s[k]) <= BoundAt(hs, k + 1, a))
    && forall k :: 0 <= k < |s| ==> JumpFlows(s, base, hs, a, k)
  }

  lemma FlowJoin(s: seq<Instr>, base: nat, hs: seq<int>, h: int, a: int, s': seq<Instr>, hs': seq<int>, a': int,
                 max: int)
    requires Flow(s, base, hs, h, a, max) && Flow(s', base + |EncodeAll(s)|, hs', a, a', max)
    ensures Flow(s + s', base, hs + hs', h, a', max)
  {
    hide EncodeAll, Offset;
    var t, ks := s + s', hs + hs';
    forall k | 0 <= k < |t|
      ensures JumpFlows(t, base, ks, a', k)
    {
      if JumpTarget(t[k]).Some? {
        if k < |s| {
          assert JumpFlows(s, base, hs, a, k);
          var j :|
            k < j <= |s| && JumpTarget(s[k]).value == base + Offset(s, j) && hs[k] + Effect(s[k]) <= BoundAt(hs, j, a);
          OffsetJoin(s, s', j);
        } else {
          var i := k - |s|;
          assert JumpFlows(s', base + |EncodeAll(s)|, hs', a', i);
          var j :|
            i < j <= |s'| && JumpTarget(s'[i]).value == base + |EncodeAll(s)| + Offset(s', j) &&
            hs'[i] + Effect(s'[i]) <= BoundAt(hs', j, a');
          OffsetJoin(s, s', |s| + j);
        }
      }
    }
    hide JumpFlows;
  }

  lemma FlowOne(i: Instr, base: nat, h: int, a: int, max: int)
    requires h <= max && JumpTarget(i).None? && (NoFallThrough(i) || h + Effect(i) <= a)
    ensures Flow([i], base, [h], h, a, max)
  {
  }

  /** A larger bound at the end. */
  lemma FlowMore(s: seq<Instr>, base: nat, hs: seq<int>, h: int, a: int, a': int, max: int)
    requires Flow(s, base, hs, h, a, max) && a <= a'
    ensures Flow(s, base, hs, h, a', max)
  {
    hide EncodeAll, Offset;
    forall k | 0 <= k < |s| ensures JumpFlows(s, base, hs, a', k) {
      assert JumpFlows(s, base, hs, a, k);
    }
    hide JumpFlows;
  }

  /** A jump in front of s, to its instruction j. */
  lemma FlowJump(i: Instr, s: seq<Instr>, base: nat, hs: seq<int>, h: int, h': int, a: int, j: nat, max: int)
    requires Flow(s, base + |Encode(i)|, hs, h', a, max) && h <= max && j <= |s|
    requires JumpTarget(i) == Some(base + |Encode(i)| + Offset(s, j)) && h + Effect(i) <= BoundAt(hs, j, a)
    requires i.IJump? || (i.IJumpIfFalse? && h + Effect(i) <= h')
    ensures Flow([i] + s, base, [h] + hs, h, a, max)
  {
    hide EncodeAll, Offset, Encode;
    EncodeOne(i);
    assert [i][..1] == [i];
    OffsetEnds([i]);
    OffsetEnds(s);
    var t, ks := [i] + s, [h] + hs;
    forall k | 0 <= k < |t|
      ensures JumpFlows(t, base, ks, a, k)
    {
      if k == 0 {
        OffsetJoin([i], s, j + 1);
        assert 0 < j + 1 <= |t| && JumpTarget(t[0]).value == base + Offset(t, j + 1);
        assert BoundAt(ks, j + 1, a) == BoundAt(hs, j, a);
      } else if JumpTarget(t[k]).Some? {
        assert JumpFlows(s, base + |Encode(i)|, hs, a, k - 1);
        var j' :|
          k - 1 < j' <= |s| && JumpTarget(s[k - 1]).value == base + |Encode(i)| + Offset(s, j') &&
          hs[k - 1] + Effect(s[k - 1]) <= BoundAt(hs, j', a);
        OffsetJoin([i], s, j' + 1);
      }
    }
    hide JumpFlows;
  }

  // ----- compiled code -----

  /** The code of fn is s and a return; at most hs[k] slots are in use before instruction k, and at
      most a before the return. */
  ghost predicate CodeFits(fn: CompiledFunction, s: seq<Instr>, hs: seq<int>, a: int, max: int) {
    fn.code == EncodeAll(s + [IReturn]) && a <= max && Flow(s, 0, hs, 1 + fn.arity, a, max)
  }

  ghost predicate TreeFits(fn: CompiledFunction, max: int) {
    (exists s, hs, a :: CodeFits(fn, s, hs, a, max)) && forall f | f in fn.functions :: TreeFits(f, max)
  }

  ghost predicate NewTreesFit(c: Context, d: Context, max: int)
    requires c.Context?
  {
    d.Context? && forall f | f in d.functions :: f in c.functions || TreeFits(f, max)
  }

  ghost predicate Flows(c: Context, e: Emitted, s: seq<Instr>, base: nat, hs: seq<int>, h: int, a: int, max: int)
    requires c.Context?
  {
    e.bytes == EncodeAll(s) && Flow(s, base, hs, h, a, max) && NewTreesFit(c, e.context, max)
  }

  lemma FlowsThen(c: Context, e: Emitted, s: seq<Instr>, base: nat, hs: seq<int>, h: int, a: int, e': Emitted,
                  s': seq<Instr>, hs': seq<int>, a': int, max: int)
    requires c.Context? && Flows(c, e, s, base, hs, h, a, max)
    requires e.context.Context? && Flows(e.context, e', s', base + |e.bytes|, hs', a, a', max)
    ensures Flows(c, Emitted(e'.context, e.bytes + e'.bytes), s + s', base, hs + hs', h, a', max)
  {
    hide Flow, EncodeAll, NewTreesFit;
    EncodeAllJoin(s, s');
    FlowJoin(s, base, hs, h, a, s', hs', a', max);
    TreesThen(c, e.context, e'.context, max);
  }

  lemma TreesThen(c: Context, d: Context, e: Context, max: int)
    requires c.Context? && NewTreesFit(c, d, max) && NewTreesFit(d, e, max)
    ensures NewTreesFit(c, e, max)
  {
    hide TreeFits;
  }

  lemma FlowsInstr(m: Mode, c: Context, e: Emitted, s: seq<Instr>, base: nat, hs: seq<int>, h: int, a: int, i: Instr,
                   a': int, max: int)
    requires m.emit && c.Context? && Flows(c, e, s, base, hs, h, a, max) && a <= max
    requires JumpTarget(i).None? && (NoFallThrough(i) || a + Effect(i) <= a')
    ensures Flows(c, Append(m, e, i), s + [i], base, hs + [a], h, a', max)
  {
    FlowOne(i, base + |e.bytes|, a, a', max);
    EncodeAllJoin(s, [i]);
    EncodeOne(i);
    FlowJoin(s, base, hs, h, a, [i], [a], a', max);
    hide Flow, EncodeAll, Encode, TreeFits;
  }

  /** One instruction that pushes a value. */
  lemma FlowsOne(c: Context, d: Context, i: Instr, base: nat, h: int, max: int)
    requires c.Context? && NewTreesFit(c, d, max) && h + 1 <= max && JumpTarget(i).None? && Effect(i) == 1
    ensures Flows(c, Emitted(d, Encode(i)), [i], base, [h], h, h + 1, max)
  {
    FlowOne(i, base, h, h + 1, max);
    EncodeOne(i);
    hide Flow, Encode, EncodeAll, NewTreesFit;
  }

  lemma {:induction false} ParamsCount(c: Context, ps: seq<Parameter>)
    requires c.Context? && |c.variables| <= MAX_VARIABLES && AddParams(c, ps).Ok?
    ensures var d := AddParams(c, ps).value;
      |d.variables| == |c.variables| + |ps| <= MAX_VARIABLES && d.functions == c.functions
    decreases ps
  {
    if ps != [] {
      ParamsCount(AddLocal(c, ps[0].text).value, ps[1..]);
    }
  }

  lemma {:induction false} FunctionFlow(m: Mode, ps: seq<Parameter>, b: Term, c: Context, max: int)
    requires m.emit && c.Context? && Wf(c) && CompileFunction(m, ps, b, c).Ok?
    requires Need(b, 1 + |ps|) <= max && FunctionsFit(b, max)
    ensures TreeFits(CompileFunction(m, ps, b, c).value.1, max)
    decreases b, 3
  {
    hide Wf, Grows, Compile, Flows, Need, After, FunctionsFit, TreeFits, Encode;
    ParamsCount(NewContext(c), ps);
    BodyContextWf(ps, c);
    var inner := AddParams(NewContext(c), ps).value;
    var e := Compile(m, b, true, inner, 0).value;
    var s, hs := TermFlow(m, b, true, inner, 0, 1 + |ps|, max);
    NeedAfter(b, 1 + |ps|);
    FinishedFits(m, inner, e, s, hs, |ps|, After(b, 1 + |ps|), max);
  }

  lemma NeedAfter(t: Term, h: int)
    ensures h <= Need(t, h) && After(t, h) <= Need(t, h)
  {
    hide After, NeedAll;
  }

  lemma FinishedFits(m: Mode, inner: Context, e: Emitted, s: seq<Instr>, hs: seq<int>, arity: byte, a: int, max: int)
    requires m.emit && inner.Context? && inner.functions == [] && e.context.Context?
    requires Flows(inner, e, s, 0, hs, 1 + arity, a, max) && a <= max
    ensures TreeFits(Finish(e.context, arity, Append(m, e, IReturn).bytes), max)
  {
    EncodeAllJoin(s, [IReturn]);
    EncodeOne(IReturn);
    hide Flow, EncodeAll, Encode;
    assert CodeFits(Finish(e.context, arity, Append(m, e, IReturn).bytes), s, hs, a, max);
  }

  lemma ResolveKeepsFunctions(c: Context, x: string, max: int)
    requires c.Context? && Resolve(c, x).Ok?
    ensures NewTreesFit(c, Resolve(c, x).value.0, max)
  {
    hide TreeFits;
  }

  /** What a term emits never has more slots in use than the need of the term. */
  lemma {:induction false} TermFlow(m: Mode, t: Term, isTail: bool, c: Context, base: nat, h: int, max: int)
    returns (s: seq<Instr>, hs: seq<int>)
    requires m.emit && c.Context? && Wf(c) && Compile(m, t, isTail, c, base).Ok?
    requires Need(t, h) <= max && FunctionsFit(t, max)
    ensures Flows(c, Compile(m, t, isTail, c, base).value, s, base, hs, h, After(t, h), max)
    decreases t, 2
  {
    hide Wf, Flows, TreeFits, Encode, CompileCall, CompileBinary, CompileUnary, CompilePair, CompileClosure,
      CompileLet, CompileIf, Resolve, WordOverruns;
    hs := [h];
    match t
    case Int(n, _) =>
      var i := if n <= MAX_WORD then IInt(n) else IConstant(|c.constants|);
      s := [i];
      FlowsOne(c, Compile(m, t, isTail, c, base).value.context, i, base, h, max);
    case Str(x, _) =>
      s := [IConstant(|c.constants|)];
      FlowsOne(c, Compile(m, t, isTail, c, base).value.context, s[0], base, h, max);
    case Bool(b, _) =>
      s := [if b then ITrue else IFalse];
      FlowsOne(c, c, s[0], base, h, max);
    case Var(x, _) =>
      ResolveKeepsFunctions(c, x, max);
      var (d, v) := Resolve(c, x).value;
      s := [if v.isLocal then ILocal(v.index) else INonlocal(v.index)];
      FlowsOne(c, d, s[0], base, h, max);
    case Call(_, _, _) => s, hs := CallFlow(m, t, isTail, c, base, h, max);
    case Binary(_, _, _, _) => s, hs := BinaryFlow(m, t, c, base, h, max);
    case Unary(_, _, _) => s, hs := UnaryFlow(m, t, c, base, h, max);
    case Pair(_, _, _) => s, hs := PairFlow(m, t, c, base, h, max);
    case Function(_, _, _) => s := ClosureFlow(m, t, c, base, h, max);
    case Let(_, _, _, _) => s, hs := LetFlow(m, t, c, base, h, max);
    case If(_, _, _, _) => s, hs := IfFlow(m, t, c, base, h, max);
  }

  lemma {:induction false} UnaryFlow(m: Mode, t: Term, c: Context, base: nat, h: int, max: int)
    returns (s: seq<Instr>, hs: seq<int>)
    requires t.Unary? && m.emit && c.Context? && Wf(c) && CompileUnary(m, t, c, base).Ok?
    requires Need(t, h) <= max && FunctionsFit(t, max)
    ensures Flows(c, CompileUnary(m, t, c, base).value, s, base, hs, h, After(t, h), max)
    decreases t, 1
  {
    hide Wf, Grows, Compile, Flows, Encode;
    var e, a := Compile(m, t.operand, false, c, base).value, After(t.operand, h);
    s, hs := TermFlow(m, t.operand, false, c, base, h, max);
    FlowsInstr(m, c, e, s, base, hs, h, a, IUnary(t.unop), a, max);
    s, hs := s + [IUnary(t.unop)], hs + [a];
  }

  lemma {:induction false} BinaryFlow(m: Mode, t: Term, c: Context, base: nat, h: int, max: int)
    returns (s: seq<Instr>, hs: seq<int>)
    requires t.Binary? && m.emit && c.Context? && Wf(c) && CompileBinary(m, t, c, base).Ok?
    requires Need(t, h) <= max && FunctionsFit(t, max)
    ensures Flows(c, CompileBinary(m, t, c, base).value, s, base, hs, h, After(t, h), max)
    decreases t, 1
  {
    hide Wf, Grows, Compile, Flows, Encode;
    var e1, a1 := Compile(m, t.lhs, false, c, base).value, After(t.lhs, h);
    var s1, hs1 := TermFlow(m, t.lhs, false, c, base, h, max);
    CompileGrows(m, t.lhs, false, c, base);
    var e2, a2 := Compile(m, t.rhs, false, e1.context, base + |e1.bytes|).value, After(t.rhs, a1);
    var s2, hs2 := TermFlow(m, t.rhs, false, e1.context, base + |e1.bytes|, a1, max);
    NeedAfter(t.rhs, a1);
    FlowsThen(c, e1, s1, base, hs1, h, a1, e2, s2, hs2, a2, max);
    FlowsInstr(m, c, Emitted(e2.context, e1.bytes + e2.bytes), s1 + s2, base, hs1 + hs2, h, a2, IBinary(t.op),
               a2 - 1, max);
    s, hs := s1 + s2 + [IBinary(t.op)], hs1 + hs2 + [a2];
  }

  lemma {:induction false} PairFlow(m: Mode, t: Term, c: Context, base: nat, h: int, max: int)
    returns (s: seq<Instr>, hs: seq<int>)
    requires t.Pair? && m.emit && c.Context? && Wf(c) && CompilePair(m, t, c, base).Ok?
    requires Need(t, h) <= max && FunctionsFit(t, max)
    ensures Flows(c, CompilePair(m, t, c, base).value, s, base, hs, h, After(t, h), max)
    decreases t, 1
  {
    hide Wf, Grows, Compile, Flows, Encode;
    var e1, a1 := Compile(m, t.fst, false, c, base).value, After(t.fst, h);
    var s1, hs1 := TermFlow(m, t.fst, false, c, base, h, max);
    CompileGrows(m, t.fst, false, c, base);
    var e2, a2 := Compile(m, t.snd, false, e1.context, base + |e1.bytes|).value, After(t.snd, a1);
    var s2, hs2 := TermFlow(m, t.snd, false, e1.context, base + |e1.bytes|, a1, max);
    NeedAfter(t.snd, a1);
    FlowsThen(c, e1, s1, base, hs1, h, a1, e2, s2, hs2, a2, max);
    FlowsInstr(m, c, Emitted(e2.context, e1.bytes + e2.bytes), s1 + s2, base, hs1 + hs2, h, a2, ITuple, a2 - 1, max);
    s, hs := s1 + s2 + [ITuple], hs1 + hs2 + [a2];
  }

  lemma {:induction false} CallFlow(m: Mode, t: Term, isTail: bool, c: Context, base: nat, h: int, max: int)
    returns (s: seq<Instr>, hs: seq<int>)
    requires t.Call? && m.emit && c.Context? && Wf(c) && CompileCall(m, t, isTail, c, base).Ok?
    requires Need(t, h) <= max && FunctionsFit(t, max)
    ensures Flows(c, CompileCall(m, t, isTail, c, base).value, s, base, hs, h, After(t, h), max)
    decreases t, 1
  {
    hide Wf, Grows, Compile, CompileAll, Flows, Encode;
    var e1, a1 := Compile(m, t.callee, false, c, base).value, After(t.callee, h);
    var s1, hs1 := TermFlow(m, t.callee, false, c, base, h, max);
    CompileGrows(m, t.callee, false, c, base);
    var e2, a2 := CompileAll(m, t.args, e1.context, base + |e1.bytes|).value, AfterAll(t.args, a1);
    var s2, hs2 := AllFlow(m, t.args, e1.context, base + |e1.bytes|, a1, max);
    FlowsThen(c, e1, s1, base, hs1, h, a1, e2, s2, hs2, a2, max);
    var i := CallInstr(m, isTail, |t.args|);
    NeedAllAfter(t.args, a1);
    FlowsInstr(m, c, Emitted(e2.context, e1.bytes + e2.bytes), s1 + s2, base, hs1 + hs2, h, a2, i,
               a2 - |t.args| % 256, max);
    s, hs := s1 + s2 + [i], hs1 + hs2 + [a2];
  }

  lemma {:induction false} NeedAllAfter(ts: seq<Term>, h: int)
    ensures AfterAll(ts, h) <= NeedAll(ts, h)
    decreases ts
  {
    if ts != [] {
      NeedAllAfter(ts[1..], After(ts[0], h));
    }
  }

  lemma {:induction false} AllFlow(m: Mode, ts: seq<Term>, c: Context, base: nat, h: int, max: int)
    returns (s: seq<Instr>, hs: seq<int>)
    requires m.emit && c.Context? && Wf(c) && CompileAll(m, ts, c, base).Ok?
    requires NeedAll(ts, h) <= max && AllFunctionsFit(ts, max)
    ensures Flows(c, CompileAll(m, ts, c, base).value, s, base, hs, h, AfterAll(ts, h), max)
    decreases ts, 1
  {
    hide Wf, Grows, Compile, Need, After, FunctionsFit;
    if ts == [] {
      s, hs := [], [];
    } else {
      hide Flows;
      var e1, a1 := Compile(m, ts[0], false, c, base).value, After(ts[0], h);
      var s1, hs1 := TermFlow(m, ts[0], false, c, base, h, max);
      CompileGrows(m, ts[0], false, c, base);
      var e2 := CompileAll(m, ts[1..], e1.context, base + |e1.bytes|).value;
      var s2, hs2 := AllFlow(m, ts[1..], e1.context, base + |e1.bytes|, a1, max);
      FlowsThen(c, e1, s1, base, hs1, h, a1, e2, s2, hs2, AfterAll(ts[1..], a1), max);
      s, hs := s1 + s2, hs1 + hs2;
    }
  }

  lemma {:induction false} ClosureFlow(m: Mode, t: Term, c: Context, base: nat, h: int,
                                       max: int) returns (s: seq<Instr>)
    requires t.Function? && m.emit && c.Context? && Wf(c) && CompileClosure(m, t, c).Ok?
    requires Need(t, h) <= max && FunctionsFit(t, max)
    ensures Flows(c, CompileClosure(m, t, c).value, s, base, [h], h, After(t, h), max)
    decreases t, 1
  {
    hide Wf, CompileFunction, Flows, Encode, TreeFits;
    FunctionFlow(m, t.params, t.body, c, max);
    FunctionCode(m, t.params, t.body, c);
    var (outer, fn) := CompileFunction(m, t.params, t.body, c).value;
    s := [IClosure(|outer.functions| % 256)];
    FlowsOne(c, CompileClosure(m, t, c).value.context, s[0], base, h, max);
  }

  lemma {:induction false} LetFlow(m: Mode, t: Term, c: Context, base: nat, h: int, max: int)
    returns (s: seq<Instr>, hs: seq<int>)
    requires t.Let? && m.emit && c.Context? && Wf(c) && CompileLet(m, t, c, base).Ok?
    requires Need(t, h) <= max && FunctionsFit(t, max)
    ensures Flows(c, CompileLet(m, t, c, base).value, s, base, hs, h, After(t, h), max)
    decreases t, 1
  {
    hide Wf, Grows, Compile, Flows, AddLocal;
    AddLocalWf(c, t.bound.text);
    var c1 := AddLocal(c, t.bound.text).value;
    var e1, a1 := Compile(m, t.definition, false, c1, base).value, After(t.definition, h);
    var s1, hs1 := TermFlow(m, t.definition, false, c1, base, h, max);
    CompileGrows(m, t.definition, false, c1, base);
    var e2, a2 := Compile(m, t.next, true, e1.context, base + |e1.bytes|).value, After(t.next, a1);
    var s2, hs2 := TermFlow(m, t.next, true, e1.context, base + |e1.bytes|, a1, max);
    FlowsThen(c1, e1, s1, base, hs1, h, a1, e2, s2, hs2, a2, max);
    s, hs := s1 + s2, hs1 + hs2;
    FlowsFrom(c, t.bound.text, Emitted(e2.context, e1.bytes + e2.bytes), s, base, hs, h, a2, max);
  }

  lemma FlowsFrom(c: Context, x: string, e: Emitted, s: seq<Instr>, base: nat, hs: seq<int>, h: int, a: int, max: int)
    requires c.Context? && AddLocal(c, x).Ok? && Flows(AddLocal(c, x).value, e, s, base, hs, h, a, max)
    ensures Flows(c, e, s, base, hs, h, a, max)
  {
    hide EncodeAll, Flow, TreeFits;
  }

  lemma IfFits(t: Term, h: int, max: int)
    requires t.If? && Need(t, h) <= max && FunctionsFit(t, max)
    ensures var a := After(t.cond, h);
      && Need(t.cond, h) <= max && Need(t.thn, a - 1) <= max && Need(t.els, a - 1) <= max
      && FunctionsFit(t.cond, max) && FunctionsFit(t.thn, max) && FunctionsFit(t.els, max)
      && After(t, h) == Max(After(t.thn, a - 1), After(t.els, a - 1))
  {
  }

  function IfEmitted(e0: Emitted, e1: Emitted, e2: Emitted, otherwise: word, end: word): Emitted {
    Emitted(e2.context, e0.bytes + Encode(IJumpIfFalse(otherwise)) + e1.bytes + Encode(IJump(end)) + e2.bytes)
  }

  /** The layout of an `if`, whose parts are compiled in well-formed contexts. */
  lemma IfContexts(m: Mode, t: Term, c: Context, base: nat)
    returns (e0: Emitted, e1: Emitted, e2: Emitted, otherwise: word, end: word)
    requires t.If? && m.emit && c.Context? && Wf(c) && CompileIf(m, t, c, base).Ok?
    ensures Compile(m, t.cond, false, c, base) == Ok(e0) && e0.context.Context? && Wf(e0.context)
    ensures Compile(m, t.thn, true, e0.context, base + |e0.bytes| + 3) == Ok(e1)
    ensures e1.context.Context? && Wf(e1.context)
    ensures otherwise == base + |e0.bytes| + 3 + |e1.bytes| + 3
    ensures Compile(m, t.els, true, e1.context, otherwise) == Ok(e2)
    ensures end == otherwise + |e2.bytes|
    ensures CompileIf(m, t, c, base).value == IfEmitted(e0, e1, e2, otherwise, end)
  {
    hide Wf, Grows, Compile, Encode, FreeVars, LetNames;
    e0, e1, e2, otherwise, end := IfLayout(m, t, c, base);
    hide CompileIf;
    CompileGrows(m, t.cond, false, c, base);
    CompileGrows(m, t.thn, true, e0.context, base + |e0.bytes| + 3);
  }

  lemma {:induction false} IfFlow(m: Mode, t: Term, c: Context, base: nat, h: int, max: int)
    returns (s: seq<Instr>, hs: seq<int>)
    requires t.If? && m.emit && c.Context? && Wf(c) && CompileIf(m, t, c, base).Ok?
    requires Need(t, h) <= max && FunctionsFit(t, max)
    ensures Flows(c, CompileIf(m, t, c, base).value, s, base, hs, h, After(t, h), max)
    decreases t, 1
  {
    hide *;
    IfFits(t, h, max);
    var e0, e1, e2, otherwise, end := IfContexts(m, t, c, base);
    var p1, a0 := base + |e0.bytes|, After(t.cond, h);
    var a1, a2 := After(t.thn, a0 - 1), After(t.els, a0 - 1);
    var s0, hs0 := TermFlow(m, t.cond, false, c, base, h, max);
    var s1, hs1 := TermFlow(m, t.thn, true, e0.context, p1 + 3, a0 - 1, max);
    var s2, hs2 := TermFlow(m, t.els, true, e1.context, otherwise, a0 - 1, max);
    NeedAfter(t.cond, h);
    NeedAfter(t.thn, a0 - 1);
    s, hs := FlowsJumps(c, base, e0, s0, hs0, h, a0, e1, s1, hs1, a1, e2, s2, hs2, a2, otherwise, end, max);
  }

  /** A jump in front of the part e, to its instruction j. */
  lemma FlowsJump(c: Context, i: Instr, base: nat, e: Emitted, s: seq<Instr>, hs: seq<int>, h: int, h': int, a: int,
                  j: nat, max: int)
    requires c.Context? && |Encode(i)| == 3 && Flows(c, e, s, base + 3, hs, h', a, max)
    requires h <= max && j <= |s| && |hs| == |s|
    requires JumpTarget(i) == Some(base + 3 + Offset(s, j)) && h + Effect(i) <= BoundAt(hs, j, a)
    requires i.IJump? || (i.IJumpIfFalse? && h + Effect(i) <= h')
    ensures Flows(c, Emitted(e.context, Encode(i) + e.bytes), [i] + s, base, [h] + hs, h, a, max)
  {
    FlowJump(i, s, base, hs, h, h', a, j, max);
    EncodeOne(i);
    EncodeAllJoin([i], s);
    hide EncodeAll, Flow, NewTreesFit, Encode, Offset;
  }

  lemma FlowsMore(c: Context, e: Emitted, s: seq<Instr>, base: nat, hs: seq<int>, h: int, a: int, a': int, max: int)
    requires c.Context? && Flows(c, e, s, base, hs, h, a, max) && a <= a'
    ensures Flows(c, e, s, base, hs, h, a', max)
  {
    FlowMore(s, base, hs, h, a, a', max);
    hide Flow, EncodeAll, NewTreesFit;
  }

  lemma FlowsParts(c: Context, e: Emitted, s: seq<Instr>, base: nat, hs: seq<int>, h: int, a: int, max: int)
    requires c.Context? && Flows(c, e, s, base, hs, h, a, max)
    ensures |hs| == |s| && e.bytes == EncodeAll(s) && h <= BoundAt(hs, 0, a)
  {
    hide EncodeAll;
  }

  lemma BoundAfterJump(hs1: seq<int>, a1: int, hs2: seq<int>, a2: int, h: int)
    requires h <= BoundAt(hs2, 0, a2)
    ensures |hs1| + 1 <= |hs1 + ([a1] + hs2)| == |hs1| + 1 + |hs2|
    ensures h <= BoundAt(hs1 + ([a1] + hs2), |hs1| + 1, Max(a1, a2))
  {
  }

  lemma BoundAtEnd(hs: seq<int>, a: int)
    ensures BoundAt(hs, |hs|, a) == a
  {
  }

  /** The first branch, the jump over the second, and the second branch; the second starts at
      instruction |s1| + 1. */
  lemma FlowsBranches(c: Context, at: nat, h: int, e1: Emitted, s1: seq<Instr>, hs1: seq<int>, a1: int, e2: Emitted,
                      s2: seq<Instr>, hs2: seq<int>, a2: int, end: word, max: int)
    returns (s: seq<Instr>, hs: seq<int>, e: Emitted)
    requires c.Context? && Flows(c, e1, s1, at, hs1, h, a1, max) && e1.context.Context? && a1 <= max
    requires Flows(e1.context, e2, s2, at + |e1.bytes| + 3, hs2, h, a2, max) && end == at + |e1.bytes| + 3 + |e2.bytes|
    ensures e == Emitted(e2.context, e1.bytes + (Encode(IJump(end)) + e2.bytes))
    ensures Flows(c, e, s, at, hs, h, Max(a1, a2), max)
    ensures |s1| + 1 <= |s| == |hs| && Offset(s, |s1| + 1) == |e1.bytes| + 3 && h <= BoundAt(hs, |s1| + 1, Max(a1, a2))
  {
    hide *;
    JumpSizes(end);
    FlowsParts(c, e1, s1, at, hs1, h, a1, max);
    FlowsParts(e1.context, e2, s2, at + |e1.bytes| + 3, hs2, h, a2, max);
    AfterJump(s1, IJump(end), s2);
    BoundAfterJump(hs1, a1, hs2, a2, h);
    s, hs := s1 + ([IJump(end)] + s2), hs1 + ([a1] + hs2);
    e := Emitted(e2.context, e1.bytes + (Encode(IJump(end)) + e2.bytes));
    assert Flows(c, e, s, at, hs, h, Max(a1, a2), max) by {
      FlowsElse(e1.context, at + |e1.bytes|, h, a1, e2, s2, hs2, a2, end, max);
      FlowsThen(c, e1, s1, at, hs1, h, a1, Emitted(e2.context, Encode(IJump(end)) + e2.bytes), [IJump(end)] + s2,
                [a1] + hs2, Max(a1, a2), max);
    }
  }

  /** The jump over the second branch, and the second branch. */
  lemma FlowsElse(c: Context, at: nat, h: int, a1: int, e2: Emitted, s2: seq<Instr>, hs2: seq<int>, a2: int,
                  end: word, max: int)
    requires c.Context? && a1 <= max && Flows(c, e2, s2, at + 3, hs2, h, a2, max) && end == at + 3 + |e2.bytes|
    ensures Flows(c, Emitted(e2.context, Encode(IJump(end)) + e2.bytes), [IJump(end)] + s2, at,
                  [a1] + hs2, a1, Max(a1, a2), max)
  {
    JumpSizes(end);
    OffsetEnds(s2);
    FlowsParts(c, e2, s2, at + 3, hs2, h, a2, max);
    BoundAtEnd(hs2, Max(a1, a2));
    hide Flows, Encode, EncodeAll, Offset, BoundAt;
    FlowsMore(c, e2, s2, at + 3, hs2, h, a2, Max(a1, a2), max);
    FlowsJump(c, IJump(end), at, e2, s2, hs2, a1, h, Max(a1, a2), |s2|, max);
  }

  /** The condition, the jump to the second branch, and the rest. */
  lemma FlowsGuard(c: Context, base: nat, e0: Emitted, s0: seq<Instr>, hs0: seq<int>, h: int, a0: int, e: Emitted,
                   s: seq<Instr>, hs: seq<int>, a: int, otherwise: word, j: nat, max: int)
    returns (s': seq<Instr>, hs': seq<int>)
    requires c.Context? && Flows(c, e0, s0, base, hs0, h, a0, max) && e0.context.Context? && a0 <= max
    requires Flows(e0.context, e, s, base + |e0.bytes| + 3, hs, a0 - 1, a, max)
    requires j <= |s| == |hs| && otherwise == base + |e0.bytes| + 3 + Offset(s, j) && a0 - 1 <= BoundAt(hs, j, a)
    ensures Flows(c, Emitted(e.context, e0.bytes + (Encode(IJumpIfFalse(otherwise)) + e.bytes)),
                  s', base, hs', h, a, max)
  {
    JumpSizes(otherwise);
    hide Flows, Encode, Offset, BoundAt;
    FlowsJump(e0.context, IJumpIfFalse(otherwise), base + |e0.bytes|, e, s, hs, a0, a0 - 1, a, j, max);
    s', hs' := s0 + ([IJumpIfFalse(otherwise)] + s), hs0 + ([a0] + hs);
    FlowsThen(c, e0, s0, base, hs0, h, a0, Emitted(e.context, Encode(IJumpIfFalse(otherwise)) + e.bytes),
              [IJumpIfFalse(otherwise)] + s, [a0] + hs, a, max);
  }

  lemma FlowsJumps(c: Context, base: nat, e0: Emitted, s0: seq<Instr>, hs0: seq<int>, h: int, a0: int, e1: Emitted,
                   s1: seq<Instr>, hs1: seq<int>, a1: int, e2: Emitted, s2: seq<Instr>, hs2: seq<int>, a2: int,
                   otherwise: word, end: word, max: int)
    returns (s: seq<Instr>, hs: seq<int>)
    requires c.Context? && Flows(c, e0, s0, base, hs0, h, a0, max) && e0.context.Context? && a0 <= max && a1 <= max
    requires Flows(e0.context, e1, s1, base + |e0.bytes| + 3, hs1, a0 - 1, a1, max) && e1.context.Context?
    requires Flows(e1.context, e2, s2, otherwise, hs2, a0 - 1, a2, max)
    requires otherwise == base + |e0.bytes| + 3 + |e1.bytes| + 3 && end == otherwise + |e2.bytes|
    ensures Flows(c, IfEmitted(e0, e1, e2, otherwise, end), s, base, hs, h, Max(a1, a2), max)
  {
    hide Flows, Encode, EncodeAll, Offset, Max, BoundAt;
    var s3, hs3, e3 := FlowsBranches(e0.context, base + |e0.bytes| + 3, a0 - 1, e1, s1, hs1, a1, e2, s2, hs2, a2,
                                     end, max);
    s, hs := FlowsGuard(c, base, e0, s0, hs0, h, a0, e3, s3, hs3, Max(a1, a2), otherwise, |s1| + 1, max);
    IfBytesJoin(e0.bytes, Encode(IJumpIfFalse(otherwise)), e1.bytes, Encode(IJump(end)), e2.bytes);
  }

  /** A program in which the top level and every function need at most max slots. */
  predicate ProgramFits(program: Term, max: int) {
    Need(program, 1) <= max && FunctionsFit(program, max)
  }

  lemma ProgramFlow(m: Mode, program: Term, main: CompiledFunction, max: int)
    requires m.emit && CompileProgram(m, program) == Ok(main) && ProgramFits(program, max)
    ensures TreeFits(main, max)
  {
    hide Compile, Wf, Grows, Flows, Need, After, FunctionsFit, TreeFits, Encode;
    var c := NewContext(NoContext);
    NewContextWf(NoContext);
    var s, hs := TermFlow(m, program, false, c, 0, 1, max);
    CompileGrows(m, program, false, c, 0);
    NeedAfter(program, 1);
    FinishedFits(m, c, Compile(m, program, false, c, 0).value, s, hs, 0, After(program, 1), max);
  }
}
