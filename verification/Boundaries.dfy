/** Every function the compiler emits is a sequence of whole instructions whose operands are in range
    of the tables of that function and whose jumps go forward to the start of an instruction. */
module Boundaries {
  import opened Values
  import opened Syntax
  import opened Bytecode
  import opened Codegen
  import opened Scoping
  import opened Floors

  // ----- instruction sequences -----

  function EncodeAll(s: seq<Instr>): seq<byte> {
    if s == [] then [] else Encode(s[0]) + EncodeAll(s[1..])
  }

  /** The position of instruction k of a sequence that starts at 0. */
  function Offset(s: seq<Instr>, k: nat): nat
    requires k <= |s|
  {
    |EncodeAll(s[..k])|
  }

  /** In the sequence s at position base, t is where an instruction after k starts, or the end. */
  ghost predicate LandsAfter(s: seq<Instr>, base: nat, k: nat, t: nat) {
    exists j :: k < j <= |s| && t == base + Offset(s, j)
  }

  ghost predicate JumpsOk(s: seq<Instr>, base: nat) {
    forall k :: 0 <= k < |s| && JumpTarget(s[k]).Some? ==> LandsAfter(s, base, k, JumpTarget(s[k]).value)
  }

  lemma {:induction false} EncodeAllJoin(a: seq<Instr>, b: seq<Instr>)
    ensures EncodeAll(a + b) == EncodeAll(a) + EncodeAll(b)
    decreases a
  {
    hide Encode;
    if a == [] {
      assert a + b == b;
    } else {
      EncodeAllJoin(a[1..], b);
      assert (a + b)[1..] == a[1..] + b;
    }
  }

  lemma OffsetJoin(a: seq<Instr>, b: seq<Instr>, k: nat)
    requires k <= |a| + |b|
    ensures Offset(a + b, k) == if k <= |a| then Offset(a, k) else |EncodeAll(a)| + Offset(b, k - |a|)
  {
    hide EncodeAll;
    if k <= |a| {
      assert (a + b)[..k] == a[..k];
    } else {
      assert (a + b)[..k] == a + b[..k - |a|];
      EncodeAllJoin(a, b[..k - |a|]);
    }
  }

  lemma JumpsJoin(a: seq<Instr>, b: seq<Instr>, base: nat)
    requires JumpsOk(a, base) && JumpsOk(b, base + |EncodeAll(a)|)
    ensures JumpsOk(a + b, base)
  {
    hide EncodeAll, Offset;
    var s := a + b;
    forall k | 0 <= k < |s| && JumpTarget(s[k]).Some?
      ensures LandsAfter(s, base, k, JumpTarget(s[k]).value)
    {
      if k < |a| {
        var j :| k < j <= |a| && JumpTarget(a[k]).value == base + Offset(a, j);
        OffsetJoin(a, b, j);
      } else {
        var j :| k - |a| < j <= |b| && JumpTarget(b[k - |a|]).value == base + |EncodeAll(a)| + Offset(b, j);
        OffsetJoin(a, b, |a| + j);
      }
    }
  }

  lemma EncodeOne(i: Instr)
    ensures EncodeAll([i]) == Encode(i)
  {
    hide Encode;
    assert [i][1..] == [];
  }

  lemma NoJump(i: Instr, base: nat)
    requires JumpTarget(i).None?
    ensures JumpsOk([i], base)
  {
  }

  /** A jump in front of a sequence, to where instruction j of it starts. */
  lemma JumpFront(i: Instr, s: seq<Instr>, base: nat, j: nat)
    requires j <= |s| && JumpTarget(i) == Some(base + |Encode(i)| + Offset(s, j))
    requires JumpsOk(s, base + |Encode(i)|)
    ensures JumpsOk([i] + s, base)
  {
    hide EncodeAll, Offset, Encode;
    EncodeOne(i);
    var w := [i] + s;
    forall k | 0 <= k < |w| && JumpTarget(w[k]).Some?
      ensures LandsAfter(w, base, k, JumpTarget(w[k]).value)
    {
      if k == 0 {
        assert [i][..1] == [i];
        OffsetJoin([i], s, j + 1);
        OffsetEnds([i]);
        OffsetEnds(s);
        assert 0 < j + 1 <= |w| && JumpTarget(w[0]).value == base + Offset(w, j + 1);
      } else {
        var j' :| k - 1 < j' <= |s| && JumpTarget(s[k - 1]).value == base + |Encode(i)| + Offset(s, j');
        OffsetJoin([i], s, j' + 1);
      }
    }
  }

  lemma OffsetEnds(s: seq<Instr>)
    ensures Offset(s, 0) == 0 && Offset(s, |s|) == |EncodeAll(s)|
  {
    assert s[..|s|] == s;
  }

  // ----- operands -----

  /** The operand is an index into the tables; slot 0 holds the function itself and is never read. */
  predicate InRange(i: Instr, constants: nat, functions: nat, nonlocals: nat, slots: nat) {
    match i
    case IConstant(k) => k < constants
    case IClosure(k) => k < functions
    case INonlocal(k) => k < nonlocals
    case ILocal(k) => 1 <= k < slots
    case _ => true
  }

  ghost predicate OperandsOk(s: seq<Instr>, d: Context)
    requires d.Context?
  {
    forall i | i in s :: InRange(i, |d.constants|, |d.functions|, |d.nonlocals|, d.nextIndex)
  }

  /** Each descriptor names a slot or a captured variable of the enclosing function, and none twice. */
  ghost predicate DescriptorsOk(ns: seq<Nonlocal>, slots: nat, captured: nat) {
    && (forall n | n in ns :: if n.isLocal then 1 <= n.index < slots else n.index < captured)
    && (forall i, j :: 0 <= i < j < |ns| ==> ns[i].isLocal != ns[j].isLocal || ns[i].index != ns[j].index)
  }

  /** The code of fn is the instructions s and a return, and finds its operands. */
  ghost predicate CodeOk(fn: CompiledFunction, s: seq<Instr>, slots: nat) {
    && fn.code == EncodeAll(s + [IReturn]) && JumpsOk(s, 0) && Grounded(fn.code, 0, 1 + fn.arity)
    && forall i | i in s :: InRange(i, |fn.constants|, |fn.functions|, |fn.nonlocals|, slots)
  }

  /** The slots of a function: itself, its parameters and its `let`s. */
  function SlotCount(params: nat, body: Term): nat {
    1 + params + LetCount(body)
  }

  /** fn is well-formed code for a function with so many parameters and this body: its operands name
      slots and table entries that it has, its children are the functions directly inside the body, in
      order, and so on inside them. */
  ghost predicate TreeOf(fn: CompiledFunction, params: nat, body: Term) {
    var inner, slots := InnerFunctions(body), SlotCount(params, body);
    && fn.arity == params && |fn.functions| == |inner|
    && (exists s :: CodeOk(fn, s, slots))
    && forall k :: 0 <= k < |inner| ==>
         && DescriptorsOk(fn.functions[k].nonlocals, slots, |fn.nonlocals|)
         && TreeOf(fn.functions[k], |inner[k].params|, inner[k].body)
  }

  /** What that says of each instruction before the return and of each captured variable. */
  lemma TreeOperands(fn: CompiledFunction, params: nat, body: Term) returns (s: seq<Instr>)
    requires TreeOf(fn, params, body)
    ensures fn.code == EncodeAll(s + [IReturn])
    ensures forall i | i in s ::
      && (i.ILocal? ==> 1 <= i.slot <= params + LetCount(body))
      && (i.INonlocal? ==> i.captured < |fn.nonlocals|)
      && (i.IConstant? ==> i.constIdx < |fn.constants|)
      && (i.IClosure? ==> i.child < |fn.functions|)
    ensures forall k :: 0 <= k < |s| && (s[k].IJump? || s[k].IJumpIfFalse?) ==>
      exists j :: k < j <= |s| && s[k].target == Offset(s, j)
    ensures forall f, n | f in fn.functions && n in f.nonlocals ::
      if n.isLocal then 1 <= n.index <= params + LetCount(body) else n.index < |fn.nonlocals|
    ensures forall f, i, j | f in fn.functions && 0 <= i < j < |f.nonlocals| ::
      f.nonlocals[i].isLocal == f.nonlocals[j].isLocal ==> f.nonlocals[i].index != f.nonlocals[j].index
  {
    var slots := SlotCount(params, body);
    s :| CodeOk(fn, s, slots);
    assert JumpsOk(s, 0);
    forall k | 0 <= k < |s| && (s[k].IJump? || s[k].IJumpIfFalse?)
      ensures exists j :: k < j <= |s| && s[k].target == Offset(s, j)
    {
      assert LandsAfter(s, 0, k, JumpTarget(s[k]).value);
    }
    hide EncodeAll, Offset, Grounded, JumpsOk;
  }

  /** fn is well-formed code for some function. */
  ghost predicate TreeOk(fn: CompiledFunction) {
    exists params, body :: TreeOf(fn, params, body)
  }

  /** The instructions of a well-formed function, its number of slots, and its children. */
  lemma TreeParts(fn: CompiledFunction) returns (s: seq<Instr>, slots: nat)
    requires TreeOk(fn)
    ensures CodeOk(fn, s, slots)
    ensures forall f | f in fn.functions :: DescriptorsOk(f.nonlocals, slots, |fn.nonlocals|) && TreeOk(f)
  {
    hide CodeOk, DescriptorsOk;
    var params, body :| TreeOf(fn, params, body);
    slots := SlotCount(params, body);
    s :| CodeOk(fn, s, slots);
    forall f | f in fn.functions
      ensures DescriptorsOk(f.nonlocals, slots, |fn.nonlocals|) && TreeOk(f)
    {
      var k :| 0 <= k < |fn.functions| && fn.functions[k] == f;
      assert TreeOf(f, |InnerFunctions(body)[k].params|, InnerFunctions(body)[k].body);
    }
  }

  // ----- what a term emits -----

  /** What a term adds to the function it belongs to: children and slots. */
  datatype Parts = Parts(functions: seq<Term>, lets: nat)

  const NOTHING: Parts := Parts([], 0)

  function PartsOf(t: Term): Parts {
    Parts(InnerFunctions(t), LetCount(t))
  }

  function PartsOfAll(ts: seq<Term>): Parts {
    Parts(InnerFunctionsAll(ts), LetCountAll(ts))
  }

  function Plus(p: Parts, q: Parts): Parts {
    Parts(p.functions + q.functions, p.lets + q.lets)
  }

  /** f is the child compiled from t, in a function with so many slots and captured variables. */
  ghost predicate ChildOk(f: CompiledFunction, t: Term, slots: nat, captured: nat) {
    t.Function? && DescriptorsOk(f.nonlocals, slots, captured) && TreeOf(f, |t.params|, t.body)
  }

  /** From c to d the functions fs have become children, in that order. */
  ghost predicate NewChildrenOk(c: Context, d: Context, fs: seq<Term>)
    requires c.Context? && d.Context?
  {
    && c.functions <= d.functions && |d.functions| == |c.functions| + |fs|
    && forall k :: 0 <= k < |fs| ==> ChildOk(d.functions[|c.functions| + k], fs[k], d.nextIndex, |d.nonlocals|)
  }

  /** The instructions s have been emitted, and the parts p added. */
  ghost predicate Emits(c: Context, e: Emitted, s: seq<Instr>, base: nat, p: Parts)
    requires c.Context?
  {
    && e.context.Context? && e.bytes == EncodeAll(s) && JumpsOk(s, base)
    && e.context.nextIndex == c.nextIndex + p.lets
    && OperandsOk(s, e.context) && NewChildrenOk(c, e.context, p.functions)
  }

  ghost predicate Larger(c: Context, d: Context) {
    c.Context? && d.Context? && |c.constants| <= |d.constants| && |c.functions| <= |d.functions| &&
    |c.nonlocals| <= |d.nonlocals| && c.nextIndex <= d.nextIndex
  }

  lemma GrowsLarger(c: Context, d: Context, l: set<string>, n: set<string>)
    requires c.Context? && Grows(c, d, l, n)
    ensures Larger(c, d)
  {
    hide Captures;
  }

  lemma OperandsLarger(s: seq<Instr>, c: Context, d: Context)
    requires Larger(c, d) && OperandsOk(s, c)
    ensures OperandsOk(s, d)
  {
  }

  lemma ChildLarger(f: CompiledFunction, t: Term, d: Context, e: Context)
    requires Larger(d, e) && ChildOk(f, t, d.nextIndex, |d.nonlocals|)
    ensures ChildOk(f, t, e.nextIndex, |e.nonlocals|)
  {
    hide TreeOf;
  }

  lemma ChildrenLarger(c: Context, d: Context, e: Context, fs: seq<Term>, gs: seq<Term>)
    requires c.Context? && Larger(d, e) && NewChildrenOk(c, d, fs) && NewChildrenOk(d, e, gs)
    ensures NewChildrenOk(c, e, fs + gs)
  {
    hide ChildOk;
    forall k | 0 <= k < |fs + gs|
      ensures ChildOk(e.functions[|c.functions| + k], (fs + gs)[k], e.nextIndex, |e.nonlocals|)
    {
      if k < |fs| {
        ChildLarger(d.functions[|c.functions| + k], fs[k], d, e);
      } else {
        assert |c.functions| + k == |d.functions| + (k - |fs|);
      }
    }
  }

  lemma EmitsThen(c: Context, e1: Emitted, s1: seq<Instr>, base: nat, e2: Emitted, s2: seq<Instr>, p: Parts,
                  q: Parts)
    requires c.Context? && Emits(c, e1, s1, base, p) && Emits(e1.context, e2, s2, base + |e1.bytes|, q)
    requires Larger(e1.context, e2.context)
    ensures Emits(c, Emitted(e2.context, e1.bytes + e2.bytes), s1 + s2, base, Plus(p, q))
  {
    OperandsLarger(s1, e1.context, e2.context);
    ChildrenLarger(c, e1.context, e2.context, p.functions, q.functions);
    EncodeAllJoin(s1, s2);
    JumpsJoin(s1, s2, base);
    hide EncodeAll, JumpsOk, InRange, NewChildrenOk;
  }

  lemma EmitsInstr(m: Mode, c: Context, e: Emitted, s: seq<Instr>, base: nat, i: Instr, p: Parts)
    requires m.emit && c.Context? && Emits(c, e, s, base, p) && JumpTarget(i).None?
    requires var d := e.context; InRange(i, |d.constants|, |d.functions|, |d.nonlocals|, d.nextIndex)
    ensures Emits(c, Append(m, e, i), s + [i], base, p)
  {
    NoJump(i, base + |e.bytes|);
    EncodeAllJoin(s, [i]);
    EncodeOne(i);
    JumpsJoin(s, [i], base);
    hide EncodeAll, JumpsOk, NewChildrenOk, Encode;
  }

  /** One instruction, in a context whose slots and child functions have not changed. */
  lemma EmitsOne(c: Context, d: Context, base: nat, i: Instr)
    requires c.Context? && d.Context? && d.functions == c.functions && d.nextIndex == c.nextIndex
    requires JumpTarget(i).None? && InRange(i, |d.constants|, |d.functions|, |d.nonlocals|, d.nextIndex)
    ensures Emits(c, Emitted(d, Encode(i)), [i], base, NOTHING)
  {
    NoJump(i, base);
    EncodeOne(i);
    hide EncodeAll, JumpsOk, Encode;
  }

  // ----- functions -----

  lemma LinkedAt(fn: CompiledFunction, outer: Context, free: set<string>, j: nat)
    requires outer.Context? && Wf(outer) && Closed(fn, outer, free) && j < |fn.nonlocals|
    ensures var n := fn.nonlocals[j];
      Lookup(outer.variables, n.name) == Some(Variable(n.name, n.isLocal, n.index)) &&
      if n.isLocal then 1 <= n.index < outer.nextIndex else n.index < |outer.nonlocals|
  {
    assert EntryOk(outer, fn.nonlocals[j].name);
    hide Tidy;
  }

  /** The descriptors of a function name variables of the enclosing one, each at most once. */
  lemma ClosedDescriptors(fn: CompiledFunction, outer: Context, free: set<string>)
    requires outer.Context? && Wf(outer) && Closed(fn, outer, free)
    ensures DescriptorsOk(fn.nonlocals, outer.nextIndex, |outer.nonlocals|)
  {
    hide Wf, Linked;
    var ns := fn.nonlocals;
    forall j | 0 <= j < |ns|
      ensures if ns[j].isLocal then 1 <= ns[j].index < outer.nextIndex else ns[j].index < |outer.nonlocals|
    {
      LinkedAt(fn, outer, free, j);
    }
    forall i, j | 0 <= i < j < |ns|
      ensures ns[i].isLocal != ns[j].isLocal || ns[i].index != ns[j].index
    {
      LinkedAt(fn, outer, free, i);
      LinkedAt(fn, outer, free, j);
      if ns[i].isLocal == ns[j].isLocal && ns[i].index == ns[j].index {
        SlotOwner(outer, ns[i].name, ns[j].name);
      }
    }
  }

  lemma FinishedCode(m: Mode, inner: Context, e: Emitted, s: seq<Instr>, arity: nat, p: Parts)
    requires m.emit && inner.Context? && Emits(inner, e, s, 0, p)
    requires Grounded(Append(m, e, IReturn).bytes, 0, 1 + arity % 256)
    ensures CodeOk(Finish(e.context, arity, Append(m, e, IReturn).bytes), s, e.context.nextIndex)
  {
    hide EncodeAll, JumpsOk, Encode, InRange, Grounded, NewChildrenOk;
    EncodeAllJoin(s, [IReturn]);
    EncodeOne(IReturn);
  }

  /** A finished function whose body emitted s. */
  lemma FinishedTree(m: Mode, inner: Context, e: Emitted, s: seq<Instr>, arity: byte, body: Term)
    requires m.emit && inner.Context? && inner.functions == [] && inner.nextIndex == 1 + arity
    requires Emits(inner, e, s, 0, PartsOf(body)) && Grounded(Append(m, e, IReturn).bytes, 0, 1 + arity)
    ensures TreeOf(Finish(e.context, arity, Append(m, e, IReturn).bytes), arity, body)
  {
    hide *;
    var p, bytes := PartsOf(body), Append(m, e, IReturn).bytes;
    PartsAre(body);
    SlotsAre(arity, body);
    EmittedChildren(inner, e, s, 0, p);
    FinishedCode(m, inner, e, s, arity, p);
    FinishedFields(e.context, arity, bytes);
    TreeFrom(Finish(e.context, arity, bytes), s, arity, body);
  }

  lemma PartsAre(t: Term)
    ensures PartsOf(t) == Parts(InnerFunctions(t), LetCount(t))
  {
  }

  lemma SlotsAre(params: nat, body: Term)
    ensures SlotCount(params, body) == 1 + params + LetCount(body)
  {
  }

  lemma FinishedFields(c: Context, arity: byte, bytes: seq<byte>)
    requires c.Context?
    ensures var fn := Finish(c, arity, bytes);
      fn.arity == arity && fn.functions == c.functions && fn.nonlocals == c.nonlocals
  {
  }

  lemma TreeFrom(fn: CompiledFunction, s: seq<Instr>, arity: byte, body: Term)
    requires fn.arity == arity && CodeOk(fn, s, SlotCount(arity, body))
    requires var fs := InnerFunctions(body);
      |fn.functions| == |fs| &&
      forall k :: 0 <= k < |fs| ==> ChildOk(fn.functions[k], fs[k], SlotCount(arity, body), |fn.nonlocals|)
    ensures TreeOf(fn, arity, body)
  {
    hide CodeOk, DescriptorsOk, InnerFunctions, LetCount;
  }

  lemma EmittedChildren(c: Context, e: Emitted, s: seq<Instr>, base: nat, p: Parts)
    requires c.Context? && c.functions == [] && Emits(c, e, s, base, p)
    ensures e.context.Context? && e.context.nextIndex == c.nextIndex + p.lets
    ensures |e.context.functions| == |p.functions|
    ensures forall k :: 0 <= k < |p.functions| ==>
      ChildOk(e.context.functions[k], p.functions[k], e.context.nextIndex, |e.context.nonlocals|)
  {
    hide ChildOk, EncodeAll, JumpsOk, OperandsOk;
    forall k | 0 <= k < |p.functions|
      ensures ChildOk(e.context.functions[k], p.functions[k], e.context.nextIndex, |e.context.nonlocals|)
    {
      assert ChildOk(e.context.functions[|c.functions| + k], p.functions[k], e.context.nextIndex,
        |e.context.nonlocals|);
    }
  }

  lemma {:induction false} FunctionCode(m: Mode, ps: seq<Parameter>, b: Term, c: Context)
    requires m.emit && c.Context? && Wf(c) && CompileFunction(m, ps, b, c).Ok?
    ensures var (outer, fn) := CompileFunction(m, ps, b, c).value;
      && outer.Context? && Wf(outer) && outer.functions == c.functions && Larger(c, outer)
      && outer.nextIndex == c.nextIndex
      && TreeOf(fn, |ps|, b) && DescriptorsOk(fn.nonlocals, outer.nextIndex, |outer.nonlocals|)
    decreases b, 3
  {
    hide Compile, Wf, TreeOf, DescriptorsOk, Emits, Linked;
    BodyContextWf(ps, c);
    var inner := BodyContext(ps, c).value;
    AddParamsFunctions(NewContext(c), ps);
    var s := TermCode(m, b, true, inner, 0);
    BodyGrounded(m, b, true, inner, |ps|);
    FinishedTree(m, inner, Compile(m, b, true, inner, 0).value, s, |ps|, b);
    FunctionGrows(m, ps, b, c);
    var (outer, fn) := CompileFunction(m, ps, b, c).value;
    ClosedDescriptors(fn, outer, FreeVars(b) - ParamNames(ps));
    CapturesGrow(c, outer, FreeVars(b) - ParamNames(ps));
    GrowsLarger(c, outer, {}, FreeVars(b) - ParamNames(ps));
  }

  /** What a term emits is whole instructions, with operands in range and jumps that go forward to
      instructions of the term or to its end; the child functions it adds are well formed. */
  lemma {:induction false} TermCode(m: Mode, t: Term, isTail: bool, c: Context, base: nat) returns (s: seq<Instr>)
    requires m.emit && c.Context? && Wf(c) && Compile(m, t, isTail, c, base).Ok?
    ensures Emits(c, Compile(m, t, isTail, c, base).value, s, base, PartsOf(t))
    decreases t, 2
  {
    hide Wf, Emits, Encode, CompileCall, CompileBinary, CompileUnary, CompilePair, CompileClosure, CompileLet,
      CompileIf, CompileInt, CompileConstant, Resolve, EntryOk, Captures;
    match t
    case Int(n, _) => s := IntCode(m, c, n, base);
    case Str(x, _) => s := ConstantCode(m, c, StrValue(x), base);
    case Bool(b, _) =>
      var i := if b then ITrue else IFalse;
      s := [i];
      EmitsOne(c, c, base, i);
    case Var(x, _) => s := VarCode(m, c, x, base);
    case Call(_, _, _) => s := CallCode(m, t, isTail, c, base);
    case Binary(_, _, _, _) => s := BinaryCode(m, t, c, base);
    case Unary(_, _, _) => s := UnaryCode(m, t, c, base);
    case Pair(_, _, _) => s := PairCode(m, t, c, base);
    case Function(_, _, _) => s := ClosureCode(m, t, c, base);
    case Let(_, _, _, _) => s := LetCode(m, t, c, base);
    case If(_, _, _, _) => s := IfCode(m, t, c, base);
  }

  lemma EmitsContext(c: Context, e: Emitted, s: seq<Instr>, base: nat, p: Parts)
    requires c.Context? && Emits(c, e, s, base, p)
    ensures e.context.Context? && e.bytes == EncodeAll(s)
  {
  }

  lemma PlusAssociates(p: Parts, q: Parts, r: Parts)
    ensures Plus(p, Plus(q, r)) == Plus(Plus(p, q), r)
  {
  }

  lemma {:induction false} UnaryCode(m: Mode, t: Term, c: Context, base: nat) returns (s: seq<Instr>)
    requires t.Unary? && m.emit && c.Context? && Wf(c) && CompileUnary(m, t, c, base).Ok?
    ensures Emits(c, CompileUnary(m, t, c, base).value, s, base, PartsOf(t))
    decreases t, 1
  {
    hide Compile, Wf, Emits, Encode;
    var e := Compile(m, t.operand, false, c, base).value;
    s := TermCode(m, t.operand, false, c, base);
    EmitsContext(c, e, s, base, PartsOf(t.operand));
    EmitsInstr(m, c, e, s, base, IUnary(t.unop), PartsOf(t.operand));
    s := s + [IUnary(t.unop)];
  }

  lemma IntCode(m: Mode, c: Context, n: nat, base: nat) returns (s: seq<Instr>)
    requires m.emit && c.Context? && CompileInt(m, c, n, base).Ok?
    ensures Emits(c, CompileInt(m, c, n, base).value, s, base, NOTHING)
  {
    hide WordOverruns, Emits;
    if n <= MAX_WORD {
      s := [IInt(n)];
      EmitsOne(c, c, base, IInt(n));
    } else {
      s := ConstantCode(m, c, IntValue(n), base);
    }
  }

  lemma ConstantCode(m: Mode, c: Context, v: Value, base: nat) returns (s: seq<Instr>)
    requires m.emit && c.Context? && CompileConstant(m, c, v).Ok?
    ensures Emits(c, CompileConstant(m, c, v).value, s, base, NOTHING)
  {
    hide Encode, Emits;
    var i := IConstant(|c.constants|);
    s := [i];
    EmitsOne(c, CompileConstant(m, c, v).value.context, base, i);
  }

  lemma VarCode(m: Mode, c: Context, x: string, base: nat) returns (s: seq<Instr>)
    requires m.emit && c.Context? && Wf(c) && CompileVar(m, c, x).Ok?
    ensures Emits(c, CompileVar(m, c, x).value, s, base, NOTHING)
  {
    hide Encode, Emits, Captures, Tidy, Linked;
    ResolveCaptures(c, x);
    var (d, v) := Resolve(c, x).value;
    CapturedFunctions(c, d, {x});
    hide Resolve;
    assert EntryOk(d, x);
    var i := if v.isLocal then ILocal(v.index) else INonlocal(v.index);
    s := [i];
    EmitsOne(c, d, base, i);
  }

  lemma CapturedFunctions(c: Context, d: Context, names: set<string>)
    requires c.Context? && Captures(c, d, names)
    ensures d.Context? && d.functions == c.functions
  {
  }

  lemma {:induction false} CallCode(m: Mode, t: Term, isTail: bool, c: Context, base: nat) returns (s: seq<Instr>)
    requires t.Call? && m.emit && c.Context? && Wf(c) && CompileCall(m, t, isTail, c, base).Ok?
    ensures Emits(c, CompileCall(m, t, isTail, c, base).value, s, base, PartsOf(t))
    decreases t, 1
  {
    hide Compile, CompileAll, Wf, Emits, Grows, Encode, FreeVars, LetNames;
    var e1 := Compile(m, t.callee, false, c, base).value;
    var s1 := TermCode(m, t.callee, false, c, base);
    CompileGrows(m, t.callee, false, c, base);
    var at := base + |e1.bytes|;
    var e2 := CompileAll(m, t.args, e1.context, at).value;
    var s2 := AllCode(m, t.args, e1.context, at);
    CompileAllGrows(m, t.args, e1.context, at);
    GrowsLarger(e1.context, e2.context, LetNamesAll(t.args), FreeVarsAll(t.args));
    EmitsThen(c, e1, s1, base, e2, s2, PartsOf(t.callee), PartsOfAll(t.args));
    var i := CallInstr(m, isTail, |t.args|);
    s := s1 + s2 + [i];
    EmitsInstr(m, c, Emitted(e2.context, e1.bytes + e2.bytes), s1 + s2, base, i, PartsOf(t));
  }

  /** Two parts, one after the other. */
  lemma PartsCode(m: Mode, c: Context, e1: Emitted, s1: seq<Instr>, base: nat, p: Parts, t: Term, isTail: bool,
                  e2: Emitted, s2: seq<Instr>)
    requires m.emit && c.Context? && Emits(c, e1, s1, base, p) && e1.context.Context? && Wf(e1.context)
    requires Compile(m, t, isTail, e1.context, base + |e1.bytes|) == Ok(e2)
    requires Emits(e1.context, e2, s2, base + |e1.bytes|, PartsOf(t))
    ensures Emits(c, Emitted(e2.context, e1.bytes + e2.bytes), s1 + s2, base, Plus(p, PartsOf(t)))
    ensures Wf(e2.context) && e2.context.Context?
  {
    hide Compile, Wf, Emits, Grows, FreeVars, LetNames;
    CompileGrows(m, t, isTail, e1.context, base + |e1.bytes|);
    GrowsLarger(e1.context, e2.context, LetNames(t), FreeVars(t));
    EmitsThen(c, e1, s1, base, e2, s2, p, PartsOf(t));
    EmitsContext(e1.context, e2, s2, base + |e1.bytes|, PartsOf(t));
  }

  lemma {:induction false} BinaryCode(m: Mode, t: Term, c: Context, base: nat) returns (s: seq<Instr>)
    requires t.Binary? && m.emit && c.Context? && Wf(c) && CompileBinary(m, t, c, base).Ok?
    ensures Emits(c, CompileBinary(m, t, c, base).value, s, base, PartsOf(t))
    decreases t, 1
  {
    hide Compile, Wf, Emits, Grows, Encode;
    var e1 := Compile(m, t.lhs, false, c, base).value;
    var s1 := TermCode(m, t.lhs, false, c, base);
    CompileGrows(m, t.lhs, false, c, base);
    var e2 := Compile(m, t.rhs, false, e1.context, base + |e1.bytes|).value;
    var s2 := TermCode(m, t.rhs, false, e1.context, base + |e1.bytes|);
    PartsCode(m, c, e1, s1, base, PartsOf(t.lhs), t.rhs, false, e2, s2);
    s := s1 + s2 + [IBinary(t.op)];
    EmitsInstr(m, c, Emitted(e2.context, e1.bytes + e2.bytes), s1 + s2, base, IBinary(t.op), PartsOf(t));
  }

  lemma {:induction false} PairCode(m: Mode, t: Term, c: Context, base: nat) returns (s: seq<Instr>)
    requires t.Pair? && m.emit && c.Context? && Wf(c) && CompilePair(m, t, c, base).Ok?
    ensures Emits(c, CompilePair(m, t, c, base).value, s, base, PartsOf(t))
    decreases t, 1
  {
    hide Compile, Wf, Emits, Grows, Encode;
    var e1 := Compile(m, t.fst, false, c, base).value;
    var s1 := TermCode(m, t.fst, false, c, base);
    CompileGrows(m, t.fst, false, c, base);
    var e2 := Compile(m, t.snd, false, e1.context, base + |e1.bytes|).value;
    var s2 := TermCode(m, t.snd, false, e1.context, base + |e1.bytes|);
    PartsCode(m, c, e1, s1, base, PartsOf(t.fst), t.snd, false, e2, s2);
    s := s1 + s2 + [ITuple];
    EmitsInstr(m, c, Emitted(e2.context, e1.bytes + e2.bytes), s1 + s2, base, ITuple, PartsOf(t));
  }

  lemma {:induction false} AllCode(m: Mode, ts: seq<Term>, c: Context, base: nat) returns (s: seq<Instr>)
    requires m.emit && c.Context? && Wf(c) && CompileAll(m, ts, c, base).Ok?
    ensures Emits(c, CompileAll(m, ts, c, base).value, s, base, PartsOfAll(ts))
    decreases ts, 1
  {
    hide Compile, Wf, Grows, Emits, FreeVars, LetNames;
    if ts == [] {
      s := [];
      EmitsNothing(c, base);
    } else {
      var e1 := Compile(m, ts[0], false, c, base).value;
      var s1 := TermCode(m, ts[0], false, c, base);
      CompileGrows(m, ts[0], false, c, base);
      var at := base + |e1.bytes|;
      var e2 := CompileAll(m, ts[1..], e1.context, at).value;
      var s2 := AllCode(m, ts[1..], e1.context, at);
      CompileAllGrows(m, ts[1..], e1.context, at);
      GrowsLarger(e1.context, e2.context, LetNamesAll(ts[1..]), FreeVarsAll(ts[1..]));
      EmitsThen(c, e1, s1, base, e2, s2, PartsOf(ts[0]), PartsOfAll(ts[1..]));
      s := s1 + s2;
    }
  }

  lemma EmitsNothing(c: Context, base: nat)
    requires c.Context?
    ensures Emits(c, Emitted(c, []), [], base, NOTHING)
  {
  }

  /** A closure instruction; the child is new. */
  lemma {:induction false} ClosureCode(m: Mode, t: Term, c: Context, base: nat) returns (s: seq<Instr>)
    requires t.Function? && m.emit && c.Context? && Wf(c) && CompileClosure(m, t, c).Ok?
    ensures Emits(c, CompileClosure(m, t, c).value, s, base, PartsOf(t))
    decreases t, 1
  {
    hide CompileFunction, Wf, Encode, TreeOf, DescriptorsOk;
    FunctionCode(m, t.params, t.body, c);
    var (outer, fn) := CompileFunction(m, t.params, t.body, c).value;
    var i := IClosure(|outer.functions| % 256);
    s := [i];
    NoJump(i, base);
    EncodeOne(i);
    hide EncodeAll, JumpsOk;
  }

  lemma {:induction false} LetCode(m: Mode, t: Term, c: Context, base: nat) returns (s: seq<Instr>)
    requires t.Let? && m.emit && c.Context? && Wf(c) && CompileLet(m, t, c, base).Ok?
    ensures Emits(c, CompileLet(m, t, c, base).value, s, base, PartsOf(t))
    decreases t, 1
  {
    hide Compile, Wf, Emits, Grows, AddLocal;
    AddLocalWf(c, t.bound.text);
    var c1 := AddLocal(c, t.bound.text).value;
    var e1 := Compile(m, t.definition, false, c1, base).value;
    var s1 := TermCode(m, t.definition, false, c1, base);
    CompileGrows(m, t.definition, false, c1, base);
    var e2 := Compile(m, t.next, true, e1.context, base + |e1.bytes|).value;
    var s2 := TermCode(m, t.next, true, e1.context, base + |e1.bytes|);
    EmitsContext(c1, e1, s1, base, PartsOf(t.definition));
    PartsCode(m, c1, e1, s1, base, PartsOf(t.definition), t.next, true, e2, s2);
    s := s1 + s2;
    EmitsFrom(c, t.bound.text, Emitted(e2.context, e1.bytes + e2.bytes), s, base,
              Plus(PartsOf(t.definition), PartsOf(t.next)));
  }

  lemma EmitsFrom(c: Context, x: string, e: Emitted, s: seq<Instr>, base: nat, p: Parts)
    requires c.Context? && AddLocal(c, x).Ok? && Emits(AddLocal(c, x).value, e, s, base, p)
    ensures Emits(c, e, s, base, p.(lets := 1 + p.lets))
  {
    hide EncodeAll, JumpsOk, OperandsOk, ChildOk;
  }

  lemma {:induction false} IfCode(m: Mode, t: Term, c: Context, base: nat) returns (s: seq<Instr>)
    requires t.If? && m.emit && c.Context? && Wf(c) && CompileIf(m, t, c, base).Ok?
    ensures Emits(c, CompileIf(m, t, c, base).value, s, base, PartsOf(t))
    decreases t, 1
  {
    hide Compile, Wf, Emits, Grows, Encode, EncodeAll;
    var e0, e1, e2, otherwise, end := IfLayout(m, t, c, base);
    var p1 := base + |e0.bytes|;
    var s0 := TermCode(m, t.cond, false, c, base);
    CompileGrows(m, t.cond, false, c, base);
    var s1 := TermCode(m, t.thn, true, e0.context, p1 + 3);
    CompileGrows(m, t.thn, true, e0.context, p1 + 3);
    var s2 := TermCode(m, t.els, true, e1.context, otherwise);
    CompileGrows(m, t.els, true, e1.context, otherwise);
    hide CompileIf;
    GrowsLarger(e0.context, e1.context, LetNames(t.thn), FreeVars(t.thn));
    GrowsLarger(e1.context, e2.context, LetNames(t.els), FreeVars(t.els));
    EmitsJumps(c, base, e0, s0, PartsOf(t.cond), e1, s1, PartsOf(t.thn), e2, s2, PartsOf(t.els), otherwise, end);
    s := s0 + ([IJumpIfFalse(otherwise)] + (s1 + ([IJump(end)] + s2)));
  }

  /** A jump over the part e1 to its instruction j, and then e1. */
  lemma EmitsJump(c: Context, i: Instr, base: nat, e: Emitted, s: seq<Instr>, j: nat, p: Parts)
    requires c.Context? && |Encode(i)| == 3 && Emits(c, e, s, base + 3, p)
    requires j <= |s| && JumpTarget(i) == Some(base + 3 + Offset(s, j))
    ensures Emits(c, Emitted(e.context, Encode(i) + e.bytes), [i] + s, base, p)
  {
    JumpFront(i, s, base, j);
    EncodeOne(i);
    EncodeAllJoin([i], s);
    hide EncodeAll, JumpsOk, NewChildrenOk, Encode, Offset;
  }

  lemma AfterJump(s1: seq<Instr>, jump: Instr, s2: seq<Instr>)
    ensures Offset(s1 + ([jump] + s2), |s1| + 1) == |EncodeAll(s1)| + |Encode(jump)|
  {
    hide Offset, EncodeAll, Encode;
    OffsetJoin(s1, [jump] + s2, |s1| + 1);
    OffsetJoin([jump], s2, 1);
    OffsetEnds([jump]);
    EncodeOne(jump);
  }

  /** The first branch, the jump over the second, and the second branch. */
  lemma EmitsBranches(c: Context, at: nat, e1: Emitted, s1: seq<Instr>, p1: Parts, e2: Emitted, s2: seq<Instr>,
                      p2: Parts, end: word)
    requires c.Context? && Emits(c, e1, s1, at, p1) && e1.context.Context? && Larger(e1.context, e2.context)
    requires Emits(e1.context, e2, s2, at + |e1.bytes| + 3, p2) && end == at + |e1.bytes| + 3 + |e2.bytes|
    ensures Emits(c, Emitted(e2.context, e1.bytes + (Encode(IJump(end)) + e2.bytes)), s1 + ([IJump(end)] + s2), at,
                  Plus(p1, p2))
  {
    JumpSizes(end);
    OffsetEnds(s2);
    assert e2.bytes == EncodeAll(s2);
    hide Emits, Encode, EncodeAll, Offset, Plus;
    EmitsJump(e1.context, IJump(end), at + |e1.bytes|, e2, s2, |s2|, p2);
    EmitsThen(c, e1, s1, at, Emitted(e2.context, Encode(IJump(end)) + e2.bytes), [IJump(end)] + s2, p1, p2);
  }

  /** The two jumps of an `if` land on the second branch and after it. */
  lemma EmitsJumps(c: Context, base: nat, e0: Emitted, s0: seq<Instr>, p0: Parts, e1: Emitted, s1: seq<Instr>,
                   p1: Parts, e2: Emitted, s2: seq<Instr>, p2: Parts, otherwise: word, end: word)
    requires c.Context? && Emits(c, e0, s0, base, p0) && e0.context.Context?
    requires Emits(e0.context, e1, s1, base + |e0.bytes| + 3, p1) && e1.context.Context?
    requires Emits(e1.context, e2, s2, otherwise, p2) && Larger(e0.context, e1.context)
    requires Larger(e1.context, e2.context)
    requires otherwise == base + |e0.bytes| + 3 + |e1.bytes| + 3 && end == otherwise + |e2.bytes|
    ensures Emits(c, Emitted(e2.context, e0.bytes + Encode(IJumpIfFalse(otherwise)) + e1.bytes +
                                    Encode(IJump(end)) + e2.bytes),
                  s0 + ([IJumpIfFalse(otherwise)] + (s1 + ([IJump(end)] + s2))), base, Plus(Plus(p0, p1), p2))
  {
    hide Emits, Encode, EncodeAll, Offset, Plus;
    JumpSizes(otherwise);
    JumpSizes(end);
    EmitsContext(e0.context, e1, s1, base + |e0.bytes| + 3, p1);
    PlusAssociates(p0, p1, p2);
    var at, jif, jump := base + |e0.bytes|, Encode(IJumpIfFalse(otherwise)), Encode(IJump(end));
    EmitsBranches(e0.context, at + 3, e1, s1, p1, e2, s2, p2, end);
    var e, s := Emitted(e2.context, e1.bytes + (jump + e2.bytes)), s1 + ([IJump(end)] + s2);
    AfterJump(s1, IJump(end), s2);
    EmitsJump(e0.context, IJumpIfFalse(otherwise), at, e, s, |s1| + 1, Plus(p1, p2));
    EmitsThen(c, e0, s0, base, Emitted(e.context, jif + e.bytes), [IJumpIfFalse(otherwise)] + s, p0, Plus(p1, p2));
    IfBytesJoin(e0.bytes, jif, e1.bytes, jump, e2.bytes);
  }

  lemma IfBytesJoin(b0: seq<byte>, j1: seq<byte>, b1: seq<byte>, j2: seq<byte>, b2: seq<byte>)
    ensures b0 + (j1 + (b1 + (j2 + b2))) == b0 + j1 + b1 + j2 + b2
  {
  }

  /** The whole program is well formed, with a slot for itself and one for each of its `let`s, and it
      captures nothing. */
  lemma ProgramTree(m: Mode, program: Term, main: CompiledFunction)
    requires m.emit && CompileProgram(m, program) == Ok(main)
    ensures TreeOf(main, 0, program) && main.nonlocals == []
    ensures TreeOk(main)
  {
    hide Compile, Wf, Grows, TreeOf, Emits;
    var c := NewContext(NoContext);
    NewContextWf(NoContext);
    var e := Compile(m, program, false, c, 0).value;
    var s := TermCode(m, program, false, c, 0);
    CompileGrows(m, program, false, c, 0);
    TopNonlocals(c, e.context, LetNames(program), FreeVars(program));
    BodyGrounded(m, program, false, c, 0);
    FinishedTree(m, c, e, s, 0, program);
  }

  lemma TopNonlocals(c: Context, d: Context, l: set<string>, n: set<string>)
    requires c.Context? && c.enclosing.NoContext? && Grows(c, d, l, n) && Wf(d)
    ensures d.nonlocals == []
  {
  }
}
