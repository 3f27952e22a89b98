/** What tail calls change. The machine of src/vm.c is compared with one on which every tail call is an
    ordinary call followed by a return: a new frame is pushed, and when it comes back the caller returns
    at once. On every compiled program both give the same result after the same trace, or run forever
    together. Under size limits the machine with tail calls never does worse. */
module TailCalls {
  import opened Values
  import opened Syntax
  import opened Bytecode
  import opened Codegen
  import opened Boundaries
  import opened Floors
  import opened Machine
  import opened Heights
  import opened Semantics
  import opened Programs
  import StackDepth

  /** The next instruction. */
  function Next(s: State): Option<Instr> {
    if s.cl < |s.heap| then Decode(s.heap[s.cl].fn.code, s.ip) else None
  }

  /** One instruction of the machine without tail calls: the frame that makes a tail call is saved, and
      will go on at the return that ends its function. */
  function PlainStep(lim: Limits, s: State): State {
    match Next(s)
    case Some(ITailCall(n)) =>
      if s.status == Running then Machine.DoCall(lim, s.(ip := |s.heap[s.cl].fn.code| - 1), n) else s
    case _ => Step(lim, s)
  }

  function PlainRun(lim: Limits, s: State, n: nat): State
    decreases n
  {
    if n == 0 then s else PlainRun(lim, PlainStep(lim, s), n - 1)
  }

  // ----- the relation -----

  /** The frame has nothing left to do but to return. */
  ghost predicate Waiting(heap: seq<Closure>, f: CallFrame) {
    f.cl < |heap| && Decode(heap[f.cl].fn.code, f.ip) == Some(IReturn)
  }

  /** The saved frames sf and the stack sb below the running frame of the machine, and pf and pb of the
      one without tail calls: apart from frames that wait to return, they are the same frames with the
      same slots. */
  ghost predicate Below(heap: seq<Closure>, sf: seq<CallFrame>, sb: seq<Value>, pf: seq<CallFrame>, pb: seq<Value>)
    decreases pf
  {
    if pf == [] then sf == [] && sb == [] && pb == []
    else
      var f, init := pf[|pf| - 1], pf[..|pf| - 1];
      f.slots < |pb| &&
      ((Waiting(heap, f) && Below(heap, sf, sb, init, pb[..f.slots])) || SameCaller(heap, sf, sb, pf, pb))
  }

  ghost predicate SameCaller(heap: seq<Closure>, sf: seq<CallFrame>, sb: seq<Value>, pf: seq<CallFrame>, pb: seq<Value>)
    requires pf != [] && pf[|pf| - 1].slots < |pb|
    decreases pf, 0
  {
    sf != [] &&
    var f, g := pf[|pf| - 1], sf[|sf| - 1];
    && g.cl == f.cl && g.ip == f.ip && g.slots <= |sb| && sb[g.slots..] == pb[f.slots..]
    && Below(heap, sf[..|sf| - 1], sb[..g.slots], pf[..|pf| - 1], pb[..f.slots])
  }

  /** Both machines are running in the same frame. */
  ghost predicate Alike(s: State, p: State) {
    && s.status == Running && p.status == Running
    && s.cl == p.cl && s.ip == p.ip && s.heap == p.heap && s.trace == p.trace
    && s.slots <= |s.stack| && p.slots <= |p.stack| && s.stack[s.slots..] == p.stack[p.slots..]
    && Below(s.heap, s.frames, s.stack[..s.slots], p.frames, p.stack[..p.slots])
  }

  /** Both have stopped in the same way. */
  ghost predicate Together(s: State, p: State) {
    && s.status == p.status && s.status != Running && s.trace == p.trace
    && (s.status == Halted ==>
          |s.stack| > 0 && |p.stack| > 0 && s.stack[|s.stack| - 1] == p.stack[|p.stack| - 1])
  }

  ghost predicate AtLimit(s: State) {
    s.status == Failed(StackOverflow) || s.status == Failed(TooManyNestedCalls)
  }

  /** The machine without tail calls has reached a limit. */
  ghost predicate Cut(lim: Limits, p: State) {
    lim.Bounded? && AtLimit(p)
  }

  ghost predicate Within(lim: Limits, s: State) {
    lim.Bounded? ==> |s.stack| <= lim.stackSize && |s.frames| <= lim.callDepth
  }

  ghost predicate Related(lim: Limits, s: State, p: State) {
    Cut(lim, p) || Together(s, p) || (Alike(s, p) && Within(lim, p))
  }

  lemma {:induction false} BelowSizes(heap: seq<Closure>, sf: seq<CallFrame>, sb: seq<Value>, pf: seq<CallFrame>,
                                      pb: seq<Value>)
    requires Below(heap, sf, sb, pf, pb)
    ensures |sf| <= |pf| && |sb| <= |pb|
    decreases pf
  {
    hide Waiting;
    if pf != [] {
      var f, init := pf[|pf| - 1], pf[..|pf| - 1];
      if SameCaller(heap, sf, sb, pf, pb) {
        var g := sf[|sf| - 1];
        BelowSizes(heap, sf[..|sf| - 1], sb[..g.slots], init, pb[..f.slots]);
        assert |sb| - g.slots == |sb[g.slots..]| == |pb| - f.slots;
      } else {
        BelowSizes(heap, sf, sb, init, pb[..f.slots]);
      }
    }
  }

  lemma {:induction false} BelowLater(heap: seq<Closure>, c: Closure, sf: seq<CallFrame>, sb: seq<Value>,
                                      pf: seq<CallFrame>, pb: seq<Value>)
    requires Below(heap, sf, sb, pf, pb)
    ensures Below(heap + [c], sf, sb, pf, pb)
    decreases pf
  {
    hide Decode;
    if pf != [] {
      var f, init := pf[|pf| - 1], pf[..|pf| - 1];
      if SameCaller(heap, sf, sb, pf, pb) {
        BelowLater(heap, c, sf[..|sf| - 1], sb[..sf[|sf| - 1].slots], init, pb[..f.slots]);
        assert SameCaller(heap + [c], sf, sb, pf, pb);
      } else {
        BelowLater(heap, c, sf, sb, init, pb[..f.slots]);
      }
    }
  }

  // ----- instructions inside a frame -----

  predicate Inner(i: Instr) {
    !i.ICall? && !i.ITailCall? && !i.IReturn?
  }

  /** The running frame alone. */
  function Local(s: State): State
    requires s.slots <= |s.stack|
  {
    s.(stack := s.stack[s.slots..], frames := [], slots := 0)
  }

  /** The frame l on top of what lies below the frame of s. */
  function Over(s: State, l: State): State
    requires s.slots <= |s.stack|
  {
    l.(stack := s.stack[..s.slots] + l.stack, frames := s.frames, slots := s.slots)
  }

  lemma CaptureLocal(s: State, ns: seq<Nonlocal>, v: Value, captured: seq<Value>)
    requires s.slots <= |s.stack|
    ensures var stack, top := s.stack + [v], Local(s).stack + [v];
      && (CanCapture(ns, stack, s.slots, captured) <==> CanCapture(ns, top, 0, captured))
      && (CanCapture(ns, top, 0, captured) ==> Capture(ns, stack, s.slots, captured) == Capture(ns, top, 0, captured))
  {
    assert (s.stack + [v])[s.slots..] == Local(s).stack + [v];
    forall k: nat | k < |Local(s).stack| + 1 ensures (Local(s).stack + [v])[k] == (s.stack + [v])[s.slots + k] {
    }
  }

  lemma ClosureLocal(s: State, k: byte)
    requires s.status == Running && s.cl < |s.heap| && s.slots <= |s.stack|
    ensures MakeClosure(Unbounded, s, k) == Over(s, MakeClosure(Unbounded, Local(s), k))
  {
    hide CanCapture, Capture;
    var fns := s.heap[s.cl].fn.functions;
    assert s.stack == s.stack[..s.slots] + s.stack[s.slots..];
    if k < |fns| {
      CaptureLocal(s, fns[k].nonlocals, ClosureValue(|s.heap|), s.heap[s.cl].nonlocals);
      assert s.stack[..s.slots] + (s.stack[s.slots..] + [ClosureValue(|s.heap|)]) == s.stack + [ClosureValue(|s.heap|)];
    }
  }

  /** An instruction that pushes a value works on the running frame alone. */
  lemma PushLocal(s: State, i: Instr)
    requires s.status == Running && s.cl < |s.heap| && s.slots < |s.stack|
    requires i.IFalse? || i.ITrue? || i.IInt? || i.IConstant? || i.ILocal? || i.INonlocal?
    ensures Exec(Unbounded, s, i) == Over(s, Exec(Unbounded, Local(s), i))
  {
    OnTop(s);
    match i
    case ILocal(k) => LocalSlots(s);
    case _ =>
  }

  lemma ReplaceLocal(s: State, n: nat, p: Prim<Value>)
    requires s.slots <= |s.stack| && HasOperands(s, n) && 1 <= n <= 2
    ensures HasOperands(Local(s), n) && Replace(s, n, p) == Over(s, Replace(Local(s), n, p))
  {
    TopLocal(s, n);
    assert s.stack == s.stack[..s.slots] + Local(s).stack;
  }

  lemma OperandsLocal(s: State, i: Instr)
    requires s.status == Running && s.cl < |s.heap| && s.slots < |s.stack| && HasOperands(s, Needed(i))
    requires i.IBinary? || i.ITuple? || i.IUnary? || i.IJumpIfFalse?
    ensures Exec(Unbounded, s, i) == Over(s, Exec(Unbounded, Local(s), i))
  {
    hide BinaryOp, TypeOf, IsFalsy, Replace, Peek;
    TopLocal(s, Needed(i));
    var l := Local(s);
    assert s.stack == s.stack[..s.slots] + l.stack;
    match i
    case IBinary(op) => ReplaceLocal(s, 2, BinaryOp(op, Peek(s, 1), Peek(s, 0)));
    case ITuple => ReplaceLocal(s, 2, Done(TupleValue(Peek(s, 1), Peek(s, 0))));
    case IUnary(First) =>
      ReplaceLocal(s, 1, if Peek(s, 0).TupleValue? then Done(Peek(s, 0).first) else Bad(NoFirst(TypeOf(Peek(s, 0)))));
    case IUnary(Second) =>
      ReplaceLocal(s, 1, if Peek(s, 0).TupleValue? then Done(Peek(s, 0).second) else Bad(NoSecond(TypeOf(Peek(s, 0)))));
    case _ =>
  }

  /** An instruction that neither calls nor returns works on the running frame alone. */
  lemma ExecLocal(s: State, i: Instr)
    requires s.status == Running && s.cl < |s.heap| && s.slots < |s.stack| && Inner(i) && HasOperands(s, Needed(i))
    ensures Exec(Unbounded, s, i) == Over(s, Exec(Unbounded, Local(s), i))
  {
    hide BinaryOp, TypeOf, IsFalsy, MakeClosure, Replace, Peek, Push, Load, DoUnary;
    match i
    case IClosure(k) => ClosureLocal(s, k);
    case IBinary(_) => OperandsLocal(s, i);
    case ITuple => OperandsLocal(s, i);
    case IUnary(_) => OperandsLocal(s, i);
    case IJumpIfFalse(_) => OperandsLocal(s, i);
    case IJump(_) => assert s.stack == s.stack[..s.slots] + Local(s).stack;
    case INop => assert s.stack == s.stack[..s.slots] + Local(s).stack;
    case _ => PushLocal(s, i);
  }

  lemma OnTop(s: State)
    requires s.slots <= |s.stack|
    ensures forall v :: s.stack[..s.slots] + (Local(s).stack + [v]) == s.stack + [v]
  {
  }

  lemma LocalSlots(s: State)
    requires s.slots <= |s.stack|
    ensures forall k: nat :: k < |Local(s).stack| ==> Local(s).stack[k] == s.stack[s.slots + k]
  {
  }

  lemma TopLocal(s: State, n: nat)
    requires s.slots <= |s.stack| && HasOperands(s, n) && 1 <= n <= 2
    ensures var l := Local(s);
      && HasOperands(l, n) && s.stack[..|s.stack| - n] == s.stack[..s.slots] + l.stack[..|l.stack| - n]
      && (forall v :: s.stack[..|s.stack| - n] + [v] == s.stack[..s.slots] + (l.stack[..|l.stack| - n] + [v]))
      && forall k: nat :: k < n ==> Peek(s, k) == Peek(l, k)
  {
  }

  /** i pushes a value, if there is room. */
  predicate Pushing(l: State, i: Instr)
    requires l.cl < |l.heap|
  {
    match i
    case IFalse | ITrue | IInt(_) => true
    case IConstant(k) => k < |l.heap[l.cl].fn.constants|
    case IClosure(k) => k < |l.heap[l.cl].fn.functions|
    case ILocal(k) => l.slots + k < |l.stack|
    case INonlocal(k) => k < |l.heap[l.cl].nonlocals|
    case _ => false
  }

  lemma ExecLimit(lim: Limits, s: State, i: Instr)
    requires s.status == Running && s.cl < |s.heap| && Inner(i)
    ensures Exec(lim, s, i) ==
      if lim.Bounded? && |s.stack| == lim.stackSize && Pushing(s, i) then Fail(s, StackOverflow)
      else Exec(Unbounded, s, i)
  {
    hide BinaryOp, TypeOf, IsFalsy, CanCapture, Capture, Peek;
  }

  lemma ExecGrows(s: State, i: Instr)
    requires s.status == Running && s.cl < |s.heap| && Inner(i)
    ensures var r := Exec(Unbounded, s, i);
      && r.frames == s.frames && |r.stack| <= |s.stack| + (if Pushing(s, i) then 1 else 0)
      && r.status != Halted && (r.status == Running ==> r.slots == s.slots)
      && (r.heap == s.heap || exists c :: r.heap == s.heap + [c])
  {
    hide BinaryOp, TypeOf, IsFalsy, CanCapture, Capture, Peek;
    var r := Exec(Unbounded, s, i);
    if i.IClosure? && r.heap != s.heap {
      assert r.heap == s.heap + [r.heap[|s.heap|]];
    }
  }

  lemma OverAlike(lim: Limits, s: State, p: State, r: State)
    requires Alike(s, p) && r.status == Running && Within(lim, Over(p, r))
    requires r.heap == s.heap || exists c :: r.heap == s.heap + [c]
    ensures Alike(Over(s, r), Over(p, r))
  {
    hide Within;
    if r.heap != s.heap {
      var c :| r.heap == s.heap + [c];
      BelowLater(s.heap, c, s.frames, s.stack[..s.slots], p.frames, p.stack[..p.slots]);
    }
    hide Below;
    assert Over(s, r).stack[..s.slots] == s.stack[..s.slots] && Over(p, r).stack[..p.slots] == p.stack[..p.slots];
  }

  lemma InnerAlike(lim: Limits, s: State, p: State, i: Instr)
    requires Alike(s, p) && Within(lim, p) && s.cl < |s.heap|
    requires Inner(i) && s.slots < |s.stack| && HasOperands(s, Needed(i))
    ensures Related(lim, Exec(lim, s, i), Exec(lim, p, i))
  {
    hide Exec, Below;
    var l := Local(s);
    assert l == Local(p) && |s.stack| - s.slots == |p.stack| - p.slots;
    assert Pushing(s, i) == Pushing(p, i);
    BelowSizes(s.heap, s.frames, s.stack[..s.slots], p.frames, p.stack[..p.slots]);
    ExecLimit(lim, s, i);
    ExecLimit(lim, p, i);
    if !(lim.Bounded? && |p.stack| == lim.stackSize && Pushing(p, i)) {
      ExecLocal(s, i);
      ExecLocal(p, i);
      ExecGrows(s, i);
      ExecGrows(p, i);
      var r := Exec(Unbounded, l, i);
      hide Pushing;
      if r.status == Running {
        OverAlike(lim, s, p, r);
      }
    }
  }

  // ----- calls -----

  lemma Slices<T>(a: seq<T>, i: nat, k: nat)
    requires i + k <= |a|
    ensures a[i..][k..] == a[i + k..] && a[i..][..k] == a[i..i + k]
  {
  }

  lemma CallSame(s: State, p: State, n: nat)
    requires Alike(s, p) && HasOperands(s, n + 1)
    ensures HasOperands(p, n + 1) && CheckCall(s, n) == CheckCall(p, n)
    ensures s.stack[|s.stack| - 1 - n..] == p.stack[|p.stack| - 1 - n..]
    ensures var k := |s.stack| - 1 - n - s.slots;
      k > 0 && s.stack[s.slots..s.slots + k] == p.stack[p.slots..p.slots + k] && p.slots + k == |p.stack| - 1 - n
  {
    hide Below;
    var l, m := s.stack[s.slots..], p.stack[p.slots..];
    var k := |l| - 1 - n;
    assert s.stack[s.slots + k] == l[k] == m[k] == p.stack[p.slots + k];
    Slices(s.stack, s.slots, k);
    Slices(p.stack, p.slots, k);
  }

  /** The same frame is saved on both sides. */
  lemma BelowCall(heap: seq<Closure>, sf: seq<CallFrame>, sb: seq<Value>, pf: seq<CallFrame>, pb: seq<Value>,
                  g: CallFrame, f: CallFrame)
    requires g.slots <= |sb| && f.slots < |pb| && g == f.(slots := g.slots) && sb[g.slots..] == pb[f.slots..]
    requires Below(heap, sf, sb[..g.slots], pf, pb[..f.slots])
    ensures Below(heap, sf + [g], sb, pf + [f], pb)
  {
    var sf1, pf1 := sf + [g], pf + [f];
    assert sf1[..|sf1| - 1] == sf && pf1[..|pf1| - 1] == pf;
    assert SameCaller(heap, sf1, sb, pf1, pb);
  }

  /** What a call does when its checks succeed. */
  lemma CallDone(lim: Limits, s: State, n: nat)
    requires HasOperands(s, n + 1) && CheckCall(s, n).Done?
    ensures Machine.DoCall(lim, s, n) ==
      if lim.Bounded? && |s.frames| == lim.callDepth then Fail(s, TooManyNestedCalls)
      else s.(frames := s.frames + [CallFrame(s.cl, s.ip, s.slots)], cl := CheckCall(s, n).result, ip := 0,
              slots := |s.stack| - 1 - n)
  {
    hide CheckCall;
  }

  /** A call: both machines save the same frame. */
  lemma CallAlike(lim: Limits, s: State, p: State, n: byte)
    requires Alike(s, p) && Within(lim, p) && HasOperands(s, n + 1)
    ensures Related(lim, Machine.DoCall(lim, s, n), Machine.DoCall(lim, p, n))
  {
    hide CheckCall, Below;
    CallSame(s, p, n);
    BelowSizes(s.heap, s.frames, s.stack[..s.slots], p.frames, p.stack[..p.slots]);
    if CheckCall(s, n).Done? {
      CallDone(lim, s, n);
      CallDone(lim, p, n);
      var s1, p1 := Machine.DoCall(lim, s, n), Machine.DoCall(lim, p, n);
      hide Machine.DoCall;
      if p1.status == Running {
        var sb, pb := s1.stack[..s1.slots], p1.stack[..p1.slots];
        assert sb[..s.slots] == s.stack[..s.slots] && pb[..p.slots] == p.stack[..p.slots];
        assert sb[s.slots..] == s.stack[s.slots..s1.slots] == p.stack[p.slots..p1.slots] == pb[p.slots..];
        BelowCall(s.heap, s.frames, sb, p.frames, pb, CallFrame(s.cl, s.ip, s.slots), CallFrame(p.cl, p.ip, p.slots));
      }
    }
  }

  /** A tail call: the machine replaces its frame, the other one saves it and lets it wait. */
  lemma TailCallAlike(lim: Limits, s: State, p: State, n: byte)
    requires Alike(s, p) && Within(lim, p) && HasOperands(s, n + 1) && s.cl < |s.heap|
    requires var code := s.heap[s.cl].fn.code; |code| > 0 && Decode(code, |code| - 1) == Some(IReturn)
    ensures Related(lim, Machine.DoTailCall(s, n), Machine.DoCall(lim, p.(ip := |s.heap[s.cl].fn.code| - 1), n))
  {
    hide CheckCall, Decode;
    CallSame(s, p, n);
    var q := p.(ip := |s.heap[s.cl].fn.code| - 1);
    assert CheckCall(q, n) == CheckCall(p, n) by { CheckIp(p, q, n); }
    var s1, p1 := Machine.DoTailCall(s, n), Machine.DoCall(lim, q, n);
    if CheckCall(s, n).Done? && !Cut(lim, p1) {
      var pb := p1.stack[..p1.slots];
      assert p1.frames[..|p.frames|] == p.frames && pb[..p.slots] == p.stack[..p.slots];
      assert s1.stack[..s1.slots] == s.stack[..s.slots];
      assert Waiting(s.heap, p1.frames[|p.frames|]);
      assert Alike(s1, p1);
    }
  }

  lemma CheckIp(p: State, q: State, n: nat)
    requires HasOperands(p, n + 1) && q == p.(ip := q.ip)
    ensures CheckCall(q, n) == CheckCall(p, n)
  {
  }

  // ----- returns -----

  lemma PlainReturn(lim: Limits, p: State)
    requires p.status == Running && Next(p) == Some(IReturn)
    ensures PlainStep(lim, p) == Machine.DoReturn(p.(ip := p.ip + 1))
  {
    hide Decode;
  }

  /** A frame that returns, and what is then on the stack of its caller. */
  lemma ReturnTo(lim: Limits, p: State, v: Value)
    requires p.status == Running && Next(p) == Some(IReturn) && HasOperands(p, 1) && p.stack[|p.stack| - 1] == v
    requires p.frames != [] && p.frames[|p.frames| - 1].slots < p.slots
    ensures var f, pb, p1 := p.frames[|p.frames| - 1], p.stack[..p.slots], PlainStep(lim, p);
      && p1 == State(pb + [v], p.frames[..|p.frames| - 1], f.cl, f.ip, f.slots, p.heap, p.trace, Running)
      && p1.stack[..f.slots] == pb[..f.slots] && p1.stack[f.slots..] == pb[f.slots..] + [v]
  {
    hide Decode;
    PlainReturn(lim, p);
    hide PlainStep;
  }

  lemma PlainRunNext(lim: Limits, p: State, k: nat)
    ensures PlainRun(lim, p, k + 1) == PlainRun(lim, PlainStep(lim, p), k)
    ensures PlainRun(lim, PlainStep(lim, p), 0) == PlainStep(lim, p)
  {
    hide PlainStep;
  }

  lemma PlainHalts(p: State)
    requires p.frames == []
    ensures Machine.DoReturn(p) == p.(status := Halted)
  {
  }

  /** A returning frame of the machine without tail calls: the frames that wait return as well, down to
      the caller in the other machine. */
  lemma {:induction false} Unwind(lim: Limits, sf: seq<CallFrame>, sb: seq<Value>, p: State, v: Value)
    returns (j: nat, q: State)
    requires p.status == Running && Next(p) == Some(IReturn) && Within(lim, p)
    requires HasOperands(p, 1) && p.stack[|p.stack| - 1] == v
    requires Below(p.heap, sf, sb, p.frames, p.stack[..p.slots])
    ensures q == PlainRun(lim, p, j) && j > 0 && Within(lim, q)
    ensures q.trace == p.trace && q.heap == p.heap && |q.stack| > 0
    ensures if sf == [] then q.status == Halted && q.stack[|q.stack| - 1] == v
            else
              var g := sf[|sf| - 1];
              && q.status == Running && q.cl == g.cl && q.ip == g.ip && q.slots <= |q.stack| && g.slots <= |sb|
              && q.stack[q.slots..] == sb[g.slots..] + [v]
              && Below(p.heap, sf[..|sf| - 1], sb[..g.slots], q.frames, q.stack[..q.slots])
    decreases |p.frames|
  {
    PlainReturn(lim, p);
    var p1, pb := PlainStep(lim, p), p.stack[..p.slots];
    PlainRunNext(lim, p, 0);
    hide PlainStep, Decode, Machine.DoReturn, Peek, PlainRun;
    if p.frames == [] {
      PlainHalts(p.(ip := p.ip + 1));
      return 1, p1;
    }
    ReturnTo(lim, p, v);
    if SameCaller(p.heap, sf, sb, p.frames, pb) {
      return 1, p1;
    }
    var k, q1 := Unwind(lim, sf, sb, p1, v);
    PlainRunNext(lim, p, k);
    return k + 1, q1;
  }

  // ----- runs -----

  /** One step of the machine is one or more of the machine without tail calls. */
  lemma StepAlike(lim: Limits, s: State, p: State) returns (j: nat, q: State)
    requires Alike(s, p) && Within(lim, p) && Inv(s)
    ensures q == PlainRun(lim, p, j) && j > 0 && Related(lim, Step(lim, s), q)
  {
    hide Below, Before, Decode, Encode, Exec, Stands, SavedStand, TreeOk;
    var i := BeforeStep(s);
    var s1, p1 := s.(ip := s.ip + |Encode(i)|), p.(ip := p.ip + |Encode(i)|);
    Ready(s1, i);
    if i.IReturn? {
      j, q := ReturnAlike(lim, s, p);
    } else {
      j, q := 1, PlainStep(lim, p);
      assert PlainRun(lim, p, 1) == PlainRun(lim, q, 0) == q;
      assert Alike(s1, p1);
      hide PlainRun, Alike, Within;
      match i
      case ITailCall(n) =>
        TreeEnd(s1);
        TailCallAlike(lim, s1, p1, n);
        ExecCalls(lim, s1, i);
        assert q == Machine.DoCall(lim, p1.(ip := |s1.heap[s1.cl].fn.code| - 1), n);
      case ICall(n) =>
        CallAlike(lim, s1, p1, n);
        ExecCalls(lim, s1, i);
        ExecCalls(lim, p1, i);
      case _ => InnerAlike(lim, s1, p1, i);
    }
  }

  lemma Ready(s: State, i: Instr)
    requires Before(s, i)
    ensures s.cl < |s.heap| && s.status == Running && HasOperands(s, Needed(i)) && s.slots < |s.stack|
    ensures forall c | c in s.heap :: TreeOk(c.fn)
  {
    hide Stands, SavedStand, TreeOk;
  }

  lemma TreeEnd(s: State)
    requires s.cl < |s.heap| && forall c | c in s.heap :: TreeOk(c.fn)
    ensures var code := s.heap[s.cl].fn.code; |code| > 0 && Decode(code, |code| - 1) == Some(IReturn)
  {
    hide TreeOk;
    assert s.heap[s.cl] in s.heap;
    TreeStands(s.heap[s.cl].fn);
  }

  lemma ExecCalls(lim: Limits, s: State, i: Instr)
    requires s.cl < |s.heap|
    ensures i.ITailCall? ==> Exec(lim, s, i) == Machine.DoTailCall(s, i.nargs)
    ensures i.ICall? ==> Exec(lim, s, i) == Machine.DoCall(lim, s, i.nargs)
  {
  }

  lemma ReturnAlike(lim: Limits, s: State, p: State) returns (j: nat, q: State)
    requires Alike(s, p) && Within(lim, p) && Next(s) == Some(IReturn) && HasOperands(s, 1)
    ensures q == PlainRun(lim, p, j) && j > 0 && Related(lim, Step(lim, s), q)
  {
    hide Decode, Below;
    var v := s.stack[|s.stack| - 1];
    assert s.stack[s.slots..][|s.stack| - s.slots - 1] == p.stack[p.slots..][|s.stack| - s.slots - 1];
    j, q := Unwind(lim, s.frames, s.stack[..s.slots], p, v);
    var s1 := Step(lim, s);
    assert s1 == Machine.DoReturn(s.(ip := s.ip + 1));
    if s.frames != [] {
      var g := s.frames[|s.frames| - 1];
      assert s1.stack == s.stack[..s.slots] + [v];
      assert s1.stack[..g.slots] == s.stack[..s.slots][..g.slots];
      assert s1.stack[g.slots..] == s.stack[..s.slots][g.slots..] + [v];
      assert Alike(s1, q);
    }
  }

  lemma {:induction false} PlainStays(lim: Limits, p: State, n: nat)
    requires p.status != Running
    ensures PlainRun(lim, p, n) == p
    decreases n
  {
    hide Decode;
    if n > 0 {
      PlainStays(lim, p, n - 1);
    }
  }

  lemma {:induction false} PlainSum(lim: Limits, p: State, m: nat, n: nat)
    ensures PlainRun(lim, p, m + n) == PlainRun(lim, PlainRun(lim, p, m), n)
    decreases m
  {
    hide PlainStep;
    if m > 0 {
      PlainSum(lim, PlainStep(lim, p), m - 1, n);
    }
  }

  /** A whole run of the machine, and the run without tail calls that goes with it. */
  lemma {:induction false} RunAlike(lim: Limits, s: State, p: State, n: nat) returns (k: nat, q: State)
    requires Alike(s, p) && Within(lim, p) && Inv(s)
    ensures q == PlainRun(lim, p, k) && Related(lim, Run(lim, s, n), q)
    ensures q.status == Running ==> k >= n
    decreases n
  {
    hide Alike, Within, Inv, Step, PlainStep;
    if n == 0 {
      return 0, p;
    }
    var s1 := Step(lim, s);
    var j, p1 := StepAlike(lim, s, p);
    StepKeeps(lim, s);
    if Cut(lim, p1) {
      return j, p1;
    }
    if Together(s1, p1) {
      FinalStays(lim, s1, n - 1);
      return j, p1;
    }
    var i, p2 := RunAlike(lim, s1, p1, n - 1);
    PlainSum(lim, p, j, i);
    return j + i, p2;
  }

  lemma ProgramAlike(m: Mode, lim: Limits, program: Term, main: CompiledFunction, n: nat) returns (k: nat, q: State)
    requires m.emit && CompileProgram(m, program) == Ok(main)
    ensures q == PlainRun(lim, Start(lim, main), k) && Related(lim, Run(lim, Start(lim, main), n), q)
    ensures q.status == Running ==> k >= n
  {
    hide Run, PlainRun, CompileProgram, Inv;
    StartInv(m, lim, program, main);
    var s := Start(lim, main);
    if s.status == Running {
      k, q := RunAlike(lim, s, s, n);
    } else {
      FinalStays(lim, s, n);
      PlainStays(lim, s, n);
      k, q := n, s;
    }
  }

  /** The run without tail calls that has stopped after k steps, and the machine after as many. */
  lemma PlainStopped(m: Mode, lim: Limits, program: Term, main: CompiledFunction, k: nat)
    requires m.emit && CompileProgram(m, program) == Ok(main)
    requires PlainRun(lim, Start(lim, main), k).status != Running
    ensures var p := PlainRun(lim, Start(lim, main), k); Cut(lim, p) || Together(Run(lim, Start(lim, main), k), p)
  {
    hide Run, PlainRun, CompileProgram, Alike, Start;
    var s, p := Start(lim, main), PlainRun(lim, Start(lim, main), k);
    var j, q := ProgramAlike(m, lim, program, main, k);
    assert q.status != Running && q == p by {
      if j <= k {
        PlainSum(lim, s, j, k - j);
        if q.status != Running {
          PlainStays(lim, q, k - j);
        }
      } else {
        PlainSum(lim, s, k, j - k);
        PlainStays(lim, p, j - k);
      }
    }
    assert !Alike(Run(lim, s, k), q) by { AlikeRuns(Run(lim, s, k), q); }
  }

  lemma AlikeRuns(s: State, p: State)
    ensures Alike(s, p) ==> s.status == Running && p.status == Running
  {
  }

  // ----- whole programs -----

  ghost predicate PlainEnds(lim: Limits, main: CompiledFunction, o: Outcome<Value>, trace: seq<Event>) {
    exists k: nat :: Ended(PlainRun(lim, Start(lim, main), k), o, trace)
  }

  ghost predicate PlainDiverges(lim: Limits, main: CompiledFunction) {
    forall k: nat :: PlainRun(lim, Start(lim, main), k).status == Running
  }

  lemma TogetherEnded(s: State, p: State, o: Outcome<Value>, trace: seq<Event>)
    requires Together(s, p)
    ensures Ended(s, o, trace) <==> Ended(p, o, trace)
  {
  }

  lemma EndedStopped(s: State, o: Outcome<Value>, trace: seq<Event>)
    requires Ended(s, o, trace)
    ensures s.status != Running
  {
  }

  /** When the machine has stopped, so has the one without tail calls at some point. */
  lemma StoppedTogether(m: Mode, program: Term, main: CompiledFunction, k: nat) returns (j: nat)
    requires m.emit && CompileProgram(m, program) == Ok(main)
    requires Run(Unbounded, Start(Unbounded, main), k).status != Running
    ensures Together(Run(Unbounded, Start(Unbounded, main), k), PlainRun(Unbounded, Start(Unbounded, main), j))
  {
    hide Run, PlainRun, CompileProgram, Alike, Start, Together;
    var q;
    j, q := ProgramAlike(m, Unbounded, program, main, k);
    AlikeRuns(Run(Unbounded, Start(Unbounded, main), k), q);
  }

  lemma EndsPlain(m: Mode, program: Term, main: CompiledFunction, o: Outcome<Value>, trace: seq<Event>)
    requires m.emit && CompileProgram(m, program) == Ok(main) && MachineEnds(Unbounded, main, o, trace)
    ensures PlainEnds(Unbounded, main, o, trace)
  {
    hide Run, PlainRun, CompileProgram, Start, Together, Ended;
    var s := Start(Unbounded, main);
    var k: nat :| Ended(Run(Unbounded, s, k), o, trace);
    EndedStopped(Run(Unbounded, s, k), o, trace);
    var j := StoppedTogether(m, program, main, k);
    TogetherEnded(Run(Unbounded, s, k), PlainRun(Unbounded, s, j), o, trace);
  }

  lemma PlainEndsSame(m: Mode, lim: Limits, program: Term, main: CompiledFunction, o: Outcome<Value>, trace: seq<Event>)
    requires m.emit && CompileProgram(m, program) == Ok(main) && PlainEnds(lim, main, o, trace)
    requires lim.Unbounded? || !(o.Error? && IsLimit(o.error))
    ensures MachineEnds(lim, main, o, trace)
  {
    hide Run, PlainRun, CompileProgram, Start, Together;
    var s := Start(lim, main);
    var k: nat :| Ended(PlainRun(lim, s, k), o, trace);
    PlainStopped(m, lim, program, main, k);
    TogetherEnded(Run(lim, s, k), PlainRun(lim, s, k), o, trace);
  }

  lemma DivergesPlain(m: Mode, program: Term, main: CompiledFunction)
    requires m.emit && CompileProgram(m, program) == Ok(main)
    ensures MachineDiverges(Unbounded, main) <==> PlainDiverges(Unbounded, main)
  {
    hide Run, PlainRun, CompileProgram, Start, Together;
    var s := Start(Unbounded, main);
    if k: nat :| Run(Unbounded, s, k).status != Running {
      var j := StoppedTogether(m, program, main, k);
      TogetherStopped(Run(Unbounded, s, k), PlainRun(Unbounded, s, j));
    }
    if k: nat :| PlainRun(Unbounded, s, k).status != Running {
      PlainStopped(m, Unbounded, program, main, k);
      TogetherStopped(Run(Unbounded, s, k), PlainRun(Unbounded, s, k));
    }
  }

  /** Tail calls change nothing but the depth of the callstack: every compiled program ends with the
      same result after the same trace, or runs forever, whether they are made or not. */
  lemma TailCallsTransparent(m: Mode, program: Term, main: CompiledFunction, o: Outcome<Value>, trace: seq<Event>)
    requires m.emit && CompileProgram(m, program) == Ok(main)
    ensures MachineEnds(Unbounded, main, o, trace) <==> PlainEnds(Unbounded, main, o, trace)
    ensures MachineDiverges(Unbounded, main) <==> PlainDiverges(Unbounded, main)
  {
    hide *;
    if MachineEnds(Unbounded, main, o, trace) {
      EndsPlain(m, program, main, o, trace);
    }
    if PlainEnds(Unbounded, main, o, trace) {
      PlainEndsSame(m, Unbounded, program, main, o, trace);
    }
    DivergesPlain(m, program, main);
  }

  lemma TogetherStopped(s: State, p: State)
    requires Together(s, p)
    ensures s.status == p.status != Running && s.trace == p.trace
  {
  }

  /** With any sizes: if the machine reports a limit, so does the one without tail calls; and if that
      one ends otherwise, the machine ends the same way. */
  lemma TailCallsNeverWorse(m: Mode, lim: Limits, program: Term, main: CompiledFunction)
    requires m.emit && CompileProgram(m, program) == Ok(main)
    ensures (exists n: nat :: AtLimit(Run(lim, Start(lim, main), n))) ==>
      exists k: nat :: AtLimit(PlainRun(lim, Start(lim, main), k))
    ensures forall o, trace ::
      PlainEnds(lim, main, o, trace) && o != Error(StackOverflow) && o != Error(TooManyNestedCalls) ==>
      MachineEnds(lim, main, o, trace)
  {
    hide Run, PlainRun, CompileProgram, Alike, Start, Together;
    var s := Start(lim, main);
    if n: nat :| AtLimit(Run(lim, s, n)) {
      var k, q := ProgramAlike(m, lim, program, main, n);
      AlikeRuns(Run(lim, s, n), q);
      if Together(Run(lim, s, n), q) {
        TogetherStopped(Run(lim, s, n), q);
      }
      assert AtLimit(PlainRun(lim, s, k));
    }
    forall o, trace |
      PlainEnds(lim, main, o, trace) && o != Error(StackOverflow) && o != Error(TooManyNestedCalls)
      ensures MachineEnds(lim, main, o, trace)
    {
      PlainEndsSame(m, lim, program, main, o, trace);
    }
  }
}
