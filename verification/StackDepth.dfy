/** The bounds of module StackBound hold in every state of every run. */
module StackDepth {
  import opened Values
  import opened Syntax
  import opened Bytecode
  import opened Codegen
  import opened Boundaries
  import opened Dumps
  import opened Machine
  import opened StackBound

  /** Position ip of fn is the start of an instruction before which `height` slots may be in use. */
  ghost predicate Point(fn: CompiledFunction, ip: nat, height: int, max: int) {
    exists s, hs, a, k ::
      CodeFits(fn, s, hs, a, max) && 0 <= k <= |s| == |hs| &&
      ip == Offset(s + [IReturn], k) && height <= BoundAt(hs, k, a)
  }

  ghost predicate FrameFits(heap: seq<Closure>, cl: nat, ip: nat, height: int, max: int) {
    cl < |heap| && Point(heap[cl].fn, ip, height, max)
  }

  /** In every saved frame, when its call returns, the slots in use are within the bound of its code.
      The frame above the saved ones starts at `slots`; the callee and its arguments leave one value. */
  ghost predicate SavedFit(heap: seq<Closure>, frames: seq<CallFrame>, slots: int, max: int) {
    if frames == [] then slots == 0
    else
      var f := frames[|frames| - 1];
      FrameFits(heap, f.cl, f.ip, slots + 1 - f.slots, max) && SavedFit(heap, frames[..|frames| - 1], f.slots, max)
  }

  ghost predicate HeapFits(heap: seq<Closure>, max: int) {
    forall c | c in heap :: TreeFits(c.fn, max)
  }

  ghost predicate Inv(s: State, max: int) {
    && HeapFits(s.heap, max) && SavedFit(s.heap, s.frames, s.slots, max)
    && (s.status == Running ==> FrameFits(s.heap, s.cl, s.ip, |s.stack| - s.slots, max))
  }

  // ----- one instruction -----

  lemma PointBound(fn: CompiledFunction, ip: nat, height: int, max: int)
    requires Point(fn, ip, height, max)
    ensures height <= max
  {
    hide EncodeAll, Offset, JumpFlows;
  }

  lemma StartPoint(fn: CompiledFunction, max: int)
    requires TreeFits(fn, max)
    ensures Point(fn, 0, 1 + fn.arity, max)
  {
    hide TreeFits, EncodeAll, Offset, JumpFlows;
    assert exists s, hs, a :: CodeFits(fn, s, hs, a, max) by { TreeCode(fn, max); }
    var s, hs, a :| CodeFits(fn, s, hs, a, max);
    OffsetEnds(s + [IReturn]);
    assert 1 + fn.arity as int <= BoundAt(hs, 0, a);
  }

  lemma TreeCode(fn: CompiledFunction, max: int)
    requires TreeFits(fn, max)
    ensures exists s, hs, a :: CodeFits(fn, s, hs, a, max)
    ensures forall f | f in fn.functions :: TreeFits(f, max)
  {
    hide CodeFits;
  }

  /** From a point, the instruction there leads to the points it can continue at. */
  lemma PointInstr(fn: CompiledFunction, ip: nat, height: int, max: int) returns (i: Instr)
    requires Point(fn, ip, height, max)
    ensures Decode(fn.code, ip) == Some(i)
    ensures !NoFallThrough(i) ==> Point(fn, ip + |Encode(i)|, height + Effect(i), max)
    ensures JumpTarget(i).Some? ==> Point(fn, JumpTarget(i).value, height + Effect(i), max)
  {
    hide EncodeAll, Offset, Encode, Decode;
    var s, hs, a, k :|
      CodeFits(fn, s, hs, a, max) && 0 <= k <= |s| == |hs| &&
      ip == Offset(s + [IReturn], k) && height <= BoundAt(hs, k, a);
    i := (s + [IReturn])[k];
    InstrAt(s + [IReturn], k);
    if k < |s| {
      assert JumpFlows(s, 0, hs, a, k);
      if JumpTarget(i).Some? {
        var j :|
          k < j <= |s| && JumpTarget(s[k]).value == 0 + Offset(s, j) && hs[k] + Effect(s[k]) <= BoundAt(hs, j, a);
        OffsetJoin(s, [IReturn], j);
      }
    }
    hide JumpFlows;
  }

  // ----- the invariant -----

  lemma {:induction false} SavedFitLater(heap: seq<Closure>, c: Closure, frames: seq<CallFrame>, slots: int, max: int)
    requires SavedFit(heap, frames, slots, max)
    ensures SavedFit(heap + [c], frames, slots, max)
    decreases frames
  {
    hide Point;
    if frames != [] {
      var f := frames[|frames| - 1];
      SavedFitLater(heap, c, frames[..|frames| - 1], f.slots, max);
    }
  }

  lemma FrameFitsLater(heap: seq<Closure>, c: Closure, cl: nat, ip: nat, height: int, max: int)
    requires FrameFits(heap, cl, ip, height, max)
    ensures FrameFits(heap + [c], cl, ip, height, max)
  {
    hide Point;
  }

  /** The machine before the instruction i is executed, with the instruction pointer past it. */
  ghost predicate Before(s: State, i: Instr, max: int) {
    && HeapFits(s.heap, max) && SavedFit(s.heap, s.frames, s.slots, max) && s.status == Running && s.cl < |s.heap|
    && (!NoFallThrough(i) ==> FrameFits(s.heap, s.cl, s.ip, |s.stack| - s.slots + Effect(i), max))
    && (JumpTarget(i).Some? ==> FrameFits(s.heap, s.cl, JumpTarget(i).value, |s.stack| - s.slots + Effect(i), max))
  }

  /** What a closure instruction does, apart from the captured values. */
  lemma ClosureExec(lim: Limits, s: State, k: byte)
    requires s.cl < |s.heap| && s.status == Running
    ensures var r := MakeClosure(lim, s, k);
      && r.frames == s.frames && r.slots == s.slots
      && (r.status != Running ==> r.heap == s.heap)
      && (r.status == Running ==>
            && r.ip == s.ip && r.cl == s.cl && |r.stack| == |s.stack| + 1
            && exists c :: r.heap == s.heap + [c] && c.fn in s.heap[s.cl].fn.functions)
  {
    hide CanCapture, Capture;
    var r := MakeClosure(lim, s, k);
    if r.status == Running {
      assert r.heap == s.heap + [r.heap[|s.heap|]];
    }
  }

  lemma ClosureKeeps(lim: Limits, s: State, k: byte, max: int)
    requires Before(s, IClosure(k), max)
    ensures Inv(MakeClosure(lim, s, k), max)
  {
    hide FrameFits, SavedFit, TreeFits, MakeClosure;
    ClosureExec(lim, s, k);
    var r := MakeClosure(lim, s, k);
    if r.status == Running {
      var c :| r.heap == s.heap + [c] && c.fn in s.heap[s.cl].fn.functions;
      assert s.heap[s.cl] in s.heap;
      TreeCode(s.heap[s.cl].fn, max);
      SavedFitLater(s.heap, c, s.frames, s.slots, max);
      FrameFitsLater(s.heap, c, s.cl, s.ip, |r.stack| - r.slots, max);
    }
  }

  /** What a call does when it succeeds: the callee and n arguments become the new frame. */
  lemma CallExec(lim: Limits, s: State, n: byte)
    requires s.status == Running
    ensures var r := Machine.DoCall(lim, s, n);
      && r.heap == s.heap && (r.status == s.status || (r.frames == s.frames && r.slots == s.slots))
      && (r.status == s.status ==>
            && r.frames == s.frames + [CallFrame(s.cl, s.ip, s.slots)] && r.slots == |s.stack| - 1 - n
            && |r.stack| - r.slots == n + 1 && r.ip == 0 && r.cl < |s.heap| && s.heap[r.cl].fn.arity == n)
  {
    hide Peek, TypeOf;
  }

  lemma CallKeeps(lim: Limits, s: State, n: byte, max: int)
    requires Before(s, ICall(n), max)
    ensures Inv(Machine.DoCall(lim, s, n), max)
  {
    hide Point, TreeFits, Machine.DoCall;
    CallExec(lim, s, n);
    var r := Machine.DoCall(lim, s, n);
    if r.status == Running {
      assert s.heap[r.cl] in s.heap;
      StartPoint(s.heap[r.cl].fn, max);
      assert r.frames[..|s.frames|] == s.frames;
    }
  }

  lemma TailCallExec(s: State, n: byte)
    requires s.status == Running
    ensures var r := Machine.DoTailCall(s, n);
      && r.heap == s.heap && r.frames == s.frames && r.slots == s.slots
      && (r.status == Running ==>
            |r.stack| - r.slots == n + 1 && r.ip == 0 && r.cl < |s.heap| && s.heap[r.cl].fn.arity == n)
  {
    hide Peek, TypeOf;
  }

  lemma TailCallKeeps(s: State, n: byte, max: int)
    requires Before(s, ITailCall(n), max)
    ensures Inv(Machine.DoTailCall(s, n), max)
  {
    hide Point, TreeFits, SavedFit, Machine.DoTailCall;
    TailCallExec(s, n);
    var r := Machine.DoTailCall(s, n);
    if r.status == Running {
      assert s.heap[r.cl] in s.heap;
      StartPoint(s.heap[r.cl].fn, max);
    }
  }

  lemma ReturnKeeps(s: State, max: int)
    requires Before(s, IReturn, max)
    ensures Inv(Machine.DoReturn(s), max)
  {
    hide Point, TreeFits, Peek;
  }

  /** The other instructions change only the top of the stack. */
  predicate IsPlain(i: Instr) {
    !i.IClosure? && !i.ICall? && !i.ITailCall? && !i.IReturn?
  }

  lemma PlainExec(lim: Limits, s: State, i: Instr)
    requires s.cl < |s.heap| && s.status == Running && IsPlain(i)
    ensures var r := Exec(lim, s, i);
      && r.heap == s.heap && r.frames == s.frames && r.slots == s.slots
      && (r.status == Running ==>
            && r.cl == s.cl && |r.stack| == |s.stack| + Effect(i)
            && (if NoFallThrough(i) then JumpTarget(i) == Some(r.ip) else r.ip == s.ip || JumpTarget(i) == Some(r.ip)))
  {
    hide BinaryOp, Peek, IsFalsy, TypeOf;
  }

  lemma PlainKeeps(lim: Limits, s: State, i: Instr, max: int)
    requires Before(s, i, max) && IsPlain(i)
    ensures Inv(Exec(lim, s, i), max)
  {
    hide FrameFits, SavedFit, HeapFits, Exec;
    PlainExec(lim, s, i);
  }

  lemma BeforeStep(s: State, max: int) returns (i: Instr)
    requires Inv(s, max) && s.status == Running
    ensures s.cl < |s.heap| && Decode(s.heap[s.cl].fn.code, s.ip) == Some(i)
    ensures Before(s.(ip := s.ip + |Encode(i)|), i, max)
  {
    hide Point, SavedFit, HeapFits, Decode, Encode;
    i := PointInstr(s.heap[s.cl].fn, s.ip, |s.stack| - s.slots, max);
  }

  lemma ExecKeeps(lim: Limits, s: State, i: Instr, max: int)
    requires Before(s, i, max)
    ensures s.cl < |s.heap| && Inv(Exec(lim, s, i), max)
  {
    assert s.cl < |s.heap| && s.status == Running;
    hide Before, Inv, MakeClosure, Machine.DoCall, Machine.DoTailCall, Machine.DoReturn;
    match i
    case IClosure(k) => ClosureKeeps(lim, s, k, max);
    case ICall(n) => CallKeeps(lim, s, n, max);
    case ITailCall(n) => TailCallKeeps(s, n, max);
    case IReturn => ReturnKeeps(s, max);
    case _ => PlainKeeps(lim, s, i, max);
  }

  lemma StepKeeps(lim: Limits, s: State, max: int)
    requires Inv(s, max)
    ensures Inv(Step(lim, s), max)
  {
    hide Before, Inv, Decode, Encode, Exec;
    if s.status == Running {
      var i := BeforeStep(s, max);
      ExecKeeps(lim, s.(ip := s.ip + |Encode(i)|), i, max);
    }
  }

  // ----- the bound -----

  /** The running frame starts at most |frames| * (max - 1) slots above the bottom. */
  lemma {:induction false} Base(heap: seq<Closure>, frames: seq<CallFrame>, slots: int, max: int)
    requires SavedFit(heap, frames, slots, max)
    ensures slots <= |frames| * (max - 1)
    decreases frames
  {
    hide Point;
    if frames != [] {
      var n := |frames|;
      var f := frames[n - 1];
      Base(heap, frames[..n - 1], f.slots, max);
      PointBound(heap[f.cl].fn, f.ip, slots + 1 - f.slots, max);
      assert n * (max - 1) == (n - 1) * (max - 1) + (max - 1);
    }
  }

  lemma StackWithin(s: State, max: int)
    requires Inv(s, max) && s.status == Running
    ensures |s.stack| <= |s.frames| * (max - 1) + max
  {
    hide Point, SavedFit, HeapFits;
    Base(s.heap, s.frames, s.slots, max);
    PointBound(s.heap[s.cl].fn, s.ip, |s.stack| - s.slots, max);
  }

  lemma TimesMonotone(a: nat, b: nat, c: nat)
    requires a <= b
    ensures a * c <= b * c
  {
  }

  /** An instruction that pushes a value finds room for it. */
  lemma RoomToPush(s: State, i: Instr, callDepth: nat, max: int)
    requires Before(s, i, max) && Effect(i) == 1 && |s.frames| <= callDepth && 1 <= max
    ensures |s.stack| < callDepth * (max - 1) + max
  {
    hide Point, SavedFit, HeapFits;
    Base(s.heap, s.frames, s.slots, max);
    TimesMonotone(|s.frames|, callDepth, max - 1);
    PointBound(s.heap[s.cl].fn, s.ip, |s.stack| - s.slots + 1, max);
  }

  /** One step on a stack that is large enough for the whole callstack does not overflow it. */
  lemma StepNoOverflow(stackSize: nat, callDepth: nat, s: State, max: int)
    requires Inv(s, max) && s.status == Running && |s.frames| <= callDepth
    requires callDepth * (max - 1) + max <= stackSize && 1 <= max
    ensures Step(Bounded(stackSize, callDepth), s).status != Failed(StackOverflow)
    ensures |Step(Bounded(stackSize, callDepth), s).frames| <= callDepth
  {
    hide Inv, Before, Decode, Encode, Exec;
    var i := BeforeStep(s, max);
    var s1 := s.(ip := s.ip + |Encode(i)|);
    if Effect(i) == 1 {
      RoomToPush(s1, i, callDepth, max);
    }
    ExecNoOverflow(stackSize, callDepth, s1, i);
  }

  lemma ExecNoOverflow(stackSize: nat, callDepth: nat, s: State, i: Instr)
    requires s.cl < |s.heap| && s.status == Running && |s.frames| <= callDepth
    requires Effect(i) == 1 ==> |s.stack| < stackSize
    ensures Exec(Bounded(stackSize, callDepth), s, i).status != Failed(StackOverflow)
    ensures |Exec(Bounded(stackSize, callDepth), s, i).frames| <= callDepth
  {
    hide CanCapture, Capture, TypeOf, BinaryOp;
    PrimitiveErrors(s, i);
  }

  /** No primitive reports a limit of the machine. */
  lemma PrimitiveErrors(s: State, i: Instr)
    ensures i.IBinary? && HasOperands(s, 2) ==> BinaryOp(i.op, Peek(s, 1), Peek(s, 0)) != Bad(StackOverflow)
  {
    hide Peek, StrCompare;
  }

  lemma {:induction false} RunFits(lim: Limits, s: State, n: nat, max: int)
    requires Inv(s, max)
    ensures Inv(Run(lim, s, n), max)
    decreases n
  {
    hide Inv, Step;
    if n > 0 {
      StepKeeps(lim, s, max);
      RunFits(lim, Step(lim, s), n - 1, max);
    }
  }

  lemma StartFits(lim: Limits, main: CompiledFunction, max: int)
    requires TreeFits(main, max) && main.arity == 0
    ensures Inv(Start(lim, main), max)
  {
    hide Point, TreeFits;
    StartPoint(main, max);
  }

  /** In every state of every run of a program whose functions need at most max slots, the stack holds
      at most depth * (max - 1) + max values, where depth is the number of calls in progress. */
  lemma StackBounded(m: Mode, lim: Limits, program: Term, main: CompiledFunction, max: int, n: nat)
    requires m.emit && CompileProgram(m, program) == Ok(main) && ProgramFits(program, max)
    ensures var s := Run(lim, Start(lim, main), n);
      s.status == Running ==> |s.stack| <= |s.frames| * (max - 1) + max
  {
    hide Run, Start, CompileProgram, Inv, TreeFits, ProgramFits;
    ProgramFlow(m, program, main, max);
    MainArity(m, program, main);
    StartFits(lim, main, max);
    RunFits(lim, Start(lim, main), n, max);
    if Run(lim, Start(lim, main), n).status == Running {
      StackWithin(Run(lim, Start(lim, main), n), max);
    }
  }

  lemma MainArity(m: Mode, program: Term, main: CompiledFunction)
    requires CompileProgram(m, program) == Ok(main)
    ensures main.arity == 0
  {
    hide Compile, Encode;
  }

  lemma {:induction false} RunNoOverflow(stackSize: nat, callDepth: nat, s: State, n: nat, max: int)
    requires Inv(s, max) && s.status != Failed(StackOverflow) && |s.frames| <= callDepth
    requires callDepth * (max - 1) + max <= stackSize && 1 <= max
    ensures Run(Bounded(stackSize, callDepth), s, n).status != Failed(StackOverflow)
    decreases n
  {
    hide Inv, Step;
    if n > 0 {
      var lim := Bounded(stackSize, callDepth);
      if s.status == Running {
        StepNoOverflow(stackSize, callDepth, s, max);
      } else {
        assert Step(lim, s) == s by { StoppedStep(lim, s); }
      }
      StepKeeps(lim, s, max);
      RunNoOverflow(stackSize, callDepth, Step(lim, s), n - 1, max);
    }
  }

  lemma StoppedStep(lim: Limits, s: State)
    requires s.status != Running
    ensures Step(lim, s) == s
  {
  }

  /** With a stack of at least callDepth * (max - 1) + max slots, "stack overflow" is never reported:
      runaway recursion always ends in "too many nested calls". */
  lemma NoStackOverflow(m: Mode, stackSize: nat, callDepth: nat, program: Term, main: CompiledFunction, max: int,
                        n: nat)
    requires m.emit && CompileProgram(m, program) == Ok(main) && ProgramFits(program, max)
    requires callDepth * (max - 1) + max <= stackSize
    ensures var lim := Bounded(stackSize, callDepth); Run(lim, Start(lim, main), n).status != Failed(StackOverflow)
  {
    hide Run, CompileProgram, Inv, TreeFits, Need, FunctionsFit;
    ProgramFlow(m, program, main, max);
    MainArity(m, program, main);
    var lim := Bounded(stackSize, callDepth);
    StartFits(lim, main, max);
    assert 1 <= max && 0 <= callDepth * (max - 1);
    RunNoOverflow(stackSize, callDepth, Start(lim, main), n, max);
  }

  /** In particular with the default sizes, 1 << 17 values and 1 << 13 frames, if no function needs more
      than 16 slots. */
  lemma DefaultSizes(m: Mode, program: Term, main: CompiledFunction, n: nat)
    requires m.emit && CompileProgram(m, program) == Ok(main) && ProgramFits(program, 16)
    ensures var lim := Bounded(131072, 8192);
      Run(lim, Start(lim, main), n).status != Failed(StackOverflow)
  {
    hide Run, Start, CompileProgram, ProgramFits;
    NoStackOverflow(m, 131072, 8192, program, main, 16, n);
  }

  // ----- tail calls -----

  /** The next instruction is not an ordinary call. */
  predicate NoCallNext(s: State) {
    s.status != Running || s.cl >= |s.heap| ||
    match Decode(s.heap[s.cl].fn.code, s.ip)
    case Some(ICall(_)) => false
    case _ => true
  }

  lemma NoCallStep(lim: Limits, s: State)
    requires NoCallNext(s)
    ensures |Step(lim, s).frames| <= |s.frames|
  {
    hide CanCapture, Capture, BinaryOp, TypeOf, Peek, Encode, CheckCall;
  }

  lemma {:induction false} NoCallRun(lim: Limits, s: State, n: nat)
    requires forall k: nat :: k < n ==> NoCallNext(Run(lim, s, k))
    ensures |Run(lim, s, n).frames| <= |s.frames|
    decreases n
  {
    hide Step, NoCallNext;
    if n > 0 {
      assert NoCallNext(Run(lim, s, 0));
      NoCallStep(lim, s);
      forall k: nat | k < n - 1 ensures NoCallNext(Run(lim, Step(lim, s), k)) {
        assert NoCallNext(Run(lim, s, k + 1));
      }
      NoCallRun(lim, Step(lim, s), n - 1);
    }
  }

  /** A run that only makes tail calls, however many, never pushes a frame and never uses more than
      max slots. */
  lemma TailCallsRunInConstantSpace(m: Mode, lim: Limits, program: Term, main: CompiledFunction, max: int, n: nat)
    requires m.emit && CompileProgram(m, program) == Ok(main) && ProgramFits(program, max)
    requires forall k: nat :: k < n ==> NoCallNext(Run(lim, Start(lim, main), k))
    ensures var s := Run(lim, Start(lim, main), n); s.frames == [] && (s.status == Running ==> |s.stack| <= max)
  {
    hide Run, CompileProgram, ProgramFits, NoCallNext;
    NoCallRun(lim, Start(lim, main), n);
    StackBounded(m, lim, program, main, max, n);
  }
}
