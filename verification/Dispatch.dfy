/** Where the machine can be while it runs compiled code, whatever the program and whatever is on the
    stack: at every dispatch the instruction pointer is at the start of an instruction whose table
    operands exist, and between calls and returns it only moves forward. */
module Dispatch {
  import opened Values
  import opened Syntax
  import opened Bytecode
  import opened Codegen
  import opened Boundaries
  import opened Dumps
  import opened Machine

  /** The code of fn is the instructions s: the last is a return, and each jump goes forward to the
      start of another one. */
  ghost predicate Straight(fn: CompiledFunction, s: seq<Instr>) {
    && fn.code == EncodeAll(s) && |s| > 0 && s[|s| - 1] == IReturn
    && (forall k :: 0 <= k < |s| && JumpTarget(s[k]).Some? ==> Lands(s, k, JumpTarget(s[k]).value))
    && forall k :: 0 <= k < |s| ==> InRange(s[k], |fn.constants|, |fn.functions|, |fn.nonlocals|, 256)
  }

  ghost predicate Lands(s: seq<Instr>, k: nat, t: nat) {
    exists j :: k < j < |s| && t == Offset(s, j)
  }

  /** Position ip is the start of an instruction of fn. */
  ghost predicate At(fn: CompiledFunction, ip: nat) {
    exists s, k :: Straight(fn, s) && 0 <= k < |s| && ip == Offset(s, k)
  }

  ghost predicate ClosureOk(c: Closure) {
    TreeOk(c.fn) && |c.nonlocals| == |c.fn.nonlocals|
  }

  ghost predicate FrameOk(heap: seq<Closure>, cl: nat, ip: nat) {
    cl < |heap| && At(heap[cl].fn, ip)
  }

  ghost predicate Inv(s: State) {
    && (forall c | c in s.heap :: ClosureOk(c))
    && (forall f | f in s.frames :: FrameOk(s.heap, f.cl, f.ip))
    && (s.status == Running ==> FrameOk(s.heap, s.cl, s.ip))
  }

  // ----- compiled functions -----

  lemma StraightTree(fn: CompiledFunction) returns (s: seq<Instr>)
    requires TreeOk(fn)
    ensures Straight(fn, s)
  {
    hide EncodeAll, DescriptorsOk, Offset;
    var s0, slots := TreeParts(fn);
    s := s0 + [IReturn];
    forall k | 0 <= k < |s| && JumpTarget(s[k]).Some?
      ensures Lands(s, k, JumpTarget(s[k]).value)
    {
      var j :| k < j <= |s0| && JumpTarget(s0[k]).value == 0 + Offset(s0, j);
      OffsetJoin(s0, [IReturn], j);
    }
    forall k | 0 <= k < |s|
      ensures InRange(s[k], |fn.constants|, |fn.functions|, |fn.nonlocals|, 256)
    {
      if k < |s0| {
        assert s0[k] in s0;
      }
    }
  }

  lemma AtStart(fn: CompiledFunction)
    requires TreeOk(fn)
    ensures At(fn, 0)
  {
    hide Straight, TreeOk, Offset;
    var s := StraightTree(fn);
    OffsetEnds(s);
    assert |s| > 0 by { StraightSize(fn, s); }
  }

  lemma StraightSize(fn: CompiledFunction, s: seq<Instr>)
    requires Straight(fn, s)
    ensures |s| > 0
  {
  }

  /** What stands at a position the machine can be at: an instruction with table operands in range,
      with another one behind it unless it is a return, and with one at its jump target. */
  lemma AtInstr(fn: CompiledFunction, ip: nat) returns (i: Instr)
    requires At(fn, ip)
    ensures Decode(fn.code, ip) == Some(i) && Boundary(fn.code, ip)
    ensures InRange(i, |fn.constants|, |fn.functions|, |fn.nonlocals|, 256)
    ensures i != IReturn ==> At(fn, ip + |Encode(i)|)
    ensures JumpTarget(i).Some? ==> At(fn, JumpTarget(i).value) && ip < JumpTarget(i).value
    ensures ip + |Encode(i)| <= |fn.code|
  {
    hide EncodeAll, Decode, Encode, Offset, InRange, Lines, Sweep;
    var s, k :| Straight(fn, s) && 0 <= k < |s| && ip == Offset(s, k);
    i := s[k];
    InstrAt(s, k);
    OffsetEnds(s);
    SweepRecovers(s, 0);
    LineOf(s, 0, k);
    DecodedSize(fn.code, ip);
    assert i != IReturn ==> k + 1 < |s|;
    if JumpTarget(i).Some? {
      var j :| k < j < |s| && JumpTarget(i).value == Offset(s, j);
      OffsetsIncrease(s, k, j);
    }
  }

  lemma {:induction false} OffsetsIncrease(s: seq<Instr>, k: nat, j: nat)
    requires k < j <= |s|
    ensures Offset(s, k) < Offset(s, j)
    decreases j
  {
    hide Offset, EncodeAll, Encode, Decode;
    InstrAt(s, j - 1);
    DecodedSize(EncodeAll(s), Offset(s, j - 1));
    if k < j - 1 {
      OffsetsIncrease(s, k, j - 1);
    }
  }

  // ----- the invariant -----

  lemma FrameLater(heap: seq<Closure>, c: Closure, cl: nat, ip: nat)
    requires FrameOk(heap, cl, ip)
    ensures FrameOk(heap + [c], cl, ip)
  {
    hide At;
  }

  lemma ClosureKeeps(lim: Limits, s: State, k: byte)
    requires Inv(s) && s.status == Running
    ensures Inv(MakeClosure(lim, s, k))
  {
    hide At, CanCapture, Capture, TreeOk;
    var fns := s.heap[s.cl].fn.functions;
    var r := MakeClosure(lim, s, k);
    if r.heap != s.heap {
      var c := r.heap[|s.heap|];
      assert r.heap == s.heap + [c] && c.fn == fns[k];
      assert s.heap[s.cl] in s.heap;
      TreeChild(s.heap[s.cl].fn, fns[k]);
      forall f | f in s.frames ensures FrameOk(r.heap, f.cl, f.ip) {
        FrameLater(s.heap, c, f.cl, f.ip);
      }
      FrameLater(s.heap, c, s.cl, s.ip);
    }
  }

  lemma TreeChild(fn: CompiledFunction, f: CompiledFunction)
    requires TreeOk(fn) && f in fn.functions
    ensures TreeOk(f)
  {
    hide *;
    var _, _ := TreeParts(fn);
  }

  lemma CallKeeps(lim: Limits, s: State, nargs: nat)
    requires Inv(s) && s.status == Running
    ensures Inv(Machine.DoCall(lim, s, nargs))
    ensures Inv(Machine.DoTailCall(s, nargs))
  {
    hide At, TreeOk;
    forall c | c in s.heap ensures At(c.fn, 0) {
      AtStart(c.fn);
    }
  }

  lemma ReturnKeeps(s: State)
    requires Inv(s.(status := Halted))
    ensures Inv(Machine.DoReturn(s))
  {
    hide At, TreeOk;
    if s.frames != [] {
      assert s.frames[|s.frames| - 1] in s.frames;
    }
  }

  lemma ExecKeeps(lim: Limits, s: State, i: Instr)
    requires s.cl < |s.heap| && s.status == Running
    requires Inv(s.(status := Halted)) && (i != IReturn ==> Inv(s))
    requires JumpTarget(i).Some? ==> At(s.heap[s.cl].fn, JumpTarget(i).value)
    ensures Inv(Exec(lim, s, i))
  {
    hide At, TreeOk, MakeClosure, Machine.DoCall, Machine.DoTailCall, Machine.DoReturn, BinaryOp, Peek;
    match i
    case IClosure(k) => ClosureKeeps(lim, s, k);
    case ICall(n) => CallKeeps(lim, s, n);
    case ITailCall(n) => CallKeeps(lim, s, n);
    case IReturn => ReturnKeeps(s);
    case _ =>
  }

  lemma StepKeeps(lim: Limits, s: State)
    requires Inv(s)
    ensures Inv(Step(lim, s))
  {
    hide At, TreeOk, Exec, Decode, Encode, Boundary, InRange;
    if s.status == Running {
      var i := AtInstr(s.heap[s.cl].fn, s.ip);
      ExecKeeps(lim, s.(ip := s.ip + |Encode(i)|), i);
    }
  }

  lemma {:induction false} RunKeeps(lim: Limits, s: State, n: nat)
    requires Inv(s)
    ensures Inv(Run(lim, s, n))
    decreases n
  {
    hide Inv, Step;
    if n > 0 {
      StepKeeps(lim, s);
      RunKeeps(lim, Step(lim, s), n - 1);
    }
  }

  lemma StartInv(lim: Limits, main: CompiledFunction)
    requires TreeOk(main) && main.nonlocals == []
    ensures Inv(Start(lim, main))
  {
    hide At, TreeOk;
    AtStart(main);
  }

  /** In every run of every compiled program, whatever the limits, each instruction that is executed
      is one that the linear sweep of its function lists, and its table operands exist. */
  lemma DispatchOnBoundary(m: Mode, lim: Limits, program: Term, main: CompiledFunction, n: nat) returns (i: Instr)
    requires m.emit && CompileProgram(m, program) == Ok(main)
    requires Run(lim, Start(lim, main), n).status == Running
    ensures var s := Run(lim, Start(lim, main), n);
      && s.cl < |s.heap| && Decode(s.heap[s.cl].fn.code, s.ip) == Some(i) && Boundary(s.heap[s.cl].fn.code, s.ip)
      && var fn := s.heap[s.cl].fn;
         InRange(i, |fn.constants|, |fn.functions|, |s.heap[s.cl].nonlocals|, 256)
  {
    hide CompileProgram, TreeOk, Run, Start, At, Decode, Encode, Boundary, InRange;
    ProgramTree(m, program, main);
    StartInv(lim, main);
    RunKeeps(lim, Start(lim, main), n);
    var s := Run(lim, Start(lim, main), n);
    i := AtInstr(s.heap[s.cl].fn, s.ip);
    assert s.heap[s.cl] in s.heap;
  }

  // ----- progress -----

  /** The machine has stopped, or the next instruction calls or returns. */
  ghost predicate AtEvent(s: State) {
    s.status != Running || s.cl >= |s.heap| ||
    match Decode(s.heap[s.cl].fn.code, s.ip)
    case Some(i) => IsEvent(i)
    case None => false
  }

  predicate IsEvent(i: Instr) {
    i.ICall? || i.ITailCall? || i.IReturn?
  }

  /** Still running, in the same frame of the same closure. */
  ghost predicate SameFrame(s: State, r: State) {
    r.status == Running && r.cl == s.cl && r.slots == s.slots && r.frames == s.frames && s.heap <= r.heap
  }

  lemma ExecForward(lim: Limits, s: State, i: Instr)
    requires s.cl < |s.heap| && s.status == Running && !IsEvent(i)
    ensures var r := Exec(lim, s, i);
      r.status != Running || (SameFrame(s, r) && (r.ip == s.ip || JumpTarget(i) == Some(r.ip)))
  {
    hide BinaryOp, CanCapture, Capture, Peek, HasOperands, IsFalsy, TypeOf;
  }

  /** An instruction that neither calls nor returns stays in its frame and moves forward. */
  lemma StepForward(lim: Limits, s: State)
    requires Inv(s) && !AtEvent(s)
    ensures var r := Step(lim, s);
      r.status != Running || (SameFrame(s, r) && s.ip < r.ip <= |s.heap[s.cl].fn.code|)
  {
    hide At, TreeOk, Decode, Exec, Boundary, InRange, Encode;
    var fn := s.heap[s.cl].fn;
    var i := AtInstr(fn, s.ip);
    DecodedSize(fn.code, s.ip);
    if JumpTarget(i).Some? {
      var _ := AtInstr(fn, JumpTarget(i).value);
    }
    ExecForward(lim, s.(ip := s.ip + |Encode(i)|), i);
  }

  /** Jumps only go forward: from any reachable state, the machine executes fewer instructions than
      its function has bytes before it stops, calls or returns. */
  lemma {:induction false} NextEvent(lim: Limits, s: State) returns (n: nat)
    requires Inv(s) && s.status == Running
    ensures n <= |s.heap[s.cl].fn.code| - s.ip
    ensures var r := Run(lim, s, n); AtEvent(r) && (r.status == Running ==> SameFrame(s, r))
    decreases |s.heap[s.cl].fn.code| - s.ip
  {
    hide At, TreeOk, Step, Boundary, InRange, Decode, Encode;
    var fn := s.heap[s.cl].fn;
    var i := AtInstr(fn, s.ip);
    DecodedSize(fn.code, s.ip);
    if AtEvent(s) {
      n := 0;
    } else {
      StepForward(lim, s);
      StepKeeps(lim, s);
      var r := Step(lim, s);
      assert Run(lim, s, 1) == Run(lim, r, 0);
      if r.status != Running {
        n := 1;
      } else {
        var k := NextEvent(lim, r);
        n := k + 1;
        assert Run(lim, s, n) == Run(lim, r, k);
      }
    }
  }
}
