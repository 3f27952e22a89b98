/** The floors of module Floors hold in every state of every run of every compiled program, whatever
    the limits: the operands of the next instruction are above slot 0 of the running frame. */
module Heights {
  import opened Values
  import opened Syntax
  import opened Bytecode
  import opened Codegen
  import opened Boundaries
  import opened Dumps
  import opened Floors
  import opened Machine
  import StackDepth

  ghost predicate Stands(heap: seq<Closure>, cl: nat, ip: nat, h: int) {
    cl < |heap| && Grounded(heap[cl].fn.code, ip, h)
  }

  /** Every saved frame is safe once its call has returned. The frame above the saved ones starts at
      `slots`; the callee and its arguments leave one value. */
  ghost predicate SavedStand(heap: seq<Closure>, frames: seq<CallFrame>, slots: int) {
    if frames == [] then slots == 0
    else
      var f := frames[|frames| - 1];
      Stands(heap, f.cl, f.ip, slots + 1 - f.slots) && SavedStand(heap, frames[..|frames| - 1], f.slots)
  }

  ghost predicate Inv(s: State) {
    && (forall c | c in s.heap :: TreeOk(c.fn)) && SavedStand(s.heap, s.frames, s.slots)
    && (s.status == Running ==> Stands(s.heap, s.cl, s.ip, |s.stack| - s.slots))
  }

  lemma TreeStands(fn: CompiledFunction)
    requires TreeOk(fn)
    ensures Grounded(fn.code, 0, 1 + fn.arity)
    ensures |fn.code| > 0 && Decode(fn.code, |fn.code| - 1) == Some(IReturn)
    ensures forall f | f in fn.functions :: TreeOk(f)
  {
    hide Grounded, EncodeAll, DescriptorsOk, Encode, JumpsOk, InRange;
    var s, slots := TreeParts(fn);
    EncodeAllJoin(s, [IReturn]);
    EncodeOne(IReturn);
    ReturnLast(fn.code, EncodeAll(s));
  }

  lemma ReturnLast(code: seq<byte>, bytes: seq<byte>)
    requires code == bytes + Encode(IReturn)
    ensures |code| == |bytes| + 1 && Decode(code, |bytes|) == Some(IReturn)
  {
    assert CodeAt(code, |bytes|, Encode(IReturn));
    DecodeEncoded(code, |bytes|, IReturn);
  }

  lemma {:induction false} SavedStandLater(heap: seq<Closure>, c: Closure, frames: seq<CallFrame>, slots: int)
    requires SavedStand(heap, frames, slots)
    ensures SavedStand(heap + [c], frames, slots)
    decreases frames
  {
    hide Grounded;
    if frames != [] {
      var f := frames[|frames| - 1];
      SavedStandLater(heap, c, frames[..|frames| - 1], f.slots);
    }
  }

  /** The machine before the instruction i is executed, with the instruction pointer past it. */
  ghost predicate Before(s: State, i: Instr) {
    && (forall c | c in s.heap :: TreeOk(c.fn)) && SavedStand(s.heap, s.frames, s.slots)
    && s.status == Running && s.cl < |s.heap| && HasOperands(s, Needed(i))
    && (!NoFallThrough(i) ==> Stands(s.heap, s.cl, s.ip, |s.stack| - s.slots + Effect(i)))
    && (JumpTarget(i).Some? ==> Stands(s.heap, s.cl, JumpTarget(i).value, |s.stack| - s.slots + Effect(i)))
  }

  lemma BeforeStep(s: State) returns (i: Instr)
    requires Inv(s) && s.status == Running
    ensures s.cl < |s.heap| && Decode(s.heap[s.cl].fn.code, s.ip) == Some(i) && Before(s.(ip := s.ip + |Encode(i)|), i)
  {
    hide SavedStand, TreeOk, Decode, Encode;
    i := Decode(s.heap[s.cl].fn.code, s.ip).value;
  }

  lemma ClosureKeeps(lim: Limits, s: State, k: byte)
    requires Before(s, IClosure(k))
    ensures Inv(MakeClosure(lim, s, k))
  {
    hide Grounded, SavedStand, TreeOk, MakeClosure;
    StackDepth.ClosureExec(lim, s, k);
    var r := MakeClosure(lim, s, k);
    if r.status == Running {
      var c :| r.heap == s.heap + [c] && c.fn in s.heap[s.cl].fn.functions;
      assert s.heap[s.cl] in s.heap;
      TreeStands(s.heap[s.cl].fn);
      SavedStandLater(s.heap, c, s.frames, s.slots);
    }
  }

  lemma CallKeeps(lim: Limits, s: State, n: byte)
    requires Before(s, ICall(n))
    ensures Inv(Machine.DoCall(lim, s, n))
  {
    hide Grounded, TreeOk, Machine.DoCall;
    StackDepth.CallExec(lim, s, n);
    var r := Machine.DoCall(lim, s, n);
    if r.status == Running {
      assert s.heap[r.cl] in s.heap;
      TreeStands(s.heap[r.cl].fn);
      assert r.frames[..|s.frames|] == s.frames;
    }
  }

  lemma TailCallKeeps(s: State, n: byte)
    requires Before(s, ITailCall(n))
    ensures Inv(Machine.DoTailCall(s, n))
  {
    hide Grounded, TreeOk, SavedStand, Machine.DoTailCall;
    StackDepth.TailCallExec(s, n);
    var r := Machine.DoTailCall(s, n);
    if r.status == Running {
      assert s.heap[r.cl] in s.heap;
      TreeStands(s.heap[r.cl].fn);
    }
  }

  lemma ReturnKeeps(s: State)
    requires Before(s, IReturn)
    ensures Inv(Machine.DoReturn(s))
  {
    hide Grounded, TreeOk, Peek;
  }

  lemma PlainKeeps(lim: Limits, s: State, i: Instr)
    requires Before(s, i) && StackDepth.IsPlain(i)
    ensures Inv(Exec(lim, s, i))
  {
    hide Grounded, SavedStand, TreeOk, Exec;
    StackDepth.PlainExec(lim, s, i);
  }

  lemma StepKeeps(lim: Limits, s: State)
    requires Inv(s)
    ensures Inv(Step(lim, s))
  {
    hide Before, Inv, Decode, Encode, MakeClosure, Machine.DoCall, Machine.DoTailCall, Machine.DoReturn;
    if s.status == Running {
      var i := BeforeStep(s);
      var s1 := s.(ip := s.ip + |Encode(i)|);
      match i
      case IClosure(k) => ClosureKeeps(lim, s1, k);
      case ICall(n) => CallKeeps(lim, s1, n);
      case ITailCall(n) => TailCallKeeps(s1, n);
      case IReturn => ReturnKeeps(s1);
      case _ =>
        hide Exec;
        PlainKeeps(lim, s1, i);
    }
  }

  lemma {:induction false} RunKeeps(lim: Limits, s: State, n: nat)
    requires Inv(s)
    ensures Inv(Run(lim, s, n))
    decreases n
  {
    hide Inv, Step;
    if n > 0 {
      StepKeeps(lim, s);
      RunKeeps(lim, Step(lim, s), n - 1);
    }
  }

  lemma StartInv(m: Mode, lim: Limits, program: Term, main: CompiledFunction)
    requires m.emit && CompileProgram(m, program) == Ok(main)
    ensures Inv(Start(lim, main))
  {
    hide Grounded, TreeOk, CompileProgram;
    ProgramTree(m, program, main);
    TreeStands(main);
    StackDepth.MainArity(m, program, main);
  }

  /** In every run of every compiled program, with any limits, the next instruction finds its operands
      above slot 0 of the running frame; in particular every function returns a value that lies above
      its own slot. */
  lemma OperandsThere(m: Mode, lim: Limits, program: Term, main: CompiledFunction, n: nat) returns (i: Instr)
    requires m.emit && CompileProgram(m, program) == Ok(main)
    requires Run(lim, Start(lim, main), n).status == Running
    ensures var s := Run(lim, Start(lim, main), n);
      && s.cl < |s.heap| && Decode(s.heap[s.cl].fn.code, s.ip) == Some(i)
      && match i
         case ITuple | IBinary(_) => |s.stack| > s.slots + 2
         case IUnary(_) | IJumpIfFalse(_) | IReturn => |s.stack| > s.slots + 1
         case ICall(nargs) => |s.stack| > s.slots + nargs + 1
         case ITailCall(nargs) => |s.stack| > s.slots + nargs + 1
         case _ => true
  {
    hide Run, Start, CompileProgram, Inv, Decode, Encode;
    StartInv(m, lim, program, main);
    RunKeeps(lim, Start(lim, main), n);
    i := BeforeStep(Run(lim, Start(lim, main), n));
  }
}
