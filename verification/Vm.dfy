/** The machine as src/vm.c implements it: a stack array with a moving top, a callstack array and
    registers, updated in place. Every operation is proved against the step function of module
    Machine. */
module Vm {
  import opened Values
  import opened Syntax
  import opened Bytecode
  import opened Machine

  class VM {
    var stack: array<Value>      // Stack.slots; its length is Stack.size
    var top: int                 // index of the top value, -1 when empty
    var frames: array<CallFrame> // Callstack.frames
    var ftop: int                // index of the innermost saved frame, -1 when empty
    var heap: seq<Closure>
    var output: seq<Value>
    ghost var trace: seq<Event>  // the output and the values of the variables read
    var cl: nat
    var ip: nat
    var slots: nat
    var status: Status           // Result

    ghost predicate Valid()
      reads this
    {
      stack != frames as object && -1 <= top < stack.Length && -1 <= ftop < frames.Length && output == Output(trace)
    }

    ghost function Limit(): Limits
      reads this
    {
      Bounded(stack.Length, frames.Length)
    }

    ghost function Abs(): State
      requires Valid()
      reads this, stack, frames
    {
      State(stack[..top + 1], frames[..ftop + 1], cl, ip, slots, heap, trace, status)
    }

    /** vm_init */
    constructor (stackSize: nat, cstackSize: nat)
      ensures Valid() && fresh(stack) && fresh(frames)
      ensures Limit() == Bounded(stackSize, cstackSize)
      ensures Abs() == State([], [], 0, 0, 0, [], [], Running)
    {
      stack := new Value[stackSize](_ => BoolValue(false));
      frames := new CallFrame[cstackSize](_ => CallFrame(0, 0, 0));
      top, ftop, heap, output, trace, cl, ip, slots, status := -1, -1, [], [], [], 0, 0, 0, Running;
    }

    // ----- stack and callstack -----

    method Push(v: Value)
      requires Valid()
      modifies this`top, this`status, stack
      ensures Valid() && Abs() == Machine.Push(Limit(), old(Abs()), v)
    {
      if top == stack.Length - 1 {
        status := Failed(StackOverflow);
        return;
      }
      top := top + 1;
      stack[top] := v;
    }

    /** Pushes the value of a variable. */
    method Load(v: Value)
      requires Valid() && status == Running
      modifies this`top, this`status, this`trace, stack
      ensures Valid() && Abs() == Machine.Load(Limit(), old(Abs()), v)
    {
      hide Output;
      Push(v);
      if status == Running {
        OutputOfLoaded(trace, v);
        trace := trace + [Loaded(v)];
      }
    }

    /** Replaces n operands (n is 1 or 2) by v. */
    method SetTop(n: nat, v: Value)
      requires Valid() && 1 <= n <= 2 && top + 1 > slots + n
      modifies this`top, stack
      ensures Valid() && Abs() == Replace(old(Abs()), n, Done(v))
    {
      stack[top - (n - 1)] := v;
      top := top - (n - 1);
    }

    method PushFrame()
      requires Valid()
      modifies this`ftop, this`status, frames
      ensures Valid()
      ensures var s := old(Abs());
        Abs() == if |s.frames| == frames.Length then Fail(s, TooManyNestedCalls)
                 else s.(frames := s.frames + [CallFrame(cl, ip, slots)])
    {
      if ftop == frames.Length - 1 {
        status := Failed(TooManyNestedCalls);
        return;
      }
      ftop := ftop + 1;
      frames[ftop] := CallFrame(cl, ip, slots);
    }

    // ----- instructions -----

    method DoPrim(n: nat, p: Prim<Value>)
      requires Valid() && 1 <= n <= 2 && top + 1 > slots + n
      modifies this`top, this`status, stack
      ensures Valid() && Abs() == Replace(old(Abs()), n, p)
    {
      match p
      case Done(v) => SetTop(n, v);
      case Bad(e) => status := Failed(e);
      case Undefined => status := Stuck;
    }

    /** do_closure: the new closure is pushed, then its variables are captured one by one. */
    method DoClosure(k: byte)
      requires Valid() && cl < |heap| && status == Running
      modifies this, stack
      ensures Valid() && stack == old(stack) && frames == old(frames)
      ensures Abs() == MakeClosure(Limit(), old(Abs()), k)
    {
      hide Output;
      var fns := heap[cl].fn.functions;
      if k >= |fns| {
        status := Wild;
        return;
      }
      var fn := fns[k];
      var nonlocals := fn.nonlocals;
      var captured: seq<Value> := [];
      ghost var s := Abs();
      Push(ClosureValue(|heap|));
      if status != Running {
        return;
      }
      ghost var s1 := Abs();
      var i := 0;
      while i < |nonlocals|
        invariant 0 <= i <= |nonlocals| && |captured| == i
        invariant CanCapture(nonlocals[..i], stack[..top + 1], slots, heap[cl].nonlocals)
        invariant captured == Capture(nonlocals[..i], stack[..top + 1], slots, heap[cl].nonlocals)
      {
        var n := nonlocals[i];
        if if n.isLocal then slots + n.index > top else n.index >= |heap[cl].nonlocals| {
          assert n in nonlocals && !CanCapture(nonlocals, stack[..top + 1], slots, heap[cl].nonlocals);
          status, top := Wild, top - 1;
          assert Abs() == GoWild(s);
          return;
        }
        assert nonlocals[..i + 1] == nonlocals[..i] + [n];
        captured := captured + [if n.isLocal then stack[slots + n.index] else heap[cl].nonlocals[n.index]];
        i := i + 1;
      }
      assert nonlocals[..i] == nonlocals;
      heap := heap + [Closure(fn, captured)];
    }

    /** The checks shared by both call instructions. */
    method Callee(nargs: nat) returns (ok: bool, callee: nat)
      requires Valid() && top + 1 > slots + nargs + 1 && status == Running
      modifies this`status
      ensures match CheckCall(old(Abs()), nargs)
        case Done(f) => ok && callee == f && Abs() == old(Abs())
        case Bad(e) => !ok && Abs() == Fail(old(Abs()), e)
        case Undefined => !ok && Abs() == GoWild(old(Abs()))
    {
      var val := stack[top - nargs];
      ok, callee := false, 0;
      if !val.ClosureValue? {
        status := Failed(CannotCall(TypeOf(val)));
      } else if val.address >= |heap| {
        status := Wild;
      } else if heap[val.address].fn.arity != nargs {
        status := Failed(WrongArity(heap[val.address].fn.arity, nargs));
      } else {
        ok, callee := true, val.address;
      }
    }

    method DoCall(nargs: nat)
      requires Valid() && status == Running
      modifies this, frames
      ensures Valid() && stack == old(stack) && frames == old(frames)
      ensures Abs() == Machine.DoCall(Limit(), old(Abs()), nargs)
    {
      hide CheckCall;
      if top + 1 <= slots + nargs + 1 {
        status := Wild;
        return;
      }
      var frameSlots := top - nargs;
      var ok, callee := Callee(nargs);
      if !ok {
        return;
      }
      PushFrame();
      if status != Running {
        return;
      }
      cl, ip, slots := callee, 0, frameSlots;
    }

    /** The copy of do_tail_call: n values are moved down, in ascending order; the two ranges may
        overlap. */
    static method CopyDown(a: array<Value>, to: nat, from: nat, n: nat)
      requires to < from && from + n <= a.Length
      modifies a
      ensures a[..to + n] == old(a[..to]) + old(a[from..from + n])
    {
      ghost var was := a[..];
      var i := 0;
      while i < n
        invariant 0 <= i <= n
        invariant a[..to + i] == was[..to] + was[from..from + i]
        invariant forall j :: to + i <= j < a.Length ==> a[j] == was[j]
      {
        a[to + i] := a[from + i];
        i := i + 1;
      }
    }

    /** The running frame is replaced by the top n values. */
    method ReplaceFrame(n: nat)
      requires Valid() && top + 1 > slots + n && n > 0
      modifies this`top, stack
      ensures Valid()
      ensures var s := old(Abs()); Abs() == s.(stack := s.stack[..s.slots] + s.stack[|s.stack| - n..])
    {
      ghost var s := Abs();
      assert s.stack[..slots] == stack[..slots];
      assert s.stack[|s.stack| - n..] == stack[top + 1 - n..top + 1];
      CopyDown(stack, slots, top + 1 - n, n);
      top := slots + n - 1;
    }

    /** do_tail_call: callee and arguments replace the running frame. */
    method DoTailCall(nargs: nat)
      requires Valid() && status == Running
      modifies this, stack
      ensures Valid() && stack == old(stack) && frames == old(frames)
      ensures Abs() == Machine.DoTailCall(old(Abs()), nargs)
    {
      hide CheckCall;
      if top + 1 <= slots + nargs + 1 {
        status := Wild;
        return;
      }
      var ok, callee := Callee(nargs);
      if !ok {
        return;
      }
      ReplaceFrame(nargs + 1);
      cl, ip := callee, 0;
    }

    method PopFrame() returns (frame: CallFrame)
      requires Valid() && ftop >= 0
      modifies this`ftop
      ensures Valid()
      ensures var s := old(Abs());
        frame == s.frames[|s.frames| - 1] && Abs() == s.(frames := s.frames[..|s.frames| - 1])
    {
      frame := frames[ftop];
      ftop := ftop - 1;
    }

    /** The slots of the running frame are replaced by the value on top. */
    method KeepResult()
      requires Valid() && top > slots
      modifies this`top, stack
      ensures Valid()
      ensures var s := old(Abs()); Abs() == s.(stack := s.stack[..s.slots] + [Peek(s, 0)])
    {
      stack[slots] := stack[top];
      top := slots;
    }

    method Resume(frame: CallFrame)
      requires Valid()
      modifies this`cl, this`ip, this`slots
      ensures Valid() && Abs() == old(Abs()).(cl := frame.cl, ip := frame.ip, slots := frame.slots)
    {
      cl, ip, slots := frame.cl, frame.ip, frame.slots;
    }

    method DoReturn()
      requires Valid() && status == Running
      modifies this, stack
      ensures Valid() && stack == old(stack) && frames == old(frames)
      ensures Abs() == Machine.DoReturn(old(Abs()))
    {
      hide Output, Peek;
      if ftop == -1 {
        status := Halted;
        return;
      }
      if top <= slots {
        status := Wild;
        return;
      }
      KeepResult();
      var frame := PopFrame();
      Resume(frame);
    }

    method DoPrint(v: Value)
      requires Valid()
      modifies this`output, this`trace
      ensures Valid() && Abs() == old(Abs()).(trace := old(Abs()).trace + [Printed(v)])
    {
      hide Output;
      OutputOfPrinted(trace, v);
      output, trace := output + [v], trace + [Printed(v)];
    }

    method DoUnary(op: UnOp)
      requires Valid() && top > slots && status == Running
      modifies this`output, this`trace, this`top, this`status, stack
      ensures Valid() && Abs() == Machine.DoUnary(old(Abs()), op)
    {
      hide Output, Replace;
      var v := stack[top];
      match op
      case Print => DoPrint(v);
      case First =>
        DoPrim(1, if v.TupleValue? then Done(v.first) else Bad(NoFirst(TypeOf(v))));
      case Second =>
        DoPrim(1, if v.TupleValue? then Done(v.second) else Bad(NoSecond(TypeOf(v))));
    }

    method DoBinary(op: BinOp)
      requires Valid() && top > slots + 1 && status == Running
      modifies this`top, this`status, stack
      ensures Valid()
      ensures var s := old(Abs()); Abs() == Replace(s, 2, BinaryOp(op, Peek(s, 1), Peek(s, 0)))
    {
      DoPrim(2, BinaryOp(op, stack[top - 1], stack[top]));
    }

    /** The instructions that push a value. */
    method DoPush(i: Instr)
      requires i.IFalse? || i.ITrue? || i.IInt? || i.IConstant? || i.ILocal? || i.INonlocal?
      requires Valid() && cl < |heap| && status == Running
      modifies this`top, this`status, this`trace, stack
      ensures Valid() && Abs() == Exec(Limit(), old(Abs()), i)
    {
      var closure := heap[cl];
      match i
      case IFalse => Push(BoolValue(false));
      case ITrue => Push(BoolValue(true));
      case IInt(n) => Push(IntValue(n));
      case IConstant(k) =>
        if k >= |closure.fn.constants| {
          status := Wild;
        } else {
          Push(closure.fn.constants[k]);
        }
      case ILocal(k) =>
        if slots + k > top {
          status := Wild;
        } else {
          Load(stack[slots + k]);
        }
      case INonlocal(k) =>
        if k >= |closure.nonlocals| {
          status := Wild;
        } else {
          Load(closure.nonlocals[k]);
        }
    }

    method DoJumpIfFalse(t: nat)
      requires Valid() && top > slots
      modifies this`ip, this`top
      ensures Valid()
      ensures var s := old(Abs());
        Abs() == s.(stack := s.stack[..|s.stack| - 1], ip := if IsFalsy(Peek(s, 0)) then t else s.ip)
    {
      if IsFalsy(stack[top]) {
        ip := t;
      }
      top := top - 1;
    }

    method DoTuple()
      requires Valid() && top > slots + 1
      modifies this`top, stack
      ensures Valid()
      ensures var s := old(Abs()); Abs() == Replace(s, 2, Done(TupleValue(Peek(s, 1), Peek(s, 0))))
    {
      SetTop(2, TupleValue(stack[top - 1], stack[top]));
    }

    /** The instructions that work on operands in place. */
    method DoOperands(i: Instr)
      requires i.ITuple? || i.IBinary? || i.IUnary? || i.IJumpIfFalse?
      requires Valid() && cl < |heap| && status == Running
      modifies this, stack
      ensures Valid() && stack == old(stack) && frames == old(frames)
      ensures Abs() == Exec(Limit(), old(Abs()), i)
    {
      hide Replace, Peek, BinaryOp, IsFalsy, Machine.DoUnary, Output;
      var needed := if i.ITuple? || i.IBinary? then 2 else 1;
      if top + 1 <= slots + needed {
        status := Wild;
        return;
      }
      match i
      case ITuple => DoTuple();
      case IBinary(op) => DoBinary(op);
      case IUnary(op) => DoUnary(op);
      case IJumpIfFalse(t) => DoJumpIfFalse(t);
    }

    method Execute(i: Instr)
      requires Valid() && cl < |heap| && status == Running
      modifies this, stack, frames
      ensures Valid() && stack == old(stack) && frames == old(frames)
      ensures Abs() == Exec(Limit(), old(Abs()), i)
    {
      hide MakeClosure, Machine.DoCall, Machine.DoTailCall, Machine.DoReturn, Machine.DoUnary, Replace, Machine.Push,
        Peek, BinaryOp, IsFalsy;
      match i
      case INop =>
      case IClosure(k) => DoClosure(k);
      case IJump(t) => ip := t;
      case ICall(n) => DoCall(n);
      case ITailCall(n) => DoTailCall(n);
      case IReturn => DoReturn();
      case ITuple => DoOperands(i);
      case IBinary(_) => DoOperands(i);
      case IUnary(_) => DoOperands(i);
      case IJumpIfFalse(_) => DoOperands(i);
      case _ => DoPush(i);
    }

    /** One dispatch: the opcode and its operands are read, then the instruction is executed. */
    method Step()
      requires Valid()
      modifies this, stack, frames
      ensures Valid() && stack == old(stack) && frames == old(frames)
      ensures Abs() == Machine.Step(Limit(), old(Abs()))
    {
      hide Decode, Encode, Exec;
      if status != Running {
        return;
      }
      if cl >= |heap| {
        status := Wild;
        return;
      }
      var decoded := Decode(heap[cl].fn.code, ip);
      if decoded.None? {
        status := Wild;
        return;
      }
      var i := decoded.value;
      ip := ip + |Encode(i)|;
      Execute(i);
    }

    /** The start of vm_run: the closure of the program is pushed. */
    method Enter(main: CompiledFunction)
      requires Valid() && Abs() == State([], [], 0, 0, 0, [], [], Running)
      modifies this, stack
      ensures Valid() && stack == old(stack) && frames == old(frames)
      ensures Abs() == Start(Limit(), main)
    {
      hide Output;
      heap := [Closure(main, [])];
      Push(ClosureValue(0));
    }

    /** vm_run, for at most `steps` instructions. */
    method VmRun(main: CompiledFunction, steps: nat)
      requires Valid() && Abs() == State([], [], 0, 0, 0, [], [], Running)
      modifies this, stack, frames
      ensures Valid() && stack == old(stack) && frames == old(frames)
      ensures Abs() == Run(Limit(), Start(Limit(), main), steps)
    {
      hide Start, Machine.Step, Output;
      Enter(main);
      ghost var s := Abs();
      var n := 0;
      while n < steps
        invariant 0 <= n <= steps && Valid() && stack == old(stack) && frames == old(frames)
        invariant Run(Limit(), s, steps) == Run(Limit(), Abs(), steps - n)
      {
        Step();
        n := n + 1;
      }
    }
  }
}
