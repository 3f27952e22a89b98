/** The virtual machine of src/vm.c as a step function. The stack is the live part of the value
    stack (slots[0] up to top), a closure address indexes the heap, and `slots` is the stack index
    of the running frame's slot 0. */
module Machine {
  import opened Values
  import opened Syntax
  import opened Bytecode

  datatype Closure = Closure(fn: CompiledFunction, nonlocals: seq<Value>)

  datatype CallFrame = CallFrame(cl: nat, ip: nat, slots: nat)

  /** Stuck: an arithmetic result that C leaves undefined. Wild: an access outside the frame, the
      code, the tables of the function or the heap, where nothing is promised. */
  datatype Status = Running | Halted | Failed(error: Error) | Stuck | Wild

  datatype State = State(
    stack: seq<Value>,
    frames: seq<CallFrame>,
    cl: nat,
    ip: nat,
    slots: nat,
    heap: seq<Closure>,
    trace: seq<Event>,
    status: Status)

  /** The sizes given to vm_init. */
  datatype Limits = Unbounded | Bounded(stackSize: nat, callDepth: nat)

  /** n operands lie above slot 0 of the running frame. */
  predicate HasOperands(s: State, n: nat) {
    |s.stack| > s.slots + n
  }

  function Peek(s: State, n: nat): Value
    requires HasOperands(s, n + 1)
  {
    s.stack[|s.stack| - 1 - n]
  }

  function Fail(s: State, e: Error): State {
    s.(status := Failed(e))
  }

  function GoWild(s: State): State {
    s.(status := Wild)
  }

  function Push(lim: Limits, s: State, v: Value): State {
    if lim.Bounded? && |s.stack| == lim.stackSize then Fail(s, StackOverflow)
    else s.(stack := s.stack + [v])
  }

  /** Pushes the value of a variable. */
  function Load(lim: Limits, s: State, v: Value): State {
    var r := Push(lim, s, v);
    if r.status == s.status then r.(trace := s.trace + [Loaded(v)]) else r
  }

  /** Replaces the top n operands by the outcome of a primitive. */
  function Replace(s: State, n: nat, p: Prim<Value>): State
    requires HasOperands(s, n)
  {
    match p
    case Done(v) => s.(stack := s.stack[..|s.stack| - n] + [v])
    case Bad(e) => Fail(s, e)
    case Undefined => s.(status := Stuck)
  }

  // ----- closures -----

  predicate CanCapture(ns: seq<Nonlocal>, stack: seq<Value>, slots: nat, captured: seq<Value>) {
    forall n | n in ns :: if n.isLocal then slots + n.index < |stack| else n.index < |captured|
  }

  function Capture(ns: seq<Nonlocal>, stack: seq<Value>, slots: nat, captured: seq<Value>)
    : (r: seq<Value>)
    requires CanCapture(ns, stack, slots, captured)
    ensures |r| == |ns|
  {
    seq(|ns|, i requires 0 <= i < |ns| =>
      assert ns[i] in ns;
      if ns[i].isLocal then stack[slots + ns[i].index] else captured[ns[i].index])
  }

  /** The new closure is pushed before its variables are captured, so it can capture itself. */
  function MakeClosure(lim: Limits, s: State, k: byte): State
    requires s.cl < |s.heap|
  {
    var fns := s.heap[s.cl].fn.functions;
    if k >= |fns| then GoWild(s)
    else
      var s1 := Push(lim, s, ClosureValue(|s.heap|));
      var captured := s.heap[s.cl].nonlocals;
      if s1.status != s.status then s1
      else if !CanCapture(fns[k].nonlocals, s1.stack, s.slots, captured) then GoWild(s)
      else
        var c := Closure(fns[k], Capture(fns[k].nonlocals, s1.stack, s.slots, captured));
        s1.(heap := s.heap + [c])
  }

  // ----- calls -----

  /** The checks shared by both call instructions; Done carries the callee's address. */
  function CheckCall(s: State, nargs: nat): Prim<nat>
    requires HasOperands(s, nargs + 1)
  {
    var callee := Peek(s, nargs);
    if !callee.ClosureValue? then Bad(CannotCall(TypeOf(callee)))
    else if callee.address >= |s.heap| then Undefined
    else if s.heap[callee.address].fn.arity != nargs
      then Bad(WrongArity(s.heap[callee.address].fn.arity, nargs))
    else Done(callee.address)
  }

  function DoCall(lim: Limits, s: State, nargs: nat): State {
    if !HasOperands(s, nargs + 1) then GoWild(s)
    else
      match CheckCall(s, nargs)
      case Bad(e) => Fail(s, e)
      case Undefined => GoWild(s)
      case Done(callee) =>
        if lim.Bounded? && |s.frames| == lim.callDepth then Fail(s, TooManyNestedCalls)
        else s.(frames := s.frames + [CallFrame(s.cl, s.ip, s.slots)],
                cl := callee, ip := 0, slots := |s.stack| - 1 - nargs)
  }

  /** The callee and its arguments are moved down onto the running frame. */
  function DoTailCall(s: State, nargs: nat): State {
    if !HasOperands(s, nargs + 1) then GoWild(s)
    else
      match CheckCall(s, nargs)
      case Bad(e) => Fail(s, e)
      case Undefined => GoWild(s)
      case Done(callee) =>
        s.(stack := s.stack[..s.slots] + s.stack[|s.stack| - 1 - nargs..], cl := callee, ip := 0)
  }

  function DoReturn(s: State): State {
    if s.frames == [] then s.(status := Halted)
    else if !HasOperands(s, 1) then GoWild(s)
    else
      var frame := s.frames[|s.frames| - 1];
      s.(stack := s.stack[..s.slots] + [Peek(s, 0)], frames := s.frames[..|s.frames| - 1],
         cl := frame.cl, ip := frame.ip, slots := frame.slots)
  }

  // ----- one instruction -----

  function DoUnary(s: State, op: UnOp): State
    requires HasOperands(s, 1)
  {
    var v := Peek(s, 0);
    match op
    case Print => s.(trace := s.trace + [Printed(v)])
    case First => Replace(s, 1, if v.TupleValue? then Done(v.first) else Bad(NoFirst(TypeOf(v))))
    case Second => Replace(s, 1, if v.TupleValue? then Done(v.second) else Bad(NoSecond(TypeOf(v))))
  }

  /** Executes i, which has been read: s.ip is already past it. */
  function Exec(lim: Limits, s: State, i: Instr): State
    requires s.cl < |s.heap|
  {
    var cl := s.heap[s.cl];
    match i
    case INop => s
    case IFalse => Push(lim, s, BoolValue(false))
    case ITrue => Push(lim, s, BoolValue(true))
    case IInt(n) => Push(lim, s, IntValue(n))
    case IConstant(k) =>
      if k >= |cl.fn.constants| then GoWild(s) else Push(lim, s, cl.fn.constants[k])
    case ITuple =>
      if !HasOperands(s, 2) then GoWild(s) else Replace(s, 2, Done(TupleValue(Peek(s, 1), Peek(s, 0))))
    case IClosure(k) => MakeClosure(lim, s, k)
    case ILocal(k) =>
      if s.slots + k >= |s.stack| then GoWild(s) else Load(lim, s, s.stack[s.slots + k])
    case INonlocal(k) =>
      if k >= |cl.nonlocals| then GoWild(s) else Load(lim, s, cl.nonlocals[k])
    case IBinary(op) =>
      if !HasOperands(s, 2) then GoWild(s) else Replace(s, 2, BinaryOp(op, Peek(s, 1), Peek(s, 0)))
    case IJump(t) => s.(ip := t)
    case IJumpIfFalse(t) =>
      if !HasOperands(s, 1) then GoWild(s)
      else s.(stack := s.stack[..|s.stack| - 1], ip := if IsFalsy(Peek(s, 0)) then t else s.ip)
    case IUnary(op) => if !HasOperands(s, 1) then GoWild(s) else DoUnary(s, op)
    case ICall(n) => DoCall(lim, s, n)
    case ITailCall(n) => DoTailCall(s, n)
    case IReturn => DoReturn(s)
  }

  function Step(lim: Limits, s: State): State {
    if s.status != Running then s
    else if s.cl >= |s.heap| then GoWild(s)
    else
      match Decode(s.heap[s.cl].fn.code, s.ip)
      case None => GoWild(s)
      case Some(i) => Exec(lim, s.(ip := s.ip + |Encode(i)|), i)
  }

  /** The state after n instructions. */
  function Run(lim: Limits, s: State, n: nat): State
    decreases n
  {
    if n == 0 then s else Run(lim, Step(lim, s), n - 1)
  }

  /** vm_run: the closure of the program, at address 0, is pushed and entered. */
  function Start(lim: Limits, main: CompiledFunction): State {
    Push(lim, State([], [], 0, 0, 0, [Closure(main, [])], [], Running), ClosureValue(0))
  }

  lemma {:induction false} RunSum(lim: Limits, s: State, m: nat, n: nat)
    ensures Run(lim, s, m + n) == Run(lim, Run(lim, s, m), n)
    decreases m
  {
    hide Step;
    if m > 0 {
      RunSum(lim, Step(lim, s), m - 1, n);
    }
  }
}
