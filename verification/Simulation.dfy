/** The relation between the reference evaluator and the machine running compiled code. Both sides
    allocate closures in the same order, so values and outputs are equal and only the heaps are
    related. */
module Simulation {
  import opened Values
  import opened Syntax
  import opened Bytecode
  import opened Codegen
  import opened Scoping
  import opened Machine
  import opened Semantics

  // ----- the relation -----

  /** A child index is one byte. */
  ghost predicate ChildrenFit(fn: CompiledFunction) {
    |fn.functions| <= 256 && forall f | f in fn.functions :: ChildrenFit(f)
  }

  /** fn is the code of a function with this body, compiled in some context. */
  ghost predicate CompilesTo(m: Mode, ps: seq<Parameter>, b: Term, outer: Context, isTail: bool,
                             fn: CompiledFunction) {
    && Wf(outer) && BodyContext(ps, outer).Ok?
    && var inner := BodyContext(ps, outer).value;
       var r := Compile(m, b, isTail, inner, 0);
       r.Ok? && fn == Finish(r.value.context, |ps|, r.value.bytes + Encode(IReturn))
  }

  ghost predicate Compiled(m: Mode, ps: seq<Parameter>, b: Term, fn: CompiledFunction) {
    exists outer: Context, isTail: bool :: CompilesTo(m, ps, b, outer, isTail, fn)
  }

  /** The closure cl runs the function value fv: its code is fv's, and it has captured the values
      that fv's environment gives to the names of its descriptors. */
  ghost predicate Implements(m: Mode, fv: FunctionValue, cl: Closure) {
    && Spine(fv.body)
    && FreeVars(fv.body) - ParamNames(fv.params) <= fv.env.Keys
    && ChildrenFit(cl.fn)
    && Compiled(m, fv.params, fv.body, cl.fn)
    && |cl.nonlocals| == |cl.fn.nonlocals|
    && forall j :: 0 <= j < |cl.nonlocals| ==>
         cl.fn.nonlocals[j].name in fv.env && cl.nonlocals[j] == fv.env[cl.fn.nonlocals[j].name]
  }

  ghost predicate HeapOk(m: Mode, sheap: seq<FunctionValue>, heap: seq<Closure>) {
    |sheap| == |heap| && forall a :: 0 <= a < |heap| ==> Implements(m, sheap[a], heap[a])
  }

  /** Where the compiler's table puts y, the frame holds y's value: in a slot, or captured. */
  ghost predicate VarOk(vs: seq<Variable>, y: string, env: Env, captured: Env, stack: seq<Value>, slots: nat) {
    y in env &&
    match LocalSlot(vs, y)
    case Some(i) => slots + i < |stack| && stack[slots + i] == env[y]
    case None => y in captured && captured[y] == env[y]
  }

  ghost predicate EnvOk(vs: seq<Variable>, names: set<string>, env: Env, captured: Env, stack: seq<Value>,
                        slots: nat) {
    forall y :: y in names ==> VarOk(vs, y, env, captured, stack, slots)
  }

  /** The tables of the finished function extend those of the context d. */
  ghost predicate Room(d: Context, fn: CompiledFunction) {
    d.Context? && d.constants <= fn.constants && d.functions <= fn.functions && d.nonlocals <= fn.nonlocals
  }

  /** The machine is about to run the code e, compiled in the context c at position base. */
  ghost predicate Ready(m: Mode, s: State, sheap: seq<FunctionValue>, c: Context, base: nat, e: Emitted) {
    && s.status == Running && s.ip == base
    && s.slots < |s.stack|
    && s.cl < |s.heap| && |sheap| == |s.heap| && HeapOk(m, sheap, s.heap)
    && c.Context? && Wf(c) && Room(e.context, s.heap[s.cl].fn)
    && CodeAt(s.heap[s.cl].fn.code, base, e.bytes)
  }

  // ----- results -----

  /** The machine has stopped the way the evaluator failed. On Timeout it is still running. */
  ghost predicate Stops<T>(s: State, k: nat, o: Outcome<T>, trace: seq<Event>, fuel: nat) {
    s.trace == trace &&
    match o
    case Val(_) => false
    case Error(e) => s.status == Failed(e)
    case Undef => s.status == Stuck
    case Wrong => s.status == Wild
    case Timeout => s.status == Running && k >= fuel
  }

  ghost predicate Extends(m: Mode, sheap: seq<FunctionValue>, s: State, sheap': seq<FunctionValue>, s': State) {
    sheap <= sheap' && s.heap <= s'.heap && HeapOk(m, sheap', s'.heap)
  }

  /** After k instructions the values vs have been pushed and execution continues at ip. */
  ghost predicate Pushes(m: Mode, s: State, sheap: seq<FunctionValue>, vs: seq<Value>, ip: nat,
                         sheap': seq<FunctionValue>, trace: seq<Event>, s': State) {
    && s' == s.(stack := s.stack + vs, ip := ip, heap := s'.heap, trace := trace)
    && Extends(m, sheap, s, sheap', s')
  }

  ghost predicate Evaluates(m: Mode, s: State, sheap: seq<FunctionValue>, ip: nat, a: Answer<Value>, fuel: nat,
                            k: nat, s': State) {
    s' == Run(Unbounded, s, k) &&
    if a.outcome.Val? then Pushes(m, s, sheap, [a.outcome.value], ip, a.heap, a.trace, s')
    else Stops(s', k, a.outcome, a.trace, fuel)
  }

  ghost predicate EvaluatesAll(m: Mode, s: State, sheap: seq<FunctionValue>, ip: nat, a: Answer<seq<Value>>,
                               fuel: nat, k: nat, s': State) {
    s' == Run(Unbounded, s, k) &&
    if a.outcome.Val? then Pushes(m, s, sheap, a.outcome.value, ip, a.heap, a.trace, s')
    else Stops(s', k, a.outcome, a.trace, fuel)
  }

  /** The running frame has returned v: the callstack is popped, every slot below the frame is as
      before and the frame is replaced by v. Without a caller the machine halts with v on top. */
  ghost predicate Returned(frames: seq<CallFrame>, below: seq<Value>, v: Value, trace: seq<Event>, s': State) {
    if frames == [] then s'.status == Halted && s'.trace == trace && |s'.stack| > 0 && s'.stack[|s'.stack| - 1] == v
    else
      var f := frames[|frames| - 1];
      s' == State(below + [v], frames[..|frames| - 1], f.cl, f.ip, f.slots, s'.heap, trace, Running)
  }

  ghost predicate Finishes(m: Mode, s: State, sheap: seq<FunctionValue>, a: Answer<Value>, fuel: nat, k: nat,
                           s': State)
    requires s.slots <= |s.stack|
  {
    s' == Run(Unbounded, s, k) &&
    if a.outcome.Val? then
      Returned(s.frames, s.stack[..s.slots], a.outcome.value, a.trace, s') && Extends(m, sheap, s, a.heap, s')
    else Stops(s', k, a.outcome, a.trace, fuel)
  }

  /** From p on the code does nothing but jump to a return. */
  ghost predicate LeadsToReturn(code: seq<byte>, p: nat)
    decreases |code| - p
  {
    match Decode(code, p)
    case Some(IReturn) => true
    case Some(IJump(t)) => p < t <= |code| && LeadsToReturn(code, t)
    case _ => false
  }

  // ----- single steps -----

  lemma StepDecoded(s: State, i: Instr)
    requires s.status == Running && s.cl < |s.heap| && CodeAt(s.heap[s.cl].fn.code, s.ip, Encode(i))
    ensures Step(Unbounded, s) == Exec(Unbounded, s.(ip := s.ip + |Encode(i)|), i)
  {
    DecodeEncoded(s.heap[s.cl].fn.code, s.ip, i);
    hide Exec, Encode, Decode, CodeAt;
  }

  lemma RunOne(s: State)
    ensures Run(Unbounded, s, 1) == Step(Unbounded, s)
  {
    hide Step;
    assert Run(Unbounded, s, 1) == Run(Unbounded, Step(Unbounded, s), 0);
  }

  lemma StepOne(s: State, i: Instr)
    requires s.status == Running && s.cl < |s.heap| && CodeAt(s.heap[s.cl].fn.code, s.ip, Encode(i))
    ensures Run(Unbounded, s, 1) == Exec(Unbounded, s.(ip := s.ip + |Encode(i)|), i)
  {
    hide Step, Exec, Run;
    RunOne(s);
    StepDecoded(s, i);
  }

  /** More instructions: k first, then n. */
  lemma RunThen(s: State, k: nat, s1: State, n: nat, s2: State)
    requires s1 == Run(Unbounded, s, k) && s2 == Run(Unbounded, s1, n)
    ensures s2 == Run(Unbounded, s, k + n)
  {
    hide Step;
    RunSum(Unbounded, s, k, n);
  }

  // ----- the relation is kept from one part of the code to the next -----

  lemma EnvGrows(c: Context, d: Context, lets: set<string>, names: set<string>, env: Env, captured: Env,
                 stack: seq<Value>, more: seq<Value>, slots: nat, ys: set<string>)
    requires c.Context? && Grows(c, d, lets, names) && ys !! lets
    requires EnvOk(c.variables, ys, env, captured, stack, slots)
    ensures EnvOk(d.variables, ys, env, captured, stack + more, slots)
  {
    forall y | y in ys
      ensures VarOk(d.variables, y, env, captured, stack + more, slots)
    {
      assert VarOk(c.variables, y, env, captured, stack, slots);
    }
  }

  lemma EnvSubset(vs: seq<Variable>, names: set<string>, ys: set<string>, env: Env, captured: Env, stack: seq<Value>,
                  slots: nat)
    requires EnvOk(vs, names, env, captured, stack, slots) && ys <= names
    ensures EnvOk(vs, ys, env, captured, stack, slots)
  {
    hide VarOk;
  }

  /** The lists of c are prefixes of those of d. */
  ghost predicate Fits(c: Context, d: Context) {
    c.Context? && d.Context? &&
    c.constants <= d.constants && c.functions <= d.functions && c.nonlocals <= d.nonlocals
  }

  lemma PrefixFits(c: Context, d: Context, lets: set<string>, names: set<string>)
    requires c.Context? && Grows(c, d, lets, names)
    ensures Fits(c, d)
  {
    hide Captures;
  }

  /** Code b1 followed by rest: the machine is ready for b1. */
  lemma ReadySplit(m: Mode, s: State, sheap: seq<FunctionValue>, c: Context, base: nat, d1: Context, b1: seq<byte>,
                   d: Context, rest: seq<byte>)
    requires Ready(m, s, sheap, c, base, Emitted(d, b1 + rest))
    requires Fits(d1, d)
    ensures Ready(m, s, sheap, c, base, Emitted(d1, b1))
  {
    hide HeapOk, Wf;
    CodeAtSplit(s.heap[s.cl].fn.code, base, b1, rest);
  }

  /** After b1 has pushed its values, the machine is ready for the rest. */
  lemma ReadyAfter(m: Mode, s: State, sheap: seq<FunctionValue>, c: Context, base: nat, b1: seq<byte>, d: Context,
                   rest: seq<byte>, c1: Context, vs: seq<Value>, sheap1: seq<FunctionValue>, trace: seq<Event>,
                   s1: State)
    requires Ready(m, s, sheap, c, base, Emitted(d, b1 + rest))
    requires Pushes(m, s, sheap, vs, base + |b1|, sheap1, trace, s1)
    requires c1.Context? && Wf(c1)
    ensures Ready(m, s1, sheap1, c1, base + |b1|, Emitted(d, rest))
    ensures s1.heap[s1.cl] == s.heap[s.cl] && sheap1[s1.cl] == sheap[s.cl]
  {
    hide Implements, Wf;
    CodeAtSplit(s.heap[s.cl].fn.code, base, b1, rest);
  }

  lemma PushesThen(m: Mode, s: State, sheap: seq<FunctionValue>, vs: seq<Value>, ip: nat, sheap1: seq<FunctionValue>,
                   trace: seq<Event>, s1: State, ws: seq<Value>, ip': nat, sheap2: seq<FunctionValue>,
                   trace': seq<Event>, s2: State)
    requires Pushes(m, s, sheap, vs, ip, sheap1, trace, s1)
    requires Pushes(m, s1, sheap1, ws, ip', sheap2, trace', s2)
    ensures Pushes(m, s, sheap, vs + ws, ip', sheap2, trace', s2)
  {
    hide HeapOk;
    assert s.stack + vs + ws == s.stack + (vs + ws);
  }

  // ----- instructions at the end of a term -----

  /** The last instruction of a term, with its operands vs pushed by the code before it. */
  lemma PrimStep(m: Mode, s: State, sheap: seq<FunctionValue>, vs: seq<Value>, c: Context, i: Instr, p: Prim<Value>,
                 ip: nat, sheap1: seq<FunctionValue>, trace: seq<Event>, s1: State, d: Context)
    returns (s2: State)
    requires Pushes(m, s, sheap, vs, ip, sheap1, trace, s1)
    requires Ready(m, s1, sheap1, c, ip, Emitted(d, Encode(i)))
    requires s.slots < |s.stack|
    requires var r := s1.(ip := ip + |Encode(i)|);
      HasOperands(r, |vs|) && Exec(Unbounded, r, i) == Replace(r, |vs|, p)
    ensures s2 == Run(Unbounded, s1, 1)
    ensures match p
      case Done(v) => Pushes(m, s, sheap, [v], ip + |Encode(i)|, sheap1, trace, s2)
      case Bad(e) => s2.status == Failed(e) && s2.trace == trace
      case Undefined => s2.status == Stuck && s2.trace == trace
  {
    hide HeapOk, Exec, Encode, Wf;
    StepOne(s1, i);
    s2 := Run(Unbounded, s1, 1);
    hide Run;
    assert (s.stack + vs)[..|s.stack + vs| - |vs|] == s.stack;
  }
}
