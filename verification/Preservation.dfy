/** Compiled code means what the program means: the simulation, by induction on the evaluation. */
module Preservation {
  import opened Values
  import opened Syntax
  import opened Bytecode
  import opened Codegen
  import opened Scoping
  import opened Machine
  import opened Semantics
  import opened Simulation

  lemma HeapAt(m: Mode, sheap: seq<FunctionValue>, heap: seq<Closure>, a: nat)
    requires HeapOk(m, sheap, heap) && a < |heap|
    ensures |sheap| == |heap| && Implements(m, sheap[a], heap[a]) && ChildrenFit(heap[a].fn)
  {
    hide Compiled, ChildrenFit;
  }

  lemma EnvCovers(vs: seq<Variable>, names: set<string>, env: Env, captured: Env, stack: seq<Value>, slots: nat)
    requires EnvOk(vs, names, env, captured, stack, slots)
    ensures names <= env.Keys
  {
    forall y | y in names ensures y in env.Keys {
      assert VarOk(vs, y, env, captured, stack, slots);
    }
  }

  // ----- instructions that push -----

  lemma PushStep(m: Mode, s: State, sheap: seq<FunctionValue>, c: Context, base: nat, d: Context, i: Instr, v: Value)
    requires Ready(m, s, sheap, c, base, Emitted(d, Encode(i)))
    requires var r := s.(ip := base + |Encode(i)|); Exec(Unbounded, r, i) == r.(stack := r.stack + [v])
    ensures Pushes(m, s, sheap, [v], base + |Encode(i)|, sheap, s.trace, Run(Unbounded, s, 1))
  {
    hide HeapOk, Exec, Encode, Wf, Run;
    StepOne(s, i);
  }

  /** An instruction that pushes the value of a variable. */
  lemma LoadStep(m: Mode, s: State, sheap: seq<FunctionValue>, c: Context, base: nat, d: Context, i: Instr, v: Value)
    requires Ready(m, s, sheap, c, base, Emitted(d, Encode(i)))
    requires var r := s.(ip := base + |Encode(i)|);
      Exec(Unbounded, r, i) == r.(stack := r.stack + [v], trace := r.trace + [Loaded(v)])
    ensures Pushes(m, s, sheap, [v], base + |Encode(i)|, sheap, s.trace + [Loaded(v)], Run(Unbounded, s, 1))
  {
    hide HeapOk, Exec, Encode, Wf, Run;
    StepOne(s, i);
  }

  /** The table of a captured variable and the closure agree on its value. */
  lemma CapturedValue(m: Mode, c: Context, d: Context, x: string, v: Variable, env: Env, fv: FunctionValue,
                      cl: Closure, stack: seq<Value>, slots: nat)
    requires c.Context? && d.Context? && Wf(d) && LocalSlot(d.variables, x) == LocalSlot(c.variables, x)
    requires Lookup(d.variables, x) == Some(v) && d.nonlocals <= cl.fn.nonlocals
    requires Implements(m, fv, cl) && VarOk(c.variables, x, env, fv.env, stack, slots)
    ensures x in env
    ensures if v.isLocal then slots + v.index < |stack| && stack[slots + v.index] == env[x]
            else v.index < |cl.nonlocals| && cl.nonlocals[v.index] == env[x]
  {
    hide Compiled, ChildrenFit, Spine, FreeVars;
    assert EntryOk(d, x);
    if !v.isLocal {
      assert cl.fn.nonlocals[v.index] == d.nonlocals[v.index];
    }
  }

  /** Closure conversion is correct: the instruction emitted for a variable loads the value that
      lexical scoping gives to its name. */
  lemma VariableStep(m: Mode, s: State, sheap: seq<FunctionValue>, c: Context, base: nat, x: string, env: Env)
    requires m.emit && c.Context? && CompileVar(m, c, x).Ok?
    requires Ready(m, s, sheap, c, base, CompileVar(m, c, x).value)
    requires VarOk(c.variables, x, env, sheap[s.cl].env, s.stack, s.slots)
    ensures var ip := base + |CompileVar(m, c, x).value.bytes|;
      Pushes(m, s, sheap, [env[x]], ip, sheap, s.trace + [Loaded(env[x])], Run(Unbounded, s, 1))
  {
    hide VarOk, Implements, HeapOk, Wf, Run, Pushes;
    var (d, v) := Resolve(c, x).value;
    hide Resolve;
    ResolveCaptures(c, x);
    HeapAt(m, sheap, s.heap, s.cl);
    CapturedValue(m, c, d, x, v, env, sheap[s.cl], s.heap[s.cl], s.stack, s.slots);
    hide Captures;
    var i := if v.isLocal then ILocal(v.index) else INonlocal(v.index);
    LoadStep(m, s, sheap, c, base, d, i, env[x]);
  }

  lemma ConstantStep(m: Mode, s: State, sheap: seq<FunctionValue>, c: Context, base: nat, v: Value)
    requires m.emit && c.Context? && CompileConstant(m, c, v).Ok?
    requires Ready(m, s, sheap, c, base, CompileConstant(m, c, v).value)
    ensures var ip := base + |CompileConstant(m, c, v).value.bytes|;
      Pushes(m, s, sheap, [v], ip, sheap, s.trace, Run(Unbounded, s, 1))
  {
    var d := CompileConstant(m, c, v).value.context;
    var k := |c.constants|;
    assert d.constants[k] == v;
    assert s.heap[s.cl].fn.constants[k] == d.constants[k];
    PushStep(m, s, sheap, c, base, d, IConstant(k), v);
  }

  // ----- closure creation -----

  ghost predicate CapturedAs(n: Nonlocal, env: Env, cl: Closure, stack: seq<Value>, slots: nat) {
    n.name in env &&
    if n.isLocal then slots + n.index < |stack| && stack[slots + n.index] == env[n.name]
    else n.index < |cl.nonlocals| && cl.nonlocals[n.index] == env[n.name]
  }

  lemma DescriptorOk(m: Mode, c: Context, outer: Context, free: set<string>, n: Nonlocal, env: Env, fv: FunctionValue,
                     cl: Closure, stack: seq<Value>, slots: nat)
    requires c.Context? && Wf(outer) && Captures(c, outer, free) && n.name in free
    requires Lookup(outer.variables, n.name) == Some(Variable(n.name, n.isLocal, n.index))
    requires outer.nonlocals <= cl.fn.nonlocals && Implements(m, fv, cl)
    requires EnvOk(c.variables, free, env, fv.env, stack, slots)
    ensures CapturedAs(n, env, cl, stack, slots)
  {
    var v := Variable(n.name, n.isLocal, n.index);
    assert VarOk(c.variables, n.name, env, fv.env, stack, slots);
    CapturedValue(m, c, outer, n.name, v, env, fv, cl, stack, slots);
  }

  /** The values captured for a function are those its free variables have; `stack` already holds
      the new closure. */
  lemma CaptureOk(m: Mode, t: Term, c: Context, fv: FunctionValue, cl: Closure, env: Env, stack: seq<Value>, slots: nat)
    requires t.Function? && c.Context? && Wf(c) && CompileFunction(m, t.params, t.body, c).Ok?
    requires Implements(m, fv, cl)
    requires CompileFunction(m, t.params, t.body, c).value.0.nonlocals <= cl.fn.nonlocals
    requires EnvOk(c.variables, FreeVars(t), env, fv.env, stack, slots)
    ensures var ns := CompileFunction(m, t.params, t.body, c).value.1.nonlocals;
      CanCapture(ns, stack, slots, cl.nonlocals) &&
      forall j :: 0 <= j < |ns| ==>
        ns[j].name in env && Capture(ns, stack, slots, cl.nonlocals)[j] == env[ns[j].name]
  {
    hide CompileFunction, Wf, Captures, EnvOk, Implements, Closed, CapturedAs, CanCapture, Capture;
    FunctionGrows(m, t.params, t.body, c);
    var (outer, fn) := CompileFunction(m, t.params, t.body, c).value;
    var ns := fn.nonlocals;
    hide FreeVars;
    forall j | 0 <= j < |ns|
      ensures CapturedAs(ns[j], env, cl, stack, slots)
    {
      ClosedAt(fn, outer, FreeVars(t), j);
      DescriptorOk(m, c, outer, FreeVars(t), ns[j], env, fv, cl, stack, slots);
    }
    CapturedAll(ns, env, cl, stack, slots);
  }

  lemma ClosedAt(fn: CompiledFunction, outer: Context, free: set<string>, j: nat)
    requires Closed(fn, outer, free) && j < |fn.nonlocals|
    ensures var n := fn.nonlocals[j];
      n.name in free &&
      (outer.Context? ==> Lookup(outer.variables, n.name) == Some(Variable(n.name, n.isLocal, n.index)))
  {
  }

  lemma CapturedAll(ns: seq<Nonlocal>, env: Env, cl: Closure, stack: seq<Value>, slots: nat)
    requires forall j :: 0 <= j < |ns| ==> CapturedAs(ns[j], env, cl, stack, slots)
    ensures CanCapture(ns, stack, slots, cl.nonlocals) &&
      forall j :: 0 <= j < |ns| ==>
        ns[j].name in env && Capture(ns, stack, slots, cl.nonlocals)[j] == env[ns[j].name]
  {
  }

  /** The new closure implements the new function value. */
  lemma NewClosureImplements(m: Mode, t: Term, c: Context, env: Env, captured: seq<Value>)
    requires m.emit && t.Function? && c.Context? && Wf(c) && Spine(t.body)
    requires CompileFunction(m, t.params, t.body, c).Ok?
    requires FreeVars(t) <= env.Keys
    requires ChildrenFit(CompileFunction(m, t.params, t.body, c).value.1)
    requires var ns := CompileFunction(m, t.params, t.body, c).value.1.nonlocals;
      |captured| == |ns| &&
      forall j :: 0 <= j < |ns| ==> ns[j].name in env && captured[j] == env[ns[j].name]
    ensures Implements(m, FunctionValue(t.params, t.body, env),
                       Closure(CompileFunction(m, t.params, t.body, c).value.1, captured))
  {
    var fn := CompileFunction(m, t.params, t.body, c).value.1;
    assert CompilesTo(m, t.params, t.body, c, true, fn);
  }

  lemma HeapGrows(m: Mode, sheap: seq<FunctionValue>, heap: seq<Closure>, fv: FunctionValue, cl: Closure)
    requires HeapOk(m, sheap, heap) && Implements(m, fv, cl)
    ensures HeapOk(m, sheap + [fv], heap + [cl])
  {
    hide Implements;
  }

  /** Creating a closure: what the machine does, given that the capture succeeds. */
  lemma ClosureExec(s: State, k: byte, fn: CompiledFunction)
    requires s.status == Running && s.cl < |s.heap| && k < |s.heap[s.cl].fn.functions|
    requires fn == s.heap[s.cl].fn.functions[k]
    requires CanCapture(fn.nonlocals, s.stack + [ClosureValue(|s.heap|)], s.slots, s.heap[s.cl].nonlocals)
    ensures var stack := s.stack + [ClosureValue(|s.heap|)];
      Exec(Unbounded, s, IClosure(k)) ==
      s.(stack := stack, heap := s.heap + [Closure(fn, Capture(fn.nonlocals, stack, s.slots, s.heap[s.cl].nonlocals))])
  {
    hide CanCapture, Capture;
  }

  /** The child functions of a context are found under their index. */
  lemma ChildAt(d: Context, fn: CompiledFunction, outer: Context, child: CompiledFunction)
    requires outer.Context? && Room(d, fn) && ChildrenFit(fn)
    requires d == outer.(functions := outer.functions + [child])
    ensures |outer.functions| < 256 && |outer.functions| < |fn.functions| && fn.functions[|outer.functions|] == child
    ensures ChildrenFit(child)
  {
    assert d.functions[|outer.functions|] == child;
    assert child in fn.functions;
  }

  lemma ClosureInstr(m: Mode, s: State, sheap: seq<FunctionValue>, c: Context, base: nat, d: Context, k: byte,
                     fn: CompiledFunction, fv: FunctionValue)
    requires Ready(m, s, sheap, c, base, Emitted(d, Encode(IClosure(k))))
    requires k < |s.heap[s.cl].fn.functions| && fn == s.heap[s.cl].fn.functions[k]
    requires var stack := s.stack + [ClosureValue(|sheap|)];
      CanCapture(fn.nonlocals, stack, s.slots, s.heap[s.cl].nonlocals) &&
      Implements(m, fv, Closure(fn, Capture(fn.nonlocals, stack, s.slots, s.heap[s.cl].nonlocals)))
    ensures Pushes(m, s, sheap, [ClosureValue(|sheap|)], base + |Encode(IClosure(k))|, sheap + [fv], s.trace,
                   Run(Unbounded, s, 1))
  {
    hide Implements, Exec, Run, CanCapture, Capture, Wf, Room;
    var stack := s.stack + [ClosureValue(|sheap|)];
    StepOne(s, IClosure(k));
    ClosureExec(s.(ip := base + |Encode(IClosure(k))|), k, fn);
    HeapGrows(m, sheap, s.heap, fv, Closure(fn, Capture(fn.nonlocals, stack, s.slots, s.heap[s.cl].nonlocals)));
    hide HeapOk;
  }

  lemma ClosureStep(m: Mode, t: Term, c: Context, base: nat, s: State, sheap: seq<FunctionValue>, env: Env)
    requires m.emit && t.Function? && Spine(t.body) && c.Context? && CompileClosure(m, t, c).Ok?
    requires Ready(m, s, sheap, c, base, CompileClosure(m, t, c).value)
    requires EnvOk(c.variables, FreeVars(t), env, sheap[s.cl].env, s.stack + [ClosureValue(|sheap|)], s.slots)
    ensures Pushes(m, s, sheap, [ClosureValue(|sheap|)], base + |CompileClosure(m, t, c).value.bytes|,
                   sheap + [FunctionValue(t.params, t.body, env)], s.trace, Run(Unbounded, s, 1))
  {
    hide HeapOk, Implements, ChildrenFit, Spine, Run, Wf, EnvOk, FreeVars, Pushes, CanCapture, Capture;
    var d := CompileClosure(m, t, c).value.context;
    var (outer, fn) := CompileFunction(m, t.params, t.body, c).value;
    hide CompileFunction;
    var cl := s.heap[s.cl];
    HeapAt(m, sheap, s.heap, s.cl);
    ChildAt(d, cl.fn, outer, fn);
    var stack := s.stack + [ClosureValue(|sheap|)];
    CaptureOk(m, t, c, sheap[s.cl], cl, env, stack, s.slots);
    EnvCovers(c.variables, FreeVars(t), env, sheap[s.cl].env, stack, s.slots);
    NewClosureImplements(m, t, c, env, Capture(fn.nonlocals, stack, s.slots, cl.nonlocals));
    ClosureInstr(m, s, sheap, c, base, d, |outer.functions|, fn, FunctionValue(t.params, t.body, env));
  }

  // ----- the simulation -----

  lemma {:induction false} OperandBindsNothing(t: Term)
    requires Operand(t)
    ensures LetNames(t) == {}
    decreases t
  {
    match t
    case Call(f, args, _) =>
      OperandBindsNothing(f);
      OperandsBindNothing(args);
    case Binary(l, _, r, _) =>
      OperandBindsNothing(l);
      OperandBindsNothing(r);
    case Unary(_, e, _) => OperandBindsNothing(e);
    case Pair(l, r, _) =>
      OperandBindsNothing(l);
      OperandBindsNothing(r);
    case If(c, a, b, _) =>
      OperandBindsNothing(c);
      OperandBindsNothing(a);
      OperandBindsNothing(b);
    case _ =>
  }

  lemma {:induction false} OperandsBindNothing(ts: seq<Term>)
    requires Operands(ts)
    ensures LetNamesAll(ts) == {}
    decreases ts
  {
    if ts != [] {
      OperandBindsNothing(ts[0]);
      OperandsBindNothing(ts[1..]);
    }
  }

  // A binary operator and a tuple are compiled alike: both operands, then one instruction.

  ghost predicate IsTwo(t: Term) {
    t.Binary? || t.Pair?
  }

  ghost function Left(t: Term): (e: Term)
    requires IsTwo(t)
    ensures e < t
  {
    if t.Binary? then t.lhs else t.fst
  }

  ghost function Right(t: Term): (e: Term)
    requires IsTwo(t)
    ensures e < t
  {
    if t.Binary? then t.rhs else t.snd
  }

  ghost function TwoInstr(t: Term): Instr
    requires IsTwo(t)
  {
    if t.Binary? then IBinary(t.op) else ITuple
  }

  ghost function TwoPrim(t: Term, v: Value, w: Value): Prim<Value>
    requires IsTwo(t)
  {
    if t.Binary? then BinaryOp(t.op, v, w) else Done(TupleValue(v, w))
  }

  ghost function EvalBoth(t: Term, env: Env, heap: seq<FunctionValue>, trace: seq<Event>, fuel: nat)
    : (a: Answer<seq<Value>>)
    requires IsTwo(t)
    ensures a.outcome.Val? ==> |a.outcome.value| == 2
  {
    var a1 := Eval(Left(t), env, heap, trace, fuel);
    if !a1.outcome.Val? then Propagate(a1)
    else
      var a2 := Eval(Right(t), env, a1.heap, a1.trace, fuel);
      if !a2.outcome.Val? then Propagate(a2)
      else Answer(Val([a1.outcome.value, a2.outcome.value]), a2.heap, a2.trace)
  }

  lemma TwoParts(t: Term)
    requires IsTwo(t)
    ensures FreeVars(t) == FreeVars(Left(t)) + FreeVars(Right(t))
    ensures Operand(t) ==> Operand(Left(t)) && Operand(Right(t))
  {
  }

  lemma EvalTwo(t: Term, env: Env, heap: seq<FunctionValue>, trace: seq<Event>, fuel: nat)
    requires IsTwo(t)
    ensures var a := EvalBoth(t, env, heap, trace, fuel);
      Eval(t, env, heap, trace, fuel) ==
      if !a.outcome.Val? then Propagate(a)
      else Answer(OfPrim(TwoPrim(t, a.outcome.value[0], a.outcome.value[1])), a.heap, a.trace)
  {
    hide BinaryOp;
  }

  lemma CompileTwo(m: Mode, t: Term, isTail: bool, c: Context, base: nat) returns (e1: Emitted, e2: Emitted)
    requires IsTwo(t) && m.emit && c.Context? && Compile(m, t, isTail, c, base).Ok?
    ensures Compile(m, Left(t), false, c, base) == Ok(e1) && e1.context.Context?
    ensures Compile(m, Right(t), false, e1.context, base + |e1.bytes|) == Ok(e2)
    ensures Compile(m, t, isTail, c, base).value ==
      Emitted(e2.context, (e1.bytes + e2.bytes) + Encode(TwoInstr(t)))
  {
    hide Encode, CompileInt, CompileConstant, CompileVar, CompileCall, CompileUnary, CompileClosure, CompileLet,
      CompileIf;
    e1 := Compile(m, Left(t), false, c, base).value;
    e2 := Compile(m, Right(t), false, e1.context, base + |e1.bytes|).value;
  }

  lemma {:induction false} SimulateBoth(m: Mode, t: Term, c: Context, base: nat, e1: Emitted, e2: Emitted, s: State,
                                        sheap: seq<FunctionValue>, env: Env, fuel: nat)
    returns (k: nat, s': State)
    requires IsTwo(t) && m.emit && c.Context? && Operand(Left(t)) && Operand(Right(t))
    requires Compile(m, Left(t), false, c, base) == Ok(e1) && e1.context.Context?
    requires Compile(m, Right(t), false, e1.context, base + |e1.bytes|) == Ok(e2)
    requires Ready(m, s, sheap, c, base, Emitted(e2.context, e1.bytes + e2.bytes))
    requires EnvOk(c.variables, FreeVars(Left(t)) + FreeVars(Right(t)), env, sheap[s.cl].env, s.stack, s.slots)
    ensures EvaluatesAll(m, s, sheap, base + |e1.bytes + e2.bytes|, EvalBoth(t, env, sheap, s.trace, fuel), fuel, k, s')
    decreases fuel, 1, t, 0
  {
    hide Wf, Grows, HeapOk, EnvOk, Run, Compile, Eval, Operand, FreeVars, LetNames, CodeAt, Left, Right;
    var l, r := Left(t), Right(t);
    CompileGrows(m, l, false, c, base);
    CompileGrows(m, r, false, e1.context, base + |e1.bytes|);
    OperandBindsNothing(l);
    EnvSubset(c.variables, FreeVars(l) + FreeVars(r), FreeVars(l), env, sheap[s.cl].env, s.stack, s.slots);
    EnvSubset(c.variables, FreeVars(l) + FreeVars(r), FreeVars(r), env, sheap[s.cl].env, s.stack, s.slots);
    PrefixFits(e1.context, e2.context, LetNames(r), FreeVars(r));
    ReadySplit(m, s, sheap, c, base, e1.context, e1.bytes, e2.context, e2.bytes);
    var k1, s1 := SimulateOperand(m, l, false, c, base, s, sheap, env, fuel);
    var a1 := Eval(l, env, sheap, s.trace, fuel);
    if !a1.outcome.Val? {
      return k1, s1;
    }
    var v1 := a1.outcome.value;
    ReadyAfter(m, s, sheap, c, base, e1.bytes, e2.context, e2.bytes, e1.context, [v1], a1.heap, a1.trace, s1);
    EnvGrows(c, e1.context, LetNames(l), FreeVars(l), env, sheap[s.cl].env, s.stack, [v1], s.slots, FreeVars(r));
    var k2, s2 := SimulateOperand(m, r, false, e1.context, base + |e1.bytes|, s1, a1.heap, env, fuel);
    RunThen(s, k1, s1, k2, s2);
    var a2 := Eval(r, env, a1.heap, a1.trace, fuel);
    if a2.outcome.Val? {
      PushesThen(m, s, sheap, [v1], base + |e1.bytes|, a1.heap, a1.trace, s1,
                 [a2.outcome.value], base + |e1.bytes + e2.bytes|, a2.heap, a2.trace, s2);
      assert [v1] + [a2.outcome.value] == [v1, a2.outcome.value];
    }
    return k1 + k2, s2;
  }

  lemma {:induction false} SimulateTwo(m: Mode, t: Term, isTail: bool, c: Context, base: nat, s: State,
                                       sheap: seq<FunctionValue>, env: Env, fuel: nat)
    returns (k: nat, s': State)
    requires IsTwo(t) && m.emit && c.Context? && Compile(m, t, isTail, c, base).Ok?
    requires Operand(t)
    requires Ready(m, s, sheap, c, base, Compile(m, t, isTail, c, base).value)
    requires EnvOk(c.variables, FreeVars(t), env, sheap[s.cl].env, s.stack, s.slots)
    ensures Evaluates(m, s, sheap, base + |Compile(m, t, isTail, c, base).value.bytes|,
                      Eval(t, env, sheap, s.trace, fuel), fuel, k, s')
    decreases fuel, 1, t, 1
  {
    hide Wf, Grows, HeapOk, EnvOk, Run, Compile, Eval, Operand, FreeVars, LetNames, CodeAt, Left, Right, Encode,
      BinaryOp, EvalBoth;
    var e1, e2 := CompileTwo(m, t, isTail, c, base);
    var b, i := e1.bytes + e2.bytes, TwoInstr(t);
    TwoParts(t);
    EvalTwo(t, env, sheap, s.trace, fuel);
    CompileGrows(m, Left(t), false, c, base);
    CompileGrows(m, Right(t), false, e1.context, base + |e1.bytes|);
    ReadySplit(m, s, sheap, c, base, e2.context, b, e2.context, Encode(i));
    var k1, s1 := SimulateBoth(m, t, c, base, e1, e2, s, sheap, env, fuel);
    var a := EvalBoth(t, env, sheap, s.trace, fuel);
    if !a.outcome.Val? {
      return k1, s1;
    }
    var v, w := a.outcome.value[0], a.outcome.value[1];
    ReadyAfter(m, s, sheap, c, base, b, e2.context, Encode(i), e2.context, [v, w], a.heap, a.trace, s1);
    TwoExec(t, s1.(ip := base + |b| + |Encode(i)|), s.stack, v, w);
    var s2 := PrimStep(m, s, sheap, [v, w], e2.context, i, TwoPrim(t, v, w), base + |b|, a.heap, a.trace, s1,
                       e2.context);
    RunThen(s, k1, s1, 1, s2);
    return k1 + 1, s2;
  }

  lemma TwoExec(t: Term, s: State, stack: seq<Value>, v: Value, w: Value)
    requires IsTwo(t) && s.stack == stack + [v, w] && s.slots < |stack| && s.cl < |s.heap|
    ensures HasOperands(s, 2) && Exec(Unbounded, s, TwoInstr(t)) == Replace(s, 2, TwoPrim(t, v, w))
  {
    hide BinaryOp;
    assert Peek(s, 1) == v && Peek(s, 0) == w;
  }

  // ----- unary operators -----

  lemma UnaryParts(m: Mode, t: Term, isTail: bool, c: Context, base: nat, env: Env, heap: seq<FunctionValue>,
                   trace: seq<Event>, fuel: nat) returns (e: Emitted)
    requires t.Unary? && m.emit && c.Context? && Compile(m, t, isTail, c, base).Ok? && Operand(t)
    ensures Compile(m, t.operand, false, c, base) == Ok(e) && e.context.Context?
    ensures Compile(m, t, isTail, c, base).value == Emitted(e.context, e.bytes + Encode(IUnary(t.unop)))
    ensures Operand(t.operand) && FreeVars(t) == FreeVars(t.operand)
    ensures var a := Eval(t.operand, env, heap, trace, fuel);
      Eval(t, env, heap, trace, fuel) == if a.outcome.Val? then EvalUnary(t.unop, a) else a
  {
    hide Encode, CompileInt, CompileConstant, CompileVar, CompileCall, CompileBinary, CompilePair, CompileClosure,
      CompileLet, CompileIf, EvalUnary;
    e := Compile(m, t.operand, false, c, base).value;
  }

  /** First and Second as primitives. */
  ghost function Projection(op: UnOp, v: Value): Prim<Value>
    requires !op.Print?
  {
    if v.TupleValue? then Done(if op.First? then v.first else v.second)
    else Bad(if op.First? then NoFirst(TypeOf(v)) else NoSecond(TypeOf(v)))
  }

  lemma UnaryExec(s: State, op: UnOp, stack: seq<Value>, v: Value)
    requires s.stack == stack + [v] && s.slots < |stack| && s.cl < |s.heap|
    ensures HasOperands(s, 1)
    ensures Exec(Unbounded, s, IUnary(op)) ==
      if op.Print? then s.(trace := s.trace + [Printed(v)]) else Replace(s, 1, Projection(op, v))
  {
    hide Replace;
    assert Peek(s, 0) == v;
  }

  lemma PrintStep(m: Mode, s: State, sheap: seq<FunctionValue>, c: Context, base: nat, d: Context, v: Value,
                  sheap1: seq<FunctionValue>, trace: seq<Event>, s1: State) returns (s2: State)
    requires Pushes(m, s, sheap, [v], base, sheap1, trace, s1) && s.slots < |s.stack|
    requires Ready(m, s1, sheap1, c, base, Emitted(d, Encode(IUnary(Print))))
    ensures s2 == Run(Unbounded, s1, 1)
    ensures Pushes(m, s, sheap, [v], base + |Encode(IUnary(Print))|, sheap1, trace + [Printed(v)], s2)
  {
    hide HeapOk, Wf, Exec, Encode, Run;
    StepOne(s1, IUnary(Print));
    UnaryExec(s1.(ip := base + |Encode(IUnary(Print))|), Print, s.stack, v);
    s2 := Run(Unbounded, s1, 1);
  }

  lemma {:induction false} SimulateUnary(m: Mode, t: Term, isTail: bool, c: Context, base: nat, s: State,
                                         sheap: seq<FunctionValue>, env: Env, fuel: nat)
    returns (k: nat, s': State)
    requires t.Unary? && m.emit && c.Context? && Compile(m, t, isTail, c, base).Ok?
    requires Operand(t)
    requires Ready(m, s, sheap, c, base, Compile(m, t, isTail, c, base).value)
    requires EnvOk(c.variables, FreeVars(t), env, sheap[s.cl].env, s.stack, s.slots)
    ensures Evaluates(m, s, sheap, base + |Compile(m, t, isTail, c, base).value.bytes|,
                      Eval(t, env, sheap, s.trace, fuel), fuel, k, s')
    decreases fuel, 1, t, 0
  {
    hide Wf, Grows, HeapOk, EnvOk, Run, Compile, Eval, Operand, FreeVars, LetNames, CodeAt, Encode;
    var e := UnaryParts(m, t, isTail, c, base, env, sheap, s.trace, fuel);
    var i := IUnary(t.unop);
    CompileGrows(m, t.operand, false, c, base);
    ReadySplit(m, s, sheap, c, base, e.context, e.bytes, e.context, Encode(i));
    var k1, s1 := SimulateOperand(m, t.operand, false, c, base, s, sheap, env, fuel);
    var a := Eval(t.operand, env, sheap, s.trace, fuel);
    if !a.outcome.Val? {
      return k1, s1;
    }
    var v := a.outcome.value;
    ReadyAfter(m, s, sheap, c, base, e.bytes, e.context, Encode(i), e.context, [v], a.heap, a.trace, s1);
    var s2;
    if t.unop.Print? {
      s2 := PrintStep(m, s, sheap, e.context, base + |e.bytes|, e.context, v, a.heap, a.trace, s1);
    } else {
      UnaryExec(s1.(ip := base + |e.bytes| + |Encode(i)|), t.unop, s.stack, v);
      s2 := PrimStep(m, s, sheap, [v], e.context, i, Projection(t.unop, v), base + |e.bytes|, a.heap, a.trace, s1,
                     e.context);
    }
    RunThen(s, k1, s1, 1, s2);
    return k1 + 1, s2;
  }

  // ----- argument lists -----

  lemma AllParts(m: Mode, ts: seq<Term>, c: Context, base: nat, env: Env, heap: seq<FunctionValue>, trace: seq<Event>,
                 fuel: nat) returns (e1: Emitted, e2: Emitted)
    requires ts != [] && m.emit && c.Context? && CompileAll(m, ts, c, base).Ok? && Operands(ts)
    ensures Compile(m, ts[0], false, c, base) == Ok(e1) && e1.context.Context?
    ensures CompileAll(m, ts[1..], e1.context, base + |e1.bytes|) == Ok(e2)
    ensures CompileAll(m, ts, c, base).value == Emitted(e2.context, e1.bytes + e2.bytes)
    ensures Operand(ts[0]) && Operands(ts[1..]) && FreeVarsAll(ts) == FreeVars(ts[0]) + FreeVarsAll(ts[1..])
    ensures var a1 := Eval(ts[0], env, heap, trace, fuel);
      EvalAll(ts, env, heap, trace, fuel) ==
      if !a1.outcome.Val? then Propagate(a1)
      else
        var a2 := EvalAll(ts[1..], env, a1.heap, a1.trace, fuel);
        if !a2.outcome.Val? then a2 else a2.(outcome := Val([a1.outcome.value] + a2.outcome.value))
  {
    hide Compile, Eval, Operand, FreeVars;
    e1 := Compile(m, ts[0], false, c, base).value;
    e2 := CompileAll(m, ts[1..], e1.context, base + |e1.bytes|).value;
  }

  lemma NothingToRun(m: Mode, s: State, sheap: seq<FunctionValue>)
    requires HeapOk(m, sheap, s.heap)
    ensures s == Run(Unbounded, s, 0) && Pushes(m, s, sheap, [], s.ip, sheap, s.trace, s)
  {
    hide HeapOk, Step;
    assert s.stack + [] == s.stack;
  }

  lemma {:induction false} SimulateAll(m: Mode, ts: seq<Term>, c: Context, base: nat, s: State,
                                       sheap: seq<FunctionValue>, env: Env, fuel: nat)
    returns (k: nat, s': State)
    requires m.emit && c.Context? && CompileAll(m, ts, c, base).Ok?
    requires Operands(ts)
    requires Ready(m, s, sheap, c, base, CompileAll(m, ts, c, base).value)
    requires EnvOk(c.variables, FreeVarsAll(ts), env, sheap[s.cl].env, s.stack, s.slots)
    ensures EvaluatesAll(m, s, sheap, base + |CompileAll(m, ts, c, base).value.bytes|,
                         EvalAll(ts, env, sheap, s.trace, fuel), fuel, k, s')
    decreases fuel, 1, ts, 3
  {
    hide Wf, Grows, HeapOk, EnvOk, Run, Compile, Eval, Operand, FreeVars, LetNames, CodeAt, Encode;
    if ts == [] {
      NothingToRun(m, s, sheap);
      return 0, s;
    }
    var t, rest := ts[0], ts[1..];
    var e1, e2 := AllParts(m, ts, c, base, env, sheap, s.trace, fuel);
    hide CompileAll, EvalAll, FreeVarsAll, Operands, LetNamesAll;
    CompileGrows(m, t, false, c, base);
    CompileAllGrows(m, rest, e1.context, base + |e1.bytes|);
    OperandBindsNothing(t);
    EnvSubset(c.variables, FreeVarsAll(ts), FreeVars(t), env, sheap[s.cl].env, s.stack, s.slots);
    EnvSubset(c.variables, FreeVarsAll(ts), FreeVarsAll(rest), env, sheap[s.cl].env, s.stack, s.slots);
    PrefixFits(e1.context, e2.context, LetNamesAll(rest), FreeVarsAll(rest));
    ReadySplit(m, s, sheap, c, base, e1.context, e1.bytes, e2.context, e2.bytes);
    var k1, s1 := SimulateOperand(m, t, false, c, base, s, sheap, env, fuel);
    var a1 := Eval(t, env, sheap, s.trace, fuel);
    if !a1.outcome.Val? {
      return k1, s1;
    }
    var v1 := a1.outcome.value;
    ReadyAfter(m, s, sheap, c, base, e1.bytes, e2.context, e2.bytes, e1.context, [v1], a1.heap, a1.trace, s1);
    EnvGrows(c, e1.context, LetNames(t), FreeVars(t), env, sheap[s.cl].env, s.stack, [v1], s.slots, FreeVarsAll(rest));
    var k2, s2 := SimulateAll(m, rest, e1.context, base + |e1.bytes|, s1, a1.heap, env, fuel);
    RunThen(s, k1, s1, k2, s2);
    var a2 := EvalAll(rest, env, a1.heap, a1.trace, fuel);
    if a2.outcome.Val? {
      PushesThen(m, s, sheap, [v1], base + |e1.bytes|, a1.heap, a1.trace, s1,
                 a2.outcome.value, base + |e1.bytes + e2.bytes|, a2.heap, a2.trace, s2);
    }
    return k1 + k2, s2;
  }

  // ----- calls -----

  /** The callee and the arguments of a call. */
  ghost function EvalCall(t: Term, env: Env, heap: seq<FunctionValue>, trace: seq<Event>, fuel: nat)
    : (a: Answer<seq<Value>>)
    requires t.Call?
    ensures a.outcome.Val? ==> |a.outcome.value| == 1 + |t.args|
  {
    var a1 := Eval(t.callee, env, heap, trace, fuel);
    if !a1.outcome.Val? then Propagate(a1)
    else
      var a2 := EvalAll(t.args, env, a1.heap, a1.trace, fuel);
      if !a2.outcome.Val? then a2
      else a2.(outcome := Val([a1.outcome.value] + a2.outcome.value))
  }

  lemma CallParts(m: Mode, t: Term, isTail: bool, c: Context, base: nat, env: Env, heap: seq<FunctionValue>,
                  trace: seq<Event>, fuel: nat) returns (e1: Emitted, e2: Emitted)
    requires t.Call? && m.emit && c.Context? && Compile(m, t, isTail, c, base).Ok? && Operand(t)
    ensures Compile(m, t.callee, false, c, base) == Ok(e1) && e1.context.Context?
    ensures CompileAll(m, t.args, e1.context, base + |e1.bytes|) == Ok(e2)
    ensures Compile(m, t, isTail, c, base).value ==
      Emitted(e2.context, (e1.bytes + e2.bytes) + Encode(CallInstr(m, isTail, |t.args|)))
    ensures Operand(t.callee) && Operands(t.args) && |t.args| < 256
    ensures FreeVars(t) == FreeVars(t.callee) + FreeVarsAll(t.args)
    ensures var a := EvalCall(t, env, heap, trace, fuel);
      Eval(t, env, heap, trace, fuel) ==
      if !a.outcome.Val? then Propagate(a)
      else Apply(a.outcome.value[0], a.outcome.value[1..], a.heap, a.trace, fuel)
  {
    hide Encode, CompileAll, EvalAll, Operands, FreeVarsAll, Apply, CallInstr, CompileInt, CompileConstant,
      CompileVar, CompileBinary, CompileUnary, CompilePair, CompileClosure, CompileLet, CompileIf;
    e1 := Compile(m, t.callee, false, c, base).value;
    e2 := CompileAll(m, t.args, e1.context, base + |e1.bytes|).value;
    var a := EvalCall(t, env, heap, trace, fuel);
    if a.outcome.Val? {
      var a1 := Eval(t.callee, env, heap, trace, fuel);
      var a2 := EvalAll(t.args, env, a1.heap, a1.trace, fuel);
      assert ([a1.outcome.value] + a2.outcome.value)[1..] == a2.outcome.value;
    }
  }

  lemma {:induction false} SimulateCallParts(m: Mode, t: Term, c: Context, base: nat, e1: Emitted, e2: Emitted,
                                             s: State, sheap: seq<FunctionValue>, env: Env, fuel: nat)
    returns (k: nat, s': State)
    requires t.Call? && m.emit && c.Context? && Operand(t.callee) && Operands(t.args)
    requires Compile(m, t.callee, false, c, base) == Ok(e1) && e1.context.Context?
    requires CompileAll(m, t.args, e1.context, base + |e1.bytes|) == Ok(e2)
    requires Ready(m, s, sheap, c, base, Emitted(e2.context, e1.bytes + e2.bytes))
    requires EnvOk(c.variables, FreeVars(t.callee) + FreeVarsAll(t.args), env, sheap[s.cl].env, s.stack, s.slots)
    ensures EvaluatesAll(m, s, sheap, base + |e1.bytes + e2.bytes|, EvalCall(t, env, sheap, s.trace, fuel), fuel, k, s')
    decreases fuel, 1, t, 0
  {
    hide Wf, Grows, HeapOk, EnvOk, Run, Compile, Eval, Operand, FreeVars, LetNames, CodeAt, Encode, CompileAll,
      EvalAll, FreeVarsAll, Operands, LetNamesAll;
    var f, args := t.callee, t.args;
    CompileGrows(m, f, false, c, base);
    CompileAllGrows(m, args, e1.context, base + |e1.bytes|);
    OperandBindsNothing(f);
    EnvSubset(c.variables, FreeVars(f) + FreeVarsAll(args), FreeVars(f), env, sheap[s.cl].env, s.stack, s.slots);
    EnvSubset(c.variables, FreeVars(f) + FreeVarsAll(args), FreeVarsAll(args), env, sheap[s.cl].env, s.stack, s.slots);
    PrefixFits(e1.context, e2.context, LetNamesAll(args), FreeVarsAll(args));
    ReadySplit(m, s, sheap, c, base, e1.context, e1.bytes, e2.context, e2.bytes);
    var k1, s1 := SimulateOperand(m, f, false, c, base, s, sheap, env, fuel);
    var a1 := Eval(f, env, sheap, s.trace, fuel);
    if !a1.outcome.Val? {
      return k1, s1;
    }
    var v1 := a1.outcome.value;
    ReadyAfter(m, s, sheap, c, base, e1.bytes, e2.context, e2.bytes, e1.context, [v1], a1.heap, a1.trace, s1);
    EnvGrows(c, e1.context, LetNames(f), FreeVars(f), env, sheap[s.cl].env, s.stack, [v1], s.slots, FreeVarsAll(args));
    var k2, s2 := SimulateAll(m, args, e1.context, base + |e1.bytes|, s1, a1.heap, env, fuel);
    RunThen(s, k1, s1, k2, s2);
    var a2 := EvalAll(args, env, a1.heap, a1.trace, fuel);
    if a2.outcome.Val? {
      PushesThen(m, s, sheap, [v1], base + |e1.bytes|, a1.heap, a1.trace, s1,
                 a2.outcome.value, base + |e1.bytes + e2.bytes|, a2.heap, a2.trace, s2);
    }
    return k1 + k2, s2;
  }

  lemma CompiledArity(m: Mode, fv: FunctionValue, cl: Closure)
    requires Implements(m, fv, cl)
    ensures cl.fn.arity == |fv.params| < 256
  {
    hide Compile, FreeVars, ChildrenFit, Spine;
    var outer: Context, isTail: bool :| CompilesTo(m, fv.params, fv.body, outer, isTail, cl.fn);
    BodyContextWf(fv.params, outer);
    hide Wf, BodyContext;
  }

  /** The state on entry to a callee: a new frame on its slot, or the running frame reused. */
  function Entered(s: State, tail: bool, f: nat, vs: seq<Value>): State
    requires |s.stack| > |vs| && s.slots <= |s.stack|
  {
    if tail then s.(stack := s.stack[..s.slots] + [ClosureValue(f)] + vs, cl := f, ip := 0)
    else s.(frames := s.frames + [CallFrame(s.cl, s.ip, s.slots)], cl := f, ip := 0, slots := |s.stack| - 1 - |vs|)
  }

  lemma EnteredFrame(s: State, tail: bool, stack: seq<Value>, f: nat, vs: seq<Value>)
    requires s.stack == stack + ([ClosureValue(f)] + vs) && s.slots < |stack|
    ensures var e := Entered(s, tail, f, vs);
      && e.status == s.status && e.ip == 0 && e.cl == f && e.heap == s.heap && e.trace == s.trace
      && |e.stack| == e.slots + 1 + |vs| && e.stack[e.slots + 1..] == vs
      && e.stack[..e.slots] == (if tail then s.stack[..s.slots] else stack)
      && e.frames == (if tail then s.frames else s.frames + [CallFrame(s.cl, s.ip, s.slots)])
  {
  }

  /** Both call instructions, with the callee and the arguments on the stack. */
  lemma CallExec(m: Mode, sheap: seq<FunctionValue>, s: State, tail: bool, stack: seq<Value>, f: Value, vs: seq<Value>)
    requires s.stack == stack + ([f] + vs) && s.slots < |stack| && |vs| < 256
    requires s.cl < |s.heap| && HeapOk(m, sheap, s.heap)
    ensures var s' := Exec(Unbounded, s, if tail then ITailCall(|vs|) else ICall(|vs|));
      if !f.ClosureValue? then s' == Fail(s, CannotCall(TypeOf(f)))
      else if f.address >= |sheap| then s' == GoWild(s)
      else if |sheap[f.address].params| != |vs| then s' == Fail(s, WrongArity(|sheap[f.address].params|, |vs|))
      else s' == Entered(s, tail, f.address, vs)
  {
    assert Peek(s, |vs|) == f;
    assert s.stack[|s.stack| - 1 - |vs|..] == [f] + vs;
    if f.ClosureValue? && f.address < |sheap| {
      HeapAt(m, sheap, s.heap, f.address);
      CompiledArity(m, sheap[f.address], s.heap[f.address]);
      assert s.stack[..s.slots] + ([f] + vs) == s.stack[..s.slots] + [f] + vs;
    }
    hide HeapOk, Implements, ChildrenFit;
  }

  /** A new entry for x does not matter to other names. */
  lemma OtherVar(vs: seq<Variable>, more: seq<Variable>, x: string, y: string, v: Value, env: Env, captured: Env,
                 stack: seq<Value>, longer: seq<Value>, slots: nat)
    requires VarOk(vs, y, env, captured, stack, slots) && y != x && Lookup(more, y) == Lookup(vs, y)
    requires stack <= longer
    ensures VarOk(more, y, env[x := v], captured, longer, slots)
  {
    hide Lookup;
  }

  /** The value of a new entry for x is in its slot. */
  lemma NewVar(vs: seq<Variable>, x: string, i: byte, v: Value, env: Env, captured: Env, stack: seq<Value>, slots: nat)
    requires Lookup(vs, x) == Some(Variable(x, true, i)) && slots + i < |stack| && stack[slots + i] == v
    ensures VarOk(vs, x, env[x := v], captured, stack, slots)
  {
    hide Lookup;
  }

  /** Binding parameters: the arguments are where the table says the parameters are. */
  lemma {:induction false} ParamsOk(ps: seq<Parameter>, c: Context, names: set<string>, vs: seq<Value>, env: Env,
                                    captured: Env, stack: seq<Value>, slots: nat)
    requires c.Context? && Wf(c) && AddParams(c, ps).Ok? && |vs| == |ps|
    requires slots + c.nextIndex + |ps| <= |stack|
    requires stack[slots + c.nextIndex..slots + c.nextIndex + |ps|] == vs
    requires EnvOk(c.variables, names, env, captured, stack, slots)
    ensures EnvOk(AddParams(c, ps).value.variables, names + ParamNames(ps), BindParams(ps, vs, env), captured,
                  stack, slots)
    decreases ps
  {
    hide EntryOk, Tidy, Linked, Lookup, VarOk;
    if ps == [] {
      assert names + ParamNames(ps) == names;
    } else {
      var x, at := ps[0].text, slots + c.nextIndex;
      var c1 := AddLocal(c, x).value;
      AddLocalWf(c, x);
      assert stack[at] == stack[at..at + |ps|][0] == vs[0];
      assert stack[at + 1..at + |ps|] == stack[at..at + |ps|][1..] == vs[1..];
      forall y | y in names + {x}
        ensures VarOk(c1.variables, y, env[x := vs[0]], captured, stack, slots)
      {
        if y == x {
          NewVar(c1.variables, x, c.nextIndex, vs[0], env, captured, stack, slots);
        } else {
          OtherVar(c.variables, c1.variables, x, y, vs[0], env, captured, stack, stack, slots);
        }
      }
      ParamsOk(ps[1..], c1, names + {x}, vs[1..], env[x := vs[0]], captured, stack, slots);
      assert ps == [ps[0]] + ps[1..];
      assert names + ParamNames(ps) == names + {x} + ParamNames(ps[1..]);
    }
  }

  /** On entry to a function, its slots and captured values hold the environment of its body. */
  lemma EntryOkFor(m: Mode, fv: FunctionValue, cl: Closure, outer: Context, vs: seq<Value>, stack: seq<Value>,
                   slots: nat)
    requires Implements(m, fv, cl) && Wf(outer) && BodyContext(fv.params, outer).Ok?
    requires |vs| == |fv.params| && |stack| == slots + 1 + |vs| && stack[slots + 1..] == vs
    ensures EnvOk(BodyContext(fv.params, outer).value.variables, FreeVars(fv.body),
                  BindParams(fv.params, vs, fv.env), fv.env, stack, slots)
  {
    var k, free := NewContext(outer), FreeVars(fv.body) - ParamNames(fv.params);
    assert forall y :: EntryOk(k, y);
    forall y | y in free ensures VarOk(k.variables, y, fv.env, fv.env, stack, slots) {
      assert y in fv.env.Keys;
    }
    hide Implements, FreeVars;
    assert stack[slots + 1..slots + 1 + |vs|] == stack[slots + 1..];
    ParamsOk(fv.params, k, free, vs, fv.env, fv.env, stack, slots);
    EnvSubset(BodyContext(fv.params, outer).value.variables, free + ParamNames(fv.params), FreeVars(fv.body),
              BindParams(fv.params, vs, fv.env), fv.env, stack, slots);
  }

  lemma ReturnByte(code: seq<byte>, bytes: seq<byte>)
    requires code == bytes + Encode(IReturn)
    ensures CodeAt(code, 0, bytes) && LeadsToReturn(code, |bytes|)
  {
    assert CodeAt(code, |bytes|, Encode(IReturn));
    DecodeEncoded(code, |bytes|, IReturn);
  }

  /** Call bracket: an activation, however deeply it calls, ends with the callstack popped, every
      slot below the callee unchanged, and callee and arguments replaced by one result. */
  lemma {:induction false} SimulateApply(m: Mode, f: nat, vs: seq<Value>, s: State, sheap: seq<FunctionValue>,
                                         fuel: nat)
    returns (k: nat, s': State)
    requires m.emit && fuel > 0
    requires s.status == Running && s.ip == 0 && s.cl == f < |s.heap| && HeapOk(m, sheap, s.heap)
    requires f < |sheap| && |sheap[f].params| == |vs|
    requires |s.stack| == s.slots + 1 + |vs| && s.stack[s.slots + 1..] == vs
    ensures Finishes(m, s, sheap,
                     Eval(sheap[f].body, BindParams(sheap[f].params, vs, sheap[f].env), sheap, s.trace, fuel - 1),
                     fuel - 1, k, s')
    decreases fuel, 0, 0
  {
    hide HeapOk, EnvOk, Run, Compile, Eval, FreeVars, LetNames, ChildrenFit, Spine, CodeAt, LeadsToReturn;
    var fv, cl := sheap[f], s.heap[f];
    HeapAt(m, sheap, s.heap, f);
    var outer: Context, isTail: bool :| CompilesTo(m, fv.params, fv.body, outer, isTail, cl.fn);
    var inner := BodyContext(fv.params, outer).value;
    BodyContextWf(fv.params, outer);
    EntryOkFor(m, fv, cl, outer, vs, s.stack, s.slots);
    hide BodyContext;
    var e := Compile(m, fv.body, isTail, inner, 0).value;
    ReturnByte(cl.fn.code, e.bytes);
    hide Wf, Implements, CompilesTo;
    k, s' := SimulateSpine(m, fv.body, isTail, inner, 0, s, sheap, BindParams(fv.params, vs, fv.env), fuel - 1);
  }

  /** A call instruction and the whole activation that it starts. */
  lemma {:induction false} SimulateInvoke(m: Mode, tail: bool, c: Context, ip: nat, d: Context, stack: seq<Value>,
                                          f: Value, vs: seq<Value>, s: State, sheap: seq<FunctionValue>, fuel: nat)
    returns (k: nat, s': State)
    requires m.emit && s.stack == stack + ([f] + vs) && s.slots < |stack| && |vs| < 256
    requires Ready(m, s, sheap, c, ip, Emitted(d, Encode(if tail then ITailCall(|vs|) else ICall(|vs|))))
    ensures s' == Run(Unbounded, s, k)
    ensures var a := Apply(f, vs, sheap, s.trace, fuel);
      if !a.outcome.Val? then Stops(s', k, a.outcome, a.trace, fuel)
      else
        && Extends(m, sheap, s, a.heap, s')
        && if tail then Returned(s.frames, s.stack[..s.slots], a.outcome.value, a.trace, s')
           else s' == s.(stack := stack + [a.outcome.value], ip := ip + 2, heap := s'.heap, trace := a.trace)
    decreases fuel, 0, 1
  {
    hide HeapOk, Run, Eval, CodeAt, Wf, Exec;
    var i := if tail then ITailCall(|vs|) else ICall(|vs|);
    StepOne(s, i);
    var s1 := Run(Unbounded, s, 1);
    CallExec(m, sheap, s.(ip := ip + 2), tail, stack, f, vs);
    if !f.ClosureValue? || f.address >= |sheap| || |sheap[f.address].params| != |vs| || fuel == 0 {
      return 1, s1;
    }
    EnteredFrame(s.(ip := ip + 2), tail, stack, f.address, vs);
    hide Entered;
    var n, s2 := SimulateApply(m, f.address, vs, s1, sheap, fuel);
    RunThen(s, 1, s1, n, s2);
    return 1 + n, s2;
  }

  lemma {:induction false} SimulateCall(m: Mode, t: Term, isTail: bool, c: Context, base: nat, s: State,
                                        sheap: seq<FunctionValue>, env: Env, fuel: nat)
    returns (k: nat, s': State)
    requires t.Call? && m.emit && c.Context? && Compile(m, t, isTail, c, base).Ok?
    requires Operand(t) && !(isTail && m.tailCalls)
    requires Ready(m, s, sheap, c, base, Compile(m, t, isTail, c, base).value)
    requires EnvOk(c.variables, FreeVars(t), env, sheap[s.cl].env, s.stack, s.slots)
    ensures Evaluates(m, s, sheap, base + |Compile(m, t, isTail, c, base).value.bytes|,
                      Eval(t, env, sheap, s.trace, fuel), fuel, k, s')
    decreases fuel, 1, t, 1
  {
    hide Wf, Grows, HeapOk, EnvOk, Run, Compile, Eval, Operand, FreeVars, LetNames, CodeAt, Encode, EvalCall, Apply;
    var e1, e2 := CallParts(m, t, isTail, c, base, env, sheap, s.trace, fuel);
    var b, i := e1.bytes + e2.bytes, ICall(|t.args|);
    assert CallInstr(m, isTail, |t.args|) == i;
    CompileGrows(m, t.callee, false, c, base);
    CompileAllGrows(m, t.args, e1.context, base + |e1.bytes|);
    ReadySplit(m, s, sheap, c, base, e2.context, b, e2.context, Encode(i));
    var k1, s1 := SimulateCallParts(m, t, c, base, e1, e2, s, sheap, env, fuel);
    var a := EvalCall(t, env, sheap, s.trace, fuel);
    if !a.outcome.Val? {
      return k1, s1;
    }
    var vs := a.outcome.value;
    ReadyAfter(m, s, sheap, c, base, b, e2.context, Encode(i), e2.context, vs, a.heap, a.trace, s1);
    assert vs == [vs[0]] + vs[1..];
    var k2, s2 := SimulateInvoke(m, false, e2.context, base + |b|, e2.context, s.stack, vs[0], vs[1..], s1, a.heap,
                                 fuel);
    RunThen(s, k1, s1, k2, s2);
    EncodedCallSize(|t.args|);
    return k1 + k2, s2;
  }

  lemma EncodedCallSize(n: byte)
    ensures |Encode(ICall(n))| == 2
  {
  }

  // ----- conditionals -----

  lemma IfParts(t: Term, env: Env, heap: seq<FunctionValue>, trace: seq<Event>, fuel: nat)
    requires t.If?
    ensures FreeVars(t) == FreeVars(t.cond) + FreeVars(t.thn) + FreeVars(t.els)
    ensures LetNames(t) == LetNames(t.cond) + LetNames(t.thn) + LetNames(t.els)
    ensures var a := Eval(t.cond, env, heap, trace, fuel);
      Eval(t, env, heap, trace, fuel) ==
      if !a.outcome.Val? then a
      else if IsFalsy(a.outcome.value) then Eval(t.els, env, a.heap, a.trace, fuel)
      else Eval(t.thn, env, a.heap, a.trace, fuel)
  {
  }

  /** The code of an `if`, part by part. */
  lemma IfCode(code: seq<byte>, base: nat, b0: seq<byte>, j1: seq<byte>, b1: seq<byte>, j2: seq<byte>, b2: seq<byte>)
    requires CodeAt(code, base, b0 + j1 + b1 + j2 + b2)
    ensures CodeAt(code, base, b0)
    ensures CodeAt(code, base + |b0|, j1)
    ensures CodeAt(code, base + |b0| + |j1|, b1)
    ensures CodeAt(code, base + |b0| + |j1| + |b1|, j2)
    ensures CodeAt(code, base + |b0| + |j1| + |b1| + |j2|, b2)
  {
    CodeAtSplit(code, base, b0 + j1 + b1 + j2, b2);
    CodeAtSplit(code, base, b0 + j1 + b1, j2);
    CodeAtSplit(code, base, b0 + j1, b1);
    CodeAtSplit(code, base, b0, j1);
  }

  /** The conditional jump takes the condition off the stack and goes to one of the branches. */
  lemma BranchStep(m: Mode, s: State, sheap: seq<FunctionValue>, v: Value, ip: nat, sheap1: seq<FunctionValue>,
                   trace: seq<Event>, s1: State, otherwise: word)
    returns (s2: State)
    requires Pushes(m, s, sheap, [v], ip, sheap1, trace, s1) && s.slots < |s.stack| && s.status == Running
    requires s1.cl < |s1.heap| && CodeAt(s1.heap[s1.cl].fn.code, ip, Encode(IJumpIfFalse(otherwise)))
    ensures s2 == Run(Unbounded, s1, 1)
    ensures Pushes(m, s, sheap, [], if IsFalsy(v) then otherwise else ip + 3, sheap1, trace, s2)
  {
    hide HeapOk, Run;
    StepOne(s1, IJumpIfFalse(otherwise));
    s2 := Run(Unbounded, s1, 1);
    assert (s.stack + [v])[..|s.stack|] == s.stack + [];
  }

  ghost predicate IfCompiled(m: Mode, t: Term, c: Context, base: nat, e0: Emitted, e1: Emitted, e2: Emitted,
                             otherwise: word, end: word) {
    && t.If? && m.emit && c.Context? && e0.context.Context? && e1.context.Context?
    && Compile(m, t.cond, false, c, base) == Ok(e0)
    && Compile(m, t.thn, true, e0.context, base + |e0.bytes| + 3) == Ok(e1)
    && otherwise == base + |e0.bytes| + 3 + |e1.bytes| + 3
    && Compile(m, t.els, true, e1.context, otherwise) == Ok(e2)
    && end == otherwise + |e2.bytes|
  }

  function IfBytes(e0: Emitted, e1: Emitted, e2: Emitted, otherwise: word, end: word): seq<byte> {
    e0.bytes + Encode(IJumpIfFalse(otherwise)) + e1.bytes + Encode(IJump(end)) + e2.bytes
  }

  /** The machine stands at the branch that the evaluator takes. */
  ghost predicate AtBranch(m: Mode, s: State, sheap: seq<FunctionValue>, base: nat, e0: Emitted, e1: Emitted,
                           e2: Emitted, otherwise: word, end: word, a: Answer<Value>, s': State)
    requires a.outcome.Val?
  {
    if IsFalsy(a.outcome.value) then
      Pushes(m, s, sheap, [], otherwise, a.heap, a.trace, s') && Ready(m, s', a.heap, e1.context, otherwise, e2)
    else
      var at := base + |e0.bytes| + 3;
      && Pushes(m, s, sheap, [], at, a.heap, a.trace, s')
      && Ready(m, s', a.heap, e0.context, at, e1)
      && CodeAt(s'.heap[s'.cl].fn.code, at + |e1.bytes|, Encode(IJump(end)))
  }

  lemma {:induction false} SimulateCondition(m: Mode, t: Term, c: Context, base: nat, e0: Emitted, e1: Emitted,
                                             e2: Emitted, otherwise: word, end: word, s: State,
                                             sheap: seq<FunctionValue>, env: Env, fuel: nat)
    returns (k: nat, s': State)
    requires IfCompiled(m, t, c, base, e0, e1, e2, otherwise, end) && Operand(t.cond)
    requires Ready(m, s, sheap, c, base, Emitted(e2.context, IfBytes(e0, e1, e2, otherwise, end)))
    requires EnvOk(c.variables, FreeVars(t.cond), env, sheap[s.cl].env, s.stack, s.slots)
    ensures s' == Run(Unbounded, s, k)
    ensures var a := Eval(t.cond, env, sheap, s.trace, fuel);
      if !a.outcome.Val? then Stops(s', k, a.outcome, a.trace, fuel)
      else AtBranch(m, s, sheap, base, e0, e1, e2, otherwise, end, a, s')
    decreases fuel, 1, t, 0
  {
    hide Wf, Grows, HeapOk, EnvOk, Run, Compile, Eval, Operand, FreeVars, LetNames, CodeAt, Encode;
    var code := s.heap[s.cl].fn.code;
    JumpSizes(otherwise);
    JumpSizes(end);
    IfCode(code, base, e0.bytes, Encode(IJumpIfFalse(otherwise)), e1.bytes, Encode(IJump(end)), e2.bytes);
    CompileGrows(m, t.cond, false, c, base);
    CompileGrows(m, t.thn, true, e0.context, base + |e0.bytes| + 3);
    CompileGrows(m, t.els, true, e1.context, otherwise);
    PrefixFits(e0.context, e1.context, LetNames(t.thn), FreeVars(t.thn));
    PrefixFits(e1.context, e2.context, LetNames(t.els), FreeVars(t.els));
    var k1, s1 := SimulateOperand(m, t.cond, false, c, base, s, sheap, env, fuel);
    var a := Eval(t.cond, env, sheap, s.trace, fuel);
    if !a.outcome.Val? {
      return k1, s1;
    }
    var s2 := BranchStep(m, s, sheap, a.outcome.value, base + |e0.bytes|, a.heap, a.trace, s1, otherwise);
    RunThen(s, k1, s1, 1, s2);
    HeapSize(m, a.heap, s2.heap);
    return k1 + 1, s2;
  }

  lemma HeapSize(m: Mode, sheap: seq<FunctionValue>, heap: seq<Closure>)
    requires HeapOk(m, sheap, heap)
    ensures |sheap| == |heap|
  {
  }

  lemma JumpStep(s: State, t: word)
    requires s.status == Running && s.cl < |s.heap| && CodeAt(s.heap[s.cl].fn.code, s.ip, Encode(IJump(t)))
    ensures Run(Unbounded, s, 1) == s.(ip := t)
  {
    hide Run;
    StepOne(s, IJump(t));
  }

  lemma CompileIsIf(m: Mode, t: Term, isTail: bool, c: Context, base: nat)
    returns (e0: Emitted, e1: Emitted, e2: Emitted, otherwise: word, end: word)
    requires t.If? && m.emit && c.Context? && Compile(m, t, isTail, c, base).Ok?
    ensures IfCompiled(m, t, c, base, e0, e1, e2, otherwise, end)
    ensures Compile(m, t, isTail, c, base).value == Emitted(e2.context, IfBytes(e0, e1, e2, otherwise, end))
    ensures end == base + |IfBytes(e0, e1, e2, otherwise, end)|
  {
    hide Encode, CompileIf, CompileInt, CompileConstant, CompileVar, CompileCall, CompileBinary, CompileUnary,
      CompilePair, CompileClosure, CompileLet;
    e0, e1, e2, otherwise, end := IfLayout(m, t, c, base);
    JumpSizes(otherwise);
    JumpSizes(end);
  }

  /** Both branches of an `if` find the variables where its context put them. */
  lemma BranchEnvs(m: Mode, t: Term, c: Context, base: nat, e0: Emitted, e1: Emitted, e2: Emitted, otherwise: word,
                   end: word, env: Env, captured: Env, stack: seq<Value>, slots: nat)
    requires IfCompiled(m, t, c, base, e0, e1, e2, otherwise, end) && Wf(c)
    requires LetNames(t.cond) == {} && LetNames(t.thn) !! FreeVars(t.els)
    requires EnvOk(c.variables, FreeVars(t.cond) + FreeVars(t.thn) + FreeVars(t.els), env, captured, stack, slots)
    ensures EnvOk(c.variables, FreeVars(t.cond), env, captured, stack, slots)
    ensures EnvOk(e0.context.variables, FreeVars(t.thn), env, captured, stack + [], slots)
    ensures EnvOk(e1.context.variables, FreeVars(t.els), env, captured, stack + [], slots)
    ensures e0.context.nextIndex == c.nextIndex
    ensures LetNames(t.thn) == {} ==> e1.context.nextIndex == c.nextIndex
  {
    hide Wf, EnvOk, Compile, Eval, Operand, FreeVars, LetNames, Grows;
    var all := FreeVars(t.cond) + FreeVars(t.thn) + FreeVars(t.els);
    CompileGrows(m, t.cond, false, c, base);
    CompileGrows(m, t.thn, true, e0.context, base + |e0.bytes| + 3);
    EnvSubset(c.variables, all, FreeVars(t.cond), env, captured, stack, slots);
    EnvSubset(c.variables, all, FreeVars(t.thn), env, captured, stack, slots);
    EnvSubset(c.variables, all, FreeVars(t.els), env, captured, stack, slots);
    EnvGrows(c, e0.context, {}, FreeVars(t.cond), env, captured, stack, [], slots, FreeVars(t.thn));
    EnvGrows(c, e0.context, {}, FreeVars(t.cond), env, captured, stack, [], slots, FreeVars(t.els));
    assert stack + [] == stack;
    EnvGrows(e0.context, e1.context, LetNames(t.thn), FreeVars(t.thn), env, captured, stack, [], slots,
             FreeVars(t.els));
    SameIndex(c, e0.context, FreeVars(t.cond));
    if LetNames(t.thn) == {} {
      SameIndex(e0.context, e1.context, FreeVars(t.thn));
    }
  }

  lemma SameIndex(c: Context, d: Context, names: set<string>)
    requires c.Context? && Grows(c, d, {}, names)
    ensures d.nextIndex == c.nextIndex
  {
    hide Captures;
  }

  lemma OperandIf(t: Term)
    requires t.If? && Operand(t)
    ensures Operand(t.cond) && Operand(t.thn) && Operand(t.els) && NoTailCall(t.thn) && NoTailCall(t.els)
  {
  }

  lemma {:induction false} SimulateIf(m: Mode, t: Term, isTail: bool, c: Context, base: nat, s: State,
                                      sheap: seq<FunctionValue>, env: Env, fuel: nat)
    returns (k: nat, s': State)
    requires t.If? && m.emit && c.Context? && Compile(m, t, isTail, c, base).Ok?
    requires Operand(t)
    requires Ready(m, s, sheap, c, base, Compile(m, t, isTail, c, base).value)
    requires EnvOk(c.variables, FreeVars(t), env, sheap[s.cl].env, s.stack, s.slots)
    ensures Evaluates(m, s, sheap, base + |Compile(m, t, isTail, c, base).value.bytes|,
                      Eval(t, env, sheap, s.trace, fuel), fuel, k, s')
    decreases fuel, 1, t, 1
  {
    hide Wf, Grows, HeapOk, EnvOk, Run, Compile, Eval, Operand, FreeVars, LetNames, CodeAt, Encode, NoTailCall,
      IfBytes;
    OperandIf(t);
    var e0, e1, e2, otherwise, end := CompileIsIf(m, t, isTail, c, base);
    IfParts(t, env, sheap, s.trace, fuel);
    OperandBindsNothing(t.cond);
    OperandBindsNothing(t.thn);
    BranchEnvs(m, t, c, base, e0, e1, e2, otherwise, end, env, sheap[s.cl].env, s.stack, s.slots);
    var k1, s1 := SimulateCondition(m, t, c, base, e0, e1, e2, otherwise, end, s, sheap, env, fuel);
    var a := Eval(t.cond, env, sheap, s.trace, fuel);
    if !a.outcome.Val? {
      return k1, s1;
    }
    var k2, s2;
    if IsFalsy(a.outcome.value) {
      k2, s2 := SimulateOperand(m, t.els, true, e1.context, otherwise, s1, a.heap, env, fuel);
    } else {
      k2, s2 := SimulateOperand(m, t.thn, true, e0.context, base + |e0.bytes| + 3, s1, a.heap, env, fuel);
    }
    RunThen(s, k1, s1, k2, s2);
    var a' := Eval(t, env, sheap, s.trace, fuel);
    if !a'.outcome.Val? {
      return k1 + k2, s2;
    }
    if !IsFalsy(a.outcome.value) {
      JumpStep(s2, end);
      var s3 := Run(Unbounded, s2, 1);
      RunThen(s, k1 + k2, s2, 1, s3);
      k2, s2 := k2 + 1, s3;
    }
    assert [] + [a'.outcome.value] == [a'.outcome.value];
    PushesThen(m, s, sheap, [], s1.ip, a.heap, a.trace, s1, [a'.outcome.value], end, a'.heap, a'.trace, s2);
    return k1 + k2, s2;
  }

  // ----- leaves and the operand theorem -----

  ghost predicate IsLeaf(t: Term) {
    t.Int? || t.Str? || t.Bool? || t.Var? || t.Function?
  }

  lemma EnvLonger(vs: seq<Variable>, names: set<string>, env: Env, captured: Env, stack: seq<Value>, more: seq<Value>,
                  slots: nat)
    requires EnvOk(vs, names, env, captured, stack, slots)
    ensures EnvOk(vs, names, env, captured, stack + more, slots)
  {
    forall y | y in names ensures VarOk(vs, y, env, captured, stack + more, slots) {
      assert VarOk(vs, y, env, captured, stack, slots);
    }
  }

  lemma LeafStep(m: Mode, t: Term, isTail: bool, c: Context, base: nat, s: State, sheap: seq<FunctionValue>, env: Env,
                 fuel: nat)
    requires IsLeaf(t) && m.emit && c.Context? && Compile(m, t, isTail, c, base).Ok? && Operand(t)
    requires Ready(m, s, sheap, c, base, Compile(m, t, isTail, c, base).value)
    requires EnvOk(c.variables, FreeVars(t), env, sheap[s.cl].env, s.stack, s.slots)
    ensures Evaluates(m, s, sheap, base + |Compile(m, t, isTail, c, base).value.bytes|,
                      Eval(t, env, sheap, s.trace, fuel), fuel, 1, Run(Unbounded, s, 1))
  {
    hide Wf, HeapOk, Run, CodeAt, Room, Encode, Spine, CompileConstant, CompileVar, CompileClosure, CompileCall,
      CompileBinary, CompileUnary, CompilePair, CompileLet, CompileIf, Apply, EvalAll;
    match t
    case Int(n, _) => IntStep(m, n, c, base, s, sheap);
    case Str(text, _) =>
      ConstantStep(m, s, sheap, c, base, StrValue(text));
    case Bool(b, _) =>
      var i := if b then ITrue else IFalse;
      PushStep(m, s, sheap, c, base, c, i, BoolValue(b));
    case Var(x, _) =>
      assert VarOk(c.variables, x, env, sheap[s.cl].env, s.stack, s.slots);
      VariableStep(m, s, sheap, c, base, x, env);
    case Function(_, _, _) =>
      EnvLonger(c.variables, FreeVars(t), env, sheap[s.cl].env, s.stack, [ClosureValue(|sheap|)], s.slots);
      ClosureStep(m, t, c, base, s, sheap, env);
  }

  lemma IntStep(m: Mode, n: nat, c: Context, base: nat, s: State, sheap: seq<FunctionValue>)
    requires m.emit && c.Context? && CompileInt(m, c, n, base).Ok?
    requires Ready(m, s, sheap, c, base, CompileInt(m, c, n, base).value)
    ensures var ip := base + |CompileInt(m, c, n, base).value.bytes|;
      Pushes(m, s, sheap, [IntValue(n)], ip, sheap, s.trace, Run(Unbounded, s, 1))
  {
    hide Wf, HeapOk, Run, CodeAt, Room, Encode, CompileConstant, Pushes, WordOverruns;
    if n <= MAX_WORD {
      PushStep(m, s, sheap, c, base, c, IInt(n), IntValue(n));
    } else {
      ConstantStep(m, s, sheap, c, base, IntValue(n));
    }
  }

  /** Every operand pushes exactly one value, the one it evaluates to, and leaves the rest of the
      stack alone; or it fails as the evaluator does. */
  lemma {:induction false} SimulateOperand(m: Mode, t: Term, isTail: bool, c: Context, base: nat, s: State,
                                           sheap: seq<FunctionValue>, env: Env, fuel: nat)
    returns (k: nat, s': State)
    requires m.emit && c.Context? && Compile(m, t, isTail, c, base).Ok?
    requires Operand(t) && (isTail && m.tailCalls ==> NoTailCall(t))
    requires Ready(m, s, sheap, c, base, Compile(m, t, isTail, c, base).value)
    requires EnvOk(c.variables, FreeVars(t), env, sheap[s.cl].env, s.stack, s.slots)
    ensures Evaluates(m, s, sheap, base + |Compile(m, t, isTail, c, base).value.bytes|,
                      Eval(t, env, sheap, s.trace, fuel), fuel, k, s')
    decreases fuel, 1, t, 2
  {
    hide Compile, Eval, Ready, EnvOk, Evaluates, FreeVars, Run;
    if IsLeaf(t) {
      LeafStep(m, t, isTail, c, base, s, sheap, env, fuel);
      return 1, Run(Unbounded, s, 1);
    }
    if IsTwo(t) {
      k, s' := SimulateTwo(m, t, isTail, c, base, s, sheap, env, fuel);
      return;
    }
    if t.Unary? {
      k, s' := SimulateUnary(m, t, isTail, c, base, s, sheap, env, fuel);
      return;
    }
    if t.Call? {
      k, s' := SimulateCall(m, t, isTail, c, base, s, sheap, env, fuel);
      return;
    }
    k, s' := SimulateIf(m, t, isTail, c, base, s, sheap, env, fuel);
  }

  // ----- function bodies -----

  /** From the end of a body: jumps, then the return. */
  lemma {:induction false} FollowReturn(s: State, v: Value) returns (k: nat, s': State)
    requires s.status == Running && s.cl < |s.heap| && LeadsToReturn(s.heap[s.cl].fn.code, s.ip)
    requires |s.stack| > s.slots + 1 && s.stack[|s.stack| - 1] == v
    ensures s' == Run(Unbounded, s, k) && s'.heap == s.heap
    ensures Returned(s.frames, s.stack[..s.slots], v, s.trace, s')
    decreases |s.heap[s.cl].fn.code| - s.ip
  {
    hide Run;
    RunOne(s);
    var s1 := Step(Unbounded, s);
    var i := Decode(s.heap[s.cl].fn.code, s.ip).value;
    if i.IReturn? {
      return 1, s1;
    }
    assert s1 == s.(ip := i.target);
    hide Step;
    var n, s2 := FollowReturn(s1, v);
    RunThen(s, 1, s1, n, s2);
    return 1 + n, s2;
  }

  /** An operand in tail position, and the return that follows it. */
  lemma FinishOperand(m: Mode, s: State, sheap: seq<FunctionValue>, ip: nat, a: Answer<Value>, fuel: nat, k: nat,
                      s1: State)
    returns (k': nat, s': State)
    requires s.status == Running && s.slots < |s.stack| && s.cl < |s.heap| && LeadsToReturn(s.heap[s.cl].fn.code, ip)
    requires Evaluates(m, s, sheap, ip, a, fuel, k, s1)
    ensures Finishes(m, s, sheap, a, fuel, k', s')
  {
    hide Run, HeapOk, LeadsToReturn;
    if !a.outcome.Val? {
      return k, s1;
    }
    var n, s2 := FollowReturn(s1, a.outcome.value);
    assert s1.stack[..s1.slots] == s.stack[..s.slots];
    RunThen(s, k, s1, n, s2);
    return k + n, s2;
  }

  /** What happens after some instructions in the same frame happens overall. */
  lemma FinishLater(m: Mode, s: State, sheap: seq<FunctionValue>, vs: seq<Value>, ip: nat, k: nat, s1: State,
                    sheap1: seq<FunctionValue>, trace: seq<Event>, a: Answer<Value>, fuel: nat, n: nat, s2: State)
    requires s1 == Run(Unbounded, s, k) && s.slots < |s.stack|
    requires Pushes(m, s, sheap, vs, ip, sheap1, trace, s1) && Finishes(m, s1, sheap1, a, fuel, n, s2)
    ensures Finishes(m, s, sheap, a, fuel, k + n, s2)
  {
    hide Run, HeapOk;
    RunThen(s, k, s1, n, s2);
    assert s1.stack[..s1.slots] == s.stack[..s.slots];
  }

  lemma {:induction false} SimulateTailCall(m: Mode, t: Term, isTail: bool, c: Context, base: nat, s: State,
                                            sheap: seq<FunctionValue>, env: Env, fuel: nat)
    returns (k: nat, s': State)
    requires t.Call? && m.emit && c.Context? && Compile(m, t, isTail, c, base).Ok?
    requires Operand(t) && isTail && m.tailCalls
    requires Ready(m, s, sheap, c, base, Compile(m, t, isTail, c, base).value)
    requires EnvOk(c.variables, FreeVars(t), env, sheap[s.cl].env, s.stack, s.slots)
    ensures Finishes(m, s, sheap, Eval(t, env, sheap, s.trace, fuel), fuel, k, s')
    decreases fuel, 1, t, 1
  {
    hide Wf, Grows, HeapOk, EnvOk, Run, Compile, Eval, Operand, FreeVars, LetNames, CodeAt, Encode, EvalCall, Apply;
    var e1, e2 := CallParts(m, t, isTail, c, base, env, sheap, s.trace, fuel);
    var b, i := e1.bytes + e2.bytes, ITailCall(|t.args|);
    assert CallInstr(m, isTail, |t.args|) == i;
    CompileGrows(m, t.callee, false, c, base);
    CompileAllGrows(m, t.args, e1.context, base + |e1.bytes|);
    ReadySplit(m, s, sheap, c, base, e2.context, b, e2.context, Encode(i));
    var k1, s1 := SimulateCallParts(m, t, c, base, e1, e2, s, sheap, env, fuel);
    var a := EvalCall(t, env, sheap, s.trace, fuel);
    if !a.outcome.Val? {
      return k1, s1;
    }
    var vs := a.outcome.value;
    ReadyAfter(m, s, sheap, c, base, b, e2.context, Encode(i), e2.context, vs, a.heap, a.trace, s1);
    assert vs == [vs[0]] + vs[1..];
    var k2, s2 := SimulateInvoke(m, true, e2.context, base + |b|, e2.context, s.stack, vs[0], vs[1..], s1, a.heap,
                                 fuel);
    FinishLater(m, s, sheap, vs, base + |b|, k1, s1, a.heap, a.trace, Eval(t, env, sheap, s.trace, fuel), fuel,
                k2, s2);
    return k1 + k2, s2;
  }

  lemma LetParts(m: Mode, t: Term, isTail: bool, c: Context, base: nat, env: Env, heap: seq<FunctionValue>,
                 trace: seq<Event>, fuel: nat) returns (e1: Emitted, e2: Emitted)
    requires t.Let? && m.emit && c.Context? && Compile(m, t, isTail, c, base).Ok? && Spine(t)
    ensures AddLocal(c, t.bound.text).Ok?
    ensures Compile(m, t.definition, false, AddLocal(c, t.bound.text).value, base) == Ok(e1) && e1.context.Context?
    ensures Compile(m, t.next, true, e1.context, base + |e1.bytes|) == Ok(e2)
    ensures Compile(m, t, isTail, c, base).value == Emitted(e2.context, e1.bytes + e2.bytes)
    ensures Operand(t.definition) && Spine(t.next)
    ensures !t.definition.Function? ==> t.bound.text !in FreeVars(t.definition)
    ensures FreeVars(t.definition) - {t.bound.text} <= FreeVars(t) && FreeVars(t.next) - {t.bound.text} <= FreeVars(t)
    ensures LetNames(t) != {}
    ensures var a := EvalDefinition(t.bound.text, t.definition, env, heap, trace, fuel);
      Eval(t, env, heap, trace, fuel) ==
      if a.outcome.Val? then Eval(t.next, env[t.bound.text := a.outcome.value], a.heap, a.trace, fuel) else a
  {
    hide AddLocal, CompileInt, CompileConstant, CompileVar, CompileCall, CompileBinary, CompileUnary, CompilePair,
      CompileClosure, CompileIf, EvalDefinition;
    e1 := Compile(m, t.definition, false, AddLocal(c, t.bound.text).value, base).value;
    e2 := Compile(m, t.next, true, e1.context, base + |e1.bytes|).value;
    assert t.bound.text in LetNames(t);
  }

  /** A new local: its slot is the one its value is pushed to. */
  lemma LetEnv(c: Context, x: string, names: set<string>, env: Env, captured: Env, stack: seq<Value>, slots: nat,
               v: Value)
    requires c.Context? && Wf(c) && AddLocal(c, x).Ok? && |stack| == slots + c.nextIndex
    requires EnvOk(c.variables, names - {x}, env, captured, stack, slots)
    ensures EnvOk(AddLocal(c, x).value.variables, names, env[x := v], captured, stack + [v], slots)
  {
    AddLocalWf(c, x);
    var d := AddLocal(c, x).value;
    hide AddLocal, Wf, Lookup, VarOk;
    forall y | y in names
      ensures VarOk(d.variables, y, env[x := v], captured, stack + [v], slots)
    {
      if y == x {
        NewVar(d.variables, x, c.nextIndex, v, env, captured, stack + [v], slots);
      } else {
        OtherVar(c.variables, d.variables, x, y, v, env, captured, stack, stack + [v], slots);
      }
    }
  }

  /** A new local does not matter to code that does not mention it. */
  lemma UnusedLocal(c: Context, x: string, names: set<string>, env: Env, captured: Env, stack: seq<Value>, slots: nat)
    requires c.Context? && Wf(c) && AddLocal(c, x).Ok? && x !in names
    requires EnvOk(c.variables, names, env, captured, stack, slots)
    ensures EnvOk(AddLocal(c, x).value.variables, names, env, captured, stack, slots)
  {
    AddLocalWf(c, x);
    var d := AddLocal(c, x).value;
    hide AddLocal, Wf;
    forall y | y in names
      ensures VarOk(d.variables, y, env, captured, stack, slots)
    {
      assert VarOk(c.variables, y, env, captured, stack, slots);
    }
  }

  /** The value of a `let`. A function captures its own slot, which holds the closure being built. */
  lemma {:induction false} SimulateDefinition(m: Mode, x: string, v: Term, c: Context, base: nat, s: State,
                                              sheap: seq<FunctionValue>, env: Env, fuel: nat)
    returns (k: nat, s': State)
    requires m.emit && c.Context? && Wf(c) && AddLocal(c, x).Ok?
    requires Compile(m, v, false, AddLocal(c, x).value, base).Ok?
    requires Operand(v) && (!v.Function? ==> x !in FreeVars(v))
    requires Ready(m, s, sheap, AddLocal(c, x).value, base, Compile(m, v, false, AddLocal(c, x).value, base).value)
    requires EnvOk(c.variables, FreeVars(v) - {x}, env, sheap[s.cl].env, s.stack, s.slots)
    requires |s.stack| == s.slots + c.nextIndex
    ensures Evaluates(m, s, sheap, base + |Compile(m, v, false, AddLocal(c, x).value, base).value.bytes|,
                      EvalDefinition(x, v, env, sheap, s.trace, fuel), fuel, k, s')
    decreases fuel, 1, v, 3
  {
    hide Wf, Grows, HeapOk, EnvOk, Run, FreeVars, LetNames, CodeAt, Encode, AddLocal, Room, Eval, Compile, Operand;
    var c1 := AddLocal(c, x).value;
    if v.Function? {
      var self := ClosureValue(|sheap|);
      FunctionParts(m, v, c1, base, env[x := self], sheap, s.trace, fuel);
      LetEnv(c, x, FreeVars(v), env, sheap[s.cl].env, s.stack, s.slots, self);
      hide Ready;
      ClosureStep(m, v, c1, base, s, sheap, env[x := self]);
      return 1, Run(Unbounded, s, 1);
    } else {
      assert FreeVars(v) - {x} == FreeVars(v);
      UnusedLocal(c, x, FreeVars(v), env, sheap[s.cl].env, s.stack, s.slots);
      k, s' := SimulateOperand(m, v, false, c1, base, s, sheap, env, fuel);
    }
  }

  lemma FunctionParts(m: Mode, v: Term, c: Context, base: nat, env: Env, heap: seq<FunctionValue>, trace: seq<Event>,
                      fuel: nat)
    requires v.Function? && c.Context? && Operand(v)
    ensures Compile(m, v, false, c, base) == CompileClosure(m, v, c) && Spine(v.body)
    ensures Eval(v, env, heap, trace, fuel) ==
      Answer(Val(ClosureValue(|heap|)), heap + [FunctionValue(v.params, v.body, env)], trace)
  {
    hide Spine, CompileClosure;
  }

  lemma {:induction false} SimulateLet(m: Mode, t: Term, isTail: bool, c: Context, base: nat, s: State,
                                       sheap: seq<FunctionValue>, env: Env, fuel: nat)
    returns (k: nat, s': State)
    requires t.Let? && m.emit && c.Context? && Compile(m, t, isTail, c, base).Ok?
    requires Spine(t)
    requires Ready(m, s, sheap, c, base, Compile(m, t, isTail, c, base).value)
    requires EnvOk(c.variables, FreeVars(t), env, sheap[s.cl].env, s.stack, s.slots)
    requires LeadsToReturn(s.heap[s.cl].fn.code, base + |Compile(m, t, isTail, c, base).value.bytes|)
    requires |s.stack| == s.slots + c.nextIndex
    ensures Finishes(m, s, sheap, Eval(t, env, sheap, s.trace, fuel), fuel, k, s')
    decreases fuel, 1, t, 1
  {
    hide Wf, Grows, HeapOk, EnvOk, Run, Compile, Eval, Operand, FreeVars, LetNames, CodeAt, Encode, AddLocal,
      EvalDefinition, Spine, LeadsToReturn;
    var x, v, n, cap := t.bound.text, t.definition, t.next, sheap[s.cl].env;
    var e1, e2 := LetParts(m, t, isTail, c, base, env, sheap, s.trace, fuel);
    var c1 := AddLocal(c, x).value;
    AddLocalWf(c, x);
    CompileGrows(m, v, false, c1, base);
    CompileGrows(m, n, true, e1.context, base + |e1.bytes|);
    OperandBindsNothing(v);
    SameIndex(c1, e1.context, FreeVars(v));
    PrefixFits(e1.context, e2.context, LetNames(n), FreeVars(n));
    ReadyLocal(m, s, sheap, c, c1, base, Emitted(e2.context, e1.bytes + e2.bytes));
    ReadySplit(m, s, sheap, c1, base, e1.context, e1.bytes, e2.context, e2.bytes);
    EnvSubset(c.variables, FreeVars(t), FreeVars(v) - {x}, env, cap, s.stack, s.slots);
    EnvSubset(c.variables, FreeVars(t), FreeVars(n) - {x}, env, cap, s.stack, s.slots);
    var k1, s1 := SimulateDefinition(m, x, v, c, base, s, sheap, env, fuel);
    var a := EvalDefinition(x, v, env, sheap, s.trace, fuel);
    if !a.outcome.Val? {
      return k1, s1;
    }
    var val := a.outcome.value;
    ReadyAfter(m, s, sheap, c1, base, e1.bytes, e2.context, e2.bytes, e1.context, [val], a.heap, a.trace, s1);
    LetEnv(c, x, FreeVars(n), env, cap, s.stack, s.slots, val);
    EnvGrows(c1, e1.context, {}, FreeVars(v), env[x := val], cap, s1.stack, [], s.slots, FreeVars(n));
    assert s1.stack + [] == s1.stack;
    var k2, s2 := SimulateSpine(m, n, true, e1.context, base + |e1.bytes|, s1, a.heap, env[x := val], fuel);
    FinishLater(m, s, sheap, [val], base + |e1.bytes|, k1, s1, a.heap, a.trace,
                Eval(t, env, sheap, s.trace, fuel), fuel, k2, s2);
    return k1 + k2, s2;
  }

  lemma ReadyLocal(m: Mode, s: State, sheap: seq<FunctionValue>, c: Context, c1: Context, base: nat, e: Emitted)
    requires Ready(m, s, sheap, c, base, e) && c1.Context? && Wf(c1)
    ensures Ready(m, s, sheap, c1, base, e)
  {
    hide HeapOk, Wf, Room;
  }

  /** A jump to code that leads to a return leads to a return. */
  lemma JumpLeads(code: seq<byte>, p: nat, t: word)
    requires CodeAt(code, p, Encode(IJump(t))) && p < t <= |code| && LeadsToReturn(code, t)
    ensures LeadsToReturn(code, p)
  {
    DecodeEncoded(code, p, IJump(t));
  }

  lemma SpineIf(t: Term)
    requires t.If? && Spine(t)
    ensures Operand(t.cond) && Spine(t.thn) && Spine(t.els)
    ensures LetNames(t.thn) !! FreeVars(t.els) && (LetNames(t.els) != {} ==> LetNames(t.thn) == {})
  {
    hide FreeVars, LetNames;
  }

  lemma {:induction false} SimulateSpineIf(m: Mode, t: Term, isTail: bool, c: Context, base: nat, s: State,
                                           sheap: seq<FunctionValue>, env: Env, fuel: nat)
    returns (k: nat, s': State)
    requires t.If? && m.emit && c.Context? && Compile(m, t, isTail, c, base).Ok?
    requires Spine(t)
    requires Ready(m, s, sheap, c, base, Compile(m, t, isTail, c, base).value)
    requires EnvOk(c.variables, FreeVars(t), env, sheap[s.cl].env, s.stack, s.slots)
    requires LeadsToReturn(s.heap[s.cl].fn.code, base + |Compile(m, t, isTail, c, base).value.bytes|)
    requires LetNames(t) != {} ==> |s.stack| == s.slots + c.nextIndex
    ensures Finishes(m, s, sheap, Eval(t, env, sheap, s.trace, fuel), fuel, k, s')
    decreases fuel, 1, t, 1
  {
    hide Wf, Grows, HeapOk, EnvOk, Run, Compile, Eval, Operand, FreeVars, LetNames, CodeAt, Encode, IfBytes, Spine,
      LeadsToReturn;
    SpineIf(t);
    var e0, e1, e2, otherwise, end := CompileIsIf(m, t, isTail, c, base);
    IfParts(t, env, sheap, s.trace, fuel);
    OperandBindsNothing(t.cond);
    BranchEnvs(m, t, c, base, e0, e1, e2, otherwise, end, env, sheap[s.cl].env, s.stack, s.slots);
    var k1, s1 := SimulateCondition(m, t, c, base, e0, e1, e2, otherwise, end, s, sheap, env, fuel);
    var a := Eval(t.cond, env, sheap, s.trace, fuel);
    if !a.outcome.Val? {
      return k1, s1;
    }
    var k2, s2;
    if IsFalsy(a.outcome.value) {
      k2, s2 := SimulateSpine(m, t.els, true, e1.context, otherwise, s1, a.heap, env, fuel);
    } else {
      CodeEnd(s.heap[s.cl].fn.code, base, IfBytes(e0, e1, e2, otherwise, end));
      JumpLeads(s.heap[s.cl].fn.code, base + |e0.bytes| + 3 + |e1.bytes|, end);
      k2, s2 := SimulateSpine(m, t.thn, true, e0.context, base + |e0.bytes| + 3, s1, a.heap, env, fuel);
    }
    FinishLater(m, s, sheap, [], s1.ip, k1, s1, a.heap, a.trace, Eval(t, env, sheap, s.trace, fuel), fuel, k2, s2);
    return k1 + k2, s2;
  }

  lemma CodeEnd(code: seq<byte>, at: nat, bs: seq<byte>)
    requires CodeAt(code, at, bs)
    ensures at + |bs| <= |code|
  {
  }

  lemma SpineRest(t: Term)
    requires Spine(t) && !t.Let? && !t.If?
    ensures Operand(t) && (t.Call? || NoTailCall(t))
  {
    hide FreeVars, LetNames;
  }

  /** The body of a function: every `let` value lands in its slot, and the activation finishes as the
      evaluation of the body does. */
  lemma {:induction false} SimulateSpine(m: Mode, t: Term, isTail: bool, c: Context, base: nat, s: State,
                                         sheap: seq<FunctionValue>, env: Env, fuel: nat)
    returns (k: nat, s': State)
    requires m.emit && c.Context? && Compile(m, t, isTail, c, base).Ok?
    requires Spine(t)
    requires Ready(m, s, sheap, c, base, Compile(m, t, isTail, c, base).value)
    requires EnvOk(c.variables, FreeVars(t), env, sheap[s.cl].env, s.stack, s.slots)
    requires LeadsToReturn(s.heap[s.cl].fn.code, base + |Compile(m, t, isTail, c, base).value.bytes|)
    requires LetNames(t) != {} ==> |s.stack| == s.slots + c.nextIndex
    ensures Finishes(m, s, sheap, Eval(t, env, sheap, s.trace, fuel), fuel, k, s')
    decreases fuel, 1, t, 3
  {
    hide Compile, Eval, EnvOk, FreeVars, Run, Spine, HeapOk, Wf, LeadsToReturn, CodeAt, Room, Evaluates, Finishes;
    if t.Let? {
      LetBinds(t);
      k, s' := SimulateLet(m, t, isTail, c, base, s, sheap, env, fuel);
      return;
    }
    if t.If? {
      k, s' := SimulateSpineIf(m, t, isTail, c, base, s, sheap, env, fuel);
      return;
    }
    SpineRest(t);
    if t.Call? && isTail && m.tailCalls {
      k, s' := SimulateTailCall(m, t, isTail, c, base, s, sheap, env, fuel);
      return;
    }
    var n, s1 := SimulateOperand(m, t, isTail, c, base, s, sheap, env, fuel);
    k, s' := FinishOperand(m, s, sheap, base + |Compile(m, t, isTail, c, base).value.bytes|,
                           Eval(t, env, sheap, s.trace, fuel), fuel, n, s1);
  }

  lemma LetBinds(t: Term)
    requires t.Let?
    ensures LetNames(t) != {}
  {
    assert t.bound.text in LetNames(t);
  }
}
