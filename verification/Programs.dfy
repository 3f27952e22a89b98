/** Whole programs: what it means that the program or the machine ends, one run of the machine for one
    evaluation, and runs under the size limits of the machine. */
module Programs {
  import opened Values
  import opened Syntax
  import opened Bytecode
  import opened Codegen
  import opened Scoping
  import opened Machine
  import opened Semantics
  import opened Simulation
  import opened Preservation
  import opened Safety

  // ----- programs -----

  /** The programs that the single pass treats correctly: closed, in spine form, and with at most 256
      functions directly inside each function. */
  predicate Supported(program: Term) {
    Spine(program) && FreeVars(program) == {} && FunctionCount(program) <= 256 && ChildTablesFit(program)
  }

  /** The machine has stopped with this outcome and output. */
  ghost predicate Ended(s: State, o: Outcome<Value>, trace: seq<Event>) {
    s.trace == trace &&
    match o
    case Val(v) => s.status == Halted && |s.stack| > 0 && s.stack[|s.stack| - 1] == v
    case Error(e) => s.status == Failed(e)
    case Undef => s.status == Stuck
    case Wrong => s.status == Wild
    case Timeout => false
  }

  ghost predicate MachineEnds(lim: Limits, main: CompiledFunction, o: Outcome<Value>, trace: seq<Event>) {
    exists k: nat :: Ended(Run(lim, Start(lim, main), k), o, trace)
  }

  ghost predicate MachineDiverges(lim: Limits, main: CompiledFunction) {
    forall k: nat :: Run(lim, Start(lim, main), k).status == Running
  }

  ghost predicate SourceEnds(program: Term, o: Outcome<Value>, trace: seq<Event>) {
    !o.Timeout? && exists fuel: nat ::
      EvalProgram(program, fuel).outcome == o && EvalProgram(program, fuel).trace == trace
  }

  // ----- child tables -----

  lemma {:induction false} FunctionChildren(m: Mode, ps: seq<Parameter>, b: Term, c: Context)
    requires m.emit && c.Context? && Wf(c) && CompileFunction(m, ps, b, c).Ok?
    requires FunctionCount(b) <= 256 && ChildTablesFit(b)
    ensures ChildrenFit(CompileFunction(m, ps, b, c).value.1)
    ensures CompileFunction(m, ps, b, c).value.0.functions == c.functions
    decreases b, 2
  {
    hide Compile, Wf, FunctionCount, ChildTablesFit;
    BodyContextWf(ps, c);
    var inner := BodyContext(ps, c).value;
    AddParamsFunctions(NewContext(c), ps);
    CompileChildren(m, b, true, inner, 0);
    FunctionGrows(m, ps, b, c);
  }

  ghost predicate NewChildrenFit(c: Context, d: Context, n: nat)
    requires c.Context?
  {
    d.Context? && |d.functions| == |c.functions| + n &&
    forall f | f in d.functions :: f in c.functions || ChildrenFit(f)
  }

  lemma ResolveFunctions(c: Context, x: string)
    requires c.Context? && Resolve(c, x).Ok?
    ensures Resolve(c, x).value.0.functions == c.functions
  {
  }

  /** Each function directly inside a term becomes one entry of the table of child functions. */
  lemma {:induction false} CompileChildren(m: Mode, t: Term, isTail: bool, c: Context, base: nat)
    requires m.emit && c.Context? && Wf(c) && Compile(m, t, isTail, c, base).Ok?
    requires ChildTablesFit(t)
    ensures NewChildrenFit(c, Compile(m, t, isTail, c, base).value.context, FunctionCount(t))
    decreases t, 1
  {
    hide Wf, Encode, Grows, Captures, WordOverruns, ChildrenFit, FreeVars, LetNames, AddLocal, Resolve, CompileIf,
      CompileLet;
    match t
    case Int(_, _) =>
    case Str(_, _) =>
    case Bool(_, _) =>
    case Var(x, _) => ResolveFunctions(c, x);
    case Call(f, args, _) =>
      var e1 := Compile(m, f, false, c, base).value;
      CompileGrows(m, f, false, c, base);
      CompileChildren(m, f, false, c, base);
      CompileAllChildren(m, args, e1.context, base + |e1.bytes|);
    case Binary(l, _, r, _) =>
      var e1 := Compile(m, l, false, c, base).value;
      CompileGrows(m, l, false, c, base);
      CompileChildren(m, l, false, c, base);
      CompileChildren(m, r, false, e1.context, base + |e1.bytes|);
    case Unary(_, e, _) => CompileChildren(m, e, false, c, base);
    case Pair(l, r, _) =>
      var e1 := Compile(m, l, false, c, base).value;
      CompileGrows(m, l, false, c, base);
      CompileChildren(m, l, false, c, base);
      CompileChildren(m, r, false, e1.context, base + |e1.bytes|);
    case Function(ps, b, _) => FunctionChildren(m, ps, b, c);
    case Let(_, _, _, _) => LetChildren(m, t, c, base);
    case If(cond, a, b, _) => IfChildren(m, t, c, base);
  }

  lemma {:induction false} LetChildren(m: Mode, t: Term, c: Context, base: nat)
    requires t.Let? && m.emit && c.Context? && Wf(c) && CompileLet(m, t, c, base).Ok?
    requires ChildTablesFit(t)
    ensures NewChildrenFit(c, CompileLet(m, t, c, base).value.context, FunctionCount(t))
    decreases t, 0
  {
    hide Wf, Grows, Captures, Compile, ChildrenFit;
    var c1 := AddLocal(c, t.bound.text).value;
    AddLocalWf(c, t.bound.text);
    var e1 := Compile(m, t.definition, false, c1, base).value;
    CompileGrows(m, t.definition, false, c1, base);
    CompileChildren(m, t.definition, false, c1, base);
    CompileChildren(m, t.next, true, e1.context, base + |e1.bytes|);
  }

  lemma {:induction false} IfChildren(m: Mode, t: Term, c: Context, base: nat)
    requires t.If? && m.emit && c.Context? && Wf(c) && CompileIf(m, t, c, base).Ok?
    requires ChildTablesFit(t)
    ensures NewChildrenFit(c, CompileIf(m, t, c, base).value.context, FunctionCount(t))
    decreases t, 0
  {
    hide Wf, Encode, Grows, Captures, Compile;
    var e0, e1, e2, otherwise, end := IfLayout(m, t, c, base);
    hide CompileIf;
    CompileGrows(m, t.cond, false, c, base);
    CompileGrows(m, t.thn, true, e0.context, base + |e0.bytes| + 3);
    CompileChildren(m, t.cond, false, c, base);
    CompileChildren(m, t.thn, true, e0.context, base + |e0.bytes| + 3);
    CompileChildren(m, t.els, true, e1.context, otherwise);
  }

  lemma {:induction false} CompileAllChildren(m: Mode, ts: seq<Term>, c: Context, base: nat)
    requires m.emit && c.Context? && Wf(c) && CompileAll(m, ts, c, base).Ok?
    requires ChildTablesFitAll(ts)
    ensures NewChildrenFit(c, CompileAll(m, ts, c, base).value.context, FunctionCountAll(ts))
    decreases ts, 1
  {
    hide Wf, Grows, Captures, Compile;
    if ts != [] {
      var e1 := Compile(m, ts[0], false, c, base).value;
      CompileGrows(m, ts[0], false, c, base);
      CompileChildren(m, ts[0], false, c, base);
      CompileAllChildren(m, ts[1..], e1.context, base + |e1.bytes|);
    }
  }

  // ----- one run -----

  lemma MainImplements(m: Mode, program: Term, main: CompiledFunction)
    requires m.emit && Supported(program) && CompileProgram(m, program) == Ok(main)
    ensures Implements(m, FunctionValue([], program, map[]), Closure(main, []))
    ensures main.nonlocals == []
  {
    hide Compile, Spine, FreeVars;
    var c := NewContext(NoContext);
    NewContextWf(NoContext);
    CompileGrows(m, program, false, c, 0);
    CompileChildren(m, program, false, c, 0);
    var d := Compile(m, program, false, c, 0).value.context;
    assert d.enclosing == NoContext;
    assert CompilesTo(m, [], program, NoContext, false, main);
  }

  /** What evaluating with some fuel says, the machine does; on Timeout it has not stopped yet. */
  lemma ProgramSimulated(m: Mode, program: Term, main: CompiledFunction, fuel: nat) returns (k: nat)
    requires m.emit && Supported(program) && CompileProgram(m, program) == Ok(main)
    ensures var s := Run(Unbounded, Start(Unbounded, main), k);
      var a := EvalProgram(program, fuel);
      if a.outcome.Timeout? then s.status == Running && k >= fuel && s.trace == a.trace
      else Ended(s, a.outcome, a.trace)
  {
    hide Compile, Eval, Run, FreeVars, Spine, Wf, HeapOk;
    MainImplements(m, program, main);
    var s, sheap := Start(Unbounded, main), [FunctionValue([], program, map[])];
    StartOk(m, program, main);
    var c := NewContext(NoContext);
    var e := Compile(m, program, false, c, 0).value;
    ReturnByte(main.code, e.bytes);
    assert EnvOk(c.variables, FreeVars(program), map[], map[], s.stack, s.slots);
    var n, s' := SimulateSpine(m, program, false, c, 0, s, sheap, map[], fuel);
    return n;
  }

  lemma StartOk(m: Mode, program: Term, main: CompiledFunction)
    requires Implements(m, FunctionValue([], program, map[]), Closure(main, []))
    ensures HeapOk(m, [FunctionValue([], program, map[])], [Closure(main, [])])
    ensures Wf(NewContext(NoContext))
  {
    hide Implements;
    NewContextWf(NoContext);
  }

  lemma {:induction false} FinalStays(lim: Limits, s: State, n: nat)
    requires s.status != Running
    ensures Run(lim, s, n) == s
    decreases n
  {
    if n > 0 {
      FinalStays(lim, s, n - 1);
    }
  }

  /** Two runs that have stopped are in the same state. */
  lemma SameEnd(lim: Limits, s: State, j: nat, k: nat)
    requires j <= k && Run(lim, s, j).status != Running
    ensures Run(lim, s, k) == Run(lim, s, j)
  {
    hide Step;
    RunSum(lim, s, j, k - j);
    FinalStays(lim, Run(lim, s, j), k - j);
  }

  // ----- the limits of the machine -----

  predicate IsLimit(e: Values.Error) {
    e == StackOverflow || e == TooManyNestedCalls
  }

  /** The machine has stopped because its stack or its callstack is full, and says which. */
  predicate LimitHit(lim: Limits, s: State) {
    lim.Bounded? &&
    ((s.status == Failed(StackOverflow) && |s.stack| == lim.stackSize) ||
     (s.status == Failed(TooManyNestedCalls) && |s.frames| == lim.callDepth))
  }

  lemma LimitedStep(lim: Limits, s: State)
    ensures var r := Step(lim, s);
      r == Step(Unbounded, s) || (LimitHit(lim, r) && r.trace == s.trace)
  {
    hide Decode, Encode, BinaryOp, CheckCall, CanCapture, Capture, Peek, TypeOf, IsFalsy;
  }

  lemma OutputGrows(s: State)
    ensures s.trace <= Step(Unbounded, s).trace
  {
    hide Decode, Encode, BinaryOp, CheckCall, CanCapture, Capture, Peek, TypeOf;
  }

  lemma {:induction false} OutputStays(s: State, n: nat)
    ensures s.trace <= Run(Unbounded, s, n).trace
    decreases n
  {
    if n > 0 {
      OutputGrows(s);
      hide Step;
      OutputStays(Step(Unbounded, s), n - 1);
    }
  }

  /** A run of the limited machine is a run of the unlimited one, or it has been cut short, with a prefix
      of its trace, when the stack or the callstack was full. */
  lemma {:induction false} LimitedRun(lim: Limits, s: State, n: nat)
    ensures var r, r' := Run(lim, s, n), Run(Unbounded, s, n);
      r == r' || (LimitHit(lim, r) && r.trace <= r'.trace)
    decreases n
  {
    hide Step;
    if n > 0 {
      LimitedStep(lim, s);
      var s1 := Step(lim, s);
      if s1 == Step(Unbounded, s) {
        LimitedRun(lim, s1, n - 1);
      } else {
        FinalStays(lim, s1, n - 1);
        OutputStays(s, n);
      }
    }
  }

  lemma LimitedStart(lim: Limits, main: CompiledFunction, n: nat)
    ensures var r, r' := Run(lim, Start(lim, main), n), Run(Unbounded, Start(Unbounded, main), n);
      r == r' || (LimitHit(lim, r) && r.trace <= r'.trace)
  {
    hide Run;
    if Start(lim, main) == Start(Unbounded, main) {
      LimitedRun(lim, Start(lim, main), n);
    } else {
      FinalStays(lim, Start(lim, main), n);
    }
  }
}
