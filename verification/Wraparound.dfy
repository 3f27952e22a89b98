/** More programs that are accepted and go wrong: argument counts and function indices are one byte, and
    a branch can hide a variable from the other. In each family exactly the programs that break one
    condition of Supported are concerned. */
module Wraparound {
  import opened Values
  import opened Syntax
  import opened Bytecode
  import opened Codegen
  import opened Machine
  import opened Semantics
  import opened Simulation
  import opened Programs
  import opened Counterexamples
  import Scoping

  /** The state after one more instruction. */
  lemma Executed(s0: State, n: nat, s: State, i: Instr) returns (r: State)
    requires s == Run(Unbounded, s0, n) && s.status == Running && s.cl < |s.heap|
    requires CodeAt(s.heap[s.cl].fn.code, s.ip, Encode(i))
    ensures r == Exec(Unbounded, s.(ip := s.ip + |Encode(i)|), i) == Run(Unbounded, s0, n + 1)
  {
    hide *;
    StepOne(s, i);
    r := Run(Unbounded, s, 1);
    RunThen(s0, n, s, 1, r);
  }

  // ----- many arguments -----

  function Trues(n: nat): (ts: seq<Term>)
    ensures |ts| == n
  {
    if n == 0 then [] else [Bool(true, HERE)] + Trues(n - 1)
  }

  /** a(true, true, ...), with n arguments; a is a number */
  function ManyArguments(a: nat, n: nat): Term {
    Call(IntTerm(a), Trues(n), HERE)
  }

  function TrueBytes(n: nat): (bs: seq<byte>)
    ensures |bs| == n
  {
    if n == 0 then [] else Encode(ITrue) + TrueBytes(n - 1)
  }

  function TrueValues(n: nat): (vs: seq<Value>)
    ensures |vs| == n && forall v | v in vs :: v == BoolValue(true)
  {
    if n == 0 then [] else [BoolValue(true)] + TrueValues(n - 1)
  }

  lemma {:induction false} TruesCompile(n: nat, c: Context, base: nat)
    requires c.Context?
    ensures CompileAll(FULL, Trues(n), c, base) == Ok(Emitted(c, TrueBytes(n)))
    decreases n
  {
    hide Encode;
    if n > 0 {
      assert Trues(n)[1..] == Trues(n - 1);
      assert Compile(FULL, Trues(n)[0], false, c, base) == Ok(Emitted(c, Encode(ITrue)));
      TruesCompile(n - 1, c, base + |Encode(ITrue)|);
    }
  }

  lemma {:induction false} TruesMean(n: nat, env: Env, heap: seq<FunctionValue>, fuel: nat)
    ensures EvalAll(Trues(n), env, heap, [], fuel) == Answer(Val(TrueValues(n)), heap, [])
    decreases n
  {
    if n > 0 {
      assert Trues(n)[1..] == Trues(n - 1);
      assert Eval(Trues(n)[0], env, heap, [], fuel) == Answer(Val(BoolValue(true)), heap, []);
      hide Eval;
      TruesMean(n - 1, env, heap, fuel);
    }
  }

  lemma TruesFrom(n: nat)
    ensures n == 0 ==> TrueBytes(n) == [] && TrueValues(n) == []
    ensures n > 0 ==>
      && TrueBytes(n) == Encode(ITrue) + TrueBytes(n - 1) && |Encode(ITrue)| == 1
      && TrueValues(n) == [BoolValue(true)] + TrueValues(n - 1)
  {
  }

  lemma {:induction false} TruesRun(s0: State, k: nat, s: State, n: nat) returns (r: State)
    requires s == Run(Unbounded, s0, k) && s.status == Running && s.cl < |s.heap|
    requires CodeAt(s.heap[s.cl].fn.code, s.ip, TrueBytes(n))
    ensures r == s.(stack := s.stack + TrueValues(n), ip := s.ip + n) == Run(Unbounded, s0, k + n)
    decreases n
  {
    TruesFrom(n);
    hide Run, Exec, CodeAt, Encode, TrueBytes, TrueValues;
    if n == 0 {
      assert s.stack + [] == s.stack;
      return s;
    }
    CodeAtSplit(s.heap[s.cl].fn.code, s.ip, Encode(ITrue), TrueBytes(n - 1));
    var s1 := Executed(s0, k, s, ITrue);
    TrueExec(s.(ip := s.ip + 1));
    r := TruesRun(s0, k + 1, s1, n - 1);
    assert s.stack + [BoolValue(true)] + TrueValues(n - 1) == s.stack + TrueValues(n);
  }

  lemma TrueExec(s: State)
    requires s.cl < |s.heap|
    ensures Exec(Unbounded, s, ITrue) == s.(stack := s.stack + [BoolValue(true)])
  {
  }

  lemma ManyArgumentsCode(a: word, n: nat) returns (main: CompiledFunction)
    ensures CompileProgram(FULL, ManyArguments(a, n)) == Ok(main)
    ensures main.code == (Encode(IInt(a)) + TrueBytes(n)) + Encode(ICall(n % 256)) + Encode(IReturn)
  {
    var c, t := NewContext(NoContext), ManyArguments(a, n);
    assert !WordOverruns(1);
    assert Compile(FULL, t.callee, false, c, 0) == Ok(Emitted(c, Encode(IInt(a))));
    TruesCompile(n, c, |Encode(IInt(a))|);
    assert CallInstr(FULL, false, n) == ICall(n % 256);
    assert Compile(FULL, t, false, c, 0) == CompileCall(FULL, t, false, c, 0);
    hide Compile, CompileAll, Encode, WordOverruns;
    main := CompileProgram(FULL, t).value;
  }

  lemma {:induction false} TruesFine(n: nat)
    ensures Operands(Trues(n)) && FreeVarsAll(Trues(n)) == {}
    ensures FunctionCountAll(Trues(n)) == 0 && ChildTablesFitAll(Trues(n))
    decreases n
  {
    if n > 0 {
      assert Trues(n)[1..] == Trues(n - 1);
      TruesFine(n - 1);
      LeafFine(Trues(n)[0]);
    }
  }

  /** The argument count is one byte. With 256 arguments or more the program means that a number cannot be
      called, and its code calls one of the arguments. */
  lemma ManyArgumentsFail(a: word, n: nat) returns (main: CompiledFunction)
    ensures Supported(ManyArguments(a, n)) <==> n < 256
    ensures CompileProgram(FULL, ManyArguments(a, n)) == Ok(main)
    ensures SourceEnds(ManyArguments(a, n), Outcome<Value>.Error(CannotCall(IntType)), [])
    ensures n >= 256 ==> MachineEnds(Unbounded, main, Outcome<Value>.Error(CannotCall(BoolType)), [])
  {
    hide CompileProgram, MachineEnds, SourceEnds, Encode;
    TruesFine(n);
    assert FreeVars(IntTerm(a)) == {} && Operand(IntTerm(a));
    assert FunctionCount(IntTerm(a)) == 0 && ChildTablesFit(IntTerm(a));
    main := ManyArgumentsCode(a, n);
    ManyArgumentsMean(a, n);
    if n >= 256 {
      ManyArgumentsRun(a, n, main);
    }
  }

  lemma ManyArgumentsMean(a: word, n: nat)
    ensures SourceEnds(ManyArguments(a, n), Outcome<Value>.Error(CannotCall(IntType)), [])
  {
    var t := ManyArguments(a, n);
    var heap := [FunctionValue([], t, map[])];
    assert Eval(t.callee, map[], heap, [], 0) == Answer(Val(IntValue(a)), heap, []);
    TruesMean(n, map[], heap, 0);
    assert Apply(IntValue(a), TrueValues(n), heap, [], 0) ==
      Answer(Outcome<Value>.Error(CannotCall(IntType)), heap, []);
    hide EvalAll, Apply;
    assert EvalProgram(t, 0).outcome == Outcome<Value>.Error(CannotCall(IntType)) && EvalProgram(t, 0).trace == [];
  }

  lemma ManyArgumentsRun(a: word, n: nat, main: CompiledFunction)
    requires n >= 256 && main.code == (Encode(IInt(a)) + TrueBytes(n)) + Encode(ICall(n % 256)) + Encode(IReturn)
    ensures MachineEnds(Unbounded, main, Outcome<Value>.Error(CannotCall(BoolType)), [])
  {
    hide Run, Exec, CodeAt, Encode;
    var code, s0 := main.code, Start(Unbounded, main);
    RunNone(s0);
    assert CodeAt(code, 0, code) by { WholeCode(code); }
    CodeAtSplit(code, 0, (Encode(IInt(a)) + TrueBytes(n)) + Encode(ICall(n % 256)), Encode(IReturn));
    CodeAtSplit(code, 0, Encode(IInt(a)) + TrueBytes(n), Encode(ICall(n % 256)));
    CodeAtSplit(code, 0, Encode(IInt(a)), TrueBytes(n));
    var s1 := Executed(s0, 0, s0, IInt(a));
    ExecPlain(s0.(ip := |Encode(IInt(a))|), a, 0);
    var s2 := TruesRun(s0, 1, s1, n);
    var s3 := Executed(s0, 1 + n, s2, ICall(n % 256));
    CallOfTrue(s2.(ip := s2.ip + |Encode(ICall(n % 256))|), [ClosureValue(0), IntValue(a)], n, n % 256);
    assert Ended(s3, Outcome<Value>.Error(CannotCall(BoolType)), []);
  }

  lemma CallOfTrue(s: State, below: seq<Value>, n: nat, k: byte)
    requires k < n && s.stack == below + TrueValues(n) && s.slots < |below| && s.cl < |s.heap|
    ensures Exec(Unbounded, s, ICall(k)) == Fail(s, CannotCall(BoolType))
  {
    assert HasOperands(s, k + 1) && Peek(s, k) == TrueValues(n)[n - 1 - k];
    assert TrueValues(n)[n - 1 - k] in TrueValues(n);
    hide Peek, HasOperands, TrueValues;
  }

  lemma WholeCode(code: seq<byte>)
    ensures CodeAt(code, 0, code)
  {
    assert code[0..|code|] == code;
  }

  // ----- many functions -----

  function Constantly(a: nat): Term {
    Function([], IntTerm(a), HERE)
  }

  /** (fn () => a) and ((fn () => a) and ...), with n functions */
  function Chain(n: nat, a: nat): Term {
    if n <= 1 then Constantly(a) else Binary(Constantly(a), And, Chain(n - 1, a), HERE)
  }

  /** if (false) (a chain of n functions that give a) else (fn () => b)() */
  function ManyFunctions(n: nat, a: nat, b: nat): Term {
    If(Bool(false, HERE), Chain(n, a), Call(Constantly(b), [], HERE), HERE)
  }

  function ConstantCode(a: word): CompiledFunction {
    CompiledFunction(0, Encode(IInt(a)) + Encode(IReturn), [], [], [])
  }

  function Copies(n: nat, fn: CompiledFunction): (fs: seq<CompiledFunction>)
    ensures |fs| == n && forall i :: 0 <= i < n ==> fs[i] == fn
  {
    seq(n, _ => fn)
  }

  lemma ConstantlyCompiles(a: word, isTail: bool, c: Context, base: nat)
    requires c.Context?
    ensures Compile(FULL, Constantly(a), isTail, c, base) ==
      Ok(Emitted(c.(functions := c.functions + [ConstantCode(a)]), Encode(IClosure(|c.functions| % 256))))
    ensures |Encode(IClosure(|c.functions| % 256))| == 2
  {
    var fn := CalleeCode(a, c);
    hide CompileFunction;
  }

  lemma {:induction false} ChainCompiles(n: nat, a: word, isTail: bool, c: Context, base: nat) returns (e: Emitted)
    requires c.Context? && n >= 1
    ensures Compile(FULL, Chain(n, a), isTail, c, base) == Ok(e)
    ensures e.context == c.(functions := c.functions + Copies(n, ConstantCode(a))) && |e.bytes| == 3 * n - 1
    decreases n
  {
    hide Encode, CompileClosure, ConstantCode;
    var fn := ConstantCode(a);
    ConstantlyCompiles(a, if n == 1 then isTail else false, c, base);
    if n == 1 {
      assert Copies(1, fn) == [fn];
      e := Compile(FULL, Chain(n, a), isTail, c, base).value;
    } else {
      var d := c.(functions := c.functions + [fn]);
      var e2 := ChainCompiles(n - 1, a, false, d, base + 2);
      assert c.functions + [fn] + Copies(n - 1, fn) == c.functions + Copies(n, fn);
      assert Compile(FULL, Chain(n, a), isTail, c, base) == CompileBinary(FULL, Chain(n, a), c, base);
      AndSize();
      hide Compile;
      e := CompileBinary(FULL, Chain(n, a), c, base).value;
    }
  }

  lemma AndSize()
    ensures |Encode(IBinary(And))| == 1
  {
  }

  lemma {:induction false} ChainFine(n: nat, a: nat)
    ensures var t := Chain(n, a);
      && Operand(t) && Spine(t) && FreeVars(t) == {} && LetNames(t) == {}
      && FunctionCount(t) == (if n == 0 then 1 else n) && ChildTablesFit(t)
    decreases n
  {
    LeafFine(IntTerm(a));
    assert FreeVars(Constantly(a)) == {} && FunctionCount(Constantly(a)) == 1 && ChildTablesFit(Constantly(a));
    assert Operand(Constantly(a)) && LetNames(Constantly(a)) == {};
    if n > 1 {
      ChainFine(n - 1, a);
    }
  }

  lemma LastCallCompiles(b: word, c: Context, base: nat)
    requires c.Context?
    ensures Compile(FULL, Call(Constantly(b), [], HERE), true, c, base) ==
      Ok(Emitted(c.(functions := c.functions + [ConstantCode(b)]),
                 Encode(IClosure(|c.functions| % 256)) + Encode(ITailCall(0))))
  {
    var t := Call(Constantly(b), [], HERE);
    ConstantlyCompiles(b, false, c, base);
    var d, i := c.(functions := c.functions + [ConstantCode(b)]), Encode(IClosure(|c.functions| % 256));
    assert CompileAll(FULL, t.args, d, base + |i|) == Ok(Emitted(d, []));
    assert i + [] == i;
    hide Encode, ConstantCode;
    assert Compile(FULL, t, true, c, base) == CompileCall(FULL, t, true, c, base);
    hide Compile, CompileAll;
  }

  /** The two branches. */
  lemma BranchesCompile(n: nat, a: word, b: word) returns (e1: Emitted, e2: Emitted)
    requires 1 <= n
    ensures var t, c, e0 := ManyFunctions(n, a, b), NewContext(NoContext),
                              Emitted(NewContext(NoContext), Encode(IFalse));
      && Compile(FULL, t.cond, false, c, 0) == Ok(e0) && |e0.bytes| == 1
      && Compile(FULL, t.thn, true, c, 4) == Ok(e1) && e1.context.Context? && |e1.bytes| == 3 * n - 1
      && Compile(FULL, t.els, true, e1.context, 7 + |e1.bytes|) == Ok(e2) && e2.context.Context? && |e2.bytes| == 4
      && e2.context.functions == Copies(n, ConstantCode(a)) + [ConstantCode(b)]
      && e2.bytes == Encode(IClosure(n % 256)) + Encode(ITailCall(0))
  {
    hide ConstantCode, CompileClosure;
    var c := NewContext(NoContext);
    OperandSizes(0);
    e1 := ChainCompiles(n, a, true, c, 4);
    LastCallCompiles(b, e1.context, 7 + |e1.bytes|);
    ClosureCallSize(n % 256);
    e2 := Compile(FULL, ManyFunctions(n, a, b).els, true, e1.context, 7 + |e1.bytes|).value;
    assert [] + Copies(n, ConstantCode(a)) == Copies(n, ConstantCode(a));
    hide Encode;
  }

  lemma ManyFunctionsCode(n: nat, a: word, b: word) returns (main: CompiledFunction, branch: seq<byte>)
    requires 1 <= n && !IsCapacity(3 * n + 5) && 3 * n + 10 <= MAX_WORD
    ensures CompileProgram(FULL, ManyFunctions(n, a, b)) == Ok(main)
    ensures main.functions == Copies(n, ConstantCode(a)) + [ConstantCode(b)] && |branch| == 3 * n - 1
    ensures main.code == Encode(IFalse) + Encode(IJumpIfFalse(7 + |branch|)) + branch + Encode(IJump(11 + |branch|)) +
      (Encode(IClosure(n % 256)) + Encode(ITailCall(0))) + Encode(IReturn)
  {
    hide *;
    ManyFunctionsIsIf(n, a, b);
    var e1, e2 := BranchesCompile(n, a, b);
    branch := e1.bytes;
    Places(|branch|);
    main := ProgramOfIf(ManyFunctions(n, a, b), Emitted(NewContext(NoContext), Encode(IFalse)), e1, e2);
  }

  lemma Places(n: nat)
    requires !IsCapacity(n + 6)
    ensures !WordOverruns(2) && !WordOverruns(5 + n) && NewContext(NoContext).Context? && FULL.emit && MAX_WORD == 65535
  {
  }

  /** A program that is a conditional, put together from its parts. */
  lemma ProgramOfIf(t: Term, e0: Emitted, e1: Emitted, e2: Emitted) returns (main: CompiledFunction)
    requires t.If? && Compile(FULL, t.cond, false, NewContext(NoContext), 0) == Ok(e0) && e0.context.Context?
    requires |e0.bytes| == 1 && !WordOverruns(2) && !WordOverruns(5 + |e1.bytes|)
    requires Compile(FULL, t.thn, true, e0.context, 4) == Ok(e1) && e1.context.Context?
    requires Compile(FULL, t.els, true, e1.context, 7 + |e1.bytes|) == Ok(e2) && 7 + |e1.bytes| + |e2.bytes| <= MAX_WORD
    requires e2.context.Context?
    ensures CompileProgram(FULL, t) == Ok(main) && main.functions == e2.context.functions
    ensures main.code == e0.bytes + Encode(IJumpIfFalse(7 + |e1.bytes|)) + e1.bytes +
      Encode(IJump(7 + |e1.bytes| + |e2.bytes|)) + e2.bytes + Encode(IReturn)
  {
    hide Compile, CompileIf, WordOverruns, Encode;
    var c := NewContext(NoContext);
    IfIs(FULL, t, c, 0, e0, e1, e2);
    IfCompiles(t, c);
    main := CompileProgram(FULL, t).value;
  }

  lemma ManyFunctionsIsIf(n: nat, a: nat, b: nat)
    ensures ManyFunctions(n, a, b).If?
  {
  }

  lemma IfCompiles(t: Term, c: Context)
    requires t.If? && c.Context?
    ensures Compile(FULL, t, false, c, 0) == CompileIf(FULL, t, c, 0)
  {
  }

  lemma ClosureCallSize(k: byte)
    ensures |Encode(IClosure(k)) + Encode(ITailCall(0))| == 4
  {
  }

  lemma ManyFunctionsMean(n: nat, a: word, b: word)
    ensures SourceEnds(ManyFunctions(n, a, b), Val(IntValue(b)), [])
  {
    var t := ManyFunctions(n, a, b);
    var none: Env := map[];
    var heap := [FunctionValue([], t, none)];
    var heap1 := heap + [FunctionValue([], IntTerm(b), none)];
    assert Eval(t.cond, none, heap, [], 1) == Answer(Val(BoolValue(false)), heap, []);
    assert Eval(t.els.callee, none, heap, [], 1) == Answer(Val(ClosureValue(1)), heap1, []);
    assert EvalAll(t.els.args, none, heap1, [], 1) == Answer(Val([]), heap1, []);
    assert Eval(IntTerm(b), none, heap1, [], 0) == Answer(Val(IntValue(b)), heap1, []);
    assert Apply(ClosureValue(1), [], heap1, [], 1) == Answer(Val(IntValue(b)), heap1, []);
    assert Eval(t.els, none, heap, [], 1) == Answer(Val(IntValue(b)), heap1, []);
    assert Eval(t, none, heap, [], 1) == Answer(Val(IntValue(b)), heap1, []);
    assert EvalProgram(t, 1).outcome == Val(IntValue(b)) && EvalProgram(t, 1).trace == [];
  }

  /** Where the instructions that are executed stand. */
  lemma ManyFunctionsParts(code: seq<byte>, branch: seq<byte>, t: word, u: word, k: byte)
    requires code == Encode(IFalse) + Encode(IJumpIfFalse(t)) + branch + Encode(IJump(u)) +
      (Encode(IClosure(k)) + Encode(ITailCall(0))) + Encode(IReturn)
    requires t == |branch| + 7
    ensures CodeAt(code, 0, Encode(IFalse)) && CodeAt(code, 1, Encode(IJumpIfFalse(t)))
    ensures CodeAt(code, t, Encode(IClosure(k))) && CodeAt(code, t + 2, Encode(ITailCall(0)))
  {
    Sizes(t, u, k);
    WholeCode(code);
    hide *;
    var jump, jif, last := Encode(IJump(u)), Encode(IJumpIfFalse(t)), Encode(IClosure(k)) + Encode(ITailCall(0));
    CodeAtSplit(code, 0, Encode(IFalse) + jif + branch + jump + last, Encode(IReturn));
    CodeAtSplit(code, 0, Encode(IFalse) + jif + branch + jump, last);
    CodeAtSplit(code, t, Encode(IClosure(k)), Encode(ITailCall(0)));
    CodeAtSplit(code, 0, Encode(IFalse) + jif + branch, jump);
    CodeAtSplit(code, 0, Encode(IFalse) + jif, branch);
    CodeAtSplit(code, 0, Encode(IFalse), jif);
  }

  lemma ManyFunctionsRun(n: nat, a: word, b: word, main: CompiledFunction, branch: seq<byte>)
    requires 256 <= n && 3 * n + 10 <= MAX_WORD && |branch| == 3 * n - 1
    requires main.functions == Copies(n, ConstantCode(a)) + [ConstantCode(b)]
    requires main.code == Encode(IFalse) + Encode(IJumpIfFalse(7 + |branch|)) + branch + Encode(IJump(11 + |branch|)) +
      (Encode(IClosure(n % 256)) + Encode(ITailCall(0))) + Encode(IReturn)
    ensures MachineEnds(Unbounded, main, Val(IntValue(a)), [])
  {
    hide Run, Exec, CodeAt, Encode;
    var s0, fa, k, t := Start(Unbounded, main), ConstantCode(a), n % 256, 7 + |branch|;
    RunNone(s0);
    ManyFunctionsParts(main.code, branch, t, 11 + |branch|, k);
    Sizes(t, 11 + |branch|, k);
    JumpExec(s0.(ip := 1), t);
    var s1 := Executed(s0, 0, s0, IFalse);
    var s2 := Executed(s0, 1, s1, IJumpIfFalse(t));
    assert s2 == s0.(ip := t);
    LastExec(s2.(ip := t + 2), k, fa);
    var s3 := Executed(s0, 2, s2, IClosure(k));
    var s4 := Executed(s0, 3, s3, ITailCall(0));
    assert s4 == State([ClosureValue(1)], [], 1, 0, 0, [Closure(main, []), Closure(fa, [])], [], Running);
    CalleeRun(s0, 4, s4, a, fa);
  }

  lemma Sizes(t: word, u: word, k: byte)
    ensures |Encode(IFalse)| == 1 && |Encode(IJumpIfFalse(t))| == 3 && |Encode(IJump(u))| == 3
    ensures |Encode(IClosure(k))| == 2 && |Encode(ITailCall(0))| == 2
  {
  }

  /** A jump that is taken. */
  lemma JumpExec(s: State, t: word)
    requires s.cl < |s.heap| && s.slots < |s.stack|
    ensures var r := Exec(Unbounded, s, IFalse);
      r == s.(stack := s.stack + [BoolValue(false)]) &&
      Exec(Unbounded, r.(ip := r.ip + 3), IJumpIfFalse(t)) == s.(ip := t)
  {
    assert (s.stack + [BoolValue(false)])[..|s.stack|] == s.stack;
  }

  /** A closure without captured variables, and the tail call to it. */
  lemma LastExec(s: State, k: byte, fn: CompiledFunction)
    requires s.status == Running && s.cl < |s.heap| && |s.stack| == s.slots + 1
    requires k < |s.heap[s.cl].fn.functions| && s.heap[s.cl].fn.functions[k] == fn
    requires fn.nonlocals == [] && fn.arity == 0
    ensures var f := ClosureValue(|s.heap|);
      var r := Exec(Unbounded, s, IClosure(k));
      && r == s.(stack := s.stack + [f], heap := s.heap + [Closure(fn, [])])
      && Exec(Unbounded, r.(ip := r.ip + 2), ITailCall(0)) ==
         r.(stack := s.stack[..s.slots] + [f], cl := |s.heap|, ip := 0)
  {
    var r := s.(stack := s.stack + [ClosureValue(|s.heap|)], heap := s.heap + [Closure(fn, [])]);
    assert Exec(Unbounded, s, IClosure(k)) == r;
    assert r.stack[|r.stack| - 1..] == [ClosureValue(|s.heap|)] && r.stack[..s.slots] == s.stack[..s.slots];
  }

  /** A conditional whose second jump does not fit. */
  lemma IfFails(t: Term, e0: Emitted, e1: Emitted, e2: Emitted)
    requires t.If? && Compile(FULL, t.cond, false, NewContext(NoContext), 0) == Ok(e0) && e0.context.Context?
    requires |e0.bytes| == 1 && !WordOverruns(2)
    requires Compile(FULL, t.thn, true, e0.context, 4) == Ok(e1) && e1.context.Context?
    requires Compile(FULL, t.els, true, e1.context, 7 + |e1.bytes|) == Ok(e2)
    ensures WordOverruns(5 + |e1.bytes|) ==> CompileProgram(FULL, t) == Err(CodeBufferOverrun)
    ensures !WordOverruns(5 + |e1.bytes|) && 7 + |e1.bytes| + |e2.bytes| > MAX_WORD ==>
      CompileProgram(FULL, t) == Err(TooMuchCode)
  {
    hide Compile, WordOverruns, Encode;
    JumpSizes(0);
    IfCompiles(t, NewContext(NoContext));
  }

  lemma ManyFunctionsRejected(n: nat, a: word, b: word)
    requires 1 <= n
    ensures IsCapacity(3 * n + 5) ==> CompileProgram(FULL, ManyFunctions(n, a, b)) == Err(CodeBufferOverrun)
    ensures !IsCapacity(3 * n + 5) && 3 * n + 10 > MAX_WORD ==>
      CompileProgram(FULL, ManyFunctions(n, a, b)) == Err(TooMuchCode)
  {
    assert !WordOverruns(2);
    hide Compile, CompileProgram, ManyFunctions, IsCapacity, Encode;
    ManyFunctionsIsIf(n, a, b);
    var e1, e2 := BranchesCompile(n, a, b);
    IfFails(ManyFunctions(n, a, b), Emitted(NewContext(NoContext), Encode(IFalse)), e1, e2);
    assert 5 + |e1.bytes| + 1 == 3 * n + 5;
  }

  /** The index of a function is one byte. With more than 256 functions directly inside one, the program
      means b, and its code, if a jump over the branch is possible, calls a function that gives a. */
  lemma ManyFunctionsFail(n: nat, a: word, b: word)
    requires 1 <= n
    ensures Supported(ManyFunctions(n, a, b)) <==> n < 256
    ensures SourceEnds(ManyFunctions(n, a, b), Val(IntValue(b)), [])
    ensures match CompileProgram(FULL, ManyFunctions(n, a, b))
      case Err(e) =>
        if IsCapacity(3 * n + 5) then e == CodeBufferOverrun else 3 * n + 10 > 65535 && e == TooMuchCode
      case Ok(main) =>
        && !IsCapacity(3 * n + 5) && 3 * n + 10 <= 65535
        && (n >= 256 ==> MachineEnds(Unbounded, main, Val(IntValue(a)), []))
  {
    hide CompileProgram, MachineEnds, SourceEnds, Encode, IsCapacity, ConstantCode;
    ManyFunctionsFine(n, a, b);
    ManyFunctionsMean(n, a, b);
    ManyFunctionsRejected(n, a, b);
    if !IsCapacity(3 * n + 5) && 3 * n + 10 <= MAX_WORD {
      var main, branch := ManyFunctionsCode(n, a, b);
      if n >= 256 {
        ManyFunctionsRun(n, a, b, main, branch);
      }
    }
  }

  lemma ManyFunctionsFine(n: nat, a: word, b: word)
    requires n >= 1
    ensures Supported(ManyFunctions(n, a, b)) <==> n < 256
  {
    ChainFine(n, a);
    ChainFine(1, b);
    var t := ManyFunctions(n, a, b);
    assert t.els.args == [] && Operands(t.els.args) && FreeVarsAll(t.els.args) == {} && LetNamesAll(t.els.args) == {};
    assert FunctionCountAll(t.els.args) == 0 && ChildTablesFitAll(t.els.args);
    assert Spine(t.els) && FreeVars(t.els) == {} && FunctionCount(t.els) == 1 && ChildTablesFit(t.els);
    assert Operand(t.cond) && FreeVars(t.cond) == {} && FunctionCount(t.cond) == 0 && ChildTablesFit(t.cond);
    hide Chain;
    assert FunctionCount(t) == n + 1 && FreeVars(t) == {};
  }

  // ----- a branch that binds a name the other one uses -----

  /** let x = a; if (false) (let y = b; y) else x */
  function Hiding(a: nat, b: nat, x: string, y: string): Term {
    LetTerm(x, IntTerm(a), If(Bool(false, HERE), LetTerm(y, IntTerm(b), VarTerm(y)), VarTerm(x), HERE))
  }

  lemma LeafFine(t: Term)
    requires t.Int? || t.Bool? || t.Var?
    ensures Operand(t) && Spine(t) && LetNames(t) == {} && ChildTablesFit(t)
    ensures InnerFunctions(t) == [] && FunctionCount(t) == 0
    ensures FreeVars(t) == if t.Var? then {t.name} else {}
  {
  }

  lemma HidingFine(a: nat, b: nat, x: string, y: string)
    ensures FreeVars(Hiding(a, b, x, y)) == {} && (Supported(Hiding(a, b, x, y)) <==> x != y)
  {
    var t := Hiding(a, b, x, y);
    var u := t.next;
    LeafFine(t.definition);
    LeafFine(u.cond);
    LeafFine(u.thn.definition);
    LeafFine(u.thn.next);
    LeafFine(u.els);
    assert Spine(u.thn) && LetNames(u.thn) == {y} && FreeVars(u.thn) == {};
    assert FunctionCount(u.thn) == 0 && ChildTablesFit(u.thn);
    assert FreeVars(u) == {x} && FunctionCount(u) == 0 && ChildTablesFit(u);
    assert Spine(u) <==> x != y;
  }

  /** The branch that hides x is compiled first, and its x stays in the table. */
  lemma HidingCode(a: word, b: word, x: string) returns (main: CompiledFunction)
    ensures CompileProgram(FULL, Hiding(a, b, x, x)) == Ok(main)
    ensures main.code == Encode(IInt(a)) + (Encode(IFalse) + Encode(IJumpIfFalse(15)) +
      (Encode(IInt(b)) + Encode(ILocal(2))) + Encode(IJump(17)) + Encode(ILocal(2))) + Encode(IReturn)
  {
    var c, t := NewContext(NoContext), Hiding(a, b, x, x);
    assert !WordOverruns(1) && !WordOverruns(5) && !WordOverruns(8) && !WordOverruns(13) by { HidingPlaces(); }
    Scoping.NewContextWf(NoContext);
    Scoping.AddLocalWf(c, x);
    var c1 := AddLocal(c, x).value;
    assert Compile(FULL, t.definition, false, c1, 0) == Ok(Emitted(c1, Encode(IInt(a))));
    var d := HidingIf(a, b, x, c1);
    assert Compile(FULL, t, false, c, 0) == CompileLet(FULL, t, c, 0);
    OperandSizes(a);
    hide Compile, Encode, WordOverruns, AddLocal;
    main := CompileProgram(FULL, t).value;
  }

  lemma HidingPlaces()
    ensures !WordOverruns(1) && !WordOverruns(5) && !WordOverruns(8) && !WordOverruns(13)
  {
    assert !IsCapacity(7);
  }

  lemma HidingIf(a: word, b: word, x: string, c1: Context) returns (d: Context)
    requires AddLocal(NewContext(NoContext), x) == Ok(c1) && c1.Context? && Scoping.Wf(c1)
    ensures d.Context? && Compile(FULL, Hiding(a, b, x, x).next, true, c1, 3) ==
      Ok(Emitted(d, Encode(IFalse) + Encode(IJumpIfFalse(15)) + (Encode(IInt(b)) + Encode(ILocal(2))) +
                    Encode(IJump(17)) + Encode(ILocal(2))))
  {
    hide Scoping.Wf;
    var u := Hiding(a, b, x, x).next;
    HidingPlaces();
    OperandSizes(b);
    assert Compile(FULL, u.cond, false, c1, 3) == Ok(Emitted(c1, Encode(IFalse)));
    BranchCode(c1, b, x, 7);
    d := AddLocal(c1, x).value;
    Scoping.LookupLast(c1.variables, Variable(x, true, 2), x);
    assert Compile(FULL, u.els, true, d, 15) == Ok(Emitted(d, Encode(ILocal(2))));
    hide Encode, WordOverruns, AddLocal;
    assert Compile(FULL, u, true, c1, 3) == CompileIf(FULL, u, c1, 3);
    hide Compile;
    IfIs(FULL, u, c1, 3, Emitted(c1, Encode(IFalse)), Emitted(d, Encode(IInt(b)) + Encode(ILocal(2))),
         Emitted(d, Encode(ILocal(2))));
  }

  lemma HidingMeans(a: word, b: word, x: string, y: string)
    ensures SourceEnds(Hiding(a, b, x, y), Val(IntValue(a)), Read(a))
  {
    var t := Hiding(a, b, x, y);
    var none: Env := map[];
    var heap := [FunctionValue([], t, none)];
    var env := none[x := IntValue(a)];
    assert Eval(t.definition, none, heap, [], 0) == Answer(Val(IntValue(a)), heap, []);
    assert Eval(t.next.cond, env, heap, [], 0) == Answer(Val(BoolValue(false)), heap, []);
    assert Eval(t.next.els, env, heap, [], 0) == Answer(Val(IntValue(a)), heap, Read(a));
    assert Eval(t.next, env, heap, [], 0) == Answer(Val(IntValue(a)), heap, Read(a));
    assert Eval(t, none, heap, [], 0) == Answer(Val(IntValue(a)), heap, Read(a));
    assert EvalProgram(t, 0).outcome == Val(IntValue(a)) && EvalProgram(t, 0).trace == Read(a);
  }

  lemma HidingParts(code: seq<byte>, a: word, b: word)
    requires code == Encode(IInt(a)) + (Encode(IFalse) + Encode(IJumpIfFalse(15)) +
      (Encode(IInt(b)) + Encode(ILocal(2))) + Encode(IJump(17)) + Encode(ILocal(2))) + Encode(IReturn)
    ensures CodeAt(code, 0, Encode(IInt(a))) && CodeAt(code, 3, Encode(IFalse))
    ensures CodeAt(code, 4, Encode(IJumpIfFalse(15))) && CodeAt(code, 15, Encode(ILocal(2)))
  {
    WholeCode(code);
    JumpSizes(15);
    JumpSizes(17);
    OperandSizes(a);
    OperandSizes(b);
    hide *;
    var branch, jif, jump := Encode(IInt(b)) + Encode(ILocal(2)), Encode(IJumpIfFalse(15)), Encode(IJump(17));
    var rest := Encode(IFalse) + jif + branch + jump + Encode(ILocal(2));
    CodeAtSplit(code, 0, Encode(IInt(a)) + rest, Encode(IReturn));
    CodeAtSplit(code, 0, Encode(IInt(a)), rest);
    CodeAtSplit(code, 3, Encode(IFalse) + jif + branch + jump, Encode(ILocal(2)));
    CodeAtSplit(code, 3, Encode(IFalse) + jif + branch, jump);
    CodeAtSplit(code, 3, Encode(IFalse) + jif, branch);
    CodeAtSplit(code, 3, Encode(IFalse), jif);
  }

  /** A name bound in the first branch of a conditional hides the variable of that name from the second:
      the program means a, and its code reads past the top of the stack. */
  lemma HidingFails(a: word, b: word, x: string, y: string) returns (main: CompiledFunction)
    ensures FreeVars(Hiding(a, b, x, y)) == {} && (Supported(Hiding(a, b, x, y)) <==> x != y)
    ensures CompileProgram(FULL, Hiding(a, b, x, x)) == Ok(main)
    ensures SourceEnds(Hiding(a, b, x, y), Val(IntValue(a)), Read(a))
    ensures MachineEnds(Unbounded, main, Outcome<Value>.Wrong, [])
  {
    hide CompileProgram, SourceEnds, Supported, Hiding, Run, Exec, Encode, CodeAt;
    HidingFine(a, b, x, y);
    HidingMeans(a, b, x, y);
    main := HidingCode(a, b, x);
    HidingParts(main.code, a, b);
    JumpSizes(15);
    OperandSizes(a);
    var s0 := Start(Unbounded, main);
    RunNone(s0);
    ExecPlain(s0.(ip := 3), a, 0);
    var s1 := Executed(s0, 0, s0, IInt(a));
    JumpExec(s1.(ip := 4), 15);
    var s2 := Executed(s0, 1, s1, IFalse);
    var s3 := Executed(s0, 2, s2, IJumpIfFalse(15));
    var s4 := Executed(s0, 3, s3, ILocal(2));
    PastTheTop(s3.(ip := 17), 2);
    assert Ended(s4, Outcome<Value>.Wrong, []);
  }

  lemma PastTheTop(s: State, k: byte)
    requires s.cl < |s.heap| && s.slots + k >= |s.stack|
    ensures Exec(Unbounded, s, ILocal(k)) == GoWild(s)
  {
  }
}
