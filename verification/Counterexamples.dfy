/** Why the supported programs are restricted: families of closed programs that the compiler accepts
    and whose code does not do what the program means. */
module Counterexamples {
  import opened Values
  import opened Syntax
  import opened Bytecode
  import opened Codegen
  import opened Scoping
  import opened Boundaries
  import opened Dumps
  import opened Machine
  import opened Semantics
  import opened Programs

  const HERE: Location := Location(0, 0, "")

  function IntTerm(n: nat): Term {
    Int(n, HERE)
  }

  function VarTerm(x: string): Term {
    Var(x, HERE)
  }

  function LetTerm(x: string, v: Term, n: Term): Term {
    Let(Parameter(x, HERE), v, n, HERE)
  }

  // ----- running straight code -----

  /** The machine about to execute instruction k of its code, which starts with these instructions. */
  ghost predicate AtInstr(s: State, code: seq<Instr>, k: nat) {
    s.status == Running && s.cl < |s.heap| && EncodeAll(code) <= s.heap[s.cl].fn.code &&
    k < |code| && s.ip == Offset(code, k)
  }

  /** One instruction of straight code. */
  lemma StepAt(s: State, code: seq<Instr>, k: nat)
    requires AtInstr(s, code, k)
    ensures Step(Unbounded, s) == Exec(Unbounded, s.(ip := Offset(code, k + 1)), code[k])
  {
    hide EncodeAll, Offset, Decode, Encode, Exec;
    InstrAt(code, k);
    var all, at, i := s.heap[s.cl].fn.code, Offset(code, k), Encode(code[k]);
    assert all[at..at + |i|] == EncodeAll(code)[at..at + |i|];
    DecodeEncoded(all, at, code[k]);
  }

  /** The state after one more instruction of straight code. */
  lemma NextState(s0: State, n: nat, s: State, code: seq<Instr>, k: nat) returns (r: State)
    requires s == Run(Unbounded, s0, n) && AtInstr(s, code, k)
    ensures r == Exec(Unbounded, s.(ip := Offset(code, k + 1)), code[k]) == Run(Unbounded, s0, n + 1)
  {
    hide Exec, Offset, Step, AtInstr;
    StepAt(s, code, k);
    RunSum(Unbounded, s0, n, 1);
    r := Step(Unbounded, s);
    assert Run(Unbounded, s, 1) == Run(Unbounded, r, 0);
  }

  lemma StartAt(main: CompiledFunction, code: seq<Instr>)
    requires EncodeAll(code) <= main.code && code != []
    ensures AtInstr(Start(Unbounded, main), code, 0)
  {
    OffsetEnds(code);
  }

  /** The value of a variable has been read. */
  function Read(n: int): (trace: seq<Event>) {
    [Loaded(IntValue(n))]
  }

  // ----- a let inside an operand -----

  /** a - (let x = b; x) */
  function LetOperand(a: nat, b: nat, x: string): Term {
    Binary(IntTerm(a), Sub, LetTerm(x, IntTerm(b), VarTerm(x)), HERE)
  }

  lemma EncodeFive(i1: Instr, i2: Instr, i3: Instr, i4: Instr, i5: Instr)
    ensures EncodeAll([i1, i2, i3, i4, i5]) == Encode(i1) + (Encode(i2) + Encode(i3)) + Encode(i4) + Encode(i5)
  {
    hide Encode, EncodeAll;
    EncodeOne(i1);
    EncodeOne(i2);
    EncodeOne(i3);
    EncodeOne(i4);
    EncodeOne(i5);
    EncodeAllJoin([i2], [i3]);
    EncodeAllJoin([i1], [i2, i3]);
    EncodeAllJoin([i1, i2, i3], [i4]);
    EncodeAllJoin([i1, i2, i3, i4], [i5]);
    assert [i1, i2, i3, i4, i5] == [i1, i2, i3, i4] + [i5];
    assert [i1, i2, i3, i4] == [i1, i2, i3] + [i4];
    assert [i1, i2, i3] == [i1] + [i2, i3];
    assert [i2, i3] == [i2] + [i3];
  }

  lemma LetOperandCode(a: word, b: word, x: string) returns (main: CompiledFunction)
    ensures CompileProgram(FULL, LetOperand(a, b, x)) == Ok(main)
    ensures main.code == EncodeAll([IInt(a), IInt(b), ILocal(1), IBinary(Sub), IReturn])
  {
    hide EncodeAll;
    var m, c := FULL, NewContext(NoContext);
    var t := LetOperand(a, b, x);
    assert !WordOverruns(1) && !WordOverruns(4);
    assert Compile(m, t.lhs, false, c, 0) == Ok(Emitted(c, Encode(IInt(a))));
    var c1 := AddLocal(c, x).value;
    LookupLast([], Variable(x, true, 1), x);
    assert c1.variables == [] + [Variable(x, true, 1)];
    assert Compile(m, t.rhs.definition, false, c1, 3) == Ok(Emitted(c1, Encode(IInt(b))));
    assert Compile(m, t.rhs.next, true, c1, 6) == Ok(Emitted(c1, Encode(ILocal(1))));
    assert |Encode(IInt(a))| == |Encode(IInt(b))| == 3;
    hide Encode, WordOverruns, EmitWithWord;
    assert Compile(m, t.rhs, false, c, 3) == CompileLet(m, t.rhs, c, 3) ==
      Ok(Emitted(c1, Encode(IInt(b)) + Encode(ILocal(1))));
    assert Compile(m, t, false, c, 0) == CompileBinary(m, t, c, 0);
    hide Compile;
    main := CompileProgram(m, t).value;
    EncodeFive(IInt(a), IInt(b), ILocal(1), IBinary(Sub), IReturn);
  }

  /** The instructions of this program. */
  lemma ExecPlain(s: State, n: word, k: byte)
    requires s.status == Running && s.cl < |s.heap|
    ensures Exec(Unbounded, s, IInt(n)) == s.(stack := s.stack + [IntValue(n)])
    ensures s.slots + k < |s.stack| ==>
      Exec(Unbounded, s, ILocal(k)) == Load(Unbounded, s, s.stack[s.slots + k])
    ensures s.frames == [] ==> Exec(Unbounded, s, IReturn) == s.(status := Halted)
  {
  }

  lemma ExecSub(s: State, below: seq<Value>, a: int, b: int)
    requires s.status == Running && s.cl < |s.heap| && s.slots < |below|
    requires s.stack == below + [IntValue(a), IntValue(b)] && IsInt32(a - b)
    ensures Exec(Unbounded, s, IBinary(Sub)) == s.(stack := below + [IntValue(a - b)])
  {
  }

  lemma LetOperandRun(a: word, b: word, main: CompiledFunction)
    requires main.code == EncodeAll([IInt(a), IInt(b), ILocal(1), IBinary(Sub), IReturn])
    ensures MachineEnds(Unbounded, main, Val(IntValue(b - a)), Read(a))
  {
    hide EncodeAll, Offset, Run, Exec;
    var code := [IInt(a), IInt(b), ILocal(1), IBinary(Sub), IReturn];
    var s0 := Start(Unbounded, main);
    StartAt(main, code);
    assert s0 == Run(Unbounded, s0, 0) by { RunNone(s0); }
    ExecPlain(s0.(ip := Offset(code, 1)), a, 1);
    var s1 := NextState(s0, 0, s0, code, 0);
    ExecPlain(s1.(ip := Offset(code, 2)), b, 1);
    var s2 := NextState(s0, 1, s1, code, 1);
    ExecPlain(s2.(ip := Offset(code, 3)), b, 1);
    var s3 := NextState(s0, 2, s2, code, 2);
    assert s3.stack == [ClosureValue(0), IntValue(a)] + [IntValue(b), IntValue(a)];
    ExecSub(s3.(ip := Offset(code, 4)), [ClosureValue(0), IntValue(a)], b, a);
    var s4 := NextState(s0, 3, s3, code, 3);
    ExecPlain(s4.(ip := Offset(code, 5)), b, 1);
    var s5 := NextState(s0, 4, s4, code, 4);
    assert Ended(s5, Val(IntValue(b - a)), Read(a));
  }

  lemma RunNone(s: State)
    ensures Run(Unbounded, s, 0) == s
  {
  }

  /** A `let` takes the slot after the variables, whatever operands are on the stack: the program means
      a - b, and its code computes b - a. */
  lemma LetOperandFails(a: word, b: word, x: string) returns (main: CompiledFunction)
    ensures FreeVars(LetOperand(a, b, x)) == {}
    ensures CompileProgram(FULL, LetOperand(a, b, x)) == Ok(main)
    ensures SourceEnds(LetOperand(a, b, x), Val(IntValue(a - b)), Read(b))
    ensures MachineEnds(Unbounded, main, Val(IntValue(b - a)), Read(a))
  {
    hide CompileProgram, MachineEnds, EncodeAll;
    main := LetOperandCode(a, b, x);
    var inner := LetOperand(a, b, x).rhs;
    assert FreeVars(inner) == {} by {
      assert FreeVars(inner.definition) == {} && FreeVars(inner.next) == {x};
    }
    LetOperandRun(a, b, main);
    LetOperandMeans(a, b, x);
  }

  lemma LetOperandMeans(a: word, b: word, x: string)
    ensures EvalProgram(LetOperand(a, b, x), 0).outcome == Val(IntValue(a - b))
    ensures EvalProgram(LetOperand(a, b, x), 0).trace == Read(b)
    ensures SourceEnds(LetOperand(a, b, x), Val(IntValue(a - b)), Read(b))
  {
    var t := LetOperand(a, b, x);
    var heap := [FunctionValue([], t, map[])];
    assert Eval(t.lhs, map[], heap, [], 0) == Answer(Val(IntValue(a)), heap, []);
    assert Eval(t.rhs.definition, map[], heap, [], 0) == Answer(Val(IntValue(b)), heap, []);
    assert Eval(t.rhs.next, map[x := IntValue(b)], heap, [], 0) == Answer(Val(IntValue(b)), heap, Read(b));
    assert Eval(t.rhs, map[], heap, [], 0) == Answer(Val(IntValue(b)), heap, Read(b));
  }

  // ----- a value that mentions its own name -----

  /** let x = a; let x = x; x */
  function LetSelf(a: nat, x: string): Term {
    LetTerm(x, IntTerm(a), LetTerm(x, VarTerm(x), VarTerm(x)))
  }

  lemma LetSelfCode(a: word, x: string) returns (main: CompiledFunction)
    ensures CompileProgram(FULL, LetSelf(a, x)) == Ok(main)
    ensures main.code == EncodeAll([IInt(a), ILocal(2), ILocal(2), IReturn])
  {
    hide EncodeAll;
    var m, c := FULL, NewContext(NoContext);
    var t := LetSelf(a, x);
    assert !WordOverruns(1);
    var c1 := AddLocal(c, x).value;
    var c2 := AddLocal(c1, x).value;
    LookupLast(c1.variables, Variable(x, true, 2), x);
    assert Compile(m, t.definition, false, c1, 0) == Ok(Emitted(c1, Encode(IInt(a))));
    assert Compile(m, t.next.definition, false, c2, 3) == Ok(Emitted(c2, Encode(ILocal(2))));
    assert Compile(m, t.next.next, true, c2, 5) == Ok(Emitted(c2, Encode(ILocal(2))));
    assert |Encode(IInt(a))| == 3 && |Encode(ILocal(2))| == 2;
    hide Encode, WordOverruns, EmitWithWord;
    assert Compile(m, t.next, true, c1, 3) == CompileLet(m, t.next, c1, 3) ==
      Ok(Emitted(c2, Encode(ILocal(2)) + Encode(ILocal(2))));
    assert Compile(m, t, false, c, 0) == CompileLet(m, t, c, 0);
    hide Compile;
    main := CompileProgram(m, t).value;
    EncodeFour(IInt(a), ILocal(2), ILocal(2), IReturn);
  }

  lemma EncodeFour(i1: Instr, i2: Instr, i3: Instr, i4: Instr)
    ensures EncodeAll([i1, i2, i3, i4]) == Encode(i1) + (Encode(i2) + Encode(i3)) + Encode(i4)
  {
    hide Encode, EncodeAll;
    EncodeOne(i1);
    EncodeOne(i2);
    EncodeOne(i3);
    EncodeOne(i4);
    EncodeAllJoin([i2], [i3]);
    EncodeAllJoin([i1], [i2, i3]);
    EncodeAllJoin([i1, i2, i3], [i4]);
    assert [i1, i2, i3, i4] == [i1, i2, i3] + [i4];
    assert [i1, i2, i3] == [i1] + [i2, i3];
    assert [i2, i3] == [i2] + [i3];
  }

  /** The name is declared before its value is compiled, so the value reads its own slot, where nothing
      has been put yet: the program means a, and its code reads past the top of the stack. */
  lemma LetSelfFails(a: word, x: string) returns (main: CompiledFunction)
    ensures FreeVars(LetSelf(a, x)) == {}
    ensures CompileProgram(FULL, LetSelf(a, x)) == Ok(main)
    ensures SourceEnds(LetSelf(a, x), Val(IntValue(a)), Read(a) + Read(a))
    ensures MachineEnds(Unbounded, main, Wrong, [])
  {
    hide CompileProgram, EncodeAll, Offset, Run, SourceEnds;
    main := LetSelfCode(a, x);
    var inner := LetSelf(a, x).next;
    assert FreeVars(inner) == {x} by {
      assert FreeVars(inner.definition) == {x} && FreeVars(inner.next) == {x};
    }
    LetSelfMeans(a, x);
    var code := [IInt(a), ILocal(2), ILocal(2), IReturn];
    var s0 := Start(Unbounded, main);
    StartAt(main, code);
    assert s0 == Run(Unbounded, s0, 0) by { RunNone(s0); }
    var s1 := NextState(s0, 0, s0, code, 0);
    var s2 := NextState(s0, 1, s1, code, 1);
    assert Ended(s2, Outcome<Value>.Wrong, []);
  }

  lemma LetSelfMeans(a: word, x: string)
    ensures SourceEnds(LetSelf(a, x), Val(IntValue(a)), Read(a) + Read(a))
  {
    var t := LetSelf(a, x);
    var heap := [FunctionValue([], t, map[])];
    var env: Env := map[x := IntValue(a)];
    assert Eval(t.definition, map[], heap, [], 0) == Answer(Val(IntValue(a)), heap, []);
    assert Eval(t.next.definition, env, heap, [], 0) == Answer(Val(IntValue(a)), heap, Read(a));
    var twice := Read(a) + Read(a);
    assert Eval(t.next.next, env[x := IntValue(a)], heap, Read(a), 0) == Answer(Val(IntValue(a)), heap, twice);
    assert Eval(t.next, env, heap, [], 0) == Answer(Val(IntValue(a)), heap, twice);
    var none: Env := map[];
    assert none[x := IntValue(a)] == env;
    assert Eval(t, none, heap, [], 0) == Answer(Val(IntValue(a)), heap, twice);
    assert EvalProgram(t, 0).outcome == Val(IntValue(a)) && EvalProgram(t, 0).trace == twice;
  }

  // ----- a let in the first branch -----

  /** if (false) (let x = a; x) else (let y = b; y) */
  function LetBranch(a: nat, b: nat, x: string, y: string): Term {
    If(Bool(false, HERE), LetTerm(x, IntTerm(a), VarTerm(x)), LetTerm(y, IntTerm(b), VarTerm(y)), HERE)
  }

  /** A branch that binds a number and returns it. */
  lemma BranchCode(c: Context, a: word, x: string, base: nat)
    requires c.Context? && Wf(c) && |c.variables| < MAX_VARIABLES && c.nextIndex < 256 && !WordOverruns(base + 1)
    ensures var r := Compile(FULL, LetTerm(x, IntTerm(a), VarTerm(x)), true, c, base);
      r == Ok(Emitted(AddLocal(c, x).value, Encode(IInt(a)) + Encode(ILocal(c.nextIndex)))) && AddLocal(c, x).Ok?
  {
    var m, t := FULL, LetTerm(x, IntTerm(a), VarTerm(x));
    var c1 := AddLocal(c, x).value;
    AddLocalWf(c, x);
    hide Wf;
    assert Compile(m, t.definition, false, c1, base) == Ok(Emitted(c1, Encode(IInt(a))));
    assert Compile(m, t.next, true, c1, base + 3) == Ok(Emitted(c1, Encode(ILocal(c.nextIndex))));
    assert |Encode(IInt(a))| == 3;
    hide Encode;
    assert Compile(m, t, true, c, base) == CompileLet(m, t, c, base);
  }

  lemma LetBranchCode(a: word, b: word, x: string, y: string) returns (main: CompiledFunction, code: seq<Instr>)
    ensures CompileProgram(FULL, LetBranch(a, b, x, y)) == Ok(main)
    ensures code == [IFalse, IJumpIfFalse(12), IInt(a), ILocal(1), IJump(17), IInt(b), ILocal(2), IReturn]
    ensures main.code == EncodeAll(code)
  {
    hide EncodeAll, Encode;
    var m, c := FULL, NewContext(NoContext);
    var t := LetBranch(a, b, x, y);
    var e := LetBranchBytes(a, b, x, y);
    assert Compile(m, t, false, c, 0) == CompileIf(m, t, c, 0);
    hide Compile, CompileIf;
    main := CompileProgram(m, t).value;
    code := [IFalse, IJumpIfFalse(12), IInt(a), ILocal(1), IJump(17), IInt(b), ILocal(2), IReturn];
    EncodeEight(IFalse, IJumpIfFalse(12), IInt(a), ILocal(1), IJump(17), IInt(b), ILocal(2), IReturn);
  }

  lemma LetBranchBytes(a: word, b: word, x: string, y: string) returns (e: Emitted)
    ensures CompileIf(FULL, LetBranch(a, b, x, y), NewContext(NoContext), 0) == Ok(e) && e.context.Context?
    ensures e.bytes == Encode(IFalse) + Encode(IJumpIfFalse(12)) + (Encode(IInt(a)) + Encode(ILocal(1))) +
      Encode(IJump(17)) +
      (Encode(IInt(b)) + Encode(ILocal(2)))
  {
    hide Wf;
    var m, c := FULL, NewContext(NoContext);
    var t := LetBranch(a, b, x, y);
    NewContextWf(NoContext);
    FreePlaces();
    OperandSizes(a);
    OperandSizes(b);
    assert Compile(m, t.cond, false, c, 0) == Ok(Emitted(c, Encode(IFalse)));
    hide Encode, WordOverruns, Compile;
    BranchCode(c, a, x, 4);
    var c1 := AddLocal(c, x).value;
    AddLocalWf(c, x);
    BranchCode(c1, b, y, 12);
    hide AddLocal, CompileIf;
    var e1, e2 := Compile(m, t.thn, true, c, 4).value, Compile(m, t.els, true, c1, 12).value;
    e := Emitted(e2.context, Encode(IFalse) + Encode(IJumpIfFalse(12)) + e1.bytes + Encode(IJump(17)) + e2.bytes);
    IfBytes(t, Emitted(c, Encode(IFalse)), e1, e2);
  }

  /** A conditional at the start, whose branches have five bytes each. */
  lemma IfBytes(t: Term, e0: Emitted, e1: Emitted, e2: Emitted)
    requires t.If? && e0.context.Context? && Compile(FULL, t.cond, false, NewContext(NoContext), 0) == Ok(e0)
    requires |e0.bytes| == 1 && |e1.bytes| == |e2.bytes| == 5 && !WordOverruns(2) && !WordOverruns(10)
    requires e1.context.Context? && Compile(FULL, t.thn, true, e0.context, 4) == Ok(e1)
    requires Compile(FULL, t.els, true, e1.context, 12) == Ok(e2)
    ensures CompileIf(FULL, t, NewContext(NoContext), 0) == Ok(Emitted(e2.context,
      e0.bytes + Encode(IJumpIfFalse(12)) + e1.bytes + Encode(IJump(17)) + e2.bytes))
  {
    hide Compile, WordOverruns, Encode;
    JumpSizes(0);
    JumpSizes(12);
    JumpSizes(17);
  }

  lemma FreePlaces()
    ensures !WordOverruns(2) && !WordOverruns(5) && !WordOverruns(10) && !WordOverruns(13)
  {
    assert !IsCapacity(7);
  }

  lemma EncodeMore(code: seq<Instr>, i: Instr, bytes: seq<byte>)
    requires EncodeAll(code) == bytes
    ensures EncodeAll(code + [i]) == bytes + Encode(i)
  {
    hide *;
    EncodeOne(i);
    EncodeAllJoin(code, [i]);
  }

  lemma JoinTwo(e: seq<byte>, a: seq<byte>, b: seq<byte>)
    ensures e + a + b == e + (a + b)
  {
  }

  lemma EncodeEight(i1: Instr, i2: Instr, i3: Instr, i4: Instr, i5: Instr, i6: Instr, i7: Instr, i8: Instr)
    ensures EncodeAll([i1, i2, i3, i4, i5, i6, i7, i8]) ==
      Encode(i1) + Encode(i2) + (Encode(i3) + Encode(i4)) + Encode(i5) + (Encode(i6) + Encode(i7)) + Encode(i8)
  {
    hide *;
    EncodeOne(i1);
    var b := Encode(i1) + Encode(i2);
    EncodeMore([i1], i2, Encode(i1));
    assert [i1] + [i2] == [i1, i2];
    EncodeMore([i1, i2], i3, b);
    assert [i1, i2] + [i3] == [i1, i2, i3];
    EncodeMore([i1, i2, i3], i4, b + Encode(i3));
    assert [i1, i2, i3] + [i4] == [i1, i2, i3, i4];
    JoinTwo(b, Encode(i3), Encode(i4));
    b := b + (Encode(i3) + Encode(i4));
    EncodeMore([i1, i2, i3, i4], i5, b);
    assert [i1, i2, i3, i4] + [i5] == [i1, i2, i3, i4, i5];
    b := b + Encode(i5);
    EncodeMore([i1, i2, i3, i4, i5], i6, b);
    assert [i1, i2, i3, i4, i5] + [i6] == [i1, i2, i3, i4, i5, i6];
    EncodeMore([i1, i2, i3, i4, i5, i6], i7, b + Encode(i6));
    assert [i1, i2, i3, i4, i5, i6] + [i7] == [i1, i2, i3, i4, i5, i6, i7];
    JoinTwo(b, Encode(i6), Encode(i7));
    b := b + (Encode(i6) + Encode(i7));
    EncodeMore([i1, i2, i3, i4, i5, i6, i7], i8, b);
    assert [i1, i2, i3, i4, i5, i6, i7] + [i8] == [i1, i2, i3, i4, i5, i6, i7, i8];
  }

  lemma TargetIs(code: seq<Instr>, a: word, b: word)
    requires code == [IFalse, IJumpIfFalse(12), IInt(a), ILocal(1), IJump(17), IInt(b), ILocal(2), IReturn]
    ensures Offset(code, 5) == 12
  {
    hide *;
    OffsetEnds(code);
    OffsetNext(code, 0);
    OffsetNext(code, 1);
    OffsetNext(code, 2);
    OffsetNext(code, 3);
    OffsetNext(code, 4);
    JumpSizes(12);
    JumpSizes(17);
    OperandSizes(a);
  }

  lemma OffsetNext(code: seq<Instr>, k: nat)
    requires k < |code|
    ensures Offset(code, k + 1) == Offset(code, k) + |Encode(code[k])|
  {
    hide *;
    InstrAt(code, k);
  }

  lemma OperandSizes(a: word)
    ensures |Encode(IFalse)| == 1 && |Encode(IInt(a))| == 3 && |Encode(ILocal(1))| == 2 && |Encode(ILocal(2))| == 2
  {
  }

  /** The slots of the first branch stay taken while the second is compiled: the program means b, and
      its code reads past the top of the stack. */
  lemma LetBranchFails(a: word, b: word, x: string, y: string) returns (main: CompiledFunction)
    ensures FreeVars(LetBranch(a, b, x, y)) == {}
    ensures CompileProgram(FULL, LetBranch(a, b, x, y)) == Ok(main)
    ensures SourceEnds(LetBranch(a, b, x, y), Val(IntValue(b)), Read(b))
    ensures MachineEnds(Unbounded, main, Wrong, [])
  {
    hide CompileProgram, EncodeAll, Offset, Run, SourceEnds, Encode, MakeClosure, Machine.DoCall,
      Machine.DoTailCall, Machine.DoUnary;
    var code;
    main, code := LetBranchCode(a, b, x, y);
    LetBranchMeans(a, b, x, y);
    LetBranchClosed(a, b, x, y);
    var s0 := Start(Unbounded, main);
    StartAt(main, code);
    assert s0 == Run(Unbounded, s0, 0) by { RunNone(s0); }
    var s1 := NextState(s0, 0, s0, code, 0);
    var s2 := NextState(s0, 1, s1, code, 1);
    TargetIs(code, a, b);
    var s3 := NextState(s0, 2, s2, code, 5);
    var s4 := NextState(s0, 3, s3, code, 6);
    assert Ended(s4, Outcome<Value>.Wrong, []);
  }

  lemma LetBranchClosed(a: word, b: word, x: string, y: string)
    ensures FreeVars(LetBranch(a, b, x, y)) == {}
  {
    var t := LetBranch(a, b, x, y);
    assert FreeVars(t.thn.definition) == {} && FreeVars(t.thn.next) == {x};
    assert FreeVars(t.els.definition) == {} && FreeVars(t.els.next) == {y};
    assert FreeVars(t.cond) == {} && FreeVars(t.thn) == {} && FreeVars(t.els) == {};
  }

  lemma LetBranchMeans(a: word, b: word, x: string, y: string)
    ensures SourceEnds(LetBranch(a, b, x, y), Val(IntValue(b)), Read(b))
  {
    var t := LetBranch(a, b, x, y);
    var heap := [FunctionValue([], t, map[])];
    var none: Env := map[];
    assert Eval(t.els.definition, none, heap, [], 0) == Answer(Val(IntValue(b)), heap, []);
    assert Eval(t.els.next, none[y := IntValue(b)], heap, [], 0) == Answer(Val(IntValue(b)), heap, Read(b));
    assert Eval(t.els, none, heap, [], 0) == Answer(Val(IntValue(b)), heap, Read(b));
    assert Eval(t.cond, none, heap, [], 0) == Answer(Val(BoolValue(false)), heap, []);
    assert Eval(t, none, heap, [], 0) == Answer(Val(IntValue(b)), heap, Read(b));
    assert EvalProgram(t, 0).outcome == Val(IntValue(b)) && EvalProgram(t, 0).trace == Read(b);
  }

  // ----- a call in a branch of an operand -----

  /** a - (if (true) (fn () => b)() else false) */
  function TailOperand(a: nat, b: nat): Term {
    Binary(IntTerm(a), Sub,
           If(Bool(true, HERE), Call(Function([], IntTerm(b), HERE), [], HERE), Bool(false, HERE), HERE), HERE)
  }

  lemma CalleeCode(b: word, c: Context) returns (fn: CompiledFunction)
    requires c.Context?
    ensures CompileFunction(FULL, [], IntTerm(b), c) == Ok((c, fn))
    ensures fn == CompiledFunction(0, Encode(IInt(b)) + Encode(IReturn), [], [], [])
  {
    assert !WordOverruns(1);
    var inner := NewContext(c);
    assert Compile(FULL, IntTerm(b), true, inner, 0) == Ok(Emitted(inner, Encode(IInt(b))));
    hide Encode, WordOverruns;
    fn := CompileFunction(FULL, [], IntTerm(b), c).value.1;
  }

  lemma TailBranchCode(b: word, c: Context, base: nat) returns (fn: CompiledFunction, d: Context)
    requires c.Context? && c.functions == []
    ensures Compile(FULL, TailOperand(0, b).rhs.thn, true, c, base) ==
      Ok(Emitted(d, Encode(IClosure(0)) + Encode(ITailCall(0))))
    ensures fn == CompiledFunction(0, Encode(IInt(b)) + Encode(IReturn), [], [], []) && d == c.(functions := [fn])
  {
    var m, t := FULL, TailOperand(0, b).rhs.thn;
    fn := CalleeCode(b, c);
    d := c.(functions := [fn]);
    hide Encode, CompileFunction;
    assert [] + [fn] == [fn];
    assert Compile(m, t.callee, false, c, base) == CompileClosure(m, t.callee, c) ==
      Ok(Emitted(d, Encode(IClosure(0))));
    assert CompileAll(m, t.args, d, base + |Encode(IClosure(0))|) == Ok(Emitted(d, []));
    assert Encode(IClosure(0)) + [] == Encode(IClosure(0));
    assert Compile(m, t, true, c, base) == CompileCall(m, t, true, c, base);
    hide Compile, CompileAll;
  }

  /** The operand and its jumps, at position 3. */
  lemma TailIfCode(b: word) returns (e: Emitted, fn: CompiledFunction)
    ensures CompileIf(FULL, TailOperand(0, b).rhs, NewContext(NoContext), 3) == Ok(e)
    ensures e.bytes ==
      Encode(ITrue) + Encode(IJumpIfFalse(14)) + (Encode(IClosure(0)) + Encode(ITailCall(0))) +
      Encode(IJump(15)) + Encode(IFalse)
    ensures fn == CompiledFunction(0, Encode(IInt(b)) + Encode(IReturn), [], [], [])
    ensures e.context == NewContext(NoContext).(functions := [fn])
  {
    hide IsCapacity, CompileIf;
    var m, c := FULL, NewContext(NoContext);
    var t := TailOperand(0, b).rhs;
    FreePlacesToo();
    JumpSizes(14);
    OperandSizes(0);
    CallSizes();
    assert Compile(m, t.cond, false, c, 3) == Ok(Emitted(c, Encode(ITrue)));
    var d;
    fn, d := TailBranchCode(b, c, 7);
    assert Compile(m, t.els, true, d, 14) == Ok(Emitted(d, Encode(IFalse)));
    hide Encode, Compile;
    e := Emitted(d,
                 Encode(ITrue) + Encode(IJumpIfFalse(14)) + (Encode(IClosure(0)) + Encode(ITailCall(0))) +
                 Encode(IJump(15)) + Encode(IFalse));
    IfIs(m, t, c, 3, Emitted(c, Encode(ITrue)), Emitted(d, Encode(IClosure(0)) + Encode(ITailCall(0))), Emitted(d,
         Encode(IFalse)));
  }

  /** Putting an `if` together. */
  lemma IfIs(m: Mode, t: Term, c: Context, base: nat, e0: Emitted, e1: Emitted, e2: Emitted)
    requires t.If? && m.emit && c.Context? && Compile(m, t.cond, false, c, base) == Ok(e0) && e0.context.Context?
    requires var p1 := base + |e0.bytes|;
      && !WordOverruns(p1 + 1) && Compile(m, t.thn, true, e0.context, p1 + 3) == Ok(e1) && e1.context.Context?
      && var p2 := p1 + 3 + |e1.bytes|;
         !WordOverruns(p2 + 1) && Compile(m, t.els, true, e1.context, p2 + 3) == Ok(e2) &&
         p2 + 3 + |e2.bytes| <= MAX_WORD
    ensures var p2 := base + |e0.bytes| + 3 + |e1.bytes|;
      CompileIf(m, t, c, base) == Ok(Emitted(e2.context, e0.bytes + Encode(IJumpIfFalse(p2 + 3)) + e1.bytes +
                                             Encode(IJump(p2 + 3 + |e2.bytes|)) + e2.bytes))
  {
    hide Compile, WordOverruns;
  }

  lemma TailOperandCode(a: word, b: word) returns (main: CompiledFunction, fn: CompiledFunction, code: seq<Instr>)
    ensures CompileProgram(FULL, TailOperand(a, b)) == Ok(main)
    ensures code == [IInt(a), ITrue, IJumpIfFalse(14), IClosure(0), ITailCall(0)]
    ensures EncodeAll(code) <= main.code && main.functions == [fn]
    ensures fn == CompiledFunction(0, Encode(IInt(b)) + Encode(IReturn), [], [], [])
  {
    hide EncodeAll, IsCapacity, CompileIf;
    var m, c := FULL, NewContext(NoContext);
    var t := TailOperand(a, b);
    FreePlacesToo();
    OperandSizes(a);
    assert Compile(m, t.lhs, false, c, 0) == Ok(Emitted(c, Encode(IInt(a))));
    assert t.rhs == TailOperand(0, b).rhs;
    assert Compile(m, t.rhs, false, c, 3) == CompileIf(m, t.rhs, c, 3);
    assert Compile(m, t, false, c, 0) == CompileBinary(m, t, c, 0);
    hide Compile, Encode;
    var e;
    e, fn := TailIfCode(b);
    main := CompileProgram(m, t).value;
    code := [IInt(a), ITrue, IJumpIfFalse(14), IClosure(0), ITailCall(0)];
    EncodeStart(IInt(a), ITrue, IJumpIfFalse(14), IClosure(0), ITailCall(0));
    StartOf(Encode(IInt(a)), Encode(ITrue) + Encode(IJumpIfFalse(14)) + (Encode(IClosure(0)) + Encode(ITailCall(0))),
            Encode(IJump(15)), Encode(IFalse), Encode(IBinary(Sub)), Encode(IReturn));
  }

  lemma StartOf(a: seq<byte>, b: seq<byte>, c: seq<byte>, d: seq<byte>, e: seq<byte>, f: seq<byte>)
    ensures a + b <= a + (b + c + d) + e + f
  {
  }

  lemma FreePlacesToo()
    ensures !WordOverruns(1) && !WordOverruns(5) && !WordOverruns(12)
  {
  }

  lemma CallSizes()
    ensures |Encode(ITrue)| == 1 && |Encode(IClosure(0))| == 2 && |Encode(ITailCall(0))| == 2
  {
  }

  lemma EncodeStart(i1: Instr, i2: Instr, i3: Instr, i4: Instr, i5: Instr)
    ensures EncodeAll([i1, i2, i3, i4, i5]) == Encode(i1) + (Encode(i2) + Encode(i3) + (Encode(i4) + Encode(i5)))
  {
    hide *;
    EncodeOne(i2);
    EncodeMore([i2], i3, Encode(i2));
    assert [i2] + [i3] == [i2, i3];
    EncodeMore([i2, i3], i4, Encode(i2) + Encode(i3));
    assert [i2, i3] + [i4] == [i2, i3, i4];
    EncodeMore([i2, i3, i4], i5, Encode(i2) + Encode(i3) + Encode(i4));
    assert [i2, i3, i4] + [i5] == [i2, i3, i4, i5];
    JoinTwo(Encode(i2) + Encode(i3), Encode(i4), Encode(i5));
    EncodeOne(i1);
    EncodeAllJoin([i1], [i2, i3, i4, i5]);
    assert [i1] + [i2, i3, i4, i5] == [i1, i2, i3, i4, i5];
  }

  lemma ExecTail(s: State)
    requires s.status == Running && s.cl < |s.heap|
    ensures Exec(Unbounded, s, ITrue) == s.(stack := s.stack + [BoolValue(true)])
    ensures |s.stack| > s.slots + 1 && s.stack[|s.stack| - 1] == BoolValue(true) ==>
      forall t: word :: Exec(Unbounded, s, IJumpIfFalse(t)) == s.(stack := s.stack[..|s.stack| - 1])
    ensures var fns := s.heap[s.cl].fn.functions;
      |fns| == 1 && fns[0].nonlocals == [] ==>
        Exec(Unbounded, s, IClosure(0)) ==
        s.(stack := s.stack + [ClosureValue(|s.heap|)], heap := s.heap + [Closure(fns[0], [])])
    ensures |s.stack| > s.slots + 1 && s.stack[|s.stack| - 1].ClosureValue? ==>
      var f := s.stack[|s.stack| - 1];
      f.address < |s.heap| && s.heap[f.address].fn.arity == 0 ==>
        Exec(Unbounded, s, ITailCall(0)) == s.(stack := s.stack[..s.slots] + [f], cl := f.address, ip := 0)
  {
  }

  lemma TailOperandRun(a: word, b: word, main: CompiledFunction, fn: CompiledFunction, code: seq<Instr>)
    requires code == [IInt(a), ITrue, IJumpIfFalse(14), IClosure(0), ITailCall(0)]
    requires EncodeAll(code) <= main.code && main.functions == [fn]
    requires fn == CompiledFunction(0, Encode(IInt(b)) + Encode(IReturn), [], [], [])
    ensures MachineEnds(Unbounded, main, Val(IntValue(b)), [])
  {
    hide EncodeAll, Offset, Run, Exec, Encode;
    var s0 := Start(Unbounded, main);
    StartAt(main, code);
    assert s0 == Run(Unbounded, s0, 0) by { RunNone(s0); }
    ExecPlain(s0.(ip := Offset(code, 1)), a, 0);
    var s1 := NextState(s0, 0, s0, code, 0);
    ExecTail(s1.(ip := Offset(code, 2)));
    var s2 := NextState(s0, 1, s1, code, 1);
    ExecTail(s2.(ip := Offset(code, 3)));
    var s3 := NextState(s0, 2, s2, code, 2);
    assert s3.stack == [ClosureValue(0), IntValue(a)];
    TailOperandCall(s0, s3, a, b, main, fn, code);
  }

  /** The second half of that run: the closure, and the tail call that drops the waiting operand. */
  lemma TailOperandCall(s0: State, s3: State, a: word, b: word, main: CompiledFunction, fn: CompiledFunction,
                        code: seq<Instr>)
    requires |code| == 5 && code[3] == IClosure(0) && code[4] == ITailCall(0)
    requires s3 == Run(Unbounded, s0, 3) && AtInstr(s3, code, 3) && main.functions == [fn]
    requires fn == CompiledFunction(0, Encode(IInt(b)) + Encode(IReturn), [], [], [])
    requires s3 == State([ClosureValue(0), IntValue(a)], [], 0, s3.ip, 0, [Closure(main, [])], [], Running)
    ensures exists k: nat :: Ended(Run(Unbounded, s0, k), Val(IntValue(b)), [])
  {
    hide EncodeAll, Offset, Run, Exec, Encode;
    ExecTail(s3.(ip := Offset(code, 4)));
    var s4 := NextState(s0, 3, s3, code, 3);
    ExecTail(s4.(ip := Offset(code, 5)));
    var s5 := NextState(s0, 4, s4, code, 4);
    assert s5 == State([ClosureValue(1)], [], 1, 0, 0, [Closure(main, []), Closure(fn, [])], [], Running);
    CalleeRun(s0, 5, s5, b, fn);
  }

  /** The callee has replaced the program's own frame, so its return ends the run. */
  lemma CalleeRun(s0: State, n: nat, s: State, b: word, fn: CompiledFunction)
    requires s == Run(Unbounded, s0, n) && fn.code == Encode(IInt(b)) + Encode(IReturn)
    requires |s.heap| == 2 && s.heap[1].fn == fn && s == State([ClosureValue(1)], [], 1, 0, 0, s.heap, [], Running)
    ensures exists k: nat :: Ended(Run(Unbounded, s0, k), Val(IntValue(b)), [])
  {
    hide EncodeAll, Offset, Run, Exec, Encode;
    var code := [IInt(b), IReturn];
    EncodeOne(IInt(b));
    EncodeMore([IInt(b)], IReturn, Encode(IInt(b)));
    assert [IInt(b)] + [IReturn] == code;
    OffsetEnds(code);
    ExecPlain(s.(ip := Offset(code, 1)), b, 0);
    var s1 := NextState(s0, n, s, code, 0);
    ExecPlain(s1.(ip := Offset(code, 2)), b, 0);
    var s2 := NextState(s0, n + 1, s1, code, 1);
    assert Ended(Run(Unbounded, s0, n + 2), Val(IntValue(b)), []);
  }

  lemma TailOperandMeans(a: word, b: word)
    ensures SourceEnds(TailOperand(a, b), Val(IntValue(a - b)), [])
  {
    var t := TailOperand(a, b);
    var none: Env := map[];
    var heap := [FunctionValue([], t, none)];
    var heap1 := heap + [FunctionValue([], IntTerm(b), none)];
    assert Eval(t.lhs, none, heap, [], 1) == Answer(Val(IntValue(a)), heap, []);
    assert Eval(t.rhs.cond, none, heap, [], 1) == Answer(Val(BoolValue(true)), heap, []);
    assert Eval(t.rhs.thn.callee, none, heap, [], 1) == Answer(Val(ClosureValue(1)), heap1, []);
    assert EvalAll(t.rhs.thn.args, none, heap1, [], 1) == Answer(Val([]), heap1, []);
    assert Apply(ClosureValue(1), [], heap1, [], 1) == Answer(Val(IntValue(b)), heap1, []);
    assert Eval(t.rhs.thn, none, heap, [], 1) == Answer(Val(IntValue(b)), heap1, []);
    assert Eval(t.rhs, none, heap, [], 1) == Answer(Val(IntValue(b)), heap1, []);
    assert Eval(t, none, heap, [], 1) == Answer(Val(IntValue(a - b)), heap1, []);
    assert EvalProgram(t, 1).outcome == Val(IntValue(a - b)) && EvalProgram(t, 1).trace == [];
  }

  /** The branches of an `if` are always compiled as tail positions, so a call there drops the operands
      that are waiting: the program means a - b, and its code computes b. */
  lemma TailOperandFails(a: word, b: word) returns (main: CompiledFunction)
    ensures FreeVars(TailOperand(a, b)) == {}
    ensures CompileProgram(FULL, TailOperand(a, b)) == Ok(main)
    ensures SourceEnds(TailOperand(a, b), Val(IntValue(a - b)), [])
    ensures MachineEnds(Unbounded, main, Val(IntValue(b)), [])
  {
    hide CompileProgram, MachineEnds, SourceEnds, EncodeAll;
    assert TailOperand(a, b).rhs.thn.args == [];
    var t, fn, code := TailOperand(a, b), CompiledFunction(0, [], [], [], []), [];
    assert FreeVars(t.rhs.thn.callee.body) == {};
    assert FreeVars(t.rhs.thn.callee) == {} && FreeVarsAll(t.rhs.thn.args) == {};
    assert FreeVars(t.rhs.thn) == {} && FreeVars(t.rhs.cond) == {} && FreeVars(t.rhs.els) == {};
    assert FreeVars(t.lhs) == {} && FreeVars(t.rhs) == {};
    main, fn, code := TailOperandCode(a, b);
    TailOperandRun(a, b, main, fn, code);
    TailOperandMeans(a, b);
  }
}
