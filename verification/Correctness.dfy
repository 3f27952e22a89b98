/** The main theorems, about whole programs: what a compiled program does on the machine is what the
    program means, in both directions; no run leaves the frames, tables and code it may use; the size
    limits of the machine can only turn a run into a limit error. At the end stands the whole path:
    source text, scanner, single-pass compiler, machine. */
module Correctness {
  import opened Values
  import opened Syntax
  import opened Bytecode
  import opened Codegen
  import opened Tokens
  import opened Parser
  import opened Grammar
  import opened RoundTrip
  import opened Layouts
  import opened SinglePass
  import opened Machine
  import opened Semantics
  import opened Programs
  import opened Safety
  import opened Modes
  import opened Vm
  import CheckMode

  // ----- semantic preservation -----

  /** Compiled code means what the program means: the program ends with a value, an error or
      undefined arithmetic, having printed values and read variables as in `trace`, exactly when the
      machine does. */
  lemma SemanticPreservation(m: Mode, program: Term, main: CompiledFunction, o: Outcome<Value>, trace: seq<Event>)
    requires m.emit && Supported(program) && CompileProgram(m, program) == Ok(main)
    ensures SourceEnds(program, o, trace) <==> MachineEnds(Unbounded, main, o, trace)
  {
    hide Run, EvalProgram, Start, CompileProgram, Supported;
    var s := Start(Unbounded, main);
    if SourceEnds(program, o, trace) {
      var fuel: nat :| EvalProgram(program, fuel).outcome == o && EvalProgram(program, fuel).trace == trace;
      var k := ProgramSimulated(m, program, main, fuel);
    }
    if MachineEnds(Unbounded, main, o, trace) {
      var k: nat :| Ended(Run(Unbounded, s, k), o, trace);
      var n := ProgramSimulated(m, program, main, k + 1);
      if n <= k {
        if Run(Unbounded, s, n).status != Running {
          SameEnd(Unbounded, s, n, k);
        }
      } else {
        SameEnd(Unbounded, s, k, n);
      }
      assert EvalProgram(program, k + 1).outcome == o && EvalProgram(program, k + 1).trace == trace;
    }
  }

  ghost predicate SourceDiverges(program: Term) {
    forall fuel: nat :: EvalProgram(program, fuel).outcome.Timeout?
  }

  /** The machine runs forever exactly when the program does. */
  lemma Divergence(m: Mode, program: Term, main: CompiledFunction)
    requires m.emit && Supported(program) && CompileProgram(m, program) == Ok(main)
    ensures MachineDiverges(Unbounded, main) <==> SourceDiverges(program)
  {
    hide Run, EvalProgram, Start, CompileProgram, Supported;
    var s := Start(Unbounded, main);
    if SourceDiverges(program) {
      forall k: nat ensures Run(Unbounded, s, k).status == Running {
        var n := ProgramSimulated(m, program, main, k);
        if Run(Unbounded, s, k).status != Running {
          SameEnd(Unbounded, s, k, n);
        }
      }
    }
    if MachineDiverges(Unbounded, main) {
      forall fuel: nat ensures EvalProgram(program, fuel).outcome.Timeout? {
        var n := ProgramSimulated(m, program, main, fuel);
        assert Run(Unbounded, s, n).status == Running;
      }
    }
  }

  /** Stack discipline: in no reachable state does an instruction touch anything outside its frame,
      its function's tables, the code or the heap. */
  lemma NeverWild(m: Mode, program: Term, main: CompiledFunction, k: nat)
    requires m.emit && Supported(program) && CompileProgram(m, program) == Ok(main)
    ensures Run(Unbounded, Start(Unbounded, main), k).status != Wild
  {
    hide Run, EvalProgram, Start, CompileProgram;
    var s := Run(Unbounded, Start(Unbounded, main), k);
    if s.status == Wild {
      assert Ended(s, Wrong, s.trace);
      SemanticPreservation(m, program, main, Wrong, s.trace);
      var fuel: nat :| EvalProgram(program, fuel).outcome == Wrong;
      ProgramNeverWrong(program, fuel);
    }
  }

  // ----- closure conversion -----

  lemma {:induction false} LoadsPrefix(a: seq<Event>, b: seq<Event>)
    requires a <= b
    ensures Loads(a) <= Loads(b)
    decreases |b|
  {
    if a != b {
      LoadsPrefix(a, b[..|b| - 1]);
    } else {
      assert a == b;
    }
  }

  /** What the machine has read and printed so far, the program lookups and prints, in that order. */
  lemma RunningTrace(m: Mode, lim: Limits, program: Term, main: CompiledFunction, k: nat) returns (fuel: nat)
    requires m.emit && Supported(program) && CompileProgram(m, program) == Ok(main)
    ensures Run(lim, Start(lim, main), k).trace <= EvalProgram(program, fuel).trace
  {
    hide Run, EvalProgram, Start, CompileProgram, Supported, Step;
    LimitedStart(lim, main, k);
    var s0 := Start(Unbounded, main);
    fuel := k + 1;
    var n := ProgramSimulated(m, program, main, fuel);
    if n <= k {
      SameEnd(Unbounded, s0, n, k);
    } else {
      RunSum(Unbounded, s0, k, n - k);
      OutputStays(Run(Unbounded, s0, k), n - k);
    }
  }

  /** What the program lookups and prints, the machine has read and printed at some point. */
  lemma EvaluationTrace(m: Mode, program: Term, main: CompiledFunction, fuel: nat) returns (k: nat)
    requires m.emit && Supported(program) && CompileProgram(m, program) == Ok(main)
    ensures Run(Unbounded, Start(Unbounded, main), k).trace == EvalProgram(program, fuel).trace
  {
    hide Run, EvalProgram, Start, CompileProgram, Supported;
    k := ProgramSimulated(m, program, main, fuel);
  }

  /** The instruction that the machine executes next. */
  function NextInstr(s: State): Option<Instr> {
    if s.status == Running && s.cl < |s.heap| then Decode(s.heap[s.cl].fn.code, s.ip) else None
  }

  lemma LoadInstr(lim: Limits, s: State, i: Instr)
    requires NextInstr(s) == Some(i) && (i.ILocal? || i.INonlocal?)
    ensures var r := Step(lim, s);
      || r.status == Wild || r.status == Failed(StackOverflow)
      || exists v :: r.stack == s.stack + [v] && r.trace == s.trace + [Loaded(v)]
  {
    hide Decode, Encode;
    var r := Step(lim, s);
    if r.status == Running {
      var v := r.stack[|r.stack| - 1];
      assert r.stack == s.stack + [v] && r.trace == s.trace + [Loaded(v)];
    }
  }

  lemma StepLast(lim: Limits, s: State)
    ensures Run(lim, s, 1) == Step(lim, s)
  {
    hide Step;
    assert Run(lim, s, 1) == Run(lim, Step(lim, s), 0);
  }

  /** Closure conversion: in any run, with any limits, the nth executed load of a local or captured
      variable pushes the value that lexical scoping gives to the nth variable the program reads. */
  lemma LoadIsLookup(m: Mode, lim: Limits, program: Term, main: CompiledFunction, k: nat, i: Instr)
    returns (fuel: nat)
    requires m.emit && Supported(program) && CompileProgram(m, program) == Ok(main)
    requires NextInstr(Run(lim, Start(lim, main), k)) == Some(i) && (i.ILocal? || i.INonlocal?)
    ensures var s, s1 := Run(lim, Start(lim, main), k), Run(lim, Start(lim, main), k + 1);
      var n, lookups := |Loads(s.trace)|, Loads(EvalProgram(program, fuel).trace);
      || s1.status == Failed(StackOverflow)
      || (n < |lookups| && Loads(s.trace) == lookups[..n] && s1.stack == s.stack + [lookups[n]])
  {
    hide Run, EvalProgram, Start, CompileProgram, Supported, Step, NextInstr, SourceEnds;
    var s, s1 := Run(lim, Start(lim, main), k), Run(lim, Start(lim, main), k + 1);
    RunSum(lim, Start(lim, main), k, 1);
    StepLast(lim, s);
    EveryRunFaithful(m, lim, program, main, k + 1);
    LoadInstr(lim, s, i);
    fuel := RunningTrace(m, lim, program, main, k + 1);
    if s1.status != Failed(StackOverflow) {
      var v :| s1.stack == s.stack + [v] && s1.trace == s.trace + [Loaded(v)];
      assert s1.trace[..|s.trace|] == s.trace;
      assert Loads(s1.trace) == Loads(s.trace) + [v];
      LoadsPrefix(s1.trace, EvalProgram(program, fuel).trace);
    }
  }

  // ----- the limits of the machine -----

  /** The machine reports a limit after a prefix of the output trace. */
  ghost predicate CutShort(lim: Limits, main: CompiledFunction, trace: seq<Event>) {
    exists e, trace' :: (e == StackOverflow || e == TooManyNestedCalls) && trace' <= trace &&
      MachineEnds(lim, main, Outcome<Value>.Error(e), trace')
  }

  /** With any sizes of stack and callstack, the machine ends the way the program does, or with a limit
      error after a prefix of the program's output. */
  lemma LimitedPreservation(m: Mode, lim: Limits, program: Term, main: CompiledFunction, o: Outcome<Value>,
                            trace: seq<Event>)
    requires m.emit && Supported(program) && CompileProgram(m, program) == Ok(main)
    ensures MachineEnds(lim, main, o, trace) ==>
      SourceEnds(program, o, trace) || o == Error(StackOverflow) || o == Error(TooManyNestedCalls)
    ensures SourceEnds(program, o, trace) ==>
      MachineEnds(lim, main, o, trace) || CutShort(lim, main, trace)
  {
    hide Run, EvalProgram, Start, CompileProgram, Supported, SourceEnds;
    SemanticPreservation(m, program, main, o, trace);
    if MachineEnds(lim, main, o, trace) {
      var k: nat :| Ended(Run(lim, Start(lim, main), k), o, trace);
      LimitedStart(lim, main, k);
      assert Run(lim, Start(lim, main), k) == Run(Unbounded, Start(Unbounded, main), k) ==>
        MachineEnds(Unbounded, main, o, trace);
    }
    if SourceEnds(program, o, trace) {
      var k: nat :| Ended(Run(Unbounded, Start(Unbounded, main), k), o, trace);
      LimitedStart(lim, main, k);
      var r := Run(lim, Start(lim, main), k);
      if r.status.Failed? && r != Run(Unbounded, Start(Unbounded, main), k) {
        assert Ended(r, Error(r.status.error), r.trace);
        assert MachineEnds(lim, main, Error(r.status.error), r.trace);
      }
    }
  }

  lemma LimitedDivergence(m: Mode, lim: Limits, program: Term, main: CompiledFunction)
    requires m.emit && Supported(program) && CompileProgram(m, program) == Ok(main)
    requires MachineDiverges(lim, main)
    ensures SourceDiverges(program)
  {
    hide Run, EvalProgram, Start, CompileProgram, Supported;
    forall k: nat ensures Run(Unbounded, Start(Unbounded, main), k).status == Running {
      assert Run(lim, Start(lim, main), k).status == Running;
      LimitedStart(lim, main, k);
    }
    Divergence(m, program, main);
  }

  /** What the state of the machine says about the program. */
  ghost predicate Faithful(lim: Limits, program: Term, s: State) {
    match s.status
    case Running => true
    case Halted => |s.stack| > 0 && SourceEnds(program, Val(s.stack[|s.stack| - 1]), s.trace)
    case Failed(e) => LimitHit(lim, s) || SourceEnds(program, Outcome<Value>.Error(e), s.trace)
    case Stuck => SourceEnds(program, Undef, s.trace)
    case Wild => false
  }

  /** Any state of any run, with any limits: if the machine has stopped, the program ends that way, with
      that value on top of the stack and that output, unless its stack or callstack is full. */
  lemma EveryRunFaithful(m: Mode, lim: Limits, program: Term, main: CompiledFunction, k: nat)
    requires m.emit && Supported(program) && CompileProgram(m, program) == Ok(main)
    ensures Faithful(lim, program, Run(lim, Start(lim, main), k))
  {
    hide Run, EvalProgram, Start, CompileProgram;
    LimitedStart(lim, main, k);
    var s0 := Start(Unbounded, main);
    var s := Run(Unbounded, s0, k);
    if s.status != Running && Run(lim, Start(lim, main), k) == s {
      var n := ProgramSimulated(m, program, main, k + 1);
      if n <= k {
        SameEnd(Unbounded, s0, n, k);
      } else {
        SameEnd(Unbounded, s0, k, n);
      }
      var a := EvalProgram(program, k + 1);
      assert Ended(s, a.outcome, a.trace);
      assert SourceEnds(program, a.outcome, s.trace);
      ProgramNeverWrong(program, k + 1);
    }
  }

  // ----- from text to result -----

  /** The program that a text stands for, if it is one that is compiled correctly. */
  ghost predicate TextOf(source: string, program: Term) {
    var p := ParseFile(TokensFrom(source, 0));
    p.Ok? && p.value.0.expression == program && Supported(program)
  }

  lemma TextCompiles(m: Mode, source: string, program: Term)
    requires TextOf(source, program)
    ensures CompiledText(m, source) == CompileProgram(m, program)
  {
    hide ParseFile, TokensFrom, CompileProgram, Supported;
  }

  /** The program ends with this outcome, having printed this. */
  ghost predicate SourcePrints(program: Term, o: Outcome<Value>, output: seq<Value>) {
    exists trace :: Output(trace) == output && SourceEnds(program, o, trace)
  }

  /** Compiles a text and runs it for at most `steps` instructions. */
  method Interpret(source: string, stackSize: nat, callDepth: nat, steps: nat)
    returns (compiled: bool, status: Status, top: Option<Value>, output: seq<Value>)
    ensures compiled <==> CompiledText(FULL, source).Ok?
    ensures compiled ==> forall program | TextOf(source, program) ::
      match status
      case Running => true
      case Halted => top.Some? && SourcePrints(program, Val(top.value), output)
      case Failed(e) =>
        e == StackOverflow || e == TooManyNestedCalls || SourcePrints(program, Outcome<Value>.Error(e), output)
      case Stuck => SourcePrints(program, Undef, output)
      case Wild => false
  {
    hide Run, Start, CompiledText, SourceEnds, Supported, ParseFile, TokensFrom, CompileProgram;
    var main := CompileSource(source, FULL);
    TextFollows(FULL, source);
    if main.Err? {
      return false, Wild, None, [];
    }
    var vm := new VM(stackSize, callDepth);
    vm.VmRun(main.value, steps);
    compiled, status, output := true, vm.status, vm.output;
    top := if vm.top >= 0 then Some(vm.stack[vm.top]) else None;
    ghost var s := vm.Abs();
    assert Output(s.trace) == output && status == s.status;
    assert s.stack != [] ==> top == Some(s.stack[|s.stack| - 1]);
    hide VM.Valid, VM.Abs, Output;
    forall program | TextOf(source, program)
      ensures Faithful(Bounded(stackSize, callDepth), program, s)
    {
      TextCompiles(FULL, source, program);
      EveryRunFaithful(FULL, Bounded(stackSize, callDepth), program, main.value, steps);
    }
  }

  /** Whatever text writes a supported program, in any layout and with any names cut short or made
      longer as the parser allows: if it compiles, the machine ends with a value or an error, after the
      same trace, exactly when the program does. */
  lemma WrittenProgram(source: string, f: File, main: CompiledFunction, o: Outcome<Value>, trace: seq<Event>)
    requires NoNul(source) && Writes(source, f) && Supported(f.expression)
    requires CompiledText(FULL, source) == Ok(main)
    ensures SourceEnds(f.expression, o, trace) <==> MachineEnds(Unbounded, main, o, trace)
  {
    hide Supported, CompiledText, SourceEnds, MachineEnds, ParseFile, TokensFrom, Writes, NoNul, TextOf;
    TextExactly(source, f);
    Reading(source, f);
    TextCompiles(FULL, source, f.expression);
    SemanticPreservation(FULL, f.expression, main, o, trace);
  }

  lemma Reading(source: string, f: File)
    requires ParseFile(TokensFrom(source, 0)) == Ok((f, [EOF])) && Supported(f.expression)
    ensures TextOf(source, f.expression)
  {
  }

  /** `check` and `compile` on the same text, whether it parses or not: the same verdict and the same
      error, unless `compile` meets a limit on emitted code first. */
  lemma CheckText(source: string, tails: bool)
    ensures match TextSteps(FULL, source)
      case Ok(_) => TextSteps(Mode(false, tails, false), source).Ok?
      case Err(e) =>
        e in {TooManyConstants, IntegerOverflow, TooMuchCode, CodeBufferOverrun} ||
        TextSteps(Mode(false, tails, false), source) == Err(e)
  {
    hide TextSteps;
    CheckMode.TextAgrees(Mode(false, tails, false), source);
  }
}
