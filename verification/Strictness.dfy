/** Which values count as false, for conditionals, jumps and connectives, and in both representations of
    a value; and that the connectives evaluate both operands (the compiler emits no jump for them). */
module Strictness {
  import opened Values
  import opened Syntax
  import opened Bytecode
  import opened Semantics
  import opened Machine
  import opened Primitives
  import opened Encodings

  // ----- truth -----

  /** The connectives take `false` for false and every other value, of any type, for true. */
  lemma TruthExactly(v: Value, w: Value)
    ensures BinaryOp(And, v, w) == Done(BoolValue(v != BoolValue(false) && w != BoolValue(false)))
    ensures BinaryOp(Or, v, w) == Done(BoolValue(v != BoolValue(false) || w != BoolValue(false)))
    ensures BinaryOp(Or, v, BoolValue(false)) == Done(BoolValue(false)) <==> v == BoolValue(false)
    ensures BinaryOp(And, v, BoolValue(true)) == Done(BoolValue(true)) <==> v != BoolValue(false)
  {
  }

  /** OP_JUMP_IF_FALSE goes to its target when `false` is on top of the stack and falls through for every
      other value; it pops the value and changes nothing else. */
  lemma JumpMeans(lim: Limits, s: State, t: word)
    requires s.cl < |s.heap| && HasOperands(s, 1)
    ensures var last := |s.stack| - 1;
      Exec(lim, s, IJumpIfFalse(t)) ==
      s.(stack := s.stack[..last], ip := if s.stack[last] == BoolValue(false) then t else s.ip)
  {
  }

  /** src is what a constructor of value.h is given for v. */
  predicate Represents(src: Source, v: Value) {
    match src
    case FromBool(b) => v == BoolValue(b)
    case FromInt(i) => v == IntValue(i)
    case FromPointer(t, _) => HasType(v, t)
  }

  /** In both representations the flag that is_falsy tests is set for exactly the values that a jump takes
      for false, and the tag is the type that the errors name. */
  lemma FlagDecides(lim: Limits, s: State, t: word, src: Source)
    requires s.cl < |s.heap| && HasOperands(s, 1) && t != s.ip
    requires Encodings.Valid(src) && Represents(src, s.stack[|s.stack| - 1])
    ensures WordFlags(ToWord(src)) == FLAG_FALSY <==> Exec(lim, s, IJumpIfFalse(t)).ip == t
    ensures ToStruct(src).flags == FLAG_FALSY <==> Exec(lim, s, IJumpIfFalse(t)).ip == t
    ensures HasType(s.stack[|s.stack| - 1], WordType(ToWord(src)))
    ensures HasType(s.stack[|s.stack| - 1], ToStruct(src).tag)
  {
    hide Exec, ToWord, WordFlags;
    JumpMeans(lim, s, t);
    OnlyFalseIsFalsy(src);
    RepresentationsAgree(src);
  }

  // ----- the errors of the other instructions -----

  /** First and second of a tuple are its parts; of any other value they are an error that names its type. */
  lemma ProjectionMeans(e: Term, l: Location, env: Env, heap: seq<FunctionValue>, trace: seq<Event>, fuel: nat, t: Type)
    requires Eval(e, env, heap, trace, fuel).outcome.Val?
    ensures var x := Eval(e, env, heap, trace, fuel);
      var v := x.outcome.value;
      && (HasType(v, t) ==>
          Eval(Unary(First, e, l), env, heap, trace, fuel) ==
          x.(outcome := if v.TupleValue? then Val(v.first) else Error(NoFirst(t))))
      && (HasType(v, t) ==>
          Eval(Unary(Second, e, l), env, heap, trace, fuel) ==
          x.(outcome := if v.TupleValue? then Val(v.second) else Error(NoSecond(t))))
  {
  }

  /** Applying what is no closure is an error that names its type. */
  lemma CalleeMeans(f: Value, args: seq<Value>, heap: seq<FunctionValue>, trace: seq<Event>, fuel: nat, t: Type)
    requires !f.ClosureValue?
    ensures Apply(f, args, heap, trace, fuel) == Answer(Error(CannotCall(t)), heap, trace) <==> HasType(f, t)
  {
  }

  // ----- conditionals and connectives -----

  function Truth(b: bool, l: Location): Term {
    Bool(b, l)
  }

  lemma TruthMeans(b: bool, l: Location, env: Env, heap: seq<FunctionValue>, trace: seq<Event>, fuel: nat)
    ensures Eval(Truth(b, l), env, heap, trace, fuel) == Answer(Val(BoolValue(b)), heap, trace)
  {
  }

  /** A conditional continues with its second branch exactly when the condition gives `false`. */
  lemma IfMeans(c: Term, a: Term, b: Term, l: Location, env: Env, heap: seq<FunctionValue>, trace: seq<Event>,
                fuel: nat)
    ensures var x := Eval(c, env, heap, trace, fuel);
      Eval(If(c, a, b, l), env, heap, trace, fuel) ==
      if !x.outcome.Val? then x
      else Eval(if x.outcome.value == BoolValue(false) then b else a, env, x.heap, x.trace, fuel)
  {
  }

  lemma ConnectiveMeans(a: Term, op: BinOp, b: Term, l: Location, env: Env, heap: seq<FunctionValue>,
                        trace: seq<Event>, fuel: nat)
    requires op == And || op == Or
    ensures var x := Eval(a, env, heap, trace, fuel);
      Eval(Binary(a, op, b, l), env, heap, trace, fuel) ==
      if !x.outcome.Val? then x
      else
        var y := Eval(b, env, x.heap, x.trace, fuel);
        if !y.outcome.Val? then y
        else
          var v, w := x.outcome.value != BoolValue(false), y.outcome.value != BoolValue(false);
          y.(outcome := Val(BoolValue(if op == And then v && w else v || w)))
  {
  }

  /** A conditional that chooses between two truth values. */
  lemma ChoiceMeans(c: Term, v: bool, w: bool, l: Location, env: Env, heap: seq<FunctionValue>, trace: seq<Event>,
                    fuel: nat)
    ensures var x := Eval(c, env, heap, trace, fuel);
      Eval(If(c, Truth(v, l), Truth(w, l), l), env, heap, trace, fuel) ==
      if !x.outcome.Val? then x else x.(outcome := Val(BoolValue(if x.outcome.value == BoolValue(false) then w else v)))
  {
    hide Eval;
    var x := Eval(c, env, heap, trace, fuel);
    IfMeans(c, Truth(v, l), Truth(w, l), l, env, heap, trace, fuel);
    TruthMeans(v, l, env, x.heap, x.trace, fuel);
    TruthMeans(w, l, env, x.heap, x.trace, fuel);
  }

  /** `a And b` means a conditional that evaluates b in both branches, and `a Or b` another one: the
      same outcome, the same trace, the same heap. */
  lemma BothEvaluated(a: Term, b: Term, l: Location, env: Env, heap: seq<FunctionValue>, trace: seq<Event>, fuel: nat)
    ensures Eval(Binary(a, And, b, l), env, heap, trace, fuel) ==
      Eval(If(a, If(b, Truth(true, l), Truth(false, l), l), If(b, Truth(false, l), Truth(false, l), l), l),
           env, heap, trace, fuel)
    ensures Eval(Binary(a, Or, b, l), env, heap, trace, fuel) ==
      Eval(If(a, If(b, Truth(true, l), Truth(true, l), l), If(b, Truth(true, l), Truth(false, l), l), l),
           env, heap, trace, fuel)
  {
    hide Eval;
    var x := Eval(a, env, heap, trace, fuel);
    ConnectiveMeans(a, And, b, l, env, heap, trace, fuel);
    ConnectiveMeans(a, Or, b, l, env, heap, trace, fuel);
    forall v: bool, w: bool
      ensures var y := Eval(b, env, x.heap, x.trace, fuel);
        Eval(If(b, Truth(v, l), Truth(w, l), l), env, x.heap, x.trace, fuel) ==
        if !y.outcome.Val? then y
        else y.(outcome := Val(BoolValue(if y.outcome.value == BoolValue(false) then w else v)))
    {
      ChoiceMeans(b, v, w, l, env, x.heap, x.trace, fuel);
    }
    IfMeans(a, If(b, Truth(true, l), Truth(false, l), l), If(b, Truth(false, l), Truth(false, l), l), l, env, heap,
            trace, fuel);
    IfMeans(a, If(b, Truth(true, l), Truth(true, l), l), If(b, Truth(true, l), Truth(false, l), l), l, env, heap,
            trace, fuel);
  }

  /** `a And b` means the same as its short-circuit form exactly when a fails, or a is not false, or b
      gives a value and does nothing else; `a Or b`, exactly when a fails, or is false, or again b does
      nothing else. */
  lemma ShortCircuitExactly(a: Term, b: Term, l: Location, env: Env, heap: seq<FunctionValue>, trace: seq<Event>,
                            fuel: nat)
    ensures var x := Eval(a, env, heap, trace, fuel);
      var y := Eval(b, env, x.heap, x.trace, fuel);
      var silent := y.outcome.Val? && y.heap == x.heap && y.trace == x.trace;
      && (Eval(Binary(a, And, b, l), env, heap, trace, fuel) ==
          Eval(If(a, If(b, Truth(true, l), Truth(false, l), l), Truth(false, l), l), env, heap, trace, fuel) <==>
          !x.outcome.Val? || x.outcome.value != BoolValue(false) || silent)
      && (Eval(Binary(a, Or, b, l), env, heap, trace, fuel) ==
          Eval(If(a, Truth(true, l), If(b, Truth(true, l), Truth(false, l), l), l), env, heap, trace, fuel) <==>
          !x.outcome.Val? || x.outcome.value == BoolValue(false) || silent)
  {
    hide Eval;
    var x := Eval(a, env, heap, trace, fuel);
    ConnectiveMeans(a, And, b, l, env, heap, trace, fuel);
    ConnectiveMeans(a, Or, b, l, env, heap, trace, fuel);
    ChoiceMeans(b, true, false, l, env, x.heap, x.trace, fuel);
    TruthMeans(false, l, env, x.heap, x.trace, fuel);
    TruthMeans(true, l, env, x.heap, x.trace, fuel);
    IfMeans(a, If(b, Truth(true, l), Truth(false, l), l), Truth(false, l), l, env, heap, trace, fuel);
    IfMeans(a, Truth(true, l), If(b, Truth(true, l), Truth(false, l), l), l, env, heap, trace, fuel);
  }
}
