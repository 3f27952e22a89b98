/** A reference evaluator: what a program means, with lexical scoping, call by value from left to
    right and no compiler in between. `fuel` bounds the depth of calls; it is the only source of
    Timeout. Functions are allocated in a heap, because a recursive function contains itself. */
module Semantics {
  import opened Values
  import opened Syntax

  type Env = map<string, Value>

  datatype FunctionValue = FunctionValue(params: seq<Parameter>, body: Term, env: Env)

  /** Undef: arithmetic that C leaves undefined. Wrong: an unbound name or a dangling address. */
  datatype Outcome<+T> = Val(value: T) | Error(error: Error) | Undef | Timeout | Wrong

  datatype Answer<+T> = Answer(outcome: Outcome<T>, heap: seq<FunctionValue>, trace: seq<Event>)

  /** The same failure as an answer of another type. */
  function Propagate<T, U>(a: Answer<T>): Answer<U>
    requires !a.outcome.Val?
  {
    Answer(match a.outcome
           case Error(e) => Error(e)
           case Undef => Undef
           case Timeout => Timeout
           case _ => Wrong,
           a.heap, a.trace)
  }

  function OfPrim(p: Prim<Value>): Outcome<Value> {
    match p case Done(v) => Val(v) case Bad(e) => Error(e) case Undefined => Undef
  }

  function BindParams(ps: seq<Parameter>, vs: seq<Value>, env: Env): Env
    requires |ps| == |vs|
  {
    if ps == [] then env else BindParams(ps[1..], vs[1..], env[ps[0].text := vs[0]])
  }

  function EvalUnary(op: UnOp, a: Answer<Value>): Answer<Value>
    requires a.outcome.Val?
  {
    var v := a.outcome.value;
    match op
    case Print => a.(trace := a.trace + [Printed(v)])
    case First => a.(outcome := if v.TupleValue? then Val(v.first) else Error(NoFirst(TypeOf(v))))
    case Second => a.(outcome := if v.TupleValue? then Val(v.second) else Error(NoSecond(TypeOf(v))))
  }

  function Eval(t: Term, env: Env, heap: seq<FunctionValue>, trace: seq<Event>, fuel: nat): Answer<Value>
    decreases fuel, 1, t, 0
  {
    match t
    case Int(n, _) => Answer(Val(IntValue(n)), heap, trace)
    case Str(s, _) => Answer(Val(StrValue(s)), heap, trace)
    case Bool(b, _) => Answer(Val(BoolValue(b)), heap, trace)
    case Var(x, _) =>
      if x in env then Answer(Val(env[x]), heap, trace + [Loaded(env[x])]) else Answer(Wrong, heap, trace)
    case Function(ps, b, _) =>
      Answer(Val(ClosureValue(|heap|)), heap + [FunctionValue(ps, b, env)], trace)
    case Call(f, args, _) =>
      var a1 := Eval(f, env, heap, trace, fuel);
      if !a1.outcome.Val? then a1
      else
        var a2 := EvalAll(args, env, a1.heap, a1.trace, fuel);
        if !a2.outcome.Val? then Propagate(a2)
        else Apply(a1.outcome.value, a2.outcome.value, a2.heap, a2.trace, fuel)
    case Binary(l, op, r, _) =>
      var a1 := Eval(l, env, heap, trace, fuel);
      if !a1.outcome.Val? then a1
      else
        var a2 := Eval(r, env, a1.heap, a1.trace, fuel);
        if !a2.outcome.Val? then a2
        else a2.(outcome := OfPrim(BinaryOp(op, a1.outcome.value, a2.outcome.value)))
    case Pair(l, r, _) =>
      var a1 := Eval(l, env, heap, trace, fuel);
      if !a1.outcome.Val? then a1
      else
        var a2 := Eval(r, env, a1.heap, a1.trace, fuel);
        if !a2.outcome.Val? then a2
        else a2.(outcome := Val(TupleValue(a1.outcome.value, a2.outcome.value)))
    case Unary(op, e, _) =>
      var a := Eval(e, env, heap, trace, fuel);
      if !a.outcome.Val? then a else EvalUnary(op, a)
    case Let(x, v, n, _) =>
      var a := EvalDefinition(x.text, v, env, heap, trace, fuel);
      if !a.outcome.Val? then a else Eval(n, env[x.text := a.outcome.value], a.heap, a.trace, fuel)
    case If(c, a, b, _) =>
      var a0 := Eval(c, env, heap, trace, fuel);
      if !a0.outcome.Val? then a0
      else if IsFalsy(a0.outcome.value) then Eval(b, env, a0.heap, a0.trace, fuel)
      else Eval(a, env, a0.heap, a0.trace, fuel)
  }

  /** The value of a `let`: a function sees its own name. */
  function EvalDefinition(x: string, v: Term, env: Env, heap: seq<FunctionValue>, trace: seq<Event>,
                          fuel: nat): Answer<Value>
    decreases fuel, 1, v, 1
  {
    Eval(v, if v.Function? then env[x := ClosureValue(|heap|)] else env, heap, trace, fuel)
  }

  function EvalAll(ts: seq<Term>, env: Env, heap: seq<FunctionValue>, trace: seq<Event>, fuel: nat)
    : (a: Answer<seq<Value>>)
    ensures a.outcome.Val? ==> |a.outcome.value| == |ts|
    decreases fuel, 1, ts, 0
  {
    if ts == [] then Answer(Val([]), heap, trace)
    else
      var a1 := Eval(ts[0], env, heap, trace, fuel);
      if !a1.outcome.Val? then Propagate(a1)
      else
        var a2 := EvalAll(ts[1..], env, a1.heap, a1.trace, fuel);
        if !a2.outcome.Val? then a2
        else a2.(outcome := Val([a1.outcome.value] + a2.outcome.value))
  }

  function Apply(f: Value, args: seq<Value>, heap: seq<FunctionValue>, trace: seq<Event>, fuel: nat)
    : Answer<Value>
    decreases fuel, 0
  {
    if !f.ClosureValue? then Answer(Error(CannotCall(TypeOf(f))), heap, trace)
    else if f.address >= |heap| then Answer(Wrong, heap, trace)
    else
      var fn := heap[f.address];
      if |fn.params| != |args| then Answer(Error(WrongArity(|fn.params|, |args|)), heap, trace)
      else if fuel == 0 then Answer(Timeout, heap, trace)
      else Eval(fn.body, BindParams(fn.params, args, fn.env), heap, trace, fuel - 1)
  }

  /** A program runs as the body of a function without parameters at address 0. */
  function EvalProgram(program: Term, fuel: nat): Answer<Value> {
    Eval(program, map[], [FunctionValue([], program, map[])], [], fuel)
  }
}
