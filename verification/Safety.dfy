/** A closed program never goes wrong in the reference semantics: names are bound and closure
    addresses are allocated. */
module Safety {
  import opened Values
  import opened Syntax
  import opened Semantics

  predicate ValueIn(v: Value, n: nat) {
    match v
    case ClosureValue(a) => a < n
    case TupleValue(x, y) => ValueIn(x, n) && ValueIn(y, n)
    case _ => true
  }

  ghost predicate EnvIn(env: Env, n: nat) {
    forall x | x in env :: ValueIn(env[x], n)
  }

  ghost predicate FunctionIn(f: FunctionValue, n: nat) {
    EnvIn(f.env, n) && FreeVars(f.body) - ParamNames(f.params) <= f.env.Keys
  }

  ghost predicate HeapIn(heap: seq<FunctionValue>) {
    forall a | 0 <= a < |heap| :: FunctionIn(heap[a], |heap|)
  }

  ghost predicate SafeAnswer(a: Answer<Value>, n: nat) {
    && !a.outcome.Wrong? && n <= |a.heap| && HeapIn(a.heap)
    && (a.outcome.Val? ==> ValueIn(a.outcome.value, |a.heap|))
  }

  ghost predicate SafeAnswers(a: Answer<seq<Value>>, n: nat) {
    && !a.outcome.Wrong? && n <= |a.heap| && HeapIn(a.heap)
    && (a.outcome.Val? ==> forall v | v in a.outcome.value :: ValueIn(v, |a.heap|))
  }

  lemma ValueInMore(v: Value, m: nat, n: nat)
    requires ValueIn(v, m) && m <= n
    ensures ValueIn(v, n)
  {
  }

  lemma EnvInMore(env: Env, m: nat, n: nat)
    requires EnvIn(env, m) && m <= n
    ensures EnvIn(env, n)
  {
    forall x | x in env ensures ValueIn(env[x], n) {
      ValueInMore(env[x], m, n);
    }
  }

  lemma HeapInGrows(heap: seq<FunctionValue>, f: FunctionValue)
    requires HeapIn(heap) && FunctionIn(f, |heap| + 1)
    ensures HeapIn(heap + [f])
  {
    forall a | 0 <= a < |heap| ensures FunctionIn(heap[a], |heap| + 1) {
      assert FunctionIn(heap[a], |heap|);
      EnvInMore(heap[a].env, |heap|, |heap| + 1);
    }
  }

  lemma PrimIn(op: BinOp, v: Value, w: Value, n: nat)
    ensures BinaryOp(op, v, w).Done? ==> ValueIn(BinaryOp(op, v, w).result, n)
  {
  }

  lemma {:induction false} BindParamsIn(ps: seq<Parameter>, vs: seq<Value>, env: Env, n: nat)
    requires |ps| == |vs| && EnvIn(env, n) && forall v | v in vs :: ValueIn(v, n)
    ensures EnvIn(BindParams(ps, vs, env), n)
    ensures BindParams(ps, vs, env).Keys == env.Keys + ParamNames(ps)
    decreases ps
  {
    if ps != [] {
      assert vs[0] in vs;
      BindParamsIn(ps[1..], vs[1..], env[ps[0].text := vs[0]], n);
      assert ps == [ps[0]] + ps[1..];
    }
  }

  /** Evaluation of a term whose free variables are bound never goes wrong. */
  lemma {:induction false} EvalSafe(t: Term, env: Env, heap: seq<FunctionValue>, trace: seq<Event>, fuel: nat)
    requires FreeVars(t) <= env.Keys && EnvIn(env, |heap|) && HeapIn(heap)
    ensures SafeAnswer(Eval(t, env, heap, trace, fuel), |heap|)
    decreases fuel, 1, t, 1
  {
    hide HeapIn, EnvIn;
    match t
    case Int(_, _) =>
    case Str(_, _) =>
    case Bool(_, _) =>
    case Var(x, _) => BoundIn(env, x, |heap|);
    case Function(ps, b, _) =>
      EnvInMore(env, |heap|, |heap| + 1);
      HeapInGrows(heap, FunctionValue(ps, b, env));
    case Call(f, args, _) => CallSafe(t, env, heap, trace, fuel);
    case Binary(l, op, r, _) =>
      EvalSafe(l, env, heap, trace, fuel);
      var a1 := Eval(l, env, heap, trace, fuel);
      if a1.outcome.Val? {
        EnvInMore(env, |heap|, |a1.heap|);
        EvalSafe(r, env, a1.heap, a1.trace, fuel);
        var a2 := Eval(r, env, a1.heap, a1.trace, fuel);
        if a2.outcome.Val? {
          PrimIn(op, a1.outcome.value, a2.outcome.value, |a2.heap|);
        }
      }
    case Pair(l, r, _) =>
      EvalSafe(l, env, heap, trace, fuel);
      var a1 := Eval(l, env, heap, trace, fuel);
      if a1.outcome.Val? {
        EnvInMore(env, |heap|, |a1.heap|);
        EvalSafe(r, env, a1.heap, a1.trace, fuel);
        ValueInMore(a1.outcome.value, |a1.heap|, |Eval(r, env, a1.heap, a1.trace, fuel).heap|);
      }
    case Unary(_, e, _) => EvalSafe(e, env, heap, trace, fuel);
    case Let(x, v, n, _) => LetSafe(t, env, heap, trace, fuel);
    case If(c, a, b, _) =>
      EvalSafe(c, env, heap, trace, fuel);
      var a0 := Eval(c, env, heap, trace, fuel);
      if a0.outcome.Val? {
        EnvInMore(env, |heap|, |a0.heap|);
        EvalSafe(if IsFalsy(a0.outcome.value) then b else a, env, a0.heap, a0.trace, fuel);
      }
  }

  lemma BoundIn(env: Env, x: string, n: nat)
    requires EnvIn(env, n) && x in env
    ensures ValueIn(env[x], n)
  {
  }

  lemma EnvInExtended(env: Env, x: string, v: Value, n: nat)
    requires EnvIn(env, n) && ValueIn(v, n)
    ensures EnvIn(env[x := v], n)
  {
  }

  lemma {:induction false} LetSafe(t: Term, env: Env, heap: seq<FunctionValue>, trace: seq<Event>, fuel: nat)
    requires t.Let? && FreeVars(t) <= env.Keys && EnvIn(env, |heap|) && HeapIn(heap)
    ensures SafeAnswer(Eval(t, env, heap, trace, fuel), |heap|)
    decreases fuel, 1, t, 0
  {
    hide HeapIn, EnvIn;
    var x, v := t.bound.text, t.definition;
    var a := EvalDefinition(x, v, env, heap, trace, fuel);
    if v.Function? {
      var self := ClosureValue(|heap|);
      EnvInMore(env, |heap|, |heap| + 1);
      EnvInExtended(env, x, self, |heap| + 1);
      HeapInGrows(heap, FunctionValue(v.params, v.body, env[x := self]));
      assert a == Eval(v, env[x := self], heap, trace, fuel);
    } else {
      EvalSafe(v, env, heap, trace, fuel);
    }
    if a.outcome.Val? {
      EnvInMore(env, |heap|, |a.heap|);
      EnvInExtended(env, x, a.outcome.value, |a.heap|);
      EvalSafe(t.next, env[x := a.outcome.value], a.heap, a.trace, fuel);
    }
  }

  lemma {:induction false} EvalAllSafe(ts: seq<Term>, env: Env, heap: seq<FunctionValue>, trace: seq<Event>, fuel: nat)
    requires FreeVarsAll(ts) <= env.Keys && EnvIn(env, |heap|) && HeapIn(heap)
    ensures SafeAnswers(EvalAll(ts, env, heap, trace, fuel), |heap|)
    decreases fuel, 1, ts, 0
  {
    hide HeapIn, EnvIn, Eval;
    if ts != [] {
      EvalSafe(ts[0], env, heap, trace, fuel);
      var a1 := Eval(ts[0], env, heap, trace, fuel);
      if a1.outcome.Val? {
        EnvInMore(env, |heap|, |a1.heap|);
        EvalAllSafe(ts[1..], env, a1.heap, a1.trace, fuel);
        ValueInMore(a1.outcome.value, |a1.heap|, |EvalAll(ts[1..], env, a1.heap, a1.trace, fuel).heap|);
      }
    }
  }

  lemma {:induction false} CallSafe(t: Term, env: Env, heap: seq<FunctionValue>, trace: seq<Event>, fuel: nat)
    requires t.Call? && FreeVars(t) <= env.Keys && EnvIn(env, |heap|) && HeapIn(heap)
    ensures SafeAnswer(Eval(t, env, heap, trace, fuel), |heap|)
    decreases fuel, 1, t, 0
  {
    hide HeapIn, EnvIn, EvalAll, Apply;
    EvalSafe(t.callee, env, heap, trace, fuel);
    var a1 := Eval(t.callee, env, heap, trace, fuel);
    if a1.outcome.Val? {
      EnvInMore(env, |heap|, |a1.heap|);
      EvalAllSafe(t.args, env, a1.heap, a1.trace, fuel);
      var a2 := EvalAll(t.args, env, a1.heap, a1.trace, fuel);
      if a2.outcome.Val? {
        ValueInMore(a1.outcome.value, |a1.heap|, |a2.heap|);
        ApplySafe(a1.outcome.value, a2.outcome.value, a2.heap, a2.trace, fuel);
      }
    }
  }

  lemma {:induction false} ApplySafe(f: Value, vs: seq<Value>, heap: seq<FunctionValue>, trace: seq<Event>, fuel: nat)
    requires ValueIn(f, |heap|) && HeapIn(heap) && forall v | v in vs :: ValueIn(v, |heap|)
    ensures SafeAnswer(Apply(f, vs, heap, trace, fuel), |heap|)
    decreases fuel, 0
  {
    hide Eval;
    if f.ClosureValue? && |heap[f.address].params| == |vs| && fuel > 0 {
      var fn := heap[f.address];
      assert FunctionIn(fn, |heap|);
      BindParamsIn(fn.params, vs, fn.env, |heap|);
      hide HeapIn, EnvIn;
      EvalSafe(fn.body, BindParams(fn.params, vs, fn.env), heap, trace, fuel - 1);
    }
  }

  lemma ProgramNeverWrong(program: Term, fuel: nat)
    requires FreeVars(program) == {}
    ensures !EvalProgram(program, fuel).outcome.Wrong?
  {
    var f := FunctionValue([], program, map[]);
    assert FunctionIn(f, 1);
    EvalSafe(program, map[], [f], [], fuel);
  }
}
