/** Why the compiler rejects a term. Two of its limit checks can never report anything: the table of
    variables is overrun before it, or the table of captured variables, has "too many" entries. */
module Errors {
  import opened Values
  import opened Syntax
  import opened Bytecode
  import opened Codegen
  import opened Scoping

  /** Some function of the chain has a variable of this name. */
  ghost predicate InScope(c: Context, y: string) {
    c.Context? && (Lookup(c.variables, y).Some? || InScope(c.enclosing, y))
  }

  predicate SizeLimit(e: CompileError) {
    e == VariableTableOverrun || e == TooManyConstants || e == IntegerOverflow ||
    e == TooMuchCode || e == CodeBufferOverrun
  }

  /** A size limit, or a free variable that is not in scope. */
  ghost predicate Explained(e: CompileError, c: Context, names: set<string>) {
    SizeLimit(e) || (e.UndefinedVariable? && e.name in names && !InScope(c, e.name))
  }

  lemma {:induction false} ScopeCaptures(c: Context, d: Context, names: set<string>, y: string)
    requires Captures(c, d, names) && InScope(c, y)
    ensures InScope(d, y)
    decreases c
  {
    if Lookup(c.variables, y).None? {
      ScopeCaptures(c.enclosing, d.enclosing, Unbound(c, names), y);
    }
  }

  lemma ScopeGrows(c: Context, d: Context, l: set<string>, names: set<string>, y: string)
    requires c.Context? && Grows(c, d, l, names) && InScope(c, y)
    ensures InScope(d, y)
  {
    hide Captures;
    if Lookup(c.variables, y).None? {
      ScopeCaptures(c.enclosing, d.enclosing, Unbound(c, names), y);
    }
  }

  /** An error in a later part, seen from before the earlier part. */
  lemma ExplainedLater(m: Mode, t: Term, isTail: bool, c: Context, base: nat, e: CompileError, names: set<string>,
                       all: set<string>)
    requires c.Context? && Wf(c) && Compile(m, t, isTail, c, base).Ok?
    requires Explained(e, Compile(m, t, isTail, c, base).value.context, names) && names <= all
    ensures Explained(e, c, all)
  {
    hide Wf, Grows, Compile, InScope;
    CompileGrows(m, t, isTail, c, base);
    var d := Compile(m, t, isTail, c, base).value.context;
    if e.UndefinedVariable? && InScope(c, e.name) {
      ScopeGrows(c, d, LetNames(t), FreeVars(t), e.name);
    }
  }

  lemma ExplainedMore(e: CompileError, c: Context, names: set<string>, all: set<string>)
    requires Explained(e, c, names) && names <= all
    ensures Explained(e, c, all)
  {
  }

  // ----- variables -----

  lemma AddLocalError(c: Context, x: string)
    requires c.Context? && Wf(c)
    ensures AddLocal(c, x).Err? ==> AddLocal(c, x).error == VariableTableOverrun && |c.variables| == MAX_VARIABLES
  {
    hide EntryOk, Tidy, Linked;
  }

  lemma {:induction false} AddParamsError(c: Context, ps: seq<Parameter>)
    requires c.Context? && Wf(c)
    ensures AddParams(c, ps).Err? ==> AddParams(c, ps).error == VariableTableOverrun
    decreases ps
  {
    hide Wf, AddLocal;
    if ps != [] {
      AddLocalError(c, ps[0].text);
      if AddLocal(c, ps[0].text).Ok? {
        AddLocalWf(c, ps[0].text);
        AddParamsError(AddLocal(c, ps[0].text).value, ps[1..]);
      }
    }
  }

  lemma {:induction false} ResolveError(c: Context, x: string)
    requires c.Context? && Wf(c) && Resolve(c, x).Err?
    ensures Explained(Resolve(c, x).error, c, {x})
    decreases c
  {
    hide EntryOk, Tidy, Linked;
    if c.enclosing.Context? {
      if Resolve(c.enclosing, x).Err? {
        ResolveError(c.enclosing, x);
        assert Resolve(c, x) == Err(Resolve(c.enclosing, x).error);
      } else {
        assert |c.nonlocals| <= MAX_VARIABLES;
        assert Resolve(c, x) == Err(VariableTableOverrun);
      }
    } else {
      assert Resolve(c, x) == Err(UndefinedVariable(x));
      assert !InScope(c.enclosing, x);
    }
  }

  // ----- terms -----

  /** A term is rejected only because of a size limit or a free variable that is not in scope; never
      with "too many variables" or "too many non-locals". */
  lemma {:induction false} CompileError(m: Mode, t: Term, isTail: bool, c: Context, base: nat)
    requires c.Context? && Wf(c) && Compile(m, t, isTail, c, base).Err?
    ensures Explained(Compile(m, t, isTail, c, base).error, c, FreeVars(t))
    decreases t, 2
  {
    hide Wf, Explained, CompileCall, CompileBinary, CompileUnary, CompilePair, CompileClosure, CompileLet,
      CompileIf, Resolve, Encode;
    match t
    case Int(_, _) => LeafError(m, t, isTail, c, base);
    case Str(_, _) => LeafError(m, t, isTail, c, base);
    case Bool(_, _) =>
    case Var(x, _) => ResolveError(c, x);
    case Call(_, _, _) => CallError(m, t, isTail, c, base);
    case Binary(_, _, _, _) => BinaryError(m, t, c, base);
    case Unary(_, _, _) => UnaryError(m, t, c, base);
    case Pair(_, _, _) => PairError(m, t, c, base);
    case Function(_, _, _) => ClosureError(m, t, c);
    case Let(_, _, _, _) => LetError(m, t, c, base);
    case If(_, _, _, _) => IfError(m, t, c, base);
  }

  lemma LeafError(m: Mode, t: Term, isTail: bool, c: Context, base: nat)
    requires (t.Int? || t.Str?) && c.Context? && Compile(m, t, isTail, c, base).Err?
    ensures Explained(Compile(m, t, isTail, c, base).error, c, FreeVars(t))
  {
    hide WordOverruns, Encode, InScope;
  }

  lemma {:induction false} UnaryError(m: Mode, t: Term, c: Context, base: nat)
    requires t.Unary? && c.Context? && Wf(c) && CompileUnary(m, t, c, base).Err?
    ensures Explained(CompileUnary(m, t, c, base).error, c, FreeVars(t))
    decreases t, 1
  {
    hide Wf, Compile, Explained, Encode;
    CompileError(m, t.operand, false, c, base);
  }

  lemma {:induction false} BinaryError(m: Mode, t: Term, c: Context, base: nat)
    requires t.Binary? && c.Context? && Wf(c) && CompileBinary(m, t, c, base).Err?
    ensures Explained(CompileBinary(m, t, c, base).error, c, FreeVars(t))
    decreases t, 1
  {
    hide Wf, Compile, Explained, Encode, Grows;
    var r1 := Compile(m, t.lhs, false, c, base);
    if r1.Err? {
      CompileError(m, t.lhs, false, c, base);
      ExplainedMore(r1.error, c, FreeVars(t.lhs), FreeVars(t));
    } else {
      var e1 := r1.value;
      CompileGrows(m, t.lhs, false, c, base);
      CompileError(m, t.rhs, false, e1.context, base + |e1.bytes|);
      ExplainedLater(m, t.lhs, false, c, base, Compile(m, t.rhs, false, e1.context, base + |e1.bytes|).error,
                     FreeVars(t.rhs), FreeVars(t));
    }
  }

  lemma {:induction false} PairError(m: Mode, t: Term, c: Context, base: nat)
    requires t.Pair? && c.Context? && Wf(c) && CompilePair(m, t, c, base).Err?
    ensures Explained(CompilePair(m, t, c, base).error, c, FreeVars(t))
    decreases t, 1
  {
    hide Wf, Compile, Explained, Encode, Grows;
    var r1 := Compile(m, t.fst, false, c, base);
    if r1.Err? {
      CompileError(m, t.fst, false, c, base);
      ExplainedMore(r1.error, c, FreeVars(t.fst), FreeVars(t));
    } else {
      var e1 := r1.value;
      CompileGrows(m, t.fst, false, c, base);
      CompileError(m, t.snd, false, e1.context, base + |e1.bytes|);
      ExplainedLater(m, t.fst, false, c, base, Compile(m, t.snd, false, e1.context, base + |e1.bytes|).error,
                     FreeVars(t.snd), FreeVars(t));
    }
  }

  lemma {:induction false} CallError(m: Mode, t: Term, isTail: bool, c: Context, base: nat)
    requires t.Call? && c.Context? && Wf(c) && CompileCall(m, t, isTail, c, base).Err?
    ensures Explained(CompileCall(m, t, isTail, c, base).error, c, FreeVars(t))
    decreases t, 1
  {
    hide Wf, Compile, CompileAll, Explained, Encode, Grows;
    var r1 := Compile(m, t.callee, false, c, base);
    if r1.Err? {
      CompileError(m, t.callee, false, c, base);
      ExplainedMore(r1.error, c, FreeVars(t.callee), FreeVars(t));
    } else {
      var e1 := r1.value;
      CompileGrows(m, t.callee, false, c, base);
      AllError(m, t.args, e1.context, base + |e1.bytes|);
      ExplainedLater(m, t.callee, false, c, base, CompileAll(m, t.args, e1.context, base + |e1.bytes|).error,
                     FreeVarsAll(t.args), FreeVars(t));
    }
  }

  lemma {:induction false} AllError(m: Mode, ts: seq<Term>, c: Context, base: nat)
    requires c.Context? && Wf(c) && CompileAll(m, ts, c, base).Err?
    ensures Explained(CompileAll(m, ts, c, base).error, c, FreeVarsAll(ts))
    decreases ts, 1
  {
    hide Wf, Compile, Explained, Grows;
    if ts != [] {
      var r1 := Compile(m, ts[0], false, c, base);
      if r1.Err? {
        CompileError(m, ts[0], false, c, base);
        ExplainedMore(r1.error, c, FreeVars(ts[0]), FreeVarsAll(ts));
      } else {
        var e1 := r1.value;
        CompileGrows(m, ts[0], false, c, base);
        AllError(m, ts[1..], e1.context, base + |e1.bytes|);
        ExplainedLater(m, ts[0], false, c, base, CompileAll(m, ts[1..], e1.context, base + |e1.bytes|).error,
                       FreeVarsAll(ts[1..]), FreeVarsAll(ts));
      }
    }
  }

  /** An error inside the scope of a new local. */
  lemma ExplainedLocal(c: Context, x: string, e: CompileError, names: set<string>, all: set<string>)
    requires c.Context? && Wf(c) && AddLocal(c, x).Ok?
    requires Explained(e, AddLocal(c, x).value, names) && names - {x} <= all
    ensures Explained(e, c, all)
  {
    AddLocalWf(c, x);
    hide Wf;
  }

  lemma {:induction false} LetError(m: Mode, t: Term, c: Context, base: nat)
    requires t.Let? && c.Context? && Wf(c) && CompileLet(m, t, c, base).Err?
    ensures Explained(CompileLet(m, t, c, base).error, c, FreeVars(t))
    decreases t, 1
  {
    hide Wf, Compile, Explained, Grows, AddLocal;
    var x := t.bound.text;
    AddLocalError(c, x);
    if AddLocal(c, x).Err? {
      assert Explained(VariableTableOverrun, c, FreeVars(t)) by { TableOverrun(c, FreeVars(t)); }
    } else {
      AddLocalWf(c, x);
      var c1 := AddLocal(c, x).value;
      var r1 := Compile(m, t.definition, false, c1, base);
      if r1.Err? {
        CompileError(m, t.definition, false, c1, base);
        ExplainedLocal(c, x, r1.error, FreeVars(t.definition), FreeVars(t));
      } else {
        var e1 := r1.value;
        CompileGrows(m, t.definition, false, c1, base);
        CompileError(m, t.next, true, e1.context, base + |e1.bytes|);
        var e := Compile(m, t.next, true, e1.context, base + |e1.bytes|).error;
        ExplainedLater(m, t.definition, false, c1, base, e, FreeVars(t.next), FreeVars(t.next));
        ExplainedLocal(c, x, e, FreeVars(t.next), FreeVars(t));
      }
    }
  }

  lemma TableOverrun(c: Context, names: set<string>)
    ensures Explained(VariableTableOverrun, c, names)
  {
  }

  /** An error in the body of a function, seen from the enclosing function. */
  lemma ExplainedBody(ps: seq<Parameter>, c: Context, e: CompileError, names: set<string>)
    requires Wf(c) && BodyContext(ps, c).Ok? && Explained(e, BodyContext(ps, c).value, names)
    ensures Explained(e, c, names - ParamNames(ps))
  {
    BodyContextWf(ps, c);
    hide Wf, BodyContext;
  }

  lemma {:induction false} ClosureError(m: Mode, t: Term, c: Context)
    requires t.Function? && c.Context? && Wf(c) && CompileClosure(m, t, c).Err?
    ensures Explained(CompileClosure(m, t, c).error, c, FreeVars(t))
    decreases t, 1
  {
    hide Wf, Compile, Explained, Encode, AddParams;
    var r := BodyContext(t.params, c);
    NewContextWf(c);
    AddParamsError(NewContext(c), t.params);
    if r.Err? {
      TableOverrun(c, FreeVars(t));
    } else {
      BodyContextWf(t.params, c);
      CompileError(m, t.body, true, r.value, 0);
      ExplainedBody(t.params, c, Compile(m, t.body, true, r.value, 0).error, FreeVars(t.body));
    }
  }

  lemma {:induction false} IfError(m: Mode, t: Term, c: Context, base: nat)
    requires t.If? && c.Context? && Wf(c) && CompileIf(m, t, c, base).Err?
    ensures Explained(CompileIf(m, t, c, base).error, c, FreeVars(t))
    decreases t, 1
  {
    hide Wf, Compile, Explained, Encode, Grows, WordOverruns;
    LimitsExplained(c, FreeVars(t));
    var r0 := Compile(m, t.cond, false, c, base);
    if r0.Err? {
      CompileError(m, t.cond, false, c, base);
      ExplainedMore(r0.error, c, FreeVars(t.cond), FreeVars(t));
    } else {
      var e0 := r0.value;
      CompileGrows(m, t.cond, false, c, base);
      var p1 := if m.emit then base + |e0.bytes| + 3 else base;
      var r1 := Compile(m, t.thn, true, e0.context, p1);
      if r1.Err? {
        CompileError(m, t.thn, true, e0.context, p1);
        ExplainedLater(m, t.cond, false, c, base, r1.error, FreeVars(t.thn), FreeVars(t));
      } else {
        var e1 := r1.value;
        CompileGrows(m, t.thn, true, e0.context, p1);
        var p2 := if m.emit then p1 + |e1.bytes| + 3 else base;
        var r2 := Compile(m, t.els, true, e1.context, p2);
        if r2.Err? {
          CompileError(m, t.els, true, e1.context, p2);
          ExplainedLater(m, t.thn, true, e0.context, p1, r2.error, FreeVars(t.els), FreeVars(t.els));
          ExplainedLater(m, t.cond, false, c, base, r2.error, FreeVars(t.els), FreeVars(t));
        }
      }
    }
  }

  lemma LimitsExplained(c: Context, names: set<string>)
    ensures Explained(CodeBufferOverrun, c, names) && Explained(TooMuchCode, c, names)
  {
  }

  /** A closed program is rejected only because of a size limit. */
  lemma ClosedProgramError(m: Mode, program: Term)
    requires FreeVars(program) == {} && CompileProgram(m, program).Err?
    ensures CompileProgram(m, program).error in
      {VariableTableOverrun, TooManyConstants, IntegerOverflow, TooMuchCode, CodeBufferOverrun}
  {
    hide Compile, Wf, FreeVars, Encode;
    NewContextWf(NoContext);
    CompileError(m, program, false, NewContext(NoContext), 0);
  }
}
