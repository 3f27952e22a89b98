/** What compiling a term does to the variable tables of the whole chain of functions: closure
    conversion only ever adds captured variables to the enclosing functions, and every captured
    variable stays linked to the variable of the enclosing function that it stands for. */
module Scoping {
  import opened Values
  import opened Syntax
  import opened Bytecode
  import opened Codegen

  /** The slot of a name that is a local of the function; None for captured and unknown names. */
  function LocalSlot(vs: seq<Variable>, name: string): Option<byte> {
    match Lookup(vs, name)
    case Some(v) => if v.isLocal then Some(v.index) else None
    case None => None
  }

  /** The names among `names` that the function has no table entry for. */
  ghost function Unbound(c: Context, names: set<string>): set<string>
    requires c.Context?
  {
    set y | y in names && Lookup(c.variables, y).None?
  }

  /** Each nonlocal descriptor is what the enclosing function's table says about its name. */
  ghost predicate Linked(enclosing: Context, ns: seq<Nonlocal>) {
    if enclosing.NoContext? then ns == []
    else forall j :: 0 <= j < |ns| ==>
      Lookup(enclosing.variables, ns[j].name) == Some(Variable(ns[j].name, ns[j].isLocal, ns[j].index))
  }

  /** A table entry is a slot below nextIndex or the index of the descriptor with the same name. */
  ghost predicate EntryOk(c: Context, y: string)
    requires c.Context?
  {
    match Lookup(c.variables, y)
    case None => forall n | n in c.nonlocals :: n.name != y
    case Some(v) =>
      v.name == y &&
      if v.isLocal then 1 <= v.index < c.nextIndex
      else v.index < |c.nonlocals| && c.nonlocals[v.index].name == y
  }

  /** Slots are handed out in order, and no variable is captured twice. */
  ghost predicate Tidy(vs: seq<Variable>, nextIndex: nat, ns: seq<Nonlocal>) {
    && (forall i :: 0 <= i < |vs| && vs[i].isLocal ==> vs[i].index < nextIndex)
    && (forall i, j :: 0 <= i < j < |vs| && vs[i].isLocal && vs[j].isLocal ==> vs[i].index < vs[j].index)
    && (forall i, j :: 0 <= i < j < |ns| ==> ns[i].name != ns[j].name)
  }

  /** Every table entry is a slot or a captured variable. */
  ghost predicate Wf(c: Context) {
    c.Context? ==>
      && |c.variables| <= MAX_VARIABLES
      && 1 <= c.nextIndex && c.nextIndex - 1 + |c.nonlocals| == |c.variables|
      && Tidy(c.variables, c.nextIndex, c.nonlocals)
      && (forall y :: EntryOk(c, y))
      && Linked(c.enclosing, c.nonlocals)
      && Wf(c.enclosing)
  }

  /** From c to d only captured variables with names in `names` were added, at every level. */
  ghost predicate Captures(c: Context, d: Context, names: set<string>)
    decreases c
  {
    if c.NoContext? then d.NoContext?
    else
      && d.Context?
      && d.nextIndex == c.nextIndex && d.constants == c.constants && d.functions == c.functions
      && c.nonlocals <= d.nonlocals
      && (forall y :: Lookup(c.variables, y).Some? ==> Lookup(d.variables, y) == Lookup(c.variables, y))
      && (forall y :: LocalSlot(d.variables, y) == LocalSlot(c.variables, y))
      && (forall j :: |c.nonlocals| <= j < |d.nonlocals| ==> d.nonlocals[j].name in Unbound(c, names))
      && Captures(c.enclosing, d.enclosing, Unbound(c, names))
  }

  /** From c to d the function being compiled bound the locals `lets` and captured only free
      variables in `names`; its tables grew at the end and enclosing functions only captured. */
  ghost predicate Grows(c: Context, d: Context, lets: set<string>, names: set<string>)
    requires c.Context?
  {
    && d.Context?
    && c.constants <= d.constants && c.functions <= d.functions && c.nonlocals <= d.nonlocals
    && c.nextIndex <= d.nextIndex
    && (lets == {} ==> d.nextIndex == c.nextIndex)
    && (forall y :: Lookup(c.variables, y).Some? ==> Lookup(d.variables, y).Some?)
    && (forall y :: y !in lets ==> LocalSlot(d.variables, y) == LocalSlot(c.variables, y))
    && (forall j :: |c.nonlocals| <= j < |d.nonlocals| ==> d.nonlocals[j].name in Unbound(c, names))
    && Captures(c.enclosing, d.enclosing, Unbound(c, names))
  }

  // ----- Captures and Grows are preorders -----

  lemma {:induction false} CapturesMonotone(c: Context, d: Context, n: set<string>, n': set<string>)
    requires Captures(c, d, n) && n <= n'
    ensures Captures(c, d, n')
    decreases c
  {
    if c.Context? {
      CapturesMonotone(c.enclosing, d.enclosing, Unbound(c, n), Unbound(c, n'));
    }
  }

  lemma {:induction false} CapturesNothing(c: Context, n: set<string>)
    ensures Captures(c, c, n)
  {
    if c.Context? {
      CapturesNothing(c.enclosing, Unbound(c, n));
    }
  }

  lemma {:induction false} CapturesTransitive(c: Context, d: Context, e: Context, n: set<string>)
    requires Captures(c, d, n) && Captures(d, e, n)
    ensures Captures(c, e, n)
    decreases c
  {
    if c.Context? {
      assert Unbound(d, n) <= Unbound(c, n);
      CapturesMonotone(d.enclosing, e.enclosing, Unbound(d, n), Unbound(c, n));
      CapturesTransitive(c.enclosing, d.enclosing, e.enclosing, Unbound(c, n));
      forall j | |c.nonlocals| <= j < |e.nonlocals|
        ensures e.nonlocals[j].name in Unbound(c, n)
      {
        if j < |d.nonlocals| {
          assert e.nonlocals[j] == d.nonlocals[j];
        }
      }
    }
  }

  lemma CapturesGrow(c: Context, d: Context, n: set<string>)
    requires c.Context? && Captures(c, d, n)
    ensures Grows(c, d, {}, n)
  {
  }

  lemma GrowsMonotone(c: Context, d: Context, l: set<string>, n: set<string>, n': set<string>)
    requires c.Context? && Grows(c, d, l, n) && n <= n'
    ensures Grows(c, d, l, n')
  {
    CapturesMonotone(c.enclosing, d.enclosing, Unbound(c, n), Unbound(c, n'));
  }

  lemma GrowsTransitive(c: Context, d: Context, e: Context, l: set<string>, l': set<string>, n: set<string>,
                        n': set<string>)
    requires c.Context? && Grows(c, d, l, n) && Grows(d, e, l', n')
    ensures Grows(c, e, l + l', n + n')
  {
    GrowsMonotone(c, d, l, n, n + n');
    GrowsMonotone(d, e, l', n', n + n');
    var u := Unbound(c, n + n');
    assert Unbound(d, n + n') <= u;
    CapturesMonotone(d.enclosing, e.enclosing, Unbound(d, n + n'), u);
    CapturesTransitive(c.enclosing, d.enclosing, e.enclosing, u);
    forall j | |c.nonlocals| <= j < |e.nonlocals|
      ensures e.nonlocals[j].name in u
    {
      if j < |d.nonlocals| {
        assert e.nonlocals[j] == d.nonlocals[j];
      }
    }
    assert l + l' == {} ==> l == {} && l' == {};
  }

  // ----- lookups -----

  lemma LookupLast(vs: seq<Variable>, v: Variable, y: string)
    ensures Lookup(vs + [v], y) == if v.name == y then Some(v) else Lookup(vs, y)
  {
    assert (vs + [v])[..|vs|] == vs;
  }

  lemma AddParamsFunctions(c: Context, ps: seq<Parameter>)
    requires c.Context? && AddParams(c, ps).Ok?
    ensures AddParams(c, ps).value.functions == c.functions
    decreases ps
  {
    if ps != [] {
      AddParamsFunctions(AddLocal(c, ps[0].text).value, ps[1..]);
    }
  }

  lemma {:induction false} LookupFinds(vs: seq<Variable>, y: string)
    ensures match Lookup(vs, y)
      case Some(v) => exists i :: 0 <= i < |vs| && vs[i] == v
      case None => true
    decreases |vs|
  {
    if vs != [] && vs[|vs| - 1].name != y {
      LookupFinds(vs[..|vs| - 1], y);
    }
  }

  /** Different names stand for different slots or captured variables. */
  lemma SlotOwner(c: Context, y: string, z: string)
    requires c.Context? && Wf(c) && Lookup(c.variables, y).Some? && Lookup(c.variables, z).Some?
    requires var v, w := Lookup(c.variables, y).value, Lookup(c.variables, z).value;
      v.isLocal == w.isLocal && v.index == w.index
    ensures y == z
  {
    assert EntryOk(c, y) && EntryOk(c, z);
    LookupFinds(c.variables, y);
    LookupFinds(c.variables, z);
    hide Linked;
  }

  /** A new local takes the next slot, which is one byte as long as the table has room. */
  lemma LocalTidy(c: Context, x: string)
    requires c.Context? && Wf(c) && AddLocal(c, x).Ok?
    ensures c.nextIndex < 256
    ensures Tidy(c.variables + [Variable(x, true, c.nextIndex)], c.nextIndex + 1, c.nonlocals)
  {
    hide EntryOk, Linked;
  }

  lemma AddLocalIs(c: Context, x: string)
    requires c.Context? && AddLocal(c, x).Ok? && c.nextIndex < 256
    ensures |c.variables| < MAX_VARIABLES
    ensures AddLocal(c, x).value ==
      c.(variables := c.variables + [Variable(x, true, c.nextIndex)], nextIndex := c.nextIndex + 1)
  {
  }

  lemma LocalEntry(c: Context, d: Context, x: string, y: string)
    requires c.Context? && EntryOk(c, y) && 1 <= c.nextIndex < 256
    requires d == c.(variables := c.variables + [Variable(x, true, c.nextIndex)], nextIndex := c.nextIndex + 1)
    ensures y != x ==> EntryOk(d, y)
    ensures EntryOk(d, x)
    ensures Lookup(d.variables, y) == if y == x then Some(Variable(x, true, c.nextIndex)) else Lookup(c.variables, y)
  {
    LookupLast(c.variables, Variable(x, true, c.nextIndex), y);
    LookupLast(c.variables, Variable(x, true, c.nextIndex), x);
    hide Lookup;
  }

  lemma AddLocalWf(c: Context, x: string)
    requires c.Context? && Wf(c) && AddLocal(c, x).Ok?
    ensures var d := AddLocal(c, x).value;
      && Wf(d) && d.nextIndex == c.nextIndex + 1
      && c.nextIndex < 256
      && forall y :: Lookup(d.variables, y) ==
                     if y == x then Some(Variable(x, true, c.nextIndex)) else Lookup(c.variables, y)
  {
    var d := AddLocal(c, x).value;
    LocalTidy(c, x);
    AddLocalIs(c, x);
    hide Tidy, EntryOk, Linked, Lookup, AddLocal;
    forall y
      ensures EntryOk(d, y)
      ensures Lookup(d.variables, y) == if y == x then Some(Variable(x, true, c.nextIndex)) else Lookup(c.variables, y)
    {
      assert EntryOk(c, y);
      LocalEntry(c, d, x, y);
    }
  }

  lemma AddParamsWf(c: Context, ps: seq<Parameter>)
    requires c.Context? && Wf(c) && AddParams(c, ps).Ok?
    ensures var d := AddParams(c, ps).value;
      && Wf(d) && d.nextIndex == c.nextIndex + |ps| && d.nonlocals == c.nonlocals
      && forall y :: Lookup(d.variables, y).None? <==> Lookup(c.variables, y).None? && y !in ParamNames(ps)
    decreases ps
  {
    if ps != [] {
      AddLocalWf(c, ps[0].text);
      AddParamsWf(AddLocal(c, ps[0].text).value, ps[1..]);
      assert ps == [ps[0]] + ps[1..];
    }
  }

  lemma CapturedTidy(vs: seq<Variable>, nextIndex: nat, ns: seq<Nonlocal>, v: Variable, n: Nonlocal)
    requires Tidy(vs, nextIndex, ns) && !v.isLocal && forall k | k in ns :: k.name != n.name
    ensures Tidy(vs + [v], nextIndex, ns + [n])
  {
  }

  /** c after it has captured x, which is the variable v of the enclosing function. */
  function Capturing(c: Context, outer: Context, v: Variable, x: string): Context
    requires c.Context? && |c.nonlocals| < 256
  {
    c.(enclosing := outer, nonlocals := c.nonlocals + [Nonlocal(v.isLocal, v.index, x)],
       variables := c.variables + [Variable(x, false, |c.nonlocals|)])
  }

  lemma CapturingEntry(c: Context, outer: Context, v: Variable, x: string, y: string)
    requires c.Context? && |c.nonlocals| < 256 && EntryOk(c, y) && Lookup(c.variables, x).None?
    ensures var d := Capturing(c, outer, v, x);
      EntryOk(d, y) && Lookup(d.variables, y) ==
        if y == x then Some(Variable(x, false, |c.nonlocals|)) else Lookup(c.variables, y)
  {
    LookupLast(c.variables, Variable(x, false, |c.nonlocals|), y);
  }

  lemma CapturingLinks(c: Context, outer: Context, v: Variable, x: string)
    requires c.Context? && |c.nonlocals| < 256 && c.enclosing.Context? && Linked(c.enclosing, c.nonlocals)
    requires Captures(c.enclosing, outer, {x}) && Lookup(outer.variables, x) == Some(v) && v.name == x
    ensures Linked(outer, Capturing(c, outer, v, x).nonlocals)
  {
    hide Unbound, LocalSlot;
  }

  lemma CapturingLookups(c: Context, outer: Context, v: Variable, x: string)
    requires c.Context? && Lookup(c.variables, x).None? && |c.nonlocals| < 256 && forall y :: EntryOk(c, y)
    ensures var d := Capturing(c, outer, v, x);
      (forall y :: EntryOk(d, y)) &&
      forall y :: Lookup(d.variables, y) ==
        if y == x then Some(Variable(x, false, |c.nonlocals|)) else Lookup(c.variables, y)
  {
    hide EntryOk, Lookup;
    forall y
      ensures var d := Capturing(c, outer, v, x);
        EntryOk(d, y) && Lookup(d.variables, y) ==
        if y == x then Some(Variable(x, false, |c.nonlocals|)) else Lookup(c.variables, y)
    {
      assert EntryOk(c, y);
      CapturingEntry(c, outer, v, x, y);
    }
  }

  lemma CapturingCaptures(c: Context, outer: Context, v: Variable, x: string)
    requires c.Context? && |c.nonlocals| < 256 && Lookup(c.variables, x).None? && Captures(c.enclosing, outer, {x})
    requires var vs := Capturing(c, outer, v, x).variables;
      forall y :: Lookup(vs, y) == if y == x then Some(Variable(x, false, |c.nonlocals|)) else Lookup(c.variables, y)
    ensures Captures(c, Capturing(c, outer, v, x), {x})
  {
    assert Unbound(c, {x}) == {x};
    hide Lookup;
  }

  lemma CapturingWf(c: Context, outer: Context, v: Variable, x: string)
    requires c.Context? && c.enclosing.Context? && Wf(c)
    requires Lookup(c.variables, x).None? && |c.variables| < MAX_VARIABLES
    requires Wf(outer) && outer.Context? && Captures(c.enclosing, outer, {x}) && Lookup(outer.variables, x) == Some(v)
    ensures |c.nonlocals| < 256
    ensures var d := Capturing(c, outer, v, x);
      Wf(d) && Captures(c, d, {x}) && Lookup(d.variables, x) == Some(Variable(x, false, |c.nonlocals|))
  {
    hide Captures, Tidy, Linked, Lookup;
    WfParts(c, x);
    WfParts(outer, x);
    CapturedTidy(c.variables, c.nextIndex, c.nonlocals, Variable(x, false, |c.nonlocals|), Nonlocal(v.isLocal,
                 v.index, x));
    CapturingLinks(c, outer, v, x);
    CapturingLookups(c, outer, v, x);
    CapturingCaptures(c, outer, v, x);
    hide EntryOk;
  }

  lemma WfParts(c: Context, x: string)
    requires c.Context? && Wf(c)
    ensures |c.variables| <= MAX_VARIABLES && 1 <= c.nextIndex && c.nextIndex - 1 + |c.nonlocals| == |c.variables|
    ensures Tidy(c.variables, c.nextIndex, c.nonlocals) && Linked(c.enclosing, c.nonlocals) && forall y :: EntryOk(c, y)
    ensures match Lookup(c.variables, x)
      case Some(v) => v.name == x
      case None => forall n | n in c.nonlocals :: n.name != x
  {
    assert EntryOk(c, x);
    hide Tidy, Linked;
  }

  /** A resolved name is in the table afterwards, and only captures of that name were added. */
  lemma {:induction false} ResolveCaptures(c: Context, x: string)
    requires c.Context? && Wf(c) && Resolve(c, x).Ok?
    ensures var (d, v) := Resolve(c, x).value;
      Wf(d) && Captures(c, d, {x}) && Lookup(d.variables, x) == Some(v)
    decreases c
  {
    hide Captures, EntryOk, Tidy, Linked;
    match Lookup(c.variables, x)
    case Some(_) => CapturesNothing(c, {x});
    case None =>
      ResolveCaptures(c.enclosing, x);
      var (outer, v) := Resolve(c.enclosing, x).value;
      CapturingWf(c, outer, v, x);
  }

  // ----- compilation -----

  lemma GrowsLocal(c: Context, x: string, d: Context, l: set<string>, n: set<string>)
    requires c.Context? && Wf(c) && AddLocal(c, x).Ok? && Grows(AddLocal(c, x).value, d, l, n)
    ensures Grows(c, d, l + {x}, n - {x})
  {
    AddLocalWf(c, x);
    var c1 := AddLocal(c, x).value;
    assert Unbound(c1, n) == Unbound(c, n - {x});
  }

  /** What a compiled function inherits: its descriptors are linked to the enclosing tables and name
      free variables of the function. */
  ghost predicate Closed(fn: CompiledFunction, outer: Context, free: set<string>) {
    && Linked(outer, fn.nonlocals)
    && (forall j :: 0 <= j < |fn.nonlocals| ==> fn.nonlocals[j].name in free)
    && (forall i, j :: 0 <= i < j < |fn.nonlocals| ==> fn.nonlocals[i].name != fn.nonlocals[j].name)
  }

  /** The context in which the body of a function is compiled. */
  function BodyContext(ps: seq<Parameter>, c: Context): Result<Context> {
    AddParams(NewContext(c), ps)
  }

  lemma NewContextWf(c: Context)
    requires Wf(c)
    ensures Wf(NewContext(c))
  {
    assert forall y :: EntryOk(NewContext(c), y);
  }

  lemma BodyContextWf(ps: seq<Parameter>, c: Context)
    requires Wf(c) && BodyContext(ps, c).Ok?
    ensures var d := BodyContext(ps, c).value;
      && Wf(d) && d.enclosing == c && d.nonlocals == [] && d.nextIndex == |ps| + 1 && |ps| < 256
      && forall y :: Lookup(d.variables, y).None? <==> y !in ParamNames(ps)
  {
    NewContextWf(c);
    AddParamsWf(NewContext(c), ps);
  }

  lemma {:induction false} FunctionGrows(m: Mode, ps: seq<Parameter>, b: Term, c: Context)
    requires c.Context? && Wf(c) && CompileFunction(m, ps, b, c).Ok?
    ensures var (outer, fn) := CompileFunction(m, ps, b, c).value;
      var free := FreeVars(b) - ParamNames(ps);
      Wf(outer) && Captures(c, outer, free) && Closed(fn, outer, free)
    decreases b, 2
  {
    var inner := BodyContext(ps, c).value;
    BodyContextWf(ps, c);
    CompileGrows(m, b, true, inner, 0);
    CapturesMonotone(c, Compile(m, b, true, inner, 0).value.context.enclosing,
                     Unbound(inner, FreeVars(b)), FreeVars(b) - ParamNames(ps));
  }

  lemma SequenceGrows(c: Context, d: Context, e: Context, t: Term, u: Term)
    requires c.Context? && Grows(c, d, LetNames(t), FreeVars(t)) && Grows(d, e, LetNames(u), FreeVars(u))
    ensures Grows(c, e, LetNames(t) + LetNames(u), FreeVars(t) + FreeVars(u))
  {
    GrowsTransitive(c, d, e, LetNames(t), LetNames(u), FreeVars(t), FreeVars(u));
  }

  /** A change of constants and child functions alone. */
  lemma ListsGrow(c: Context, d: Context)
    requires c.Context? && d.Context? && Wf(c) && d == c.(constants := d.constants, functions := d.functions)
    requires c.constants <= d.constants && c.functions <= d.functions
    ensures Wf(d) && Grows(c, d, {}, {})
  {
    forall y ensures EntryOk(d, y) {
      assert EntryOk(c, y);
    }
    CapturesNothing(c, {});
  }

  lemma FunctionTermGrows(m: Mode, t: Term, c: Context)
    requires t.Function? && c.Context? && CompileClosure(m, t, c).Ok?
    requires var outer := CompileFunction(m, t.params, t.body, c).value.0;
      Wf(outer) && Captures(c, outer, FreeVars(t))
    ensures var d := CompileClosure(m, t, c).value.context;
      Wf(d) && Grows(c, d, {}, FreeVars(t))
  {
    hide Wf, Grows, Captures;
    var outer := CompileFunction(m, t.params, t.body, c).value.0;
    var d := CompileClosure(m, t, c).value.context;
    CapturesGrow(c, outer, FreeVars(t));
    ListsGrow(outer, d);
    var none: set<string> := {};
    GrowsTransitive(c, outer, d, none, none, FreeVars(t), none);
    assert none + none == none && FreeVars(t) + none == FreeVars(t);
  }

  /** Compiling a term keeps the tables well formed, binds only its `let` names and captures only its
      free variables. */
  lemma {:induction false} CompileGrows(m: Mode, t: Term, isTail: bool, c: Context, base: nat)
    requires c.Context? && Wf(c) && Compile(m, t, isTail, c, base).Ok?
    ensures var d := Compile(m, t, isTail, c, base).value.context;
      Wf(d) && Grows(c, d, LetNames(t), FreeVars(t))
    decreases t, 1
  {
    hide Wf, Grows, Captures;
    match t
    case Int(_, _) => ListsGrow(c, CompileInt(m, c, t.value, base).value.context);
    case Str(_, _) => ListsGrow(c, CompileConstant(m, c, StrValue(t.text)).value.context);
    case Bool(_, _) => ListsGrow(c, c);
    case Var(x, _) =>
      ResolveCaptures(c, x);
      CapturesGrow(c, Resolve(c, x).value.0, {x});
    case Call(_, _, _) => CallGrows(m, t, isTail, c, base);
    case Binary(_, _, _, _) => BinaryGrows(m, t, c, base);
    case Unary(_, e, _) => CompileGrows(m, e, false, c, base);
    case Pair(_, _, _) => PairGrows(m, t, c, base);
    case Function(ps, b, _) =>
      FunctionGrows(m, ps, b, c);
      FunctionTermGrows(m, t, c);
    case Let(_, _, _, _) => LetGrows(m, t, c, base);
    case If(_, _, _, _) => IfGrows(m, t, c, base);
  }

  lemma {:induction false} CallGrows(m: Mode, t: Term, isTail: bool, c: Context, base: nat)
    requires t.Call? && c.Context? && Wf(c) && CompileCall(m, t, isTail, c, base).Ok?
    ensures var d := CompileCall(m, t, isTail, c, base).value.context;
      Wf(d) && Grows(c, d, LetNames(t), FreeVars(t))
    decreases t, 0
  {
    hide Wf, Grows, Captures, Compile, CompileAll;
    var e1 := Compile(m, t.callee, false, c, base).value;
    var e2 := CompileAll(m, t.args, e1.context, base + |e1.bytes|).value;
    CompileGrows(m, t.callee, false, c, base);
    CompileAllGrows(m, t.args, e1.context, base + |e1.bytes|);
    GrowsTransitive(c, e1.context, e2.context, LetNames(t.callee), LetNamesAll(t.args), FreeVars(t.callee),
                    FreeVarsAll(t.args));
  }

  lemma {:induction false} BinaryGrows(m: Mode, t: Term, c: Context, base: nat)
    requires t.Binary? && c.Context? && Wf(c) && CompileBinary(m, t, c, base).Ok?
    ensures var d := CompileBinary(m, t, c, base).value.context;
      Wf(d) && Grows(c, d, LetNames(t), FreeVars(t))
    decreases t, 0
  {
    hide Wf, Grows, Captures, Compile;
    var e1 := Compile(m, t.lhs, false, c, base).value;
    var e2 := Compile(m, t.rhs, false, e1.context, base + |e1.bytes|).value;
    CompileGrows(m, t.lhs, false, c, base);
    CompileGrows(m, t.rhs, false, e1.context, base + |e1.bytes|);
    SequenceGrows(c, e1.context, e2.context, t.lhs, t.rhs);
  }

  lemma {:induction false} PairGrows(m: Mode, t: Term, c: Context, base: nat)
    requires t.Pair? && c.Context? && Wf(c) && CompilePair(m, t, c, base).Ok?
    ensures var d := CompilePair(m, t, c, base).value.context;
      Wf(d) && Grows(c, d, LetNames(t), FreeVars(t))
    decreases t, 0
  {
    hide Wf, Grows, Captures, Compile;
    var e1 := Compile(m, t.fst, false, c, base).value;
    var e2 := Compile(m, t.snd, false, e1.context, base + |e1.bytes|).value;
    CompileGrows(m, t.fst, false, c, base);
    CompileGrows(m, t.snd, false, e1.context, base + |e1.bytes|);
    SequenceGrows(c, e1.context, e2.context, t.fst, t.snd);
  }

  lemma {:induction false} LetGrows(m: Mode, t: Term, c: Context, base: nat)
    requires t.Let? && c.Context? && Wf(c) && CompileLet(m, t, c, base).Ok?
    ensures var d := CompileLet(m, t, c, base).value.context;
      Wf(d) && Grows(c, d, LetNames(t), FreeVars(t))
    decreases t, 0
  {
    hide Wf, Grows, Captures;
    var Let(x, v, n, _) := t;
    var c1 := AddLocal(c, x.text).value;
    var e1 := Compile(m, v, false, c1, base).value;
    AddLocalWf(c, x.text);
    CompileGrows(m, v, false, c1, base);
    CompileGrows(m, n, true, e1.context, base + |e1.bytes|);
    var d := Compile(m, n, true, e1.context, base + |e1.bytes|).value.context;
    SequenceGrows(c1, e1.context, d, v, n);
    GrowsLocal(c, x.text, d, LetNames(v) + LetNames(n), FreeVars(v) + FreeVars(n));
    assert LetNames(v) + LetNames(n) + {x.text} == LetNames(t);
    GrowsMonotone(c, d, LetNames(t), FreeVars(v) + FreeVars(n) - {x.text}, FreeVars(t));
  }

  lemma IfNames(t: Term)
    requires t.If?
    ensures LetNames(t) == LetNames(t.cond) + LetNames(t.thn) + LetNames(t.els)
    ensures FreeVars(t) == FreeVars(t.cond) + FreeVars(t.thn) + FreeVars(t.els)
  {
  }

  lemma {:induction false} IfGrows(m: Mode, t: Term, c: Context, base: nat)
    requires t.If? && c.Context? && Wf(c) && CompileIf(m, t, c, base).Ok?
    ensures var d := CompileIf(m, t, c, base).value.context;
      Wf(d) && Grows(c, d, LetNames(t), FreeVars(t))
    decreases t, 0
  {
    hide Wf, Grows, Captures, Compile, FreeVars, LetNames;
    IfNames(t);
    var If(cond, a, b, _) := t;
    var p1, p2 := base, base;
    var e0: Emitted, e1: Emitted, e2: Emitted, end: word;
    if m.emit {
      e0, e1, e2, p2, end := IfLayout(m, t, c, base);
      p1 := base + |e0.bytes| + 3;
    } else {
      e0 := Compile(m, cond, false, c, base).value;
      e1 := Compile(m, a, true, e0.context, base).value;
      e2 := Compile(m, b, true, e1.context, base).value;
    }
    hide CompileIf;
    CompileGrows(m, cond, false, c, base);
    CompileGrows(m, a, true, e0.context, p1);
    CompileGrows(m, b, true, e1.context, p2);
    SequenceGrows(c, e0.context, e1.context, cond, a);
    GrowsTransitive(c, e1.context, e2.context, LetNames(cond) + LetNames(a), LetNames(b),
                    FreeVars(cond) + FreeVars(a), FreeVars(b));
  }

  lemma {:induction false} CompileAllGrows(m: Mode, ts: seq<Term>, c: Context, base: nat)
    requires c.Context? && Wf(c) && CompileAll(m, ts, c, base).Ok?
    ensures var d := CompileAll(m, ts, c, base).value.context;
      Wf(d) && Grows(c, d, LetNamesAll(ts), FreeVarsAll(ts))
    decreases ts, 0
  {
    hide Wf, Grows, Captures;
    if ts == [] {
      ListsGrow(c, c);
    } else {
      var e1 := Compile(m, ts[0], false, c, base).value;
      CompileGrows(m, ts[0], false, c, base);
      CompileAllGrows(m, ts[1..], e1.context, base + |e1.bytes|);
      var e2 := CompileAll(m, ts[1..], e1.context, base + |e1.bytes|).value;
      GrowsTransitive(c, e1.context, e2.context, LetNames(ts[0]), LetNamesAll(ts[1..]),
                      FreeVars(ts[0]), FreeVarsAll(ts[1..]));
    }
  }
}
