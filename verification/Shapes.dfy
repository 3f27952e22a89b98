/** The class of supported programs, described from outside: the definitions of module Syntax walk
    through a term and say what each part must be; here the parts are collected first. */
module Shapes {
  import opened Values
  import opened Syntax
  import opened Programs

  /** t and the terms in it, up to the functions in it. */
  ghost function Within(t: Term): set<Term> {
    {t} +
    match t
    case Int(_, _) | Str(_, _) | Bool(_, _) | Var(_, _) | Function(_, _, _) => {}
    case Call(f, args, _) => Within(f) + WithinAll(args)
    case Binary(l, _, r, _) => Within(l) + Within(r)
    case Unary(_, e, _) => Within(e)
    case Pair(l, r, _) => Within(l) + Within(r)
    case Let(_, v, n, _) => Within(v) + Within(n)
    case If(c, a, b, _) => Within(c) + Within(a) + Within(b)
  }

  ghost function WithinAll(ts: seq<Term>): set<Term> {
    if ts == [] then {} else Within(ts[0]) + WithinAll(ts[1..])
  }

  /** The terms that may be evaluated last. */
  ghost function Ends(t: Term): set<Term> {
    match t
    case Let(_, _, n, _) => Ends(n)
    case If(_, a, b, _) => Ends(a) + Ends(b)
    case _ => {t}
  }

  /** The conditionals and `let`s on the way to the ends, and the ends. */
  ghost function Trunk(t: Term): set<Term> {
    {t} +
    match t
    case Let(_, _, n, _) => Trunk(n)
    case If(_, a, b, _) => Trunk(a) + Trunk(b)
    case _ => {}
  }

  ghost predicate OperandPart(u: Term) {
    match u
    case Let(_, _, _, _) => false
    case Call(_, args, _) => |args| < 256
    case If(_, a, b, _) => forall v | v in Ends(a) + Ends(b) :: !v.Call?
    case Function(_, b, _) => Spine(b)
    case _ => true
  }

  lemma {:induction false} EndsWithin(t: Term)
    ensures Ends(t) <= Within(t)
    decreases t
  {
    match t
    case Let(_, _, n, _) => EndsWithin(n);
    case If(_, a, b, _) =>
      EndsWithin(a);
      EndsWithin(b);
    case _ =>
  }

  lemma {:induction false} NoTailCallEnds(t: Term)
    requires forall u | u in Within(t) :: !u.Let?
    ensures NoTailCall(t) <==> forall v | v in Ends(t) :: !v.Call?
    decreases t
  {
    if t.If? {
      NoTailCallEnds(t.thn);
      NoTailCallEnds(t.els);
    }
  }

  ghost predicate OperandParts(us: set<Term>) {
    forall u | u in us :: OperandPart(u)
  }

  lemma OperandPartsJoin(t: Term, a: set<Term>, b: set<Term>, c: set<Term>)
    ensures OperandParts({t} + (a + b + c)) <==>
      OperandPart(t) && OperandParts(a) && OperandParts(b) && OperandParts(c)
  {
    hide OperandPart;
    var all := {t} + (a + b + c);
    if OperandParts(all) {
      assert t in all;
      forall u | u in a + b + c ensures OperandPart(u) {
        assert u in all;
      }
    }
  }

  /** An operand: no `let` outside the functions in it, no call at the end of a branch, calls of at most
      255 arguments, and the functions in it have a body in spine form. */
  lemma {:induction false} OperandExactly(t: Term)
    ensures Operand(t) <==> forall u | u in Within(t) :: OperandPart(u)
    decreases t
  {
    assert OperandParts(Within(t)) <==> forall u | u in Within(t) :: OperandPart(u);
    hide OperandParts;
    match t
    case Call(f, args, _) =>
      OperandExactly(f);
      OperandsExactly(args);
      OperandPartsJoin(t, Within(f), WithinAll(args), {});
      assert Within(t) == {t} + (Within(f) + WithinAll(args) + {});
    case Binary(l, _, r, _) =>
      OperandExactly(l);
      OperandExactly(r);
      OperandPartsJoin(t, Within(l), Within(r), {});
      assert Within(t) == {t} + (Within(l) + Within(r) + {});
    case Unary(_, e, _) =>
      OperandExactly(e);
      OperandPartsJoin(t, Within(e), {}, {});
      assert Within(t) == {t} + (Within(e) + {} + {});
    case Pair(l, r, _) =>
      OperandExactly(l);
      OperandExactly(r);
      OperandPartsJoin(t, Within(l), Within(r), {});
      assert Within(t) == {t} + (Within(l) + Within(r) + {});
    case If(c, a, b, _) =>
      OperandExactly(c);
      OperandExactly(a);
      OperandExactly(b);
      OperandPartsJoin(t, Within(c), Within(a), Within(b));
      if OperandParts(Within(a)) && OperandParts(Within(b)) {
        NoLets(Within(a));
        NoLets(Within(b));
        NoTailCallEnds(a);
        NoTailCallEnds(b);
      }
    case Let(_, v, n, _) =>
      OperandPartsJoin(t, Within(v), Within(n), {});
      assert Within(t) == {t} + (Within(v) + Within(n) + {});
    case _ =>
      OperandPartsJoin(t, {}, {}, {});
      assert Within(t) == {t} + ({} + {} + {});
  }

  lemma NoLets(us: set<Term>)
    requires OperandParts(us)
    ensures forall u | u in us :: !u.Let?
  {
  }

  lemma {:induction false} OperandsExactly(ts: seq<Term>)
    ensures Operands(ts) <==> OperandParts(WithinAll(ts))
    decreases ts
  {
    hide Operand, OperandPart;
    if ts != [] {
      OperandExactly(ts[0]);
      OperandsExactly(ts[1..]);
    }
  }

  ghost predicate TrunkPart(u: Term) {
    match u
    case Let(x, v, _, _) => Operand(v) && (v.Function? || x.text !in FreeVars(v))
    case If(c, a, b, _) =>
      Operand(c) && (LetNames(a) == {} || (LetNames(b) == {} && LetNames(a) !! FreeVars(b)))
    case Call(f, args, _) => |args| < 256 && Operand(f) && forall a | a in args :: Operand(a)
    case _ => Operand(u)
  }

  lemma {:induction false} OperandsEach(ts: seq<Term>)
    ensures Operands(ts) <==> forall t | t in ts :: Operand(t)
    decreases ts
  {
    if ts != [] {
      OperandsEach(ts[1..]);
      assert ts[0] in ts && forall t | t in ts :: t == ts[0] || t in ts[1..];
    }
  }

  ghost predicate TrunkParts(us: set<Term>) {
    forall u | u in us :: TrunkPart(u)
  }

  lemma TrunkPartsJoin(t: Term, a: set<Term>, b: set<Term>)
    ensures TrunkParts({t} + (a + b)) <==> TrunkPart(t) && TrunkParts(a) && TrunkParts(b)
  {
    hide TrunkPart;
    var all := {t} + (a + b);
    if TrunkParts(all) {
      assert t in all;
      forall u | u in a + b ensures TrunkPart(u) {
        assert u in all;
      }
    }
  }

  /** Spine form, part by part of the trunk. */
  lemma {:induction false} SpineExactly(t: Term)
    ensures Spine(t) <==> forall u | u in Trunk(t) :: TrunkPart(u)
    decreases t
  {
    assert TrunkParts(Trunk(t)) <==> forall u | u in Trunk(t) :: TrunkPart(u);
    hide TrunkParts, FreeVars, LetNames;
    match t
    case Let(_, _, n, _) =>
      SpineExactly(n);
      TrunkPartsJoin(t, Trunk(n), {});
      assert Trunk(t) == {t} + (Trunk(n) + {});
    case If(_, a, b, _) =>
      SpineExactly(a);
      SpineExactly(b);
      TrunkPartsJoin(t, Trunk(a), Trunk(b));
      assert Trunk(t) == {t} + (Trunk(a) + Trunk(b));
    case Call(_, args, _) =>
      OperandsEach(args);
      TrunkPartsJoin(t, {}, {});
      assert Trunk(t) == {t} + ({} + {});
    case _ =>
      TrunkPartsJoin(t, {}, {});
      assert Trunk(t) == {t} + ({} + {});
  }

  /** The functions in t, at any depth. */
  ghost function Nested(t: Term): set<Term> {
    match t
    case Int(_, _) | Str(_, _) | Bool(_, _) | Var(_, _) => {}
    case Function(_, b, _) => {t} + Nested(b)
    case Call(f, args, _) => Nested(f) + NestedAll(args)
    case Binary(l, _, r, _) => Nested(l) + Nested(r)
    case Unary(_, e, _) => Nested(e)
    case Pair(l, r, _) => Nested(l) + Nested(r)
    case Let(_, v, n, _) => Nested(v) + Nested(n)
    case If(c, a, b, _) => Nested(c) + Nested(a) + Nested(b)
  }

  ghost function NestedAll(ts: seq<Term>): set<Term> {
    if ts == [] then {} else Nested(ts[0]) + NestedAll(ts[1..])
  }

  ghost predicate FewInside(us: set<Term>) {
    forall u | u in us :: u.Function? ==> |InnerFunctions(u.body)| <= 256
  }

  lemma FewInsideJoin(a: set<Term>, b: set<Term>)
    ensures FewInside(a + b) <==> FewInside(a) && FewInside(b)
  {
    hide InnerFunctions;
    if FewInside(a + b) {
      forall u | u in a || u in b ensures u.Function? ==> |InnerFunctions(u.body)| <= 256 {
        assert u in a + b;
      }
    }
  }

  lemma FewInsideOne(t: Term)
    requires t.Function?
    ensures FewInside({t}) <==> |InnerFunctions(t.body)| <= 256
  {
    hide InnerFunctions;
    assert t in {t};
  }

  lemma {:induction false} ChildTablesExactly(t: Term)
    ensures ChildTablesFit(t) <==> FewInside(Nested(t))
    decreases t
  {
    hide FewInside;
    match t
    case Function(_, b, _) =>
      ChildTablesExactly(b);
      FewInsideOne(t);
      FewInsideJoin({t}, Nested(b));
    case Call(f, args, _) =>
      ChildTablesExactly(f);
      ChildTablesAllExactly(args);
      FewInsideJoin(Nested(f), NestedAll(args));
    case Binary(l, _, r, _) =>
      ChildTablesExactly(l);
      ChildTablesExactly(r);
      FewInsideJoin(Nested(l), Nested(r));
    case Unary(_, e, _) => ChildTablesExactly(e);
    case Pair(l, r, _) =>
      ChildTablesExactly(l);
      ChildTablesExactly(r);
      FewInsideJoin(Nested(l), Nested(r));
    case Let(_, v, n, _) =>
      ChildTablesExactly(v);
      ChildTablesExactly(n);
      FewInsideJoin(Nested(v), Nested(n));
    case If(c, a, b, _) =>
      ChildTablesExactly(c);
      ChildTablesExactly(a);
      ChildTablesExactly(b);
      FewInsideJoin(Nested(c), Nested(a));
      FewInsideJoin(Nested(c) + Nested(a), Nested(b));
    case _ => assert FewInside({}) by { NothingInside(); }
  }

  lemma NothingInside()
    ensures FewInside({})
  {
  }

  lemma {:induction false} ChildTablesAllExactly(ts: seq<Term>)
    ensures ChildTablesFitAll(ts) <==> FewInside(NestedAll(ts))
    decreases ts
  {
    hide FewInside, ChildTablesFit, Nested;
    if ts == [] {
      NothingInside();
    } else {
      ChildTablesExactly(ts[0]);
      ChildTablesAllExactly(ts[1..]);
      FewInsideJoin(Nested(ts[0]), NestedAll(ts[1..]));
    }
  }

  /** A program is supported exactly when it is closed, every part of its trunk is as it should be, and the
      program and each function in it have at most 256 functions directly inside. */
  lemma SupportedExactly(program: Term)
    ensures Supported(program) <==>
      && FreeVars(program) == {} && (forall u | u in Trunk(program) :: TrunkPart(u))
      && |InnerFunctions(program)| <= 256
      && (forall u | u in Nested(program) :: u.Function? ==> |InnerFunctions(u.body)| <= 256)
  {
    hide Spine, FreeVars, InnerFunctions, ChildTablesFit, TrunkPart;
    SpineExactly(program);
    ChildTablesExactly(program);
  }
}
