/** Equality and order of values: equality is an equivalence, comparison of strings is a total order,
    and the comparison instructions agree with each other and with equality. */
module Ordering {
  import opened Values

  predicate NulFree(s: string) {
    forall c | c in s :: c != '\0'
  }

  // ----- strings -----

  /** One character decides, unless both are equal and not NUL. */
  lemma CompareHeads(a: string, b: string)
    ensures StrCompare(a, b) ==
      if a == [] || b == [] then |a| - |b|
      else if a[0] != b[0] then a[0] as int - b[0] as int
      else if a[0] == '\0' then |a| - |b|
      else StrCompare(a[1..], b[1..])
  {
  }

  /** Swapping the operands changes the sign. */
  lemma {:induction false} CompareSwapped(a: string, b: string)
    ensures StrCompare(b, a) == -StrCompare(a, b)
    decreases |a|
  {
    CompareHeads(a, b);
    CompareHeads(b, a);
    if a != [] && b != [] {
      hide StrCompare;
      CompareSwapped(a[1..], b[1..]);
    }
  }

  lemma {:induction false} CompareTransitive(a: string, b: string, c: string)
    requires StrCompare(a, b) <= 0 && StrCompare(b, c) <= 0
    ensures StrCompare(a, c) <= 0
    decreases |a|
  {
    CompareHeads(a, b);
    CompareHeads(b, c);
    CompareHeads(a, c);
    hide StrCompare;
    if a != [] && b != [] && c != [] && a[0] == b[0] == c[0] && a[0] != '\0' {
      CompareTransitive(a[1..], b[1..], c[1..]);
    }
  }

  /** The comparison is zero exactly when str_equal holds. */
  lemma {:induction false} CompareZero(a: string, b: string)
    ensures StrCompare(a, b) == 0 <==> StrEqual(a, b)
    decreases |a|
  {
  }

  /** str_equal is equality when no NUL has a character behind it in a. */
  lemma {:induction false} EqualIsEquality(a: string, b: string)
    requires a == [] || NulFree(a[..|a| - 1])
    ensures StrEqual(a, b) <==> a == b
    decreases |a|
  {
    if |a| == |b| && |a| > 1 {
      assert a == [a[0]] + a[1..] && b == [b[0]] + b[1..];
      assert a[0] in a[..|a| - 1];
      var front := a[1..][..|a| - 2];
      assert front == a[..|a| - 1][1..];
      forall c | c in front ensures c != '\0' {
        assert c in a[..|a| - 1];
      }
      EqualIsEquality(a[1..], b[1..]);
    } else if |a| == |b| == 1 {
      assert a == [a[0]] && b == [b[0]];
      assert StrNCmp(a[1..], b[1..], 0) == 0;
      assert StrNCmp(a, b, 1) == 0 <==> a[0] == b[0];
    }
  }

  /** After a NUL the strings are not compared. */
  lemma {:induction false} NulHides(a: string, b: string, i: nat)
    requires i < |a| == |b| && a[i] == '\0' && a[..i + 1] == b[..i + 1]
    ensures StrEqual(a, b)
    decreases |a|
  {
    assert a[0] == a[..i + 1][0] == b[..i + 1][0] == b[0];
    if a[0] != '\0' {
      assert a[1..][..i] == a[..i + 1][1..] && b[1..][..i] == b[..i + 1][1..];
      NulHides(a[1..], b[1..], i - 1);
    }
  }

  /** str_equal tells a from every other string exactly when no NUL in a has a character behind it. */
  lemma EqualExactly(a: string)
    ensures (forall b :: StrEqual(a, b) <==> a == b) <==> (a == [] || NulFree(a[..|a| - 1]))
  {
    if a == [] || NulFree(a[..|a| - 1]) {
      forall b ensures StrEqual(a, b) <==> a == b {
        EqualIsEquality(a, b);
      }
    } else {
      var i :| 0 <= i < |a| - 1 && a[i] == '\0';
      var last := |a| - 1;
      var b := a[last := if a[last] == 'x' then 'y' else 'x'];
      assert b[last] != a[last];
      NulHides(a, b, i);
      assert StrEqual(a, b) && a != b;
    }
  }

  // ----- values -----

  lemma StrEqualIsEquivalence(a: string, b: string, c: string)
    ensures StrEqual(a, a)
    ensures StrEqual(a, b) <==> StrEqual(b, a)
    ensures StrEqual(a, b) && StrEqual(b, c) ==> StrEqual(a, c)
  {
    CompareSwapped(a, a);
    CompareZero(a, a);
    CompareSwapped(a, b);
    CompareZero(a, b);
    CompareZero(b, a);
    CompareZero(b, c);
    CompareZero(a, c);
    CompareSwapped(b, c);
    CompareSwapped(a, c);
    hide StrCompare, StrEqual;
    if StrEqual(a, b) && StrEqual(b, c) {
      CompareTransitive(a, b, c);
      CompareTransitive(c, b, a);
      CompareSwapped(c, a);
    }
  }

  /** value_equal is an equivalence. It ends on every value, although closures may contain themselves,
      because it compares closures by address. */
  lemma {:induction false} EqualIsEquivalence(u: Value, v: Value, w: Value)
    ensures ValueEqual(u, u)
    ensures ValueEqual(u, v) <==> ValueEqual(v, u)
    ensures ValueEqual(u, v) && ValueEqual(v, w) ==> ValueEqual(u, w)
    decreases u
  {
    hide StrEqual;
    match u
    case StrValue(a) =>
      StrEqualIsEquivalence(a, if v.StrValue? then v.asStr else a, if w.StrValue? then w.asStr else a);
    case TupleValue(a, b) =>
      var v', w' := if v.TupleValue? then v else u, if w.TupleValue? then w else u;
      EqualIsEquivalence(a, v'.first, w'.first);
      EqualIsEquivalence(b, v'.second, w'.second);
    case _ =>
  }

  /** Every string in v has a NUL at its end at most. */
  predicate NulAtEnd(v: Value) {
    match v
    case StrValue(s) => s == [] || NulFree(s[..|s| - 1])
    case TupleValue(a, b) => NulAtEnd(a) && NulAtEnd(b)
    case _ => true
  }

  lemma {:induction false} EqualSame(v: Value, w: Value)
    requires NulAtEnd(v)
    ensures ValueEqual(v, w) <==> v == w
    decreases v
  {
    hide StrEqual, NulFree;
    match (v, w)
    case (StrValue(s), StrValue(t)) => EqualIsEquality(s, t);
    case (TupleValue(a, b), TupleValue(c, d)) =>
      EqualSame(a, c);
      EqualSame(b, d);
    case _ =>
  }

  /** Another value that counts as equal to v. */
  lemma {:induction false} EqualTwin(v: Value) returns (w: Value)
    requires !NulAtEnd(v)
    ensures ValueEqual(v, w) && v != w
    decreases v
  {
    hide StrEqual;
    match v
    case StrValue(s) =>
      EqualExactly(s);
      EqualIsEquivalence(v, v, v);
      var t :| StrEqual(s, t) != (s == t);
      return StrValue(t);
    case TupleValue(a, b) =>
      EqualIsEquivalence(v, v, v);
      if !NulAtEnd(a) {
        var c := EqualTwin(a);
        return TupleValue(c, b);
      }
      var d := EqualTwin(b);
      return TupleValue(a, d);
  }

  /** `==` tells v from every other value of any type, and `!=` likewise, exactly when no NUL in a string
      of v has a character behind it; closures are the same when they are one object. */
  lemma SameExactly(v: Value)
    ensures NulAtEnd(v) <==> forall w ::
      BinaryOp(Eq, v, w) == Done(BoolValue(v == w)) && BinaryOp(Neq, v, w) == Done(BoolValue(v != w))
  {
    hide ValueEqual, NulAtEnd;
    if NulAtEnd(v) {
      forall w ensures ValueEqual(v, w) <==> v == w {
        EqualSame(v, w);
      }
    } else {
      var w := EqualTwin(v);
      assert BinaryOp(Eq, v, w) != Done(BoolValue(v == w));
    }
  }

  /** The string with everything behind its first NUL wiped out. */
  function Wiped(s: string): string {
    if s == [] then [] else if s[0] == '\0' then seq(|s|, _ => '\0') else [s[0]] + Wiped(s[1..])
  }

  /** The value with its strings wiped. */
  function Shown(v: Value): Value {
    match v
    case StrValue(s) => StrValue(Wiped(s))
    case TupleValue(a, b) => TupleValue(Shown(a), Shown(b))
    case _ => v
  }

  lemma {:induction false} WipedLength(s: string)
    ensures |Wiped(s)| == |s|
    decreases s
  {
    if s != [] {
      WipedLength(s[1..]);
    }
  }

  lemma {:induction false} WipedEqual(a: string, b: string)
    ensures StrEqual(a, b) <==> Wiped(a) == Wiped(b)
    decreases a
  {
    WipedLength(a);
    WipedLength(b);
    if |a| == |b| && a != [] {
      assert Wiped(a)[0] == a[0] && Wiped(b)[0] == b[0];
      if a[0] == b[0] && a[0] != '\0' {
        WipedEqual(a[1..], b[1..]);
        assert Wiped(a)[1..] == Wiped(a[1..]) && Wiped(b)[1..] == Wiped(b[1..]);
      }
    }
  }

  /** On all values: `==` compares type by type and part by part, strings up to their first NUL and by
      their length, closures by identity. */
  lemma {:induction false} EqualMeans(v: Value, w: Value)
    ensures BinaryOp(Eq, v, w) == Done(BoolValue(Shown(v) == Shown(w)))
    ensures BinaryOp(Neq, v, w) == Done(BoolValue(Shown(v) != Shown(w)))
    decreases v
  {
    hide StrEqual, Wiped;
    match (v, w)
    case (StrValue(s), StrValue(t)) => WipedEqual(s, t);
    case (TupleValue(a, b), TupleValue(c, d)) =>
      EqualMeans(a, c);
      EqualMeans(b, d);
    case _ =>
  }

  // ----- the comparison instructions -----

  /** The values that OP_LT, OP_GT, OP_LTE and OP_GTE compare without an error or an overflow. */
  predicate Comparable(v: Value, w: Value) {
    (v.BoolValue? && w.BoolValue?) || (v.StrValue? && w.StrValue?) ||
    (v.IntValue? && w.IntValue? && -2147483648 <= v.asInt - w.asInt <= 2147483647)
  }

  function Holds(op: BinOp, v: Value, w: Value): bool {
    BinaryOp(op, v, w) == Done(BoolValue(true))
  }

  lemma ComparableExactly(v: Value, w: Value)
    ensures ValueCompare(v, w).Done? <==> Comparable(v, w)
  {
    hide StrCompare;
  }

  lemma CompareAgrees(v: Value, w: Value)
    requires Comparable(v, w)
    ensures ValueCompare(v, w).Done?
    ensures ValueCompare(v, w).result == 0 <==> ValueEqual(v, w)
    ensures Comparable(w, v) ==> ValueCompare(w, v) == Done(-ValueCompare(v, w).result)
  {
    hide StrCompare, StrEqual;
    if v.StrValue? {
      CompareZero(v.asStr, w.asStr);
      CompareSwapped(v.asStr, w.asStr);
    }
  }

  /** Exactly one of `<`, `==`, `>` holds, `<=` and `>=` are what they should be, and each is the
      mirror image of another. */
  lemma Trichotomy(v: Value, w: Value)
    requires Comparable(v, w) && Comparable(w, v)
    ensures Holds(Eq, v, w) <==> !Holds(Lt, v, w) && !Holds(Gt, v, w)
    ensures !(Holds(Lt, v, w) && Holds(Gt, v, w))
    ensures Holds(Lte, v, w) <==> Holds(Lt, v, w) || Holds(Eq, v, w)
    ensures Holds(Gte, v, w) <==> Holds(Gt, v, w) || Holds(Eq, v, w)
    ensures Holds(Neq, v, w) <==> !Holds(Eq, v, w)
    ensures Holds(Lt, v, w) <==> Holds(Gt, w, v)
    ensures Holds(Lte, v, w) <==> Holds(Gte, w, v)
  {
    hide ValueCompare, ValueEqual;
    CompareAgrees(v, w);
  }

  /** `<=` is transitive on the values it compares. */
  lemma LteTransitive(u: Value, v: Value, w: Value)
    requires Comparable(u, v) && Comparable(v, w) && Comparable(u, w)
    requires Holds(Lte, u, v) && Holds(Lte, v, w)
    ensures Holds(Lte, u, w)
  {
    hide StrCompare;
    if u.StrValue? {
      CompareTransitive(u.asStr, v.asStr, w.asStr);
    }
  }
}
