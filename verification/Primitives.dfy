/** What the operators compute, told apart from how: laws of the primitive operations that both the
    reference evaluator and the machine use. */
module Primitives {
  import opened Values
  import opened Ordering

  /** The type of a value, as the errors name it. */
  predicate HasType(v: Value, t: Type) {
    match t
    case BoolType => v.BoolValue?
    case IntType => v.IntValue?
    case StrType => v.StrValue?
    case TupleType => v.TupleValue?
    case ClosureType => v.ClosureValue?
  }

  // ----- integers -----

  function Abs(n: int): nat {
    if n < 0 then -n else n
  }

  /** The pair that section 6.5.5 of ISO/IEC 9899:2011 asks for: the quotient with the fraction
      discarded, and the remainder that goes with it. */
  predicate Truncated(a: int, b: int, q: int, r: int) {
    b != 0 && a == b * q + r && Abs(r) < Abs(b) && (a >= 0 ==> r >= 0) && (a <= 0 ==> r <= 0)
  }

  lemma MultipleAbove(b: int, d: int)
    requires d != 0
    ensures Abs(b * d) >= Abs(b)
  {
    if d > 0 {
      if b > 0 { assert b * d >= b; } else { assert b * d <= b; }
    } else {
      if b > 0 { assert b * d <= -b; } else { assert b * d >= -b; }
    }
  }

  /** There is only one such pair. */
  lemma TruncatedUnique(a: int, b: int, q: int, r: int, q': int, r': int)
    requires Truncated(a, b, q, r) && Truncated(a, b, q', r')
    ensures q == q' && r == r'
  {
    assert b * (q - q') == r' - r;
    if q != q' {
      MultipleAbove(b, q - q');
    }
  }

  lemma TruncatedIs(a: int, b: int)
    requires b != 0
    ensures Truncated(a, b, TruncDiv(a, b), a - b * TruncDiv(a, b))
  {
    if a >= 0 {
      assert a == b * (a / b) + a % b;
    } else {
      assert -a == b * ((-a) / b) + (-a) % b;
    }
  }

  /** On 32-bit integers division and remainder give the truncated pair; they are undefined exactly for a
      zero divisor and for the one quotient that does not fit. */
  lemma DivisionLaw(a: int, b: int, q: int, r: int)
    requires -2147483648 <= a <= 2147483647 && -2147483648 <= b <= 2147483647
    ensures BinaryOp(Div, IntValue(a), IntValue(b)) == Done(IntValue(q)) <==>
      -2147483648 <= q <= 2147483647 && exists r' :: Truncated(a, b, q, r')
    ensures BinaryOp(Rem, IntValue(a), IntValue(b)) == Done(IntValue(r)) <==>
      exists q' :: -2147483648 <= q' <= 2147483647 && Truncated(a, b, q', r)
    ensures BinaryOp(Div, IntValue(a), IntValue(b)) == Undefined <==> b == 0 || (a == -2147483648 && b == -1)
    ensures BinaryOp(Rem, IntValue(a), IntValue(b)) == Undefined <==> b == 0 || (a == -2147483648 && b == -1)
  {
    DivisionParts(a, b);
    if b != 0 {
      TruncatedIs(a, b);
      var q0, r0 := TruncDiv(a, b), a - b * TruncDiv(a, b);
      hide TruncDiv, Truncated;
      forall q', r' | Truncated(a, b, q', r') ensures q' == q0 && r' == r0 {
        TruncatedUnique(a, b, q', r', q0, r0);
      }
    }
  }

  lemma DivisionParts(a: int, b: int)
    requires IsInt32(a) && IsInt32(b)
    ensures b == 0 ==> forall q, r :: !Truncated(a, b, q, r)
    ensures BinaryOp(Div, IntValue(a), IntValue(b)) ==
      if b == 0 || (a == INT_MIN && b == -1) then Undefined else Done(IntValue(TruncDiv(a, b)))
    ensures BinaryOp(Rem, IntValue(a), IntValue(b)) ==
      if b == 0 || (a == INT_MIN && b == -1) then Undefined else Done(IntValue(a - b * TruncDiv(a, b)))
    ensures b != 0 ==> (IsInt32(TruncDiv(a, b)) <==> !(a == INT_MIN && b == -1))
  {
    if b != 0 {
      QuotientFits(a, b);
      hide TruncDiv;
    }
  }

  lemma QuotientFits(a: int, b: int)
    requires IsInt32(a) && IsInt32(b) && b != 0
    ensures IsInt32(TruncDiv(a, b)) <==> !(a == INT_MIN && b == -1)
    ensures IsInt32(a - b * TruncDiv(a, b))
  {
    TruncatedIs(a, b);
    var q, r := TruncDiv(a, b), a - b * TruncDiv(a, b);
    hide TruncDiv;
    if b == 1 || b == -1 {
      assert r == 0 && a == b * q;
    } else {
      HalfSize(b, q);
    }
  }

  /** A factor of at least two in size at least doubles. */
  lemma HalfSize(b: int, q: int)
    requires Abs(b) >= 2
    ensures Abs(b * q) >= 2 * Abs(q)
  {
    if q >= 0 {
      if b > 0 { assert b * q >= 2 * q; } else { assert b * q <= -2 * q; }
    } else {
      if b > 0 { assert b * q <= 2 * q; } else { assert b * q >= -2 * q; }
    }
  }

  /** Sum, difference and product are the exact ones, undefined exactly when those do not fit in 32 bits. */
  lemma ExactOrUndefined(a: int, b: int, c: int)
    ensures BinaryOp(Add, IntValue(a), IntValue(b)) == Done(IntValue(c)) <==>
      c - b == a && -2147483648 <= c <= 2147483647
    ensures BinaryOp(Sub, IntValue(a), IntValue(b)) == Done(IntValue(c)) <==>
      c + b == a && -2147483648 <= c <= 2147483647
    ensures BinaryOp(Mul, IntValue(a), IntValue(b)) == Done(IntValue(c)) <==>
      c == a * b && -2147483648 <= c <= 2147483647
    ensures BinaryOp(Add, IntValue(a), IntValue(b)) == Undefined <==> !(-2147483648 <= a + b <= 2147483647)
    ensures BinaryOp(Sub, IntValue(a), IntValue(b)) == Undefined <==> !(-2147483648 <= a - b <= 2147483647)
    ensures BinaryOp(Mul, IntValue(a), IntValue(b)) == Undefined <==> !(-2147483648 <= a * b <= 2147483647)
  {
  }

  /** Arithmetic is an error exactly when an operand is no integer, but for `+` next to a string, and the
      error names the types of both operands in their order. */
  lemma OperandErrors(op: BinOp, v: Value, w: Value, t: Type, u: Type)
    requires op in {Add, Sub, Mul, Div, Rem} && !(op.Add? && (v.StrValue? || w.StrValue?))
    ensures BinaryOp(op, v, w).Bad? <==> !v.IntValue? || !w.IntValue?
    ensures BinaryOp(op, v, w) == Bad(BadOperands(op, t, u)) <==>
      (!v.IntValue? || !w.IntValue?) && HasType(v, t) && HasType(w, u)
    ensures BinaryOp(op, v, w).Done? ==> BinaryOp(op, v, w).result.IntValue?
  {
    hide TruncDiv;
  }

  // ----- strings -----

  /** The number that a written integer denotes. */
  function Denotes(s: string): int {
    if s != [] && s[0] == '-' then -DigitSum(s[1..]) else DigitSum(s)
  }

  function DigitSum(s: string): int {
    if s == [] then 0 else 10 * DigitSum(s[..|s| - 1]) + (s[|s| - 1] as int - '0' as int)
  }

  lemma {:induction false} DigitsDenote(n: nat)
    ensures DigitSum(NatToString(n)) == n && NatToString(n) != [] && NatToString(n)[0] != '-'
    decreases n
  {
    if n >= 10 {
      DigitsDenote(n / 10);
      var s := NatToString(n);
      assert s[..|s| - 1] == NatToString(n / 10) && s[0] == NatToString(n / 10)[0];
    } else {
      assert NatToString(n)[..0] == [];
    }
  }

  /** An integer is written so that it can be read back, so different integers are written
      differently. */
  lemma WrittenBack(i: int)
    ensures Denotes(IntToString(i)) == i
  {
    if i < 0 {
      DigitsDenote(-i);
      assert ("-" + NatToString(-i))[1..] == NatToString(-i);
    } else {
      DigitsDenote(i);
    }
  }

  /** s is i in decimal: digits without a needless zero in front, and a minus when i is negative. */
  predicate Decimal(s: string, i: int) {
    var digits := if s != [] && s[0] == '-' then s[1..] else s;
    && Denotes(s) == i && digits != [] && (forall c | c in digits :: '0' <= c <= '9')
    && (digits[0] == '0' ==> s == "0")
  }

  /** Digits without a needless zero are what their number is written as. */
  lemma {:induction false} DigitsWritten(s: string)
    requires s != [] && (forall c | c in s :: '0' <= c <= '9') && (s[0] == '0' ==> |s| == 1)
    ensures DigitSum(s) >= 0 && s == NatToString(DigitSum(s))
    ensures s[0] != '0' ==> DigitSum(s) > 0
    decreases |s|
  {
    var n := |s| - 1;
    var init, last := s[..n], s[n];
    assert s == init + [last] && last in s;
    var d := last as int - '0' as int;
    SumStep(s);
    hide DigitSum, NatToString;
    if n == 0 {
      OneDigit(d);
      assert init == [] && s == [last];
    } else {
      forall c | c in init ensures '0' <= c <= '9' {
        assert c in s;
      }
      DigitsWritten(init);
      WrittenStep(DigitSum(init), d);
    }
  }

  lemma SumStep(s: string)
    requires s != []
    ensures DigitSum(s) == 10 * DigitSum(s[..|s| - 1]) + (s[|s| - 1] as int - '0' as int) && DigitSum([]) == 0
  {
  }

  lemma OneDigit(d: nat)
    requires d < 10
    ensures NatToString(d) == [Digit(d)] && Digit(d) as int - '0' as int == d
  {
  }

  lemma WrittenStep(v: nat, d: nat)
    requires v > 0 && d < 10
    ensures NatToString(10 * v + d) == NatToString(v) + [Digit(d)]
  {
    assert (10 * v + d) / 10 == v && (10 * v + d) % 10 == d;
  }

  lemma {:induction false} WrittenDigits(n: nat)
    ensures var s := NatToString(n);
      (forall c | c in s :: '0' <= c <= '9') && s != [] && (s[0] == '0' ==> n == 0) && (n == 0 ==> s == "0")
    decreases n
  {
    if n >= 10 {
      WrittenDigits(n / 10);
    }
  }

  /** An integer is written in decimal, and in no other way. */
  lemma DecimalExactly(s: string, i: int)
    ensures Decimal(s, i) <==> s == IntToString(i)
  {
    hide DigitSum, NatToString;
    WrittenBack(i);
    if i < 0 {
      WrittenDigits(-i);
      assert ("-" + NatToString(-i))[1..] == NatToString(-i);
    } else {
      WrittenDigits(i);
      DigitsDenote(i);
    }
    if Decimal(s, i) {
      var digits := if s[0] == '-' then s[1..] else s;
      DigitsWritten(digits);
      assert s[0] == '-' ==> s == "-" + digits;
    }
  }

  /** What a value becomes next to a string: a string itself, a boolean `true` or `false`, an integer its
      decimal digits. */
  predicate JoinedAs(v: Value, t: string) {
    match v
    case StrValue(s) => t == s
    case BoolValue(b) => t == if b then "true" else "false"
    case IntValue(i) => Decimal(t, i)
    case _ => false
  }

  lemma JoinedExactly(v: Value, t: string)
    ensures ToStr(v) == Done(t) <==> JoinedAs(v, t)
  {
    if v.IntValue? {
      DecimalExactly(t, v.asInt);
    }
    hide IntToString, Decimal;
  }

  /** `+` with a string on one side joins the two texts in their order, and is an error, which names the
      type, exactly for a tuple or a closure on the other side. */
  lemma JoinsExactly(s: string, v: Value, r: Value, e: Error)
    ensures BinaryOp(Add, StrValue(s), v) == Done(r) <==> exists t :: JoinedAs(v, t) && r == StrValue(s + t)
    ensures BinaryOp(Add, v, StrValue(s)) == Done(r) <==> exists t :: JoinedAs(v, t) && r == StrValue(t + s)
    ensures BinaryOp(Add, StrValue(s), v) == Bad(e) <==> BinaryOp(Add, v, StrValue(s)) == Bad(e)
    ensures BinaryOp(Add, StrValue(s), v) == Bad(e) <==>
      (v.TupleValue? && e == CannotConvert(TupleType)) || (v.ClosureValue? && e == CannotConvert(ClosureType))
    ensures BinaryOp(Add, StrValue(s), v) != Undefined && BinaryOp(Add, v, StrValue(s)) != Undefined
  {
    hide IntToString, JoinedAs;
    forall t ensures ToStr(v) == Done(t) <==> JoinedAs(v, t) {
      JoinedExactly(v, t);
    }
  }

  /** A boolean joins as its keyword, an integer as its decimal digits. */
  lemma TextsJoin(s: string, i: int, t: string)
    ensures BinaryOp(Add, StrValue(s), BoolValue(true)) == Done(StrValue(s + "true"))
    ensures BinaryOp(Add, StrValue(s), BoolValue(false)) == Done(StrValue(s + "false"))
    ensures BinaryOp(Add, BoolValue(true), StrValue(s)) == Done(StrValue("true" + s))
    ensures BinaryOp(Add, BoolValue(false), StrValue(s)) == Done(StrValue("false" + s))
    ensures BinaryOp(Add, StrValue(s), StrValue(t)) == Done(StrValue(s + t))
    ensures BinaryOp(Add, StrValue(s), IntValue(i)) == Done(StrValue(s + t)) <==> Decimal(t, i)
    ensures BinaryOp(Add, IntValue(i), StrValue(s)) == Done(StrValue(t + s)) <==> Decimal(t, i)
  {
    hide IntToString, Decimal;
    DecimalExactly(t, i);
    if s + IntToString(i) == s + t {
      assert (s + IntToString(i))[|s|..] == IntToString(i) && (s + t)[|s|..] == t;
    }
    if IntToString(i) + s == t + s {
      TailCancels(IntToString(i), t, s);
    }
  }

  /** `+` may be grouped either way when the operand in the middle is a string, or the two outer ones are. */
  lemma StringsAssociate(v: Value, w: Value, u: Value, s: string, t: string, r: string)
    requires JoinedAs(v, s) && JoinedAs(w, t) && JoinedAs(u, r)
    requires w.StrValue? || (v.StrValue? && u.StrValue?)
    ensures var x, y := BinaryOp(Add, v, w), BinaryOp(Add, w, u);
      x.Done? && y.Done? && BinaryOp(Add, x.result, u) == BinaryOp(Add, v, y.result) == Done(StrValue(s + t + r))
  {
    hide IntToString;
    JoinedExactly(v, s);
    JoinedExactly(w, t);
    JoinedExactly(u, r);
    hide JoinedAs;
    assert s + (t + r) == s + t + r;
  }

  function PowerOfTen(k: nat): nat {
    if k == 0 then 1 else 10 * PowerOfTen(k - 1)
  }

  lemma {:induction false} DigitSumJoin(a: string, b: string)
    ensures DigitSum(a + b) == DigitSum(a) * PowerOfTen(|b|) + DigitSum(b)
    decreases |b|
  {
    if b == [] {
      assert a + b == a;
    } else {
      var init, n := b[..|b| - 1], |b| - 1;
      DigitSumJoin(a, init);
      assert (a + b)[..|a + b| - 1] == a + init;
      TimesTen(DigitSum(a), PowerOfTen(n), DigitSum(init));
    }
  }

  lemma TimesTen(x: int, p: int, y: int)
    ensures 10 * (x * p + y) == x * (10 * p) + 10 * y
  {
  }

  /** Two natural numbers side by side are never the number that is their sum. */
  lemma NotTheSum(a: nat, b: nat)
    ensures NatToString(a + b) != NatToString(a) + NatToString(b)
  {
    hide DigitSum, NatToString, PowerOfTen;
    var wa, wb := NatToString(a), NatToString(b);
    DigitsDenote(a);
    DigitsDenote(b);
    DigitsDenote(a + b);
    DigitSumJoin(wa, wb);
    Tens(|wb|);
    if a == 0 {
      assert |wa + wb| > |wb|;
    } else {
      TimesMore(a, PowerOfTen(|wb|), b);
    }
  }

  lemma TailCancels(a: string, b: string, s: string)
    requires a + s == b + s
    ensures a == b
  {
    assert |a| == |b| && (a + s)[..|a|] == a && (b + s)[..|b|] == b;
  }

  /** Otherwise the grouping matters: a + b + s, for natural numbers a and b and a string s, depends on it. */
  lemma GroupingMatters(a: nat, b: nat, s: string)
    requires a + b <= 2147483647
    ensures var x, y := BinaryOp(Add, IntValue(a), IntValue(b)), BinaryOp(Add, IntValue(b), StrValue(s));
      x.Done? && y.Done? && BinaryOp(Add, x.result, StrValue(s)) != BinaryOp(Add, IntValue(a), y.result)
  {
    hide NatToString;
    NotTheSum(a, b);
    assert NatToString(a) + (NatToString(b) + s) == (NatToString(a) + NatToString(b)) + s;
    if NatToString(a + b) + s == (NatToString(a) + NatToString(b)) + s {
      TailCancels(NatToString(a + b), NatToString(a) + NatToString(b), s);
    }
  }

  lemma {:induction false} Tens(k: nat)
    ensures k > 0 ==> PowerOfTen(k) >= 10
    decreases k
  {
    if k > 1 {
      Tens(k - 1);
    }
  }

  lemma TimesMore(a: nat, p: nat, b: nat)
    requires a > 0 && p >= 10
    ensures a * p + b > a + b
  {
  }

  // ----- order -----

  /** On integers `<` is the order of the integers, undefined exactly when the difference does not fit in
      32 bits; on booleans `false` comes first. */
  lemma IntegerOrder(a: int, b: int, p: bool, q: bool)
    ensures BinaryOp(Lt, IntValue(a), IntValue(b)) ==
      if -2147483648 <= a - b <= 2147483647 then Done(BoolValue(a < b)) else Undefined
    ensures BinaryOp(Lt, BoolValue(p), BoolValue(q)) == Done(BoolValue(!p && q))
  {
  }

  /** The comparisons are errors exactly for two tuples, two closures or values of different types. */
  lemma CompareErrors(op: BinOp, v: Value, w: Value, t: Type, u: Type)
    requires op in {Lt, Gt, Lte, Gte}
    ensures BinaryOp(op, v, w) == Bad(NotComparable(t)) <==>
      (t.TupleType? || t.ClosureType?) && HasType(v, t) && HasType(w, t)
    ensures BinaryOp(op, v, w) == Bad(CannotCompare(t, u)) <==> t != u && HasType(v, t) && HasType(w, u)
    ensures BinaryOp(op, v, w).Bad? ==>
      BinaryOp(op, v, w).error.NotComparable? || BinaryOp(op, v, w).error.CannotCompare?
    ensures BinaryOp(op, v, w).Done? ==> BinaryOp(op, v, w).result.BoolValue?
  {
    hide StrCompare;
  }

  /** A string comes before its extensions and before what has a larger character at the first difference. */

  lemma {:induction false} StringOrder(p: string, s: string, t: string)
    requires NulFree(p) && (s == [] ==> t != []) && (s != [] && t != [] ==> s[0] != t[0])
    ensures Holds(Lt, StrValue(p + s), StrValue(p + t)) <==> s == [] || (t != [] && s[0] < t[0])
    decreases p
  {
    var a, b := p + s, p + t;
    CompareHeads(a, b);
    if p == [] {
      assert a == s && b == t;
    } else {
      assert p[0] in p && forall c | c in p[1..] :: c in p;
      assert a[1..] == p[1..] + s && b[1..] == p[1..] + t;
      StringOrder(p[1..], s, t);
    }
  }

  /** Behind a NUL at the same place in both, only the lengths count. */
  lemma {:induction false} StringOrderNul(p: string, s: string, t: string)
    requires NulFree(p)
    ensures Holds(Lt, StrValue(p + ['\0'] + s), StrValue(p + ['\0'] + t)) <==> |s| < |t|
    decreases p
  {
    var a, b := p + ['\0'] + s, p + ['\0'] + t;
    CompareHeads(a, b);
    if p != [] {
      assert p[0] in p && forall c | c in p[1..] :: c in p;
      assert a[1..] == p[1..] + ['\0'] + s && b[1..] == p[1..] + ['\0'] + t;
      StringOrderNul(p[1..], s, t);
    }
  }
}
