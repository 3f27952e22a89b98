/** Runtime values and the primitive operations on them (src/value.c, src/str.c, src/tuple.c and the
    operator instructions of src/vm.c).

    A tuple is immutable and compares by structure, so it is a value; a closure compares by identity
    and may contain itself, so it is an address into a heap of closures. */
module Values {

  datatype Type = BoolType | IntType | StrType | TupleType | ClosureType

  datatype Value =
    | BoolValue(asBool: bool)
    | IntValue(asInt: int)
    | StrValue(asStr: string)
    | TupleValue(first: Value, second: Value)
    | ClosureValue(address: nat)

  datatype BinOp = Add | Sub | Mul | Div | Rem | Eq | Neq | Lt | Gt | Lte | Gte | And | Or

  /** The runtime errors, as tags. */
  datatype Error =
    | BadOperands(op: BinOp, left: Type, right: Type)
    | CannotConvert(from: Type)
    | CannotCompare(left: Type, right: Type)
    | NotComparable(t: Type)
    | NoFirst(of: Type)
    | NoSecond(of: Type)
    | CannotCall(callee: Type)
    | WrongArity(expected: nat, got: nat)
    | StackOverflow
    | TooManyNestedCalls

  /** What a run does that can be observed: it prints a value, or it reads the value of a variable. */
  datatype Event = Printed(value: Value) | Loaded(value: Value)

  /** The printed values of a trace. */
  function Output(trace: seq<Event>): seq<Value> {
    if trace == [] then []
    else
      var e := trace[|trace| - 1];
      Output(trace[..|trace| - 1]) + if e.Printed? then [e.value] else []
  }

  /** The values read from variables, in order. */
  function Loads(trace: seq<Event>): seq<Value> {
    if trace == [] then []
    else
      var e := trace[|trace| - 1];
      Loads(trace[..|trace| - 1]) + if e.Loaded? then [e.value] else []
  }

  lemma OutputOfLoaded(trace: seq<Event>, v: Value)
    ensures Output(trace + [Loaded(v)]) == Output(trace)
  {
    assert (trace + [Loaded(v)])[..|trace|] == trace;
  }

  lemma OutputOfPrinted(trace: seq<Event>, v: Value)
    ensures Output(trace + [Printed(v)]) == Output(trace) + [v]
  {
    assert (trace + [Printed(v)])[..|trace|] == trace;
  }

  /** What a primitive does: a result, an error report, or behaviour that C leaves undefined. */
  datatype Prim<+T> = Done(result: T) | Bad(error: Error) | Undefined

  const INT_MAX: int := 0x7fff_ffff
  const INT_MIN: int := -0x8000_0000

  predicate IsInt32(n: int) {
    INT_MIN <= n <= INT_MAX
  }

  function TypeOf(v: Value): Type {
    match v
    case BoolValue(_) => BoolType
    case IntValue(_) => IntType
    case StrValue(_) => StrType
    case TupleValue(_, _) => TupleType
    case ClosureValue(_) => ClosureType
  }

  predicate IsFalsy(v: Value) {
    v == BoolValue(false)
  }

  // ----- strings -----

  /** strncmp over the first n characters of two buffers: it stops at a difference and at a NUL. */
  function StrNCmp(a: string, b: string, n: nat): int
    requires n <= |a| && n <= |b|
  {
    if n == 0 then 0
    else if a[0] != b[0] then a[0] as int - b[0] as int
    else if a[0] == '\0' then 0
    else StrNCmp(a[1..], b[1..], n - 1)
  }

  predicate StrEqual(a: string, b: string) {
    |a| == |b| && StrNCmp(a, b, |a|) == 0
  }

  function StrCompare(a: string, b: string): int {
    var min := if |a| < |b| then |a| else |b|;
    var cmp := StrNCmp(a, b, min);
    if cmp != 0 then cmp else |a| - |b|
  }

  function Digit(d: nat): char
    requires d < 10
  {
    '0' + d as char
  }

  /** The decimal digits of n, without leading zeros. */
  function NatToString(n: nat): string {
    if n < 10 then [Digit(n)] else NatToString(n / 10) + [Digit(n % 10)]
  }

  function IntToString(i: int): string {
    if i < 0 then "-" + NatToString(-i) else NatToString(i)
  }

  /** The conversion used by `+` when one operand is a string. */
  function ToStr(v: Value): Prim<string> {
    match v
    case StrValue(s) => Done(s)
    case BoolValue(b) => Done(if b then "true" else "false")
    case IntValue(i) => Done(IntToString(i))
    case _ => Bad(CannotConvert(TypeOf(v)))
  }

  // ----- integers -----

  function Int32(n: int): Prim<Value> {
    if IsInt32(n) then Done(IntValue(n)) else Undefined
  }

  /** Division truncated toward zero (section 6.5.5 of ISO/IEC 9899:2011). */
  function TruncDiv(a: int, b: int): int
    requires b != 0
  {
    if a >= 0 then a / b else -((-a) / b)
  }

  function Divide(a: int, b: int): Prim<Value> {
    if b == 0 then Undefined else Int32(TruncDiv(a, b))
  }

  function Remainder(a: int, b: int): Prim<Value> {
    if b == 0 || !IsInt32(TruncDiv(a, b)) then Undefined else Int32(a - b * TruncDiv(a, b))
  }

  // ----- comparison -----

  predicate ValueEqual(v: Value, w: Value) {
    match (v, w)
    case (BoolValue(a), BoolValue(b)) => a == b
    case (IntValue(a), IntValue(b)) => a == b
    case (StrValue(a), StrValue(b)) => StrEqual(a, b)
    case (TupleValue(a, b), TupleValue(c, d)) => ValueEqual(a, c) && ValueEqual(b, d)
    case (ClosureValue(a), ClosureValue(b)) => a == b
    case _ => false
  }

  function BoolToInt(b: bool): int {
    if b then 1 else 0
  }

  function ValueCompare(v: Value, w: Value): Prim<int> {
    match (v, w)
    case (BoolValue(a), BoolValue(b)) => Done(BoolToInt(a) - BoolToInt(b))
    case (IntValue(a), IntValue(b)) => if IsInt32(a - b) then Done(a - b) else Undefined
    case (StrValue(a), StrValue(b)) => Done(StrCompare(a, b))
    case _ =>
      if TypeOf(v) == TypeOf(w) then Bad(NotComparable(TypeOf(v)))
      else Bad(CannotCompare(TypeOf(v), TypeOf(w)))
  }

  function Compared(op: BinOp, cmp: int): bool {
    match op
    case Lt => cmp < 0
    case Gt => cmp > 0
    case Lte => cmp <= 0
    case Gte => cmp >= 0
    case _ => false
  }

  // ----- operators -----

  function AddValues(v: Value, w: Value): Prim<Value> {
    if v.StrValue? then
      match ToStr(w)
      case Done(s) => Done(StrValue(v.asStr + s))
      case Bad(e) => Bad(e)
      case Undefined => Undefined
    else if w.StrValue? then
      match ToStr(v)
      case Done(s) => Done(StrValue(s + w.asStr))
      case Bad(e) => Bad(e)
      case Undefined => Undefined
    else if v.IntValue? && w.IntValue? then Int32(v.asInt + w.asInt)
    else Bad(BadOperands(Add, TypeOf(v), TypeOf(w)))
  }

  function Arithmetic(op: BinOp, a: int, b: int): Prim<Value> {
    match op
    case Sub => Int32(a - b)
    case Mul => Int32(a * b)
    case Div => Divide(a, b)
    case Rem => Remainder(a, b)
    case _ => Undefined
  }

  /** What the instruction of a binary operator computes from its two operands. `And` and `Or` are
      strict: both operands have been evaluated. */
  function BinaryOp(op: BinOp, v: Value, w: Value): Prim<Value> {
    match op
    case Add => AddValues(v, w)
    case Eq => Done(BoolValue(ValueEqual(v, w)))
    case Neq => Done(BoolValue(!ValueEqual(v, w)))
    case And => Done(BoolValue(!(IsFalsy(v) || IsFalsy(w))))
    case Or => Done(BoolValue(!(IsFalsy(v) && IsFalsy(w))))
    case Sub | Mul | Div | Rem =>
      if v.IntValue? && w.IntValue? then Arithmetic(op, v.asInt, w.asInt)
      else Bad(BadOperands(op, TypeOf(v), TypeOf(w)))
    case Lt | Gt | Lte | Gte =>
      match ValueCompare(v, w)
      case Done(cmp) => Done(BoolValue(Compared(op, cmp)))
      case Bad(e) => Bad(e)
      case Undefined => Undefined
  }
}
