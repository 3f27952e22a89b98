/** The two representations of a value in src/value.h: a 64-bit word with the type and the falsy flag
    in its low bits, or a struct. Everything else uses a value through the accessors alone, so the two
    are interchangeable when the accessors agree.

    A word is a signed 64-bit integer, written as the integer itself: its low bits are remainders, a
    shift to the left is a multiplication that wraps around and a shift to the right, which keeps the
    sign, is a division that rounds down. */
module Encodings {
  import opened Values

  const FLAG_FALSY := 1

  /** What the constructors are given. An address is the bits of a pointer as a signed integer. */
  datatype Source = FromBool(b: bool) | FromInt(i: int) | FromPointer(pointerType: Type, address: int)

  datatype Payload = AsBool(b: bool) | AsInt(i: int) | AsPointer(address: int)

  /** The struct form, and what the accessors read from either form. */
  datatype StructForm = StructForm(tag: Type, flags: int, payload: Payload)

  predicate IsInt64(n: int) {
    -0x8000_0000_0000_0000 <= n < 0x8000_0000_0000_0000
  }

  predicate Valid(s: Source) {
    match s
    case FromBool(_) => true
    case FromInt(i) => -2147483648 <= i <= 2147483647
    case FromPointer(t, address) => (t.StrType? || t.TupleType? || t.ClosureType?) && IsInt64(address)
  }

  function ToStruct(s: Source): StructForm {
    match s
    case FromBool(b) => StructForm(BoolType, if b then 0 else FLAG_FALSY, AsBool(b))
    case FromInt(i) => StructForm(IntType, 0, AsInt(i))
    case FromPointer(t, address) => StructForm(t, 0, AsPointer(address))
  }

  // ----- the word -----

  /** The value of an enumeration constant. */
  function Ordinal(t: Type): int {
    match t case BoolType => 0 case IntType => 1 case StrType => 2 case TupleType => 3 case ClosureType => 4
  }

  function OfOrdinal(n: int): Type {
    if n == 0 then BoolType else if n == 1 then IntType else if n == 2 then StrType
    else if n == 3 then TupleType else ClosureType
  }

  /** The low n bits of n as a signed word of that size, for words of 64 and of 32 bits. */
  function Wrap64(n: int): int {
    (n + 0x8000_0000_0000_0000) % 0x1_0000_0000_0000_0000 - 0x8000_0000_0000_0000
  }

  function Wrap32(n: int): int {
    (n + 0x8000_0000) % 0x1_0000_0000 - 0x8000_0000
  }

  /** The low four bits of a shifted word are free, so `|` adds. */
  function ToWord(s: Source): int {
    match s
    case FromBool(false) => Wrap64(8 * (2 * 0 + FLAG_FALSY)) + Ordinal(BoolType)
    case FromBool(true) => Wrap64(16 * 1) + Ordinal(BoolType)
    case FromInt(i) => Wrap64(16 * i) + Ordinal(IntType)
    case FromPointer(t, address) => Wrap64(16 * address) + Ordinal(t)
  }

  function WordType(w: int): Type {
    OfOrdinal(w % 8)
  }

  function WordFlags(w: int): int {
    (w / 8) % 2
  }

  /** as_bool, as_int or as_str/as_tuple/as_closure, by the type. */
  function WordPayload(w: int): Payload {
    match WordType(w)
    case BoolType => AsBool(w / 16 != 0)
    case IntType => AsInt(Wrap32(w / 16))
    case _ => AsPointer(w / 16)
  }

  function ReadWord(w: int): StructForm {
    StructForm(WordType(w), WordFlags(w), WordPayload(w))
  }

  // ----- agreement -----

  lemma BitsOf(q: int, tag: int)
    requires 0 <= tag <= 4
    ensures (16 * q + tag) % 8 == tag && ((16 * q + tag) / 8) % 2 == 0 && (16 * q + tag) / 16 == q
  {
    assert (16 * q + tag) / 8 == 2 * q;
  }

  /** The tag and the flag are read back whatever the shifted bits are. */
  lemma LowBits(n: int, tag: int)
    requires 0 <= tag <= 4
    ensures var w := Wrap64(16 * n) + tag;
      IsInt64(w) && w % 8 == tag && (w / 8) % 2 == 0 && w / 16 == Wrap64(16 * n) / 16
  {
    var q := n - 0x1000_0000_0000_0000 * ((16 * n + 0x8000_0000_0000_0000) / 0x1_0000_0000_0000_0000);
    assert Wrap64(16 * n) == 16 * q;
    hide Wrap64;
    BitsOf(q, tag);
  }

  /** The payload is read back exactly when it fits in the 60 bits that the shift leaves it. */
  lemma HighBits(n: int)
    ensures Wrap64(16 * n) / 16 == n <==> -0x0800_0000_0000_0000 <= n < 0x0800_0000_0000_0000
  {
  }

  /** Both representations give the same type, the same flag and the same payload, for every boolean
      and every int, negative ones included; for a pointer exactly when its address needs at most 60
      bits, as it does below 2^59. */
  lemma RepresentationsAgree(s: Source)
    requires Valid(s)
    ensures var r := ReadWord(ToWord(s));
      && IsInt64(ToWord(s)) && r.tag == ToStruct(s).tag && r.flags == ToStruct(s).flags
      && (r == ToStruct(s) <==> (s.FromPointer? ==> -0x0800_0000_0000_0000 <= s.address < 0x0800_0000_0000_0000))
  {
    match s
    case FromBool(_) =>
    case FromInt(i) =>
      LowBits(i, Ordinal(IntType));
      HighBits(i);
    case FromPointer(t, address) =>
      LowBits(address, Ordinal(t));
      HighBits(address);
      hide Wrap64;
  }

  /** Only `false` is falsy, in both representations. */
  lemma OnlyFalseIsFalsy(s: Source)
    requires Valid(s)
    ensures WordFlags(ToWord(s)) == FLAG_FALSY <==> s == FromBool(false)
    ensures ToStruct(s).flags == FLAG_FALSY <==> s == FromBool(false)
  {
    RepresentationsAgree(s);
  }
}
