/** Bytecode: instructions, their encoding as bytes, and compiled functions
    (src/chunk.h, src/function.h). */
module Bytecode {
  import opened Values
  import opened Syntax

  type byte = n: nat | n < 256
  type word = n: nat | n < 65536

  datatype Option<+T> = None | Some(value: T)

  datatype Instr =
    | INop | IFalse | ITrue
    | IInt(number: word)
    | IConstant(constIdx: byte)
    | ITuple
    | IClosure(child: byte)
    | ILocal(slot: byte)
    | INonlocal(captured: byte)
    | IBinary(op: BinOp)
    | IJump(target: word)
    | IJumpIfFalse(target: word)
    | IUnary(unop: UnOp)
    | ICall(nargs: byte)
    | ITailCall(nargs: byte)
    | IReturn

  /** A captured variable: a slot or a captured variable of the enclosing function. `name` is the
      source name; no instruction reads it. */
  datatype Nonlocal = Nonlocal(isLocal: bool, index: byte, name: string)

  datatype CompiledFunction = CompiledFunction(
    arity: byte,
    code: seq<byte>,
    constants: seq<Value>,
    nonlocals: seq<Nonlocal>,
    functions: seq<CompiledFunction>)

  function BinaryOpcode(op: BinOp): byte {
    match op
    case Add => 9 case Sub => 10 case Mul => 11 case Div => 12 case Rem => 13
    case Eq => 14 case Neq => 15 case Lt => 16 case Gt => 17 case Lte => 18 case Gte => 19
    case And => 20 case Or => 21
  }

  function BinaryOfOpcode(b: byte): BinOp
    requires 9 <= b <= 21
  {
    match b
    case 9 => Add case 10 => Sub case 11 => Mul case 12 => Div case 13 => Rem
    case 14 => Eq case 15 => Neq case 16 => Lt case 17 => Gt case 18 => Lte case 19 => Gte
    case 20 => And case _ => Or
  }

  function UnaryOpcode(op: UnOp): byte {
    match op case First => 24 case Second => 25 case Print => 26
  }

  /** The two bytes of a 16-bit operand. It is only ever read back as a word, so the byte order
      (little-endian here) is not observable. */
  function WordBytes(w: word): seq<byte> {
    [w % 256, w / 256]
  }

  function Encode(i: Instr): seq<byte> {
    match i
    case INop => [0]
    case IFalse => [1]
    case ITrue => [2]
    case IInt(n) => [3] + WordBytes(n)
    case IConstant(k) => [4, k]
    case ITuple => [5]
    case IClosure(k) => [6, k]
    case ILocal(k) => [7, k]
    case INonlocal(k) => [8, k]
    case IBinary(op) => [BinaryOpcode(op)]
    case IJump(t) => [22] + WordBytes(t)
    case IJumpIfFalse(t) => [23] + WordBytes(t)
    case IUnary(op) => [UnaryOpcode(op)]
    case ICall(n) => [27, n]
    case ITailCall(n) => [28, n]
    case IReturn => [29]
  }

  /** The length of an instruction from its opcode; 0 for a byte that is no opcode. */
  function InstrSize(opcode: byte): nat {
    if opcode in {3, 22, 23} then 3
    else if opcode in {4, 6, 7, 8, 27, 28} then 2
    else if opcode <= 29 then 1
    else 0
  }

  function ReadWord(code: seq<byte>, at: nat): word
    requires at + 1 < |code|
  {
    code[at] as int + 256 * (code[at + 1] as int)
  }

  /** The instruction at position ip; None for a bad opcode or an operand past the end of the code. */
  function Decode(code: seq<byte>, ip: nat): Option<Instr> {
    if ip >= |code| || InstrSize(code[ip]) == 0 || ip + InstrSize(code[ip]) > |code| then None
    else
      var b := code[ip];
      Some(
        if b == 0 then INop
        else if b == 1 then IFalse
        else if b == 2 then ITrue
        else if b == 3 then IInt(ReadWord(code, ip + 1))
        else if b == 4 then IConstant(code[ip + 1])
        else if b == 5 then ITuple
        else if b == 6 then IClosure(code[ip + 1])
        else if b == 7 then ILocal(code[ip + 1])
        else if b == 8 then INonlocal(code[ip + 1])
        else if b <= 21 then IBinary(BinaryOfOpcode(b))
        else if b == 22 then IJump(ReadWord(code, ip + 1))
        else if b == 23 then IJumpIfFalse(ReadWord(code, ip + 1))
        else if b == 24 then IUnary(First)
        else if b == 25 then IUnary(Second)
        else if b == 26 then IUnary(Print)
        else if b == 27 then ICall(code[ip + 1])
        else if b == 28 then ITailCall(code[ip + 1])
        else IReturn)
  }

  lemma DecodedSize(code: seq<byte>, ip: nat)
    requires Decode(code, ip).Some?
    ensures 0 < |Encode(Decode(code, ip).value)| && ip + |Encode(Decode(code, ip).value)| <= |code|
  {
  }

  /** A byte is read as an instruction exactly when the encoding of that instruction stands there. */
  lemma DecodeExactly(code: seq<byte>, at: nat, i: Instr)
    ensures Decode(code, at) == Some(i) <==> CodeAt(code, at, Encode(i))
  {
    if CodeAt(code, at, Encode(i)) {
      DecodeEncoded(code, at, i);
    }
    if Decode(code, at) == Some(i) {
      var n := InstrSize(code[at]);
      DecodedBytes(code, at, i);
      assert code[at..at + n] == Encode(i);
    }
  }

  lemma DecodedBytes(code: seq<byte>, at: nat, i: Instr)
    requires Decode(code, at) == Some(i)
    ensures var n := InstrSize(code[at]);
      |Encode(i)| == n > 0 && at + n <= |code| && forall k :: 0 <= k < n ==> Encode(i)[k] == code[at + k]
  {
    if at + 2 < |code| {
      WordBack(code, at + 1);
    }
    if i.IBinary? {
      OpcodeBack(code[at]);
    }
    hide ReadWord, WordBytes, BinaryOpcode, BinaryOfOpcode;
  }

  lemma WordBack(code: seq<byte>, at: nat)
    requires at + 1 < |code|
    ensures WordBytes(ReadWord(code, at)) == [code[at], code[at + 1]]
  {
  }

  lemma OpcodeBack(b: byte)
    requires 9 <= b <= 21
    ensures BinaryOpcode(BinaryOfOpcode(b)) == b
  {
  }

  function JumpTarget(i: Instr): Option<nat> {
    match i
    case IJump(t) => Some(t)
    case IJumpIfFalse(t) => Some(t)
    case _ => None
  }

  /** How an instruction changes the number of slots in use before the next one runs. */
  function Effect(i: Instr): int {
    match i
    case INop | IJump(_) | IUnary(_) | IReturn | ITailCall(_) => 0
    case ITuple | IBinary(_) | IJumpIfFalse(_) => -1
    case ICall(n) => -(n as int)
    case _ => 1
  }

  /** Execution never goes from i to the instruction behind it. */
  predicate NoFallThrough(i: Instr) {
    i.IJump? || i.ITailCall? || i.IReturn?
  }

  /** The code holds the bytes bs from position `at` on. */
  predicate CodeAt(code: seq<byte>, at: nat, bs: seq<byte>) {
    at + |bs| <= |code| && code[at..at + |bs|] == bs
  }

  lemma CodeAtSplit(code: seq<byte>, at: nat, a: seq<byte>, b: seq<byte>)
    requires CodeAt(code, at, a + b)
    ensures CodeAt(code, at, a) && CodeAt(code, at + |a|, b)
  {
    var w := code[at..at + |a + b|];
    assert code[at..at + |a|] == w[..|a|] == a;
    assert code[at + |a|..at + |a| + |b|] == w[|a|..] == b;
  }

  lemma JumpSizes(t: word)
    ensures |Encode(IJump(t))| == 3 && |Encode(IJumpIfFalse(t))| == 3
  {
  }

  /** Every instruction decodes to itself wherever it stands in the code. */
  lemma DecodeEncoded(code: seq<byte>, at: nat, i: Instr)
    requires CodeAt(code, at, Encode(i))
    ensures Decode(code, at) == Some(i)
    ensures |Encode(i)| == InstrSize(code[at])
  {
    forall k | 0 <= k < |Encode(i)|
      ensures code[at + k] == Encode(i)[k]
    {
      assert code[at..at + |Encode(i)|][k] == code[at + k];
    }
    assert code[at + 0] == Encode(i)[0];
    match i
    case IInt(n) => assert code[at + 1] == Encode(i)[1] && code[at + 2] == Encode(i)[2];
    case IJump(n) => assert code[at + 1] == Encode(i)[1] && code[at + 2] == Encode(i)[2];
    case IJumpIfFalse(n) => assert code[at + 1] == Encode(i)[1] && code[at + 2] == Encode(i)[2];
    case IConstant(k) => assert code[at + 1] == Encode(i)[1];
    case IClosure(k) => assert code[at + 1] == Encode(i)[1];
    case ILocal(k) => assert code[at + 1] == Encode(i)[1];
    case INonlocal(k) => assert code[at + 1] == Encode(i)[1];
    case ICall(k) => assert code[at + 1] == Encode(i)[1];
    case ITailCall(k) => assert code[at + 1] == Encode(i)[1];
    case IBinary(op) => assert BinaryOfOpcode(BinaryOpcode(op)) == op;
    case _ =>
  }
}
