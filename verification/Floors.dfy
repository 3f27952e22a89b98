/** How few slots compiled code can have in use, for every compiled program: whatever path leads to an
    instruction, the operands that it takes are there. No instruction of a compiled program finds too
    few values above slot 0 of its frame, and each function returns a value of its own. */
module Floors {
  import opened Values
  import opened Syntax
  import opened Bytecode
  import opened Codegen

  /** The number of operands that i takes from above slot 0. */
  function Needed(i: Instr): nat {
    match i
    case ITuple | IBinary(_) => 2
    case IUnary(_) | IJumpIfFalse(_) | IReturn => 1
    case ICall(n) => n as nat + 1
    case ITailCall(n) => n as nat + 1
    case _ => 0
  }

  /** From position ip on, with h slots in use, every path finds the operands it needs and ends in a
      return or a tail call. */
  ghost predicate Grounded(code: seq<byte>, ip: nat, h: int)
    decreases |code| - ip
  {
    match Decode(code, ip)
    case None => false
    case Some(i) =>
      DecodedSize(code, ip);
      && h > Needed(i)
      && (!NoFallThrough(i) ==> Grounded(code, ip + |Encode(i)|, h + Effect(i)))
      && (JumpTarget(i).Some? ==>
            ip < JumpTarget(i).value <= |code| && Grounded(code, JumpTarget(i).value, h + Effect(i)))
  }

  lemma {:induction false} GroundedMore(code: seq<byte>, ip: nat, h: int, h': int)
    requires Grounded(code, ip, h) && h <= h'
    ensures Grounded(code, ip, h')
    decreases |code| - ip
  {
    hide Decode, Encode;
    var i := Decode(code, ip).value;
    DecodedSize(code, ip);
    if !NoFallThrough(i) {
      GroundedMore(code, ip + |Encode(i)|, h + Effect(i), h' + Effect(i));
    }
    if JumpTarget(i).Some? {
      GroundedMore(code, JumpTarget(i).value, h + Effect(i), h' + Effect(i));
    }
  }

  lemma InstrGrounded(code: seq<byte>, at: nat, i: Instr, h: int)
    requires CodeAt(code, at, Encode(i)) && h > Needed(i)
    requires !NoFallThrough(i) ==> Grounded(code, at + |Encode(i)|, h + Effect(i))
    requires JumpTarget(i).Some? ==>
      at < JumpTarget(i).value <= |code| && Grounded(code, JumpTarget(i).value, h + Effect(i))
    ensures Grounded(code, at, h)
  {
    hide Decode, Encode, CodeAt, InstrSize;
    DecodeEncoded(code, at, i);
  }

  // ----- compiled code -----

  /** A term leaves at least one more slot in use than before: if the code behind it is safe with
      h + 1, the code of the term is safe with h. */
  lemma {:induction false} TermGrounded(m: Mode, t: Term, isTail: bool, c: Context, base: nat, code: seq<byte>, h: int)
    requires m.emit && c.Context? && Compile(m, t, isTail, c, base).Ok? && h >= 1
    requires var bytes := Compile(m, t, isTail, c, base).value.bytes;
      CodeAt(code, base, bytes) && Grounded(code, base + |bytes|, h + 1)
    ensures Grounded(code, base, h)
    decreases t, 2
  {
    hide Grounded, Encode, CodeAt, CompileCall, CompileBinary, CompileUnary, CompilePair, CompileFunction, CompileLet,
      CompileIf, Resolve, WordOverruns;
    match t
    case Int(n, _) => InstrGrounded(code, base, if n <= MAX_WORD then IInt(n) else IConstant(|c.constants|), h);
    case Str(_, _) => InstrGrounded(code, base, IConstant(|c.constants|), h);
    case Bool(b, _) => InstrGrounded(code, base, if b then ITrue else IFalse, h);
    case Var(x, _) =>
      var v := Resolve(c, x).value.1;
      InstrGrounded(code, base, if v.isLocal then ILocal(v.index) else INonlocal(v.index), h);
    case Call(_, _, _) => CallGrounded(m, t, isTail, c, base, code, h);
    case Binary(l, _, r, _) => TwoGrounded(m, t, l, r, IBinary(t.op), c, base, code, h);
    case Pair(l, r, _) => TwoGrounded(m, t, l, r, ITuple, c, base, code, h);
    case Unary(_, _, _) => UnaryGrounded(m, t, c, base, code, h);
    case Function(ps, b, _) =>
      InstrGrounded(code, base, IClosure(|CompileFunction(m, ps, b, c).value.0.functions| % 256), h);
    case Let(_, _, _, _) => LetGrounded(m, t, c, base, code, h);
    case If(_, _, _, _) => IfGrounded(m, t, c, base, code, h);
  }

  lemma {:induction false} TwoGrounded(m: Mode, t: Term, l: Term, r: Term, i: Instr, c: Context, base: nat,
                                       code: seq<byte>, h: int)
    requires (t.Binary? && l == t.lhs && r == t.rhs && i == IBinary(t.op)) ||
      (t.Pair? && l == t.fst && r == t.snd && i == ITuple)
    requires m.emit && c.Context? && h >= 1
    requires var res := if t.Binary? then CompileBinary(m, t, c, base) else CompilePair(m, t, c, base);
      res.Ok? && CodeAt(code, base, res.value.bytes) && Grounded(code, base + |res.value.bytes|, h + 1)
    ensures Grounded(code, base, h)
    decreases t, 1
  {
    hide Compile, Grounded, Encode, CodeAt;
    var e1 := Compile(m, l, false, c, base).value;
    var e2 := Compile(m, r, false, e1.context, base + |e1.bytes|).value;
    hide CompileBinary, CompilePair;
    CodeAtSplit(code, base, e1.bytes + e2.bytes, Encode(i));
    CodeAtSplit(code, base, e1.bytes, e2.bytes);
    InstrGrounded(code, base + |e1.bytes + e2.bytes|, i, h + 2);
    TermGrounded(m, r, false, e1.context, base + |e1.bytes|, code, h + 1);
    TermGrounded(m, l, false, c, base, code, h);
  }

  lemma {:induction false} UnaryGrounded(m: Mode, t: Term, c: Context, base: nat, code: seq<byte>, h: int)
    requires t.Unary? && m.emit && c.Context? && h >= 1 && CompileUnary(m, t, c, base).Ok?
    requires var bytes := CompileUnary(m, t, c, base).value.bytes;
      CodeAt(code, base, bytes) && Grounded(code, base + |bytes|, h + 1)
    ensures Grounded(code, base, h)
    decreases t, 1
  {
    hide Compile, Grounded, Encode, CodeAt;
    var e := Compile(m, t.operand, false, c, base).value;
    hide CompileUnary;
    CodeAtSplit(code, base, e.bytes, Encode(IUnary(t.unop)));
    InstrGrounded(code, base + |e.bytes|, IUnary(t.unop), h + 1);
    TermGrounded(m, t.operand, false, c, base, code, h);
  }

  lemma {:induction false} CallGrounded(m: Mode, t: Term, isTail: bool, c: Context, base: nat, code: seq<byte>, h: int)
    requires t.Call? && m.emit && c.Context? && h >= 1 && CompileCall(m, t, isTail, c, base).Ok?
    requires var bytes := CompileCall(m, t, isTail, c, base).value.bytes;
      CodeAt(code, base, bytes) && Grounded(code, base + |bytes|, h + 1)
    ensures Grounded(code, base, h)
    decreases t, 1
  {
    hide Compile, CompileAll, Grounded, Encode, CodeAt;
    var e1 := Compile(m, t.callee, false, c, base).value;
    var e2 := CompileAll(m, t.args, e1.context, base + |e1.bytes|).value;
    var i := CallInstr(m, isTail, |t.args|);
    hide CompileCall;
    CodeAtSplit(code, base, e1.bytes + e2.bytes, Encode(i));
    CodeAtSplit(code, base, e1.bytes, e2.bytes);
    GroundedMore(code, base + |(e1.bytes + e2.bytes) + Encode(i)|, h + 1, h + 1 + |t.args| - |t.args| % 256);
    InstrGrounded(code, base + |e1.bytes + e2.bytes|, i, h + 1 + |t.args|);
    AllGrounded(m, t.args, e1.context, base + |e1.bytes|, code, h + 1);
    TermGrounded(m, t.callee, false, c, base, code, h);
  }

  lemma {:induction false} AllGrounded(m: Mode, ts: seq<Term>, c: Context, base: nat, code: seq<byte>, h: int)
    requires m.emit && c.Context? && h >= 1 && CompileAll(m, ts, c, base).Ok?
    requires var bytes := CompileAll(m, ts, c, base).value.bytes;
      CodeAt(code, base, bytes) && Grounded(code, base + |bytes|, h + |ts|)
    ensures Grounded(code, base, h)
    decreases ts, 1
  {
    hide Compile, Grounded, CodeAt;
    if ts != [] {
      var e1 := Compile(m, ts[0], false, c, base).value;
      var e2 := CompileAll(m, ts[1..], e1.context, base + |e1.bytes|).value;
      CodeAtSplit(code, base, e1.bytes, e2.bytes);
      AllGrounded(m, ts[1..], e1.context, base + |e1.bytes|, code, h + 1);
      TermGrounded(m, ts[0], false, c, base, code, h);
    }
  }

  lemma {:induction false} LetGrounded(m: Mode, t: Term, c: Context, base: nat, code: seq<byte>, h: int)
    requires t.Let? && m.emit && c.Context? && h >= 1 && CompileLet(m, t, c, base).Ok?
    requires var bytes := CompileLet(m, t, c, base).value.bytes;
      CodeAt(code, base, bytes) && Grounded(code, base + |bytes|, h + 1)
    ensures Grounded(code, base, h)
    decreases t, 1
  {
    hide Compile, Grounded, CodeAt, AddLocal;
    var c1 := AddLocal(c, t.bound.text).value;
    var e1 := Compile(m, t.definition, false, c1, base).value;
    var e2 := Compile(m, t.next, true, e1.context, base + |e1.bytes|).value;
    hide CompileLet;
    CodeAtSplit(code, base, e1.bytes, e2.bytes);
    GroundedMore(code, base + |e1.bytes + e2.bytes|, h + 1, h + 2);
    TermGrounded(m, t.next, true, e1.context, base + |e1.bytes|, code, h + 1);
    TermGrounded(m, t.definition, false, c1, base, code, h);
  }

  lemma {:induction false} IfGrounded(m: Mode, t: Term, c: Context, base: nat, code: seq<byte>, h: int)
    requires t.If? && m.emit && c.Context? && h >= 1 && CompileIf(m, t, c, base).Ok?
    requires var bytes := CompileIf(m, t, c, base).value.bytes;
      CodeAt(code, base, bytes) && Grounded(code, base + |bytes|, h + 1)
    ensures Grounded(code, base, h)
    decreases t, 1
  {
    hide Compile, Grounded, CodeAt, Encode;
    var e0, e1, e2, otherwise, end := IfLayout(m, t, c, base);
    hide CompileIf;
    var p1, jif, jump := base + |e0.bytes|, Encode(IJumpIfFalse(otherwise)), Encode(IJump(end));
    JumpSizes(otherwise);
    JumpSizes(end);
    CodeAtSplit(code, base, e0.bytes + jif + e1.bytes + jump, e2.bytes);
    CodeAtSplit(code, base, e0.bytes + jif + e1.bytes, jump);
    CodeAtSplit(code, base, e0.bytes + jif, e1.bytes);
    CodeAtSplit(code, base, e0.bytes, jif);
    CodeEnds(code, otherwise, e2.bytes);
    TermGrounded(m, t.els, true, e1.context, otherwise, code, h);
    InstrGrounded(code, p1 + 3 + |e1.bytes|, IJump(end), h + 1);
    TermGrounded(m, t.thn, true, e0.context, p1 + 3, code, h);
    InstrGrounded(code, p1, IJumpIfFalse(otherwise), h + 1);
    TermGrounded(m, t.cond, false, c, base, code, h);
  }

  lemma CodeEnds(code: seq<byte>, at: nat, bytes: seq<byte>)
    requires CodeAt(code, at, bytes)
    ensures at + |bytes| <= |code|
  {
  }

  /** The code of a function, with one slot for itself and one for each argument. */
  lemma BodyGrounded(m: Mode, b: Term, isTail: bool, inner: Context, arity: nat)
    requires m.emit && inner.Context? && Compile(m, b, isTail, inner, 0).Ok?
    ensures Grounded(Append(m, Compile(m, b, isTail, inner, 0).value, IReturn).bytes, 0, 1 + arity)
  {
    hide Compile, Grounded, Encode;
    var bytes := Compile(m, b, isTail, inner, 0).value.bytes;
    var code := bytes + Encode(IReturn);
    assert CodeAt(code, 0, bytes) && CodeAt(code, |bytes|, Encode(IReturn));
    InstrGrounded(code, |bytes|, IReturn, 2 + arity);
    TermGrounded(m, b, isTail, inner, 0, code, 1 + arity);
  }
}
