/** Which tokens the parser takes for which AST. The grammar of docs/rinha-ast.ebnf gives each node a
    row of slots; a slot takes more tokens than the one that the grammar prints there. The parser
    accepts exactly the tokens that fit the slots of an AST, and answers with that AST. */
module Grammar {
  import opened Values
  import opened Syntax
  import opened Codegen
  import opened Tokens
  import opened Parser

  // ----- slots -----

  /** Where a token stands in a file: a token that is given, a key, the name of a kind or of an operator,
      or a number. */
  datatype Slot =
    Exact(token: Token) | Key(key: string) | KindSlot(kind: Kind) | OperatorSlot(op: BinOp) | Number(n: nat)

  function OperatorName(op: BinOp): string {
    match op
    case Add => "Add" case Sub => "Sub" case Mul => "Mul" case Div => "Div" case Rem => "Rem"
    case Eq => "Eq" case Neq => "Neq" case Lt => "Lt" case Gt => "Gt" case Lte => "Lte" case Gte => "Gte"
    case And => "And" case Or => "Or"
  }

  function KindName(k: Kind): string {
    match k
    case KInt => "Int"
    case KStr => "Str"
    case KBool => "Bool"
    case KVar => "Var"
    case KCall => "Call"
    case KBinary => "Binary"
    case KUnary(Print) => "Print"
    case KUnary(First) => "First"
    case KUnary(Second) => "Second"
    case KTuple => "Tuple"
    case KFunction => "Function"
    case KLet => "Let"
    case KIf => "If"
  }

  /** A key may be cut short, down to nothing; the name of a kind or an operator may go on, but not so
      that it becomes the name of another operator; a number may have zeros in front. */
  predicate Fits(t: Token, slot: Slot) {
    match slot
    case Exact(u) => t == u && t != Token.Bad
    case Key(key) => t.StringToken? && t.text <= key
    case KindSlot(k) => t.StringToken? && KindName(k) <= t.text
    case OperatorSlot(op) => t.StringToken? && OperatorName(op) <= t.text && !LongerOperator(op, t.text)
    case Number(n) => t.IntToken? && DigitsToNat(t.digits) == n
  }

  /** "Lt" and "Gt" are tried after "Lte" and "Gte". */
  predicate LongerOperator(op: BinOp, text: string) {
    (op.Lt? || op.Gt?) && OperatorName(op) + "e" <= text
  }

  /** A token that scans follows. */
  predicate Good(ts: seq<Token>) {
    ts != [] && ts[0] != Token.Bad
  }

  /** The tokens ts fit the slots and are followed by rest. */
  predicate Reads(ts: seq<Token>, slots: seq<Slot>, rest: seq<Token>) {
    if slots == [] then ts == rest && Good(rest)
    else ts != [] && Fits(ts[0], slots[0]) && Reads(ts[1..], slots[1..], rest)
  }

  // ----- names of kinds and operators -----

  /** A prefix agrees on its first two characters. */
  lemma PrefixTwo(a: string, b: string)
    requires |a| >= 2
    ensures a <= b ==> |b| >= |a| && a[0] == b[0] && a[1] == b[1]
  {
  }

  /** The parser tells a kind from the start of its name. */
  lemma KindExactly(text: string, k: Kind)
    ensures KindOf(text) == Ok(k) <==> KindName(k) <= text
  {
    PrefixTwo("Int", text);
    PrefixTwo("Str", text);
    PrefixTwo("Call", text);
    PrefixTwo("Binary", text);
    PrefixTwo("Function", text);
    PrefixTwo("Let", text);
    PrefixTwo("If", text);
    PrefixTwo("Print", text);
    PrefixTwo("First", text);
    PrefixTwo("Second", text);
    PrefixTwo("Bool", text);
    PrefixTwo("Tuple", text);
    PrefixTwo("Var", text);
  }

  /** The parser tells an operator from the start of its name; "Lte" is not "Lt" and an e, nor is "Gte". */
  lemma OperatorExactly(text: string, op: BinOp)
    ensures OperatorOf(text) == Ok(op) <==> OperatorName(op) <= text && !LongerOperator(op, text)
  {
    PrefixTwo("Add", text);
    PrefixTwo("Sub", text);
    PrefixTwo("Mul", text);
    PrefixTwo("Div", text);
    PrefixTwo("Rem", text);
    PrefixTwo("Eq", text);
    PrefixTwo("Neq", text);
    PrefixTwo("Lte", text);
    PrefixTwo("Lt", text);
    PrefixTwo("Gte", text);
    PrefixTwo("Gt", text);
    PrefixTwo("And", text);
    PrefixTwo("Or", text);
    assert "Lt" + "e" == "Lte" && "Gt" + "e" == "Gte";
  }

  lemma OperatorWithMore(op: BinOp, more: string)
    ensures OperatorOf(OperatorName(op) + more) == Ok(op) <==> !((op.Lt? || op.Gt?) && "e" <= more)
  {
    var s := OperatorName(op) + more;
    OperatorExactly(s, op);
    assert s[|OperatorName(op)|..] == more;
  }

  // ----- the slots of a node, followed by `more` -----

  function KeyThen(key: string, more: seq<Slot>): seq<Slot> {
    [Key(key)] + ([Exact(Colon)] + more)
  }

  function FieldThen(key: string, more: seq<Slot>): seq<Slot> {
    [Exact(Comma)] + KeyThen(key, more)
  }

  function StringThen(s: string, more: seq<Slot>): seq<Slot> {
    [Exact(StringToken(s))] + more
  }

  function LocationThen(l: Location, more: seq<Slot>): seq<Slot> {
    [Exact(LBrace)] + KeyThen("start", [Number(l.start)] + FieldThen("end", [Number(l.end)] +
      FieldThen("filename", StringThen(l.filename, [Exact(RBrace)] + more))))
  }

  function ClosingThen(l: Location, more: seq<Slot>): seq<Slot> {
    FieldThen("location", LocationThen(l, [Exact(RBrace)] + more))
  }

  function ParameterThen(p: Parameter, more: seq<Slot>): seq<Slot> {
    [Exact(LBrace)] + KeyThen("text", StringThen(p.text, ClosingThen(p.loc, more)))
  }

  /** The kind of a term. */
  function KindTag(t: Term): Kind {
    match t
    case Int(_, _) => KInt
    case Str(_, _) => KStr
    case Bool(_, _) => KBool
    case Var(_, _) => KVar
    case Call(_, _, _) => KCall
    case Binary(_, _, _, _) => KBinary
    case Unary(op, _, _) => KUnary(op)
    case Pair(_, _, _) => KTuple
    case Function(_, _, _) => KFunction
    case Let(_, _, _, _) => KLet
    case If(_, _, _, _) => KIf
  }

  function TermThen(t: Term, more: seq<Slot>): seq<Slot>
    decreases t, 1
  {
    [Exact(LBrace)] + KeyThen("kind", [KindSlot(KindTag(t))] + BodyThen(t, more))
  }

  function BodyThen(t: Term, more: seq<Slot>): seq<Slot>
    decreases t, 0
  {
    match t
    case Int(n, l) => FieldThen("value", [Number(n)] + ClosingThen(l, more))
    case Str(s, l) => FieldThen("value", StringThen(s, ClosingThen(l, more)))
    case Bool(b, l) => FieldThen("value", [Exact(if b then TrueKw else FalseKw)] + ClosingThen(l, more))
    case Var(x, l) => FieldThen("text", StringThen(x, ClosingThen(l, more)))
    case Unary(_, e, l) => FieldThen("value", TermThen(e, ClosingThen(l, more)))
    case Binary(a, op, b, l) =>
      FieldThen("lhs", TermThen(a, FieldThen("op", [OperatorSlot(op)] +
        FieldThen("rhs", TermThen(b, ClosingThen(l, more))))))
    case Pair(a, b, l) =>
      FieldThen("first", TermThen(a, FieldThen("second", TermThen(b, ClosingThen(l, more)))))
    case Let(x, v, n, l) =>
      FieldThen("name", ParameterThen(x, FieldThen("value", TermThen(v,
        FieldThen("next", TermThen(n, ClosingThen(l, more)))))))
    case If(c, a, b, l) =>
      FieldThen("condition", TermThen(c, FieldThen("then", TermThen(a,
        FieldThen("otherwise", TermThen(b, ClosingThen(l, more)))))))
    case Call(f, args, l) =>
      FieldThen("callee", TermThen(f,
        FieldThen("arguments", [Exact(LBracket)] + TermsThen(args, ClosingThen(l, more)))))
    case Function(ps, b, l) =>
      FieldThen("parameters", [Exact(LBracket)] + ParametersThen(ps,
        FieldThen("value", TermThen(b, ClosingThen(l, more)))))
  }

  function TermsThen(ts: seq<Term>, more: seq<Slot>): seq<Slot>
    decreases ts, 3
  {
    if ts == [] then [Exact(RBracket)] + more else TermThen(ts[0], MoreTermsThen(ts[1..], more))
  }

  function MoreTermsThen(ts: seq<Term>, more: seq<Slot>): seq<Slot>
    decreases ts, 2
  {
    if ts == [] then [Exact(RBracket)] + more else [Exact(Comma)] + TermThen(ts[0], MoreTermsThen(ts[1..], more))
  }

  function ParametersThen(ps: seq<Parameter>, more: seq<Slot>): seq<Slot> {
    if ps == [] then [Exact(RBracket)] + more else ParameterThen(ps[0], MoreParametersThen(ps[1..], more))
  }

  function MoreParametersThen(ps: seq<Parameter>, more: seq<Slot>): seq<Slot> {
    if ps == [] then [Exact(RBracket)] + more
    else [Exact(Comma)] + ParameterThen(ps[0], MoreParametersThen(ps[1..], more))
  }

  function FileThen(f: File, more: seq<Slot>): seq<Slot> {
    [Exact(LBrace)] + KeyThen("name", StringThen(f.name,
      FieldThen("expression", TermThen(f.expression, ClosingThen(f.loc, more)))))
  }

  // ----- what each function of the parser takes -----

  /** The parser has taken x, and goes on with tokens that fit `more`. */
  ghost predicate Took<T(!new)>(r: Parsed<T>, x: T, more: seq<Slot>, rest: seq<Token>) {
    r.Ok? && r.value.0 == x && Reads(r.value.1, more, rest)
  }

  ghost predicate Passed(r: Result<seq<Token>>, more: seq<Slot>, rest: seq<Token>) {
    r.Ok? && Reads(r.value, more, rest)
  }

  lemma SlotReads(ts: seq<Token>, slot: Slot, more: seq<Slot>, rest: seq<Token>)
    ensures Reads(ts, [slot] + more, rest) <==> ts != [] && Fits(ts[0], slot) && Passed(Advance(ts), more, rest)
  {
    assert ([slot] + more)[1..] == more;
    if ts != [] && Reads(ts[1..], more, rest) {
      assert Good(ts[1..]);
    }
  }

  lemma ExpectReads(ts: seq<Token>, t: Token, more: seq<Slot>, rest: seq<Token>)
    requires t != Token.Bad
    ensures Reads(ts, [Exact(t)] + more, rest) <==> Passed(Expect(ts, t), more, rest)
  {
    hide Reads;
    SlotReads(ts, Exact(t), more, rest);
  }

  lemma IntReads(ts: seq<Token>, n: nat, more: seq<Slot>, rest: seq<Token>)
    ensures Reads(ts, [Number(n)] + more, rest) <==>
      var r := ExpectInt(ts); r.Ok? && DigitsToNat(r.value.0) == n && Reads(r.value.1, more, rest)
  {
    hide Reads, DigitsToNat;
    SlotReads(ts, Number(n), more, rest);
  }

  lemma StringReads(ts: seq<Token>, s: string, more: seq<Slot>, rest: seq<Token>)
    ensures Reads(ts, StringThen(s, more), rest) <==> Took(ExpectString(ts), s, more, rest)
  {
    hide Reads;
    SlotReads(ts, Exact(StringToken(s)), more, rest);
  }

  lemma BoolReads(ts: seq<Token>, b: bool, more: seq<Slot>, rest: seq<Token>)
    ensures Reads(ts, [Exact(if b then TrueKw else FalseKw)] + more, rest) <==> Took(ExpectBool(ts), b, more, rest)
  {
    hide Reads;
    SlotReads(ts, Exact(if b then TrueKw else FalseKw), more, rest);
  }

  lemma KeyReads(ts: seq<Token>, key: string, more: seq<Slot>, rest: seq<Token>)
    ensures Reads(ts, KeyThen(key, more), rest) <==> Passed(KeyColon(ts, key), more, rest)
  {
    hide Reads, Expect;
    SlotReads(ts, Key(key), [Exact(Colon)] + more, rest);
    if Advance(ts).Ok? {
      ExpectReads(Advance(ts).value, Colon, more, rest);
    }
  }

  lemma FieldReads(ts: seq<Token>, key: string, more: seq<Slot>, rest: seq<Token>)
    ensures Reads(ts, FieldThen(key, more), rest) <==> Passed(Field(ts, key), more, rest)
  {
    hide Reads, KeyColon, KeyThen;
    ExpectReads(ts, Comma, KeyThen(key, more), rest);
    if Expect(ts, Comma).Ok? {
      KeyReads(Expect(ts, Comma).value, key, more, rest);
    }
  }

  lemma LocationReads(ts: seq<Token>, l: Location, more: seq<Slot>, rest: seq<Token>)
    ensures Reads(ts, LocationThen(l, more), rest) <==> Took(ParseLocation(ts), l, more, rest)
  {
    hide Reads, Expect, ExpectInt, ExpectString, KeyColon, Field, KeyThen, FieldThen, StringThen, DigitsToNat;
    var m6 := [Exact(RBrace)] + more;
    var m5 := StringThen(l.filename, m6);
    var m4 := FieldThen("filename", m5);
    var m3 := [Number(l.end)] + m4;
    var m2 := FieldThen("end", m3);
    var m1 := [Number(l.start)] + m2;
    ExpectReads(ts, LBrace, KeyThen("start", m1), rest);
    var r1 := Expect(ts, LBrace);
    if r1.Err? { return; }
    KeyReads(r1.value, "start", m1, rest);
    var r2 := KeyColon(r1.value, "start");
    if r2.Err? { return; }
    IntReads(r2.value, l.start, m2, rest);
    var r3 := ExpectInt(r2.value);
    if r3.Err? { return; }
    FieldReads(r3.value.1, "end", m3, rest);
    var r4 := Field(r3.value.1, "end");
    if r4.Err? { return; }
    IntReads(r4.value, l.end, m4, rest);
    var r5 := ExpectInt(r4.value);
    if r5.Err? { return; }
    FieldReads(r5.value.1, "filename", m5, rest);
    var r6 := Field(r5.value.1, "filename");
    if r6.Err? { return; }
    StringReads(r6.value, l.filename, m6, rest);
    var r7 := ExpectString(r6.value);
    if r7.Err? { return; }
    ExpectReads(r7.value.1, RBrace, more, rest);
  }

  lemma ClosingReads(ts: seq<Token>, l: Location, more: seq<Slot>, rest: seq<Token>)
    ensures Reads(ts, ClosingThen(l, more), rest) <==> Took(Closing(ts), l, more, rest)
  {
    hide Reads, Expect, Field, FieldThen, ParseLocation, LocationThen;
    var end := [Exact(RBrace)] + more;
    FieldReads(ts, "location", LocationThen(l, end), rest);
    var r1 := Field(ts, "location");
    if r1.Err? { return; }
    LocationReads(r1.value, l, end, rest);
    var r2 := ParseLocation(r1.value);
    if r2.Err? { return; }
    ExpectReads(r2.value.1, RBrace, more, rest);
  }

  lemma ParameterReads(ts: seq<Token>, p: Parameter, more: seq<Slot>, rest: seq<Token>)
    ensures Reads(ts, ParameterThen(p, more), rest) <==> Took(ParseParameter(ts), p, more, rest)
  {
    hide Reads, Expect, KeyColon, KeyThen, ExpectString, StringThen, Closing, ClosingThen;
    var m2 := ClosingThen(p.loc, more);
    var m1 := StringThen(p.text, m2);
    ExpectReads(ts, LBrace, KeyThen("text", m1), rest);
    var r1 := Expect(ts, LBrace);
    if r1.Err? { return; }
    KeyReads(r1.value, "text", m1, rest);
    var r2 := KeyColon(r1.value, "text");
    if r2.Err? { return; }
    StringReads(r2.value, p.text, m2, rest);
    var r3 := ExpectString(r2.value);
    if r3.Err? { return; }
    ClosingReads(r3.value.1, p.loc, more, rest);
  }

  lemma KindReads(ts: seq<Token>, k: Kind, more: seq<Slot>, rest: seq<Token>)
    ensures Reads(ts, [Exact(LBrace)] + KeyThen("kind", [KindSlot(k)] + more), rest) <==>
      Took(ParseKind(ts), k, more, rest)
  {
    hide Reads, Expect, KeyColon, KeyThen, KindOf, KindName, Advance;
    var m1 := [KindSlot(k)] + more;
    ExpectReads(ts, LBrace, KeyThen("kind", m1), rest);
    var r1 := Expect(ts, LBrace);
    if r1.Err? { return; }
    KeyReads(r1.value, "kind", m1, rest);
    var r2 := KeyColon(r1.value, "kind");
    if r2.Err? { return; }
    SlotReads(r2.value, KindSlot(k), more, rest);
    if r2.value[0].StringToken? {
      KindExactly(r2.value[0].text, k);
    }
  }

  /** The operator of a binary node. */
  lemma OperatorReads(ts: seq<Token>, op: BinOp, more: seq<Slot>, rest: seq<Token>)
    ensures Reads(ts, [OperatorSlot(op)] + more, rest) <==>
      var r := ExpectString(ts); r.Ok? && OperatorOf(r.value.0) == Ok(op) && Reads(r.value.1, more, rest)
  {
    hide Reads, OperatorOf, OperatorName, LongerOperator, Advance;
    SlotReads(ts, OperatorSlot(op), more, rest);
    if ts != [] && ts[0].StringToken? {
      OperatorExactly(ts[0].text, op);
    }
  }

  // ----- terms -----

  /** The kind decides which terms the parser can answer with. */
  lemma BodyKind(k: Kind, ts: seq<Token>)
    ensures ParseBody(k, ts).Ok? ==> KindTag(ParseBody(k, ts).value.0) == k
  {
    hide ParseInt, ParseStr, ParseBool, ParseVar, ParseBinary, ParseTuple, ParseLet, ParseIf, ParseCall,
      ParseFunction, Field, Closing, ParseTerm;
  }

  lemma {:induction false} TermReads(ts: seq<Token>, t: Term, more: seq<Slot>, rest: seq<Token>)
    ensures Reads(ts, TermThen(t, more), rest) <==> Took(ParseTerm(ts), t, more, rest)
    decreases t, 2
  {
    hide Reads, KeyThen, BodyThen, ParseKind, ParseBody, KindTag;
    KindReads(ts, KindTag(t), BodyThen(t, more), rest);
    var r := ParseKind(ts);
    if r.Ok? {
      BodyKind(r.value.0, r.value.1);
      BodyReads(r.value.1, t, more, rest);
    }
  }

  /** A field that holds a term. */
  lemma {:induction false} FieldTermReads(ts: seq<Token>, key: string, t: Term, more: seq<Slot>, rest: seq<Token>)
    ensures Reads(ts, FieldThen(key, TermThen(t, more)), rest) <==>
      Field(ts, key).Ok? && Took(ParseTerm(Field(ts, key).value), t, more, rest)
    decreases t, 3
  {
    hide Reads, Field, FieldThen, TermThen, ParseTerm;
    FieldReads(ts, key, TermThen(t, more), rest);
    if Field(ts, key).Ok? {
      TermReads(Field(ts, key).value, t, more, rest);
    }
  }

  lemma LeafReads(ts: seq<Token>, t: Term, more: seq<Slot>, rest: seq<Token>)
    requires t.Int? || t.Str? || t.Bool? || t.Var?
    ensures Reads(ts, BodyThen(t, more), rest) <==> Took(ParseBody(KindTag(t), ts), t, more, rest)
  {
    hide Reads, Field, FieldThen, Closing, ClosingThen, ExpectInt, ExpectString, ExpectBool, StringThen, DigitsToNat;
    var end, key := ClosingThen(t.loc, more), if t.Var? then "text" else "value";
    var slots := match t
      case Int(n, _) => [Number(n)] + end
      case Str(s, _) => StringThen(s, end)
      case Bool(b, _) => [Exact(if b then TrueKw else FalseKw)] + end
      case Var(x, _) => StringThen(x, end);
    FieldReads(ts, key, slots, rest);
    var r1 := Field(ts, key);
    if r1.Err? { return; }
    var ts1 := r1.value;
    match t
    case Int(n, _) =>
      IntReads(ts1, n, end, rest);
      if ExpectInt(ts1).Ok? { ClosingReads(ExpectInt(ts1).value.1, t.loc, more, rest); }
    case Str(s, _) =>
      StringReads(ts1, s, end, rest);
      if ExpectString(ts1).Ok? { ClosingReads(ExpectString(ts1).value.1, t.loc, more, rest); }
    case Bool(b, _) =>
      BoolReads(ts1, b, end, rest);
      if ExpectBool(ts1).Ok? { ClosingReads(ExpectBool(ts1).value.1, t.loc, more, rest); }
    case Var(x, _) =>
      StringReads(ts1, x, end, rest);
      if ExpectString(ts1).Ok? { ClosingReads(ExpectString(ts1).value.1, t.loc, more, rest); }
  }

  lemma {:induction false} BodyReads(ts: seq<Token>, t: Term, more: seq<Slot>, rest: seq<Token>)
    ensures Reads(ts, BodyThen(t, more), rest) <==> Took(ParseBody(KindTag(t), ts), t, more, rest)
    decreases t, 1
  {
    hide Reads, Took, BodyThen, ParseInt, ParseStr, ParseBool, ParseVar, ParseUnary, ParseBinary, ParseTuple, ParseLet,
      ParseIf, ParseCall, ParseFunction;
    match t
    case Int(_, _) => LeafReads(ts, t, more, rest);
    case Str(_, _) => LeafReads(ts, t, more, rest);
    case Bool(_, _) => LeafReads(ts, t, more, rest);
    case Var(_, _) => LeafReads(ts, t, more, rest);
    case Unary(_, _, _) => UnaryReads(ts, t, more, rest);
    case Binary(_, _, _, _) => BinaryReads(ts, t, more, rest);
    case Pair(_, _, _) => PairReads(ts, t, more, rest);
    case Let(_, _, _, _) => LetReads(ts, t, more, rest);
    case If(_, _, _, _) => IfReads(ts, t, more, rest);
    case Call(_, _, _) => CallReads(ts, t, more, rest);
    case Function(_, _, _) => FunctionReads(ts, t, more, rest);
  }

  lemma {:induction false} UnaryReads(ts: seq<Token>, t: Term, more: seq<Slot>, rest: seq<Token>)
    requires t.Unary?
    ensures Reads(ts, BodyThen(t, more), rest) <==> Took(ParseUnary(ts, t.unop), t, more, rest)
    decreases t, 0
  {
    hide Reads, Field, FieldThen, Closing, ClosingThen, ParseTerm, TermThen;
    FieldTermReads(ts, "value", t.operand, ClosingThen(t.loc, more), rest);
    if Field(ts, "value").Err? || ParseTerm(Field(ts, "value").value).Err? { return; }
    ClosingReads(ParseTerm(Field(ts, "value").value).value.1, t.loc, more, rest);
  }

  lemma {:induction false} PairReads(ts: seq<Token>, t: Term, more: seq<Slot>, rest: seq<Token>)
    requires t.Pair?
    ensures Reads(ts, BodyThen(t, more), rest) <==> Took(ParseTuple(ts), t, more, rest)
    decreases t, 0
  {
    hide Reads, Field, FieldThen, Closing, ClosingThen, ParseTerm, TermThen;
    var end := ClosingThen(t.loc, more);
    FieldTermReads(ts, "first", t.fst, FieldThen("second", TermThen(t.snd, end)), rest);
    if Field(ts, "first").Err? || ParseTerm(Field(ts, "first").value).Err? { return; }
    var ts2 := ParseTerm(Field(ts, "first").value).value.1;
    FieldTermReads(ts2, "second", t.snd, end, rest);
    if Field(ts2, "second").Err? || ParseTerm(Field(ts2, "second").value).Err? { return; }
    ClosingReads(ParseTerm(Field(ts2, "second").value).value.1, t.loc, more, rest);
  }

  lemma {:induction false} BinaryReads(ts: seq<Token>, t: Term, more: seq<Slot>, rest: seq<Token>)
    requires t.Binary?
    ensures Reads(ts, BodyThen(t, more), rest) <==> Took(ParseBinary(ts), t, more, rest)
    decreases t, 0
  {
    hide Reads, Field, FieldThen, Closing, ClosingThen, ParseTerm, TermThen, ExpectString, OperatorOf;
    var end := ClosingThen(t.loc, more);
    var m2 := FieldThen("rhs", TermThen(t.rhs, end));
    var m1 := [OperatorSlot(t.op)] + m2;
    FieldTermReads(ts, "lhs", t.lhs, FieldThen("op", m1), rest);
    if Field(ts, "lhs").Err? || ParseTerm(Field(ts, "lhs").value).Err? { return; }
    var ts2 := ParseTerm(Field(ts, "lhs").value).value.1;
    FieldReads(ts2, "op", m1, rest);
    if Field(ts2, "op").Err? { return; }
    var ts3 := Field(ts2, "op").value;
    OperatorReads(ts3, t.op, m2, rest);
    if ExpectString(ts3).Err? || OperatorOf(ExpectString(ts3).value.0).Err? { return; }
    var ts4 := ExpectString(ts3).value.1;
    FieldTermReads(ts4, "rhs", t.rhs, end, rest);
    if Field(ts4, "rhs").Err? || ParseTerm(Field(ts4, "rhs").value).Err? { return; }
    ClosingReads(ParseTerm(Field(ts4, "rhs").value).value.1, t.loc, more, rest);
  }

  lemma {:induction false} LetReads(ts: seq<Token>, t: Term, more: seq<Slot>, rest: seq<Token>)
    requires t.Let?
    ensures Reads(ts, BodyThen(t, more), rest) <==> Took(ParseLet(ts), t, more, rest)
    decreases t, 0
  {
    hide Reads, Field, FieldThen, Closing, ClosingThen, ParseTerm, TermThen, ParseParameter, ParameterThen;
    var end := ClosingThen(t.loc, more);
    var m2 := FieldThen("next", TermThen(t.next, end));
    var m1 := FieldThen("value", TermThen(t.definition, m2));
    FieldReads(ts, "name", ParameterThen(t.bound, m1), rest);
    if Field(ts, "name").Err? { return; }
    var ts1 := Field(ts, "name").value;
    ParameterReads(ts1, t.bound, m1, rest);
    if ParseParameter(ts1).Err? { return; }
    var ts2 := ParseParameter(ts1).value.1;
    FieldTermReads(ts2, "value", t.definition, m2, rest);
    if Field(ts2, "value").Err? || ParseTerm(Field(ts2, "value").value).Err? { return; }
    var ts3 := ParseTerm(Field(ts2, "value").value).value.1;
    FieldTermReads(ts3, "next", t.next, end, rest);
    if Field(ts3, "next").Err? || ParseTerm(Field(ts3, "next").value).Err? { return; }
    ClosingReads(ParseTerm(Field(ts3, "next").value).value.1, t.loc, more, rest);
  }

  lemma {:induction false} IfReads(ts: seq<Token>, t: Term, more: seq<Slot>, rest: seq<Token>)
    requires t.If?
    ensures Reads(ts, BodyThen(t, more), rest) <==> Took(ParseIf(ts), t, more, rest)
    decreases t, 0
  {
    hide Reads, Field, FieldThen, Closing, ClosingThen, ParseTerm, TermThen;
    var end := ClosingThen(t.loc, more);
    var m2 := FieldThen("otherwise", TermThen(t.els, end));
    var m1 := FieldThen("then", TermThen(t.thn, m2));
    FieldTermReads(ts, "condition", t.cond, m1, rest);
    if Field(ts, "condition").Err? || ParseTerm(Field(ts, "condition").value).Err? { return; }
    var ts2 := ParseTerm(Field(ts, "condition").value).value.1;
    FieldTermReads(ts2, "then", t.thn, m2, rest);
    if Field(ts2, "then").Err? || ParseTerm(Field(ts2, "then").value).Err? { return; }
    var ts3 := ParseTerm(Field(ts2, "then").value).value.1;
    FieldTermReads(ts3, "otherwise", t.els, end, rest);
    if Field(ts3, "otherwise").Err? || ParseTerm(Field(ts3, "otherwise").value).Err? { return; }
    ClosingReads(ParseTerm(Field(ts3, "otherwise").value).value.1, t.loc, more, rest);
  }

  lemma {:induction false} CallReads(ts: seq<Token>, t: Term, more: seq<Slot>, rest: seq<Token>)
    requires t.Call?
    ensures Reads(ts, BodyThen(t, more), rest) <==> Took(ParseCall(ts), t, more, rest)
    decreases t, 0
  {
    hide Reads, Field, FieldThen, Closing, ClosingThen, ParseTerm, TermThen, ParseTerms, TermsThen, Expect;
    var end := ClosingThen(t.loc, more);
    var m2 := TermsThen(t.args, end);
    var m1 := [Exact(LBracket)] + m2;
    FieldTermReads(ts, "callee", t.callee, FieldThen("arguments", m1), rest);
    if Field(ts, "callee").Err? || ParseTerm(Field(ts, "callee").value).Err? { return; }
    var ts2 := ParseTerm(Field(ts, "callee").value).value.1;
    FieldReads(ts2, "arguments", m1, rest);
    if Field(ts2, "arguments").Err? { return; }
    var ts3 := Field(ts2, "arguments").value;
    ExpectReads(ts3, LBracket, m2, rest);
    if Expect(ts3, LBracket).Err? { return; }
    var ts4 := Expect(ts3, LBracket).value;
    TermsRead(ts4, t.args, end, rest);
    if ParseTerms(ts4).Err? { return; }
    ClosingReads(ParseTerms(ts4).value.1, t.loc, more, rest);
  }

  lemma {:induction false} FunctionReads(ts: seq<Token>, t: Term, more: seq<Slot>, rest: seq<Token>)
    requires t.Function?
    ensures Reads(ts, BodyThen(t, more), rest) <==> Took(ParseFunction(ts), t, more, rest)
    decreases t, 0
  {
    hide Reads, Field, FieldThen, Closing, ClosingThen, ParseTerm, TermThen, ParseParameters, ParametersThen, Expect;
    var end := ClosingThen(t.loc, more);
    var m3 := FieldThen("value", TermThen(t.body, end));
    var m2 := ParametersThen(t.params, m3);
    var m1 := [Exact(LBracket)] + m2;
    FieldReads(ts, "parameters", m1, rest);
    if Field(ts, "parameters").Err? { return; }
    var ts1 := Field(ts, "parameters").value;
    ExpectReads(ts1, LBracket, m2, rest);
    if Expect(ts1, LBracket).Err? { return; }
    var ts2 := Expect(ts1, LBracket).value;
    ParametersRead(ts2, t.params, m3, rest);
    if ParseParameters(ts2).Err? { return; }
    var ts3 := ParseParameters(ts2).value.1;
    FieldTermReads(ts3, "value", t.body, end, rest);
    if Field(ts3, "value").Err? || ParseTerm(Field(ts3, "value").value).Err? { return; }
    ClosingReads(ParseTerm(Field(ts3, "value").value).value.1, t.loc, more, rest);
  }

  // ----- lists -----

  /** The end of a list. */
  lemma EndReads(ts: seq<Token>, more: seq<Slot>, rest: seq<Token>)
    ensures Reads(ts, [Exact(RBracket)] + more, rest) <==>
      ts != [] && ts[0] == RBracket && Passed(Advance(ts), more, rest)
  {
    hide Reads;
    SlotReads(ts, Exact(RBracket), more, rest);
  }

  lemma {:induction false} MoreTermsRead(ts: seq<Token>, args: seq<Term>, more: seq<Slot>, rest: seq<Token>)
    ensures Reads(ts, MoreTermsThen(args, more), rest) <==> Took(ParseMoreTerms(ts), args, more, rest)
    decreases args, 4
  {
    hide Reads, Advance, TermThen, ParseTerm;
    if args == [] {
      EndReads(ts, more, rest);
    } else {
      var tail := MoreTermsThen(args[1..], more);
      ExpectReads(ts, Comma, TermThen(args[0], tail), rest);
      if (ts != [] && ts[0] == RBracket) || Expect(ts, Comma).Err? { return; }
      var ts1 := Expect(ts, Comma).value;
      TermReads(ts1, args[0], tail, rest);
      if ParseTerm(ts1).Err? { return; }
      var ts2 := ParseTerm(ts1).value.1;
      MoreTermsRead(ts2, args[1..], more, rest);
      assert args == [args[0]] + args[1..];
      if ParseMoreTerms(ts2).Ok? {
        ConsIs(ParseTerm(ts1).value.0, ParseMoreTerms(ts2).value.0, args);
      }
    }
  }

  lemma ConsIs<T>(x: T, xs: seq<T>, ys: seq<T>)
    requires ys != []
    ensures [x] + xs == ys <==> x == ys[0] && xs == ys[1..]
  {
    if [x] + xs == ys {
      assert ([x] + xs)[1..] == xs;
    }
  }

  lemma {:induction false} TermsRead(ts: seq<Token>, args: seq<Term>, more: seq<Slot>, rest: seq<Token>)
    ensures Reads(ts, TermsThen(args, more), rest) <==> Took(ParseTerms(ts), args, more, rest)
    decreases args, 4
  {
    hide Reads, Advance, TermThen, ParseTerm, ParseMoreTerms, MoreTermsThen;
    if args == [] {
      EndReads(ts, more, rest);
    } else {
      var tail := MoreTermsThen(args[1..], more);
      TermReads(ts, args[0], tail, rest);
      BracketIsNoTerm(ts);
      if ParseTerm(ts).Err? { return; }
      var ts2 := ParseTerm(ts).value.1;
      MoreTermsRead(ts2, args[1..], more, rest);
      assert args == [args[0]] + args[1..];
      if ParseMoreTerms(ts2).Ok? {
        ConsIs(ParseTerm(ts).value.0, ParseMoreTerms(ts2).value.0, args);
      }
    }
  }

  lemma BracketIsNoTerm(ts: seq<Token>)
    ensures ts != [] && ts[0] == RBracket ==> ParseTerm(ts).Err? && ParseParameter(ts).Err?
  {
    hide KeyColon, ParseBody;
  }

  lemma {:induction false} MoreParametersRead(ts: seq<Token>, ps: seq<Parameter>, more: seq<Slot>, rest: seq<Token>)
    ensures Reads(ts, MoreParametersThen(ps, more), rest) <==> Took(ParseMoreParameters(ts), ps, more, rest)
    decreases ps
  {
    hide Reads, Advance, ParameterThen, ParseParameter;
    if ps == [] {
      EndReads(ts, more, rest);
    } else {
      var tail := MoreParametersThen(ps[1..], more);
      ExpectReads(ts, Comma, ParameterThen(ps[0], tail), rest);
      if (ts != [] && ts[0] == RBracket) || Expect(ts, Comma).Err? { return; }
      var ts1 := Expect(ts, Comma).value;
      ParameterReads(ts1, ps[0], tail, rest);
      if ParseParameter(ts1).Err? { return; }
      var ts2 := ParseParameter(ts1).value.1;
      MoreParametersRead(ts2, ps[1..], more, rest);
      if ParseMoreParameters(ts2).Ok? {
        ConsIs(ParseParameter(ts1).value.0, ParseMoreParameters(ts2).value.0, ps);
      }
    }
  }

  lemma ParametersRead(ts: seq<Token>, ps: seq<Parameter>, more: seq<Slot>, rest: seq<Token>)
    ensures Reads(ts, ParametersThen(ps, more), rest) <==> Took(ParseParameters(ts), ps, more, rest)
  {
    hide Reads, Advance, ParameterThen, ParseParameter, MoreParametersThen, ParseMoreParameters;
    if ps == [] {
      EndReads(ts, more, rest);
    } else {
      var tail := MoreParametersThen(ps[1..], more);
      ParameterReads(ts, ps[0], tail, rest);
      BracketIsNoTerm(ts);
      if ParseParameter(ts).Err? { return; }
      var ts2 := ParseParameter(ts).value.1;
      MoreParametersRead(ts2, ps[1..], more, rest);
      if ParseMoreParameters(ts2).Ok? {
        ConsIs(ParseParameter(ts).value.0, ParseMoreParameters(ts2).value.0, ps);
      }
    }
  }

  // ----- files -----

  lemma FileTakes(ts: seq<Token>, f: File, more: seq<Slot>, rest: seq<Token>)
    ensures Reads(ts, FileThen(f, more), rest) <==> Took(ParseFile(ts), f, more, rest)
  {
    hide Reads, Expect, KeyColon, KeyThen, ExpectString, StringThen, Field, FieldThen, Closing, ClosingThen,
      ParseTerm, TermThen;
    var end := ClosingThen(f.loc, more);
    var m2 := FieldThen("expression", TermThen(f.expression, end));
    var m1 := StringThen(f.name, m2);
    ExpectReads(ts, LBrace, KeyThen("name", m1), rest);
    var r1 := Expect(ts, LBrace);
    if r1.Err? { return; }
    KeyReads(r1.value, "name", m1, rest);
    var r2 := KeyColon(r1.value, "name");
    if r2.Err? { return; }
    StringReads(r2.value, f.name, m2, rest);
    var r3 := ExpectString(r2.value);
    if r3.Err? { return; }
    var ts4 := r3.value.1;
    FieldTermReads(ts4, "expression", f.expression, end, rest);
    if Field(ts4, "expression").Err? || ParseTerm(Field(ts4, "expression").value).Err? { return; }
    ClosingReads(ParseTerm(Field(ts4, "expression").value).value.1, f.loc, more, rest);
  }

  /** What the parser leaves starts with a token that scans. */
  lemma FileLeaves(ts: seq<Token>)
    ensures ParseFile(ts).Ok? ==> Good(ParseFile(ts).value.1)
  {
    hide KeyColon, ExpectString, Field, ParseLocation, ParseTerm;
  }

  /** The parser answers with f and leaves rest exactly when the tokens fit the slots of f and rest
      follows, which starts with a token that scans. */
  lemma FileReads(ts: seq<Token>, f: File, rest: seq<Token>)
    ensures ParseFile(ts) == Ok((f, rest)) <==> Reads(ts, FileThen(f, []), rest)
  {
    hide ParseFile, FileThen;
    FileTakes(ts, f, [], rest);
    FileLeaves(ts);
  }
}
