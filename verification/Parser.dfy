/** The parser that is fused into src/compiler.c, on its own: which AST the tokens stand for. The
    first token is the current one; taking it requires that the next one scans. Keys, kinds and
    operators are compared the way the compiler compares them: a key may be cut short anywhere, and the
    name of a kind or an operator need only start right. Module Grammar says exactly what is accepted. */
module Parser {
  import opened Values
  import opened Syntax
  import opened Tokens
  import opened Codegen

  type Parsed<T> = Result<(T, seq<Token>)>

  // ----- single tokens -----

  /** next_token */
  function Advance(ts: seq<Token>): (r: Result<seq<Token>>)
    ensures r.Ok? ==> r.value != [] && |r.value| < |ts|
  {
    if |ts| >= 2 && ts[1] != Token.Bad then Ok(ts[1..]) else Err(SyntaxError)
  }

  /** consume, for a token without content */
  function Expect(ts: seq<Token>, t: Token): (r: Result<seq<Token>>)
    ensures r.Ok? ==> r.value != [] && |r.value| < |ts|
  {
    if ts != [] && ts[0] == t then Advance(ts) else Err(SyntaxError)
  }

  function ExpectInt(ts: seq<Token>): (r: Parsed<string>)
    ensures r.Ok? ==> r.value.1 != [] && |r.value.1| < |ts|
  {
    if ts != [] && ts[0].IntToken? then
      var rest :- Advance(ts);
      Ok((ts[0].digits, rest))
    else Err(SyntaxError)
  }

  function ExpectString(ts: seq<Token>): (r: Parsed<string>)
    ensures r.Ok? ==> r.value.1 != [] && |r.value.1| < |ts|
  {
    if ts != [] && ts[0].StringToken? then
      var rest :- Advance(ts);
      Ok((ts[0].text, rest))
    else Err(SyntaxError)
  }

  function ExpectBool(ts: seq<Token>): (r: Parsed<bool>)
    ensures r.Ok? ==> r.value.1 != [] && |r.value.1| < |ts|
  {
    if ts != [] && ts[0] in {FalseKw, TrueKw} then
      var rest :- Advance(ts);
      Ok((ts[0] == TrueKw, rest))
    else Err(SyntaxError)
  }

  /** consume_string: the length compared is the token's, so every prefix of the key is accepted. */
  function ExpectKey(ts: seq<Token>, key: string): (r: Result<seq<Token>>)
    ensures r.Ok? ==> r.value != [] && |r.value| < |ts|
  {
    if ts != [] && ts[0].StringToken? && ts[0].text <= key then Advance(ts) else Err(SyntaxError)
  }

  /** A key and its colon. */
  function KeyColon(ts: seq<Token>, key: string): (r: Result<seq<Token>>)
    ensures r.Ok? ==> r.value != [] && |r.value| < |ts|
  {
    var ts1 :- ExpectKey(ts, key);
    Expect(ts1, Colon)
  }

  /** A comma, a key and its colon. */
  function Field(ts: seq<Token>, key: string): (r: Result<seq<Token>>)
    ensures r.Ok? ==> r.value != [] && |r.value| < |ts|
  {
    var ts1 :- Expect(ts, Comma);
    KeyColon(ts1, key)
  }

  /** The value of a run of digits. */
  function DigitsToNat(digits: string): nat {
    if digits == [] then 0
    else
      var d := digits[|digits| - 1];
      10 * DigitsToNat(digits[..|digits| - 1]) + if IsDigit(d) then d as nat - '0' as nat else 0
  }

  // ----- the grammar (docs/rinha-ast.ebnf) -----

  function ParseLocation(ts: seq<Token>): (r: Parsed<Location>)
    ensures r.Ok? ==> r.value.1 != [] && |r.value.1| < |ts|
  {
    var ts1 :- Expect(ts, LBrace);
    var ts2 :- KeyColon(ts1, "start");
    var (start, ts3) :- ExpectInt(ts2);
    var ts4 :- Field(ts3, "end");
    var (end, ts5) :- ExpectInt(ts4);
    var ts6 :- Field(ts5, "filename");
    var (filename, ts7) :- ExpectString(ts6);
    var ts8 :- Expect(ts7, RBrace);
    Ok((Location(DigitsToNat(start), DigitsToNat(end), filename), ts8))
  }

  /** The end of every node: its location and the closing brace. */
  function Closing(ts: seq<Token>): (r: Parsed<Location>)
    ensures r.Ok? ==> r.value.1 != [] && |r.value.1| < |ts|
  {
    var ts1 :- Field(ts, "location");
    var (loc, ts2) :- ParseLocation(ts1);
    var ts3 :- Expect(ts2, RBrace);
    Ok((loc, ts3))
  }

  function ParseParameter(ts: seq<Token>): (r: Parsed<Parameter>)
    ensures r.Ok? ==> r.value.1 != [] && |r.value.1| < |ts|
  {
    var ts1 :- Expect(ts, LBrace);
    var ts2 :- KeyColon(ts1, "text");
    var (text, ts3) :- ExpectString(ts2);
    var (loc, ts4) :- Closing(ts3);
    Ok((Parameter(text, loc), ts4))
  }

  /** The kinds, tried in the order of compile_term. */
  datatype Kind = KInt | KStr | KCall | KBinary | KFunction | KLet | KIf | KUnary(op: UnOp) | KBool | KTuple | KVar

  function KindOf(kind: string): Result<Kind> {
    if "Int" <= kind then Ok(KInt)
    else if "Str" <= kind then Ok(KStr)
    else if "Call" <= kind then Ok(KCall)
    else if "Binary" <= kind then Ok(KBinary)
    else if "Function" <= kind then Ok(KFunction)
    else if "Let" <= kind then Ok(KLet)
    else if "If" <= kind then Ok(KIf)
    else if "Print" <= kind then Ok(KUnary(Print))
    else if "First" <= kind then Ok(KUnary(First))
    else if "Second" <= kind then Ok(KUnary(Second))
    else if "Bool" <= kind then Ok(KBool)
    else if "Tuple" <= kind then Ok(KTuple)
    else if "Var" <= kind then Ok(KVar)
    else Err(SyntaxError)
  }

  /** The operators, tried in the order of compile_binary. */
  function OperatorOf(op: string): Result<BinOp> {
    if "Add" <= op then Ok(Add)
    else if "Sub" <= op then Ok(Sub)
    else if "Mul" <= op then Ok(Mul)
    else if "Div" <= op then Ok(Div)
    else if "Rem" <= op then Ok(Rem)
    else if "Eq" <= op then Ok(Eq)
    else if "Neq" <= op then Ok(Neq)
    else if "Lte" <= op then Ok(Lte)
    else if "Lt" <= op then Ok(Lt)
    else if "Gte" <= op then Ok(Gte)
    else if "Gt" <= op then Ok(Gt)
    else if "And" <= op then Ok(And)
    else if "Or" <= op then Ok(Or)
    else Err(SyntaxError)
  }

  /** The opening of a term, up to and including its kind. */
  function ParseKind(ts: seq<Token>): (r: Parsed<Kind>)
    ensures r.Ok? ==> r.value.1 != [] && |r.value.1| < |ts|
  {
    var ts1 :- Expect(ts, LBrace);
    var ts2 :- KeyColon(ts1, "kind");
    var (kind, ts3) :- ExpectString(ts2);
    var k :- KindOf(kind);
    Ok((k, ts3))
  }

  function ParseTerm(ts: seq<Token>): (r: Parsed<Term>)
    ensures r.Ok? ==> r.value.1 != [] && |r.value.1| < |ts|
    decreases |ts|, 2
  {
    var (k, ts1) :- ParseKind(ts);
    ParseBody(k, ts1)
  }

  /** What follows the kind. */
  function ParseBody(k: Kind, ts: seq<Token>): (r: Parsed<Term>)
    ensures r.Ok? ==> r.value.1 != [] && |r.value.1| < |ts|
    ensures r.Ok? && !k.KCall? ==> !r.value.0.Call?
    decreases |ts|, 1
  {
    match k
    case KInt => ParseInt(ts)
    case KStr => ParseStr(ts)
    case KCall => ParseCall(ts)
    case KBinary => ParseBinary(ts)
    case KFunction => ParseFunction(ts)
    case KLet => ParseLet(ts)
    case KIf => ParseIf(ts)
    case KUnary(op) => ParseUnary(ts, op)
    case KBool => ParseBool(ts)
    case KTuple => ParseTuple(ts)
    case KVar => ParseVar(ts)
  }

  function ParseInt(ts: seq<Token>): (r: Parsed<Term>)
    ensures r.Ok? ==> r.value.0.Int? && r.value.1 != [] && |r.value.1| < |ts|
  {
    var ts1 :- Field(ts, "value");
    var (digits, ts2) :- ExpectInt(ts1);
    var (loc, ts3) :- Closing(ts2);
    Ok((Int(DigitsToNat(digits), loc), ts3))
  }

  function ParseStr(ts: seq<Token>): (r: Parsed<Term>)
    ensures r.Ok? ==> r.value.0.Str? && r.value.1 != [] && |r.value.1| < |ts|
  {
    var ts1 :- Field(ts, "value");
    var (text, ts2) :- ExpectString(ts1);
    var (loc, ts3) :- Closing(ts2);
    Ok((Str(text, loc), ts3))
  }

  function ParseBool(ts: seq<Token>): (r: Parsed<Term>)
    ensures r.Ok? ==> r.value.0.Bool? && r.value.1 != [] && |r.value.1| < |ts|
  {
    var ts1 :- Field(ts, "value");
    var (b, ts2) :- ExpectBool(ts1);
    var (loc, ts3) :- Closing(ts2);
    Ok((Bool(b, loc), ts3))
  }

  function ParseVar(ts: seq<Token>): (r: Parsed<Term>)
    ensures r.Ok? ==> r.value.0.Var? && r.value.1 != [] && |r.value.1| < |ts|
  {
    var ts1 :- Field(ts, "text");
    var (name, ts2) :- ExpectString(ts1);
    var (loc, ts3) :- Closing(ts2);
    Ok((Var(name, loc), ts3))
  }

  function ParseUnary(ts: seq<Token>, op: UnOp): (r: Parsed<Term>)
    ensures r.Ok? ==> r.value.0.Unary? && r.value.1 != [] && |r.value.1| < |ts|
    decreases |ts|, 0
  {
    var ts1 :- Field(ts, "value");
    var (e, ts2) :- ParseTerm(ts1);
    var (loc, ts3) :- Closing(ts2);
    Ok((Unary(op, e, loc), ts3))
  }

  function ParseBinary(ts: seq<Token>): (r: Parsed<Term>)
    ensures r.Ok? ==> r.value.0.Binary? && r.value.1 != [] && |r.value.1| < |ts|
    decreases |ts|, 0
  {
    var ts1 :- Field(ts, "lhs");
    var (l, ts2) :- ParseTerm(ts1);
    var ts3 :- Field(ts2, "op");
    var (name, ts4) :- ExpectString(ts3);
    var op :- OperatorOf(name);
    var ts5 :- Field(ts4, "rhs");
    var (r, ts6) :- ParseTerm(ts5);
    var (loc, ts7) :- Closing(ts6);
    Ok((Binary(l, op, r, loc), ts7))
  }

  function ParseTuple(ts: seq<Token>): (r: Parsed<Term>)
    ensures r.Ok? ==> r.value.0.Pair? && r.value.1 != [] && |r.value.1| < |ts|
    decreases |ts|, 0
  {
    var ts1 :- Field(ts, "first");
    var (l, ts2) :- ParseTerm(ts1);
    var ts3 :- Field(ts2, "second");
    var (r, ts4) :- ParseTerm(ts3);
    var (loc, ts5) :- Closing(ts4);
    Ok((Pair(l, r, loc), ts5))
  }

  function ParseLet(ts: seq<Token>): (r: Parsed<Term>)
    ensures r.Ok? ==> r.value.0.Let? && r.value.1 != [] && |r.value.1| < |ts|
    decreases |ts|, 0
  {
    var ts1 :- Field(ts, "name");
    var (x, ts2) :- ParseParameter(ts1);
    var ts3 :- Field(ts2, "value");
    var (v, ts4) :- ParseTerm(ts3);
    var ts5 :- Field(ts4, "next");
    var (n, ts6) :- ParseTerm(ts5);
    var (loc, ts7) :- Closing(ts6);
    Ok((Let(x, v, n, loc), ts7))
  }

  function ParseIf(ts: seq<Token>): (r: Parsed<Term>)
    ensures r.Ok? ==> r.value.0.If? && r.value.1 != [] && |r.value.1| < |ts|
    decreases |ts|, 0
  {
    var ts1 :- Field(ts, "condition");
    var (c, ts2) :- ParseTerm(ts1);
    var ts3 :- Field(ts2, "then");
    var (a, ts4) :- ParseTerm(ts3);
    var ts5 :- Field(ts4, "otherwise");
    var (b, ts6) :- ParseTerm(ts5);
    var (loc, ts7) :- Closing(ts6);
    Ok((If(c, a, b, loc), ts7))
  }

  function ParseCall(ts: seq<Token>): (r: Parsed<Term>)
    ensures r.Ok? ==> r.value.0.Call? && r.value.1 != [] && |r.value.1| < |ts|
    decreases |ts|, 0
  {
    var ts1 :- Field(ts, "callee");
    var (f, ts2) :- ParseTerm(ts1);
    var ts3 :- Field(ts2, "arguments");
    var ts4 :- Expect(ts3, LBracket);
    var (args, ts5) :- ParseTerms(ts4);
    var (loc, ts6) :- Closing(ts5);
    Ok((Call(f, args, loc), ts6))
  }

  function ParseFunction(ts: seq<Token>): (r: Parsed<Term>)
    ensures r.Ok? ==> r.value.0.Function? && r.value.1 != [] && |r.value.1| < |ts|
    decreases |ts|, 0
  {
    var ts1 :- Field(ts, "parameters");
    var ts2 :- Expect(ts1, LBracket);
    var (ps, ts3) :- ParseParameters(ts2);
    var ts4 :- Field(ts3, "value");
    var (b, ts5) :- ParseTerm(ts4);
    var (loc, ts6) :- Closing(ts5);
    Ok((Function(ps, b, loc), ts6))
  }

  // ----- lists, after the opening bracket -----

  function ParseTerms(ts: seq<Token>): (r: Parsed<seq<Term>>)
    ensures r.Ok? ==> r.value.1 != [] && |r.value.1| < |ts|
    decreases |ts|, 3
  {
    if ts != [] && ts[0] == RBracket then
      var rest :- Advance(ts);
      Ok(([], rest))
    else
      var (t, ts1) :- ParseTerm(ts);
      var (more, ts2) :- ParseMoreTerms(ts1);
      Ok(([t] + more, ts2))
  }

  function ParseMoreTerms(ts: seq<Token>): (r: Parsed<seq<Term>>)
    ensures r.Ok? ==> r.value.1 != [] && |r.value.1| < |ts|
    decreases |ts|, 3
  {
    if ts != [] && ts[0] == RBracket then
      var rest :- Advance(ts);
      Ok(([], rest))
    else
      var ts1 :- Expect(ts, Comma);
      var (t, ts2) :- ParseTerm(ts1);
      var (more, ts3) :- ParseMoreTerms(ts2);
      Ok(([t] + more, ts3))
  }

  function ParseParameters(ts: seq<Token>): (r: Parsed<seq<Parameter>>)
    ensures r.Ok? ==> r.value.1 != [] && |r.value.1| < |ts|
  {
    if ts != [] && ts[0] == RBracket then
      var rest :- Advance(ts);
      Ok(([], rest))
    else
      var (p, ts1) :- ParseParameter(ts);
      var (more, ts2) :- ParseMoreParameters(ts1);
      Ok(([p] + more, ts2))
  }

  function ParseMoreParameters(ts: seq<Token>): (r: Parsed<seq<Parameter>>)
    ensures r.Ok? ==> r.value.1 != [] && |r.value.1| < |ts|
    decreases |ts|
  {
    if ts != [] && ts[0] == RBracket then
      var rest :- Advance(ts);
      Ok(([], rest))
    else
      var ts1 :- Expect(ts, Comma);
      var (p, ts2) :- ParseParameter(ts1);
      var (more, ts3) :- ParseMoreParameters(ts2);
      Ok(([p] + more, ts3))
  }

  /** A whole file. What follows its closing brace must scan but is not looked at. */
  function ParseFile(ts: seq<Token>): (r: Parsed<File>) {
    var ts1 :- Expect(ts, LBrace);
    var ts2 :- KeyColon(ts1, "name");
    var (name, ts3) :- ExpectString(ts2);
    var ts4 :- Field(ts3, "expression");
    var (t, ts5) :- ParseTerm(ts4);
    var (loc, ts6) :- Closing(ts5);
    Ok((File(name, t, loc), ts6))
  }
}
