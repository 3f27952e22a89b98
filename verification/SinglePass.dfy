/** The single pass of src/compiler.c: parsing and emitting are one, the AST is never built, variable
    tables change in place and jumps are emitted first and patched later. Its specification is a
    function that compiles while it parses; every method does exactly what that function says, down to
    the error it reports. On tokens that parse the function gives what parsing first and compiling then
    gives, result or error; on all others it fails as well. */
module SinglePass {
  import opened Values
  import opened Syntax
  import opened Bytecode
  import opened Codegen
  import opened Tokens
  import opened Scanners
  import opened Chunks
  import opened Parser
  import opened Scopes

  // ----- steps -----

  /** The context, the code added and the tokens left. */
  datatype Pass = Pass(context: Context, bytes: seq<byte>, rest: seq<Token>)

  /** The same for a list, with the number of its elements. */
  datatype PassAll = PassAll(context: Context, bytes: seq<byte>, count: nat, rest: seq<Token>)

  /** n elements with code bs, then the rest of the list. */
  ghost function Prepend(bs: seq<byte>, n: nat, r: Result<PassAll>): Result<PassAll> {
    match r
    case Err(_) => r
    case Ok(d) => Ok(d.(bytes := bs + d.bytes, count := n + d.count))
  }

  lemma PrependTwice(bs: seq<byte>, n: nat, cs: seq<byte>, k: nat, r: Result<PassAll>)
    ensures Prepend(bs, n, Prepend(cs, k, r)) == Prepend(bs + cs, n + k, r)
  {
    if r.Ok? {
      assert bs + (cs + r.value.bytes) == bs + cs + r.value.bytes;
    }
  }

  ghost function WithInstr(m: Mode, p: Pass, i: Instr, rest: seq<Token>): Pass {
    Pass(p.context, if m.emit then p.bytes + Encode(i) else p.bytes, rest)
  }

  /** The end of a node, and its instruction. */
  ghost function Ending(m: Mode, d: Pass, i: Instr): (r: Result<Pass>)
    ensures r.Ok? ==> r.value.context == d.context && |r.value.rest| < |d.rest|
  {
    var (_, rest) :- Closing(d.rest);
    Ok(WithInstr(m, d, i, rest))
  }

  lemma EndingBytes(m: Mode, c: Context, bytes: seq<byte>, rest: seq<Token>, i: Instr)
    ensures var r, r' := Ending(m, Pass(c, [], rest), i), Ending(m, Pass(c, bytes, rest), i);
      r' == if r.Ok? then Ok(r.value.(bytes := bytes + r.value.bytes)) else r
  {
    hide Encode, Closing;
    assert bytes + ([] + Encode(i)) == bytes + Encode(i);
    assert bytes + [] == bytes;
  }

  /** Code appended in steps is the code appended at once. */
  lemma Appended(code: seq<byte>, a: seq<byte>, b: seq<byte>, c: seq<byte>)
    ensures code + a + b + c == code + (a + b + c)
  {
  }

  // ----- the specification: each function follows the order of a compile_ function -----

  /** compile_term */
  ghost function TermSteps(m: Mode, ts: seq<Token>, isTail: bool, c: Context, base: nat): (r: Result<Pass>)
    requires c.Context?
    ensures r.Ok? ==> Depth(r.value.context) == Depth(c) && |r.value.rest| < |ts|
    decreases |ts|, 2
  {
    var (k, ts1) :- ParseKind(ts);
    KindSteps(m, k, ts1, isTail, c, base)
  }

  /** What follows the kind. */
  ghost function KindSteps(m: Mode, k: Kind, ts: seq<Token>, isTail: bool, c: Context, base: nat): (r: Result<Pass>)
    requires c.Context?
    ensures r.Ok? ==> Depth(r.value.context) == Depth(c) && |r.value.rest| < |ts|
    decreases |ts|, 1
  {
    match k
    case KInt => IntSteps(m, ts, c, base)
    case KStr => StrSteps(m, ts, c)
    case KCall => CallSteps(m, ts, isTail, c, base)
    case KBinary => BinarySteps(m, ts, c, base)
    case KFunction => FunctionSteps(m, ts, c)
    case KLet => LetSteps(m, ts, c, base)
    case KIf => if m.emit then IfSteps(m, ts, c, base) else CheckedIfSteps(m, ts, c, base)
    case KUnary(op) => UnarySteps(m, ts, op, c, base)
    case KBool => BoolSteps(m, ts, c)
    case KTuple => TupleSteps(m, ts, c, base)
    case KVar => VarSteps(m, ts, c)
  }

  /** A field that holds a term. */
  ghost function FieldTerm(m: Mode, ts: seq<Token>, key: string, isTail: bool, c: Context, base: nat): (r: Result<Pass>)
    requires c.Context?
    ensures r.Ok? ==> Depth(r.value.context) == Depth(c) && |r.value.rest| < |ts|
    decreases |ts|, 0, 0
  {
    var ts1 :- Field(ts, key);
    TermSteps(m, ts1, isTail, c, base)
  }

  ghost function IntSteps(m: Mode, ts: seq<Token>, c: Context, base: nat): (r: Result<Pass>)
    requires c.Context?
    ensures r.Ok? ==> Depth(r.value.context) == Depth(c) && |r.value.rest| < |ts|
  {
    var ts1 :- Field(ts, "value");
    var (digits, ts2) :- ExpectInt(ts1);
    var (_, ts3) :- Closing(ts2);
    var e :- CompileInt(m, c, DigitsToNat(digits), base);
    Ok(Pass(e.context, e.bytes, ts3))
  }

  ghost function StrSteps(m: Mode, ts: seq<Token>, c: Context): (r: Result<Pass>)
    requires c.Context?
    ensures r.Ok? ==> Depth(r.value.context) == Depth(c) && |r.value.rest| < |ts|
  {
    var ts1 :- Field(ts, "value");
    var (text, ts2) :- ExpectString(ts1);
    var (_, ts3) :- Closing(ts2);
    var e :- CompileConstant(m, c, StrValue(text));
    Ok(Pass(e.context, e.bytes, ts3))
  }

  ghost function BoolSteps(m: Mode, ts: seq<Token>, c: Context): (r: Result<Pass>)
    requires c.Context?
    ensures r.Ok? ==> Depth(r.value.context) == Depth(c) && |r.value.rest| < |ts|
  {
    var ts1 :- Field(ts, "value");
    var (b, ts2) :- ExpectBool(ts1);
    var (_, ts3) :- Closing(ts2);
    Ok(Pass(c, if m.emit then Encode(if b then ITrue else IFalse) else [], ts3))
  }

  ghost function VarSteps(m: Mode, ts: seq<Token>, c: Context): (r: Result<Pass>)
    requires c.Context?
    ensures r.Ok? ==> Depth(r.value.context) == Depth(c) && |r.value.rest| < |ts|
  {
    var ts1 :- Field(ts, "text");
    var (name, ts2) :- ExpectString(ts1);
    var (_, ts3) :- Closing(ts2);
    var e :- CompileVar(m, c, name);
    Ok(Pass(e.context, e.bytes, ts3))
  }

  ghost function UnarySteps(m: Mode, ts: seq<Token>, op: UnOp, c: Context, base: nat): (r: Result<Pass>)
    requires c.Context?
    ensures r.Ok? ==> Depth(r.value.context) == Depth(c) && |r.value.rest| < |ts|
    decreases |ts|, 0, 1
  {
    var d :- FieldTerm(m, ts, "value", false, c, base);
    Ending(m, d, IUnary(op))
  }

  ghost function TupleSteps(m: Mode, ts: seq<Token>, c: Context, base: nat): (r: Result<Pass>)
    requires c.Context?
    ensures r.Ok? ==> Depth(r.value.context) == Depth(c) && |r.value.rest| < |ts|
    decreases |ts|, 0, 1
  {
    var d :- FieldTerm(m, ts, "first", false, c, base);
    var d' :- FieldTerm(m, d.rest, "second", false, d.context, base + |d.bytes|);
    Ending(m, d'.(bytes := d.bytes + d'.bytes), ITuple)
  }

  ghost function OperatorField(ts: seq<Token>): (r: Parsed<BinOp>)
    ensures r.Ok? ==> |r.value.1| < |ts|
  {
    var ts1 :- Field(ts, "op");
    var (name, ts2) :- ExpectString(ts1);
    var op :- OperatorOf(name);
    Ok((op, ts2))
  }

  ghost function BinarySteps(m: Mode, ts: seq<Token>, c: Context, base: nat): (r: Result<Pass>)
    requires c.Context?
    ensures r.Ok? ==> Depth(r.value.context) == Depth(c) && |r.value.rest| < |ts|
    decreases |ts|, 0, 1
  {
    var d :- FieldTerm(m, ts, "lhs", false, c, base);
    var (op, ts1) :- OperatorField(d.rest);
    var d' :- FieldTerm(m, ts1, "rhs", false, d.context, base + |d.bytes|);
    Ending(m, d'.(bytes := d.bytes + d'.bytes), IBinary(op))
  }

  /** One parameter: its tokens, then a new local. */
  ghost function ParamSteps(ts: seq<Token>, c: Context): (r: Result<Pass>)
    requires c.Context?
    ensures r.Ok? ==> Depth(r.value.context) == Depth(c) && |r.value.rest| < |ts| && r.value.bytes == []
  {
    var (p, rest) :- ParseParameter(ts);
    var d :- AddLocal(c, p.text);
    Ok(Pass(d, [], rest))
  }

  ghost function LetSteps(m: Mode, ts: seq<Token>, c: Context, base: nat): (r: Result<Pass>)
    requires c.Context?
    ensures r.Ok? ==> Depth(r.value.context) == Depth(c) && |r.value.rest| < |ts|
    decreases |ts|, 0, 1
  {
    var ts1 :- Field(ts, "name");
    var x :- ParamSteps(ts1, c);
    var d :- FieldTerm(m, x.rest, "value", false, x.context, base);
    var d' :- FieldTerm(m, d.rest, "next", true, d.context, base + |d.bytes|);
    var (_, rest) :- Closing(d'.rest);
    Ok(Pass(d'.context, d.bytes + d'.bytes, rest))
  }

  /** The arguments after the bracket. */
  ghost function TermsSteps(m: Mode, ts: seq<Token>, c: Context, base: nat): (r: Result<PassAll>)
    requires c.Context?
    ensures r.Ok? ==> Depth(r.value.context) == Depth(c) && |r.value.rest| < |ts|
    decreases |ts|, 3
  {
    if ts != [] && ts[0] == RBracket then
      var rest :- Advance(ts);
      Ok(PassAll(c, [], 0, rest))
    else
      var d :- TermSteps(m, ts, false, c, base);
      Prepend(d.bytes, 1, MoreTermsSteps(m, d.rest, d.context, base + |d.bytes|))
  }

  ghost function MoreTermsSteps(m: Mode, ts: seq<Token>, c: Context, base: nat): (r: Result<PassAll>)
    requires c.Context?
    ensures r.Ok? ==> Depth(r.value.context) == Depth(c) && |r.value.rest| < |ts|
    decreases |ts|, 3
  {
    if ts != [] && ts[0] == RBracket then
      var rest :- Advance(ts);
      Ok(PassAll(c, [], 0, rest))
    else
      var ts1 :- Expect(ts, Comma);
      var d :- TermSteps(m, ts1, false, c, base);
      Prepend(d.bytes, 1, MoreTermsSteps(m, d.rest, d.context, base + |d.bytes|))
  }

  ghost function ArgumentsField(m: Mode, ts: seq<Token>, c: Context, base: nat): (r: Result<PassAll>)
    requires c.Context?
    ensures r.Ok? ==> Depth(r.value.context) == Depth(c) && |r.value.rest| < |ts|
    decreases |ts|, 0, 0
  {
    var ts1 :- Field(ts, "arguments");
    var ts2 :- Expect(ts1, LBracket);
    TermsSteps(m, ts2, c, base)
  }

  ghost function CallSteps(m: Mode, ts: seq<Token>, isTail: bool, c: Context, base: nat): (r: Result<Pass>)
    requires c.Context?
    ensures r.Ok? ==> Depth(r.value.context) == Depth(c) && |r.value.rest| < |ts|
    decreases |ts|, 0, 1
  {
    var d :- FieldTerm(m, ts, "callee", false, c, base);
    var d' :- ArgumentsField(m, d.rest, d.context, base + |d.bytes|);
    Ending(m, Pass(d'.context, d.bytes + d'.bytes, d'.rest), CallInstr(m, isTail, d'.count))
  }

  /** The branches of an `if`, without emission. */
  ghost function CheckedIfSteps(m: Mode, ts: seq<Token>, c: Context, base: nat): (r: Result<Pass>)
    requires c.Context?
    ensures r.Ok? ==> Depth(r.value.context) == Depth(c) && |r.value.rest| < |ts|
    decreases |ts|, 0, 1
  {
    var d0 :- FieldTerm(m, ts, "condition", false, c, base);
    var d1 :- FieldTerm(m, d0.rest, "then", true, d0.context, base);
    var d2 :- FieldTerm(m, d1.rest, "otherwise", true, d1.context, base);
    var (_, rest) :- Closing(d2.rest);
    Ok(Pass(d2.context, d0.bytes + d1.bytes + d2.bytes, rest))
  }

  /** The first branch, after the conditional jump at p1, and the jump over the second branch. */
  ghost function ThenSteps(m: Mode, ts: seq<Token>, c: Context, p1: nat): (r: Result<Pass>)
    requires c.Context?
    ensures r.Ok? ==>
      Depth(r.value.context) == Depth(c) && |r.value.rest| < |ts| && p1 + |r.value.bytes| + 6 <= MAX_WORD
    decreases |ts|, 0, 1
  {
    var _ :- EmitWithWord(m, IJumpIfFalse(0), p1);
    var d1 :- FieldTerm(m, ts, "then", true, c, p1 + 3);
    var _ :- EmitWithWord(m, IJump(0), p1 + 3 + |d1.bytes|);
    var _ :- Target(p1 + |d1.bytes| + 6);
    Ok(d1)
  }

  /** The second branch at p2, and the end of the node. */
  ghost function ElseSteps(m: Mode, ts: seq<Token>, c: Context, p2: nat): (r: Result<Pass>)
    requires c.Context?
    ensures r.Ok? ==> Depth(r.value.context) == Depth(c) && |r.value.rest| < |ts| && p2 + |r.value.bytes| <= MAX_WORD
    decreases |ts|, 0, 1
  {
    var d2 :- FieldTerm(m, ts, "otherwise", true, c, p2);
    var _ :- Target(p2 + |d2.bytes|);
    var (_, rest) :- Closing(d2.rest);
    Ok(d2.(rest := rest))
  }

  /** An `if` with its two jumps: both are emitted before their targets are known. */
  ghost function IfSteps(m: Mode, ts: seq<Token>, c: Context, base: nat): (r: Result<Pass>)
    requires c.Context?
    ensures r.Ok? ==> Depth(r.value.context) == Depth(c) && |r.value.rest| < |ts|
    decreases |ts|, 0, 2
  {
    var d0 :- FieldTerm(m, ts, "condition", false, c, base);
    var d1 :- ThenSteps(m, d0.rest, d0.context, base + |d0.bytes|);
    var p2 := base + |d0.bytes| + |d1.bytes| + 6;
    var d2 :- ElseSteps(m, d1.rest, d1.context, p2);
    Ok(d2.(bytes := d0.bytes + Encode(IJumpIfFalse(p2)) + d1.bytes + Encode(IJump(p2 + |d2.bytes|)) + d2.bytes))
  }

  /** The parameters after the bracket. */
  ghost function ParamsSteps(ts: seq<Token>, c: Context): (r: Result<PassAll>)
    requires c.Context?
    ensures r.Ok? ==> Depth(r.value.context) == Depth(c) && |r.value.rest| < |ts| && r.value.bytes == []
  {
    if ts != [] && ts[0] == RBracket then
      var rest :- Advance(ts);
      Ok(PassAll(c, [], 0, rest))
    else
      var d :- ParamSteps(ts, c);
      Prepend([], 1, MoreParamsSteps(d.rest, d.context))
  }

  ghost function MoreParamsSteps(ts: seq<Token>, c: Context): (r: Result<PassAll>)
    requires c.Context?
    ensures r.Ok? ==> Depth(r.value.context) == Depth(c) && |r.value.rest| < |ts| && r.value.bytes == []
    decreases |ts|
  {
    if ts != [] && ts[0] == RBracket then
      var rest :- Advance(ts);
      Ok(PassAll(c, [], 0, rest))
    else
      var ts1 :- Expect(ts, Comma);
      var d :- ParamSteps(ts1, c);
      Prepend([], 1, MoreParamsSteps(d.rest, d.context))
  }

  /** The parameters, the body and the end of a function, in its own context, with code from 0. */
  ghost function BodySteps(m: Mode, ts: seq<Token>, inner: Context): (r: Result<PassAll>)
    requires inner.Context?
    ensures r.Ok? ==> Depth(r.value.context) == Depth(inner) && |r.value.rest| < |ts|
    decreases |ts|, 0, 1
  {
    var ps :- ParamsSteps(ts, inner);
    var d :- FieldTerm(m, ps.rest, "value", true, ps.context, 0);
    var (_, rest) :- Closing(d.rest);
    Ok(PassAll(d.context, if m.emit then d.bytes + Encode(IReturn) else d.bytes, ps.count, rest))
  }

  /** What is left of a finished function: an entry in the enclosing function and its instruction. */
  ghost function FunctionPass(m: Mode, b: PassAll): Pass
    requires b.context.Context? && b.context.enclosing.Context?
  {
    var outer := b.context.enclosing;
    if !m.emit then Pass(outer, [], b.rest)
    else Pass(outer.(functions := outer.functions + [Finish(b.context, b.count, b.bytes)]),
              Encode(IClosure(|outer.functions| % 256)), b.rest)
  }

  lemma TwoDeep(c: Context)
    requires Depth(c) >= 2
    ensures c.Context? && c.enclosing.Context? && Depth(c.enclosing) == Depth(c) - 1
  {
    assert Depth(c) == 1 + Depth(c.enclosing);
  }

  ghost function FunctionSteps(m: Mode, ts: seq<Token>, c: Context): (r: Result<Pass>)
    requires c.Context?
    ensures r.Ok? ==> Depth(r.value.context) == Depth(c) && |r.value.rest| < |ts|
    decreases |ts|, 0, 2
  {
    var ts1 :- Field(ts, "parameters");
    var ts2 :- Expect(ts1, LBracket);
    var b :- BodySteps(m, ts2, NewContext(c));
    TwoDeep(b.context);
    Ok(FunctionPass(m, b))
  }

  /** compile_file: a file's expression, then the return that ends the program. */
  ghost function FileSteps(m: Mode, ts: seq<Token>, c: Context, base: nat): (r: Result<Pass>)
    requires c.Context?
    ensures r.Ok? ==> r.value.context.Context?
  {
    var ts1 :- Expect(ts, LBrace);
    var ts2 :- KeyColon(ts1, "name");
    var (_, ts3) :- ExpectString(ts2);
    var d :- FieldTerm(m, ts3, "expression", false, c, base);
    Ending(m, d, IReturn)
  }

  /** compile, on a source text: the program's function, or the first error in the order of the text. */
  ghost function TextSteps(m: Mode, source: string): Result<CompiledFunction> {
    var d :- FileSteps(m, TokensFrom(source, 0), NewContext(NoContext), 0);
    Ok(Finish(d.context, 0, d.bytes))
  }

  /** The function of the program that a source text holds, parsed first and compiled then. */
  function CompiledText(m: Mode, source: string): Result<CompiledFunction> {
    var (file, _) :- ParseFile(TokensFrom(source, 0));
    CompileProgram(m, file.expression)
  }

  lemma FirstTokenBad(m: Mode, source: string)
    ensures TokensFrom(source, 0)[0] == Token.Bad ==> TextSteps(m, source) == Err(SyntaxError)
  {
  }

  // ----- parsing first -----

  /** A compiled term, with the tokens behind it. */
  function Passed(e: Result<Emitted>, rest: seq<Token>): Result<Pass> {
    var d :- e;
    Ok(Pass(d.context, d.bytes, rest))
  }

  /** r is what compiling the parsed term gives, result or error; if there is none, r is an error. */
  ghost predicate Follows(r: Result<Pass>, p: Parsed<Term>, m: Mode, isTail: bool, c: Context, base: nat)
    requires c.Context?
  {
    match p
    case Err(_) => r.Err?
    case Ok(x) => r == Passed(Compile(m, x.0, isTail, c, base), x.1)
  }

  ghost predicate AllFollow(r: Result<PassAll>, p: Parsed<seq<Term>>, m: Mode, c: Context, base: nat)
    requires c.Context?
  {
    match p
    case Err(_) => r.Err?
    case Ok(x) =>
      match CompileAll(m, x.0, c, base)
      case Err(e) => r == Err(e)
      case Ok(e) => r == Ok(PassAll(e.context, e.bytes, |x.0|, x.1))
  }

  ghost predicate ParamsFollow(r: Result<PassAll>, p: Parsed<seq<Parameter>>, c: Context)
    requires c.Context?
  {
    match p
    case Err(_) => r.Err?
    case Ok(x) =>
      match AddParams(c, x.0)
      case Err(e) => r == Err(e)
      case Ok(d) => r == Ok(PassAll(d, [], |x.0|, x.1))
  }

  /** The interleaved steps of a term are those of parsing and then compiling it. */
  lemma {:induction false} TermFollows(m: Mode, ts: seq<Token>, isTail: bool, c: Context, base: nat)
    requires c.Context?
    ensures Follows(TermSteps(m, ts, isTail, c, base), ParseTerm(ts), m, isTail, c, base)
    decreases |ts|, 3
  {
    hide Follows, ParseKind, ParseBody, KindSteps;
    if ParseKind(ts).Ok? {
      KindFollows(m, ParseKind(ts).value.0, ParseKind(ts).value.1, isTail, c, base);
    } else {
      NoneFollows(ParseKind(ts).error, m, isTail, c, base);
    }
  }

  lemma NoneFollows(e: CompileError, m: Mode, isTail: bool, c: Context, base: nat)
    requires c.Context?
    ensures Follows(Err(e), Err(e), m, isTail, c, base)
  {
  }

  lemma TailIrrelevant(m: Mode, t: Term, isTail: bool, c: Context, base: nat)
    requires c.Context? && !t.Call?
    ensures Compile(m, t, isTail, c, base) == Compile(m, t, false, c, base)
  {
    hide CompileInt, CompileConstant, CompileVar, CompileCall, CompileBinary, CompileUnary, CompilePair,
      CompileClosure, CompileLet, CompileIf;
  }

  /** The tail flag only matters for calls. */
  lemma FollowsAnyway(r: Result<Pass>, k: Kind, ts: seq<Token>, m: Mode, isTail: bool, c: Context, base: nat)
    requires c.Context? && !k.KCall? && Follows(r, ParseBody(k, ts), m, false, c, base)
    ensures Follows(r, ParseBody(k, ts), m, isTail, c, base)
  {
    hide Compile, ParseBody;
    if ParseBody(k, ts).Ok? {
      TailIrrelevant(m, ParseBody(k, ts).value.0, isTail, c, base);
    }
  }

  lemma {:induction false} KindFollows(m: Mode, k: Kind, ts: seq<Token>, isTail: bool, c: Context, base: nat)
    requires c.Context?
    ensures Follows(KindSteps(m, k, ts, isTail, c, base), ParseBody(k, ts), m, isTail, c, base)
    decreases |ts|, 2
  {
    hide Follows, IntSteps, StrSteps, CallSteps, BinarySteps, FunctionSteps, LetSteps, IfSteps, CheckedIfSteps,
      UnarySteps, BoolSteps, TupleSteps, VarSteps, ParseInt, ParseStr, ParseCall, ParseBinary, ParseFunction,
      ParseLet, ParseIf, ParseUnary, ParseBool, ParseTuple, ParseVar;
    if !k.KCall? {
      KindTail(m, k, ts, isTail, c, base);
    }
    match k {
      case KInt => LeafFollows(m, k, ts, c, base);
      case KStr => LeafFollows(m, k, ts, c, base);
      case KBool => LeafFollows(m, k, ts, c, base);
      case KVar => LeafFollows(m, k, ts, c, base);
      case KCall => CallFollows(m, ts, isTail, c, base);
      case KBinary => BinaryFollows(m, ts, c, base);
      case KFunction => FunctionFollows(m, ts, c, base);
      case KLet => LetFollows(m, ts, c, base);
      case KIf =>
        if m.emit {
          IfFollows(m, ts, c, base);
        } else {
          CheckedIfFollows(m, ts, c, base);
        }
      case KUnary(op) => UnaryFollows(m, ts, op, c, base);
      case KTuple => TupleFollows(m, ts, c, base);
    }
    if !k.KCall? {
      FollowsAnyway(KindSteps(m, k, ts, isTail, c, base), k, ts, m, isTail, c, base);
    }
  }

  lemma KindTail(m: Mode, k: Kind, ts: seq<Token>, isTail: bool, c: Context, base: nat)
    requires c.Context? && !k.KCall?
    ensures KindSteps(m, k, ts, isTail, c, base) == KindSteps(m, k, ts, false, c, base)
  {
    hide IntSteps, StrSteps, CallSteps, BinarySteps, FunctionSteps, LetSteps, IfSteps, CheckedIfSteps, UnarySteps,
      BoolSteps, TupleSteps, VarSteps;
  }

  lemma LeafFollows(m: Mode, k: Kind, ts: seq<Token>, c: Context, base: nat)
    requires c.Context? && (k.KInt? || k.KStr? || k.KBool? || k.KVar?)
    ensures Follows(KindSteps(m, k, ts, false, c, base), ParseBody(k, ts), m, false, c, base)
  {
    hide Field, Closing, ExpectInt, ExpectString, ExpectBool, Encode, CompileInt, CompileConstant, CompileVar,
      CompileCall, CompileBinary, CompileUnary, CompilePair, CompileClosure, CompileLet, CompileIf;
  }

  lemma {:induction false} FieldTermFollows(m: Mode, ts: seq<Token>, key: string, isTail: bool, c: Context, base: nat)
    requires c.Context?
    ensures if Field(ts, key).Err? then FieldTerm(m, ts, key, isTail, c, base) == Err(Field(ts, key).error)
            else Follows(FieldTerm(m, ts, key, isTail, c, base), ParseTerm(Field(ts, key).value), m, isTail, c, base)
    decreases |ts|, 0
  {
    hide Field, TermSteps, ParseTerm, Follows;
    if Field(ts, key).Ok? {
      TermFollows(m, Field(ts, key).value, isTail, c, base);
    }
  }

  lemma {:induction false} UnaryFollows(m: Mode, ts: seq<Token>, op: UnOp, c: Context, base: nat)
    requires c.Context?
    ensures Follows(UnarySteps(m, ts, op, c, base), ParseUnary(ts, op), m, false, c, base)
    decreases |ts|, 1
  {
    hide Field, FieldTerm, Closing, ParseTerm, Encode, CompileInt, CompileConstant, CompileVar, CompileCall,
      CompileBinary, CompilePair, CompileClosure, CompileLet, CompileIf;
    FieldTermFollows(m, ts, "value", false, c, base);
    if ParseUnary(ts, op).Ok? {
      var t := ParseUnary(ts, op).value.0;
      assert Compile(m, t, false, c, base) == Codegen.CompileUnary(m, t, c, base);
    }
  }

  lemma {:induction false} TupleFollows(m: Mode, ts: seq<Token>, c: Context, base: nat)
    requires c.Context?
    ensures Follows(TupleSteps(m, ts, c, base), ParseTuple(ts), m, false, c, base)
    decreases |ts|, 1
  {
    hide Field, FieldTerm, Closing, ParseTerm, Encode, CompileInt, CompileConstant, CompileVar, CompileCall,
      CompileBinary, CompileUnary, CompileClosure, CompileLet, CompileIf;
    FieldTermFollows(m, ts, "first", false, c, base);
    var d := FieldTerm(m, ts, "first", false, c, base);
    if d.Ok? {
      FieldTermFollows(m, d.value.rest, "second", false, d.value.context, base + |d.value.bytes|);
    }
    if ParseTuple(ts).Ok? {
      var t := ParseTuple(ts).value.0;
      assert Compile(m, t, false, c, base) == CompilePair(m, t, c, base);
    }
  }

  lemma {:induction false} BinaryFollows(m: Mode, ts: seq<Token>, c: Context, base: nat)
    requires c.Context?
    ensures Follows(BinarySteps(m, ts, c, base), ParseBinary(ts), m, false, c, base)
    decreases |ts|, 1
  {
    hide Field, FieldTerm, Closing, ExpectString, OperatorOf, ParseTerm, Encode, CompileInt, CompileConstant,
      CompileVar, CompileCall, CompileUnary, CompilePair, CompileClosure, CompileLet, CompileIf;
    FieldTermFollows(m, ts, "lhs", false, c, base);
    var d := FieldTerm(m, ts, "lhs", false, c, base);
    if d.Ok? && OperatorField(d.value.rest).Ok? {
      FieldTermFollows(m, OperatorField(d.value.rest).value.1, "rhs", false, d.value.context, base + |d.value.bytes|);
    }
    if ParseBinary(ts).Ok? {
      var t := ParseBinary(ts).value.0;
      assert Compile(m, t, false, c, base) == CompileBinary(m, t, c, base);
    }
  }

  lemma {:induction false} LetFollows(m: Mode, ts: seq<Token>, c: Context, base: nat)
    requires c.Context?
    ensures Follows(LetSteps(m, ts, c, base), ParseLet(ts), m, false, c, base)
    decreases |ts|, 1
  {
    hide Field, FieldTerm, Closing, ParseParameter, ParseTerm, Encode, AddLocal, CompileInt, CompileConstant,
      CompileVar, CompileCall, CompileBinary, CompileUnary, CompilePair, CompileClosure, CompileIf;
    if Field(ts, "name").Ok? && ParamSteps(Field(ts, "name").value, c).Ok? {
      var x := ParamSteps(Field(ts, "name").value, c).value;
      FieldTermFollows(m, x.rest, "value", false, x.context, base);
      var d := FieldTerm(m, x.rest, "value", false, x.context, base);
      if d.Ok? {
        FieldTermFollows(m, d.value.rest, "next", true, d.value.context, base + |d.value.bytes|);
      }
    }
    if ParseLet(ts).Ok? {
      var t := ParseLet(ts).value.0;
      assert Compile(m, t, false, c, base) == CompileLet(m, t, c, base);
    }
  }

  lemma {:induction false} CallFollows(m: Mode, ts: seq<Token>, isTail: bool, c: Context, base: nat)
    requires c.Context?
    ensures Follows(CallSteps(m, ts, isTail, c, base), ParseCall(ts), m, isTail, c, base)
    decreases |ts|, 1
  {
    hide Field, FieldTerm, Expect, Closing, ParseTerm, ParseTerms, TermsSteps, Encode, CallInstr, CompileAll,
      CompileInt, CompileConstant, CompileVar, CompileBinary, CompileUnary, CompilePair, CompileClosure, CompileLet,
      CompileIf;
    FieldTermFollows(m, ts, "callee", false, c, base);
    var d := FieldTerm(m, ts, "callee", false, c, base);
    if d.Ok? {
      var ts1 := Field(d.value.rest, "arguments");
      if ts1.Ok? && Expect(ts1.value, LBracket).Ok? {
        TermsFollow(m, Expect(ts1.value, LBracket).value, d.value.context, base + |d.value.bytes|);
      }
    }
    if ParseCall(ts).Ok? {
      var t := ParseCall(ts).value.0;
      assert Compile(m, t, isTail, c, base) == CompileCall(m, t, isTail, c, base);
    }
  }

  lemma {:induction false} CheckedIfFollows(m: Mode, ts: seq<Token>, c: Context, base: nat)
    requires c.Context? && !m.emit
    ensures Follows(CheckedIfSteps(m, ts, c, base), ParseIf(ts), m, false, c, base)
    decreases |ts|, 1
  {
    hide Field, FieldTerm, Closing, ParseTerm, Encode, CompileInt, CompileConstant, CompileVar, CompileCall,
      CompileBinary, CompileUnary, CompilePair, CompileClosure, CompileLet;
    FieldTermFollows(m, ts, "condition", false, c, base);
    var d0 := FieldTerm(m, ts, "condition", false, c, base);
    if d0.Ok? {
      FieldTermFollows(m, d0.value.rest, "then", true, d0.value.context, base);
      var d1 := FieldTerm(m, d0.value.rest, "then", true, d0.value.context, base);
      if d1.Ok? {
        FieldTermFollows(m, d1.value.rest, "otherwise", true, d1.value.context, base);
      }
    }
    if ParseIf(ts).Ok? {
      var t := ParseIf(ts).value.0;
      assert Compile(m, t, false, c, base) == CompileIf(m, t, c, base);
    }
  }

  lemma {:induction false} IfFollows(m: Mode, ts: seq<Token>, c: Context, base: nat)
    requires c.Context? && m.emit
    ensures Follows(IfSteps(m, ts, c, base), ParseIf(ts), m, false, c, base)
    decreases |ts|, 1
  {
    hide Field, FieldTerm, Closing, ParseTerm, Encode, EmitWithWord, CompileInt, CompileConstant, CompileVar,
      CompileCall, CompileBinary, CompileUnary, CompilePair, CompileClosure, CompileLet;
    FieldTermFollows(m, ts, "condition", false, c, base);
    var d0 := FieldTerm(m, ts, "condition", false, c, base);
    if d0.Ok? {
      var p1 := base + |d0.value.bytes|;
      FieldTermFollows(m, d0.value.rest, "then", true, d0.value.context, p1 + 3);
      var d1 := FieldTerm(m, d0.value.rest, "then", true, d0.value.context, p1 + 3);
      if d1.Ok? {
        FieldTermFollows(m, d1.value.rest, "otherwise", true, d1.value.context, p1 + |d1.value.bytes| + 6);
      }
    }
    if ParseIf(ts).Ok? {
      var t := ParseIf(ts).value.0;
      assert Compile(m, t, false, c, base) == CompileIf(m, t, c, base);
    }
  }

  lemma {:induction false} FunctionFollows(m: Mode, ts: seq<Token>, c: Context, base: nat)
    requires c.Context?
    ensures Follows(FunctionSteps(m, ts, c), ParseFunction(ts), m, false, c, base)
    decreases |ts|, 1
  {
    hide Field, FieldTerm, Expect, Closing, ParseTerm, ParseParameters, ParamsSteps, Encode, AddParams, CompileInt,
      CompileConstant, CompileVar, CompileCall, CompileBinary, CompileUnary, CompilePair, CompileLet, CompileIf;
    var ts1 := Field(ts, "parameters");
    if ts1.Ok? && Expect(ts1.value, LBracket).Ok? {
      var ts2 := Expect(ts1.value, LBracket).value;
      ParametersFollow(ts2, NewContext(c));
      var ps := ParamsSteps(ts2, NewContext(c));
      if ps.Ok? {
        FieldTermFollows(m, ps.value.rest, "value", true, ps.value.context, 0);
      }
    }
    if ParseFunction(ts).Ok? {
      var t := ParseFunction(ts).value.0;
      assert Compile(m, t, false, c, base) == CompileClosure(m, t, c);
      assert CompileClosure(m, t, c) ==
        (var r := CompileFunction(m, t.params, t.body, c);
         if r.Err? then Err(r.error)
         else if !m.emit then Ok(Emitted(r.value.0, []))
         else Ok(Emitted(r.value.0.(functions := r.value.0.functions + [r.value.1]),
                         Encode(IClosure(|r.value.0.functions| % 256)))));
    }
  }

  // ----- lists -----

  lemma TermThenMore(m: Mode, t: Term, more: seq<Term>, c: Context, base: nat)
    requires c.Context?
    ensures CompileAll(m, [t] + more, c, base) ==
      (var e := Compile(m, t, false, c, base);
       if e.Err? then Err(e.error)
       else
         var e2 := CompileAll(m, more, e.value.context, base + |e.value.bytes|);
         if e2.Err? then Err(e2.error) else Ok(Emitted(e2.value.context, e.value.bytes + e2.value.bytes)))
  {
    hide Compile;
    assert ([t] + more)[1..] == more;
  }

  lemma ParamThenMore(p: Parameter, more: seq<Parameter>, c: Context)
    requires c.Context?
    ensures AddParams(c, [p] + more) ==
      (var r := AddLocal(c, p.text); if r.Err? then Err(r.error) else AddParams(r.value, more))
  {
    assert ([p] + more)[1..] == more;
  }

  lemma {:induction false} MoreTermsFollow(m: Mode, ts: seq<Token>, c: Context, base: nat)
    requires c.Context?
    ensures AllFollow(MoreTermsSteps(m, ts, c, base), ParseMoreTerms(ts), m, c, base)
    decreases |ts|, 4
  {
    hide Advance, TermSteps, ParseTerm, Compile, CompileAll;
    if ts != [] && ts[0] == RBracket {
      NoTerms(m, c, base);
    } else if Expect(ts, Comma).Ok? {
      ListFollows(m, Expect(ts, Comma).value, c, base);
    }
  }

  lemma NoTerms(m: Mode, c: Context, base: nat)
    requires c.Context?
    ensures CompileAll(m, [], c, base) == Ok(Emitted(c, []))
  {
  }

  /** A list that starts with a term. */
  lemma {:induction false} ListFollows(m: Mode, ts: seq<Token>, c: Context, base: nat)
    requires c.Context?
    ensures var p := ParseTerm(ts);
      var more := if p.Ok? then ParseMoreTerms(p.value.1) else Err(SyntaxError);
      var list := if more.Ok? then Ok(([p.value.0] + more.value.0, more.value.1)) else Err(SyntaxError);
      var d := TermSteps(m, ts, false, c, base);
      var r := if d.Err? then Err(d.error)
               else Prepend(d.value.bytes, 1, MoreTermsSteps(m, d.value.rest, d.value.context, base + |d.value.bytes|));
      AllFollow(r, list, m, c, base)
    decreases |ts|, 5
  {
    hide TermSteps, MoreTermsSteps, ParseTerm, ParseMoreTerms, Compile, CompileAll;
    TermFollows(m, ts, false, c, base);
    var p, d := ParseTerm(ts), TermSteps(m, ts, false, c, base);
    if d.Ok? {
      MoreTermsFollow(m, d.value.rest, d.value.context, base + |d.value.bytes|);
    }
    if p.Ok? && ParseMoreTerms(p.value.1).Ok? {
      TermThenMore(m, p.value.0, ParseMoreTerms(p.value.1).value.0, c, base);
    }
  }

  lemma {:induction false} TermsFollow(m: Mode, ts: seq<Token>, c: Context, base: nat)
    requires c.Context?
    ensures AllFollow(TermsSteps(m, ts, c, base), ParseTerms(ts), m, c, base)
    decreases |ts|, 6
  {
    hide Advance, TermSteps, ParseTerm, Compile, CompileAll;
    if ts != [] && ts[0] == RBracket {
      NoTerms(m, c, base);
    } else {
      ListFollows(m, ts, c, base);
    }
  }

  lemma {:induction false} MoreParametersFollow(ts: seq<Token>, c: Context)
    requires c.Context?
    ensures ParamsFollow(MoreParamsSteps(ts, c), ParseMoreParameters(ts), c)
    decreases |ts|, 0
  {
    hide Advance, ParseParameter, AddLocal, AddParams;
    if ts != [] && ts[0] == RBracket {
      NoParams(c);
    } else if Expect(ts, Comma).Ok? {
      ParamListFollows(Expect(ts, Comma).value, c);
    }
  }

  lemma NoParams(c: Context)
    requires c.Context?
    ensures AddParams(c, []) == Ok(c)
  {
  }

  lemma {:induction false} ParamListFollows(ts: seq<Token>, c: Context)
    requires c.Context?
    ensures var p := ParseParameter(ts);
      var more := if p.Ok? then ParseMoreParameters(p.value.1) else Err(SyntaxError);
      var list := if more.Ok? then Ok(([p.value.0] + more.value.0, more.value.1)) else Err(SyntaxError);
      var d := ParamSteps(ts, c);
      var r := if d.Err? then Err(d.error) else Prepend([], 1, MoreParamsSteps(d.value.rest, d.value.context));
      ParamsFollow(r, list, c)
    decreases |ts|, 1
  {
    hide ParseParameter, ParseMoreParameters, MoreParamsSteps, AddLocal, AddParams;
    var p, d := ParseParameter(ts), ParamSteps(ts, c);
    if d.Ok? {
      MoreParametersFollow(d.value.rest, d.value.context);
    }
    if p.Ok? && ParseMoreParameters(p.value.1).Ok? {
      ParamThenMore(p.value.0, ParseMoreParameters(p.value.1).value.0, c);
    }
    var none: seq<byte> := [];
    assert none + none == none;
  }

  lemma ParametersFollow(ts: seq<Token>, c: Context)
    requires c.Context?
    ensures ParamsFollow(ParamsSteps(ts, c), ParseParameters(ts), c)
  {
    hide Advance, ParseParameter, AddLocal, AddParams;
    if ts != [] && ts[0] == RBracket {
      NoParams(c);
    } else {
      ParamListFollows(ts, c);
    }
  }

  // ----- texts -----

  /** The single pass on a text that parses gives what compiling the parsed program gives, result or
      error; on any other text it gives an error. */
  lemma TextFollows(m: Mode, source: string)
    ensures if ParseFile(TokensFrom(source, 0)).Ok? then TextSteps(m, source) == CompiledText(m, source)
            else TextSteps(m, source).Err? && CompiledText(m, source).Err?
  {
    hide Expect, KeyColon, ExpectString, FieldTerm, Field, Closing, ParseTerm, Encode, Compile, TokensFrom;
    var ts := TokensFrom(source, 0);
    if Expect(ts, LBrace).Ok? && KeyColon(Expect(ts, LBrace).value, "name").Ok? {
      var name := ExpectString(KeyColon(Expect(ts, LBrace).value, "name").value);
      if name.Ok? {
        FieldTermFollows(m, name.value.1, "expression", false, NewContext(NoContext), 0);
      }
    }
  }

  /** In check mode no code is emitted. */
  lemma {:induction false} CheckedBytes(m: Mode, t: Term, isTail: bool, c: Context, base: nat)
    requires !m.emit && c.Context? && Compile(m, t, isTail, c, base).Ok?
    ensures Compile(m, t, isTail, c, base).value.bytes == []
    decreases t
  {
    match t
    case Call(f, args, _) =>
      var e1 := Compile(m, f, false, c, base).value;
      CheckedBytes(m, f, false, c, base);
      CheckedAllBytes(m, args, e1.context, base + |e1.bytes|);
    case Binary(l, _, r, _) =>
      var e1 := Compile(m, l, false, c, base).value;
      CheckedBytes(m, l, false, c, base);
      CheckedBytes(m, r, false, e1.context, base + |e1.bytes|);
    case Pair(l, r, _) =>
      var e1 := Compile(m, l, false, c, base).value;
      CheckedBytes(m, l, false, c, base);
      CheckedBytes(m, r, false, e1.context, base + |e1.bytes|);
    case Unary(_, e, _) => CheckedBytes(m, e, false, c, base);
    case Let(x, v, n, _) =>
      var c1 := AddLocal(c, x.text).value;
      var e1 := Compile(m, v, false, c1, base).value;
      CheckedBytes(m, v, false, c1, base);
      CheckedBytes(m, n, true, e1.context, base + |e1.bytes|);
    case If(e, a, b, _) =>
      var e0 := Compile(m, e, false, c, base).value;
      var e1 := Compile(m, a, true, e0.context, base).value;
      CheckedBytes(m, e, false, c, base);
      CheckedBytes(m, a, true, e0.context, base);
      CheckedBytes(m, b, true, e1.context, base);
    case _ =>
  }

  lemma {:induction false} CheckedAllBytes(m: Mode, ts: seq<Term>, c: Context, base: nat)
    requires !m.emit && c.Context? && CompileAll(m, ts, c, base).Ok?
    ensures CompileAll(m, ts, c, base).value.bytes == []
    decreases ts
  {
    hide Compile;
    if ts != [] {
      var e1 := Compile(m, ts[0], false, c, base).value;
      CheckedBytes(m, ts[0], false, c, base);
      CheckedAllBytes(m, ts[1..], e1.context, base + |e1.bytes|);
    }
  }

  lemma CheckedCode(m: Mode, ts: seq<Token>, key: string, isTail: bool, c: Context, base: nat)
    requires !m.emit && c.Context?
    ensures FieldTerm(m, ts, key, isTail, c, base).Ok? ==> FieldTerm(m, ts, key, isTail, c, base).value.bytes == []
  {
    hide Compile, ParseTerm, Field, FieldTerm;
    FieldTermFollows(m, ts, key, isTail, c, base);
    if FieldTerm(m, ts, key, isTail, c, base).Ok? {
      CheckedBytes(m, ParseTerm(Field(ts, key).value).value.0, isTail, c, base);
    }
  }

  // ----- the compiler -----

  class Compiler {
    const mode: Mode
    const scan: Scanner
    var scope: Scope            // the Compiler struct
    ghost var context: Context  // its tables as a value
    var chunk: Chunk
    var error: CompileError  // the message in Result

    ghost predicate Valid()
      reads this, scan, chunk, scope, scope.Scopes, scope.Arrays
    {
      scan.Valid() && chunk.Valid() && context.Context? && Linked()
    }

    /** The chain of scopes holds the tables. */
    ghost predicate Linked()
      reads this`scope, this`context, scope, scope.Scopes, scope.Arrays
    {
      scope.Valid() && context == scope.Abs()
    }

    ghost function Toks(): seq<Token>
      requires scan.Valid()
      reads scan
    {
      scan.Toks()
    }

    ghost function Code(): seq<byte>
      requires chunk.Valid()
      reads this`chunk, chunk, chunk.code
    {
      chunk.Bytes()
    }

    constructor (mode: Mode, scan: Scanner)
      requires scan.Valid()
      ensures Valid() && this.mode == mode && this.scan == scan && context == NewContext(NoContext) && Code() == []
      ensures fresh(chunk) && fresh(chunk.code) && fresh(scope.Scopes) && fresh(scope.Arrays)
    {
      this.mode, this.scan := mode, scan;
      context, error := NewContext(NoContext), SyntaxError;
      scope := new Scope(null, Variable("", false, 0));
      chunk := new Chunk();
    }

    /** The state is valid, and the code buffer is the same object. */
    twostate predicate Kept()
      reads this, scan, chunk, chunk.code, scope, scope.Scopes, scope.Arrays
    {
      Valid() && scope == old(scope) && chunk == old(chunk) && (chunk.code == old(chunk.code) || fresh(chunk.code))
    }

    /** The step `r` has been done: on success the tables, the code and the tokens are the specified ones,
        and on failure the error is. */
    twostate predicate Did(ok: bool, new r: Result<Pass>)
      requires Valid() && old(Valid())
      reads this, scan, chunk, chunk.code, scope, scope.Scopes, scope.Arrays
    {
      && (ok <==> r.Ok?) && (!ok ==> error == r.error)
      && (ok ==> context == r.value.context && Toks() == r.value.rest && Code() == old(Code()) + r.value.bytes)
    }

    /** The same for a list; n is the number of its elements in one byte. */
    twostate predicate DidAll(ok: bool, n: byte, new r: Result<PassAll>)
      requires Valid() && old(Valid())
      reads this, scan, chunk, chunk.code, scope, scope.Scopes, scope.Arrays
    {
      && (ok <==> r.Ok?) && (!ok ==> error == r.error) && (ok ==> n == r.value.count % 256)
      && (ok ==> context == r.value.context && Toks() == r.value.rest && Code() == old(Code()) + r.value.bytes)
    }

    /** The tokens `r` have been reached. */
    twostate predicate Reached(ok: bool, new r: Result<seq<Token>>)
      reads this, scan
    {
      scan.Valid() && (ok <==> r.Ok?) && (ok ==> Toks() == r.value) && (!ok ==> error == r.error)
    }

    /** The content x has been taken from the tokens. */
    twostate predicate Read<T>(ok: bool, x: T, new r: Parsed<T>)
      reads this, scan
    {
      scan.Valid() && (ok <==> r.Ok?) && (ok ==> x == r.value.0 && Toks() == r.value.1) && (!ok ==> error == r.error)
    }

    /** `error` is set for a failure. */
    method Fail(e: CompileError) returns (ok: bool)
      modifies this`error
      ensures !ok && error == e
    {
      error := e;
      return false;
    }

    // ----- tables -----

    method ResolveVariable(name: string) returns (r: Result<Variable>)
      requires Linked()
      modifies this`context, scope.Scopes, scope.Arrays
      ensures Linked() && context.Context?
      ensures match Resolve(old(context), name)
        case Err(e) => r == Err(e)
        case Ok(result) => r == Ok(result.1) && context == result.0
    {
      r := scope.Resolve(name);
      context := scope.Abs();
    }

    method DeclareLocal(name: string) returns (r: Result<Variable>)
      requires Linked()
      modifies this`context, scope.Scopes, scope.Arrays
      ensures Linked() && context.Context?
      ensures match AddLocal(old(context), name)
        case Err(e) => r == Err(e)
        case Ok(c) => r.Ok? && context == c
    {
      r := scope.AddLocal(name);
      context := scope.Abs();
    }

    method AddConstant(v: Value) returns (r: Option<byte>)
      requires Linked()
      modifies this`context, scope.Scopes
      ensures Linked() && context.Context?
      ensures var c, n := old(context), |old(context).constants|;
        && r == (if n > MAX_BYTE then None else Some(n))
        && (r.Some? ==> context == c.(constants := c.constants + [v]))
    {
      r := scope.AddConstant(v);
      context := scope.Abs();
    }

    method AddChild(fn: CompiledFunction) returns (index: byte)
      requires Linked()
      modifies this`context, scope.Scopes
      ensures Linked() && old(context).Context?
      ensures var c := old(context);
        index == |c.functions| % 256 && context == c.(functions := c.functions + [fn])
    {
      index := scope.AddChild(fn);
      context := scope.Abs();
    }

    /** compiler_init for a function. */
    method OpenScope()
      requires Linked()
      modifies this`scope, this`context
      ensures Linked() && context == NewContext(old(context)) && scope.enclosing == old(scope)
      ensures scope.Scopes == {scope} + old(scope).Scopes && scope.Arrays == {scope.variables} + old(scope).Arrays
      ensures fresh(scope) && fresh(scope.variables)
    {
      scope := new Scope(scope, Variable("", false, 0));
      context := NewContext(context);
    }

    /** The function is finished, and the enclosing one goes on. */
    method CloseScope()
      requires Linked() && scope.enclosing != null
      modifies this`scope, this`context
      ensures Linked() && old(context).Context? && context == old(context).enclosing && context.Context?
      ensures scope == old(scope).enclosing
    {
      scope, context := scope.enclosing, context.enclosing;
    }

    method FinishedFunction(arity: nat, code: seq<byte>) returns (fn: CompiledFunction)
      requires Linked()
      ensures context.Context? && fn == Finish(context, arity, code)
    {
      fn := scope.Finished(arity, code);
    }

    // ----- tokens -----

    /** next_token */
    method Next() returns (ok: bool)
      requires scan.Valid() && scan.token != EOF
      modifies scan, this`error
      ensures Reached(ok, Advance(old(Toks())))
    {
      assert Toks() == [scan.token] + TokensFrom(scan.source, scan.pos);
      var scanError;
      ok, scanError := scan.NextToken();
      if !ok {
        error := SyntaxError;
      }
    }

    /** consume */
    method Consume(t: Token) returns (ok: bool)
      requires scan.Valid() && t != EOF
      modifies scan, this`error
      ensures Reached(ok, Expect(old(Toks()), t))
    {
      if scan.token != t {
        ok := Fail(SyntaxError);
        return;
      }
      ok := Next();
    }

    method ConsumeInt() returns (ok: bool, digits: string)
      requires scan.Valid()
      modifies scan, this`error
      ensures Read(ok, digits, ExpectInt(old(Toks())))
    {
      digits := "";
      if !scan.token.IntToken? {
        ok := Fail(SyntaxError);
        return;
      }
      digits := scan.token.digits;
      ok := Next();
    }

    method ConsumeString() returns (ok: bool, text: string)
      requires scan.Valid()
      modifies scan, this`error
      ensures Read(ok, text, ExpectString(old(Toks())))
    {
      text := "";
      if !scan.token.StringToken? {
        ok := Fail(SyntaxError);
        return;
      }
      text := scan.token.text;
      ok := Next();
    }

    /** consume_string and the colon */
    method ConsumeKey(key: string) returns (ok: bool)
      requires scan.Valid()
      modifies scan, this`error
      ensures Reached(ok, KeyColon(old(Toks()), key))
    {
      if !scan.token.StringToken? || !(scan.token.text <= key) {
        ok := Fail(SyntaxError);
        return;
      }
      ok := Next();
      if ok {
        ok := Consume(Colon);
      }
    }

    method ConsumeField(key: string) returns (ok: bool)
      requires scan.Valid()
      modifies scan, this`error
      ensures Reached(ok, Field(old(Toks()), key))
    {
      ok := Consume(Comma);
      if ok {
        ok := ConsumeKey(key);
      }
    }

    /** The tokens of a location, or of what ends a node, have been taken. */
    twostate predicate Skipped(ok: bool, new r: Parsed<Location>)
      reads this, scan
    {
      scan.Valid() && (ok <==> r.Ok?) && (ok ==> Toks() == r.value.1) && (!ok ==> error == r.error)
    }

    /** compile_location */
    method CompileLocation() returns (ok: bool)
      requires scan.Valid()
      modifies scan, this`error
      ensures var r := ParseLocation(old(Toks())); Skipped(ok, r)
    {
      hide Expect, KeyColon, Field, ExpectInt, ExpectString;
      ok := Consume(LBrace);
      if !ok { return; }
      ok := ConsumeKey("start");
      if !ok { return; }
      var start, end, filename;
      ok, start := ConsumeInt();
      if !ok { return; }
      ok := ConsumeField("end");
      if !ok { return; }
      ok, end := ConsumeInt();
      if !ok { return; }
      ok := ConsumeField("filename");
      if !ok { return; }
      ok, filename := ConsumeString();
      if !ok { return; }
      ok := Consume(RBrace);
    }

    /** The end of every node. */
    method CompileClosing() returns (ok: bool)
      requires scan.Valid()
      modifies scan, this`error
      ensures Skipped(ok, Closing(old(Toks())))
    {
      hide Expect, Field, ParseLocation;
      ok := ConsumeField("location");
      if !ok { return; }
      ok := CompileLocation();
      if !ok { return; }
      ok := Consume(RBrace);
    }

    // ----- emission -----

    /** Emits an instruction without a 16-bit operand, unless only checking. */
    method Emit(i: Instr)
      requires Valid() && |Encode(i)| <= 2
      modifies chunk, chunk.code
      ensures Valid() && (chunk.code == old(chunk.code) || fresh(chunk.code))
      ensures Code() == old(Code()) + if mode.emit then Encode(i) else []
    {
      hide Linked, Scanner.Valid;
      if !mode.emit {
        return;
      }
      var bytes := Encode(i);
      ghost var was := Code();
      chunk.EmitByte(bytes[0]);
      if |bytes| == 2 {
        chunk.EmitByte(bytes[1]);
        assert was + [bytes[0]] + [bytes[1]] == was + bytes;
      } else {
        assert was + [bytes[0]] == was + bytes;
      }
    }

    /** An opcode and its 16-bit operand. */
    method EmitWord(i: Instr) returns (ok: bool)
      requires Valid() && (i.IInt? || i.IJump? || i.IJumpIfFalse?)
      modifies this`error, chunk, chunk.code
      ensures Valid() && (chunk.code == old(chunk.code) || fresh(chunk.code))
      ensures var r := EmitWithWord(mode, i, |old(Code())|); (ok <==> r.Ok?) && (!ok ==> error == r.error)
      ensures ok ==> Code() == old(Code()) + Encode(i)
    {
      hide WordOverruns, Linked, Scanner.Valid, Encode, WordBytes;
      var w := match i case IInt(n) => n case IJump(t) => t case IJumpIfFalse(t) => t;
      WordOperand(i, w);
      var bytes := Encode(i);
      ghost var was := Code();
      chunk.EmitByte(bytes[0]);
      ok := chunk.EmitWord(w, if mode.reserveTwo then 2 else 1);
      if !ok {
        error := CodeBufferOverrun;
      }
      assert was + [bytes[0]] + bytes[1..] == was + bytes;
    }

    static lemma WordOperand(i: Instr, w: word)
      requires i == IInt(w) || i == IJump(w) || i == IJumpIfFalse(w)
      ensures |Encode(i)| == 3 && Encode(i)[1..] == WordBytes(w)
    {
    }

    /** add_constant, then the instruction that loads the constant. */
    method EmitConstant(v: Value) returns (ok: bool)
      requires Valid() && mode.emit
      modifies this`context, this`error, chunk, chunk.code, scope.Scopes
      ensures Valid() && (chunk.code == old(chunk.code) || fresh(chunk.code))
      ensures var r := CompileConstant(mode, old(context), v);
        && (ok <==> r.Ok?) && (!ok ==> error == r.error)
        && (ok ==> context == r.value.context && Code() == old(Code()) + r.value.bytes)
    {
      hide Linked, Encode, Code, Chunk.Bytes, Scanner.Valid, Chunk.Valid;
      var index := AddConstant(v);
      if index.None? {
        ok := Fail(TooManyConstants);
        return;
      }
      LeafSizes();
      Emit(IConstant(index.value));
      return true;
    }

    // ----- terms without parts -----

    /** The code of an integer. */
    method EmitInt(n: nat) returns (ok: bool)
      requires Valid() && mode.emit
      modifies this`context, this`error, chunk, chunk.code, scope.Scopes
      ensures Valid() && (chunk.code == old(chunk.code) || fresh(chunk.code))
      ensures var r := Codegen.CompileInt(mode, old(context), n, |old(Code())|);
        && (ok <==> r.Ok?) && (!ok ==> error == r.error)
        && (ok ==> context == r.value.context && Code() == old(Code()) + r.value.bytes)
    {
      hide CompileConstant, WordOverruns, Encode, Linked, Code, Chunk.Bytes, Scanner.Valid, Chunk.Valid;
      if n > INT_MAX {
        ok := Fail(IntegerOverflow);
        return;
      }
      if n <= MAX_WORD {
        ok := EmitWord(IInt(n));
        return;
      }
      ok := EmitConstant(IntValue(n));
    }

    /** compile_int */
    method CompileInt() returns (ok: bool)
      requires Valid()
      modifies this`context, this`error, scan, chunk, chunk.code, scope.Scopes, scope.Arrays
      ensures Kept() && Did(ok, IntSteps(mode, old(Toks()), old(context), old(|Code()|)))
    {
      hide Expect, Field, Closing, ExpectInt, ExpectString, Toks, Code, Scanner.Toks, Chunk.Bytes, Scanner.Valid,
        Chunk.Valid, Linked;
      ghost var c, base := context, |Code()|;
      ok := ConsumeField("value");
      if !ok { return; }
      var digits;
      ok, digits := ConsumeInt();
      if !ok { return; }
      ok := CompileClosing();
      if !ok { return; }
      hide Codegen.CompileInt;
      if mode.emit {
        ok := EmitInt(DigitsToNat(digits));
      } else {
        CheckedInt(mode, context, DigitsToNat(digits), base);
      }
    }

    static lemma CheckedInt(m: Mode, c: Context, n: nat, base: nat)
      requires c.Context? && !m.emit
      ensures Codegen.CompileInt(m, c, n, base) == Ok(Emitted(c, []))
    {
    }

    /** compile_str */
    method CompileStr() returns (ok: bool)
      requires Valid()
      modifies this`context, this`error, scan, chunk, chunk.code, scope.Scopes, scope.Arrays
      ensures Kept() && Did(ok, StrSteps(mode, old(Toks()), old(context)))
    {
      hide Expect, Field, Closing, ExpectInt, ExpectString, Toks, Code, Scanner.Toks, Chunk.Bytes, Scanner.Valid,
        Chunk.Valid, Linked;
      ok := ConsumeField("value");
      if !ok { return; }
      var text;
      ok, text := ConsumeString();
      if !ok { return; }
      ok := CompileClosing();
      if !ok { return; }
      if mode.emit {
        ok := EmitConstant(StrValue(text));
      }
    }

    method ConsumeBool() returns (ok: bool, b: bool)
      requires scan.Valid()
      modifies scan, this`error
      ensures Read(ok, b, ExpectBool(old(Toks())))
    {
      if scan.token == FalseKw {
        b := false;
        ok := Next();
      } else if scan.token == TrueKw {
        b := true;
        ok := Next();
      } else {
        b := false;
        ok := Fail(SyntaxError);
      }
    }

    /** compile_bool */
    method CompileBool() returns (ok: bool)
      requires Valid()
      modifies this`context, this`error, scan, chunk, chunk.code, scope.Scopes, scope.Arrays
      ensures Kept() && Did(ok, BoolSteps(mode, old(Toks()), old(context)))
    {
      hide Field, Closing, Encode, ExpectBool, Toks, Code, Scanner.Toks, Chunk.Bytes, Scanner.Valid, Chunk.Valid,
        Linked;
      ok := ConsumeField("value");
      if !ok { return; }
      var b;
      ok, b := ConsumeBool();
      if !ok { return; }
      ok := CompileClosing();
      if !ok { return; }
      LeafSizes();
      Emit(if b then ITrue else IFalse);
    }

    static lemma LeafSizes()
      ensures forall k: byte :: |Encode(IConstant(k))| == 2
      ensures |Encode(IFalse)| == |Encode(ITrue)| == |Encode(ITuple)| == |Encode(IReturn)| == 1
      ensures forall k: byte ::
        |Encode(ILocal(k))| == |Encode(INonlocal(k))| == |Encode(IClosure(k))| ==
        |Encode(ICall(k))| == |Encode(ITailCall(k))| == 2
      ensures forall op: BinOp :: |Encode(IBinary(op))| == 1
      ensures forall op: UnOp :: |Encode(IUnary(op))| == 1
    {
    }

    /** compile_var */
    method CompileVar() returns (ok: bool)
      requires Valid()
      modifies this`context, this`error, scan, chunk, chunk.code, scope.Scopes, scope.Arrays
      ensures Kept() && Did(ok, VarSteps(mode, old(Toks()), old(context)))
    {
      hide Expect, Field, Closing, ExpectInt, ExpectString, Encode, Toks, Code, Scanner.Toks, Chunk.Bytes,
        Scanner.Valid, Chunk.Valid, Linked;
      ok := ConsumeField("text");
      if !ok { return; }
      var text;
      ok, text := ConsumeString();
      if !ok { return; }
      ok := CompileClosing();
      if !ok { return; }
      var r := ResolveVariable(text);
      if r.Err? {
        ok := Fail(r.error);
        return;
      }
      var v := r.value;
      LeafSizes();
      Emit(if v.isLocal then ILocal(v.index) else INonlocal(v.index));
    }

    /** The tokens of a parameter. */
    method ConsumeParameter() returns (ok: bool, text: string)
      requires scan.Valid()
      modifies scan, this`error
      ensures var r := ParseParameter(old(Toks()));
        && scan.Valid() && (ok <==> r.Ok?) && (!ok ==> error == r.error)
        && (ok ==> text == r.value.0.text && Toks() == r.value.1)
    {
      hide Toks, Scanner.Toks, Scanner.Valid, Expect, Closing, ExpectString, KeyColon;
      text := "";
      ok := Consume(LBrace);
      if !ok { return; }
      ok := ConsumeKey("text");
      if !ok { return; }
      ok, text := ConsumeString();
      if !ok { return; }
      ok := CompileClosing();
    }

    /** compile_parameter */
    method CompileParameter() returns (ok: bool)
      requires Valid()
      modifies this`context, this`error, scan, scope.Scopes, scope.Arrays
      ensures Kept() && Did(ok, ParamSteps(old(Toks()), old(context)))
    {
      hide Toks, Code, Scanner.Toks, Chunk.Bytes, Scanner.Valid, Chunk.Valid, Linked, ParseParameter, AddLocal;
      var text;
      ok, text := ConsumeParameter();
      if !ok { return; }
      var r := DeclareLocal(text);
      if r.Err? {
        ok := Fail(r.error);
      }
    }

    // ----- parts of terms -----

    /** A field that holds a term. */
    method CompileField(key: string, isTail: bool) returns (ok: bool)
      requires Valid()
      modifies this, scan, chunk, chunk.code, scope.Scopes, scope.Arrays
      ensures Kept()
      ensures var r := FieldTerm(mode, old(Toks()), key, isTail, old(context), old(|Code()|));
        && (ok <==> r.Ok?) && (!ok ==> error == r.error)
        && (ok ==> context == r.value.context && Toks() == r.value.rest && Code() == old(Code()) + r.value.bytes)
      decreases |Toks()|, 0
    {
      hide Field, TermSteps, Toks, Code, Scanner.Toks, Chunk.Bytes, Scanner.Valid, Chunk.Valid,
        Linked;
      ok := ConsumeField(key);
      if !ok { return; }
      ok := CompileTerm(isTail);
    }

    /** The end of a node, then its instruction. */
    method CloseWith(i: Instr) returns (ok: bool)
      requires Valid() && |Encode(i)| <= 2
      modifies this`error, scan, chunk, chunk.code
      ensures Kept() && Did(ok, Ending(mode, Pass(old(context), [], old(Toks())), i))
    {
      hide Closing, Encode, Toks, Code, Scanner.Toks, Chunk.Bytes, Scanner.Valid, Chunk.Valid, Linked;
      ok := CompileClosing();
      if !ok { return; }
      Emit(i);
    }

    method ConsumeOperator() returns (ok: bool, op: BinOp)
      requires scan.Valid()
      modifies scan, this`error
      ensures Read(ok, op, OperatorField(old(Toks())))
    {
      hide Field, ExpectString, OperatorOf;
      op := Add;
      ok := ConsumeField("op");
      if !ok { return; }
      var name;
      ok, name := ConsumeString();
      if !ok { return; }
      var r := OperatorOf(name);
      if r.Err? {
        ok := Fail(r.error);
        return;
      }
      return true, r.value;
    }

    // ----- terms with parts -----

    /** compile_term */
    method CompileTerm(isTail: bool) returns (ok: bool)
      requires Valid()
      modifies this, scan, chunk, chunk.code, scope.Scopes, scope.Arrays
      ensures Kept()
      ensures var r := TermSteps(mode, old(Toks()), isTail, old(context), old(|Code()|));
        && (ok <==> r.Ok?) && (!ok ==> error == r.error)
        && (ok ==> context == r.value.context && Toks() == r.value.rest && Code() == old(Code()) + r.value.bytes)
      decreases |Toks()|, 4
    {
      hide ParseKind, IntSteps, StrSteps, BoolSteps, VarSteps, UnarySteps, BinarySteps, TupleSteps, CallSteps,
        FunctionSteps, LetSteps, IfSteps, CheckedIfSteps, Toks, Code, Scanner.Toks, Chunk.Bytes, Scanner.Valid,
        Chunk.Valid, Linked;
      var kind;
      ok, kind := ConsumeKind();
      if !ok { return; }
      match kind
      case KInt => ok := CompileInt();
      case KStr => ok := CompileStr();
      case KCall => ok := CompileCall(isTail);
      case KBinary => ok := CompileBinary();
      case KFunction => ok := CompileFunction();
      case KLet => ok := CompileLet();
      case KIf => ok := CompileIf();
      case KUnary(op) => ok := CompileUnary(op);
      case KBool => ok := CompileBool();
      case KTuple => ok := CompileTuple();
      case KVar => ok := CompileVar();
    }

    method ConsumeKind() returns (ok: bool, kind: Kind)
      requires scan.Valid()
      modifies scan, this`error
      ensures var r := ParseKind(old(Toks())); Read(ok, kind, r)
    {
      hide Expect, KeyColon, ExpectString, KindOf;
      kind := KVar;
      ok := Consume(LBrace);
      if !ok { return; }
      ok := ConsumeKey("kind");
      if !ok { return; }
      var name;
      ok, name := ConsumeString();
      if !ok { return; }
      var k := KindOf(name);
      if k.Err? {
        ok := Fail(k.error);
        return;
      }
      return true, k.value;
    }

    /** compile_print, compile_first, compile_second */
    method CompileUnary(op: UnOp) returns (ok: bool)
      requires Valid()
      modifies this, scan, chunk, chunk.code, scope.Scopes, scope.Arrays
      ensures Kept() && Did(ok, UnarySteps(mode, old(Toks()), op, old(context), old(|Code()|)))
      decreases |Toks()|, 2
    {
      hide FieldTerm, Ending, Encode, Toks, Code, Scanner.Toks, Chunk.Bytes, Scanner.Valid,
        Chunk.Valid, Linked;
      ghost var c0 := Code();
      ghost var d := FieldTerm(mode, Toks(), "value", false, context, |c0|);
      ok := CompileField("value", false);
      if !ok { return; }
      LeafSizes();
      EndingBytes(mode, context, d.value.bytes, Toks(), IUnary(op));
      ghost var e := Ending(mode, Pass(context, [], Toks()), IUnary(op));
      ok := CloseWith(IUnary(op));
      if ok {
        Appended(c0, d.value.bytes, [], e.value.bytes);
      }
    }

    /** compile_tuple */
    method CompileTuple() returns (ok: bool)
      requires Valid()
      modifies this, scan, chunk, chunk.code, scope.Scopes, scope.Arrays
      ensures Kept() && Did(ok, TupleSteps(mode, old(Toks()), old(context), old(|Code()|)))
      decreases |Toks()|, 2
    {
      hide FieldTerm, Ending, Encode, Toks, Code, Scanner.Toks, Chunk.Bytes, Scanner.Valid,
        Chunk.Valid, Linked;
      ghost var c0 := Code();
      ghost var d := FieldTerm(mode, Toks(), "first", false, context, |c0|);
      ok := CompileField("first", false);
      if !ok { return; }
      ghost var d' := FieldTerm(mode, Toks(), "second", false, context, |Code()|);
      ok := CompileField("second", false);
      if !ok { return; }
      LeafSizes();
      EndingBytes(mode, context, d.value.bytes + d'.value.bytes, Toks(), ITuple);
      ghost var e := Ending(mode, Pass(context, [], Toks()), ITuple);
      ok := CloseWith(ITuple);
      if ok {
        Appended(c0, d.value.bytes, d'.value.bytes, e.value.bytes);
      }
    }

    /** compile_binary */
    method CompileBinary() returns (ok: bool)
      requires Valid()
      modifies this, scan, chunk, chunk.code, scope.Scopes, scope.Arrays
      ensures Kept() && Did(ok, BinarySteps(mode, old(Toks()), old(context), old(|Code()|)))
      decreases |Toks()|, 2
    {
      hide FieldTerm, OperatorField, Ending, Encode, Toks, Code, Scanner.Toks, Chunk.Bytes,
        Scanner.Valid, Chunk.Valid, Linked;
      ghost var c0 := Code();
      ghost var d := FieldTerm(mode, Toks(), "lhs", false, context, |c0|);
      ok := CompileField("lhs", false);
      if !ok { return; }
      var op;
      ok, op := ConsumeOperator();
      if !ok { return; }
      ghost var d' := FieldTerm(mode, Toks(), "rhs", false, context, |Code()|);
      ok := CompileField("rhs", false);
      if !ok { return; }
      LeafSizes();
      EndingBytes(mode, context, d.value.bytes + d'.value.bytes, Toks(), IBinary(op));
      ghost var e := Ending(mode, Pass(context, [], Toks()), IBinary(op));
      ok := CloseWith(IBinary(op));
      if ok {
        Appended(c0, d.value.bytes, d'.value.bytes, e.value.bytes);
      }
    }

    /** compile_let */
    method CompileLet() returns (ok: bool)
      requires Valid()
      modifies this, scan, chunk, chunk.code, scope.Scopes, scope.Arrays
      ensures Kept() && Did(ok, LetSteps(mode, old(Toks()), old(context), old(|Code()|)))
      decreases |Toks()|, 2
    {
      hide FieldTerm, Field, ParamSteps, Closing, Encode, Toks, Code, Scanner.Toks,
        Chunk.Bytes, Scanner.Valid, Chunk.Valid, Linked;
      ghost var c0 := Code();
      ok := ConsumeField("name");
      if !ok { return; }
      ok := CompileParameter();
      if !ok { return; }
      assert c0 + [] == c0;
      ghost var d := FieldTerm(mode, Toks(), "value", false, context, |c0|);
      ok := CompileField("value", false);
      if !ok { return; }
      ghost var d' := FieldTerm(mode, Toks(), "next", true, context, |Code()|);
      ok := CompileField("next", true);
      if !ok { return; }
      ok := CompileClosing();
      Appended(c0, d.value.bytes, d'.value.bytes, []);
      assert c0 + d.value.bytes + d'.value.bytes + [] == c0 + d.value.bytes + d'.value.bytes;
      assert d.value.bytes + d'.value.bytes + [] == d.value.bytes + d'.value.bytes;
    }

    /** The arguments of a call. */
    method CompileArguments() returns (ok: bool, nargs: byte)
      requires Valid()
      modifies this, scan, chunk, chunk.code, scope.Scopes, scope.Arrays
      ensures Kept() && DidAll(ok, nargs, ArgumentsField(mode, old(Toks()), old(context), old(|Code()|)))
      decreases |Toks()|, 0
    {
      hide TermsSteps, Field, Toks, Code, Scanner.Toks, Chunk.Bytes, Scanner.Valid, Chunk.Valid, Linked;
      nargs := 0;
      ok := ConsumeField("arguments");
      if !ok { return; }
      ok := Consume(LBracket);
      if !ok { return; }
      ok, nargs := CompileTerms();
    }

    /** One round of the loop of compile_call: a comma and a term. */
    method CompileNextTerm() returns (ok: bool, ghost bytes: seq<byte>)
      requires Valid() && scan.token != RBracket
      modifies this, scan, chunk, chunk.code, scope.Scopes, scope.Arrays
      ensures Kept()
      ensures var r := MoreTermsSteps(mode, old(Toks()), old(context), old(|Code()|));
        if ok then
          && r == Prepend(bytes, 1, MoreTermsSteps(mode, Toks(), context, |Code()|))
          && Code() == old(Code()) + bytes && |Toks()| < |old(Toks())|
        else r == Err(error)
      decreases |Toks()|, 5
    {
      hide TermSteps, Prepend, Expect, Advance, Toks, Code, Scanner.Toks, Chunk.Bytes, Scanner.Valid, Chunk.Valid,
        Linked;
      bytes := [];
      CurrentToken();
      ok := Consume(Comma);
      if !ok { return; }
      ghost var d := TermSteps(mode, Toks(), false, context, |Code()|);
      ok := CompileTerm(false);
      if ok {
        bytes := d.value.bytes;
      }
    }

    /** The loop of compile_call over the terms after the bracket. */
    method CompileTerms() returns (ok: bool, nargs: byte)
      requires Valid()
      modifies this, scan, chunk, chunk.code, scope.Scopes, scope.Arrays
      ensures Kept() && DidAll(ok, nargs, TermsSteps(mode, old(Toks()), old(context), old(|Code()|)))
      decreases |Toks()|, 6
    {
      hide TermSteps, MoreTermsSteps, Prepend, Expect, Advance, Toks, Code, Scanner.Toks, Chunk.Bytes, Scanner.Valid,
        Chunk.Valid, Linked;
      nargs := 0;
      ghost var ts, code := Toks(), Code();
      ghost var goal := TermsSteps(mode, ts, context, |code|);
      CurrentToken();
      if scan.token == RBracket {
        ok := Next();
        assert code + [] == code;
        return;
      }
      ghost var d := TermSteps(mode, ts, false, context, |code|);
      ok := CompileTerm(false);
      if !ok { return; }
      nargs := 1;
      ghost var bytes, n, next := d.value.bytes, 1, [];
      while scan.token != RBracket
        invariant Kept()
        invariant Code() == code + bytes && nargs == n % 256 && |Toks()| < |ts|
        invariant goal == Prepend(bytes, n, MoreTermsSteps(mode, Toks(), context, |Code()|))
        decreases |Toks()|
      {
        ok, next := CompileNextTerm();
        PrependError(bytes, n, error);
        if !ok { return; }
        PrependTwice(bytes, n, next, 1, MoreTermsSteps(mode, Toks(), context, |Code()|));
        assert code + bytes + next == code + (bytes + next);
        bytes, n := bytes + next, n + 1;
        nargs := (nargs + 1) % 256;
      }
      CurrentToken();
      EndOfList(Toks());
      EndOfTerms(mode, Toks(), context, |Code()|, bytes, n);
      ok := Consume(RBracket);
    }

    lemma CurrentToken()
      requires scan.Valid()
      ensures Toks() != [] && Toks()[0] == scan.token
    {
    }

    static lemma EndOfList(ts: seq<Token>)
      requires ts != [] && ts[0] == RBracket
      ensures Expect(ts, RBracket) == Advance(ts)
    {
    }

    static lemma PrependError(bytes: seq<byte>, n: nat, e: CompileError)
      ensures Prepend(bytes, n, Err(e)) == Err(e)
    {
    }

    /** The bracket that ends a list. */
    static lemma EndOfTerms(m: Mode, ts: seq<Token>, c: Context, base: nat, bytes: seq<byte>, n: nat)
      requires ts != [] && ts[0] == RBracket && c.Context?
      ensures Prepend(bytes, n, MoreTermsSteps(m, ts, c, base)) ==
        if Advance(ts).Err? then Err(Advance(ts).error) else Ok(PassAll(c, bytes, n, Advance(ts).value))
    {
      hide Advance;
      assert bytes + [] == bytes;
    }

    static lemma EndOfParams(ts: seq<Token>, c: Context, n: nat)
      requires ts != [] && ts[0] == RBracket && c.Context?
      ensures Prepend([], n, MoreParamsSteps(ts, c)) ==
        if Advance(ts).Err? then Err(Advance(ts).error) else Ok(PassAll(c, [], n, Advance(ts).value))
    {
      hide Advance;
      NoBytes();
    }

    /** compile_call */
    method CompileCall(isTail: bool) returns (ok: bool)
      requires Valid()
      modifies this, scan, chunk, chunk.code, scope.Scopes, scope.Arrays
      ensures Kept() && Did(ok, CallSteps(mode, old(Toks()), isTail, old(context), old(|Code()|)))
      decreases |Toks()|, 2
    {
      hide FieldTerm, ArgumentsField, Ending, Encode, CallInstr, Toks, Code, Scanner.Toks,
        Chunk.Bytes, Scanner.Valid, Chunk.Valid, Linked;
      ghost var c0 := Code();
      ghost var d := FieldTerm(mode, Toks(), "callee", false, context, |c0|);
      ok := CompileField("callee", false);
      if !ok { return; }
      ghost var d' := ArgumentsField(mode, Toks(), context, |Code()|);
      var nargs;
      ok, nargs := CompileArguments();
      if !ok { return; }
      LeafSizes();
      CallIs(mode, isTail, d'.value.count);
      var i := if isTail && mode.tailCalls then ITailCall(nargs) else ICall(nargs);
      EndingBytes(mode, context, d.value.bytes + d'.value.bytes, Toks(), i);
      ghost var e := Ending(mode, Pass(context, [], Toks()), i);
      ok := CloseWith(i);
      if ok {
        Appended(c0, d.value.bytes, d'.value.bytes, e.value.bytes);
      }
    }

    static lemma CallIs(m: Mode, isTail: bool, n: nat)
      ensures CallInstr(m, isTail, n) == if isTail && m.tailCalls then ITailCall(n % 256) else ICall(n % 256)
    {
    }

    // ----- jumps -----

    /** emit_jump: the operand is 0 until it is patched. */
    method EmitJump(i: Instr) returns (ok: bool, offset: nat)
      requires Valid() && (i == IJump(0) || i == IJumpIfFalse(0))
      modifies this`error, chunk, chunk.code
      ensures Valid() && (chunk.code == old(chunk.code) || fresh(chunk.code)) && offset == |old(Code())| + 1
      ensures var r := EmitWithWord(mode, i, |old(Code())|); (ok <==> r.Ok?) && (!ok ==> error == r.error)
      ensures ok ==> Code() == old(Code()) + Encode(i)
    {
      offset := chunk.count + 1;
      ok := EmitWord(i);
    }

    /** patch_jump: the jump i, which stands between `before` and `rest`, goes to the end of the code
        emitted so far. */
    method PatchJump(offset: nat, ghost before: seq<byte>, ghost i: Instr, ghost rest: seq<byte>) returns (ok: bool)
      requires Valid() && Code() == before + Encode(i) + rest && offset == |before| + 1
      requires i == IJump(0) || i == IJumpIfFalse(0)
      modifies this`error, chunk.code
      ensures Valid() && (ok <==> |old(Code())| <= MAX_WORD) && (!ok ==> error == TooMuchCode)
      ensures ok ==>
        Code() == before + Encode(if i.IJump? then IJump(|old(Code())|) else IJumpIfFalse(|old(Code())|)) + rest
    {
      var jump := chunk.count;
      if jump > MAX_WORD {
        ok := Fail(TooMuchCode);
        return;
      }
      Patched(before, i, if i.IJump? then IJump(jump) else IJumpIfFalse(jump), jump, rest);
      hide Encode, Linked, Scanner.Valid;
      chunk.Patch(offset, jump);
      return true;
    }

    /** Patching the operand of a jump that stands after `before`. */
    static lemma Patched(before: seq<byte>, i: Instr, j: Instr, t: word, rest: seq<byte>)
      requires (i == IJump(0) && j == IJump(t)) || (i == IJumpIfFalse(0) && j == IJumpIfFalse(t))
      ensures var code := before + Encode(i) + rest;
        |Encode(i)| == 3 && code[..|before| + 1] + WordBytes(t) + code[|before| + 3..] == before + Encode(j) + rest
    {
    }

    /** compile_if */
    method CompileIf() returns (ok: bool)
      requires Valid()
      modifies this, scan, chunk, chunk.code, scope.Scopes, scope.Arrays
      ensures Kept() && (mode.emit ==> Did(ok, IfSteps(mode, old(Toks()), old(context), old(|Code()|))))
      ensures !mode.emit ==> Did(ok, CheckedIfSteps(mode, old(Toks()), old(context), old(|Code()|)))
      decreases |Toks()|, 3
    {
      if mode.emit {
        ok := EmitIf();
      } else {
        ok := CheckIf();
      }
    }

    /** compile_if in check mode */
    method CheckIf() returns (ok: bool)
      requires Valid() && !mode.emit
      modifies this, scan, chunk, chunk.code, scope.Scopes, scope.Arrays
      ensures Kept() && Did(ok, CheckedIfSteps(mode, old(Toks()), old(context), old(|Code()|)))
      decreases |Toks()|, 1
    {
      hide FieldTerm, Closing, Encode, Toks, Code, Scanner.Toks, Chunk.Bytes, Scanner.Valid,
        Chunk.Valid, Linked;
      ghost var c0 := Code();
      ghost var d0 := FieldTerm(mode, Toks(), "condition", false, context, |c0|);
      CheckedCode(mode, Toks(), "condition", false, context, |c0|);
      ok := CompileField("condition", false);
      if !ok { return; }
      assert c0 + [] == c0;
      ghost var d1 := FieldTerm(mode, Toks(), "then", true, context, |c0|);
      CheckedCode(mode, Toks(), "then", true, context, |c0|);
      ok := CompileField("then", true);
      if !ok { return; }
      ghost var d2 := FieldTerm(mode, Toks(), "otherwise", true, context, |c0|);
      CheckedCode(mode, Toks(), "otherwise", true, context, |c0|);
      ok := CompileField("otherwise", true);
      if !ok { return; }
      ok := CompileClosing();
      var none: seq<byte> := [];
      assert none + none + none == none;
    }

    /** compile_if when emitting: both jumps are emitted with operand 0 and patched afterwards. */
    method EmitIf() returns (ok: bool)
      requires Valid() && mode.emit
      modifies this, scan, chunk, chunk.code, scope.Scopes, scope.Arrays
      ensures Kept() && Did(ok, IfSteps(mode, old(Toks()), old(context), old(|Code()|)))
      decreases |Toks()|, 2
    {
      hide FieldTerm, ThenSteps, ElseSteps, Closing, Encode, EmitWithWord, Toks, Code, Scanner.Toks,
        Chunk.Bytes, Scanner.Valid, Chunk.Valid, Linked;
      JumpSize();
      ghost var c0 := Code();
      ghost var d0 := FieldTerm(mode, Toks(), "condition", false, context, |c0|);
      ok := CompileField("condition", false);
      if !ok { return; }
      ghost var d1 := ThenSteps(mode, Toks(), context, |Code()|);
      var offset2;
      ok, offset2 := EmitThen();
      if !ok { return; }
      ghost var before := c0 + d0.value.bytes + Encode(IJumpIfFalse(|Code()|)) + d1.value.bytes;
      ghost var d2 := ElseSteps(mode, Toks(), context, |Code()|);
      ok := EmitElse(offset2, before);
      if !ok { return; }
    }

    static lemma JumpSize()
      ensures forall t: word :: |Encode(IJump(t))| == |Encode(IJumpIfFalse(t))| == 3
    {
    }

    /** The jump over the second branch. The conditional jump in front of the first one, whose code is
        `bytes`, goes to the end of all that. */
    method EmitSkip(offset1: nat, ghost before: seq<byte>, ghost bytes: seq<byte>) returns (ok: bool, offset2: nat)
      requires Valid() && Code() == before + Encode(IJumpIfFalse(0)) + bytes && offset1 == |before| + 1
      modifies this`error, chunk, chunk.code
      ensures Valid() && (chunk.code == old(chunk.code) || fresh(chunk.code)) && offset2 == |old(Code())| + 1
      ensures var r, t := EmitWithWord(mode, IJump(0), |old(Code())|), Target(|old(Code())| + 3);
        && (ok <==> r.Ok? && t.Ok?) && (r.Err? ==> error == r.error) && (r.Ok? && t.Err? ==> error == t.error)
        && (ok ==> Code() == before + Encode(IJumpIfFalse(t.value)) + bytes + Encode(IJump(0)))
    {
      hide Encode, EmitWithWord, Toks, Code, Scanner.Toks, Chunk.Bytes, Scanner.Valid, Chunk.Valid, Linked;
      JumpSize();
      ok, offset2 := EmitJump(IJump(0));
      if !ok { return; }
      ghost var rest := bytes + Encode(IJump(0));
      assert Code() == before + Encode(IJumpIfFalse(0)) + rest;
      ghost var t := |Code()|;
      ok := PatchJump(offset1, before, IJumpIfFalse(0), rest);
      if !ok { return; }
      assert before + Encode(IJumpIfFalse(t)) + rest == before + Encode(IJumpIfFalse(t)) + bytes + Encode(IJump(0));
    }

    /** The conditional jump, the first branch and the jump over the second one. */
    method EmitThen() returns (ok: bool, offset2: nat)
      requires Valid() && mode.emit
      modifies this, scan, chunk, chunk.code, scope.Scopes, scope.Arrays
      ensures Kept()
      ensures var r := ThenSteps(mode, old(Toks()), old(context), old(|Code()|));
        && (ok <==> r.Ok?) && (!ok ==> error == r.error)
        && (ok ==>
              && context == r.value.context && Toks() == r.value.rest
              && |old(Code())| + |r.value.bytes| + 6 <= MAX_WORD
              && offset2 == |old(Code())| + 3 + |r.value.bytes| + 1
              && Code() == old(Code()) + Encode(IJumpIfFalse(|old(Code())| + |r.value.bytes| + 6)) +
                           r.value.bytes + Encode(IJump(0)))
      decreases |Toks()|, 1
    {
      hide FieldTerm, Encode, EmitWithWord, Toks, Code, Scanner.Toks, Chunk.Bytes, Scanner.Valid, Chunk.Valid, Linked;
      JumpSize();
      offset2 := 0;
      ghost var c0 := Code();
      var offset1;
      ok, offset1 := EmitJump(IJumpIfFalse(0));
      if !ok { return; }
      ghost var d1 := FieldTerm(mode, Toks(), "then", true, context, |Code()|);
      ok := CompileField("then", true);
      if !ok { return; }
      ok, offset2 := EmitSkip(offset1, c0, d1.value.bytes);
    }

    /** The second branch. The jump at the end of the first one goes to its end. */
    method EmitElse(offset2: nat, ghost before: seq<byte>) returns (ok: bool)
      requires Valid() && mode.emit && Code() == before + Encode(IJump(0)) && offset2 == |before| + 1
      modifies this, scan, chunk, chunk.code, scope.Scopes, scope.Arrays
      ensures Kept()
      ensures var r := ElseSteps(mode, old(Toks()), old(context), old(|Code()|));
        && (ok <==> r.Ok?) && (!ok ==> error == r.error)
        && (ok ==>
              && context == r.value.context && Toks() == r.value.rest
              && |old(Code())| + |r.value.bytes| <= MAX_WORD
              && Code() == before + Encode(IJump(|old(Code())| + |r.value.bytes|)) + r.value.bytes)
      decreases |Toks()|, 1
    {
      hide FieldTerm, Closing, Encode, EmitWithWord, Toks, Code, Scanner.Toks, Chunk.Bytes, Scanner.Valid,
        Chunk.Valid, Linked;
      JumpSize();
      ghost var d2 := FieldTerm(mode, Toks(), "otherwise", true, context, |Code()|);
      ok := CompileField("otherwise", true);
      if !ok { return; }
      ghost var code := Code();
      ok := PatchJump(offset2, before, IJump(0), d2.value.bytes);
      if !ok { return; }
      ok := CompileClosing();
    }

    /** One round of the loop of compile_function: a comma and a parameter. */
    method CompileNextParameter() returns (ok: bool)
      requires Valid() && scan.token != RBracket
      modifies this`context, this`error, scan, scope.Scopes, scope.Arrays
      ensures Valid() && Code() == old(Code())
      ensures var r := MoreParamsSteps(old(Toks()), old(context));
        if ok then r == Prepend([], 1, MoreParamsSteps(Toks(), context)) && |Toks()| < |old(Toks())|
        else r == Err(error)
    {
      hide ParamSteps, Prepend, Expect, Toks, Code, Scanner.Toks, Chunk.Bytes, Scanner.Valid, Chunk.Valid, Linked;
      CurrentToken();
      ok := Consume(Comma);
      if !ok { return; }
      ok := CompileParameter();
    }

    /** The loop of compile_function over the parameters after the bracket. */
    method CompileParameters() returns (ok: bool, arity: byte)
      requires Valid()
      modifies this`context, this`error, scan, scope.Scopes, scope.Arrays
      ensures Valid() && Code() == old(Code())
      ensures var r := ParamsSteps(old(Toks()), old(context));
        && (ok <==> r.Ok?) && (!ok ==> error == r.error)
        && (ok ==> context == r.value.context && Toks() == r.value.rest && arity == r.value.count % 256)
    {
      hide ParamSteps, MoreParamsSteps, Prepend, Expect, Advance, Toks, Code, Scanner.Toks, Chunk.Bytes,
        Scanner.Valid, Chunk.Valid, Linked;
      arity := 0;
      ghost var ts, code := Toks(), Code();
      assert code + [] == code;
      ghost var goal := ParamsSteps(ts, context);
      CurrentToken();
      if scan.token == RBracket {
        ok := Next();
        return;
      }
      ok := CompileParameter();
      if !ok { return; }
      arity := 1;
      ghost var n := 1;
      while scan.token != RBracket
        invariant Valid() && Code() == code && arity == n % 256 && |Toks()| < |ts|
        invariant goal == Prepend([], n, MoreParamsSteps(Toks(), context))
        decreases |Toks()|
      {
        ok := CompileNextParameter();
        PrependError([], n, error);
        if !ok { return; }
        PrependTwice([], n, [], 1, MoreParamsSteps(Toks(), context));
        NoBytes();
        n := n + 1;
        arity := (arity + 1) % 256;
      }
      CurrentToken();
      EndOfList(Toks());
      EndOfParams(Toks(), context, n);
      ok := Consume(RBracket);
    }

    static lemma NoBytes()
      ensures var none: seq<byte> := []; none + none == none
    {
    }

    /** The parameters and the body of a function. */
    method CompileCode() returns (ok: bool, arity: byte)
      requires Valid() && Code() == []
      modifies this, scan, chunk, chunk.code, scope.Scopes, scope.Arrays
      ensures Kept() && DidAll(ok, arity, BodySteps(mode, old(Toks()), old(context)))
      decreases |Toks()|, 2
    {
      hide FieldTerm, ParamsSteps, Closing, Encode, Toks, Code, Scanner.Toks, Chunk.Bytes, Scanner.Valid,
        Chunk.Valid, Linked;
      ghost var c0 := Code();
      ok, arity := CompileParameters();
      if !ok { return; }
      assert c0 + [] == [];
      ghost var d := FieldTerm(mode, Toks(), "value", true, context, 0);
      ok := CompileField("value", true);
      if !ok { return; }
      ok := CompileClosing();
      if !ok { return; }
      LeafSizes();
      Emit(IReturn);
      assert d.value.bytes + [] == d.value.bytes;
    }

    /** The function that has been compiled. */
    twostate predicate Finished(ok: bool, fn: CompiledFunction, new r: Result<PassAll>)
      requires Valid()
      reads this, scan, chunk, scope, scope.Scopes, scope.Arrays
    {
      && (ok <==> r.Ok?) && (!ok ==> error == r.error) && (ok ==> Toks() == r.value.rest)
      && (ok ==> context == r.value.context && fn == Finish(context, r.value.count, r.value.bytes))
    }

    /** The parameters, the body and the finished function. */
    method CompileBody() returns (ok: bool, fn: CompiledFunction)
      requires Valid() && Code() == []
      modifies this, scan, chunk, chunk.code, scope.Scopes, scope.Arrays
      ensures Kept() && Finished(ok, fn, BodySteps(mode, old(Toks()), old(context)))
      decreases |Toks()|, 3
    {
      hide BodySteps, Finish, Toks, Scanner.Toks, Chunk.Bytes, Scanner.Valid, Chunk.Valid, Linked;
      fn := CompiledFunction(0, [], [], [], []);
      ghost var c0, b := Code(), BodySteps(mode, Toks(), context);
      var arity;
      ok, arity := CompileCode();
      if !ok { return; }
      assert c0 + b.value.bytes == b.value.bytes;
      FinishedArity(context, b.value.count, b.value.bytes);
      fn := FinishedFunction(arity, chunk.Bytes());
    }

    static lemma FinishedArity(c: Context, n: nat, bytes: seq<byte>)
      requires c.Context?
      ensures Finish(c, n % 256, bytes) == Finish(c, n, bytes)
    {
    }

    /** The middle of compile_function: the function has tables and a buffer of its own. */
    method CompileInner() returns (ok: bool, fn: CompiledFunction)
      requires Valid()
      modifies this, scan, chunk, chunk.code, scope.Scopes, scope.Arrays
      ensures Kept() && Code() == old(Code())
      ensures var r := BodySteps(mode, old(Toks()), NewContext(old(context)));
        && (ok <==> r.Ok?) && (!ok ==> error == r.error)
        && (ok ==> Toks() == r.value.rest && r.value.context.Context? && context == r.value.context.enclosing)
        && (ok ==> fn == Finish(r.value.context, r.value.count, r.value.bytes))
      decreases |Toks()|, 4
    {
      hide BodySteps, Finish, Toks, Scanner.Toks, Scanner.Valid, Linked;
      var enclosing := chunk;
      OpenScope();
      chunk := new Chunk();
      ok, fn := CompileBody();
      CloseScope();
      chunk := enclosing;
    }

    /** compile_function */
    method CompileFunction() returns (ok: bool)
      requires Valid()
      modifies this, scan, chunk, chunk.code, scope.Scopes, scope.Arrays
      ensures Kept() && Did(ok, FunctionSteps(mode, old(Toks()), old(context)))
      decreases |Toks()|, 5
    {
      hide BodySteps, Finish, Field, Expect, Encode, Toks, Code, Scanner.Toks, Chunk.Bytes, Scanner.Valid,
        Chunk.Valid, Linked;
      ok := ConsumeField("parameters");
      if !ok { return; }
      ok := Consume(LBracket);
      if !ok { return; }
      ghost var c0, b := Code(), BodySteps(mode, Toks(), NewContext(context));
      var fn;
      ok, fn := CompileInner();
      if !ok { return; }
      TwoDeep(b.value.context);
      assert c0 + [] == c0;
      if mode.emit {
        var index := AddChild(fn);
        LeafSizes();
        Emit(IClosure(index));
      }
    }

    /** compile_file */
    method CompileFile() returns (ok: bool)
      requires Valid()
      modifies this, scan, chunk, chunk.code, scope.Scopes, scope.Arrays
      ensures Kept() && Did(ok, FileSteps(mode, old(Toks()), old(context), old(|Code()|)))
    {
      hide Expect, KeyColon, ExpectString, FieldTerm, Ending, Encode, Toks, Code, Scanner.Toks,
        Chunk.Bytes, Scanner.Valid, Chunk.Valid, Linked;
      ghost var c0 := Code();
      ok := Consume(LBrace);
      if !ok { return; }
      ok := ConsumeKey("name");
      if !ok { return; }
      var name;
      ok, name := ConsumeString();
      if !ok { return; }
      ghost var d := FieldTerm(mode, Toks(), "expression", false, context, |c0|);
      ok := CompileField("expression", false);
      if !ok { return; }
      LeafSizes();
      EndingBytes(mode, context, d.value.bytes, Toks(), IReturn);
      ghost var e := Ending(mode, Pass(context, [], Toks()), IReturn);
      ok := CloseWith(IReturn);
      if ok {
        Appended(c0, d.value.bytes, [], e.value.bytes);
      }
    }
  }

  /** compile: from source text to the function of the program, or the first error in the text. */
  method CompileSource(source: string, mode: Mode) returns (main: Result<CompiledFunction>)
    ensures main == TextSteps(mode, source)
  {
    hide TokensFrom, Encode, FileSteps, TextSteps, Scanner.Valid, Chunk.Valid, Chunk.Bytes;
    var scan := new Scanner(source);
    ghost var ts := TokensFrom(source, 0);
    assert ([Comma] + ts)[1..] == ts && ([Comma] + ts)[1] == ts[0];
    FirstTokenBad(mode, source);
    TextIs(mode, source);
    hide Scanner.Toks;
    var ok, _ := scan.NextToken();
    if !ok {
      return Err(SyntaxError);
    }
    var comp := new Compiler(mode, scan);
    assert comp.Toks() == ts;
    ghost var r := FileSteps(mode, ts, NewContext(NoContext), 0);
    ok := comp.CompileFile();
    if !ok {
      return Err(comp.error);
    }
    assert [] + r.value.bytes == r.value.bytes;
    var fn := comp.FinishedFunction(0, comp.chunk.Bytes());
    return Ok(fn);
  }

  lemma TextIs(m: Mode, source: string)
    ensures var r := FileSteps(m, TokensFrom(source, 0), NewContext(NoContext), 0);
      TextSteps(m, source) == if r.Err? then Err(r.error) else Ok(Finish(r.value.context, 0, r.value.bytes))
  {
    hide FileSteps, TokensFrom;
  }
}
