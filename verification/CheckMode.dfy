/** `check` and `compile` on any tokens, also on those that do not parse: the two single passes accept
    alike, and they report the same error, unless `compile` meets a limit on emitted code before. */
module CheckMode {
  import opened Values
  import opened Syntax
  import opened Bytecode
  import opened Codegen
  import opened Tokens
  import opened Parser
  import opened Modes
  import opened SinglePass

  /** What `compile` gives and what `check` gives. */
  ghost predicate PassAgrees(r: Result<Pass>, r': Result<Pass>) {
    match r
    case Err(e) => EmitLimit(e) || r' == Err(e)
    case Ok(d) => r'.Ok? && d.rest == r'.value.rest && Alike(false, d.context, r'.value.context)
  }

  ghost predicate ListAgrees(r: Result<PassAll>, r': Result<PassAll>) {
    match r
    case Err(e) => EmitLimit(e) || r' == Err(e)
    case Ok(d) => r'.Ok? && d.rest == r'.value.rest && Alike(false, d.context, r'.value.context)
  }

  /** The two passes are at the same place. */
  ghost predicate Beside(m: Mode, c: Context, d: Context) {
    !m.emit && c.Context? && d.Context? && Alike(false, c, d)
  }

  lemma {:induction false} TermAgrees(m: Mode, ts: seq<Token>, isTail: bool, c: Context, d: Context, base: nat,
                                      base': nat)
    requires Beside(m, c, d)
    ensures PassAgrees(TermSteps(FULL, ts, isTail, c, base), TermSteps(m, ts, isTail, d, base'))
    decreases |ts|, 3
  {
    hide PassAgrees, ParseKind, KindSteps;
    if ParseKind(ts).Ok? {
      KindAgrees(m, ParseKind(ts).value.0, ParseKind(ts).value.1, isTail, c, d, base, base');
    } else {
      SameError(ParseKind(ts).error);
    }
  }

  lemma SameError(e: CompileError)
    ensures PassAgrees(Err(e), Err(e)) && ListAgrees(Err(e), Err(e))
  {
  }

  lemma {:induction false} KindAgrees(m: Mode, k: Kind, ts: seq<Token>, isTail: bool, c: Context, d: Context,
                                      base: nat, base': nat)
    requires Beside(m, c, d)
    ensures PassAgrees(KindSteps(FULL, k, ts, isTail, c, base), KindSteps(m, k, ts, isTail, d, base'))
    decreases |ts|, 2
  {
    hide PassAgrees, Alike, IntSteps, StrSteps, CallSteps, BinarySteps, FunctionSteps, LetSteps, IfSteps,
      CheckedIfSteps, UnarySteps, BoolSteps, TupleSteps, VarSteps;
    match k
    case KInt => LeafAgrees(m, k, ts, c, d, base, base');
    case KStr => LeafAgrees(m, k, ts, c, d, base, base');
    case KBool => LeafAgrees(m, k, ts, c, d, base, base');
    case KVar => LeafAgrees(m, k, ts, c, d, base, base');
    case KCall => CallAgrees(m, ts, isTail, c, d, base, base');
    case KBinary => BinaryAgrees(m, ts, c, d, base, base');
    case KFunction => FunctionAgrees(m, ts, c, d);
    case KLet => LetAgrees(m, ts, c, d, base, base');
    case KIf => IfAgrees(m, ts, c, d, base, base');
    case KUnary(op) => UnaryAgrees(m, ts, op, c, d, base, base');
    case KTuple => TupleAgrees(m, ts, c, d, base, base');
  }

  lemma LeafAgrees(m: Mode, k: Kind, ts: seq<Token>, c: Context, d: Context, base: nat, base': nat)
    requires Beside(m, c, d) && (k.KInt? || k.KStr? || k.KBool? || k.KVar?)
    ensures PassAgrees(KindSteps(FULL, k, ts, false, c, base), KindSteps(m, k, ts, false, d, base'))
    ensures forall isTail :: KindSteps(FULL, k, ts, isTail, c, base) == KindSteps(FULL, k, ts, false, c, base)
    ensures forall isTail :: KindSteps(m, k, ts, isTail, d, base') == KindSteps(m, k, ts, false, d, base')
  {
    hide Alike, Field, Closing, ExpectInt, ExpectString, ExpectBool, Encode, CompileInt, CompileConstant, CompileVar;
    var ts1 := Field(ts, if k.KVar? then "text" else "value");
    if ts1.Ok? {
      match k
      case KInt =>
        if ExpectInt(ts1.value).Ok? {
          IntAgrees(m, c, d, DigitsToNat(ExpectInt(ts1.value).value.0), base, base');
        }
      case KStr =>
        if ExpectString(ts1.value).Ok? {
          ConstantAgrees(m, c, d, StrValue(ExpectString(ts1.value).value.0));
        }
      case KVar =>
        if ExpectString(ts1.value).Ok? {
          VarAgrees(m, c, d, ExpectString(ts1.value).value.0);
        }
      case _ =>
    }
  }

  lemma {:induction false} FieldAgrees(m: Mode, ts: seq<Token>, key: string, isTail: bool, c: Context, d: Context,
                                       base: nat, base': nat)
    requires Beside(m, c, d)
    ensures PassAgrees(FieldTerm(FULL, ts, key, isTail, c, base), FieldTerm(m, ts, key, isTail, d, base'))
    ensures var r, r' := FieldTerm(FULL, ts, key, isTail, c, base), FieldTerm(m, ts, key, isTail, d, base');
      r.Ok? ==> r'.Ok? && r.value.rest == r'.value.rest && Beside(m, r.value.context, r'.value.context)
    decreases |ts|, 0
  {
    hide Field, TermSteps, Alike;
    if Field(ts, key).Ok? {
      TermAgrees(m, Field(ts, key).value, isTail, c, d, base, base');
    }
  }

  lemma {:induction false} UnaryAgrees(m: Mode, ts: seq<Token>, op: UnOp, c: Context, d: Context, base: nat, base': nat)
    requires Beside(m, c, d)
    ensures PassAgrees(UnarySteps(FULL, ts, op, c, base), UnarySteps(m, ts, op, d, base'))
    decreases |ts|, 1
  {
    hide FieldTerm, Closing, Encode, Alike;
    FieldAgrees(m, ts, "value", false, c, d, base, base');
  }

  lemma {:induction false} TupleAgrees(m: Mode, ts: seq<Token>, c: Context, d: Context, base: nat, base': nat)
    requires Beside(m, c, d)
    ensures PassAgrees(TupleSteps(FULL, ts, c, base), TupleSteps(m, ts, d, base'))
    decreases |ts|, 1
  {
    hide FieldTerm, Closing, Encode, Alike;
    FieldAgrees(m, ts, "first", false, c, d, base, base');
    var r, r' := FieldTerm(FULL, ts, "first", false, c, base), FieldTerm(m, ts, "first", false, d, base');
    if r.Ok? {
      FieldAgrees(m, r.value.rest, "second", false, r.value.context, r'.value.context, base + |r.value.bytes|,
                  base' + |r'.value.bytes|);
    }
  }

  lemma {:induction false} BinaryAgrees(m: Mode, ts: seq<Token>, c: Context, d: Context, base: nat, base': nat)
    requires Beside(m, c, d)
    ensures PassAgrees(BinarySteps(FULL, ts, c, base), BinarySteps(m, ts, d, base'))
    decreases |ts|, 1
  {
    hide FieldTerm, OperatorField, Closing, Encode, Alike;
    FieldAgrees(m, ts, "lhs", false, c, d, base, base');
    var r, r' := FieldTerm(FULL, ts, "lhs", false, c, base), FieldTerm(m, ts, "lhs", false, d, base');
    if r.Ok? && OperatorField(r.value.rest).Ok? {
      FieldAgrees(m, OperatorField(r.value.rest).value.1, "rhs", false, r.value.context, r'.value.context,
                  base + |r.value.bytes|, base' + |r'.value.bytes|);
    }
  }

  lemma ParamAgrees(m: Mode, ts: seq<Token>, c: Context, d: Context)
    requires Beside(m, c, d)
    ensures PassAgrees(ParamSteps(ts, c), ParamSteps(ts, d))
    ensures ParamSteps(ts, c).Ok? ==>
      ParamSteps(ts, d).Ok? && Beside(m, ParamSteps(ts, c).value.context, ParamSteps(ts, d).value.context)
  {
    hide ParseParameter, AddLocal, Alike;
    if ParseParameter(ts).Ok? {
      AddLocalAgrees(false, c, d, ParseParameter(ts).value.0.text);
      AliveLocal(c, d, ParseParameter(ts).value.0.text);
    }
  }

  lemma AliveLocal(c: Context, d: Context, x: string)
    requires c.Context? && d.Context?
    ensures AddLocal(c, x).Ok? ==> AddLocal(c, x).value.Context?
    ensures AddLocal(d, x).Ok? ==> AddLocal(d, x).value.Context?
  {
  }

  lemma {:induction false} LetAgrees(m: Mode, ts: seq<Token>, c: Context, d: Context, base: nat, base': nat)
    requires Beside(m, c, d)
    ensures PassAgrees(LetSteps(FULL, ts, c, base), LetSteps(m, ts, d, base'))
    decreases |ts|, 1
  {
    hide FieldTerm, Field, ParamSteps, Closing, Alike;
    var ts1 := Field(ts, "name");
    if ts1.Ok? {
      ParamAgrees(m, ts1.value, c, d);
      var x, x' := ParamSteps(ts1.value, c), ParamSteps(ts1.value, d);
      if x.Ok? {
        FieldAgrees(m, x.value.rest, "value", false, x.value.context, x'.value.context, base, base');
        var r, r' := FieldTerm(FULL, x.value.rest, "value", false, x.value.context, base), FieldTerm(m, x'.value.rest,
                     "value", false, x'.value.context, base');
        if r.Ok? {
          FieldAgrees(m, r.value.rest, "next", true, r.value.context, r'.value.context, base + |r.value.bytes|,
                      base' + |r'.value.bytes|);
        }
      }
    }
  }

  lemma {:induction false} IfAgrees(m: Mode, ts: seq<Token>, c: Context, d: Context, base: nat, base': nat)
    requires Beside(m, c, d)
    ensures PassAgrees(IfSteps(FULL, ts, c, base), CheckedIfSteps(m, ts, d, base'))
    decreases |ts|, 1
  {
    hide FieldTerm, Closing, Encode, Alike, WordOverruns;
    FieldAgrees(m, ts, "condition", false, c, d, base, base');
    var r0, r0' := FieldTerm(FULL, ts, "condition", false, c, base), FieldTerm(m, ts, "condition", false, d, base');
    if r0.Ok? {
      var p1 := base + |r0.value.bytes|;
      FieldAgrees(m, r0.value.rest, "then", true, r0.value.context, r0'.value.context, p1 + 3, base');
      var r1, r1' := FieldTerm(FULL, r0.value.rest, "then", true, r0.value.context, p1 + 3), FieldTerm(m,
                     r0'.value.rest, "then", true, r0'.value.context, base');
      if r1.Ok? {
        FieldAgrees(m, r1.value.rest, "otherwise", true, r1.value.context, r1'.value.context,
                    p1 + |r1.value.bytes| + 6, base');
      }
    }
  }

  lemma {:induction false} CallAgrees(m: Mode, ts: seq<Token>, isTail: bool, c: Context, d: Context, base: nat,
                                      base': nat)
    requires Beside(m, c, d)
    ensures PassAgrees(CallSteps(FULL, ts, isTail, c, base), CallSteps(m, ts, isTail, d, base'))
    decreases |ts|, 1
  {
    hide FieldTerm, Field, Expect, TermsSteps, Closing, Encode, CallInstr, Alike;
    FieldAgrees(m, ts, "callee", false, c, d, base, base');
    var r, r' := FieldTerm(FULL, ts, "callee", false, c, base), FieldTerm(m, ts, "callee", false, d, base');
    if r.Ok? && Field(r.value.rest, "arguments").Ok? {
      var ts2 := Expect(Field(r.value.rest, "arguments").value, LBracket);
      if ts2.Ok? {
        TermsAgree(m, ts2.value, r.value.context, r'.value.context, base + |r.value.bytes|, base' + |r'.value.bytes|);
      }
    }
  }

  lemma {:induction false} TermsAgree(m: Mode, ts: seq<Token>, c: Context, d: Context, base: nat, base': nat)
    requires Beside(m, c, d)
    ensures ListAgrees(TermsSteps(FULL, ts, c, base), TermsSteps(m, ts, d, base'))
    decreases |ts|, 5
  {
    hide Advance, TermSteps, MoreTermsSteps, Alike;
    if ts != [] && ts[0] == RBracket { return; }
    TermAgrees(m, ts, false, c, d, base, base');
    var r, r' := TermSteps(FULL, ts, false, c, base), TermSteps(m, ts, false, d, base');
    if r.Ok? {
      MoreTermsAgree(m, r.value.rest, r.value.context, r'.value.context, base + |r.value.bytes|,
                     base' + |r'.value.bytes|);
    }
  }

  lemma {:induction false} MoreTermsAgree(m: Mode, ts: seq<Token>, c: Context, d: Context, base: nat, base': nat)
    requires Beside(m, c, d)
    ensures ListAgrees(MoreTermsSteps(FULL, ts, c, base), MoreTermsSteps(m, ts, d, base'))
    decreases |ts|, 4
  {
    hide Advance, Expect, TermSteps, Alike;
    if (ts != [] && ts[0] == RBracket) || Expect(ts, Comma).Err? { return; }
    var ts1 := Expect(ts, Comma).value;
    TermAgrees(m, ts1, false, c, d, base, base');
    var r, r' := TermSteps(FULL, ts1, false, c, base), TermSteps(m, ts1, false, d, base');
    if r.Ok? {
      MoreTermsAgree(m, r.value.rest, r.value.context, r'.value.context, base + |r.value.bytes|,
                     base' + |r'.value.bytes|);
    }
  }

  lemma {:induction false} MoreParamsAgree(m: Mode, ts: seq<Token>, c: Context, d: Context)
    requires Beside(m, c, d)
    ensures ListAgrees(MoreParamsSteps(ts, c), MoreParamsSteps(ts, d))
    decreases |ts|
  {
    hide Advance, Expect, ParamSteps, Alike;
    if (ts != [] && ts[0] == RBracket) || Expect(ts, Comma).Err? { return; }
    var ts1 := Expect(ts, Comma).value;
    ParamAgrees(m, ts1, c, d);
    if ParamSteps(ts1, c).Ok? {
      var x, x' := ParamSteps(ts1, c).value, ParamSteps(ts1, d).value;
      MoreParamsAgree(m, x.rest, x.context, x'.context);
    }
  }

  lemma ParamsAgree(m: Mode, ts: seq<Token>, c: Context, d: Context)
    requires Beside(m, c, d)
    ensures ListAgrees(ParamsSteps(ts, c), ParamsSteps(ts, d))
    ensures ParamsSteps(ts, c).Ok? ==> Beside(m, ParamsSteps(ts, c).value.context, ParamsSteps(ts, d).value.context)
  {
    hide Advance, ParamSteps, MoreParamsSteps, Alike;
    if ts != [] && ts[0] == RBracket { return; }
    ParamAgrees(m, ts, c, d);
    if ParamSteps(ts, c).Ok? {
      var x, x' := ParamSteps(ts, c).value, ParamSteps(ts, d).value;
      MoreParamsAgree(m, x.rest, x.context, x'.context);
    }
  }

  lemma {:induction false} FunctionAgrees(m: Mode, ts: seq<Token>, c: Context, d: Context)
    requires Beside(m, c, d)
    ensures PassAgrees(FunctionSteps(FULL, ts, c), FunctionSteps(m, ts, d))
    decreases |ts|, 1
  {
    hide FieldTerm, Field, Expect, ParamsSteps, Closing, Encode, Alike, Finish;
    if Field(ts, "parameters").Ok? && Expect(Field(ts, "parameters").value, LBracket).Ok? {
      var ts2 := Expect(Field(ts, "parameters").value, LBracket).value;
      var k, k' := NewContext(c), NewContext(d);
      assert Beside(m, k, k') by { NewBeside(m, c, d); }
      ParamsAgree(m, ts2, k, k');
      var ps, ps' := ParamsSteps(ts2, k), ParamsSteps(ts2, k');
      if ps.Ok? {
        FieldAgrees(m, ps.value.rest, "value", true, ps.value.context, ps'.value.context, 0, 0);
        var b, b' := BodySteps(FULL, ts2, k), BodySteps(m, ts2, k');
        if b.Ok? {
          TwoDeep(b.value.context);
          TwoDeep(b'.value.context);
          OuterAgrees(b.value, b'.value);
        }
      }
    }
  }

  lemma NewBeside(m: Mode, c: Context, d: Context)
    requires Beside(m, c, d)
    ensures Beside(m, NewContext(c), NewContext(d))
  {
  }

  /** The context of the enclosing function, when a function in it is finished. */
  lemma OuterAgrees(b: PassAll, b': PassAll)
    requires Alike(false, b.context, b'.context) && b.context.Context? && b.context.enclosing.Context?
    ensures var outer, outer' := b.context.enclosing, b'.context.enclosing;
      b'.context.Context? && outer'.Context? && Alike(false, outer, outer') &&
      forall fs :: Alike(false, outer.(functions := fs), outer')
  {
  }

  /** The two passes on a source text. */
  lemma TextAgrees(m: Mode, source: string)
    requires !m.emit
    ensures match TextSteps(FULL, source)
      case Ok(_) => TextSteps(m, source).Ok?
      case Err(e) =>
        e in {TooManyConstants, IntegerOverflow, TooMuchCode, CodeBufferOverrun} || TextSteps(m, source) == Err(e)
  {
    hide Expect, KeyColon, ExpectString, FieldTerm, Closing, Encode, TokensFrom, Finish;
    var ts, c := TokensFrom(source, 0), NewContext(NoContext);
    if Expect(ts, LBrace).Ok? && KeyColon(Expect(ts, LBrace).value, "name").Ok? {
      var name := ExpectString(KeyColon(Expect(ts, LBrace).value, "name").value);
      if name.Ok? {
        FieldAgrees(m, name.value.1, "expression", false, c, c, 0, 0);
      }
    }
  }
}
