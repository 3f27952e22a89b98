/** Printing a program by the grammar of docs/rinha-ast.ebnf and reading it back. */
module RoundTrip {
  import opened Values
  import opened Syntax
  import opened Codegen
  import opened Tokens
  import opened Parser
  import opened Grammar
  import Primitives

  /** The token that the grammar prints in a slot. */
  function Canonical(slot: Slot): Token {
    match slot
    case Exact(t) => t
    case Key(key) => StringToken(key)
    case KindSlot(k) => StringToken(KindName(k))
    case OperatorSlot(op) => StringToken(OperatorName(op))
    case Number(n) => IntToken(NatToString(n))
  }

  function Printed(slots: seq<Slot>): (ts: seq<Token>)
    ensures |ts| == |slots| && forall i :: 0 <= i < |slots| ==> ts[i] == Canonical(slots[i])
  {
    if slots == [] then [] else [Canonical(slots[0])] + Printed(slots[1..])
  }

  lemma {:induction false} DigitsBack(n: nat)
    ensures DigitsToNat(NatToString(n)) == n
    ensures forall c | c in NatToString(n) :: IsDigit(c)
    ensures NatToString(n) != []
    decreases n
  {
    if n >= 10 {
      DigitsBack(n / 10);
      var s := NatToString(n);
      assert s[..|s| - 1] == NatToString(n / 10);
    } else {
      assert DigitsToNat([]) == 0;
      assert NatToString(n)[..0] == [];
    }
  }

  /** Digits, with or without zeros in front, are read as the number they denote. */
  lemma {:induction false} DigitsRead(s: string)
    requires forall c | c in s :: '0' <= c <= '9'
    ensures DigitsToNat(s) == Primitives.DigitSum(s)
    decreases |s|
  {
    if s != [] {
      var init := s[..|s| - 1];
      assert s[|s| - 1] in s;
      forall c | c in init ensures '0' <= c <= '9' {
        assert c in s;
      }
      DigitsRead(init);
    }
  }

  /** The printed token fits its slot. */
  lemma CanonicalFits(slot: Slot)
    requires slot != Exact(Token.Bad)
    ensures Fits(Canonical(slot), slot)
  {
    hide DigitsToNat, NatToString;
    match slot
    case Number(n) => DigitsBack(n);
    case _ =>
  }

  /** Strings have no escapes, so they hold no quote; a NUL would end the text. */
  predicate Spellable(t: Token) {
    match t
    case IntToken(digits) => digits != [] && forall c | c in digits :: '0' <= c <= '9'
    case StringToken(text) => forall c | c in text :: c != '"' && c != '\0'
    case EOF => false
    case Bad => false
    case _ => true
  }

  predicate Plain(s: string) {
    forall c | c in s :: c != '"' && c != '\0'
  }

  predicate PlainParameter(p: Parameter) {
    Plain(p.text) && Plain(p.loc.filename)
  }

  predicate PlainParameters(ps: seq<Parameter>) {
    forall p | p in ps :: PlainParameter(p)
  }

  /** No string, name or file name in the term holds a quote or a NUL. */
  predicate PlainTerm(t: Term) {
    Plain(t.loc.filename) &&
    match t
    case Int(_, _) | Bool(_, _) => true
    case Str(s, _) => Plain(s)
    case Var(x, _) => Plain(x)
    case Call(f, args, _) => PlainTerm(f) && PlainTerms(args)
    case Binary(l, _, r, _) => PlainTerm(l) && PlainTerm(r)
    case Unary(_, e, _) => PlainTerm(e)
    case Pair(l, r, _) => PlainTerm(l) && PlainTerm(r)
    case Function(ps, b, _) => PlainParameters(ps) && PlainTerm(b)
    case Let(x, v, n, _) => PlainParameter(x) && PlainTerm(v) && PlainTerm(n)
    case If(c, a, b, _) => PlainTerm(c) && PlainTerm(a) && PlainTerm(b)
  }

  predicate PlainTerms(ts: seq<Term>) {
    ts == [] || (PlainTerm(ts[0]) && PlainTerms(ts[1..]))
  }

  predicate PlainFile(f: File) {
    Plain(f.name) && PlainTerm(f.expression) && Plain(f.loc.filename)
  }

  /** The token printed in the slot scans, and keys are plain; if plain, a text can spell the token. */
  predicate Sound(plain: bool, slot: Slot) {
    slot != Exact(Token.Bad) && (slot.Key? ==> Plain(slot.key)) && (plain ==> Spellable(Canonical(slot)))
  }

  predicate AllSound(plain: bool, slots: seq<Slot>) {
    forall s | s in slots :: Sound(plain, s)
  }

  lemma {:induction false} PrintedReads(slots: seq<Slot>, rest: seq<Token>)
    requires AllSound(false, slots) && Good(rest)
    ensures Reads(Printed(slots) + rest, slots, rest)
    decreases slots
  {
    hide Canonical, Fits;
    if slots == [] {
      assert Printed(slots) + rest == rest;
    } else {
      assert slots[0] in slots;
      CanonicalFits(slots[0]);
      PrintedReads(slots[1..], rest);
      assert (Printed(slots) + rest)[1..] == Printed(slots[1..]) + rest;
    }
  }

  // ----- the slots of a node are sound -----

  lemma SlotSound(plain: bool, slot: Slot, more: seq<Slot>)
    ensures AllSound(plain, [slot] + more) <==> Sound(plain, slot) && AllSound(plain, more)
  {
    hide Sound;
    var all := [slot] + more;
    if AllSound(plain, all) {
      assert all[0] == slot && forall s | s in more :: s in all;
    }
  }

  lemma NumberSound(plain: bool, n: nat)
    ensures Sound(plain, Number(n))
  {
    hide NatToString;
    DigitsBack(n);
  }

  lemma StringSound(plain: bool, s: string, more: seq<Slot>)
    ensures AllSound(plain, StringThen(s, more)) <==> (plain ==> Plain(s)) && AllSound(plain, more)
  {
    hide AllSound;
    SlotSound(plain, Exact(StringToken(s)), more);
  }

  lemma FieldSound(plain: bool, key: string, more: seq<Slot>)
    requires Plain(key)
    ensures AllSound(plain, KeyThen(key, more)) <==> AllSound(plain, more)
    ensures AllSound(plain, FieldThen(key, more)) <==> AllSound(plain, more)
  {
    hide AllSound;
    SlotSound(plain, Exact(Colon), more);
    SlotSound(plain, Key(key), [Exact(Colon)] + more);
    SlotSound(plain, Exact(Comma), KeyThen(key, more));
  }

  lemma PlainKeys()
    ensures forall s | s in {"start", "end", "filename", "location", "kind", "value", "text", "lhs", "op", "rhs",
      "first",
      "second", "name", "next", "condition", "then", "otherwise", "callee", "arguments", "parameters",
      "expression"} :: Plain(s)
  {
  }

  lemma ClosingSound(plain: bool, l: Location, more: seq<Slot>)
    ensures AllSound(plain, ClosingThen(l, more)) <==> (plain ==> Plain(l.filename)) && AllSound(plain, more)
  {
    PlainKeys();
    hide AllSound, KeyThen, FieldThen, StringThen, Plain;
    SlotSound(plain, Exact(RBrace), more);
    var m1 := [Exact(RBrace)] + more;
    SlotSound(plain, Exact(RBrace), m1);
    StringSound(plain, l.filename, [Exact(RBrace)] + m1);
    var m2 := StringThen(l.filename, [Exact(RBrace)] + m1);
    FieldSound(plain, "filename", m2);
    NumberSound(plain, l.end);
    SlotSound(plain, Number(l.end), FieldThen("filename", m2));
    var m3 := [Number(l.end)] + FieldThen("filename", m2);
    FieldSound(plain, "end", m3);
    NumberSound(plain, l.start);
    SlotSound(plain, Number(l.start), FieldThen("end", m3));
    FieldSound(plain, "start", [Number(l.start)] + FieldThen("end", m3));
    SlotSound(plain, Exact(LBrace), KeyThen("start", [Number(l.start)] + FieldThen("end", m3)));
    FieldSound(plain, "location", LocationThen(l, m1));
  }

  lemma ParameterSound(plain: bool, p: Parameter, more: seq<Slot>)
    ensures AllSound(plain, ParameterThen(p, more)) <==> (plain ==> PlainParameter(p)) && AllSound(plain, more)
  {
    PlainKeys();
    hide AllSound, KeyThen, ClosingThen, StringThen, Plain;
    ClosingSound(plain, p.loc, more);
    StringSound(plain, p.text, ClosingThen(p.loc, more));
    FieldSound(plain, "text", StringThen(p.text, ClosingThen(p.loc, more)));
    SlotSound(plain, Exact(LBrace), KeyThen("text", StringThen(p.text, ClosingThen(p.loc, more))));
  }

  lemma {:induction false} ParametersSound(plain: bool, ps: seq<Parameter>, more: seq<Slot>)
    ensures AllSound(plain, MoreParametersThen(ps, more)) <==>
      (plain ==> PlainParameters(ps)) && AllSound(plain, more)
    ensures AllSound(plain, ParametersThen(ps, more)) <==> (plain ==> PlainParameters(ps)) && AllSound(plain, more)
    decreases ps
  {
    hide AllSound, ParameterThen, PlainParameter;
    if ps == [] {
      SlotSound(plain, Exact(RBracket), more);
    } else {
      assert ps[0] in ps && forall p | p in ps :: p == ps[0] || p in ps[1..];
      assert forall p | p in ps[1..] :: p in ps;
      ParametersSound(plain, ps[1..], more);
      ParameterSound(plain, ps[0], MoreParametersThen(ps[1..], more));
      SlotSound(plain, Exact(Comma), ParameterThen(ps[0], MoreParametersThen(ps[1..], more)));
    }
  }

  lemma NameSound(plain: bool, k: Kind, op: BinOp)
    ensures Sound(plain, KindSlot(k)) && Sound(plain, OperatorSlot(op))
  {
    assert Plain(KindName(k));
    assert Plain(OperatorName(op));
    hide KindName, OperatorName;
  }

  lemma {:induction false} TermSound(plain: bool, t: Term, more: seq<Slot>)
    ensures AllSound(plain, TermThen(t, more)) <==> (plain ==> PlainTerm(t)) && AllSound(plain, more)
    decreases t, 1
  {
    hide AllSound, KeyThen, BodyThen, Plain, Sound;
    PlainKeys();
    BodySound(plain, t, more);
    NameSound(plain, KindTag(t), Add);
    var m1 := [KindSlot(KindTag(t))] + BodyThen(t, more);
    SlotSound(plain, KindSlot(KindTag(t)), BodyThen(t, more));
    FieldSound(plain, "kind", m1);
    assert Sound(plain, Exact(LBrace)) by { BraceSound(plain); }
    SlotSound(plain, Exact(LBrace), KeyThen("kind", m1));
  }

  lemma BraceSound(plain: bool)
    ensures Sound(plain, Exact(LBrace)) && Sound(plain, Exact(LBracket)) && Sound(plain, Exact(TrueKw)) &&
      Sound(plain, Exact(FalseKw))
  {
  }

  /** A field that holds a term. */
  lemma {:induction false} FieldTermSound(plain: bool, key: string, t: Term, more: seq<Slot>)
    requires Plain(key)
    ensures AllSound(plain, FieldThen(key, TermThen(t, more))) <==>
      (plain ==> PlainTerm(t)) && AllSound(plain, more)
    decreases t, 2
  {
    hide AllSound, FieldThen, TermThen, Plain;
    TermSound(plain, t, more);
    FieldSound(plain, key, TermThen(t, more));
  }

  lemma {:induction false} BodySound(plain: bool, t: Term, more: seq<Slot>)
    ensures AllSound(plain, BodyThen(t, more)) <==> (plain ==> PlainTerm(t)) && AllSound(plain, more)
    decreases t, 0
  {
    hide AllSound, FieldThen, StringThen, ClosingThen, TermThen, TermsThen, ParametersThen, ParameterThen, Plain,
      PlainParameter, PlainParameters, Sound;
    PlainKeys();
    BraceSound(plain);
    ClosingSound(plain, t.loc, more);
    var end := ClosingThen(t.loc, more);
    match t
    case Int(n, _) =>
      NumberSound(plain, n);
      SlotSound(plain, Number(n), end);
      FieldSound(plain, "value", [Number(n)] + end);
    case Str(s, _) =>
      StringSound(plain, s, end);
      FieldSound(plain, "value", StringThen(s, end));
    case Bool(b, _) =>
      SlotSound(plain, Exact(if b then TrueKw else FalseKw), end);
      FieldSound(plain, "value", [Exact(if b then TrueKw else FalseKw)] + end);
    case Var(x, _) =>
      StringSound(plain, x, end);
      FieldSound(plain, "text", StringThen(x, end));
    case Unary(_, e, _) => FieldTermSound(plain, "value", e, end);
    case Binary(a, op, b, _) =>
      FieldTermSound(plain, "rhs", b, end);
      var m1 := FieldThen("rhs", TermThen(b, end));
      NameSound(plain, KInt, op);
      SlotSound(plain, OperatorSlot(op), m1);
      FieldSound(plain, "op", [OperatorSlot(op)] + m1);
      FieldTermSound(plain, "lhs", a, FieldThen("op", [OperatorSlot(op)] + m1));
    case Pair(a, b, _) =>
      FieldTermSound(plain, "second", b, end);
      FieldTermSound(plain, "first", a, FieldThen("second", TermThen(b, end)));
    case Let(x, v, n, _) =>
      FieldTermSound(plain, "next", n, end);
      var m1 := FieldThen("next", TermThen(n, end));
      FieldTermSound(plain, "value", v, m1);
      ParameterSound(plain, x, FieldThen("value", TermThen(v, m1)));
      FieldSound(plain, "name", ParameterThen(x, FieldThen("value", TermThen(v, m1))));
    case If(c, a, b, _) =>
      FieldTermSound(plain, "otherwise", b, end);
      var m1 := FieldThen("otherwise", TermThen(b, end));
      FieldTermSound(plain, "then", a, m1);
      FieldTermSound(plain, "condition", c, FieldThen("then", TermThen(a, m1)));
    case Call(f, args, _) =>
      TermsSound(plain, args, end);
      var m1 := [Exact(LBracket)] + TermsThen(args, end);
      SlotSound(plain, Exact(LBracket), TermsThen(args, end));
      FieldSound(plain, "arguments", m1);
      FieldTermSound(plain, "callee", f, FieldThen("arguments", m1));
    case Function(ps, b, _) =>
      FieldTermSound(plain, "value", b, end);
      var m1 := FieldThen("value", TermThen(b, end));
      ParametersSound(plain, ps, m1);
      SlotSound(plain, Exact(LBracket), ParametersThen(ps, m1));
      FieldSound(plain, "parameters", [Exact(LBracket)] + ParametersThen(ps, m1));
  }

  lemma {:induction false} TermsSound(plain: bool, args: seq<Term>, more: seq<Slot>)
    ensures AllSound(plain, MoreTermsThen(args, more)) <==> (plain ==> PlainTerms(args)) && AllSound(plain, more)
    ensures AllSound(plain, TermsThen(args, more)) <==> (plain ==> PlainTerms(args)) && AllSound(plain, more)
    decreases args
  {
    hide AllSound, TermThen, PlainTerm;
    if args == [] {
      SlotSound(plain, Exact(RBracket), more);
    } else {
      TermsSound(plain, args[1..], more);
      TermSound(plain, args[0], MoreTermsThen(args[1..], more));
      SlotSound(plain, Exact(Comma), TermThen(args[0], MoreTermsThen(args[1..], more)));
    }
  }

  lemma FileSound(plain: bool, f: File)
    ensures AllSound(plain, FileThen(f, [])) <==> (plain ==> PlainFile(f))
  {
    hide AllSound, KeyThen, FieldThen, StringThen, TermThen, ClosingThen, Plain;
    PlainKeys();
    assert AllSound(plain, []) by { NothingSound(plain); }
    ClosingSound(plain, f.loc, []);
    var end := ClosingThen(f.loc, []);
    FieldTermSound(plain, "expression", f.expression, end);
    var m1 := FieldThen("expression", TermThen(f.expression, end));
    StringSound(plain, f.name, m1);
    FieldSound(plain, "name", StringThen(f.name, m1));
    SlotSound(plain, Exact(LBrace), KeyThen("name", StringThen(f.name, m1)));
  }

  lemma NothingSound(plain: bool)
    ensures AllSound(plain, [])
  {
  }

  // ----- reading what was printed -----

  /** The tokens that the grammar prints for a file. */
  function FileTokensOf(f: File): seq<Token> {
    Printed(FileThen(f, []))
  }

  /** Every term is read back from its tokens. */
  lemma TermBack(t: Term, rest: seq<Token>)
    requires Good(rest)
    ensures ParseTerm(Printed(TermThen(t, [])) + rest) == Ok((t, rest))
  {
    hide TermThen, ParseTerm;
    TermSound(false, t, []);
    PrintedReads(TermThen(t, []), rest);
    TermReads(Printed(TermThen(t, [])) + rest, t, [], rest);
  }

  /** Every file is read back from its tokens. */
  lemma FileBack(f: File, rest: seq<Token>)
    requires Good(rest)
    ensures ParseFile(FileTokensOf(f) + rest) == Ok((f, rest))
  {
    hide FileThen, ParseFile, Printed, AllSound;
    FileSound(false, f);
    PrintedReads(FileThen(f, []), rest);
    FileReads(FileTokensOf(f) + rest, f, rest);
  }

  /** A key is accepted exactly when it is a prefix of the expected one; the empty string always is. */
  lemma KeysByPrefix(key: string, expected: string, rest: seq<Token>)
    requires Good(rest)
    ensures KeyColon([StringToken(key), Colon] + rest, expected) ==
      if key <= expected then Ok(rest) else Err(SyntaxError)
  {
    var ts := [StringToken(key), Colon] + rest;
    assert ts[1..] == [Colon] + rest && ts[1..][1..] == rest;
  }
}
