/** Any layout of a token sequence scans back to it. */
module Layouts {
  import opened Values
  import opened Syntax
  import opened Codegen
  import opened Tokens
  import opened Parser
  import opened Grammar
  import opened RoundTrip

  /** The spelling of a token. */
  function Spelling(t: Token): string {
    match t
    case Comma => ","
    case Colon => ":"
    case LBracket => "["
    case RBracket => "]"
    case LBrace => "{"
    case RBrace => "}"
    case IntToken(digits) => digits
    case StringToken(text) => "\"" + text + "\""
    case FalseKw => "false"
    case TrueKw => "true"
    case EOF => ""
    case Bad => ""
  }

  predicate IsWord(t: Token) {
    t.IntToken? || t.FalseKw? || t.TrueKw?
  }

  /** Space, tab, newline, vertical tab, form feed, carriage return. */
  predicate AllSpaces(w: string) {
    forall c | c in w :: c in {' ', '\t', '\n', '\U{0B}', '\U{0C}', '\r'}
  }

  /** Something between tokens that are both words. */
  predicate Apart(ts: seq<Token>, ws: seq<string>)
    requires |ws| == |ts| + 1
  {
    forall i :: 0 <= i < |ts| - 1 && IsWord(ts[i]) && IsWord(ts[i + 1]) ==> ws[i + 1] != ""
  }

  /** White space before each token and at the end; two words may not touch. */
  predicate LayoutOk(ts: seq<Token>, ws: seq<string>) {
    |ws| == |ts| + 1 && (forall w | w in ws :: AllSpaces(w)) && Apart(ts, ws)
  }

  function Render(ts: seq<Token>, ws: seq<string>): string
    requires |ws| == |ts| + 1
  {
    if ts == [] then ws[0] else ws[0] + (Spelling(ts[0]) + Render(ts[1..], ws[1..]))
  }

  // ----- one token -----

  /** The text from pos on is r. */
  predicate TextFrom(s: string, pos: nat, r: string) {
    pos <= |s| && s[pos..] == r
  }

  lemma TextAt(s: string, pos: nat, r: string, i: nat)
    requires TextFrom(s, pos, r)
    ensures CharAt(s, pos + i) == CharAt(r, i)
  {
    if i < |r| {
      assert s[pos..][i] == s[pos + i];
    }
  }

  lemma TextAfter(s: string, pos: nat, a: string, b: string)
    requires TextFrom(s, pos, a + b)
    ensures TextFrom(s, pos + |a|, b)
  {
    assert s[pos + |a|..] == s[pos..][|a|..];
  }

  /** The characters that the scanner skips. */
  lemma SpaceExactly(c: char)
    ensures IsSpace(c) <==> c in {' ', '\t', '\n', '\U{0B}', '\U{0C}', '\r'}
  {
  }

  lemma {:induction false} SpacesSkipped(s: string, pos: nat, w: string, r: string)
    requires TextFrom(s, pos, w + r) && AllSpaces(w) && !IsSpace(CharAt(r, 0))
    ensures Tokens.SkipSpaces(s, pos) == pos + |w|
    decreases |w|
  {
    TextAt(s, pos, w + r, 0);
    if w != [] {
      assert w[0] in w && forall c | c in w[1..] :: c in w;
      SpaceExactly(w[0]);
      assert w + r == [w[0]] + (w[1..] + r);
      TextAfter(s, pos, [w[0]], w[1..] + r);
      SpacesSkipped(s, pos + 1, w[1..], r);
    } else {
      assert w + r == r;
    }
  }

  /** Exactly the white space w in front of r is skipped if it is made of those six characters and none of
      them follows. */
  lemma SpacesExactly(w: string, r: string)
    ensures Tokens.SkipSpaces(w + r, 0) == |w| <==>
      && (forall c | c in w :: c in {' ', '\t', '\n', '\U{0B}', '\U{0C}', '\r'})
      && (r == "" || r[0] !in {' ', '\t', '\n', '\U{0B}', '\U{0C}', '\r'})
  {
    var s := w + r;
    assert s[0..] == s;
    if r != "" {
      SpaceExactly(r[0]);
      assert s[|w|] == r[0];
    }
    if Tokens.SkipSpaces(s, 0) == |w| {
      forall c | c in w ensures c in {' ', '\t', '\n', '\U{0B}', '\U{0C}', '\r'} {
        var i :| 0 <= i < |w| && w[i] == c;
        assert s[i] == c;
        SpaceExactly(c);
      }
    }
    if (forall c | c in w :: c in {' ', '\t', '\n', '\U{0B}', '\U{0C}', '\r'}) && (r == "" || !IsSpace(r[0])) {
      SpacesSkipped(s, 0, w, r);
    }
  }

  lemma {:induction false} DigitsScanned(s: string, pos: nat, d: string, r: string)
    requires TextFrom(s, pos, d + r) && (forall c | c in d :: IsDigit(c)) && !IsDigit(CharAt(r, 0))
    ensures DigitsEnd(s, pos) == pos + |d|
    decreases |d|
  {
    TextAt(s, pos, d + r, 0);
    if d != [] {
      assert d[0] in d;
      assert d + r == [d[0]] + (d[1..] + r);
      TextAfter(s, pos, [d[0]], d[1..] + r);
      DigitsScanned(s, pos + 1, d[1..], r);
    } else {
      assert d + r == r;
    }
  }

  lemma {:induction false} StringScanned(s: string, pos: nat, text: string, r: string)
    requires TextFrom(s, pos, text + ("\"" + r)) && forall c | c in text :: c != '"' && c != '\0'
    ensures StringEnd(s, pos) == pos + |text| && CharAt(s, pos + |text|) == '"'
    decreases |text|
  {
    var all := text + ("\"" + r);
    TextAt(s, pos, all, 0);
    if text != [] {
      assert text[0] in text;
      forall c | c in text[1..] ensures c != '"' && c != '\0' {
        assert c in text;
      }
      assert all == [text[0]] + (text[1..] + ("\"" + r));
      TextAfter(s, pos, [text[0]], text[1..] + ("\"" + r));
      StringScanned(s, pos + 1, text[1..], r);
    } else {
      assert all == "\"" + r;
    }
  }

  lemma IntScanned(s: string, pos: nat, digits: string, r: string)
    requires TextFrom(s, pos, digits + r) && Spellable(IntToken(digits)) && !IsWordChar(CharAt(r, 0))
    ensures TokenAt(s, pos) == (IntToken(digits), pos + |digits|)
  {
    assert digits[0] in digits;
    TextAt(s, pos, digits + r, 0);
    DigitsScanned(s, pos, digits, r);
    TextAt(s, pos, digits + r, |digits|);
    assert (digits + r)[|digits|..] == r;
    assert CharAt(digits + r, |digits|) == CharAt(r, 0);
    assert s[pos..pos + |digits|] == s[pos..][..|digits|] == digits;
    hide DigitsEnd, TextFrom;
  }

  /** A quote, and another one behind it. */
  lemma QuotedToken(s: string, pos: nat)
    requires pos < |s| && s[pos] == '"' && CharAt(s, StringEnd(s, pos + 1)) == '"'
    ensures var end := StringEnd(s, pos + 1);
      pos < end < |s| && TokenAt(s, pos) == (StringToken(s[pos + 1..end]), end + 1)
  {
    hide DigitsEnd, KeywordAt, IsWordChar;
  }

  lemma QuotedSpelling(text: string, r: string)
    ensures Spelling(StringToken(text)) + r == "\"" + (text + ("\"" + r))
  {
  }

  lemma TextHead(s: string, pos: nat, a: string, b: string)
    requires TextFrom(s, pos, a + b)
    ensures pos + |a| <= |s| && s[pos..pos + |a|] == a && (a != [] ==> s[pos] == a[0])
  {
    assert s[pos..pos + |a|] == s[pos..][..|a|] == a;
    assert a != [] ==> s[pos] == s[pos..][0] == (a + b)[0];
  }

  lemma QuotedScanned(s: string, pos: nat, text: string, r: string)
    requires TextFrom(s, pos, Spelling(StringToken(text)) + r) && Spellable(StringToken(text))
    ensures TokenAt(s, pos) == (StringToken(text), pos + |text| + 2)
  {
    hide TokenAt, StringEnd, TextFrom, CharAt;
    QuotedSpelling(text, r);
    TextHead(s, pos, "\"", text + ("\"" + r));
    TextAfter(s, pos, "\"", text + ("\"" + r));
    TextHead(s, pos + 1, text, "\"" + r);
    StringScanned(s, pos + 1, text, r);
    QuotedToken(s, pos);
  }

  /** A quoted text is scanned as itself exactly when it holds no quote and no NUL: there are no
      escapes. */
  lemma QuotedExactly(text: string, r: string)
    ensures TokenAt(Spelling(StringToken(text)) + r, 0) == (StringToken(text), |text| + 2) <==>
      Spellable(StringToken(text))
  {
    var s := Spelling(StringToken(text)) + r;
    assert s[0..] == s;
    if Spellable(StringToken(text)) {
      QuotedScanned(s, 0, text, r);
    } else {
      var i :| 0 <= i < |text| && (text[i] == '"' || text[i] == '\0');
      assert s[1 + i] == text[i];
      assert StringEnd(s, 1) <= 1 + i;
    }
  }

  /** A spelled token is scanned as itself, unless a word runs into a word. */
  lemma TokenScanned(s: string, pos: nat, t: Token, r: string)
    requires TextFrom(s, pos, Spelling(t) + r) && Spellable(t)
    requires IsWord(t) ==> !IsWordChar(CharAt(r, 0))
    ensures TokenAt(s, pos) == (t, pos + |Spelling(t)|)
  {
    hide TokenAt, TextFrom, IsWordChar;
    match t
    case IntToken(digits) => IntScanned(s, pos, digits, r);
    case StringToken(text) => QuotedScanned(s, pos, text, r);
    case FalseKw => KeywordScanned(s, pos, "false", r);
    case TrueKw => KeywordScanned(s, pos, "true", r);
    case Comma => PunctuationScanned(s, pos, t, r);
    case Colon => PunctuationScanned(s, pos, t, r);
    case LBracket => PunctuationScanned(s, pos, t, r);
    case RBracket => PunctuationScanned(s, pos, t, r);
    case LBrace => PunctuationScanned(s, pos, t, r);
    case RBrace => PunctuationScanned(s, pos, t, r);
  }

  lemma PunctuationScanned(s: string, pos: nat, t: Token, r: string)
    requires t in {Comma, Colon, LBracket, RBracket, LBrace, RBrace} && TextFrom(s, pos, Spelling(t) + r)
    ensures TokenAt(s, pos) == (t, pos + 1)
  {
    hide DigitsEnd, StringEnd, KeywordAt;
    TextAt(s, pos, Spelling(t) + r, 0);
  }

  lemma KeywordScanned(s: string, pos: nat, kw: string, r: string)
    requires TextFrom(s, pos, kw + r) && !IsWordChar(CharAt(r, 0))
    requires kw == "false" || kw == "true"
    ensures TokenAt(s, pos) == (if kw == "false" then FalseKw else TrueKw, pos + |kw|)
  {
    hide DigitsEnd, StringEnd;
    TextAfter(s, pos, kw, r);
    TextAt(s, pos + |kw|, r, 0);
    TextAt(s, pos, kw + r, 0);
    assert s[pos..pos + |kw|] == s[pos..][..|kw|] == kw;
    if kw == "true" {
      assert !KeywordAt(s, pos, "false") by {
        if pos + 5 <= |s| {
          assert s[pos..pos + 5][0] == 't';
        }
      }
    }
  }

  /** An integer or a keyword, with r behind it, is scanned as itself exactly when r does not go on with a
      digit, a letter or an underscore. */
  lemma WordExactly(t: Token, r: string)
    requires IsWord(t)
    ensures TokenAt(Spelling(t) + r, 0) == (t, |Spelling(t)|) <==>
      && (t.IntToken? ==> t.digits != "" && forall c | c in t.digits :: '0' <= c <= '9')
      && (r == "" || !('0' <= r[0] <= '9' || 'a' <= r[0] <= 'z' || 'A' <= r[0] <= 'Z' || r[0] == '_'))
  {
    var w := Spelling(t);
    var s := w + r;
    assert s[0..] == s && CharAt(s, |w|) == CharAt(r, 0);
    if TokenAt(s, 0) == (t, |w|) {
      TokenSpelled(s, 0);
    }
    if Spellable(t) && !IsWordChar(CharAt(r, 0)) {
      hide TokenAt, IsWordChar;
      TokenScanned(s, 0, t, r);
    }
  }

  // ----- a whole text -----

  /** What the rest of a layout starts with after its first white space. */
  lemma RenderStarts(ts: seq<Token>, ws: seq<string>)
    requires LayoutOk(ts, ws) && forall t | t in ts :: Spellable(t)
    ensures var r := if ts == [] then "" else Spelling(ts[0]) + Render(ts[1..], ws[1..]);
      Render(ts, ws) == ws[0] + r && !IsSpace(CharAt(r, 0)) &&
      (ts == [] ==> r == "") && (ts != [] && !IsWord(ts[0]) ==> !IsWordChar(CharAt(r, 0)))
  {
    assert ws[0] in ws;
    if ts == [] {
      assert ws[0] + "" == ws[0];
    } else {
      assert ts[0] in ts;
      match ts[0]
      case IntToken(digits) => assert digits[0] in digits;
      case _ =>
    }
  }

  lemma NotWordChar(w: string, r: string)
    requires AllSpaces(w) && (w == "" ==> !IsWordChar(CharAt(r, 0)))
    ensures !IsWordChar(CharAt(w + r, 0))
  {
    if w != "" {
      assert w[0] in w;
    }
  }

  lemma LayoutTail(ts: seq<Token>, ws: seq<string>)
    requires ts != [] && LayoutOk(ts, ws)
    ensures LayoutOk(ts[1..], ws[1..])
  {
    forall i | 0 <= i < |ts[1..]| - 1 && IsWord(ts[1..][i]) && IsWord(ts[1..][i + 1])
      ensures ws[1..][i + 1] != ""
    {
      assert IsWord(ts[i + 1]) && IsWord(ts[i + 1 + 1]);
    }
  }

  lemma NextScanned(s: string, pos: nat, ts: seq<Token>, ws: seq<string>)
    requires LayoutOk(ts, ws) && (forall t | t in ts :: Spellable(t)) && TextFrom(s, pos, Render(ts, ws))
    ensures if ts == [] then Tokens.NextToken(s, pos).0 == EOF
      else
        var p := pos + |ws[0]| + |Spelling(ts[0])|;
        Tokens.NextToken(s, pos) == (ts[0], p) && TextFrom(s, p, Render(ts[1..], ws[1..]))
  {
    hide TokenAt, DigitsEnd, StringEnd, IsSpace, IsWordChar, Render, TextFrom, AllSpaces, CharAt, Spellable,
      Tokens.SkipSpaces, Spelling;
    RenderStarts(ts, ws);
    assert ws[0] in ws;
    var r := if ts == [] then "" else Spelling(ts[0]) + Render(ts[1..], ws[1..]);
    SpacesSkipped(s, pos, ws[0], r);
    TextAfter(s, pos, ws[0], r);
    var p := pos + |ws[0]|;
    if ts == [] {
      EndScanned(s, p);
    } else {
      var t, rest := ts[0], Render(ts[1..], ws[1..]);
      assert t in ts;
      if IsWord(t) {
        AfterWord(ts, ws);
      }
      TokenScanned(s, p, t, rest);
      TextAfter(s, p, Spelling(t), rest);
    }
  }

  lemma EndScanned(s: string, p: nat)
    requires TextFrom(s, p, "")
    ensures TokenAt(s, p).0 == EOF
  {
    TextAt(s, p, "", 0);
  }

  /** No word character follows a word. */
  lemma AfterWord(ts: seq<Token>, ws: seq<string>)
    requires ts != [] && IsWord(ts[0]) && LayoutOk(ts, ws) && forall t | t in ts :: Spellable(t)
    ensures !IsWordChar(CharAt(Render(ts[1..], ws[1..]), 0))
  {
    LayoutTail(ts, ws);
    RenderStarts(ts[1..], ws[1..]);
    assert ws[1] in ws;
    var r := if |ts| == 1 then "" else Spelling(ts[1]) + Render(ts[1..][1..], ws[1..][1..]);
    NotWordChar(ws[1], r);
  }

  /** Every layout of the tokens scans back to them, followed by the end of the text. */
  lemma {:induction false} Scanned(s: string, pos: nat, ts: seq<Token>, ws: seq<string>)
    requires LayoutOk(ts, ws) && (forall t | t in ts :: Spellable(t)) && TextFrom(s, pos, Render(ts, ws))
    ensures TokensFrom(s, pos) == ts + [EOF]
    decreases |ts|
  {
    hide Render, TextFrom, Tokens.NextToken, Spelling;
    NextScanned(s, pos, ts, ws);
    if ts == [] {
      assert ts + [EOF] == [EOF];
    } else {
      assert ts[0] in ts && ts == [ts[0]] + ts[1..];
      LayoutTail(ts, ws);
      Scanned(s, pos + |ws[0]| + |Spelling(ts[0])|, ts[1..], ws[1..]);
      assert ts + [EOF] == [ts[0]] + (ts[1..] + [EOF]);
    }
  }

  // ----- the layout of a text -----

  /** A text goes up to its first NUL. */
  predicate NoNul(s: string) {
    forall i :: 0 <= i < |s| ==> s[i] != '\0'
  }

  lemma QuotedSpelled(s: string, pos: nat)
    requires pos <= |s| && CharAt(s, pos) == '"' && TokenAt(s, pos).0 != Token.Bad
    ensures var (t, q) := TokenAt(s, pos);
      t.StringToken? && pos < q <= |s| && s[pos..q] == Spelling(t) && Spellable(t)
  {
    var (t, q) := TokenAt(s, pos);
    assert s[pos..q] == [s[pos]] + s[pos + 1..q - 1] + [s[q - 1]];
  }

  lemma KeywordStarts(s: string, pos: nat, kw: string)
    requires pos <= |s| && kw != []
    ensures KeywordAt(s, pos, kw) ==>
      && pos + |kw| <= |s| && s[pos..pos + |kw|] == kw && s[pos] == kw[0]
      && !IsWordChar(CharAt(s, pos + |kw|))
  {
    if KeywordAt(s, pos, kw) {
      assert s[pos] == s[pos..pos + |kw|][0];
    }
  }

  /** The text of a token. */
  lemma TokenSpelled(s: string, pos: nat)
    requires pos <= |s| && TokenAt(s, pos).0 !in {EOF, Token.Bad}
    ensures var (t, q) := TokenAt(s, pos);
      && pos < q <= |s| && s[pos..q] == Spelling(t) && Spellable(t)
      && (IsWord(t) ==> IsWordChar(s[pos]) && !IsWordChar(CharAt(s, q)))
  {
    if CharAt(s, pos) == '"' {
      QuotedSpelled(s, pos);
    } else {
      KeywordStarts(s, pos, "false");
      KeywordStarts(s, pos, "true");
    }
    hide StringEnd, KeywordAt;
  }

  /** A text whose tokens are ts is a layout of ts. */
  lemma {:induction false} Laid(s: string, pos: nat, ts: seq<Token>) returns (ws: seq<string>)
    requires pos <= |s| && NoNul(s) && TokensFrom(s, pos) == ts + [EOF]
    ensures LayoutOk(ts, ws) && (forall t | t in ts :: Spellable(t)) && s[pos..] == Render(ts, ws)
    ensures ts != [] && IsWord(ts[0]) && ws[0] == "" ==> IsWordChar(CharAt(s, pos))
    decreases |s| - pos
  {
    hide TokenAt, DigitsEnd, StringEnd, IsSpace, IsWordChar, Spellable, Spelling;
    var p := Tokens.SkipSpaces(s, pos);
    var (t, q) := TokenAt(s, p);
    var w := s[pos..p];
    forall c | c in w ensures c in {' ', '\t', '\n', '\U{0B}', '\U{0C}', '\r'} {
      SpaceExactly(c);
    }
    if ts == [] {
      assert t == EOF && p == |s|;
      return [w];
    }
    assert t == (ts + [EOF])[0] == ts[0];
    assert TokensFrom(s, q) == ts[1..] + [EOF] by {
      assert (ts + [EOF])[1..] == ts[1..] + [EOF];
    }
    TokenSpelled(s, p);
    var more := Laid(s, q, ts[1..]);
    ws := [w] + more;
    assert ws[1..] == more;
    assert s[pos..] == w + (s[p..q] + s[q..]);
    LaidFirst(ts, w, more, s, q);
  }

  lemma LaidFirst(ts: seq<Token>, w: string, more: seq<string>, s: string, q: nat)
    requires ts != [] && AllSpaces(w) && LayoutOk(ts[1..], more)
    requires |ts| > 1 && IsWord(ts[1]) && more[0] == "" ==> IsWordChar(CharAt(s, q))
    requires IsWord(ts[0]) ==> !IsWordChar(CharAt(s, q))
    ensures LayoutOk(ts, [w] + more)
  {
    var ws := [w] + more;
    forall i | 0 <= i < |ts| - 1 && IsWord(ts[i]) && IsWord(ts[i + 1])
      ensures ws[i + 1] != ""
    {
      if i > 0 {
        assert IsWord(ts[1..][i - 1]) && IsWord(ts[1..][i - 1 + 1]);
      }
    }
  }

  // ----- files -----

  /** Tokens that fit the slots of f, written with any white space between them. */
  ghost predicate Writes(s: string, f: File) {
    exists ts, ws :: LayoutOf(s, ts, ws) && Reads(ts + [EOF], FileThen(f, []), [EOF])
  }

  ghost predicate LayoutOf(s: string, ts: seq<Token>, ws: seq<string>) {
    LayoutOk(ts, ws) && (forall t | t in ts :: Spellable(t)) && s == Render(ts, ws)
  }

  /** What that means, character by character. */
  lemma WritesMeans(s: string, f: File)
    ensures Writes(s, f) <==> exists ts: seq<Token>, ws: seq<string> ::
      && |ws| == |ts| + 1 && Apart(ts, ws) && (forall t | t in ts :: Spellable(t)) && s == Render(ts, ws)
      && (forall w | w in ws :: forall c | c in w :: c in {' ', '\t', '\n', '\U{0B}', '\U{0C}', '\r'})
      && Reads(ts + [EOF], FileThen(f, []), [EOF])
  {
    hide Render, Spellable, Apart, Reads, FileThen;
    if Writes(s, f) {
      var ts, ws :| LayoutOf(s, ts, ws) && Reads(ts + [EOF], FileThen(f, []), [EOF]);
      assert |ws| == |ts| + 1;
    }
    if ts: seq<Token>, ws: seq<string> :|
      && |ws| == |ts| + 1 && Apart(ts, ws) && (forall t | t in ts :: Spellable(t)) && s == Render(ts, ws)
      && (forall w | w in ws :: forall c | c in w :: c in {' ', '\t', '\n', '\U{0B}', '\U{0C}', '\r'})
      && Reads(ts + [EOF], FileThen(f, []), [EOF])
    {
      assert LayoutOf(s, ts, ws);
    }
  }

  lemma {:induction false} ReadsEnd(ts: seq<Token>, slots: seq<Slot>, rest: seq<Token>)
    requires Reads(ts, slots, rest)
    ensures |slots| <= |ts| && ts == ts[..|slots|] + rest
    decreases slots
  {
    hide Fits;
    if slots != [] {
      ReadsEnd(ts[1..], slots[1..], rest);
      assert ts[1..][..|slots| - 1] == ts[1..|slots|];
    }
  }

  /** A text is read as the file f and nothing else exactly when it writes f: keys may be cut short,
      names of kinds and operators may go on, numbers may have zeros in front, and white space is free
      where words do not touch. Nothing else is accepted. */
  lemma TextExactly(s: string, f: File)
    requires NoNul(s)
    ensures ParseFile(TokensFrom(s, 0)) == Ok((f, [EOF])) <==> Writes(s, f)
    ensures ParseFile(TokensFrom(s, 0)) == Ok((f, [EOF])) <==> exists ts: seq<Token>, ws: seq<string> ::
      && |ws| == |ts| + 1 && Apart(ts, ws) && (forall t | t in ts :: Spellable(t)) && s == Render(ts, ws)
      && (forall w | w in ws :: forall c | c in w :: c in {' ', '\t', '\n', '\U{0B}', '\U{0C}', '\r'})
      && Reads(ts + [EOF], FileThen(f, []), [EOF])
  {
    WritesMeans(s, f);
    hide FileThen, LayoutOk, ParseFile, TokensFrom, Render, Reads;
    var slots := FileThen(f, []);
    assert s[0..] == s;
    if ParseFile(TokensFrom(s, 0)) == Ok((f, [EOF])) {
      FileReads(TokensFrom(s, 0), f, [EOF]);
      ReadsEnd(TokensFrom(s, 0), slots, [EOF]);
      var ts := TokensFrom(s, 0)[..|slots|];
      var ws := Laid(s, 0, ts);
      assert LayoutOf(s, ts, ws);
    }
    if Writes(s, f) {
      var ts, ws :| LayoutOf(s, ts, ws) && Reads(ts + [EOF], slots, [EOF]);
      Scanned(s, 0, ts, ws);
      FileReads(ts + [EOF], f, [EOF]);
    }
  }

  lemma LayoutBack(f: File, ws: seq<string>)
    requires PlainFile(f) && |ws| == |FileTokensOf(f)| + 1 && LayoutOk(FileTokensOf(f), ws)
    ensures ParseFile(TokensFrom(Render(FileTokensOf(f), ws), 0)) == Ok((f, [EOF]))
  {
    hide PlainFile, LayoutOk, ParseFile, TokensFrom, Render, FileThen, Spellable, Canonical;
    FileSound(true, f);
    forall t | t in FileTokensOf(f) ensures Spellable(t) {
      var i :| 0 <= i < |FileTokensOf(f)| && FileTokensOf(f)[i] == t;
      assert FileThen(f, [])[i] in FileThen(f, []);
    }
    var s := Render(FileTokensOf(f), ws);
    assert s[0..] == s;
    hide FileTokensOf;
    Scanned(s, 0, FileTokensOf(f), ws);
    FileBack(f, [EOF]);
  }

  /** Printing any AST, with any white space between its tokens, and reading the text gives back that
      AST, and the end of the text is the token that remains. */
  lemma TextRoundTrip(f: File, ws: seq<string>)
    requires PlainFile(f) && |ws| == |FileTokensOf(f)| + 1 && Apart(FileTokensOf(f), ws)
    requires forall w | w in ws :: forall c | c in w :: c in {' ', '\t', '\n', '\U{0B}', '\U{0C}', '\r'}
    ensures ParseFile(TokensFrom(Render(FileTokensOf(f), ws), 0)) == Ok((f, [EOF]))
  {
    hide PlainFile, ParseFile, TokensFrom, Render, FileTokensOf, Apart;
    LayoutBack(f, ws);
  }

  // ----- files that no text stands for -----

  /** All tokens but the last, which ends the text, can be spelled. */
  predicate AllSpelled(ts: seq<Token>) {
    forall i :: 0 <= i < |ts| - 1 ==> Spellable(ts[i])
  }

  lemma {:induction false} TokensSpelled(s: string, pos: nat)
    requires pos <= |s|
    ensures AllSpelled(TokensFrom(s, pos))
    decreases |s| - pos
  {
    hide TokenAt, Spellable;
    var p := Tokens.SkipSpaces(s, pos);
    var (t, q) := TokenAt(s, p);
    if t != EOF && t != Token.Bad {
      TokenSpelled(s, p);
      TokensSpelled(s, q);
      var rest := TokensFrom(s, q);
      SpelledJoin(t, rest);
      assert TokensFrom(s, pos) == [t] + rest;
    }
  }

  lemma SpelledJoin(t: Token, rest: seq<Token>)
    requires Spellable(t) && AllSpelled(rest)
    ensures AllSpelled([t] + rest)
  {
    hide Spellable;
  }

  lemma SlotSpelled(t: Token, slot: Slot)
    requires Fits(t, slot) && Spellable(t) && Sound(false, slot)
    ensures Sound(true, slot)
  {
    hide NatToString, DigitsToNat, KindName, OperatorName;
    match slot
    case Number(n) => NumberSound(true, n);
    case KindSlot(k) => NameSound(true, k, Add);
    case OperatorSlot(op) => NameSound(true, KInt, op);
    case _ =>
  }

  lemma {:induction false} SlotsSpelled(ts: seq<Token>, slots: seq<Slot>, rest: seq<Token>)
    requires Reads(ts, slots, rest) && AllSound(false, slots)
    requires |rest| == 1 && AllSpelled(ts)
    ensures AllSound(true, slots)
    decreases slots
  {
    hide Fits, Sound, Spellable;
    ReadsEnd(ts, slots, rest);
    if slots != [] {
      assert slots == [slots[0]] + slots[1..];
      SlotSpelled(ts[0], slots[0]);
      SlotSound(false, slots[0], slots[1..]);
      SlotSound(true, slots[0], slots[1..]);
      forall i | 0 <= i < |ts[1..]| - 1 ensures Spellable(ts[1..][i]) {
        assert ts[1..][i] == ts[i + 1];
      }
      SlotsSpelled(ts[1..], slots[1..], rest);
    }
  }

  /** A file can be written in some text exactly when no string, name or file name in it holds a quote or
      a NUL: strings have no escapes. */
  lemma WritableExactly(f: File)
    ensures PlainFile(f) <==> exists s :: ParseFile(TokensFrom(s, 0)) == Ok((f, [EOF]))
  {
    hide PlainFile, ParseFile, TokensFrom, FileThen, AllSound, Spellable, Reads;
    if s :| ParseFile(TokensFrom(s, 0)) == Ok((f, [EOF])) {
      FileReads(TokensFrom(s, 0), f, [EOF]);
      TokensSpelled(s, 0);
      FileSound(false, f);
      SlotsSpelled(TokensFrom(s, 0), FileThen(f, []), [EOF]);
      FileSound(true, f);
    }
    if PlainFile(f) {
      var ts := FileTokensOf(f);
      var ws := seq(|ts| + 1, i => " ");
      hide FileTokensOf;
      TextRoundTrip(f, ws);
      assert ParseFile(TokensFrom(Render(ts, ws), 0)) == Ok((f, [EOF]));
    }
  }
}
