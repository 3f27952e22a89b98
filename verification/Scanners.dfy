/** The scanner of src/scanner.c, which moves through the source character by character. */
module Scanners {
  import opened Tokens

  class Scanner {
    const source: string
    var pos: nat
    var line: nat
    var col: nat
    var token: Token
    var tokenLine: nat
    var tokenCol: nat

    /** Line and column always describe the consumed prefix. Only the end of the text is past it. */
    ghost predicate Valid()
      reads this
    {
      && pos <= |source| + 1 && (token != EOF ==> pos <= |source|)
      && line == LineAt(source, pos) && col == ColumnAt(source, pos)
      && token != Bad
    }

    /** The position is in the text, and line and column are right. */
    ghost predicate Inside()
      reads this
    {
      pos <= |source| && line == LineAt(source, pos) && col == ColumnAt(source, pos)
    }

    /** The current token and those to come. */
    ghost function Toks(): (ts: seq<Token>)
      requires Valid()
      reads this
      ensures ts != [] && ts[0] == token
    {
      if token == EOF then [EOF] else [token] + TokensFrom(source, pos)
    }

    /** scanner_init, without the first token; a comma stands in for it. */
    constructor (source: string)
      ensures Valid() && this.source == source && pos == 0 && Toks() == [Comma] + TokensFrom(source, 0)
    {
      this.source := source;
      pos, line, col, token, tokenLine, tokenCol := 0, 1, 1, Comma, 1, 1;
    }

    method NextChar()
      requires Inside()
      modifies this`pos, this`line, this`col
      ensures pos == old(pos) + 1 && line == LineAt(source, pos) && col == ColumnAt(source, pos)
    {
      if CharAt(source, pos) == '\n' {
        line := line + 1;
        col := 1;
        pos := pos + 1;
        return;
      }
      col := col + 1;
      pos := pos + 1;
    }

    method NextChars(n: nat)
      requires Inside() && pos + n <= |source| + 1
      modifies this`pos, this`line, this`col
      ensures pos == old(pos) + n && line == LineAt(source, pos) && col == ColumnAt(source, pos)
    {
      for i := 0 to n
        invariant pos == old(pos) + i && line == LineAt(source, pos) && col == ColumnAt(source, pos)
      {
        NextChar();
      }
    }

    method SkipSpaces()
      requires Inside()
      modifies this`pos, this`line, this`col
      ensures Inside() && pos == Tokens.SkipSpaces(source, old(pos)) && old(pos) <= pos
      ensures forall i :: old(pos) <= i < pos ==> source[i] in {' ', '\t', '\n', '\U{0B}', '\U{0C}', '\r'}
      ensures pos == |source| || source[pos] !in {' ', '\t', '\n', '\U{0B}', '\U{0C}', '\r'}
    {
      while IsSpace(CharAt(source, pos))
        invariant Inside()
        invariant Tokens.SkipSpaces(source, pos) == Tokens.SkipSpaces(source, old(pos))
        decreases |source| - pos
      {
        NextChar();
      }
    }

    /** Takes a token that covers the next n characters. */
    method Accept(t: Token, n: nat)
      requires Inside() && t != Bad && pos + n <= if t == EOF then |source| + 1 else |source|
      modifies this
      ensures Valid() && token == t && pos == old(pos) + n && tokenLine == old(line) && tokenCol == old(col)
    {
      tokenLine, tokenCol, token := line, col, t;
      NextChars(n);
    }

    /** The current token starts where line and column were. */
    twostate predicate Starts()
      reads this
    {
      tokenLine == old(line) && tokenCol == old(col)
    }

    method MatchChar(c: char) returns (ok: bool)
      requires Inside() && Punctuation(c) != Bad
      modifies this
      ensures ok <==> CharAt(source, old(pos)) == c
      ensures if ok then Valid() && Starts() && token == Punctuation(c) && pos == old(pos) + 1 else unchanged(this)
    {
      if CharAt(source, pos) != c {
        return false;
      }
      Accept(Punctuation(c), 1);
      return true;
    }

    method MatchInt() returns (ok: bool)
      requires Inside()
      modifies this
      ensures var end := DigitsEnd(source, old(pos));
        && (ok <==> IsDigit(CharAt(source, old(pos))) && !IsWordChar(CharAt(source, end)))
        && if ok then Valid() && Starts() && token == IntToken(source[old(pos)..end]) && pos == end else unchanged(this)
    {
      if !IsDigit(CharAt(source, pos)) {
        return false;
      }
      var n := 1;
      while IsDigit(CharAt(source, pos + n))
        invariant pos + n <= |source| && DigitsEnd(source, pos + n) == DigitsEnd(source, pos)
        decreases |source| - n
      {
        n := n + 1;
      }
      if IsWordChar(CharAt(source, pos + n)) {
        return false;
      }
      Accept(IntToken(source[pos..pos + n]), n);
      return true;
    }

    /** `error` reports an unterminated string. */
    method MatchString() returns (ok: bool, error: bool)
      requires Inside()
      modifies this
      ensures var quote := CharAt(source, old(pos)) == '"';
        var end := if old(pos) < |source| then StringEnd(source, old(pos) + 1) else old(pos);
        && (ok <==> quote && CharAt(source, end) == '"') && (error <==> quote && CharAt(source, end) == '\0')
        && if ok then Valid() && Starts() && token == StringToken(source[old(pos) + 1..end]) && pos == end + 1
           else unchanged(this)
    {
      if CharAt(source, pos) != '"' {
        return false, false;
      }
      var n := 1;
      while true
        invariant 1 <= n && pos + n <= |source| && StringEnd(source, pos + n) == StringEnd(source, pos + 1)
        decreases |source| - n
      {
        if CharAt(source, pos + n) == '"' {
          n := n + 1;
          break;
        }
        if CharAt(source, pos + n) == '\0' {
          return false, true;
        }
        n := n + 1;
      }
      Accept(StringToken(source[pos + 1..pos + n - 1]), n);
      return true, false;
    }

    method MatchKeyword(kw: string, t: Token) returns (ok: bool)
      requires Inside() && t != Bad && t != EOF
      modifies this
      ensures ok <==> KeywordAt(source, old(pos), kw)
      ensures if ok then Valid() && Starts() && token == t && pos == old(pos) + |kw| else unchanged(this)
    {
      if !KeywordAt(source, pos, kw) {
        return false;
      }
      Accept(t, |kw|);
      return true;
    }

    /** The one-character tokens, in the order in which they are tried. */
    method MatchPunctuation() returns (ok: bool)
      requires Inside()
      modifies this
      ensures ok <==> Punctuation(CharAt(source, old(pos))) != Bad
      ensures if ok then Valid() && Starts() && token == Punctuation(CharAt(source, old(pos))) && pos == old(pos) + 1
        else unchanged(this)
    {
      ok := MatchChar('\0');
      if ok { return; }
      ok := MatchChar(',');
      if ok { return; }
      ok := MatchChar(':');
      if ok { return; }
      ok := MatchChar('[');
      if ok { return; }
      ok := MatchChar(']');
      if ok { return; }
      ok := MatchChar('{');
      if ok { return; }
      ok := MatchChar('}');
    }

    /** The token at the current position, which is not white space, or the error there. */
    method ScanToken() returns (ok: bool, error: ScanError)
      requires Inside()
      modifies this
      ensures ok <==> TokenAt(source, old(pos)).0 != Bad
      ensures !ok ==> error == ErrorAt(source, old(pos))
      ensures if ok then Valid() && Starts() && (token, pos) == TokenAt(source, old(pos)) else unchanged(this)
    {
      hide LineAt, ColumnAt;
      error := UnexpectedCharacter;
      ok := MatchPunctuation();
      if ok { return; }
      ok := MatchInt();
      if ok { return; }
      var unterminated: bool;
      ok, unterminated := MatchString();
      if unterminated {
        error := UnterminatedString;
      }
      if ok || unterminated { return; }
      ok := MatchKeyword("false", FalseKw);
      if ok { return; }
      ok := MatchKeyword("true", TrueKw);
    }

    /** scanner_next_token. It is never called after the end of the text. */
    method NextToken() returns (ok: bool, error: ScanError)
      requires Valid() && token != EOF
      modifies this
      ensures Valid()
      ensures !ok ==>
        error == ErrorAt(source, Tokens.SkipSpaces(source, old(pos))) && pos == Tokens.SkipSpaces(source, old(pos))
      ensures ok <==> old(Toks())[1] != Bad
      ensures ok ==> Toks() == old(Toks())[1..] && pos > old(pos)
      ensures ok ==> var start := Tokens.SkipSpaces(source, old(pos));
        tokenLine == LineAt(source, start) && tokenCol == ColumnAt(source, start)
    {
      hide LineAt, ColumnAt, TokenAt;
      SkipSpaces();
      ok, error := ScanToken();
    }
  }
}
