/** Tokens, and which token stands where in a source text (the specification of src/scanner.c). */
module Tokens {

  /** Bad stands for the two errors of the scanner: an unterminated string, an unexpected character. */
  datatype Token =
    | EOF | Comma | Colon | LBracket | RBracket | LBrace | RBrace
    | IntToken(digits: string)
    | StringToken(text: string)
    | FalseKw | TrueKw
    | Bad

  /** The errors of the scanner. */
  datatype ScanError = UnterminatedString | UnexpectedCharacter

  /** The error at a position where no token starts. */
  function ErrorAt(s: string, pos: nat): ScanError {
    if CharAt(s, pos) == '"' then UnterminatedString else UnexpectedCharacter
  }

  /** Source text ends with a NUL. */
  function CharAt(s: string, i: nat): char {
    if i < |s| then s[i] else '\0'
  }

  predicate IsSpace(c: char) {
    c == ' ' || '\t' <= c <= '\r'
  }

  predicate IsDigit(c: char) {
    '0' <= c <= '9'
  }

  /** The characters that may not follow an integer or a keyword. */
  predicate IsWordChar(c: char) {
    IsDigit(c) || 'a' <= c <= 'z' || 'A' <= c <= 'Z' || c == '_'
  }

  function SkipSpaces(s: string, pos: nat): (p: nat)
    requires pos <= |s|
    ensures pos <= p <= |s| && !IsSpace(CharAt(s, p))
    ensures forall i :: pos <= i < p ==> IsSpace(s[i])
    decreases |s| - pos
  {
    if pos < |s| && IsSpace(s[pos]) then SkipSpaces(s, pos + 1) else pos
  }

  /** The end of the run of digits from pos. */
  function DigitsEnd(s: string, pos: nat): (p: nat)
    requires pos <= |s|
    ensures pos <= p <= |s| && !IsDigit(CharAt(s, p))
    ensures forall i :: pos <= i < p ==> IsDigit(s[i])
    decreases |s| - pos
  {
    if pos < |s| && IsDigit(s[pos]) then DigitsEnd(s, pos + 1) else pos
  }

  /** The first quote or NUL from pos on. */
  function StringEnd(s: string, pos: nat): (p: nat)
    requires pos <= |s|
    ensures pos <= p <= |s| && CharAt(s, p) in {'"', '\0'}
    ensures forall i :: pos <= i < p ==> s[i] !in {'"', '\0'}
    decreases |s| - pos
  {
    if pos < |s| && s[pos] != '"' && s[pos] != '\0' then StringEnd(s, pos + 1) else pos
  }

  /** The keyword kw stands at pos, and no word character follows it. */
  predicate KeywordAt(s: string, pos: nat, kw: string) {
    pos + |kw| <= |s| && s[pos..pos + |kw|] == kw && !IsWordChar(CharAt(s, pos + |kw|))
  }

  /** A token that is one character. */
  function Punctuation(c: char): Token {
    match c
    case '\0' => EOF
    case ',' => Comma
    case ':' => Colon
    case '[' => LBracket
    case ']' => RBracket
    case '{' => LBrace
    case '}' => RBrace
    case _ => Bad
  }

  /** The token that starts exactly at pos, and the position after it. */
  function TokenAt(s: string, pos: nat): (r: (Token, nat))
    requires pos <= |s|
    ensures r.0 != Bad ==> r.1 > pos && (r.0 != EOF ==> r.1 <= |s|)
    ensures r.0 == EOF ==> CharAt(s, pos) == '\0'
  {
    var c := CharAt(s, pos);
    if Punctuation(c) != Bad then (Punctuation(c), pos + 1)
    else if IsDigit(c) then
      var end := DigitsEnd(s, pos);
      if IsWordChar(CharAt(s, end)) then (Bad, pos) else (IntToken(s[pos..end]), end)
    else if c == '"' then
      var end := StringEnd(s, pos + 1);
      if CharAt(s, end) == '\0' then (Bad, pos) else (StringToken(s[pos + 1..end]), end + 1)
    else if KeywordAt(s, pos, "false") then (FalseKw, pos + 5)
    else if KeywordAt(s, pos, "true") then (TrueKw, pos + 4)
    else (Bad, pos)
  }

  /** The next token from pos on, past any white space. */
  function NextToken(s: string, pos: nat): (r: (Token, nat))
    requires pos <= |s|
    ensures r.0 != Bad ==> r.1 > pos && (r.0 != EOF ==> r.1 <= |s|)
  {
    TokenAt(s, SkipSpaces(s, pos))
  }

  /** The tokens from pos to the end of the text or to the first error. */
  function TokensFrom(s: string, pos: nat): (ts: seq<Token>)
    requires pos <= |s|
    ensures ts != [] && ts[|ts| - 1] in {EOF, Bad}
    decreases |s| - pos
  {
    var (t, p) := NextToken(s, pos);
    if t == EOF || t == Bad then [t] else [t] + TokensFrom(s, p)
  }

  // ----- positions -----

  /** Lines are counted from 1. */
  function LineAt(s: string, pos: nat): nat
    requires pos <= |s| + 1
  {
    if pos == 0 then 1 else LineAt(s, pos - 1) + if CharAt(s, pos - 1) == '\n' then 1 else 0
  }

  /** Columns are counted from 1 after the last newline. */
  function ColumnAt(s: string, pos: nat): nat
    requires pos <= |s| + 1
  {
    if pos == 0 || CharAt(s, pos - 1) == '\n' then 1 else ColumnAt(s, pos - 1) + 1
  }
}
