/**
 * The tokenizer: a cursor over a byte sequence that hands out one lexeme
 * per call.
 *
 * `Scan` is the reference definition of one `NextToken` call as a function
 * of the cursor position; the `Lexer` class is the cursor itself, with the
 * fields the Go code updates in place, and each of its methods is proved to
 * follow the reference definition.
 */
module Lex {
  import opened Wrappers
  import opened Token

  const Quote: byte := 0x22   // '"'
  const Equals: byte := 0x3D  // '='

  /** `a`-`z`, `A`-`Z` or `_`. */
  predicate IsLetter(ch: byte) {
    0x61 <= ch <= 0x7A || 0x41 <= ch <= 0x5A || ch == 0x5F
  }

  /** `0`-`9`. */
  predicate IsDigit(ch: byte) {
    0x30 <= ch <= 0x39
  }

  /** Space, tab, line feed or carriage return. */
  predicate IsWhitespace(ch: byte) {
    ch == 0x20 || ch == 0x09 || ch == 0x0A || ch == 0x0D
  }

  /** The byte `readChar` loads for a read position: the input byte, or 0 past the end. */
  function CharAt(input: seq<byte>, i: nat): byte {
    if i < |input| then input[i] else 0
  }

  /** The number of quote bytes in the input from position `p` on. */
  function QuotesFrom(input: seq<byte>, p: nat): nat
    decreases |input| - p
  {
    if p >= |input| then 0
    else (if input[p] == Quote then 1 else 0) + QuotesFrom(input, p + 1)
  }

  /**
   * Every string literal the lexer may open from position `p` on is closed:
   * the rest of the input holds an even number of quote bytes. Outside a
   * string the lexer never steps over a quote without opening a string, so
   * quotes pair up in order; without this the Go code's string loop never
   * exits.
   */
  predicate StringsClosed(input: seq<byte>, p: nat) {
    QuotesFrom(input, p) % 2 == 0
  }

  /** Where `skipWhitespace` leaves the cursor when it starts at `p`. */
  function SkipWhitespaceFrom(input: seq<byte>, p: nat): (q: nat)
    ensures p <= q
    ensures !IsWhitespace(CharAt(input, q))
    ensures forall i | p <= i < q :: i < |input| && IsWhitespace(input[i])
    ensures q <= |input| || q == p
    decreases |input| - p
  {
    if IsWhitespace(CharAt(input, p)) then SkipWhitespaceFrom(input, p + 1) else p
  }

  /** Where `readIdentifier` leaves the cursor: the end of the run of letters at `p`. */
  function LetterRunEnd(input: seq<byte>, p: nat): (e: nat)
    requires p <= |input|
    ensures p <= e <= |input|
    ensures forall i | p <= i < e :: IsLetter(input[i])
    ensures !IsLetter(CharAt(input, e))
    decreases |input| - p
  {
    if p < |input| && IsLetter(input[p]) then LetterRunEnd(input, p + 1) else p
  }

  /** Where `readNumber` leaves the cursor: the end of the run of digits at `p`. */
  function DigitRunEnd(input: seq<byte>, p: nat): (e: nat)
    requires p <= |input|
    ensures p <= e <= |input|
    ensures forall i | p <= i < e :: IsDigit(input[i])
    ensures !IsDigit(CharAt(input, e))
    decreases |input| - p
  {
    if p < |input| && IsDigit(input[p]) then DigitRunEnd(input, p + 1) else p
  }

  /** Where `readString` stops: the first quote at or after `p`. */
  function ClosingQuote(input: seq<byte>, p: nat): (e: nat)
    requires QuotesFrom(input, p) > 0
    ensures p <= e < |input| && input[e] == Quote
    ensures forall i | p <= i < e :: input[i] != Quote
    ensures QuotesFrom(input, p) == QuotesFrom(input, e)
    decreases |input| - p
  {
    if input[p] == Quote then p else ClosingQuote(input, p + 1)
  }

  /**
   * Go's `string(b)` for a byte `b`: the UTF-8 encoding of the code point
   * `b`, which is `b` itself below 0x80 and two bytes from 0x80 on.
   */
  function RuneBytes(b: byte): (r: seq<byte>)
    ensures b < 0x80 ==> r == [b]
    ensures b >= 0x80 ==> |r| == 2
  {
    if b < 0x80 then [b] else [0xC0 + b / 64, 0x80 + b % 64]
  }

  /** The text `newToken` accumulates: the bytes' texts, one after the other. */
  function RuneText(chars: seq<byte>): seq<byte> {
    if chars == [] then [] else RuneText(chars[..|chars| - 1]) + RuneBytes(chars[|chars| - 1])
  }

  /** The text of two byte sequences in a row is the text of each in turn. */
  lemma {:induction false} RuneTextAppend(a: seq<byte>, b: seq<byte>)
    ensures RuneText(a + b) == RuneText(a) + RuneText(b)
    decreases |b|
  {
    if b != [] {
      var b' := b[..|b| - 1];
      assert (a + b)[..|a + b| - 1] == a + b';
      RuneTextAppend(a, b');
    } else {
      assert a + b == a;
    }
  }

  /** Below 0x80 every byte is its own text. */
  lemma {:induction false} RuneTextAscii(chars: seq<byte>)
    requires forall i | 0 <= i < |chars| :: chars[i] < 0x80
    ensures RuneText(chars) == chars
  {
    if chars != [] {
      var init := chars[..|chars| - 1];
      RuneTextAscii(init);
      assert chars == init + [chars[|chars| - 1]];
    }
  }

  /** `newToken`: a lexeme of kind `t` whose literal is the text of `chars`. */
  method NewToken(t: TokenType, chars: seq<byte>) returns (tok: Lexeme)
    ensures tok == Lexeme(t, RuneText(chars))
  {
    var literal: seq<byte> := [];
    for i := 0 to |chars|
      invariant literal == RuneText(chars[..i])
    {
      assert chars[..i + 1][..i] == chars[..i];
      literal := literal + RuneBytes(chars[i]);
    }
    assert chars[..|chars|] == chars;
    tok := Lexeme(t, literal);
  }

  /**
   * The bytes that begin a two-byte operator when `=` follows them: the kind
   * of the byte alone and the kind of the byte followed by `=`.
   */
  function OperatorPair(c: byte): Option<(TokenType, TokenType)> {
    if c == 0x3A then Some((COLON, ASSIGN))  // ':'
    else if c == 0x21 then Some((NOT, NEQ))  // '!'
    else if c == 0x3C then Some((LSS, LEQ))  // '<'
    else if c == 0x3E then Some((GTR, GEQ))  // '>'
    else None
  }

  /** The punctuation recognised from one byte alone. */
  function PunctuationType(c: byte): Option<TokenType> {
    if c == 0x3D then Some(EQL)  // '='
    else if c == 0x2B then Some(ADD)  // '+'
    else if c == 0x2D then Some(SUBT)  // '-'
    else if c == 0x2F then Some(DIV)  // '/'
    else if c == 0x2A then Some(MULT)  // '*'
    else if c == 0x3B then Some(SEMICOLON)  // ';'
    else if c == 0x28 then Some(LPAREN)  // '('
    else if c == 0x29 then Some(RPAREN)  // ')'
    else if c == 0x2C then Some(COMMA)  // ','
    else if c == 0x7B then Some(LBRACE)  // '{'
    else if c == 0x7D then Some(RBRACE)  // '}'
    else if c == 0x5B then Some(LBRACK)  // '['
    else if c == 0x5D then Some(RBRACK)  // ']'
    else None
  }

  /** Stepping over bytes that are not quotes leaves the quote count unchanged. */
  lemma {:induction false} QuotesSkipped(input: seq<byte>, i: nat, j: nat)
    requires i <= j
    requires forall k | i <= k < j && k < |input| :: input[k] != Quote
    ensures QuotesFrom(input, i) == QuotesFrom(input, j)
    decreases j - i
  {
    if i < j && i < |input| {
      QuotesSkipped(input, i + 1, j);
    }
  }

  /** A quote the lexer opens at `q` is closed later in the input. */
  lemma OpenQuoteIsClosed(input: seq<byte>, p: nat, q: nat)
    requires StringsClosed(input, p) && q == SkipWhitespaceFrom(input, p)
    requires CharAt(input, q) == Quote
    ensures q < |input| && QuotesFrom(input, q + 1) % 2 == 1
  {
    QuotesSkipped(input, p, q);
  }

  /**
   * One call of `NextToken` starting with the cursor at `p`: the lexeme it
   * returns and the position it leaves the cursor at.
   */
  function Scan(input: seq<byte>, p: nat): (r: (Lexeme, nat))
    requires StringsClosed(input, p)
    ensures p < r.1
    ensures r.0.Type != EOF ==> r.1 <= |input|
    ensures r.1 <= |input| + 1 || r.1 == p + 1
  {
    var q := SkipWhitespaceFrom(input, p);
    QuotesSkipped(input, p, q);
    ScanAt(input, q)
  }

  /** The lexeme recognised at `q`, where `skipWhitespace` has left the cursor. */
  function ScanAt(input: seq<byte>, q: nat): (r: (Lexeme, nat))
    requires StringsClosed(input, q) && !IsWhitespace(CharAt(input, q))
    ensures q < r.1
    ensures r.0.Type != EOF ==> r.1 <= |input|
    ensures r.1 <= |input| + 1 || r.1 == q + 1
  {
    var c := CharAt(input, q);
    if OperatorPair(c).Some? then ScanOperator(input, q)
    else if PunctuationType(c).Some? then (Lexeme(PunctuationType(c).value, RuneText([c])), q + 1)
    else if c == Quote then
      OpenQuoteIsClosed(input, q, q);
      ScanString(input, q)
    else if c == 0 then (Lexeme(EOF, []), q + 1)
    else if IsLetter(c) then ScanWord(input, q)
    else if IsDigit(c) then ScanNumber(input, q)
    else (Lexeme(ILLEGAL, RuneText([c])), q + 1)
  }

  /** A byte that may begin a two-byte operator: the operator when `=` follows, the byte alone otherwise. */
  function ScanOperator(input: seq<byte>, q: nat): (r: (Lexeme, nat))
    requires OperatorPair(CharAt(input, q)).Some?
    ensures r.1 == q + 1 || (r.1 == q + 2 && CharAt(input, q + 1) == Equals)
    ensures r.1 <= |input|
  {
    var c := CharAt(input, q);
    var (single, double) := OperatorPair(c).value;
    if CharAt(input, q + 1) == Equals then (Lexeme(double, RuneText([c, Equals])), q + 2)
    else (Lexeme(single, RuneText([c])), q + 1)
  }

  /** A string literal: the bytes up to the next quote; the cursor ends past that quote. */
  function ScanString(input: seq<byte>, q: nat): (r: (Lexeme, nat))
    requires CharAt(input, q) == Quote && QuotesFrom(input, q + 1) % 2 == 1
    ensures r.1 <= |input| && r.0.Type == STRING
    ensures q + 1 <= r.1 - 1 && r.1 - 1 == ClosingQuote(input, q + 1)
  {
    var e := ClosingQuote(input, q + 1);
    (Lexeme(STRING, input[q + 1..e]), e + 1)
  }

  /** An identifier or keyword: the run of letters at `q`, classified by `Lookup`. */
  function ScanWord(input: seq<byte>, q: nat): (r: (Lexeme, nat))
    requires IsLetter(CharAt(input, q))
    ensures q < r.1 <= |input| && r.1 == LetterRunEnd(input, q)
  {
    var e := LetterRunEnd(input, q);
    (Lexeme(Lookup(input[q..e]), input[q..e]), e)
  }

  /** An integer literal: the run of digits at `q`. */
  function ScanNumber(input: seq<byte>, q: nat): (r: (Lexeme, nat))
    requires IsDigit(CharAt(input, q))
    ensures q < r.1 <= |input| && r.1 == DigitRunEnd(input, q)
  {
    var e := DigitRunEnd(input, q);
    (Lexeme(INT, input[q..e]), e)
  }

  /** A lexeme that does not open a string steps over no quote. */
  lemma NoQuoteStepped(input: seq<byte>, q: nat)
    requires StringsClosed(input, q) && !IsWhitespace(CharAt(input, q))
    requires CharAt(input, q) != Quote
    ensures forall k | q <= k < ScanAt(input, q).1 && k < |input| :: input[k] != Quote
  {
    var c := CharAt(input, q);
    if IsLetter(c) && OperatorPair(c).None? && PunctuationType(c).None? {
      var _ := LetterRunEnd(input, q);
    } else if IsDigit(c) && OperatorPair(c).None? && PunctuationType(c).None? {
      var _ := DigitRunEnd(input, q);
    } else {
      assert ScanAt(input, q).1 <= q + 2;
    }
  }

  /** A call of `NextToken` keeps every later string literal closed. */
  lemma ScanKeepsStringsClosed(input: seq<byte>, p: nat)
    requires StringsClosed(input, p)
    ensures StringsClosed(input, Scan(input, p).1)
  {
    var q := SkipWhitespaceFrom(input, p);
    QuotesSkipped(input, p, q);
    if CharAt(input, q) == Quote {
      OpenQuoteIsClosed(input, q, q);
      var e := ClosingQuote(input, q + 1);
      assert QuotesFrom(input, q) == 1 + QuotesFrom(input, e);
    } else {
      NoQuoteStepped(input, q);
      QuotesSkipped(input, q, ScanAt(input, q).1);
    }
  }

  class Lexer {
    const input: seq<byte>
    /** The position of `ch` in the input. */
    var position: nat
    /** The next position to read. */
    var readPosition: nat
    /** The byte under examination; 0 once the cursor is past the end. */
    var ch: byte

    ghost predicate Valid()
      reads this
    {
      readPosition == position + 1 && ch == CharAt(input, position)
    }

    constructor (input: seq<byte>)
      ensures Valid() && this.input == input && position == 0
    {
      this.input := input;
      position, readPosition, ch := 0, 0, 0;
      new;
      ReadChar();
    }

    method ReadChar()
      modifies this
      ensures position == old(readPosition) && readPosition == position + 1
      ensures ch == CharAt(input, position)
    {
      if readPosition >= |input| {
        ch := 0;
      } else {
        ch := input[readPosition];
      }
      position := readPosition;
      readPosition := readPosition + 1;
    }

    function PeekChar(): (c: byte)
      reads this
      ensures Valid() ==> c == CharAt(input, position + 1)
    {
      if readPosition >= |input| then 0 else input[readPosition]
    }

    method SkipWhitespace()
      requires Valid()
      modifies this
      ensures Valid() && position == SkipWhitespaceFrom(input, old(position))
    {
      while ch == 0x20 || ch == 0x09 || ch == 0x0A || ch == 0x0D
        invariant Valid()
        invariant SkipWhitespaceFrom(input, position) == SkipWhitespaceFrom(input, old(position))
        decreases |input| - position
      {
        ReadChar();
      }
    }

    method ReadIdentifier() returns (lit: seq<byte>)
      requires Valid() && position <= |input|
      modifies this
      ensures Valid() && position == LetterRunEnd(input, old(position))
      ensures lit == input[old(position)..position]
    {
      var pos := position;
      while IsLetter(ch)
        invariant Valid() && pos <= position <= |input|
        invariant LetterRunEnd(input, position) == LetterRunEnd(input, pos)
        decreases |input| - position
      {
        ReadChar();
      }
      lit := input[pos..position];
    }

    method ReadNumber() returns (lit: seq<byte>)
      requires Valid() && position <= |input|
      modifies this
      ensures Valid() && position == DigitRunEnd(input, old(position))
      ensures lit == input[old(position)..position]
    {
      var pos := position;
      while IsDigit(ch)
        invariant Valid() && pos <= position <= |input|
        invariant DigitRunEnd(input, position) == DigitRunEnd(input, pos)
        decreases |input| - position
      {
        ReadChar();
      }
      lit := input[pos..position];
    }

    method ReadString() returns (lit: seq<byte>)
      requires Valid() && QuotesFrom(input, position + 1) > 0
      modifies this
      ensures Valid() && position == ClosingQuote(input, old(position) + 1)
      ensures lit == input[old(position) + 1..position]
    {
      var pos := position + 1;
      ghost var close := ClosingQuote(input, pos);
      while true
        invariant Valid() && pos - 1 <= position < close
        decreases close - position
      {
        ReadChar();
        if ch == Quote {
          break;
        }
      }
      lit := input[pos..position];
    }

    /**
     * The four cases of `NextToken` for `:`, `!`, `<` and `>`: the two-byte
     * operator when `=` follows (the cursor is left on the `=`), the byte
     * alone otherwise.
     */
    method ReadOperator() returns (tok: Lexeme)
      requires Valid() && OperatorPair(ch).Some?
      modifies this
      ensures Valid() && (tok, position + 1) == ScanOperator(input, old(position))
    {
      var (single, double) := OperatorPair(ch).value;
      if PeekChar() == Equals {
        var c := ch;
        ReadChar();
        tok := NewToken(double, [c, ch]);
      } else {
        tok := NewToken(single, [ch]);
      }
    }

    method NextToken() returns (tok: Lexeme)
      requires Valid() && StringsClosed(input, position)
      modifies this
      ensures Valid() && (tok, position) == Scan(input, old(position))
      ensures StringsClosed(input, position)
    {
      ScanKeepsStringsClosed(input, position);
      SkipWhitespace();
      if OperatorPair(ch).Some? {
        tok := ReadOperator();
      } else if PunctuationType(ch).Some? {
        tok := NewToken(PunctuationType(ch).value, [ch]);
      } else if ch == Quote {
        OpenQuoteIsClosed(input, old(position), position);
        var lit := ReadString();
        tok := Lexeme(STRING, lit);
      } else if ch == 0 {
        tok := Lexeme(EOF, []);
      } else {
        if IsLetter(ch) {
          var lit := ReadIdentifier();
          tok := Lexeme(Lookup(lit), lit);
          return;
        } else if IsDigit(ch) {
          var lit := ReadNumber();
          tok := Lexeme(INT, lit);
          return;
        } else {
          tok := NewToken(ILLEGAL, [ch]);
        }
      }
      ReadChar();
    }
  }
}
