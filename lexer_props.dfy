/**
 * What a sequence of `NextToken` calls yields: the token stream up to EOF,
 * the shape of each kind of lexeme, EOF past the end of the input, and the
 * literals of the stream reassembling the input.
 */
module LexProps {
  import opened Token
  import opened Lex

  /** The lexemes of successive `NextToken` calls from `p` on, up to and including the first EOF. */
  function Tokens(input: seq<byte>, p: nat): (ts: seq<Lexeme>)
    requires StringsClosed(input, p)
    ensures |ts| > 0 && ts[|ts| - 1].Type == EOF
    ensures forall i | 0 <= i < |ts| - 1 :: ts[i].Type != EOF
    decreases |input| + 1 - p
  {
    var r := Scan(input, p);
    if r.0.Type == EOF then [r.0]
    else
      ScanKeepsStringsClosed(input, p);
      [r.0] + Tokens(input, r.1)
  }

  /** The lexemes of `n` successive `NextToken` calls from `p` on, EOF or not. */
  function Pull(input: seq<byte>, p: nat, n: nat): (ts: seq<Lexeme>)
    requires StringsClosed(input, p)
    ensures |ts| == n
    decreases n
  {
    if n == 0 then []
    else
      ScanKeepsStringsClosed(input, p);
      var r := Scan(input, p);
      [r.0] + Pull(input, r.1, n - 1)
  }

  /**
   * Every lexeme `NextToken` hands out while the cursor is within the input,
   * in order. Once the cursor has left the input each call returns EOF.
   */
  function Stream(input: seq<byte>, p: nat): seq<Lexeme>
    requires StringsClosed(input, p)
    decreases |input| - p
  {
    if |input| <= p then []
    else
      ScanKeepsStringsClosed(input, p);
      var r := Scan(input, p);
      [r.0] + Stream(input, r.1)
  }

  /** The next lexeme of a stream, EOF once it is exhausted. */
  function Head(s: seq<Lexeme>): Lexeme {
    if |s| == 0 then Lexeme(EOF, []) else s[0]
  }

  function Tail(s: seq<Lexeme>): seq<Lexeme> {
    if |s| == 0 then [] else s[1..]
  }

  /** One `NextToken` call takes the head of the stream and leaves its tail. */
  lemma StreamStep(input: seq<byte>, p: nat)
    requires StringsClosed(input, p)
    ensures StringsClosed(input, Scan(input, p).1)
    ensures Scan(input, p).0 == Head(Stream(input, p))
    ensures Stream(input, Scan(input, p).1) == Tail(Stream(input, p))
  {
    ScanKeepsStringsClosed(input, p);
    if p < |input| {
      var s := Stream(input, p);
      assert s == [Scan(input, p).0] + Stream(input, Scan(input, p).1);
    }
  }

  /** Within the input, the stream is the next lexeme followed by the stream after it. */
  lemma StreamCons(input: seq<byte>, p: nat) returns (s: seq<Lexeme>)
    requires StringsClosed(input, p) && p < |input|
    ensures StringsClosed(input, Scan(input, p).1)
    ensures s == Stream(input, p) == [Scan(input, p).0] + Stream(input, Scan(input, p).1)
  {
    ScanKeepsStringsClosed(input, p);
    s := Stream(input, p);
  }

  /** `n` successive calls hand out the stream's first `n` lexemes, then EOF. */
  lemma {:induction false} PullIsStream(input: seq<byte>, p: nat, n: nat)
    requires StringsClosed(input, p)
    ensures forall k | 0 <= k < n ::
              Pull(input, p, n)[k] == if k < |Stream(input, p)| then Stream(input, p)[k] else Lexeme(EOF, [])
    decreases n
  {
    if n > 0 {
      StreamStep(input, p);
      var r := Scan(input, p);
      PullIsStream(input, r.1, n - 1);
      var s, rest := Stream(input, p), Pull(input, r.1, n - 1);
      assert Stream(input, r.1) == Tail(s);
      PaddedCons(s, rest, n);
      assert Pull(input, p, n) == [Head(s)] + rest;
    }
  }

  /** A stream padded with EOF: padding its tail and putting its head in front pads the stream itself. */
  lemma PaddedCons(s: seq<Lexeme>, rest: seq<Lexeme>, n: nat)
    requires n > 0 && |rest| == n - 1
    requires forall k | 0 <= k < n - 1 :: rest[k] == if k < |Tail(s)| then Tail(s)[k] else Lexeme(EOF, [])
    ensures forall k | 0 <= k < n :: ([Head(s)] + rest)[k] == if k < |s| then s[k] else Lexeme(EOF, [])
  {
    forall k | 0 <= k < n
      ensures ([Head(s)] + rest)[k] == if k < |s| then s[k] else Lexeme(EOF, [])
    {
      if k > 0 {
        assert ([Head(s)] + rest)[k] == rest[k - 1];
      }
    }
  }

  /** The literals of a token sequence, one after the other. */
  function Literals(ts: seq<Lexeme>): seq<byte> {
    if ts == [] then [] else ts[0].Literal + Literals(ts[1..])
  }

  /** The bytes that are not whitespace, in order. */
  function RemoveWhitespace(s: seq<byte>): seq<byte> {
    if s == [] then []
    else (if IsWhitespace(s[0]) then [] else [s[0]]) + RemoveWhitespace(s[1..])
  }

  lemma {:induction false} RemoveWhitespaceAppend(a: seq<byte>, b: seq<byte>)
    ensures RemoveWhitespace(a + b) == RemoveWhitespace(a) + RemoveWhitespace(b)
  {
    if a != [] {
      assert (a + b)[1..] == a[1..] + b;
      RemoveWhitespaceAppend(a[1..], b);
    } else {
      assert a + b == b;
    }
  }

  /** Removing whitespace keeps a sequence without whitespace as it is and empties one of whitespace only. */
  lemma {:induction false} RemoveWhitespaceExtremes(s: seq<byte>)
    ensures (forall i | 0 <= i < |s| :: IsWhitespace(s[i])) ==> RemoveWhitespace(s) == []
    ensures (forall i | 0 <= i < |s| :: !IsWhitespace(s[i])) ==> RemoveWhitespace(s) == s
  {
    if s != [] {
      RemoveWhitespaceExtremes(s[1..]);
      assert forall i | 0 <= i < |s[1..]| :: s[1..][i] == s[i + 1];
      assert s == [s[0]] + s[1..];
    }
  }

  /** Every byte that survives removing whitespace comes from the input. */
  lemma {:induction false} RemoveWhitespaceFrom(s: seq<byte>)
    ensures forall i | 0 <= i < |RemoveWhitespace(s)| :: RemoveWhitespace(s)[i] in s
  {
    if s != [] {
      RemoveWhitespaceFrom(s[1..]);
      forall i | 0 <= i < |RemoveWhitespace(s)|
        ensures RemoveWhitespace(s)[i] in s
      {
        var head := if IsWhitespace(s[0]) then [] else [s[0]];
        if i >= |head| {
          assert RemoveWhitespace(s)[i] == RemoveWhitespace(s[1..])[i - |head|];
          assert RemoveWhitespace(s)[i] in s[1..];
        }
      }
    }
  }

  /** The texts of one and of two ASCII bytes. */
  lemma RuneTextSmall(a: byte, b: byte)
    ensures RuneText([a]) == RuneBytes(a)
    ensures a < 0x80 ==> RuneText([a]) == [a]
    ensures a < 0x80 && b < 0x80 ==> RuneText([a, b]) == [a, b]
  {
    assert [a][..0] == [];
    assert [a, b][..1] == [a];
  }

  /* ---------------------------------------------------------------- */
  /* The lexeme kinds, one call at a time                              */
  /* ---------------------------------------------------------------- */

  /**
   * `:`, `!`, `<` and `>` give the two-byte operator with a two-byte literal
   * when `=` follows, and otherwise the one-byte token, leaving the `=` (or
   * whatever follows) for the next call.
   */
  lemma OperatorLexeme(input: seq<byte>, p: nat)
    requires StringsClosed(input, p)
    requires OperatorPair(CharAt(input, SkipWhitespaceFrom(input, p))).Some?
    ensures var q := SkipWhitespaceFrom(input, p);
            var c := CharAt(input, q);
            var kinds := OperatorPair(c).value;
            if CharAt(input, q + 1) == Equals
            then Scan(input, p) == (Lexeme(kinds.1, [c, Equals]), q + 2)
            else Scan(input, p) == (Lexeme(kinds.0, [c]), q + 1)
  {
    var q := SkipWhitespaceFrom(input, p);
    var c := CharAt(input, q);
    assert Scan(input, p) == ScanOperator(input, q);
    RuneTextSmall(c, Equals);
  }

  /** Single-byte punctuation gives its token with that byte as the literal. */
  lemma PunctuationLexeme(input: seq<byte>, p: nat)
    requires StringsClosed(input, p)
    requires PunctuationType(CharAt(input, SkipWhitespaceFrom(input, p))).Some?
    ensures var q := SkipWhitespaceFrom(input, p);
            var c := CharAt(input, q);
            Scan(input, p) == (Lexeme(PunctuationType(c).value, [c]), q + 1)
  {
    var q := SkipWhitespaceFrom(input, p);
    var c := CharAt(input, q);
    assert OperatorPair(c).None? && c < 0x80;
    QuotesSkipped(input, p, q);
    assert Scan(input, p) == ScanAt(input, q);
    RuneTextSmall(c, Equals);
    assert ScanAt(input, q) == (Lexeme(PunctuationType(c).value, RuneText([c])), q + 1);
  }

  /**
   * An identifier or keyword is the maximal run of letters where the lexeme
   * starts: every byte of its literal is a letter, the byte after it is not,
   * the cursor stops right after the run, and the kind is the keyword
   * classification of the literal.
   */
  lemma WordLexeme(input: seq<byte>, p: nat)
    requires StringsClosed(input, p)
    requires IsLetter(CharAt(input, SkipWhitespaceFrom(input, p)))
    ensures var q := SkipWhitespaceFrom(input, p);
            var r := Scan(input, p);
            q < r.1 <= |input| && r.0 == Lexeme(Lookup(input[q..r.1]), input[q..r.1]) &&
            (forall i | q <= i < r.1 :: IsLetter(input[i])) && !IsLetter(CharAt(input, r.1))
  {
  }

  /** An integer literal is the maximal run of digits where the lexeme starts. */
  lemma NumberLexeme(input: seq<byte>, p: nat)
    requires StringsClosed(input, p)
    requires IsDigit(CharAt(input, SkipWhitespaceFrom(input, p)))
    ensures var q := SkipWhitespaceFrom(input, p);
            var r := Scan(input, p);
            q < r.1 <= |input| && r.0 == Lexeme(INT, input[q..r.1]) &&
            (forall i | q <= i < r.1 :: IsDigit(input[i])) && !IsDigit(CharAt(input, r.1))
  {
  }

  /**
   * A string literal is the bytes strictly between the opening quote and the
   * next quote; the cursor ends just past the closing quote.
   */
  lemma StringLexeme(input: seq<byte>, p: nat)
    requires StringsClosed(input, p)
    requires CharAt(input, SkipWhitespaceFrom(input, p)) == Quote
    ensures var q := SkipWhitespaceFrom(input, p);
            var r := Scan(input, p);
            q < r.1 - 1 < |input| && input[r.1 - 1] == Quote &&
            r.0 == Lexeme(STRING, input[q + 1..r.1 - 1]) &&
            forall i | q < i < r.1 - 1 :: input[i] != Quote
  {
  }

  /** A 0 byte, which is also what the cursor reads past the end, gives EOF with an empty literal. */
  lemma EofLexeme(input: seq<byte>, p: nat)
    requires StringsClosed(input, p)
    requires CharAt(input, SkipWhitespaceFrom(input, p)) == 0
    ensures Scan(input, p) == (Lexeme(EOF, []), SkipWhitespaceFrom(input, p) + 1)
  {
  }

  /** The bytes no case of `NextToken` names. */
  predicate Unrecognised(c: byte) {
    OperatorPair(c).None? && PunctuationType(c).None? && c != Quote && c != 0 &&
    !IsWhitespace(c) && !IsLetter(c) && !IsDigit(c)
  }

  /**
   * Any other byte gives ILLEGAL, one byte further on. Its literal is Go's
   * conversion of that byte to a string: the byte itself below 0x80, the two
   * bytes of its UTF-8 encoding from 0x80 on.
   */
  lemma IllegalLexeme(input: seq<byte>, p: nat)
    requires StringsClosed(input, p)
    requires Unrecognised(CharAt(input, SkipWhitespaceFrom(input, p)))
    ensures var q := SkipWhitespaceFrom(input, p);
            var c := CharAt(input, q);
            Scan(input, p) == (Lexeme(ILLEGAL, RuneBytes(c)), q + 1) &&
            (c < 0x80 ==> Scan(input, p).0.Literal == [c]) &&
            (c >= 0x80 ==> |Scan(input, p).0.Literal| == 2)
  {
    var q := SkipWhitespaceFrom(input, p);
    assert RuneText([CharAt(input, q)]) == RuneBytes(CharAt(input, q)) by {
      assert [CharAt(input, q)][..0] == [];
    }
  }

  /* ---------------------------------------------------------------- */
  /* The stream                                                        */
  /* ---------------------------------------------------------------- */

  /** Past the end of the input every call returns EOF with an empty literal, however many are made. */
  lemma {:induction false} EofForever(input: seq<byte>, p: nat, n: nat)
    requires |input| <= p
    ensures StringsClosed(input, p)
    ensures forall k | 0 <= k < n :: Pull(input, p, n)[k] == Lexeme(EOF, [])
    decreases n
  {
    if n > 0 {
      EofForever(input, p + 1, n - 1);
      assert Pull(input, p, n) == [Lexeme(EOF, [])] + Pull(input, p + 1, n - 1);
    }
  }

  /**
   * A 0 byte inside the input yields EOF but does not end the stream: the
   * call after it goes on with the bytes that follow.
   */
  lemma NulInsideInput()
    ensures Pull([0x00, 0x31], 0, 2) == [Lexeme(EOF, []), Lexeme(INT, [0x31])]
  {
    var input: seq<byte> := [0x00, 0x31];
    assert Scan(input, 0) == (Lexeme(EOF, []), 1);
    assert DigitRunEnd(input, 2) == 2;
    assert input[1..2] == [0x31];
    assert Scan(input, 1) == (Lexeme(INT, [0x31]), 2);
    assert Pull(input, 2, 0) == [];
  }

  /** Bytes the reassembly property is stated for: no quote and no 0 byte from `p` on. */
  predicate Plain(input: seq<byte>, p: nat) {
    p <= |input| && forall i | p <= i < |input| :: input[i] != Quote && input[i] != 0
  }

  /**
   * A lexeme that spans the bytes `q` up to `r.1`: its literal is their
   * text, none of them is whitespace, and what follows is plain again.
   */
  predicate Spans(input: seq<byte>, q: nat, r: (Lexeme, nat)) {
    r.0.Type != EOF && q < r.1 <= |input| && r.0.Literal == RuneText(input[q..r.1]) &&
    (forall i | q <= i < r.1 :: !IsWhitespace(input[i])) && Plain(input, r.1)
  }

  /**
   * One call on plain input: EOF exactly when only whitespace is left, and
   * otherwise a lexeme whose literal is the text of the bytes it spans,
   * none of which is whitespace.
   */
  lemma PlainLexeme(input: seq<byte>, p: nat)
    requires Plain(input, p) && StringsClosed(input, p)
    ensures var q := SkipWhitespaceFrom(input, p);
            var r := Scan(input, p);
            (r.0.Type == EOF <==> |input| <= q) &&
            (r.0.Type == EOF ==> r.0.Literal == []) &&
            (r.0.Type != EOF ==> Spans(input, q, r))
  {
    var q := SkipWhitespaceFrom(input, p);
    QuotesSkipped(input, p, q);
    assert Scan(input, p) == ScanAt(input, q);
    if q < |input| {
      var c := input[q];
      assert c != Quote && c != 0;
      if OperatorPair(c).Some? {
        PlainOperator(input, q);
      } else if PunctuationType(c).Some? || Unrecognised(c) {
        PlainSingle(input, q);
      } else {
        PlainRun(input, q);
      }
    }
  }

  /** A one- or two-byte operator on plain input. */
  lemma PlainOperator(input: seq<byte>, q: nat)
    requires Plain(input, q) && q < |input| && OperatorPair(input[q]).Some?
    ensures Spans(input, q, ScanOperator(input, q))
  {
    var c := input[q];
    if CharAt(input, q + 1) == Equals {
      assert input[q..q + 2] == [c, Equals];
    } else {
      assert input[q..q + 1] == [c];
    }
  }

  /** Punctuation or an unrecognised byte on plain input. */
  lemma PlainSingle(input: seq<byte>, q: nat)
    requires Plain(input, q) && StringsClosed(input, q) && q < |input| && !IsWhitespace(input[q])
    requires OperatorPair(input[q]).None? && (PunctuationType(input[q]).Some? || Unrecognised(input[q]))
    ensures Spans(input, q, ScanAt(input, q))
  {
    assert input[q..q + 1] == [input[q]];
  }

  /** A word or a number on plain input. */
  lemma PlainRun(input: seq<byte>, q: nat)
    requires Plain(input, q) && StringsClosed(input, q) && q < |input| && !IsWhitespace(input[q])
    requires OperatorPair(input[q]).None? && PunctuationType(input[q]).None? && !Unrecognised(input[q])
    requires input[q] != Quote && input[q] != 0
    ensures Spans(input, q, ScanAt(input, q))
  {
    var c := input[q];
    if IsLetter(c) {
      var e := LetterRunEnd(input, q);
      assert ScanAt(input, q) == (Lexeme(Lookup(input[q..e]), input[q..e]), e);
      AsciiRunSpans(input, q, e, Lookup(input[q..e]));
    } else {
      var e := DigitRunEnd(input, q);
      assert ScanAt(input, q) == (Lexeme(INT, input[q..e]), e);
      AsciiRunSpans(input, q, e, INT);
    }
  }

  /** A lexeme whose literal is a run of ASCII bytes without whitespace spans that run. */
  lemma AsciiRunSpans(input: seq<byte>, q: nat, e: nat, t: TokenType)
    requires Plain(input, q) && q < e <= |input| && t != EOF
    requires forall i | q <= i < e :: input[i] < 0x80 && !IsWhitespace(input[i])
    ensures Spans(input, q, (Lexeme(t, input[q..e]), e))
  {
    RuneTextAscii(input[q..e]);
  }

  /** Whitespace, then a run without whitespace, then the rest. */
  lemma RemoveWhitespaceSplit(a: seq<byte>, b: seq<byte>, c: seq<byte>)
    requires forall i | 0 <= i < |a| :: IsWhitespace(a[i])
    requires forall i | 0 <= i < |b| :: !IsWhitespace(b[i])
    ensures RemoveWhitespace(a + b + c) == b + RemoveWhitespace(c)
  {
    RemoveWhitespaceExtremes(a);
    RemoveWhitespaceExtremes(b);
    RemoveWhitespaceAppend(a, b);
    assert RemoveWhitespace(a + b) == b;
    RemoveWhitespaceAppend(a + b, c);
  }

  lemma SliceSplit(s: seq<byte>, i: nat, j: nat, k: nat)
    requires i <= j <= k <= |s|
    ensures s[i..] == s[i..j] + s[j..k] + s[k..]
  {
    assert s[i..] == s[i..j] + s[j..];
    assert s[j..] == s[j..k] + s[k..];
  }

  /** The stream from `p` is the lexeme at `p` followed by the stream after it. */
  lemma LiteralsUnfold(input: seq<byte>, p: nat)
    requires StringsClosed(input, p)
    ensures var r := Scan(input, p);
            r.0.Type != EOF ==>
              StringsClosed(input, r.1) &&
              Literals(Tokens(input, p)) == r.0.Literal + Literals(Tokens(input, r.1))
  {
    var r := Scan(input, p);
    if r.0.Type != EOF {
      ScanKeepsStringsClosed(input, p);
      var ts := Tokens(input, p);
      assert ts == [r.0] + Tokens(input, r.1);
      assert ts[1..] == Tokens(input, r.1);
    }
  }

  /**
   * For an input with no quote and no 0 byte, the literals of the tokens up
   * to EOF, one after the other, are the text of the input with its
   * whitespace bytes removed.
   */
  lemma {:induction false} LiteralsReassemble(input: seq<byte>, p: nat)
    requires Plain(input, p)
    ensures StringsClosed(input, p) &&
            Literals(Tokens(input, p)) == RuneText(RemoveWhitespace(input[p..]))
    decreases |input| - p
  {
    QuotesSkipped(input, p, |input|);
    PlainLexeme(input, p);
    var q := SkipWhitespaceFrom(input, p);
    var r := Scan(input, p);
    if r.0.Type == EOF {
      assert Tokens(input, p) == [r.0];
      assert Literals([r.0]) == [];
      RemoveWhitespaceExtremes(input[p..]);
    } else {
      LiteralsUnfold(input, p);
      LiteralsReassemble(input, r.1);
      ReassembleStep(input, p, q, r.1);
    }
  }

  /** Whitespace from `p` to `q`, then a lexeme's bytes up to `e`: their text comes first in the whitespace-free text from `p`. */
  lemma ReassembleStep(input: seq<byte>, p: nat, q: nat, e: nat)
    requires p <= q < e <= |input|
    requires forall i | p <= i < q :: IsWhitespace(input[i])
    requires forall i | q <= i < e :: !IsWhitespace(input[i])
    ensures RuneText(input[q..e]) + RuneText(RemoveWhitespace(input[e..])) == RuneText(RemoveWhitespace(input[p..]))
  {
    SliceSplit(input, p, q, e);
    RemoveWhitespaceSplit(input[p..q], input[q..e], input[e..]);
    RuneTextAppend(input[q..e], RemoveWhitespace(input[e..]));
  }

  /** On ASCII input the literals reassemble the input itself, whitespace removed. */
  lemma AsciiLiteralsReassemble(input: seq<byte>, p: nat)
    requires Plain(input, p) && forall i | p <= i < |input| :: input[i] < 0x80
    ensures StringsClosed(input, p) &&
            Literals(Tokens(input, p)) == RemoveWhitespace(input[p..])
  {
    LiteralsReassemble(input, p);
    RemoveWhitespaceFrom(input[p..]);
    RuneTextAscii(RemoveWhitespace(input[p..]));
  }

  /** The bytes of `let y := 5;`. */
  const LetLine: seq<byte> := [0x6C, 0x65, 0x74, 0x20, 0x79, 0x20, 0x3A, 0x3D, 0x20, 0x35, 0x3B]

  /** The first three `NextToken` calls over `let y := 5;`: `let`, `y` and `:=`. */
  lemma LetLineHead()
    ensures StringsClosed(LetLine, 0)
    ensures Scan(LetLine, 0) == (Lexeme(LET, LetWord), 3)
    ensures Scan(LetLine, 3) == (Lexeme(IDENT, [0x79]), 5)
    ensures Scan(LetLine, 5) == (Lexeme(ASSIGN, [0x3A, 0x3D]), 8)
  {
    LetLineKeyword();
    LetLineName();
    LetLineAssign();
  }

  /** The first call reads the keyword `let`. */
  lemma LetLineKeyword()
    ensures StringsClosed(LetLine, 0)
    ensures Scan(LetLine, 0) == (Lexeme(LET, LetWord), 3)
  {
    var input := LetLine;
    QuotesSkipped(input, 0, |input|);
    assert LetterRunEnd(input, 0) == 3 && input[0..3] == LetWord;
  }

  /** The second call skips the blank and reads the identifier `y`. */
  lemma LetLineName()
    ensures StringsClosed(LetLine, 3)
    ensures Scan(LetLine, 3) == (Lexeme(IDENT, [0x79]), 5)
  {
    var input := LetLine;
    QuotesSkipped(input, 3, |input|);
    assert SkipWhitespaceFrom(input, 3) == 4;
    assert LetterRunEnd(input, 4) == 5 && input[4..5] == [0x79];
  }

  /** The third call skips the blank and reads `:=`. */
  lemma LetLineAssign()
    ensures StringsClosed(LetLine, 5)
    ensures Scan(LetLine, 5) == (Lexeme(ASSIGN, [0x3A, 0x3D]), 8)
  {
    var input := LetLine;
    QuotesSkipped(input, 5, |input|);
    assert SkipWhitespaceFrom(input, 5) == 6;
    RuneTextSmall(0x3A, Equals);
  }

  /** The last three `NextToken` calls over `let y := 5;`: `5`, `;` and EOF. */
  lemma LetLineTail()
    ensures StringsClosed(LetLine, 8)
    ensures Scan(LetLine, 8) == (Lexeme(INT, [0x35]), 10)
    ensures Scan(LetLine, 10) == (Lexeme(SEMICOLON, [0x3B]), 11)
    ensures Scan(LetLine, 11) == (Lexeme(EOF, []), 12)
  {
    LetLineInt();
    LetLineSemicolon();
    LetLineEof();
  }

  /** The fifth call reads `;`. */
  lemma LetLineSemicolon()
    ensures StringsClosed(LetLine, 10)
    ensures Scan(LetLine, 10) == (Lexeme(SEMICOLON, [0x3B]), 11)
  {
    var input := LetLine;
    QuotesSkipped(input, 10, |input|);
    assert SkipWhitespaceFrom(input, 10) == 10;
    RuneTextSmall(0x3B, 0x3B);
  }

  /** The sixth call finds the input exhausted. */
  lemma LetLineEof()
    ensures StringsClosed(LetLine, 11)
    ensures Scan(LetLine, 11) == (Lexeme(EOF, []), 12)
  {
    var input := LetLine;
    assert CharAt(input, 11) == 0 && SkipWhitespaceFrom(input, 11) == 11;
  }

  /** The fourth `NextToken` call over `let y := 5;` skips the blank and reads `5`. */
  lemma LetLineInt()
    ensures StringsClosed(LetLine, 8)
    ensures Scan(LetLine, 8) == (Lexeme(INT, [0x35]), 10)
  {
    var input := LetLine;
    QuotesSkipped(input, 8, |input|);
    assert SkipWhitespaceFrom(input, 8) == 9;
    assert DigitRunEnd(input, 9) == 10 && input[9..10] == [0x35];
  }

  /** A call that does not return EOF is followed by the calls from where it left the cursor. */
  lemma TokensUnfold(input: seq<byte>, p: nat) returns (ts: seq<Lexeme>)
    requires StringsClosed(input, p) && Scan(input, p).0.Type != EOF
    ensures StringsClosed(input, Scan(input, p).1)
    ensures ts == Tokens(input, p) == [Scan(input, p).0] + Tokens(input, Scan(input, p).1)
  {
    ScanKeepsStringsClosed(input, p);
    ts := Tokens(input, p);
  }

  /** Five lexemes and then EOF, call by call, are all the calls hand out. */
  lemma TokensOfScans(input: seq<byte>, p0: nat, p1: nat, p2: nat, p3: nat, p4: nat, p5: nat,
                      t0: Lexeme, t1: Lexeme, t2: Lexeme, t3: Lexeme, t4: Lexeme, t5: Lexeme)
    requires StringsClosed(input, p0) && Scan(input, p0).0 == t0 && t0.Type != EOF && Scan(input, p0).1 == p1
    requires StringsClosed(input, p1) && Scan(input, p1).0 == t1 && t1.Type != EOF && Scan(input, p1).1 == p2
    requires StringsClosed(input, p2) && Scan(input, p2).0 == t2 && t2.Type != EOF && Scan(input, p2).1 == p3
    requires StringsClosed(input, p3) && Scan(input, p3).0 == t3 && t3.Type != EOF && Scan(input, p3).1 == p4
    requires StringsClosed(input, p4) && Scan(input, p4).0 == t4 && t4.Type != EOF && Scan(input, p4).1 == p5
    requires StringsClosed(input, p5) && Scan(input, p5).0 == t5 && t5.Type == EOF
    ensures Tokens(input, p0) == [t0, t1, t2, t3, t4, t5]
  {
    var s5 := Tokens(input, p5);
    var s4 := TokensUnfold(input, p4);
    var s3 := TokensUnfold(input, p3);
    var s2 := TokensUnfold(input, p2);
    var s1 := TokensUnfold(input, p1);
    var s0 := TokensUnfold(input, p0);
    assert s5 == [t5];
    assert s4 == [t4, t5];
    assert s3 == [t3, t4, t5];
    assert s2 == [t2, t3, t4, t5];
    assert s1 == [t1, t2, t3, t4, t5];
  }

  /** Five lexemes within the input, call by call, are the whole stream. */
  lemma StreamOfScans(input: seq<byte>, p0: nat, p1: nat, p2: nat, p3: nat, p4: nat, p5: nat, t0: Lexeme, t1: Lexeme, t2: Lexeme, t3: Lexeme, t4: Lexeme)
    requires StringsClosed(input, p0) && Scan(input, p0) == (t0, p1)
    requires StringsClosed(input, p1) && Scan(input, p1) == (t1, p2)
    requires StringsClosed(input, p2) && Scan(input, p2) == (t2, p3)
    requires StringsClosed(input, p3) && Scan(input, p3) == (t3, p4)
    requires StringsClosed(input, p4) && Scan(input, p4) == (t4, p5)
    requires p0 < |input| && p1 < |input| && p2 < |input| && p3 < |input| && p4 < |input| && |input| <= p5
    ensures Stream(input, p0) == [t0, t1, t2, t3, t4]
  {
    var s4 := StreamCons(input, p4);
    var s3 := StreamCons(input, p3);
    var s2 := StreamCons(input, p2);
    var s1 := StreamCons(input, p1);
    var s0 := StreamCons(input, p0);
    assert s4 == [t4];
    assert s3 == [t3, t4];
    assert s2 == [t2, t3, t4];
    assert s1 == [t1, t2, t3, t4];
  }

  /**
   * `let y := 5;` gives, in order: the keyword `let`, the identifier `y`,
   * `:=`, the integer `5`, `;` and EOF.
   */
  lemma LetLineTokens()
    ensures StringsClosed(LetLine, 0)
    ensures Tokens(LetLine, 0) == [Lexeme(LET, LetWord), Lexeme(IDENT, [0x79]), Lexeme(ASSIGN, [0x3A, 0x3D]),
                                   Lexeme(INT, [0x35]), Lexeme(SEMICOLON, [0x3B]), Lexeme(EOF, [])]
  {
    LetLineHead();
    LetLineTail();
    TokensOfScans(LetLine, 0, 3, 5, 8, 10, 11, Lexeme(LET, LetWord), Lexeme(IDENT, [0x79]), Lexeme(ASSIGN, [0x3A, 0x3D]),
                  Lexeme(INT, [0x35]), Lexeme(SEMICOLON, [0x3B]), Lexeme(EOF, []));
  }
}
