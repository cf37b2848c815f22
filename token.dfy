/**
 * The token vocabulary shared by the lexer and the parser: token kinds,
 * lexemes, operator classification, binding strength and keyword lookup.
 *
 * go-vtwin's `token` package, which defines these, is not part of this
 * model; only what the lexer and the parser rely on is fixed here.
 */
module Token {

  /** One byte of source text (Go `byte`). */
  type byte = x: int | 0 <= x < 256

  /** The closed set of token kinds that the lexer emits or the parser tests. */
  datatype TokenType =
    | ILLEGAL | EOF
    | IDENT | INT | STRING
    | ASSIGN | COLON
    | EQL | NEQ | LSS | LEQ | GTR | GEQ
    | ADD | SUBT | MULT | DIV | XOR | AND | NOT
    | SEMICOLON | LPAREN | RPAREN | COMMA | LBRACE | RBRACE | LBRACK | RBRACK
    | LET | CONST | RETURN

  /** A lexical unit: its kind and the exact text it stands for. */
  datatype Lexeme = Lexeme(Type: TokenType, Literal: seq<byte>)

  /** The zero value of a token: what a field holds before anything is assigned. */
  const NoToken: Lexeme := Lexeme(ILLEGAL, [])

  predicate IsComparison(t: TokenType) {
    t.EQL? || t.NEQ? || t.LSS? || t.LEQ? || t.GTR? || t.GEQ?
  }

  predicate IsAdditive(t: TokenType) {
    t.ADD? || t.SUBT? || t.XOR?
  }

  predicate IsMultiplicative(t: TokenType) {
    t.MULT? || t.DIV? || t.AND?
  }

  /** The binary operators (`IsOpertor` in the Go code). */
  predicate IsOperator(t: TokenType) {
    IsComparison(t) || IsAdditive(t) || IsMultiplicative(t)
  }

  /**
   * Binding strength of a token: comparisons bind loosest, then the
   * additive operators, then the multiplicative ones; every other token
   * has none.
   */
  function Precedence(t: TokenType): (p: int)
    ensures IsOperator(t) <==> p > 0
    ensures IsComparison(t) ==> p == 3
    ensures IsAdditive(t) ==> p == 4
    ensures IsMultiplicative(t) ==> p == 5
  {
    match t
    case EQL | NEQ | LSS | LEQ | GTR | GEQ => 3
    case ADD | SUBT | XOR => 4
    case MULT | DIV | AND => 5
    case _ => 0
  }

  /** The keywords the statement layer dispatches on. */
  const LetWord: seq<byte> := [0x6C, 0x65, 0x74]                  // "let"
  const ConstWord: seq<byte> := [0x63, 0x6F, 0x6E, 0x73, 0x74]      // "const"
  const ReturnWord: seq<byte> := [0x72, 0x65, 0x74, 0x75, 0x72, 0x6E] // "return"

  /** Keyword classification of an identifier-shaped word. */
  function Lookup(word: seq<byte>): TokenType {
    if word == LetWord then LET
    else if word == ConstWord then CONST
    else if word == ReturnWord then RETURN
    else IDENT
  }
}
