/**
 * The reference definition of the parser as functions of its state: the
 * current lexeme, the peeked one, and the lexemes the lexer has yet to hand
 * out.
 *
 * The Go code's panics ("Paren mismatch", "Invalid Let assignment", and the
 * nil `Name` a `let` without identifier stores) are the `Err` outcomes.
 * `parseBinaryExpr` does not stop on every input (when `endToken` never
 * comes the cursor stalls at EOF and operands pile up), so the expression
 * engine takes a `fuel` bound on its loop iterations and nesting, and
 * reports `OutOfFuel` when it is spent.
 */
module ParserSpec {
  import opened Wrappers
  import opened Token
  import opened Lex
  import opened LexProps
  import opened Ast

  datatype ParseError = ParenMismatch | InvalidLet | NilName | OutOfFuel

  /** What the parser sees: the current lexeme, the peeked one, and the lexemes still to come. */
  datatype PState = PState(cur: Lexeme, peek: Lexeme, rest: seq<Lexeme>)

  /** `nextToken`: the peeked lexeme becomes current and the lexer hands out the next one. */
  function Advance(st: PState): PState {
    PState(st.peek, Head(st.rest), Tail(st.rest))
  }

  /** 1 for a lexeme other than EOF, 0 for EOF. */
  function Live(t: Lexeme): nat {
    if t.Type != EOF then 1 else 0
  }

  /** `New`: two calls of `nextToken` on a parser whose tokens are still the zero value. */
  function Start(stream: seq<Lexeme>): PState {
    Advance(Advance(PState(NoToken, NoToken, stream)))
  }

  type Parsed<T> = Result<(T, PState), ParseError>

  /** The prefix tokens `parseUnaryExpr` takes as the operator. */
  predicate IsPrefix(t: TokenType) {
    t.ADD? || t.SUBT? || t.NOT? || t.XOR? || t.AND?
  }

  /** The operator of a unary term without prefix: `+`. */
  const PlusToken: Lexeme := Lexeme(ADD, [0x2B])

  /** `parseUnaryExpr`. */
  function ParseUnary(st: PState): (r: (Expression, PState))
  {
    if IsPrefix(st.cur.Type) then (Unary(st.cur, st.peek), Advance(st))
    else (Unary(PlusToken, st.cur), st)
  }

  /**
   * The first loop of `parseParenExpr`: one count and one `nextToken` per
   * `(` under the cursor, remembering the last of them.
   */
  function OpenRun(st: PState, counter: int, lparen: Lexeme): (r: (int, Lexeme, PState))
    ensures r.2.cur.Type != LPAREN
    decreases |st.rest| + Live(st.peek) + Live(st.cur)
  {
    if st.cur.Type.LPAREN? then OpenRun(Advance(st), counter + 1, st.cur)
    else (counter, lparen, st)
  }

  /** The second loop of `parseParenExpr`: one uncount and one `nextToken` per peeked `)`. */
  function CloseRun(st: PState, counter: int): (r: (int, PState))
    ensures r.1.peek.Type != RPAREN
    decreases |st.rest| + Live(st.peek)
  {
    if st.peek.Type.RPAREN? then CloseRun(Advance(st), counter - 1)
    else (counter, st)
  }

  /** `parseParenExpr`. */
  function ParseParen(st: PState, fuel: nat): (r: Parsed<Expression>)
    decreases fuel, 3
  {
    var opens := OpenRun(st, 0, NoToken);
    var inner := ParseExpr(RPAREN, opens.2, fuel);
    if inner.Err? then Err(inner.error) else
    var (x, st1) := inner.value;
    var closes := CloseRun(st1, opens.0);
    if closes.0 - 1 > 0 then Err(ParenMismatch)
    else Ok((Paren(opens.1, x, closes.1.cur), closes.1))
  }

  /** `parseExpression`: the precedence engine for a parenthesis or an operator ahead, a unary term otherwise. */
  function ParseExpr(end: TokenType, st: PState, fuel: nat): (r: Parsed<Expression>)
    decreases fuel, 2
  {
    if st.cur.Type.LPAREN? || IsOperator(st.peek.Type) then ParseBinary(end, false, 0, st, fuel)
    else Ok(ParseUnary(st))
  }

  /** `parseBinaryExpr`: the loop below, from a zero node. */
  function ParseBinary(end: TokenType, rhs: bool, prec: int, st: PState, fuel: nat): (r: Parsed<Expression>)
    ensures r.Ok? ==> r.value.0.Binary?
    ensures r.Ok? ==> r.value.1.cur.Type == end || (rhs && Complete(r.value.0.Node))
    decreases fuel, 1
  {
    var r := BinaryLoop(end, rhs, prec, EmptyBinary, st, fuel);
    if r.Err? then Err(r.error) else Ok((Binary(r.value.0), r.value.1))
  }

  /**
   * The loop of `parseBinaryExpr` from node `e`: it ends when the current
   * lexeme is `end`, hands back a complete node at once in rhs mode, and
   * otherwise shifts a complete node left, takes one step, and moves on
   * unless the peek is EOF or an rhs-mode node just became complete.
   */
  function BinaryLoop(end: TokenType, rhs: bool, prec: int, e: BinaryExpression, st: PState, fuel: nat): (r: Parsed<BinaryExpression>)
    ensures r.Ok? ==> r.value.1.cur.Type == end || (rhs && Complete(r.value.0))
    decreases fuel, 0
  {
    if st.cur.Type == end then Ok((e, st))
    else if fuel == 0 then Err(OutOfFuel)
    else if rhs && Complete(e) then Ok((e, st))
    else
      var s := BinaryStep(end, rhs, prec, Prepared(e), st, fuel - 1);
      if s.Err? then Err(s.error) else
      var (e', st') := s.value;
      BinaryLoop(end, rhs, prec, e', StepOn(rhs, e', st'), fuel - 1)
  }

  /** A complete node is shifted into the left slot of a fresh one before the next step. */
  function Prepared(e: BinaryExpression): BinaryExpression {
    if Complete(e) then Shift(e) else e
  }

  /** After a step that left node `e`: past the current lexeme unless the peek is EOF or an rhs-mode node just became complete. */
  function StepOn(rhs: bool, e: BinaryExpression, st: PState): PState {
    if st.peek.Type != EOF && !(rhs && Complete(e)) then Advance(st) else st
  }

  /** One iteration of the loop of `parseBinaryExpr` that neither ends it nor hands back an rhs-mode node. */
  lemma BinaryLoopStep(end: TokenType, rhs: bool, prec: int, e: BinaryExpression, st: PState, fuel: nat)
    requires BinaryLoop(end, rhs, prec, e, st, fuel) != Err(OutOfFuel)
    requires st.cur.Type != end && !(rhs && Complete(e))
    ensures fuel > 0
    ensures var s := BinaryStep(end, rhs, prec, Prepared(e), st, fuel - 1);
      && s != Err(OutOfFuel)
      && (s.Err? ==> BinaryLoop(end, rhs, prec, e, st, fuel) == Err(s.error))
      && (s.Ok? ==>
            BinaryLoop(end, rhs, prec, e, st, fuel) == BinaryLoop(end, rhs, prec, s.value.0, StepOn(rhs, s.value.0, s.value.1), fuel - 1))
  {
  }

  /** A loop that stops at once hands back its node and state as they are. */
  lemma LoopEnds(end: TokenType, rhs: bool, prec: int, e: BinaryExpression, st: PState, fuel: nat)
    requires BinaryLoop(end, rhs, prec, e, st, fuel) != Err(OutOfFuel)
    requires st.cur.Type == end || (rhs && Complete(e))
    ensures BinaryLoop(end, rhs, prec, e, st, fuel) == Ok((e, st))
  {
  }

  /** `parseBinaryExpr` hands out the loop's node as a binary expression, or the loop's error. */
  lemma BinaryOutcome(end: TokenType, rhs: bool, prec: int, st: PState, fuel: nat)
    ensures var r := BinaryLoop(end, rhs, prec, EmptyBinary, st, fuel);
            && (r.Ok? ==> ParseBinary(end, rhs, prec, st, fuel) == Ok((Binary(r.value.0), r.value.1)))
            && (r.Err? ==> ParseBinary(end, rhs, prec, st, fuel) == Err(r.error))
  {
  }

  /** The `switch` of one loop iteration of `parseBinaryExpr`, in its case order. */
  function BinaryStep(end: TokenType, rhs: bool, prec: int, e: BinaryExpression, st: PState, fuel: nat): (r: Parsed<BinaryExpression>)
    decreases fuel, 4
  {
    if st.cur.Type.LPAREN? then
      var x := ParseParen(st, fuel);
      if x.Err? then Err(x.error) else Ok((AddSubnode(e, x.value.0), x.value.1))
    else if IsOperator(st.cur.Type) && !IsOperator(e.Operator.Type) then
      Ok((e.(Operator := st.cur), st))
    else if Empty(e) then
      var x := ParseUnary(st);
      Ok((AddSubnode(e, x.0), x.1))
    else if rhs && IsOperator(e.Operator.Type) && Precedence(st.peek.Type) > prec then
      var x := ParseUnary(st);
      Ok((Shift(AddSubnode(e, x.0)), x.1))
    else if IsOperator(e.Operator.Type) && Precedence(st.peek.Type) > Precedence(e.Operator.Type) then
      var x := ParseBinary(end, true, Precedence(e.Operator.Type), st, fuel);
      if x.Err? then Err(x.error) else Ok((AddSubnode(e, x.value.0), x.value.1))
    else
      var x := ParseUnary(st);
      Ok((AddSubnode(e, x.0), x.1))
  }

  /**
   * `parseLetStatement`: the identifier after `let` when there is one, then
   * `:=` (or the statement fails), then the expression up to `;`.
   */
  function ParseLet(st: PState, fuel: nat): (r: Parsed<LetStatement>)
  {
    var named := if st.peek.Type == IDENT then Advance(st) else st;
    var name := if st.peek.Type == IDENT then Some(Identifier(named.cur, named.cur.Literal)) else None;
    if named.peek.Type != ASSIGN then Err(InvalidLet)
    else
      var x := ParseExpr(SEMICOLON, Advance(Advance(named)), fuel);
      if x.Err? then Err(x.error) else Ok((LetStatement(st.cur, name, x.value.0), x.value.1))
  }

  /**
   * `parseStatement` with the scope it updates: a `let` is bound under its
   * name (a `let` without a name fails there), an expression statement
   * starts at `(` or an integer, and every other lexeme gives no statement.
   */
  function ParseStmt(st: PState, scope: Scope, fuel: nat): (r: Result<(Option<Statement>, Scope, PState), ParseError>)
  {
    if st.cur.Type == LET then
      var x := ParseLet(st, fuel);
      if x.Err? then Err(x.error) else
      var (stmt, st') := x.value;
      if stmt.Name.None? then Err(NilName)
      else Ok((Some(Let(stmt)), scope[stmt.Name.value.Value := stmt], st'))
    else if st.cur.Type.LPAREN? || st.cur.Type == INT then
      var x := ParseExpr(SEMICOLON, st, fuel);
      if x.Err? then Err(x.error) else Ok((Some(ExpressionStatement(st.cur, x.value.0)), scope, x.value.1))
    else Ok((None, scope, st))
  }

  /**
   * The loop of `ParseProgram` from state `st`, with the statements
   * collected so far: one statement and one `nextToken` per iteration, until
   * the current lexeme is EOF. The fuel bounds the number of iterations.
   */
  function ProgramLoop(st: PState, scope: Scope, stmts: seq<Statement>, fuel: nat): (r: Result<(seq<Statement>, Scope, PState), ParseError>)
    ensures r.Ok? ==> r.value.2.cur.Type == EOF
    decreases fuel
  {
    if st.cur.Type == EOF then Ok((stmts, scope, st))
    else if fuel == 0 then Err(OutOfFuel)
    else
      var s := ParseStmt(st, scope, fuel - 1);
      if s.Err? then Err(s.error) else
      var (stmt, scope', st') := s.value;
      ProgramLoop(Advance(st'), scope', Kept(stmts, stmt), fuel - 1)
  }

  /** The statements collected so far, with `s` appended when there is one. */
  function Kept(stmts: seq<Statement>, s: Option<Statement>): seq<Statement> {
    if s.Some? then stmts + [s.value] else stmts
  }

  /** One iteration of the loop of `ParseProgram`, for a loop that does not run out of fuel. */
  lemma ProgramLoopStep(st: PState, scope: Scope, stmts: seq<Statement>, fuel: nat)
    requires ProgramLoop(st, scope, stmts, fuel) != Err(OutOfFuel) && st.cur.Type != EOF
    ensures fuel > 0
    ensures var s := ParseStmt(st, scope, fuel - 1);
      && s != Err(OutOfFuel)
      && (s.Err? ==> ProgramLoop(st, scope, stmts, fuel) == Err(s.error))
      && (s.Ok? ==>
            ProgramLoop(st, scope, stmts, fuel) == ProgramLoop(Advance(s.value.2), s.value.1, Kept(stmts, s.value.0), fuel - 1))
  {
  }

  /** The outcome of the loop as `ParseProgram` hands it out: the statements wrapped in a program. */
  function ProgramResult(x: Result<(seq<Statement>, Scope, PState), ParseError>): Result<(Program, Scope, PState), ParseError> {
    match x
    case Ok(v) => Ok((Program(v.0), v.1, v.2))
    case Err(e) => Err(e)
  }

  /** A fresh parser over `input` running `ParseProgram`: the statements and the final scope. */
  function Parse(input: seq<byte>, fuel: nat): Result<(seq<Statement>, Scope), ParseError>
    requires StringsClosed(input, 0)
  {
    var x := ProgramLoop(Start(Stream(input, 0)), map[], [], fuel);
    if x.Err? then Err(x.error) else Ok((x.value.0, x.value.1))
  }

  /**
   * A method's outcome follows the reference definition: the same value and
   * the same resulting state on success, the same error on failure (where
   * the Go code panics and its state no longer matters).
   */
  predicate Agrees<T(==)>(r: Result<T, ParseError>, spec: Parsed<T>, st: PState) {
    match spec
    case Ok(v) => r == Ok(v.0) && st == v.1
    case Err(e) => r == Err(e)
  }

  /** `Agrees` for a result that also carries the scope. */
  predicate AgreesIn<T(==)>(r: Result<T, ParseError>, spec: Result<(T, Scope, PState), ParseError>, scope: Scope, st: PState) {
    match spec
    case Ok(v) => r == Ok(v.0) && scope == v.1 && st == v.2
    case Err(e) => r == Err(e)
  }
}
