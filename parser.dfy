/**
 * The parser object: the lexer it pulls lexemes from, the current and the
 * peeked lexeme, and the scope its `let` statements are bound in. Every
 * method is proved to follow the reference definition in `ParserSpec`.
 *
 * The expression methods take a ghost `fuel` only to bound their recursion;
 * they require that the reference definition does not run out of it, which
 * is to say that the Go code's procedure stops on that input.
 */
module Parsing {
  import opened Wrappers
  import opened Token
  import opened Lex
  import opened LexProps
  import opened Ast
  import opened ParserSpec

  class Parser {
    const l: Lexer
    var curToken: Lexeme
    var peekToken: Lexeme
    var topScope: Scope
    /** The lexemes the lexer has yet to hand out. */
    ghost var rest: seq<Lexeme>

    /**
     * The lexer is in a valid state, every string ahead of it is closed, and
     * `rest` is the stream from the lexer's position. That last conjunct is
     * written as a quantifier over the one position `k == l.position` on
     * purpose: `Stream` is recursive, and in this form the verifier expands
     * it only where a proof mentions `Stream` at that position, not every
     * time `Valid()` is unfolded.
     */
    ghost predicate Valid()
      reads this, l
    {
      l.Valid() && StringsClosed(l.input, l.position) && forall k: nat | k == l.position :: rest == Stream(l.input, k)
    }

    /** The parser's state as the reference definition sees it. */
    ghost function State(): PState
      reads this
    {
      PState(curToken, peekToken, rest)
    }

    /** `New`: an empty scope and the first two lexemes pulled. */
    constructor (l: Lexer)
      requires l.Valid() && StringsClosed(l.input, l.position)
      modifies l
      ensures this.l == l && Valid()
      ensures State() == Start(Stream(l.input, old(l.position))) && topScope == map[]
    {
      this.l := l;
      curToken, peekToken := NoToken, NoToken;
      topScope := map[];
      rest := Stream(l.input, l.position);
      new;
      assert forall k: nat | k == l.position :: rest == Stream(l.input, k);
      NextToken();
      NextToken();
    }

    method NextToken()
      requires Valid()
      modifies this, l
      ensures Valid() && State() == Advance(old(State())) && topScope == old(topScope)
    {
      assert rest == Stream(l.input, l.position);
      StreamStep(l.input, l.position);
      curToken := peekToken;
      peekToken := l.NextToken();
      rest := Tail(rest);
    }

    function TokenIs(t: TokenType): bool
      reads this
    {
      curToken.Type == t
    }

    function PeekTokenIs(t: TokenType): bool
      reads this
    {
      peekToken.Type == t
    }

    function PeekPrecedence(): int
      reads this
    {
      Precedence(peekToken.Type)
    }

    method ParseUnaryExpr() returns (x: Expression)
      requires Valid()
      modifies this, l
      ensures Valid() && (x, State()) == ParseUnary(old(State())) && topScope == old(topScope)
    {
      var operator := PlusToken;
      if IsPrefix(curToken.Type) {
        operator := curToken;
        NextToken();
      }
      x := Unary(operator, curToken);
    }

    /** The first loop of `parseParenExpr`: count the `(` under the cursor and step past them. */
    method OpenParens() returns (count: int, lparen: Lexeme)
      requires Valid()
      modifies this, l
      ensures Valid() && topScope == old(topScope)
      ensures (count, lparen, State()) == OpenRun(old(State()), 0, NoToken)
    {
      count, lparen := 0, NoToken;
      while TokenIs(LPAREN)
        invariant Valid() && topScope == old(topScope)
        invariant OpenRun(State(), count, lparen) == OpenRun(old(State()), 0, NoToken)
        decreases |rest| + Live(peekToken) + Live(curToken)
      {
        count := count + 1;
        lparen := curToken;
        NextToken();
      }
    }

    /** The second loop of `parseParenExpr`: uncount each peeked `)` and step onto it. */
    method CloseParens(counter: int) returns (count: int)
      requires Valid()
      modifies this, l
      ensures Valid() && topScope == old(topScope)
      ensures (count, State()) == CloseRun(old(State()), counter)
    {
      count := counter;
      while PeekTokenIs(RPAREN)
        invariant Valid() && topScope == old(topScope)
        invariant CloseRun(State(), count) == CloseRun(old(State()), counter)
        decreases |rest| + Live(peekToken)
      {
        count := count - 1;
        NextToken();
      }
    }

    method ParseParenExpr(ghost fuel: nat) returns (r: Result<Expression, ParseError>)
      requires Valid() && ParseParen(State(), fuel) != Err(OutOfFuel)
      modifies this, l
      ensures Valid() && topScope == old(topScope)
      ensures Agrees(r, ParseParen(old(State()), fuel), State())
      decreases fuel, 3
    {
      var parenCounter, lparen := OpenParens();
      var inner := ParseExpression(RPAREN, fuel);
      if inner.Err? {
        return Err(inner.error);
      }
      parenCounter := CloseParens(parenCounter);
      var rparen := curToken;
      parenCounter := parenCounter - 1;
      if parenCounter > 0 {
        return Err(ParenMismatch);
      }
      r := Ok(Paren(lparen, inner.value, rparen));
    }

    method ParseBinaryExpr(end: TokenType, rhs: bool, prec: int, ghost fuel: nat) returns (r: Result<Expression, ParseError>)
      requires Valid() && ParseBinary(end, rhs, prec, State(), fuel) != Err(OutOfFuel)
      modifies this, l
      ensures Valid() && topScope == old(topScope)
      ensures var spec := ParseBinary(end, rhs, prec, old(State()), fuel);
              (spec.Ok? ==> r == Ok(spec.value.0) && State() == spec.value.1) && (spec.Err? ==> r == Err(spec.error))
      decreases fuel, 1
    {
      var expression := EmptyBinary;
      ghost var f: nat := fuel;
      ghost var start := State();
      ghost var goal := BinaryLoop(end, rhs, prec, EmptyBinary, start, fuel);
      while !TokenIs(end)
        invariant Valid() && topScope == old(topScope) && f <= fuel
        invariant BinaryLoop(end, rhs, prec, expression, State(), f) == goal
        decreases f
      {
        if rhs && Complete(expression) {
          LoopEnds(end, rhs, prec, expression, State(), f);
          BinaryOutcome(end, rhs, prec, start, fuel);
          return Ok(Binary(expression));
        }
        var x := BinaryIteration(end, rhs, prec, expression, f, goal);
        if x.Err? {
          BinaryOutcome(end, rhs, prec, start, fuel);
          return Err(x.error);
        }
        expression, f := x.value, f - 1;
      }
      LoopEnds(end, rhs, prec, expression, State(), f);
      BinaryOutcome(end, rhs, prec, start, fuel);
      r := Ok(Binary(expression));
    }

    /**
     * The body of the loop of `parseBinaryExpr` past its rhs-mode exit:
     * shift a complete node left, take one step, and move on.
     */
    method BinaryIteration(end: TokenType, rhs: bool, prec: int, e: BinaryExpression, ghost n: nat, ghost goal: Parsed<BinaryExpression>)
      returns (r: Result<BinaryExpression, ParseError>)
      requires Valid() && curToken.Type != end && !(rhs && Complete(e))
      requires BinaryLoop(end, rhs, prec, e, State(), n) == goal != Err(OutOfFuel)
      modifies this, l
      ensures Valid() && topScope == old(topScope) && n > 0
      ensures r.Err? ==> goal == Err(r.error)
      ensures r.Ok? ==> BinaryLoop(end, rhs, prec, r.value, State(), n - 1) == goal
      decreases n, 0
    {
      BinaryLoopStep(end, rhs, prec, e, State(), n);
      var expression := e;
      if Complete(expression) {
        expression := Shift(expression);
      }
      r := ParseBinaryCase(end, rhs, prec, expression, n - 1);
      if r.Ok? {
        MoveOn(rhs, r.value);
      }
    }

    /** The `nextToken` at the end of the loop body of `parseBinaryExpr`, skipped at EOF and after an rhs-mode node completes. */
    method MoveOn(rhs: bool, e: BinaryExpression)
      requires Valid()
      modifies this, l
      ensures Valid() && topScope == old(topScope) && State() == StepOn(rhs, e, old(State()))
    {
      if !PeekTokenIs(EOF) && !(rhs && Complete(e)) {
        NextToken();
      }
    }

    /** The `switch` in the loop of `parseBinaryExpr`: one step on node `e`. */
    method ParseBinaryCase(end: TokenType, rhs: bool, prec: int, e: BinaryExpression, ghost fuel: nat)
      returns (r: Result<BinaryExpression, ParseError>)
      requires Valid() && BinaryStep(end, rhs, prec, e, State(), fuel) != Err(OutOfFuel)
      modifies this, l
      ensures Valid() && topScope == old(topScope)
      ensures Agrees(r, BinaryStep(end, rhs, prec, e, old(State()), fuel), State())
      decreases fuel, 4
    {
      var expression := e;
      if TokenIs(LPAREN) {
        var x := ParseParenExpr(fuel);
        if x.Err? {
          return Err(x.error);
        }
        expression := AddSubnode(expression, x.value);
      } else if IsOperator(curToken.Type) && !IsOperator(expression.Operator.Type) {
        expression := expression.(Operator := curToken);
      } else if Empty(expression) {
        var x := ParseUnaryExpr();
        expression := AddSubnode(expression, x);
      } else if rhs && IsOperator(expression.Operator.Type) && PeekPrecedence() > prec {
        var x := ParseUnaryExpr();
        expression := AddSubnode(expression, x);
        expression := Shift(expression);
      } else if IsOperator(expression.Operator.Type) && PeekPrecedence() > Precedence(expression.Operator.Type) {
        var x := ParseBinaryExpr(end, true, Precedence(expression.Operator.Type), fuel);
        if x.Err? {
          return Err(x.error);
        }
        expression := AddSubnode(expression, x.value);
      } else {
        var x := ParseUnaryExpr();
        expression := AddSubnode(expression, x);
      }
      r := Ok(expression);
    }

    method ParseExpression(end: TokenType, ghost fuel: nat) returns (r: Result<Expression, ParseError>)
      requires Valid() && ParseExpr(end, State(), fuel) != Err(OutOfFuel)
      modifies this, l
      ensures Valid() && topScope == old(topScope)
      ensures Agrees(r, ParseExpr(end, old(State()), fuel), State())
      decreases fuel, 2
    {
      if TokenIs(LPAREN) || IsOperator(peekToken.Type) {
        r := ParseBinaryExpr(end, false, 0, fuel);
      } else {
        var x := ParseUnaryExpr();
        r := Ok(x);
      }
    }

    method ParseLetStatement(ghost fuel: nat) returns (r: Result<LetStatement, ParseError>)
      requires Valid() && ParseLet(State(), fuel) != Err(OutOfFuel)
      modifies this, l
      ensures Valid() && topScope == old(topScope)
      ensures Agrees(r, ParseLet(old(State()), fuel), State())
    {
      var token := curToken;
      var name := None;
      if PeekTokenIs(IDENT) {
        NextToken();
        name := Some(Identifier(curToken, curToken.Literal));
      }
      if !PeekTokenIs(ASSIGN) {
        return Err(InvalidLet);
      }
      NextToken();
      NextToken();
      var x := ParseExpression(SEMICOLON, fuel);
      if x.Err? {
        return Err(x.error);
      }
      r := Ok(LetStatement(token, name, x.value));
    }

    method ParseStatement(ghost fuel: nat) returns (r: Result<Option<Statement>, ParseError>)
      requires Valid() && ParseStmt(State(), topScope, fuel) != Err(OutOfFuel)
      modifies this, l
      ensures Valid()
      ensures var spec := ParseStmt(old(State()), old(topScope), fuel);
              (spec.Ok? ==> r == Ok(spec.value.0) && topScope == spec.value.1 && State() == spec.value.2) &&
              (spec.Err? ==> r == Err(spec.error))
    {
      if curToken.Type == CONST {
        r := Ok(None);
      } else if curToken.Type == LET {
        var stmt := ParseLetStatement(fuel);
        if stmt.Err? {
          return Err(stmt.error);
        }
        if stmt.value.Name.None? {
          return Err(NilName);
        }
        topScope := topScope[stmt.value.Name.value.Value := stmt.value];
        r := Ok(Some(Let(stmt.value)));
      } else if curToken.Type == RETURN {
        r := Ok(None);
      } else if curToken.Type == LPAREN || curToken.Type == INT {
        var start := curToken;
        var expression := ParseExpression(SEMICOLON, fuel);
        if expression.Err? {
          return Err(expression.error);
        }
        r := Ok(Some(ExpressionStatement(start, expression.value)));
      } else {
        r := Ok(None);
      }
    }

    /**
     * One iteration of the loop of `ParseProgram`: a statement, kept when
     * there is one, and a `nextToken`.
     */
    method ProgramStep(stmts: seq<Statement>, ghost n: nat) returns (r: Result<seq<Statement>, ParseError>)
      requires Valid() && curToken.Type != EOF && ProgramLoop(State(), topScope, stmts, n) != Err(OutOfFuel)
      modifies this, l
      ensures Valid() && n > 0
      ensures r.Err? ==> ProgramLoop(old(State()), old(topScope), stmts, n) == Err(r.error)
      ensures r.Ok? ==> ProgramLoop(State(), topScope, r.value, n - 1) == ProgramLoop(old(State()), old(topScope), stmts, n)
    {
      ProgramLoopStep(State(), topScope, stmts, n);
      var stmt := ParseStatement(n - 1);
      if stmt.Err? {
        return Err(stmt.error);
      }
      NextToken();
      r := Ok(if stmt.value.Some? then stmts + [stmt.value.value] else stmts);
    }

    method ParseProgram(ghost fuel: nat) returns (r: Result<Program, ParseError>)
      requires Valid() && ProgramLoop(State(), topScope, [], fuel) != Err(OutOfFuel)
      modifies this, l
      ensures Valid()
      ensures AgreesIn(r, ProgramResult(ProgramLoop(old(State()), old(topScope), [], fuel)), topScope, State())
    {
      var statements: seq<Statement> := [];
      ghost var f: nat := fuel;
      ghost var goal := ProgramLoop(State(), topScope, [], fuel);
      while curToken.Type != EOF
        invariant Valid()
        invariant ProgramLoop(State(), topScope, statements, f) == goal
        decreases f
      {
        var x := ProgramStep(statements, f);
        if x.Err? {
          return Err(x.error);
        }
        statements := x.value;
        f := f - 1;
      }
      assert goal == Ok((statements, topScope, State()));
      r := Ok(Program(statements));
    }
  }
}
