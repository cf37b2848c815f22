/**
 * Properties of the reference definition of the parser: what `New` and
 * `nextToken` pull from the lexer, the shapes of unary and parenthesised
 * terms, where the expression engine leaves the cursor, the failures of
 * `let`, and the statements and scope `ParseProgram` collects.
 */
module ParserProps {
  import opened Wrappers
  import opened Token
  import opened Lex
  import opened LexProps
  import opened Ast
  import opened ParserSpec

  /* ---------------------------------------------------------------- */
  /* The token source                                                  */
  /* ---------------------------------------------------------------- */

  /**
   * `New` leaves the first lexeme of the input current and the second one
   * peeked, and the rest of the stream still to come.
   */
  lemma StartTakesTwo(input: seq<byte>, p: nat)
    requires StringsClosed(input, p)
    ensures var first := Scan(input, p);
            StringsClosed(input, first.1) &&
            var second := Scan(input, first.1);
            StringsClosed(input, second.1) &&
            Start(Stream(input, p)) == PState(first.0, second.0, Stream(input, second.1))
  {
    StreamStep(input, p);
    StreamStep(input, Scan(input, p).1);
  }

  /** `nextToken` on a state drawn from the lexer: the peek becomes current and the next `NextToken` call is peeked. */
  lemma AdvancePullsOne(input: seq<byte>, p: nat, cur: Lexeme, peek: Lexeme)
    requires StringsClosed(input, p)
    ensures var next := Scan(input, p);
            StringsClosed(input, next.1) &&
            Advance(PState(cur, peek, Stream(input, p))) == PState(peek, next.0, Stream(input, next.1))
  {
    StreamStep(input, p);
  }

  /* ---------------------------------------------------------------- */
  /* Unary terms and the choice of `parseExpression`                   */
  /* ---------------------------------------------------------------- */

  /**
   * A unary term's operand is the lexeme left current: after a prefix
   * operator the cursor has moved once onto the operand, and without one
   * the operator is `+` and the cursor has not moved.
   */
  lemma UnaryOperand(st: PState)
    ensures var (x, st') := ParseUnary(st);
            x.Unary? && x.Operand == st'.cur &&
            (IsPrefix(st.cur.Type) <==> x.Operator == st.cur && st' == Advance(st) && IsPrefix(x.Operator.Type)) &&
            (!IsPrefix(st.cur.Type) <==> x.Operator == PlusToken && st' == st)
  {
  }

  /**
   * `parseExpression` hands back a single unary term exactly when the
   * current lexeme is not `(` and the peeked one is not an operator, and a
   * binary node otherwise.
   */
  lemma ExprIsUnaryUnlessOperator(end: TokenType, st: PState, fuel: nat)
    ensures var r := ParseExpr(end, st, fuel);
            var single := st.cur.Type != LPAREN && !IsOperator(st.peek.Type);
            (single ==> r == Ok(ParseUnary(st))) &&
            (!single ==> r.Ok? ==> r.value.0.Binary? && r.value.1.cur.Type == end)
  {
  }

  /* ---------------------------------------------------------------- */
  /* Parentheses                                                       */
  /* ---------------------------------------------------------------- */

  /** The number of `(` under the cursor, one after the other. */
  function OpensAhead(st: PState): nat
    decreases |st.rest| + Live(st.peek) + Live(st.cur)
  {
    if st.cur.Type == LPAREN then 1 + OpensAhead(Advance(st)) else 0
  }

  /** The number of `)` that `nextToken` would bring into the peek, one after the other. */
  function ClosesAhead(st: PState): nat
    decreases |st.rest| + Live(st.peek)
  {
    if st.peek.Type == RPAREN then 1 + ClosesAhead(Advance(st)) else 0
  }

  /** The state after `n` calls of `nextToken`. */
  function AdvanceN(st: PState, n: nat): PState
    decreases n
  {
    if n == 0 then st else AdvanceN(Advance(st), n - 1)
  }

  /**
   * The first loop of `parseParenExpr` counts every leading `(`, calls
   * `nextToken` once for each, and remembers the last of them: the one
   * current before the final call.
   */
  lemma {:induction false} OpenRunCounts(st: PState, counter: int, lparen: Lexeme)
    ensures var r := OpenRun(st, counter, lparen);
            && r.0 == counter + OpensAhead(st)
            && r.2 == AdvanceN(st, OpensAhead(st))
            && (OpensAhead(st) > 0 ==> r.1 == AdvanceN(st, OpensAhead(st) - 1).cur && r.1.Type == LPAREN)
            && (OpensAhead(st) == 0 ==> r == (counter, lparen, st))
    decreases |st.rest| + Live(st.peek) + Live(st.cur)
  {
    if st.cur.Type == LPAREN {
      OpenRunCounts(Advance(st), counter + 1, st.cur);
    }
  }

  /** The second loop of `parseParenExpr` uncounts every peeked `)`. */
  lemma {:induction false} CloseRunCounts(st: PState, counter: int)
    ensures CloseRun(st, counter).0 == counter - ClosesAhead(st)
    decreases |st.rest| + Live(st.peek)
  {
    if st.peek.Type == RPAREN {
      CloseRunCounts(Advance(st), counter - 1);
    }
  }

  /**
   * The verdict of `parseParenExpr`: once the inner expression is parsed,
   * it fails exactly when the leading `(` outnumber the `)` peeked after
   * the inner expression by more than one. The inner expression is parsed
   * from just past the leading `(`. On success the left parenthesis is the
   * last leading `(` (the zero token when there is none) and the right one
   * is whatever lexeme is current at the end, which the node records and
   * the cursor stays on.
   */
  lemma ParenVerdict(st: PState, fuel: nat)
    ensures var opens := OpenRun(st, 0, NoToken);
            var inner := ParseExpr(RPAREN, opens.2, fuel);
            var r := ParseParen(st, fuel);
            opens.2 == AdvanceN(st, OpensAhead(st)) &&
            (inner.Err? ==> r == Err(inner.error)) &&
            (inner.Ok? ==>
               (r.Err? <==> OpensAhead(st) > ClosesAhead(inner.value.1) + 1) &&
               (r.Err? ==> r.error == ParenMismatch) &&
               (r.Ok? ==> r.value.0.Paren? && r.value.0.Inner == inner.value.0 &&
                          r.value.0.Rparen == r.value.1.cur && r.value.1.peek.Type != RPAREN &&
                          (OpensAhead(st) > 0 ==> r.value.0.Lparen == AdvanceN(st, OpensAhead(st) - 1).cur) &&
                          (OpensAhead(st) == 0 ==> r.value.0.Lparen == NoToken)))
  {
    var opens := OpenRun(st, 0, NoToken);
    OpenRunCounts(st, 0, NoToken);
    var inner := ParseExpr(RPAREN, opens.2, fuel);
    if inner.Ok? {
      CloseRunCounts(inner.value.1, opens.0);
    }
  }

  const One: Lexeme := Lexeme(INT, [0x31])
  const Two: Lexeme := Lexeme(INT, [0x32])
  const Three: Lexeme := Lexeme(INT, [0x33])
  const Plus: Lexeme := Lexeme(ADD, [0x2B])
  const Times: Lexeme := Lexeme(MULT, [0x2A])
  const Semi: Lexeme := Lexeme(SEMICOLON, [0x3B])
  const Open: Lexeme := Lexeme(LPAREN, [0x28])

  /** The unary term of a bare operand. */
  function Term(t: Lexeme): Expression {
    Unary(PlusToken, t)
  }

  /**
   * `(1;` is accepted: one leading `(` and no `)` leave the counter at 1,
   * the final decrement brings it to 0, and the node's right parenthesis is
   * the `1` the cursor stays on.
   */
  lemma UnclosedParenAccepted(fuel: nat)
    ensures ParseParen(PState(Open, One, [Semi]), fuel) == Ok((Paren(Open, Term(One), One), PState(One, Semi, [])))
  {
    var st := PState(Open, One, [Semi]);
    assert OpenRun(st, 0, NoToken) == (1, Open, PState(One, Semi, []));
    assert CloseRun(PState(One, Semi, []), 1) == (1, PState(One, Semi, []));
  }

  const Close: Lexeme := Lexeme(RPAREN, [0x29])

  /**
   * `((1));` is accepted: two leading `(`, the term `1`, and two peeked `)`
   * bring the counter to 0 before the final decrement; the cursor ends on
   * the last `)`, which the node records.
   */
  lemma DoubleParenAccepted(fuel: nat)
    ensures ParseParen(PState(Open, Open, [One, Close, Close, Semi]), fuel) ==
            Ok((Paren(Open, Term(One), Close), PState(Close, Semi, [])))
  {
    var st := PState(Open, Open, [One, Close, Close, Semi]);
    var atOne := PState(One, Close, [Close, Semi]);
    assert OpenRun(PState(Open, One, [Close, Close, Semi]), 1, Open) == (2, Open, atOne);
    assert OpenRun(st, 0, NoToken) == (2, Open, atOne);
    assert ParseExpr(RPAREN, atOne, fuel) == Ok((Term(One), atOne));
    assert CloseRun(PState(Close, Close, [Semi]), 1) == (0, PState(Close, Semi, []));
    assert CloseRun(atOne, 2) == (0, PState(Close, Semi, []));
  }

  /* ---------------------------------------------------------------- */
  /* The precedence engine                                             */
  /* ---------------------------------------------------------------- */

  /**
   * A binary parse at top level ends on the end lexeme; in rhs mode it ends
   * there or on a complete node.
   */
  lemma BinaryEndsAtEnd(end: TokenType, rhs: bool, prec: int, st: PState, fuel: nat)
    ensures var r := ParseBinary(end, rhs, prec, st, fuel);
            r.Ok? ==> r.value.0.Binary? && (r.value.1.cur.Type == end || (rhs && Complete(r.value.0.Node))) &&
                      (!rhs ==> r.value.1.cur.Type == end)
  {
  }

  /** The errors the expression engine can report: a parenthesis mismatch, or spent fuel. */
  predicate ExprError(e: ParseError) {
    e == ParenMismatch || e == OutOfFuel
  }

  lemma {:induction false} ParenErrors(st: PState, fuel: nat)
    ensures ParseParen(st, fuel).Err? ==> ExprError(ParseParen(st, fuel).error)
    decreases fuel, 4
  {
    ExprErrors(RPAREN, OpenRun(st, 0, NoToken).2, fuel);
  }

  /** `parseExpression` never fails the way a statement does: neither an invalid `let` nor a missing name. */
  lemma {:induction false} ExprErrors(end: TokenType, st: PState, fuel: nat)
    ensures ParseExpr(end, st, fuel).Err? ==> ExprError(ParseExpr(end, st, fuel).error)
    decreases fuel, 3
  {
    if st.cur.Type == LPAREN || IsOperator(st.peek.Type) {
      BinaryErrors(end, false, 0, st, fuel);
    }
  }

  lemma {:induction false} BinaryErrors(end: TokenType, rhs: bool, prec: int, st: PState, fuel: nat)
    ensures ParseBinary(end, rhs, prec, st, fuel).Err? ==> ExprError(ParseBinary(end, rhs, prec, st, fuel).error)
    decreases fuel, 2
  {
    LoopErrors(end, rhs, prec, EmptyBinary, st, fuel);
  }

  lemma {:induction false} LoopErrors(end: TokenType, rhs: bool, prec: int, e: BinaryExpression, st: PState, fuel: nat)
    ensures BinaryLoop(end, rhs, prec, e, st, fuel).Err? ==> ExprError(BinaryLoop(end, rhs, prec, e, st, fuel).error)
    decreases fuel, 1
  {
    if st.cur.Type == end || fuel == 0 || (rhs && Complete(e)) {
      LoopStopsOrStarves(end, rhs, prec, e, st, fuel);
    } else {
      var e', st', goesOn := LoopErrorStep(end, rhs, prec, e, st, fuel);
      if goesOn {
        LoopErrors(end, rhs, prec, e', st', fuel - 1);
      }
    }
  }

  /** A loop that does not take its first iteration fails only for want of fuel. */
  lemma LoopStopsOrStarves(end: TokenType, rhs: bool, prec: int, e: BinaryExpression, st: PState, fuel: nat)
    requires st.cur.Type == end || fuel == 0 || (rhs && Complete(e))
    ensures BinaryLoop(end, rhs, prec, e, st, fuel).Err? ==> BinaryLoop(end, rhs, prec, e, st, fuel) == Err(OutOfFuel)
  {
  }

  /** One loop iteration: it fails with an expression error, or the loop goes on from the node and state it leaves. */
  lemma {:induction false} LoopErrorStep(end: TokenType, rhs: bool, prec: int, e: BinaryExpression, st: PState, fuel: nat)
    returns (e': BinaryExpression, st': PState, goesOn: bool)
    requires st.cur.Type != end && fuel > 0 && !(rhs && Complete(e))
    ensures goesOn ==> BinaryLoop(end, rhs, prec, e, st, fuel) == BinaryLoop(end, rhs, prec, e', st', fuel - 1)
    ensures !goesOn ==> BinaryLoop(end, rhs, prec, e, st, fuel).Err? && ExprError(BinaryLoop(end, rhs, prec, e, st, fuel).error)
    decreases fuel, 0
  {
    StepErrors(end, rhs, prec, Prepared(e), st, fuel - 1);
    var s := BinaryStep(end, rhs, prec, Prepared(e), st, fuel - 1);
    if s.Ok? {
      e', st', goesOn := s.value.0, StepOn(rhs, s.value.0, s.value.1), true;
    } else {
      e', st', goesOn := e, st, false;
    }
  }

  lemma {:induction false} StepErrors(end: TokenType, rhs: bool, prec: int, e: BinaryExpression, st: PState, fuel: nat)
    ensures BinaryStep(end, rhs, prec, e, st, fuel).Err? ==> ExprError(BinaryStep(end, rhs, prec, e, st, fuel).error)
    decreases fuel, 5
  {
    if st.cur.Type == LPAREN {
      ParenErrors(st, fuel);
    } else {
      BinaryErrors(end, true, Precedence(e.Operator.Type), st, fuel);
    }
  }

  /*
   * Fuel only bounds the recursion: once an expression parse does not run
   * out of it, any larger bound gives the same outcome.
   */

  lemma {:induction false} ParenFuel(st: PState, fuel: nat, more: nat)
    requires ParseParen(st, fuel) != Err(OutOfFuel) && fuel <= more
    ensures ParseParen(st, more) == ParseParen(st, fuel)
    decreases fuel, 4
  {
    ExprFuel(RPAREN, OpenRun(st, 0, NoToken).2, fuel, more);
  }

  lemma {:induction false} ExprFuel(end: TokenType, st: PState, fuel: nat, more: nat)
    requires ParseExpr(end, st, fuel) != Err(OutOfFuel) && fuel <= more
    ensures ParseExpr(end, st, more) == ParseExpr(end, st, fuel)
    decreases fuel, 3
  {
    if st.cur.Type == LPAREN || IsOperator(st.peek.Type) {
      BinaryFuel(end, false, 0, st, fuel, more);
    }
  }

  lemma {:induction false} BinaryFuel(end: TokenType, rhs: bool, prec: int, st: PState, fuel: nat, more: nat)
    requires ParseBinary(end, rhs, prec, st, fuel) != Err(OutOfFuel) && fuel <= more
    ensures ParseBinary(end, rhs, prec, st, more) == ParseBinary(end, rhs, prec, st, fuel)
    decreases fuel, 2
  {
    LoopFuel(end, rhs, prec, EmptyBinary, st, fuel, more);
  }

  lemma {:induction false} LoopFuel(end: TokenType, rhs: bool, prec: int, e: BinaryExpression, st: PState, fuel: nat, more: nat)
    requires BinaryLoop(end, rhs, prec, e, st, fuel) != Err(OutOfFuel) && fuel <= more
    ensures BinaryLoop(end, rhs, prec, e, st, more) == BinaryLoop(end, rhs, prec, e, st, fuel)
    decreases fuel, 1
  {
    if st.cur.Type == end || (rhs && Complete(e)) {
      LoopStops(end, rhs, prec, e, st, fuel, more);
    } else {
      var e', st', goesOn := LoopFuelStep(end, rhs, prec, e, st, fuel, more);
      if goesOn {
        LoopFuel(end, rhs, prec, e', st', fuel - 1, more - 1);
      }
    }
  }

  /** A loop that stops before its first iteration stops under any larger bound too. */
  lemma LoopStops(end: TokenType, rhs: bool, prec: int, e: BinaryExpression, st: PState, fuel: nat, more: nat)
    requires BinaryLoop(end, rhs, prec, e, st, fuel) != Err(OutOfFuel) && fuel <= more
    requires st.cur.Type == end || (rhs && Complete(e))
    ensures BinaryLoop(end, rhs, prec, e, st, more) == BinaryLoop(end, rhs, prec, e, st, fuel) == Ok((e, st))
  {
  }

  /** An iteration under both bounds: it fails with the same error, or leaves the same node and state to go on from. */
  lemma {:induction false} LoopFuelStep(end: TokenType, rhs: bool, prec: int, e: BinaryExpression, st: PState, fuel: nat, more: nat)
    returns (e': BinaryExpression, st': PState, goesOn: bool)
    requires BinaryLoop(end, rhs, prec, e, st, fuel) != Err(OutOfFuel) && fuel <= more
    requires st.cur.Type != end && !(rhs && Complete(e))
    ensures 0 < fuel
    ensures goesOn ==> BinaryLoop(end, rhs, prec, e', st', fuel - 1) == BinaryLoop(end, rhs, prec, e, st, fuel)
    ensures goesOn ==> BinaryLoop(end, rhs, prec, e', st', more - 1) == BinaryLoop(end, rhs, prec, e, st, more)
    ensures !goesOn ==> BinaryLoop(end, rhs, prec, e, st, more) == BinaryLoop(end, rhs, prec, e, st, fuel)
    decreases fuel, 0
  {
    BinaryLoopStep(end, rhs, prec, e, st, fuel);
    StepFuel(end, rhs, prec, Prepared(e), st, fuel - 1, more - 1);
    LoopUnfold(end, rhs, prec, e, st, more);
    var s := BinaryStep(end, rhs, prec, Prepared(e), st, fuel - 1);
    e', st', goesOn := e, st, s.Ok?;
    if s.Ok? {
      e', st' := s.value.0, StepOn(rhs, s.value.0, s.value.1);
    }
  }

  /** One iteration of a loop that neither ends nor runs out of fuel at once. */
  lemma LoopUnfold(end: TokenType, rhs: bool, prec: int, e: BinaryExpression, st: PState, fuel: nat)
    requires st.cur.Type != end && fuel > 0 && !(rhs && Complete(e))
    ensures var s := BinaryStep(end, rhs, prec, Prepared(e), st, fuel - 1);
            BinaryLoop(end, rhs, prec, e, st, fuel) ==
            if s.Err? then Err(s.error) else BinaryLoop(end, rhs, prec, s.value.0, StepOn(rhs, s.value.0, s.value.1), fuel - 1)
  {
  }

  lemma {:induction false} StepFuel(end: TokenType, rhs: bool, prec: int, e: BinaryExpression, st: PState, fuel: nat, more: nat)
    requires BinaryStep(end, rhs, prec, e, st, fuel) != Err(OutOfFuel) && fuel <= more
    ensures BinaryStep(end, rhs, prec, e, st, more) == BinaryStep(end, rhs, prec, e, st, fuel)
    decreases fuel, 6
  {
    if st.cur.Type == LPAREN {
      StepParenFuel(end, rhs, prec, e, st, fuel, more);
    } else if NestsAt(rhs, prec, e, st) {
      StepNestedFuel(end, rhs, prec, e, st, fuel, more);
    } else {
      StepFlatFuel(end, rhs, prec, e, st, fuel, more);
    }
  }

  /** The case of the loop `switch` that parses an rhs-mode subexpression. */
  predicate NestsAt(rhs: bool, prec: int, e: BinaryExpression, st: PState) {
    && !(IsOperator(st.cur.Type) && !IsOperator(e.Operator.Type))
    && !Empty(e)
    && !(rhs && IsOperator(e.Operator.Type) && Precedence(st.peek.Type) > prec)
    && IsOperator(e.Operator.Type) && Precedence(st.peek.Type) > Precedence(e.Operator.Type)
  }

  lemma {:induction false} StepParenFuel(end: TokenType, rhs: bool, prec: int, e: BinaryExpression, st: PState, fuel: nat, more: nat)
    requires BinaryStep(end, rhs, prec, e, st, fuel) != Err(OutOfFuel) && fuel <= more && st.cur.Type == LPAREN
    ensures BinaryStep(end, rhs, prec, e, st, more) == BinaryStep(end, rhs, prec, e, st, fuel)
    decreases fuel, 5
  {
    ParenFuel(st, fuel, more);
  }

  lemma {:induction false} StepNestedFuel(end: TokenType, rhs: bool, prec: int, e: BinaryExpression, st: PState, fuel: nat, more: nat)
    requires BinaryStep(end, rhs, prec, e, st, fuel) != Err(OutOfFuel) && fuel <= more
    requires st.cur.Type != LPAREN && NestsAt(rhs, prec, e, st)
    ensures BinaryStep(end, rhs, prec, e, st, more) == BinaryStep(end, rhs, prec, e, st, fuel)
    decreases fuel, 5
  {
    BinaryFuel(end, true, Precedence(e.Operator.Type), st, fuel, more);
  }

  /** The cases of the loop `switch` that do not recurse do not look at the fuel. */
  lemma StepFlatFuel(end: TokenType, rhs: bool, prec: int, e: BinaryExpression, st: PState, fuel: nat, more: nat)
    requires st.cur.Type != LPAREN && !NestsAt(rhs, prec, e, st)
    ensures BinaryStep(end, rhs, prec, e, st, more) == BinaryStep(end, rhs, prec, e, st, fuel)
  {
  }

  /**
   * One loop iteration that takes a unary term (the `emptyNode` or the
   * `default` case): any lexeme other than `(` that is not an operator
   * arriving at a node without one. A lexeme that is not a prefix operator
   * is the operand itself, and the cursor stays on it until the step moves on.
   */
  lemma LoopOperand(end: TokenType, rhs: bool, prec: int, e: BinaryExpression, st: PState, fuel: nat)
    requires st.cur.Type != end && fuel > 0 && !(rhs && Complete(e)) && st.cur.Type != LPAREN
    requires var p := Prepared(e);
             !(IsOperator(st.cur.Type) && !IsOperator(p.Operator.Type)) &&
             (Empty(p) ||
              (!(rhs && IsOperator(p.Operator.Type) && Precedence(st.peek.Type) > prec) &&
               !(IsOperator(p.Operator.Type) && Precedence(st.peek.Type) > Precedence(p.Operator.Type))))
    ensures var (x, st') := ParseUnary(st);
            var e' := AddSubnode(Prepared(e), x);
            && (!IsPrefix(st.cur.Type) ==> x == Term(st.cur) && st' == st)
            && BinaryLoop(end, rhs, prec, e, st, fuel) == BinaryLoop(end, rhs, prec, e', StepOn(rhs, e', st'), fuel - 1)
  {
    var x := ParseUnary(st);
    assert BinaryStep(end, rhs, prec, Prepared(e), st, fuel - 1) == Ok((AddSubnode(Prepared(e), x.0), x.1));
  }

  /** One loop iteration that takes the current operator into a node that has none. */
  lemma LoopOperator(end: TokenType, rhs: bool, prec: int, e: BinaryExpression, st: PState, fuel: nat)
    requires st.cur.Type != end && fuel > 0 && !(rhs && Complete(e))
    requires IsOperator(st.cur.Type) && !IsOperator(Prepared(e).Operator.Type)
    ensures var e' := Prepared(e).(Operator := st.cur);
            BinaryLoop(end, rhs, prec, e, st, fuel) == BinaryLoop(end, rhs, prec, e', StepOn(rhs, e', st), fuel - 1)
  {
    assert BinaryStep(end, rhs, prec, Prepared(e), st, fuel - 1) == Ok((Prepared(e).(Operator := st.cur), st));
  }

  /** One loop iteration whose second operand is an rhs-mode parse, because the peeked operator binds tighter. */
  lemma LoopNested(end: TokenType, rhs: bool, prec: int, e: BinaryExpression, st: PState, fuel: nat, x: Expression, st': PState)
    requires st.cur.Type != end && fuel > 0 && !(rhs && Complete(e)) && st.cur.Type != LPAREN
    requires var p := Prepared(e);
             !Empty(p) && IsOperator(p.Operator.Type) && !(rhs && Precedence(st.peek.Type) > prec) &&
             Precedence(st.peek.Type) > Precedence(p.Operator.Type) &&
             ParseBinary(end, true, Precedence(p.Operator.Type), st, fuel - 1) == Ok((x, st'))
    ensures var e' := AddSubnode(Prepared(e), x);
            BinaryLoop(end, rhs, prec, e, st, fuel) == BinaryLoop(end, rhs, prec, e', StepOn(rhs, e', st'), fuel - 1)
  {
    assert BinaryStep(end, rhs, prec, Prepared(e), st, fuel - 1) == Ok((AddSubnode(Prepared(e), x), st'));
  }

  /*
   * The shapes the engine gives for any operands and operators: `a o b` in
   * rhs mode, and `a o1 b o2 c` at top level, nested to the left when `o2`
   * does not bind tighter than `o1` and to the right when it does.
   */

  /**
   * A lexeme the engine takes as a bare operand: not `(`, not an operator
   * or a prefix, not EOF and not the end lexeme.
   */
  predicate PlainOperand(t: Lexeme, end: TokenType) {
    !t.Type.LPAREN? && !IsPrefix(t.Type) && !IsOperator(t.Type) && !t.Type.EOF? && t.Type != end
  }

  /** A binary operator that is not the end lexeme. */
  predicate InfixOperator(o: Lexeme, end: TokenType) {
    IsOperator(o.Type) && o.Type != end
  }

  /** One iteration that takes a bare operand `t`, its peek `n` binding no tighter than the node's operator. */
  lemma OperandStep(end: TokenType, rhs: bool, prec: int, node: BinaryExpression, t: Lexeme, n: Lexeme, more: seq<Lexeme>, fuel: nat)
    requires PlainOperand(t, end) && !Complete(node) && n.Type != EOF && fuel > 0
    requires Empty(node) || !IsOperator(node.Operator.Type) ||
             (!(rhs && Precedence(n.Type) > prec) && Precedence(n.Type) <= Precedence(node.Operator.Type))
    requires !(rhs && Complete(AddSubnode(node, Term(t))))
    ensures BinaryLoop(end, rhs, prec, node, PState(t, n, more), fuel) ==
            BinaryLoop(end, rhs, prec, AddSubnode(node, Term(t)), PState(n, Head(more), Tail(more)), fuel - 1)
  {
    assert Prepared(node) == node;
    LoopOperand(end, rhs, prec, node, PState(t, n, more), fuel);
  }

  /** `OperandStep` when the lexeme after the peek is known to be `m`. */
  lemma OperandThen(end: TokenType, rhs: bool, prec: int, node: BinaryExpression, t: Lexeme, n: Lexeme, m: Lexeme, more: seq<Lexeme>, fuel: nat)
    requires PlainOperand(t, end) && !Complete(node) && n.Type != EOF && fuel > 0
    requires Empty(node) || !IsOperator(node.Operator.Type) ||
             (!(rhs && Precedence(n.Type) > prec) && Precedence(n.Type) <= Precedence(node.Operator.Type))
    requires !(rhs && Complete(AddSubnode(node, Term(t))))
    ensures BinaryLoop(end, rhs, prec, node, PState(t, n, [m] + more), fuel) ==
            BinaryLoop(end, rhs, prec, AddSubnode(node, Term(t)), PState(n, m, more), fuel - 1)
  {
    Uncons(m, more);
    OperandStep(end, rhs, prec, node, t, n, [m] + more, fuel);
  }

  /** One iteration that gives operator `o` to an incomplete node that has none. */
  lemma OperatorStep(end: TokenType, rhs: bool, prec: int, node: BinaryExpression, o: Lexeme, n: Lexeme, m: Lexeme, more: seq<Lexeme>, fuel: nat)
    requires InfixOperator(o, end) && |node.Subnodes| < 2 && !IsOperator(node.Operator.Type) && n.Type != EOF && fuel > 0
    ensures BinaryLoop(end, rhs, prec, node, PState(o, n, [m] + more), fuel) ==
            BinaryLoop(end, rhs, prec, node.(Operator := o), PState(n, m, more), fuel - 1)
  {
    Uncons(m, more);
    assert Prepared(node) == node;
    LoopOperator(end, rhs, prec, node, PState(o, n, [m] + more), fuel);
  }

  /** One top-level iteration at operator `o` after a complete node: the node moves to the left slot of a fresh node with operator `o`. */
  lemma ShiftStep(end: TokenType, first: BinaryExpression, o: Lexeme, n: Lexeme, m: Lexeme, more: seq<Lexeme>, fuel: nat)
    requires Complete(first) && InfixOperator(o, end) && n.Type != EOF && fuel > 0
    ensures BinaryLoop(end, false, 0, first, PState(o, n, [m] + more), fuel) ==
            BinaryLoop(end, false, 0, BinaryExpression(o, [], Some(first)), PState(n, m, more), fuel - 1)
  {
    Uncons(m, more);
    assert Prepared(first) == Shift(first) && Shift(first).(Operator := o) == BinaryExpression(o, [], Some(first));
    LoopOperator(end, false, 0, first, PState(o, n, [m] + more), fuel);
  }

  /** The loop ends at once on the end lexeme. */
  lemma AtEnd(end: TokenType, rhs: bool, prec: int, e: BinaryExpression, st: PState, fuel: nat)
    requires st.cur.Type == end
    ensures BinaryLoop(end, rhs, prec, e, st, fuel) == Ok((e, st))
  {
  }

  /** The lexer's next lexeme and what follows it, for a stream that starts with `x`. */
  lemma Uncons(x: Lexeme, more: seq<Lexeme>)
    ensures Head([x] + more) == x && Tail([x] + more) == more
  {
    assert ([x] + more)[1..] == more;
  }

  /** A stream of two known lexemes, one at a time. */
  lemma SpreadTwo(x1: Lexeme, x2: Lexeme, rest: seq<Lexeme>)
    ensures [x1, x2] + rest == [x1] + ([x2] + rest)
  {
  }

  /** A stream of four known lexemes, the last two kept together. */
  lemma SpreadFour(x1: Lexeme, x2: Lexeme, x3: Lexeme, x4: Lexeme, rest: seq<Lexeme>)
    ensures [x1, x2, x3, x4] + rest == [x1] + ([x2] + ([x3, x4] + rest))
    ensures [x1, x2, x3, x4] + rest == [x1] + ([x2] + ([x3] + ([x4] + rest)))
  {
  }

  /** A stream of six known lexemes, one at a time. */
  lemma SpreadSix(x1: Lexeme, x2: Lexeme, x3: Lexeme, x4: Lexeme, x5: Lexeme, x6: Lexeme, rest: seq<Lexeme>)
    ensures [x1, x2, x3, x4, x5, x6] + rest == [x1] + ([x2] + ([x3] + ([x4] + ([x5] + ([x6] + rest)))))
  {
  }

  /** A lexeme with no binding strength binds looser than any operator. */
  lemma LooserThanOperator(t: TokenType, o: TokenType)
    requires !IsOperator(t) && IsOperator(o)
    ensures Precedence(t) < Precedence(o)
  {
  }

  /** The first two iterations from a zero node: operand `a` is taken, then operator `o`, and the cursor moves onto `b`. */
  lemma OpenPair(end: TokenType, rhs: bool, prec: int, a: Lexeme, o: Lexeme, b: Lexeme, n: Lexeme, more: seq<Lexeme>, fuel: nat)
    requires PlainOperand(a, end) && InfixOperator(o, end) && b.Type != EOF && fuel >= 2
    ensures BinaryLoop(end, rhs, prec, EmptyBinary, PState(a, o, [b] + ([n] + more)), fuel) ==
            BinaryLoop(end, rhs, prec, BinaryExpression(o, [Term(a)], None), PState(b, n, more), fuel - 2)
  {
    FirstOperand(end, rhs, prec, a, o, b, [n] + more, fuel);
    FirstOperator(end, rhs, prec, a, o, b, n, more, fuel - 1);
  }

  /** The first iteration from a zero node: the bare operand `a` becomes its only operand. */
  lemma FirstOperand(end: TokenType, rhs: bool, prec: int, a: Lexeme, n: Lexeme, m: Lexeme, more: seq<Lexeme>, fuel: nat)
    requires PlainOperand(a, end) && n.Type != EOF && fuel > 0
    ensures BinaryLoop(end, rhs, prec, EmptyBinary, PState(a, n, [m] + more), fuel) ==
            BinaryLoop(end, rhs, prec, BinaryExpression(NoToken, [Term(a)], None), PState(n, m, more), fuel - 1)
  {
    assert AddSubnode(EmptyBinary, Term(a)) == BinaryExpression(NoToken, [Term(a)], None);
    OperandThen(end, rhs, prec, EmptyBinary, a, n, m, more, fuel);
  }

  /** The second iteration from a zero node: operator `o` joins the first operand `a`. */
  lemma FirstOperator(end: TokenType, rhs: bool, prec: int, a: Lexeme, o: Lexeme, b: Lexeme, n: Lexeme, more: seq<Lexeme>, fuel: nat)
    requires InfixOperator(o, end) && b.Type != EOF && fuel >= 1
    ensures BinaryLoop(end, rhs, prec, BinaryExpression(NoToken, [Term(a)], None), PState(o, b, [n] + more), fuel) ==
            BinaryLoop(end, rhs, prec, BinaryExpression(o, [Term(a)], None), PState(b, n, more), fuel - 1)
  {
    assert BinaryExpression(NoToken, [Term(a)], None).(Operator := o) == BinaryExpression(o, [Term(a)], None);
    OperatorStep(end, rhs, prec, BinaryExpression(NoToken, [Term(a)], None), o, b, n, more, fuel);
  }

  /**
   * In rhs mode, `a o b` followed by a lexeme `n` that binds no tighter
   * than `o` nor than the caller's operator: the node `o` over `a` and `b`
   * is handed back as soon as it is complete, with the cursor left on `b`.
   */
  lemma RhsTakesPair(end: TokenType, prec: int, a: Lexeme, o: Lexeme, b: Lexeme, n: Lexeme, rest: seq<Lexeme>, fuel: nat)
    requires PlainOperand(a, end) && InfixOperator(o, end) && PlainOperand(b, end)
    requires Precedence(n.Type) <= prec && Precedence(n.Type) <= Precedence(o.Type) && fuel >= 4
    ensures ParseBinary(end, true, prec, PState(a, o, [b, n] + rest), fuel) ==
            Ok((Binary(BinaryExpression(o, [Term(a), Term(b)], None)), PState(b, n, rest)))
  {
    RhsLoopTakesPair(end, prec, a, o, b, n, rest, fuel);
    BinaryOutcome(end, true, prec, PState(a, o, [b, n] + rest), fuel);
  }

  /** The loop behind `RhsTakesPair`, from the zero node. */
  lemma RhsLoopTakesPair(end: TokenType, prec: int, a: Lexeme, o: Lexeme, b: Lexeme, n: Lexeme, rest: seq<Lexeme>, fuel: nat)
    requires PlainOperand(a, end) && InfixOperator(o, end) && PlainOperand(b, end)
    requires Precedence(n.Type) <= prec && Precedence(n.Type) <= Precedence(o.Type) && fuel >= 4
    ensures BinaryLoop(end, true, prec, EmptyBinary, PState(a, o, [b, n] + rest), fuel) ==
            Ok((BinaryExpression(o, [Term(a), Term(b)], None), PState(b, n, rest)))
  {
    SpreadTwo(b, n, rest);
    OpenPair(end, true, prec, a, o, b, n, rest, fuel);
    RhsPairCloses(end, prec, a, o, b, n, rest, fuel - 2);
  }

  /** `b` completes the rhs-mode node `a o`, which is handed back at once. */
  lemma RhsPairCloses(end: TokenType, prec: int, a: Lexeme, o: Lexeme, b: Lexeme, n: Lexeme, rest: seq<Lexeme>, fuel: nat)
    requires PlainOperand(b, end) && IsOperator(o.Type)
    requires Precedence(n.Type) <= prec && Precedence(n.Type) <= Precedence(o.Type) && fuel >= 2
    ensures BinaryLoop(end, true, prec, BinaryExpression(o, [Term(a)], None), PState(b, n, rest), fuel) ==
            Ok((BinaryExpression(o, [Term(a), Term(b)], None), PState(b, n, rest)))
  {
    var st := PState(b, n, rest);
    var node := BinaryExpression(o, [Term(a)], None);
    var pair := BinaryExpression(o, [Term(a), Term(b)], None);
    assert Prepared(node) == node && AddSubnode(node, Term(b)) == pair;
    assert StepOn(true, pair, st) == st;
    LoopOperand(end, true, prec, node, st, fuel);
  }

  /**
   * `a o1 b o2 c` up to the end lexeme, where `o2` does not bind tighter
   * than `o1`: the complete node `a o1 b` is shifted into the left slot of
   * a fresh node, which takes `o2` and the single operand `c`. The cursor
   * ends on the end lexeme.
   */
  lemma LooserChainNestsLeft(end: TokenType, a: Lexeme, o1: Lexeme, b: Lexeme, o2: Lexeme, c: Lexeme, s: Lexeme, rest: seq<Lexeme>, fuel: nat)
    requires PlainOperand(a, end) && PlainOperand(b, end) && PlainOperand(c, end)
    requires InfixOperator(o1, end) && InfixOperator(o2, end) && s.Type == end && end != EOF
    requires Precedence(o2.Type) <= Precedence(o1.Type) && fuel >= 5
    ensures ParseExpr(end, PState(a, o1, [b, o2, c, s] + rest), fuel) ==
            Ok((Binary(BinaryExpression(o2, [Term(c)], Some(BinaryExpression(o1, [Term(a), Term(b)], None)))), PState(s, Head(rest), Tail(rest))))
  {
    SpreadFour(b, o2, c, s, rest);
    OpenPair(end, false, 0, a, o1, b, o2, [c] + ([s] + rest), fuel);
    SecondOperandCompletes(end, a, o1, b, o2, c, s, rest, fuel - 2);
  }

  /** At `b` the peeked `o2` does not bind tighter: `b` completes `a o1 b`, which `o2` and `c` then shift left. */
  lemma SecondOperandCompletes(end: TokenType, a: Lexeme, o1: Lexeme, b: Lexeme, o2: Lexeme, c: Lexeme, s: Lexeme, rest: seq<Lexeme>, fuel: nat)
    requires PlainOperand(b, end) && PlainOperand(c, end) && IsOperator(o1.Type)
    requires InfixOperator(o2, end) && s.Type == end && end != EOF
    requires Precedence(o2.Type) <= Precedence(o1.Type) && fuel >= 3
    ensures BinaryLoop(end, false, 0, BinaryExpression(o1, [Term(a)], None), PState(b, o2, [c] + ([s] + rest)), fuel) ==
            Ok((BinaryExpression(o2, [Term(c)], Some(BinaryExpression(o1, [Term(a), Term(b)], None))), PState(s, Head(rest), Tail(rest))))
  {
    SecondOperandStep(end, a, o1, b, o2, c, [s] + rest, fuel);
    ShiftedTakesOperand(end, BinaryExpression(o1, [Term(a), Term(b)], None), o2, c, s, rest, fuel - 1);
  }

  /** The iteration at `b` when the peek `n` binds no tighter than `o`: `b` completes the node `a o`. */
  lemma SecondOperandStep(end: TokenType, a: Lexeme, o: Lexeme, b: Lexeme, n: Lexeme, m: Lexeme, more: seq<Lexeme>, fuel: nat)
    requires PlainOperand(b, end) && IsOperator(o.Type) && Precedence(n.Type) <= Precedence(o.Type) && n.Type != EOF && fuel > 0
    ensures BinaryLoop(end, false, 0, BinaryExpression(o, [Term(a)], None), PState(b, n, [m] + more), fuel) ==
            BinaryLoop(end, false, 0, BinaryExpression(o, [Term(a), Term(b)], None), PState(n, m, more), fuel - 1)
  {
    assert AddSubnode(BinaryExpression(o, [Term(a)], None), Term(b)) == BinaryExpression(o, [Term(a), Term(b)], None);
    OperandThen(end, false, 0, BinaryExpression(o, [Term(a)], None), b, n, m, more, fuel);
  }

  /** At `o2` the complete node is shifted left and the fresh node takes `o2`, then `c`; the loop ends on the end lexeme. */
  lemma ShiftedTakesOperand(end: TokenType, first: BinaryExpression, o2: Lexeme, c: Lexeme, s: Lexeme, rest: seq<Lexeme>, fuel: nat)
    requires Complete(first) && InfixOperator(o2, end) && PlainOperand(c, end) && s.Type == end && end != EOF && fuel >= 2
    ensures BinaryLoop(end, false, 0, first, PState(o2, c, [s] + rest), fuel) ==
            Ok((BinaryExpression(o2, [Term(c)], Some(first)), PState(s, Head(rest), Tail(rest))))
  {
    assert AddSubnode(BinaryExpression(o2, [], Some(first)), Term(c)) == BinaryExpression(o2, [Term(c)], Some(first));
    ShiftStep(end, first, o2, c, s, rest, fuel);
    LastOperand(end, BinaryExpression(o2, [], Some(first)), c, s, rest, fuel - 1);
  }

  /** A node with no operand yet takes the bare operand `c`, and the loop ends on the end lexeme after it. */
  lemma LastOperand(end: TokenType, node: BinaryExpression, c: Lexeme, s: Lexeme, rest: seq<Lexeme>, fuel: nat)
    requires Empty(node) && PlainOperand(c, end) && s.Type == end && end != EOF && fuel >= 1
    ensures BinaryLoop(end, false, 0, node, PState(c, s, rest), fuel) ==
            Ok((AddSubnode(node, Term(c)), PState(s, Head(rest), Tail(rest))))
  {
    OperandStep(end, false, 0, node, c, s, rest, fuel);
    AtEnd(end, false, 0, AddSubnode(node, Term(c)), PState(s, Head(rest), Tail(rest)), fuel - 1);
  }

  /**
   * `a o1 b o2 c` up to the end lexeme, where `o2` binds tighter than `o1`
   * and the end lexeme is no operator: the second operand of `o1` is the
   * rhs-mode parse `b o2 c`. The cursor ends on the end lexeme.
   */
  lemma TighterChainNestsRight(end: TokenType, a: Lexeme, o1: Lexeme, b: Lexeme, o2: Lexeme, c: Lexeme, s: Lexeme, rest: seq<Lexeme>, fuel: nat)
    requires PlainOperand(a, end) && PlainOperand(b, end) && PlainOperand(c, end)
    requires InfixOperator(o1, end) && InfixOperator(o2, end) && s.Type == end && end != EOF && !IsOperator(end)
    requires Precedence(o2.Type) > Precedence(o1.Type) && fuel >= 7
    ensures ParseExpr(end, PState(a, o1, [b, o2, c, s] + rest), fuel) ==
            Ok((Binary(BinaryExpression(o1, [Term(a), Binary(BinaryExpression(o2, [Term(b), Term(c)], None))], None)), PState(s, Head(rest), Tail(rest))))
  {
    SpreadFour(b, o2, c, s, rest);
    OpenPair(end, false, 0, a, o1, b, o2, [c, s] + rest, fuel);
    SecondOperandNests(end, a, o1, b, o2, c, s, rest, fuel - 2);
  }

  /** At `b` the peeked `o2` binds tighter: the rhs-mode parse of `b o2 c` becomes the second operand, and the loop ends on the end lexeme. */
  lemma SecondOperandNests(end: TokenType, a: Lexeme, o1: Lexeme, b: Lexeme, o2: Lexeme, c: Lexeme, s: Lexeme, rest: seq<Lexeme>, fuel: nat)
    requires PlainOperand(b, end) && PlainOperand(c, end) && IsOperator(o1.Type)
    requires InfixOperator(o2, end) && s.Type == end && end != EOF && !IsOperator(end)
    requires Precedence(o2.Type) > Precedence(o1.Type) && fuel >= 5
    ensures BinaryLoop(end, false, 0, BinaryExpression(o1, [Term(a)], None), PState(b, o2, [c, s] + rest), fuel) ==
            Ok((BinaryExpression(o1, [Term(a), Binary(BinaryExpression(o2, [Term(b), Term(c)], None))], None), PState(s, Head(rest), Tail(rest))))
  {
    var whole := BinaryExpression(o1, [Term(a), Binary(BinaryExpression(o2, [Term(b), Term(c)], None))], None);
    NestStep(end, a, o1, b, o2, c, s, rest, fuel);
    AtEnd(end, false, 0, whole, PState(s, Head(rest), Tail(rest)), fuel - 1);
  }

  /** The iteration at `b` when `o2` binds tighter: one rhs-mode parse of `b o2 c`, then the cursor moves past `c`. */
  lemma NestStep(end: TokenType, a: Lexeme, o1: Lexeme, b: Lexeme, o2: Lexeme, c: Lexeme, s: Lexeme, rest: seq<Lexeme>, fuel: nat)
    requires PlainOperand(b, end) && PlainOperand(c, end) && IsOperator(o1.Type)
    requires InfixOperator(o2, end) && s.Type == end && end != EOF && !IsOperator(end)
    requires Precedence(o2.Type) > Precedence(o1.Type) && fuel >= 5
    ensures BinaryLoop(end, false, 0, BinaryExpression(o1, [Term(a)], None), PState(b, o2, [c, s] + rest), fuel) ==
            BinaryLoop(end, false, 0, BinaryExpression(o1, [Term(a), Binary(BinaryExpression(o2, [Term(b), Term(c)], None))], None),
                       PState(s, Head(rest), Tail(rest)), fuel - 1)
  {
    var inner := Binary(BinaryExpression(o2, [Term(b), Term(c)], None));
    LooserThanOperator(s.Type, o1.Type);
    LooserThanOperator(s.Type, o2.Type);
    RhsTakesPair(end, Precedence(o1.Type), b, o2, c, s, rest, fuel - 1);
    NestedOperand(end, a, o1, PState(b, o2, [c, s] + rest), inner, PState(c, s, rest), fuel);
  }

  /** Case 5 at top level on a node `a o`: the rhs-mode parse bounded by `o` becomes the second operand, and the cursor moves on. */
  lemma NestedOperand(end: TokenType, a: Lexeme, o: Lexeme, st: PState, x: Expression, st': PState, fuel: nat)
    requires st.cur.Type != end && st.cur.Type != LPAREN && fuel > 0 && st'.peek.Type != EOF
    requires IsOperator(o.Type) && Precedence(st.peek.Type) > Precedence(o.Type)
    requires ParseBinary(end, true, Precedence(o.Type), st, fuel - 1) == Ok((x, st'))
    ensures BinaryLoop(end, false, 0, BinaryExpression(o, [Term(a)], None), st, fuel) ==
            BinaryLoop(end, false, 0, BinaryExpression(o, [Term(a), x], None), Advance(st'), fuel - 1)
  {
    var node := BinaryExpression(o, [Term(a)], None);
    assert Prepared(node) == node && AddSubnode(node, x) == BinaryExpression(o, [Term(a), x], None);
    LoopNested(end, false, 0, node, st, fuel, x, st');
  }

  /**
   * A third operator does not extend the chain: in `a o1 b o2 c o3 d`,
   * with `o2` no tighter than `o1` and `o3` a prefix operator, the node
   * that holds `c` already has its operator `o2`, so `o3` is read as the
   * prefix of the unary term `o3 d`, the second operand of `o2`.
   */
  lemma ThirdOperatorIsPrefix(end: TokenType, a: Lexeme, o1: Lexeme, b: Lexeme, o2: Lexeme, c: Lexeme, o3: Lexeme, d: Lexeme, s: Lexeme, rest: seq<Lexeme>, fuel: nat)
    requires PlainOperand(a, end) && PlainOperand(b, end) && PlainOperand(c, end) && PlainOperand(d, end)
    requires InfixOperator(o1, end) && InfixOperator(o2, end) && InfixOperator(o3, end) && IsPrefix(o3.Type)
    requires s.Type == end && end != EOF
    requires Precedence(o2.Type) <= Precedence(o1.Type) && fuel >= 6
    ensures ParseExpr(end, PState(a, o1, [b, o2, c, o3, d, s] + rest), fuel) ==
            Ok((Binary(BinaryExpression(o2, [Term(c), Unary(o3, d)], Some(BinaryExpression(o1, [Term(a), Term(b)], None)))),
                PState(s, Head(rest), Tail(rest))))
  {
    SpreadSix(b, o2, c, o3, d, s, rest);
    OpenPair(end, false, 0, a, o1, b, o2, [c] + ([o3] + ([d] + ([s] + rest))), fuel);
    ThirdOperatorFromB(end, a, o1, b, o2, c, o3, d, s, rest, fuel - 2);
  }

  /** From `b`: `a o1 b` completes; `o2` then shifts it left. */
  lemma ThirdOperatorFromB(end: TokenType, a: Lexeme, o1: Lexeme, b: Lexeme, o2: Lexeme, c: Lexeme, o3: Lexeme, d: Lexeme, s: Lexeme, rest: seq<Lexeme>, fuel: nat)
    requires PlainOperand(b, end) && PlainOperand(c, end) && PlainOperand(d, end) && IsOperator(o1.Type)
    requires InfixOperator(o2, end) && InfixOperator(o3, end) && IsPrefix(o3.Type) && s.Type == end && end != EOF
    requires Precedence(o2.Type) <= Precedence(o1.Type) && fuel >= 4
    ensures BinaryLoop(end, false, 0, BinaryExpression(o1, [Term(a)], None), PState(b, o2, [c] + ([o3] + ([d] + ([s] + rest)))), fuel) ==
            Ok((BinaryExpression(o2, [Term(c), Unary(o3, d)], Some(BinaryExpression(o1, [Term(a), Term(b)], None))), PState(s, Head(rest), Tail(rest))))
  {
    SecondOperandStep(end, a, o1, b, o2, c, [o3] + ([d] + ([s] + rest)), fuel);
    ThirdOperatorFromO2(end, BinaryExpression(o1, [Term(a), Term(b)], None), o2, c, o3, d, s, rest, fuel - 1);
  }

  /** From `o2`: the complete node moves to the left slot of a fresh node with operator `o2`. */
  lemma ThirdOperatorFromO2(end: TokenType, first: BinaryExpression, o2: Lexeme, c: Lexeme, o3: Lexeme, d: Lexeme, s: Lexeme, rest: seq<Lexeme>, fuel: nat)
    requires Complete(first) && PlainOperand(c, end) && PlainOperand(d, end) && InfixOperator(o2, end)
    requires InfixOperator(o3, end) && IsPrefix(o3.Type) && s.Type == end && end != EOF && fuel >= 3
    ensures BinaryLoop(end, false, 0, first, PState(o2, c, [o3] + ([d] + ([s] + rest))), fuel) ==
            Ok((BinaryExpression(o2, [Term(c), Unary(o3, d)], Some(first)), PState(s, Head(rest), Tail(rest))))
  {
    ShiftStep(end, first, o2, c, o3, [d] + ([s] + rest), fuel);
    ThirdOperatorFromC(end, first, o2, c, o3, d, s, rest, fuel - 1);
  }

  /** From `c`: the empty fresh node takes `c`; then `o3`, meeting a node with an operator, is the prefix of `d`. */
  lemma ThirdOperatorFromC(end: TokenType, first: BinaryExpression, o2: Lexeme, c: Lexeme, o3: Lexeme, d: Lexeme, s: Lexeme, rest: seq<Lexeme>, fuel: nat)
    requires PlainOperand(c, end) && PlainOperand(d, end) && IsOperator(o2.Type)
    requires InfixOperator(o3, end) && IsPrefix(o3.Type) && s.Type == end && end != EOF && fuel >= 2
    ensures BinaryLoop(end, false, 0, BinaryExpression(o2, [], Some(first)), PState(c, o3, [d] + ([s] + rest)), fuel) ==
            Ok((BinaryExpression(o2, [Term(c), Unary(o3, d)], Some(first)), PState(s, Head(rest), Tail(rest))))
  {
    var shifted := BinaryExpression(o2, [], Some(first));
    var withC := BinaryExpression(o2, [Term(c)], Some(first));
    assert AddSubnode(shifted, Term(c)) == withC;
    assert AddSubnode(withC, Unary(o3, d)) == BinaryExpression(o2, [Term(c), Unary(o3, d)], Some(first));
    OperandThen(end, false, 0, shifted, c, o3, d, [s] + rest, fuel);
    PrefixEnds(end, withC, o3, d, s, rest, fuel - 1);
  }

  /** A prefix operator met by a node that has its operator and one operand gives the last operand, and the loop ends on the end lexeme. */
  lemma PrefixEnds(end: TokenType, node: BinaryExpression, o: Lexeme, d: Lexeme, s: Lexeme, rest: seq<Lexeme>, fuel: nat)
    requires |node.Subnodes| == 1 && IsOperator(node.Operator.Type)
    requires InfixOperator(o, end) && IsPrefix(o.Type) && PlainOperand(d, end) && s.Type == end && end != EOF && fuel > 0
    ensures BinaryLoop(end, false, 0, node, PState(o, d, [s] + rest), fuel) ==
            Ok((AddSubnode(node, Unary(o, d)), PState(s, Head(rest), Tail(rest))))
  {
    PrefixStep(end, node, o, d, s, rest, fuel);
    AtEnd(end, false, 0, AddSubnode(node, Unary(o, d)), PState(s, Head(rest), Tail(rest)), fuel - 1);
  }

  /** At a prefix operator after a node that has its operator and one operand, the unary term `o d` becomes the second operand. */
  lemma PrefixStep(end: TokenType, node: BinaryExpression, o: Lexeme, d: Lexeme, s: Lexeme, rest: seq<Lexeme>, fuel: nat)
    requires |node.Subnodes| == 1 && IsOperator(node.Operator.Type)
    requires InfixOperator(o, end) && IsPrefix(o.Type) && PlainOperand(d, end) && s.Type != EOF && fuel > 0
    ensures BinaryLoop(end, false, 0, node, PState(o, d, [s] + rest), fuel) ==
            BinaryLoop(end, false, 0, AddSubnode(node, Unary(o, d)), PState(s, Head(rest), Tail(rest)), fuel - 1)
  {
    var st := PState(o, d, [s] + rest);
    Uncons(s, rest);
    assert ParseUnary(st) == (Unary(o, d), PState(d, s, rest));
    assert Prepared(node) == node;
    LoopOperand(end, false, 0, node, st, fuel);
  }

  /**
   * The non-prefix twin of `ThirdOperatorIsPrefix`: in `a o1 b o2 c o3 d`,
   * with `o2` no tighter than `o1` and `o3` an operator that is no prefix
   * (`*`, `/` or a comparison), the default case reads `o3` itself as the
   * bare operand beside `c`, without moving. That completes the node, which
   * is shifted left once more, and `d` becomes the only operand of a fresh
   * node without an operator.
   */
  lemma ThirdOperatorIsOperand(end: TokenType, a: Lexeme, o1: Lexeme, b: Lexeme, o2: Lexeme, c: Lexeme, o3: Lexeme, d: Lexeme, s: Lexeme, rest: seq<Lexeme>, fuel: nat)
    requires PlainOperand(a, end) && PlainOperand(b, end) && PlainOperand(c, end) && PlainOperand(d, end)
    requires InfixOperator(o1, end) && InfixOperator(o2, end) && InfixOperator(o3, end) && !IsPrefix(o3.Type)
    requires s.Type == end && end != EOF
    requires Precedence(o2.Type) <= Precedence(o1.Type) && fuel >= 7
    ensures ParseExpr(end, PState(a, o1, [b, o2, c, o3, d, s] + rest), fuel) ==
            Ok((Binary(BinaryExpression(NoToken, [Term(d)],
                  Some(BinaryExpression(o2, [Term(c), Term(o3)], Some(BinaryExpression(o1, [Term(a), Term(b)], None)))))),
                PState(s, Head(rest), Tail(rest))))
  {
    SpreadSix(b, o2, c, o3, d, s, rest);
    OpenPair(end, false, 0, a, o1, b, o2, [c] + ([o3] + ([d] + ([s] + rest))), fuel);
    BareThirdFromB(end, a, o1, b, o2, c, o3, d, s, rest, fuel - 2);
  }

  /** From `b`: `a o1 b` completes; the rest of the loop reads `o3` as an operand. */
  lemma BareThirdFromB(end: TokenType, a: Lexeme, o1: Lexeme, b: Lexeme, o2: Lexeme, c: Lexeme, o3: Lexeme, d: Lexeme, s: Lexeme, rest: seq<Lexeme>, fuel: nat)
    requires PlainOperand(b, end) && PlainOperand(c, end) && PlainOperand(d, end) && IsOperator(o1.Type)
    requires InfixOperator(o2, end) && InfixOperator(o3, end) && !IsPrefix(o3.Type) && s.Type == end && end != EOF
    requires Precedence(o2.Type) <= Precedence(o1.Type) && fuel >= 5
    ensures BinaryLoop(end, false, 0, BinaryExpression(o1, [Term(a)], None), PState(b, o2, [c] + ([o3] + ([d] + ([s] + rest)))), fuel) ==
            Ok((BinaryExpression(NoToken, [Term(d)], Some(BinaryExpression(o2, [Term(c), Term(o3)], Some(BinaryExpression(o1, [Term(a), Term(b)], None))))),
                PState(s, Head(rest), Tail(rest))))
  {
    SecondOperandStep(end, a, o1, b, o2, c, [o3] + ([d] + ([s] + rest)), fuel);
    BareThirdFromO2(end, BinaryExpression(o1, [Term(a), Term(b)], None), o2, c, o3, d, s, rest, fuel - 1);
  }

  /** From `o2`: the complete node moves to the left slot of a fresh node with operator `o2`. */
  lemma BareThirdFromO2(end: TokenType, first: BinaryExpression, o2: Lexeme, c: Lexeme, o3: Lexeme, d: Lexeme, s: Lexeme, rest: seq<Lexeme>, fuel: nat)
    requires Complete(first) && PlainOperand(c, end) && PlainOperand(d, end) && InfixOperator(o2, end)
    requires InfixOperator(o3, end) && !IsPrefix(o3.Type) && s.Type == end && end != EOF && fuel >= 4
    ensures BinaryLoop(end, false, 0, first, PState(o2, c, [o3] + ([d] + ([s] + rest))), fuel) ==
            Ok((BinaryExpression(NoToken, [Term(d)], Some(BinaryExpression(o2, [Term(c), Term(o3)], Some(first)))), PState(s, Head(rest), Tail(rest))))
  {
    ShiftStep(end, first, o2, c, o3, [d] + ([s] + rest), fuel);
    BareThirdFromC(end, first, o2, c, o3, d, s, rest, fuel - 1);
  }

  /** From `c`: the empty fresh node takes `c`, and the rest of the loop reads `o3` as an operand. */
  lemma BareThirdFromC(end: TokenType, first: BinaryExpression, o2: Lexeme, c: Lexeme, o3: Lexeme, d: Lexeme, s: Lexeme, rest: seq<Lexeme>, fuel: nat)
    requires PlainOperand(c, end) && PlainOperand(d, end) && IsOperator(o2.Type)
    requires InfixOperator(o3, end) && !IsPrefix(o3.Type) && s.Type == end && end != EOF && fuel >= 3
    ensures BinaryLoop(end, false, 0, BinaryExpression(o2, [], Some(first)), PState(c, o3, [d] + ([s] + rest)), fuel) ==
            Ok((BinaryExpression(NoToken, [Term(d)], Some(BinaryExpression(o2, [Term(c), Term(o3)], Some(first)))), PState(s, Head(rest), Tail(rest))))
  {
    var shifted := BinaryExpression(o2, [], Some(first));
    var withC := BinaryExpression(o2, [Term(c)], Some(first));
    assert AddSubnode(shifted, Term(c)) == withC;
    assert AddSubnode(withC, Term(o3)) == BinaryExpression(o2, [Term(c), Term(o3)], Some(first));
    OperandThen(end, false, 0, shifted, c, o3, d, [s] + rest, fuel);
    BareThirdFromO3(end, withC, o3, d, s, rest, fuel - 1);
  }

  /** From `o3`: it becomes the second operand of a node that has its operator and one operand; then `d` starts a fresh node. */
  lemma BareThirdFromO3(end: TokenType, node: BinaryExpression, o: Lexeme, d: Lexeme, s: Lexeme, rest: seq<Lexeme>, fuel: nat)
    requires |node.Subnodes| == 1 && IsOperator(node.Operator.Type)
    requires InfixOperator(o, end) && !IsPrefix(o.Type) && PlainOperand(d, end) && s.Type == end && end != EOF && fuel >= 2
    ensures BinaryLoop(end, false, 0, node, PState(o, d, [s] + rest), fuel) ==
            Ok((BinaryExpression(NoToken, [Term(d)], Some(AddSubnode(node, Term(o)))), PState(s, Head(rest), Tail(rest))))
  {
    OperatorAsOperandStep(end, node, o, d, s, rest, fuel);
    ShiftedOperandEnds(end, AddSubnode(node, Term(o)), d, s, rest, fuel - 1);
  }

  /**
   * An operator that is no prefix, met by a node that has its operator and
   * one operand while the peek binds no tighter, is taken by the default
   * case as a bare term: it becomes the second operand, and the cursor moves on.
   */
  lemma OperatorAsOperandStep(end: TokenType, node: BinaryExpression, o: Lexeme, d: Lexeme, s: Lexeme, rest: seq<Lexeme>, fuel: nat)
    requires |node.Subnodes| == 1 && IsOperator(node.Operator.Type)
    requires InfixOperator(o, end) && !IsPrefix(o.Type) && PlainOperand(d, end) && fuel > 0
    ensures BinaryLoop(end, false, 0, node, PState(o, d, [s] + rest), fuel) ==
            BinaryLoop(end, false, 0, AddSubnode(node, Term(o)), PState(d, s, rest), fuel - 1)
  {
    var st := PState(o, d, [s] + rest);
    Uncons(s, rest);
    LooserThanOperator(d.Type, node.Operator.Type);
    assert Prepared(node) == node;
    LoopOperand(end, false, 0, node, st, fuel);
  }

  /** A complete node before a bare operand `d`: the node is shifted left, the fresh node takes `d`, and the loop ends on the end lexeme. */
  lemma ShiftedOperandEnds(end: TokenType, first: BinaryExpression, d: Lexeme, s: Lexeme, rest: seq<Lexeme>, fuel: nat)
    requires Complete(first) && PlainOperand(d, end) && s.Type == end && end != EOF && fuel >= 1
    ensures BinaryLoop(end, false, 0, first, PState(d, s, rest), fuel) ==
            Ok((BinaryExpression(NoToken, [Term(d)], Some(first)), PState(s, Head(rest), Tail(rest))))
  {
    var taken := BinaryExpression(NoToken, [Term(d)], Some(first));
    assert Prepared(first) == BinaryExpression(NoToken, [], Some(first));
    assert AddSubnode(Prepared(first), Term(d)) == taken;
    LoopOperand(end, false, 0, first, PState(d, s, rest), fuel);
    AtEnd(end, false, 0, taken, PState(s, Head(rest), Tail(rest)), fuel - 1);
  }

  /*
   * Worked parses of `2 * 3 ;` in rhs mode, `1 + 2 * 3 ;` and `1 + 2 + 3 ;`,
   * one loop iteration per lemma: each states the outcome of the loop from
   * one lexeme on, with the fuel left at that point.
   */

  const AtTimes: PState := PState(Times, Three, [Semi])
  const AtThreeSemi: PState := PState(Three, Semi, [])
  const AtSemi: PState := PState(Semi, Lexeme(EOF, []), [])
  const TwoTimesThree: BinaryExpression := BinaryExpression(Times, [Term(Two), Term(Three)], None)

  /** `3` completes the node `2 *`, which rhs mode hands back at once, without moving past the `3`. */
  lemma RhsFromThree(fuel: nat)
    requires fuel == 2
    ensures BinaryLoop(SEMICOLON, true, Precedence(ADD), BinaryExpression(Times, [Term(Two)], None), AtThreeSemi, fuel) ==
            Ok((TwoTimesThree, AtThreeSemi))
  {
    var twoTimes := BinaryExpression(Times, [Term(Two)], None);
    assert Prepared(twoTimes) == twoTimes && AddSubnode(twoTimes, Term(Three)) == TwoTimesThree;
    LoopOperand(SEMICOLON, true, 4, twoTimes, AtThreeSemi, fuel);
  }

  /** `*` becomes the operator of the node holding `2`. */
  lemma RhsFromTimes(fuel: nat)
    requires fuel == 3
    ensures BinaryLoop(SEMICOLON, true, Precedence(ADD), BinaryExpression(NoToken, [Term(Two)], None), AtTimes, fuel) ==
            Ok((TwoTimesThree, AtThreeSemi))
  {
    var two := BinaryExpression(NoToken, [Term(Two)], None);
    var twoTimes := BinaryExpression(Times, [Term(Two)], None);
    assert Prepared(two) == two && two.(Operator := Times) == twoTimes;
    assert StepOn(true, twoTimes, AtTimes) == AtThreeSemi;
    LoopOperator(SEMICOLON, true, 4, two, AtTimes, fuel);
    RhsFromThree(fuel - 1);
  }

  /**
   * The rhs-mode parse of `2 * 3 ;` under `+`: it hands back the node as
   * soon as it is complete, with the cursor still on its last operand.
   */
  lemma RhsStopsOnLastOperand(fuel: nat)
    requires fuel == 4
    ensures ParseBinary(SEMICOLON, true, Precedence(ADD), PState(Two, Times, [Three, Semi]), fuel) ==
            Ok((Binary(TwoTimesThree), AtThreeSemi))
  {
    var atTwo := PState(Two, Times, [Three, Semi]);
    var two := BinaryExpression(NoToken, [Term(Two)], None);
    assert Prepared(EmptyBinary) == EmptyBinary && AddSubnode(EmptyBinary, Term(Two)) == two;
    assert StepOn(true, two, atTwo) == AtTimes;
    LoopOperand(SEMICOLON, true, 4, EmptyBinary, atTwo, fuel);
    RhsFromTimes(fuel - 1);
  }

  /** At `2` of `1 + 2 * 3 ;` the peeked `*` binds tighter than `+`: the second operand is the rhs-mode parse of `2 * 3`. */
  lemma TopFromTwo(fuel: nat)
    requires fuel == 5
    ensures BinaryLoop(SEMICOLON, false, 0, BinaryExpression(Plus, [Term(One)], None), PState(Two, Times, [Three, Semi]), fuel) ==
            Ok((BinaryExpression(Plus, [Term(One), Binary(TwoTimesThree)], None), AtSemi))
  {
    var onePlus := BinaryExpression(Plus, [Term(One)], None);
    var top := BinaryExpression(Plus, [Term(One), Binary(TwoTimesThree)], None);
    assert Prepared(onePlus) == onePlus && AddSubnode(onePlus, Binary(TwoTimesThree)) == top;
    assert StepOn(false, top, AtThreeSemi) == AtSemi;
    RhsStopsOnLastOperand(fuel - 1);
    LoopNested(SEMICOLON, false, 0, onePlus, PState(Two, Times, [Three, Semi]), fuel, Binary(TwoTimesThree), AtThreeSemi);
  }

  /** The first `+` of `1 + 2 * 3 ;` becomes the operator of the node holding `1`. */
  lemma TopFromPlus(fuel: nat)
    requires fuel == 6
    ensures BinaryLoop(SEMICOLON, false, 0, BinaryExpression(NoToken, [Term(One)], None), PState(Plus, Two, [Times, Three, Semi]), fuel) ==
            Ok((BinaryExpression(Plus, [Term(One), Binary(TwoTimesThree)], None), AtSemi))
  {
    var atPlus := PState(Plus, Two, [Times, Three, Semi]);
    var one := BinaryExpression(NoToken, [Term(One)], None);
    var onePlus := BinaryExpression(Plus, [Term(One)], None);
    assert Prepared(one) == one && one.(Operator := Plus) == onePlus;
    assert StepOn(false, onePlus, atPlus) == PState(Two, Times, [Three, Semi]);
    LoopOperator(SEMICOLON, false, 0, one, atPlus, fuel);
    TopFromTwo(fuel - 1);
  }

  /**
   * `1 + 2 * 3 ;`: the `*` peeked after `2` binds tighter than `+`, so the
   * second operand of `+` is the rhs-mode parse `2 * 3`; the top-level loop
   * then moves onto `;`.
   */
  lemma TighterOperatorNests(fuel: nat)
    requires fuel == 7
    ensures ParseExpr(SEMICOLON, PState(One, Plus, [Two, Times, Three, Semi]), fuel) ==
            Ok((Binary(BinaryExpression(Plus, [Term(One), Binary(TwoTimesThree)], None)), AtSemi))
  {
    var atOne := PState(One, Plus, [Two, Times, Three, Semi]);
    var atPlus := PState(Plus, Two, [Times, Three, Semi]);
    var one := BinaryExpression(NoToken, [Term(One)], None);
    assert Prepared(EmptyBinary) == EmptyBinary && AddSubnode(EmptyBinary, Term(One)) == one;
    assert StepOn(false, one, atOne) == atPlus;
    LoopOperand(SEMICOLON, false, 0, EmptyBinary, atOne, fuel);
    TopFromPlus(fuel - 1);
  }

  /** At `3` of `1 + 2 + 3 ;` the fresh node takes its operand; the loop then moves onto `;`. */
  lemma ChainFromThree(fuel: nat)
    requires fuel == 1
    ensures BinaryLoop(SEMICOLON, false, 0, BinaryExpression(Plus, [], Some(BinaryExpression(Plus, [Term(One), Term(Two)], None))), AtThreeSemi, fuel) ==
            Ok((BinaryExpression(Plus, [Term(Three)], Some(BinaryExpression(Plus, [Term(One), Term(Two)], None))), AtSemi))
  {
    var shifted := BinaryExpression(Plus, [], Some(BinaryExpression(Plus, [Term(One), Term(Two)], None)));
    var last := BinaryExpression(Plus, [Term(Three)], Some(BinaryExpression(Plus, [Term(One), Term(Two)], None)));
    assert Prepared(shifted) == shifted && AddSubnode(shifted, Term(Three)) == last;
    assert StepOn(false, last, AtThreeSemi) == AtSemi;
    LoopOperand(SEMICOLON, false, 0, shifted, AtThreeSemi, fuel);
  }

  /** At the second `+` the complete node `1 + 2` is shifted into the left slot of a fresh node, which takes the `+`. */
  lemma ChainFromSecondPlus(fuel: nat)
    requires fuel == 2
    ensures BinaryLoop(SEMICOLON, false, 0, BinaryExpression(Plus, [Term(One), Term(Two)], None), PState(Plus, Three, [Semi]), fuel) ==
            Ok((BinaryExpression(Plus, [Term(Three)], Some(BinaryExpression(Plus, [Term(One), Term(Two)], None))), AtSemi))
  {
    var first := BinaryExpression(Plus, [Term(One), Term(Two)], None);
    var shifted := BinaryExpression(Plus, [], Some(first));
    assert Prepared(first) == Shift(first) && Shift(first).(Operator := Plus) == shifted;
    assert StepOn(false, shifted, PState(Plus, Three, [Semi])) == AtThreeSemi;
    LoopOperator(SEMICOLON, false, 0, first, PState(Plus, Three, [Semi]), fuel);
    ChainFromThree(fuel - 1);
  }

  /** At `2` the peeked `+` does not bind tighter than `+`: `2` completes the node `1 + 2`. */
  lemma ChainFromTwo(fuel: nat)
    requires fuel == 3
    ensures BinaryLoop(SEMICOLON, false, 0, BinaryExpression(Plus, [Term(One)], None), PState(Two, Plus, [Three, Semi]), fuel) ==
            Ok((BinaryExpression(Plus, [Term(Three)], Some(BinaryExpression(Plus, [Term(One), Term(Two)], None))), AtSemi))
  {
    var onePlus := BinaryExpression(Plus, [Term(One)], None);
    var first := BinaryExpression(Plus, [Term(One), Term(Two)], None);
    assert Prepared(onePlus) == onePlus && AddSubnode(onePlus, Term(Two)) == first;
    assert StepOn(false, first, PState(Two, Plus, [Three, Semi])) == PState(Plus, Three, [Semi]);
    LoopOperand(SEMICOLON, false, 0, onePlus, PState(Two, Plus, [Three, Semi]), fuel);
    ChainFromSecondPlus(fuel - 1);
  }

  /** The first `+` of `1 + 2 + 3 ;` becomes the operator of the node holding `1`. */
  lemma ChainFromPlus(fuel: nat)
    requires fuel == 4
    ensures BinaryLoop(SEMICOLON, false, 0, BinaryExpression(NoToken, [Term(One)], None), PState(Plus, Two, [Plus, Three, Semi]), fuel) ==
            Ok((BinaryExpression(Plus, [Term(Three)], Some(BinaryExpression(Plus, [Term(One), Term(Two)], None))), AtSemi))
  {
    var atPlus := PState(Plus, Two, [Plus, Three, Semi]);
    var one := BinaryExpression(NoToken, [Term(One)], None);
    var onePlus := BinaryExpression(Plus, [Term(One)], None);
    assert Prepared(one) == one && one.(Operator := Plus) == onePlus;
    assert StepOn(false, onePlus, atPlus) == PState(Two, Plus, [Three, Semi]);
    LoopOperator(SEMICOLON, false, 0, one, atPlus, fuel);
    ChainFromTwo(fuel - 1);
  }

  /**
   * `1 + 2 + 3 ;`: at top level the complete node `1 + 2` is shifted into
   * the left slot of a fresh node, which takes the second `+` and the `3`,
   * so the chain nests to the left.
   */
  lemma ChainNestsLeft(fuel: nat)
    requires fuel == 5
    ensures ParseExpr(SEMICOLON, PState(One, Plus, [Two, Plus, Three, Semi]), fuel) ==
            Ok((Binary(BinaryExpression(Plus, [Term(Three)], Some(BinaryExpression(Plus, [Term(One), Term(Two)], None)))), AtSemi))
  {
    var atOne := PState(One, Plus, [Two, Plus, Three, Semi]);
    var atPlus := PState(Plus, Two, [Plus, Three, Semi]);
    var one := BinaryExpression(NoToken, [Term(One)], None);
    assert Prepared(EmptyBinary) == EmptyBinary && AddSubnode(EmptyBinary, Term(One)) == one;
    assert StepOn(false, one, atOne) == atPlus;
    LoopOperand(SEMICOLON, false, 0, EmptyBinary, atOne, fuel);
    ChainFromPlus(fuel - 1);
  }

  /** One loop iteration that takes a parenthesised operand. */
  lemma LoopParen(end: TokenType, rhs: bool, prec: int, e: BinaryExpression, st: PState, fuel: nat, x: Expression, st': PState)
    requires st.cur.Type != end && fuel > 0 && !(rhs && Complete(e)) && st.cur.Type == LPAREN
    requires ParseParen(st, fuel - 1) == Ok((x, st'))
    ensures var e' := AddSubnode(Prepared(e), x);
            BinaryLoop(end, rhs, prec, e, st, fuel) == BinaryLoop(end, rhs, prec, e', StepOn(rhs, e', st'), fuel - 1)
  {
    assert BinaryStep(end, rhs, prec, Prepared(e), st, fuel - 1) == Ok((AddSubnode(Prepared(e), x), st'));
  }

  /*
   * A worked parse of `(1 + 2) * 3 ;`: the parenthesised sum is the first
   * operand of `*`.
   */

  const OnePlusTwo: BinaryExpression := BinaryExpression(Plus, [Term(One), Term(Two)], None)
  const AtClose: PState := PState(Close, Times, [Three, Semi])

  /** Inside the parentheses: `1 + 2` up to the `)`, which the loop stops on. */
  lemma SumUpToClose(fuel: nat)
    requires fuel == 3
    ensures ParseExpr(RPAREN, PState(One, Plus, [Two, Close, Times, Three, Semi]), fuel) == Ok((Binary(OnePlusTwo), AtClose))
  {
    var atOne := PState(One, Plus, [Two, Close, Times, Three, Semi]);
    var atPlus := PState(Plus, Two, [Close, Times, Three, Semi]);
    var one := BinaryExpression(NoToken, [Term(One)], None);
    assert Prepared(EmptyBinary) == EmptyBinary && AddSubnode(EmptyBinary, Term(One)) == one;
    assert StepOn(false, one, atOne) == atPlus;
    LoopOperand(RPAREN, false, 0, EmptyBinary, atOne, fuel);
    SumFromPlus(fuel - 1);
  }

  /** The `+` of the sum becomes the operator of the node holding `1`. */
  lemma SumFromPlus(fuel: nat)
    requires fuel == 2
    ensures BinaryLoop(RPAREN, false, 0, BinaryExpression(NoToken, [Term(One)], None), PState(Plus, Two, [Close, Times, Three, Semi]), fuel) ==
            Ok((OnePlusTwo, AtClose))
  {
    var atPlus := PState(Plus, Two, [Close, Times, Three, Semi]);
    var one := BinaryExpression(NoToken, [Term(One)], None);
    var onePlus := BinaryExpression(Plus, [Term(One)], None);
    assert Prepared(one) == one && one.(Operator := Plus) == onePlus;
    assert StepOn(false, onePlus, atPlus) == PState(Two, Close, [Times, Three, Semi]);
    LoopOperator(RPAREN, false, 0, one, atPlus, fuel);
    SumFromTwo(fuel - 1);
  }

  /** The `2` completes the sum, and the `)` under the cursor ends the loop. */
  lemma SumFromTwo(fuel: nat)
    requires fuel == 1
    ensures BinaryLoop(RPAREN, false, 0, BinaryExpression(Plus, [Term(One)], None), PState(Two, Close, [Times, Three, Semi]), fuel) ==
            Ok((OnePlusTwo, AtClose))
  {
    var atTwo := PState(Two, Close, [Times, Three, Semi]);
    var onePlus := BinaryExpression(Plus, [Term(One)], None);
    assert Prepared(onePlus) == onePlus && AddSubnode(onePlus, Term(Two)) == OnePlusTwo;
    assert StepOn(false, OnePlusTwo, atTwo) == AtClose;
    LoopOperand(RPAREN, false, 0, onePlus, atTwo, fuel);
    assert BinaryLoop(RPAREN, false, 0, OnePlusTwo, AtClose, fuel - 1) == Ok((OnePlusTwo, AtClose));
  }

  /** The parenthesised sum: one `(`, no `)` peeked after the `)` the inner loop stopped on, so the counter nets to zero. */
  lemma ParenSum(fuel: nat)
    requires fuel == 3
    ensures ParseParen(PState(Open, One, [Plus, Two, Close, Times, Three, Semi]), fuel) ==
            Ok((Paren(Open, Binary(OnePlusTwo), Close), AtClose))
  {
    var st := PState(Open, One, [Plus, Two, Close, Times, Three, Semi]);
    var atOne := PState(One, Plus, [Two, Close, Times, Three, Semi]);
    assert OpenRun(st, 0, NoToken) == (1, Open, atOne);
    SumUpToClose(fuel);
    assert CloseRun(AtClose, 1) == (1, AtClose);
  }

  /** After the parenthesis: `*` becomes the operator and `3` completes the node. */
  lemma ProductAfterParen(fuel: nat)
    requires fuel == 2
    ensures var first := BinaryExpression(NoToken, [Paren(Open, Binary(OnePlusTwo), Close)], None);
            BinaryLoop(SEMICOLON, false, 0, first, AtTimes, fuel) ==
            Ok((BinaryExpression(Times, [Paren(Open, Binary(OnePlusTwo), Close), Term(Three)], None), AtSemi))
  {
    var p := Paren(Open, Binary(OnePlusTwo), Close);
    var first := BinaryExpression(NoToken, [p], None);
    var times := BinaryExpression(Times, [p], None);
    var whole := BinaryExpression(Times, [p, Term(Three)], None);
    assert Prepared(first) == first && first.(Operator := Times) == times;
    assert StepOn(false, times, AtTimes) == AtThreeSemi;
    LoopOperator(SEMICOLON, false, 0, first, AtTimes, fuel);
    assert Prepared(times) == times && AddSubnode(times, Term(Three)) == whole;
    assert StepOn(false, whole, AtThreeSemi) == AtSemi;
    LoopOperand(SEMICOLON, false, 0, times, AtThreeSemi, fuel - 1);
    assert BinaryLoop(SEMICOLON, false, 0, whole, AtSemi, fuel - 2) == Ok((whole, AtSemi));
  }

  /**
   * `(1 + 2) * 3 ;`: the top node's operator is `*`, its first operand the
   * parenthesised `1 + 2` and its second the term `3`.
   */
  lemma ParenGroupsFirst(fuel: nat)
    requires fuel == 6
    ensures ParseExpr(SEMICOLON, PState(Open, One, [Plus, Two, Close, Times, Three, Semi]), fuel) ==
            Ok((Binary(BinaryExpression(Times, [Paren(Open, Binary(OnePlusTwo), Close), Term(Three)], None)), AtSemi))
  {
    var st := PState(Open, One, [Plus, Two, Close, Times, Three, Semi]);
    var p := Paren(Open, Binary(OnePlusTwo), Close);
    var first := BinaryExpression(NoToken, [p], None);
    ParenSum(fuel - 3);
    ParenFuel(st, fuel - 3, fuel - 1);
    assert Prepared(EmptyBinary) == EmptyBinary && AddSubnode(EmptyBinary, p) == first;
    assert StepOn(false, first, AtClose) == AtTimes;
    LoopParen(SEMICOLON, false, 0, EmptyBinary, st, fuel, p, AtClose);
    ProductAfterParen(2);
    LoopFuel(SEMICOLON, false, 0, first, AtTimes, 2, fuel - 1);
  }

  /* ---------------------------------------------------------------- */
  /* Statements                                                        */
  /* ---------------------------------------------------------------- */

  /**
   * `parseLetStatement` fails as invalid exactly when the lexeme after `let`,
   * or after its identifier, is not `:=`; otherwise its outcome is that of the
   * expression up to `;`, under the identifier when there is one.
   */
  lemma LetOutcome(st: PState, fuel: nat)
    ensures var named := if st.peek.Type == IDENT then Advance(st) else st;
            var r := ParseLet(st, fuel);
            (r == Err(InvalidLet) <==> named.peek.Type != ASSIGN) &&
            (named.peek.Type == ASSIGN ==>
               var x := ParseExpr(SEMICOLON, Advance(Advance(named)), fuel);
               (x.Err? ==> r == Err(x.error)) &&
               (x.Ok? ==> r.Ok? && r.value.0.Token == st.cur && r.value.0.Expr == x.value.0 && r.value.1 == x.value.1 &&
                          (r.value.0.Name.Some? <==> st.peek.Type == IDENT) &&
                          (st.peek.Type == IDENT ==> r.value.0.Name.value == Identifier(st.peek, st.peek.Literal))))
  {
    var named := if st.peek.Type == IDENT then Advance(st) else st;
    if named.peek.Type == ASSIGN {
      ExprErrors(SEMICOLON, Advance(Advance(named)), fuel);
    }
  }

  /** A `let` without an identifier never gives a statement: it is invalid, or it fails at the scope insert. */
  lemma NamelessLetFails(st: PState, scope: Scope, fuel: nat)
    requires st.cur.Type == LET && st.peek.Type != IDENT
    ensures ParseStmt(st, scope, fuel).Err?
    ensures st.peek.Type == ASSIGN && ParseExpr(SEMICOLON, Advance(Advance(st)), fuel).Ok? ==>
              ParseStmt(st, scope, fuel) == Err(NilName)
  {
  }

  /** What a statement does to the scope: a `let` binds its name to itself, anything else leaves it. */
  function Bound(scope: Scope, s: Statement): Scope {
    if s.Let? && s.Stmt.Name.Some? then scope[s.Stmt.Name.value.Value := s.Stmt] else scope
  }

  /**
   * `parseStatement` on its own lexeme: `const`, `return` and every lexeme
   * other than `let`, `(` and an integer give no statement and leave state
   * and scope alone; a statement that is given updates the scope only by
   * its own binding, and an expression statement records the lexeme it
   * started at.
   */
  lemma StatementShape(st: PState, scope: Scope, fuel: nat)
    ensures var r := ParseStmt(st, scope, fuel);
            (st.cur.Type != LET && st.cur.Type != LPAREN && st.cur.Type != INT ==> r == Ok((None, scope, st))) &&
            (r.Ok? && r.value.0.Some? ==> r.value.1 == Bound(scope, r.value.0.value)) &&
            (r.Ok? && r.value.0.None? ==> r.value.1 == scope) &&
            (r.Ok? && r.value.0.Some? && r.value.0.value.ExpressionStatement? ==> r.value.0.value.Token == st.cur) &&
            (r.Ok? && r.value.0.Some? && r.value.0.value.Let? ==> st.cur.Type == LET && r.value.0.value.Stmt.Name.Some?)
  {
  }

  /** The scope after binding each `let` of `stmts` in order: a later `let` of a name overwrites an earlier one. */
  function BindAll(scope: Scope, stmts: seq<Statement>): Scope
    decreases |stmts|
  {
    if stmts == [] then scope else BindAll(Bound(scope, stmts[0]), stmts[1..])
  }

  lemma {:induction false} BindAllAppend(scope: Scope, stmts: seq<Statement>, s: Statement)
    ensures BindAll(scope, stmts + [s]) == Bound(BindAll(scope, stmts), s)
    decreases |stmts|
  {
    if stmts == [] {
      assert [s][1..] == [];
    } else {
      assert (stmts + [s])[1..] == stmts[1..] + [s];
      BindAllAppend(Bound(scope, stmts[0]), stmts[1..], s);
    }
  }

  /**
   * `ParseProgram`'s loop keeps the statements collected so far in front of
   * those it adds, in source order, and its final scope is the start scope
   * with the `let` statements it added bound one after the other.
   */
  lemma {:induction false} ProgramCollects(st: PState, scope: Scope, stmts: seq<Statement>, fuel: nat)
    ensures var r := ProgramLoop(st, scope, stmts, fuel);
            r.Ok? ==> stmts <= r.value.0 && r.value.1 == BindAll(scope, r.value.0[|stmts|..])
    decreases fuel
  {
    if st.cur.Type == EOF {
      ProgramDone(st, scope, stmts, fuel);
    } else if ProgramLoop(st, scope, stmts, fuel).Ok? {
      var o, scope', st' := ProgramAdvance(st, scope, stmts, fuel);
      ProgramCollects(Advance(st'), scope', Kept(stmts, o), fuel - 1);
      CollectStep(scope, o, scope', stmts, ProgramLoop(st, scope, stmts, fuel).value.0);
    }
  }

  /** A loop at EOF collects nothing more and leaves the scope as it is. */
  lemma ProgramDone(st: PState, scope: Scope, stmts: seq<Statement>, fuel: nat)
    requires st.cur.Type == EOF
    ensures ProgramLoop(st, scope, stmts, fuel) == Ok((stmts, scope, st))
    ensures BindAll(scope, stmts[|stmts|..]) == scope
  {
    assert stmts[|stmts|..] == [];
  }

  /** One iteration of a loop that succeeds: the statement it parses updates the scope only by its own binding. */
  lemma ProgramAdvance(st: PState, scope: Scope, stmts: seq<Statement>, fuel: nat) returns (o: Option<Statement>, scope': Scope, st': PState)
    requires ProgramLoop(st, scope, stmts, fuel).Ok? && st.cur.Type != EOF
    ensures fuel > 0 && ProgramLoop(st, scope, stmts, fuel) == ProgramLoop(Advance(st'), scope', Kept(stmts, o), fuel - 1)
    ensures (o.Some? ==> scope' == Bound(scope, o.value)) && (o.None? ==> scope' == scope)
  {
    ProgramLoopStep(st, scope, stmts, fuel);
    StatementShape(st, scope, fuel - 1);
    var s := ParseStmt(st, scope, fuel - 1);
    o, scope', st' := s.value.0, s.value.1, s.value.2;
  }

  /** One statement kept in front of the rest: binding it and then the rest is binding all of them. */
  lemma CollectStep(scope: Scope, o: Option<Statement>, scope': Scope, stmts: seq<Statement>, all: seq<Statement>)
    requires (o.Some? ==> scope' == Bound(scope, o.value)) && (o.None? ==> scope' == scope)
    requires Kept(stmts, o) <= all
    ensures stmts <= all && BindAll(scope, all[|stmts|..]) == BindAll(scope', all[|Kept(stmts, o)|..])
  {
    if o.Some? {
      var tail := all[|stmts|..];
      assert tail[0] == o.value && tail[1..] == all[|stmts| + 1..];
    }
  }

  /** A whole parse from a fresh parser: the final scope is that of the program's `let` statements, in order. */
  lemma ParseBindsLets(input: seq<byte>, fuel: nat)
    requires StringsClosed(input, 0)
    ensures var r := Parse(input, fuel);
            r.Ok? ==> r.value.1 == BindAll(map[], r.value.0)
  {
    ProgramCollects(Start(Stream(input, 0)), map[], [], fuel);
  }

  /*
   * The statement layer and `ParseProgram` do not depend on the bound
   * either, once it suffices.
   */

  lemma LetFuel(st: PState, fuel: nat, more: nat)
    requires ParseLet(st, fuel) != Err(OutOfFuel) && fuel <= more
    ensures ParseLet(st, more) == ParseLet(st, fuel)
  {
    var named := if st.peek.Type == IDENT then Advance(st) else st;
    if named.peek.Type == ASSIGN {
      ExprFuel(SEMICOLON, Advance(Advance(named)), fuel, more);
    }
  }

  lemma StmtFuel(st: PState, scope: Scope, fuel: nat, more: nat)
    requires ParseStmt(st, scope, fuel) != Err(OutOfFuel) && fuel <= more
    ensures ParseStmt(st, scope, more) == ParseStmt(st, scope, fuel)
  {
    if st.cur.Type == LET {
      LetFuel(st, fuel, more);
    } else if st.cur.Type == LPAREN || st.cur.Type == INT {
      ExprFuel(SEMICOLON, st, fuel, more);
    }
  }

  lemma {:induction false} ProgramFuel(st: PState, scope: Scope, stmts: seq<Statement>, fuel: nat, more: nat)
    requires ProgramLoop(st, scope, stmts, fuel) != Err(OutOfFuel) && fuel <= more
    ensures ProgramLoop(st, scope, stmts, more) == ProgramLoop(st, scope, stmts, fuel)
    decreases fuel, 1
  {
    if st.cur.Type == EOF {
      ProgramDone(st, scope, stmts, fuel);
      ProgramDone(st, scope, stmts, more);
    } else {
      ProgramFuelOn(st, scope, stmts, fuel, more);
    }
  }

  /** `ProgramFuel` for a loop that has an iteration to run. */
  lemma {:induction false} ProgramFuelOn(st: PState, scope: Scope, stmts: seq<Statement>, fuel: nat, more: nat)
    requires ProgramLoop(st, scope, stmts, fuel) != Err(OutOfFuel) && fuel <= more && st.cur.Type != EOF
    ensures ProgramLoop(st, scope, stmts, more) == ProgramLoop(st, scope, stmts, fuel)
    decreases fuel, 0
  {
    var st', scope', stmts', goesOn := ProgramFuelStep(st, scope, stmts, fuel, more);
    if goesOn {
      ProgramFuel(st', scope', stmts', fuel - 1, more - 1);
    }
  }

  /** An iteration of `ParseProgram`'s loop under both bounds: it fails with the same error, or leaves the same state to go on from. */
  lemma ProgramFuelStep(st: PState, scope: Scope, stmts: seq<Statement>, fuel: nat, more: nat)
    returns (st': PState, scope': Scope, stmts': seq<Statement>, goesOn: bool)
    requires ProgramLoop(st, scope, stmts, fuel) != Err(OutOfFuel) && fuel <= more && st.cur.Type != EOF
    ensures 0 < fuel
    ensures goesOn ==> ProgramLoop(st', scope', stmts', fuel - 1) == ProgramLoop(st, scope, stmts, fuel)
    ensures goesOn ==> ProgramLoop(st', scope', stmts', more - 1) == ProgramLoop(st, scope, stmts, more)
    ensures goesOn ==> ProgramLoop(st', scope', stmts', fuel - 1) != Err(OutOfFuel)
    ensures !goesOn ==> ProgramLoop(st, scope, stmts, more) == ProgramLoop(st, scope, stmts, fuel)
  {
    ProgramLoopStep(st, scope, stmts, fuel);
    StmtFuel(st, scope, fuel - 1, more - 1);
    ProgramUnfold(st, scope, stmts, more);
    var s := ParseStmt(st, scope, fuel - 1);
    st', scope', stmts', goesOn := st, scope, stmts, s.Ok?;
    if s.Ok? {
      st', scope', stmts' := Advance(s.value.2), s.value.1, Kept(stmts, s.value.0);
    }
  }

  /** One iteration of `ParseProgram`'s loop that does not stop at once. */
  lemma ProgramUnfold(st: PState, scope: Scope, stmts: seq<Statement>, fuel: nat)
    requires st.cur.Type != EOF && fuel > 0
    ensures var s := ParseStmt(st, scope, fuel - 1);
            ProgramLoop(st, scope, stmts, fuel) ==
            if s.Err? then Err(s.error) else ProgramLoop(Advance(s.value.2), s.value.1, Kept(stmts, s.value.0), fuel - 1)
  {
  }

  /** A whole parse that does not run out of fuel has the same outcome under any larger bound. */
  lemma ParseFuel(input: seq<byte>, fuel: nat, more: nat)
    requires StringsClosed(input, 0) && Parse(input, fuel) != Err(OutOfFuel) && fuel <= more
    ensures Parse(input, more) == Parse(input, fuel)
  {
    ProgramFuel(Start(Stream(input, 0)), map[], [], fuel, more);
  }

  /**
   * `let name := v` followed by a lexeme that is not an operator, where `v`
   * is neither `(` nor a prefix operator: a statement binding `name` to the
   * term `v`, entered in the scope under the identifier's text, with the
   * cursor left on `v`.
   */
  lemma LetOfOneTermBinds(t: Lexeme, name: Lexeme, assign: Lexeme, v: Lexeme, next: Lexeme, rest: seq<Lexeme>, scope: Scope, fuel: nat)
    requires t.Type == LET && name.Type == IDENT && assign.Type == ASSIGN
    requires v.Type != LPAREN && !IsPrefix(v.Type) && !IsOperator(next.Type)
    ensures var stmt := LetStatement(t, Some(Identifier(name, name.Literal)), Term(v));
            ParseStmt(PState(t, name, [assign, v, next] + rest), scope, fuel) ==
            Ok((Some(Let(stmt)), scope[name.Literal := stmt], PState(v, next, rest)))
  {
    var st := PState(t, name, [assign, v, next] + rest);
    assert Advance(st) == PState(name, assign, [v, next] + rest);
    assert Advance(Advance(Advance(st))) == PState(v, next, rest);
  }

  /** One iteration of `ParseProgram`'s loop whose statement is parsed: the loop goes on after it. */
  lemma ProgramLoopOn(st: PState, scope: Scope, stmts: seq<Statement>, fuel: nat, o: Option<Statement>, scope': Scope, st': PState)
    requires st.cur.Type != EOF && fuel > 0 && ParseStmt(st, scope, fuel - 1) == Ok((o, scope', st'))
    ensures ProgramLoop(st, scope, stmts, fuel) == ProgramLoop(Advance(st'), scope', Kept(stmts, o), fuel - 1)
  {
  }

  /** The lexemes the lexer hands out for `let y := 5;` before its cursor leaves the input. */
  lemma LetLineStream()
    ensures StringsClosed(LetLine, 0)
    ensures Stream(LetLine, 0) == [Lexeme(LET, LetWord), Lexeme(IDENT, [0x79]), Lexeme(ASSIGN, [0x3A, 0x3D]),
                                   Lexeme(INT, [0x35]), Lexeme(SEMICOLON, [0x3B])]
  {
    LetLineHead();
    LetLineTail();
    StreamOfScans(LetLine, 0, 3, 5, 8, 10, 11, Lexeme(LET, LetWord), Lexeme(IDENT, [0x79]), Lexeme(ASSIGN, [0x3A, 0x3D]),
                                   Lexeme(INT, [0x35]), Lexeme(SEMICOLON, [0x3B]));
  }

  /** The `let` statement `let y := 5;` gives. */
  const LetY: LetStatement := LetStatement(Lexeme(LET, LetWord), Some(Identifier(Lexeme(IDENT, [0x79]), [0x79])), Term(Lexeme(INT, [0x35])))

  /**
   * The loop of `ParseProgram` over `let name := v ;` and nothing more: one
   * iteration for the statement, one for the `;` it leaves current; the
   * statement is appended and its name bound.
   */
  lemma LetLineLoop(t: Lexeme, name: Lexeme, assign: Lexeme, v: Lexeme, scope: Scope, stmts: seq<Statement>, fuel: nat)
    requires t.Type == LET && name.Type == IDENT && assign.Type == ASSIGN
    requires v.Type != LPAREN && v.Type != EOF && !IsPrefix(v.Type) && fuel >= 2
    ensures var stmt := LetStatement(t, Some(Identifier(name, name.Literal)), Term(v));
            ProgramLoop(PState(t, name, [assign, v, Semi]), scope, stmts, fuel) ==
            Ok((stmts + [Let(stmt)], scope[name.Literal := stmt], PState(Lexeme(EOF, []), Lexeme(EOF, []), [])))
  {
    var stmt := LetStatement(t, Some(Identifier(name, name.Literal)), Term(v));
    LetOfOneTermBinds(t, name, assign, v, Semi, [], scope, fuel - 1);
    assert [assign, v, Semi] + [] == [assign, v, Semi];
    ProgramLoopOn(PState(t, name, [assign, v, Semi]), scope, stmts, fuel, Some(Let(stmt)), scope[name.Literal := stmt], PState(v, Semi, []));
    assert Advance(PState(v, Semi, [])) == AtSemi;
    SemicolonSkipped(scope[name.Literal := stmt], stmts + [Let(stmt)], fuel - 1);
  }

  /** A `;` left current with nothing after it: the loop skips it and stops at EOF. */
  lemma SemicolonSkipped(scope: Scope, stmts: seq<Statement>, fuel: nat)
    requires fuel >= 1
    ensures ProgramLoop(AtSemi, scope, stmts, fuel) == Ok((stmts, scope, PState(Lexeme(EOF, []), Lexeme(EOF, []), [])))
  {
    assert ParseStmt(AtSemi, scope, fuel - 1) == Ok((None, scope, AtSemi));
    ProgramLoopOn(AtSemi, scope, stmts, fuel, None, scope, AtSemi);
  }

  /**
   * A whole parse of an input that lexes to `let name := v ;`: that one
   * statement, and a scope binding the name to it.
   */
  lemma LetOnlyParses(input: seq<byte>, t: Lexeme, name: Lexeme, assign: Lexeme, v: Lexeme, fuel: nat)
    requires StringsClosed(input, 0) && Stream(input, 0) == [t, name, assign, v, Semi]
    requires t.Type == LET && name.Type == IDENT && assign.Type == ASSIGN
    requires v.Type != LPAREN && v.Type != EOF && !IsPrefix(v.Type) && fuel >= 2
    ensures var stmt := LetStatement(t, Some(Identifier(name, name.Literal)), Term(v));
            Parse(input, fuel) == Ok(([Let(stmt)], map[name.Literal := stmt]))
  {
    assert Start(Stream(input, 0)) == PState(t, name, [assign, v, Semi]);
    var stmt := LetStatement(t, Some(Identifier(name, name.Literal)), Term(v));
    LetLineLoop(t, name, assign, v, map[], [], fuel);
    assert [] + [Let(stmt)] == [Let(stmt)];
  }

  /**
   * A whole parse of `let y := 5;`: one `let` statement whose name is `y`
   * and whose expression is the literal `5`, and a scope that binds `y` to
   * that statement.
   */
  lemma LetLineParses(fuel: nat)
    requires fuel >= 2
    ensures StringsClosed(LetLine, 0) && Parse(LetLine, fuel) == Ok(([Let(LetY)], map[[0x79] := LetY]))
  {
    LetLineStream();
    LetOnlyParses(LetLine, Lexeme(LET, LetWord), Lexeme(IDENT, [0x79]), Lexeme(ASSIGN, [0x3A, 0x3D]), Lexeme(INT, [0x35]), fuel);
  }
}
