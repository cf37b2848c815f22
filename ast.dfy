/**
 * The syntax tree the parser builds: unary, parenthesised and binary
 * expressions, `let` and expression statements, and the program.
 *
 * go-vtwin's `ast` package, which declares these, is not part of this
 * model; the shapes below carry exactly the fields the parser reads or
 * writes, and the node helpers are the minimal definitions its case order
 * implies.
 */
module Ast {
  import opened Wrappers
  import opened Token

  datatype Expression =
    | Unary(Operator: Lexeme, Operand: Lexeme)
    | Paren(Lparen: Lexeme, Inner: Expression, Rparen: Lexeme)
    | Binary(Node: BinaryExpression)

  /**
   * A node of the precedence engine while it is being filled in: an
   * operator, the subnodes collected so far, and the node completed before
   * it, shifted into the left slot.
   */
  datatype BinaryExpression = BinaryExpression(Operator: Lexeme, Subnodes: seq<Expression>, Left: Option<BinaryExpression>)

  /** The zero node the engine starts from. */
  const EmptyBinary: BinaryExpression := BinaryExpression(NoToken, [], None)

  /** `completeNode`: an operator is set and both operands are present. */
  predicate Complete(e: BinaryExpression) {
    IsOperator(e.Operator.Type) && |e.Subnodes| == 2
  }

  /** `emptyNode`: no operand collected yet. */
  predicate Empty(e: BinaryExpression) {
    |e.Subnodes| == 0
  }

  /** `addSubnode`: one more operand, after those already collected. */
  function AddSubnode(e: BinaryExpression, x: Expression): (r: BinaryExpression)
    ensures r.Operator == e.Operator && r.Left == e.Left && r.Subnodes == e.Subnodes + [x]
  {
    e.(Subnodes := e.Subnodes + [x])
  }

  /** `shiftNode`: a fresh node whose left slot holds `e`. */
  function Shift(e: BinaryExpression): (r: BinaryExpression)
    ensures r.Left == Some(e) && Empty(r) && !IsOperator(r.Operator.Type)
  {
    BinaryExpression(NoToken, [], Some(e))
  }

  datatype Identifier = Identifier(Token: Lexeme, Value: seq<byte>)

  /** `Name` is absent when no identifier follows `let`. */
  datatype LetStatement = LetStatement(Token: Lexeme, Name: Option<Identifier>, Expr: Expression)

  datatype Statement =
    | Let(Stmt: LetStatement)
    | ExpressionStatement(Token: Lexeme, Expr: Expression)

  datatype Program = Program(Statements: seq<Statement>)

  /** The scope's bindings: a name to the `let` statement that bound it last. */
  type Scope = map<seq<byte>, LetStatement>
}
