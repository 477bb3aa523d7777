/**
 * The syntax tree of src/ast.ts and its printing. `Program`, the let,
 * return and expression statements, `Identifier` and `IntegerLiteral` are
 * the classes that file defines; the other nodes the parser, evaluator and
 * compiler import are given the Monkey book's fields and printing. A
 * child the parser could not build (`undefined` in the source) is `None`.
 */
module Ast {
  import opened Wrappers
  import opened Tokens
  import Text

  datatype Expression =
    | Identifier(token: Token, value: string)
    | IntegerLiteral(token: Token, intValue: int)
    | BoolExpression(token: Token, boolValue: bool)
    | StringLiteral(token: Token, value: string)
    | PrefixExpression(token: Token, operator: string, right: Option<Expression>)
    | InfixExpression(token: Token, left: Option<Expression>, operator: string, right: Option<Expression>)
    | IfExpression(token: Token, condition: Option<Expression>, consequence: Block, alternative: Option<Block>)
    | FunctionLiteral(token: Token, parameters: seq<Expression>, body: Block)
    | CallExpression(token: Token, func: Expression, args: seq<Expression>)
    | ArrayLiteral(token: Token, elements: seq<Expression>)
    | IndexExpression(token: Token, collection: Expression, index: Expression)
    | HashLiteral(token: Token, pairs: seq<Pair>)

  /** A key and its value in a hash literal, in source order. */
  datatype Pair = Pair(key: Expression, value: Expression)

  datatype Block = BlockStatement(token: Token, statements: seq<Statement>)

  datatype Statement =
    | LetStatement(token: Token, name: Expression, value: Option<Expression>)
    | ReturnStatement(token: Token, returnValue: Option<Expression>)
    | ExpressionStatement(token: Token, expression: Option<Expression>)

  datatype Program = Program(statements: seq<Statement>)

  /** `Program.tokenLiteral`: the first statement's literal, or "" without statements. */
  function ProgramTokenLiteral(p: Program): (s: string)
    ensures p.statements == [] ==> s == ""
    ensures p.statements != [] ==> s == p.statements[0].token.literal
  {
    if |p.statements| > 0 then p.statements[0].token.literal else ""
  }

  /** `String(x)` of a child that may be `undefined`. */
  function OptionString(e: Option<Expression>): string
    decreases e, 0
  {
    match e
    case None => "undefined"
    case Some(x) => ExpressionString(x)
  }

  /** `toString` of an expression. */
  function ExpressionString(e: Expression): string
    decreases e, 1
  {
    match e
    case Identifier(_, value) => value
    case IntegerLiteral(_, value) => Text.IntToString(value)
    case BoolExpression(token, _) => token.literal
    case StringLiteral(token, _) => token.literal
    case PrefixExpression(_, operator, right) => "(" + operator + OptionString(right) + ")"
    case InfixExpression(_, left, operator, right) =>
      "(" + OptionString(left) + " " + operator + " " + OptionString(right) + ")"
    case IfExpression(_, condition, consequence, alternative) =>
      "if" + OptionString(condition) + " " + BlockString(consequence)
      + (match alternative case None => "" case Some(b) => "else " + BlockString(b))
    case FunctionLiteral(token, parameters, body) =>
      token.literal + "(" + Text.Join(ExpressionStrings(parameters), ", ") + ") " + BlockString(body)
    case CallExpression(_, func, args) => ExpressionString(func) + "(" + Text.Join(ExpressionStrings(args), ", ") + ")"
    case ArrayLiteral(_, elements) => "[" + Text.Join(ExpressionStrings(elements), ", ") + "]"
    case IndexExpression(_, collection, index) => "(" + ExpressionString(collection) + "[" + ExpressionString(index) + "])"
    case HashLiteral(_, pairs) => "{" + Text.Join(PairStrings(pairs), ", ") + "}"
  }

  function ExpressionStrings(es: seq<Expression>): (r: seq<string>)
    ensures |r| == |es|
    decreases es, 2
  {
    if es == [] then [] else [ExpressionString(es[0])] + ExpressionStrings(es[1..])
  }

  function PairStrings(ps: seq<Pair>): (r: seq<string>)
    ensures |r| == |ps|
    decreases ps, 2
  {
    if ps == [] then [] else [PairString(ps[0])] + PairStrings(ps[1..])
  }

  function PairString(p: Pair): string
    decreases p, 2
  {
    ExpressionString(p.key) + ":" + ExpressionString(p.value)
  }

  /** `toString` of a statement: let and return print an absent value as nothing, an expression statement as "undefined". */
  function StatementString(s: Statement): string
    decreases s, 1
  {
    match s
    case LetStatement(token, name, value) =>
      token.literal + " " + ExpressionString(name) + " = " + (if value.Some? then ExpressionString(value.value) else "") + ";"
    case ReturnStatement(token, returnValue) =>
      token.literal + " " + (if returnValue.Some? then ExpressionString(returnValue.value) else "") + ";"
    case ExpressionStatement(_, expression) => OptionString(expression)
  }

  /** A block prints its statements one after the other. */
  function BlockString(b: Block): string
    decreases b, 1
  {
    StatementsString(b.statements)
  }

  function StatementsString(ss: seq<Statement>): string
    decreases ss, 2
  {
    if ss == [] then "" else StatementString(ss[0]) + StatementsString(ss[1..])
  }

  /** `Program.toString`: the statements joined by newlines. */
  function ProgramString(p: Program): string {
    Text.Join(StatementStrings(p.statements), "\n")
  }

  function StatementStrings(ss: seq<Statement>): (r: seq<string>)
    ensures |r| == |ss|
    ensures forall i :: 0 <= i < |ss| ==> r[i] == StatementString(ss[i])
  {
    if ss == [] then [] else [StatementString(ss[0])] + StatementStrings(ss[1..])
  }

  /**
   * An integer literal parsed from a spelling without leading zeros prints
   * as that spelling again; its token literal is the spelling itself.
   */
  lemma IntegerLiteralPrintsItsSpelling(literal: string)
    requires Text.IsCanonical(literal)
    ensures ExpressionString(IntegerLiteral(Token(INT, literal), Text.DecimalValue(literal))) == literal
  {
    Text.CanonicalRoundTrip(literal);
  }

  /** A let statement without a value prints "let NAME = ;". */
  lemma LetWithoutValue(name: string)
    ensures StatementString(LetStatement(Token(LET, "let"), Identifier(Token(IDENT, name), name), None))
         == "let " + name + " = ;"
  {
  }

  /** The program of the AST test: one let statement binding another variable prints as "let myVar = anotherVar;". */
  lemma PrintLetProgram()
    ensures ProgramString(Program([LetStatement(Token(LET, "let"), Identifier(Token(IDENT, "myVar"), "myVar"),
      Some(Identifier(Token(IDENT, "anotherVar"), "anotherVar")))])) == "let myVar = anotherVar;"
  {
    var s := LetStatement(Token(LET, "let"), Identifier(Token(IDENT, "myVar"), "myVar"),
      Some(Identifier(Token(IDENT, "anotherVar"), "anotherVar")));
    assert StatementStrings([s]) == [StatementString(s)];
  }

  /** Program printing puts a newline between statements, so two expression statements print as "X\nY". */
  lemma ProgramSeparatesStatements(a: Statement, b: Statement)
    ensures ProgramString(Program([a, b])) == StatementString(a) + "\n" + StatementString(b)
  {
    assert StatementStrings([a, b]) == [StatementString(a), StatementString(b)];
    assert StatementStrings([a, b])[..1] == [StatementString(a)];
  }
}
