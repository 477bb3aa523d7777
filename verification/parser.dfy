/**
 * The Pratt parser of src/parser.ts: a `Parser` object holding the lexer,
 * the current and next token and the error list. Each parse method says
 * which tokens it consumes, what it builds and which errors it adds.
 */
module Parsing {
  import opened Wrappers
  import opened Tokens
  import opened Ast
  import Lexing
  import Text

  /** `PRECEDENCE`. */
  const LOWEST: nat := 0
  const EQUALS: nat := 1
  const LESSGREATER: nat := 2
  const SUM: nat := 3
  const PRODUCT: nat := 4
  const PREFIX: nat := 5
  const CALL: nat := 6

  /** `PRECEDENCES` with `_getPrecedence`'s default: unlisted token types get LOWEST. */
  function Precedence(t: TokenType): (p: nat)
    ensures p <= PRODUCT
  {
    match t
    case EQ => EQUALS
    case NOT_EQ => EQUALS
    case LT => LESSGREATER
    case GT => LESSGREATER
    case PLUS => SUM
    case MINUS => SUM
    case SLASH => PRODUCT
    case ASTERISK => PRODUCT
    case _ => LOWEST
  }

  /** The keys of `prefixParseFns`. */
  predicate HasPrefixParseFn(t: TokenType) {
    t in {IDENT, INT, BANG, MINUS, TRUE, FALSE, LPAREN, IF}
  }

  /** The keys of `infixParseFns`. */
  predicate HasInfixParseFn(t: TokenType) {
    t in {EQ, NOT_EQ, LT, GT, PLUS, MINUS, SLASH, ASTERISK}
  }

  /**
   * Exactly the token types above LOWEST have an infix parser, so the
   * infix-expression loop never meets a token it cannot handle.
   */
  lemma InfixParsersMatchPrecedences(t: TokenType)
    ensures Precedence(t) > LOWEST <==> HasInfixParseFn(t)
  {
  }

  /** The precedence ladder: == and != below < and >, below + and -, below * and /, below prefix operators. */
  lemma PrecedenceOrder()
    ensures LOWEST < Precedence(EQ) == Precedence(NOT_EQ) < Precedence(LT) == Precedence(GT)
      < Precedence(PLUS) == Precedence(MINUS) < Precedence(ASTERISK) == Precedence(SLASH) < PREFIX
    ensures Precedence(SEMICOLON) == Precedence(EOF) == Precedence(RPAREN) == LOWEST
  {
  }

  function NoPrefixMessage(t: TokenType): string {
    "no prefix parse function for " + TypeName(t) + " found"
  }

  function PeekErrorMessage(expected: TokenType, got: TokenType): string {
    "expected next token to be " + TypeName(expected) + ", got " + TypeName(got) + " instead"
  }

  /** `parseInt(s, 10)` on a string of digits: the value of the leading digits, or `None` (NaN) when there are none. */
  function ParseDecimal(s: string): (r: Option<nat>)
    ensures r.None? <==> (s == [] || !Text.IsDecimalDigit(s[0]))
  {
    var n := LeadingDigits(s, 0);
    if n == 0 then None else Some(Text.DecimalValue(s[..n]))
  }

  function LeadingDigits(s: string, i: nat): (n: nat)
    requires i <= |s|
    ensures i <= n <= |s| && Text.IsDecimal(s[i..n])
    ensures n == i <==> (i == |s| || !Text.IsDecimalDigit(s[i]))
    ensures forall k :: i <= k < n ==> Text.IsDecimalDigit(s[k])
    decreases |s| - i
  {
    if i < |s| && Text.IsDecimalDigit(s[i]) then LeadingDigits(s, i + 1) else i
  }

  /**
   * The parser's fields as a value: the current and next token, the
   * lexer's position and the errors so far. Each parse function below
   * takes one and gives what it built together with the state after it,
   * as the corresponding method of `Parser` does.
   */
  datatype ParserState = ParserState(cur: Token, peek: Token, pos: nat, errors: seq<string>)

  /** A token other than EOF was read before the end of the input, so the held tokens bound the position. */
  predicate Consistent(input: string, s: ParserState) {
    (s.peek.tokenType != EOF ==> s.pos <= |input| + 1)
    && (s.cur.tokenType != EOF ==> s.pos <= |input| + 2)
  }

  /** A parse keeps the errors so far, never moves the lexer back, and changes no token when it reads none. */
  predicate Follows(s: ParserState, r: ParserState) {
    s.errors <= r.errors && s.pos <= r.pos && (r.pos == s.pos ==> r.cur == s.cur && r.peek == s.peek)
  }

  /** How much input is left to read; it shrinks whenever a token other than EOF is consumed. */
  function Remaining(input: string, s: ParserState): nat {
    if s.pos <= |input| + 3 then |input| + 3 - s.pos else 0
  }

  /** The state after the constructor's two `nextToken` calls on a lexer at `pos`. */
  function StartState(input: string, pos: nat): (r: ParserState)
    ensures Consistent(input, r) && r.errors == [] && pos < r.pos
    ensures r.cur == Lexing.NextTokenSpec(input, pos).0
  {
    var (first, p1) := Lexing.NextTokenSpec(input, pos);
    var (second, p2) := Lexing.NextTokenSpec(input, p1);
    Lexing.TokenWithinInput(input, pos);
    Lexing.TokenWithinInput(input, p1);
    ParserState(first, second, p2, [])
  }

  /** `nextToken`: the next token becomes current and the lexer reads one more. */
  function Advance(input: string, s: ParserState): (r: ParserState)
    requires Consistent(input, s)
    ensures Consistent(input, r) && r.cur == s.peek && r.errors == s.errors && s.pos < r.pos
    ensures s.peek.tokenType != EOF || s.cur.tokenType != EOF ==> Remaining(input, r) < Remaining(input, s)
  {
    var (next, p) := Lexing.NextTokenSpec(input, s.pos);
    Lexing.TokenWithinInput(input, s.pos);
    ParserState(s.peek, next, p, s.errors)
  }

  /** `expectAndAdvance`: advance when the next token has type t, otherwise read nothing and record one error. */
  function ExpectPeekSpec(input: string, s: ParserState, t: TokenType): (r: (bool, ParserState))
    requires Consistent(input, s)
    ensures Consistent(input, r.1) && Follows(s, r.1)
    ensures r.0 <==> s.peek.tokenType == t
    ensures r.0 ==> r.1.cur.tokenType == t && r.1.errors == s.errors && s.pos < r.1.pos
    ensures !r.0 ==> r.1.cur == s.cur && r.1.peek == s.peek && r.1.pos == s.pos
                     && r.1.errors == s.errors + [PeekErrorMessage(t, s.peek.tokenType)]
  {
    if s.peek.tokenType == t then (true, Advance(input, s))
    else (false, s.(errors := s.errors + [PeekErrorMessage(t, s.peek.tokenType)]))
  }

  /** The skip loop of the let and return parsers, stopping at ';' or, unlike the source, at EOF. */
  function SkipSpec(input: string, s: ParserState): (r: ParserState)
    requires Consistent(input, s)
    ensures Consistent(input, r) && Follows(s, r) && r.errors == s.errors
    ensures r.cur.tokenType in {SEMICOLON, EOF}
    ensures s.cur.tokenType in {SEMICOLON, EOF} ==> r == s
    decreases Remaining(input, s)
  {
    if s.cur.tokenType in {SEMICOLON, EOF} then s else SkipSpec(input, Advance(input, s))
  }

  /** `parseProgram` from state s: the statements up to EOF, leaving out the ones that failed. */
  function ParseProgramSpec(input: string, s: ParserState): (r: (Program, ParserState))
    requires Consistent(input, s)
    ensures Consistent(input, r.1) && Follows(s, r.1) && r.1.cur.tokenType == EOF
    ensures s.cur.tokenType == EOF ==> r == (Program([]), s)
  {
    var (statements, s1) := ProgramLoopSpec(input, s, []);
    (Program(statements), s1)
  }

  /** The loop of `parseProgram`, with the statements gathered so far. */
  function ProgramLoopSpec(input: string, s: ParserState, gathered: seq<Statement>): (r: (seq<Statement>, ParserState))
    requires Consistent(input, s)
    ensures Consistent(input, r.1) && Follows(s, r.1) && r.1.cur.tokenType == EOF
    ensures gathered <= r.0
    ensures s.cur.tokenType == EOF ==> r == (gathered, s)
    decreases Remaining(input, s)
  {
    if s.cur.tokenType == EOF then (gathered, s)
    else
      var (statement, s1) := ParseStatementSpec(input, s);
      ProgramLoopSpec(input, Advance(input, s1), if statement.Some? then gathered + [statement.value] else gathered)
  }

  /** `parseStatement`: let and return statements by keyword, an expression statement otherwise. */
  function ParseStatementSpec(input: string, s: ParserState): (r: (Option<Statement>, ParserState))
    requires Consistent(input, s)
    ensures Consistent(input, r.1) && Follows(s, r.1)
    ensures r.0.Some? ==> r.0.value.token == s.cur
    ensures s.cur.tokenType == LET ==> r.0.None? || r.0.value.LetStatement?
    ensures s.cur.tokenType == RETURN ==> r.0.Some? && r.0.value.ReturnStatement?
    ensures s.cur.tokenType !in {LET, RETURN} ==> r.0.Some? && r.0.value.ExpressionStatement?
    decreases Remaining(input, s), 5
  {
    match s.cur.tokenType
    case LET => ParseLetStatementSpec(input, s)
    case RETURN =>
      var (statement, s1) := ParseReturnStatementSpec(input, s);
      (Some(statement), s1)
    case _ =>
      var (statement, s1) := ParseExpressionStatementSpec(input, s);
      (Some(statement), s1)
  }

  /** The three branches of `parseStatement`, one per kind of statement. */
  lemma StatementCases(input: string, s: ParserState)
    requires Consistent(input, s)
    ensures s.cur.tokenType == LET ==> ParseStatementSpec(input, s) == ParseLetStatementSpec(input, s)
    ensures s.cur.tokenType == RETURN ==>
              ParseStatementSpec(input, s) == (Some(ParseReturnStatementSpec(input, s).0), ParseReturnStatementSpec(input, s).1)
    ensures s.cur.tokenType !in {LET, RETURN} ==>
              ParseStatementSpec(input, s) == (Some(ParseExpressionStatementSpec(input, s).0), ParseExpressionStatementSpec(input, s).1)
  {
  }

  /**
   * `parseLetStatement`: "let" IDENT "=" and then everything up to the next
   * ';'. The value is skipped, never parsed, so the statement has none.
   */
  function ParseLetStatementSpec(input: string, s: ParserState): (r: (Option<Statement>, ParserState))
    requires Consistent(input, s) && s.cur.tokenType != EOF
    ensures Consistent(input, r.1) && Follows(s, r.1)
    ensures s.peek.tokenType != IDENT ==>
              r.0.None? && r.1.errors == s.errors + [PeekErrorMessage(IDENT, s.peek.tokenType)]
    ensures r.0.None? ==> |r.1.errors| == |s.errors| + 1
    ensures r.0.Some? ==>
              r.1.errors == s.errors
              && r.0.value == LetStatement(s.cur, Identifier(s.peek, s.peek.literal), None)
              && r.1.cur.tokenType in {SEMICOLON, EOF}
    decreases Remaining(input, s), 4
  {
    var (named, s1) := ExpectPeekSpec(input, s, IDENT);
    if !named then (None, s1)
    else
      var name := Identifier(s1.cur, s1.cur.literal);
      var (hasAssign, s2) := ExpectPeekSpec(input, s1, ASSIGN);
      if !hasAssign then (None, s2)
      else (Some(LetStatement(s.cur, name, None)), SkipSpec(input, s2))
  }

  /** `parseReturnStatement`: "return" and then everything up to the next ';'; the value is skipped. */
  function ParseReturnStatementSpec(input: string, s: ParserState): (r: (Statement, ParserState))
    requires Consistent(input, s)
    ensures Consistent(input, r.1) && Follows(s, r.1) && s.pos < r.1.pos && r.1.errors == s.errors
    ensures r.0 == ReturnStatement(s.cur, None)
    ensures r.1.cur.tokenType in {SEMICOLON, EOF}
    decreases Remaining(input, s), 4
  {
    (ReturnStatement(s.cur, None), SkipSpec(input, Advance(input, s)))
  }

  /** `parseExpressionStatement`: an expression at LOWEST precedence, and the ';' after it when there is one. */
  function ParseExpressionStatementSpec(input: string, s: ParserState): (r: (Statement, ParserState))
    requires Consistent(input, s)
    ensures Consistent(input, r.1) && Follows(s, r.1)
    ensures var (e, s1) := ParseExpressionSpec(input, s, LOWEST);
      r.0 == ExpressionStatement(s.cur, e)
      && (s1.peek.tokenType == SEMICOLON ==> r.1.cur.tokenType == SEMICOLON && r.1.errors == s1.errors)
      && (s1.peek.tokenType != SEMICOLON ==> r.1 == s1)
    decreases Remaining(input, s), 4
  {
    var (e, s1) := ParseExpressionSpec(input, s, LOWEST);
    (ExpressionStatement(s.cur, e), if s1.peek.tokenType == SEMICOLON then Advance(input, s1) else s1)
  }

  /**
   * `parseExpression(p)`: a prefix parse, then infix operators for as long
   * as the next token binds tighter than p. Without a prefix parser for
   * the current token it records one error and reads nothing.
   */
  function ParseExpressionSpec(input: string, s: ParserState, p: nat): (r: (Option<Expression>, ParserState))
    requires Consistent(input, s)
    ensures Consistent(input, r.1) && Follows(s, r.1)
    ensures !HasPrefixParseFn(s.cur.tokenType) ==>
              r.0.None? && r.1 == s.(errors := s.errors + [NoPrefixMessage(s.cur.tokenType)])
    ensures HasPrefixParseFn(s.cur.tokenType) ==>
              r.1.peek.tokenType == SEMICOLON || Precedence(r.1.peek.tokenType) <= p
    decreases Remaining(input, s), 3
  {
    if !HasPrefixParseFn(s.cur.tokenType) then (None, s.(errors := s.errors + [NoPrefixMessage(s.cur.tokenType)]))
    else
      var (left, s1) := ParsePrefixSpec(input, s);
      InfixLoopSpec(input, s1, p, left)
  }

  /**
   * The loop of `parseExpression`: while the next token is not ';' and
   * binds tighter than p, it becomes the operator of an infix expression
   * whose left operand is everything parsed so far.
   */
  function InfixLoopSpec(input: string, s: ParserState, p: nat, left: Option<Expression>): (r: (Option<Expression>, ParserState))
    requires Consistent(input, s)
    ensures Consistent(input, r.1) && Follows(s, r.1)
    ensures r.1.peek.tokenType == SEMICOLON || Precedence(r.1.peek.tokenType) <= p
    ensures s.peek.tokenType == SEMICOLON || Precedence(s.peek.tokenType) <= p ==> r == (left, s)
    decreases Remaining(input, s), 2
  {
    if s.peek.tokenType == SEMICOLON || Precedence(s.peek.tokenType) <= p then (left, s)
    else
      var (e, s1) := ParseInfixSpec(input, Advance(input, s), left);
      InfixLoopSpec(input, s1, p, e)
  }

  /** One pass of the loop of `parseExpression`: an infix parse, then the rest of the loop. */
  lemma InfixLoopStep(input: string, s: ParserState, p: nat, left: Option<Expression>, e: Option<Expression>, s1: ParserState)
    requires Consistent(input, s) && s.peek.tokenType != SEMICOLON && p < Precedence(s.peek.tokenType)
    requires Advance(input, s).cur.tokenType != EOF && (e, s1) == ParseInfixSpec(input, Advance(input, s), left)
    ensures InfixLoopSpec(input, s, p, left) == InfixLoopSpec(input, s1, p, e)
  {
  }

  /** The entry of `prefixParseFns` for the current token. */
  function ParsePrefixSpec(input: string, s: ParserState): (r: (Option<Expression>, ParserState))
    requires Consistent(input, s) && HasPrefixParseFn(s.cur.tokenType)
    ensures Consistent(input, r.1) && Follows(s, r.1)
    ensures s.cur.tokenType == IDENT ==> r == (Some(Identifier(s.cur, s.cur.literal)), s)
    ensures s.cur.tokenType in {TRUE, FALSE} ==> r == (Some(BoolExpression(s.cur, s.cur.tokenType == TRUE)), s)
    ensures s.cur.tokenType == INT ==> r.1.pos == s.pos
    ensures s.cur.tokenType in {BANG, MINUS} ==>
              r.0.Some? && r.0.value.PrefixExpression? && r.0.value.token == s.cur && s.pos < r.1.pos
    ensures s.cur.tokenType == IF ==> r.0.None? || (r.0.value.IfExpression? && r.0.value.token == s.cur)
    decreases Remaining(input, s), 2
  {
    match s.cur.tokenType
    case IDENT => (Some(Identifier(s.cur, s.cur.literal)), s)
    case INT => ParseIntegerLiteralSpec(s)
    case BANG => ParsePrefixExpressionSpec(input, s)
    case MINUS => ParsePrefixExpressionSpec(input, s)
    case TRUE => (Some(BoolExpression(s.cur, s.cur.tokenType == TRUE)), s)
    case FALSE => (Some(BoolExpression(s.cur, s.cur.tokenType == TRUE)), s)
    case LPAREN => ParseGroupedExpressionSpec(input, s)
    case IF => ParseIfExpressionSpec(input, s)
  }

  /** `parseIntegerLiteral`: the decimal value of the literal, or three error strings when it has none. */
  function ParseIntegerLiteralSpec(s: ParserState): (r: (Option<Expression>, ParserState))
    ensures r.1.cur == s.cur && r.1.peek == s.peek && r.1.pos == s.pos
    ensures ParseDecimal(s.cur.literal).Some? ==>
              r.0 == Some(IntegerLiteral(s.cur, ParseDecimal(s.cur.literal).value)) && r.1.errors == s.errors
    ensures ParseDecimal(s.cur.literal).None? ==>
              r.0.None? && r.1.errors == s.errors + ["could not parse", s.cur.literal, "as integer"]
  {
    var value := ParseDecimal(s.cur.literal);
    if value.None? then (None, s.(errors := s.errors + ["could not parse", s.cur.literal, "as integer"]))
    else (Some(IntegerLiteral(s.cur, value.value)), s)
  }

  /** `parsePrefixExpression`: the operator, and the operand parsed at PREFIX precedence from the next token. */
  function ParsePrefixExpressionSpec(input: string, s: ParserState): (r: (Option<Expression>, ParserState))
    requires Consistent(input, s) && s.cur.tokenType != EOF
    ensures Consistent(input, r.1) && Follows(s, r.1) && s.pos < r.1.pos
    ensures r.0.Some? && r.0.value.PrefixExpression? && r.0.value.token == s.cur && r.0.value.operator == s.cur.literal
    decreases Remaining(input, s), 1
  {
    var (right, s1) := ParseExpressionSpec(input, Advance(input, s), PREFIX);
    (Some(PrefixExpression(s.cur, s.cur.literal, right)), s1)
  }

  /**
   * `parseInfixExpression`: the right operand is parsed at the operator's
   * own precedence, so the operator that follows it binds no tighter than
   * this one: equal precedence groups to the left.
   */
  function ParseInfixSpec(input: string, s: ParserState, left: Option<Expression>): (r: (Option<Expression>, ParserState))
    requires Consistent(input, s) && s.cur.tokenType != EOF
    ensures Consistent(input, r.1) && Follows(s, r.1) && s.pos < r.1.pos
    ensures r.0.Some? && r.0.value.InfixExpression? && r.0.value.token == s.cur
            && r.0.value.left == left && r.0.value.operator == s.cur.literal
    ensures r.0.value.right.Some? ==>
              r.1.peek.tokenType == SEMICOLON || Precedence(r.1.peek.tokenType) <= Precedence(s.cur.tokenType)
    decreases Remaining(input, s), 1
  {
    var (right, s1) := ParseExpressionSpec(input, Advance(input, s), Precedence(s.cur.tokenType));
    (Some(InfixExpression(s.cur, left, s.cur.literal, right)), s1)
  }

  /** `parseGroupedExpression`: the expression inside the parentheses, which must be followed by ')'. */
  function ParseGroupedExpressionSpec(input: string, s: ParserState): (r: (Option<Expression>, ParserState))
    requires Consistent(input, s) && s.cur.tokenType != EOF
    ensures Consistent(input, r.1) && Follows(s, r.1) && s.pos < r.1.pos
    ensures var (inner, s1) := ParseExpressionSpec(input, Advance(input, s), LOWEST);
      (s1.peek.tokenType == RPAREN ==> r.0 == inner && r.1.cur.tokenType == RPAREN && r.1.errors == s1.errors)
      && (s1.peek.tokenType != RPAREN ==> r.0.None? && r.1.errors == s1.errors + [PeekErrorMessage(RPAREN, s1.peek.tokenType)])
    decreases Remaining(input, s), 1
  {
    var (inner, s1) := ParseExpressionSpec(input, Advance(input, s), LOWEST);
    var (isClosed, s2) := ExpectPeekSpec(input, s1, RPAREN);
    (if isClosed then inner else None, s2)
  }

  /** `parseIfExpression`: "if" "(" condition ")" and then the branches. */
  function ParseIfExpressionSpec(input: string, s: ParserState): (r: (Option<Expression>, ParserState))
    requires Consistent(input, s) && s.cur.tokenType != EOF
    ensures Consistent(input, r.1) && Follows(s, r.1)
    ensures s.peek.tokenType != LPAREN ==>
              r.0.None? && r.1.errors == s.errors + [PeekErrorMessage(LPAREN, s.peek.tokenType)]
    ensures r.0.Some? ==> r.0.value.IfExpression? && r.0.value.token == s.cur
    decreases Remaining(input, s), 1
  {
    var (isOpen, s1) := ExpectPeekSpec(input, s, LPAREN);
    if !isOpen then (None, s1)
    else
      var (condition, s2) := ParseExpressionSpec(input, Advance(input, s1), LOWEST);
      var (isClosed, s3) := ExpectPeekSpec(input, s2, RPAREN);
      if !isClosed then (None, s3)
      else ParseIfBranchesSpec(input, s3, s.cur, condition)
  }

  /** `parseIfExpression` after the condition's ')': '{', the consequence and the optional alternative. */
  function ParseIfBranchesSpec(input: string, s: ParserState, token: Token, condition: Option<Expression>): (r: (Option<Expression>, ParserState))
    requires Consistent(input, s)
    ensures Consistent(input, r.1) && Follows(s, r.1)
    ensures s.peek.tokenType != LBRACE ==>
              r.0.None? && r.1.errors == s.errors + [PeekErrorMessage(LBRACE, s.peek.tokenType)]
    ensures r.0.Some? ==> r.0.value.IfExpression? && r.0.value.token == token && r.0.value.condition == condition
                          && r.0.value.consequence.token.tokenType == LBRACE
    decreases Remaining(input, s), 1
  {
    var (isOpen, s1) := ExpectPeekSpec(input, s, LBRACE);
    if !isOpen then (None, s1)
    else
      var (consequence, s2) := ParseBlockStatementSpec(input, s1);
      var (ok, alternative, s3) := ParseElseSpec(input, s2);
      if !ok then (None, s3)
      else (Some(IfExpression(token, condition, consequence, alternative)), s3)
  }

  /** The optional `else { ... }` of `parseIfExpression`; the flag is false when "else" is not followed by '{'. */
  function ParseElseSpec(input: string, s: ParserState): (r: (bool, Option<Block>, ParserState))
    requires Consistent(input, s)
    ensures Consistent(input, r.2) && Follows(s, r.2)
    ensures s.peek.tokenType != ELSE ==> r == (true, None, s)
    ensures s.peek.tokenType == ELSE && r.0 ==>
              r.1.Some? && r.1.value.token.tokenType == LBRACE && r.2.cur.tokenType in {RBRACE, EOF}
    ensures s.peek.tokenType == ELSE && !r.0 ==> r.1.None? && |r.2.errors| == |s.errors| + 1
    decreases Remaining(input, s), 1
  {
    if s.peek.tokenType != ELSE then (true, None, s)
    else
      var (isOpen, s1) := ExpectPeekSpec(input, Advance(input, s), LBRACE);
      if !isOpen then (false, None, s1)
      else
        var (block, s2) := ParseBlockStatementSpec(input, s1);
        (true, Some(block), s2)
  }

  /** `parseBlockStatement`: the statements after '{' up to '}' or EOF, leaving out the ones that failed. */
  function ParseBlockStatementSpec(input: string, s: ParserState): (r: (Block, ParserState))
    requires Consistent(input, s) && s.cur.tokenType != EOF
    ensures Consistent(input, r.1) && Follows(s, r.1) && s.pos < r.1.pos
    ensures r.0.token == s.cur && r.1.cur.tokenType in {RBRACE, EOF}
    decreases Remaining(input, s), 0
  {
    var (statements, s1) := BlockLoopSpec(input, Advance(input, s), []);
    (BlockStatement(s.cur, statements), s1)
  }

  /** The loop of `parseBlockStatement`, with the statements gathered so far. */
  function BlockLoopSpec(input: string, s: ParserState, gathered: seq<Statement>): (r: (seq<Statement>, ParserState))
    requires Consistent(input, s)
    ensures Consistent(input, r.1) && Follows(s, r.1) && r.1.cur.tokenType in {RBRACE, EOF}
    ensures gathered <= r.0
    ensures s.cur.tokenType in {RBRACE, EOF} ==> r == (gathered, s)
    decreases Remaining(input, s), 6
  {
    if s.cur.tokenType in {RBRACE, EOF} then (gathered, s)
    else
      var (statement, s1) := ParseStatementSpec(input, s);
      BlockLoopSpec(input, Advance(input, s1), if statement.Some? then gathered + [statement.value] else gathered)
  }

  /** What `new Parser(new Lexer(input)).parseProgram()` returns, and the parser's errors after it. */
  function ParseInput(input: string): (Program, seq<string>)
  {
    var (program, s) := ParseProgramSpec(input, StartState(input, 0));
    (program, s.errors)
  }

  /**
   * The parse functions on a known token stream: the lexer reads ts[i]
   * from position ps[i] and stops at ps[i + 1]. The lemmas below take
   * one step of the parser each, so a parse can be followed token by
   * token.
   */
  predicate LexesTo(input: string, ts: seq<Token>, ps: seq<nat>) {
    |ps| == |ts| + 1 && forall i :: 0 <= i < |ts| ==> Lexing.NextTokenSpec(input, ps[i]) == (ts[i], ps[i + 1])
  }

  /** The parser holding ts[i] and ts[i + 1], without errors. */
  function Holding(ts: seq<Token>, ps: seq<nat>, i: nat): (s: ParserState)
    requires i + 2 < |ps| && |ps| == |ts| + 1
    ensures s.cur == ts[i] && s.peek == ts[i + 1] && s.errors == []
  {
    ParserState(ts[i], ts[i + 1], ps[i + 2], [])
  }

  /** The next token t ends an expression at precedence p. */
  predicate Ends(t: Token, p: nat) {
    t.tokenType == SEMICOLON || Precedence(t.tokenType) <= p
  }

  /** Every state along a token stream is consistent with the lexer. */
  lemma HoldingConsistent(input: string, ts: seq<Token>, ps: seq<nat>)
    requires LexesTo(input, ts, ps)
    ensures forall i: nat :: i + 1 < |ts| ==> Consistent(input, Holding(ts, ps, i))
  {
    forall i: nat | i + 1 < |ts|
      ensures Consistent(input, Holding(ts, ps, i))
    {
      Lexing.TokenWithinInput(input, ps[i]);
      Lexing.TokenWithinInput(input, ps[i + 1]);
    }
  }

  /** The constructor on a lexer at the start holds the first two tokens. */
  lemma StartHolding(input: string, ts: seq<Token>, ps: seq<nat>)
    requires LexesTo(input, ts, ps) && 1 < |ts| && ps[0] == 0
    ensures StartState(input, 0) == Holding(ts, ps, 0)
  {
  }

  /** `nextToken` moves one token along the stream. */
  lemma AdvanceHolding(input: string, ts: seq<Token>, ps: seq<nat>, i: nat)
    requires LexesTo(input, ts, ps) && i + 2 < |ts|
    ensures Consistent(input, Holding(ts, ps, i)) && Advance(input, Holding(ts, ps, i)) == Holding(ts, ps, i + 1)
  {
    HoldingConsistent(input, ts, ps);
  }

  /** An identifier followed by a token that ends the expression is the whole expression, and nothing is read. */
  lemma IdentifierOperand(input: string, ts: seq<Token>, ps: seq<nat>, i: nat, p: nat)
    requires LexesTo(input, ts, ps) && i + 1 < |ts| && ts[i].tokenType == IDENT && Ends(ts[i + 1], p)
    ensures Consistent(input, Holding(ts, ps, i))
    ensures ParseExpressionSpec(input, Holding(ts, ps, i), p) == (Some(Identifier(ts[i], ts[i].literal)), Holding(ts, ps, i))
  {
    HoldingConsistent(input, ts, ps);
  }

  /** An integer literal is read without moving, as its decimal value. */
  lemma IntegerPrefix(input: string, ts: seq<Token>, ps: seq<nat>, i: nat, v: nat)
    requires LexesTo(input, ts, ps) && i + 1 < |ts| && ts[i].tokenType == INT && ParseDecimal(ts[i].literal) == Some(v)
    ensures Consistent(input, Holding(ts, ps, i))
    ensures ParsePrefixSpec(input, Holding(ts, ps, i)) == (Some(IntegerLiteral(ts[i], v)), Holding(ts, ps, i))
  {
    HoldingConsistent(input, ts, ps);
  }

  /** `parseInt` of one digit is that digit's value. */
  lemma SingleDigitValue(c: char)
    requires Text.IsDecimalDigit(c)
    ensures ParseDecimal([c]) == Some(c as int - '0' as int)
  {
    assert LeadingDigits([c], 0) == LeadingDigits([c], 1) == 1;
    assert [c][..1] == [c] && [c][..0] == [];
    assert Text.DecimalValue([c]) == 10 * Text.DecimalValue([]) + (c as int - '0' as int);
  }

  /** An integer literal followed by a token that ends the expression is the whole expression. */
  lemma IntegerOperand(input: string, ts: seq<Token>, ps: seq<nat>, i: nat, p: nat, v: nat)
    requires LexesTo(input, ts, ps) && i + 1 < |ts| && ts[i].tokenType == INT && ParseDecimal(ts[i].literal) == Some(v)
    requires Ends(ts[i + 1], p)
    ensures Consistent(input, Holding(ts, ps, i))
    ensures ParseExpressionSpec(input, Holding(ts, ps, i), p) == (Some(IntegerLiteral(ts[i], v)), Holding(ts, ps, i))
  {
    IntegerPrefix(input, ts, ps, i, v);
  }

  /** '!' or '-' takes as its operand the expression parsed at PREFIX from the next token. */
  lemma PrefixOperator(input: string, ts: seq<Token>, ps: seq<nat>, i: nat, right: Option<Expression>, j: nat)
    requires LexesTo(input, ts, ps) && i + 2 < |ts| && j + 1 < |ts| && ts[i].tokenType in {BANG, MINUS}
    requires Consistent(input, Holding(ts, ps, i + 1))
    requires ParseExpressionSpec(input, Holding(ts, ps, i + 1), PREFIX) == (right, Holding(ts, ps, j))
    ensures Consistent(input, Holding(ts, ps, i))
    ensures ParsePrefixSpec(input, Holding(ts, ps, i)) == (Some(PrefixExpression(ts[i], ts[i].literal, right)), Holding(ts, ps, j))
  {
    AdvanceHolding(input, ts, ps, i);
  }

  /**
   * One pass of the infix loop: an operator binding tighter than p makes
   * everything parsed so far its left operand, and its right operand is
   * parsed at its own precedence; the loop goes on from there.
   */
  lemma InfixFoldsLeft(input: string, ts: seq<Token>, ps: seq<nat>, i: nat, p: nat, left: Option<Expression>, right: Option<Expression>, j: nat)
    requires LexesTo(input, ts, ps) && i + 3 < |ts| && j + 1 < |ts| && !Ends(ts[i + 1], p)
    requires Consistent(input, Holding(ts, ps, i + 2)) && Consistent(input, Holding(ts, ps, j))
    requires ParseExpressionSpec(input, Holding(ts, ps, i + 2), Precedence(ts[i + 1].tokenType)) == (right, Holding(ts, ps, j))
    ensures Consistent(input, Holding(ts, ps, i))
    ensures InfixLoopSpec(input, Holding(ts, ps, i), p, left)
         == InfixLoopSpec(input, Holding(ts, ps, j), p, Some(InfixExpression(ts[i + 1], left, ts[i + 1].literal, right)))
  {
    AdvanceHolding(input, ts, ps, i);
    AdvanceHolding(input, ts, ps, i + 1);
  }

  /** An expression is its prefix part followed by the infix loop. */
  lemma ExpressionFromPrefix(input: string, ts: seq<Token>, ps: seq<nat>, i: nat, p: nat, left: Option<Expression>, j: nat, e: Option<Expression>, k: nat)
    requires LexesTo(input, ts, ps) && i + 1 < |ts| && j + 1 < |ts| && k + 1 < |ts|
    requires Consistent(input, Holding(ts, ps, i)) && Consistent(input, Holding(ts, ps, j))
    requires HasPrefixParseFn(ts[i].tokenType) && ParsePrefixSpec(input, Holding(ts, ps, i)) == (left, Holding(ts, ps, j))
    requires InfixLoopSpec(input, Holding(ts, ps, j), p, left) == (e, Holding(ts, ps, k))
    ensures ParseExpressionSpec(input, Holding(ts, ps, i), p) == (e, Holding(ts, ps, k))
  {
  }

  /** The infix loop stops, without reading, before a token that ends the expression. */
  lemma LoopStops(input: string, ts: seq<Token>, ps: seq<nat>, i: nat, p: nat, left: Option<Expression>)
    requires LexesTo(input, ts, ps) && i + 1 < |ts| && Ends(ts[i + 1], p)
    ensures Consistent(input, Holding(ts, ps, i))
    ensures InfixLoopSpec(input, Holding(ts, ps, i), p, left) == (left, Holding(ts, ps, i))
  {
    HoldingConsistent(input, ts, ps);
  }

  /** The last pass of the infix loop: an operator binding tighter than p, then an identifier, then a token ending both. */
  lemma LastIdentifierFolds(input: string, ts: seq<Token>, ps: seq<nat>, i: nat, p: nat, left: Option<Expression>, e: Option<Expression>)
    requires LexesTo(input, ts, ps) && i + 3 < |ts| && ts[i + 2].tokenType == IDENT
    requires !Ends(ts[i + 1], p) && Ends(ts[i + 3], p) && Ends(ts[i + 3], Precedence(ts[i + 1].tokenType))
    requires e == Some(InfixExpression(ts[i + 1], left, ts[i + 1].literal, Some(Identifier(ts[i + 2], ts[i + 2].literal))))
    ensures Consistent(input, Holding(ts, ps, i)) && Consistent(input, Holding(ts, ps, i + 2))
    ensures InfixLoopSpec(input, Holding(ts, ps, i), p, left) == (e, Holding(ts, ps, i + 2))
  {
    IdentifierOperand(input, ts, ps, i + 2, Precedence(ts[i + 1].tokenType));
    InfixFoldsLeft(input, ts, ps, i, p, left, Some(Identifier(ts[i + 2], ts[i + 2].literal)), i + 2);
    LoopStops(input, ts, ps, i + 2, p, e);
  }

  /** The last pass of the infix loop: an operator binding tighter than p, then an integer, then a token ending both. */
  lemma LastIntegerFolds(input: string, ts: seq<Token>, ps: seq<nat>, i: nat, p: nat, left: Option<Expression>, v: nat, e: Option<Expression>)
    requires LexesTo(input, ts, ps) && i + 3 < |ts| && ts[i + 2].tokenType == INT && ParseDecimal(ts[i + 2].literal) == Some(v)
    requires !Ends(ts[i + 1], p) && Ends(ts[i + 3], p) && Ends(ts[i + 3], Precedence(ts[i + 1].tokenType))
    requires e == Some(InfixExpression(ts[i + 1], left, ts[i + 1].literal, Some(IntegerLiteral(ts[i + 2], v))))
    ensures Consistent(input, Holding(ts, ps, i)) && Consistent(input, Holding(ts, ps, i + 2))
    ensures InfixLoopSpec(input, Holding(ts, ps, i), p, left) == (e, Holding(ts, ps, i + 2))
  {
    IntegerOperand(input, ts, ps, i + 2, Precedence(ts[i + 1].tokenType), v);
    InfixFoldsLeft(input, ts, ps, i, p, left, Some(IntegerLiteral(ts[i + 2], v)), i + 2);
    LoopStops(input, ts, ps, i + 2, p, e);
  }

  /** The last pass of the infix loop: an operator binding tighter than p whose right operand, parsed at its precedence q, is followed by a token ending the expression. */
  lemma LastOperandFolds(input: string, ts: seq<Token>, ps: seq<nat>, i: nat, p: nat, left: Option<Expression>, q: nat, right: Option<Expression>, j: nat, e: Option<Expression>)
    requires LexesTo(input, ts, ps) && i + 3 < |ts| && j + 1 < |ts| && !Ends(ts[i + 1], p) && Precedence(ts[i + 1].tokenType) == q && Ends(ts[j + 1], p)
    requires Consistent(input, Holding(ts, ps, i + 2)) && Consistent(input, Holding(ts, ps, j))
    requires ParseExpressionSpec(input, Holding(ts, ps, i + 2), q) == (right, Holding(ts, ps, j))
    requires e == Some(InfixExpression(ts[i + 1], left, ts[i + 1].literal, right))
    ensures Consistent(input, Holding(ts, ps, i))
    ensures InfixLoopSpec(input, Holding(ts, ps, i), p, left) == (e, Holding(ts, ps, j))
  {
    InfixFoldsLeft(input, ts, ps, i, p, left, right, j);
    LoopStops(input, ts, ps, j, p, e);
  }

  /** Two identifiers around an operator binding tighter than p, followed by a token ending both, parse as one infix node. */
  lemma IdentifierInfix(input: string, ts: seq<Token>, ps: seq<nat>, i: nat, p: nat)
    requires LexesTo(input, ts, ps) && i + 3 < |ts| && ts[i].tokenType == IDENT && ts[i + 2].tokenType == IDENT
    requires !Ends(ts[i + 1], p) && Ends(ts[i + 3], p) && Ends(ts[i + 3], Precedence(ts[i + 1].tokenType))
    ensures Consistent(input, Holding(ts, ps, i)) && Consistent(input, Holding(ts, ps, i + 2))
    ensures ParseExpressionSpec(input, Holding(ts, ps, i), p)
         == (Some(InfixExpression(ts[i + 1], Some(Identifier(ts[i], ts[i].literal)), ts[i + 1].literal, Some(Identifier(ts[i + 2], ts[i + 2].literal)))),
             Holding(ts, ps, i + 2))
  {
    var left := Some(Identifier(ts[i], ts[i].literal));
    var e := Some(InfixExpression(ts[i + 1], left, ts[i + 1].literal, Some(Identifier(ts[i + 2], ts[i + 2].literal))));
    LastIdentifierFolds(input, ts, ps, i, p, left, e);
    ExpressionFromPrefix(input, ts, ps, i, p, left, i, e, i + 2);
  }

  /**
   * One pass of the infix loop whose right operand is itself an operator
   * binding tighter still between two identifiers: that inner node is the
   * right operand, and the loop goes on after it.
   */
  lemma FoldsIdentifierInfix(input: string, ts: seq<Token>, ps: seq<nat>, i: nat, p: nat, left: Option<Expression>, e: Option<Expression>)
    requires LexesTo(input, ts, ps) && i + 5 < |ts| && ts[i + 2].tokenType == IDENT && ts[i + 4].tokenType == IDENT
    requires !Ends(ts[i + 1], p) && !Ends(ts[i + 3], Precedence(ts[i + 1].tokenType))
    requires Ends(ts[i + 5], Precedence(ts[i + 1].tokenType)) && Ends(ts[i + 5], Precedence(ts[i + 3].tokenType))
    requires e == Some(InfixExpression(ts[i + 1], left, ts[i + 1].literal,
                    Some(InfixExpression(ts[i + 3], Some(Identifier(ts[i + 2], ts[i + 2].literal)), ts[i + 3].literal, Some(Identifier(ts[i + 4], ts[i + 4].literal))))))
    ensures Consistent(input, Holding(ts, ps, i)) && Consistent(input, Holding(ts, ps, i + 4))
    ensures InfixLoopSpec(input, Holding(ts, ps, i), p, left) == InfixLoopSpec(input, Holding(ts, ps, i + 4), p, e)
  {
    var right := Some(InfixExpression(ts[i + 3], Some(Identifier(ts[i + 2], ts[i + 2].literal)), ts[i + 3].literal, Some(Identifier(ts[i + 4], ts[i + 4].literal))));
    IdentifierInfix(input, ts, ps, i + 2, Precedence(ts[i + 1].tokenType));
    InfixFoldsLeft(input, ts, ps, i, p, left, right, i + 4);
  }


  /** A parenthesised expression is the expression inside, with no node of its own, ending on ')'. */
  lemma GroupedOperand(input: string, ts: seq<Token>, ps: seq<nat>, i: nat, inner: Option<Expression>, j: nat)
    requires LexesTo(input, ts, ps) && i + 2 < |ts| && j + 2 < |ts| && ts[i].tokenType == LPAREN && ts[j + 1].tokenType == RPAREN
    requires Consistent(input, Holding(ts, ps, i + 1))
    requires ParseExpressionSpec(input, Holding(ts, ps, i + 1), LOWEST) == (inner, Holding(ts, ps, j))
    ensures Consistent(input, Holding(ts, ps, i))
    ensures ParsePrefixSpec(input, Holding(ts, ps, i)) == (inner, Holding(ts, ps, j + 1))
  {
    AdvanceHolding(input, ts, ps, i);
    AdvanceHolding(input, ts, ps, j);
  }

  /** An expression statement without ';' holds the expression parsed at LOWEST and ends where it ends. */
  lemma ExpressionStatementOf(input: string, ts: seq<Token>, ps: seq<nat>, i: nat, e: Option<Expression>, k: nat)
    requires LexesTo(input, ts, ps) && i + 1 < |ts| && k + 1 < |ts|
    requires ts[i].tokenType !in {LET, RETURN} && ts[k + 1].tokenType != SEMICOLON
    requires Consistent(input, Holding(ts, ps, i))
    requires ParseExpressionSpec(input, Holding(ts, ps, i), LOWEST) == (e, Holding(ts, ps, k))
    ensures ParseStatementSpec(input, Holding(ts, ps, i)) == (Some(ExpressionStatement(ts[i], e)), Holding(ts, ps, k))
  {
    assert ParseExpressionStatementSpec(input, Holding(ts, ps, i)) == (ExpressionStatement(ts[i], e), Holding(ts, ps, k));
  }

  /** One pass of the program loop from the start: the statement parsed is the first one gathered. */
  lemma ProgramLoopStep(input: string, s: ParserState, statement: Statement, s1: ParserState)
    requires Consistent(input, s) && s.cur.tokenType != EOF
    requires ParseStatementSpec(input, s) == (Some(statement), s1)
    ensures Consistent(input, s1)
    ensures ProgramLoopSpec(input, s, []) == ProgramLoopSpec(input, Advance(input, s1), [statement])
  {
    assert [] + [statement] == [statement];
  }

  /** An input that is one expression statement parses to a program of that one statement. */
  lemma SingleExpressionProgram(input: string, ts: seq<Token>, ps: seq<nat>, e: Option<Expression>, k: nat)
    requires LexesTo(input, ts, ps) && k + 2 < |ts| && ts[0].tokenType !in {LET, RETURN, EOF} && ts[k + 1].tokenType == EOF
    requires ps[0] == 0 && Consistent(input, Holding(ts, ps, 0))
    requires ParseExpressionSpec(input, Holding(ts, ps, 0), LOWEST) == (e, Holding(ts, ps, k))
    ensures ParseInput(input) == (Program([ExpressionStatement(ts[0], e)]), [])
  {
    ExpressionStatementOf(input, ts, ps, 0, e, k);
    AdvanceHolding(input, ts, ps, k);
    ProgramLoopStep(input, Holding(ts, ps, 0), ExpressionStatement(ts[0], e), Holding(ts, ps, k));
    StartHolding(input, ts, ps);
  }

  class Parser {
    const lexer: Lexing.Lexer
    var curToken: Token
    var peekToken: Token
    var errors: seq<string>

    /** The parser's fields and the lexer's position as a value. */
    function State(): ParserState
      reads this, lexer
    {
      ParserState(curToken, peekToken, lexer.position, errors)
    }

    ghost predicate Valid()
      reads this, lexer
    {
      lexer.Valid() && Consistent(lexer.input, State())
    }

    ghost function Measure(): nat
      reads this, lexer
    {
      Remaining(lexer.input, State())
    }

    /** The constructor reads two tokens so that both `curToken` and `peekToken` are set. */
    constructor(lexer: Lexing.Lexer)
      requires lexer.Valid()
      modifies lexer
      ensures Valid() && this.lexer == lexer
      ensures State() == StartState(lexer.input, old(lexer.position))
    {
      this.lexer := lexer;
      errors := [];
      curToken := Token(EOF, "");
      peekToken := Token(EOF, "");
      new;
      Lexing.TokenWithinInput(lexer.input, lexer.position);
      NextToken();
      Lexing.TokenWithinInput(lexer.input, lexer.position);
      NextToken();
    }

    /** `nextToken`: the next token becomes current and the lexer supplies a new one. */
    method NextToken()
      requires lexer.Valid() && (peekToken.tokenType != EOF ==> lexer.position <= |lexer.input| + 1)
      modifies this, lexer
      ensures lexer.Valid() && curToken == old(peekToken) && errors == old(errors)
      ensures (peekToken, lexer.position) == Lexing.NextTokenSpec(lexer.input, old(lexer.position))
      ensures old(Consistent(lexer.input, State())) ==> State() == Advance(lexer.input, old(State()))
    {
      curToken := peekToken;
      peekToken := lexer.NextToken();
    }

    /** `expectAndAdvance`: advance past the next token when it has type t; otherwise record one error. */
    method ExpectAndAdvance(t: TokenType) returns (ok: bool)
      requires Valid()
      modifies this, lexer
      ensures Valid() && (ok, State()) == ExpectPeekSpec(lexer.input, old(State()), t)
    {
      if peekToken.tokenType == t {
        NextToken();
        return true;
      } else {
        errors := errors + [PeekErrorMessage(t, peekToken.tokenType)];
        return false;
      }
    }

    /** `parseProgram`: statements up to EOF, leaving out the ones that failed. */
    method ParseProgram() returns (program: Program)
      requires Valid()
      modifies this, lexer
      ensures Valid() && (program, State()) == ParseProgramSpec(lexer.input, old(State()))
    {
      var statements: seq<Statement> := [];
      ghost var target := ProgramLoopSpec(lexer.input, State(), []);
      while curToken.tokenType != EOF
        invariant Valid()
        invariant ProgramLoopSpec(lexer.input, State(), statements) == target
        decreases Measure()
      {
        ghost var before := State();
        ghost var gathered := statements;
        var s := ParseStatement();
        if s.Some? {
          statements := statements + [s.value];
        }
        NextToken();
        assert ProgramLoopSpec(lexer.input, before, gathered) == ProgramLoopSpec(lexer.input, State(), statements);
      }
      return Program(statements);
    }

    /** `parseStatement`: let and return statements by keyword, an expression statement otherwise. */
    method ParseStatement() returns (s: Option<Statement>)
      requires Valid()
      modifies this, lexer
      ensures Valid() && (s, State()) == ParseStatementSpec(lexer.input, old(State()))
      decreases Measure(), 5
    {
      StatementCases(lexer.input, State());
      if curToken.tokenType == LET {
        s := ParseLetStatement();
      } else if curToken.tokenType == RETURN {
        var r := ParseReturnStatement();
        s := Some(r);
      } else {
        var e := ParseExpressionStatement();
        s := Some(e);
      }
    }

    /** `parseLetStatement`: "let" IDENT "=" and the skip to ';' (see `SkipToSemicolon`). */
    method ParseLetStatement() returns (s: Option<Statement>)
      requires Valid() && curToken.tokenType != EOF
      modifies this, lexer
      ensures Valid() && (s, State()) == ParseLetStatementSpec(lexer.input, old(State()))
      decreases Measure(), 4
    {
      var letToken := curToken;
      var ok := ExpectAndAdvance(IDENT);
      if !ok {
        return None;
      }
      var name := Identifier(curToken, curToken.literal);
      ok := ExpectAndAdvance(ASSIGN);
      if !ok {
        return None;
      }
      SkipToSemicolon();
      return Some(LetStatement(letToken, name, None));
    }

    /** `parseReturnStatement`: "return" and the skip to ';'. */
    method ParseReturnStatement() returns (s: Statement)
      requires Valid()
      modifies this, lexer
      ensures Valid() && (s, State()) == ParseReturnStatementSpec(lexer.input, old(State()))
      decreases Measure(), 4
    {
      s := ReturnStatement(curToken, None);
      NextToken();
      SkipToSemicolon();
    }

    /**
     * The loop `while (!this.curTokenIs(TOKENS.SEMICOLON)) this.nextToken()`
     * of the let and return parsers, stopping at EOF too: as written it
     * never stops when no ';' comes before the end (`SkipAsWritten`).
     */
    method SkipToSemicolon()
      requires Valid()
      modifies this, lexer
      ensures Valid() && State() == SkipSpec(lexer.input, old(State()))
    {
      while curToken.tokenType != SEMICOLON && curToken.tokenType != EOF
        invariant Valid() && SkipSpec(lexer.input, State()) == SkipSpec(lexer.input, old(State()))
        decreases Measure()
      {
        NextToken();
      }
    }

    /** `parseExpressionStatement`: an expression, and the ';' after it when there is one. */
    method ParseExpressionStatement() returns (s: Statement)
      requires Valid()
      modifies this, lexer
      ensures Valid() && (s, State()) == ParseExpressionStatementSpec(lexer.input, old(State()))
      decreases Measure(), 4
    {
      var token := curToken;
      var e := ParseExpression(LOWEST);
      if peekToken.tokenType == SEMICOLON {
        NextToken();
      }
      s := ExpressionStatement(token, e);
    }

    /** `parseExpression(p)`: a prefix parse, then infix operators while the next token binds tighter than p. */
    method ParseExpression(p: nat) returns (e: Option<Expression>)
      requires Valid()
      modifies this, lexer
      ensures Valid() && (e, State()) == ParseExpressionSpec(lexer.input, old(State()), p)
      decreases Measure(), 3
    {
      if !HasPrefixParseFn(curToken.tokenType) {
        errors := errors + [NoPrefixMessage(curToken.tokenType)];
        return None;
      }
      e := ParsePrefix();
      e := ParseInfixLoop(p, e);
    }

    /** The loop of `parseExpression`: infix operators while the next token binds tighter than p. */
    method ParseInfixLoop(p: nat, left: Option<Expression>) returns (e: Option<Expression>)
      requires Valid()
      modifies this, lexer
      ensures Valid() && (e, State()) == InfixLoopSpec(lexer.input, old(State()), p, left)
      decreases Measure(), 2
    {
      e := left;
      ghost var start := Measure();
      ghost var target := InfixLoopSpec(lexer.input, State(), p, left);
      while peekToken.tokenType != SEMICOLON && p < Precedence(peekToken.tokenType)
        invariant Valid() && Measure() <= start
        invariant InfixLoopSpec(lexer.input, State(), p, e) == target
        decreases Measure()
      {
        e := ParseInfixStep(p, e);
      }
    }

    /** One pass of the loop of `parseExpression`: `nextToken()`, then the infix parse of the operator with `left`. */
    method ParseInfixStep(p: nat, left: Option<Expression>) returns (e: Option<Expression>)
      requires Valid() && peekToken.tokenType != SEMICOLON && p < Precedence(peekToken.tokenType)
      modifies this, lexer
      ensures Valid() && Measure() < old(Measure())
      ensures InfixLoopSpec(lexer.input, State(), p, e) == InfixLoopSpec(lexer.input, old(State()), p, left)
      decreases Measure(), 1
    {
      ghost var before := State();
      InfixParsersMatchPrecedences(peekToken.tokenType);
      NextToken();
      e := ParseInfixExpression(left);
      InfixLoopStep(lexer.input, before, p, left, e, State());
    }

    /** The entry of `prefixParseFns` for the current token. */
    method ParsePrefix() returns (e: Option<Expression>)
      requires Valid() && HasPrefixParseFn(curToken.tokenType)
      modifies this, lexer
      ensures Valid() && (e, State()) == ParsePrefixSpec(lexer.input, old(State()))
      decreases Measure(), 2
    {
      match curToken.tokenType
      case IDENT => e := Some(Identifier(curToken, curToken.literal));
      case INT => e := ParseIntegerLiteral();
      case BANG => e := ParsePrefixExpression();
      case MINUS => e := ParsePrefixExpression();
      case TRUE => e := Some(BoolExpression(curToken, curToken.tokenType == TRUE));
      case FALSE => e := Some(BoolExpression(curToken, curToken.tokenType == TRUE));
      case LPAREN => e := ParseGroupedExpression();
      case IF => e := ParseIfExpression();
    }

    /** `parseIntegerLiteral`: the decimal value of the literal; when it has none, three error strings are pushed. */
    method ParseIntegerLiteral() returns (e: Option<Expression>)
      requires Valid()
      modifies this
      ensures Valid() && (e, State()) == ParseIntegerLiteralSpec(old(State()))
    {
      var value := ParseDecimal(curToken.literal);
      if value.None? {
        errors := errors + ["could not parse", curToken.literal, "as integer"];
        return None;
      }
      return Some(IntegerLiteral(curToken, value.value));
    }

    /** `parsePrefixExpression`: the operator and the operand parsed at PREFIX precedence. */
    method ParsePrefixExpression() returns (e: Option<Expression>)
      requires Valid() && curToken.tokenType != EOF
      modifies this, lexer
      ensures Valid() && (e, State()) == ParsePrefixExpressionSpec(lexer.input, old(State()))
      decreases Measure(), 1
    {
      var token := curToken;
      NextToken();
      var right := ParseExpression(PREFIX);
      return Some(PrefixExpression(token, token.literal, right));
    }

    /** `parseInfixExpression`: the operator, the given left operand and the right one parsed at the operator's precedence. */
    method ParseInfixExpression(left: Option<Expression>) returns (e: Option<Expression>)
      requires Valid() && curToken.tokenType != EOF
      modifies this, lexer
      ensures Valid() && (e, State()) == ParseInfixSpec(lexer.input, old(State()), left)
      decreases Measure(), 1
    {
      var token := curToken;
      var precedence := Precedence(curToken.tokenType);
      NextToken();
      var right := ParseExpression(precedence);
      return Some(InfixExpression(token, left, token.literal, right));
    }

    /** `parseGroupedExpression`: an expression at LOWEST precedence that must be followed by ')'. */
    method ParseGroupedExpression() returns (e: Option<Expression>)
      requires Valid() && curToken.tokenType != EOF
      modifies this, lexer
      ensures Valid() && (e, State()) == ParseGroupedExpressionSpec(lexer.input, old(State()))
      decreases Measure(), 1
    {
      NextToken();
      var expression := ParseExpression(LOWEST);
      var ok := ExpectAndAdvance(RPAREN);
      if !ok {
        return None;
      }
      return expression;
    }

    /** `parseIfExpression`: "if" "(" condition ")" "{" block "}" with an optional "else" "{" block "}". */
    method ParseIfExpression() returns (e: Option<Expression>)
      requires Valid() && curToken.tokenType != EOF
      modifies this, lexer
      ensures Valid() && (e, State()) == ParseIfExpressionSpec(lexer.input, old(State()))
      decreases Measure(), 1
    {
      var token := curToken;
      var ok := ExpectAndAdvance(LPAREN);
      if !ok {
        return None;
      }
      NextToken();
      var condition := ParseExpression(LOWEST);
      ok := ExpectAndAdvance(RPAREN);
      if !ok {
        return None;
      }
      e := ParseIfBranches(token, condition);
    }

    /** `parseIfExpression` after the condition's ')': '{', the consequence and the optional alternative. */
    method ParseIfBranches(token: Token, condition: Option<Expression>) returns (e: Option<Expression>)
      requires Valid()
      modifies this, lexer
      ensures Valid() && (e, State()) == ParseIfBranchesSpec(lexer.input, old(State()), token, condition)
      decreases Measure(), 1
    {
      var ok := ExpectAndAdvance(LBRACE);
      if !ok {
        return None;
      }
      var consequence := ParseBlockStatement();
      var alternative;
      ok, alternative := ParseElse();
      if !ok {
        return None;
      }
      return Some(IfExpression(token, condition, consequence, alternative));
    }

    /** The optional `else { ... }` of `parseIfExpression`; `ok` is false when "else" is not followed by '{'. */
    method ParseElse() returns (ok: bool, alternative: Option<Block>)
      requires Valid()
      modifies this, lexer
      ensures Valid() && (ok, alternative, State()) == ParseElseSpec(lexer.input, old(State()))
      decreases Measure(), 1
    {
      if peekToken.tokenType != ELSE {
        return true, None;
      }
      NextToken();
      ok := ExpectAndAdvance(LBRACE);
      if !ok {
        return false, None;
      }
      var block := ParseBlockStatement();
      return true, Some(block);
    }

    /** The loop of `parseBlockStatement`: statements after `gathered` up to '}' or EOF. */
    method ParseBlockLoop(gathered: seq<Statement>) returns (statements: seq<Statement>)
      requires Valid()
      modifies this, lexer
      ensures Valid() && (statements, State()) == BlockLoopSpec(lexer.input, old(State()), gathered)
      decreases Measure(), 6
    {
      statements := gathered;
      ghost var start := Measure();
      ghost var target := BlockLoopSpec(lexer.input, State(), gathered);
      while curToken.tokenType != RBRACE && curToken.tokenType != EOF
        invariant Valid() && Measure() <= start
        invariant BlockLoopSpec(lexer.input, State(), statements) == target
        decreases Measure()
      {
        ghost var before := State();
        ghost var prefix := statements;
        var s := ParseStatement();
        if s.Some? {
          statements := statements + [s.value];
        }
        NextToken();
        assert BlockLoopSpec(lexer.input, before, prefix) == BlockLoopSpec(lexer.input, State(), statements);
      }
    }

    /** `parseBlockStatement`: statements up to '}' or EOF, leaving out the ones that failed. */
    method ParseBlockStatement() returns (b: Block)
      requires Valid() && curToken.tokenType != EOF
      modifies this, lexer
      ensures Valid() && (b, State()) == ParseBlockStatementSpec(lexer.input, old(State()))
      decreases Measure(), 0
    {
      var token := curToken;
      NextToken();
      var statements := ParseBlockLoop([]);
      return BlockStatement(token, statements);
    }
  }


  /**
   * The let/return skip loop as written, on the token stream: the current
   * token, the next one and the lexer position after `n` passes of
   * `while (!curTokenIs(SEMICOLON)) nextToken()`.
   */
  function SkipAsWritten(input: string, cur: Token, peek: Token, pos: nat, n: nat): (Token, Token, nat)
    decreases n
  {
    if n == 0 || cur.tokenType == SEMICOLON then (cur, peek, pos)
    else
      var (next, p) := Lexing.NextTokenSpec(input, pos);
      SkipAsWritten(input, peek, next, p, n - 1)
  }

  /**
   * Past the end of the input the lexer only yields EOF, so when neither
   * held token is a ';' no number of passes reaches one.
   */
  lemma {:induction false} SkipAsWrittenStaysPastEnd(input: string, cur: Token, peek: Token, pos: nat, n: nat)
    requires pos >= |input| && cur.tokenType != SEMICOLON && peek.tokenType != SEMICOLON
    ensures SkipAsWritten(input, cur, peek, pos, n).0.tokenType != SEMICOLON
    decreases n
  {
    if n > 0 {
      Lexing.EofAtEnd(input, pos);
      SkipAsWrittenStaysPastEnd(input, peek, Token(EOF, ""), pos + 1, n - 1);
    }
  }

  /**
   * "let x = 5" without a ';': after "let x =" the parser holds '=' and
   * '5' with the lexer at the end (position 9), and the skip loop as
   * written is still running after any number of passes.
   */
  lemma SkipAsWrittenNeverEnds(n: nat)
    ensures SkipAsWritten("let x = 5", Token(ASSIGN, "="), Token(INT, "5"), 9, n).0.tokenType != SEMICOLON
  {
    SkipAsWrittenStaysPastEnd("let x = 5", Token(ASSIGN, "="), Token(INT, "5"), 9, n);
  }
}
