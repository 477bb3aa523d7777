/**
 * The operator-precedence cases of src/__tests__/parser.test.ts: each
 * input is lexed token by token, parsed through the parse functions of
 * `Parsing`, and printed back with the parentheses that show its grouping.
 * Every one parses without errors to a single expression statement.
 *
 * Each case comes in four parts: the tokens the lexer reads from the
 * input's characters, the tree the parse functions build from those
 * tokens, the string that tree prints as, and the case itself, which
 * joins the three for the literal input.
 */
module ParserTests {
  import opened Wrappers
  import opened Tokens
  import opened Ast
  import Utils
  import Lexing
  import opened Parsing
  import Text

  function Ident(name: string): Option<Expression> {
    Some(Identifier(Token(IDENT, name), name))
  }

  function Int(digit: string, value: nat): Option<Expression> {
    Some(IntegerLiteral(Token(INT, digit), value))
  }

  function Infix(t: TokenType, op: string, left: Option<Expression>, right: Option<Expression>): Option<Expression> {
    Some(InfixExpression(Token(t, op), left, op, right))
  }

  /** The lexer reads ts[i] from position ps[i] up to ps[i + 1], for every i from k on. */
  predicate LexesFrom(input: string, ts: seq<Token>, ps: seq<nat>, k: nat) {
    |ps| == |ts| + 1 && k <= |ts|
    && forall i {:trigger Lexing.NextTokenSpec(input, ps[i])} :: k <= i < |ts| ==> Lexing.NextTokenSpec(input, ps[i]) == (ts[i], ps[i + 1])
  }

  /** One more token read in front of a stream already read. */
  lemma LexesStep(input: string, ts: seq<Token>, ps: seq<nat>, k: nat)
    requires |ps| == |ts| + 1 && k < |ts| && Lexing.NextTokenSpec(input, ps[k]) == (ts[k], ps[k + 1])
    requires LexesFrom(input, ts, ps, k + 1)
    ensures LexesFrom(input, ts, ps, k)
  {
  }

  /** Past the end of the input the lexer reads EOF. */
  lemma LexesEnd(input: string, ts: seq<Token>, ps: seq<nat>, k: nat)
    requires |ps| == |ts| + 1 && k < |ts| && ps[k] >= |input|
    requires ts[k] == Token(EOF, "") && ps[k + 1] == ps[k] + 1
    requires LexesFrom(input, ts, ps, k + 1)
    ensures LexesFrom(input, ts, ps, k)
  {
    Lexing.EofAtEnd(input, ps[k]);
    LexesStep(input, ts, ps, k);
  }

  /** A one-character symbol, after `gap` (zero or one) spaces. */
  lemma LexesSymbol(input: string, ts: seq<Token>, ps: seq<nat>, k: nat, gap: nat, t: TokenType)
    requires |ps| == |ts| + 1 && k < |ts| && gap <= 1 && ps[k] + gap < |input| && (gap == 1 ==> input[ps[k]] == ' ')
    requires Lexing.SingleCharType(Lexing.CodeAt(input, ps[k] + gap)) == Some(t)
    requires ts[k] == Token(t, [input[ps[k] + gap]]) && ps[k + 1] == ps[k] + gap + 1
    requires LexesFrom(input, ts, ps, k + 1)
    ensures LexesFrom(input, ts, ps, k)
  {
    if gap == 1 {
      Lexing.SkipOneSpace(input, ps[k]);
    }
    Lexing.SingleChar(input, ps[k] + gap, t);
    LexesStep(input, ts, ps, k);
  }

  /** A '!' not followed by '=', after `gap` (zero or one) spaces. */
  lemma LexesBang(input: string, ts: seq<Token>, ps: seq<nat>, k: nat, gap: nat)
    requires |ps| == |ts| + 1 && k < |ts| && gap <= 1 && ps[k] + gap < |input| && (gap == 1 ==> input[ps[k]] == ' ')
    requires input[ps[k] + gap] == '!' && (ps[k] + gap + 1 < |input| ==> input[ps[k] + gap + 1] != '=')
    requires ts[k] == Token(BANG, "!") && ps[k + 1] == ps[k] + gap + 1
    requires LexesFrom(input, ts, ps, k + 1)
    ensures LexesFrom(input, ts, ps, k)
  {
    if gap == 1 {
      Lexing.SkipOneSpace(input, ps[k]);
    }
    assert Lexing.SkipWs(input, ps[k] + gap) == ps[k] + gap;
    Lexing.TwoCharOperators(input, ps[k] + gap);
    LexesStep(input, ts, ps, k);
  }

  /** A one-letter identifier, after `gap` (zero or one) spaces. */
  lemma LexesLetter(input: string, ts: seq<Token>, ps: seq<nat>, k: nat, gap: nat)
    requires |ps| == |ts| + 1 && k < |ts| && gap <= 1 && ps[k] + gap < |input| && (gap == 1 ==> input[ps[k]] == ' ')
    requires 'a' <= input[ps[k] + gap] <= 'z'
    requires ps[k] + gap + 1 < |input| ==> !Utils.IsLetter(input[ps[k] + gap + 1] as int)
    requires ts[k] == Token(IDENT, [input[ps[k] + gap]]) && ps[k + 1] == ps[k] + gap + 1
    requires LexesFrom(input, ts, ps, k + 1)
    ensures LexesFrom(input, ts, ps, k)
  {
    if gap == 1 {
      Lexing.SkipOneSpace(input, ps[k]);
    }
    Lexing.LetterAt(input, ps[k] + gap);
    LexesStep(input, ts, ps, k);
  }

  /** A one-digit integer, after `gap` (zero or one) spaces. */
  lemma LexesDigit(input: string, ts: seq<Token>, ps: seq<nat>, k: nat, gap: nat)
    requires |ps| == |ts| + 1 && k < |ts| && gap <= 1 && ps[k] + gap < |input| && (gap == 1 ==> input[ps[k]] == ' ')
    requires Utils.IsDigit(input[ps[k] + gap] as int)
    requires ps[k] + gap + 1 < |input| ==> !Utils.IsDigit(input[ps[k] + gap + 1] as int)
    requires ts[k] == Token(INT, [input[ps[k] + gap]]) && ps[k + 1] == ps[k] + gap + 1
    requires LexesFrom(input, ts, ps, k + 1)
    ensures LexesFrom(input, ts, ps, k)
  {
    if gap == 1 {
      Lexing.SkipOneSpace(input, ps[k]);
    }
    Lexing.DigitAt(input, ps[k] + gap);
    LexesStep(input, ts, ps, k);
  }

  /** A program of one expression statement prints as its expression. */
  lemma OneStatementPrints(t: Token, e: Expression)
    ensures ProgramString(Program([ExpressionStatement(t, Some(e))])) == ExpressionString(e)
  {
    var s := ExpressionStatement(t, Some(e));
    assert StatementString(s) == ExpressionString(e);
    assert StatementStrings([s]) == [ExpressionString(e)];
  }

  /** An infix expression prints its operands, spaced, around its operator, in parentheses. */
  lemma InfixPrints(t: TokenType, op: string, left: Option<Expression>, right: Option<Expression>, l: string, r: string, s: string)
    requires left.Some? && ExpressionString(left.value) == l
    requires right.Some? && ExpressionString(right.value) == r
    requires s == "(" + l + " " + op + " " + r + ")"
    ensures ExpressionString(Infix(t, op, left, right).value) == s
  {
  }

  /** A prefix expression prints its operator before its operand, in parentheses. */
  lemma PrefixPrints(t: TokenType, op: string, right: Option<Expression>, r: string, s: string)
    requires right.Some? && ExpressionString(right.value) == r
    requires s == "(" + op + r + ")"
    ensures ExpressionString(PrefixExpression(Token(t, op), op, right)) == s
  {
  }

  /** A one-digit integer prints as its digit. */
  lemma DigitPrints(c: char)
    requires '0' <= c <= '9'
    ensures ExpressionString(Int([c], c as int - '0' as int).value) == [c]
  {
    var d := c as int - '0' as int;
    assert Text.NatToString(d) == [Text.DigitChar(d)];
  }

  // "-a * b"

  function NegTimesTokens(): seq<Token> {
    [Token(MINUS, "-"), Token(IDENT, "a"), Token(ASTERISK, "*"), Token(IDENT, "b"), Token(EOF, ""),
     Token(EOF, "")]
  }

  function NegTimesPositions(): seq<nat> {
    [0, 1, 2, 4, 6, 7, 8]
  }

  /** The tokens of "-a * b". */
  predicate NegTimesStream(ts: seq<Token>) {
    |ts| == 6 && ts[0] == Token(MINUS, "-") && ts[1] == Token(IDENT, "a") && ts[2] == Token(ASTERISK, "*")
    && ts[3] == Token(IDENT, "b") && ts[4] == Token(EOF, "") && ts[5] == Token(EOF, "")
  }

  /** The positions the lexer reads those tokens between. */
  predicate NegTimesSpans(ps: seq<nat>) {
    |ps| == 7 && ps[0] == 0 && ps[1] == 1 && ps[2] == 2 && ps[3] == 4 && ps[4] == 6 && ps[5] == 7 && ps[6] == 8
  }

  lemma NegTimesStreamHolds()
    ensures NegTimesStream(NegTimesTokens()) && NegTimesSpans(NegTimesPositions())
  {
  }

  /** The lexer reads the tokens of "-a * b" from index 2 on. */
  lemma NegTimesLexTail(input: string, ts: seq<Token>, ps: seq<nat>)
    requires |input| == 6 && input[0] == '-' && input[1] == 'a' && input[2] == ' ' && input[3] == '*' && input[4] == ' '
    requires input[5] == 'b'
    requires NegTimesStream(ts) && NegTimesSpans(ps)
    ensures LexesFrom(input, ts, ps, 2)
  {
    LexesEnd(input, ts, ps, 5);
    LexesEnd(input, ts, ps, 4);
    LexesLetter(input, ts, ps, 3, 1);
    LexesSymbol(input, ts, ps, 2, 1, ASTERISK);
  }

  /** The lexer reads "-a * b" as those tokens. */
  lemma NegTimesLex(input: string, ts: seq<Token>, ps: seq<nat>)
    requires |input| == 6 && input[0] == '-' && input[1] == 'a' && input[2] == ' ' && input[3] == '*' && input[4] == ' '
    requires input[5] == 'b'
    requires NegTimesStream(ts) && NegTimesSpans(ps)
    ensures LexesTo(input, ts, ps)
  {
    NegTimesLexTail(input, ts, ps);
    LexesLetter(input, ts, ps, 1, 0);
    LexesSymbol(input, ts, ps, 0, 0, MINUS);
  }

  function NegTimesTree(): Option<Expression> {
    Infix(ASTERISK, "*", Some(PrefixExpression(Token(MINUS, "-"), "-", Ident("a"))), Ident("b"))
  }

  /** The token facts the parse steps below rely on. */
  lemma NegTimesShape(ts: seq<Token>)
    requires NegTimesStream(ts)
    ensures Precedence(ts[0].tokenType) == SUM
    ensures Precedence(ts[2].tokenType) == PRODUCT
    ensures ts[1].tokenType == IDENT
    ensures Ends(ts[2], PREFIX)
    ensures ts[0].tokenType in {BANG, MINUS}
    ensures ts[3].tokenType == IDENT
    ensures !Ends(ts[2], LOWEST)
    ensures Ends(ts[4], LOWEST)
    ensures Ends(ts[4], Precedence(ts[2].tokenType))
    ensures HasPrefixParseFn(ts[0].tokenType)
  {
  }

  /** The nodes the parse steps below build from those tokens, as written in the tree. */
  lemma NegTimesNodes(ts: seq<Token>)
    requires NegTimesStream(ts)
    ensures Some(Identifier(ts[1], ts[1].literal)) == Ident("a")
    ensures Some(Identifier(ts[3], ts[3].literal)) == Ident("b")
    ensures NegTimesTree() == Some(InfixExpression(ts[2], Some(PrefixExpression(Token(MINUS, "-"), "-", Ident("a"))), ts[2].literal, Some(Identifier(ts[3], ts[3].literal))))
  {
  }

  /** "-a": the minus takes the identifier as its operand. */
  lemma NegTimesNegation(input: string, ts: seq<Token>, ps: seq<nat>)
    requires LexesTo(input, ts, ps) && NegTimesStream(ts)
    ensures Consistent(input, Holding(ts, ps, 0)) && Consistent(input, Holding(ts, ps, 1))
    ensures ParsePrefixSpec(input, Holding(ts, ps, 0)) == (Some(PrefixExpression(Token(MINUS, "-"), "-", Ident("a"))), Holding(ts, ps, 1))
  {
    NegTimesShape(ts);
    NegTimesNodes(ts);
    IdentifierOperand(input, ts, ps, 1, PREFIX);
    PrefixOperator(input, ts, ps, 0, Ident("a"), 1);
  }

  /** The whole input is one expression, NegTimesTree(), ending on the last token before EOF. */
  lemma NegTimesExpression(input: string, ts: seq<Token>, ps: seq<nat>)
    requires LexesTo(input, ts, ps) && NegTimesStream(ts)
    ensures Consistent(input, Holding(ts, ps, 0))
    ensures ParseExpressionSpec(input, Holding(ts, ps, 0), LOWEST) == (NegTimesTree(), Holding(ts, ps, 3))
  {
    NegTimesShape(ts);
    NegTimesNodes(ts);
    NegTimesNegation(input, ts, ps);
    LastIdentifierFolds(input, ts, ps, 1, LOWEST, Some(PrefixExpression(Token(MINUS, "-"), "-", Ident("a"))), NegTimesTree());
    ExpressionFromPrefix(input, ts, ps, 0, LOWEST, Some(PrefixExpression(Token(MINUS, "-"), "-", Ident("a"))), 1, NegTimesTree(), 3);
  }

  /** The parse functions build NegTimesTree() from those tokens, without errors. */
  lemma NegTimesParses(input: string, ts: seq<Token>, ps: seq<nat>)
    requires LexesTo(input, ts, ps) && NegTimesStream(ts) && ps[0] == 0
    ensures ParseInput(input) == (Program([ExpressionStatement(Token(MINUS, "-"), NegTimesTree())]), [])
  {
    NegTimesExpression(input, ts, ps);
    SingleExpressionProgram(input, ts, ps, NegTimesTree(), 3);
  }

  lemma NegTimesPrints()
    ensures ExpressionString(NegTimesTree().value) == "((-a) * b)"
  {
    var neg := Some(PrefixExpression(Token(MINUS, "-"), "-", Ident("a")));
    PrefixPrints(MINUS, "-", Ident("a"), "a", "(-a)");
    InfixPrints(ASTERISK, "*", neg, Ident("b"), "(-a)", "b", "((-a) * b)");
  }

  /** "-a * b" prints as "((-a) * b)": the prefix operator binds tighter than '*'. */
  lemma NegTimes(input: string)
    requires input == "-a * b"
    ensures ProgramString(ParseInput(input).0) == "((-a) * b)" && ParseInput(input).1 == []
  {
    NegTimesStreamHolds();
    NegTimesLex(input, NegTimesTokens(), NegTimesPositions());
    NegTimesParses(input, NegTimesTokens(), NegTimesPositions());
    NegTimesPrints();
    OneStatementPrints(Token(MINUS, "-"), NegTimesTree().value);
  }

  // "!-a"

  function BangNegTokens(): seq<Token> {
    [Token(BANG, "!"), Token(MINUS, "-"), Token(IDENT, "a"), Token(EOF, ""), Token(EOF, "")]
  }

  function BangNegPositions(): seq<nat> {
    [0, 1, 2, 3, 4, 5]
  }

  /** The tokens of "!-a". */
  predicate BangNegStream(ts: seq<Token>) {
    |ts| == 5 && ts[0] == Token(BANG, "!") && ts[1] == Token(MINUS, "-") && ts[2] == Token(IDENT, "a")
    && ts[3] == Token(EOF, "") && ts[4] == Token(EOF, "")
  }

  /** The positions the lexer reads those tokens between. */
  predicate BangNegSpans(ps: seq<nat>) {
    |ps| == 6 && ps[0] == 0 && ps[1] == 1 && ps[2] == 2 && ps[3] == 3 && ps[4] == 4 && ps[5] == 5
  }

  lemma BangNegStreamHolds()
    ensures BangNegStream(BangNegTokens()) && BangNegSpans(BangNegPositions())
  {
  }

  /** The lexer reads the tokens of "!-a" from index 1 on. */
  lemma BangNegLexTail(input: string, ts: seq<Token>, ps: seq<nat>)
    requires |input| == 3 && input[0] == '!' && input[1] == '-' && input[2] == 'a'
    requires BangNegStream(ts) && BangNegSpans(ps)
    ensures LexesFrom(input, ts, ps, 1)
  {
    LexesEnd(input, ts, ps, 4);
    LexesEnd(input, ts, ps, 3);
    LexesLetter(input, ts, ps, 2, 0);
    LexesSymbol(input, ts, ps, 1, 0, MINUS);
  }

  /** The lexer reads "!-a" as those tokens. */
  lemma BangNegLex(input: string, ts: seq<Token>, ps: seq<nat>)
    requires |input| == 3 && input[0] == '!' && input[1] == '-' && input[2] == 'a'
    requires BangNegStream(ts) && BangNegSpans(ps)
    ensures LexesTo(input, ts, ps)
  {
    BangNegLexTail(input, ts, ps);
    LexesBang(input, ts, ps, 0, 0);
  }

  function BangNegTree(): Option<Expression> {
    Some(PrefixExpression(Token(BANG, "!"), "!", Some(PrefixExpression(Token(MINUS, "-"), "-", Ident("a")))))
  }

  /** The token facts the parse steps below rely on. */
  lemma BangNegShape(ts: seq<Token>)
    requires BangNegStream(ts)
    ensures Precedence(ts[1].tokenType) == SUM
    ensures ts[2].tokenType == IDENT
    ensures Ends(ts[3], PREFIX)
    ensures ts[1].tokenType in {BANG, MINUS}
    ensures HasPrefixParseFn(ts[1].tokenType)
    ensures ts[0].tokenType in {BANG, MINUS}
    ensures Ends(ts[3], LOWEST)
    ensures HasPrefixParseFn(ts[0].tokenType)
  {
  }

  /** The nodes the parse steps below build from those tokens, as written in the tree. */
  lemma BangNegNodes(ts: seq<Token>)
    requires BangNegStream(ts)
    ensures Some(Identifier(ts[2], ts[2].literal)) == Ident("a")
  {
  }

  /** "-a" at PREFIX precedence: the minus and its operand, with nothing after. */
  lemma BangNegNegation(input: string, ts: seq<Token>, ps: seq<nat>)
    requires LexesTo(input, ts, ps) && BangNegStream(ts)
    ensures Consistent(input, Holding(ts, ps, 1)) && Consistent(input, Holding(ts, ps, 2))
    ensures ParseExpressionSpec(input, Holding(ts, ps, 1), PREFIX) == (Some(PrefixExpression(Token(MINUS, "-"), "-", Ident("a"))), Holding(ts, ps, 2))
  {
    BangNegShape(ts);
    BangNegNodes(ts);
    IdentifierOperand(input, ts, ps, 2, PREFIX);
    PrefixOperator(input, ts, ps, 1, Ident("a"), 2);
    LoopStops(input, ts, ps, 2, PREFIX, Some(PrefixExpression(Token(MINUS, "-"), "-", Ident("a"))));
    ExpressionFromPrefix(input, ts, ps, 1, PREFIX, Some(PrefixExpression(Token(MINUS, "-"), "-", Ident("a"))), 2, Some(PrefixExpression(Token(MINUS, "-"), "-", Ident("a"))), 2);
  }

  /** The whole input is one expression, BangNegTree(), ending on the last token before EOF. */
  lemma BangNegExpression(input: string, ts: seq<Token>, ps: seq<nat>)
    requires LexesTo(input, ts, ps) && BangNegStream(ts)
    ensures Consistent(input, Holding(ts, ps, 0))
    ensures ParseExpressionSpec(input, Holding(ts, ps, 0), LOWEST) == (BangNegTree(), Holding(ts, ps, 2))
  {
    BangNegShape(ts);
    BangNegNodes(ts);
    BangNegNegation(input, ts, ps);
    PrefixOperator(input, ts, ps, 0, Some(PrefixExpression(Token(MINUS, "-"), "-", Ident("a"))), 2);
    LoopStops(input, ts, ps, 2, LOWEST, BangNegTree());
    ExpressionFromPrefix(input, ts, ps, 0, LOWEST, BangNegTree(), 2, BangNegTree(), 2);
  }

  /** The parse functions build BangNegTree() from those tokens, without errors. */
  lemma BangNegParses(input: string, ts: seq<Token>, ps: seq<nat>)
    requires LexesTo(input, ts, ps) && BangNegStream(ts) && ps[0] == 0
    ensures ParseInput(input) == (Program([ExpressionStatement(Token(BANG, "!"), BangNegTree())]), [])
  {
    BangNegExpression(input, ts, ps);
    SingleExpressionProgram(input, ts, ps, BangNegTree(), 2);
  }

  lemma BangNegPrints()
    ensures ExpressionString(BangNegTree().value) == "(!(-a))"
  {
    var neg := Some(PrefixExpression(Token(MINUS, "-"), "-", Ident("a")));
    PrefixPrints(MINUS, "-", Ident("a"), "a", "(-a)");
    PrefixPrints(BANG, "!", neg, "(-a)", "(!(-a))");
  }

  /** "!-a" prints as "(!(-a))": prefix operators nest to the right. */
  lemma BangNeg(input: string)
    requires input == "!-a"
    ensures ProgramString(ParseInput(input).0) == "(!(-a))" && ParseInput(input).1 == []
  {
    BangNegStreamHolds();
    BangNegLex(input, BangNegTokens(), BangNegPositions());
    BangNegParses(input, BangNegTokens(), BangNegPositions());
    BangNegPrints();
    OneStatementPrints(Token(BANG, "!"), BangNegTree().value);
  }

  // "a + b + c"

  function SumSumTokens(): seq<Token> {
    [Token(IDENT, "a"), Token(PLUS, "+"), Token(IDENT, "b"), Token(PLUS, "+"), Token(IDENT, "c"),
     Token(EOF, ""), Token(EOF, "")]
  }

  function SumSumPositions(): seq<nat> {
    [0, 1, 3, 5, 7, 9, 10, 11]
  }

  /** The tokens of "a + b + c". */
  predicate SumSumStream(ts: seq<Token>) {
    |ts| == 7 && ts[0] == Token(IDENT, "a") && ts[1] == Token(PLUS, "+") && ts[2] == Token(IDENT, "b")
    && ts[3] == Token(PLUS, "+") && ts[4] == Token(IDENT, "c") && ts[5] == Token(EOF, "") && ts[6] == Token(EOF, "")
  }

  /** The positions the lexer reads those tokens between. */
  predicate SumSumSpans(ps: seq<nat>) {
    |ps| == 8 && ps[0] == 0 && ps[1] == 1 && ps[2] == 3 && ps[3] == 5 && ps[4] == 7 && ps[5] == 9 && ps[6] == 10
    && ps[7] == 11
  }

  lemma SumSumStreamHolds()
    ensures SumSumStream(SumSumTokens()) && SumSumSpans(SumSumPositions())
  {
  }

  /** The lexer reads the tokens of "a + b + c" from index 2 on. */
  lemma SumSumLexTail(input: string, ts: seq<Token>, ps: seq<nat>)
    requires |input| == 9 && input[0] == 'a' && input[1] == ' ' && input[2] == '+' && input[3] == ' ' && input[4] == 'b'
    requires input[5] == ' ' && input[6] == '+' && input[7] == ' ' && input[8] == 'c'
    requires SumSumStream(ts) && SumSumSpans(ps)
    ensures LexesFrom(input, ts, ps, 2)
  {
    LexesEnd(input, ts, ps, 6);
    LexesEnd(input, ts, ps, 5);
    LexesLetter(input, ts, ps, 4, 1);
    LexesSymbol(input, ts, ps, 3, 1, PLUS);
    LexesLetter(input, ts, ps, 2, 1);
  }

  /** The lexer reads "a + b + c" as those tokens. */
  lemma SumSumLex(input: string, ts: seq<Token>, ps: seq<nat>)
    requires |input| == 9 && input[0] == 'a' && input[1] == ' ' && input[2] == '+' && input[3] == ' ' && input[4] == 'b'
    requires input[5] == ' ' && input[6] == '+' && input[7] == ' ' && input[8] == 'c'
    requires SumSumStream(ts) && SumSumSpans(ps)
    ensures LexesTo(input, ts, ps)
  {
    SumSumLexTail(input, ts, ps);
    LexesSymbol(input, ts, ps, 1, 1, PLUS);
    LexesLetter(input, ts, ps, 0, 0);
  }

  function SumSumTree(): Option<Expression> {
    Infix(PLUS, "+", Infix(PLUS, "+", Ident("a"), Ident("b")), Ident("c"))
  }

  /** The token facts the parse steps below rely on. */
  lemma SumSumShape(ts: seq<Token>)
    requires SumSumStream(ts)
    ensures Precedence(ts[1].tokenType) == SUM
    ensures Precedence(ts[3].tokenType) == SUM
    ensures ts[2].tokenType == IDENT
    ensures Ends(ts[3], SUM)
    ensures !Ends(ts[1], LOWEST)
    ensures ts[4].tokenType == IDENT
    ensures !Ends(ts[3], LOWEST)
    ensures Ends(ts[5], LOWEST)
    ensures Ends(ts[5], Precedence(ts[3].tokenType))
    ensures HasPrefixParseFn(ts[0].tokenType)
  {
  }

  /** The nodes the parse steps below build from those tokens, as written in the tree. */
  lemma SumSumNodes(ts: seq<Token>)
    requires SumSumStream(ts)
    ensures Some(Identifier(ts[0], ts[0].literal)) == Ident("a")
    ensures Some(Identifier(ts[2], ts[2].literal)) == Ident("b")
    ensures Some(Identifier(ts[4], ts[4].literal)) == Ident("c")
    ensures SumSumTree() == Some(InfixExpression(ts[3], Infix(PLUS, "+", Ident("a"), Ident("b")), ts[3].literal, Some(Identifier(ts[4], ts[4].literal))))
  {
  }

  /** The first '+' folds "a" and "b" into one operand. */
  lemma SumSumFirst(input: string, ts: seq<Token>, ps: seq<nat>)
    requires LexesTo(input, ts, ps) && SumSumStream(ts)
    ensures Consistent(input, Holding(ts, ps, 0)) && Consistent(input, Holding(ts, ps, 2))
    ensures InfixLoopSpec(input, Holding(ts, ps, 0), LOWEST, Ident("a")) == InfixLoopSpec(input, Holding(ts, ps, 2), LOWEST, Infix(PLUS, "+", Ident("a"), Ident("b")))
  {
    SumSumShape(ts);
    SumSumNodes(ts);
    IdentifierOperand(input, ts, ps, 2, SUM);
    InfixFoldsLeft(input, ts, ps, 0, LOWEST, Ident("a"), Ident("b"), 2);
  }

  /** The whole input is one expression, SumSumTree(), ending on the last token before EOF. */
  lemma SumSumExpression(input: string, ts: seq<Token>, ps: seq<nat>)
    requires LexesTo(input, ts, ps) && SumSumStream(ts)
    ensures Consistent(input, Holding(ts, ps, 0))
    ensures ParseExpressionSpec(input, Holding(ts, ps, 0), LOWEST) == (SumSumTree(), Holding(ts, ps, 4))
  {
    SumSumShape(ts);
    SumSumNodes(ts);
    SumSumFirst(input, ts, ps);
    LastIdentifierFolds(input, ts, ps, 2, LOWEST, Infix(PLUS, "+", Ident("a"), Ident("b")), SumSumTree());
    ExpressionFromPrefix(input, ts, ps, 0, LOWEST, Ident("a"), 0, SumSumTree(), 4);
  }

  /** The parse functions build SumSumTree() from those tokens, without errors. */
  lemma SumSumParses(input: string, ts: seq<Token>, ps: seq<nat>)
    requires LexesTo(input, ts, ps) && SumSumStream(ts) && ps[0] == 0
    ensures ParseInput(input) == (Program([ExpressionStatement(Token(IDENT, "a"), SumSumTree())]), [])
  {
    SumSumExpression(input, ts, ps);
    SingleExpressionProgram(input, ts, ps, SumSumTree(), 4);
  }

  lemma SumSumPrints()
    ensures ExpressionString(SumSumTree().value) == "((a + b) + c)"
  {
    var ab := Infix(PLUS, "+", Ident("a"), Ident("b"));
    InfixPrints(PLUS, "+", Ident("a"), Ident("b"), "a", "b", "(a + b)");
    InfixPrints(PLUS, "+", ab, Ident("c"), "(a + b)", "c", "((a + b) + c)");
  }

  /** "a + b + c" prints as "((a + b) + c)": operators of equal precedence group to the left. */
  lemma SumSum(input: string)
    requires input == "a + b + c"
    ensures ProgramString(ParseInput(input).0) == "((a + b) + c)" && ParseInput(input).1 == []
  {
    SumSumStreamHolds();
    SumSumLex(input, SumSumTokens(), SumSumPositions());
    SumSumParses(input, SumSumTokens(), SumSumPositions());
    SumSumPrints();
    OneStatementPrints(Token(IDENT, "a"), SumSumTree().value);
  }

  // "a + b * c + d / e - f"

  function MixedTokens(): seq<Token> {
    [Token(IDENT, "a"), Token(PLUS, "+"), Token(IDENT, "b"), Token(ASTERISK, "*"), Token(IDENT, "c"),
     Token(PLUS, "+"), Token(IDENT, "d"), Token(SLASH, "/"), Token(IDENT, "e"), Token(MINUS, "-"),
     Token(IDENT, "f"), Token(EOF, ""), Token(EOF, "")]
  }

  function MixedPositions(): seq<nat> {
    [0, 1, 3, 5, 7, 9, 11, 13, 15, 17, 19, 21, 22, 23]
  }

  /** The tokens of "a + b * c + d / e - f". */
  predicate MixedStream(ts: seq<Token>) {
    |ts| == 13 && ts[0] == Token(IDENT, "a") && ts[1] == Token(PLUS, "+") && ts[2] == Token(IDENT, "b")
    && ts[3] == Token(ASTERISK, "*") && ts[4] == Token(IDENT, "c") && ts[5] == Token(PLUS, "+") && ts[6] == Token(IDENT, "d")
    && ts[7] == Token(SLASH, "/") && ts[8] == Token(IDENT, "e") && ts[9] == Token(MINUS, "-") && ts[10] == Token(IDENT, "f")
    && ts[11] == Token(EOF, "") && ts[12] == Token(EOF, "")
  }

  /** The positions the lexer reads those tokens between. */
  predicate MixedSpans(ps: seq<nat>) {
    |ps| == 14 && ps[0] == 0 && ps[1] == 1 && ps[2] == 3 && ps[3] == 5 && ps[4] == 7 && ps[5] == 9 && ps[6] == 11
    && ps[7] == 13 && ps[8] == 15 && ps[9] == 17 && ps[10] == 19 && ps[11] == 21 && ps[12] == 22 && ps[13] == 23
  }

  lemma MixedStreamHolds()
    ensures MixedStream(MixedTokens()) && MixedSpans(MixedPositions())
  {
  }

  /** The lexer reads the tokens of "a + b * c + d / e - f" from index 5 on. */
  lemma MixedLexTail(input: string, ts: seq<Token>, ps: seq<nat>)
    requires |input| == 21 && input[0] == 'a' && input[1] == ' ' && input[2] == '+' && input[3] == ' ' && input[4] == 'b'
    requires input[5] == ' ' && input[6] == '*' && input[7] == ' ' && input[8] == 'c' && input[9] == ' ' && input[10] == '+'
    requires input[11] == ' ' && input[12] == 'd' && input[13] == ' ' && input[14] == '/' && input[15] == ' ' && input[16] == 'e'
    requires input[17] == ' ' && input[18] == '-' && input[19] == ' ' && input[20] == 'f'
    requires MixedStream(ts) && MixedSpans(ps)
    ensures LexesFrom(input, ts, ps, 5)
  {
    LexesEnd(input, ts, ps, 12);
    LexesEnd(input, ts, ps, 11);
    LexesLetter(input, ts, ps, 10, 1);
    LexesSymbol(input, ts, ps, 9, 1, MINUS);
    LexesLetter(input, ts, ps, 8, 1);
    LexesSymbol(input, ts, ps, 7, 1, SLASH);
    LexesLetter(input, ts, ps, 6, 1);
    LexesSymbol(input, ts, ps, 5, 1, PLUS);
  }

  /** The lexer reads "a + b * c + d / e - f" as those tokens. */
  lemma MixedLex(input: string, ts: seq<Token>, ps: seq<nat>)
    requires |input| == 21 && input[0] == 'a' && input[1] == ' ' && input[2] == '+' && input[3] == ' ' && input[4] == 'b'
    requires input[5] == ' ' && input[6] == '*' && input[7] == ' ' && input[8] == 'c' && input[9] == ' ' && input[10] == '+'
    requires input[11] == ' ' && input[12] == 'd' && input[13] == ' ' && input[14] == '/' && input[15] == ' ' && input[16] == 'e'
    requires input[17] == ' ' && input[18] == '-' && input[19] == ' ' && input[20] == 'f'
    requires MixedStream(ts) && MixedSpans(ps)
    ensures LexesTo(input, ts, ps)
  {
    MixedLexTail(input, ts, ps);
    LexesLetter(input, ts, ps, 4, 1);
    LexesSymbol(input, ts, ps, 3, 1, ASTERISK);
    LexesLetter(input, ts, ps, 2, 1);
    LexesSymbol(input, ts, ps, 1, 1, PLUS);
    LexesLetter(input, ts, ps, 0, 0);
  }

  function MixedTree(): Option<Expression> {
    Infix(MINUS, "-",
      Infix(PLUS, "+",
        Infix(PLUS, "+", Ident("a"), Infix(ASTERISK, "*", Ident("b"), Ident("c"))),
        Infix(SLASH, "/", Ident("d"), Ident("e"))),
      Ident("f"))
  }

  /** The token facts the parse steps below rely on. */
  lemma MixedShape(ts: seq<Token>)
    requires MixedStream(ts)
    ensures Precedence(ts[1].tokenType) == SUM
    ensures Precedence(ts[3].tokenType) == PRODUCT
    ensures Precedence(ts[5].tokenType) == SUM
    ensures Precedence(ts[7].tokenType) == PRODUCT
    ensures Precedence(ts[9].tokenType) == SUM
    ensures ts[2].tokenType == IDENT
    ensures ts[4].tokenType == IDENT
    ensures !Ends(ts[1], LOWEST)
    ensures !Ends(ts[3], Precedence(ts[1].tokenType))
    ensures Ends(ts[5], Precedence(ts[1].tokenType))
    ensures Ends(ts[5], Precedence(ts[3].tokenType))
    ensures ts[6].tokenType == IDENT
    ensures ts[8].tokenType == IDENT
    ensures !Ends(ts[5], LOWEST)
    ensures !Ends(ts[7], Precedence(ts[5].tokenType))
    ensures Ends(ts[9], Precedence(ts[5].tokenType))
    ensures Ends(ts[9], Precedence(ts[7].tokenType))
    ensures ts[10].tokenType == IDENT
    ensures !Ends(ts[9], LOWEST)
    ensures Ends(ts[11], LOWEST)
    ensures Ends(ts[11], Precedence(ts[9].tokenType))
    ensures HasPrefixParseFn(ts[0].tokenType)
  {
  }

  /** The nodes the parse steps below build from those tokens, as written in the tree. */
  lemma MixedNodes(ts: seq<Token>)
    requires MixedStream(ts)
    ensures Some(Identifier(ts[0], ts[0].literal)) == Ident("a")
    ensures Some(Identifier(ts[2], ts[2].literal)) == Ident("b")
    ensures Some(Identifier(ts[4], ts[4].literal)) == Ident("c")
    ensures Some(Identifier(ts[6], ts[6].literal)) == Ident("d")
    ensures Some(Identifier(ts[8], ts[8].literal)) == Ident("e")
    ensures Some(Identifier(ts[10], ts[10].literal)) == Ident("f")
    ensures Infix(PLUS, "+", Ident("a"), Infix(ASTERISK, "*", Ident("b"), Ident("c"))) == Some(InfixExpression(ts[1], Ident("a"), ts[1].literal, Some(InfixExpression(ts[3], Some(Identifier(ts[2], ts[2].literal)), ts[3].literal, Some(Identifier(ts[4], ts[4].literal))))))
    ensures Infix(PLUS, "+", Infix(PLUS, "+", Ident("a"), Infix(ASTERISK, "*", Ident("b"), Ident("c"))), Infix(SLASH, "/", Ident("d"), Ident("e"))) == Some(InfixExpression(ts[5], Infix(PLUS, "+", Ident("a"), Infix(ASTERISK, "*", Ident("b"), Ident("c"))), ts[5].literal, Some(InfixExpression(ts[7], Some(Identifier(ts[6], ts[6].literal)), ts[7].literal, Some(Identifier(ts[8], ts[8].literal))))))
    ensures MixedTree() == Some(InfixExpression(ts[9], Infix(PLUS, "+", Infix(PLUS, "+", Ident("a"), Infix(ASTERISK, "*", Ident("b"), Ident("c"))), Infix(SLASH, "/", Ident("d"), Ident("e"))), ts[9].literal, Some(Identifier(ts[10], ts[10].literal))))
  {
  }

  /** The first '+' takes "a" and the product "b * c", which binds tighter, as its operands. */
  lemma MixedFirstFold(input: string, ts: seq<Token>, ps: seq<nat>)
    requires LexesTo(input, ts, ps) && MixedStream(ts)
    ensures Consistent(input, Holding(ts, ps, 0)) && Consistent(input, Holding(ts, ps, 4))
    ensures InfixLoopSpec(input, Holding(ts, ps, 0), LOWEST, Ident("a")) == InfixLoopSpec(input, Holding(ts, ps, 4), LOWEST, Infix(PLUS, "+", Ident("a"), Infix(ASTERISK, "*", Ident("b"), Ident("c"))))
  {
    MixedShape(ts);
    MixedNodes(ts);
    FoldsIdentifierInfix(input, ts, ps, 0, LOWEST, Ident("a"), Infix(PLUS, "+", Ident("a"), Infix(ASTERISK, "*", Ident("b"), Ident("c"))));
  }

  /** The second '+' takes the sum so far and the quotient "d / e" as its operands. */
  lemma MixedSecondFold(input: string, ts: seq<Token>, ps: seq<nat>)
    requires LexesTo(input, ts, ps) && MixedStream(ts)
    ensures Consistent(input, Holding(ts, ps, 4)) && Consistent(input, Holding(ts, ps, 8))
    ensures InfixLoopSpec(input, Holding(ts, ps, 4), LOWEST, Infix(PLUS, "+", Ident("a"), Infix(ASTERISK, "*", Ident("b"), Ident("c")))) == InfixLoopSpec(input, Holding(ts, ps, 8), LOWEST, Infix(PLUS, "+", Infix(PLUS, "+", Ident("a"), Infix(ASTERISK, "*", Ident("b"), Ident("c"))), Infix(SLASH, "/", Ident("d"), Ident("e"))))
  {
    MixedShape(ts);
    MixedNodes(ts);
    FoldsIdentifierInfix(input, ts, ps, 4, LOWEST, Infix(PLUS, "+", Ident("a"), Infix(ASTERISK, "*", Ident("b"), Ident("c"))), Infix(PLUS, "+", Infix(PLUS, "+", Ident("a"), Infix(ASTERISK, "*", Ident("b"), Ident("c"))), Infix(SLASH, "/", Ident("d"), Ident("e"))));
  }

  /** The '-' takes everything before it and "f", and the loop stops at EOF. */
  lemma MixedTail(input: string, ts: seq<Token>, ps: seq<nat>)
    requires LexesTo(input, ts, ps) && MixedStream(ts)
    ensures Consistent(input, Holding(ts, ps, 8))
    ensures InfixLoopSpec(input, Holding(ts, ps, 8), LOWEST, Infix(PLUS, "+", Infix(PLUS, "+", Ident("a"), Infix(ASTERISK, "*", Ident("b"), Ident("c"))), Infix(SLASH, "/", Ident("d"), Ident("e")))) == (MixedTree(), Holding(ts, ps, 10))
  {
    MixedShape(ts);
    MixedNodes(ts);
    LastIdentifierFolds(input, ts, ps, 8, LOWEST, Infix(PLUS, "+", Infix(PLUS, "+", Ident("a"), Infix(ASTERISK, "*", Ident("b"), Ident("c"))), Infix(SLASH, "/", Ident("d"), Ident("e"))), MixedTree());
  }

  /** The infix loop from "a": two folds, then the '-' with "f". */
  lemma MixedLoop(input: string, ts: seq<Token>, ps: seq<nat>)
    requires LexesTo(input, ts, ps) && MixedStream(ts)
    ensures Consistent(input, Holding(ts, ps, 0))
    ensures InfixLoopSpec(input, Holding(ts, ps, 0), LOWEST, Ident("a")) == (MixedTree(), Holding(ts, ps, 10))
  {
    MixedShape(ts);
    MixedNodes(ts);
    MixedFirstFold(input, ts, ps);
    MixedSecondFold(input, ts, ps);
    MixedTail(input, ts, ps);
  }

  lemma MixedSumPrints()
    ensures var bc := Infix(ASTERISK, "*", Ident("b"), Ident("c"));
      ExpressionString(Infix(PLUS, "+", Infix(PLUS, "+", Ident("a"), bc), Infix(SLASH, "/", Ident("d"), Ident("e"))).value)
        == "((a + (b * c)) + (d / e))"
  {
    var bc := Infix(ASTERISK, "*", Ident("b"), Ident("c"));
    var abc := Infix(PLUS, "+", Ident("a"), bc);
    var de := Infix(SLASH, "/", Ident("d"), Ident("e"));
    InfixPrints(ASTERISK, "*", Ident("b"), Ident("c"), "b", "c", "(b * c)");
    InfixPrints(PLUS, "+", Ident("a"), bc, "a", "(b * c)", "(a + (b * c))");
    InfixPrints(SLASH, "/", Ident("d"), Ident("e"), "d", "e", "(d / e)");
    MixedSumSpelling();
    InfixPrints(PLUS, "+", abc, de, "(a + (b * c))", "(d / e)", "((a + (b * c)) + (d / e))");
  }

  lemma MixedSumSpelling()
    ensures "(" + "(a + (b * c))" + " " + "+" + " " + "(d / e)" + ")" == "((a + (b * c)) + (d / e))"
  {
  }

  lemma MixedSpelling()
    ensures "(" + "((a + (b * c)) + (d / e))" + " " + "-" + " " + "f" + ")" == "(((a + (b * c)) + (d / e)) - f)"
  {
  }

  /** The whole input is one expression, MixedTree(), ending on the last token before EOF. */
  lemma MixedExpression(input: string, ts: seq<Token>, ps: seq<nat>)
    requires LexesTo(input, ts, ps) && MixedStream(ts)
    ensures Consistent(input, Holding(ts, ps, 0))
    ensures ParseExpressionSpec(input, Holding(ts, ps, 0), LOWEST) == (MixedTree(), Holding(ts, ps, 10))
  {
    MixedShape(ts);
    MixedNodes(ts);
    MixedLoop(input, ts, ps);
    ExpressionFromPrefix(input, ts, ps, 0, LOWEST, Ident("a"), 0, MixedTree(), 10);
  }

  /** The parse functions build MixedTree() from those tokens, without errors. */
  lemma MixedParses(input: string, ts: seq<Token>, ps: seq<nat>)
    requires LexesTo(input, ts, ps) && MixedStream(ts) && ps[0] == 0
    ensures ParseInput(input) == (Program([ExpressionStatement(Token(IDENT, "a"), MixedTree())]), [])
  {
    MixedExpression(input, ts, ps);
    SingleExpressionProgram(input, ts, ps, MixedTree(), 10);
  }

  lemma MixedPrints()
    ensures ExpressionString(MixedTree().value) == "(((a + (b * c)) + (d / e)) - f)"
  {
    var bc := Infix(ASTERISK, "*", Ident("b"), Ident("c"));
    var abcde := Infix(PLUS, "+", Infix(PLUS, "+", Ident("a"), bc), Infix(SLASH, "/", Ident("d"), Ident("e")));
    MixedSumPrints();
    MixedSpelling();
    InfixPrints(MINUS, "-", abcde, Ident("f"), "((a + (b * c)) + (d / e))", "f", "(((a + (b * c)) + (d / e)) - f)");
  }

  /** "a + b * c + d / e - f" prints as "(((a + (b * c)) + (d / e)) - f)": '*' and '/' bind tighter than '+' and '-'. */
  lemma Mixed(input: string)
    requires input == "a + b * c + d / e - f"
    ensures ProgramString(ParseInput(input).0) == "(((a + (b * c)) + (d / e)) - f)" && ParseInput(input).1 == []
  {
    MixedStreamHolds();
    MixedLex(input, MixedTokens(), MixedPositions());
    MixedParses(input, MixedTokens(), MixedPositions());
    MixedPrints();
    OneStatementPrints(Token(IDENT, "a"), MixedTree().value);
  }

  // "(5 + 5) * 2"

  function GroupedFirstTokens(): seq<Token> {
    [Token(LPAREN, "("), Token(INT, "5"), Token(PLUS, "+"), Token(INT, "5"), Token(RPAREN, ")"),
     Token(ASTERISK, "*"), Token(INT, "2"), Token(EOF, ""), Token(EOF, "")]
  }

  function GroupedFirstPositions(): seq<nat> {
    [0, 1, 2, 4, 6, 7, 9, 11, 12, 13]
  }

  /** The tokens of "(5 + 5) * 2". */
  predicate GroupedFirstStream(ts: seq<Token>) {
    |ts| == 9 && ts[0] == Token(LPAREN, "(") && ts[1] == Token(INT, "5") && ts[2] == Token(PLUS, "+")
    && ts[3] == Token(INT, "5") && ts[4] == Token(RPAREN, ")") && ts[5] == Token(ASTERISK, "*") && ts[6] == Token(INT, "2")
    && ts[7] == Token(EOF, "") && ts[8] == Token(EOF, "")
  }

  /** The positions the lexer reads those tokens between. */
  predicate GroupedFirstSpans(ps: seq<nat>) {
    |ps| == 10 && ps[0] == 0 && ps[1] == 1 && ps[2] == 2 && ps[3] == 4 && ps[4] == 6 && ps[5] == 7 && ps[6] == 9
    && ps[7] == 11 && ps[8] == 12 && ps[9] == 13
  }

  lemma GroupedFirstStreamHolds()
    ensures GroupedFirstStream(GroupedFirstTokens()) && GroupedFirstSpans(GroupedFirstPositions())
  {
  }

  /** The lexer reads the tokens of "(5 + 5) * 2" from index 3 on. */
  lemma GroupedFirstLexTail(input: string, ts: seq<Token>, ps: seq<nat>)
    requires |input| == 11 && input[0] == '(' && input[1] == '5' && input[2] == ' ' && input[3] == '+' && input[4] == ' '
    requires input[5] == '5' && input[6] == ')' && input[7] == ' ' && input[8] == '*' && input[9] == ' ' && input[10] == '2'
    requires GroupedFirstStream(ts) && GroupedFirstSpans(ps)
    ensures LexesFrom(input, ts, ps, 3)
  {
    LexesEnd(input, ts, ps, 8);
    LexesEnd(input, ts, ps, 7);
    LexesDigit(input, ts, ps, 6, 1);
    LexesSymbol(input, ts, ps, 5, 1, ASTERISK);
    LexesSymbol(input, ts, ps, 4, 0, RPAREN);
    LexesDigit(input, ts, ps, 3, 1);
  }

  /** The lexer reads "(5 + 5) * 2" as those tokens. */
  lemma GroupedFirstLex(input: string, ts: seq<Token>, ps: seq<nat>)
    requires |input| == 11 && input[0] == '(' && input[1] == '5' && input[2] == ' ' && input[3] == '+' && input[4] == ' '
    requires input[5] == '5' && input[6] == ')' && input[7] == ' ' && input[8] == '*' && input[9] == ' ' && input[10] == '2'
    requires GroupedFirstStream(ts) && GroupedFirstSpans(ps)
    ensures LexesTo(input, ts, ps)
  {
    GroupedFirstLexTail(input, ts, ps);
    LexesSymbol(input, ts, ps, 2, 1, PLUS);
    LexesDigit(input, ts, ps, 1, 0);
    LexesSymbol(input, ts, ps, 0, 0, LPAREN);
  }

  function GroupedFirstTree(): Option<Expression> {
    Infix(ASTERISK, "*", Infix(PLUS, "+", Int("5", 5), Int("5", 5)), Int("2", 2))
  }

  /** The token facts the parse steps below rely on. */
  lemma GroupedFirstShape(ts: seq<Token>)
    requires GroupedFirstStream(ts)
    ensures Precedence(ts[2].tokenType) == SUM
    ensures Precedence(ts[5].tokenType) == PRODUCT
    ensures ts[3].tokenType == INT
    ensures ParseDecimal(ts[3].literal) == Some(5)
    ensures !Ends(ts[2], LOWEST)
    ensures Ends(ts[4], LOWEST)
    ensures Ends(ts[4], Precedence(ts[2].tokenType))
    ensures ts[1].tokenType == INT
    ensures ParseDecimal(ts[1].literal) == Some(5)
    ensures HasPrefixParseFn(ts[1].tokenType)
    ensures ts[0].tokenType == LPAREN
    ensures ts[4].tokenType == RPAREN
    ensures ts[6].tokenType == INT
    ensures ParseDecimal(ts[6].literal) == Some(2)
    ensures !Ends(ts[5], LOWEST)
    ensures Ends(ts[7], LOWEST)
    ensures Ends(ts[7], Precedence(ts[5].tokenType))
    ensures HasPrefixParseFn(ts[0].tokenType)
  {
    SingleDigitValue('5');
    SingleDigitValue('2');
  }

  /** The nodes the parse steps below build from those tokens, as written in the tree. */
  lemma GroupedFirstNodes(ts: seq<Token>)
    requires GroupedFirstStream(ts)
    ensures Some(IntegerLiteral(ts[1], 5)) == Int("5", 5)
    ensures Some(IntegerLiteral(ts[3], 5)) == Int("5", 5)
    ensures Some(IntegerLiteral(ts[6], 2)) == Int("2", 2)
    ensures Infix(PLUS, "+", Int("5", 5), Int("5", 5)) == Some(InfixExpression(ts[2], Int("5", 5), ts[2].literal, Some(IntegerLiteral(ts[3], 5))))
    ensures GroupedFirstTree() == Some(InfixExpression(ts[5], Infix(PLUS, "+", Int("5", 5), Int("5", 5)), ts[5].literal, Some(IntegerLiteral(ts[6], 2))))
  {
  }

  /** "5 + 5" inside the parentheses, up to the ')'. */
  lemma GroupedFirstSum(input: string, ts: seq<Token>, ps: seq<nat>)
    requires LexesTo(input, ts, ps) && GroupedFirstStream(ts)
    ensures Consistent(input, Holding(ts, ps, 1)) && Consistent(input, Holding(ts, ps, 3))
    ensures ParseExpressionSpec(input, Holding(ts, ps, 1), LOWEST) == (Infix(PLUS, "+", Int("5", 5), Int("5", 5)), Holding(ts, ps, 3))
  {
    GroupedFirstShape(ts);
    GroupedFirstNodes(ts);
    LastIntegerFolds(input, ts, ps, 1, LOWEST, Int("5", 5), 5, Infix(PLUS, "+", Int("5", 5), Int("5", 5)));
    IntegerPrefix(input, ts, ps, 1, 5);
    ExpressionFromPrefix(input, ts, ps, 1, LOWEST, Int("5", 5), 1, Infix(PLUS, "+", Int("5", 5), Int("5", 5)), 3);
  }

  /** "(5 + 5)" read from the '(': the sum inside, with the parser left on the ')'. */
  lemma GroupedFirstGroup(input: string, ts: seq<Token>, ps: seq<nat>)
    requires LexesTo(input, ts, ps) && GroupedFirstStream(ts)
    ensures Consistent(input, Holding(ts, ps, 0)) && Consistent(input, Holding(ts, ps, 4))
    ensures ParsePrefixSpec(input, Holding(ts, ps, 0)) == (Infix(PLUS, "+", Int("5", 5), Int("5", 5)), Holding(ts, ps, 4))
  {
    GroupedFirstShape(ts);
    GroupedFirstNodes(ts);
    GroupedFirstSum(input, ts, ps);
    GroupedOperand(input, ts, ps, 0, Infix(PLUS, "+", Int("5", 5), Int("5", 5)), 3);
  }

  /** After the ')', "* 2" takes the group as its left operand. */
  lemma GroupedFirstLoop(input: string, ts: seq<Token>, ps: seq<nat>)
    requires LexesTo(input, ts, ps) && GroupedFirstStream(ts)
    ensures Consistent(input, Holding(ts, ps, 4))
    ensures InfixLoopSpec(input, Holding(ts, ps, 4), LOWEST, Infix(PLUS, "+", Int("5", 5), Int("5", 5))) == (GroupedFirstTree(), Holding(ts, ps, 6))
  {
    GroupedFirstShape(ts);
    GroupedFirstNodes(ts);
    LastIntegerFolds(input, ts, ps, 4, LOWEST, Infix(PLUS, "+", Int("5", 5), Int("5", 5)), 2, GroupedFirstTree());
  }

  /** The whole input is one expression, GroupedFirstTree(), ending on the last token before EOF. */
  lemma GroupedFirstExpression(input: string, ts: seq<Token>, ps: seq<nat>)
    requires LexesTo(input, ts, ps) && GroupedFirstStream(ts)
    ensures Consistent(input, Holding(ts, ps, 0))
    ensures ParseExpressionSpec(input, Holding(ts, ps, 0), LOWEST) == (GroupedFirstTree(), Holding(ts, ps, 6))
  {
    GroupedFirstShape(ts);
    GroupedFirstNodes(ts);
    GroupedFirstGroup(input, ts, ps);
    GroupedFirstLoop(input, ts, ps);
    ExpressionFromPrefix(input, ts, ps, 0, LOWEST, Infix(PLUS, "+", Int("5", 5), Int("5", 5)), 4, GroupedFirstTree(), 6);
  }

  /** The parse functions build GroupedFirstTree() from those tokens, without errors. */
  lemma GroupedFirstParses(input: string, ts: seq<Token>, ps: seq<nat>)
    requires LexesTo(input, ts, ps) && GroupedFirstStream(ts) && ps[0] == 0
    ensures ParseInput(input) == (Program([ExpressionStatement(Token(LPAREN, "("), GroupedFirstTree())]), [])
  {
    GroupedFirstExpression(input, ts, ps);
    SingleExpressionProgram(input, ts, ps, GroupedFirstTree(), 6);
  }

  lemma GroupedFirstPrints()
    ensures ExpressionString(GroupedFirstTree().value) == "((5 + 5) * 2)"
  {
    var sum := Infix(PLUS, "+", Int("5", 5), Int("5", 5));
    DigitPrints('5');
    DigitPrints('2');
    InfixPrints(PLUS, "+", Int("5", 5), Int("5", 5), "5", "5", "(5 + 5)");
    InfixPrints(ASTERISK, "*", sum, Int("2", 2), "(5 + 5)", "2", "((5 + 5) * 2)");
  }

  /** "(5 + 5) * 2" prints as "((5 + 5) * 2)": parentheses lift a sum above a product. */
  lemma GroupedFirst(input: string)
    requires input == "(5 + 5) * 2"
    ensures ProgramString(ParseInput(input).0) == "((5 + 5) * 2)" && ParseInput(input).1 == []
  {
    GroupedFirstStreamHolds();
    GroupedFirstLex(input, GroupedFirstTokens(), GroupedFirstPositions());
    GroupedFirstParses(input, GroupedFirstTokens(), GroupedFirstPositions());
    GroupedFirstPrints();
    OneStatementPrints(Token(LPAREN, "("), GroupedFirstTree().value);
  }

  // "2 / (5 + 5)"

  function GroupedLastTokens(): seq<Token> {
    [Token(INT, "2"), Token(SLASH, "/"), Token(LPAREN, "("), Token(INT, "5"), Token(PLUS, "+"),
     Token(INT, "5"), Token(RPAREN, ")"), Token(EOF, ""), Token(EOF, "")]
  }

  function GroupedLastPositions(): seq<nat> {
    [0, 1, 3, 5, 6, 8, 10, 11, 12, 13]
  }

  /** The tokens of "2 / (5 + 5)". */
  predicate GroupedLastStream(ts: seq<Token>) {
    |ts| == 9 && ts[0] == Token(INT, "2") && ts[1] == Token(SLASH, "/") && ts[2] == Token(LPAREN, "(")
    && ts[3] == Token(INT, "5") && ts[4] == Token(PLUS, "+") && ts[5] == Token(INT, "5") && ts[6] == Token(RPAREN, ")")
    && ts[7] == Token(EOF, "") && ts[8] == Token(EOF, "")
  }

  /** The positions the lexer reads those tokens between. */
  predicate GroupedLastSpans(ps: seq<nat>) {
    |ps| == 10 && ps[0] == 0 && ps[1] == 1 && ps[2] == 3 && ps[3] == 5 && ps[4] == 6 && ps[5] == 8 && ps[6] == 10
    && ps[7] == 11 && ps[8] == 12 && ps[9] == 13
  }

  lemma GroupedLastStreamHolds()
    ensures GroupedLastStream(GroupedLastTokens()) && GroupedLastSpans(GroupedLastPositions())
  {
  }

  /** The lexer reads the tokens of "2 / (5 + 5)" from index 3 on. */
  lemma GroupedLastLexTail(input: string, ts: seq<Token>, ps: seq<nat>)
    requires |input| == 11 && input[0] == '2' && input[1] == ' ' && input[2] == '/' && input[3] == ' ' && input[4] == '('
    requires input[5] == '5' && input[6] == ' ' && input[7] == '+' && input[8] == ' ' && input[9] == '5' && input[10] == ')'
    requires GroupedLastStream(ts) && GroupedLastSpans(ps)
    ensures LexesFrom(input, ts, ps, 3)
  {
    LexesEnd(input, ts, ps, 8);
    LexesEnd(input, ts, ps, 7);
    LexesSymbol(input, ts, ps, 6, 0, RPAREN);
    LexesDigit(input, ts, ps, 5, 1);
    LexesSymbol(input, ts, ps, 4, 1, PLUS);
    LexesDigit(input, ts, ps, 3, 0);
  }

  /** The lexer reads "2 / (5 + 5)" as those tokens. */
  lemma GroupedLastLex(input: string, ts: seq<Token>, ps: seq<nat>)
    requires |input| == 11 && input[0] == '2' && input[1] == ' ' && input[2] == '/' && input[3] == ' ' && input[4] == '('
    requires input[5] == '5' && input[6] == ' ' && input[7] == '+' && input[8] == ' ' && input[9] == '5' && input[10] == ')'
    requires GroupedLastStream(ts) && GroupedLastSpans(ps)
    ensures LexesTo(input, ts, ps)
  {
    GroupedLastLexTail(input, ts, ps);
    LexesSymbol(input, ts, ps, 2, 1, LPAREN);
    LexesSymbol(input, ts, ps, 1, 1, SLASH);
    LexesDigit(input, ts, ps, 0, 0);
  }

  function GroupedLastTree(): Option<Expression> {
    Infix(SLASH, "/", Int("2", 2), Infix(PLUS, "+", Int("5", 5), Int("5", 5)))
  }

  /** The token facts the parse steps below rely on. */
  lemma GroupedLastShape(ts: seq<Token>)
    requires GroupedLastStream(ts)
    ensures Precedence(ts[1].tokenType) == PRODUCT
    ensures Precedence(ts[4].tokenType) == SUM
    ensures ts[5].tokenType == INT
    ensures ParseDecimal(ts[5].literal) == Some(5)
    ensures !Ends(ts[4], LOWEST)
    ensures Ends(ts[6], LOWEST)
    ensures Ends(ts[6], Precedence(ts[4].tokenType))
    ensures ts[3].tokenType == INT
    ensures ParseDecimal(ts[3].literal) == Some(5)
    ensures HasPrefixParseFn(ts[3].tokenType)
    ensures ts[2].tokenType == LPAREN
    ensures ts[6].tokenType == RPAREN
    ensures Ends(ts[7], PRODUCT)
    ensures HasPrefixParseFn(ts[2].tokenType)
    ensures !Ends(ts[1], LOWEST)
    ensures Ends(ts[7], LOWEST)
    ensures ts[0].tokenType == INT
    ensures ParseDecimal(ts[0].literal) == Some(2)
    ensures HasPrefixParseFn(ts[0].tokenType)
  {
    SingleDigitValue('2');
    SingleDigitValue('5');
  }

  /** The nodes the parse steps below build from those tokens, as written in the tree. */
  lemma GroupedLastNodes(ts: seq<Token>)
    requires GroupedLastStream(ts)
    ensures Some(IntegerLiteral(ts[0], 2)) == Int("2", 2)
    ensures Some(IntegerLiteral(ts[3], 5)) == Int("5", 5)
    ensures Some(IntegerLiteral(ts[5], 5)) == Int("5", 5)
    ensures Infix(PLUS, "+", Int("5", 5), Int("5", 5)) == Some(InfixExpression(ts[4], Int("5", 5), ts[4].literal, Some(IntegerLiteral(ts[5], 5))))
    ensures GroupedLastTree() == Some(InfixExpression(ts[1], Int("2", 2), ts[1].literal, Infix(PLUS, "+", Int("5", 5), Int("5", 5))))
  {
  }

  /** "5 + 5" inside the parentheses, up to the ')'. */
  lemma GroupedLastSum(input: string, ts: seq<Token>, ps: seq<nat>)
    requires LexesTo(input, ts, ps) && GroupedLastStream(ts)
    ensures Consistent(input, Holding(ts, ps, 3)) && Consistent(input, Holding(ts, ps, 5))
    ensures ParseExpressionSpec(input, Holding(ts, ps, 3), LOWEST) == (Infix(PLUS, "+", Int("5", 5), Int("5", 5)), Holding(ts, ps, 5))
  {
    GroupedLastShape(ts);
    GroupedLastNodes(ts);
    LastIntegerFolds(input, ts, ps, 3, LOWEST, Int("5", 5), 5, Infix(PLUS, "+", Int("5", 5), Int("5", 5)));
    IntegerPrefix(input, ts, ps, 3, 5);
    ExpressionFromPrefix(input, ts, ps, 3, LOWEST, Int("5", 5), 3, Infix(PLUS, "+", Int("5", 5), Int("5", 5)), 5);
  }

  /** "(5 + 5)" read from the '(' at PRODUCT precedence: the sum inside, with the parser left on the ')'. */
  lemma GroupedLastGroup(input: string, ts: seq<Token>, ps: seq<nat>)
    requires LexesTo(input, ts, ps) && GroupedLastStream(ts)
    ensures Consistent(input, Holding(ts, ps, 2)) && Consistent(input, Holding(ts, ps, 6))
    ensures ParseExpressionSpec(input, Holding(ts, ps, 2), PRODUCT) == (Infix(PLUS, "+", Int("5", 5), Int("5", 5)), Holding(ts, ps, 6))
  {
    GroupedLastShape(ts);
    GroupedLastNodes(ts);
    GroupedLastSum(input, ts, ps);
    GroupedOperand(input, ts, ps, 2, Infix(PLUS, "+", Int("5", 5), Int("5", 5)), 5);
    LoopStops(input, ts, ps, 6, PRODUCT, Infix(PLUS, "+", Int("5", 5), Int("5", 5)));
    ExpressionFromPrefix(input, ts, ps, 2, PRODUCT, Infix(PLUS, "+", Int("5", 5), Int("5", 5)), 6, Infix(PLUS, "+", Int("5", 5), Int("5", 5)), 6);
  }

  /** The '/' takes "2" and the whole group as its operands. */
  lemma GroupedLastLoop(input: string, ts: seq<Token>, ps: seq<nat>)
    requires LexesTo(input, ts, ps) && GroupedLastStream(ts)
    ensures Consistent(input, Holding(ts, ps, 0))
    ensures InfixLoopSpec(input, Holding(ts, ps, 0), LOWEST, Int("2", 2)) == (GroupedLastTree(), Holding(ts, ps, 6))
  {
    GroupedLastShape(ts);
    GroupedLastNodes(ts);
    GroupedLastGroup(input, ts, ps);
    LastOperandFolds(input, ts, ps, 0, LOWEST, Int("2", 2), PRODUCT, Infix(PLUS, "+", Int("5", 5), Int("5", 5)), 6, GroupedLastTree());
  }

  /** The whole input is one expression, GroupedLastTree(), ending on the last token before EOF. */
  lemma GroupedLastExpression(input: string, ts: seq<Token>, ps: seq<nat>)
    requires LexesTo(input, ts, ps) && GroupedLastStream(ts)
    ensures Consistent(input, Holding(ts, ps, 0))
    ensures ParseExpressionSpec(input, Holding(ts, ps, 0), LOWEST) == (GroupedLastTree(), Holding(ts, ps, 6))
  {
    GroupedLastShape(ts);
    GroupedLastNodes(ts);
    GroupedLastLoop(input, ts, ps);
    IntegerPrefix(input, ts, ps, 0, 2);
    ExpressionFromPrefix(input, ts, ps, 0, LOWEST, Int("2", 2), 0, GroupedLastTree(), 6);
  }

  /** The parse functions build GroupedLastTree() from those tokens, without errors. */
  lemma GroupedLastParses(input: string, ts: seq<Token>, ps: seq<nat>)
    requires LexesTo(input, ts, ps) && GroupedLastStream(ts) && ps[0] == 0
    ensures ParseInput(input) == (Program([ExpressionStatement(Token(INT, "2"), GroupedLastTree())]), [])
  {
    GroupedLastExpression(input, ts, ps);
    SingleExpressionProgram(input, ts, ps, GroupedLastTree(), 6);
  }

  lemma GroupedLastPrints()
    ensures ExpressionString(GroupedLastTree().value) == "(2 / (5 + 5))"
  {
    var sum := Infix(PLUS, "+", Int("5", 5), Int("5", 5));
    DigitPrints('5');
    DigitPrints('2');
    InfixPrints(PLUS, "+", Int("5", 5), Int("5", 5), "5", "5", "(5 + 5)");
    InfixPrints(SLASH, "/", Int("2", 2), sum, "2", "(5 + 5)", "(2 / (5 + 5))");
  }

  /** "2 / (5 + 5)" prints as "(2 / (5 + 5))": a parenthesised operand is parsed whole. */
  lemma GroupedLast(input: string)
    requires input == "2 / (5 + 5)"
    ensures ProgramString(ParseInput(input).0) == "(2 / (5 + 5))" && ParseInput(input).1 == []
  {
    GroupedLastStreamHolds();
    GroupedLastLex(input, GroupedLastTokens(), GroupedLastPositions());
    GroupedLastParses(input, GroupedLastTokens(), GroupedLastPositions());
    GroupedLastPrints();
    OneStatementPrints(Token(INT, "2"), GroupedLastTree().value);
  }
}
