/**
 * The lexer of src/lexer.ts. `NextTokenSpec` says, for an input and a
 * cursor, which token comes next and where the cursor ends up; the class
 * `Lexer` is the cursor machine of the source, proved to follow it.
 */
module Lexing {
  import opened Wrappers
  import opened Tokens
  import Utils

  /** The code `peekChar`/`readChar` see at position p: the character's code, or 0 past the end. */
  function CodeAt(input: string, p: nat): (c: int)
    ensures p >= |input| ==> c == 0
  {
    if p < |input| then Utils.CharCode(input[p]) else 0
  }

  /** The characters `skipWhitepsace` skips. */
  predicate IsWhitespace(ch: int) {
    ch == ' ' as int || ch == '\t' as int || ch == '\n' as int || ch == '\r' as int
  }

  /** The first position from p on that does not hold whitespace. */
  function SkipWs(input: string, p: nat): (q: nat)
    ensures p <= q && !IsWhitespace(CodeAt(input, q))
    ensures forall k :: p <= k < q ==> IsWhitespace(CodeAt(input, k))
    ensures p >= |input| ==> q == p
    ensures q <= |input| || q == p
    decreases |input| - p
  {
    if IsWhitespace(CodeAt(input, p)) then SkipWs(input, p + 1) else p
  }

  /** The three filters `readWhile` is called with. */
  datatype Filter = Letter | Digit | NotQuote

  predicate Holds(f: Filter, ch: int) {
    match f
    case Letter => Utils.IsLetter(ch)
    case Digit => Utils.IsDigit(ch)
    case NotQuote => Utils.NotDoubleQuote(ch)
  }

  /** The first position from q on whose code fails the filter; no filter holds of 0, so it is at most the input's length when q is. */
  function ScanFrom(input: string, q: nat, f: Filter): (e: nat)
    ensures q <= e && !Holds(f, CodeAt(input, e))
    ensures forall k :: q <= k < e ==> Holds(f, CodeAt(input, k))
    ensures q <= |input| ==> e <= |input|
    ensures q > |input| ==> e == q
    decreases |input| - q
  {
    if Holds(f, CodeAt(input, q)) then ScanFrom(input, q + 1, f) else q
  }

  /** `input.slice(a, b)`: out-of-range bounds are clamped to the length. */
  function Slice(input: string, a: nat, b: nat): (s: string)
    ensures a <= b <= |input| ==> s == input[a..b]
  {
    var hi := if b <= |input| then b else |input|;
    var lo := if a <= hi then a else hi;
    input[lo..hi]
  }

  /** The types of the characters that are tokens on their own. */
  function SingleCharType(ch: int): (t: Option<TokenType>)
    ensures t.Some? ==> IsSymbol(t.value) && |TypeName(t.value)| == 1 && TypeName(t.value)[0] as int == ch
  {
    if ch == '+' as int then Some(PLUS)
    else if ch == '-' as int then Some(MINUS)
    else if ch == '/' as int then Some(SLASH)
    else if ch == '*' as int then Some(ASTERISK)
    else if ch == '<' as int then Some(LT)
    else if ch == '>' as int then Some(GT)
    else if ch == ';' as int then Some(SEMICOLON)
    else if ch == ',' as int then Some(COMMA)
    else if ch == '(' as int then Some(LPAREN)
    else if ch == ')' as int then Some(RPAREN)
    else if ch == '{' as int then Some(LBRACE)
    else if ch == '}' as int then Some(RBRACE)
    else if ch == '[' as int then Some(LBRACKET)
    else if ch == ']' as int then Some(RBRACKET)
    else if ch == ':' as int then Some(COLON)
    else None
  }

  /**
   * `nextToken` from a lexer whose `position` is `pos`: the token and the
   * new `position`. Whitespace is skipped first; '=' and '!' look one
   * character ahead; a letter or digit starts a maximal run; '"' reads up
   * to the next quote or the end; code 0 is EOF; anything else is ILLEGAL.
   */
  function NextTokenSpec(input: string, pos: nat): (r: (Token, nat))
    ensures r.1 > pos
    ensures r.1 <= (if pos <= |input| then |input| else pos) + 1
  {
    TokenAt(input, SkipWs(input, pos))
  }

  /** The token that starts at `p`, where no whitespace is, and the position after it. */
  function TokenAt(input: string, p: nat): (r: (Token, nat))
    ensures r.1 > p
    ensures r.1 <= (if p <= |input| then |input| else p) + 1
  {
    var ch := CodeAt(input, p);
    if ch == '=' as int then
      if CodeAt(input, p + 1) == '=' as int then (Token(EQ, "=="), p + 2) else (Token(ASSIGN, "="), p + 1)
    else if ch == '!' as int then
      if CodeAt(input, p + 1) == '=' as int then (Token(NOT_EQ, "!="), p + 2) else (Token(BANG, "!"), p + 1)
    else if SingleCharType(ch).Some? then (Token(SingleCharType(ch).value, [input[p]]), p + 1)
    else if ch == '"' as int then
      var e := ScanFrom(input, p + 1, NotQuote);
      (Token(STRING, input[p + 1..e]), e + 1)
    else if ch == 0 then (Token(EOF, ""), p + 1)
    else if Utils.IsLetter(ch) then
      var e := ScanFrom(input, p + 1, Letter);
      (Token(LookupIdent(input[p..e]), input[p..e]), e)
    else if Utils.IsDigit(ch) then
      var e := ScanFrom(input, p + 1, Digit);
      (Token(INT, input[p..e]), e)
    else (Token(ILLEGAL, [input[p]]), p + 1)
  }

  /** The first n tokens read from position pos, and the position after them. */
  function Tokenize(input: string, pos: nat, n: nat): (r: (seq<Token>, nat))
    ensures |r.0| == n && r.1 >= pos + n
    decreases n
  {
    if n == 0 then ([], pos)
    else
      var (tok, next) := NextTokenSpec(input, pos);
      var (rest, last) := Tokenize(input, next, n - 1);
      ([tok] + rest, last)
  }

  /** Whitespace before a token changes neither the token nor where reading stops. */
  lemma LeadingWhitespace(input: string, pos: nat)
    ensures NextTokenSpec(input, pos) == NextTokenSpec(input, SkipWs(input, pos))
  {
    var p := SkipWs(input, pos);
    assert SkipWs(input, p) == p;
  }

  /** At or past the end of the input the next token is EOF with an empty literal, and the cursor moves one step. */
  lemma EofAtEnd(input: string, pos: nat)
    requires pos >= |input|
    ensures NextTokenSpec(input, pos) == (Token(EOF, ""), pos + 1)
  {
  }

  /** A token other than EOF ends at most one character past the input. */
  lemma TokenWithinInput(input: string, pos: nat)
    ensures NextTokenSpec(input, pos).0.tokenType != EOF ==> NextTokenSpec(input, pos).1 <= |input| + 1
  {
  }

  /** Once the end is reached, every later call gives EOF again. */
  lemma {:induction false} EofAbsorbing(input: string, pos: nat, n: nat)
    requires pos >= |input|
    ensures var r := Tokenize(input, pos, n);
      r.1 == pos + n && forall k :: 0 <= k < n ==> r.0[k] == Token(EOF, "")
    decreases n
  {
    if n > 0 {
      EofAtEnd(input, pos);
      EofAbsorbing(input, pos + 1, n - 1);
      var rest := Tokenize(input, pos + 1, n - 1);
      assert Tokenize(input, pos, n) == ([Token(EOF, "")] + rest.0, rest.1);
    }
  }

  /** EOF comes exactly where only whitespace is left before the end, or before a character of code 0. */
  lemma EofExactly(input: string, pos: nat)
    ensures var p := SkipWs(input, pos);
      NextTokenSpec(input, pos).0.tokenType == EOF <==> p >= |input| || input[p] == 0 as char
  {
    var p := SkipWs(input, pos);
    TokenAtEof(input, p);
    assert CodeAt(input, p) == 0 <==> p >= |input| || input[p] == 0 as char;
  }

  /** The token at `p` is EOF exactly when the code there is 0. */
  lemma TokenAtEof(input: string, p: nat)
    ensures TokenAt(input, p).0.tokenType == EOF <==> CodeAt(input, p) == 0
  {
    var ch := CodeAt(input, p);
    if ch != 0 && SingleCharType(ch).Some? {
      assert SingleCharType(ch).value != EOF;
    }
  }

  /** '==' and '!=' are read as one token; a lone '=' or '!' is ASSIGN or BANG. */
  lemma TwoCharOperators(input: string, pos: nat)
    requires var p := SkipWs(input, pos); p < |input| && input[p] in "=!"
    ensures var p := SkipWs(input, pos);
      var r := NextTokenSpec(input, pos);
      if p + 1 < |input| && input[p + 1] == '=' then
        r == (Token(if input[p] == '=' then EQ else NOT_EQ, [input[p], '=']), p + 2)
      else
        r == (Token(if input[p] == '=' then ASSIGN else BANG, [input[p]]), p + 1)
  {
  }

  /** A word token is a maximal run of letters, and its type is what `lookupIdent` gives for it. */
  lemma WordIsMaximalRun(input: string, pos: nat)
    requires var p := SkipWs(input, pos); p < |input| && Utils.IsLetter(input[p] as int)
    ensures var (tok, next) := NextTokenSpec(input, pos);
      var p := SkipWs(input, pos);
      p < next <= |input| && tok.literal == input[p..next]
      && (forall k :: p <= k < next ==> Utils.IsLetter(input[k] as int))
      && (next < |input| ==> !Utils.IsLetter(input[next] as int))
      && tok.tokenType == LookupIdent(tok.literal)
  {
    var p := SkipWs(input, pos);
    Utils.LetterDigitDisjoint(input[p] as int);
    var e := ScanFrom(input, p + 1, Letter);
    forall k | p <= k < e
      ensures Utils.IsLetter(input[k] as int)
    {
      if k > p {
        assert Holds(Letter, CodeAt(input, k));
      }
    }
  }

  /** A number token is a maximal run of digits. */
  lemma NumberIsMaximalRun(input: string, pos: nat)
    requires var p := SkipWs(input, pos); p < |input| && Utils.IsDigit(input[p] as int)
    ensures var (tok, next) := NextTokenSpec(input, pos);
      var p := SkipWs(input, pos);
      p < next <= |input| && tok == Token(INT, input[p..next])
      && (forall k :: p <= k < next ==> Utils.IsDigit(input[k] as int))
      && (next < |input| ==> !Utils.IsDigit(input[next] as int))
  {
    var p := SkipWs(input, pos);
    Utils.LetterDigitDisjoint(input[p] as int);
    var e := ScanFrom(input, p + 1, Digit);
    forall k | p <= k < e
      ensures Utils.IsDigit(input[k] as int)
    {
      if k > p {
        assert Holds(Digit, CodeAt(input, k));
      }
    }
  }

  /**
   * A string token holds the text after the opening quote up to the next
   * quote, code 0 or the end, none of which it contains; the closing
   * character is consumed.
   */
  lemma StringToken(input: string, pos: nat)
    requires var p := SkipWs(input, pos); p < |input| && input[p] == '"'
    ensures var (tok, next) := NextTokenSpec(input, pos);
      var p := SkipWs(input, pos);
      var e := next - 1;
      p < e <= |input| && tok == Token(STRING, input[p + 1..e])
      && (forall k :: p < k < e ==> input[k] != '"' && input[k] != 0 as char)
      && (e == |input| || input[e] == '"' || input[e] == 0 as char)
  {
    var p := SkipWs(input, pos);
    var e := ScanFrom(input, p + 1, NotQuote);
    forall k | p < k < e
      ensures input[k] != '"' && input[k] != 0 as char
    {
      assert Holds(NotQuote, CodeAt(input, k));
    }
  }

  /** A delimiter or one-character operator is a token whose literal is its type's name; anything unrecognised is ILLEGAL with that character. */
  lemma SingleCharacterTokens(input: string, pos: nat)
    requires var p := SkipWs(input, pos); p < |input| && input[p] != 0 as char
    requires var p := SkipWs(input, pos); !(input[p] in "=!\"") && !Utils.IsLetter(input[p] as int) && !Utils.IsDigit(input[p] as int)
    ensures var (tok, next) := NextTokenSpec(input, pos);
      var p := SkipWs(input, pos);
      next == p + 1 && tok.literal == [input[p]]
      && (tok.tokenType == ILLEGAL || (IsSymbol(tok.tokenType) && tok.literal == TypeName(tok.tokenType)))
  {
    var p := SkipWs(input, pos);
    var t := SingleCharType(input[p] as int);
    if t.Some? {
      assert TypeName(t.value) == [input[p]];
    }
  }

  /** The lexer test's simple input, `=+(){},;`, character by character. */
  predicate SimpleText(input: string) {
    |input| == 8 && input[0] == '=' && input[1] == '+' && input[2] == '(' && input[3] == ')'
    && input[4] == '{' && input[5] == '}' && input[6] == ',' && input[7] == ';'
  }

  /** The lexer test's simple input. */
  lemma SimpleInput(input: string)
    requires SimpleText(input)
    ensures Tokenize(input, 0, 9).0 == [
      Token(ASSIGN, "="), Token(PLUS, "+"), Token(LPAREN, "("), Token(RPAREN, ")"),
      Token(LBRACE, "{"), Token(RBRACE, "}"), Token(COMMA, ","), Token(SEMICOLON, ";"),
      Token(EOF, "")]
  {
    SimpleInputMiddle(input);
    SingleChar(input, 1, PLUS);
    TokenizeStep(input, 1, 2, 7);
    assert SkipWs(input, 0) == 0;
    TwoCharOperators(input, 0);
    TokenizeStep(input, 0, 1, 8);
  }

  /** The simple input from its third character on. */
  lemma SimpleInputMiddle(input: string)
    requires SimpleText(input)
    ensures Tokenize(input, 2, 7).0 == [
      Token(LPAREN, "("), Token(RPAREN, ")"), Token(LBRACE, "{"), Token(RBRACE, "}"),
      Token(COMMA, ","), Token(SEMICOLON, ";"), Token(EOF, "")]
  {
    SimpleInputTail(input);
    SingleChar(input, 3, RPAREN);
    TokenizeStep(input, 3, 4, 5);
    SingleChar(input, 2, LPAREN);
    TokenizeStep(input, 2, 3, 6);
  }

  /** The simple input from its fifth character on. */
  lemma SimpleInputTail(input: string)
    requires SimpleText(input)
    ensures Tokenize(input, 4, 5).0 == [Token(LBRACE, "{"), Token(RBRACE, "}"), Token(COMMA, ","), Token(SEMICOLON, ";"), Token(EOF, "")]
  {
    SimpleInputEnd(input);
    SingleChar(input, 5, RBRACE);
    TokenizeStep(input, 5, 6, 3);
    SingleChar(input, 4, LBRACE);
    TokenizeStep(input, 4, 5, 4);
  }

  /** The simple input from its seventh character on. */
  lemma SimpleInputEnd(input: string)
    requires SimpleText(input)
    ensures Tokenize(input, 6, 3).0 == [Token(COMMA, ","), Token(SEMICOLON, ";"), Token(EOF, "")]
  {
    EofAtEnd(input, 8);
    TokenizeOne(input, 8, Token(EOF, ""), 9);
    SingleChar(input, 7, SEMICOLON);
    TokenizeStep(input, 7, 8, 1);
    SingleChar(input, 6, COMMA);
    TokenizeStep(input, 6, 7, 2);
  }

  /** A character with a token type of its own, where no whitespace is, is read as that one-character token. */
  lemma SingleChar(input: string, p: nat, t: TokenType)
    requires p < |input| && SingleCharType(CodeAt(input, p)) == Some(t)
    ensures NextTokenSpec(input, p) == (Token(t, [input[p]]), p + 1)
  {
    assert !IsWhitespace(CodeAt(input, p));
    assert SkipWs(input, p) == p;
  }

  /** Tokenizing one token. */
  lemma TokenizeOne(input: string, pos: nat, tok: Token, next: nat)
    requires NextTokenSpec(input, pos) == (tok, next)
    ensures Tokenize(input, pos, 1).0 == [tok]
  {
    assert Tokenize(input, next, 0).0 == [];
  }

  /** Tokenizing n + 1 tokens: the first token, then n more from where it ends. */
  lemma TokenizeStep(input: string, pos: nat, next: nat, n: nat)
    requires NextTokenSpec(input, pos).1 == next
    ensures Tokenize(input, pos, n + 1).0 == [NextTokenSpec(input, pos).0] + Tokenize(input, next, n).0
  {
  }

  /** A space before a token is skipped: reading from it gives the token read from the next position. */
  lemma SkipOneSpace(input: string, p: nat)
    requires p + 1 < |input| && input[p] == ' ' && !IsWhitespace(CodeAt(input, p + 1))
    ensures NextTokenSpec(input, p) == NextTokenSpec(input, p + 1)
  {
    LeadingWhitespace(input, p);
    LeadingWhitespace(input, p + 1);
    assert SkipWs(input, p + 1) == p + 1;
    assert SkipWs(input, p) == p + 1;
  }

  /** A word w of letters at p, with no letter after it, is read whole and typed by `lookupIdent`. */
  lemma WordAt(input: string, p: nat, w: string)
    requires w != [] && p + |w| <= |input| && input[p..p + |w|] == w
    requires forall k :: 0 <= k < |w| ==> Utils.IsLetter(w[k] as int)
    requires p + |w| < |input| ==> !Utils.IsLetter(input[p + |w|] as int)
    ensures NextTokenSpec(input, p) == (Token(LookupIdent(w), w), p + |w|)
  {
    assert input[p] == w[0];
    assert SkipWs(input, p) == p;
    WordIsMaximalRun(input, p);
  }

  /** A run d of digits at p, with no digit after it, is read whole as an INT token. */
  lemma NumberAt(input: string, p: nat, d: string)
    requires d != [] && p + |d| <= |input| && input[p..p + |d|] == d
    requires forall k :: 0 <= k < |d| ==> Utils.IsDigit(d[k] as int)
    requires p + |d| < |input| ==> !Utils.IsDigit(input[p + |d|] as int)
    ensures NextTokenSpec(input, p) == (Token(INT, d), p + |d|)
  {
    assert input[p] == d[0];
    assert SkipWs(input, p) == p;
    NumberIsMaximalRun(input, p);
  }

  /** A lower-case letter standing alone is an identifier of that one letter. */
  lemma LetterAt(input: string, p: nat)
    requires p < |input| && 'a' <= input[p] <= 'z'
    requires p + 1 < |input| ==> !Utils.IsLetter(input[p + 1] as int)
    ensures NextTokenSpec(input, p) == (Token(IDENT, [input[p]]), p + 1)
  {
    assert input[p..p + 1] == [input[p]];
    assert [input[p]] !in Keywords;
    WordAt(input, p, [input[p]]);
  }

  /** A digit standing alone is an INT token of that one digit. */
  lemma DigitAt(input: string, p: nat)
    requires p < |input| && Utils.IsDigit(input[p] as int)
    requires p + 1 < |input| ==> !Utils.IsDigit(input[p + 1] as int)
    ensures NextTokenSpec(input, p) == (Token(INT, [input[p]]), p + 1)
  {
    assert input[p..p + 1] == [input[p]];
    NumberAt(input, p, [input[p]]);
  }

  class Lexer {
    const input: string
    var position: nat
    var readPosition: nat
    var ch: int

    /** After every `readChar`: the read position is one ahead and `ch` is the code at `position`. */
    ghost predicate Valid()
      reads this
    {
      readPosition == position + 1 && ch == CodeAt(input, position)
    }

    /** The constructor reads the first character. */
    constructor(input: string)
      ensures this.input == input && position == 0 && Valid()
    {
      this.input := input;
      position := 0;
      readPosition := 0;
      ch := 0;
      new;
      ReadChar();
    }

    /** `peekChar`: the character at the read position, or the string of code 0 at and past the end. */
    function PeekChar(): (s: string)
      reads this
      ensures |s| == 1 && s[0] as int == CodeAt(input, readPosition)
    {
      if readPosition >= |input| then Utils.NumToString(0) else [input[readPosition]]
    }

    /** `readChar`: moves to the read position and loads its code. */
    method ReadChar()
      modifies this
      ensures position == old(readPosition) && readPosition == old(readPosition) + 1
      ensures ch == CodeAt(input, position)
    {
      ch := Utils.StringToNum(PeekChar()).value;
      position := readPosition;
      readPosition := readPosition + 1;
    }

    /** `skipWhitepsace`: reads characters while `ch` is whitespace. */
    method SkipWhitespace()
      requires Valid()
      modifies this
      ensures Valid() && position == SkipWs(input, old(position))
    {
      while IsWhitespace(ch)
        invariant Valid() && SkipWs(input, position) == SkipWs(input, old(position))
        decreases |input| - position
      {
        ReadChar();
      }
    }

    /** `readWhile`: reads at least once, then while the filter holds, and returns the text from the start up to the new position. */
    method ReadWhile(f: Filter) returns (s: string)
      requires Valid()
      modifies this
      ensures Valid() && position == ScanFrom(input, old(position) + 1, f)
      ensures s == Slice(input, old(position), position)
    {
      var startingPosition := position;
      ReadChar();
      while Holds(f, ch)
        invariant Valid() && startingPosition < position
        invariant ScanFrom(input, position, f) == ScanFrom(input, startingPosition + 1, f)
        decreases |input| - position
      {
        ReadChar();
      }
      s := Slice(input, startingPosition, position);
    }

    /** `maybeReadSecondChar`: the two-character token when the next character is `second`, else the one-character one. */
    method MaybeReadSecondChar(yes: TokenType, no: TokenType, second: char) returns (tok: Token)
      requires Valid() && 0 < ch < 0xD800 && second as int < 0xD800
      modifies this
      ensures Valid()
      ensures CodeAt(input, old(position) + 1) == second as int ==>
        position == old(position) + 1 && tok == Token(yes, [input[old(position)], second])
      ensures CodeAt(input, old(position) + 1) != second as int ==>
        position == old(position) && tok == Token(no, [input[old(position)]])
    {
      if PeekChar() == [second] {
        var c := ch;
        ReadChar();
        assert ch == second as int;
        tok := Token(yes, Utils.NumToString(c) + Utils.NumToString(ch));
        assert Utils.NumToString(c) == [input[old(position)]];
      } else {
        tok := Token(no, Utils.NumToString(ch));
      }
    }

    /** `nextToken`. */
    method NextToken() returns (tok: Token)
      requires Valid()
      modifies this
      ensures Valid() && (tok, position) == NextTokenSpec(input, old(position))
    {
      SkipWhitespace();
      tok := ReadToken();
    }

    /** The body of `nextToken` after the whitespace: the token at the current position. */
    method ReadToken() returns (tok: Token)
      requires Valid() && !IsWhitespace(ch)
      modifies this
      ensures Valid() && (tok, position) == TokenAt(input, old(position))
    {
      if ch == '=' as int {
        tok := MaybeReadSecondChar(EQ, ASSIGN, '=');
      } else if ch == '!' as int {
        tok := MaybeReadSecondChar(NOT_EQ, BANG, '=');
      } else if SingleCharType(ch).Some? {
        tok := Token(SingleCharType(ch).value, Utils.NumToString(ch));
      } else if ch == '"' as int {
        var s := ReadWhile(NotQuote);
        tok := Token(STRING, s[1..]);
      } else if ch == 0 {
        tok := Token(EOF, "");
      } else if Utils.IsLetter(ch) {
        var literal := ReadWhile(Letter);
        return Token(LookupIdent(literal), literal);
      } else if Utils.IsDigit(ch) {
        var literal := ReadWhile(Digit);
        return Token(INT, literal);
      } else {
        tok := Token(ILLEGAL, [input[position]]);
      }
      ReadChar();
    }
  }
}
