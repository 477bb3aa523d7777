/** Tokens of src/token.ts: the token types, the `Token` record and the keyword table. */
module Tokens {

  datatype TokenType =
    | ILLEGAL | EOF | IDENT | INT
    | ASSIGN | PLUS | MINUS | BANG | ASTERISK | SLASH
    | LT | GT | EQ | NOT_EQ
    | COMMA | SEMICOLON | LPAREN | RPAREN | LBRACE | RBRACE
    | FUNCTION | LET | TRUE | FALSE | IF | ELSE | RETURN
    | STRING | LBRACKET | RBRACKET | COLON

  /** `Token`: a type and the literal text it was read from. */
  datatype Token = Token(tokenType: TokenType, literal: string)

  /** The string value of each member of the `TOKENS` enum; operators and delimiters are their own symbols. */
  function TypeName(t: TokenType): string {
    match t
    case ILLEGAL => "ILLEGAL"
    case EOF => "EOF"
    case IDENT => "IDENT"
    case INT => "INT"
    case ASSIGN => "="
    case PLUS => "+"
    case MINUS => "-"
    case BANG => "!"
    case ASTERISK => "*"
    case SLASH => "/"
    case LT => "<"
    case GT => ">"
    case EQ => "=="
    case NOT_EQ => "!="
    case COMMA => ","
    case SEMICOLON => ";"
    case LPAREN => "("
    case RPAREN => ")"
    case LBRACE => "{"
    case RBRACE => "}"
    case FUNCTION => "FUNCTION"
    case LET => "LET"
    case TRUE => "TRUE"
    case FALSE => "FALSE"
    case IF => "IF"
    case ELSE => "ELSE"
    case RETURN => "RETURN"
    case STRING => "STRING"
    case LBRACKET => "["
    case RBRACKET => "]"
    case COLON => ":"
  }

  /** `keywords`. */
  const Keywords: map<string, TokenType> := map[
    "fn" := FUNCTION, "let" := LET, "true" := TRUE, "false" := FALSE,
    "if" := IF, "else" := ELSE, "return" := RETURN]

  predicate IsKeyword(t: TokenType) {
    t in {FUNCTION, LET, TRUE, FALSE, IF, ELSE, RETURN}
  }

  /** The spelling of each keyword token in Monkey source. */
  function Spelling(t: TokenType): (r: string)
    requires IsKeyword(t)
    ensures r in Keywords && Keywords[r] == t
  {
    match t
    case FUNCTION => "fn"
    case LET => "let"
    case TRUE => "true"
    case FALSE => "false"
    case IF => "if"
    case ELSE => "else"
    case RETURN => "return"
  }

  /** `lookupIdent`: a keyword's own type, IDENT for every other word. */
  function LookupIdent(ident: string): (t: TokenType)
    ensures t == IDENT || IsKeyword(t)
  {
    if ident in Keywords then Keywords[ident] else IDENT
  }

  /** Every keyword token is what its spelling looks up to. */
  lemma LookupSpelling(t: TokenType)
    requires IsKeyword(t)
    ensures LookupIdent(Spelling(t)) == t
  {
  }

  /** A word looks up to a keyword token exactly when it is that keyword's spelling; every other word is IDENT. */
  lemma LookupIdentExactly(ident: string)
    ensures LookupIdent(ident) != IDENT ==> Spelling(LookupIdent(ident)) == ident
    ensures LookupIdent(ident) == IDENT <==> ident !in Keywords
  {
  }

  /** The operator and delimiter token types. */
  predicate IsSymbol(t: TokenType) {
    t in {ASSIGN, PLUS, MINUS, BANG, ASTERISK, SLASH, LT, GT, EQ, NOT_EQ,
          COMMA, SEMICOLON, LPAREN, RPAREN, LBRACE, RBRACE, LBRACKET, RBRACKET, COLON}
  }

  /** Operator and delimiter types are their symbols, one or two characters long. */
  lemma SymbolNames()
    ensures TypeName(EQ) == "==" && TypeName(NOT_EQ) == "!=" && TypeName(LT) == "<"
    ensures forall t: TokenType :: IsSymbol(t) ==> 1 <= |TypeName(t)| <= 2
  {
  }
}
