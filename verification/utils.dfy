/**
 * Character helpers of src/utils.ts. The lexer works on character codes;
 * here a code is the integer value of a Dafny `char`.
 */
module Utils {
  import opened Wrappers

  /** A UTF-16 code unit reserved for surrogate pairs: no `char` has it as its value. */
  predicate IsSurrogate(code: int) {
    0xD800 <= code < 0xE000
  }

  /** `numToString` (`String.fromCharCode`): the one-character string of the code modulo 65536. */
  function NumToString(num: int): (s: string)
    requires !IsSurrogate(num % 65536)
    ensures |s| == 1 && s[0] as int == num % 65536
  {
    [(num % 65536) as char]
  }

  /** The code of a character. */
  function CharCode(c: char): int {
    c as int
  }

  /** `stringToNum` (`charCodeAt(0)`): the code of the first character; `None` stands for NaN on the empty string. */
  function StringToNum(s: string): (r: Option<int>)
    ensures r.None? <==> s == []
    ensures r.Some? ==> r.value == s[0] as int
  {
    if s == [] then None else Some(CharCode(s[0]))
  }

  /** `isLetter`: 'a'..'z', 'A'..'Z' or '_'. */
  predicate IsLetter(ch: int) {
    ('a' as int <= ch <= 'z' as int) || ('A' as int <= ch <= 'Z' as int) || ch == '_' as int
  }

  /** `isDigit`: '0'..'9'. */
  predicate IsDigit(ch: int) {
    '0' as int <= ch <= '9' as int
  }

  /** `notDoubleQuote`: anything but '"' and the code 0. */
  predicate NotDoubleQuote(ch: int) {
    ch != '"' as int && ch != 0
  }

  /** Reading back the character `numToString` produced gives the code again, for every code unit that is a character. */
  lemma CodeRoundTrip(code: int)
    requires 0 <= code < 65536 && !IsSurrogate(code)
    ensures StringToNum(NumToString(code)) == Some(code)
  {
  }

  /** And the other way round: a one-character string survives `stringToNum` then `numToString`. */
  lemma CharRoundTrip(c: char)
    requires c as int < 65536
    ensures NumToString(StringToNum([c]).value) == [c]
  {
  }

  /** No code is both a letter and a digit, and neither is the quote or 0. */
  lemma LetterDigitDisjoint(ch: int)
    ensures !(IsLetter(ch) && IsDigit(ch))
    ensures (IsLetter(ch) || IsDigit(ch)) ==> NotDoubleQuote(ch)
  {
  }

  /** `notDoubleQuote` fails exactly for '"' and 0. */
  lemma NotDoubleQuoteExactly(c: char)
    ensures !NotDoubleQuote(CharCode(c)) <==> c == '"' || c == 0 as char
  {
  }

  /** The cases the utilities' unit tests list. */
  lemma UtilsExamples()
    ensures IsLetter('m' as int) && IsLetter('M' as int) && IsLetter('_' as int)
    ensures !IsLetter('!' as int) && !IsLetter('?' as int) && !IsLetter('0' as int) && !IsLetter('{' as int)
    ensures IsDigit('5' as int) && !IsDigit('a' as int) && !IsDigit('_' as int) && !IsDigit('/' as int)
  {
  }
}
