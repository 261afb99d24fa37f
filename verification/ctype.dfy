/** The character model shared by both lexers: the bytes `getchar` delivers,
    its end-of-input value, and the `<cctype>` classifications in the "C" locale. */
module CType {

  /** One byte of input, as `getchar` returns it (an `unsigned char` widened to `int`). */
  newtype byte = b: int | 0 <= b < 256

  /** The value `getchar` returns once the input is exhausted. */
  const EOF: int := -1

  /** What the lexer's pending character can hold: a byte or EOF. */
  predicate IsCharCode(c: int) {
    c == EOF || 0 <= c < 256
  }

  /** `isspace`: space, tab, newline, vertical tab, form feed, carriage return. */
  predicate IsSpace(c: int) {
    c == ' ' as int || 9 <= c <= 13
  }

  /** `isalpha` */
  predicate IsAlpha(c: int) {
    'A' as int <= c <= 'Z' as int || 'a' as int <= c <= 'z' as int
  }

  /** `isdigit` */
  predicate IsDigit(c: int) {
    '0' as int <= c <= '9' as int
  }

  /** `isalnum` */
  predicate IsAlnum(c: int) {
    IsAlpha(c) || IsDigit(c)
  }

  /** The characters a number literal is made of. */
  predicate IsNumeric(c: int) {
    IsDigit(c) || c == '.' as int
  }

  /** `isascii` */
  predicate IsAscii(c: int) {
    0 <= c < 128
  }

  /** A line terminator, which ends a `#` comment. */
  predicate IsLineEnd(c: int) {
    c == '\n' as int || c == '\r' as int
  }

  /** A string whose characters are all single bytes. */
  predicate IsByteString(s: string) {
    forall i :: 0 <= i < |s| ==> s[i] as int < 256
  }

  /** The bytes that spell a byte string. */
  function Bytes(s: string): (b: seq<byte>)
    requires IsByteString(s)
    ensures |b| == |s|
    ensures forall i :: 0 <= i < |s| ==> b[i] as int == s[i] as int
  {
    if s == [] then [] else [s[0] as int as byte] + Bytes(s[1..])
  }

  /** The text a byte sequence spells, one character per byte. */
  function Chars(b: seq<byte>): (s: string)
    ensures |s| == |b|
    ensures forall i :: 0 <= i < |b| ==> s[i] as int == b[i] as int
  {
    if b == [] then [] else [b[0] as int as char] + Chars(b[1..])
  }
}
