/** The lexer of ch04/toy.cpp (`gettok`) as functions over an explicit lexer
    state, and the token stream it produces. */
module Lexer {
  import opened CType
  import opened Syntax

  /** The lexer's state: the input `getchar` has not yet delivered, and the
      pending character `LastChar` (already read, not yet part of a token). */
  datatype Cursor = Cursor(rest: seq<byte>, last: int)

  /** A reachable state: the pending character is a byte or EOF, and EOF is
      only ever read once the input is exhausted. */
  predicate Valid(c: Cursor) {
    IsCharCode(c.last) && (c.last == EOF ==> c.rest == [])
  }

  /** The characters still to be consumed, the pending one included. */
  function Size(c: Cursor): nat {
    |c.rest| + (if c.last == EOF then 0 else 1)
  }

  /** `LastChar = getchar()`: the pending character becomes the next byte, or EOF. */
  function Read(rest: seq<byte>): (c: Cursor)
    ensures Valid(c) && Size(c) == |rest|
  {
    if rest == [] then Cursor([], EOF) else Cursor(rest[1..], rest[0] as int)
  }

  /** The state before the first call: `static int LastChar = ' '`. */
  function Start(input: seq<byte>): (c: Cursor)
    ensures Valid(c)
  {
    Cursor(input, ' ' as int)
  }

  /** `while (isspace(LastChar)) LastChar = getchar();` */
  function SkipSpace(c: Cursor): (d: Cursor)
    requires Valid(c)
    ensures Valid(d) && !IsSpace(d.last) && Size(d) <= Size(c)
    decreases Size(c)
  {
    if IsSpace(c.last) then SkipSpace(Read(c.rest)) else c
  }

  /** The identifier loop: append `LastChar` to the buffer while it is alphanumeric. */
  function ScanIdentifier(c: Cursor, acc: string): (r: (string, Cursor))
    requires Valid(c)
    ensures Valid(r.1) && !IsAlnum(r.1.last) && Size(r.1) <= Size(c)
    decreases Size(c)
  {
    if IsAlnum(c.last) then ScanIdentifier(Read(c.rest), acc + [c.last as char]) else (acc, c)
  }

  /** The number loop: append `LastChar` while it is a digit or `.`. */
  function ScanNumber(c: Cursor, acc: string): (r: (string, Cursor))
    requires Valid(c)
    ensures Valid(r.1) && !IsNumeric(r.1.last) && Size(r.1) <= Size(c)
    decreases Size(c)
  {
    if IsNumeric(c.last) then ScanNumber(Read(c.rest), acc + [c.last as char]) else (acc, c)
  }

  /** The comment loop: read characters until a line terminator or EOF, which
      becomes the pending character. */
  function SkipComment(rest: seq<byte>): (d: Cursor)
    ensures Valid(d) && (d.last == EOF || IsLineEnd(d.last)) && Size(d) <= |rest|
    decreases |rest|
  {
    var d := Read(rest);
    if d.last == EOF || IsLineEnd(d.last) then d else SkipComment(d.rest)
  }

  /** The reserved words: exactly `def` and `extern`. */
  function Keyword(text: string): (t: Token)
    ensures t == TokDef <==> text == "def"
    ensures t == TokExtern <==> text == "extern"
    ensures t.TokIdentifier? <==> text != "def" && text != "extern"
    ensures t.TokIdentifier? ==> t.name == text
  {
    if text == "def" then TokDef
    else if text == "extern" then TokExtern
    else TokIdentifier(text)
  }

  /** One token and the lexer state after it. */
  datatype Lexeme = Lexeme(tok: Token, next: Cursor)

  /** `gettok`: skip whitespace, then lex an identifier or keyword, a number,
      a comment (no token; lexing resumes) or a single character. */
  function GetTok(c: Cursor): (o: Lexeme)
    requires Valid(c)
    ensures Valid(o.next) && Size(o.next) <= Size(c)
    ensures o.tok != TokEof ==> Size(o.next) < Size(c)
    ensures o.tok == TokEof ==> o.next == Cursor([], EOF)
    ensures c.last == EOF ==> o == Lexeme(TokEof, c)
    decreases Size(c)
  {
    var d := SkipSpace(c);
    if IsAlpha(d.last) then
      var r := ScanIdentifier(Read(d.rest), [d.last as char]);
      Lexeme(Keyword(r.0), r.1)
    else if IsNumeric(d.last) then
      var r := ScanNumber(Read(d.rest), [d.last as char]);
      Lexeme(TokNumber(r.0), r.1)
    else if d.last == '#' as int then
      var e := SkipComment(d.rest);
      if e.last != EOF then GetTok(e) else Lexeme(TokEof, e)
    else if d.last == EOF then
      Lexeme(TokEof, d)
    else
      Lexeme(TokChar(d.last as byte), Read(d.rest))
  }

  /** The tokens successive calls return from a state, up to and including the
      first `tok_eof`. */
  function TokensFrom(c: Cursor): (ts: seq<Token>)
    requires Valid(c)
    ensures |ts| > 0 && ts[|ts| - 1] == TokEof
    ensures forall i :: 0 <= i < |ts| - 1 ==> ts[i] != TokEof
    decreases Size(c)
  {
    var o := GetTok(c);
    if o.tok == TokEof then [TokEof] else [o.tok] + TokensFrom(o.next)
  }

  /** The token stream of a whole input. */
  function Tokenize(input: seq<byte>): (ts: seq<Token>)
    ensures |ts| > 0 && ts[|ts| - 1] == TokEof
  {
    TokensFrom(Start(input))
  }
}
