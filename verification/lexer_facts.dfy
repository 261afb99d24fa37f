/** What `gettok` of ch04/toy.cpp promises about the tokens it returns:
    whitespace is skipped, identifiers and numbers are the longest runs of
    their characters, comments run to the end of the line, any other character
    is a token of its own, and a stream of tokens spelled out with spaces
    between them lexes back to itself. */
module LexerFacts {
  import opened CType
  import opened Syntax
  import opened Lexer

  /** Whitespace only. */
  predicate AllSpace(ws: seq<byte>) {
    forall i :: 0 <= i < |ws| ==> IsSpace(ws[i] as int)
  }

  /** Letters and digits only. */
  predicate AllAlnum(w: seq<byte>) {
    forall i :: 0 <= i < |w| ==> IsAlnum(w[i] as int)
  }

  /** Digits and `.` only. */
  predicate AllNumeric(w: seq<byte>) {
    forall i :: 0 <= i < |w| ==> IsNumeric(w[i] as int)
  }

  /** No line terminator. */
  predicate NoLineEnd(w: seq<byte>) {
    forall i :: 0 <= i < |w| ==> !IsLineEnd(w[i] as int)
  }

  /** The whitespace loop reads past a run of whitespace. */
  lemma {:induction false} SkipSpaceRun(ws: seq<byte>, s: seq<byte>, p: int)
    requires AllSpace(ws) && IsSpace(p)
    ensures SkipSpace(Cursor(ws + s, p)) == SkipSpace(Read(s))
    decreases |ws|
  {
    if ws == [] {
      assert ws + s == s;
    } else {
      assert Read(ws + s) == Cursor(ws[1..] + s, ws[0] as int);
      SkipSpaceRun(ws[1..], s, ws[0] as int);
    }
  }

  /** The identifier loop takes a whole run of letters and digits and stops at
      the first other character. */
  lemma {:induction false} ScanIdentifierRun(w: seq<byte>, s: seq<byte>, acc: string)
    requires AllAlnum(w) && (s == [] || !IsAlnum(s[0] as int))
    ensures ScanIdentifier(Read(w + s), acc) == (acc + Chars(w), Read(s))
    decreases |w|
  {
    if w == [] {
      assert w + s == s && acc + Chars(w) == acc;
    } else {
      assert Read(w + s) == Cursor(w[1..] + s, w[0] as int);
      ScanIdentifierRun(w[1..], s, acc + [w[0] as int as char]);
      assert Chars(w) == [w[0] as int as char] + Chars(w[1..]);
      assert acc + [w[0] as int as char] + Chars(w[1..]) == acc + Chars(w);
    }
  }

  /** The number loop takes a whole run of digits and `.` and stops at the
      first other character. */
  lemma {:induction false} ScanNumberRun(w: seq<byte>, s: seq<byte>, acc: string)
    requires AllNumeric(w) && (s == [] || !IsNumeric(s[0] as int))
    ensures ScanNumber(Read(w + s), acc) == (acc + Chars(w), Read(s))
    decreases |w|
  {
    if w == [] {
      assert w + s == s && acc + Chars(w) == acc;
    } else {
      assert Read(w + s) == Cursor(w[1..] + s, w[0] as int);
      ScanNumberRun(w[1..], s, acc + [w[0] as int as char]);
      assert Chars(w) == [w[0] as int as char] + Chars(w[1..]);
      assert acc + [w[0] as int as char] + Chars(w[1..]) == acc + Chars(w);
    }
  }

  /** The comment loop reads past the rest of the line and stops on the line
      terminator, or at the end of the input. */
  lemma {:induction false} SkipCommentRun(body: seq<byte>, s: seq<byte>)
    requires NoLineEnd(body) && (s == [] || IsLineEnd(s[0] as int))
    ensures SkipComment(body + s) == Read(s)
    decreases |body|
  {
    if body == [] {
      assert body + s == s;
    } else {
      assert Read(body + s) == Cursor(body[1..] + s, body[0] as int);
      SkipCommentRun(body[1..], s);
    }
  }

  /** After whitespace, a letter followed by letters and digits is one
      identifier (or keyword) token: the longest such run. */
  lemma IdentifierToken(ws: seq<byte>, a: byte, w: seq<byte>, s: seq<byte>, p: int)
    requires AllSpace(ws) && IsSpace(p) && IsAlpha(a as int) && AllAlnum(w)
    requires s == [] || !IsAlnum(s[0] as int)
    ensures GetTok(Cursor(ws + [a] + w + s, p)) == Lexeme(Keyword(Chars([a] + w)), Read(s))
  {
    assert ws + [a] + w + s == ws + ([a] + (w + s));
    SkipSpaceRun(ws, [a] + (w + s), p);
    assert Read([a] + (w + s)) == Cursor(w + s, a as int);
    ScanIdentifierRun(w, s, [a as int as char]);
    assert Chars([a] + w) == [a as int as char] + Chars(w);
  }

  /** After whitespace, a digit or `.` followed by digits and `.` is one number
      token holding the whole run. */
  lemma NumberToken(ws: seq<byte>, n: byte, w: seq<byte>, s: seq<byte>, p: int)
    requires AllSpace(ws) && IsSpace(p) && IsNumeric(n as int) && AllNumeric(w)
    requires s == [] || !IsNumeric(s[0] as int)
    ensures GetTok(Cursor(ws + [n] + w + s, p)) == Lexeme(TokNumber(Chars([n] + w)), Read(s))
  {
    assert ws + [n] + w + s == ws + ([n] + (w + s));
    SkipSpaceRun(ws, [n] + (w + s), p);
    assert Read([n] + (w + s)) == Cursor(w + s, n as int);
    ScanNumberRun(w, s, [n as int as char]);
    assert Chars([n] + w) == [n as int as char] + Chars(w);
  }

  /** After whitespace, any other character except `#` is returned as itself,
      and exactly that one character is consumed. */
  lemma CharToken(ws: seq<byte>, ch: byte, s: seq<byte>, p: int)
    requires AllSpace(ws) && IsSpace(p)
    requires !IsSpace(ch as int) && !IsAlpha(ch as int) && !IsNumeric(ch as int) && ch != '#' as int as byte
    ensures GetTok(Cursor(ws + [ch] + s, p)) == Lexeme(TokChar(ch), Read(s))
  {
    assert ws + [ch] + s == ws + ([ch] + s);
    SkipSpaceRun(ws, [ch] + s, p);
    assert Read([ch] + s) == Cursor(s, ch as int);
  }

  /** A comment produces no token: `gettok` goes on from the line terminator. */
  lemma CommentSkipped(ws: seq<byte>, body: seq<byte>, nl: byte, s: seq<byte>, p: int)
    requires AllSpace(ws) && IsSpace(p) && NoLineEnd(body) && IsLineEnd(nl as int)
    ensures GetTok(Cursor(ws + ['#' as int as byte] + body + [nl] + s, p)) == GetTok(Cursor(s, nl as int))
  {
    var hash := '#' as int as byte;
    assert ws + [hash] + body + [nl] + s == ws + ([hash] + (body + ([nl] + s)));
    SkipSpaceRun(ws, [hash] + (body + ([nl] + s)), p);
    assert Read([hash] + (body + ([nl] + s))) == Cursor(body + ([nl] + s), hash as int);
    SkipCommentRun(body, [nl] + s);
    assert Read([nl] + s) == Cursor(s, nl as int);
  }

  /** A comment that runs to the end of the input ends the token stream. */
  lemma CommentAtEnd(ws: seq<byte>, body: seq<byte>, p: int)
    requires AllSpace(ws) && IsSpace(p) && NoLineEnd(body)
    ensures GetTok(Cursor(ws + ['#' as int as byte] + body, p)) == Lexeme(TokEof, Cursor([], EOF))
  {
    var hash := '#' as int as byte;
    assert ws + [hash] + body == ws + ([hash] + (body + []));
    SkipSpaceRun(ws, [hash] + (body + []), p);
    assert Read([hash] + (body + [])) == Cursor(body + [], hash as int);
    SkipCommentRun(body, []);
  }

  /** Input that holds only whitespace yields `tok_eof`. */
  lemma WhitespaceOnly(ws: seq<byte>, p: int)
    requires AllSpace(ws) && IsSpace(p)
    ensures GetTok(Cursor(ws, p)) == Lexeme(TokEof, Cursor([], EOF))
  {
    assert ws + [] == ws;
    SkipSpaceRun(ws, [], p);
  }

  /** Once the input is exhausted every call returns `tok_eof` again. */
  lemma EofIsSticky(c: Cursor)
    requires Valid(c) && c.last == EOF
    ensures GetTok(c) == Lexeme(TokEof, c) && TokensFrom(c) == [TokEof]
  {
  }

  /** A token that has a spelling the lexer reads back as that same token. */
  predicate Spellable(t: Token) {
    match t
    case TokEof => false
    case TokDef => true
    case TokExtern => true
    case TokIdentifier(n) =>
      IsByteString(n) && |n| > 0 && IsAlpha(n[0] as int)
      && (forall i :: 0 <= i < |n| ==> IsAlnum(n[i] as int))
      && n != "def" && n != "extern"
    case TokNumber(x) =>
      IsByteString(x) && |x| > 0 && (forall i :: 0 <= i < |x| ==> IsNumeric(x[i] as int))
    case TokChar(c) =>
      !IsSpace(c as int) && !IsAlnum(c as int) && !IsNumeric(c as int) && c != '#' as int as byte
  }

  /** Every token of a sequence has a spelling. */
  predicate AllSpellable(ts: seq<Token>) {
    ts == [] || (Spellable(ts[0]) && AllSpellable(ts[1..]))
  }

  /** The bytes of a token. */
  function Spell(t: Token): (b: seq<byte>)
    requires Spellable(t)
    ensures |b| > 0
  {
    match t
    case TokDef => Bytes("def")
    case TokExtern => Bytes("extern")
    case TokIdentifier(n) => Bytes(n)
    case TokNumber(x) => Bytes(x)
    case TokChar(c) => [c]
  }

  /** Tokens spelled one after another, each followed by a space. */
  function SpellAll(ts: seq<Token>): seq<byte>
    requires AllSpellable(ts)
  {
    if ts == [] then [] else Spell(ts[0]) + ([' ' as int as byte] + SpellAll(ts[1..]))
  }

  /** Spelling a string as bytes and reading it back gives the string. */
  lemma CharsOfBytes(s: string)
    requires IsByteString(s)
    ensures Chars(Bytes(s)) == s
  {
    var c := Chars(Bytes(s));
    assert forall i :: 0 <= i < |s| ==> c[i] == s[i] by {
      forall i | 0 <= i < |s| ensures c[i] == s[i] {
        assert c[i] as int == Bytes(s)[i] as int == s[i] as int;
      }
    }
  }

  /** The bytes of a word: a letter, then letters and digits, that read back
      as the word. */
  lemma WordBytes(n: string)
    requires IsByteString(n) && |n| > 0 && IsAlpha(n[0] as int)
    requires forall i :: 0 <= i < |n| ==> IsAlnum(n[i] as int)
    ensures var b := Bytes(n);
      && |b| > 0 && [] + [b[0]] + b[1..] == b
      && IsAlpha(b[0] as int) && AllAlnum(b[1..]) && Chars([b[0]] + b[1..]) == n
  {
    var b := Bytes(n);
    var w := b[1..];
    assert [] + [b[0]] + w == b;
    forall i | 0 <= i < |w| ensures IsAlnum(w[i] as int) {
      assert w[i] == b[i + 1];
    }
    CharsOfBytes(n);
  }

  /** The bytes of a number: digits and `.`, that read back as the number. */
  lemma NumberBytes(x: string)
    requires IsByteString(x) && |x| > 0
    requires forall i :: 0 <= i < |x| ==> IsNumeric(x[i] as int)
    ensures var b := Bytes(x);
      && |b| > 0 && [] + [b[0]] + b[1..] == b
      && IsNumeric(b[0] as int) && AllNumeric(b[1..]) && Chars([b[0]] + b[1..]) == x
  {
    var b := Bytes(x);
    var w := b[1..];
    assert [] + [b[0]] + w == b;
    forall i | 0 <= i < |w| ensures IsNumeric(w[i] as int) {
      assert w[i] == b[i + 1];
    }
    CharsOfBytes(x);
  }

  /** A spelled word followed by a space is lexed back as its keyword or
      identifier token. */
  lemma SpellWord(n: string, s: seq<byte>, p: int)
    requires IsByteString(n) && |n| > 0 && IsAlpha(n[0] as int)
    requires forall i :: 0 <= i < |n| ==> IsAlnum(n[i] as int)
    requires IsSpace(p)
    ensures GetTok(Cursor(Bytes(n) + ([' ' as int as byte] + s), p)) == Lexeme(Keyword(n), Cursor(s, ' ' as int))
  {
    var b := Bytes(n);
    var rest := [' ' as int as byte] + s;
    WordBytes(n);
    IdentifierToken([], b[0], b[1..], rest, p);
    assert Read(rest) == Cursor(s, ' ' as int);
  }

  /** A spelled number followed by a space is lexed back as that number. */
  lemma SpellNumber(x: string, s: seq<byte>, p: int)
    requires IsByteString(x) && |x| > 0
    requires forall i :: 0 <= i < |x| ==> IsNumeric(x[i] as int)
    requires IsSpace(p)
    ensures GetTok(Cursor(Bytes(x) + ([' ' as int as byte] + s), p)) == Lexeme(TokNumber(x), Cursor(s, ' ' as int))
  {
    var b := Bytes(x);
    var rest := [' ' as int as byte] + s;
    NumberBytes(x);
    NumberToken([], b[0], b[1..], rest, p);
    assert Read(rest) == Cursor(s, ' ' as int);
  }

  /** One spelled token followed by a space is lexed back as that token, and
      the lexer is left just past the space. */
  lemma SpellOne(t: Token, s: seq<byte>, p: int)
    requires Spellable(t) && IsSpace(p)
    ensures GetTok(Cursor(Spell(t) + ([' ' as int as byte] + s), p)) == Lexeme(t, Cursor(s, ' ' as int))
  {
    var sp := ' ' as int as byte;
    match t {
      case TokChar(c) =>
        CharToken([], c, [sp] + s, p);
        assert [] + [c] == Spell(t);
        assert Read([sp] + s) == Cursor(s, ' ' as int);
      case TokNumber(x) =>
        SpellNumber(x, s, p);
      case TokIdentifier(n) =>
        SpellWord(n, s, p);
      case TokDef =>
        SpellWord("def", s, p);
      case TokExtern =>
        SpellWord("extern", s, p);
    }
  }

  /** The first token of a spelled sequence is read back, and the lexer is
      left at the spelling of the others. */
  lemma SpellHead(ts: seq<Token>, p: int)
    requires AllSpellable(ts)
    requires IsSpace(p) && ts != []
    ensures GetTok(Cursor(SpellAll(ts), p)) == Lexeme(ts[0], Cursor(SpellAll(ts[1..]), ' ' as int))
  {
    assert SpellAll(ts) == Spell(ts[0]) + ([' ' as int as byte] + SpellAll(ts[1..]));
    SpellOne(ts[0], SpellAll(ts[1..]), p);
  }

  /** A token other than `tok_eof` is followed by the tokens lexed after it. */
  lemma TokensStep(c: Cursor, t: Token, next: Cursor)
    requires Valid(c) && GetTok(c) == Lexeme(t, next) && t != TokEof
    ensures TokensFrom(c) == [t] + TokensFrom(next)
  {
  }

  /** Lexing a spelled sequence of tokens: its first token, then the rest
      from just past the first space. */
  lemma SpellStep(ts: seq<Token>, p: int)
    requires AllSpellable(ts)
    requires IsSpace(p) && ts != []
    ensures TokensFrom(Cursor(SpellAll(ts), p)) == [ts[0]] + TokensFrom(Cursor(SpellAll(ts[1..]), ' ' as int))
  {
    var c := Cursor(SpellAll(ts), p);
    var next := Cursor(SpellAll(ts[1..]), ' ' as int);
    var t := ts[0];
    assert Valid(c) && GetTok(c) == Lexeme(t, next) by {
      SpellHead(ts, p);
    }
    assert t != TokEof;
    TokensStep(c, t, next);
  }

  /** A non-empty sequence with an element appended: its head, then its tail
      with the element appended. */
  lemma AppendToCons<T>(ts: seq<T>, x: T)
    requires ts != []
    ensures ts + [x] == [ts[0]] + (ts[1..] + [x])
  {
  }

  /** Lexing the spelling of a token sequence gives that sequence back,
      followed by `tok_eof`. */
  lemma {:induction false} SpellAllFrom(ts: seq<Token>, p: int)
    requires AllSpellable(ts)
    requires IsSpace(p)
    ensures TokensFrom(Cursor(SpellAll(ts), p)) == ts + [TokEof]
    decreases |ts|
  {
    if ts == [] {
      WhitespaceOnly([], p);
    } else {
      SpellStep(ts, p);
      SpellAllFrom(ts[1..], ' ' as int);
      AppendToCons(ts, TokEof);
    }
  }

  /** The lexer inverts spelling: `Tokenize(SpellAll(ts)) == ts + [tok_eof]`. */
  lemma TokenizeSpelling(ts: seq<Token>)
    requires AllSpellable(ts)
    ensures Tokenize(SpellAll(ts)) == ts + [TokEof]
  {
    SpellAllFrom(ts, ' ' as int);
  }
}
