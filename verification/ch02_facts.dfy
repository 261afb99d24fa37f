/** The lexer of ch02/toy.cpp against the one of ch04/toy.cpp. On input made
    only of whitespace, letters, digits, `.` and `#` the two return the same
    tokens; any other character, which the later lexer returns as a token of
    its own, makes the earlier one skip to the end of the line. */
module Ch02Facts {
  import opened CType
  import opened Syntax
  import L = Lexer
  import opened LexerFacts
  import Ch02

  /** A character both lexers treat alike: whitespace, a letter, a digit, `.`
      or `#`. */
  predicate IsPlain(b: int) {
    IsSpace(b) || IsAlnum(b) || IsNumeric(b) || b == '#' as int
  }

  /** Plain characters only. */
  predicate AllPlain(s: seq<byte>) {
    forall i :: 0 <= i < |s| ==> IsPlain(s[i] as int)
  }

  /** A lexer state with only plain characters ahead: the pending one (unless
      it is EOF) and the rest of the input. */
  predicate PlainCursor(c: L.Cursor) {
    (c.last == EOF || IsPlain(c.last)) && AllPlain(c.rest)
  }

  /** Reading a character from plain input leaves a plain state. */
  lemma ReadPlain(rest: seq<byte>)
    requires AllPlain(rest)
    ensures PlainCursor(L.Read(rest))
  {
    if rest != [] {
      assert forall i :: 0 <= i < |rest| - 1 ==> rest[1..][i] == rest[i + 1];
    }
  }

  /** The whitespace loop keeps a state plain. */
  lemma {:induction false} SkipSpacePlain(c: L.Cursor)
    requires L.Valid(c) && PlainCursor(c)
    ensures PlainCursor(L.SkipSpace(c))
    decreases L.Size(c)
  {
    if IsSpace(c.last) {
      ReadPlain(c.rest);
      SkipSpacePlain(L.Read(c.rest));
    }
  }

  /** The identifier loop keeps a state plain. */
  lemma {:induction false} ScanIdentifierPlain(c: L.Cursor, acc: string)
    requires L.Valid(c) && PlainCursor(c)
    ensures PlainCursor(L.ScanIdentifier(c, acc).1)
    decreases L.Size(c)
  {
    if IsAlnum(c.last) {
      ReadPlain(c.rest);
      ScanIdentifierPlain(L.Read(c.rest), acc + [c.last as char]);
    }
  }

  /** The number loop keeps a state plain. */
  lemma {:induction false} ScanNumberPlain(c: L.Cursor, acc: string)
    requires L.Valid(c) && PlainCursor(c)
    ensures PlainCursor(L.ScanNumber(c, acc).1)
    decreases L.Size(c)
  {
    if IsNumeric(c.last) {
      ReadPlain(c.rest);
      ScanNumberPlain(L.Read(c.rest), acc + [c.last as char]);
    }
  }

  /** The comment loop over plain input leaves a plain state. */
  lemma {:induction false} SkipCommentPlain(rest: seq<byte>)
    requires AllPlain(rest)
    ensures PlainCursor(L.SkipComment(rest))
    decreases |rest|
  {
    ReadPlain(rest);
    var d := L.Read(rest);
    if !(d.last == EOF || IsLineEnd(d.last)) {
      SkipCommentPlain(d.rest);
    }
  }

  /** On a plain state the two `gettok`s return the same token and leave the
      same state, which is again plain. */
  lemma {:induction false} GetTokAgrees(c: L.Cursor)
    requires L.Valid(c) && PlainCursor(c)
    ensures Ch02.GetTok(c) == L.GetTok(c)
    ensures PlainCursor(L.GetTok(c).next)
    decreases L.Size(c)
  {
    var d := L.SkipSpace(c);
    SkipSpacePlain(c);
    ReadPlain(d.rest);
    if IsAlpha(d.last) {
      ScanIdentifierPlain(L.Read(d.rest), [d.last as char]);
    } else if IsNumeric(d.last) {
      ScanNumberPlain(L.Read(d.rest), [d.last as char]);
    } else if d.last == EOF {
      assert d.rest == [];
    } else {
      assert d.last == '#' as int;
      var e := L.SkipComment(d.rest);
      SkipCommentPlain(d.rest);
      if e.last != EOF {
        GetTokAgrees(e);
      }
    }
  }

  /** On a plain state the two lexers return the same token stream. */
  lemma {:induction false} TokensAgree(c: L.Cursor)
    requires L.Valid(c) && PlainCursor(c)
    ensures Ch02.TokensFrom(c) == L.TokensFrom(c)
    decreases L.Size(c)
  {
    GetTokAgrees(c);
    var o := L.GetTok(c);
    if o.tok != TokEof {
      TokensAgree(o.next);
    }
  }

  /** Input made only of whitespace, letters, digits, `.` and `#` is lexed
      alike by both snapshots. */
  lemma TokenizeAgrees(input: seq<byte>)
    requires AllPlain(input)
    ensures Ch02.Tokenize(input) == L.Tokenize(input)
  {
    TokensAgree(L.Start(input));
  }

  /** In the earlier lexer too, after whitespace a letter followed by letters
      and digits is one identifier (or keyword) token: the longest such run,
      whatever follows it. */
  lemma IdentifierToken(ws: seq<byte>, a: byte, w: seq<byte>, s: seq<byte>, p: int)
    requires AllSpace(ws) && IsSpace(p) && IsAlpha(a as int) && AllAlnum(w)
    requires s == [] || !IsAlnum(s[0] as int)
    ensures Ch02.GetTok(L.Cursor(ws + [a] + w + s, p)) == L.Lexeme(L.Keyword(Chars([a] + w)), L.Read(s))
  {
    assert ws + [a] + w + s == ws + ([a] + (w + s));
    SkipSpaceRun(ws, [a] + (w + s), p);
    assert L.Read([a] + (w + s)) == L.Cursor(w + s, a as int);
    ScanIdentifierRun(w, s, [a as int as char]);
    assert Chars([a] + w) == [a as int as char] + Chars(w);
  }

  /** In the earlier lexer too, after whitespace a digit or `.` followed by
      digits and `.` is one number token holding the whole run. */
  lemma NumberToken(ws: seq<byte>, n: byte, w: seq<byte>, s: seq<byte>, p: int)
    requires AllSpace(ws) && IsSpace(p) && IsNumeric(n as int) && AllNumeric(w)
    requires s == [] || !IsNumeric(s[0] as int)
    ensures Ch02.GetTok(L.Cursor(ws + [n] + w + s, p)) == L.Lexeme(TokNumber(Chars([n] + w)), L.Read(s))
  {
    assert ws + [n] + w + s == ws + ([n] + (w + s));
    SkipSpaceRun(ws, [n] + (w + s), p);
    assert L.Read([n] + (w + s)) == L.Cursor(w + s, n as int);
    ScanNumberRun(w, s, [n as int as char]);
    assert Chars([n] + w) == [n as int as char] + Chars(w);
  }

  /** Any character after whitespace that starts neither an identifier nor a
      number starts a comment, `#` or not: lexing resumes after the line
      terminator. */
  lemma OtherCharStartsComment(ws: seq<byte>, ch: byte, body: seq<byte>, nl: byte, s: seq<byte>, p: int)
    requires AllSpace(ws) && IsSpace(p) && NoLineEnd(body) && IsLineEnd(nl as int)
    requires !IsSpace(ch as int) && !IsAlpha(ch as int) && !IsNumeric(ch as int)
    ensures Ch02.GetTok(L.Cursor(ws + [ch] + body + [nl] + s, p)) == Ch02.GetTok(L.Cursor(s, nl as int))
  {
    assert ws + [ch] + body + [nl] + s == ws + ([ch] + (body + ([nl] + s)));
    SkipSpaceRun(ws, [ch] + (body + ([nl] + s)), p);
    assert L.Read([ch] + (body + ([nl] + s))) == L.Cursor(body + ([nl] + s), ch as int);
    SkipCommentRun(body, [nl] + s);
    assert L.Read([nl] + s) == L.Cursor(s, nl as int);
  }

  /** The same on the last line: the rest of the input is discarded and
      `tok_eof` is returned. */
  lemma OtherCharAtEnd(ws: seq<byte>, ch: byte, body: seq<byte>, p: int)
    requires AllSpace(ws) && IsSpace(p) && NoLineEnd(body)
    requires !IsSpace(ch as int) && !IsAlpha(ch as int) && !IsNumeric(ch as int)
    ensures Ch02.GetTok(L.Cursor(ws + [ch] + body, p)) == L.Lexeme(TokEof, L.Cursor([], EOF))
  {
    assert ws + [ch] + body == ws + ([ch] + (body + []));
    SkipSpaceRun(ws, [ch] + (body + []), p);
    assert L.Read([ch] + (body + [])) == L.Cursor(body + [], ch as int);
    SkipCommentRun(body, []);
  }

  /** `a+b`: the later lexer returns `a`, `+` and `b`; the earlier one returns
      `a` and then takes `+b` for a comment. */
  lemma PlusStartsComment()
    ensures IsByteString("a+b")
    ensures L.Tokenize(Bytes("a+b")) == [TokIdentifier("a"), TokChar(43), TokIdentifier("b"), TokEof]
    ensures Ch02.Tokenize(Bytes("a+b")) == [TokIdentifier("a"), TokEof]
  {
    var input: seq<byte> := [97, 43, 98];
    assert Bytes("a+b") == input;
    var a := L.Cursor([43, 98], 97);
    var plus := L.Cursor([98], 43);
    var b := L.Cursor([], 98);
    var end := L.Cursor([], EOF);
    assert L.SkipSpace(L.Start(input)) == a;
    assert L.ScanIdentifier(L.Read([43, 98]), "a") == ("a", plus);
    assert L.GetTok(L.Start(input)) == L.Lexeme(TokIdentifier("a"), plus);
    assert Ch02.GetTok(L.Start(input)) == L.Lexeme(TokIdentifier("a"), plus);
    assert L.GetTok(plus) == L.Lexeme(TokChar(43), b);
    assert L.ScanIdentifier(L.Read([]), "b") == ("b", end);
    assert L.GetTok(b) == L.Lexeme(TokIdentifier("b"), end);
    assert L.SkipComment([98]) == end;
    assert Ch02.GetTok(plus) == L.Lexeme(TokEof, end);
    assert L.TokensFrom(end) == [TokEof];
    assert L.TokensFrom(b) == [TokIdentifier("b"), TokEof];
  }
}
