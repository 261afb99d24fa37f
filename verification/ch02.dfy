/** The lexer of ch02/toy.cpp, an earlier snapshot of the same front end.
    Its `gettok` differs from the later one in one line: the comment test is
    the assignment `LastChar = '#'`, whose value is always true. So every
    character that does not start an identifier or a number is overwritten by
    `#` and starts a comment, and the single-character branch is never
    reached. This module models that code as written, with `getNextToken` and
    `ParseNumberExpr`. */
module Ch02 {
  import opened CType
  import opened Syntax
  import L = Lexer
  import G = Grammar

  /** `gettok` of ch02/toy.cpp: skip whitespace, then an identifier or keyword,
      a number, or otherwise a comment up to the end of the line, after which
      lexing resumes. It never yields a single-character token. */
  function GetTok(c: L.Cursor): (o: L.Lexeme)
    requires L.Valid(c)
    ensures L.Valid(o.next) && L.Size(o.next) <= L.Size(c)
    ensures o.tok != TokEof ==> L.Size(o.next) < L.Size(c)
    ensures o.tok == TokEof ==> o.next == L.Cursor([], EOF)
    ensures c.last == EOF ==> o == L.Lexeme(TokEof, c)
    ensures !o.tok.TokChar?
    decreases L.Size(c)
  {
    var d := L.SkipSpace(c);
    if IsAlpha(d.last) then
      var r := L.ScanIdentifier(L.Read(d.rest), [d.last as char]);
      L.Lexeme(L.Keyword(r.0), r.1)
    else if IsNumeric(d.last) then
      var r := L.ScanNumber(L.Read(d.rest), [d.last as char]);
      L.Lexeme(TokNumber(r.0), r.1)
    else
      // the pending character, whatever it was, is replaced by '#'
      var e := L.SkipComment(d.rest);
      if e.last != EOF then GetTok(e) else L.Lexeme(TokEof, e)
  }

  /** The tokens successive calls return from a state, up to the first `tok_eof`. */
  function TokensFrom(c: L.Cursor): (ts: seq<Token>)
    requires L.Valid(c)
    ensures G.WellFormed(ts)
    ensures forall i :: 0 <= i < |ts| - 1 ==> ts[i] != TokEof && !ts[i].TokChar?
    decreases L.Size(c)
  {
    var o := GetTok(c);
    if o.tok == TokEof then [TokEof] else [o.tok] + TokensFrom(o.next)
  }

  /** The token stream of a whole input. */
  function Tokenize(input: seq<byte>): (ts: seq<Token>)
    ensures G.WellFormed(ts)
    ensures forall i :: 0 <= i < |ts| - 1 ==> ts[i] != TokEof && !ts[i].TokChar?
  {
    TokensFrom(L.Start(input))
  }

  /** The tokens the lexer returns from state `c`; `Lexer02.Valid` states its
      link to the lexer through this name. */
  ghost function Lexed(c: L.Cursor): (ts: seq<Token>)
    requires L.Valid(c)
    ensures G.WellFormed(ts)
  {
    TokensFrom(c)
  }

  /** The globals of ch02/toy.cpp: `LastChar`, `IdentfierStr`, `NumVal` and
      `Curtok`, over an input sequence and a read position. */
  class Lexer02 {
    /** The characters `getchar` delivers, in order. */
    const input: seq<byte>
    /** How many of them have been read. */
    var pos: nat
    /** `static int LastChar` of `gettok`. */
    var lastChar: int
    /** `IdentfierStr` */
    var identifierStr: string
    /** The literal text `NumVal` is converted from. */
    var numText: string
    /** `Curtok` */
    var curTok: int
    /** The current token followed by every token the lexer will still return. */
    ghost var tokens: seq<Token>

    /** A reachable state: the lexer state is valid, `Curtok` holds a token
        code (`tok_eof` only once the input is exhausted) and `tokens` is the
        current token followed by the lexer's output from here on. */
    ghost predicate Valid()
      reads this
    {
      && pos <= |input|
      && L.Valid(L.Cursor(input[pos..], lastChar))
      && IsTokenCode(curTok)
      && (curTok == TOK_EOF ==> lastChar == EOF)
      && G.WellFormed(tokens)
      && tokens[0] == TokenOf(curTok, identifierStr, numText)
      && (curTok == TOK_EOF ==> tokens == [TokEof])
      && (forall d: L.Cursor {:trigger Lexed(d)} :: d == L.Cursor(input[pos..], lastChar) && curTok != TOK_EOF ==>
            L.Valid(d) && tokens[1..] == Lexed(d))
    }

    /** The lexer's state. */
    ghost function CursorState(): L.Cursor
      reads this
      requires pos <= |input|
    {
      L.Cursor(input[pos..], lastChar)
    }

    /** The static initial state: nothing read, `LastChar` a space, `Curtok` zero. */
    constructor (input: seq<byte>)
      ensures Valid() && this.input == input
      ensures pos == 0 && lastChar == ' ' as int && curTok == 0 && identifierStr == ""
      ensures tokens == [TokChar(0)] + Tokenize(input)
    {
      this.input := input;
      pos := 0;
      lastChar := ' ' as int;
      identifierStr := "";
      numText := "";
      curTok := 0;
      tokens := [TokChar(0)] + Tokenize(input);
      new;
      assert tokens[1..] == Lexed(L.Start(input));
    }

    /** `getchar()`: the next byte, or EOF at the end of the input. */
    method Getchar() returns (c: int)
      requires pos <= |input|
      modifies this`pos
      ensures pos <= |input|
      ensures L.Cursor(input[pos..], c) == L.Read(old(input[pos..]))
    {
      if pos < |input| {
        c := input[pos] as int;
        pos := pos + 1;
      } else {
        c := EOF;
      }
    }

    /** The whitespace loop at the start of `gettok`. */
    method SkipSpaces()
      requires pos <= |input| && L.Valid(CursorState())
      modifies this`pos, this`lastChar
      ensures pos <= |input| && CursorState() == L.SkipSpace(old(CursorState()))
    {
      ghost var c0 := CursorState();
      while IsSpace(lastChar)
        invariant pos <= |input| && L.Valid(CursorState())
        invariant L.SkipSpace(CursorState()) == L.SkipSpace(c0)
        decreases L.Size(CursorState())
      {
        lastChar := Getchar();
      }
    }

    /** The identifier loop of `gettok`, entered on a letter. */
    method ScanIdentifierText()
      requires pos <= |input| && L.Valid(CursorState()) && IsAlpha(lastChar)
      modifies this`pos, this`lastChar, this`identifierStr
      ensures pos <= |input|
      ensures (identifierStr, CursorState()) == L.ScanIdentifier(L.Read(old(input[pos..])), [old(lastChar) as char])
    {
      ghost var r0 := L.ScanIdentifier(L.Read(input[pos..]), [lastChar as char]);
      identifierStr := [lastChar as char];
      lastChar := Getchar();
      while IsAlnum(lastChar)
        invariant pos <= |input| && L.Valid(CursorState())
        invariant L.ScanIdentifier(CursorState(), identifierStr) == r0
        decreases L.Size(CursorState())
      {
        identifierStr := identifierStr + [lastChar as char];
        lastChar := Getchar();
      }
    }

    /** The number loop of `gettok` (a `do`-`while`), entered on a digit or `.`. */
    method ScanNumberText() returns (numStr: string)
      requires pos <= |input| && L.Valid(CursorState()) && IsNumeric(lastChar)
      modifies this`pos, this`lastChar
      ensures pos <= |input|
      ensures (numStr, CursorState()) == L.ScanNumber(L.Read(old(input[pos..])), [old(lastChar) as char])
    {
      ghost var r0 := L.ScanNumber(L.Read(input[pos..]), [lastChar as char]);
      numStr := [lastChar as char];
      lastChar := Getchar();
      while IsDigit(lastChar) || lastChar == '.' as int
        invariant pos <= |input| && L.Valid(CursorState())
        invariant L.ScanNumber(CursorState(), numStr) == r0
        decreases L.Size(CursorState())
      {
        numStr := numStr + [lastChar as char];
        lastChar := Getchar();
      }
    }

    /** The comment loop of `gettok`: read up to a line terminator or EOF. */
    method SkipCommentText()
      requires pos <= |input|
      modifies this`pos, this`lastChar
      ensures pos <= |input| && CursorState() == L.SkipComment(old(input[pos..]))
    {
      ghost var rest0 := input[pos..];
      lastChar := Getchar();
      while lastChar != EOF && !IsLineEnd(lastChar)
        invariant pos <= |input| && L.Valid(CursorState())
        invariant L.SkipComment(rest0)
               == if lastChar == EOF || IsLineEnd(lastChar) then CursorState()
                  else L.SkipComment(input[pos..])
        decreases L.Size(CursorState())
      {
        lastChar := Getchar();
      }
    }

    /** `gettok`, with the assignment in the comment test. */
    method Gettok() returns (tok: int)
      requires pos <= |input| && L.Valid(CursorState())
      modifies this`pos, this`lastChar, this`identifierStr, this`numText
      ensures pos <= |input| && L.Valid(CursorState())
      ensures var o := GetTok(old(CursorState()));
        && CursorState() == o.next
        && IsTokenCode(tok)
        && TokenOf(tok, identifierStr, numText) == o.tok
      decreases L.Size(CursorState())
    {
      ghost var c0 := CursorState();
      SkipSpaces();
      ghost var d := CursorState();
      assert d == L.SkipSpace(c0);

      if IsAlpha(lastChar) {
        ScanIdentifierText();
        if identifierStr == "def" {
          return TOK_DEF;
        }
        if identifierStr == "extern" {
          return TOK_EXTERN;
        }
        return TOK_IDENTIFIER;
      }

      if IsDigit(lastChar) || lastChar == '.' as int {
        numText := ScanNumberText();
        return TOK_NUMBER;
      }

      // `if (LastChar = '#')`: the assignment's value, '#', is always true
      lastChar := '#' as int;
      SkipCommentText();
      if lastChar != EOF {
        tok := Gettok();
        return;
      }

      if lastChar == EOF {
        return TOK_EOF;
      } else {
        // the single-character branch cannot be reached
        assert false;
      }
    }

    /** `getNextToken`: `Curtok` becomes the lexer's next token, which is also
        returned. */
    method GetNextToken() returns (t: int)
      requires Valid()
      modifies this`pos, this`lastChar, this`identifierStr, this`numText, this`curTok, this`tokens
      ensures Valid() && t == curTok
      ensures tokens == G.Advance(old(tokens))
    {
      ghost var c := CursorState();
      if curTok != TOK_EOF {
        assert tokens[1..] == Lexed(c);
      }
      curTok := Gettok();
      t := curTok;
      tokens := G.Advance(tokens);
      if curTok != TOK_EOF {
        assert tokens[1..] == Lexed(CursorState());
      }
    }

    /** `ParseNumberExpr`: a number node from the last literal read, then one
        token consumed. */
    method ParseNumberExpr() returns (r: Result<Expr>)
      requires Valid()
      modifies this`pos, this`lastChar, this`identifierStr, this`numText, this`curTok, this`tokens
      ensures Valid()
      ensures r == Ok(NumberExpr(old(numText)))
      ensures tokens == G.Advance(old(tokens))
      ensures old(curTok) == TOK_NUMBER ==> var p := G.ParseNumber(old(tokens)); r == p.result && tokens == p.rest
    {
      r := Ok(NumberExpr(numText));
      var _ := GetNextToken();
    }
  }
}
