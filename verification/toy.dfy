/** The front end of ch04/toy.cpp in its own imperative form: the globals
    `LastChar`, `IdentifierStr`, `NumVal`, `Curtok` and `BinOpPrecedence`
    become the fields of a `Parser`, the input stream becomes a byte sequence
    and a read position, and each routine is a method that advances the state.
    Every method is proved to do what the corresponding function of `Lexer`,
    `Grammar` or `Driver` says, on the stream of tokens still to be read. */
module Toy {
  import opened CType
  import opened Syntax
  import L = Lexer
  import G = Grammar
  import D = Driver

  /** The tokens the lexer returns from state `c`. `Parser.Valid` states its
      link to the lexer through this name, so that the link is only used where
      a proof asks for it. */
  ghost function Lexed(c: L.Cursor): (ts: seq<Token>)
    requires L.Valid(c)
    ensures G.WellFormed(ts)
  {
    L.TokensFrom(c)
  }

  class Parser {
    /** The characters `getchar` delivers, in order. */
    const input: seq<byte>
    /** How many of them have been read. */
    var pos: nat
    /** `static int LastChar` of `gettok`. */
    var lastChar: int
    /** `Curtok` */
    var curTok: int
    /** `IdentifierStr` */
    var identifierStr: string
    /** The literal text `NumVal` is converted from. */
    var numText: string
    /** `BinOpPrecedence` */
    var binOpPrecedence: map<char, int>

    /** The current token followed by every token the lexer will still
        return: what the parser has left to read. */
    ghost var tokens: seq<Token>

    /** A reachable state: the lexer state is valid, `Curtok` holds a token
        code (`tok_eof` only once the input is exhausted) and `tokens` is the
        current token followed by the lexer's output from here on. */
    ghost predicate Valid()
      reads this
    {
      && pos <= |input|
      && L.Valid(L.Cursor(input[pos..], lastChar))
      && IsTokenCode(curTok)
      && (curTok == TOK_EOF ==> lastChar == EOF)
      && G.WellFormed(tokens)
      && tokens[0] == TokenOf(curTok, identifierStr, numText)
      && (curTok == TOK_EOF ==> tokens == [TokEof])
      && (forall d: L.Cursor {:trigger Lexed(d)} :: d == L.Cursor(input[pos..], lastChar) && curTok != TOK_EOF ==>
            L.Valid(d) && tokens[1..] == Lexed(d))
    }

    /** The lexer's state. */
    ghost function CursorState(): L.Cursor
      reads this
      requires pos <= |input|
    {
      L.Cursor(input[pos..], lastChar)
    }

    /** The static initial state: nothing read, `LastChar` a space, `Curtok`
        zero and an empty operator table. */
    constructor (input: seq<byte>)
      ensures Valid() && this.input == input
      ensures pos == 0 && lastChar == ' ' as int && curTok == 0 && identifierStr == ""
      ensures binOpPrecedence == map[]
      ensures tokens == [TokChar(0)] + L.Tokenize(input)
    {
      this.input := input;
      pos := 0;
      lastChar := ' ' as int;
      curTok := 0;
      identifierStr := "";
      numText := "";
      binOpPrecedence := map[];
      tokens := [TokChar(0)] + L.Tokenize(input);
      new;
      assert tokens[1..] == Lexed(L.Start(input));
    }

    /** The table set-up at the start of `main`. */
    method InstallOperators()
      requires Valid()
      modifies this`binOpPrecedence
      ensures Valid()
      ensures binOpPrecedence == old(binOpPrecedence)['<' := 10]['+' := 20]['-' := 20]['*' := 40]
    {
      binOpPrecedence := binOpPrecedence['<' := 10];
      binOpPrecedence := binOpPrecedence['+' := 20];
      binOpPrecedence := binOpPrecedence['-' := 20];
      binOpPrecedence := binOpPrecedence['*' := 40];
    }

    /** `getchar()`: the next byte, or EOF at the end of the input. */
    method Getchar() returns (c: int)
      requires pos <= |input|
      modifies this`pos
      ensures pos <= |input|
      ensures L.Cursor(input[pos..], c) == L.Read(old(input[pos..]))
    {
      if pos < |input| {
        c := input[pos] as int;
        pos := pos + 1;
      } else {
        c := EOF;
      }
    }

    /** The whitespace loop at the start of `gettok`. */
    method SkipSpaces()
      requires pos <= |input| && L.Valid(CursorState())
      modifies this`pos, this`lastChar
      ensures pos <= |input| && CursorState() == L.SkipSpace(old(CursorState()))
    {
      ghost var c0 := CursorState();
      while IsSpace(lastChar)
        invariant pos <= |input| && L.Valid(CursorState())
        invariant L.SkipSpace(CursorState()) == L.SkipSpace(c0)
        decreases L.Size(CursorState())
      {
        lastChar := Getchar();
      }
    }

    /** The identifier loop of `gettok`, entered on a letter. */
    method ScanIdentifierText()
      requires pos <= |input| && L.Valid(CursorState()) && IsAlpha(lastChar)
      modifies this`pos, this`lastChar, this`identifierStr
      ensures pos <= |input|
      ensures (identifierStr, CursorState()) == L.ScanIdentifier(L.Read(old(input[pos..])), [old(lastChar) as char])
    {
      ghost var r0 := L.ScanIdentifier(L.Read(input[pos..]), [lastChar as char]);
      identifierStr := [lastChar as char];
      lastChar := Getchar();
      while IsAlnum(lastChar)
        invariant pos <= |input| && L.Valid(CursorState())
        invariant L.ScanIdentifier(CursorState(), identifierStr) == r0
        decreases L.Size(CursorState())
      {
        identifierStr := identifierStr + [lastChar as char];
        lastChar := Getchar();
      }
    }

    /** The number loop of `gettok`, entered on a digit or `.`. */
    method ScanNumberText() returns (numStr: string)
      requires pos <= |input| && L.Valid(CursorState()) && IsNumeric(lastChar)
      modifies this`pos, this`lastChar
      ensures pos <= |input|
      ensures (numStr, CursorState()) == L.ScanNumber(L.Read(old(input[pos..])), [old(lastChar) as char])
    {
      ghost var r0 := L.ScanNumber(L.Read(input[pos..]), [lastChar as char]);
      numStr := [lastChar as char];
      lastChar := Getchar();
      while IsDigit(lastChar) || lastChar == '.' as int
        invariant pos <= |input| && L.Valid(CursorState())
        invariant L.ScanNumber(CursorState(), numStr) == r0
        decreases L.Size(CursorState())
      {
        numStr := numStr + [lastChar as char];
        lastChar := Getchar();
      }
    }

    /** The comment loop of `gettok`: read up to a line terminator or EOF. */
    method SkipCommentText()
      requires pos <= |input|
      modifies this`pos, this`lastChar
      ensures pos <= |input| && CursorState() == L.SkipComment(old(input[pos..]))
    {
      ghost var rest0 := input[pos..];
      lastChar := Getchar();
      while lastChar != EOF && !IsLineEnd(lastChar)
        invariant pos <= |input| && L.Valid(CursorState())
        invariant L.SkipComment(rest0)
               == if lastChar == EOF || IsLineEnd(lastChar) then CursorState()
                  else L.SkipComment(input[pos..])
        decreases L.Size(CursorState())
      {
        lastChar := Getchar();
      }
    }

    /** `gettok` */
    method Gettok() returns (tok: int)
      requires pos <= |input| && L.Valid(CursorState())
      modifies this`pos, this`lastChar, this`identifierStr, this`numText
      ensures pos <= |input| && L.Valid(CursorState())
      ensures var o := L.GetTok(old(CursorState()));
        && CursorState() == o.next
        && IsTokenCode(tok)
        && TokenOf(tok, identifierStr, numText) == o.tok
      decreases L.Size(CursorState())
    {
      ghost var c0 := CursorState();
      SkipSpaces();
      ghost var d := CursorState();
      assert d == L.SkipSpace(c0);

      if IsAlpha(lastChar) {
        ScanIdentifierText();
        if identifierStr == "def" {
          return TOK_DEF;
        }
        if identifierStr == "extern" {
          return TOK_EXTERN;
        }
        return TOK_IDENTIFIER;
      }

      if IsDigit(lastChar) || lastChar == '.' as int {
        numText := ScanNumberText();
        return TOK_NUMBER;
      }

      if lastChar == '#' as int {
        SkipCommentText();
        if lastChar != EOF {
          tok := Gettok();
          return;
        }
      }

      if lastChar == EOF {
        return TOK_EOF;
      }
      var thisChar := lastChar;
      lastChar := Getchar();
      return thisChar;
    }

    /** `getNextToken`: the current token becomes the next one the lexer returns. */
    method GetNextToken() returns (t: int)
      requires Valid()
      modifies this`pos, this`lastChar, this`identifierStr, this`numText, this`curTok, this`tokens
      ensures Valid() && t == curTok
      ensures tokens == G.Advance(old(tokens))
    {
      ghost var c := CursorState();
      if curTok != TOK_EOF {
        assert tokens[1..] == Lexed(c);
      }
      curTok := Gettok();
      t := curTok;
      tokens := G.Advance(tokens);
      if curTok != TOK_EOF {
        assert tokens[1..] == Lexed(CursorState());
      }
    }

    /** `GetTokenPrecedence` */
    function GetTokenPrecedence(): (p: int)
      reads this
      requires Valid()
      ensures p == G.TokenPrecedence(binOpPrecedence, tokens[0])
    {
      if !IsAscii(curTok) then -1
      else if curTok as char !in binOpPrecedence then -1
      else binOpPrecedence[curTok as char]
    }

    /** `ParseNumberExpr` */
    method ParseNumberExpr() returns (r: Result<Expr>)
      requires Valid() && curTok == TOK_NUMBER
      modifies this`pos, this`lastChar, this`identifierStr, this`numText, this`curTok, this`tokens
      ensures Valid()
      ensures var p := G.ParseNumber(old(tokens)); r == p.result && tokens == p.rest
    {
      r := Ok(NumberExpr(numText));
      var _ := GetNextToken();
    }

    /** `ParseParenExpr` */
    method ParseParenExpr() returns (r: Result<Expr>)
      requires Valid() && curTok == '(' as int
      modifies this`pos, this`lastChar, this`identifierStr, this`numText, this`curTok, this`tokens
      ensures Valid()
      ensures var p := G.ParseParen(binOpPrecedence, old(tokens)); r == p.result && tokens == p.rest
      decreases |tokens|, 1
    {
      ghost var ts := tokens;
      var _ := GetNextToken();
      ghost var v' := G.ParseExpr(binOpPrecedence, tokens);
      var v := ParseExpression();
      assert v == v'.result && tokens == v'.rest;
      if v.Err? {
        return v;
      }
      if curTok != ')' as int {
        assert tokens[0] != G.CloseParen;
        return Err("expected ')'");
      }
      assert tokens[0] == G.CloseParen;
      var _ := GetNextToken();
      return v;
    }

    /** `ParseIdentifierExpr` */
    method ParseIdentifierExpr() returns (r: Result<Expr>)
      requires Valid() && curTok == TOK_IDENTIFIER
      modifies this`pos, this`lastChar, this`identifierStr, this`numText, this`curTok, this`tokens
      ensures Valid()
      ensures var p := G.ParseIdentifier(binOpPrecedence, old(tokens)); r == p.result && tokens == p.rest
      decreases |tokens|, 1
    {
      var idName := identifierStr;
      var _ := GetNextToken();
      if curTok != '(' as int {
        assert tokens[0] != G.OpenParen;
        return Ok(VariableExpr(idName));
      }
      assert tokens[0] == G.OpenParen;
      var _ := GetNextToken();
      if curTok == ')' as int {
        assert tokens[0] == G.CloseParen;
        var _ := GetNextToken();
        return Ok(CallExpr(idName, []));
      }
      assert tokens[0] != G.CloseParen;
      ghost var goal := G.ParseArgs(binOpPrecedence, idName, tokens, []);
      var args: seq<Expr> := [];
      while true
        invariant Valid() && |tokens| < |old(tokens)|
        invariant G.ParseArgs(binOpPrecedence, idName, tokens, args) == goal
        decreases |tokens|
      {
        ghost var a := G.ParseExpr(binOpPrecedence, tokens);
        var arg := ParseExpression();
        assert arg == a.result && tokens == a.rest;
        if arg.Err? {
          return Err(arg.msg);
        }
        args := args + [arg.value];
        if curTok == ')' as int {
          assert tokens[0] == G.CloseParen;
          break;
        }
        if curTok != ',' as int {
          assert tokens[0] != G.Comma;
          return Err("Expected ')' or ','");
        }
        assert tokens[0] == G.Comma;
        var _ := GetNextToken();
      }
      var _ := GetNextToken();
      return Ok(CallExpr(idName, args));
    }

    /** `ParsePrimary` */
    method ParsePrimary() returns (r: Result<Expr>)
      requires Valid()
      modifies this`pos, this`lastChar, this`identifierStr, this`numText, this`curTok, this`tokens
      ensures Valid()
      ensures var p := G.ParsePrimary(binOpPrecedence, old(tokens)); r == p.result && tokens == p.rest
      decreases |tokens|, 2
    {
      if curTok == TOK_IDENTIFIER {
        r := ParseIdentifierExpr();
      } else if curTok == TOK_NUMBER {
        r := ParseNumberExpr();
      } else if curTok == '(' as int {
        r := ParseParenExpr();
      } else {
        r := Err("Unknown Token");
      }
    }

    /** `ParseExpression` */
    method ParseExpression() returns (r: Result<Expr>)
      requires Valid()
      modifies this`pos, this`lastChar, this`identifierStr, this`numText, this`curTok, this`tokens
      ensures Valid()
      ensures var p := G.ParseExpr(binOpPrecedence, old(tokens)); r == p.result && tokens == p.rest
      decreases |tokens|, 4
    {
      var lhs := ParsePrimary();
      if lhs.Err? {
        return lhs;
      }
      r := ParseBinOpRHS(0, lhs.value);
    }

    /** `ParseBinOpRHS` */
    method ParseBinOpRHS(exprPrec: int, lhs: Expr) returns (r: Result<Expr>)
      requires Valid() && exprPrec >= 0
      modifies this`pos, this`lastChar, this`identifierStr, this`numText, this`curTok, this`tokens
      ensures Valid()
      ensures var p := G.ParseBinOpRHS(binOpPrecedence, exprPrec, lhs, old(tokens));
        r == p.result && tokens == p.rest
      decreases |tokens|, 3
    {
      ghost var goal := G.ParseBinOpRHS(binOpPrecedence, exprPrec, lhs, tokens);
      var left := lhs;
      while true
        invariant Valid() && |tokens| <= |old(tokens)|
        invariant G.ParseBinOpRHS(binOpPrecedence, exprPrec, left, tokens) == goal
        decreases |tokens|
      {
        ghost var ts := tokens;
        var tokPrec := GetTokenPrecedence();
        if tokPrec < exprPrec {
          return Ok(left);
        }
        var binOp := curTok;
        assert ts[0] == TokChar(binOp as byte);
        var _ := GetNextToken();
        var rhs := ParseOperand(tokPrec);
        if rhs.Err? {
          return rhs;
        }
        left := BinaryExpr(binOp as char, left, rhs.value);
      }
    }

    /** The right-operand part of the `ParseBinOpRHS` loop. */
    method ParseOperand(tokPrec: int) returns (rhs: Result<Expr>)
      requires Valid() && tokPrec >= 0
      modifies this`pos, this`lastChar, this`identifierStr, this`numText, this`curTok, this`tokens
      ensures Valid()
      ensures var p := G.ParseOperand(binOpPrecedence, tokPrec, old(tokens));
        rhs == p.result && tokens == p.rest
      decreases |tokens|, 3
    {
      ghost var pr := G.ParsePrimary(binOpPrecedence, tokens);
      assert G.ParseOperand(binOpPrecedence, tokPrec, tokens)
          == if pr.result.Err? then pr
             else if tokPrec < G.TokenPrecedence(binOpPrecedence, pr.rest[0])
             then G.ParseBinOpRHS(binOpPrecedence, tokPrec + 1, pr.result.value, pr.rest)
             else pr;
      rhs := ParsePrimary();
      if rhs.Err? {
        return;
      }
      var nextPrec := GetTokenPrecedence();
      if tokPrec < nextPrec {
        rhs := ParseBinOpRHS(tokPrec + 1, rhs.value);
      }
    }

    /** `ParsePrototype` */
    method ParsePrototype() returns (r: Result<Proto>)
      requires Valid()
      modifies this`pos, this`lastChar, this`identifierStr, this`numText, this`curTok, this`tokens
      ensures Valid()
      ensures var p := G.ParsePrototype(old(tokens)); r == p.result && tokens == p.rest
    {
      ghost var ts0 := tokens;
      if curTok != TOK_IDENTIFIER {
        return Err("Expected function name in prototype");
      }
      var fnName := identifierStr;
      var _ := GetNextToken();
      ghost var ts1 := tokens;
      if curTok != '(' as int {
        assert G.ParsePrototype(ts0) == G.Parsed(Err("Expected ( "), ts1);
        return Err("Expected ( ");
      }
      var argNames: seq<string> := [];
      var t := GetNextToken();
      ghost var goal := G.ParseParams(tokens);
      assert G.ParsePrototype(ts0)
          == if goal.1[0] != G.CloseParen then G.Parsed(Err("Expected )"), goal.1)
             else G.Parsed(Ok(Proto(fnName, goal.0)), G.Advance(goal.1));
      assert argNames + goal.0 == goal.0;
      while t == TOK_IDENTIFIER
        invariant Valid() && t == curTok
        invariant goal == (argNames + G.ParseParams(tokens).0, G.ParseParams(tokens).1)
        decreases |tokens|
      {
        ghost var q := G.ParseParams(G.Advance(tokens));
        assert G.ParseParams(tokens) == ([identifierStr] + q.0, q.1);
        G.AppendAssoc(argNames, [identifierStr], q.0);
        argNames := argNames + [identifierStr];
        t := GetNextToken();
      }
      assert G.ParseParams(tokens) == ([], tokens);
      assert argNames + [] == argNames;
      if curTok != ')' as int {
        return Err("Expected )");
      }
      var _ := GetNextToken();
      return Ok(Proto(fnName, argNames));
    }

    /** `ParseDefinition` */
    method ParseDefinition() returns (r: Result<Function>)
      requires Valid()
      modifies this`pos, this`lastChar, this`identifierStr, this`numText, this`curTok, this`tokens
      ensures Valid()
      ensures var p := G.ParseDefinition(binOpPrecedence, old(tokens)); r == p.result && tokens == p.rest
    {
      var _ := GetNextToken();
      var proto := ParsePrototype();
      if proto.Err? {
        return Err(proto.msg);
      }
      var e := ParseExpression();
      if e.Err? {
        return Err(e.msg);
      }
      return Ok(Function(proto.value, e.value));
    }

    /** `ParseExtern` */
    method ParseExtern() returns (r: Result<Proto>)
      requires Valid()
      modifies this`pos, this`lastChar, this`identifierStr, this`numText, this`curTok, this`tokens
      ensures Valid()
      ensures var p := G.ParseExtern(old(tokens)); r == p.result && tokens == p.rest
    {
      var _ := GetNextToken();
      r := ParsePrototype();
    }

    /** `ParseTopLevelExpr` */
    method ParseTopLevelExpr() returns (r: Result<Function>)
      requires Valid()
      modifies this`pos, this`lastChar, this`identifierStr, this`numText, this`curTok, this`tokens
      ensures Valid()
      ensures var p := G.ParseTopLevel(binOpPrecedence, old(tokens)); r == p.result && tokens == p.rest
    {
      var e := ParseExpression();
      if e.Ok? {
        return Ok(Function(Proto("__anon__", []), e.value));
      }
      return Err(e.msg);
    }

    /** `HandleDefinition`: a parsed definition goes to the backend; after a
        parse error one token is skipped. */
    method HandleDefinition() returns (o: D.Outcome)
      requires Valid()
      modifies this`pos, this`lastChar, this`identifierStr, this`numText, this`curTok, this`tokens
      ensures Valid()
      ensures D.HandleDefinition(binOpPrecedence, old(tokens)) == D.Step([o], tokens)
    {
      var fn := ParseDefinition();
      if fn.Ok? {
        o := D.Defined(fn.value);
      } else {
        o := D.Skipped(fn.msg);
        var _ := GetNextToken();
      }
    }

    /** `HandleExtern` */
    method HandleExtern() returns (o: D.Outcome)
      requires Valid()
      modifies this`pos, this`lastChar, this`identifierStr, this`numText, this`curTok, this`tokens
      ensures Valid()
      ensures D.HandleExtern(old(tokens)) == D.Step([o], tokens)
    {
      var proto := ParseExtern();
      if proto.Ok? {
        o := D.Declared(proto.value);
      } else {
        o := D.Skipped(proto.msg);
        var _ := GetNextToken();
      }
    }

    /** `HandleTopLevelExpression` */
    method HandleTopLevelExpression() returns (o: D.Outcome)
      requires Valid()
      modifies this`pos, this`lastChar, this`identifierStr, this`numText, this`curTok, this`tokens
      ensures Valid()
      ensures D.HandleTopLevel(binOpPrecedence, old(tokens)) == D.Step([o], tokens)
    {
      var fn := ParseTopLevelExpr();
      if fn.Ok? {
        o := D.Evaluated(fn.value);
      } else {
        o := D.Skipped(fn.msg);
        var _ := GetNextToken();
      }
    }

    /** One pass of `MainLoop` on a current token other than `tok_eof`: the
        switch on `;`, `def`, `extern` and anything else. */
    method HandleForm() returns (emitted: seq<D.Outcome>)
      requires Valid() && curTok != TOK_EOF
      modifies this`pos, this`lastChar, this`identifierStr, this`numText, this`curTok, this`tokens
      ensures Valid()
      ensures D.MainStep(binOpPrecedence, old(tokens)) == D.Step(emitted, tokens)
    {
      if curTok == ';' as int {
        assert tokens[0] == D.Semicolon;
        var _ := GetNextToken();
        emitted := [];
      } else if curTok == TOK_DEF {
        var o := HandleDefinition();
        emitted := [o];
      } else if curTok == TOK_EXTERN {
        var o := HandleExtern();
        emitted := [o];
      } else {
        var o := HandleTopLevelExpression();
        emitted := [o];
      }
    }

    /** `MainLoop`: the forms handled, in order, until `tok_eof`. */
    method MainLoop() returns (log: seq<D.Outcome>)
      requires Valid()
      modifies this`pos, this`lastChar, this`identifierStr, this`numText, this`curTok, this`tokens
      ensures Valid() && curTok == TOK_EOF
      ensures log == D.Drive(binOpPrecedence, old(tokens))
    {
      ghost var goal := D.Drive(binOpPrecedence, tokens);
      log := [];
      while true
        invariant Valid()
        invariant log + D.Drive(binOpPrecedence, tokens) == goal
        decreases |tokens|
      {
        if curTok == TOK_EOF {
          assert log + [] == log;
          return;
        }
        ghost var log0, ts0 := log, tokens;
        var emitted := HandleForm();
        log := log + emitted;
        assert D.Drive(binOpPrecedence, ts0) == emitted + D.Drive(binOpPrecedence, tokens);
        G.AppendAssoc(log0, emitted, D.Drive(binOpPrecedence, tokens));
      }
    }
  }

  /** `main`, without the backend: install the operator table, read the
      first token, run the loop. */
  method RunFrontEnd(input: seq<byte>) returns (log: seq<D.Outcome>)
    ensures log == D.Drive(G.StandardPrecedence, L.Tokenize(input))
  {
    var parser := new Parser(input);
    parser.InstallOperators();
    var _ := parser.GetNextToken();
    ghost var table, ts := parser.binOpPrecedence, parser.tokens;
    assert table == G.StandardPrecedence && ts == L.Tokenize(input);
    log := parser.MainLoop();
    assert log == D.Drive(table, ts);
  }
}
