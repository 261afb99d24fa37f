/** The parser of ch04/toy.cpp as functions over the stream of tokens still to
    be read. The head of the stream is the current token `Curtok`; advancing
    (`getNextToken`) drops it, except that at `tok_eof` the lexer keeps
    returning `tok_eof`. Each routine returns its node, or the message it
    logged, together with the stream it leaves behind, so that both "which
    error is raised" and "how many tokens are consumed" are part of its value. */
module Grammar {
  import opened CType
  import opened Syntax

  /** A stream of tokens still to be read: it ends with `tok_eof`. */
  predicate WellFormed(ts: seq<Token>) {
    |ts| > 0 && ts[|ts| - 1] == TokEof
  }

  /** `r` is a stream left after reading from `ts`: no longer than `ts`. */
  predicate Within(r: seq<Token>, ts: seq<Token>) {
    WellFormed(r) && |r| <= |ts|
  }

  /** Concatenation is associative (stated once, for the solver). */
  lemma AppendAssoc<T>(a: seq<T>, b: seq<T>, c: seq<T>)
    ensures a + (b + c) == (a + b) + c
  {
  }

  /** `getNextToken` on the stream. */
  function Advance(ts: seq<Token>): (r: seq<Token>)
    requires WellFormed(ts)
    ensures WellFormed(r) && Within(r, ts)
    ensures ts[0] != TokEof ==> r == ts[1..]
    ensures ts[0] == TokEof ==> r == ts
  {
    if ts[0] == TokEof then ts else ts[1..]
  }

  /** The table `main` installs: `<` 10, `+` 20, `-` 20, `*` 40. */
  const StandardPrecedence: map<char, int> := map['<' := 10, '+' := 20, '-' := 20, '*' := 40]

  /** `GetTokenPrecedence` for a token: -1 unless the token is an ASCII
      character with an entry in the table. */
  function TokenPrecedence(table: map<char, int>, t: Token): (p: int)
    ensures !t.TokChar? ==> p == -1
    ensures p != -1 ==> t.TokChar? && IsAscii(t.c as int) && t.c as int as char in table
                         && p == table[t.c as int as char]
    ensures t.TokChar? && IsAscii(t.c as int) && t.c as int as char in table ==> p == table[t.c as int as char]
  {
    if !IsAscii(Code(t)) then -1
    else if Code(t) as char !in table then -1
    else table[Code(t) as char]
  }

  /** The punctuation tokens the grammar looks for. */
  const OpenParen := TokChar(40)
  const CloseParen := TokChar(41)
  const Comma := TokChar(44)

  /** A routine's result and the stream it leaves. */
  datatype Parsed<T> = Parsed(result: Result<T>, rest: seq<Token>)

  /** `ParseNumberExpr`: a number node from the current literal; one token consumed. */
  function ParseNumber(ts: seq<Token>): (p: Parsed<Expr>)
    requires WellFormed(ts) && ts[0].TokNumber?
    ensures p.result == Ok(NumberExpr(ts[0].text)) && p.rest == ts[1..]
  {
    Parsed(Ok(NumberExpr(ts[0].text)), Advance(ts))
  }

  /** `ParseParenExpr`: `(` expression `)`. */
  function ParseParen(table: map<char, int>, ts: seq<Token>): (p: Parsed<Expr>)
    requires WellFormed(ts) && ts[0] == OpenParen
    ensures Within(p.rest, ts) && |p.rest| < |ts|
    decreases |ts|, 1
  {
    var v := ParseExpr(table, Advance(ts));
    if v.result.Err? then v
    else if v.rest[0] != CloseParen then Parsed(Err("expected ')'"), v.rest)
    else Parsed(v.result, Advance(v.rest))
  }

  /** `ParseIdentifierExpr`: a variable, or a call when `(` follows the name. */
  function ParseIdentifier(table: map<char, int>, ts: seq<Token>): (p: Parsed<Expr>)
    requires WellFormed(ts) && ts[0].TokIdentifier?
    ensures Within(p.rest, ts) && |p.rest| < |ts|
    decreases |ts|, 1
  {
    var name := ts[0].name;
    var ts1 := Advance(ts);
    if ts1[0] != OpenParen then Parsed(Ok(VariableExpr(name)), ts1)
    else
      var ts2 := Advance(ts1);
      if ts2[0] == CloseParen then Parsed(Ok(CallExpr(name, [])), Advance(ts2))
      else
        var p := ParseArgs(table, name, ts2, []);
        p
  }

  /** The argument loop of `ParseIdentifierExpr`, entered with the arguments
      `args` already parsed and the stream at the next argument. */
  function ParseArgs(table: map<char, int>, callee: string, ts: seq<Token>, args: seq<Expr>): (p: Parsed<Expr>)
    requires WellFormed(ts)
    ensures Within(p.rest, ts)
    ensures p.result.Ok? ==> |p.rest| < |ts| && p.result.value.CallExpr? && p.result.value.callee == callee
    decreases |ts|, 5
  {
    var a := ParseExpr(table, ts);
    if a.result.Err? then Parsed(Err(a.result.msg), a.rest)
    else if a.rest[0] == CloseParen then
      Parsed(Ok(CallExpr(callee, args + [a.result.value])), Advance(a.rest))
    else if a.rest[0] != Comma then Parsed(Err("Expected ')' or ','"), a.rest)
    else
      var p := ParseArgs(table, callee, Advance(a.rest), args + [a.result.value]);
      p
  }

  /** `ParsePrimary`: dispatch on the current token. */
  function ParsePrimary(table: map<char, int>, ts: seq<Token>): (p: Parsed<Expr>)
    requires WellFormed(ts)
    ensures Within(p.rest, ts)
    ensures p.result.Ok? ==> |p.rest| < |ts|
    ensures |p.rest| == |ts| ==> p.rest == ts && p.result == Err("Unknown Token")
    ensures !ts[0].TokIdentifier? && !ts[0].TokNumber? && ts[0] != OpenParen ==> p == Parsed(Err("Unknown Token"), ts)
    decreases |ts|, 2
  {
    if ts[0].TokIdentifier? then ParseIdentifier(table, ts)
    else if ts[0].TokNumber? then ParseNumber(ts)
    else if ts[0] == OpenParen then ParseParen(table, ts)
    else Parsed(Err("Unknown Token"), ts)
  }

  /** `ParseExpression`: a primary, then the operators that follow it. */
  function ParseExpr(table: map<char, int>, ts: seq<Token>): (p: Parsed<Expr>)
    requires WellFormed(ts)
    ensures Within(p.rest, ts)
    ensures p.result.Ok? ==> |p.rest| < |ts|
    ensures |p.rest| == |ts| ==> p.rest == ts && p.result == Err("Unknown Token")
    decreases |ts|, 4
  {
    var l := ParsePrimary(table, ts);
    if l.result.Err? then l
    else
      var p := ParseBinOpRHS(table, 0, l.result.value, l.rest);
      p
  }

  /** `ParseBinOpRHS`: precedence climbing. The loop of the source is the tail
      call at the end; `lhs` is the left operand built so far. */
  function ParseBinOpRHS(table: map<char, int>, exprPrec: int, lhs: Expr, ts: seq<Token>): (p: Parsed<Expr>)
    requires WellFormed(ts) && exprPrec >= 0
    ensures Within(p.rest, ts)
    ensures TokenPrecedence(table, ts[0]) < exprPrec ==> p == Parsed(Ok(lhs), ts)
    ensures TokenPrecedence(table, ts[0]) >= exprPrec ==> |p.rest| < |ts|
    decreases |ts|, 3
  {
    var tokPrec := TokenPrecedence(table, ts[0]);
    if tokPrec < exprPrec then Parsed(Ok(lhs), ts)
    else
      var binOp := ts[0].c as int as char;
      var rhs := ParseOperand(table, tokPrec, Advance(ts));
      if rhs.result.Err? then rhs
      else
        var p := ParseBinOpRHS(table, exprPrec, BinaryExpr(binOp, lhs, rhs.result.value), rhs.rest);
        p
  }

  /** The right operand of an operator of precedence `tokPrec` in the loop of
      `ParseBinOpRHS`: a primary expression, which takes the following
      operators first if the next one binds more tightly. */
  function ParseOperand(table: map<char, int>, tokPrec: int, ts: seq<Token>): (p: Parsed<Expr>)
    requires WellFormed(ts) && tokPrec >= 0
    ensures Within(p.rest, ts)
    ensures p.result.Ok? ==> |p.rest| < |ts|
    decreases |ts|, 3
  {
    var r := ParsePrimary(table, ts);
    if r.result.Err? then r
    else if tokPrec < TokenPrecedence(table, r.rest[0]) then
      var p := ParseBinOpRHS(table, tokPrec + 1, r.result.value, r.rest);
      p
    else r
  }

  /** The parameter loop of `ParsePrototype`: the run of identifier tokens. */
  function ParseParams(ts: seq<Token>): (r: (seq<string>, seq<Token>))
    requires WellFormed(ts)
    ensures Within(r.1, ts) && !r.1[0].TokIdentifier?
    ensures |r.0| == |ts| - |r.1|
    decreases |ts|
  {
    if ts[0].TokIdentifier? then
      var r := ParseParams(Advance(ts));
      ([ts[0].name] + r.0, r.1)
    else ([], ts)
  }

  /** `ParsePrototype`: name `(` parameters `)`. */
  function ParsePrototype(ts: seq<Token>): (p: Parsed<Proto>)
    requires WellFormed(ts)
    ensures Within(p.rest, ts)
    ensures p.result.Ok? ==> |p.rest| < |ts|
  {
    if !ts[0].TokIdentifier? then Parsed(Err("Expected function name in prototype"), ts)
    else
      var fnName := ts[0].name;
      var ts1 := Advance(ts);
      if ts1[0] != OpenParen then Parsed(Err("Expected ( "), ts1)
      else
        var r := ParseParams(Advance(ts1));
        if r.1[0] != CloseParen then Parsed(Err("Expected )"), r.1)
        else Parsed(Ok(Proto(fnName, r.0)), Advance(r.1))
  }

  /** `ParseDefinition`: the `def` keyword, a prototype and a body. */
  function ParseDefinition(table: map<char, int>, ts: seq<Token>): (p: Parsed<Function>)
    requires WellFormed(ts)
    ensures Within(p.rest, ts)
    ensures ts[0] != TokEof ==> |p.rest| < |ts|
  {
    var pr := ParsePrototype(Advance(ts));
    if pr.result.Err? then Parsed(Err(pr.result.msg), pr.rest)
    else
      var e := ParseExpr(table, pr.rest);
      if e.result.Err? then Parsed(Err(e.result.msg), e.rest)
      else Parsed(Ok(Function(pr.result.value, e.result.value)), e.rest)
  }

  /** `ParseExtern`: the `extern` keyword and a prototype. */
  function ParseExtern(ts: seq<Token>): (p: Parsed<Proto>)
    requires WellFormed(ts)
    ensures Within(p.rest, ts)
    ensures ts[0] != TokEof ==> |p.rest| < |ts|
  {
    var pr := ParsePrototype(Advance(ts));
    pr
  }

  /** The prototype `ParseTopLevelExpr` gives a bare expression. */
  const AnonProto := Proto("__anon__", [])

  /** `ParseTopLevelExpr`: an expression wrapped as a function with no parameters. */
  function ParseTopLevel(table: map<char, int>, ts: seq<Token>): (p: Parsed<Function>)
    requires WellFormed(ts)
    ensures Within(p.rest, ts)
    ensures p.result.Ok? ==> |p.rest| < |ts| && p.result.value.proto == AnonProto
    ensures |p.rest| == |ts| ==> p.rest == ts
  {
    var e := ParseExpr(table, ts);
    if e.result.Ok? then Parsed(Ok(Function(AnonProto, e.result.value)), e.rest)
    else Parsed(Err(e.result.msg), e.rest)
  }
}
