/** What the parser of ch04/toy.cpp promises. The central fact: for every
    expression tree that respects the operator table (a tighter operator is
    never above a looser one, and operators of equal precedence group to the
    left), parsing its token sequence gives back that tree. Binary operators
    therefore associate to the left and higher precedence binds tighter. The
    rest covers calls, prototypes, definitions, externs and the error each
    routine reports on malformed input. */
module GrammarFacts {
  import opened CType
  import opened Syntax
  import opened Grammar

  /** An operator of the table: an ASCII character with a non-negative
      precedence. */
  predicate IsOperator(table: map<char, int>, op: char) {
    IsAscii(op as int) && op in table && table[op] >= 0
  }

  /** The token of an operator character. */
  function OpToken(op: char): Token
    requires op as int < 256
  {
    TokChar(op as int as byte)
  }

  /** The table gives the punctuation the grammar relies on no precedence. */
  predicate Punctuation(table: map<char, int>) {
    && TokenPrecedence(table, OpenParen) < 0
    && TokenPrecedence(table, CloseParen) < 0
    && TokenPrecedence(table, Comma) < 0
  }

  /** A token that can follow a complete expression: no operator and no `(`. */
  predicate Ends(table: map<char, int>, t: Token) {
    TokenPrecedence(table, t) < 0 && t != OpenParen
  }

  /** An operand: a number or a variable. */
  predicate IsLeaf(e: Expr) {
    e.NumberExpr? || e.VariableExpr?
  }

  /** The token a leaf is read from. */
  function LeafToken(e: Expr): Token
    requires IsLeaf(e)
  {
    if e.NumberExpr? then TokNumber(e.text) else TokIdentifier(e.name)
  }

  /** A tree of leaves and operators of the table in which a tighter operator
      is never above a looser one, and an operator of the same precedence
      appears only on the left: the trees that precedence climbing builds. */
  predicate Canonical(table: map<char, int>, e: Expr) {
    match e
    case NumberExpr(_) => true
    case VariableExpr(_) => true
    case CallExpr(_, _) => false
    case BinaryExpr(op, l, r) =>
      && IsOperator(table, op) && Canonical(table, l) && Canonical(table, r)
      && (l.BinaryExpr? ==> table[l.op] >= table[op])
      && (r.BinaryExpr? ==> table[r.op] > table[op])
  }

  /** The leftmost leaf of a canonical tree: a number or a variable. */
  function Leftmost(table: map<char, int>, e: Expr): (l: Expr)
    requires Canonical(table, e)
    ensures IsLeaf(l)
  {
    if e.BinaryExpr? then Leftmost(table, e.lhs) else e
  }

  /** `e` with its leftmost leaf replaced by `l`. */
  function Graft(l: Expr, e: Expr): Expr {
    if e.BinaryExpr? then BinaryExpr(e.op, Graft(l, e.lhs), e.rhs) else l
  }

  /** The tokens of an expression: its leaves and operators in order. */
  function Flat(table: map<char, int>, e: Expr): seq<Token>
    requires Canonical(table, e)
    decreases e, 1
  {
    [LeafToken(Leftmost(table, e))] + Tail(table, e)
  }

  /** The tokens of an expression after its leftmost leaf. */
  function Tail(table: map<char, int>, e: Expr): seq<Token>
    requires Canonical(table, e)
    decreases e, 0
  {
    if e.BinaryExpr? then Tail(table, e.lhs) + [OpToken(e.op)] + Flat(table, e.rhs) else []
  }

  /** A leaf is canonical and is its own single token. */
  lemma LeafFlat(table: map<char, int>, e: Expr)
    requires IsLeaf(e)
    ensures Canonical(table, e) && Leftmost(table, e) == e
    ensures Tail(table, e) == [] && Flat(table, e) == [LeafToken(e)]
  {
  }

  /** `Flat` is the in-order sequence of leaves and operators. */
  lemma FlatBinary(table: map<char, int>, op: char, l: Expr, r: Expr)
    requires Canonical(table, BinaryExpr(op, l, r))
    ensures Flat(table, BinaryExpr(op, l, r)) == Flat(table, l) + [OpToken(op)] + Flat(table, r)
  {
    var e := BinaryExpr(op, l, r);
    var a := [LeafToken(Leftmost(table, l))];
    assert Flat(table, e) == a + (Tail(table, l) + [OpToken(op)] + Flat(table, r));
    AppendAssoc(a, Tail(table, l) + [OpToken(op)], Flat(table, r));
    AppendAssoc(a, Tail(table, l), [OpToken(op)]);
  }

  /** A tree's tokens followed by a stream, as its first leaf's token and the rest. */
  lemma FlatSplit(table: map<char, int>, e: Expr, rest: seq<Token>)
    requires Canonical(table, e) && WellFormed(rest)
    ensures WellFormed(Tail(table, e) + rest) && WellFormed(Flat(table, e) + rest)
    ensures Flat(table, e) + rest == [LeafToken(Leftmost(table, e))] + (Tail(table, e) + rest)
    ensures !e.BinaryExpr? ==> Tail(table, e) + rest == rest
  {
    AppendAssoc([LeafToken(Leftmost(table, e))], Tail(table, e), rest);
  }

  /** The tokens of an operator tree after its first leaf, followed by a
      stream: those of its left operand, then the operator, then its right
      operand and the stream. */
  lemma TailSplit(table: map<char, int>, e: Expr, rest: seq<Token>)
    requires Canonical(table, e) && e.BinaryExpr? && WellFormed(rest)
    ensures WellFormed(Flat(table, e.rhs) + rest)
    ensures Tail(table, e) + rest == Tail(table, e.lhs) + ([OpToken(e.op)] + (Flat(table, e.rhs) + rest))
  {
    var tl, op, fr := Tail(table, e.lhs), [OpToken(e.op)], Flat(table, e.rhs);
    AppendAssoc(tl + op, fr, rest);
    AppendAssoc(tl, op, fr + rest);
  }

  /** The precedence of an operator's token is its entry in the table. */
  lemma OperatorPrecedence(table: map<char, int>, op: char)
    requires IsOperator(table, op)
    ensures TokenPrecedence(table, OpToken(op)) == table[op]
    ensures OpToken(op).c as int as char == op
  {
    assert Code(OpToken(op)) == op as int;
  }

  /** A leaf grafted onto its own place gives the tree back. */
  lemma {:induction false} GraftLeftmost(table: map<char, int>, e: Expr)
    requires Canonical(table, e)
    ensures Graft(Leftmost(table, e), e) == e
  {
    if e.BinaryExpr? {
      GraftLeftmost(table, e.lhs);
    }
  }

  /** The tokens after the first leaf of an operator tree start with an
      operator at least as tight as the root's. */
  lemma {:induction false} TailStart(table: map<char, int>, e: Expr)
    requires Canonical(table, e) && e.BinaryExpr?
    ensures |Tail(table, e)| > 0 && TokenPrecedence(table, Tail(table, e)[0]) >= table[e.op]
  {
    OperatorPrecedence(table, e.op);
    if e.lhs.BinaryExpr? {
      TailStart(table, e.lhs);
    }
  }

  /** A leaf followed by a token other than `(` parses as that leaf. */
  lemma PrimaryLeaf(table: map<char, int>, e: Expr, ts: seq<Token>)
    requires IsLeaf(e) && WellFormed(ts) && ts[0] != OpenParen
    ensures WellFormed([LeafToken(e)] + ts)
    ensures ParsePrimary(table, [LeafToken(e)] + ts) == Parsed(Ok(e), ts)
  {
    assert ([LeafToken(e)] + ts)[1..] == ts;
  }

  /** An operand that starts with a leaf: the leaf alone, unless the next
      operator binds tighter than `tokPrec`, which then takes the leaf as its
      left operand. */
  lemma OperandOfLeaf(table: map<char, int>, tokPrec: int, leaf: Expr, ts: seq<Token>)
    requires IsLeaf(leaf) && WellFormed(ts) && ts[0] != OpenParen && tokPrec >= 0
    ensures WellFormed([LeafToken(leaf)] + ts)
    ensures ParseOperand(table, tokPrec, [LeafToken(leaf)] + ts)
         == if tokPrec < TokenPrecedence(table, ts[0]) then ParseBinOpRHS(table, tokPrec + 1, leaf, ts)
            else Parsed(Ok(leaf), ts)
  {
    PrimaryLeaf(table, leaf, ts);
  }

  /** One pass of the `ParseBinOpRHS` loop: an operator binding at least as
      tightly as `q`, and its right operand, are folded into `lhs`. */
  lemma BinOpStep(table: map<char, int>, q: int, lhs: Expr, op: char, operand: seq<Token>, rhs: Expr, rest: seq<Token>)
    requires IsOperator(table, op) && table[op] >= q >= 0 && WellFormed(operand)
    requires ParseOperand(table, table[op], operand) == Parsed(Ok(rhs), rest)
    ensures WellFormed([OpToken(op)] + operand) && WellFormed(rest)
    ensures ParseBinOpRHS(table, q, lhs, [OpToken(op)] + operand)
         == ParseBinOpRHS(table, q, BinaryExpr(op, lhs, rhs), rest)
  {
    OperatorPrecedence(table, op);
    assert Advance([OpToken(op)] + operand) == operand;
  }

  /** The loop of `ParseBinOpRHS` over the operators of a canonical tree:
      starting from any left operand `lhs`, it consumes the tree's tokens after
      its first leaf and builds the tree with `lhs` in place of that leaf,
      provided the token after the tree binds no tighter than the tree's root. */
  lemma {:induction false} ClimbTail(table: map<char, int>, q: int, lhs: Expr, e: Expr, rest: seq<Token>)
    requires Punctuation(table) && Canonical(table, e) && WellFormed(rest) && q >= 0
    requires rest[0] != OpenParen
    requires e.BinaryExpr? ==> table[e.op] >= q && TokenPrecedence(table, rest[0]) <= table[e.op]
    ensures WellFormed(Tail(table, e) + rest)
    ensures ParseBinOpRHS(table, q, lhs, Tail(table, e) + rest) == ParseBinOpRHS(table, q, Graft(lhs, e), rest)
    decreases e, 1
  {
    FlatSplit(table, e, rest);
    if e.BinaryExpr? {
      var op, l, r := e.op, e.lhs, e.rhs;
      var operand := Flat(table, r) + rest;
      TailSplit(table, e, rest);
      OperatorPrecedence(table, op);
      ClimbTail(table, q, lhs, l, [OpToken(op)] + operand);
      OperandOf(table, table[op], r, rest);
      BinOpStep(table, q, Graft(lhs, l), op, operand, r, rest);
    }
  }

  /** The right operand of an operator of precedence `tokPrec`: a canonical
      tree whose root binds tighter is read whole, provided the token after it
      binds no tighter than the operator. */
  lemma {:induction false} OperandOf(table: map<char, int>, tokPrec: int, e: Expr, rest: seq<Token>)
    requires Punctuation(table) && Canonical(table, e) && WellFormed(rest) && tokPrec >= 0
    requires rest[0] != OpenParen && TokenPrecedence(table, rest[0]) <= tokPrec
    requires e.BinaryExpr? ==> table[e.op] > tokPrec
    ensures WellFormed(Flat(table, e) + rest)
    ensures ParseOperand(table, tokPrec, Flat(table, e) + rest) == Parsed(Ok(e), rest)
    decreases e, 4
  {
    if e.BinaryExpr? {
      OperandTree(table, tokPrec, e, rest);
    } else {
      LeafFlat(table, e);
      OperandOfLeaf(table, tokPrec, e, rest);
    }
  }

  /** `OperandOf` for an operator tree: its first leaf is read, and since the
      operator after it binds tighter than `tokPrec`, the loop of
      `ParseBinOpRHS` reads the rest of the tree. */
  lemma {:induction false} OperandTree(table: map<char, int>, tokPrec: int, e: Expr, rest: seq<Token>)
    requires Punctuation(table) && Canonical(table, e) && WellFormed(rest) && tokPrec >= 0
    requires rest[0] != OpenParen && TokenPrecedence(table, rest[0]) <= tokPrec
    requires e.BinaryExpr? && table[e.op] > tokPrec
    ensures WellFormed(Flat(table, e) + rest)
    ensures ParseOperand(table, tokPrec, Flat(table, e) + rest) == Parsed(Ok(e), rest)
    decreases e, 3
  {
    ClimbWhole(table, tokPrec, e, rest);
    FlatSplit(table, e, rest);
    OperandOfLeaf(table, tokPrec, Leftmost(table, e), Tail(table, e) + rest);
  }

  /** After the first leaf of an operator tree whose root binds tighter than
      `tokPrec` comes an operator that does too, and the loop of
      `ParseBinOpRHS` at `tokPrec + 1` reads the rest of the tree. */
  lemma {:induction false} ClimbWhole(table: map<char, int>, tokPrec: int, e: Expr, rest: seq<Token>)
    requires Punctuation(table) && Canonical(table, e) && WellFormed(rest) && tokPrec >= 0
    requires rest[0] != OpenParen && TokenPrecedence(table, rest[0]) <= tokPrec
    requires e.BinaryExpr? && table[e.op] > tokPrec
    ensures WellFormed(Tail(table, e) + rest)
    ensures var ts := Tail(table, e) + rest;
      && ts[0] != OpenParen && tokPrec < TokenPrecedence(table, ts[0])
      && ParseBinOpRHS(table, tokPrec + 1, Leftmost(table, e), ts) == Parsed(Ok(e), rest)
    decreases e, 2
  {
    NextOperator(table, tokPrec, e, rest);
    ClimbTail(table, tokPrec + 1, Leftmost(table, e), e, rest);
    GraftLeftmost(table, e);
  }

  /** After the first leaf of an operator tree whose root binds tighter than
      `tokPrec` comes an operator that binds tighter too. */
  lemma NextOperator(table: map<char, int>, tokPrec: int, e: Expr, rest: seq<Token>)
    requires Punctuation(table) && Canonical(table, e) && WellFormed(rest)
    requires e.BinaryExpr? && table[e.op] > tokPrec
    ensures WellFormed(Tail(table, e) + rest)
    ensures var ts := Tail(table, e) + rest;
      ts[0] != OpenParen && tokPrec < TokenPrecedence(table, ts[0])
  {
    FlatSplit(table, e, rest);
    TailStart(table, e);
    assert (Tail(table, e) + rest)[0] == Tail(table, e)[0];
  }

  /** `ParseExpression` inverts `Flat` on canonical trees: the expression is
      read whole and the parser stops at the first token that is neither an
      operator nor `(`. */
  lemma ParseFlat(table: map<char, int>, e: Expr, rest: seq<Token>)
    requires Punctuation(table) && Canonical(table, e) && WellFormed(rest) && Ends(table, rest[0])
    ensures WellFormed(Flat(table, e) + rest)
    ensures ParseExpr(table, Flat(table, e) + rest) == Parsed(Ok(e), rest)
  {
    var ts := Tail(table, e) + rest;
    var leaf := Leftmost(table, e);
    FlatSplit(table, e, rest);
    if e.BinaryExpr? {
      TailStart(table, e);
      assert ts[0] == Tail(table, e)[0];
    }
    PrimaryLeaf(table, leaf, ts);
    ClimbTail(table, 0, leaf, e, rest);
    GraftLeftmost(table, e);
  }

  /** The tokens of `a o1 b o2 c` for leaves `a`, `b`, `c`, whichever way the
      tree groups them. */
  lemma FlatOfThree(table: map<char, int>, a: Expr, o1: char, b: Expr, o2: char, c: Expr, e: Expr)
    requires IsLeaf(a) && IsLeaf(b) && IsLeaf(c) && IsOperator(table, o1) && IsOperator(table, o2)
    requires e == BinaryExpr(o2, BinaryExpr(o1, a, b), c) || e == BinaryExpr(o1, a, BinaryExpr(o2, b, c))
    requires Canonical(table, e)
    ensures Flat(table, e) == [LeafToken(a), OpToken(o1), LeafToken(b), OpToken(o2), LeafToken(c)]
  {
    LeafFlat(table, a);
    LeafFlat(table, b);
    LeafFlat(table, c);
    FlatBinary(table, e.op, e.lhs, e.rhs);
    if e.lhs.BinaryExpr? {
      FlatBinary(table, o1, a, b);
    } else {
      FlatBinary(table, o2, b, c);
    }
  }

  /** Two operators of the same precedence group to the left:
      `a o1 b o2 c` is `(a o1 b) o2 c`. */
  lemma LeftAssociative(table: map<char, int>, a: Expr, o1: char, b: Expr, o2: char, c: Expr, rest: seq<Token>)
    requires Punctuation(table) && IsLeaf(a) && IsLeaf(b) && IsLeaf(c)
    requires IsOperator(table, o1) && IsOperator(table, o2) && table[o1] == table[o2]
    requires WellFormed(rest) && Ends(table, rest[0])
    ensures var ts := [LeafToken(a), OpToken(o1), LeafToken(b), OpToken(o2), LeafToken(c)] + rest;
      WellFormed(ts) && ParseExpr(table, ts) == Parsed(Ok(BinaryExpr(o2, BinaryExpr(o1, a, b), c)), rest)
  {
    var e := BinaryExpr(o2, BinaryExpr(o1, a, b), c);
    LeafFlat(table, a);
    LeafFlat(table, b);
    LeafFlat(table, c);
    FlatOfThree(table, a, o1, b, o2, c, e);
    ParseFlat(table, e, rest);
  }

  /** A tighter operator on the right binds first: `a o1 b o2 c` is
      `a o1 (b o2 c)` when `o2` has the higher precedence. */
  lemma TighterOnRight(table: map<char, int>, a: Expr, o1: char, b: Expr, o2: char, c: Expr, rest: seq<Token>)
    requires Punctuation(table) && IsLeaf(a) && IsLeaf(b) && IsLeaf(c)
    requires IsOperator(table, o1) && IsOperator(table, o2) && table[o1] < table[o2]
    requires WellFormed(rest) && Ends(table, rest[0])
    ensures var ts := [LeafToken(a), OpToken(o1), LeafToken(b), OpToken(o2), LeafToken(c)] + rest;
      WellFormed(ts) && ParseExpr(table, ts) == Parsed(Ok(BinaryExpr(o1, a, BinaryExpr(o2, b, c))), rest)
  {
    var e := BinaryExpr(o1, a, BinaryExpr(o2, b, c));
    LeafFlat(table, a);
    LeafFlat(table, b);
    LeafFlat(table, c);
    FlatOfThree(table, a, o1, b, o2, c, e);
    ParseFlat(table, e, rest);
  }

  /** A tighter operator on the left also binds first: `a o1 b o2 c` is
      `(a o1 b) o2 c` when `o1` has the higher precedence. */
  lemma TighterOnLeft(table: map<char, int>, a: Expr, o1: char, b: Expr, o2: char, c: Expr, rest: seq<Token>)
    requires Punctuation(table) && IsLeaf(a) && IsLeaf(b) && IsLeaf(c)
    requires IsOperator(table, o1) && IsOperator(table, o2) && table[o1] > table[o2]
    requires WellFormed(rest) && Ends(table, rest[0])
    ensures var ts := [LeafToken(a), OpToken(o1), LeafToken(b), OpToken(o2), LeafToken(c)] + rest;
      WellFormed(ts) && ParseExpr(table, ts) == Parsed(Ok(BinaryExpr(o2, BinaryExpr(o1, a, b), c)), rest)
  {
    var e := BinaryExpr(o2, BinaryExpr(o1, a, b), c);
    LeafFlat(table, a);
    LeafFlat(table, b);
    LeafFlat(table, c);
    FlatOfThree(table, a, o1, b, o2, c, e);
    ParseFlat(table, e, rest);
  }

  /** The table `main` installs leaves the grammar's punctuation alone, and
      `*` binds tighter than `+` and `-`, which bind tighter than `<`. */
  lemma StandardTable()
    ensures Punctuation(StandardPrecedence)
    ensures IsOperator(StandardPrecedence, '<') && IsOperator(StandardPrecedence, '+')
    ensures IsOperator(StandardPrecedence, '-') && IsOperator(StandardPrecedence, '*')
    ensures StandardPrecedence['<'] < StandardPrecedence['+'] == StandardPrecedence['-'] < StandardPrecedence['*']
    ensures Ends(StandardPrecedence, TokEof)
  {
    assert Code(OpenParen) as char == '(';
    assert Code(CloseParen) as char == ')';
    assert Code(Comma) as char == ',';
  }

  /** An operator with nothing after it: `ParsePrimary` reports the
      end-of-input token it finds instead of an operand. */
  lemma DanglingOperator(table: map<char, int>, a: Expr, op: char)
    requires Punctuation(table) && IsLeaf(a) && IsOperator(table, op)
    ensures ParseExpr(table, [LeafToken(a), OpToken(op), TokEof]) == Parsed(Err("Unknown Token"), [TokEof])
  {
    OperatorPrecedence(table, op);
    assert [LeafToken(a), OpToken(op), TokEof] == [LeafToken(a)] + [OpToken(op), TokEof];
    PrimaryLeaf(table, a, [OpToken(op), TokEof]);
    assert Advance([OpToken(op), TokEof]) == [TokEof];
    assert ParsePrimary(table, [TokEof]) == Parsed(Err("Unknown Token"), [TokEof]);
    assert ParseOperand(table, table[op], [TokEof]) == Parsed(Err("Unknown Token"), [TokEof]);
  }

  /** `ParseParenExpr` on `(` followed by `inner`. */
  lemma ParenStep(table: map<char, int>, inner: seq<Token>)
    requires WellFormed(inner)
    ensures WellFormed([OpenParen] + inner)
    ensures var v := ParseExpr(table, inner);
      ParsePrimary(table, [OpenParen] + inner)
      == if v.result.Err? then v
         else if v.rest[0] != CloseParen then Parsed(Err("expected ')'"), v.rest)
         else Parsed(v.result, Advance(v.rest))
  {
    assert Advance([OpenParen] + inner) == inner;
  }

  /** `(` expression `)` is the expression, and the `)` is consumed. */
  lemma ParenRoundTrip(table: map<char, int>, e: Expr, rest: seq<Token>)
    requires Punctuation(table) && Canonical(table, e) && WellFormed(rest)
    ensures var ts := [OpenParen] + Flat(table, e) + [CloseParen] + rest;
      WellFormed(ts) && ParsePrimary(table, ts) == Parsed(Ok(e), rest)
  {
    var inner := Flat(table, e) + ([CloseParen] + rest);
    ParseFlat(table, e, [CloseParen] + rest);
    ParenStep(table, inner);
    AppendAssoc([OpenParen] + Flat(table, e), [CloseParen], rest);
    AppendAssoc([OpenParen], Flat(table, e), [CloseParen] + rest);
    assert Advance([CloseParen] + rest) == rest;
  }

  /** A parenthesised expression as the first operand of an operator tree
      `t`: the parentheses override precedence, and the parsed tree is `t`
      with the parenthesised expression in place of its first leaf. */
  lemma ParenOperand(table: map<char, int>, e: Expr, t: Expr, rest: seq<Token>)
    requires Punctuation(table) && Canonical(table, e) && Canonical(table, t) && t.BinaryExpr?
    requires WellFormed(rest) && Ends(table, rest[0])
    ensures var ts := [OpenParen] + Flat(table, e) + [CloseParen] + (Tail(table, t) + rest);
      WellFormed(ts) && ParseExpr(table, ts) == Parsed(Ok(Graft(e, t)), rest)
  {
    FlatSplit(table, t, rest);
    ParenRoundTrip(table, e, Tail(table, t) + rest);
    ClimbTail(table, 0, e, t, rest);
  }

  /** `(1+2)*3` under the installed table is `(1+2)*3`, although `*` binds
      tighter than `+`. */
  lemma ParenthesesOverride()
    ensures var ts := [OpenParen, TokNumber("1"), Punct('+'), TokNumber("2"), CloseParen,
                       Punct('*'), TokNumber("3"), TokEof];
      WellFormed(ts) && ParseExpr(StandardPrecedence, ts)
      == Parsed(Ok(BinaryExpr('*', BinaryExpr('+', NumberExpr("1"), NumberExpr("2")), NumberExpr("3"))), [TokEof])
  {
    var table := StandardPrecedence;
    StandardTable();
    var one, two, three := NumberExpr("1"), NumberExpr("2"), NumberExpr("3");
    var e := BinaryExpr('+', one, two);
    var t := BinaryExpr('*', one, three);
    assert Flat(table, e) == [TokNumber("1"), Punct('+'), TokNumber("2")];
    assert Tail(table, t) == [Punct('*'), TokNumber("3")];
    ParenOperand(table, e, t, [TokEof]);
    assert Graft(e, t) == BinaryExpr('*', e, three);
    assert [OpenParen] + Flat(table, e) + [CloseParen] + (Tail(table, t) + [TokEof])
        == [OpenParen, TokNumber("1"), Punct('+'), TokNumber("2"), CloseParen, Punct('*'), TokNumber("3"), TokEof];
  }

  /** A parenthesis that is not closed: "expected ')'" is reported at the
      token found in its place. */
  lemma MissingCloseParen(table: map<char, int>, e: Expr, rest: seq<Token>)
    requires Punctuation(table) && Canonical(table, e) && WellFormed(rest)
    requires Ends(table, rest[0]) && rest[0] != CloseParen
    ensures var ts := [OpenParen] + Flat(table, e) + rest;
      WellFormed(ts) && ParsePrimary(table, ts) == Parsed(Err("expected ')'"), rest)
  {
    ParseFlat(table, e, rest);
    ParenStep(table, Flat(table, e) + rest);
    AppendAssoc([OpenParen], Flat(table, e), rest);
  }

  /** The tokens of a call's arguments and the closing `)`: the expressions
      separated by commas. */
  function ArgTokens(table: map<char, int>, args: seq<Expr>): seq<Token>
    requires forall i :: 0 <= i < |args| ==> Canonical(table, args[i])
  {
    if args == [] then [CloseParen]
    else if |args| == 1 then Flat(table, args[0]) + [CloseParen]
    else Flat(table, args[0]) + ([Comma] + ArgTokens(table, args[1..]))
  }

  /** One pass of the argument loop, after an argument that parsed. */
  lemma ArgsStep(table: map<char, int>, callee: string, done: seq<Expr>, ts: seq<Token>, a: Expr, after: seq<Token>)
    requires WellFormed(ts) && ParseExpr(table, ts) == Parsed(Ok(a), after)
    ensures WellFormed(after)
    ensures ParseArgs(table, callee, ts, done)
         == if after[0] == CloseParen then Parsed(Ok(CallExpr(callee, done + [a])), Advance(after))
            else if after[0] != Comma then Parsed(Err("Expected ')' or ','"), after)
            else ParseArgs(table, callee, Advance(after), done + [a])
  {
  }

  /** The last argument and the closing `)`: the call is complete. */
  lemma LastArg(table: map<char, int>, callee: string, done: seq<Expr>, a: Expr, rest: seq<Token>)
    requires Punctuation(table) && Canonical(table, a) && WellFormed(rest)
    ensures var ts := Flat(table, a) + [CloseParen] + rest;
      WellFormed(ts) && ParseArgs(table, callee, ts, done) == Parsed(Ok(CallExpr(callee, done + [a])), rest)
  {
    var after := [CloseParen] + rest;
    ParseFlat(table, a, after);
    AppendAssoc(Flat(table, a), [CloseParen], rest);
    ArgsStep(table, callee, done, Flat(table, a) + after, a, after);
    assert Advance(after) == rest;
  }

  /** An argument followed by `,`: the loop goes on with the next one. */
  lemma NextArg(table: map<char, int>, callee: string, done: seq<Expr>, a: Expr, more: seq<Token>)
    requires Punctuation(table) && Canonical(table, a) && WellFormed(more)
    ensures var ts := Flat(table, a) + ([Comma] + more);
      WellFormed(ts) && ParseArgs(table, callee, ts, done) == ParseArgs(table, callee, more, done + [a])
  {
    var after := [Comma] + more;
    ParseFlat(table, a, after);
    ArgsStep(table, callee, done, Flat(table, a) + after, a, after);
    assert Advance(after) == more;
  }

  /** The argument tokens of two or more arguments, followed by a stream. */
  lemma ArgTokensSplit(table: map<char, int>, args: seq<Expr>, rest: seq<Token>)
    requires |args| > 1 && forall i :: 0 <= i < |args| ==> Canonical(table, args[i])
    ensures ArgTokens(table, args) + rest
         == Flat(table, args[0]) + ([Comma] + (ArgTokens(table, args[1..]) + rest))
  {
    var f, t := Flat(table, args[0]), ArgTokens(table, args[1..]);
    AppendAssoc(f, [Comma] + t, rest);
    AppendAssoc([Comma], t, rest);
  }

  /** With at least one argument, the argument tokens start with the first
      argument's first leaf, not with `)`. */
  lemma ArgTokensStart(table: map<char, int>, args: seq<Expr>, rest: seq<Token>)
    requires |args| > 0 && forall i :: 0 <= i < |args| ==> Canonical(table, args[i])
    ensures (ArgTokens(table, args) + rest)[0] == LeafToken(Leftmost(table, args[0])) != CloseParen
  {
    var f := Flat(table, args[0]);
    assert f[0] == LeafToken(Leftmost(table, args[0]));
    if |args| == 1 {
      assert ArgTokens(table, args) == f + [CloseParen];
    } else {
      assert ArgTokens(table, args) == f + ([Comma] + ArgTokens(table, args[1..]));
    }
  }

  /** The argument loop reads every argument and the closing `)`. */
  lemma {:induction false} ArgsRoundTrip(table: map<char, int>, callee: string, done: seq<Expr>, args: seq<Expr>, rest: seq<Token>)
    requires Punctuation(table) && WellFormed(rest) && |args| > 0
    requires forall i :: 0 <= i < |args| ==> Canonical(table, args[i])
    ensures var ts := ArgTokens(table, args) + rest;
      WellFormed(ts) && ParseArgs(table, callee, ts, done) == Parsed(Ok(CallExpr(callee, done + args)), rest)
    decreases |args|
  {
    var a := args[0];
    if |args| == 1 {
      LastArg(table, callee, done, a, rest);
      assert args == [a];
    } else {
      var more := ArgTokens(table, args[1..]) + rest;
      ArgsRoundTrip(table, callee, done + [a], args[1..], rest);
      ArgTokensSplit(table, args, rest);
      NextArg(table, callee, done, a, more);
      AppendAssoc(done, [a], args[1..]);
      assert [a] + args[1..] == args;
    }
  }

  /** `ParseIdentifierExpr` on a name followed by `(` and `inner`. */
  lemma CallStep(table: map<char, int>, callee: string, inner: seq<Token>)
    requires WellFormed(inner)
    ensures WellFormed([TokIdentifier(callee), OpenParen] + inner)
    ensures ParsePrimary(table, [TokIdentifier(callee), OpenParen] + inner)
         == if inner[0] == CloseParen then Parsed(Ok(CallExpr(callee, [])), Advance(inner))
            else ParseArgs(table, callee, inner, [])
  {
    var ts := [TokIdentifier(callee), OpenParen] + inner;
    assert Advance(ts) == [OpenParen] + inner;
    assert Advance([OpenParen] + inner) == inner;
  }

  /** `f()`: a call with no arguments. */
  lemma EmptyCall(table: map<char, int>, callee: string, rest: seq<Token>)
    requires WellFormed(rest)
    ensures var ts := [TokIdentifier(callee), OpenParen] + ([CloseParen] + rest);
      WellFormed(ts) && ParsePrimary(table, ts) == Parsed(Ok(CallExpr(callee, [])), rest)
  {
    CallStep(table, callee, [CloseParen] + rest);
    assert Advance([CloseParen] + rest) == rest;
  }

  /** A call `f(a1, ..., an)` with any number of arguments, none included,
      parses as a call node; the number of arguments is not checked here. */
  lemma CallRoundTrip(table: map<char, int>, callee: string, args: seq<Expr>, rest: seq<Token>)
    requires Punctuation(table) && WellFormed(rest)
    requires forall i :: 0 <= i < |args| ==> Canonical(table, args[i])
    ensures var ts := [TokIdentifier(callee), OpenParen] + ArgTokens(table, args) + rest;
      WellFormed(ts) && ParsePrimary(table, ts) == Parsed(Ok(CallExpr(callee, args)), rest)
  {
    var inner := ArgTokens(table, args) + rest;
    AppendAssoc([TokIdentifier(callee), OpenParen], ArgTokens(table, args), rest);
    if args == [] {
      EmptyCall(table, callee, rest);
    } else {
      CallStep(table, callee, inner);
      ArgsRoundTrip(table, callee, [], args, rest);
      assert [] + args == args;
      ArgTokensStart(table, args, rest);
    }
  }

  /** An argument followed by something other than `,` or `)`: the loop
      reports "Expected ')' or ','" at that token. */
  lemma BadArgumentSeparator(table: map<char, int>, callee: string, done: seq<Expr>, a: Expr, rest: seq<Token>)
    requires Punctuation(table) && Canonical(table, a) && WellFormed(rest)
    requires Ends(table, rest[0]) && rest[0] != CloseParen && rest[0] != Comma
    ensures WellFormed(Flat(table, a) + rest)
    ensures ParseArgs(table, callee, Flat(table, a) + rest, done) == Parsed(Err("Expected ')' or ','"), rest)
  {
    ParseFlat(table, a, rest);
    ArgsStep(table, callee, done, Flat(table, a) + rest, a, rest);
  }

  /** A run of parameter names. */
  function Idents(names: seq<string>): seq<Token> {
    if names == [] then [] else [TokIdentifier(names[0])] + Idents(names[1..])
  }

  /** The parameter loop reads exactly the run of identifiers at the front of
      the stream: what it returns is that run and the stream after it. */
  lemma {:induction false} ParamsSplit(ts: seq<Token>)
    requires WellFormed(ts)
    ensures ts == Idents(ParseParams(ts).0) + ParseParams(ts).1
    decreases |ts|
  {
    if ts[0].TokIdentifier? {
      var n := ts[0].name;
      var r := ParseParams(ts[1..]);
      assert ts == [TokIdentifier(n)] + ts[1..];
      ParamsStep(n, ts[1..]);
      ParamsSplit(ts[1..]);
      assert ts[1..] == Idents(r.0) + r.1;
      assert Idents([n] + r.0) == [TokIdentifier(n)] + Idents(r.0) by {
        assert ([n] + r.0)[1..] == r.0;
      }
      calc {
        Idents(ParseParams(ts).0) + ParseParams(ts).1;
        Idents([n] + r.0) + r.1;
        [TokIdentifier(n)] + Idents(r.0) + r.1;
        { AppendAssoc([TokIdentifier(n)], Idents(r.0), r.1); }
        [TokIdentifier(n)] + (Idents(r.0) + r.1);
        [TokIdentifier(n)] + ts[1..];
        { assert ts[0] == TokIdentifier(n); }
        ts;
      }
    }
  }

  /** One pass of the parameter loop. */
  lemma ParamsStep(name: string, more: seq<Token>)
    requires WellFormed(more)
    ensures WellFormed([TokIdentifier(name)] + more)
    ensures ParseParams([TokIdentifier(name)] + more) == ([name] + ParseParams(more).0, ParseParams(more).1)
  {
    assert ([TokIdentifier(name)] + more)[1..] == more;
  }

  /** Reading the tokens of a parameter list gives back the names. */
  lemma {:induction false} ParamsRoundTrip(names: seq<string>, rest: seq<Token>)
    requires WellFormed(rest) && !rest[0].TokIdentifier?
    ensures WellFormed(Idents(names) + rest)
    ensures ParseParams(Idents(names) + rest) == (names, rest)
    decreases |names|
  {
    if names == [] {
      assert Idents(names) + rest == rest;
    } else {
      var more := Idents(names[1..]) + rest;
      ParamsRoundTrip(names[1..], rest);
      IdentsCons(names, rest);
      ParamsStep(names[0], more);
    }
  }

  /** The tokens of a non-empty parameter list followed by a stream: the
      first name's token, then the others' and the stream. */
  lemma IdentsCons(names: seq<string>, rest: seq<Token>)
    requires names != []
    ensures Idents(names) + rest == [TokIdentifier(names[0])] + (Idents(names[1..]) + rest)
    ensures names == [names[0]] + names[1..]
  {
    AppendAssoc([TokIdentifier(names[0])], Idents(names[1..]), rest);
  }

  /** The tokens of a prototype: name `(` parameters `)`. */
  function ProtoTokens(p: Proto): seq<Token> {
    [TokIdentifier(p.name), OpenParen] + (Idents(p.params) + [CloseParen])
  }

  /** `ParsePrototype` on a name followed by `(` and `inner`. */
  lemma PrototypeStep(name: string, inner: seq<Token>)
    requires WellFormed(inner)
    ensures WellFormed([TokIdentifier(name), OpenParen] + inner)
    ensures var r := ParseParams(inner);
      ParsePrototype([TokIdentifier(name), OpenParen] + inner)
      == if r.1[0] != CloseParen then Parsed(Err("Expected )"), r.1)
         else Parsed(Ok(Proto(name, r.0)), Advance(r.1))
  {
    var ts := [TokIdentifier(name), OpenParen] + inner;
    assert Advance(ts) == [OpenParen] + inner;
    assert Advance([OpenParen] + inner) == inner;
  }

  /** `ParsePrototype` inverts `ProtoTokens`. */
  lemma PrototypeRoundTrip(p: Proto, rest: seq<Token>)
    requires WellFormed(rest)
    ensures WellFormed(ProtoTokens(p) + rest)
    ensures ParsePrototype(ProtoTokens(p) + rest) == Parsed(Ok(p), rest)
  {
    var inner := Idents(p.params) + ([CloseParen] + rest);
    ParamsRoundTrip(p.params, [CloseParen] + rest);
    AppendAssoc(Idents(p.params), [CloseParen], rest);
    AppendAssoc([TokIdentifier(p.name), OpenParen], Idents(p.params) + [CloseParen], rest);
    PrototypeStep(p.name, inner);
    assert Advance([CloseParen] + rest) == rest;
  }

  /** A prototype must start with a name; nothing is consumed otherwise. */
  lemma PrototypeWithoutName(ts: seq<Token>)
    requires WellFormed(ts) && !ts[0].TokIdentifier?
    ensures ParsePrototype(ts) == Parsed(Err("Expected function name in prototype"), ts)
  {
  }

  /** The name must be followed by `(`; the error is reported at the token
      after the name. */
  lemma PrototypeWithoutOpenParen(name: string, rest: seq<Token>)
    requires WellFormed(rest) && rest[0] != OpenParen
    ensures ParsePrototype([TokIdentifier(name)] + rest) == Parsed(Err("Expected ( "), rest)
  {
    assert ([TokIdentifier(name)] + rest)[1..] == rest;
  }

  /** The parameters must be closed by `)`; the error is reported at the
      first token after them. */
  lemma PrototypeWithoutCloseParen(name: string, params: seq<string>, rest: seq<Token>)
    requires WellFormed(rest) && !rest[0].TokIdentifier? && rest[0] != CloseParen
    ensures var ts := [TokIdentifier(name), OpenParen] + (Idents(params) + rest);
      WellFormed(ts) && ParsePrototype(ts) == Parsed(Err("Expected )"), rest)
  {
    ParamsRoundTrip(params, rest);
    PrototypeStep(name, Idents(params) + rest);
  }

  /** `def` prototype body: a function with that prototype and body. */
  lemma DefinitionRoundTrip(table: map<char, int>, p: Proto, body: Expr, rest: seq<Token>)
    requires Punctuation(table) && Canonical(table, body) && WellFormed(rest) && Ends(table, rest[0])
    ensures var ts := [TokDef] + (ProtoTokens(p) + (Flat(table, body) + rest));
      WellFormed(ts) && ParseDefinition(table, ts) == Parsed(Ok(Function(p, body)), rest)
  {
    var ts := [TokDef] + (ProtoTokens(p) + (Flat(table, body) + rest));
    ParseFlat(table, body, rest);
    PrototypeRoundTrip(p, Flat(table, body) + rest);
    assert Advance(ts) == ProtoTokens(p) + (Flat(table, body) + rest);
  }

  /** `extern` prototype: that prototype. */
  lemma ExternRoundTrip(p: Proto, rest: seq<Token>)
    requires WellFormed(rest)
    ensures var ts := [TokExtern] + (ProtoTokens(p) + rest);
      WellFormed(ts) && ParseExtern(ts) == Parsed(Ok(p), rest)
  {
    PrototypeRoundTrip(p, rest);
    assert Advance([TokExtern] + (ProtoTokens(p) + rest)) == ProtoTokens(p) + rest;
  }

  /** A bare expression becomes the body of a function with the anonymous
      prototype. */
  lemma TopLevelRoundTrip(table: map<char, int>, e: Expr, rest: seq<Token>)
    requires Punctuation(table) && Canonical(table, e) && WellFormed(rest) && Ends(table, rest[0])
    ensures WellFormed(Flat(table, e) + rest)
    ensures ParseTopLevel(table, Flat(table, e) + rest) == Parsed(Ok(Function(AnonProto, e)), rest)
  {
    ParseFlat(table, e, rest);
  }
}
