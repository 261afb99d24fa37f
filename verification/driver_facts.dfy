/** Properties of the driver loop: what `MainLoop` reports for a program
    built from well-formed top-level forms, and how it resynchronises after
    a parse error by skipping exactly one token. */
module DriverFacts {
  import opened CType
  import opened Syntax
  import opened Grammar
  import opened GrammarFacts
  import opened Driver

  /** The table gives `;` no precedence, so it ends an expression. */
  predicate Separates(table: map<char, int>) {
    TokenPrecedence(table, Semicolon) < 0
  }

  /** A form that can be written out and read back: a definition or a
      top-level expression whose body is a canonical tree (a top-level
      expression under the anonymous prototype), or any extern prototype. */
  predicate Renderable(table: map<char, int>, o: Outcome) {
    match o
    case Defined(f) => Canonical(table, f.body)
    case Declared(_) => true
    case Evaluated(f) => f.proto == AnonProto && Canonical(table, f.body)
    case Skipped(_) => false
  }

  /** Every form of the list is renderable. */
  predicate AllRenderable(table: map<char, int>, os: seq<Outcome>) {
    os == [] || (Renderable(table, os[0]) && AllRenderable(table, os[1..]))
  }

  /** The tokens of a form, followed by the stream `rest`. */
  function FormTokens(table: map<char, int>, o: Outcome, rest: seq<Token>): (ts: seq<Token>)
    requires Renderable(table, o)
    ensures WellFormed(rest) ==> WellFormed(ts)
  {
    match o
    case Defined(f) => [TokDef] + (ProtoTokens(f.proto) + (Flat(table, f.body) + rest))
    case Declared(p) => [TokExtern] + (ProtoTokens(p) + rest)
    case Evaluated(f) => Flat(table, f.body) + rest
  }

  /** A program: each form followed by `;`, then the end of the input. */
  function Program(table: map<char, int>, os: seq<Outcome>): (ts: seq<Token>)
    requires AllRenderable(table, os)
    ensures WellFormed(ts)
  {
    if os == [] then [TokEof]
    else FormTokens(table, os[0], [Semicolon] + Program(table, os[1..]))
  }

  /** The table `main` installs gives `;` no precedence. */
  lemma StandardSeparates()
    ensures Separates(StandardPrecedence) && Punctuation(StandardPrecedence)
  {
    StandardTable();
    assert Code(Semicolon) as char == ';';
  }

  /** The loop stops at `tok_eof`, and a `;` is consumed without a report. */
  lemma SeparatorSkipped(table: map<char, int>, ts: seq<Token>)
    requires WellFormed(ts)
    ensures Drive(table, [TokEof]) == []
    ensures WellFormed([Semicolon] + ts) && Drive(table, [Semicolon] + ts) == Drive(table, ts)
  {
    assert Advance([Semicolon] + ts) == ts;
  }

  /** A character token that is neither `;` nor `(` cannot start an
      expression: it is reported as "Unknown Token" and the loop resumes at
      the very next token. */
  lemma StrayToken(table: map<char, int>, c: byte, ts: seq<Token>)
    requires WellFormed(ts) && c != 59 && c != 40
    ensures WellFormed([TokChar(c)] + ts)
    ensures Drive(table, [TokChar(c)] + ts) == [Skipped("Unknown Token")] + Drive(table, ts)
  {
    var s := [TokChar(c)] + ts;
    assert ParsePrimary(table, s) == Parsed(Err("Unknown Token"), s);
    assert MainStep(table, s) == Step([Skipped("Unknown Token")], ts);
  }

  /** `def` must be followed by a name: the token found instead is the one
      token skipped, and the loop resumes right after it. */
  lemma DefinitionWithoutName(table: map<char, int>, t: Token, ts: seq<Token>)
    requires WellFormed(ts) && t != TokEof && !t.TokIdentifier?
    ensures WellFormed([TokDef, t] + ts)
    ensures Drive(table, [TokDef, t] + ts)
         == [Skipped("Expected function name in prototype")] + Drive(table, ts)
  {
    var s := [TokDef, t] + ts;
    assert Advance(s) == [t] + ts;
    PrototypeWithoutName([t] + ts);
    assert Advance([t] + ts) == ts;
    assert MainStep(table, s) == Step([Skipped("Expected function name in prototype")], ts);
  }

  /** The same for `extern`. */
  lemma ExternWithoutName(table: map<char, int>, t: Token, ts: seq<Token>)
    requires WellFormed(ts) && t != TokEof && !t.TokIdentifier?
    ensures WellFormed([TokExtern, t] + ts)
    ensures Drive(table, [TokExtern, t] + ts)
         == [Skipped("Expected function name in prototype")] + Drive(table, ts)
  {
    var s := [TokExtern, t] + ts;
    assert Advance(s) == [t] + ts;
    PrototypeWithoutName([t] + ts);
    assert Advance([t] + ts) == ts;
    assert MainStep(table, s) == Step([Skipped("Expected function name in prototype")], ts);
  }

  /** Any failed `def`: its message is reported, the one token where the
      parse stopped is skipped, and the loop resumes right after it. */
  lemma DefinitionFails(table: map<char, int>, ts: seq<Token>)
    requires WellFormed(ts) && ts[0] == TokDef && ParseDefinition(table, ts).result.Err?
    ensures var p := ParseDefinition(table, ts);
      Drive(table, ts) == [Skipped(p.result.msg)] + Drive(table, Advance(p.rest))
  {
  }

  /** Any failed `extern`: its message is reported and one token skipped. */
  lemma ExternFails(table: map<char, int>, ts: seq<Token>)
    requires WellFormed(ts) && ts[0] == TokExtern && ParseExtern(ts).result.Err?
    ensures var p := ParseExtern(ts);
      Drive(table, ts) == [Skipped(p.result.msg)] + Drive(table, Advance(p.rest))
  {
  }

  /** Any failed top-level expression (a form that starts with neither `;`,
      `def`, `extern` nor `tok_eof`): its message is reported and one token
      skipped. */
  lemma TopLevelFails(table: map<char, int>, ts: seq<Token>)
    requires WellFormed(ts) && ts[0] != TokEof && ts[0] != TokDef && ts[0] != TokExtern && ts[0] != Semicolon
    requires ParseTopLevel(table, ts).result.Err?
    ensures var p := ParseTopLevel(table, ts);
      Drive(table, ts) == [Skipped(p.result.msg)] + Drive(table, Advance(p.rest))
  {
  }

  /** `def 1;`: the prototype error is reported at `1`, which is skipped, and
      the `;` after it is consumed as a separator. */
  lemma DefinitionOfNumber()
    ensures Drive(StandardPrecedence, [TokDef, TokNumber("1"), Semicolon, TokEof])
         == [Skipped("Expected function name in prototype")]
  {
    var tail := [Semicolon] + [TokEof];
    SeparatorSkipped(StandardPrecedence, [TokEof]);
    DefinitionWithoutName(StandardPrecedence, TokNumber("1"), tail);
    assert [TokDef, TokNumber("1")] + tail == [TokDef, TokNumber("1"), Semicolon, TokEof];
  }

  /** `1 + ;`: the missing operand is reported at `;`, and that `;` is the
      token skipped. */
  lemma DanglingBeforeSeparator()
    ensures Drive(StandardPrecedence, [TokNumber("1"), Punct('+'), Semicolon, TokEof])
         == [Skipped("Unknown Token")]
  {
    var table := StandardPrecedence;
    var ts := [TokNumber("1"), Punct('+'), Semicolon, TokEof];
    StandardSeparates();
    assert Code(Punct('+')) as char == '+';
    assert TokenPrecedence(table, Punct('+')) == 20;
    assert ParsePrimary(table, ts) == Parsed(Ok(NumberExpr("1")), ts[1..]);
    assert ParsePrimary(table, ts[2..]) == Parsed(Err("Unknown Token"), ts[2..]);
    assert ParseOperand(table, 20, ts[2..]) == Parsed(Err("Unknown Token"), ts[2..]);
    assert ParseBinOpRHS(table, 0, NumberExpr("1"), ts[1..]) == Parsed(Err("Unknown Token"), ts[2..]);
    assert MainStep(table, ts) == Step([Skipped("Unknown Token")], [TokEof]);
  }

  /** One pass on a definition's tokens reports that definition. */
  lemma DefinedStep(table: map<char, int>, f: Function, after: seq<Token>)
    requires Punctuation(table) && Canonical(table, f.body) && WellFormed(after) && Ends(table, after[0])
    ensures var ts := FormTokens(table, Defined(f), after);
      WellFormed(ts) && ts[0] != TokEof && MainStep(table, ts) == Step([Defined(f)], after)
  {
    var ts := FormTokens(table, Defined(f), after);
    assert ts == [TokDef] + (ProtoTokens(f.proto) + (Flat(table, f.body) + after));
    DefinitionRoundTrip(table, f.proto, f.body, after);
    assert HandleDefinition(table, ts) == Step([Defined(f)], after);
  }

  /** One pass on an extern's tokens reports that prototype. */
  lemma DeclaredStep(table: map<char, int>, p: Proto, after: seq<Token>)
    requires WellFormed(after)
    ensures var ts := FormTokens(table, Declared(p), after);
      WellFormed(ts) && ts[0] != TokEof && MainStep(table, ts) == Step([Declared(p)], after)
  {
    var ts := FormTokens(table, Declared(p), after);
    assert ts == [TokExtern] + (ProtoTokens(p) + after);
    ExternRoundTrip(p, after);
    assert HandleExtern(ts) == Step([Declared(p)], after);
  }

  /** One pass on a bare expression's tokens reports it as evaluated: its
      first token is a number or a name, so neither `;`, `def` nor `extern`. */
  lemma EvaluatedStep(table: map<char, int>, f: Function, after: seq<Token>)
    requires Punctuation(table) && f.proto == AnonProto && Canonical(table, f.body)
    requires WellFormed(after) && Ends(table, after[0])
    ensures var ts := FormTokens(table, Evaluated(f), after);
      WellFormed(ts) && ts[0] != TokEof && MainStep(table, ts) == Step([Evaluated(f)], after)
  {
    ExpressionStart(table, f.body, after);
    TopLevelRoundTrip(table, f.body, after);
    assert FormTokens(table, Evaluated(f), after) == Flat(table, f.body) + after;
  }

  /** The tokens of a canonical tree start with a name or a number. */
  lemma ExpressionStart(table: map<char, int>, e: Expr, after: seq<Token>)
    requires Canonical(table, e) && WellFormed(after)
    ensures WellFormed(Flat(table, e) + after)
    ensures var t := (Flat(table, e) + after)[0]; t.TokIdentifier? || t.TokNumber?
  {
    FlatSplit(table, e, after);
  }

  /** A well-formed form followed by `;` is reported as itself, and the loop
      resumes after the `;`. */
  lemma FormStep(table: map<char, int>, o: Outcome, rest: seq<Token>)
    requires Punctuation(table) && Separates(table) && Renderable(table, o) && WellFormed(rest)
    ensures Drive(table, FormTokens(table, o, [Semicolon] + rest)) == [o] + Drive(table, rest)
  {
    var after := [Semicolon] + rest;
    assert Ends(table, after[0]);
    match o {
      case Defined(f) => DefinedStep(table, f, after);
      case Declared(p) => DeclaredStep(table, p, after);
      case Evaluated(f) => EvaluatedStep(table, f, after);
    }
    SeparatorSkipped(table, rest);
  }

  /** The first form of a program is reported, and the loop goes on with
      the rest of the program. */
  lemma ProgramStep(table: map<char, int>, os: seq<Outcome>)
    requires Punctuation(table) && Separates(table) && os != []
    requires AllRenderable(table, os)
    ensures Drive(table, Program(table, os)) == [os[0]] + Drive(table, Program(table, os[1..]))
  {
    FormStep(table, os[0], Program(table, os[1..]));
  }

  /** The driver reads a program back as the forms it was built from, in
      order. */
  lemma {:induction false} ProgramRoundTrip(table: map<char, int>, os: seq<Outcome>)
    requires Punctuation(table) && Separates(table)
    requires AllRenderable(table, os)
    ensures Drive(table, Program(table, os)) == os
  {
    if os != [] {
      ProgramStep(table, os);
      ProgramRoundTrip(table, os[1..]);
      assert os == [os[0]] + os[1..];
    }
  }

  /** A stray character before a program costs one report and nothing else:
      every form after it is still read. */
  lemma RecoveryBeforeProgram(table: map<char, int>, c: byte, os: seq<Outcome>)
    requires Punctuation(table) && Separates(table) && c != 59 && c != 40
    requires AllRenderable(table, os)
    ensures Drive(table, [TokChar(c)] + Program(table, os)) == [Skipped("Unknown Token")] + os
  {
    StrayToken(table, c, Program(table, os));
    ProgramRoundTrip(table, os);
  }
}
