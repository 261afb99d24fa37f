/** The parse-level behaviour of the driver loop of ch04/toy.cpp (`MainLoop`
    and the three `Handle*` routines): which top-level forms are parsed and
    handed to the backend, and how the loop resynchronises after a parse
    error. */
module Driver {
  import opened Syntax
  import opened Grammar

  /** The separator the loop skips between forms. */
  const Semicolon := TokChar(59)

  /** What one pass of the loop does with a top-level form. */
  datatype Outcome =
    | Defined(f: Function)    // a definition, handed to code generation
    | Declared(p: Proto)      // an extern prototype, handed to code generation
    | Evaluated(f: Function)  // a top-level expression, compiled and run
    | Skipped(msg: string)    // a parse error: the message is logged, one token skipped

  /** The forms one pass reports, and the stream it leaves. */
  datatype Step = Step(emitted: seq<Outcome>, rest: seq<Token>)

  /** `HandleDefinition` */
  function HandleDefinition(table: map<char, int>, ts: seq<Token>): (s: Step)
    requires WellFormed(ts)
    ensures Within(s.rest, ts) && |s.emitted| == 1
    ensures ts[0] != TokEof ==> |s.rest| < |ts|
    ensures var p := ParseDefinition(table, ts);
      && (p.result.Ok? ==> s.emitted == [Defined(p.result.value)] && s.rest == p.rest)
      && (p.result.Err? ==> s.emitted == [Skipped(p.result.msg)] && s.rest == Advance(p.rest))
  {
    var p := ParseDefinition(table, ts);
    if p.result.Ok? then Step([Defined(p.result.value)], p.rest)
    else Step([Skipped(p.result.msg)], Advance(p.rest))
  }

  /** `HandleExtern` */
  function HandleExtern(ts: seq<Token>): (s: Step)
    requires WellFormed(ts)
    ensures Within(s.rest, ts) && |s.emitted| == 1
    ensures ts[0] != TokEof ==> |s.rest| < |ts|
    ensures var p := ParseExtern(ts);
      && (p.result.Ok? ==> s.emitted == [Declared(p.result.value)] && s.rest == p.rest)
      && (p.result.Err? ==> s.emitted == [Skipped(p.result.msg)] && s.rest == Advance(p.rest))
  {
    var p := ParseExtern(ts);
    if p.result.Ok? then Step([Declared(p.result.value)], p.rest)
    else Step([Skipped(p.result.msg)], Advance(p.rest))
  }

  /** `HandleTopLevelExpression` */
  function HandleTopLevel(table: map<char, int>, ts: seq<Token>): (s: Step)
    requires WellFormed(ts)
    ensures Within(s.rest, ts) && |s.emitted| == 1
    ensures ts[0] != TokEof ==> |s.rest| < |ts|
    ensures var p := ParseTopLevel(table, ts);
      && (p.result.Ok? ==> s.emitted == [Evaluated(p.result.value)] && s.rest == p.rest)
      && (p.result.Err? ==> s.emitted == [Skipped(p.result.msg)] && s.rest == Advance(p.rest))
  {
    var p := ParseTopLevel(table, ts);
    if p.result.Ok? then Step([Evaluated(p.result.value)], p.rest)
    else Step([Skipped(p.result.msg)], Advance(p.rest))
  }

  /** One pass of `MainLoop` on a current token other than `tok_eof`. */
  function MainStep(table: map<char, int>, ts: seq<Token>): (s: Step)
    requires WellFormed(ts) && ts[0] != TokEof
    ensures Within(s.rest, ts) && |s.rest| < |ts|
    ensures |s.emitted| <= 1
  {
    if ts[0] == Semicolon then Step([], Advance(ts))
    else if ts[0] == TokDef then HandleDefinition(table, ts)
    else if ts[0] == TokExtern then HandleExtern(ts)
    else HandleTopLevel(table, ts)
  }

  /** `MainLoop`: passes until the current token is `tok_eof`; the forms it
      reports, in order. */
  function Drive(table: map<char, int>, ts: seq<Token>): (log: seq<Outcome>)
    requires WellFormed(ts)
    ensures |log| < |ts|
    decreases |ts|
  {
    if ts[0] == TokEof then []
    else
      var s := MainStep(table, ts);
      s.emitted + Drive(table, s.rest)
  }
}
