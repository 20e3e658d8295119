/**
 * The `InteractiveExample` component each topic page defines: an editable
 * snippet, a run button whose `runCode` rewrites the snippet's console calls
 * into local interceptors, evaluates it, and turns the intercepted calls or
 * the failure into the text shown under the editor.
 *
 * Evaluation itself is a JavaScript engine and is not modelled: a run is
 * given an `engine`, a function from the rewritten text to the abstract
 * `Outcome` of evaluating it.
 */
module Sandbox {
  import opened Wrappers
  import opened Strings
  import opened Json

  /** The calls a page's copy intercepts: `console.log` only, or also `console.error`. */
  datatype Interceptors = LogOnly | LogAndError

  const ConsoleLog := "console.log"
  const ConsoleLogBinding := "consoleLog"
  const ConsoleError := "console.error"
  const ConsoleErrorBinding := "consoleError"

  /** The tag a failure's message (and a `consoleError` line) starts with. */
  const ErrorTag := "Error: "

  /** One intercepted call, with its argument values. */
  datatype Call = Log(args: seq<Value>) | LogError(args: seq<Value>)

  /**
   * How evaluation of the snippet ended after its synchronous calls: a
   * normal return, a throw of a value with a `message` (for a value without
   * one, the message is "undefined"), or a throw of `null` or `undefined`
   * itself, which has no `message` to read.
   */
  datatype End = Returned | Threw(message: string) | ThrewNullish(isNull: bool)

  /**
   * What evaluating the rewritten snippet does: it fails to compile, or it
   * runs, making `calls` in order and then returning or throwing; `deferred`
   * are the calls promise and timer callbacks make after the run is over.
   */
  datatype Outcome =
    | CompileError(message: string)
    | Ran(calls: seq<Call>, end: End, deferred: seq<Call>)

  /**
   * The snippet with its console calls redirected to the interceptors: no
   * intercepted call form is left in the text.
   */
  function Rewrite(interceptors: Interceptors, code: string): (r: string)
    ensures Free(r, ConsoleLog)
    ensures interceptors == LogAndError ==> Free(r, ConsoleError)
  {
    RewritesIndependent();
    var logged := ReplaceAll(code, ConsoleLog, ConsoleLogBinding);
    ReplaceAllLeavesNone(code, ConsoleLog, ConsoleLogBinding);
    match interceptors
    case LogOnly => logged
    case LogAndError =>
      ReplaceAllLeavesNone(logged, ConsoleError, ConsoleErrorBinding);
      ReplacementsCommute(code, ConsoleLog, ConsoleLogBinding, ConsoleError, ConsoleErrorBinding);
      ReplaceAllLeavesNone(ReplaceAll(code, ConsoleError, ConsoleErrorBinding), ConsoleLog, ConsoleLogBinding);
      ReplaceAll(logged, ConsoleError, ConsoleErrorBinding)
  }

  /**
   * One argument as `Array.prototype.join` writes `JSON.stringify(arg)`:
   * nothing becomes "", and the text never holds a line break.
   */
  function ArgText(v: Value): (t: string)
    ensures Printable(t)
  {
    StringifyPrintable(v);
    Stringify(v).GetOr("")
  }

  /** The arguments serialised and joined by one space, on one line. */
  function ArgsText(args: seq<Value>): (t: string)
    ensures Printable(t)
  {
    var texts := seq(|args|, i requires 0 <= i < |args| => ArgText(args[i]));
    JoinPrintable(texts, " ");
    Join(texts, " ")
  }

  /** The line an intercepted call pushes onto the output buffer: never a line break in it. */
  function Line(call: Call): (line: string)
    ensures Printable(line)
  {
    match call
    case Log(args) => ArgsText(args)
    case LogError(args) => ErrorTag + ArgsText(args)
  }

  function Lines(calls: seq<Call>): seq<string> {
    seq(|calls|, i requires 0 <= i < |calls| => Line(calls[i]))
  }

  /**
   * The text a run is meant to show: the buffer joined by line breaks, or
   * the tagged failure, a thrown `null` or `undefined` named as such. It is
   * empty, and so hidden, exactly after a normal return with no calls or
   * with one call whose line is empty: a failure always shows.
   */
  function ResultText(outcome: Outcome): (text: string)
    ensures text == "" <==>
      && outcome.Ran? && outcome.end.Returned?
      && (outcome.calls == [] || (|outcome.calls| == 1 && Line(outcome.calls[0]) == ""))
  {
    match outcome
    case CompileError(message) => ErrorTag + message
    case Ran(_, Threw(message), _) => ErrorTag + message
    case Ran(_, ThrewNullish(isNull), _) => ErrorTag + (if isNull then "null" else "undefined")
    case Ran(calls, Returned, _) =>
      JoinIsEmpty(Lines(calls), "\n");
      Join(Lines(calls), "\n")
  }

  /**
   * What `runCode` hands to `setResult`. For a thrown `null` or `undefined`
   * the catch block's own `error.message` throws a `TypeError`, which leaves
   * `runCode` before `setResult` is called: nothing is settled.
   */
  function Settled(outcome: Outcome): Option<string> {
    if outcome.Ran? && outcome.end.ThrewNullish? then None else Some(ResultText(outcome))
  }

  /**
   * The body of `runCode` after the snippet has been evaluated: a fresh
   * buffer receives one line per intercepted call; a normal return joins
   * it, any failure drops it and gives the tagged message instead, except
   * a thrown `null` or `undefined`, for which nothing is given.
   */
  method Execute(outcome: Outcome) returns (text: Option<string>)
    ensures text == Settled(outcome)
  {
    match outcome
    case CompileError(message) =>
      text := Some(ErrorTag + message);
    case Ran(calls, end, _) =>
      var output: seq<string> := [];
      var i := 0;
      while i < |calls|
        invariant 0 <= i <= |calls|
        invariant output == Lines(calls[..i])
      {
        output := output + [Line(calls[i])];
        i := i + 1;
      }
      assert calls[..i] == calls;
      match end
      case Returned =>
        text := Some(Join(output, "\n"));
      case Threw(message) =>
        text := Some(ErrorTag + message);
      case ThrewNullish(_) =>
        text := None;
  }

  /** One instance of the component: the snippet being edited and the last result. */
  class InteractiveExample {
    const interceptors: Interceptors
    var code: string
    var result: string

    /** Mounting: the page's example code and no result yet. */
    constructor (initialCode: string, interceptors: Interceptors)
      ensures this.interceptors == interceptors
      ensures code == initialCode && result == ""
    {
      this.interceptors := interceptors;
      code := initialCode;
      result := "";
    }

    /** Typing in the editor: the whole text is replaced and nothing is run. */
    method Edit(newCode: string)
      modifies this`code
      ensures code == newCode
      ensures result == old(result)
    {
      code := newCode;
    }

    /**
     * The run button: each run starts from a fresh buffer, so whatever the
     * run settles depends on the current code alone, never on an earlier
     * result; a run that settles nothing leaves the earlier result on show.
     */
    method RunCode(engine: string -> Outcome)
      modifies this`result
      ensures code == old(code)
      ensures Settled(engine(Rewrite(interceptors, code))).Some? ==>
        result == ResultText(engine(Rewrite(interceptors, code)))
      ensures Settled(engine(Rewrite(interceptors, code))).None? ==> result == old(result)
    {
      var outcome := engine(Rewrite(interceptors, code));
      var text := Execute(outcome);
      if text.Some? {
        result := text.value;
      }
    }

    /** The result block is rendered only for a non-empty result (and a code block to render it with). */
    predicate ShowsResult(hasCodeBlock: bool)
      reads this
    {
      result != "" && hasCodeBlock
    }
  }

  // ----- rewriting -----

  /** The two rewrites cannot create or leave each other's patterns, nor their own. */
  lemma RewritesIndependent()
    ensures Clean(ConsoleLog, ConsoleLogBinding)
    ensures Clean(ConsoleError, ConsoleErrorBinding)
    ensures Independent(ConsoleLog, ConsoleLogBinding, ConsoleError, ConsoleErrorBinding)
  {
    assert ConsoleLogBinding[7] != ConsoleLog[7];
    assert ConsoleErrorBinding[7] != ConsoleError[7];
    assert ConsoleLog[8] != ConsoleError[8];
    assert ConsoleErrorBinding[7] != ConsoleLog[7];
    assert ConsoleLogBinding[7] != ConsoleError[7];
    NoOverlapIntoByFirst(ConsoleLogBinding, ConsoleError);
    NoOverlapIntoByFirst(ConsoleLog, ConsoleError);
    NoOverlapIntoByFirst(ConsoleErrorBinding, ConsoleLog);
    NoOverlapIntoByFirst(ConsoleError, ConsoleLog);
  }

  /**
   * Rewriting is one split of the snippet at the `console.log` occurrences,
   * found left to right: joining the pieces with `console.log` gives the
   * snippet back, joining them with `consoleLog` gives the rewritten text,
   * so every other character is kept as it was.
   */
  lemma RewriteIsSplitJoin(code: string)
    ensures Join(Split(code, ConsoleLog), ConsoleLog) == code
    ensures Rewrite(LogOnly, code) == Join(Split(code, ConsoleLog), ConsoleLogBinding)
  {
    JoinSplit(code, ConsoleLog);
    ReplaceAllIsSplitJoin(code, ConsoleLog, ConsoleLogBinding);
  }

  /**
   * Rewriting is blind to the snippet's syntax: a `console.log` after text
   * that cannot run into it, such as the line-comment marker, is rewritten
   * all the same, and a tail without '.' is kept as it is.
   */
  lemma RewriteCommentedCall(before: string, after: string)
    requires NoOverlapInto(before, ConsoleLog) && '.' !in after
    ensures Rewrite(LogOnly, before + ConsoleLog + after) == before + ConsoleLogBinding + after
  {
    PassOver(before, ConsoleLog + after, ConsoleLog, ConsoleLogBinding);
    MatchStep(ConsoleLog, ConsoleLogBinding, after);
    FreeWithout(after, ConsoleLog, 7);
    ReplaceAllOfFree(after, ConsoleLog, ConsoleLogBinding);
    assert before + ConsoleLog + after == before + (ConsoleLog + after);
  }

  /** The two replacements of the `console.error` copy can be applied in either order. */
  lemma RewriteOrderIrrelevant(code: string)
    ensures Rewrite(LogAndError, code)
      == ReplaceAll(ReplaceAll(code, ConsoleError, ConsoleErrorBinding), ConsoleLog, ConsoleLogBinding)
  {
    RewritesIndependent();
    ReplacementsCommute(code, ConsoleLog, ConsoleLogBinding, ConsoleError, ConsoleErrorBinding);
  }

  /** Rewriting an already rewritten snippet changes nothing. */
  lemma RewriteIdempotent(interceptors: Interceptors, code: string)
    ensures Rewrite(interceptors, Rewrite(interceptors, code)) == Rewrite(interceptors, code)
  {
    var r := Rewrite(interceptors, code);
    ReplaceAllOfFree(r, ConsoleLog, ConsoleLogBinding);
    if interceptors == LogAndError {
      ReplaceAllOfFree(r, ConsoleError, ConsoleErrorBinding);
    }
  }

  // ----- the output buffer and the result -----

  /**
   * After a normal return the result holds exactly one line per intercepted
   * call, in call order: splitting it at line breaks gives the lines back.
   * With no calls the result is empty.
   */
  lemma ReturnedRunLines(calls: seq<Call>, deferred: seq<Call>)
    ensures calls == [] ==> ResultText(Ran(calls, Returned, deferred)) == ""
    ensures calls != [] ==> Split(ResultText(Ran(calls, Returned, deferred)), "\n") == Lines(calls)
  {
    if calls != [] {
      var lines := Lines(calls);
      assert forall i :: 0 <= i < |lines| ==> Printable(lines[i]);
      SplitJoin(lines, '\n');
    }
  }

  /**
   * A line is built argument by argument: the first argument's text, one
   * space, then the line the remaining arguments would give.
   */
  lemma ArgsTextCons(v: Value, rest: seq<Value>)
    ensures ArgsText([v]) == ArgText(v)
    ensures rest != [] ==> ArgsText([v] + rest) == ArgText(v) + " " + ArgsText(rest)
  {
    if rest != [] {
      var args := [v] + rest;
      var texts := seq(|args|, i requires 0 <= i < |args| => ArgText(args[i]));
      assert texts == [ArgText(v)] + seq(|rest|, i requires 0 <= i < |rest| => ArgText(rest[i]));
      JoinCons(ArgText(v), texts[1..], " ");
    }
  }

  /**
   * After a normal return the result is built call by call: the first
   * call's line, a line break, then the result the remaining calls give.
   */
  lemma ReturnedCons(call: Call, rest: seq<Call>, deferred: seq<Call>)
    ensures ResultText(Ran([call], Returned, deferred)) == Line(call)
    ensures rest != [] ==>
      ResultText(Ran([call] + rest, Returned, deferred)) == Line(call) + "\n" + ResultText(Ran(rest, Returned, deferred))
  {
    if rest != [] {
      assert Lines([call] + rest) == [Line(call)] + Lines(rest);
      JoinCons(Line(call), Lines(rest), "\n");
    }
  }

  /** A string argument with nothing to escape is logged as itself between double quotes. */
  lemma PlainStringArg(s: string)
    requires forall i :: 0 <= i < |s| ==> s[i] >= ' ' && s[i] != '"' && s[i] != '\\'
    ensures ArgText(Str(s)) == "\"" + s + "\""
  {
    QuotePlain(s);
  }

  lemma DigitsHead(n: nat)
    ensures Digits(n) != [] && '0' <= Digits(n)[0] <= '9'
  {
    if n >= 10 {
      DigitsHead(n / 10);
    }
  }

  /** No serialised argument starts with the letter the error tag starts with. */
  lemma ArgTextHead(v: Value)
    ensures ArgText(v) == [] || ArgText(v)[0] != ErrorTag[0]
  {
    match v
    case Number(n) =>
      if n >= 0 { DigitsHead(n); }
    case _ =>
  }

  /** A `console.log` line is empty or starts with a character other than the error tag's first. */
  lemma ArgsTextHead(args: seq<Value>)
    ensures ArgsText(args) == [] || ArgsText(args)[0] != ErrorTag[0]
  {
    var texts := seq(|args|, i requires 0 <= i < |args| => ArgText(args[i]));
    var j := ArgsText(args);
    if args != [] {
      ArgTextHead(args[0]);
      if texts[0] != [] {
        assert j[0] == texts[0][0];
      } else if |texts| > 1 {
        assert j == texts[0] + " " + Join(texts[1..], " ");
        assert j[0] == ' ';
      }
    }
  }

  /** A `console.log` line never starts with the error tag. */
  lemma LogLineUntagged(args: seq<Value>)
    ensures !StartsWith(ArgsText(args), ErrorTag)
  {
    ArgsTextHead(args);
  }

  /**
   * The result starts with the error tag exactly when the run failed or its
   * first line came from `consoleError`. So among the outcomes modelled
   * here, on a page that intercepts only `console.log` the tag tells a
   * failure from a success; a snippet that returns a text of its own from
   * the wrapper's body, or pushes onto its buffer directly, is not one of them.
   */
  lemma ErrorTagMeansFailureOrConsoleError(outcome: Outcome)
    ensures StartsWith(ResultText(outcome), ErrorTag) <==>
      || outcome.CompileError?
      || !outcome.end.Returned?
      || (outcome.calls != [] && outcome.calls[0].LogError?)
  {
    if outcome.Ran? && outcome.end.Returned? && outcome.calls != [] {
      ReturnedTagged(outcome.calls, outcome.deferred);
    }
  }

  /** After a normal return, the result is tagged exactly when the first line comes from `consoleError`. */
  lemma ReturnedTagged(calls: seq<Call>, deferred: seq<Call>)
    requires calls != []
    ensures StartsWith(ResultText(Ran(calls, Returned, deferred)), ErrorTag) <==> calls[0].LogError?
  {
    var lines := Lines(calls);
    var r := Join(lines, "\n");
    assert ResultText(Ran(calls, Returned, deferred)) == r;
    match calls[0]
    case LogError(args) =>
      assert StartsWith(lines[0], ErrorTag);
    case Log(args) =>
      ArgsTextHead(args);
      if lines[0] == [] {
        if |lines| > 1 {
          assert lines == [lines[0]] + lines[1..];
          JoinCons(lines[0], lines[1..], "\n");
          assert r[0] == '\n';
        }
      } else {
        assert r[0] == lines[0][0];
      }
  }

  /**
   * After a run that settles its text, the result block is rendered exactly
   * when there is a code block to render it with and the run failed or left
   * a non-empty buffer.
   */
  lemma ResultBlockShown(example: InteractiveExample, hasCodeBlock: bool, outcome: Outcome)
    requires example.result == ResultText(outcome)
    ensures example.ShowsResult(hasCodeBlock) <==>
      && hasCodeBlock
      && !(&& outcome.Ran? && outcome.end.Returned?
           && (outcome.calls == [] || (|outcome.calls| == 1 && Line(outcome.calls[0]) == "")))
  {
  }

  // ----- a thrown null or undefined -----

  /**
   * As written, a run that throws `null` or `undefined` settles nothing,
   * although the text meant for it is a non-empty failure line: the result
   * keeps showing whatever the previous run left.
   */
  lemma NullishThrowSettlesNothing(calls: seq<Call>, isNull: bool, deferred: seq<Call>)
    ensures Settled(Ran(calls, ThrewNullish(isNull), deferred)) == None
    ensures ResultText(Ran(calls, ThrewNullish(isNull), deferred)) != ""
  {
  }

  /**
   * The text meant for a thrown `null` or `undefined` is one line, tagged as
   * a failure like every other throw.
   */
  lemma NullishThrowShowsError(calls: seq<Call>, isNull: bool, deferred: seq<Call>)
    ensures StartsWith(ResultText(Ran(calls, ThrewNullish(isNull), deferred)), ErrorTag)
    ensures Split(ResultText(Ran(calls, ThrewNullish(isNull), deferred)), "\n")
      == [ResultText(Ran(calls, ThrewNullish(isNull), deferred))]
  {
    SplitFreeText(ResultText(Ran(calls, ThrewNullish(isNull), deferred)), '\n');
  }
}
