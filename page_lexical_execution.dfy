/**
 * The Lexical Environment and Execution Context topic page: its copy of
 * `InteractiveExample` intercepts `console.log` only, and its tab keys
 * replace the first space of the lower-cased example name.
 */
module LexicalExecutionPage {
  import opened Json
  import opened Sandbox
  import opened Tabs

  const Intercepted := LogOnly
  const Rule := FirstSpace
  const InitialTab := "lexical-environment"
  const ExampleNames := ["Lexical Environment", "Execution Context"]

  /** Every example has its own key, so a click shows one panel only. */
  lemma KeysAreDistinct()
    ensures KeysDistinct(Rule, ExampleNames)
  {
    forall i, j | 0 <= i < j < |ExampleNames|
      ensures Slug(Rule, ExampleNames[i]) != Slug(Rule, ExampleNames[j])
    {
      KeysDiffer(Rule, ExampleNames[i], ExampleNames[j], 0);
    }
  }

  /** On mounting, the first example's panel is shown and no other. */
  lemma InitialTabShowsFirstExample()
    ensures Shown(Rule, InitialTab, ExampleNames[0])
    ensures forall j :: 1 <= j < |ExampleNames| ==> !Shown(Rule, InitialTab, ExampleNames[j])
  {
    FirstSpaceAt(ExampleNames[0], 7);
    KeysAreDistinct();
  }

  /** The string arguments of the examples below are logged as themselves between double quotes. */
  lemma QuotedArguments()
    ensures ArgText(Str(OuterVar)) == "\"I am outside!\""
  {
    PlainStringArg(OuterVar);
  }

  /** The value `innerFunction` logs in the 'Lexical Environment' example. */
  const OuterVar := "I am outside!"

  /**
   * In 'Lexical Environment' the line logged by `innerFunction` would be the
   * quoted string, but the reference to `innerVar` that follows throws, and
   * the failure replaces the collected line.
   */
  lemma InnerVarFailureHidesOuterLine(message: string, deferred: seq<Call>)
    ensures ResultText(Ran([Log([Str(OuterVar)])], Returned, deferred)) == "\"I am outside!\""
    ensures ResultText(Ran([Log([Str(OuterVar)])], Threw(message), deferred)) == ErrorTag + message
  {
    QuotedArguments();
  }
}
