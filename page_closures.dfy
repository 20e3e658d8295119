/**
 * The Closures topic page: its copy of `InteractiveExample` intercepts
 * `console.log` only, and its tab keys replace the first space of the
 * lower-cased example name.
 */
module ClosuresPage {
  import opened Json
  import opened Sandbox
  import opened Tabs

  const Intercepted := LogOnly
  const Rule := FirstSpace
  const InitialTab := "basic-closure"
  const ExampleNames := ["Basic Closure", "Basic Closure 2"]

  /** Every example has its own key, so a click shows one panel only. */
  lemma KeysAreDistinct()
    ensures KeysDistinct(Rule, ExampleNames)
  {
    forall i, j | 0 <= i < j < |ExampleNames|
      ensures Slug(Rule, ExampleNames[i]) != Slug(Rule, ExampleNames[j])
    {
      KeysDiffer(Rule, ExampleNames[i], ExampleNames[j], 0);
    }
  }

  /** On mounting, the first example's panel is shown and no other. */
  lemma InitialTabShowsFirstExample()
    ensures Shown(Rule, InitialTab, ExampleNames[0])
    ensures forall j :: 1 <= j < |ExampleNames| ==> !Shown(Rule, InitialTab, ExampleNames[j])
  {
    FirstSpaceAt(ExampleNames[0], 5);
    KeysAreDistinct();
  }

  /** The string arguments of the examples below are logged as themselves between double quotes. */
  lemma QuotedArguments()
    ensures ArgText(Str(Greeting)) == "\"Hola Miguel\""
  {
    PlainStringArg(Greeting);
  }

  /** The greeting 'Basic Closure' logs before calling `validateName` out of its scope. */
  const Greeting := "Hola Miguel"

  /**
   * The out-of-scope call at the end of 'Basic Closure' throws, so the
   * greeting logged before it is dropped and only the tagged message shows.
   */
  lemma GreetingDiscardedByFailure(message: string, deferred: seq<Call>)
    ensures ResultText(Ran([Log([Str(Greeting)])], Returned, deferred)) == "\"Hola Miguel\""
    ensures ResultText(Ran([Log([Str(Greeting)])], Threw(message), deferred)) == ErrorTag + message
  {
    QuotedArguments();
  }

  /** Only the first space becomes '-', and the two keys still differ. */
  lemma BasicClosure2Key()
    ensures Slug(Rule, ExampleNames[1]) == "basic-closure 2"
    ensures Slug(Rule, ExampleNames[1]) != InitialTab
  {
    FirstSpaceAt(ExampleNames[1], 5);
  }
}
