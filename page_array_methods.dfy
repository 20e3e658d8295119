/**
 * The Array methods topic page: its copy of `InteractiveExample`
 * intercepts `console.log` only, and its tab keys are the lower-cased
 * example names, spaces kept.
 */
module ArrayMethodsPage {
  import opened Json
  import opened Sandbox
  import opened Tabs

  const Intercepted := LogOnly
  const Rule := LowerOnly
  const InitialTab := "every"
  const ExampleNames := ["Every", "Filter", "Find", "Reduce", "Some"]

  /** Every example has its own key, so a click shows one panel only. */
  lemma KeysAreDistinct()
    ensures KeysDistinct(Rule, ExampleNames)
  {
    forall i, j | 0 <= i < j < |ExampleNames|
      ensures Slug(Rule, ExampleNames[i]) != Slug(Rule, ExampleNames[j])
    {
      KeysDiffer(Rule, ExampleNames[i], ExampleNames[j], 0);
    }
  }

  /** On mounting, the first example's panel is shown and no other. */
  lemma InitialTabShowsFirstExample()
    ensures Shown(Rule, InitialTab, ExampleNames[0])
    ensures forall j :: 1 <= j < |ExampleNames| ==> !Shown(Rule, InitialTab, ExampleNames[j])
  {
    KeysAreDistinct();
  }

  /**
   * The 'Filter' snippet declares `affordableItems` three times, so it does
   * not compile: nothing runs, and the result is the tagged message alone,
   * one line with no output line before it.
   */
  lemma CompileErrorShowsOnlyMessage(message: string)
    requires '\n' !in message
    ensures Strings.Split(ResultText(CompileError(message)), "\n") == [ErrorTag + message]
  {
    Strings.SplitFreeText(ErrorTag + message, '\n');
  }
}
