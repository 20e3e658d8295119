/**
 * The Memoization topic page: its copy of `InteractiveExample` intercepts
 * `console.log` only, and its tab keys replace the first space of the
 * lower-cased example name.
 */
module MemoizationPage {
  import opened Json
  import opened Sandbox
  import opened Tabs

  const Intercepted := LogOnly
  const Rule := FirstSpace
  const InitialTab := "what-is-memoization"
  const ExampleNames := ["What is Memoization", "Basic Memoization Example"]

  /** Every example has its own key, so a click shows one panel only. */
  lemma KeysAreDistinct()
    ensures KeysDistinct(Rule, ExampleNames)
  {
    forall i, j | 0 <= i < j < |ExampleNames|
      ensures Slug(Rule, ExampleNames[i]) != Slug(Rule, ExampleNames[j])
    {
      KeysDiffer(Rule, ExampleNames[i], ExampleNames[j], 0);
    }
  }

  /** Only the first space of a name becomes '-'. */
  lemma WhatIsMemoizationKey()
    ensures Slug(Rule, ExampleNames[0]) == "what-is memoization"
  {
    FirstSpaceAt(ExampleNames[0], 4);
  }

  /**
   * The initial tab is the first name with every space replaced, which is
   * no example's key: no panel is shown until a tab is clicked.
   */
  lemma NoPanelInitially()
    ensures forall j :: 0 <= j < |ExampleNames| ==> !Shown(Rule, InitialTab, ExampleNames[j])
  {
    WhatIsMemoizationKey();
    assert Slug(Rule, ExampleNames[0])[7] != InitialTab[7];
  }

  /**
   * The evidently intended keys: replacing every space, as the Promises
   * page does, makes the initial tab the first example's key.
   */
  const CorrectedRule := AllSpaces

  /** With the corrected keys the first example's panel is shown on mounting, and no other. */
  lemma CorrectedInitialTabShowsFirstExample()
    ensures Shown(CorrectedRule, InitialTab, ExampleNames[0])
    ensures forall j :: 1 <= j < |ExampleNames| ==> !Shown(CorrectedRule, InitialTab, ExampleNames[j])
  {
    KeysDiffer(CorrectedRule, ExampleNames[0], ExampleNames[1], 0);
  }
}
