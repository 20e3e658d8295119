/**
 * The Coercion topic page: its copy of `InteractiveExample` intercepts
 * `console.log` only, and its tab keys replace the first space of the
 * lower-cased example name.
 */
module CoercionPage {
  import opened Json
  import opened Sandbox
  import opened Tabs

  const Intercepted := LogOnly
  const Rule := FirstSpace
  const InitialTab := "existence-check"
  const ExampleNames := ["Existence Check", "Handling Zero"]

  /** Every example has its own key, so a click shows one panel only. */
  lemma KeysAreDistinct()
    ensures KeysDistinct(Rule, ExampleNames)
  {
    forall i, j | 0 <= i < j < |ExampleNames|
      ensures Slug(Rule, ExampleNames[i]) != Slug(Rule, ExampleNames[j])
    {
      KeysDiffer(Rule, ExampleNames[i], ExampleNames[j], 0);
    }
  }

  /** On mounting, the first example's panel is shown and no other. */
  lemma InitialTabShowsFirstExample()
    ensures Shown(Rule, InitialTab, ExampleNames[0])
    ensures forall j :: 1 <= j < |ExampleNames| ==> !Shown(Rule, InitialTab, ExampleNames[j])
  {
    FirstSpaceAt(ExampleNames[0], 9);
    KeysAreDistinct();
  }

  /**
   * Pressing the button twice on unchanged code. Each press evaluates the
   * code afresh, with its own engine, since the two evaluations share the
   * page's global object, clock and random source: the second result is what
   * the second evaluation settles, whatever the first press showed, or the
   * first result still on show when the second settles nothing.
   */
  method RunTwice(example: InteractiveExample, firstEngine: string -> Outcome, secondEngine: string -> Outcome)
    returns (first: string, second: string)
    modifies example`result
    ensures example.code == old(example.code)
    ensures var o := firstEngine(Rewrite(example.interceptors, example.code));
      first == Settled(o).GetOr(old(example.result))
    ensures var o := secondEngine(Rewrite(example.interceptors, example.code));
      second == Settled(o).GetOr(first) && example.result == second
  {
    example.RunCode(firstEngine);
    first := example.result;
    example.RunCode(secondEngine);
    second := example.result;
  }
}
