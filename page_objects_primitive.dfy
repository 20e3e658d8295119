/**
 * The Objects and primitives topic page: its copy of `InteractiveExample`
 * intercepts `console.log` only, and its tab keys are the lower-cased
 * example names, spaces kept.
 */
module ObjectsPrimitivePage {
  import opened Json
  import opened Sandbox
  import opened Tabs

  const Intercepted := LogOnly
  const Rule := LowerOnly
  const InitialTab := "objects"
  const ExampleNames := ["Objects", "Primitives", "Differences", "Wrapping Primitives"]

  /** Every example has its own key, so a click shows one panel only. */
  lemma KeysAreDistinct()
    ensures KeysDistinct(Rule, ExampleNames)
  {
    forall i, j | 0 <= i < j < |ExampleNames|
      ensures Slug(Rule, ExampleNames[i]) != Slug(Rule, ExampleNames[j])
    {
      KeysDiffer(Rule, ExampleNames[i], ExampleNames[j], 0);
    }
  }

  /** On mounting, the first example's panel is shown and no other. */
  lemma InitialTabShowsFirstExample()
    ensures Shown(Rule, InitialTab, ExampleNames[0])
    ensures forall j :: 1 <= j < |ExampleNames| ==> !Shown(Rule, InitialTab, ExampleNames[j])
  {
    KeysAreDistinct();
  }

  /** A key keeps the spaces of the name. */
  lemma WrappingPrimitivesKey()
    ensures Slug(Rule, ExampleNames[3]) == "wrapping primitives"
  {
  }
}
