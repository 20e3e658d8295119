/**
 * The By reference and by value topic page: its copy of
 * `InteractiveExample` intercepts `console.log` only, and its tab keys
 * replace every space of the lower-cased example name.
 */
module ReferenceValuePage {
  import opened Json
  import opened Sandbox
  import opened Tabs

  const Intercepted := LogOnly
  const Rule := AllSpaces
  const InitialTab := "primitive-types"
  const ExampleNames := ["Primitive Types", "Objects", "Functions and References", "Copying Objects"]

  /** Every example has its own key, so a click shows one panel only. */
  lemma KeysAreDistinct()
    ensures KeysDistinct(Rule, ExampleNames)
  {
    forall i, j | 0 <= i < j < |ExampleNames|
      ensures Slug(Rule, ExampleNames[i]) != Slug(Rule, ExampleNames[j])
    {
      KeysDiffer(Rule, ExampleNames[i], ExampleNames[j], 0);
    }
  }

  /** On mounting, the first example's panel is shown and no other. */
  lemma InitialTabShowsFirstExample()
    ensures Shown(Rule, InitialTab, ExampleNames[0])
    ensures forall j :: 1 <= j < |ExampleNames| ==> !Shown(Rule, InitialTab, ExampleNames[j])
  {
    KeysAreDistinct();
  }

  /** Every space of a name becomes '-'. */
  lemma FunctionsAndReferencesKey()
    ensures Slug(Rule, ExampleNames[2]) == "functions-and-references"
  {
  }
}
