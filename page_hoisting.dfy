/**
 * The Hoisting topic page: its copy of `InteractiveExample` intercepts
 * `console.log` only, and its tab keys replace the first space of the
 * lower-cased example name.
 */
module HoistingPage {
  import opened Json
  import opened Sandbox
  import opened Tabs

  const Intercepted := LogOnly
  const Rule := FirstSpace
  const InitialTab := "hoisting-definition"
  const ExampleNames := ["Hoisting Definition", "Variable Hoisting", "Function Hoisting", "Hoisting Example 1", "Hoisting Example 2"]

  /** Every example has its own key, so a click shows one panel only. */
  lemma KeysAreDistinct()
    ensures KeysDistinct(Rule, ExampleNames)
  {
    forall i, j | 0 <= i < j < |ExampleNames|
      ensures Slug(Rule, ExampleNames[i]) != Slug(Rule, ExampleNames[j])
    {
      KeysDiffer(Rule, ExampleNames[i], ExampleNames[j], if i == 3 then 17 else 0);
    }
  }

  /** On mounting, the first example's panel is shown and no other. */
  lemma InitialTabShowsFirstExample()
    ensures Shown(Rule, InitialTab, ExampleNames[0])
    ensures forall j :: 1 <= j < |ExampleNames| ==> !Shown(Rule, InitialTab, ExampleNames[j])
  {
    FirstSpaceAt(ExampleNames[0], 8);
    KeysAreDistinct();
  }

  /** Only the first space of the numbered examples' names is replaced. */
  lemma NumberedExampleKeys()
    ensures Slug(Rule, ExampleNames[3]) == "hoisting-" + "example 1"
    ensures Slug(Rule, ExampleNames[4]) == "hoisting-" + "example 2"
  {
    assert ExampleNames[3] == "Hoisting" + " " + "Example 1";
    assert ExampleNames[4] == "Hoisting" + " " + "Example 2";
    FirstSpaceBetween("Hoisting", "Example 1");
    FirstSpaceBetween("Hoisting", "Example 2");
    LowerWords();
  }

  /** The words of the numbered examples' names, lower-cased. */
  lemma LowerWords()
    ensures ToLower("Hoisting") == "hoisting"
    ensures ToLower("Example 1") == "example 1"
    ensures ToLower("Example 2") == "example 2"
  {
  }

  /**
   * 'Variable Hoisting' logs the hoisted but unassigned `x`, then 5: the
   * undefined argument contributes empty text, so the output starts with
   * an empty line.
   */
  lemma VariableHoistingOutput(deferred: seq<Call>)
    ensures ResultText(Ran([Log([Undefined]), Log([Number(5)])], Returned, deferred)) == "\n5"
  {
    var lines := Lines([Log([Undefined]), Log([Number(5)])]);
    assert lines == ["", "5"];
  }
}
