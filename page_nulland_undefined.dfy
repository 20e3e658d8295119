/**
 * The null and undefined topic page: its copy of `InteractiveExample`
 * intercepts `console.log` only, and its tab keys replace the first space
 * of the lower-cased example name.
 */
module NullandUndefinedPage {
  import opened Json
  import opened Sandbox
  import opened Tabs

  const Intercepted := LogOnly
  const Rule := FirstSpace
  const InitialTab := "understanding"
  const ExampleNames := ["Understanding", "Type Checking", "Equality Comparison", "Checking for null or undefined"]

  /** Every example has its own key, so a click shows one panel only. */
  lemma KeysAreDistinct()
    ensures KeysDistinct(Rule, ExampleNames)
  {
    forall i, j | 0 <= i < j < |ExampleNames|
      ensures Slug(Rule, ExampleNames[i]) != Slug(Rule, ExampleNames[j])
    {
      KeysDiffer(Rule, ExampleNames[i], ExampleNames[j], 0);
    }
  }

  /** On mounting, the first example's panel is shown and no other. */
  lemma InitialTabShowsFirstExample()
    ensures Shown(Rule, InitialTab, ExampleNames[0])
    ensures forall j :: 1 <= j < |ExampleNames| ==> !Shown(Rule, InitialTab, ExampleNames[j])
  {
    KeysAreDistinct();
  }

  /**
   * Logging `null` gives the line "null"; logging `undefined` gives an
   * empty line, since it serialises to nothing.
   */
  lemma NullAndUndefinedLines(deferred: seq<Call>)
    ensures ResultText(Ran([Log([Null]), Log([Undefined])], Returned, deferred)) == "null\n"
  {
    var lines := Lines([Log([Null]), Log([Undefined])]);
    assert lines == ["null", ""];
  }

  /** Only the first space of a name becomes '-'. */
  lemma CheckingKey()
    ensures Slug(Rule, ExampleNames[3]) == "checking-" + "for null or undefined"
  {
    assert ExampleNames[3] == "Checking" + " " + "for null or undefined";
    FirstSpaceBetween("Checking", "for null or undefined");
    LowerParts();
  }

  /** The two parts of the last example's name, lower-cased. */
  lemma LowerParts()
    ensures ToLower("Checking") == "checking"
    ensures ToLower("for null or undefined") == "for null or undefined"
  {
  }
}
