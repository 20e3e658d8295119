/**
 * The Operator precedence and associativity topic page: its copy of
 * `InteractiveExample` intercepts `console.log` only, and its tab keys
 * replace the first space of the lower-cased example name.
 */
module PrecedenceAssociabilityPage {
  import opened Json
  import opened Sandbox
  import opened Tabs

  const Intercepted := LogOnly
  const Rule := FirstSpace
  const InitialTab := "operator-precedence"
  const ExampleNames := ["Operator Precedence", "Operator Associativity", "Complex Expression"]

  /** Every example has its own key, so a click shows one panel only. */
  lemma KeysAreDistinct()
    ensures KeysDistinct(Rule, ExampleNames)
  {
    forall i, j | 0 <= i < j < |ExampleNames|
      ensures Slug(Rule, ExampleNames[i]) != Slug(Rule, ExampleNames[j])
    {
      KeysDiffer(Rule, ExampleNames[i], ExampleNames[j], 0);
    }
  }

  /** On mounting, the first example's panel is shown and no other. */
  lemma InitialTabShowsFirstExample()
    ensures Shown(Rule, InitialTab, ExampleNames[0])
    ensures forall j :: 1 <= j < |ExampleNames| ==> !Shown(Rule, InitialTab, ExampleNames[j])
  {
    FirstSpaceAt(ExampleNames[0], 8);
    KeysAreDistinct();
  }

  /** A number is logged as its decimal digits, unquoted. */
  lemma NumberLines()
    ensures Line(Log([Number(23)])) == "23"
    ensures Line(Log([Number(35)])) == "35"
  {
    ArgsTextCons(Number(23), []);
    ArgsTextCons(Number(35), []);
  }

  /** 'Operator Precedence' logs 23 and then 35: two calls, two lines, in call order. */
  lemma TwoCallsTwoLines(deferred: seq<Call>)
    ensures ResultText(Ran([Log([Number(23)]), Log([Number(35)])], Returned, deferred)) == "23\n35"
  {
    NumberLines();
    assert [Log([Number(23)]), Log([Number(35)])] == [Log([Number(23)])] + [Log([Number(35)])];
    ReturnedCons(Log([Number(23)]), [Log([Number(35)])], deferred);
  }
}
