/**
 * The Data types and dynamic typing topic page: its copy of
 * `InteractiveExample` intercepts `console.log` only, and its tab keys
 * replace the first space of the lower-cased example name.
 */
module DataTypesDynamicTypingPage {
  import opened Json
  import opened Sandbox
  import opened Tabs

  const Intercepted := LogOnly
  const Rule := FirstSpace
  const InitialTab := "data-types"
  const ExampleNames := ["Data Types", "Dynamic Typing", "Type Checking"]

  /** Every example has its own key, so a click shows one panel only. */
  lemma KeysAreDistinct()
    ensures KeysDistinct(Rule, ExampleNames)
  {
    forall i, j | 0 <= i < j < |ExampleNames|
      ensures Slug(Rule, ExampleNames[i]) != Slug(Rule, ExampleNames[j])
    {
      KeysDiffer(Rule, ExampleNames[i], ExampleNames[j], 0);
    }
  }

  /** On mounting, the first example's panel is shown and no other. */
  lemma InitialTabShowsFirstExample()
    ensures Shown(Rule, InitialTab, ExampleNames[0])
    ensures forall j :: 1 <= j < |ExampleNames| ==> !Shown(Rule, InitialTab, ExampleNames[j])
  {
    FirstSpaceAt(ExampleNames[0], 4);
    KeysAreDistinct();
  }

  /** A type name `typeof` gives is a string, so its line shows it quoted. */
  lemma TypeNameLines()
    ensures Line(Log([Str("string")])) == "\"string\""
    ensures Line(Log([Str("number")])) == "\"number\""
    ensures Line(Log([Str("object")])) == "\"object\""
  {
    PlainStringArg("string");
    PlainStringArg("number");
    PlainStringArg("object");
    ArgsTextCons(Str("string"), []);
    ArgsTextCons(Str("number"), []);
    ArgsTextCons(Str("object"), []);
  }

  /**
   * 'Data Types' logs `typeof` of a string, a number, an array and an
   * object: four lines, each type name quoted.
   */
  lemma TypeofLines(deferred: seq<Call>)
    ensures Strings.Split(ResultText(Ran([Log([Str("string")]), Log([Str("number")]), Log([Str("object")]), Log([Str("object")])], Returned, deferred)), "\n")
      == ["\"string\"", "\"number\"", "\"object\"", "\"object\""]
  {
    TypeNameLines();
    var calls := [Log([Str("string")]), Log([Str("number")]), Log([Str("object")]), Log([Str("object")])];
    ReturnedRunLines(calls, deferred);
    assert Lines(calls) == [Line(calls[0]), Line(calls[1]), Line(calls[2]), Line(calls[3])];
  }
}
