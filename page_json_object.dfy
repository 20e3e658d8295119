/**
 * The Object literal and JSON topic page: its copy of `InteractiveExample`
 * intercepts `console.log` only, and its tab keys replace the first space
 * of the lower-cased example name.
 */
module JsonObjectPage {
  import opened Json
  import opened Sandbox
  import opened Tabs

  const Intercepted := LogOnly
  const Rule := FirstSpace
  const InitialTab := "object-literal"
  const ExampleNames := ["Object Literal", "JSON", "Key Differences"]

  /** Every example has its own key, so a click shows one panel only. */
  lemma KeysAreDistinct()
    ensures KeysDistinct(Rule, ExampleNames)
  {
    forall i, j | 0 <= i < j < |ExampleNames|
      ensures Slug(Rule, ExampleNames[i]) != Slug(Rule, ExampleNames[j])
    {
      KeysDiffer(Rule, ExampleNames[i], ExampleNames[j], 0);
    }
  }

  /** On mounting, the first example's panel is shown and no other. */
  lemma InitialTabShowsFirstExample()
    ensures Shown(Rule, InitialTab, ExampleNames[0])
    ensures forall j :: 1 <= j < |ExampleNames| ==> !Shown(Rule, InitialTab, ExampleNames[j])
  {
    FirstSpaceAt(ExampleNames[0], 6);
    KeysAreDistinct();
  }

  /** The string arguments of the examples below are logged as themselves between double quotes. */
  lemma QuotedArguments()
    ensures ArgText(Str(ParseLabel)) == "\"Error parsing JSON:\""
  {
    LabelNeedsNoEscape();
    PlainStringArg(ParseLabel);
  }

  /** The label holds no quote, backslash or control character. */
  lemma LabelNeedsNoEscape()
    ensures forall i :: 0 <= i < |ParseLabel| ==> ParseLabel[i] >= ' ' && ParseLabel[i] != '"' && ParseLabel[i] != '\\'
  {
  }

  /** The label the 'JSON' example logs before the parse error's message. */
  const ParseLabel := "Error parsing JSON:"

  /**
   * A two-argument call gives both serialised values, each string quoted,
   * separated by exactly one space.
   */
  lemma TwoArgumentLine(message: string)
    ensures Line(Log([Str(ParseLabel), Str(message)])) == "\"Error parsing JSON:\" " + Quote(message)
  {
    QuotedArguments();
    assert [Str(ParseLabel), Str(message)] == [Str(ParseLabel)] + [Str(message)];
    ArgsTextCons(Str(ParseLabel), [Str(message)]);
    ArgsTextCons(Str(message), []);
  }

  /** Only the first space of a name becomes '-'. */
  lemma KeyDifferencesKey()
    ensures Slug(Rule, ExampleNames[2]) == "key-differences"
  {
    FirstSpaceAt(ExampleNames[2], 3);
  }
}
