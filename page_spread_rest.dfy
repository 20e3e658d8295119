/**
 * The Spread and Rest topic page: its copy of `InteractiveExample`
 * intercepts `console.log` only, and its tab keys replace every space of
 * the lower-cased example name.
 */
module SpreadRestPage {
  import opened Json
  import opened Sandbox
  import opened Tabs

  const Intercepted := LogOnly
  const Rule := AllSpaces
  const InitialTab := "spread-arrays"
  const ExampleNames := ["Spread Arrays", "Spread Objects", "Spread in Function Calls", "Rest in Functions", "Rest in Destructuring"]

  /** Every example has its own key, so a click shows one panel only. */
  lemma KeysAreDistinct()
    ensures KeysDistinct(Rule, ExampleNames)
  {
    forall i, j | 0 <= i < j < |ExampleNames|
      ensures Slug(Rule, ExampleNames[i]) != Slug(Rule, ExampleNames[j])
    {
      KeysDiffer(Rule, ExampleNames[i], ExampleNames[j], 0);
    }
  }

  /** On mounting, the first example's panel is shown and no other. */
  lemma InitialTabShowsFirstExample()
    ensures Shown(Rule, InitialTab, ExampleNames[0])
    ensures forall j :: 1 <= j < |ExampleNames| ==> !Shown(Rule, InitialTab, ExampleNames[j])
  {
    KeysAreDistinct();
  }

  /** Every space of a name becomes '-'. */
  lemma SpreadInFunctionCallsKey()
    ensures Slug(Rule, ExampleNames[2]) == "spread-in-function-calls"
  {
  }

  /** The array `combinedArray` of 'Spread Arrays': both arrays' elements, in order. */
  const CombinedArray := [Number(1), Number(2), Number(3), Number(4), Number(5), Number(6)]

  /** Each element of `combinedArray` serialises to its digit. */
  lemma CombinedTexts()
    ensures seq(|CombinedArray|, i requires 0 <= i < |CombinedArray| => Stringify(CombinedArray[i]).GetOr("null"))
      == ["1", "2", "3", "4", "5", "6"]
  {
  }

  /** The six digits joined by commas. */
  lemma JoinedDigits()
    ensures Strings.Join(["1", "2", "3", "4", "5", "6"], ",") == "1,2,3,4,5,6"
  {
    assert ["1", "2", "3", "4", "5", "6"] == ["1"] + ["2", "3", "4", "5", "6"];
    assert ["2", "3", "4", "5", "6"] == ["2"] + ["3", "4", "5", "6"];
    assert ["3", "4", "5", "6"] == ["3"] + ["4", "5", "6"];
    assert ["4", "5", "6"] == ["4"] + ["5", "6"];
    assert ["5", "6"] == ["5"] + ["6"];
    Strings.JoinCons("5", ["6"], ",");
    Strings.JoinCons("4", ["5", "6"], ",");
    Strings.JoinCons("3", ["4", "5", "6"], ",");
    Strings.JoinCons("2", ["3", "4", "5", "6"], ",");
    Strings.JoinCons("1", ["2", "3", "4", "5", "6"], ",");
  }

  /** Logging `combinedArray` serialises it structurally into one line. */
  lemma CombinedArrayLine()
    ensures Line(Log([Array(CombinedArray)])) == "[1,2,3,4,5,6]"
  {
    CombinedTexts();
    JoinedDigits();
    ArgsTextCons(Array(CombinedArray), []);
  }
}
