/**
 * The Destructuring topic page: its copy of `InteractiveExample`
 * intercepts `console.log` only, and its tab keys replace the first space
 * of the lower-cased example name.
 */
module DestructuringPage {
  import opened Wrappers
  import opened Json
  import opened Sandbox
  import opened Tabs

  const Intercepted := LogOnly
  const Rule := FirstSpace
  const InitialTab := "object-destructuring"
  const ExampleNames := ["Object Destructuring", "Array Destructuring", "Advanced Use Cases"]

  /** Every example has its own key, so a click shows one panel only. */
  lemma KeysAreDistinct()
    ensures KeysDistinct(Rule, ExampleNames)
  {
    forall i, j | 0 <= i < j < |ExampleNames|
      ensures Slug(Rule, ExampleNames[i]) != Slug(Rule, ExampleNames[j])
    {
      KeysDiffer(Rule, ExampleNames[i], ExampleNames[j], 0);
    }
  }

  /** On mounting, the first example's panel is shown and no other. */
  lemma InitialTabShowsFirstExample()
    ensures Shown(Rule, InitialTab, ExampleNames[0])
    ensures forall j :: 1 <= j < |ExampleNames| ==> !Shown(Rule, InitialTab, ExampleNames[j])
  {
    FirstSpaceAt(ExampleNames[0], 6);
    KeysAreDistinct();
  }

  /** The string arguments of 'Object Destructuring' are logged as themselves between double quotes. */
  lemma QuotedNames()
    ensures ArgText(Str("Alice")) == "\"Alice\""
    ensures ArgText(Str("Developer")) == "\"Developer\""
    ensures ArgText(Str("USA")) == "\"USA\""
  {
    PlainStringArg("Alice");
    PlainStringArg("Developer");
    PlainStringArg("USA");
  }

  /**
   * The three calls of 'Object Destructuring', `name, age`, then
   * `fullName, occupation`, then `country`, each give one line: strings
   * quoted, the arguments of one call separated by one space.
   */
  lemma ObjectDestructuringLines()
    ensures Line(Log([Str("Alice"), Number(30)])) == "\"Alice\" 30"
    ensures Line(Log([Str("Alice"), Str("Developer")])) == "\"Alice\" \"Developer\""
    ensures Line(Log([Str("USA")])) == "\"USA\""
  {
    AgeLine();
    OccupationLine();
    QuotedNames();
    ArgsTextCons(Str("USA"), []);
  }

  lemma AgeLine()
    ensures Line(Log([Str("Alice"), Number(30)])) == "\"Alice\" 30"
  {
    TwoArgumentLine(Str("Alice"), Number(30));
    PlainStringArg("Alice");
    AgeText();
  }

  lemma OccupationLine()
    ensures Line(Log([Str("Alice"), Str("Developer")])) == "\"Alice\" \"Developer\""
  {
    TwoArgumentLine(Str("Alice"), Str("Developer"));
    QuotedNames();
  }

  /** The age is logged as its digits. */
  lemma AgeText()
    ensures ArgText(Number(30)) == "30"
  {
    assert Digits(30) == Digits(3) + [DigitChar(0)];
  }

  /** The result of 'Object Destructuring' is those three lines, in call order. */
  lemma ObjectDestructuringOutput(deferred: seq<Call>)
    ensures Strings.Split(ResultText(Ran([Log([Str("Alice"), Number(30)]), Log([Str("Alice"), Str("Developer")]), Log([Str("USA")])], Returned, deferred)), "\n")
      == ["\"Alice\" 30", "\"Alice\" \"Developer\"", "\"USA\""]
  {
    ObjectDestructuringLines();
    var calls := [Log([Str("Alice"), Number(30)]), Log([Str("Alice"), Str("Developer")]), Log([Str("USA")])];
    ReturnedRunLines(calls, deferred);
    assert Lines(calls) == [Line(calls[0]), Line(calls[1]), Line(calls[2])];
  }

  /** The strings of 'Array Destructuring' are logged as themselves between double quotes. */
  lemma QuotedColors()
    ensures ArgText(Str("red")) == "\"red\""
    ensures ArgText(Str("green")) == "\"green\""
  {
    PlainStringArg("red");
    PlainStringArg("green");
  }

  /** The elements of `otherColors` serialise quoted, as every string does. */
  lemma QuotedOtherColors()
    ensures Stringify(Str("blue")) == Some("\"blue\"")
    ensures Stringify(Str("yellow")) == Some("\"yellow\"")
    ensures Stringify(Str("purple")) == Some("\"purple\"")
  {
    assert Quote("blue") == "\"blue\"" by { QuotePlain("blue"); }
    assert Quote("yellow") == "\"yellow\"" by { QuotePlain("yellow"); }
    assert Quote("purple") == "\"purple\"" by { QuotePlain("purple"); }
  }

  /** Three parts joined: each separator written once, between neighbours. */
  lemma JoinThree(x: string, y: string, z: string, sep: string)
    ensures Strings.Join([x, y, z], sep) == x + sep + y + sep + z
  {
    assert [x, y, z] == [x] + [y, z];
    assert [y, z] == [y] + [z];
    Strings.JoinCons(y, [z], sep);
    Strings.JoinCons(x, [y, z], sep);
  }

  /** The element texts of a three-element array, in element order. */
  lemma ItemTexts(a: Value, b: Value, c: Value)
    ensures seq(|[a, b, c]|, i requires 0 <= i < |[a, b, c]| => Stringify([a, b, c][i]).GetOr("null"))
      == [Stringify(a).GetOr("null"), Stringify(b).GetOr("null"), Stringify(c).GetOr("null")]
  {
  }

  /** An array of three values is their texts, `null` for a missing one, joined by commas between brackets. */
  lemma ThreeItemArray(a: Value, b: Value, c: Value)
    ensures Stringify(Array([a, b, c]))
      == Some("[" + Strings.Join([Stringify(a).GetOr("null"), Stringify(b).GetOr("null"), Stringify(c).GetOr("null")], ",") + "]")
  {
    ItemTexts(a, b, c);
  }

  /** A call with three arguments gives their texts separated by single spaces. */
  lemma TwoArgumentLine(a: Value, b: Value)
    ensures Line(Log([a, b])) == ArgText(a) + " " + ArgText(b)
  {
    assert [a, b] == [a] + [b];
    ArgsTextCons(a, [b]);
    ArgsTextCons(b, []);
  }

  lemma ThreeArgumentLine(a: Value, b: Value, c: Value)
    ensures Line(Log([a, b, c])) == ArgText(a) + " " + ArgText(b) + " " + ArgText(c)
  {
    assert seq(|[a, b, c]|, i requires 0 <= i < |[a, b, c]| => ArgText([a, b, c][i])) == [ArgText(a), ArgText(b), ArgText(c)];
    JoinThree(ArgText(a), ArgText(b), ArgText(c), " ");
  }

  /** The array `otherColors` is serialised structurally: elements quoted, separated by commas. */
  lemma OtherColorsText()
    ensures ArgText(Array([Str("blue"), Str("yellow"), Str("purple")])) == "[\"blue\"," + "\"yellow\"," + "\"purple\"]"
  {
    QuotedOtherColors();
    ThreeItemArray(Str("blue"), Str("yellow"), Str("purple"));
    JoinThree("\"blue\"", "\"yellow\"", "\"purple\"", ",");
  }

  /**
   * The rest pattern of 'Array Destructuring' logs two strings and an
   * array: the array's text follows them within the same line.
   */
  lemma RestPatternLine()
    ensures Line(Log([Str("red"), Str("green"), Array([Str("blue"), Str("yellow"), Str("purple")])]))
      == "\"red\" \"green\" " + "[\"blue\",\"yellow\",\"purple\"]"
  {
    QuotedColors();
    OtherColorsText();
    ThreeArgumentLine(Str("red"), Str("green"), Array([Str("blue"), Str("yellow"), Str("purple")]));
  }
}
