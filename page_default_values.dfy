/**
 * The Default Values topic page: its copy of `InteractiveExample`
 * intercepts `console.log` only, and it has no tabs: every example is
 * rendered, each with an `InteractiveExample` of its own.
 */
module DefaultValuesPage {
  import opened Json
  import opened Sandbox

  const Intercepted := LogOnly

  /** No two rendered examples share a component instance. */
  predicate Separate(examples: seq<InteractiveExample>) {
    forall i, j :: 0 <= i < j < |examples| ==> examples[i] != examples[j]
  }

  /**
   * Rendering the page: one fresh component per example, in order, each
   * starting from its example's code and an empty result.
   */
  method RenderExamples(codes: seq<string>) returns (examples: seq<InteractiveExample>)
    ensures |examples| == |codes|
    ensures Separate(examples)
    ensures forall i :: 0 <= i < |codes| ==>
      && fresh(examples[i])
      && examples[i].interceptors == Intercepted
      && examples[i].code == codes[i]
      && examples[i].result == ""
  {
    examples := [];
    var i := 0;
    while i < |codes|
      invariant 0 <= i <= |codes|
      invariant |examples| == i
      invariant Separate(examples)
      invariant forall k :: 0 <= k < i ==>
        && fresh(examples[k])
        && examples[k].interceptors == Intercepted
        && examples[k].code == codes[k]
        && examples[k].result == ""
    {
      var example := new InteractiveExample(codes[i], Intercepted);
      examples := examples + [example];
      i := i + 1;
    }
  }

  /** Editing one example's code leaves every other example as it was. */
  method EditExample(examples: seq<InteractiveExample>, i: nat, newCode: string)
    requires i < |examples| && Separate(examples)
    modifies examples[i]
    ensures examples[i].code == newCode
    ensures forall j :: 0 <= j < |examples| ==> examples[j].result == old(examples[j].result)
    ensures forall j :: 0 <= j < |examples| && j != i ==> examples[j].code == old(examples[j].code)
  {
    examples[i].Edit(newCode);
  }

  /**
   * Running one example sets its result from its own code (or keeps it,
   * when the run settles nothing), and leaves the code and result of every
   * other example as they were.
   */
  method RunExample(examples: seq<InteractiveExample>, i: nat, engine: string -> Outcome)
    requires i < |examples| && Separate(examples)
    modifies examples[i]
    ensures var o := engine(Rewrite(examples[i].interceptors, examples[i].code));
      examples[i].result == Settled(o).GetOr(old(examples[i].result))
    ensures forall j :: 0 <= j < |examples| ==> examples[j].code == old(examples[j].code)
    ensures forall j :: 0 <= j < |examples| && j != i ==> examples[j].result == old(examples[j].result)
  {
    examples[i].RunCode(engine);
  }

  /** Each line of 'How the OR Operator Works' is the serialised value the `||` gives. */
  lemma OrOperatorLines()
    ensures Line(Log([Bool(true)])) == "true"
    ensures Line(Log([Str("hello")])) == "\"hello\""
    ensures Line(Log([Str("default")])) == "\"default\""
  {
    PlainStringArg("hello");
    PlainStringArg("default");
    ArgsTextCons(Bool(true), []);
    ArgsTextCons(Str("hello"), []);
    ArgsTextCons(Str("default"), []);
  }

  /** 'How the OR Operator Works' shows three lines: `true`, then the two strings quoted. */
  lemma OrOperatorOutput(deferred: seq<Call>)
    ensures Strings.Split(ResultText(Ran([Log([Bool(true)]), Log([Str("hello")]), Log([Str("default")])], Returned, deferred)), "\n")
      == ["true", "\"hello\"", "\"default\""]
  {
    OrOperatorLines();
    var calls := [Log([Bool(true)]), Log([Str("hello")]), Log([Str("default")])];
    ReturnedRunLines(calls, deferred);
    assert Lines(calls) == [Line(calls[0]), Line(calls[1]), Line(calls[2])];
  }
}
