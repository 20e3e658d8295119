/**
 * The Scope topic page: its copy of `InteractiveExample` intercepts
 * `console.log` only, and its tab keys replace every space of the lower-
 * cased example name.
 */
module ScopePage {
  import opened Json
  import opened Sandbox
  import opened Tabs

  const Intercepted := LogOnly
  const Rule := AllSpaces
  const InitialTab := "global-scope"
  const ExampleNames := ["Global Scope", "Function Scope", "Block Scope", "var vs let and const", "Lexical Scope"]

  /** Every example has its own key, so a click shows one panel only. */
  lemma KeysAreDistinct()
    ensures KeysDistinct(Rule, ExampleNames)
  {
    forall i, j | 0 <= i < j < |ExampleNames|
      ensures Slug(Rule, ExampleNames[i]) != Slug(Rule, ExampleNames[j])
    {
      KeysDiffer(Rule, ExampleNames[i], ExampleNames[j], 0);
    }
  }

  /** On mounting, the first example's panel is shown and no other. */
  lemma InitialTabShowsFirstExample()
    ensures Shown(Rule, InitialTab, ExampleNames[0])
    ensures forall j :: 1 <= j < |ExampleNames| ==> !Shown(Rule, InitialTab, ExampleNames[j])
  {
    KeysAreDistinct();
  }

  /** The text after the call in the commented-out line 90 of the example. */
  const CommentTail := "(localVar);" + " // Error: localVar is not defined"

  /**
   * Rewriting does not know about comments: the call in the commented-out
   * line is rewritten like any other.
   */
  lemma CommentedCallRewritten()
    ensures Rewrite(Intercepted, "// console.log" + CommentTail) == "// consoleLog" + CommentTail
  {
    assert "// "[0] != ConsoleLog[0];
    Strings.NoOverlapIntoByFirst("// ", ConsoleLog);
    RewriteCommentedCall("// ", CommentTail);
    assert "// console.log" == "// " + ConsoleLog;
    assert "// consoleLog" == "// " + ConsoleLogBinding;
  }

  /** Every space of a name becomes '-'. */
  lemma VarVsLetAndConstKey()
    ensures Slug(Rule, ExampleNames[3]) == "var-vs-let-and-const"
  {
  }
}
