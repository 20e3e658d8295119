/**
 * The Promises topic page: its copy of `InteractiveExample` intercepts
 * both `console.log` and `console.error`, and its tab keys replace every
 * space of the lower-cased example name.
 */
module PromisesPage {
  import opened Json
  import opened Sandbox
  import opened Tabs

  const Intercepted := LogAndError
  const Rule := AllSpaces
  const InitialTab := "creating-a-promise"
  const ExampleNames := ["Creating a Promise", "Chaining Promises", "Promise.all()", "Async/Await"]

  /** Every example has its own key, so a click shows one panel only. */
  lemma KeysAreDistinct()
    ensures KeysDistinct(Rule, ExampleNames)
  {
    forall i, j | 0 <= i < j < |ExampleNames|
      ensures Slug(Rule, ExampleNames[i]) != Slug(Rule, ExampleNames[j])
    {
      KeysDiffer(Rule, ExampleNames[i], ExampleNames[j], 0);
    }
  }

  /** On mounting, the first example's panel is shown and no other. */
  lemma InitialTabShowsFirstExample()
    ensures Shown(Rule, InitialTab, ExampleNames[0])
    ensures forall j :: 1 <= j < |ExampleNames| ==> !Shown(Rule, InitialTab, ExampleNames[j])
  {
    KeysAreDistinct();
  }

  /**
   * 'Creating a Promise' logs from its `then` callback only after the run
   * has returned, and synchronously logs one message at its end: the result
   * is that message alone, whatever the promise resolves to.
   */
  lemma CreatingAPromiseShowsOnlySyncLine(message: string, resolved: seq<Value>)
    ensures ResultText(Ran([Log([Str(message)])], Returned, [Log(resolved)])) == Quote(message)
  {
    var lines := Lines([Log([Str(message)])]);
    assert lines == [Quote(message)];
  }
}
