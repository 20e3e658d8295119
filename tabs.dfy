/**
 * Tab selection on the topic pages: each example has a key derived from its
 * name, the page keeps the key of the selected tab in `activeTab`, and an
 * example's panel is rendered exactly when its key equals `activeTab`.
 */
module Tabs {
  import opened Strings

  /**
   * How a page derives a key from an example name, after lower-casing it:
   * `.replace(' ', '-')` turns the first space into '-', `.replace(/ /g, '-')`
   * turns every space into '-', and some pages use the lower-cased name as it is.
   */
  datatype SlugRule = FirstSpace | AllSpaces | LowerOnly

  /** `toLowerCase` on ASCII letters; every other character is kept. */
  function LowerChar(c: char): char {
    if 'A' <= c <= 'Z' then (c as int - 'A' as int + 'a' as int) as char else c
  }

  function ToLower(s: string): string {
    seq(|s|, i requires 0 <= i < |s| => LowerChar(s[i]))
  }

  /**
   * The key of the example called `name`, character by character: the
   * lower-cased name, with a space turned into '-' where the rule says
   * (every space, only the first one, or none). The lemmas after it show that
   * this is what the pages' `replace` calls compute.
   */
  function Slug(rule: SlugRule, name: string): (key: string)
    ensures |key| == |name|
    ensures rule == AllSpaces ==> ' ' !in key
    ensures rule == LowerOnly ==> key == ToLower(name)
  {
    var lower := ToLower(name);
    seq(|lower|, i requires 0 <= i < |lower| =>
      if lower[i] == ' ' && (rule == AllSpaces || (rule == FirstSpace && ' ' !in lower[..i]))
      then '-' else lower[i])
  }

  /** The panel of the example called `name` is rendered. */
  predicate Shown(rule: SlugRule, activeTab: string, name: string) {
    activeTab == Slug(rule, name)
  }

  /** No two examples share a key, so selecting one renders only its panel. */
  predicate KeysDistinct(rule: SlugRule, names: seq<string>) {
    forall i, j :: 0 <= i < j < |names| ==> Slug(rule, names[i]) != Slug(rule, names[j])
  }

  /** The first-space key is `toLowerCase()` followed by `.replace(' ', '-')`. */
  lemma FirstSpaceIsReplaceFirst(name: string)
    ensures Slug(FirstSpace, name) == ReplaceFirst(ToLower(name), " ", "-")
  {
    ReplaceFirstCharAt(ToLower(name), ' ', '-');
  }

  /** The every-space key is `toLowerCase()` followed by `.replace(/ /g, '-')`. */
  lemma AllSpacesIsReplaceAll(name: string)
    ensures Slug(AllSpaces, name) == ReplaceAll(ToLower(name), " ", "-")
  {
    ReplaceAllCharAt(ToLower(name), ' ', '-');
  }

  /**
   * With the first space at position `k`, the first-space key is the
   * lower-cased name with that one character turned into '-'.
   */
  lemma FirstSpaceAt(name: string, k: nat)
    requires k < |name| && name[k] == ' ' && ' ' !in name[..k]
    ensures Slug(FirstSpace, name) == ToLower(name)[..k] + "-" + ToLower(name)[k + 1..]
  {
    var lower := ToLower(name);
    forall i | k < i < |name| ensures ' ' in lower[..i] {
      assert lower[..i][k] == ' ';
    }
  }

  /** Lower-casing works character by character, so it distributes over concatenation. */
  lemma ToLowerConcat(a: string, b: string)
    ensures ToLower(a + b) == ToLower(a) + ToLower(b)
  {
  }

  /**
   * A name made of a first word with no space, one space and the rest has
   * the first-space key: the lower-cased word, '-', the lower-cased rest.
   */
  lemma FirstSpaceBetween(first: string, rest: string)
    requires ' ' !in first
    ensures Slug(FirstSpace, first + " " + rest) == ToLower(first) + "-" + ToLower(rest)
  {
    var name := first + " " + rest;
    assert name[..|first|] == first;
    FirstSpaceAt(name, |first|);
    ToLowerConcat(first + " ", rest);
    ToLowerConcat(first, " ");
    var lower := ToLower(name);
    assert lower[..|first|] == ToLower(first);
    assert lower[|first| + 1..] == ToLower(rest);
  }

  /**
   * Two names give different keys when their lengths differ, or when they
   * differ at a position holding no space in either, up to case.
   */
  lemma KeysDiffer(rule: SlugRule, a: string, b: string, k: nat)
    requires |a| != |b| || (k < |a| && k < |b| && a[k] != ' ' && b[k] != ' ' && LowerChar(a[k]) != LowerChar(b[k]))
    ensures Slug(rule, a) != Slug(rule, b)
  {
    if |a| == |b| {
      assert Slug(rule, a)[k] == LowerChar(a[k]);
    }
  }

  /**
   * The tab bar of one topic page: the example names in order and the key
   * of the selected tab.
   */
  class TopicPage {
    const rule: SlugRule
    const names: seq<string>
    var activeTab: string

    /** Mounting: `useState(initialTab)`. */
    constructor (rule: SlugRule, names: seq<string>, initialTab: string)
      ensures this.rule == rule && this.names == names && activeTab == initialTab
    {
      this.rule := rule;
      this.names := names;
      activeTab := initialTab;
    }

    /** The panel of example `j` is rendered. */
    predicate PanelShown(j: nat)
      reads this
      requires j < |names|
    {
      Shown(rule, activeTab, names[j])
    }

    /**
     * Clicking the tab of example `i`: its panel is rendered, and so is
     * every other panel whose name gives the same key, and no other.
     */
    method ClickTab(i: nat)
      requires i < |names|
      modifies this`activeTab
      ensures activeTab == Slug(rule, names[i])
      ensures forall j :: 0 <= j < |names| ==>
        (PanelShown(j) <==> Slug(rule, names[j]) == Slug(rule, names[i]))
      ensures KeysDistinct(rule, names) ==>
        forall j :: 0 <= j < |names| ==> (PanelShown(j) <==> j == i)
    {
      activeTab := Slug(rule, names[i]);
    }
  }
}
