/**
 * The text operations the sandbox and the topic pages apply: a global
 * `String.prototype.replace` with a literal pattern (the regular expressions
 * `/console\.log/g`, `/console\.error/g` and `/ /g` match only their literal
 * text), `replace` with a string pattern (first occurrence only),
 * `String.prototype.split` with a string separator and `Array.prototype.join`.
 */
module Strings {

  /** `s` begins with `p`. */
  predicate StartsWith(s: string, p: string) {
    |p| <= |s| && s[..|p|] == p
  }

  /** `p` occurs in `s` at offset `k`. */
  predicate OccursAt(s: string, p: string, k: int) {
    0 <= k && k + |p| <= |s| && s[k..k + |p|] == p
  }

  /** `p` occurs nowhere in `s`. */
  predicate Free(s: string, p: string) {
    forall k | 0 <= k <= |s| :: !OccursAt(s, p, k)
  }

  /** `a` and `b` agree on every index both have: one is a prefix of the other. */
  predicate Compatible(a: string, b: string) {
    forall i :: 0 <= i < |a| && i < |b| ==> a[i] == b[i]
  }

  /** No suffix of `x` can be the start of an occurrence of `p`. */
  predicate NoOverlapInto(x: string, p: string) {
    forall k :: 0 <= k < |x| ==> !Compatible(x[k..], p)
  }

  /**
   * Conditions under which replacing `pat` by `rep` can never leave or
   * create an occurrence of `pat`: `rep` is not compatible with `pat`,
   * `pat` cannot start inside `rep` after its first character, and an
   * occurrence cannot begin in kept text and run into `rep`.
   */
  predicate Clean(pat: string, rep: string) {
    && pat != [] && rep != []
    && pat[0] !in rep[1..]
    && !Compatible(rep, pat)
    && rep[0] !in pat[1..]
  }

  /** Every occurrence of `pat`, found left to right without overlap, replaced by `rep`. */
  function ReplaceAll(s: string, pat: string, rep: string): string
    requires pat != []
    decreases |s|
  {
    if |s| < |pat| then s
    else if StartsWith(s, pat) then rep + ReplaceAll(s[|pat|..], pat, rep)
    else [s[0]] + ReplaceAll(s[1..], pat, rep)
  }

  /** The first occurrence of `pat`, if any, replaced by `rep`. */
  function ReplaceFirst(s: string, pat: string, rep: string): string
    requires pat != []
    decreases |s|
  {
    if |s| < |pat| then s
    else if StartsWith(s, pat) then rep + s[|pat|..]
    else [s[0]] + ReplaceFirst(s[1..], pat, rep)
  }

  /** The pieces of `s` between the occurrences of `sep`, found left to right. */
  function Split(s: string, sep: string): (parts: seq<string>)
    requires sep != []
    ensures |parts| >= 1
    decreases |s|
  {
    if |s| < |sep| then [s]
    else if StartsWith(s, sep) then [[]] + Split(s[|sep|..], sep)
    else
      var rest := Split(s[1..], sep);
      [[s[0]] + rest[0]] + rest[1..]
  }

  /** The parts with one `sep` between each neighbouring pair; no parts give "". It begins with the first part. */
  function Join(parts: seq<string>, sep: string): (r: string)
    ensures parts != [] ==> StartsWith(r, parts[0])
  {
    if parts == [] then []
    else if |parts| == 1 then parts[0]
    else parts[0] + sep + Join(parts[1..], sep)
  }

  // ----- single steps of ReplaceAll -----

  lemma MatchStep(pat: string, rep: string, t: string)
    requires pat != []
    ensures ReplaceAll(pat + t, pat, rep) == rep + ReplaceAll(t, pat, rep)
  {
    assert (pat + t)[..|pat|] == pat;
    assert (pat + t)[|pat|..] == t;
  }

  lemma KeepStep(s: string, pat: string, rep: string)
    requires pat != [] && s != [] && !StartsWith(s, pat)
    ensures ReplaceAll(s, pat, rep) == [s[0]] + ReplaceAll(s[1..], pat, rep)
  {
    if |s| < |pat| {
      assert [s[0]] + s[1..] == s;
    }
  }

  lemma {:induction false} ShortUnchanged(s: string, pat: string, rep: string)
    requires pat != [] && |s| < |pat|
    ensures ReplaceAll(s, pat, rep) == s && ReplaceFirst(s, pat, rep) == s
  {
  }

  // ----- ReplaceAll is split-then-join -----

  lemma JoinCons(first: string, rest: seq<string>, sep: string)
    requires rest != []
    ensures Join([first] + rest, sep) == first + sep + Join(rest, sep)
  {
    assert ([first] + rest)[1..] == rest;
  }

  lemma JoinConsFirst(c: char, parts: seq<string>, sep: string)
    requires |parts| >= 1
    ensures Join([[c] + parts[0]] + parts[1..], sep) == [c] + Join(parts, sep)
  {
    var q := [[c] + parts[0]] + parts[1..];
    if |parts| > 1 {
      assert q[1..] == parts[1..];
    }
  }

  /**
   * Replacing every occurrence is the same as splitting at the occurrences
   * and joining the pieces with the replacement, so only the occurrences
   * change: the text between them is kept as it was.
   */
  lemma {:induction false} ReplaceAllIsSplitJoin(s: string, pat: string, rep: string)
    requires pat != []
    ensures ReplaceAll(s, pat, rep) == Join(Split(s, pat), rep)
    decreases |s|
  {
    if |s| < |pat| {
    } else if StartsWith(s, pat) {
      var rest := Split(s[|pat|..], pat);
      assert Split(s, pat) == [[]] + rest;
      ReplaceAllIsSplitJoin(s[|pat|..], pat, rep);
      JoinCons([], rest, rep);
    } else {
      var rest := Split(s[1..], pat);
      assert Split(s, pat) == [[s[0]] + rest[0]] + rest[1..];
      ReplaceAllIsSplitJoin(s[1..], pat, rep);
      JoinConsFirst(s[0], rest, rep);
    }
  }

  /** Replacing a pattern by itself changes nothing. */
  lemma {:induction false} ReplaceAllBySelf(s: string, pat: string)
    requires pat != []
    ensures ReplaceAll(s, pat, pat) == s
    decreases |s|
  {
    if |s| < |pat| {
    } else if StartsWith(s, pat) {
      ReplaceAllBySelf(s[|pat|..], pat);
      assert pat + s[|pat|..] == s;
    } else {
      ReplaceAllBySelf(s[1..], pat);
      assert [s[0]] + s[1..] == s;
    }
  }

  /** Joining the pieces of a split with the separator gives back the text. */
  lemma JoinSplit(s: string, sep: string)
    requires sep != []
    ensures Join(Split(s, sep), sep) == s
  {
    ReplaceAllIsSplitJoin(s, sep, sep);
    ReplaceAllBySelf(s, sep);
  }

  // ----- splitting joined lines gives them back -----

  lemma {:induction false} SplitFreeText(s: string, c: char)
    requires c !in s
    ensures Split(s, [c]) == [s]
    decreases |s|
  {
    if s != [] {
      assert s[0] != c;
      SplitFreeText(s[1..], c);
      assert [s[0]] + s[1..] == s;
    }
  }

  lemma {:induction false} SplitAfterFreeText(a: string, c: char, t: string)
    requires c !in a
    ensures Split(a + [c] + t, [c]) == [a] + Split(t, [c])
    decreases |a|
  {
    var s := a + [c] + t;
    if a == [] {
      assert s[..1] == [c];
      assert s[1..] == t;
    } else {
      assert s[0] == a[0] != c;
      assert s[1..] == a[1..] + [c] + t;
      SplitAfterFreeText(a[1..], c, t);
      assert [a[0]] + a[1..] == a;
    }
  }

  /**
   * Splitting at a one-character separator undoes joining with it, provided
   * no part contains that character; in particular the number of parts is kept.
   */
  lemma {:induction false} SplitJoin(parts: seq<string>, c: char)
    requires |parts| >= 1
    requires forall i :: 0 <= i < |parts| ==> c !in parts[i]
    ensures Split(Join(parts, [c]), [c]) == parts
    decreases |parts|
  {
    if |parts| == 1 {
      SplitFreeText(parts[0], c);
    } else {
      SplitJoin(parts[1..], c);
      SplitAfterFreeText(parts[0], c, Join(parts[1..], [c]));
      assert [parts[0]] + parts[1..] == parts;
    }
  }

  /** A joined text lacks a character that no part and not the separator contains. */
  lemma {:induction false} JoinAvoids(parts: seq<string>, sep: string, c: char)
    requires c !in sep
    requires forall i :: 0 <= i < |parts| ==> c !in parts[i]
    ensures c !in Join(parts, sep)
    decreases |parts|
  {
    if |parts| > 1 {
      JoinAvoids(parts[1..], sep, c);
    }
  }

  /**
   * A join is empty exactly when there is nothing to join, or one empty part;
   * two or more parts always leave at least one separator.
   */
  lemma JoinIsEmpty(parts: seq<string>, sep: string)
    requires sep != []
    ensures Join(parts, sep) == [] <==> parts == [] || (|parts| == 1 && parts[0] == [])
  {
    if |parts| > 1 {
      assert |Join(parts, sep)| >= |sep|;
    }
  }

  // ----- nothing of the pattern is left -----

  /** An occurrence-free text is left as it is. */
  lemma {:induction false} ReplaceAllOfFree(s: string, pat: string, rep: string)
    requires pat != [] && Free(s, pat)
    ensures ReplaceAll(s, pat, rep) == s
    decreases |s|
  {
    if |s| >= |pat| {
      assert !OccursAt(s, pat, 0);
      assert !StartsWith(s, pat);
      forall k ensures !OccursAt(s[1..], pat, k) {
        if OccursAt(s[1..], pat, k) {
          assert s[1..][k..k + |pat|] == s[k + 1..k + 1 + |pat|];
          assert OccursAt(s, pat, k + 1);
        }
      }
      ReplaceAllOfFree(s[1..], pat, rep);
      assert [s[0]] + s[1..] == s;
    }
  }

  /** A text that starts with the pattern is replaced starting with the replacement. */
  lemma MatchHead(t: string, pat: string, rep: string)
    ensures pat != [] && rep != [] && StartsWith(t, pat) ==>
      ReplaceAll(t, pat, rep) != [] && ReplaceAll(t, pat, rep)[0] == rep[0]
  {
  }

  /**
   * When the replacement's first character is not in `q`, a result that
   * starts with `q` comes from a text that already started with `q`.
   */
  lemma {:induction false} PrefixKept(t: string, q: string, pat: string, rep: string)
    requires pat != [] && rep != [] && rep[0] !in q
    requires StartsWith(ReplaceAll(t, pat, rep), q)
    ensures StartsWith(t, q)
    decreases |t|
  {
    var r := ReplaceAll(t, pat, rep);
    if q == [] || |t| < |pat| {
    } else if StartsWith(t, pat) {
      MatchHead(t, pat, rep);
      assert false;
    } else {
      assert r[0] == t[0] == q[0];
      var r1 := ReplaceAll(t[1..], pat, rep);
      assert r == [t[0]] + r1;
      assert r1[..|q| - 1] == r[1..|q|] == q[1..];
      PrefixKept(t[1..], q[1..], pat, rep);
      assert t[..|q|] == [t[0]] + t[1..][..|q| - 1];
    }
  }

  /**
   * Under `Clean(pat, rep)` no occurrence of `pat` survives a global
   * replacement, nor is a new one made at the seams of the replacements.
   */
  lemma {:induction false} ReplaceAllLeavesNone(s: string, pat: string, rep: string)
    requires Clean(pat, rep)
    ensures Free(ReplaceAll(s, pat, rep), pat)
    decreases |s|
  {
    var r := ReplaceAll(s, pat, rep);
    if |s| < |pat| {
    } else if StartsWith(s, pat) {
      var t := ReplaceAll(s[|pat|..], pat, rep);
      ReplaceAllLeavesNone(s[|pat|..], pat, rep);
      assert r == rep + t;
      forall k | 0 <= k < |rep| ensures !OccursAt(r, pat, k) {
      }
      forall k | |rep| <= k && k + |pat| <= |r| ensures !OccursAt(r, pat, k) {
        assert r[k..k + |pat|] == t[k - |rep|..k - |rep| + |pat|];
        assert !OccursAt(t, pat, k - |rep|);
      }
    } else {
      var t := ReplaceAll(s[1..], pat, rep);
      ReplaceAllLeavesNone(s[1..], pat, rep);
      assert r == [s[0]] + t;
      if OccursAt(r, pat, 0) {
        assert r[..|pat|] == pat;
        assert r[1..|pat|] == pat[1..];
        assert t[..|pat| - 1] == r[1..|pat|];
        PrefixKept(s[1..], pat[1..], pat, rep);
        assert false;
      }
      forall k | 1 <= k && k + |pat| <= |r| ensures !OccursAt(r, pat, k) {
        assert r[k..k + |pat|] == t[k - 1..k - 1 + |pat|];
        assert !OccursAt(t, pat, k - 1);
      }
    }
  }

  /** Replacing again after a clean replacement changes nothing. */
  lemma ReplaceAllIdempotent(s: string, pat: string, rep: string)
    requires Clean(pat, rep)
    ensures ReplaceAll(ReplaceAll(s, pat, rep), pat, rep) == ReplaceAll(s, pat, rep)
  {
    ReplaceAllLeavesNone(s, pat, rep);
    ReplaceAllOfFree(ReplaceAll(s, pat, rep), pat, rep);
  }

  // ----- two replacements commute -----

  /** A replacement passes over text `x` that no occurrence of `pat` can start in. */
  lemma {:induction false} PassOver(x: string, t: string, pat: string, rep: string)
    requires pat != [] && NoOverlapInto(x, pat)
    ensures ReplaceAll(x + t, pat, rep) == x + ReplaceAll(t, pat, rep)
    decreases |x|
  {
    if x != [] {
      var s := x + t;
      assert !StartsWith(s, pat) by {
        assert x[0..] == x;
        if StartsWith(s, pat) {
          assert false;
        }
      }
      KeepStep(s, pat, rep);
      assert s[0] == x[0];
      forall k | 0 <= k < |x[1..]| ensures !Compatible(x[1..][k..], pat) {
        assert x[1..][k..] == x[k + 1..];
      }
      assert s[1..] == x[1..] + t;
      PassOver(x[1..], t, pat, rep);
      calc {
        ReplaceAll(s, pat, rep);
        [x[0]] + ReplaceAll(x[1..] + t, pat, rep);
        [x[0]] + (x[1..] + ReplaceAll(t, pat, rep));
        { assert [x[0]] + x[1..] == x; }
        x + ReplaceAll(t, pat, rep);
      }
    } else {
      assert x + t == t;
    }
  }

  /** A text missing one of the pattern's characters holds no occurrence of it. */
  lemma FreeWithout(s: string, p: string, k: nat)
    requires k < |p| && p[k] !in s
    ensures Free(s, p)
  {
  }

  /** A simple sufficient condition for `NoOverlapInto`. */
  lemma NoOverlapIntoByFirst(x: string, p: string)
    requires p != [] && !Compatible(x, p) && p[0] !in x[1..]
    ensures NoOverlapInto(x, p)
  {
    forall k | 0 <= k < |x| ensures !Compatible(x[k..], p) {
      if k > 0 {
        assert x[k..][0] == x[k] == x[1..][k - 1];
      } else {
        assert x[k..] == x;
      }
    }
  }

  /** Two replacements whose patterns and replacements cannot interact. */
  predicate Independent(p1: string, r1: string, p2: string, r2: string) {
    && p1 != [] && p2 != [] && r1 != [] && r2 != []
    && NoOverlapInto(r1, p2) && NoOverlapInto(p1, p2)
    && NoOverlapInto(r2, p1) && NoOverlapInto(p2, p1)
    && r1[0] !in p2[1..] && r2[0] !in p1[1..]
  }

  /** For independent pairs, the order of the two global replacements does not matter. */
  lemma {:induction false} ReplacementsCommute(s: string, p1: string, r1: string, p2: string, r2: string)
    requires Independent(p1, r1, p2, r2)
    ensures ReplaceAll(ReplaceAll(s, p1, r1), p2, r2) == ReplaceAll(ReplaceAll(s, p2, r2), p1, r1)
    decreases |s|
  {
    if s == [] {
    } else if StartsWith(s, p1) {
      var s' := s[|p1|..];
      assert s == p1 + s';
      MatchStep(p1, r1, s');
      PassOver(r1, ReplaceAll(s', p1, r1), p2, r2);
      PassOver(p1, s', p2, r2);
      MatchStep(p1, r1, ReplaceAll(s', p2, r2));
      ReplacementsCommute(s', p1, r1, p2, r2);
    } else if StartsWith(s, p2) {
      var s' := s[|p2|..];
      assert s == p2 + s';
      MatchStep(p2, r2, s');
      PassOver(r2, ReplaceAll(s', p2, r2), p1, r1);
      PassOver(p2, s', p1, r1);
      MatchStep(p2, r2, ReplaceAll(s', p1, r1));
      ReplacementsCommute(s', p1, r1, p2, r2);
    } else {
      KeptThrough(s, p1, r1, p2, r2);
      KeptThrough(s, p2, r2, p1, r1);
      ReplacementsCommute(s[1..], p1, r1, p2, r2);
    }
  }

  /**
   * A first character that starts neither pattern is kept by the first
   * replacement, and then by the second, when the first replacement's text
   * cannot complete an occurrence of the second pattern.
   */
  lemma KeptThrough(s: string, p1: string, r1: string, p2: string, r2: string)
    requires p1 != [] && p2 != [] && r1 != [] && r1[0] !in p2[1..]
    requires s != [] && !StartsWith(s, p1) && !StartsWith(s, p2)
    ensures ReplaceAll(ReplaceAll(s, p1, r1), p2, r2) == [s[0]] + ReplaceAll(ReplaceAll(s[1..], p1, r1), p2, r2)
  {
    var a := ReplaceAll(s[1..], p1, r1);
    KeepStep(s, p1, r1);
    var x := [s[0]] + a;
    if StartsWith(x, p2) {
      assert x[1..|p2|] == p2[1..];
      assert a[..|p2| - 1] == x[1..|p2|];
      PrefixKept(s[1..], p2[1..], p1, r1);
      assert false;
    }
    KeepStep(x, p2, r2);
    assert x[1..] == a;
  }

  // ----- one-character patterns: pointwise descriptions -----

  /** Replacing every `c` by `d` maps the text character by character. */
  lemma {:induction false} ReplaceAllCharAt(s: string, c: char, d: char)
    ensures |ReplaceAll(s, [c], [d])| == |s|
    ensures forall i :: 0 <= i < |s| ==>
      ReplaceAll(s, [c], [d])[i] == (if s[i] == c then d else s[i])
    decreases |s|
  {
    if s != [] {
      ReplaceAllCharAt(s[1..], c, d);
      var r := ReplaceAll(s, [c], [d]);
      var t := ReplaceAll(s[1..], [c], [d]);
      assert StartsWith(s, [c]) <==> s[0] == c;
      assert r == [if s[0] == c then d else s[0]] + t;
      forall i | 0 < i < |s| ensures r[i] == (if s[i] == c then d else s[i]) {
        assert r[i] == t[i - 1];
        assert s[1..][i - 1] == s[i];
      }
    }
  }

  /** Replacing the first `c` by `d` changes exactly the first `c`, if any. */
  lemma {:induction false} ReplaceFirstCharAt(s: string, c: char, d: char)
    ensures |ReplaceFirst(s, [c], [d])| == |s|
    ensures forall i :: 0 <= i < |s| ==>
      ReplaceFirst(s, [c], [d])[i] == (if s[i] == c && c !in s[..i] then d else s[i])
    decreases |s|
  {
    if s != [] {
      var r := ReplaceFirst(s, [c], [d]);
      assert StartsWith(s, [c]) <==> s[0] == c;
      if s[0] == c {
        assert r == [d] + s[1..];
        forall i | 0 < i < |s| ensures r[i] == s[i] {
          assert s[..i][0] == c;
        }
      } else {
        ReplaceFirstCharAt(s[1..], c, d);
        var t := ReplaceFirst(s[1..], [c], [d]);
        assert r == [s[0]] + t;
        forall i | 0 < i < |s| ensures r[i] == (if s[i] == c && c !in s[..i] then d else s[i]) {
          assert r[i] == t[i - 1];
          assert s[1..][i - 1] == s[i];
          assert s[..i] == [s[0]] + s[1..][..i - 1];
          assert c in s[..i] <==> c in s[1..][..i - 1];
        }
      }
    }
  }
}
