/**
 * Substring search, `str.split(sep)` and `sep.join(parts)` with Python's
 * semantics, over `string` (a `seq<char>`).
 */
module Strings {
  import opened Wrappers

  /** `pat` occurs in `s` starting at index `i`. */
  predicate OccursAt(s: string, pat: string, i: int) {
    0 <= i && i + |pat| <= |s| && s[i..i + |pat|] == pat
  }

  predicate Occurs(s: string, pat: string) {
    exists i :: 0 <= i <= |s| - |pat| && OccursAt(s, pat, i)
  }

  /** Occurrences in the tail of `s` are the occurrences in `s`, shifted by one. */
  lemma OccursAtTail(s: string, pat: string, i: int)
    requires |s| >= 1 && i >= 1
    ensures OccursAt(s, pat, i) <==> OccursAt(s[1..], pat, i - 1)
  {
    if i + |pat| <= |s| {
      assert s[1..][i - 1..i - 1 + |pat|] == s[i..i + |pat|];
    }
  }

  /** Index of the leftmost occurrence of `pat` in `s` (Python's `s.find(pat)`). */
  function Find(s: string, pat: string): (r: Option<nat>)
    requires |pat| > 0
    ensures r.Some? ==> OccursAt(s, pat, r.value)
    ensures r.Some? ==> forall i :: 0 <= i < r.value ==> !OccursAt(s, pat, i)
    ensures r.None? <==> !Occurs(s, pat)
    decreases |s|
  {
    if |s| < |pat| then None
    else if s[..|pat|] == pat then assert OccursAt(s, pat, 0); Some(0)
    else
      var r := Find(s[1..], pat);
      assert forall i :: 1 <= i ==> (OccursAt(s, pat, i) <==> OccursAt(s[1..], pat, i - 1)) by {
        forall i | 1 <= i ensures OccursAt(s, pat, i) <==> OccursAt(s[1..], pat, i - 1) {
          OccursAtTail(s, pat, i);
        }
      }
      match r
      case None => None
      case Some(k) => Some(k + 1)
  }

  /** Python's `sep.join(parts)`. */
  function JoinWith(parts: seq<string>, sep: string): string {
    if |parts| == 0 then ""
    else if |parts| == 1 then parts[0]
    else parts[0] + sep + JoinWith(parts[1..], sep)
  }

  /** Python's `s.split(sep)` for a non-empty separator: cut at every leftmost non-overlapping occurrence. */
  function Split(s: string, sep: string): (parts: seq<string>)
    requires |sep| > 0
    ensures |parts| >= 1
    ensures JoinWith(parts, sep) == s
    ensures forall k :: 0 <= k < |parts| ==> !Occurs(parts[k], sep)
    decreases |s|
  {
    match Find(s, sep)
    case None => [s]
    case Some(i) =>
      var head := s[..i];
      var rest := Split(s[i + |sep|..], sep);
      assert !Occurs(head, sep) by {
        forall j | OccursAt(head, sep, j) ensures false {
          assert s[j..j + |sep|] == head[j..j + |sep|];
          assert OccursAt(s, sep, j);
        }
      }
      assert head + sep + s[i + |sep|..] == s;
      var parts := [head] + rest;
      assert parts[1..] == rest;
      parts
  }

  /** The split has a single part exactly when the separator does not occur. */
  lemma SplitSingle(s: string, sep: string)
    requires |sep| > 0
    ensures |Split(s, sep)| == 1 <==> !Occurs(s, sep)
  {
    match Find(s, sep)
    case None =>
    case Some(i) =>
      assert OccursAt(s, sep, i);
  }

  /**
   * After a separator-free part, the leftmost occurrence of a two-character
   * separator with distinct characters is the one that follows the part.
   */
  lemma FindAfterPart(p: string, sep: string, rest: string)
    requires |sep| == 2 && sep[0] != sep[1] && !Occurs(p, sep)
    ensures Find(p + sep + rest, sep) == Some(|p|)
  {
    var s := p + sep + rest;
    assert s[|p|..|p| + 2] == sep;
    assert OccursAt(s, sep, |p|);
    forall i | 0 <= i < |p| ensures !OccursAt(s, sep, i) {
      if i + 2 <= |p| {
        assert s[i..i + 2] == p[i..i + 2];
        assert !OccursAt(p, sep, i);
      } else {
        assert s[i + 1] == sep[0];
        assert s[i..i + 2][1] == sep[0];
      }
    }
  }

  /**
   * Splitting undoes joining when the separator has two distinct characters
   * (as ", " and "; " do) and no part contains it.
   */
  lemma {:induction false} SplitJoin(parts: seq<string>, sep: string)
    requires |sep| == 2 && sep[0] != sep[1] && |parts| >= 1
    requires forall k :: 0 <= k < |parts| ==> !Occurs(parts[k], sep)
    ensures Split(JoinWith(parts, sep), sep) == parts
    decreases |parts|
  {
    if |parts| == 1 {
      assert Find(parts[0], sep).None?;
    } else {
      var rest := JoinWith(parts[1..], sep);
      FindAfterPart(parts[0], sep, rest);
      var s := parts[0] + sep + rest;
      assert s[..|parts[0]|] == parts[0];
      assert s[|parts[0]| + |sep|..] == rest;
      SplitJoin(parts[1..], sep);
    }
  }

  /** Joining two non-empty lists puts one separator between their joins. */
  lemma {:induction false} JoinWithAppend(a: seq<string>, b: seq<string>, sep: string)
    requires |a| > 0 && |b| > 0
    ensures JoinWith(a + b, sep) == JoinWith(a, sep) + sep + JoinWith(b, sep)
    decreases |a|
  {
    if |a| == 1 {
      assert (a + b)[1..] == b;
    } else {
      assert (a + b)[1..] == a[1..] + b;
      JoinWithAppend(a[1..], b, sep);
    }
  }

  /** `"".join(xs)`: the pieces one after another. */
  function ConcatAll(xs: seq<string>): string
    decreases |xs|
  {
    if |xs| == 0 then "" else ConcatAll(xs[..|xs| - 1]) + xs[|xs| - 1]
  }

  /** Concatenation distributes over splitting the list of pieces. */
  lemma {:induction false} ConcatAllAppend(a: seq<string>, b: seq<string>)
    ensures ConcatAll(a + b) == ConcatAll(a) + ConcatAll(b)
    decreases |b|
  {
    if |b| > 0 {
      var ab := a + b;
      assert ab[..|ab| - 1] == a + b[..|b| - 1];
      assert ab[|ab| - 1] == b[|b| - 1];
      ConcatAllAppend(a, b[..|b| - 1]);
    } else {
      assert a + b == a;
    }
  }

  /** No opening or closing brace: text a template token cannot start or end inside. */
  predicate NoBrace(s: string) {
    '{' !in s && '}' !in s
  }

  /** After a text ending in `c`, a tail without `c` starts just past the last `c`. */
  lemma LastOccurrence(prefix: string, tail: string, c: char)
    requires |prefix| >= 1 && prefix[|prefix| - 1] == c && c !in tail
    ensures var s, j := prefix + tail, |prefix| - 1;
      s[j] == c && s[j + 1..] == tail && forall i :: j < i < |s| ==> s[i] != c
  {
    var s, j := prefix + tail, |prefix| - 1;
    assert s[j + 1..] == tail;
    forall i | j < i < |s| ensures s[i] != c {
      assert s[i] == tail[i - j - 1];
    }
  }

  /** No opening brace at all. */
  predicate NoOpenBrace(s: string) {
    '{' !in s
  }

  /**
   * Every `{` is followed, inside the text, by a character other than `{`:
   * the text holds no `{{` and does not end with `{`, so no `{{…}}` token can
   * begin in it, whatever text follows.
   */
  predicate NoTokenStart(s: string) {
    forall i :: 0 <= i < |s| && s[i] == '{' ==> i + 1 < |s| && s[i + 1] != '{'
  }

  lemma NoOpenBraceNoTokenStart(s: string)
    requires NoOpenBrace(s)
    ensures NoTokenStart(s)
  {
    forall i | 0 <= i < |s| ensures s[i] != '{' {
      assert s[i] in s;
    }
  }

  /** Joining two texts in which no token can begin gives another such text. */
  lemma NoTokenStartAppend(a: string, b: string)
    requires NoTokenStart(a) && NoTokenStart(b)
    ensures NoTokenStart(a + b)
  {
    var s := a + b;
    forall i | 0 <= i < |s| && s[i] == '{' ensures i + 1 < |s| && s[i + 1] != '{' {
      if i >= |a| {
        assert s[i] == b[i - |a|];
      }
    }
  }
}
