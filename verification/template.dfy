/**
 * The shipping-label template engine: Python's global `str.replace` applied
 * for a fixed list of `{{name}}` tokens one after another, and a structural
 * view of a template as literal text interleaved with token slots.
 */
module Template {
  import opened Wrappers
  import opened Strings

  /** The placeholder `{{name}}`. */
  function Token(name: string): (t: string)
    ensures |t| == |name| + 4
    ensures t[0] == '{' && t[1] == '{' && t[|t| - 2] == '}' && t[|t| - 1] == '}'
  {
    "{{" + name + "}}"
  }

  /** A token name: non-empty and free of braces, as all eleven label tokens are. */
  predicate ValidName(name: string) {
    |name| > 0 && NoBrace(name)
  }

  /**
   * Python's `s.replace(pat, rep)` for a non-empty `pat`: every leftmost,
   * non-overlapping occurrence of `pat`, scanning left to right, becomes `rep`.
   */
  function ReplaceAll(s: string, pat: string, rep: string): (r: string)
    requires |pat| > 0
    ensures !Occurs(s, pat) ==> r == s
    decreases |s|
  {
    if |s| < |pat| then s
    else if s[..|pat|] == pat then
      assert OccursAt(s, pat, 0);
      rep + ReplaceAll(s[|pat|..], pat, rep)
    else
      assert forall i :: OccursAt(s[1..], pat, i) ==> OccursAt(s, pat, i + 1) by {
        forall i | OccursAt(s[1..], pat, i) ensures OccursAt(s, pat, i + 1) {
          assert s[1..][i..i + |pat|] == s[i + 1..i + 1 + |pat|];
        }
      }
      [s[0]] + ReplaceAll(s[1..], pat, rep)
  }

  /** A prefix in which `pat` starts nowhere is copied unchanged. */
  lemma {:induction false} ReplaceAllSkips(s: string, pat: string, rep: string, n: nat)
    requires |pat| > 0 && n <= |s|
    requires forall j :: 0 <= j < n ==> !OccursAt(s, pat, j)
    ensures ReplaceAll(s, pat, rep) == s[..n] + ReplaceAll(s[n..], pat, rep)
    decreases n
  {
    if n > 0 && |s| >= |pat| {
      assert !OccursAt(s, pat, 0);
      NoOccurrenceShift(s, pat, n);
      ReplaceAllSkips(s[1..], pat, rep, n - 1);
      assert s[1..][n - 1..] == s[n..];
      assert [s[0]] + s[1..][..n - 1] == s[..n];
    } else if n > 0 {
      assert s[..n] + s[n..] == s;
    }
  }

  /** No occurrence among the first `n` positions means none among the first `n - 1` after dropping one character. */
  lemma NoOccurrenceShift(s: string, pat: string, n: nat)
    requires 0 < n <= |s|
    requires forall j :: 0 <= j < n ==> !OccursAt(s, pat, j)
    ensures forall j :: 0 <= j < n - 1 ==> !OccursAt(s[1..], pat, j)
  {
    forall j | 0 <= j < n - 1 ensures !OccursAt(s[1..], pat, j) {
      if OccursAt(s[1..], pat, j) {
        assert s[1..][j..j + |pat|] == s[j + 1..j + 1 + |pat|];
        assert OccursAt(s, pat, j + 1);
      }
    }
  }

  /** `s.replace(pat, rep) == rep.join(s.split(pat))`: replacement is split-then-join. */
  lemma {:induction false} ReplaceAllIsSplitJoin(s: string, pat: string, rep: string)
    requires |pat| > 0
    ensures ReplaceAll(s, pat, rep) == JoinWith(Split(s, pat), rep)
    decreases |s|
  {
    match Find(s, pat)
    case None =>
    case Some(i) =>
      var tail := s[i..];
      var after := s[i + |pat|..];
      ReplaceAllSkips(s, pat, rep, i);
      assert tail[..|pat|] == pat && tail[|pat|..] == after;
      assert ReplaceAll(tail, pat, rep) == rep + ReplaceAll(after, pat, rep);
      ReplaceAllIsSplitJoin(after, pat, rep);
      var rest := Split(after, pat);
      var parts := [s[..i]] + rest;
      assert Split(s, pat) == parts;
      assert parts[1..] == rest;
      assert JoinWith(parts, rep) == s[..i] + rep + JoinWith(rest, rep);
  }

  /** Text in which no token can begin is copied verbatim by the replacement of any token. */
  lemma ReplaceAllSkipsText(a: string, t: string, name: string, rep: string)
    requires NoTokenStart(a)
    ensures ReplaceAll(a + t, Token(name), rep) == a + ReplaceAll(t, Token(name), rep)
  {
    var s := a + t;
    forall j | 0 <= j < |a| ensures !OccursAt(s, Token(name), j) {
      if j + |Token(name)| <= |s| && a[j] == '{' {
        var w := s[j..j + |Token(name)|];
        assert w[1] == s[j + 1] == a[j + 1] != Token(name)[1];
      } else if j + |Token(name)| <= |s| {
        assert s[j..j + |Token(name)|][0] == a[j] != Token(name)[0];
      }
    }
    ReplaceAllSkips(s, Token(name), rep, |a|);
    assert s[..|a|] == a && s[|a|..] == t;
  }

  /** The token itself at the head is replaced. */
  lemma ReplaceAllHitsToken(t: string, name: string, rep: string)
    ensures ReplaceAll(Token(name) + t, Token(name), rep) == rep + ReplaceAll(t, Token(name), rep)
  {
    var s := Token(name) + t;
    assert s[..|Token(name)|] == Token(name);
    assert s[|Token(name)|..] == t;
  }

  /** A different well-formed token at the head is copied verbatim. */
  lemma ReplaceAllSkipsOtherToken(other: string, t: string, name: string, rep: string)
    requires ValidName(other) && ValidName(name) && other != name
    ensures ReplaceAll(Token(other) + t, Token(name), rep) == Token(other) + ReplaceAll(t, Token(name), rep)
  {
    var s := Token(other) + t;
    var pat := Token(name);
    forall j | 0 <= j < |Token(other)| ensures !OccursAt(s, pat, j) {
      if j + |pat| <= |s| {
        var w := s[j..j + |pat|];
        if j == 0 {
          if |other| == |name| {
            var m :| 0 <= m < |name| && other[m] != name[m];
            assert w[2 + m] == other[m] && pat[2 + m] == name[m];
          } else if |other| < |name| {
            assert w[2 + |other|] == '}' && pat[2 + |other|] == name[|other|];
            assert name[|other|] in name;
          } else {
            assert w[2 + |name|] == other[|name|] && pat[2 + |name|] == '}';
            assert other[|name|] in other;
          }
        } else if j == 1 {
          assert w[1] == other[0] && other[0] in other;
        } else {
          assert w[0] == (if j < |other| + 2 then other[j - 2] else '}');
          assert j < |other| + 2 ==> other[j - 2] in other;
        }
      }
    }
    ReplaceAllSkips(s, pat, rep, |Token(other)|);
    assert s[..|Token(other)|] == Token(other) && s[|Token(other)|..] == t;
  }

  /** A template viewed structurally: literal text or a `{{name}}` slot. */
  datatype Segment = Text(text: string) | Slot(name: string)

  function SegmentString(g: Segment): string {
    match g
    case Text(t) => t
    case Slot(n) => Token(n)
  }

  /** The template string a list of segments spells. */
  function Compose(segs: seq<Segment>): string {
    if |segs| == 0 then "" else SegmentString(segs[0]) + Compose(segs[1..])
  }

  /** `texts[0] {{names[0]}} texts[1] … {{names[n-1]}} texts[n]` as segments. */
  function Interleave(texts: seq<string>, names: seq<string>): (segs: seq<Segment>)
    requires |texts| == |names| + 1
    ensures |segs| == 2 * |names| + 1
    ensures forall i :: 0 <= i < |segs| && i % 2 == 0 ==> segs[i] == Text(texts[i / 2])
    ensures forall i :: 0 <= i < |segs| && i % 2 == 1 ==> segs[i] == Slot(names[i / 2])
  {
    seq(2 * |names| + 1, i requires 0 <= i < 2 * |names| + 1 =>
      if i % 2 == 0 then Text(texts[i / 2]) else Slot(names[i / 2]))
  }

  /**
   * No token can begin inside literal text (it may hold single braces, as CSS
   * does, but no `{{` and no trailing `{`) and every slot has a valid name.
   */
  predicate WellFormed(segs: seq<Segment>) {
    forall k :: 0 <= k < |segs| ==>
      match segs[k]
      case Text(t) => NoTokenStart(t)
      case Slot(n) => ValidName(n)
  }

  /** Text without any opening brace is in particular text in which no token can begin. */
  lemma PlainSegmentsWellFormed(segs: seq<Segment>)
    requires forall k :: 0 <= k < |segs| ==>
      match segs[k]
      case Text(t) => NoOpenBrace(t)
      case Slot(n) => ValidName(n)
    ensures WellFormed(segs)
  {
    forall k | 0 <= k < |segs| && segs[k].Text? ensures NoTokenStart(segs[k].text) {
      NoOpenBraceNoTokenStart(segs[k].text);
    }
  }

  /** One `{{name}}` → value substitution. */
  datatype Binding = Binding(name: string, value: string)

  /** The value of the first binding for `name`. */
  function Lookup(bindings: seq<Binding>, name: string): (r: Option<string>)
    ensures r.Some? ==> exists k :: 0 <= k < |bindings| && bindings[k] == Binding(name, r.value) &&
                                    forall m :: 0 <= m < k ==> bindings[m].name != name
    ensures r.None? <==> forall k :: 0 <= k < |bindings| ==> bindings[k].name != name
  {
    if |bindings| == 0 then None
    else if bindings[0].name == name then Some(bindings[0].value)
    else
      var r := Lookup(bindings[1..], name);
      assert forall k :: 1 <= k < |bindings| ==> bindings[k] == bindings[1..][k - 1];
      if r.Some? then
        var k :| 0 <= k < |bindings[1..]| && bindings[1..][k] == Binding(name, r.value) &&
                 forall m :: 0 <= m < k ==> bindings[1..][m].name != name;
        assert bindings[k + 1] == Binding(name, r.value);
        assert forall m :: 0 <= m < k + 1 ==> bindings[m].name != name by {
          forall m | 0 <= m < k + 1 ensures bindings[m].name != name {
            if m > 0 {
              assert bindings[m] == bindings[1..][m - 1];
            }
          }
        }
        r
      else
        r
  }

  /** A slot with a bound name becomes its value; everything else stays as it is. */
  function FillSegment(g: Segment, bindings: seq<Binding>): Segment {
    match g
    case Text(_) => g
    case Slot(n) =>
      match Lookup(bindings, n)
      case Some(v) => Text(v)
      case None => g
  }

  function Fill(segs: seq<Segment>, bindings: seq<Binding>): (r: seq<Segment>)
    ensures |r| == |segs|
    ensures forall k :: 0 <= k < |segs| ==> r[k] == FillSegment(segs[k], bindings)
  {
    seq(|segs|, k requires 0 <= k < |segs| => FillSegment(segs[k], bindings))
  }

  /** The label renderer's core: each binding's token replaced everywhere, in binding order. */
  function SubstituteAll(s: string, bindings: seq<Binding>): (r: string)
    ensures (forall k :: 0 <= k < |bindings| ==> !Occurs(s, Token(bindings[k].name))) ==> r == s
    decreases |bindings|
  {
    if |bindings| == 0 then s
    else
      assert forall k :: 1 <= k < |bindings| ==> bindings[1..][k - 1] == bindings[k];
      SubstituteAll(ReplaceAll(s, Token(bindings[0].name), bindings[0].value), bindings[1..])
  }

  /** All names valid and no token can begin inside any value. */
  predicate CleanBindings(bindings: seq<Binding>) {
    forall k :: 0 <= k < |bindings| ==> ValidName(bindings[k].name) && NoTokenStart(bindings[k].value)
  }

  /** Replacing one token in a well-formed template fills exactly the slots with that name. */
  lemma {:induction false} ReplaceAllFillsSlots(segs: seq<Segment>, b: Binding)
    requires WellFormed(segs) && ValidName(b.name)
    ensures ReplaceAll(Compose(segs), Token(b.name), b.value) == Compose(Fill(segs, [b]))
    decreases |segs|
  {
    if |segs| > 0 {
      var rest := Compose(segs[1..]);
      ReplaceAllFillsSlots(segs[1..], b);
      var filled := Fill(segs, [b]);
      assert filled[1..] == Fill(segs[1..], [b]);
      match segs[0]
      case Text(t) =>
        ReplaceAllSkipsText(t, rest, b.name, b.value);
      case Slot(n) =>
        if n == b.name {
          ReplaceAllHitsToken(rest, n, b.value);
        } else {
          ReplaceAllSkipsOtherToken(n, rest, b.name, b.value);
        }
    }
  }

  /** Filling slots with a value in which no token can begin keeps a template well formed. */
  lemma FillOneWellFormed(segs: seq<Segment>, b: Binding)
    requires WellFormed(segs) && NoTokenStart(b.value)
    ensures WellFormed(Fill(segs, [b]))
  {
  }

  /**
   * On a well-formed template with clean bindings, sequential replacement is
   * slot filling: every slot whose name has a binding becomes the first value
   * bound to it, slots for unknown names and all literal text stay verbatim.
   */
  lemma {:induction false} SubstituteAllFillsSlots(segs: seq<Segment>, bindings: seq<Binding>)
    requires WellFormed(segs) && CleanBindings(bindings)
    ensures SubstituteAll(Compose(segs), bindings) == Compose(Fill(segs, bindings))
    decreases |bindings|
  {
    if |bindings| > 0 {
      var b := bindings[0];
      var rest := bindings[1..];
      assert ValidName(b.name) && NoTokenStart(b.value);
      ReplaceAllFillsSlots(segs, b);
      var once := Fill(segs, [b]);
      FillOneWellFormed(segs, b);
      SubstituteAllFillsSlots(once, rest);
      forall k | 0 <= k < |segs| ensures Fill(once, rest)[k] == Fill(segs, bindings)[k] {
        if segs[k].Slot? {
          var n := segs[k].name;
          if n == b.name {
            assert Lookup(bindings, n) == Some(b.value);
          } else {
            assert Lookup([b], n) == None;
            assert Lookup(bindings, n) == Lookup(rest, n);
          }
        }
      }
      assert Fill(once, rest) == Fill(segs, bindings);
    } else {
      assert Fill(segs, bindings) == segs;
    }
  }

  /** Composing literal texts in which no token can begin yields such a text. */
  lemma {:induction false} ComposeTextNoTokenStart(segs: seq<Segment>)
    requires forall k :: 0 <= k < |segs| ==> segs[k].Text? && NoTokenStart(segs[k].text)
    ensures NoTokenStart(Compose(segs))
    decreases |segs|
  {
    if |segs| > 0 {
      ComposeTextNoTokenStart(segs[1..]);
      NoTokenStartAppend(segs[0].text, Compose(segs[1..]));
    }
  }

  /** Text in which no token can begin contains no token. */
  lemma NoTokenStartHasNoToken(s: string, name: string)
    requires NoTokenStart(s)
    ensures !Occurs(s, Token(name))
  {
    forall i | 0 <= i <= |s| - |Token(name)| ensures !OccursAt(s, Token(name), i) {
      var w := s[i..i + |Token(name)|];
      assert w[0] == s[i] && w[1] == s[i + 1];
    }
  }

  /**
   * When every slot of a well-formed template has a binding, filling it with
   * clean bindings leaves text in which no token of any name can begin.
   */
  lemma FillCompleteNoToken(segs: seq<Segment>, bindings: seq<Binding>)
    requires WellFormed(segs) && CleanBindings(bindings)
    requires forall i :: 0 <= i < |segs| && segs[i].Slot? ==> Lookup(bindings, segs[i].name).Some?
    ensures NoTokenStart(Compose(Fill(segs, bindings)))
    ensures forall name :: !Occurs(Compose(Fill(segs, bindings)), Token(name))
  {
    var filled := Fill(segs, bindings);
    forall i | 0 <= i < |filled| ensures filled[i].Text? && NoTokenStart(filled[i].text) {
      if segs[i].Slot? {
        var v := Lookup(bindings, segs[i].name).value;
        var j :| 0 <= j < |bindings| && bindings[j] == Binding(segs[i].name, v);
      }
    }
    ComposeTextNoTokenStart(filled);
    forall name ensures !Occurs(Compose(filled), Token(name)) {
      NoTokenStartHasNoToken(Compose(filled), name);
    }
  }
}
