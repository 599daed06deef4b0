/** Mapping each element of a list to a list and concatenating the results. */
module Seqs {
  /** `f(xs[0]) + f(xs[1]) + …`, built from the back as a loop appending each result would build it. */
  function FlatMap<T, U>(f: T -> seq<U>, xs: seq<T>): seq<U>
    decreases |xs|
  {
    if |xs| == 0 then [] else FlatMap(f, xs[..|xs| - 1]) + f(xs[|xs| - 1])
  }

  /** Concatenation distributes over splitting the input. */
  lemma {:induction false} FlatMapAppend<T, U>(f: T -> seq<U>, a: seq<T>, b: seq<T>)
    ensures FlatMap(f, a + b) == FlatMap(f, a) + FlatMap(f, b)
    decreases |b|
  {
    if |b| == 0 {
      assert a + b == a;
    } else {
      var ab := a + b;
      assert ab[..|ab| - 1] == a + b[..|b| - 1];
      assert ab[|ab| - 1] == b[|b| - 1];
      FlatMapAppend(f, a, b[..|b| - 1]);
    }
  }

  lemma FlatMapSingle<T, U>(f: T -> seq<U>, x: T)
    ensures FlatMap(f, [x]) == f(x)
  {
    assert [x][..0] == [];
  }

  /** One more element of the input adds its image at the end: the step of a loop over `xs`. */
  lemma FlatMapPrefix<T, U>(f: T -> seq<U>, xs: seq<T>, i: nat)
    requires i < |xs|
    ensures FlatMap(f, xs[..i + 1]) == FlatMap(f, xs[..i]) + f(xs[i])
  {
    assert xs[..i + 1][..i] == xs[..i];
  }

  /** An element `f` maps to nothing can be dropped. */
  lemma FlatMapSkip<T, U>(f: T -> seq<U>, a: seq<T>, x: T, b: seq<T>)
    requires f(x) == []
    ensures FlatMap(f, a + [x] + b) == FlatMap(f, a + b)
  {
    FlatMapAppend(f, a + [x], b);
    FlatMapAppend(f, a, [x]);
    FlatMapSingle(f, x);
    FlatMapAppend(f, a, b);
  }

  /** When `f` maps every element to one value, the result has one value per element, in order. */
  lemma {:induction false} FlatMapAllSingle<T, U>(f: T -> seq<U>, xs: seq<T>)
    requires forall k :: 0 <= k < |xs| ==> |f(xs[k])| == 1
    ensures |FlatMap(f, xs)| == |xs|
    ensures forall k :: 0 <= k < |xs| ==> FlatMap(f, xs)[k] == f(xs[k])[0]
    decreases |xs|
  {
    if |xs| > 0 {
      var init := xs[..|xs| - 1];
      FlatMapAllSingle(f, init);
    }
  }

  /** When `f` gives at most one value per element, the result is no longer than the input. */
  lemma {:induction false} FlatMapAtMostOne<T, U>(f: T -> seq<U>, xs: seq<T>)
    requires forall k :: 0 <= k < |xs| ==> |f(xs[k])| <= 1
    ensures |FlatMap(f, xs)| <= |xs|
    decreases |xs|
  {
    if |xs| > 0 {
      FlatMapAtMostOne(f, xs[..|xs| - 1]);
    }
  }

  /** The result is empty exactly when `f` maps every element to nothing. */
  lemma {:induction false} FlatMapEmpty<T, U>(f: T -> seq<U>, xs: seq<T>)
    ensures FlatMap(f, xs) == [] <==> forall k :: 0 <= k < |xs| ==> f(xs[k]) == []
    decreases |xs|
  {
    if |xs| > 0 {
      FlatMapEmpty(f, xs[..|xs| - 1]);
    }
  }

  /** Every value in the result comes from the image of some element. */
  lemma {:induction false} FlatMapMembers<T, U>(f: T -> seq<U>, xs: seq<T>)
    ensures forall y :: y in FlatMap(f, xs) ==> exists k :: 0 <= k < |xs| && y in f(xs[k])
    decreases |xs|
  {
    if |xs| > 0 {
      var init := xs[..|xs| - 1];
      FlatMapMembers(f, init);
      forall y | y in FlatMap(f, xs) ensures exists k :: 0 <= k < |xs| && y in f(xs[k]) {
        if y in FlatMap(f, init) {
          var k :| 0 <= k < |init| && y in f(init[k]);
          assert xs[k] == init[k];
        } else {
          assert y in f(xs[|xs| - 1]);
        }
      }
    }
  }
}
