/**
 * Mapping every element of a sequence to a sequence and concatenating the
 * results, element after element. The watchman and notify models use it for
 * "each record appends its events", "each rule adds its term" and "each event
 * makes its calls".
 */
module Sequences {

  function FlatMap<T, U>(f: T -> seq<U>, s: seq<T>): seq<U>
    decreases |s|
  {
    if s == [] then [] else FlatMap(f, s[..|s| - 1]) + f(s[|s| - 1])
  }

  /** One more element appends its own image. */
  lemma FlatMapSnoc<T, U>(f: T -> seq<U>, s: seq<T>, x: T)
    ensures FlatMap(f, s + [x]) == FlatMap(f, s) + f(x)
  {
    assert (s + [x])[..|s|] == s;
  }

  /** The image of a concatenation is the concatenation of the images: elements are handled in order. */
  lemma {:induction false} FlatMapAppend<T, U>(f: T -> seq<U>, a: seq<T>, b: seq<T>)
    ensures FlatMap(f, a + b) == FlatMap(f, a) + FlatMap(f, b)
    decreases |b|
  {
    if b == [] {
      assert a + b == a;
    } else {
      var b', last := b[..|b| - 1], b[|b| - 1];
      assert a + b == (a + b') + [last];
      assert b == b' + [last];
      FlatMapSnoc(f, a + b', last);
      FlatMapSnoc(f, b', last);
      FlatMapAppend(f, a, b');
    }
  }

  /** Everything in the result comes from the image of some element. */
  lemma {:induction false} FlatMapMember<T, U>(f: T -> seq<U>, s: seq<T>, y: U)
    requires y in FlatMap(f, s)
    ensures exists k :: 0 <= k < |s| && y in f(s[k])
    decreases |s|
  {
    var front := s[..|s| - 1];
    if y in FlatMap(f, front) {
      FlatMapMember(f, front, y);
      var k :| 0 <= k < |front| && y in f(front[k]);
      assert s[k] == front[k];
    } else {
      assert y in f(s[|s| - 1]);
    }
  }

  /** Everything in the image of an element is in the result. */
  lemma FlatMapContains<T, U>(f: T -> seq<U>, s: seq<T>, k: nat, y: U)
    requires k < |s| && y in f(s[k])
    ensures y in FlatMap(f, s)
  {
    assert s == s[..k + 1] + s[k + 1..];
    assert s[..k + 1] == s[..k] + [s[k]];
    FlatMapAppend(f, s[..k + 1], s[k + 1..]);
    FlatMapSnoc(f, s[..k], s[k]);
  }

  /** When no element has more than one image, the result is no longer than the input. */
  lemma {:induction false} FlatMapAtMostOneEach<T, U>(f: T -> seq<U>, s: seq<T>)
    requires forall k :: 0 <= k < |s| ==> |f(s[k])| <= 1
    ensures |FlatMap(f, s)| <= |s|
    decreases |s|
  {
    if s != [] {
      FlatMapAtMostOneEach(f, s[..|s| - 1]);
    }
  }

  /** When every element has an empty image, the result is empty. */
  lemma {:induction false} FlatMapAllEmpty<T, U>(f: T -> seq<U>, s: seq<T>)
    requires forall k :: 0 <= k < |s| ==> f(s[k]) == []
    ensures FlatMap(f, s) == []
    decreases |s|
  {
    if s != [] {
      FlatMapAllEmpty(f, s[..|s| - 1]);
    }
  }
}
