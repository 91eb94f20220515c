/**
 * The two list operations the script's passes are built from: removing one
 * element in place with `splice(j, 1)`, and the "kept in order" relation
 * that describes what such removals leave.
 */
module Sequences {

  /** `s.splice(j, 1)`: the sequence without its element at `j`. */
  function Splice<T>(s: seq<T>, j: nat): (r: seq<T>)
    requires j < |s|
    ensures |r| == |s| - 1
    ensures forall k :: 0 <= k < j ==> r[k] == s[k]
    ensures forall k :: j <= k < |r| ==> r[k] == s[k + 1]
  {
    s[..j] + s[j + 1..]
  }

  /** Splicing out the element after `a` leaves `a` and `b` joined. */
  lemma SpliceMiddle<T>(a: seq<T>, x: T, b: seq<T>)
    ensures Splice(a + [x] + b, |a|) == a + b
  {
    assert (a + [x] + b)[..|a|] == a;
    assert (a + [x] + b)[|a| + 1..] == b;
  }

  /** Overwriting the element after `a` leaves `a` and `b` as they were. */
  lemma UpdateMiddle<T>(a: seq<T>, x: T, y: T, b: seq<T>)
    ensures (a + [x] + b)[|a| := y] == a + [y] + b
  {
  }

  /**
   * Overwriting the element after `pre` with `y` and then either keeping it
   * or splicing it out: the list is `pre`, then what is kept, then `tail`.
   */
  lemma ReplaceThenKeepOrDrop<T>(pre: seq<T>, x: T, y: T, tail: seq<T>)
    ensures (pre + [x] + tail)[|pre| := y] == pre + ([y] + tail)
    ensures Splice((pre + [x] + tail)[|pre| := y], |pre|) == pre + ([] + tail)
  {
    UpdateMiddle(pre, x, y, tail);
    SpliceMiddle(pre, y, tail);
    assert pre + [y] + tail == pre + ([y] + tail);
    assert [] + tail == tail;
  }

  /** `a` is `b` with some elements left out, the rest in their original order. */
  ghost predicate SubseqOf<T>(a: seq<T>, b: seq<T>)
    decreases |b|
  {
    a == [] ||
    (b != [] &&
     ((a[|a| - 1] == b[|b| - 1] && SubseqOf(a[..|a| - 1], b[..|b| - 1])) ||
      SubseqOf(a, b[..|b| - 1])))
  }

  lemma {:induction false} SubseqOfSelf<T>(a: seq<T>)
    ensures SubseqOf(a, a)
    decreases |a|
  {
    if a != [] {
      SubseqOfSelf(a[..|a| - 1]);
    }
  }

  /** Whatever is in order inside `b` without its element `j` is in order inside `b`. */
  lemma {:induction false} SubseqOfSplice<T>(a: seq<T>, b: seq<T>, j: nat)
    requires j < |b|
    requires SubseqOf(a, Splice(b, j))
    ensures SubseqOf(a, b)
    decreases |b|
  {
    var init := b[..|b| - 1];
    if a == [] {
    } else if j == |b| - 1 {
      assert Splice(b, j) == init;
    } else {
      var c := Splice(b, j);
      assert c[..|c| - 1] == Splice(init, j);
      assert c[|c| - 1] == b[|b| - 1];
      if a[|a| - 1] == c[|c| - 1] && SubseqOf(a[..|a| - 1], c[..|c| - 1]) {
        SubseqOfSplice(a[..|a| - 1], init, j);
      } else {
        SubseqOfSplice(a, init, j);
      }
    }
  }
}
