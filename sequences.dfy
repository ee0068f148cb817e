/**
 * Lists that refuse duplicates: `if (!list.contains(x)) list.add(x)` and the
 * insertion-ordered sets built that way.
 */
module Sequences {
  predicate NoDuplicates<T(==)>(xs: seq<T>)
  {
    forall i, j :: 0 <= i < j < |xs| ==> xs[i] != xs[j]
  }

  /** Adds `x` at the end unless it is already there. */
  function AddOnce<T(==)>(xs: seq<T>, x: T): (r: seq<T>)
    ensures x in r && |xs| <= |r| <= |xs| + 1 && r[..|xs|] == xs
    ensures |r| == |xs| + 1 ==> x !in xs && r[|xs|] == x
    ensures NoDuplicates(xs) ==> NoDuplicates(r)
  {
    if x in xs then xs else xs + [x]
  }

  /** Adding the same element twice is adding it once. */
  lemma AddOnceIdempotent<T>(xs: seq<T>, x: T)
    ensures AddOnce(AddOnce(xs, x), x) == AddOnce(xs, x)
  {
  }

  /** `AddOnce` of each of `xs` in turn. */
  function AddAllOnce<T(==)>(found: seq<T>, xs: seq<T>): (r: seq<T>)
    decreases |xs|
  {
    if xs == [] then found else AddOnce(AddAllOnce(found, xs[..|xs| - 1]), xs[|xs| - 1])
  }

  lemma AddAllOnceSnoc<T>(found: seq<T>, xs: seq<T>, x: T)
    ensures AddAllOnce(found, xs + [x]) == AddOnce(AddAllOnce(found, xs), x)
  {
    assert (xs + [x])[..|xs|] == xs;
  }

  /**
   * Adding a list keeps what was there, as a prefix, and adds exactly the
   * elements of the list that were missing, each once.
   */
  lemma {:induction false} AddAllOnceSpec<T>(found: seq<T>, xs: seq<T>)
    ensures var r := AddAllOnce(found, xs);
            |found| <= |r| && r[..|found|] == found &&
            (forall x :: x in r <==> x in found || x in xs) &&
            (NoDuplicates(found) ==> NoDuplicates(r))
    decreases |xs|
  {
    if xs != [] {
      var init := xs[..|xs| - 1];
      AddAllOnceSpec(found, init);
      var r0 := AddAllOnce(found, init);
      assert r0[..|found|] == found;
      assert AddOnce(r0, xs[|xs| - 1])[..|r0|] == r0;
      assert xs == init + [xs[|xs| - 1]];
      forall x
        ensures x in AddAllOnce(found, xs) <==> x in found || x in xs
      {
        var r := AddAllOnce(found, xs);
        if x in r && x !in r0 {
          assert r == r0 + [xs[|xs| - 1]];
        }
        if x in r0 {
          var k :| 0 <= k < |r0| && r0[k] == x;
          assert r[k] == x;
        }
      }
    }
  }

  /** Adding two lists in turn is adding their concatenation. */
  lemma {:induction false} AddAllOnceConcat<T>(found: seq<T>, xs: seq<T>, ys: seq<T>)
    ensures AddAllOnce(AddAllOnce(found, xs), ys) == AddAllOnce(found, xs + ys)
    decreases |ys|
  {
    if ys == [] {
      assert xs + ys == xs;
    } else {
      var init := ys[..|ys| - 1];
      AddAllOnceConcat(found, xs, init);
      assert (xs + ys)[..|xs + ys| - 1] == xs + init;
      assert (xs + ys)[|xs + ys| - 1] == ys[|ys| - 1];
    }
  }
}
