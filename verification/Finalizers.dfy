/** Finalizer lists: `containsString`, append, and the in-place `removeString`. */
module Finalizers {
  const FINALIZER := "routemaps.github.com/finalizer"

  function Without(xs: seq<string>, x: string): seq<string> {
    if xs == [] then []
    else Without(xs[..|xs| - 1], x) + if xs[|xs| - 1] == x then [] else [xs[|xs| - 1]]
  }

  /**
   * `removeString` compacts into the array it is reading from. The result is the prefix of length `kept`;
   * the slots behind it keep their old strings, which the caller no longer sees.
   */
  method RemoveString(a: array<string>, x: string) returns (kept: nat)
    modifies a
    ensures kept <= a.Length
    ensures a[..kept] == Without(old(a[..]), x)
    ensures a[kept..] == old(a[kept..])
  {
    kept := 0;
    for i := 0 to a.Length
      invariant kept <= i
      invariant a[..kept] == Without(old(a[..])[..i], x)
      invariant a[kept..] == old(a[kept..])
    {
      var v := a[i];
      assert v == old(a[..])[i];
      assert old(a[..])[..i + 1][..i] == old(a[..])[..i];
      if v != x {
        ghost var front := a[..kept];
        a[kept] := v;
        kept := kept + 1;
        assert a[..kept] == front + [v];
      }
    }
    assert old(a[..])[..a.Length] == old(a[..]);
  }

  /** What removal means: the target is gone, and everything else keeps its count. */
  lemma {:induction false} WithoutKeepsTheRest(xs: seq<string>, x: string)
    ensures x !in Without(xs, x)
    ensures multiset(Without(xs, x)) == multiset(xs)[x := 0]
    ensures (Without(xs, x) == xs) <==> x !in xs
  {
    if xs != [] {
      var n := |xs| - 1;
      WithoutKeepsTheRest(xs[..n], x);
      assert xs == xs[..n] + [xs[n]];
    }
  }

  /** Order is kept too: removal distributes over concatenation. */
  lemma {:induction false} WithoutAppend(xs: seq<string>, ys: seq<string>, x: string)
    ensures Without(xs + ys, x) == Without(xs, x) + Without(ys, x)
  {
    if ys == [] {
      assert xs + ys == xs;
    } else {
      var n := |ys| - 1;
      WithoutAppend(xs, ys[..n], x);
      assert (xs + ys)[..|xs| + n] == xs + ys[..n];
    }
  }

  /** Adding the finalizer and removing it restores the list exactly when it was not there before. */
  lemma AddThenRemove(xs: seq<string>, x: string)
    ensures Without(xs + [x], x) == xs <==> x !in xs
  {
    WithoutAppend(xs, [x], x);
    assert Without([x][..0], x) == [];
    WithoutKeepsTheRest(xs, x);
  }
}
