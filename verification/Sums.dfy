/** Multiset sums over finite maps, independent of the order in which a cache lists its keys. */
module Sums {
  import opened Kube

  /** A listing of a set: each member once, in some order. */
  ghost predicate Enumerates<T(!new)>(order: seq<T>, s: set<T>) {
    && (forall i, j | 0 <= i < j < |order| :: order[i] != order[j])
    && (forall x :: x in order <==> x in s)
  }

  function Repeat<T>(xs: seq<T>, n: nat): seq<T> {
    if n == 0 then [] else xs + Repeat(xs, n - 1)
  }

  function Count<T(==)>(xs: seq<T>, x: T): nat {
    if xs == [] then 0 else Count(xs[..|xs| - 1], x) + if xs[|xs| - 1] == x then 1 else 0
  }

  /** The chunks of `m` in the listed order, concatenated. */
  function Flatten<T>(order: seq<Key>, m: map<Key, seq<T>>): seq<T>
    requires forall k | k in order :: k in m
  {
    if order == [] then [] else Flatten(order[..|order| - 1], m) + m[order[|order| - 1]]
  }

  /** The union, with multiplicities, of all chunks of `m`. */
  ghost function SumOver<T>(m: map<Key, seq<T>>): multiset<T>
    decreases m.Keys
  {
    if m == map[] then multiset{}
    else
      var k :| k in m;
      assert (m - {k}).Keys == m.Keys - {k};
      multiset(m[k]) + SumOver(m - {k})
  }

  /** Any key can be summed first. */
  lemma {:induction false} SumExtract<T>(m: map<Key, seq<T>>, k: Key)
    requires k in m
    ensures SumOver(m) == multiset(m[k]) + SumOver(m - {k})
    decreases m.Keys
  {
    var first :| first in m && SumOver(m) == multiset(m[first]) + SumOver(m - {first});
    if first != k {
      assert (m - {first}).Keys == m.Keys - {first};
      SumExtract(m - {first}, k);
      assert (m - {k}).Keys == m.Keys - {k};
      SumExtract(m - {k}, first);
      assert m - {first} - {k} == m - {k} - {first};
    }
  }

  lemma {:induction false} FlattenIgnores<T>(order: seq<Key>, m: map<Key, seq<T>>, k: Key)
    requires forall o | o in order :: o in m && o != k
    ensures Flatten(order, m) == Flatten(order, m - {k})
  {
    if order != [] {
      FlattenIgnores(order[..|order| - 1], m, k);
    }
  }

  lemma {:induction false} InRepeat<T>(xs: seq<T>, n: nat, x: T)
    ensures x in Repeat(xs, n) <==> n > 0 && x in xs
  {
    if n > 0 {
      InRepeat(xs, n - 1, x);
    }
  }

  /** Something is in the sum exactly when it is in the part of some key. */
  lemma {:induction false} InSum<T>(m: map<Key, seq<T>>, x: T)
    ensures x in SumOver(m) <==> exists k :: k in m && x in m[k]
    decreases |m|
  {
    if m != map[] {
      var k :| k in m;
      SumExtract(m, k);
      assert |m - {k}| < |m|;
      InSum(m - {k}, x);
      assert x in multiset(m[k]) <==> x in m[k];
      assert forall j | j in m && j != k :: j in m - {k} && (m - {k})[j] == m[j];
    }
  }

  lemma {:induction false} CountsNamed(xs: seq<string>, x: string)
    ensures Count(xs, x) > 0 <==> x in xs
  {
    if xs != [] {
      CountsNamed(xs[..|xs| - 1], x);
      assert xs == xs[..|xs| - 1] + [xs[|xs| - 1]];
    }
  }

  /** A listing in any order yields the sum. */
  lemma {:induction false} SumFlatten<T>(order: seq<Key>, m: map<Key, seq<T>>)
    requires Enumerates(order, m.Keys)
    ensures multiset(Flatten(order, m)) == SumOver(m)
  {
    if order == [] {
      assert forall k | k in m.Keys :: k in order;
      assert m == map[];
    } else {
      var n := |order| - 1;
      var k, front := order[n], order[..n];
      assert k in order;
      forall x ensures x in front <==> x in (m - {k}).Keys {
        assert x in order <==> x == k || x in front;
        if x in front {
          var i :| 0 <= i < |front| && front[i] == x;
          assert order[i] != order[n];
        }
      }
      FlattenIgnores(front, m, k);
      SumFlatten(front, m - {k});
      SumExtract(m, k);
    }
  }

  /** The chunks of `m`, each repeated `w` times as often as its namespace occurs in the list. */
  function Weighted<T>(m: map<Key, seq<T>>, namespaces: seq<string>): map<Key, seq<T>> {
    map k | k in m :: Repeat(m[k], Count(namespaces, k.ns))
  }

  function InNamespace<T>(m: map<Key, T>, ns: string): map<Key, T> {
    map k | k in m && k.ns == ns :: m[k]
  }

  lemma SumWeightedAt<T>(m: map<Key, seq<T>>, namespaces: seq<string>, k: Key)
    requires k in m
    ensures SumOver(Weighted(m, namespaces))
         == multiset(Repeat(m[k], Count(namespaces, k.ns))) + SumOver(Weighted(m - {k}, namespaces))
  {
    SumExtract(Weighted(m, namespaces), k);
    assert Weighted(m, namespaces) - {k} == Weighted(m - {k}, namespaces);
  }

  lemma SumInNamespaceAt<T>(m: map<Key, seq<T>>, ns: string, k: Key)
    requires k in m
    ensures SumOver(InNamespace(m, ns))
         == (if k.ns == ns then multiset(m[k]) else multiset{}) + SumOver(InNamespace(m - {k}, ns))
  {
    if k.ns == ns {
      SumExtract(InNamespace(m, ns), k);
      assert InNamespace(m, ns) - {k} == InNamespace(m - {k}, ns);
    } else {
      assert InNamespace(m, ns) == InNamespace(m - {k}, ns);
    }
  }

  lemma RepeatOnceMore<T>(xs: seq<T>, front: seq<string>, ns: string, other: string)
    ensures multiset(Repeat(xs, Count(front + [ns], other)))
         == multiset(Repeat(xs, Count(front, other))) + if ns == other then multiset(xs) else multiset{}
  {
    assert (front + [ns])[..|front|] == front;
    assert Count(front + [ns], other) == Count(front, other) + if ns == other then 1 else 0;
  }

  /** One more occurrence of a namespace adds its chunks exactly once more. */
  lemma {:induction false} SumWeightedStep<T>(m: map<Key, seq<T>>, front: seq<string>, ns: string)
    ensures SumOver(Weighted(m, front + [ns])) == SumOver(Weighted(m, front)) + SumOver(InNamespace(m, ns))
    decreases m.Keys
  {
    if m == map[] {
      assert InNamespace(m, ns) == map[] && Weighted(m, front) == map[] && Weighted(m, front + [ns]) == map[];
    } else {
      var k :| k in m;
      assert (m - {k}).Keys == m.Keys - {k};
      SumWeightedStep(m - {k}, front, ns);
      SumWeightedAt(m, front + [ns], k);
      SumWeightedAt(m, front, k);
      SumInNamespaceAt(m, ns, k);
      RepeatOnceMore(m[k], front, ns, k.ns);
    }
  }

  lemma {:induction false} SumEmptyChunks<T>(m: map<Key, seq<T>>)
    requires forall k | k in m :: m[k] == []
    ensures SumOver(m) == multiset{}
    decreases m.Keys
  {
    if m != map[] {
      var k :| k in m;
      SumExtract(m, k);
      assert (m - {k}).Keys == m.Keys - {k};
      SumEmptyChunks(m - {k});
    }
  }

  function NonEmpty<T(==)>(m: map<Key, seq<T>>): map<Key, seq<T>> {
    map k | k in m && m[k] != [] :: m[k]
  }

  /** Empty chunks do not matter. */
  lemma {:induction false} SumNonEmpty<T>(m: map<Key, seq<T>>)
    ensures SumOver(m) == SumOver(NonEmpty(m))
    decreases m.Keys
  {
    if m == map[] {
      assert NonEmpty(m) == map[];
    } else {
      var k :| k in m;
      assert (m - {k}).Keys == m.Keys - {k};
      SumNonEmpty(m - {k});
      SumExtract(m, k);
      if m[k] != [] {
        assert NonEmpty(m) - {k} == NonEmpty(m - {k});
        SumExtract(NonEmpty(m), k);
      } else {
        assert NonEmpty(m) == NonEmpty(m - {k});
      }
    }
  }

  lemma NonEmptyAgree<T>(m: map<Key, seq<T>>, m': map<Key, seq<T>>)
    requires forall k | k in m && m[k] != [] :: k in m' && m'[k] == m[k]
    requires forall k | k in m' && m'[k] != [] :: k in m && m[k] == m'[k]
    ensures NonEmpty(m) == NonEmpty(m')
  {
    assert NonEmpty(m).Keys == NonEmpty(m').Keys;
  }

  /** Maps that agree on their non-empty chunks have the same sum. */
  lemma SumAgree<T>(m: map<Key, seq<T>>, m': map<Key, seq<T>>)
    requires forall k | k in m && m[k] != [] :: k in m' && m'[k] == m[k]
    requires forall k | k in m' && m'[k] != [] :: k in m && m[k] == m'[k]
    ensures SumOver(m) == SumOver(m')
  {
    NonEmptyAgree(m, m');
    SumNonEmpty(m);
    SumNonEmpty(m');
  }

  /** Adding up what `f` finds, item by item. */
  ghost function Total<A, B>(xs: seq<A>, f: A -> multiset<B>): multiset<B> {
    if xs == [] then multiset{} else Total(xs[..|xs| - 1], f) + f(xs[|xs| - 1])
  }

  lemma {:induction false} TotalAppend<A, B>(xs: seq<A>, ys: seq<A>, f: A -> multiset<B>)
    ensures Total(xs + ys, f) == Total(xs, f) + Total(ys, f)
  {
    if ys == [] {
      assert xs + ys == xs;
    } else {
      TotalAppend(xs, ys[..|ys| - 1], f);
      assert (xs + ys)[..|xs + ys| - 1] == xs + ys[..|ys| - 1];
    }
  }

  lemma {:induction false} TotalAgree<A, B, C>(xs: seq<A>, f: A -> multiset<C>, ys: seq<B>, g: B -> multiset<C>)
    requires |xs| == |ys| && forall i | 0 <= i < |xs| :: f(xs[i]) == g(ys[i])
    ensures Total(xs, f) == Total(ys, g)
  {
    if xs != [] {
      TotalAgree(xs[..|xs| - 1], f, ys[..|ys| - 1], g);
    }
  }

  /** Listing namespace by namespace, in the given order and with repetitions. */
  ghost function SumByNamespace<T>(m: map<Key, seq<T>>, namespaces: seq<string>): multiset<T> {
    Total(namespaces, ns => SumOver(InNamespace(m, ns)))
  }

  /** Listing by namespace equals weighting every object by how often its namespace is named. */
  lemma {:induction false} SumByNamespaceIsWeighted<T>(m: map<Key, seq<T>>, namespaces: seq<string>)
    ensures SumByNamespace(m, namespaces) == SumOver(Weighted(m, namespaces))
    decreases |namespaces|
  {
    if namespaces == [] {
      SumEmptyChunks(Weighted(m, namespaces));
    } else {
      var front, ns := namespaces[..|namespaces| - 1], namespaces[|namespaces| - 1];
      SumByNamespaceIsWeighted(m, front);
      SumWeightedStep(m, front, ns);
      assert front + [ns] == namespaces;
    }
  }
}
