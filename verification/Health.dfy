/** The value-level meaning of `mergeHealth` and `UpdateEndpointHealth`. */
module Health {
  import opened Kube

  function Refs(eps: seq<Endpoint>): set<Key> {
    set ep | ep in eps :: ep.sourceRef
  }

  /** The previous states by reference; the last endpoint of a reference wins. */
  function PrevMap(eps: seq<Endpoint>): map<Key, HealthState> {
    if eps == [] then map[]
    else PrevMap(eps[..|eps| - 1])[eps[|eps| - 1].sourceRef := eps[|eps| - 1].health]
  }

  function MergeOne(prev: map<Key, HealthState>, ep: Endpoint): Endpoint {
    if ep.sourceRef in prev then ep.(health := prev[ep.sourceRef]) else ep
  }

  function Merge(prev: map<Key, HealthState>, found: seq<Endpoint>): seq<Endpoint> {
    seq(|found|, i requires 0 <= i < |found| => MergeOne(prev, found[i]))
  }

  function WriteOne(ep: Endpoint, ref: Key, state: HealthState): Endpoint {
    if ep.sourceRef == ref then ep.(health := state) else ep
  }

  function WriteHealth(eps: seq<Endpoint>, ref: Key, state: HealthState): seq<Endpoint> {
    seq(|eps|, i requires 0 <= i < |eps| => WriteOne(eps[i], ref, state))
  }

  function Erase(eps: seq<Endpoint>): seq<Endpoint> {
    seq(|eps|, i requires 0 <= i < |eps| => eps[i].(health := Unknown))
  }

  /** Writing health changes nothing else. */
  lemma EraseWrite(eps: seq<Endpoint>, ref: Key, state: HealthState)
    ensures Erase(WriteHealth(eps, ref, state)) == Erase(eps)
  {
  }

  function HealthyCount(eps: seq<Endpoint>): nat {
    if eps == [] then 0 else HealthyCount(eps[..|eps| - 1]) + if eps[|eps| - 1].health == Healthy then 1 else 0
  }

  /** Endpoints with the same reference agree on their health. */
  ghost predicate Uniform(eps: seq<Endpoint>) {
    forall i, j | 0 <= i < |eps| && 0 <= j < |eps| && eps[i].sourceRef == eps[j].sourceRef ::
      eps[i].health == eps[j].health
  }

  lemma {:induction false} PrevMapKeys(eps: seq<Endpoint>)
    ensures PrevMap(eps).Keys == Refs(eps)
  {
    if eps != [] {
      var n := |eps| - 1;
      PrevMapKeys(eps[..n]);
      assert eps == eps[..n] + [eps[n]];
      assert Refs(eps) == Refs(eps[..n]) + {eps[n].sourceRef};
    }
  }

  /** Every entry of the map is the health of the last endpoint with that reference. */
  lemma {:induction false} PrevMapSource(eps: seq<Endpoint>, r: Key) returns (i: nat)
    requires r in PrevMap(eps)
    ensures i < |eps| && eps[i].sourceRef == r && eps[i].health == PrevMap(eps)[r]
    ensures forall j | i < j < |eps| :: eps[j].sourceRef != r
  {
    var n := |eps| - 1;
    if eps[n].sourceRef == r {
      i := n;
    } else {
      i := PrevMapSource(eps[..n], r);
    }
  }

  lemma UniformPrevMap(eps: seq<Endpoint>, i: nat)
    requires Uniform(eps) && i < |eps|
    ensures eps[i].sourceRef in PrevMap(eps) && PrevMap(eps)[eps[i].sourceRef] == eps[i].health
  {
    PrevMapKeys(eps);
    assert eps[i] in eps;
    var j := PrevMapSource(eps, eps[i].sourceRef);
  }

  /** On a uniform view the last-wins map does not depend on the order of the endpoints. */
  lemma PrevMapOrderFree(eps: seq<Endpoint>, other: seq<Endpoint>)
    requires Uniform(eps) && multiset(eps) == multiset(other)
    ensures PrevMap(eps) == PrevMap(other)
  {
    forall ep ensures ep in eps <==> ep in other {
      assert ep in eps <==> ep in multiset(eps);
      assert ep in other <==> ep in multiset(other);
    }
    PrevMapKeys(eps);
    PrevMapKeys(other);
    assert Refs(eps) == Refs(other);
    forall r | r in PrevMap(eps) ensures PrevMap(eps)[r] == PrevMap(other)[r] {
      var j := PrevMapSource(other, r);
      assert other[j] in other;
      var i :| 0 <= i < |eps| && eps[i] == other[j];
      UniformPrevMap(eps, i);
    }
  }

  /** The same endpoints with number `i` moved to the end, where its health wins. */
  function MoveLast(eps: seq<Endpoint>, i: nat): (moved: seq<Endpoint>)
    requires i < |eps|
    ensures |moved| == |eps| && moved[|eps| - 1] == eps[i]
  {
    eps[..i] + eps[i + 1..] + [eps[i]]
  }

  lemma MovedLast(eps: seq<Endpoint>, i: nat)
    requires i < |eps|
    ensures multiset(MoveLast(eps, i)) == multiset(eps)
    ensures eps[i].sourceRef in PrevMap(MoveLast(eps, i))
    ensures PrevMap(MoveLast(eps, i))[eps[i].sourceRef] == eps[i].health
  {
    assert eps == eps[..i] + [eps[i]] + eps[i + 1..];
    var moved := MoveLast(eps, i);
    assert multiset(moved) == multiset(eps[..i]) + multiset(eps[i + 1..]) + multiset{eps[i]};
    assert moved[..|moved| - 1] == eps[..i] + eps[i + 1..];
  }

  ghost predicate OrderFree(eps: seq<Endpoint>) {
    forall other: seq<Endpoint> | multiset(other) == multiset(eps) :: PrevMap(other) == PrevMap(eps)
  }

  /** The last-wins map is the same for every order of the endpoints exactly when the view is uniform. */
  lemma PrevMapOrderExactly(eps: seq<Endpoint>)
    ensures Uniform(eps) <==> OrderFree(eps)
  {
    if Uniform(eps) {
      forall other: seq<Endpoint> | multiset(other) == multiset(eps) ensures PrevMap(other) == PrevMap(eps) {
        PrevMapOrderFree(eps, other);
      }
    }
    if OrderFree(eps) {
      forall i, j | 0 <= i < |eps| && 0 <= j < |eps| && eps[i].sourceRef == eps[j].sourceRef
        ensures eps[i].health == eps[j].health
      {
        MovedLast(eps, i);
        MovedLast(eps, j);
        assert PrevMap(MoveLast(eps, i)) == PrevMap(eps) == PrevMap(MoveLast(eps, j));
      }
    }
  }

  ghost function HealthyPositions(eps: seq<Endpoint>, n: nat): set<int>
    requires n <= |eps|
  {
    set i | 0 <= i < n && eps[i].health == Healthy
  }

  lemma HealthyPositionsNext(eps: seq<Endpoint>, n: nat)
    requires n < |eps|
    ensures |HealthyPositions(eps, n + 1)| == |HealthyPositions(eps, n)| + if eps[n].health == Healthy then 1 else 0
  {
    var before := HealthyPositions(eps, n);
    assert HealthyPositions(eps, n + 1) == if eps[n].health == Healthy then before + {n} else before;
  }

  lemma {:induction false} HealthyUpTo(eps: seq<Endpoint>, n: nat)
    requires n <= |eps|
    ensures HealthyCount(eps[..n]) == |HealthyPositions(eps, n)|
  {
    if n > 0 {
      HealthyUpTo(eps, n - 1);
      HealthyPositionsNext(eps, n - 1);
      assert eps[..n][..n - 1] == eps[..n - 1];
    }
  }

  /** The count is the number of positions that are healthy. */
  lemma HealthyIsCount(eps: seq<Endpoint>)
    ensures HealthyCount(eps) == |set i | 0 <= i < |eps| && eps[i].health == Healthy|
  {
    HealthyUpTo(eps, |eps|);
    assert eps[..|eps|] == eps;
  }

  // --------------------------------------------------------- merging twice, counting twice

  /** One endpoint taken out: the same list up to order, with the endpoint last. */
  lemma TakeOut(eps: seq<Endpoint>, ep: Endpoint) returns (i: nat)
    requires ep in multiset(eps)
    ensures i < |eps| && eps[i] == ep && eps == eps[..i] + [ep] + eps[i + 1..]
    ensures multiset(eps[..i] + eps[i + 1..]) == multiset(eps) - multiset{ep}
  {
    i :| 0 <= i < |eps| && eps[i] == ep;
    assert eps == eps[..i] + [ep] + eps[i + 1..];
  }

  lemma LastOut(eps: seq<Endpoint>)
    requires eps != []
    ensures eps[|eps| - 1] in multiset(eps)
    ensures multiset(eps[..|eps| - 1]) == multiset(eps) - multiset{eps[|eps| - 1]}
  {
    assert eps == eps[..|eps| - 1] + [eps[|eps| - 1]];
  }

  lemma MergeConcat(prev: map<Key, HealthState>, a: seq<Endpoint>, b: seq<Endpoint>)
    ensures Merge(prev, a + b) == Merge(prev, a) + Merge(prev, b)
  {
  }

  lemma MergeTakenOut(prev: map<Key, HealthState>, eps: seq<Endpoint>, i: nat)
    requires i < |eps|
    ensures multiset(Merge(prev, eps))
         == multiset(Merge(prev, eps[..i] + eps[i + 1..])) + multiset{MergeOne(prev, eps[i])}
  {
    assert eps == eps[..i] + ([eps[i]] + eps[i + 1..]);
    MergeConcat(prev, eps[..i], [eps[i]] + eps[i + 1..]);
    MergeConcat(prev, [eps[i]], eps[i + 1..]);
    MergeConcat(prev, eps[..i], eps[i + 1..]);
    assert Merge(prev, [eps[i]]) == [MergeOne(prev, eps[i])];
  }

  /** Merging does not care about the order of what was found. */
  lemma {:induction false} MergeAnyOrder(prev: map<Key, HealthState>, a: seq<Endpoint>, b: seq<Endpoint>)
    requires multiset(a) == multiset(b)
    ensures multiset(Merge(prev, a)) == multiset(Merge(prev, b))
    decreases |a|
  {
    if a == [] {
      assert |multiset(b)| == |b|;
    } else {
      var n := |a| - 1;
      LastOut(a);
      var i := TakeOut(b, a[n]);
      MergeAnyOrder(prev, a[..n], b[..i] + b[i + 1..]);
      assert a[..n] + a[n + 1..] == a[..n];
      MergeTakenOut(prev, a, n);
      MergeTakenOut(prev, b, i);
    }
  }

  lemma MergeOwn(view: seq<Endpoint>)
    requires Uniform(view)
    ensures Merge(PrevMap(view), Erase(view)) == view
  {
    forall i | 0 <= i < |view| ensures MergeOne(PrevMap(view), Erase(view)[i]) == view[i] {
      UniformPrevMap(view, i);
    }
  }

  /** Finding the same endpoints again and merging gives the same view again, up to order. */
  lemma MergeAgain(view: seq<Endpoint>, found: seq<Endpoint>)
    requires Uniform(view) && multiset(found) == multiset(Erase(view))
    ensures multiset(Merge(PrevMap(view), found)) == multiset(view)
  {
    MergeAnyOrder(PrevMap(view), found, Erase(view));
    MergeOwn(view);
  }

  lemma {:induction false} CountConcat(a: seq<Endpoint>, b: seq<Endpoint>)
    ensures HealthyCount(a + b) == HealthyCount(a) + HealthyCount(b)
  {
    if b == [] {
      assert a + b == a;
    } else {
      var n := |b| - 1;
      CountConcat(a, b[..n]);
      assert (a + b)[..|a| + n] == a + b[..n];
    }
  }

  lemma CountOne(ep: Endpoint)
    ensures HealthyCount([ep]) == if ep.health == Healthy then 1 else 0
  {
    assert [ep][..0] == [];
  }

  lemma CutOut(eps: seq<Endpoint>, i: nat)
    requires i < |eps|
    ensures eps == eps[..i] + [eps[i]] + eps[i + 1..]
  {
  }

  lemma CountThree(a: seq<Endpoint>, ep: Endpoint, b: seq<Endpoint>)
    ensures HealthyCount(a + [ep] + b) == HealthyCount(a + b) + if ep.health == Healthy then 1 else 0
  {
    CountConcat(a + [ep], b);
    CountConcat(a, [ep]);
    CountConcat(a, b);
    CountOne(ep);
  }

  lemma CountTakenOut(eps: seq<Endpoint>, i: nat)
    requires i < |eps|
    ensures HealthyCount(eps)
         == HealthyCount(eps[..i] + eps[i + 1..]) + if eps[i].health == Healthy then 1 else 0
  {
    CutOut(eps, i);
    CountThree(eps[..i], eps[i], eps[i + 1..]);
  }

  lemma {:induction false} CountAnyOrder(a: seq<Endpoint>, b: seq<Endpoint>)
    requires multiset(a) == multiset(b)
    ensures |a| == |b| && HealthyCount(a) == HealthyCount(b)
    decreases |a|
  {
    assert |multiset(a)| == |a| && |multiset(b)| == |b|;
    if a != [] {
      var n := |a| - 1;
      LastOut(a);
      var i := TakeOut(b, a[n]);
      CountAnyOrder(a[..n], b[..i] + b[i + 1..]);
      CountTakenOut(b, i);
    }
  }

  // ------------------------------------------- writes between the read and the publish

  datatype ProbeWrite = ProbeWrite(ref: Key, state: HealthState)

  function WriteAll(eps: seq<Endpoint>, writes: seq<ProbeWrite>): seq<Endpoint> {
    if writes == [] then eps
    else WriteHealth(WriteAll(eps, writes[..|writes| - 1]), writes[|writes| - 1].ref, writes[|writes| - 1].state)
  }

  /** The last state the writes give to `ref`, if they write it at all. */
  function LastWrite(writes: seq<ProbeWrite>, ref: Key): Option<HealthState> {
    if writes == [] then None
    else if writes[|writes| - 1].ref == ref then Some(writes[|writes| - 1].state)
    else LastWrite(writes[..|writes| - 1], ref)
  }

  lemma {:induction false} WriteAllMeaning(eps: seq<Endpoint>, writes: seq<ProbeWrite>)
    ensures |WriteAll(eps, writes)| == |eps|
    ensures forall i | 0 <= i < |eps| ::
      WriteAll(eps, writes)[i] == match LastWrite(writes, eps[i].sourceRef)
                                  case Some(h) => eps[i].(health := h)
                                  case None => eps[i]
  {
    if writes != [] {
      WriteAllMeaning(eps, writes[..|writes| - 1]);
    }
  }

  lemma RefsWriteAll(eps: seq<Endpoint>, writes: seq<ProbeWrite>)
    ensures Refs(WriteAll(eps, writes)) == Refs(eps)
  {
    var eps' := WriteAll(eps, writes);
    WriteAllMeaning(eps, writes);
    forall r ensures r in Refs(eps) <==> r in Refs(eps') {
      if r in Refs(eps) {
        var i :| 0 <= i < |eps| && eps[i].sourceRef == r;
        assert eps'[i] in eps' && eps'[i].sourceRef == r;
      }
      if r in Refs(eps') {
        var i :| 0 <= i < |eps'| && eps'[i].sourceRef == r;
        assert eps[i] in eps && eps[i].sourceRef == r;
      }
    }
  }

  lemma WriteAllPrev(eps: seq<Endpoint>, writes: seq<ProbeWrite>, r: Key)
    requires Uniform(eps)
    ensures r in PrevMap(WriteAll(eps, writes)) <==> r in PrevMap(eps)
    ensures r in PrevMap(eps) ==>
      PrevMap(WriteAll(eps, writes))[r]
      == match LastWrite(writes, r) case Some(h) => h case None => PrevMap(eps)[r]
  {
    var eps' := WriteAll(eps, writes);
    RefsWriteAll(eps, writes);
    PrevMapKeys(eps);
    PrevMapKeys(eps');
    if r in PrevMap(eps) {
      WriteAllMeaning(eps, writes);
      var i := PrevMapSource(eps', r);
      UniformPrevMap(eps, i);
    }
  }

  /**
   * A merge that has read `view` publishes what a merge after the `writes` would have published exactly when
   * the writes left every reference that survives into `found` at the state already read. Any other write
   * between the read and the publish is overwritten.
   */
  lemma OverwriteExactly(view: seq<Endpoint>, writes: seq<ProbeWrite>, found: seq<Endpoint>)
    requires Uniform(view)
    ensures Merge(PrevMap(view), found) == Merge(PrevMap(WriteAll(view, writes)), found)
      <==> forall r | r in PrevMap(view) && r in Refs(found) && LastWrite(writes, r).Some? ::
             LastWrite(writes, r) == Some(PrevMap(view)[r])
  {
    var before, after := PrevMap(view), PrevMap(WriteAll(view, writes));
    if Merge(before, found) == Merge(after, found) {
      forall r | r in PrevMap(view) && r in Refs(found) && LastWrite(writes, r).Some?
        ensures LastWrite(writes, r) == Some(before[r])
      {
        WriteAllPrev(view, writes, r);
        var i :| 0 <= i < |found| && found[i].sourceRef == r;
        assert Merge(before, found)[i].health == before[r] && Merge(after, found)[i].health == after[r];
      }
    }
    if forall r | r in PrevMap(view) && r in Refs(found) && LastWrite(writes, r).Some? ::
         LastWrite(writes, r) == Some(before[r]) {
      forall i | 0 <= i < |found| ensures MergeOne(before, found[i]) == MergeOne(after, found[i]) {
        assert found[i].sourceRef in Refs(found);
        WriteAllPrev(view, writes, found[i].sourceRef);
      }
    }
  }

  /** The smallest lost write: a probe finds the endpoint healthy while its Routemap is being merged. */
  lemma LostWrite(ep: Endpoint)
    requires ep.health == Unknown
    ensures Merge(PrevMap([ep]), [ep]) == [ep]
    ensures Merge(PrevMap(WriteAll([ep], [ProbeWrite(ep.sourceRef, Healthy)])), [ep]) == [ep.(health := Healthy)]
  {
    var w := [ProbeWrite(ep.sourceRef, Healthy)];
    assert [ep][..0] == [] && w[..0] == [];
    assert WriteAll([ep], w) == [ep.(health := Healthy)];
    assert [ep.(health := Healthy)][..0] == [];
  }
}
