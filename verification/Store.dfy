/**
 * internal/store/store.go on the heap: views hold arrays, `Get` hands out an alias, and a health update
 * writes through the array. The mutex makes each method one step.
 */
module Store {
  import opened Kube
  import opened Sums
  import opened Health
  import opened Operator

  /** `RoutemapView`: the endpoints are a slice, so two entries may share a backing array. */
  datatype Entry = Entry(spec: RoutemapSpec, endpoints: array<Endpoint>)

  class Store {
    var data: map<Key, Entry>
    ghost var retired: set<array<Endpoint>>  // arrays that were stored once and no longer are

    ghost function Arrays(): set<array<Endpoint>>
      reads this
    {
      set k | k in data :: data[k].endpoints
    }

    /** No two keys share an array, and a replaced array is never stored again. */
    ghost predicate Valid()
      reads this
    {
      && (forall j, k | j in data && k in data && j != k :: data[j].endpoints != data[k].endpoints)
      && retired !! Arrays()
    }

    /** The store as a map of values. */
    ghost function Contents(): map<Key, View>
      reads this, Arrays()
    {
      map k | k in data :: View(data[k].spec, data[k].endpoints[..])
    }

    constructor New()
      ensures Valid() && Contents() == map[] && data == map[] && retired == {}
    {
      data := map[];
      retired := {};
    }

    /** Replaces the view whatever its slice is; a slice of its own keeps the keys apart. */
    method Set(key: Key, entry: Entry)
      modifies this
      ensures data == old(data)[key := entry]
      ensures Contents() == old(Contents())[key := View(entry.spec, entry.endpoints[..])]
      ensures retired == old(retired) + if key in old(data) then {old(data)[key].endpoints} else {}
      ensures old(Valid()) && entry.endpoints !in old(Arrays()) && entry.endpoints !in old(retired) ==> Valid()
      ensures old(Arrays()) <= Arrays() + retired
    {
      retired := retired + if key in data then {data[key].endpoints} else {};
      data := data[key := entry];
      assert forall k | k in old(data) && k != key :: data[k] == old(data)[k];
    }

    /** The entry itself, not a copy: its array is the stored one. */
    method Get(key: Key) returns (entry: Option<Entry>)
      ensures entry.Some? <==> key in Contents()
      ensures entry.Some? ==>
        && entry.value == data[key] && entry.value.endpoints in Arrays()
        && View(entry.value.spec, entry.value.endpoints[..]) == Contents()[key]
    {
      entry := if key in data then Some(data[key]) else None;
    }

    method Delete(key: Key)
      modifies this
      ensures data == old(data) - {key}
      ensures Contents() == old(Contents()) - {key}
      ensures retired == old(retired) + if key in old(data) then {old(data)[key].endpoints} else {}
      ensures old(Valid()) ==> Valid()
      ensures old(Arrays()) <= Arrays() + retired
    {
      retired := retired + if key in data then {data[key].endpoints} else {};
      data := data - {key};
      assert forall k | k in old(data) && k != key :: data[k] == old(data)[k];
    }

    /** A snapshot of all keys, each once, in any order. */
    method Keys() returns (keys: seq<Key>)
      ensures Enumerates(keys, data.Keys)
    {
      keys := [];
      var rest := data.Keys;
      while rest != {}
        invariant rest <= data.Keys
        invariant Enumerates(keys, data.Keys - rest)
        decreases rest
      {
        var k :| k in rest;
        keys := keys + [k];
        rest := rest - {k};
      }
    }

    method UpdateEndpointHealth(key: Key, sourceRef: Key, state: HealthState)
      modifies this`data, if key in data then {data[key].endpoints} else {}
      ensures data == old(data)
      ensures key in data ==>
        data[key].endpoints[..] == WriteHealth(old(data[key].endpoints[..]), sourceRef, state)
      ensures old(Valid()) ==> Valid() && Contents() == WriteView(old(Contents()), key, sourceRef, state)
    {
      if key !in data {
        return;
      }
      var view := data[key];
      WriteInPlace(view.endpoints, sourceRef, state);
      assert data[key := view] == data;
      data := data[key := view];
    }
  }

  /** The loop of `UpdateEndpointHealth`. */
  method WriteInPlace(endpoints: array<Endpoint>, sourceRef: Key, state: HealthState)
    modifies endpoints
    ensures endpoints[..] == WriteHealth(old(endpoints[..]), sourceRef, state)
  {
    ghost var before := endpoints[..];
    for i := 0 to endpoints.Length
      invariant forall j | 0 <= j < i :: endpoints[j] == WriteOne(before[j], sourceRef, state)
      invariant forall j | i <= j < endpoints.Length :: endpoints[j] == before[j]
    {
      if endpoints[i].sourceRef == sourceRef {
        endpoints[i] := endpoints[i].(health := state);
      }
    }
  }

  /** The functional update an in-place health write refines. */
  function WriteView(m: map<Key, View>, key: Key, ref: Key, state: HealthState): map<Key, View> {
    if key in m then m[key := m[key].(endpoints := WriteHealth(m[key].endpoints, ref, state))] else m
  }

  function PublishView(m: map<Key, View>, key: Key, spec: RoutemapSpec, found: seq<Endpoint>): map<Key, View> {
    m[key := View(spec, if key in m then Merge(PrevMap(m[key].endpoints), found) else found)]
  }

  method MergeHealth(s: Store, key: Key, endpoints: array<Endpoint>)
    modifies endpoints
    ensures endpoints[..] == if key in s.data then Merge(PrevMap(old(s.data[key].endpoints[..])), old(endpoints[..]))
                             else old(endpoints[..])
  {
    var view := s.Get(key);
    if view.None? {
      return;
    }
    var stored := view.value.endpoints;
    var prev: map<Key, HealthState> := map[];
    for i := 0 to stored.Length
      invariant prev == PrevMap(stored[..i])
    {
      prev := prev[stored[i].sourceRef := stored[i].health];
      assert stored[..i + 1][..i] == stored[..i];
    }
    assert stored[..stored.Length] == stored[..];
    CopyHealth(prev, endpoints);
  }

  /** The second loop of `mergeHealth`. */
  method CopyHealth(prev: map<Key, HealthState>, endpoints: array<Endpoint>)
    modifies endpoints
    ensures endpoints[..] == Merge(prev, old(endpoints[..]))
  {
    ghost var found := endpoints[..];
    for i := 0 to endpoints.Length
      invariant endpoints[..i] == Merge(prev, found)[..i]
      invariant endpoints[i..] == found[i..]
    {
      assert endpoints[i] == found[i];
      if endpoints[i].sourceRef in prev {
        endpoints[i] := endpoints[i].(health := prev[endpoints[i].sourceRef]);
      }
    }
    assert endpoints[..] == Merge(prev, found);
  }

  method NewSlice(eps: seq<Endpoint>) returns (slice: array<Endpoint>)
    ensures fresh(slice) && slice[..] == eps
  {
    slice := new Endpoint[|eps|](i requires 0 <= i < |eps| => eps[i]);
    assert slice[..] == eps;
  }

  /** The end of a reconcile: a slice of its own, merged with the stored health, then published. */
  method MergeAndPublish(s: Store, key: Key, spec: RoutemapSpec, found: seq<Endpoint>)
    requires s.Valid()
    modifies s
    ensures s.Valid() && s.Contents() == PublishView(old(s.Contents()), key, spec, found)
    ensures fresh(s.Arrays() - old(s.Arrays())) && old(s.retired) <= s.retired
    ensures key in old(s.data) ==> old(s.data[key].endpoints) in s.retired
    ensures old(s.Arrays()) <= s.Arrays() + s.retired
    ensures key in s.data && s.data == old(s.data)[key := s.data[key]] && s.data[key].spec == spec
  {
    var endpoints := NewSlice(found);
    MergeHealth(s, key, endpoints);
    s.Set(key, Entry(spec, endpoints));
  }

  // --------------------------------------------------------------- any run of the store

  datatype StoreOp =
    | Put(key: Key, spec: RoutemapSpec, found: seq<Endpoint>)
    | Remove(key: Key)
    | Probed(key: Key, ref: Key, state: HealthState)

  function RunOp(m: map<Key, View>, op: StoreOp): map<Key, View> {
    match op
    case Put(key, spec, found) => PublishView(m, key, spec, found)
    case Remove(key) => m - {key}
    case Probed(key, ref, state) => WriteView(m, key, ref, state)
  }

  function RunOps(m: map<Key, View>, ops: seq<StoreOp>): map<Key, View> {
    if ops == [] then m else RunOp(RunOps(m, ops[..|ops| - 1]), ops[|ops| - 1])
  }

  /** No operation replaces or removes the view of this key. */
  predicate OnlyProbed(ops: seq<StoreOp>, k: Key) {
    forall op | op in ops && op.key == k :: op.Probed?
  }

  /**
   * Any sequence of publishes, removals and in-place probe writes refines the same sequence of functional
   * updates. An array that was replaced before the run keeps its contents throughout it, and no array ever
   * changes in anything but health.
   */
  method PerformAll(s: Store, ops: seq<StoreOp>)
    requires s.Valid()
    modifies s, s.Arrays()
    ensures s.Valid() && s.Contents() == RunOps(old(s.Contents()), ops)
    ensures fresh(s.Arrays() - old(s.Arrays())) && old(s.retired) <= s.retired
    ensures old(s.Arrays()) <= s.Arrays() + s.retired
    ensures forall a: array<Endpoint> | a in old(s.retired) :: a[..] == old(a[..])
    ensures forall a: array<Endpoint> | a in old(s.Arrays()) :: Erase(a[..]) == Erase(old(a[..]))
    ensures forall k | k in old(s.data) && OnlyProbed(ops, k) :: k in s.data && s.data[k] == old(s.data[k])
  {
    for i := 0 to |ops|
      invariant s.Valid() && s.Contents() == RunOps(old(s.Contents()), ops[..i])
      invariant fresh(s.Arrays() - old(s.Arrays()))
      invariant old(s.retired) <= s.retired && old(s.Arrays()) <= s.Arrays() + s.retired
      invariant forall a: array<Endpoint> | a in old(s.retired) :: a[..] == old(a[..])
      invariant forall a: array<Endpoint> | a in old(s.Arrays()) :: Erase(a[..]) == Erase(old(a[..]))
      invariant forall k | k in old(s.data) && OnlyProbed(ops, k) :: k in s.data && s.data[k] == old(s.data[k])
    {
      assert ops[i] in ops;
      PerformOne(s, ops[i]);
      assert ops[..i + 1][..i] == ops[..i];
    }
    assert ops[..|ops|] == ops;
  }

  method PerformOne(s: Store, op: StoreOp)
    requires s.Valid()
    modifies s, if op.Probed? && op.key in s.data then {s.data[op.key].endpoints} else {}
    ensures s.Valid() && s.Contents() == RunOp(old(s.Contents()), op)
    ensures fresh(s.Arrays() - old(s.Arrays())) && old(s.retired) <= s.retired
    ensures old(s.Arrays()) <= s.Arrays() + s.retired
    ensures forall a: array<Endpoint> | a in old(s.Arrays()) :: Erase(a[..]) == Erase(old(a[..]))
    ensures forall k | k in old(s.data) && (k == op.key ==> op.Probed?) :: k in s.data && s.data[k] == old(s.data[k])
  {
    match op {
      case Put(key, spec, found) =>
        MergeAndPublish(s, key, spec, found);
      case Remove(key) =>
        s.Delete(key);
      case Probed(key, ref, state) =>
        if key in s.data {
          EraseWrite(s.data[key].endpoints[..], ref, state);
        }
        s.UpdateEndpointHealth(key, ref, state);
    }
  }

  lemma {:induction false} RunOpsAppend(m: map<Key, View>, ops: seq<StoreOp>, more: seq<StoreOp>)
    ensures RunOps(m, ops + more) == RunOps(RunOps(m, ops), more)
  {
    if more == [] {
      assert ops + more == ops;
    } else {
      var n := |more| - 1;
      RunOpsAppend(m, ops, more[..n]);
      assert (ops + more)[..|ops| + n] == ops + more[..n];
    }
  }

  /**
   * What `Get` hands out: a slice that shows every later write to its key until a publish replaces the view,
   * and that nothing writes from then on.
   */
  method GetSharesUntilReplaced(
    s: Store, key: Key, earlier: seq<StoreOp>, spec: RoutemapSpec, found: seq<Endpoint>, later: seq<StoreOp>)
    returns (entry: Option<Entry>)
    requires s.Valid() && OnlyProbed(earlier, key)
    modifies s, s.Arrays()
    ensures entry.Some? <==> key in old(s.Contents())
    ensures entry.Some? ==>
      var replaced := RunOps(old(s.Contents()), earlier);
      key in replaced && View(entry.value.spec, entry.value.endpoints[..]) == replaced[key]
    ensures s.Contents() == RunOps(PublishView(RunOps(old(s.Contents()), earlier), key, spec, found), later)
  {
    entry := s.Get(key);
    PerformAll(s, earlier);
    MergeAndPublish(s, key, spec, found);
    PerformAll(s, later);
  }

  /** Operations on other keys leave a key's view alone. */
  lemma {:induction false} KeysAreIsolated(m: map<Key, View>, ops: seq<StoreOp>, k: Key)
    requires forall op | op in ops :: op.key != k
    ensures k in RunOps(m, ops) <==> k in m
    ensures k in m ==> RunOps(m, ops)[k] == m[k]
  {
    if ops != [] {
      KeysAreIsolated(m, ops[..|ops| - 1], k);
      assert ops[|ops| - 1] in ops;
    }
  }
}
