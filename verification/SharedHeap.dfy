/**
 * The shared memory of the operator under every interleaving: merges hold an alias of the stored slice and read
 * it without the lock, probe writes go through it one element at a time, and publishes replace it.
 */
module SharedHeap {
  import opened Kube
  import opened Health
  import O = Operator
  import S = Store

  /** `mergeHealth` and its caller: the new slice, the alias while it is read, and what was read. */
  datatype MergeJob = MergeJob(
    endpoints: array<Endpoint>, stored: Option<array<Endpoint>>, read: nat, prev: map<Key, HealthState>)

  /** `UpdateEndpointHealth` inside its loop. */
  datatype WriteJob = WriteJob(endpoints: array<Endpoint>, write: O.Writer)

  /** A merge job as a value. */
  datatype Job =
    | Reading(found: seq<Endpoint>, read: nat, prev: map<Key, HealthState>)
    | Merged(found: seq<Endpoint>)

  ghost function JobOf(j: MergeJob): Job
    reads j.endpoints
  {
    if j.stored.Some? then Reading(j.endpoints[..], j.read, j.prev) else Merged(j.endpoints[..])
  }

  function WriteNextView(m: map<Key, O.View>, w: O.Writer): map<Key, O.View>
    requires w.key in m && w.next < |m[w.key].endpoints|
  {
    var eps := m[w.key].endpoints;
    m[w.key := m[w.key].(endpoints := eps[w.next := WriteOne(eps[w.next], w.ref, w.state)])]
  }

  class Shared {
    const store: S.Store
    var merges: map<Key, MergeJob>
    var write: Option<WriteJob>
    ghost var slices: set<array<Endpoint>>   // every slice that was ever a view's or a merge's

    constructor ()
      ensures Valid() && fresh(store) && store.Contents() == map[] && slices == {}
      ensures merges == map[] && write == None
    {
      store := new S.Store.New();
      merges := map[];
      write := None;
      slices := {};
    }

    /**
     * Every array has one owner: a stored view, a running merge, or nobody any more. The aliases in use are
     * those of the stored views.
     */
    ghost predicate Valid()
      reads this, store
    {
      && store.Valid() && store.retired <= slices
      && (forall k | k in store.data :: store.data[k].endpoints in slices)
      && (forall k | k in merges :: merges[k].endpoints in slices)
      && (forall k | k in merges :: merges[k].endpoints !in store.retired)
      && (forall j, k | j in store.data && k in merges :: store.data[j].endpoints != merges[k].endpoints)
      && (forall j, k | j in merges && k in merges && j != k :: merges[j].endpoints != merges[k].endpoints)
      && (forall k | k in merges && merges[k].stored.Some? ::
            k in store.data && merges[k].stored.value == store.data[k].endpoints)
      && (write.Some? ==>
            write.value.write.key in store.data
            && write.value.endpoints == store.data[write.value.write.key].endpoints)
    }

    // ------------------------------------------------------------------ merge steps

    method BeginMerge(key: Key, found: seq<Endpoint>)
      requires Valid() && key !in merges
      modifies this`merges, this`slices
      ensures Valid() && key in merges && merges == old(merges)[key := merges[key]]
      ensures fresh(merges[key].endpoints) && slices == old(slices) + {merges[key].endpoints}
      ensures JobOf(merges[key]) == if key in store.Contents() then Reading(found, 0, map[]) else Merged(found)
    {
      var endpoints := S.NewSlice(found);
      var view := store.Get(key);
      var stored := if view.Some? then Some(view.value.endpoints) else None;
      merges := merges[key := MergeJob(endpoints, stored, 0, map[])];
      slices := slices + {endpoints};
    }

    method ReadHealth(key: Key)
      requires Valid() && key in merges && merges[key].stored.Some?
      requires merges[key].read < merges[key].stored.value.Length
      modifies this`merges
      ensures Valid() && key in merges && merges == old(merges)[key := merges[key]]
      ensures merges[key].endpoints == old(merges)[key].endpoints
      ensures key in store.Contents() && old(merges)[key].read < |store.Contents()[key].endpoints|
      ensures var job := old(JobOf(merges[key]));
        var ep := store.Contents()[key].endpoints[job.read];
        JobOf(merges[key]) == Reading(job.found, job.read + 1, job.prev[ep.sourceRef := ep.health])
    {
      var job := merges[key];
      var ep := job.stored.value[job.read];
      merges := merges[key := job.(read := job.read + 1, prev := job.prev[ep.sourceRef := ep.health])];
    }

    method EndMerge(key: Key)
      requires Valid() && key in merges && merges[key].stored.Some?
      modifies this`merges, merges[key].endpoints
      ensures Valid() && key in merges && merges == old(merges)[key := merges[key]]
      ensures merges[key].endpoints == old(merges)[key].endpoints
      ensures store.Contents() == old(store.Contents())
      ensures var job := old(JobOf(merges[key])); JobOf(merges[key]) == Merged(Merge(job.prev, job.found))
    {
      var job := merges[key];
      S.CopyHealth(job.prev, job.endpoints);
      merges := merges[key := job.(stored := None)];
    }

    method Publish(key: Key, spec: RoutemapSpec)
      requires Valid() && key in merges && merges[key].stored.None? && write.None?
      modifies this`merges, store
      ensures Valid() && merges == old(merges) - {key}
      ensures store.data == old(store.data)[key := S.Entry(spec, old(merges)[key].endpoints)]
      ensures key in old(store.data) ==> old(store.data)[key].endpoints in store.retired
      ensures old(store.retired) <= store.retired
      ensures store.Contents() == old(store.Contents())[key := O.View(spec, old(JobOf(merges[key])).found)]
    {
      store.Set(key, S.Entry(spec, merges[key].endpoints));
      merges := merges - {key};
    }

    method Drop(key: Key)
      requires Valid() && key !in merges && write.None?
      modifies store
      ensures Valid() && store.data == old(store.data) - {key}
      ensures key in old(store.data) ==> old(store.data)[key].endpoints in store.retired
      ensures old(store.retired) <= store.retired
      ensures store.Contents() == old(store.Contents()) - {key}
    {
      store.Delete(key);
    }

    // ------------------------------------------------------------------ probe steps

    method BeginWrite(key: Key, ref: Key, state: HealthState)
      requires Valid() && key in store.data
      modifies this`write
      ensures Valid() && write.Some? && write.value.write == O.Writer(key, ref, state, 0)
    {
      write := Some(WriteJob(store.data[key].endpoints, O.Writer(key, ref, state, 0)));
    }

    method WriteNext()
      requires Valid() && write.Some? && write.value.write.next < write.value.endpoints.Length
      modifies this`write, write.value.endpoints
      ensures Valid()
      ensures var w := old(write.value.write);
        && write.Some? && write.value.write == w.(next := w.next + 1)
        && w.key in old(store.Contents()) && w.next < |old(store.Contents())[w.key].endpoints|
        && store.Contents() == WriteNextView(old(store.Contents()), w)
    {
      var job, w := write.value, write.value.write;
      var ep := job.endpoints[w.next];
      if ep.sourceRef == w.ref {
        job.endpoints[w.next] := ep.(health := w.state);
      }
      write := Some(job.(write := w.(next := w.next + 1)));
      assert job.endpoints[..] == old(job.endpoints[..])[w.next := WriteOne(ep, w.ref, w.state)];
    }

    method EndWrite()
      requires Valid() && write.Some?
      modifies this`write
      ensures Valid() && write.None?
    {
      write := None;
    }
  }

  // --------------------------------------------------------- the shared memory as a value

  /** What the heap stands for: the views, the merges in progress, and the write that holds the lock. */
  datatype Memory = Memory(store: map<Key, O.View>, jobs: map<Key, Job>, writer: Option<O.Writer>)

  datatype MemoryOp =
    | Begin(key: Key, found: seq<Endpoint>)
    | Read(key: Key)
    | End(key: Key)
    | Set(key: Key, spec: RoutemapSpec)
    | Remove(key: Key)
    | Lock(key: Key, ref: Key, state: HealthState)
    | WriteNext
    | Unlock
    | Nothing

  predicate Allowed(m: Memory, op: MemoryOp) {
    match op
    case Begin(k, _) => k !in m.jobs
    case Read(k) =>
      k in m.jobs && m.jobs[k].Reading? && k in m.store && m.jobs[k].read < |m.store[k].endpoints|
    case End(k) => k in m.jobs && m.jobs[k].Reading?
    case Set(k, _) => k in m.jobs && m.jobs[k].Merged? && m.writer.None?
    case Remove(k) => k !in m.jobs && m.writer.None?
    case Lock(k, _, _) => k in m.store && m.writer.None?
    case WriteNext =>
      m.writer.Some? && m.writer.value.key in m.store && m.writer.value.next < |m.store[m.writer.value.key].endpoints|
    case Unlock => m.writer.Some?
    case Nothing => true
  }

  function After(m: Memory, op: MemoryOp): Memory
    requires Allowed(m, op)
  {
    match op
    case Begin(k, found) => m.(jobs := m.jobs[k := if k in m.store then Reading(found, 0, map[]) else Merged(found)])
    case Read(k) =>
      var job, ep := m.jobs[k], m.store[k].endpoints[m.jobs[k].read];
      m.(jobs := m.jobs[k := Reading(job.found, job.read + 1, job.prev[ep.sourceRef := ep.health])])
    case End(k) => m.(jobs := m.jobs[k := Merged(Merge(m.jobs[k].prev, m.jobs[k].found))])
    case Set(k, spec) => m.(store := m.store[k := O.View(spec, m.jobs[k].found)], jobs := m.jobs - {k})
    case Remove(k) => m.(store := m.store - {k})
    case Lock(k, ref, state) => m.(writer := Some(O.Writer(k, ref, state, 0)))
    case WriteNext =>
      var w := m.writer.value;
      m.(store := WriteNextView(m.store, w), writer := Some(w.(next := w.next + 1)))
    case Unlock => m.(writer := None)
    case Nothing => m
  }

  /** The heap holds this memory. */
  ghost predicate Shows(h: Shared, m: Memory)
    reads h, h.store, h.slices
  {
    && h.Valid()
    && h.store.Contents() == m.store
    && (match h.write case None => m.writer == None case Some(w) => m.writer == Some(w.write))
    && h.merges.Keys == m.jobs.Keys
    && forall k | k in h.merges :: JobOf(h.merges[k]) == m.jobs[k]
  }

  predicate Replaces(op: MemoryOp, k: Key) {
    (op.Set? && op.key == k) || (op.Remove? && op.key == k)
  }

  predicate Replaced(ops: seq<MemoryOp>, k: Key) {
    ops != [] && (Replaces(ops[0], k) || Replaced(ops[1..], k))
  }

  /** A key whose view was replaced or removed has its slice retired, any other keeps it. */
  ghost predicate Retires(h: Shared, data: map<Key, S.Entry>, retired: set<array<Endpoint>>, ops: seq<MemoryOp>)
    reads h, h.store
  {
    && retired <= h.store.retired
    && forall k | k in data ::
         if Replaced(ops, k) then data[k].endpoints in h.store.retired
         else k in h.store.data && h.store.data[k] == data[k]
  }

  ghost predicate RetiresOne(h: Shared, data: map<Key, S.Entry>, retired: set<array<Endpoint>>, op: MemoryOp)
    reads h, h.store
  {
    && retired <= h.store.retired
    && forall k | k in data ::
         if Replaces(op, k) then data[k].endpoints in h.store.retired
         else k in h.store.data && h.store.data[k] == data[k]
  }

  method PerformBegin(h: Shared, ghost m: Memory, key: Key, found: seq<Endpoint>)
    requires Shows(h, m) && Allowed(m, Begin(key, found))
    modifies h`merges, h`slices
    ensures Shows(h, After(m, Begin(key, found))) && fresh(h.slices - old(h.slices))
  {
    h.BeginMerge(key, found);
  }

  method PerformRead(h: Shared, ghost m: Memory, key: Key)
    requires Shows(h, m) && Allowed(m, Read(key))
    modifies h`merges
    ensures Shows(h, After(m, Read(key)))
  {
    assert JobOf(h.merges[key]) == m.jobs[key];
    h.ReadHealth(key);
    assert JobOf(h.merges[key]) == After(m, Read(key)).jobs[key];
  }

  method PerformEnd(h: Shared, ghost m: Memory, key: Key)
    requires Shows(h, m) && Allowed(m, End(key))
    modifies h`merges, h.slices - h.store.retired
    ensures Shows(h, After(m, End(key)))
  {
    assert JobOf(h.merges[key]) == m.jobs[key];
    h.EndMerge(key);
  }

  lemma RetiresSet(
    h: Shared, data: map<Key, S.Entry>, retired: set<array<Endpoint>>, key: Key, spec: RoutemapSpec)
    requires retired <= h.store.retired && key in h.store.data && h.store.data == data[key := h.store.data[key]]
    requires key in data ==> data[key].endpoints in h.store.retired
    ensures RetiresOne(h, data, retired, Set(key, spec))
  {
  }

  method PerformSet(h: Shared, ghost m: Memory, key: Key, spec: RoutemapSpec)
    requires Shows(h, m) && Allowed(m, Set(key, spec))
    modifies h`merges, h.store
    ensures Shows(h, After(m, Set(key, spec)))
    ensures RetiresOne(h, old(h.store.data), old(h.store.retired), Set(key, spec))
  {
    assert JobOf(h.merges[key]) == m.jobs[key];
    h.Publish(key, spec);
    RetiresSet(h, old(h.store.data), old(h.store.retired), key, spec);
  }

  method PerformRemove(h: Shared, ghost m: Memory, key: Key)
    requires Shows(h, m) && Allowed(m, Remove(key))
    modifies h.store
    ensures Shows(h, After(m, Remove(key)))
    ensures RetiresOne(h, old(h.store.data), old(h.store.retired), Remove(key))
  {
    h.Drop(key);
  }

  method PerformLock(h: Shared, ghost m: Memory, key: Key, ref: Key, state: HealthState)
    requires Shows(h, m) && Allowed(m, Lock(key, ref, state))
    modifies h`write
    ensures Shows(h, After(m, Lock(key, ref, state)))
  {
    assert key in h.store.Contents();
    h.BeginWrite(key, ref, state);
  }

  method PerformWriteNext(h: Shared, ghost m: Memory)
    requires Shows(h, m) && Allowed(m, WriteNext)
    modifies h`write, h.slices - h.store.retired
    ensures Shows(h, After(m, WriteNext))
  {
    assert m.writer.value.key in h.store.Contents();
    h.WriteNext();
  }

  /** The operations that replace or remove a view. */
  method PerformReplace(h: Shared, ghost m: Memory, op: MemoryOp)
    requires Shows(h, m) && Allowed(m, op) && (op.Set? || op.Remove?)
    modifies h`merges, h.store
    ensures Shows(h, After(m, op)) && RetiresOne(h, old(h.store.data), old(h.store.retired), op)
  {
    if op.Set? {
      PerformSet(h, m, op.key, op.spec);
    } else {
      PerformRemove(h, m, op.key);
    }
  }

  /** The operations of a merge before its publish. */
  method PerformMerge(h: Shared, ghost m: Memory, op: MemoryOp)
    requires Shows(h, m) && Allowed(m, op) && (op.Begin? || op.Read? || op.End?)
    modifies h`merges, h`slices, h.slices - h.store.retired
    ensures Shows(h, After(m, op)) && fresh(h.slices - old(h.slices))
  {
    if op.Begin? {
      PerformBegin(h, m, op.key, op.found);
    } else if op.Read? {
      PerformRead(h, m, op.key);
    } else {
      PerformEnd(h, m, op.key);
    }
  }

  /** The operations of a probe write. */
  method PerformWrite(h: Shared, ghost m: Memory, op: MemoryOp)
    requires Shows(h, m) && Allowed(m, op) && (op.Lock? || op.WriteNext? || op.Unlock?)
    modifies h`write, h.slices - h.store.retired
    ensures Shows(h, After(m, op))
  {
    if op.Lock? {
      PerformLock(h, m, op.key, op.ref, op.state);
    } else if op.WriteNext? {
      PerformWriteNext(h, m);
    } else {
      h.EndWrite();
    }
  }

  /** One operation on the heap, against the same operation on the value; it writes no slice that was replaced. */
  method Perform(h: Shared, ghost m: Memory, op: MemoryOp)
    requires Shows(h, m) && Allowed(m, op)
    modifies h, h.store, h.slices - h.store.retired
    ensures Shows(h, After(m, op)) && fresh(h.slices - old(h.slices))
    ensures RetiresOne(h, old(h.store.data), old(h.store.retired), op)
  {
    if op.Set? || op.Remove? {
      PerformReplace(h, m, op);
    } else if op.Lock? || op.WriteNext? || op.Unlock? {
      PerformWrite(h, m, op);
    } else if !op.Nothing? {
      PerformMerge(h, m, op);
    }
  }

  /** The operations one after the other, each allowed when its turn comes, lead from `m` to `m'`. */
  ghost predicate Leads(m: Memory, ops: seq<MemoryOp>, m': Memory)
    decreases |ops|
  {
    if ops == [] then m' == m else Allowed(m, ops[0]) && Leads(After(m, ops[0]), ops[1..], m')
  }

  lemma LeadsNext(m: Memory, ops: seq<MemoryOp>, m': Memory) returns (next: Memory)
    requires ops != [] && Leads(m, ops, m')
    ensures Allowed(m, ops[0]) && next == After(m, ops[0]) && Leads(next, ops[1..], m')
  {
    next := After(m, ops[0]);
  }

  /** What was retired by the first operation stays retired; what was kept is treated by the others. */
  lemma RetiresNext(
    h: Shared, data: map<Key, S.Entry>, retired: set<array<Endpoint>>,
    data': map<Key, S.Entry>, retired': set<array<Endpoint>>, ops: seq<MemoryOp>)
    requires ops != [] && retired <= retired' && Retires(h, data', retired', ops[1..])
    requires forall k | k in data ::
      if Replaces(ops[0], k) then data[k].endpoints in retired' else k in data' && data'[k] == data[k]
    ensures Retires(h, data, retired, ops)
  {
  }

  /**
   * Any run of operations on the heap holds what it leads to. The slice of a view that was replaced or removed is
   * retired at its end; and the frame leaves out the slices retired at its start, so they are not written.
   */
  method PerformAll(h: Shared, ghost m: Memory, ops: seq<MemoryOp>, ghost m': Memory)
    requires Shows(h, m) && Leads(m, ops, m')
    modifies h, h.store, h.slices - h.store.retired
    ensures Shows(h, m') && fresh(h.slices - old(h.slices))
    ensures Retires(h, old(h.store.data), old(h.store.retired), ops)
    decreases |ops|
  {
    if ops != [] {
      ghost var next := LeadsNext(m, ops, m');
      Perform(h, m, ops[0]);
      ghost var data, retired := h.store.data, h.store.retired;
      PerformAll(h, next, ops[1..], m');
      RetiresNext(h, old(h.store.data), old(h.store.retired), data, retired, ops);
    }
  }
}
