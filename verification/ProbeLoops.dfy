/**
 * The checker and its probe loops over any run: store operations, ticks of the loops, and the steps of `sync`
 * and `stopAll`, in any order. Which handles belong to a loop that has returned?
 */
module ProbeLoops {
  import opened Kube
  import opened Sums
  import S = Store
  import C = Checker

  /**
   * A tick is the loop's `Get`; the writes of its pass are store operations like any others. A `sync` is a
   * visit of each key it read, with what its Get answered, and then the removal of the other handles.
   */
  datatype LoopOp =
    | OnStore(op: S.StoreOp)
    | Tick(key: Key)
    | Visit(key: Key, answer: C.Answer)
    | StopMissing(active: set<Key>)
    | StopAll

  /** The stored keys, and for each handle the operation that made it. */
  datatype Book = Book(stored: set<Key>, held: map<Key, nat>)

  function Note(b: Book, op: LoopOp, now: nat): Book {
    match op
    case OnStore(Put(k, _, _)) => b.(stored := b.stored + {k})
    case OnStore(Remove(k)) => b.(stored := b.stored - {k})
    case OnStore(Probed(_, _, _)) => b
    case Tick(_) => b
    case Visit(k, answer) =>
      if answer.None? then b
      else if !C.Enabled(answer) then b.(held := b.held - {k})
      else if k in b.held then b
      else b.(held := b.held[k := now])
    case StopMissing(active) => b.(held := map k | k in b.held && k in active :: b.held[k])
    case StopAll => b.(held := map[])
  }

  function After(start: set<Key>, ops: seq<LoopOp>): Book {
    if ops == [] then Book(start, map[])
    else Note(After(start, ops[..|ops| - 1]), ops[|ops| - 1], |ops| - 1)
  }

  /** Operation `i` is a tick of the key's loop that finds the key absent. */
  predicate MissesKey(start: set<Key>, ops: seq<LoopOp>, i: nat, k: Key)
    requires i < |ops|
  {
    ops[i] == Tick(k) && k !in After(start, ops[..i]).stored
  }

  /** Some tick since the key's handle was made found the key absent. */
  ghost predicate FoundAbsent(start: set<Key>, ops: seq<LoopOp>, k: Key) {
    && k in After(start, ops).held
    && exists i | After(start, ops).held[k] < i < |ops| :: MissesKey(start, ops, i, k)
  }

  lemma {:induction false} HeldEarlier(start: set<Key>, ops: seq<LoopOp>, k: Key)
    requires k in After(start, ops).held
    ensures After(start, ops).held[k] < |ops|
  {
    var front := ops[..|ops| - 1];
    if k in After(start, front).held {
      HeldEarlier(start, front, k);
    }
  }

  lemma MissesEarlier(start: set<Key>, ops: seq<LoopOp>, op: LoopOp, i: nat, k: Key)
    requires i < |ops|
    ensures MissesKey(start, ops + [op], i, k) <==> MissesKey(start, ops, i, k)
  {
    assert (ops + [op])[..i] == ops[..i];
  }

  lemma HandleStays(b: Book, op: LoopOp, now: nat, k: Key)
    requires k in Note(b, op, now).held
    ensures Note(b, op, now).held[k] == if k in b.held then b.held[k] else now
  {
  }

  lemma FoundAbsentMore(start: set<Key>, ops: seq<LoopOp>, op: LoopOp, k: Key)
    requires k in After(start, ops + [op]).held && k in After(start, ops).held
    requires After(start, ops + [op]).held[k] == After(start, ops).held[k] < |ops|
    ensures FoundAbsent(start, ops + [op], k)
      <==> FoundAbsent(start, ops, k) || MissesKey(start, ops + [op], |ops|, k)
  {
    var since, all := After(start, ops).held[k], ops + [op];
    if FoundAbsent(start, all, k) && !MissesKey(start, all, |ops|, k) {
      var i :| since < i < |all| && MissesKey(start, all, i, k);
      MissesEarlier(start, ops, op, i, k);
    }
    if FoundAbsent(start, ops, k) {
      var i :| since < i < |ops| && MissesKey(start, ops, i, k);
      MissesEarlier(start, ops, op, i, k);
      assert MissesKey(start, all, i, k);
    }
  }

  /** One more operation: a new handle starts clean, a kept one is spoilt only by a tick without the key. */
  lemma FoundAbsentStep(start: set<Key>, ops: seq<LoopOp>, op: LoopOp, k: Key)
    requires k in After(start, ops + [op]).held
    ensures FoundAbsent(start, ops + [op], k)
      <==> k in After(start, ops).held
           && (FoundAbsent(start, ops, k) || (op == Tick(k) && k !in After(start, ops).stored))
  {
    assert (ops + [op])[..|ops|] == ops;
    HandleStays(After(start, ops), op, |ops|, k);
    if k in After(start, ops).held {
      HeldEarlier(start, ops, k);
      FoundAbsentMore(start, ops, op, k);
    }
  }

  // ------------------------------------------------------------------ the objects

  method OperateStore(s: S.Store, op: S.StoreOp)
    requires s.Valid()
    modifies s, s.Arrays()
    ensures s.Valid() && fresh(s.Arrays() - old(s.Arrays()))
    ensures forall held, now :: s.data.Keys == Note(Book(old(s.data.Keys), held), OnStore(op), now).stored
  {
    assert s.Contents().Keys == s.data.Keys;
    S.PerformOne(s, op);
    assert s.Contents().Keys == s.data.Keys;
  }

  /** One operation on the objects. */
  method Perform(c: C.Checker, s: S.Store, op: LoopOp)
    requires c.Valid() && s.Valid()
    modifies c, c.created, s, s.Arrays()
    ensures c.Valid() && s.Valid()
    ensures fresh(c.created - old(c.created)) && fresh(s.Arrays() - old(s.Arrays()))
    ensures forall held: map<Key, nat>, now | held.Keys == old(c.cancels.Keys) ::
      var b := Note(Book(old(s.data.Keys), held), op, now); s.data.Keys == b.stored && c.cancels.Keys == b.held.Keys
    ensures forall k | k in c.cancels ::
      c.cancels[k].exited
      <==> k in old(c.cancels) && (old(c.cancels[k].exited) || (op == Tick(k) && k !in old(s.data)))
  {
    match op {
      case OnStore(o) =>
        OperateStore(s, o);
      case Tick(k) =>
        if k in c.cancels {
          var view := C.StartPass(s, c.cancels[k]);
        }
      case Visit(k, answer) =>
        c.Visit(k, answer);
      case StopMissing(active) =>
        c.StopMissing(active);
      case StopAll =>
        c.StopAll();
    }
  }

  /** The objects show what the book says. */
  ghost predicate Shows(c: C.Checker, s: S.Store, start: set<Key>, ops: seq<LoopOp>)
    reads c, c.created, s, s.Arrays()
  {
    && c.Valid() && s.Valid()
    && s.data.Keys == After(start, ops).stored
    && c.cancels.Keys == After(start, ops).held.Keys
    && forall k | k in c.cancels :: c.cancels[k].exited <==> FoundAbsent(start, ops, k)
  }

  method PerformNext(c: C.Checker, s: S.Store, ghost start: set<Key>, ghost ops: seq<LoopOp>, op: LoopOp)
    requires Shows(c, s, start, ops)
    modifies c, c.created, s, s.Arrays()
    ensures Shows(c, s, start, ops + [op])
    ensures fresh(c.created - old(c.created)) && fresh(s.Arrays() - old(s.Arrays()))
  {
    assert (ops + [op])[..|ops|] == ops;
    Perform(c, s, op);
    forall k | k in c.cancels ensures c.cancels[k].exited <==> FoundAbsent(start, ops + [op], k) {
      FoundAbsentStep(start, ops, op, k);
    }
  }

  /**
   * Over any run, from a checker without handles: a handle that is held belongs to a loop that has returned if
   * and only if some tick since the handle was made found its key absent from the store.
   */
  method RunLoops(c: C.Checker, s: S.Store, ops: seq<LoopOp>)
    requires c.Valid() && s.Valid() && c.cancels == map[]
    modifies c, c.created, s, s.Arrays()
    ensures c.Valid() && s.Valid()
    ensures s.data.Keys == After(old(s.data.Keys), ops).stored
    ensures c.cancels.Keys == After(old(s.data.Keys), ops).held.Keys
    ensures forall k | k in c.cancels :: c.cancels[k].exited <==> FoundAbsent(old(s.data.Keys), ops, k)
  {
    ghost var start := s.data.Keys;
    for i := 0 to |ops|
      invariant Shows(c, s, start, ops[..i])
      invariant fresh(c.created - old(c.created)) && fresh(s.Arrays() - old(s.Arrays()))
    {
      PerformNext(c, s, start, ops[..i], ops[i]);
      assert ops[..i + 1] == ops[..i] + [ops[i]];
    }
    assert ops[..|ops|] == ops;
  }

  // --------------------------------------------------------- the key that is not probed

  /** The operation leaves the key's handle where it is. */
  predicate KeepsHandle(op: LoopOp, k: Key) {
    match op
    case Visit(k', answer) => k' == k ==> answer.None? || C.Enabled(answer)
    case StopMissing(active) => k in active
    case StopAll => false
    case _ => true
  }

  /** Nothing but dropping the handle brings probing back: no tick, no store operation, no visit that wants it. */
  lemma {:induction false} StaysUnprobed(start: set<Key>, ops: seq<LoopOp>, more: seq<LoopOp>, k: Key)
    requires FoundAbsent(start, ops, k) && forall op | op in more :: KeepsHandle(op, k)
    ensures FoundAbsent(start, ops + more, k)
  {
    if more == [] {
      assert ops + more == ops;
    } else {
      var n := |more| - 1;
      StaysUnprobed(start, ops, more[..n], k);
      assert KeepsHandle(more[n], k);
      assert ops + more == (ops + more[..n]) + [more[n]];
      assert (ops + more)[..|ops| + n] == ops + more[..n];
      FoundAbsentStep(start, ops + more[..n], more[n], k);
    }
  }

  method PublishAndSync(c: C.Checker, s: S.Store, key: Key, spec: RoutemapSpec)
    requires c.Valid() && s.Valid()
    requires spec.healthCheck.Some? && spec.healthCheck.value.enabled
    modifies c, c.cancels.Values, s
    ensures c.Valid() && s.Valid() && C.WantsLoop(s, key) && key in c.cancels
    ensures key in old(c.cancels) ==> c.cancels[key].exited == old(c.cancels[key].exited)
    ensures fresh(c.cancels.Values - old(c.cancels.Values)) && fresh(s.Arrays() - old(s.Arrays()))
  {
    S.MergeAndPublish(s, key, spec, []);
    assert C.WantsLoop(s, key);
    C.SyncWithStore(c, s);
    assert C.WantsLoop(s, key);
  }

  method DeleteAndTick(c: C.Checker, s: S.Store, key: Key)
    requires c.Valid() && s.Valid() && key in c.cancels
    modifies c.cancels[key], s, s.Arrays()
    ensures c.Valid() && s.Valid() && fresh(s.Arrays() - old(s.Arrays()))
    ensures c.cancels[key].exited
  {
    s.Delete(key);
    C.ProbePass(s, c.cancels[key], [], []);
  }

  /**
   * It does happen: publish, sync, delete, tick, publish again, sync again. The key is stored with health
   * checks enabled and has a handle, and the loop behind the handle has returned.
   */
  method RecreatedKeyLosesItsLoop(key: Key, spec: RoutemapSpec) returns (c: C.Checker, s: S.Store)
    requires spec.healthCheck.Some? && spec.healthCheck.value.enabled
    ensures c.Valid() && s.Valid() && C.WantsLoop(s, key)
    ensures key in c.cancels && c.cancels[key].cancelCalls == 0 && c.cancels[key].exited
  {
    s := new S.Store.New();
    c := new C.Checker.New();
    PublishAndSync(c, s, key, spec);
    DeleteAndTick(c, s, key);
    PublishAndSync(c, s, key, spec);
  }
}
