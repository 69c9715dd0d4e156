/**
 * internal/health/checker.go: a map of cancel handles reconciled against the store, and the probe pass.
 * A context object stands for a probe loop's context; calling its cancel function counts up.
 */
module Checker {
  import opened Kube
  import opened Sums
  import opened Health
  import S = Store
  import O = Operator

  class LoopContext {
    const key: Key
    const spec: HealthCheckSpec
    var cancelCalls: nat
    var exited: bool          // the probe loop has returned

    constructor (key: Key, spec: HealthCheckSpec)
      ensures this.key == key && this.spec == spec && cancelCalls == 0 && !exited
    {
      this.key := key;
      this.spec := spec;
      cancelCalls := 0;
      exited := false;
    }
  }

  /** What `Store.Get` answered for a key: absent, or the health-check part of its spec. */
  type Answer = Option<Option<HealthCheckSpec>>

  predicate Enabled(answer: Answer) {
    answer.Some? && answer.value.Some? && answer.value.value.enabled
  }

  /** The keys whose answer asked for a loop, with the spec they asked for. */
  function Wanted(keys: seq<Key>, answers: seq<Answer>): map<Key, HealthCheckSpec>
    requires |keys| == |answers|
  {
    if keys == [] then map[]
    else
      var n := |keys| - 1;
      var rest := Wanted(keys[..n], answers[..n]);
      if Enabled(answers[n]) then rest[keys[n] := answers[n].value.value] else rest
  }

  /** The keys that were still there when they were read. */
  function Answered(keys: seq<Key>, answers: seq<Answer>): set<Key>
    requires |keys| == |answers|
  {
    if keys == [] then {}
    else
      var n := |keys| - 1;
      Answered(keys[..n], answers[..n]) + if answers[n].Some? then {keys[n]} else {}
  }

  lemma {:induction false} WantedWasAnswered(keys: seq<Key>, answers: seq<Answer>)
    requires |keys| == |answers|
    ensures Wanted(keys, answers).Keys <= Answered(keys, answers)
    ensures forall k | k in Answered(keys, answers) :: k in keys
  {
    if keys != [] {
      var n := |keys| - 1;
      WantedWasAnswered(keys[..n], answers[..n]);
    }
  }

  /**
   * Answered keys hold a handle exactly when wanted, unanswered ones exactly when they did before; a handle
   * is the one held before, or one made for the spec asked for.
   */
  ghost predicate Reconciled(
    handles: map<Key, LoopContext>, before: map<Key, LoopContext>, active: set<Key>, wanted: map<Key, HealthCheckSpec>)
  {
    && (forall k | k in active :: k in handles <==> k in wanted)
    && (forall k | k !in active :: k in handles <==> k in before)
    && forall k | k in handles ::
         if k in before then handles[k] == before[k] else k in wanted && handles[k].spec == wanted[k]
  }

  lemma ReconciledStep(
    handles: map<Key, LoopContext>, handles': map<Key, LoopContext>, before: map<Key, LoopContext>,
    keys: seq<Key>, answers: seq<Answer>, i: nat)
    requires |keys| == |answers| && i < |keys| && keys[i] !in keys[..i]
    requires Reconciled(handles, before, Answered(keys[..i], answers[..i]), Wanted(keys[..i], answers[..i]))
    requires var key, answer := keys[i], answers[i];
      && (forall k | k != key :: (k in handles' <==> k in handles) && (k in handles ==> handles'[k] == handles[k]))
      && (key in handles' <==> Enabled(answer) || (answer.None? && key in handles))
      && (key in handles' && key in handles ==> handles'[key] == handles[key])
      && (key in handles' && key !in handles ==> handles'[key].spec == answer.value.value)
    ensures var keys', answers' := keys[..i + 1], answers[..i + 1];
      Reconciled(handles', before, Answered(keys', answers'), Wanted(keys', answers'))
  {
    assert keys[..i + 1][..i] == keys[..i] && answers[..i + 1][..i] == answers[..i];
    WantedWasAnswered(keys[..i], answers[..i]);
    var key, wanted := keys[i], Wanted(keys[..i], answers[..i]);
    assert key !in Answered(keys[..i], answers[..i]) && key !in wanted;
    assert Wanted(keys[..i + 1], answers[..i + 1])
        == if Enabled(answers[i]) then wanted[key := answers[i].value.value] else wanted;
  }

  class Checker {
    var cancels: map<Key, LoopContext>
    ghost var created: set<LoopContext>   // every context ensureLoop ever created

    predicate Holds(c: LoopContext)
      reads this
    {
      c.key in cancels && cancels[c.key] == c
    }

    /** Each context is either held under exactly one key and uncancelled, or cancelled once and not held. */
    ghost predicate Valid()
      reads this, created
    {
      && (forall k | k in cancels :: cancels[k] in created && cancels[k].key == k && cancels[k].cancelCalls == 0)
      && (forall c | c in created :: c.cancelCalls == if Holds(c) then 0 else 1)
    }

    constructor New()
      ensures Valid() && cancels == map[] && created == {}
    {
      cancels := map[];
      created := {};
    }

    method EnsureLoop(key: Key, spec: HealthCheckSpec)
      requires Valid()
      modifies this
      ensures Valid() && key in cancels
      ensures key in old(cancels) ==> cancels == old(cancels) && created == old(created)
      ensures key !in old(cancels) ==>
        && fresh(cancels[key]) && cancels[key].spec == spec && !cancels[key].exited
        && cancels == old(cancels)[key := cancels[key]] && created == old(created) + {cancels[key]}
    {
      if key in cancels {
        return;
      }
      var context := new LoopContext(key, spec);
      cancels := cancels[key := context];
      created := created + {context};
    }

    method StopLoop(key: Key)
      requires Valid()
      modifies this`cancels, if key in cancels then {cancels[key]} else {}
      ensures Valid() && cancels == old(cancels) - {key} && created == old(created)
      ensures forall c | c in created :: c.exited == old(c.exited)
    {
      if key in cancels {
        var context := cancels[key];
        context.cancelCalls := context.cancelCalls + 1;
        cancels := cancels - {key};
      }
    }

    method StopAll()
      requires Valid()
      modifies this`cancels, cancels.Values
      ensures Valid() && cancels == map[] && created == old(created)
      ensures forall c | c in created :: c.cancelCalls == 1
    {
      var rest := cancels.Keys;
      while rest != {}
        invariant rest <= cancels.Keys && cancels == old(cancels)
        invariant forall c | c in created :: c.cancelCalls == if Holds(c) && c.key in rest then 0 else 1
        decreases rest
      {
        var k :| k in rest;
        assert cancels[k] in cancels.Values;
        cancels[k].cancelCalls := cancels[k].cancelCalls + 1;
        rest := rest - {k};
      }
      cancels := map[];
    }

    /** One round of the first loop of `sync`. */
    method Visit(key: Key, answer: Answer)
      requires Valid()
      modifies this, if key in cancels then {cancels[key]} else {}
      ensures Valid()
      ensures forall k | k != key ::
        (k in cancels <==> k in old(cancels)) && (k in cancels ==> cancels[k] == old(cancels)[k])
      ensures key in cancels <==> Enabled(answer) || (answer.None? && key in old(cancels))
      ensures key in cancels && key in old(cancels) ==> cancels[key] == old(cancels)[key]
      ensures key in cancels && key !in old(cancels) ==>
        fresh(cancels[key]) && cancels[key].spec == answer.value.value && !cancels[key].exited
      ensures created == old(created) + if key in cancels && key !in old(cancels) then {cancels[key]} else {}
      ensures forall c | c in old(created) :: c.exited == old(c.exited)
    {
      if answer.None? {
        return;
      }
      if !Enabled(answer) {
        StopLoop(key);
        return;
      }
      EnsureLoop(key, answer.value.value);
    }

    /** The first half of `sync`: start or stop a loop for every key that is still in the store. */
    method VisitKeys(keys: seq<Key>, answers: seq<Answer>) returns (active: set<Key>)
      requires Valid() && |keys| == |answers|
      requires forall i, j | 0 <= i < j < |keys| :: keys[i] != keys[j]
      modifies this, cancels.Values
      ensures Valid() && active == Answered(keys, answers)
      ensures Reconciled(cancels, old(cancels), active, Wanted(keys, answers))
      ensures OnlyStarted(old(created), old(cancels)) && fresh(created - old(created))
      ensures forall c | c in old(created) :: c.exited == old(c.exited)
    {
      ghost var before := cancels;
      active := {};
      for i := 0 to |keys|
        invariant Valid() && active == Answered(keys[..i], answers[..i])
        invariant Reconciled(cancels, before, active, Wanted(keys[..i], answers[..i]))
        invariant OnlyStarted(old(created), before) && fresh(created - old(created))
        invariant forall c | c in old(created) :: c.exited == old(c.exited)
      {
        ghost var handles := cancels;
        assert keys[..i + 1][..i] == keys[..i] && answers[..i + 1][..i] == answers[..i];
        WantedWasAnswered(keys[..i], answers[..i]);
        Visit(keys[i], answers[i]);
        ReconciledStep(handles, cancels, before, keys, answers, i);
        active := active + if answers[i].Some? then {keys[i]} else {};
      }
      assert keys[..|keys|] == keys && answers[..|answers|] == answers;
    }

    /** The contexts created since are running and held, under keys that had no handle. */
    ghost predicate OnlyStarted(existing: set<LoopContext>, before: map<Key, LoopContext>)
      reads this, created
    {
      && existing <= created
      && (forall c | c in created - existing :: Holds(c) && c.key !in before && !c.exited)
      && forall k | k in cancels && k !in before :: cancels[k] in created && cancels[k] !in existing
    }

    /** The second half of `sync`: stop the loops of keys that are gone. */
    method StopMissing(active: set<Key>)
      requires Valid()
      modifies this`cancels, cancels.Values
      ensures Valid() && created == old(created)
      ensures cancels == map k | k in old(cancels) && k in active :: old(cancels)[k]
      ensures forall c | c in created :: c.exited == old(c.exited)
    {
      var rest := cancels.Keys;
      while rest != {}
        invariant Valid() && created == old(created)
        invariant rest <= old(cancels).Keys
        invariant cancels == map k | k in old(cancels) && (k in active || k in rest) :: old(cancels)[k]
        invariant forall c | c in created :: c.exited == old(c.exited)
        decreases rest
      {
        var k :| k in rest;
        rest := rest - {k};
        if k !in active {
          assert cancels[k] in old(cancels).Values;
          StopLoop(k);
        }
      }
    }

    /**
     * One `sync`: `keys` is the snapshot of the store's keys and `answers` what each Get returned, which may
     * come from different moments. Whatever the handles were before, afterwards there is one for exactly the
     * wanted keys; running ones are kept as they are, and the rest are new and carry the answered spec.
     */
    method Sync(keys: seq<Key>, answers: seq<Answer>)
      requires Valid() && |keys| == |answers|
      requires forall i, j | 0 <= i < j < |keys| :: keys[i] != keys[j]
      modifies this, cancels.Values
      ensures Valid() && cancels.Keys == Wanted(keys, answers).Keys
      ensures forall k | k in cancels ::
        if k in old(cancels) then cancels[k] == old(cancels)[k] else cancels[k].spec == Wanted(keys, answers)[k]
      ensures OnlyStarted(old(created), old(cancels)) && fresh(created - old(created))
      ensures forall c | c in old(created) :: c.exited == old(c.exited)
      // a wanted key has no running loop exactly when the handle kept for it belongs to a loop that returned
      ensures forall k | k in cancels :: cancels[k].exited <==> k in old(cancels) && old(cancels[k].exited)
      // a second sync on the same answers changes nothing
      ensures old(cancels.Keys) == Wanted(keys, answers).Keys ==> cancels == old(cancels) && created == old(created)
    {
      var active := VisitKeys(keys, answers);
      WantedWasAnswered(keys, answers);
      StopMissing(active);
    }
  }

  // ------------------------------------------------------------ sync against the store

  ghost predicate WantsLoop(s: S.Store, k: Key)
    reads s
  {
    k in s.data && s.data[k].spec.healthCheck.Some? && s.data[k].spec.healthCheck.value.enabled
  }

  lemma {:induction false} WantedFromAnswers(keys: seq<Key>, answers: seq<Answer>, k: Key)
    requires |keys| == |answers|
    requires forall i, j | 0 <= i < j < |keys| :: keys[i] != keys[j]
    ensures k in Wanted(keys, answers) <==> exists i | 0 <= i < |keys| :: keys[i] == k && Enabled(answers[i])
    ensures forall i | 0 <= i < |keys| && keys[i] == k && Enabled(answers[i]) ::
      k in Wanted(keys, answers) && Wanted(keys, answers)[k] == answers[i].value.value
  {
    if keys != [] {
      WantedFromAnswers(keys[..|keys| - 1], answers[..|answers| - 1], k);
    }
  }

  /** The reads of one `sync` of a store that stands still. */
  method ReadAll(s: S.Store) returns (keys: seq<Key>, answers: seq<Answer>)
    ensures |keys| == |answers| && forall i, j | 0 <= i < j < |keys| :: keys[i] != keys[j]
    ensures forall k :: k in Wanted(keys, answers) <==> WantsLoop(s, k)
    ensures forall k | k in Wanted(keys, answers) && WantsLoop(s, k) ::
      Some(Wanted(keys, answers)[k]) == s.data[k].spec.healthCheck
  {
    keys := s.Keys();
    answers := [];
    for i := 0 to |keys|
      invariant |answers| == i
      invariant forall j | 0 <= j < i :: keys[j] in s.data && answers[j] == Some(s.data[keys[j]].spec.healthCheck)
    {
      var view := s.Get(keys[i]);
      assert keys[i] in keys;
      answers := answers + [if view.Some? then Some(view.value.spec.healthCheck) else None];
    }
    forall k
      ensures k in Wanted(keys, answers) <==> WantsLoop(s, k)
      ensures k in Wanted(keys, answers) ==> Some(Wanted(keys, answers)[k]) == s.data[k].spec.healthCheck
    {
      WantedFromAnswers(keys, answers, k);
      if k in s.data {
        assert k in keys;
        var i :| 0 <= i < |keys| && keys[i] == k;
      }
    }
  }

  /**
   * While the store stands still, `sync` makes the handles match it from any prior handles: one for exactly
   * the stored keys with health checks enabled.
   */
  method SyncWithStore(c: Checker, s: S.Store)
    requires c.Valid()
    modifies c, c.cancels.Values
    ensures c.Valid() && s.data == old(s.data)
    ensures forall k :: k in c.cancels <==> WantsLoop(s, k)
    ensures forall k | k in c.cancels && WantsLoop(s, k) ::
      if k in old(c.cancels) then c.cancels[k] == old(c.cancels)[k]
      else Some(c.cancels[k].spec) == s.data[k].spec.healthCheck
    ensures forall k | k in c.cancels :: c.cancels[k].exited <==> k in old(c.cancels) && old(c.cancels[k].exited)
    ensures c.OnlyStarted(old(c.created), old(c.cancels)) && fresh(c.created - old(c.created))
    ensures forall x | x in old(c.created) :: x.exited == old(x.exited)
    ensures (forall k :: k in old(c.cancels) <==> WantsLoop(s, k)) ==>
      c.cancels == old(c.cancels) && c.created == old(c.created)
  {
    var keys, answers := ReadAll(s);
    c.Sync(keys, answers);
  }

  // --------------------------------------------------------------------- any run

  datatype CheckerOp = SyncOp(keys: seq<Key>, answers: seq<Answer>) | StopAllOp

  predicate WellFormed(op: CheckerOp) {
    op.SyncOp? ==> |op.keys| == |op.answers| && forall i, j | 0 <= i < j < |op.keys| :: op.keys[i] != op.keys[j]
  }

  /**
   * Over any sequence of syncs, each with whatever the store answered then, and stopAlls: every context ever
   * created is held under exactly one key and uncancelled, or was cancelled exactly once and is not held; a
   * key never has two uncancelled contexts, and none is left after a final stopAll.
   */
  method PerformAll(c: Checker, ops: seq<CheckerOp>)
    requires c.Valid() && forall op | op in ops :: WellFormed(op)
    modifies c, c.created
    ensures c.Valid() && old(c.created) <= c.created
    ensures forall x | x in c.created :: x.cancelCalls <= 1 && (x.cancelCalls == 0 <==> c.Holds(x))
    ensures forall x, y | x in c.created && y in c.created && x.key == y.key ::
      x.cancelCalls == 0 && y.cancelCalls == 0 ==> x == y
    ensures ops != [] && ops[|ops| - 1].StopAllOp? ==> forall x | x in c.created :: x.cancelCalls == 1
  {
    for i := 0 to |ops|
      invariant c.Valid() && old(c.created) <= c.created && fresh(c.created - old(c.created))
      invariant i > 0 && ops[i - 1].StopAllOp? ==> c.cancels == map[]
    {
      assert WellFormed(ops[i]);
      match ops[i] {
        case SyncOp(keys, answers) => c.Sync(keys, answers);
        case StopAllOp => c.StopAll();
      }
    }
  }

  // ------------------------------------------------------------------ the probe pass

  /** The writes of one tick: every endpoint with a health path, in order, with the outcome of its probe. */
  function PassWrites(eps: seq<Endpoint>, outcomes: seq<HealthState>): seq<ProbeWrite>
    requires |outcomes| == |eps|
  {
    if eps == [] then []
    else
      var n := |eps| - 1;
      PassWrites(eps[..n], outcomes[..n])
      + if eps[n].healthPath == "" then [] else [ProbeWrite(eps[n].sourceRef, outcomes[n])]
  }

  /** One tick as a sequence of store operations: before each write, the operations of others until then. */
  function PassOps(key: Key, eps: seq<Endpoint>, outcomes: seq<HealthState>, others: seq<seq<S.StoreOp>>)
    : seq<S.StoreOp>
    requires |outcomes| == |eps| == |others|
  {
    if eps == [] then []
    else
      var n := |eps| - 1;
      PassOps(key, eps[..n], outcomes[..n], others[..n]) + others[n]
      + if eps[n].healthPath == "" then [] else [S.Probed(key, eps[n].sourceRef, outcomes[n])]
  }

  /**
   * One tick of `probeLoop`; `outcomes` are the probe results and `others` what anyone else does to the store
   * while the probes run. Whatever happens to the view meanwhile, the references probed and written are those
   * of the slice taken at the start. An absent key ends the loop and leaves its handle where it is.
   */
  method ProbePass(s: S.Store, loop: LoopContext, outcomes: seq<HealthState>, others: seq<seq<S.StoreOp>>)
    requires s.Valid()
    requires loop.key in s.data ==> |outcomes| == |others| == s.data[loop.key].endpoints.Length
    modifies loop`exited, s, s.Arrays()
    ensures s.Valid() && fresh(s.Arrays() - old(s.Arrays())) && old(s.retired) <= s.retired
    ensures loop.exited == (old(loop.exited) || loop.key !in old(s.data))
    ensures loop.key !in old(s.data) ==> s.data == old(s.data) && s.Contents() == old(s.Contents())
    ensures loop.key in old(s.data) ==>
      s.Contents() == S.RunOps(
        old(s.Contents()), PassOps(loop.key, old(s.data[loop.key].endpoints[..]), outcomes, others))
  {
    var view := StartPass(s, loop);
    if view.Some? {
      ProbeAll(s, loop.key, view.value.endpoints, outcomes, others);
    }
  }

  /** A tick up to its `Get`, which decides whether the loop goes on. */
  method StartPass(s: S.Store, loop: LoopContext) returns (view: Option<S.Entry>)
    modifies loop`exited
    ensures view.Some? <==> loop.key in s.data
    ensures view.Some? ==> view.value == s.data[loop.key]
    ensures loop.exited == (old(loop.exited) || loop.key !in s.data)
  {
    view := s.Get(loop.key);
    if view.None? {
      loop.exited := true;
    }
  }

  method ProbeAll(
    s: S.Store, key: Key, eps: array<Endpoint>, outcomes: seq<HealthState>, others: seq<seq<S.StoreOp>>)
    requires s.Valid() && eps in s.Arrays() && |outcomes| == |others| == eps.Length
    modifies s, s.Arrays()
    ensures s.Valid() && fresh(s.Arrays() - old(s.Arrays())) && old(s.retired) <= s.retired
    ensures s.Contents() == S.RunOps(old(s.Contents()), PassOps(key, old(eps[..]), outcomes, others))
  {
    ghost var before := eps[..];
    for i := 0 to eps.Length
      invariant s.Valid() && fresh(s.Arrays() - old(s.Arrays())) && old(s.retired) <= s.retired
      invariant eps in s.Arrays() + s.retired && Erase(eps[..]) == Erase(before)
      invariant s.Contents() == S.RunOps(old(s.Contents()), PassOps(key, before[..i], outcomes[..i], others[..i]))
    {
      PassStep(key, before, outcomes, others, old(s.Contents()), i);
      SameButHealth(eps[..], before, i);
      var ep := eps[i];
      S.PerformAll(s, others[i]);
      if ep.healthPath == "" {
        continue;
      }
      EraseWrite(eps[..], ep.sourceRef, outcomes[i]);
      s.UpdateEndpointHealth(key, ep.sourceRef, outcomes[i]);
    }
    assert before[..|before|] == before && outcomes[..|before|] == outcomes && others[..|before|] == others;
  }

  lemma SameButHealth(a: seq<Endpoint>, b: seq<Endpoint>, i: nat)
    requires Erase(a) == Erase(b) && i < |a|
    ensures |a| == |b| && a[i].sourceRef == b[i].sourceRef && a[i].healthPath == b[i].healthPath
  {
    assert |Erase(a)| == |Erase(b)|;
    assert Erase(a)[i] == Erase(b)[i];
  }

  lemma PassStep(
    key: Key, eps: seq<Endpoint>, outcomes: seq<HealthState>, others: seq<seq<S.StoreOp>>, m: map<Key, O.View>, i: nat)
    requires |outcomes| == |eps| == |others| && i < |eps|
    ensures S.RunOps(m, PassOps(key, eps[..i + 1], outcomes[..i + 1], others[..i + 1]))
      == var sofar := S.RunOps(S.RunOps(m, PassOps(key, eps[..i], outcomes[..i], others[..i])), others[i]);
         if eps[i].healthPath == "" then sofar else S.WriteView(sofar, key, eps[i].sourceRef, outcomes[i])
  {
    assert eps[..i + 1][..i] == eps[..i] && outcomes[..i + 1][..i] == outcomes[..i]
        && others[..i + 1][..i] == others[..i];
    var front := PassOps(key, eps[..i], outcomes[..i], others[..i]);
    S.RunOpsAppend(m, front, others[i]);
    if eps[i].healthPath == "" {
      assert PassOps(key, eps[..i + 1], outcomes[..i + 1], others[..i + 1]) == front + others[i];
    } else {
      var w := S.Probed(key, eps[i].sourceRef, outcomes[i]);
      assert PassOps(key, eps[..i + 1], outcomes[..i + 1], others[..i + 1]) == front + others[i] + [w];
      assert (front + others[i] + [w])[..|front + others[i]|] == front + others[i];
    }
  }

  lemma WriteAllAppend(eps: seq<Endpoint>, writes: seq<ProbeWrite>, w: ProbeWrite)
    ensures WriteAll(eps, writes + [w]) == WriteHealth(WriteAll(eps, writes), w.ref, w.state)
  {
    assert (writes + [w])[..|writes|] == writes;
  }

  /** A tick nobody interferes with leaves each result at its reference, later endpoints winning. */
  lemma {:induction false} PassAlone(
    m: map<Key, O.View>, key: Key, eps: seq<Endpoint>, outcomes: seq<HealthState>, others: seq<seq<S.StoreOp>>)
    requires |outcomes| == |eps| == |others| && key in m
    requires forall i | 0 <= i < |others| :: others[i] == []
    ensures S.RunOps(m, PassOps(key, eps, outcomes, others))
         == m[key := m[key].(endpoints := WriteAll(m[key].endpoints, PassWrites(eps, outcomes)))]
  {
    if eps != [] {
      var n := |eps| - 1;
      PassAlone(m, key, eps[..n], outcomes[..n], others[..n]);
      assert eps[..n + 1] == eps && outcomes[..n + 1] == outcomes && others[..n + 1] == others;
      PassStep(key, eps, outcomes, others, m, n);
      var front := PassWrites(eps[..n], outcomes[..n]);
      assert S.RunOps(S.RunOps(m, PassOps(key, eps[..n], outcomes[..n], others[..n])), others[n])
        == m[key := m[key].(endpoints := WriteAll(m[key].endpoints, front))];
      if eps[n].healthPath == "" {
        assert PassWrites(eps, outcomes) == front;
      } else {
        WriteAllAppend(m[key].endpoints, front, ProbeWrite(eps[n].sourceRef, outcomes[n]));
        assert PassWrites(eps, outcomes) == front + [ProbeWrite(eps[n].sourceRef, outcomes[n])];
      }
    }
  }

  /** A pass gives a reference the outcome of its last endpoint with a health path. */
  lemma {:induction false} PassOutcome(eps: seq<Endpoint>, outcomes: seq<HealthState>, i: nat)
    requires i < |outcomes| == |eps| && eps[i].healthPath != ""
    requires forall j | i < j < |eps| && eps[j].sourceRef == eps[i].sourceRef :: eps[j].healthPath == ""
    ensures LastWrite(PassWrites(eps, outcomes), eps[i].sourceRef) == Some(outcomes[i])
  {
    var n := |eps| - 1;
    var front := PassWrites(eps[..n], outcomes[..n]);
    if eps[n].healthPath != "" {
      var w := ProbeWrite(eps[n].sourceRef, outcomes[n]);
      assert PassWrites(eps, outcomes) == front + [w] && (front + [w])[..|front|] == front;
    } else {
      assert PassWrites(eps, outcomes) == front;
    }
    if i < n {
      PassOutcome(eps[..n], outcomes[..n], i);
    }
  }

  /** A pass writes exactly the references that some endpoint with a health path carries. */
  lemma {:induction false} PassReaches(eps: seq<Endpoint>, outcomes: seq<HealthState>, r: Key)
    requires |outcomes| == |eps|
    ensures LastWrite(PassWrites(eps, outcomes), r).Some?
      <==> exists i | 0 <= i < |eps| :: eps[i].sourceRef == r && eps[i].healthPath != ""
  {
    if eps != [] {
      var n := |eps| - 1;
      var front := PassWrites(eps[..n], outcomes[..n]);
      PassReaches(eps[..n], outcomes[..n], r);
      assert (exists i | 0 <= i < |eps| :: eps[i].sourceRef == r && eps[i].healthPath != "")
        <==> (exists i | 0 <= i < n :: eps[..n][i].sourceRef == r && eps[..n][i].healthPath != "")
             || (eps[n].sourceRef == r && eps[n].healthPath != "") by {
        assert forall i | 0 <= i < n :: eps[..n][i] == eps[i];
      }
      if eps[n].healthPath == "" {
        assert PassWrites(eps, outcomes) == front;
      } else {
        var all := front + [ProbeWrite(eps[n].sourceRef, outcomes[n])];
        assert PassWrites(eps, outcomes) == all && all[..|all| - 1] == front;
      }
    }
  }
}
