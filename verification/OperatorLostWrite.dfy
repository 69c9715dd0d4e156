/** The lost write: a probe result that is overwritten, from any state that allows it, and from start-up. */
module OperatorLostWrite {
  import opened Kube
  import opened Sums
  import opened Discovery
  import opened Finalizers
  import opened Health
  import opened Operator
  import opened OperatorHealth
  import opened OperatorTheorems
  import opened OperatorLastWrite
  import opened OperatorRuns
  import I = IngressInventory

  // ------------------------------------------------------------ one complete probe write

  /** The state after a write from which the endpoints before `next` were passed. */
  function AfterWrites(s: State, k: Key, ref: Key, state: HealthState, from: nat): State
    requires k in s.store && from <= |s.store[k].endpoints|
  {
    var eps := s.store[k].endpoints;
    s.(store := s.store[k := s.store[k].(endpoints := eps[..from] + WriteHealth(eps[from..], ref, state))],
       writer := None)
  }

  lemma WriteOneMore(eps: seq<Endpoint>, ref: Key, state: HealthState, from: nat)
    requires from < |eps|
    ensures var eps' := eps[from := WriteOne(eps[from], ref, state)];
      eps'[..from + 1] + WriteHealth(eps'[from + 1..], ref, state) == eps[..from] + WriteHealth(eps[from..], ref, state)
  {
  }

  /** A write that runs can finish, and reaches every endpoint it has not passed. */
  lemma {:induction false} WriteFinishes(cfg: Config, s: State) returns (steps: seq<Step>, s': State)
    requires WriterShape(s) && s.writer.Some?
    ensures Leads(cfg, s, steps, s')
    ensures forall step | step in steps :: step == Probe(WriteNext) || step == Probe(EndWrite)
    ensures var w := s.writer.value; s' == AfterWrites(s, w.key, w.ref, w.state, w.next)
    decreases |s.store[s.writer.value.key].endpoints| - s.writer.value.next
  {
    var w := s.writer.value;
    var eps := s.store[w.key].endpoints;
    if w.next == |eps| {
      steps := [Probe(EndWrite)];
      s' := ApplyProbe(s, EndWrite);
      LeadsOnce(cfg, s, Probe(EndWrite));
      assert eps[..w.next] + WriteHealth(eps[w.next..], w.ref, w.state) == eps;
      assert s.store[w.key := s.store[w.key].(endpoints := eps)] == s.store;
    } else {
      var next := ApplyProbe(s, WriteNext);
      var more;
      more, s' := WriteFinishes(cfg, next);
      LeadsFirst(cfg, s, Probe(WriteNext), more, s');
      steps := [Probe(WriteNext)] + more;
      WriteOneMore(eps, w.ref, w.state, w.next);
    }
  }

  /**
   * One complete probe of any view with the lock free, by a loop whose pass has come to the reference: it can run
   * to its end on its own, and then exactly the endpoints of the reference have the new state, the loop has moved
   * on, and the history has one more event if there are any such endpoints.
   */
  lemma ProbeRun(cfg: Config, s: State, id: nat, k: Key, ref: Key, state: HealthState)
    returns (steps: seq<Step>, s': State)
    requires s.writer.None? && k in s.store && state != Unknown && Due(s, id, k, ref)
    ensures Leads(cfg, s, steps, s')
    ensures s' == s.(
      loops := Advanced(s, id),
      store := s.store[k := s.store[k].(endpoints := WriteHealth(s.store[k].endpoints, ref, state))],
      events := s.events + if ref in StoredRefs(s, k) then [Wrote(k, ref, state)] else [])
  {
    var begun := ApplyProbe(s, BeginWrite(id, k, ref, state));
    var more;
    more, s' := WriteFinishes(cfg, begun);
    LeadsFirst(cfg, s, Probe(BeginWrite(id, k, ref, state)), more, s');
    steps := [Probe(BeginWrite(id, k, ref, state))] + more;
    var eps := s.store[k].endpoints;
    assert eps[..0] + WriteHealth(eps[0..], ref, state) == WriteHealth(eps, ref, state);
    assert s.store[k] == View(s.store[k].spec, eps);
  }

  /**
   * The guard is needed: in any reachable state with a merge of `k` about to publish, for any view, reference
   * and state, a complete probe followed by the publish leaves what the merge had read. The write is lost if
   * and only if that differs from what was written.
   */
  lemma ProbeIsLostInMerge(cfg: Config, s: State, id: nat, k: Key, r: Key, state: HealthState, i: nat)
    returns (steps: seq<Step>, s': State)
    requires Invariant(cfg, s) && s.writer.None? && state != Unknown && r in StoredRefs(s, k)
    requires Due(s, id, k, r)
    requires k in s.active && s.active[k].Publishing?
    requires i < |s.active[k].found| && s.active[k].found[i].sourceRef == r
    ensures Leads(cfg, s, steps, s')
    ensures k in s'.store && s'.store[k] == View(s.active[k].rm.spec, s.active[k].found)
    ensures Carried(s, k, r) == Some(s'.store[k].endpoints[i].health)
    ensures Expected(s'.events, k, r) == Some(state) && s'.writer.None?
  {
    var first, written := ProbeRun(cfg, s, id, k, r, state);
    s' := Apply(cfg, written, Reconcile(k, Publish));
    LeadsOnce(cfg, written, Reconcile(k, Publish));
    LeadsOn(cfg, s, first, written, [Reconcile(k, Publish)], s');
    steps := first + [Reconcile(k, Publish)];
    assert KeyHealth(s, k) && InView(s, k, r);
    PrevMapAll(s.active[k].found, i);
    OneMoreEvent(s.events, Wrote(k, r, state), k, r);
    OneMoreEvent(written.events, Published(k, Refs(s.active[k].found)), k, r);
    assert s.active[k].found[i] in s.active[k].found;
  }
}
