/** What holds in every state of every run. */
module OperatorTheorems {
  import opened Kube
  import opened Sums
  import opened Discovery
  import opened Finalizers
  import opened Health
  import opened Operator
  import opened OperatorFinalizer
  import opened OperatorSync
  import opened OperatorHealth

  ghost predicate Invariant(cfg: Config, s: State) {
    Shape(cfg, s) && Protocol(s) && InSync(cfg, s) && HealthInv(s)
  }

  lemma InvariantStep(cfg: Config, s: State, step: Step)
    requires Invariant(cfg, s) && Enabled(cfg, s, step)
    ensures Invariant(cfg, Apply(cfg, s, step))
  {
    ShapeStep(cfg, s, step);
    ProtocolStep(cfg, s, step);
    SyncStep(cfg, s, step);
    HealthStep(cfg, s, step);
  }

  lemma {:induction false} InvariantInEveryRun(cfg: Config, states: seq<State>, steps: seq<Step>, n: nat)
    requires IsRun(cfg, states, steps) && n < |states|
    ensures Invariant(cfg, states[n])
  {
    if n == 0 {
      ProtocolInit(states[0]);
      SyncInit(cfg, states[0]);
      HealthInit(states[0]);
    } else {
      InvariantInEveryRun(cfg, states, steps, n - 1);
      RunStep(cfg, states, steps, n - 1);
      InvariantStep(cfg, states[n - 1], steps[n - 1]);
    }
  }

  /** Neither queued nor being reconciled, and the cache has caught up on its Routemap. */
  predicate AtRest(s: State, k: Key) {
    k !in s.pending && k !in s.active && Feed(s, k) == []
  }

  /**
   * The index equals full recomputation. In every run, a key at rest has a view exactly when the API server
   * holds the Routemap and it is not being deleted; one being deleted is free of our finalizer. The view then
   * has the Routemap's current spec, and its endpoints, health aside, are the full rediscovery from the current
   * cluster.
   */
  lemma IndexIsRecomputation(cfg: Config, states: seq<State>, steps: seq<Step>, n: nat, k: Key)
    requires IsRun(cfg, states, steps) && n < |states| && AtRest(states[n], k)
    ensures var s := states[n];
      && (k in s.store <==> k in s.api && !s.api[k].deleting)
      && (k in s.api && s.api[k].deleting ==> FINALIZER !in s.api[k].finalizers)
      && (k in s.store ==>
            && FINALIZER in s.api[k].finalizers && Resolvable(cfg, s.api[k].spec)
            && s.store[k].spec == s.api[k].spec
            && multiset(Erase(s.store[k].endpoints)) == Rediscover(cfg, s.cluster, k, s.api[k].spec))
  {
    var s := states[n];
    InvariantInEveryRun(cfg, states, steps, n);
    assert KeyInSync(cfg, s, k);
    assert KeyProtocol(s, k);
    assert Window(s, k) == [Lookup(s.cache, k)];
  }

  /**
   * No orphan views: in every state of every run, however far the cache trails the API server, a stored key
   * has an API object that still carries the finalizer.
   */
  lemma StoredKeysHoldTheFinalizer(cfg: Config, states: seq<State>, steps: seq<Step>, n: nat, k: Key)
    requires IsRun(cfg, states, steps) && n < |states| && k in states[n].store
    ensures k in states[n].api && FINALIZER in states[n].api[k].finalizers
  {
    InvariantInEveryRun(cfg, states, steps, n);
    assert KeyProtocol(states[n], k);
  }

  /** A step that writes no view cannot bring one back: not a probe, not the world, not another key. */
  lemma OnlyPublishCreatesViews(cfg: Config, s: State, step: Step, k: Key)
    requires Enabled(cfg, s, step) && k !in s.store && k in Apply(cfg, s, step).store
    ensures step == Reconcile(k, Publish)
  {
    if step.Probe? {
      ProbeFrame(s, step.probe);
    } else if step.Reconcile? {
      if !step.action.Publish? {
        ViewAfterAction(cfg, s, step.key, step.action);
      }
    } else {
      WorldFrame(cfg, s, step);
    }
  }

  lemma ViewAfterAction(cfg: Config, s: State, k: Key, action: Action)
    requires ActionEnabled(cfg, s, k, action) && !action.Publish?
    ensures React(cfg, s, k, action).view.Some? ==> k in s.store
  {
  }

  /** The step begins the write the event records. */
  predicate Begins(step: Step, ev: Event) {
    && step.Probe? && step.probe.BeginWrite? && ev.Wrote?
    && step.probe.key == ev.key && step.probe.ref == ev.ref && step.probe.state == ev.state
  }

  /** A step adds at most one event, and only a beginning probe write adds a write. */
  lemma EventsGrow(cfg: Config, s: State, step: Step)
    requires Enabled(cfg, s, step)
    ensures var events := Apply(cfg, s, step).events;
      || events == s.events
      || exists ev :: events == s.events + [ev] && (ev.Wrote? ==> Begins(step, ev))
  {
    if step.Reconcile? {
      var e := React(cfg, s, step.key, step.action);
      if e.event.Some? {
        assert Apply(cfg, s, step).events == s.events + [e.event.value];
      } else {
        assert Apply(cfg, s, step).events == s.events;
      }
    } else if step.Probe? {
      if step.probe.BeginWrite? && step.probe.ref in StoredRefs(s, step.probe.key) {
        var ev := Wrote(step.probe.key, step.probe.ref, step.probe.state);
        assert Apply(cfg, s, step).events == s.events + [ev];
      }
    } else {
      WorldFrame(cfg, s, step);
    }
  }

  /** Every write in the history was begun by a probe step of the run. */
  lemma {:induction false} WriteWasBegun(cfg: Config, states: seq<State>, steps: seq<Step>, n: nat, j: nat)
    returns (m: nat)
    requires IsRun(cfg, states, steps) && n < |states| && j < |states[n].events| && states[n].events[j].Wrote?
    ensures var ev := states[n].events[j];
      m < n && Begins(steps[m], ev) && states[m].events == states[n].events[..j]
  {
    m := n - 1;
    RunStart(cfg, states, steps);
    RunStep(cfg, states, steps, m);
    EventsGrow(cfg, states[m], steps[m]);
    if j < |states[m].events| {
      assert states[n].events[..j] == states[m].events[..j];
      m := WriteWasBegun(cfg, states, steps, n - 1, j);
    }
  }

  /**
   * Provenance, in all interleavings: a health other than Unknown was written by a probe for this very key
   * and reference, begun at step `m`, and the reference has been in the key's view ever since.
   */
  lemma HealthComesFromProbes(cfg: Config, states: seq<State>, steps: seq<Step>, n: nat, k: Key, i: nat)
    returns (j: nat, m: nat)
    requires IsRun(cfg, states, steps) && n < |states|
    requires k in states[n].store && i < |states[n].store[k].endpoints|
    requires states[n].store[k].endpoints[i].health != Unknown
    ensures var s, ep := states[n], states[n].store[k].endpoints[i];
      && j < |s.events| && s.events[j] == Wrote(k, ep.sourceRef, ep.health)
      && InViewSince(s.events, j, k, ep.sourceRef)
      && m < n && Begins(steps[m], s.events[j]) && states[m].events == s.events[..j]
  {
    var s, ep := states[n], states[n].store[k].endpoints[i];
    InvariantInEveryRun(cfg, states, steps, n);
    assert KeyHealth(s, k);
    assert Admits(s, k, ep.sourceRef, ep.health);
    j := PossibleWasWritten(s.events, k, ep.sourceRef, ep.health);
    m := WriteWasBegun(cfg, states, steps, n, j);
  }

  /** At every lock boundary, endpoints of one view with the same reference have the same health. */
  lemma ViewsAreUniform(cfg: Config, states: seq<State>, steps: seq<Step>, n: nat, k: Key)
    requires IsRun(cfg, states, steps) && n < |states| && k in states[n].store && states[n].writer.None?
    ensures Uniform(states[n].store[k].endpoints)
  {
    InvariantInEveryRun(cfg, states, steps, n);
    assert KeyHealth(states[n], k);
  }
}
