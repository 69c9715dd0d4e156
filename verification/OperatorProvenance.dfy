/**
 * Where a health comes from: a probe made in one pass of a loop that the checker started for that very key
 * because a view of the key asked for it, for an endpoint of the slice the pass began with.
 */
module OperatorProvenance {
  import opened Kube
  import opened Discovery
  import opened Health
  import opened Operator
  import opened OperatorHealth
  import opened OperatorTheorems

  lemma StartsEmpty(cfg: Config, states: seq<State>, steps: seq<Step>)
    requires IsRun(cfg, states, steps)
    ensures |states| == |steps| + 1 && states[0].loops == map[] && states[0].wanted == {}
  {
    RunStart(cfg, states, steps);
  }

  /** Only the checker, its loops and their writes change what loops there are. */
  lemma LoopsStay(cfg: Config, s: State, step: Step)
    requires Enabled(cfg, s, step) && !step.Loops? && !step.Probe?
    ensures Apply(cfg, s, step).loops == s.loops && Apply(cfg, s, step).wanted == s.wanted
  {
    if step.Client? {
      ClientFrame(s, step.key, step.write);
    }
  }

  /** A write moves one pass on. */
  lemma WriteMovesOn(s: State, probe: ProbeStep)
    requires ProbeEnabled(s, probe)
    ensures var s' := ApplyProbe(s, probe);
      && s'.wanted == s.wanted
      && s'.loops == if probe.BeginWrite? then Advanced(s, probe.id) else s.loops
  {
    match probe
    case BeginWrite(_, _, _, _) =>
    case WriteNext =>
    case EndWrite =>
  }

  /** The loop and its slice were there before, or a tick has just taken the slice. */
  predicate HadPass(s: State, step: Step, id: nat, loop: Loop)
    requires loop.pass.Some?
  {
    && id in s.loops && s.loops[id].key == loop.key
    && (|| (s.loops[id].pass.Some? && s.loops[id].pass.value.eps == loop.pass.value.eps)
        || (step == Loops(Tick(id)) && loop.key in s.store && loop.pass.value.eps == s.store[loop.key].endpoints))
  }

  lemma PassComesBy(s: State, loop: LoopStep, id: nat)
    requires LoopEnabled(s, loop)
    requires var s' := ApplyLoop(s, loop); id in s'.loops && s'.loops[id].pass.Some?
    ensures HadPass(s, Loops(loop), id, ApplyLoop(s, loop).loops[id])
  {
  }

  /** Only a tick takes a slice. */
  lemma PassComes(cfg: Config, s: State, step: Step, id: nat)
    requires Enabled(cfg, s, step)
    requires var s' := Apply(cfg, s, step); id in s'.loops && s'.loops[id].pass.Some?
    ensures HadPass(s, step, id, Apply(cfg, s, step).loops[id])
  {
    if step.Loops? {
      PassComesBy(s, step.loop, id);
    } else if step.Probe? {
      WriteMovesOn(s, step.probe);
    } else {
      LoopsStay(cfg, s, step);
    }
  }

  lemma LoopComesBy(s: State, loop: LoopStep, id: nat)
    requires LoopEnabled(s, loop) && id in ApplyLoop(s, loop).loops
    ensures var key := ApplyLoop(s, loop).loops[id].key;
      (id in s.loops && s.loops[id].key == key) || (loop == Spawn(id, key) && key in s.wanted)
  {
  }

  /** Only a spawn starts a loop. */
  lemma LoopComes(cfg: Config, s: State, step: Step, id: nat)
    requires Enabled(cfg, s, step) && id in Apply(cfg, s, step).loops
    ensures var key := Apply(cfg, s, step).loops[id].key;
      (id in s.loops && s.loops[id].key == key) || (step == Loops(Spawn(id, key)) && key in s.wanted)
  {
    if step.Loops? {
      LoopComesBy(s, step.loop, id);
    } else if step.Probe? {
      WriteMovesOn(s, step.probe);
    } else {
      LoopsStay(cfg, s, step);
    }
  }

  lemma WantComesBy(s: State, loop: LoopStep, k: Key)
    requires LoopEnabled(s, loop) && k in ApplyLoop(s, loop).wanted
    ensures k in s.wanted || (loop == Look(k) && WantsLoop(s, k))
  {
  }

  /** Only a look at a view that asks for health checks makes the checker want a loop. */
  lemma WantComes(cfg: Config, s: State, step: Step, k: Key)
    requires Enabled(cfg, s, step) && k in Apply(cfg, s, step).wanted
    ensures k in s.wanted || (step == Loops(Look(k)) && WantsLoop(s, k))
  {
    if step.Loops? {
      WantComesBy(s, step.loop, k);
    } else if step.Probe? {
      WriteMovesOn(s, step.probe);
    } else {
      LoopsStay(cfg, s, step);
    }
  }

  /** The step takes the slice of a stored view for a pass of the loop. */
  predicate Takes(s: State, step: Step, id: nat, k: Key, eps: seq<Endpoint>) {
    && step == Loops(Tick(id)) && id in s.loops && s.loops[id].key == k
    && k in s.store && eps == s.store[k].endpoints
  }

  lemma {:induction false} PassOrigin(cfg: Config, states: seq<State>, steps: seq<Step>, n: nat, id: nat)
    returns (t: nat)
    requires IsRun(cfg, states, steps) && n < |states| && id in states[n].loops && states[n].loops[id].pass.Some?
    ensures t < n && Takes(states[t], steps[t], id, states[n].loops[id].key, states[n].loops[id].pass.value.eps)
  {
    StartsEmpty(cfg, states, steps);
    t := n - 1;
    RunStep(cfg, states, steps, t);
    PassComes(cfg, states[t], steps[t], id);
    if !Takes(states[t], steps[t], id, states[n].loops[id].key, states[n].loops[id].pass.value.eps) {
      t := PassOrigin(cfg, states, steps, n - 1, id);
    }
  }

  /** The step deals with endpoint `i` of the pass: it begins its probe's write, or finds the key gone. */
  predicate Visits(s: State, step: Step, id: nat, i: nat) {
    && id in s.loops && s.loops[id].pass.Some?
    && var pass := s.loops[id].pass.value;
       && pass.next == i < |pass.eps|
       && ((step == Loops(Skip(id)) && s.loops[id].key !in s.store)
           || (step.Probe? && step.probe.BeginWrite? && step.probe.id == id && step.probe.key == s.loops[id].key
               && step.probe.ref == pass.eps[i].sourceRef))
  }

  /** A pass moves on by one endpoint, dealing with it if it has a health path, or stays, or has just begun. */
  predicate MovesOn(s: State, step: Step, id: nat, pass: Pass) {
    || pass.next == 0
    || (&& id in s.loops && s.loops[id].pass.Some? && s.loops[id].pass.value.eps == pass.eps
        && (|| s.loops[id].pass.value.next == pass.next
            || (&& s.loops[id].pass.value.next == pass.next - 1 < |pass.eps|
                && (pass.eps[pass.next - 1].healthPath != "" ==> Visits(s, step, id, pass.next - 1)))))
  }

  lemma PassMovesBy(s: State, loop: LoopStep, id: nat)
    requires LoopEnabled(s, loop)
    requires var s' := ApplyLoop(s, loop); id in s'.loops && s'.loops[id].pass.Some?
    ensures MovesOn(s, Loops(loop), id, ApplyLoop(s, loop).loops[id].pass.value)
  {
  }

  lemma PassMoves(cfg: Config, s: State, step: Step, id: nat)
    requires Enabled(cfg, s, step)
    requires var s' := Apply(cfg, s, step); id in s'.loops && s'.loops[id].pass.Some?
    ensures MovesOn(s, step, id, Apply(cfg, s, step).loops[id].pass.value)
  {
    if step.Loops? {
      PassMovesBy(s, step.loop, id);
    } else if step.Probe? {
      WriteMovesOn(s, step.probe);
    } else {
      LoopsStay(cfg, s, step);
    }
  }

  /**
   * A pass leaves no endpoint out: each one behind it that has a health path was probed and its write begun, or its
   * key was gone from the store by then.
   */
  lemma {:induction false} PassVisits(
    cfg: Config, states: seq<State>, steps: seq<Step>, n: nat, id: nat, i: nat) returns (m: nat)
    requires IsRun(cfg, states, steps) && n < |states| && id in states[n].loops && states[n].loops[id].pass.Some?
    requires var pass := states[n].loops[id].pass.value;
      i < pass.next && i < |pass.eps| && pass.eps[i].healthPath != ""
    ensures m < n && Visits(states[m], steps[m], id, i)
  {
    StartsEmpty(cfg, states, steps);
    m := n - 1;
    RunStep(cfg, states, steps, m);
    PassMoves(cfg, states[m], steps[m], id);
    if !Visits(states[m], steps[m], id, i) {
      m := PassVisits(cfg, states, steps, n - 1, id, i);
    }
  }

  lemma {:induction false} LoopOrigin(cfg: Config, states: seq<State>, steps: seq<Step>, n: nat, id: nat)
    returns (u: nat)
    requires IsRun(cfg, states, steps) && n < |states| && id in states[n].loops
    ensures u < n && steps[u] == Loops(Spawn(id, states[n].loops[id].key))
    ensures states[n].loops[id].key in states[u].wanted
  {
    StartsEmpty(cfg, states, steps);
    u := n - 1;
    RunStep(cfg, states, steps, u);
    LoopComes(cfg, states[u], steps[u], id);
    if id in states[u].loops && states[u].loops[id].key == states[n].loops[id].key {
      u := LoopOrigin(cfg, states, steps, n - 1, id);
    }
  }

  /** A stored view of the key has health checks enabled. */
  predicate AsksForChecks(store: map<Key, View>, k: Key) {
    k in store && match store[k].spec.healthCheck case None => false case Some(hc) => hc.enabled
  }

  lemma {:induction false} WantOrigin(cfg: Config, states: seq<State>, steps: seq<Step>, n: nat, k: Key)
    returns (l: nat)
    requires IsRun(cfg, states, steps) && n < |states| && k in states[n].wanted
    ensures l < n && steps[l] == Loops(Look(k)) && AsksForChecks(states[l].store, k)
  {
    StartsEmpty(cfg, states, steps);
    l := n - 1;
    RunStep(cfg, states, steps, l);
    WantComes(cfg, states[l], steps[l], k);
    if k in states[l].wanted {
      l := WantOrigin(cfg, states, steps, n - 1, k);
    }
  }

  /** The probe step writes for endpoint `at` of the slice, which has the reference and a health path. */
  predicate ProbesEndpoint(step: Step, id: nat, k: Key, eps: seq<Endpoint>, at: nat, r: Key, h: HealthState) {
    && at < |eps| && eps[at].sourceRef == r && eps[at].healthPath != ""
    && step == Probe(BeginWrite(id, k, r, h))
  }

  /**
   * Provenance over every run: a health other than Unknown was written at some step `m`, by loop `id`, in a pass
   * that took its slice from a stored view of the same key at step `t`, for an endpoint of that slice with the
   * same reference and a health path. The loop was started for that key at step `u`, after a look at step `l` at a
   * view of the key that asked for health checks. The reference has been in view since `m`.
   */
  lemma HealthComesFromPasses(cfg: Config, states: seq<State>, steps: seq<Step>, n: nat, k: Key, i: nat)
    returns (l: nat, u: nat, t: nat, m: nat, id: nat, at: nat)
    requires IsRun(cfg, states, steps) && n < |states|
    requires k in states[n].store && i < |states[n].store[k].endpoints|
    requires states[n].store[k].endpoints[i].health != Unknown
    ensures l < u < t < m < n
    ensures steps[l] == Loops(Look(k)) && AsksForChecks(states[l].store, k)
    ensures steps[u] == Loops(Spawn(id, k)) && steps[t] == Loops(Tick(id)) && k in states[t].store
    ensures var ep := states[n].store[k].endpoints[i];
      && ProbesEndpoint(steps[m], id, k, states[t].store[k].endpoints, at, ep.sourceRef, ep.health)
      && InViewSince(states[n].events, |states[m].events|, k, ep.sourceRef)
  {
    var j;
    j, m := HealthComesFromProbes(cfg, states, steps, n, k, i);
    RunStep(cfg, states, steps, m);
    var ep := states[n].store[k].endpoints[i];
    id := steps[m].probe.id;
    assert Due(states[m], id, k, ep.sourceRef);
    at := states[m].loops[id].pass.value.next;
    t := PassOrigin(cfg, states, steps, m, id);
    u := LoopOrigin(cfg, states, steps, t, id);
    l := WantOrigin(cfg, states, steps, u, k);
  }
}
