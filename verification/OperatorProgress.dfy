/**
 * Reconciles end: each of a reconcile's own steps brings it nearer to its end, no step of anyone else sets it
 * back, and it only ever waits for the store's lock, whose holder is never stuck.
 */
module OperatorProgress {
  import opened Kube
  import opened Sums
  import opened Discovery
  import opened Health
  import opened Operator

  /** How far a phase is from the end of its reconcile, coarse part first. */
  function Rank(cfg: Config, s: State, k: Key, p: Phase): (nat, nat) {
    match p
    case Fetching => (5, 0)
    case Dropping(_) => (4, 0)
    case Resolving(_) => (4, 0)
    case Listing(rm, names, done, _) =>
      (3, var calls := |Plan(cfg, rm.spec, names)|; if done <= calls then calls - done else 0)
    case Merging(_, _, read, _) =>
      (2, var all := if k in s.store then |s.store[k].endpoints| else 0; if read <= all then all - read else 0)
    case Publishing(_, _) => (1, 0)
    case Reporting(_, read, _) =>
      (0, var all := if k in s.store then |s.store[k].endpoints| else 0; if read <= all then all - read else 0)
    case Updating(_, _) => (0, 0)
  }

  predicate Below(a: (nat, nat), b: (nat, nat)) { a.0 < b.0 || (a.0 == b.0 && a.1 < b.1) }

  /** Every own step ends the reconcile or lowers its rank. */
  lemma OwnStepsProgress(cfg: Config, s: State, k: Key, action: Action)
    requires Shape(cfg, s) && k in s.active && ActionEnabled(cfg, s, k, action)
    ensures var s' := Perform(s, k, React(cfg, s, k, action));
      k in s'.active ==> Below(Rank(cfg, s', k, s'.active[k]), Rank(cfg, s, k, s.active[k]))
  {
    assert PhaseShape(cfg, s, k, s.active[k]);
  }

  /** Nobody else's step changes the phase or the rank of a reconcile. */
  lemma OthersDoNotDelay(cfg: Config, s: State, step: Step, k: Key)
    requires Shape(cfg, s) && Enabled(cfg, s, step) && k in s.active
    requires !(step.Reconcile? && step.key == k)
    ensures var s' := Apply(cfg, s, step);
      && k in s'.active && s'.active[k] == s.active[k]
      && Rank(cfg, s', k, s'.active[k]) == Rank(cfg, s, k, s.active[k])
  {
    if step.Probe? {
      ProbeFrame(s, step.probe);
      if k in s.store {
        ProbeKeepsEndpoints(s, step.probe, k);
      }
    } else if !step.Reconcile? {
      WorldFrame(cfg, s, step);
    }
  }

  predicate OwnStep(step: Step, k: Key) { step.Reconcile? && step.key == k }

  function RankOf(cfg: Config, s: State, k: Key): (nat, nat) {
    if k in s.active then Rank(cfg, s, k, s.active[k]) else (0, 0)
  }

  lemma RankStep(cfg: Config, s: State, step: Step, k: Key)
    requires Shape(cfg, s) && Enabled(cfg, s, step) && k in s.active && k in Apply(cfg, s, step).active
    ensures var before, after := RankOf(cfg, s, k), RankOf(cfg, Apply(cfg, s, step), k);
      if OwnStep(step, k) then Below(after, before) else after == before
  {
    if OwnStep(step, k) {
      OwnStepsProgress(cfg, s, k, step.action);
    } else {
      OthersDoNotDelay(cfg, s, step, k);
    }
  }

  lemma {:induction false} FallsOver(ranks: seq<(nat, nat)>, own: seq<bool>, from: nat, to: nat)
    requires |ranks| == |own| + 1 && from <= to < |ranks|
    requires forall i | from <= i < to :: if own[i] then Below(ranks[i + 1], ranks[i]) else ranks[i + 1] == ranks[i]
    ensures if exists i | from <= i < to :: own[i] then Below(ranks[to], ranks[from]) else ranks[to] == ranks[from]
  {
    if from < to {
      FallsOver(ranks, own, from, to - 1);
    }
  }

  /**
   * Over any stretch of a run in which the reconcile of `k` stays active, each of its own steps lowers the rank
   * and nothing raises it. The order is well founded, so a reconcile takes finitely many steps.
   */
  lemma RankFalls(cfg: Config, states: seq<State>, steps: seq<Step>, k: Key, from: nat, to: nat)
    requires |states| == |steps| + 1 && from <= to < |states|
    requires forall i | from <= i <= to :: Shape(cfg, states[i]) && k in states[i].active
    requires forall i | from <= i < to ::
      Enabled(cfg, states[i], steps[i]) && states[i + 1] == Apply(cfg, states[i], steps[i])
    ensures var before, after := RankOf(cfg, states[from], k), RankOf(cfg, states[to], k);
      if exists i | from <= i < to :: OwnStep(steps[i], k) then Below(after, before) else after == before
  {
    var ranks := seq(|states|, i requires 0 <= i < |states| => RankOf(cfg, states[i], k));
    var own := seq(|steps|, i requires 0 <= i < |steps| => OwnStep(steps[i], k));
    forall i | from <= i < to ensures if own[i] then Below(ranks[i + 1], ranks[i]) else ranks[i + 1] == ranks[i] {
      var next := states[i + 1];
      assert k in next.active;
      RankStep(cfg, states[i], steps[i], k);
    }
    FallsOver(ranks, own, from, to);
    if i :| from <= i < to && OwnStep(steps[i], k) {
      assert own[i];
    }
  }

  /** Every finite set can be listed. */
  lemma {:induction false} SomeListing<T(!new)>(s: set<T>) returns (order: seq<T>)
    ensures Enumerates(order, s)
  {
    if s == {} {
      order := [];
    } else {
      var x :| x in s;
      var rest := SomeListing(s - {x});
      order := rest + [x];
      assert forall i | 0 <= i < |rest| :: rest[i] in rest;
    }
  }

  /** A namespace list Reconcile can compute, unless the selector is malformed. */
  lemma SomeResolution(cfg: Config, c: Cluster, k: Key, spec: RoutemapSpec) returns (names: seq<string>)
    requires Resolvable(cfg, spec)
    ensures Resolves(cfg, c, k, spec, names)
  {
    var sel := spec.namespaces;
    if sel.watchAll {
      names := [];
    } else if sel.names != [] {
      names := sel.names;
    } else if sel.selector.Some? {
      names := SomeListing(Selected(cfg, c, sel.selector.value));
    } else {
      names := [k.ns];
    }
  }

  /**
   * While the lock is free an active reconcile can always move on; it has to fail, and be retried, only for a
   * malformed selector or for a status update against a cached version that is not the server's.
   */
  lemma NeverStuck(cfg: Config, s: State, k: Key) returns (action: Action)
    requires Shape(cfg, s) && s.writer.None? && k in s.active
    ensures ActionEnabled(cfg, s, k, action)
    ensures action.Fail? ==>
      || (s.active[k].Resolving? && !Resolvable(cfg, s.active[k].rm.spec))
      || (s.active[k].Reporting? && !(k in s.cache && k in s.api && s.cache[k].version == s.api[k].version))
  {
    var p := s.active[k];
    assert PhaseShape(cfg, s, k, p);
    match p
    case Fetching => action := Fetch;
    case Dropping(_) => action := Drop;
    case Updating(_, _) => action := UpdateFinalizers;
    case Resolving(rm) =>
      if !Resolvable(cfg, rm.spec) {
        action := Fail;
      } else {
        var names := SomeResolution(cfg, s.cluster, k, rm.spec);
        action := Resolve(names);
      }
    case Listing(rm, names, done, _) =>
      if done == |Plan(cfg, rm.spec, names)| {
        action := BeginMerge;
      } else {
        var order := SomeListing(CallEndpoints(s.cluster, Plan(cfg, rm.spec, names)[done], k, rm.spec).Keys);
        action := ListNext(order);
      }
    case Merging(_, _, read, _) =>
      action := if read == |s.store[k].endpoints| then EndMerge else ReadHealth;
    case Publishing(_, _) => action := Publish;
    case Reporting(_, read, _) =>
      if read < |s.store[k].endpoints| {
        action := CountNext;
      } else {
        action := if k in s.cache && k in s.api && s.cache[k].version == s.api[k].version then Report else Fail;
      }
  }

  /** The holder of the lock can always move on, one endpoint nearer to its release. */
  lemma LockIsReleased(cfg: Config, s: State) returns (probe: ProbeStep)
    requires Shape(cfg, s) && s.writer.Some?
    ensures ProbeEnabled(s, probe)
    ensures var s' := ApplyProbe(s, probe);
      s'.writer.Some? ==>
        && s'.writer.value.key == s.writer.value.key && s'.store.Keys == s.store.Keys
        && |s'.store[s.writer.value.key].endpoints| - s'.writer.value.next
           < |s.store[s.writer.value.key].endpoints| - s.writer.value.next
  {
    var w := s.writer.value;
    probe := if w.next == |s.store[w.key].endpoints| then EndWrite else WriteNext;
  }
}
