/** Every run of the operator on the shared memory: each step of the state machine is one operation on the heap. */
module SharedRuns {
  import opened Kube
  import opened Discovery
  import opened Health
  import opened Operator
  import opened OperatorTheorems
  import H = SharedHeap
  import S = Store

  predicate InWindow(s: State, k: Key) {
    k in s.active && (s.active[k].Merging? || s.active[k].Publishing?)
  }

  /** The heap job a phase in the merge window stands for. */
  function JobFor(p: Phase): H.Job
    requires p.Merging? || p.Publishing?
  {
    match p
    case Merging(_, found, read, prev) => H.Reading(found, read, prev)
    case Publishing(_, found) => H.Merged(found)
  }

  /** The shared memory in a state of the machine. */
  function MemoryOf(s: State): H.Memory {
    H.Memory(s.store, map k | k in s.active && InWindow(s, k) :: JobFor(s.active[k]), s.writer)
  }

  /** What an action does to shared memory; most do nothing. */
  function ActionOp(s: State, k: Key, action: Action): H.MemoryOp
    requires k in s.active || action.Start?
  {
    match action
    case BeginMerge => if s.active[k].Listing? then H.Begin(k, s.active[k].found) else H.Nothing
    case ReadHealth => H.Read(k)
    case EndMerge => H.End(k)
    case Publish => if s.active[k].Publishing? then H.Set(k, s.active[k].rm.spec) else H.Nothing
    case Drop => H.Remove(k)
    case _ => H.Nothing
  }

  function ProbeOp(probe: ProbeStep): H.MemoryOp {
    match probe
    case BeginWrite(_, k, ref, state) => H.Lock(k, ref, state)
    case WriteNext => H.WriteNext
    case EndWrite => H.Unlock
  }

  lemma LookupAssign<V>(m: map<Key, V>, k: Key)
    ensures Assign(m, k, Lookup(m, k)) == m
  {
  }

  /** The actions that touch shared memory. */
  predicate Touches(action: Action) {
    action.BeginMerge? || action.ReadHealth? || action.EndMerge? || action.Publish? || action.Drop?
  }

  lemma TouchingRefines(cfg: Config, s: State, k: Key, action: Action)
    requires ActionEnabled(cfg, s, k, action) && Touches(action)
    ensures var op := ActionOp(s, k, action);
      && H.Allowed(MemoryOf(s), op)
      && MemoryOf(Perform(s, k, React(cfg, s, k, action))) == H.After(MemoryOf(s), op)
  {
    LookupAssign(s.store, k);
    JobsAfter(s, Perform(s, k, React(cfg, s, k, action)), k, React(cfg, s, k, action).phase);
  }

  lemma UntouchedRefines(cfg: Config, s: State, k: Key, action: Action)
    requires ActionEnabled(cfg, s, k, action) && !Touches(action)
    ensures ActionOp(s, k, action) == H.Nothing
    ensures MemoryOf(Perform(s, k, React(cfg, s, k, action))) == MemoryOf(s)
  {
    LookupAssign(s.store, k);
    JobsAfter(s, Perform(s, k, React(cfg, s, k, action)), k, React(cfg, s, k, action).phase);
  }

  /** One action of the machine is one operation on the memory. */
  lemma ActionRefines(cfg: Config, s: State, k: Key, action: Action)
    requires ActionEnabled(cfg, s, k, action)
    ensures var op := ActionOp(s, k, action);
      && H.Allowed(MemoryOf(s), op)
      && MemoryOf(Perform(s, k, React(cfg, s, k, action))) == H.After(MemoryOf(s), op)
  {
    if Touches(action) {
      TouchingRefines(cfg, s, k, action);
    } else {
      UntouchedRefines(cfg, s, k, action);
    }
  }

  lemma JobsAfter(s: State, s': State, k: Key, p: Option<Phase>)
    requires s'.active == Assign(s.active, k, p)
    ensures MemoryOf(s').jobs
         == if p.Some? && (p.value.Merging? || p.value.Publishing?) then MemoryOf(s).jobs[k := JobFor(p.value)]
            else MemoryOf(s).jobs - {k}
    ensures !InWindow(s, k) ==> MemoryOf(s).jobs - {k} == MemoryOf(s).jobs
  {
  }

  lemma ProbeRefines(s: State, probe: ProbeStep)
    requires ProbeEnabled(s, probe)
    ensures H.Allowed(MemoryOf(s), ProbeOp(probe))
    ensures MemoryOf(ApplyProbe(s, probe)) == H.After(MemoryOf(s), ProbeOp(probe))
  {
    ProbeFrame(s, probe);
    assert MemoryOf(ApplyProbe(s, probe)).jobs == MemoryOf(s).jobs;
  }

  function StepOp(s: State, step: Step): H.MemoryOp {
    match step
    case Reconcile(k, action) => if k in s.active || action.Start? then ActionOp(s, k, action) else H.Nothing
    case Probe(probe) => ProbeOp(probe)
    case _ => H.Nothing
  }

  /** One step of the machine is one operation on the memory. */
  lemma StepRefines(cfg: Config, s: State, step: Step)
    requires Enabled(cfg, s, step)
    ensures H.Allowed(MemoryOf(s), StepOp(s, step))
    ensures MemoryOf(Apply(cfg, s, step)) == H.After(MemoryOf(s), StepOp(s, step))
  {
    match step
    case Reconcile(k, action) =>
      ActionRefines(cfg, s, k, action);
    case Probe(probe) =>
      ProbeRefines(s, probe);
    case _ =>
      WorldFrame(cfg, s, step);
      assert MemoryOf(Apply(cfg, s, step)).jobs == MemoryOf(s).jobs;
  }

  /** The operations of `n` steps of the run. */
  function OpsFrom(states: seq<State>, steps: seq<Step>, from: nat, n: nat): seq<H.MemoryOp>
    requires from + n <= |steps| < |states|
    decreases n
  {
    if n == 0 then [] else [StepOp(states[from], steps[from])] + OpsFrom(states, steps, from + 1, n - 1)
  }

  /** A stretch of a run is a sequence of operations on the memory. */
  lemma {:induction false} RunRefines(cfg: Config, states: seq<State>, steps: seq<Step>, from: nat, n: nat)
    requires IsRun(cfg, states, steps) && from + n < |states|
    ensures H.Leads(MemoryOf(states[from]), OpsFrom(states, steps, from, n), MemoryOf(states[from + n]))
    decreases n
  {
    if n > 0 {
      RunStep(cfg, states, steps, from);
      StepRefines(cfg, states[from], steps[from]);
      RunRefines(cfg, states, steps, from + 1, n - 1);
      OpsNext(states, steps, from, n);
    }
  }

  /** The step replaces or removes the view of the key. */
  predicate EndsView(step: Step, k: Key) { step == Reconcile(k, Publish) || step == Reconcile(k, Drop) }

  lemma StepReplaces(cfg: Config, s: State, step: Step, k: Key)
    requires Enabled(cfg, s, step)
    ensures H.Replaces(StepOp(s, step), k) <==> EndsView(step, k)
  {
  }

  /** One of the `n` steps replaces or removes the view of the key. */
  predicate EndedWithin(steps: seq<Step>, from: nat, n: nat, k: Key)
    requires from + n <= |steps|
  {
    exists i | from <= i < from + n :: EndsView(steps[i], k)
  }

  lemma EndedNext(steps: seq<Step>, from: nat, n: nat, k: Key)
    requires 0 < n && from + n <= |steps|
    ensures EndedWithin(steps, from, n, k) <==> EndsView(steps[from], k) || EndedWithin(steps, from + 1, n - 1, k)
  {
  }

  lemma {:induction false} RunReplaces(
    cfg: Config, states: seq<State>, steps: seq<Step>, from: nat, n: nat, k: Key)
    requires IsRun(cfg, states, steps) && from + n < |states|
    ensures H.Replaced(OpsFrom(states, steps, from, n), k) <==> EndedWithin(steps, from, n, k)
    decreases n
  {
    if n > 0 {
      RunStep(cfg, states, steps, from);
      StepReplaces(cfg, states[from], steps[from], k);
      RunReplaces(cfg, states, steps, from + 1, n - 1, k);
      EndedNext(steps, from, n, k);
      OpsNext(states, steps, from, n);
    }
  }

  lemma OpsNext(states: seq<State>, steps: seq<Step>, from: nat, n: nat)
    requires 0 < n && from + n <= |steps| < |states|
    ensures var ops := OpsFrom(states, steps, from, n);
      && ops != [] && ops[0] == StepOp(states[from], steps[from])
      && ops[1..] == OpsFrom(states, steps, from + 1, n - 1)
  {
  }

  /**
   * Refinement over every run: the heap after each step holds exactly what the machine says. So in every
   * reachable state, with merges and probe writes interleaved one element at a time, slices stored under
   * different keys are different and no merge writes a stored slice. The slice of a key is retired exactly when
   * a step replaces or removes its view, and a retired slice is never written.
   */
  method PerformRun(h: H.Shared, ghost cfg: Config, states: seq<State>, steps: seq<Step>, from: nat, n: nat)
    requires IsRun(cfg, states, steps) && from + n < |states| && H.Shows(h, MemoryOf(states[from]))
    modifies h, h.store, h.slices - h.store.retired
    ensures H.Shows(h, MemoryOf(states[from + n]))
    ensures old(h.store.retired) <= h.store.retired
    ensures forall k | k in old(h.store.data) ::
      if EndedWithin(steps, from, n, k)
      then old(h.store.data)[k].endpoints in h.store.retired
      else k in h.store.data && h.store.data[k] == old(h.store.data)[k]
    ensures forall a: array<Endpoint> | a in old(h.store.retired) :: a[..] == old(a[..])
  {
    RunRefines(cfg, states, steps, from, n);
    H.PerformAll(h, MemoryOf(states[from]), OpsFrom(states, steps, from, n), MemoryOf(states[from + n]));
    forall k | k in old(h.store.data)
      ensures H.Replaced(OpsFrom(states, steps, from, n), k) <==> EndedWithin(steps, from, n, k)
    {
      RunReplaces(cfg, states, steps, from, n, k);
    }
  }

  /** At start-up the shared memory is empty. */
  method StartUp(ghost s: State) returns (h: H.Shared)
    requires Init(s)
    ensures fresh(h) && fresh(h.store) && fresh(h.slices) && H.Shows(h, MemoryOf(s))
  {
    h := new H.Shared();
    assert MemoryOf(s) == H.Memory(map[], map[], None);
  }
}
