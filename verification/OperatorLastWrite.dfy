/**
 * Which health a view holds, exactly: the last state written for the reference, unless that write ended after a
 * merge had read the reference for the last time; then, once the merge has published, what the merge had read.
 */
module OperatorLastWrite {
  import opened Kube
  import opened Discovery
  import opened Health
  import opened Operator
  import opened OperatorHealth
  import opened OperatorTheorems

  // ----------------------------------------------------------------- what a merge holds

  /** The state a running merge holds for a reference: read so far, or merged and about to be published. */
  function Carried(s: State, k: Key, r: Key): Option<HealthState> {
    if k !in s.active then None
    else match s.active[k]
      case Merging(_, _, _, prev) => Lookup(prev, r)
      case Publishing(_, found) => Lookup(PrevMap(found), r)
      case _ => None
  }

  /** The merge has still to read a stored endpoint of the reference. */
  predicate LeftToRead(s: State, k: Key, r: Key) {
    && k in s.active && s.active[k].Merging? && k in s.store
    && exists i | s.active[k].read <= i < |s.store[k].endpoints| :: s.store[k].endpoints[i].sourceRef == r
  }

  /** A merge of the key holds a state for the reference and will not read it again. */
  predicate Overtaken(s: State, k: Key, r: Key) {
    Carried(s, k, r).Some? && !LeftToRead(s, k, r)
  }

  predicate WriteRuns(s: State, k: Key, r: Key) {
    s.writer.Some? && s.writer.value.key == k && s.writer.value.ref == r
  }

  ghost predicate StoredAs(s: State, k: Key, r: Key, h: HealthState) {
    k in s.store ==>
      forall i | 0 <= i < |s.store[k].endpoints| && s.store[k].endpoints[i].sourceRef == r ::
        s.store[k].endpoints[i].health == h
  }

  /** Between `Get` in `mergeHealth` and `Set`, with nothing of the reference left to read. */
  predicate ReadPast(s: State, k: Key, r: Key) {
    k in s.active && (s.active[k].Merging? || s.active[k].Publishing?) && !LeftToRead(s, k, r)
  }

  /**
   * No write of the reference runs; the view holds `h` for it; and a merge that will not read it again holds
   * `c`, if it holds anything for it. The two differ only while there is such a merge.
   */
  ghost predicate Settled(s: State, k: Key, r: Key, h: HealthState, c: HealthState) {
    && !WriteRuns(s, k, r)
    && StoredAs(s, k, r, h)
    && (Overtaken(s, k, r) ==> Carried(s, k, r) == Some(c))
    && (c == h || ReadPast(s, k, r))
  }

  // ------------------------------------------------------------- steps between two writes

  lemma PrevMapAll(eps: seq<Endpoint>, i: nat)
    requires Agrees(eps, None) && i < |eps|
    ensures Lookup(PrevMap(eps), eps[i].sourceRef) == Some(eps[i].health)
  {
    UniformPrevMap(eps, i);
  }

  lemma MergedCarries(prev: map<Key, HealthState>, found: seq<Endpoint>, r: Key, c: HealthState)
    requires r in prev && prev[r] == c
    ensures r in PrevMap(Merge(prev, found)) ==> PrevMap(Merge(prev, found))[r] == c
  {
    var merged := Merge(prev, found);
    if r in PrevMap(merged) {
      var i := PrevMapSource(merged, r);
      assert merged[i] == MergeOne(prev, found[i]);
    }
  }

  /** A merge that holds nothing for a reference in view has still to read it, or will drop it. */
  lemma NothingHeld(cfg: Config, s: State, k: Key, r: Key)
    requires Shape(cfg, s) && k in s.active && s.active[k].Merging? && r in StoredRefs(s, k)
    ensures Carried(s, k, r).Some? || LeftToRead(s, k, r)
  {
    assert PhaseShape(cfg, s, k, s.active[k]);
    var eps, read := s.store[k].endpoints, s.active[k].read;
    var i :| 0 <= i < |eps| && eps[i].sourceRef == r;
    if i < read {
      assert eps[..read][i] in eps[..read];
    }
  }

  lemma SettledRead(cfg: Config, s: State, k: Key, r: Key, h: HealthState, c: HealthState)
    requires Shape(cfg, s) && ActionEnabled(cfg, s, k, ReadHealth) && Settled(s, k, r, h, c)
    ensures Settled(Perform(s, k, React(cfg, s, k, ReadHealth)), k, r, h, c)
  {
    var s' := Perform(s, k, React(cfg, s, k, ReadHealth));
    var eps, read := s.store[k].endpoints, s.active[k].read;
    if eps[read].sourceRef == r {
      assert LeftToRead(s, k, r);
      assert Carried(s', k, r) == Some(h);
    } else {
      assert Carried(s', k, r) == Carried(s, k, r);
      if LeftToRead(s, k, r) {
        var i :| read <= i < |eps| && eps[i].sourceRef == r;
        assert i >= read + 1;
      }
      assert LeftToRead(s', k, r) <==> LeftToRead(s, k, r);
    }
  }

  lemma SettledEndMerge(cfg: Config, s: State, k: Key, r: Key, h: HealthState, c: HealthState)
    requires Shape(cfg, s) && ActionEnabled(cfg, s, k, EndMerge) && Settled(s, k, r, h, c)
    requires r in StoredRefs(s, k)
    ensures Settled(Perform(s, k, React(cfg, s, k, EndMerge)), k, r, h, c)
  {
    NothingHeld(cfg, s, k, r);
    assert !LeftToRead(s, k, r);
    MergedCarries(s.active[k].prev, s.active[k].found, r, c);
  }

  lemma SettledBeginMerge(cfg: Config, s: State, k: Key, r: Key, h: HealthState, c: HealthState)
    requires ActionEnabled(cfg, s, k, BeginMerge) && Settled(s, k, r, h, c) && r in StoredRefs(s, k)
    ensures Settled(Perform(s, k, React(cfg, s, k, BeginMerge)), k, r, h, c)
  {
    assert Carried(Perform(s, k, React(cfg, s, k, BeginMerge)), k, r) == None;
  }

  /** Publishing makes what the merge holds the stored state. */
  lemma SettledPublish(cfg: Config, s: State, k: Key, r: Key, h: HealthState, c: HealthState)
    requires ActionEnabled(cfg, s, k, Publish) && KeyHealth(s, k) && Settled(s, k, r, h, c)
    ensures var s' := Perform(s, k, React(cfg, s, k, Publish));
      r in StoredRefs(s', k) ==> Settled(s', k, r, c, c)
  {
    var s' := Perform(s, k, React(cfg, s, k, Publish));
    var found := s.active[k].found;
    forall i | 0 <= i < |found| && found[i].sourceRef == r ensures found[i].health == c {
      PrevMapAll(found, i);
      assert Overtaken(s, k, r);
    }
  }

  /** Every other step of the key's own reconcile leaves both states as they are. */
  lemma SettledAction(cfg: Config, s: State, k: Key, action: Action, r: Key, h: HealthState, c: HealthState)
    requires Shape(cfg, s) && ActionEnabled(cfg, s, k, action) && !action.Publish? && Settled(s, k, r, h, c)
    requires r in StoredRefs(s, k) && r in StoredRefs(Perform(s, k, React(cfg, s, k, action)), k)
    ensures Settled(Perform(s, k, React(cfg, s, k, action)), k, r, h, c)
  {
    if action.ReadHealth? {
      SettledRead(cfg, s, k, r, h, c);
    } else if action.EndMerge? {
      SettledEndMerge(cfg, s, k, r, h, c);
    } else if action.BeginMerge? {
      SettledBeginMerge(cfg, s, k, r, h, c);
    } else {
      assert !ReadPast(s, k, r);
    }
  }

  /** Only the key's phase, its view, and writes of the reference matter. */
  lemma SettledElsewhere(s: State, s': State, k: Key, r: Key, h: HealthState, c: HealthState)
    requires Settled(s, k, r, h, c) && !WriteRuns(s', k, r)
    requires Lookup(s'.active, k) == Lookup(s.active, k) && Lookup(s'.store, k) == Lookup(s.store, k)
    ensures Settled(s', k, r, h, c)
  {
    assert Carried(s', k, r) == Carried(s, k, r);
    assert LeftToRead(s', k, r) <==> LeftToRead(s, k, r);
  }

  lemma SettledProbe(s: State, probe: ProbeStep, k: Key, r: Key, h: HealthState, c: HealthState)
    requires ProbeEnabled(s, probe) && Settled(s, k, r, h, c) && !WriteRuns(ApplyProbe(s, probe), k, r)
    ensures Settled(ApplyProbe(s, probe), k, r, h, c)
  {
    var s' := ApplyProbe(s, probe);
    ProbeFrame(s, probe);
    if probe.WriteNext? && s.writer.value.key == k {
      var w := s.writer.value;
      assert w.ref != r;
      assert s'.store[k].endpoints[w.next].sourceRef == s.store[k].endpoints[w.next].sourceRef;
      assert LeftToRead(s', k, r) <==> LeftToRead(s, k, r) by {
        ProbeKeepsEndpoints(s, probe, k);
      }
      assert Carried(s', k, r) == Carried(s, k, r);
    } else {
      SettledElsewhere(s, s', k, r, h, c);
    }
  }

  predicate Publishes(step: Step, k: Key) { step == Reconcile(k, Publish) }

  /** A step that leaves the reference in view and unwritten keeps both states, but for the publish. */
  lemma SettledStep(cfg: Config, s: State, step: Step, k: Key, r: Key, h: HealthState, c: HealthState)
    requires Shape(cfg, s) && HealthInv(s) && Enabled(cfg, s, step) && Settled(s, k, r, h, c)
    requires var s' := Apply(cfg, s, step);
      r in StoredRefs(s, k) && r in StoredRefs(s', k) && !WriteRuns(s', k, r)
    ensures Settled(Apply(cfg, s, step), k, r, if Publishes(step, k) then c else h, c)
  {
    var s' := Apply(cfg, s, step);
    if step.Reconcile? {
      if step.key != k {
        SettledElsewhere(s, s', k, r, h, c);
      } else if step.action.Publish? {
        assert KeyHealth(s, k);
        SettledPublish(cfg, s, k, r, h, c);
      } else {
        SettledAction(cfg, s, k, step.action, r, h, c);
      }
    } else if step.Probe? {
      SettledProbe(s, step.probe, k, r, h, c);
    } else {
      WorldFrame(cfg, s, step);
      SettledElsewhere(s, s', k, r, h, c);
    }
  }

  // --------------------------------------------------------- where a settled state starts

  /** A write of this key and reference ends at this step. */
  predicate EndsWrite(s: State, step: Step, k: Key, r: Key) {
    step == Probe(EndWrite) && WriteRuns(s, k, r)
  }

  /** The end of a write: every endpoint of the reference has the written state. */
  lemma SettledByWrite(cfg: Config, s: State, k: Key, r: Key)
    requires Shape(cfg, s) && KeyHealth(s, k) && ProbeEnabled(s, EndWrite) && EndsWrite(s, Probe(EndWrite), k, r)
    ensures var h := s.writer.value.state;
      Settled(ApplyProbe(s, EndWrite), k, r, h, if Overtaken(s, k, r) then Carried(s, k, r).value else h)
    ensures r in StoredRefs(s, k) ==> Expected(s.events, k, r) == Some(s.writer.value.state)
  {
    var s' := ApplyProbe(s, EndWrite);
    assert Carried(s', k, r) == Carried(s, k, r);
    assert LeftToRead(s', k, r) <==> LeftToRead(s, k, r);
    var eps := s.store[k].endpoints;
    forall i | 0 <= i < |eps| && eps[i].sourceRef == r ensures eps[i].health == s.writer.value.state {
      assert Agrees(eps, Some(s.writer.value));
    }
  }

  /** A publish that brings the reference into view: it is Unknown. */
  lemma SettledByPublish(cfg: Config, s: State, k: Key, r: Key)
    requires KeyHealth(s, k) && ActionEnabled(cfg, s, k, Publish) && r !in StoredRefs(s, k)
    ensures Settled(Perform(s, k, React(cfg, s, k, Publish)), k, r, Unknown, Unknown)
  {
    var found := s.active[k].found;
    forall i | 0 <= i < |found| && found[i].sourceRef == r ensures found[i].health == Unknown {
      assert MergedEndpoint(s, k, found[i]);
    }
  }

  // ------------------------------------------------------------------ the simple map

  /** The simple map does not move while the reference stays in view and no write of it begins. */
  lemma ExpectedStays(cfg: Config, s: State, step: Step, k: Key, r: Key)
    requires HealthInv(s) && Enabled(cfg, s, step)
    requires var s' := Apply(cfg, s, step);
      r in StoredRefs(s, k) && r in StoredRefs(s', k) && !WriteRuns(s', k, r)
    ensures Expected(Apply(cfg, s, step).events, k, r) == Expected(s.events, k, r)
  {
    assert KeyHealth(s, k) && InView(s, k, r);
    if step.Reconcile? {
      ExpectedAction(cfg, s, step.key, step.action, k, r);
    } else if step.Probe? {
      if step.probe.BeginWrite? {
        OneMoreEvent(s.events, Wrote(step.probe.key, step.probe.ref, step.probe.state), k, r);
      }
    } else {
      WorldFrame(cfg, s, step);
    }
  }

  lemma ExpectedAction(cfg: Config, s: State, key: Key, action: Action, k: Key, r: Key)
    requires ActionEnabled(cfg, s, key, action) && InView(s, k, r)
    requires r in StoredRefs(s, k) && r in StoredRefs(Perform(s, key, React(cfg, s, key, action)), k)
    ensures Expected(Perform(s, key, React(cfg, s, key, action)).events, k, r) == Expected(s.events, k, r)
  {
    var e := React(cfg, s, key, action);
    if e.event.Some? {
      OneMoreEvent(s.events, e.event.value, k, r);
    } else {
      assert Perform(s, key, e).events == s.events;
    }
  }

  lemma ExpectedPublished(events: seq<Event>, k: Key, refs: set<Key>, r: Key)
    requires Expected(events, k, r) == None && r in refs
    ensures Expected(events + [Published(k, refs)], k, r) == Some(Unknown)
  {
    assert (events + [Published(k, refs)])[..|events|] == events;
  }

  lemma ExpectedAppears(cfg: Config, s: State, k: Key, r: Key)
    requires KeyHealth(s, k) && ActionEnabled(cfg, s, k, Publish) && r !in StoredRefs(s, k)
    requires r in StoredRefs(Perform(s, k, React(cfg, s, k, Publish)), k)
    ensures Expected(Perform(s, k, React(cfg, s, k, Publish)).events, k, r) == Some(Unknown)
  {
    assert InView(s, k, r);
    ExpectedPublished(s.events, k, Refs(s.active[k].found), r);
  }

  // ------------------------------------------------------------------------- runs

  /** The step brings the reference into view. */
  predicate Appears(s: State, step: Step, k: Key, r: Key) {
    Publishes(step, k) && r !in StoredRefs(s, k)
  }

  /**
   * Step `j` is where the state of the reference at `n` comes from: its last write ended there, or it came into
   * view there and was not written since. It has been in view from then on.
   */
  ghost predicate Origin(states: seq<State>, steps: seq<Step>, j: nat, n: nat, k: Key, r: Key)
    requires n < |states| && n <= |steps|
  {
    && j < n
    && (EndsWrite(states[j], steps[j], k, r) || Appears(states[j], steps[j], k, r))
    && forall l | j < l <= n :: r in StoredRefs(states[l], k) && !WriteRuns(states[l], k, r)
  }

  /** What was written at the origin; a reference that comes into view starts as Unknown. */
  function Written(s: State, step: Step, k: Key, r: Key): HealthState {
    if EndsWrite(s, step, k, r) then s.writer.value.state else Unknown
  }

  /** What a merge that was past the reference at the origin will publish for it, else what was written. */
  function Kept(s: State, step: Step, k: Key, r: Key): HealthState {
    if EndsWrite(s, step, k, r) && Overtaken(s, k, r) then Carried(s, k, r).value else Written(s, step, k, r)
  }

  /** The last write ended when a merge of the key was past the reference, and the merge has published since. */
  predicate Overwritten(states: seq<State>, steps: seq<Step>, j: nat, n: nat, k: Key, r: Key)
    requires j < n < |states| && n <= |steps|
  {
    && EndsWrite(states[j], steps[j], k, r) && Overtaken(states[j], k, r)
    && exists p | j < p < n :: Publishes(steps[p], k)
  }

  /** The state the view holds for the reference, told from its origin alone. */
  function Told(states: seq<State>, steps: seq<Step>, j: nat, n: nat, k: Key, r: Key): HealthState
    requires j < n < |states| && n <= |steps|
  {
    if Overwritten(states, steps, j, n, k, r) then Kept(states[j], steps[j], k, r)
    else Written(states[j], steps[j], k, r)
  }

  lemma ProbeKeepsRefs(s: State, probe: ProbeStep, k: Key)
    requires ProbeEnabled(s, probe)
    ensures StoredRefs(ApplyProbe(s, probe), k) == StoredRefs(s, k)
  {
    ProbeFrame(s, probe);
    if k in s.store {
      ProbeKeepsEndpoints(s, probe, k);
      RefsSame(s.store[k].endpoints, ApplyProbe(s, probe).store[k].endpoints);
    }
  }

  lemma ActionView(cfg: Config, s: State, key: Key, action: Action, k: Key)
    requires ActionEnabled(cfg, s, key, action) && !(key == k && (action.Publish? || action.Drop?))
    ensures Lookup(Perform(s, key, React(cfg, s, key, action)).store, k) == Lookup(s.store, k)
  {
  }

  /** A reference newly in view came with a publish of the key. */
  lemma ComesByPublish(cfg: Config, s: State, step: Step, k: Key, r: Key)
    requires Enabled(cfg, s, step) && r !in StoredRefs(s, k) && r in StoredRefs(Apply(cfg, s, step), k)
    ensures Publishes(step, k)
  {
    if step.Probe? {
      ProbeKeepsRefs(s, step.probe, k);
    } else if step.Reconcile? {
      if !(step.key == k && (step.action.Publish? || step.action.Drop?)) {
        ActionView(cfg, s, step.key, step.action, k);
      }
    } else {
      WorldFrame(cfg, s, step);
    }
  }

  /** A write of a reference in view stops running only by ending. */
  lemma StopsByEnding(cfg: Config, s: State, step: Step, k: Key, r: Key)
    requires Enabled(cfg, s, step) && WriteRuns(s, k, r) && !WriteRuns(Apply(cfg, s, step), k, r)
    ensures EndsWrite(s, step, k, r)
  {
  }

  /** A step that ends a write of the reference, or brings it into view, settles it. */
  lemma OriginBase(cfg: Config, s: State, step: Step, k: Key, r: Key)
    requires Invariant(cfg, s) && Enabled(cfg, s, step)
    requires var s' := Apply(cfg, s, step); r in StoredRefs(s', k) && !WriteRuns(s', k, r)
    requires r !in StoredRefs(s, k) || WriteRuns(s, k, r)
    ensures EndsWrite(s, step, k, r) || Appears(s, step, k, r)
    ensures var s' := Apply(cfg, s, step);
      && Settled(s', k, r, Written(s, step, k, r), Kept(s, step, k, r))
      && Expected(s'.events, k, r) == Some(Written(s, step, k, r))
  {
    assert KeyHealth(s, k);
    if r !in StoredRefs(s, k) {
      ComesByPublish(cfg, s, step, k, r);
      SettledByPublish(cfg, s, k, r);
      ExpectedAppears(cfg, s, k, r);
    } else {
      StopsByEnding(cfg, s, step, k, r);
      SettledByWrite(cfg, s, k, r);
    }
  }

  lemma {:induction false} LastOrigin(
    cfg: Config, states: seq<State>, steps: seq<Step>, n: nat, k: Key, r: Key) returns (j: nat)
    requires IsRun(cfg, states, steps) && n < |states|
    requires r in StoredRefs(states[n], k) && !WriteRuns(states[n], k, r)
    ensures Origin(states, steps, j, n, k, r)
    ensures Settled(states[n], k, r, Told(states, steps, j, n, k, r), Kept(states[j], steps[j], k, r))
    ensures Expected(states[n].events, k, r) == Some(Written(states[j], steps[j], k, r))
  {
    j := n - 1;
    var s, step := states[j], steps[j];
    RunStep(cfg, states, steps, j);
    InvariantInEveryRun(cfg, states, steps, j);
    if r !in StoredRefs(s, k) || WriteRuns(s, k, r) {
      OriginBase(cfg, s, step, k, r);
    } else {
      j := LastOrigin(cfg, states, steps, n - 1, k, r);
      SettledStep(cfg, s, step, k, r, Told(states, steps, j, n - 1, k, r), Kept(states[j], steps[j], k, r));
      ExpectedStays(cfg, s, step, k, r);
      ToldNext(states, steps, j, n, k, r);
    }
  }

  lemma ToldNext(states: seq<State>, steps: seq<Step>, j: nat, n: nat, k: Key, r: Key)
    requires j < n - 1 < n < |states| && n <= |steps|
    ensures Told(states, steps, j, n, k, r)
         == if Publishes(steps[n - 1], k) then Kept(states[j], steps[j], k, r)
            else Told(states, steps, j, n - 1, k, r)
  {
  }

  /**
   * The store against the simple map, exactly. In every run, take an endpoint with no write of its reference
   * running, and the step `j` its state comes from. The simple map holds what was written at `j`. The endpoint
   * holds the same, unless a merge of its key had then read the reference for the last time and has published
   * since: then it holds what that merge had read. So the last write is lost if and only if the merge had read
   * something else.
   */
  lemma HealthIsLastWrite(cfg: Config, states: seq<State>, steps: seq<Step>, n: nat, k: Key, i: nat)
    returns (j: nat)
    requires IsRun(cfg, states, steps) && n < |states|
    requires k in states[n].store && i < |states[n].store[k].endpoints|
    requires !WriteRuns(states[n], k, states[n].store[k].endpoints[i].sourceRef)
    ensures var ep := states[n].store[k].endpoints[i];
      var r := ep.sourceRef;
      && Origin(states, steps, j, n, k, r)
      && Expected(states[n].events, k, r) == Some(Written(states[j], steps[j], k, r))
      && ep.health == (if Overwritten(states, steps, j, n, k, r) then Carried(states[j], k, r).value
                       else Written(states[j], steps[j], k, r))
      && (Expected(states[n].events, k, r) != Some(ep.health)
          <==> && Overwritten(states, steps, j, n, k, r)
               && Carried(states[j], k, r) != Some(Written(states[j], steps[j], k, r)))
  {
    var ep := states[n].store[k].endpoints[i];
    assert ep in states[n].store[k].endpoints;
    j := LastOrigin(cfg, states, steps, n, k, ep.sourceRef);
    assert StoredAs(states[n], k, ep.sourceRef, Told(states, steps, j, n, k, ep.sourceRef));
  }
}
