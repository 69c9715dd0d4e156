/**
 * Health under concurrent probes: what a stored health can be in any interleaving, when it is exactly the
 * last probe result, and why a view never disagrees with itself.
 */
module OperatorHealth {
  import opened Kube
  import opened Discovery
  import opened Health
  import opened Operator

  // ------------------------------------------------- two readings of the store's history

  /** The simple map the store stands for: the last write since the reference came into view, else Unknown. */
  ghost function Expected(events: seq<Event>, k: Key, r: Key): Option<HealthState> {
    if events == [] then None
    else
      var before := Expected(events[..|events| - 1], k, r);
      match events[|events| - 1]
      case Wrote(k', r', h) => if k' == k && r' == r && before.Some? then Some(h) else before
      case Published(k', refs) =>
        if k' != k then before else if r !in refs then None else if before.Some? then before else Some(Unknown)
      case Removed(k') => if k' == k then None else before
  }

  /** Unknown and every state written since the reference came into view; nothing when it is not in view. */
  ghost function Possible(events: seq<Event>, k: Key, r: Key): set<HealthState> {
    if events == [] then {}
    else
      var before := Possible(events[..|events| - 1], k, r);
      match events[|events| - 1]
      case Wrote(k', r', h) => if k' == k && r' == r && before != {} then before + {h} else before
      case Published(k', refs) =>
        if k' != k then before else if r !in refs then {} else if before != {} then before else {Unknown}
      case Removed(k') => if k' == k then {} else before
  }

  /** The event takes the reference out of the key's view. */
  predicate Hides(ev: Event, k: Key, r: Key) {
    ev == Removed(k) || (ev.Published? && ev.key == k && r !in ev.refs)
  }

  predicate Writes(ev: Event, k: Key, r: Key) {
    ev.Wrote? && ev.key == k && ev.ref == r
  }

  /** After event `j` the reference stayed in view. */
  predicate InViewSince(events: seq<Event>, j: int, k: Key, r: Key) {
    forall i | j < i < |events| && 0 <= i :: !Hides(events[i], k, r)
  }

  /** A possible state other than Unknown was written for this key and reference, in view ever since. */
  lemma {:induction false} PossibleWasWritten(events: seq<Event>, k: Key, r: Key, h: HealthState) returns (j: nat)
    requires h in Possible(events, k, r) && h != Unknown
    ensures j < |events| && events[j] == Wrote(k, r, h) && InViewSince(events, j, k, r)
  {
    var n := |events| - 1;
    if events[n] == Wrote(k, r, h) {
      j := n;
    } else {
      j := PossibleWasWritten(events[..n], k, r, h);
      forall i | j < i < |events| ensures !Hides(events[i], k, r) {
        if i < n {
          assert events[..n][i] == events[i];
        }
      }
    }
  }

  /**
   * The expected state is the last write to the key and reference, provided the reference stayed in view
   * since then; it is Unknown when nothing was written since it came into view.
   */
  lemma {:induction false} ExpectedIsLastWrite(events: seq<Event>, k: Key, r: Key) returns (j: nat)
    requires Expected(events, k, r).Some?
    ensures j < |events| && InViewSince(events, j, k, r)
    ensures forall i | j < i < |events| :: !Writes(events[i], k, r)
    ensures events[j] == Wrote(k, r, Expected(events, k, r).value)
         || (events[j].Published? && events[j].key == k && r in events[j].refs
             && Expected(events[..j], k, r) == None && Expected(events, k, r) == Some(Unknown))
  {
    var n := |events| - 1;
    var before := events[..n];
    if Writes(events[n], k, r) || Expected(before, k, r).None? {
      j := n;
    } else {
      j := ExpectedIsLastWrite(before, k, r);
      assert before[..j] == events[..j];
      forall i | j < i < |events| ensures !Hides(events[i], k, r) && !Writes(events[i], k, r) {
        if i < n {
          assert before[i] == events[i];
        }
      }
    }
  }

  lemma OneMoreEvent(events: seq<Event>, ev: Event, k: Key, r: Key)
    ensures (events + [ev])[..|events|] == events
    ensures ev.key != k ==>
      Expected(events + [ev], k, r) == Expected(events, k, r) && Possible(events + [ev], k, r) == Possible(events, k, r)
  {
  }

  // ---------------------------------------------------------------------- the invariant

  /** `h` is a state the endpoint may have. */
  ghost predicate Admits(s: State, k: Key, r: Key, h: HealthState) {
    h in Possible(s.events, k, r)
  }

  /** The history and the view agree on which references are in view. */
  ghost predicate InView(s: State, k: Key, r: Key) {
    && (Expected(s.events, k, r).Some? <==> r in StoredRefs(s, k))
    && (Possible(s.events, k, r) != {} <==> r in StoredRefs(s, k))
  }

  /** Equal references, equal health: for all of a view, or for what a running write has not passed yet. */
  ghost predicate Agrees(eps: seq<Endpoint>, w: Option<Writer>) {
    forall i, j | 0 <= i < |eps| && 0 <= j < |eps| && eps[i].sourceRef == eps[j].sourceRef ::
      if w.Some? && eps[i].sourceRef == w.value.ref && (i < w.value.next || j < w.value.next)
      then
        && (i < w.value.next ==> eps[i].health == w.value.state)
        && (j < w.value.next ==> eps[j].health == w.value.state)
      else eps[i].health == eps[j].health
  }

  function WriterOf(s: State, k: Key): Option<Writer> {
    if s.writer.Some? && s.writer.value.key == k then s.writer else None
  }

  ghost predicate ViewHealth(s: State, k: Key) {
    k in s.store ==>
      && Agrees(s.store[k].endpoints, WriterOf(s, k))
      && forall i | 0 <= i < |s.store[k].endpoints| ::
           Admits(s, k, s.store[k].endpoints[i].sourceRef, s.store[k].endpoints[i].health)
  }

  ghost predicate WriterHealth(s: State, k: Key) {
    WriterOf(s, k).Some? && s.writer.value.ref in StoredRefs(s, k) ==>
      && Expected(s.events, k, s.writer.value.ref) == Some(s.writer.value.state)
      && s.writer.value.state in Possible(s.events, k, s.writer.value.ref)
  }

  ghost predicate MergedEndpoint(s: State, k: Key, ep: Endpoint) {
    if ep.sourceRef in StoredRefs(s, k) then Admits(s, k, ep.sourceRef, ep.health) else ep.health == Unknown
  }

  ghost predicate PhaseHealth(s: State, k: Key, p: Phase) {
    match p
    case Merging(_, _, _, prev) => forall r | r in prev :: Admits(s, k, r, prev[r])
    case Publishing(_, found) =>
      && Agrees(found, None)
      && forall i | 0 <= i < |found| :: MergedEndpoint(s, k, found[i])
    case _ => true
  }

  ghost predicate KeyHealth(s: State, k: Key) {
    && (forall r: Key :: InView(s, k, r))
    && ViewHealth(s, k)
    && WriterHealth(s, k)
    && (k in s.active ==> PhaseHealth(s, k, s.active[k]))
  }

  ghost predicate HealthInv(s: State) {
    forall k: Key :: KeyHealth(s, k)
  }

  lemma HealthInit(s: State)
    requires Init(s)
    ensures HealthInv(s)
  {
  }

  // ------------------------------------------------------------------ steps elsewhere

  /** A step on other keys, or one that leaves store, history and phases alone. */
  lemma HealthElsewhere(s: State, s': State, k: Key)
    requires KeyHealth(s, k)
    requires s'.events == s.events || (exists ev: Event :: ev.key != k && s'.events == s.events + [ev])
    requires Lookup(s'.store, k) == Lookup(s.store, k)
    requires WriterOf(s', k) == WriterOf(s, k)
    requires k in s'.active ==> k in s.active && s'.active[k] == s.active[k]
    ensures KeyHealth(s', k)
  {
    forall r: Key
      ensures Expected(s'.events, k, r) == Expected(s.events, k, r)
      ensures Possible(s'.events, k, r) == Possible(s.events, k, r)
      ensures InView(s', k, r)
    {
      if s'.events != s.events {
        var ev: Event :| ev.key != k && s'.events == s.events + [ev];
        OneMoreEvent(s.events, ev, k, r);
      }
      assert InView(s, k, r);
    }
  }

  // --------------------------------------------------------------- reconcile steps

  lemma RefInView(s: State, k: Key, i: nat)
    requires k in s.store && i < |s.store[k].endpoints|
    ensures s.store[k].endpoints[i].sourceRef in StoredRefs(s, k)
  {
    assert s.store[k].endpoints[i] in s.store[k].endpoints;
  }

  lemma DropHealth(cfg: Config, s: State, k: Key)
    requires KeyHealth(s, k) && ActionEnabled(cfg, s, k, Drop)
    ensures KeyHealth(Perform(s, k, React(cfg, s, k, Drop)), k)
  {
    var s' := Perform(s, k, React(cfg, s, k, Drop));
    forall r: Key ensures InView(s', k, r) {
      OneMoreEvent(s.events, Removed(k), k, r);
    }
  }

  /** Publishing turns the merged endpoints into the view, and starts new references at Unknown. */
  lemma PublishHealth(cfg: Config, s: State, k: Key)
    requires KeyHealth(s, k) && ActionEnabled(cfg, s, k, Publish)
    ensures KeyHealth(Perform(s, k, React(cfg, s, k, Publish)), k)
  {
    var found := s.active[k].found;
    var s' := Perform(s, k, React(cfg, s, k, Publish));
    forall r: Key ensures InView(s', k, r) {
      assert InView(s, k, r);
      OneMoreEvent(s.events, Published(k, Refs(found)), k, r);
    }
    forall i | 0 <= i < |found| ensures Admits(s', k, found[i].sourceRef, found[i].health) {
      assert MergedEndpoint(s, k, found[i]);
      assert found[i] in found;
      assert InView(s, k, found[i].sourceRef);
      OneMoreEvent(s.events, Published(k, Refs(found)), k, found[i].sourceRef);
    }
  }

  lemma ReadHealthStep(cfg: Config, s: State, k: Key)
    requires KeyHealth(s, k) && ActionEnabled(cfg, s, k, ReadHealth)
    ensures PhaseHealth(s, k, React(cfg, s, k, ReadHealth).phase.value)
  {
    var p := s.active[k];
    var ep := s.store[k].endpoints[p.read];
    assert Admits(s, k, ep.sourceRef, ep.health);
  }

  lemma EndMergeHealth(cfg: Config, s: State, k: Key)
    requires Shape(cfg, s) && KeyHealth(s, k) && ActionEnabled(cfg, s, k, EndMerge)
    ensures PhaseHealth(s, k, React(cfg, s, k, EndMerge).phase.value)
  {
    var p := s.active[k];
    assert PhaseShape(cfg, s, k, p);
    var found := Merge(p.prev, p.found);
    assert s.store[k].endpoints[..p.read] == s.store[k].endpoints;
    forall i | 0 <= i < |found| ensures MergedEndpoint(s, k, found[i]) {
      assert found[i] == MergeOne(p.prev, p.found[i]);
      if p.found[i].sourceRef in p.prev {
        assert Admits(s, k, p.found[i].sourceRef, p.prev[p.found[i].sourceRef]);
      }
    }
  }

  lemma BeginMergeHealth(cfg: Config, s: State, k: Key)
    requires Shape(cfg, s) && KeyHealth(s, k) && ActionEnabled(cfg, s, k, BeginMerge)
    ensures PhaseHealth(s, k, React(cfg, s, k, BeginMerge).phase.value)
  {
    assert PhaseShape(cfg, s, k, s.active[k]);
  }

  /** A reconcile step that leaves the store alone only has to keep what its phase knows. */
  lemma PhaseOnly(s: State, k: Key, e: Effect)
    requires KeyHealth(s, k) && e.event.None? && e.view == Lookup(s.store, k)
    requires e.phase.Some? ==> PhaseHealth(s, k, e.phase.value)
    ensures KeyHealth(Perform(s, k, e), k)
  {
    var s' := Perform(s, k, e);
    assert s'.events == s.events;
    forall r: Key ensures InView(s', k, r) {
      assert InView(s, k, r);
    }
  }

  lemma ActionHealth(cfg: Config, s: State, k: Key, action: Action)
    requires Shape(cfg, s) && KeyHealth(s, k) && ActionEnabled(cfg, s, k, action)
    ensures KeyHealth(Perform(s, k, React(cfg, s, k, action)), k)
  {
    if action.Drop? {
      DropHealth(cfg, s, k);
    } else if action.Publish? {
      PublishHealth(cfg, s, k);
    } else {
      if action.BeginMerge? {
        BeginMergeHealth(cfg, s, k);
      } else if action.ReadHealth? {
        ReadHealthStep(cfg, s, k);
      } else if action.EndMerge? {
        EndMergeHealth(cfg, s, k);
      }
      PhaseOnly(s, k, React(cfg, s, k, action));
    }
  }

  lemma ReconcileElsewhere(cfg: Config, s: State, key: Key, action: Action, k: Key)
    requires KeyHealth(s, k) && ActionEnabled(cfg, s, key, action) && k != key
    ensures KeyHealth(Perform(s, key, React(cfg, s, key, action)), k)
  {
    var e := React(cfg, s, key, action);
    var s' := Perform(s, key, e);
    if e.event.Some? {
      assert e.event.value.key != k && s'.events == s.events + [e.event.value];
    } else {
      assert s'.events == s.events;
    }
    HealthElsewhere(s, s', k);
  }

  // ------------------------------------------------------------------- probe steps

  /** Merged endpoints stay good when nothing admissible stops being so and the view keeps its references. */
  lemma PhaseStays(s: State, s': State, k: Key)
    requires k in s.active ==> PhaseHealth(s, k, s.active[k])
    requires s'.active == s.active && StoredRefs(s', k) == StoredRefs(s, k)
    requires forall r: Key, h: HealthState | Admits(s, k, r, h) :: Admits(s', k, r, h)
    ensures k in s'.active ==> PhaseHealth(s', k, s'.active[k])
  {
    if k in s.active && s.active[k].Publishing? {
      var found := s.active[k].found;
      forall i | 0 <= i < |found| ensures MergedEndpoint(s', k, found[i]) {
        assert MergedEndpoint(s, k, found[i]);
      }
    }
  }

  /** A new write widens what is possible. */
  lemma WroteAdmits(s: State, id: nat, k: Key, ref: Key, state: HealthState, r: Key, h: HealthState)
    requires Admits(s, k, r, h) && ProbeEnabled(s, BeginWrite(id, k, ref, state))
    ensures Admits(ApplyProbe(s, BeginWrite(id, k, ref, state)), k, r, h)
  {
    OneMoreEvent(s.events, Wrote(k, ref, state), k, r);
  }

  lemma BeginWriteHealth(s: State, id: nat, k: Key, ref: Key, state: HealthState)
    requires KeyHealth(s, k) && ProbeEnabled(s, BeginWrite(id, k, ref, state))
    ensures KeyHealth(ApplyProbe(s, BeginWrite(id, k, ref, state)), k)
  {
    var s' := ApplyProbe(s, BeginWrite(id, k, ref, state));
    forall r: Key ensures InView(s', k, r) {
      assert InView(s, k, r);
      OneMoreEvent(s.events, Wrote(k, ref, state), k, r);
    }
    forall r: Key, h: HealthState | Admits(s, k, r, h) ensures Admits(s', k, r, h) {
      WroteAdmits(s, id, k, ref, state, r, h);
    }
    if ref in StoredRefs(s, k) {
      assert InView(s, k, ref);
      OneMoreEvent(s.events, Wrote(k, ref, state), k, ref);
    }
    PhaseStays(s, s', k);
  }

  lemma WriteNextHealth(s: State)
    requires ProbeEnabled(s, WriteNext) && KeyHealth(s, s.writer.value.key)
    ensures KeyHealth(ApplyProbe(s, WriteNext), s.writer.value.key)
  {
    var w := s.writer.value;
    var k := w.key;
    var s' := ApplyProbe(s, WriteNext);
    var eps, eps' := s.store[k].endpoints, s'.store[k].endpoints;
    RefsSame(eps, eps');
    assert StoredRefs(s', k) == StoredRefs(s, k);
    forall r: Key ensures InView(s', k, r) {
      assert InView(s, k, r);
    }
    RefInView(s, k, w.next);
    assert forall r: Key, h: HealthState | Admits(s, k, r, h) :: Admits(s', k, r, h);
    forall i | 0 <= i < |eps'| ensures Admits(s', k, eps'[i].sourceRef, eps'[i].health) {
      assert Admits(s, k, eps[i].sourceRef, eps[i].health);
    }
    PassedAgrees(eps, w);
    PhaseStays(s, s', k);
  }

  /** The running write keeps the agreement on both sides of its position. */
  lemma PassedAgrees(eps: seq<Endpoint>, w: Writer)
    requires Agrees(eps, Some(w)) && w.next < |eps|
    ensures Agrees(eps[w.next := WriteOne(eps[w.next], w.ref, w.state)], Some(w.(next := w.next + 1)))
  {
  }

  lemma EndWriteHealth(s: State)
    requires ProbeEnabled(s, EndWrite) && KeyHealth(s, s.writer.value.key)
    ensures KeyHealth(ApplyProbe(s, EndWrite), s.writer.value.key)
  {
    var w := s.writer.value;
    var k := w.key;
    var s' := ApplyProbe(s, EndWrite);
    var eps := s.store[k].endpoints;
    forall r: Key ensures InView(s', k, r) {
      assert InView(s, k, r);
    }
    forall i | 0 <= i < |eps| ensures Admits(s', k, eps[i].sourceRef, eps[i].health) {
      assert Admits(s, k, eps[i].sourceRef, eps[i].health);
      RefInView(s, k, i);
    }
    assert forall r: Key, h: HealthState | Admits(s, k, r, h) :: Admits(s', k, r, h);
    PhaseStays(s, s', k);
  }

  lemma ProbeHealth(s: State, probe: ProbeStep, k: Key)
    requires KeyHealth(s, k) && ProbeEnabled(s, probe)
    ensures KeyHealth(ApplyProbe(s, probe), k)
  {
    var s' := ApplyProbe(s, probe);
    var on := if probe.BeginWrite? then probe.key else s.writer.value.key;
    if k == on {
      match probe
      case BeginWrite(id, _, ref, state) => BeginWriteHealth(s, id, k, ref, state);
      case WriteNext => WriteNextHealth(s);
      case EndWrite => EndWriteHealth(s);
    } else {
      if s'.events != s.events {
        assert probe.BeginWrite? && s'.events == s.events + [Wrote(probe.key, probe.ref, probe.state)];
      }
      HealthElsewhere(s, s', k);
    }
  }

  lemma HealthStep(cfg: Config, s: State, step: Step)
    requires Shape(cfg, s) && HealthInv(s) && Enabled(cfg, s, step)
    ensures HealthInv(Apply(cfg, s, step))
  {
    var s' := Apply(cfg, s, step);
    forall k: Key ensures KeyHealth(s', k) {
      assert KeyHealth(s, k);
      match step
      case Reconcile(key, action) =>
        if k == key {
          ActionHealth(cfg, s, k, action);
        } else {
          ReconcileElsewhere(cfg, s, key, action, k);
        }
      case Probe(probe) =>
        ProbeHealth(s, probe, k);
      case _ =>
        WorldFrame(cfg, s, step);
        HealthElsewhere(s, s', k);
    }
  }
}
