/**
 * The index converges: from any state of any run, steps of the operator alone bring a key to rest, where its
 * view equals full recomputation. The environment only has to deliver what it owes.
 */
module OperatorConvergence {
  import opened Kube
  import opened Sums
  import opened Discovery
  import opened Finalizers
  import opened Health
  import opened Operator
  import opened OperatorFinalizer
  import opened OperatorSync
  import opened OperatorHealth
  import opened OperatorProgress
  import opened OperatorTheorems
  import opened OperatorRuns
  import opened OperatorLostWrite

  /** A step of the operator for this key, a delivery for it, or the rest of a probe write that already runs. */
  predicate Ours(step: Step, k: Key) {
    match step
    case Deliver(key, _) => key == k
    case Reconcile(key, _) => key == k
    case Probe(probe) => !probe.BeginWrite?
    case _ => false
  }

  /** The namespaces of the Routemap can be resolved, if it is to have a view at all. */
  ghost predicate Reachable(cfg: Config, s: State, k: Key) {
    k in s.api && !s.api[k].deleting ==> Resolvable(cfg, s.api[k].spec)
  }

  /** The finalizer list still needs a write: ours is missing, or is left on an object being deleted. */
  function FinalizerDebt(s: State, k: Key): nat {
    if k in s.api && (s.api[k].deleting <==> FINALIZER in s.api[k].finalizers) then 1 else 0
  }

  /** The view is current, and the status on the server is the one a reconcile of it reports. */
  ghost predicate Reported(cfg: Config, s: State, k: Key) {
    && k in s.api && !s.api[k].deleting && k in s.store && s.store[k].spec == s.api[k].spec
    && multiset(Erase(s.store[k].endpoints)) == Rediscover(cfg, s.cluster, k, s.api[k].spec)
    && s.api[k].status == Some(StatusFor(
         cfg, k, s.api[k], s.api[k].generation, |s.store[k].endpoints|, HealthyCount(s.store[k].endpoints)))
  }

  /** What a right status says, field by field. */
  lemma ReportedMeans(cfg: Config, s: State, k: Key)
    requires Reported(cfg, s, k)
    ensures s.api[k].status.Some?
    ensures var st, eps, spec := s.api[k].status.value, s.store[k].endpoints, s.api[k].spec;
      && st.generation == s.api[k].generation
      && st.discovered == |eps|
      && st.healthy == |set i | 0 <= i < |eps| && eps[i].health == Healthy|
      && st.dashboard == cfg.dashboardAddress + "/" + k.ns + "/" + k.name
      && (st.degraded <==> (spec.sources == [] || HTTPRouteKind in spec.sources) && !cfg.httpRouteAvailable)
  {
    HealthyIsCount(s.store[k].endpoints);
  }

  /** What a status update writes in any run: the server's generation, the view's length, and the count it made. */
  lemma ReportWrites(cfg: Config, s: State, k: Key)
    requires Shape(cfg, s) && ActionEnabled(cfg, s, k, Report) && k in s.api && !s.api[k].deleting
    ensures var s' := Apply(cfg, s, Reconcile(k, Report));
      && k in s'.api && s'.api[k].status.Some? && s'.api[k].spec == s.api[k].spec
      && s'.api[k].finalizers == s.api[k].finalizers && s'.api[k].generation == s.api[k].generation
      && s'.api[k].status.value.generation == s.api[k].generation
      && s'.api[k].status.value.discovered == |s.store[k].endpoints|
      && s'.api[k].status.value.healthy == s.active[k].healthy
      && (s'.api[k].version != s.api[k].version ==> s'.api[k].status != s.api[k].status)
  {
  }

  /** The writes to the API server that are still to come. */
  ghost function Debt(cfg: Config, s: State, k: Key): nat {
    2 * FinalizerDebt(s, k) + if Reported(cfg, s, k) then 0 else 1
  }

  /** Fit to start a last reconcile: nothing is lost, the lock is free, and the selector is valid. */
  ghost predicate Calm(cfg: Config, s: State, k: Key) {
    Invariant(cfg, s) && s.writer.None? && Reachable(cfg, s, k)
  }

  lemma CacheIsCurrent(s: State, k: Key)
    requires Protocol(s) && Feed(s, k) == []
    ensures Lookup(s.cache, k) == Lookup(s.api, k)
  {
    assert KeyProtocol(s, k);
    assert Window(s, k) == [Lookup(s.cache, k)];
  }

  /** A finalizer write that is accepted was prepared from the server's own version. */
  lemma AcceptedUpdate(s: State, k: Key)
    requires Protocol(s) && k in s.active && s.active[k].Updating?
    requires k in s.api && s.api[k].version == s.active[k].rm.version
    ensures s.api[k] == s.active[k].rm
  {
    assert KeyProtocol(s, k);
    var w := Window(s, k);
    assert w[|w| - 1] == Some(s.api[k]);
  }

  /** No own step changes the spec. */
  lemma StaysReachable(cfg: Config, s: State, k: Key, action: Action)
    requires Invariant(cfg, s) && ActionEnabled(cfg, s, k, action) && Reachable(cfg, s, k)
    ensures Reachable(cfg, Perform(s, k, React(cfg, s, k, action)), k)
  {
    if action.UpdateFinalizers? && React(cfg, s, k, action).put.Some? {
      AcceptedUpdate(s, k);
    }
  }

  lemma StaysCalm(cfg: Config, s: State, k: Key, action: Action)
    requires Calm(cfg, s, k) && ActionEnabled(cfg, s, k, action)
    ensures Calm(cfg, Apply(cfg, s, Reconcile(k, action)), k)
  {
    InvariantStep(cfg, s, Reconcile(k, action));
    StaysReachable(cfg, s, k, action);
  }

  // ------------------------------------------------------------- the reconcile in progress

  lemma {:induction false} EndsSomehow(cfg: Config, s: State, k: Key) returns (steps: seq<Step>, s': State)
    requires Calm(cfg, s, k)
    ensures Leads(cfg, s, steps, s') && forall step | step in steps :: Ours(step, k)
    ensures Calm(cfg, s', k) && k !in s'.active
    decreases RankOf(cfg, s, k).0, RankOf(cfg, s, k).1, k in s.active
  {
    if k !in s.active {
      steps, s' := [], s;
    } else {
      var action := NeverStuck(cfg, s, k);
      var next := Apply(cfg, s, Reconcile(k, action));
      StaysCalm(cfg, s, k, action);
      OwnStepsProgress(cfg, s, k, action);
      var more;
      more, s' := EndsSomehow(cfg, next, k);
      LeadsFirst(cfg, s, Reconcile(k, action), more, s');
      steps := [Reconcile(k, action)] + more;
    }
  }

  // --------------------------------------------------------------- the last reconcile

  /** A reconcile that runs on current data: the key is not queued again and no version is on its way. */
  ghost predicate Clean(cfg: Config, s: State, k: Key) {
    Calm(cfg, s, k) && k !in s.pending && Feed(s, k) == []
  }

  /** On current data the phase works on the server's own version. */
  lemma WorksOnCurrent(cfg: Config, s: State, k: Key)
    requires Clean(cfg, s, k) && k in s.active
    ensures match s.active[k]
      case Fetching => true
      case Dropping(gone) => Lookup(s.api, k) == gone
      case Updating(rm, _) => Lookup(s.api, k) == Some(rm)
      case Resolving(rm) => Lookup(s.api, k) == Some(rm)
      case Listing(rm, _, _, _) => Lookup(s.api, k) == Some(rm)
      case Merging(rm, _, _, _) => Lookup(s.api, k) == Some(rm)
      case Publishing(rm, _) => Lookup(s.api, k) == Some(rm)
      case Reporting(rm, _, _) => Lookup(s.api, k) == Some(rm)
    ensures Lookup(s.cache, k) == Lookup(s.api, k)
  {
    CacheIsCurrent(s, k);
    assert KeyInSync(cfg, s, k);
  }

  /** On current data nothing fails. */
  lemma NothingFails(cfg: Config, s: State, k: Key) returns (action: Action)
    requires Clean(cfg, s, k) && k in s.active
    ensures ActionEnabled(cfg, s, k, action) && !action.Fail?
  {
    action := NeverStuck(cfg, s, k);
    WorksOnCurrent(cfg, s, k);
    assert PhaseShape(cfg, s, k, s.active[k]);
  }

  /**
   * Nothing interferes with a reconcile on current data: it reads, publishes and counts one and the same health,
   * and if the status was already right, it merges what it finds into the view there is, up to order.
   */
  ghost predicate Undisturbed(cfg: Config, s: State, k: Key) {
    k in s.active ==>
      match s.active[k]
      case Merging(_, _, read, prev) =>
        k in s.store && read <= |s.store[k].endpoints| && prev == PrevMap(s.store[k].endpoints[..read])
      case Publishing(_, found) => Reported(cfg, s, k) ==> multiset(found) == multiset(s.store[k].endpoints)
      case Reporting(_, read, healthy) =>
        k in s.store && read <= |s.store[k].endpoints| && healthy == HealthyCount(s.store[k].endpoints[..read])
      case _ => true
  }

  lemma UndisturbedRead(cfg: Config, s: State, k: Key)
    requires Undisturbed(cfg, s, k) && ActionEnabled(cfg, s, k, ReadHealth)
    ensures Undisturbed(cfg, Apply(cfg, s, Reconcile(k, ReadHealth)), k)
  {
    var eps, read := s.store[k].endpoints, s.active[k].read;
    assert eps[..read + 1][..read] == eps[..read];
  }

  lemma UndisturbedCount(cfg: Config, s: State, k: Key)
    requires Undisturbed(cfg, s, k) && ActionEnabled(cfg, s, k, CountNext)
    ensures Undisturbed(cfg, Apply(cfg, s, Reconcile(k, CountNext)), k)
  {
    var eps, read := s.store[k].endpoints, s.active[k].read;
    assert eps[..read + 1][..read] == eps[..read];
  }

  lemma UndisturbedEndMerge(cfg: Config, s: State, k: Key)
    requires Clean(cfg, s, k) && Undisturbed(cfg, s, k) && ActionEnabled(cfg, s, k, EndMerge)
    ensures Undisturbed(cfg, Apply(cfg, s, Reconcile(k, EndMerge)), k)
  {
    var eps, p := s.store[k].endpoints, s.active[k];
    assert eps[..p.read] == eps && p.prev == PrevMap(eps);
    assert KeyHealth(s, k) && KeyInSync(cfg, s, k) && PhaseShape(cfg, s, k, p);
    if Reported(cfg, s, k) {
      WorksOnCurrent(cfg, s, k);
      EraseUnknown(p.found);
      MergeAgain(eps, p.found);
    }
  }

  lemma SameButPhase(cfg: Config, s: State, k: Key, action: Action)
    requires ActionEnabled(cfg, s, k, action)
    requires !action.Drop? && !action.UpdateFinalizers? && !action.Publish? && !action.Report?
    ensures var s' := Apply(cfg, s, Reconcile(k, action));
      && s'.api == s.api && s'.feed == s.feed && s'.store == s.store && s'.cluster == s.cluster
      && s'.writer == s.writer && (k in s'.pending ==> k in s.pending || action.Fail?)
  {
    assert Assign(s.store, k, Lookup(s.store, k)) == s.store;
  }

  /** What each own step on current data keeps. */
  ghost predicate Kept(cfg: Config, s: State, s': State, k: Key) {
    && Clean(cfg, s', k) && Undisturbed(cfg, s', k)
    && FinalizerDebt(s', k) == FinalizerDebt(s, k) && (Reported(cfg, s, k) ==> Reported(cfg, s', k))
  }

  lemma QuietStep(cfg: Config, s: State, k: Key, action: Action)
    requires Clean(cfg, s, k) && Undisturbed(cfg, s, k) && ActionEnabled(cfg, s, k, action) && k in s.active
    requires !action.Fail? && !action.Drop? && !action.UpdateFinalizers? && !action.Publish? && !action.Report?
    ensures Kept(cfg, s, Apply(cfg, s, Reconcile(k, action)), k)
  {
    StaysCalm(cfg, s, k, action);
    SameButPhase(cfg, s, k, action);
    if action.ReadHealth? {
      UndisturbedRead(cfg, s, k);
    } else if action.CountNext? {
      UndisturbedCount(cfg, s, k);
    } else if action.EndMerge? {
      UndisturbedEndMerge(cfg, s, k);
    }
  }

  lemma PublishEffect(cfg: Config, s: State, k: Key)
    requires ActionEnabled(cfg, s, k, Publish)
    ensures var p, s' := s.active[k], Apply(cfg, s, Reconcile(k, Publish));
      s' == s.(active := s.active[k := Reporting(p.rm, 0, 0)], store := s.store[k := View(p.rm.spec, p.found)],
               events := s'.events)
  {
    assert (if k in s.pending then s.pending + {k} else s.pending - {k}) == s.pending;
  }

  /** Publishing the endpoints of the view there was, in another order, leaves the status right. */
  lemma StaysReported(cfg: Config, s: State, k: Key, found: seq<Endpoint>)
    requires Reported(cfg, s, k) && multiset(found) == multiset(s.store[k].endpoints)
    requires multiset(Erase(found)) == Rediscover(cfg, s.cluster, k, s.api[k].spec)
    ensures Reported(cfg, s.(store := s.store[k := View(s.api[k].spec, found)]), k)
  {
    CountAnyOrder(found, s.store[k].endpoints);
  }

  /** The debts depend on the API server, the cluster and the views alone. */
  lemma SameDebts(cfg: Config, s: State, s': State, k: Key)
    requires s'.api == s.api && s'.cluster == s.cluster && s'.store == s.store
    ensures FinalizerDebt(s', k) == FinalizerDebt(s, k) && (Reported(cfg, s', k) <==> Reported(cfg, s, k))
  {
  }

  lemma PublishQuietly(cfg: Config, s: State, k: Key)
    requires Clean(cfg, s, k) && Undisturbed(cfg, s, k) && ActionEnabled(cfg, s, k, Publish)
    ensures Kept(cfg, s, Apply(cfg, s, Reconcile(k, Publish)), k)
  {
    var s' := Apply(cfg, s, Reconcile(k, Publish));
    var found := s.active[k].found;
    StaysCalm(cfg, s, k, Publish);
    WorksOnCurrent(cfg, s, k);
    PublishEffect(cfg, s, k);
    assert found[..0] == [];
    if Reported(cfg, s, k) {
      assert KeyInSync(cfg, s, k);
      StaysReported(cfg, s, k, found);
      SameDebts(cfg, s.(store := s'.store), s', k);
    }
  }

  /** The status is written only if it was not right, and then it is. */
  lemma ReportPays(cfg: Config, s: State, k: Key)
    requires Clean(cfg, s, k) && Undisturbed(cfg, s, k) && ActionEnabled(cfg, s, k, Report)
    ensures var s' := Apply(cfg, s, Reconcile(k, Report));
      && k !in s'.active && Calm(cfg, s', k) && Reported(cfg, s', k)
      && FinalizerDebt(s', k) == FinalizerDebt(s, k)
      && (Reported(cfg, s, k) ==> Clean(cfg, s', k))
  {
    StaysCalm(cfg, s, k, Report);
    WorksOnCurrent(cfg, s, k);
    var eps := s.store[k].endpoints;
    assert eps[..s.active[k].read] == eps;
    assert KeyInSync(cfg, s, k);
    assert Assign(s.store, k, Lookup(s.store, k)) == s.store;
  }

  /** A view is dropped only for an object that has none to report. */
  lemma DropQuietly(cfg: Config, s: State, k: Key)
    requires Clean(cfg, s, k) && ActionEnabled(cfg, s, k, Drop)
    ensures var s' := Apply(cfg, s, Reconcile(k, Drop));
      && Clean(cfg, s', k) && Undisturbed(cfg, s', k) && FinalizerDebt(s', k) == FinalizerDebt(s, k)
      && !Reported(cfg, s, k)
  {
    StaysCalm(cfg, s, k, Drop);
    WorksOnCurrent(cfg, s, k);
    assert PhaseShape(cfg, s, k, s.active[k]);
  }

  lemma UpdatePays(cfg: Config, s: State, k: Key)
    requires Clean(cfg, s, k) && ActionEnabled(cfg, s, k, UpdateFinalizers)
    ensures var s' := Apply(cfg, s, Reconcile(k, UpdateFinalizers));
      && k !in s'.active && Calm(cfg, s', k)
      && (Clean(cfg, s', k) || FinalizerDebt(s', k) < FinalizerDebt(s, k))
  {
    StaysCalm(cfg, s, k, UpdateFinalizers);
    WorksOnCurrent(cfg, s, k);
    var p := s.active[k];
    assert PhaseShape(cfg, s, k, p);
    WithoutKeepsTheRest(p.rm.finalizers, FINALIZER);
  }

  /**
   * A reconcile on current data ends, and leaves the data current unless it wrote to the API server; and a write
   * pays a debt.
   */
  lemma {:induction false} EndsClean(cfg: Config, s: State, k: Key) returns (steps: seq<Step>, s': State)
    requires Clean(cfg, s, k) && k in s.active && Undisturbed(cfg, s, k)
    ensures Leads(cfg, s, steps, s') && forall step | step in steps :: Ours(step, k)
    ensures Calm(cfg, s', k) && k !in s'.active && (Clean(cfg, s', k) || Paid(cfg, s, s', k))
    decreases RankOf(cfg, s, k).0, RankOf(cfg, s, k).1
  {
    var action := NothingFails(cfg, s, k);
    var next := Apply(cfg, s, Reconcile(k, action));
    OwnStepsProgress(cfg, s, k, action);
    var more;
    if action.Report? || action.UpdateFinalizers? {
      EndsWithWrite(cfg, s, k, action);
      more, s' := [], next;
    } else {
      GoesOn(cfg, s, k, action);
      if k in next.active {
        more, s' := EndsClean(cfg, next, k);
      } else {
        more, s' := [], next;
      }
    }
    LeadsFirst(cfg, s, Reconcile(k, action), more, s');
    steps := [Reconcile(k, action)] + more;
  }

  /** Less is owed than before. */
  ghost predicate Paid(cfg: Config, s: State, s': State, k: Key) {
    || FinalizerDebt(s', k) < FinalizerDebt(s, k)
    || (FinalizerDebt(s', k) == FinalizerDebt(s, k) && Reported(cfg, s', k) && !Reported(cfg, s, k))
  }

  lemma EndsWithWrite(cfg: Config, s: State, k: Key, action: Action)
    requires Clean(cfg, s, k) && k in s.active && Undisturbed(cfg, s, k) && ActionEnabled(cfg, s, k, action)
    requires action.Report? || action.UpdateFinalizers?
    ensures var s' := Apply(cfg, s, Reconcile(k, action));
      Calm(cfg, s', k) && k !in s'.active && (Clean(cfg, s', k) || Paid(cfg, s, s', k))
  {
    if action.Report? {
      ReportPays(cfg, s, k);
    } else {
      UpdatePays(cfg, s, k);
    }
  }

  /** The other steps owe no more than before. */
  lemma GoesOn(cfg: Config, s: State, k: Key, action: Action)
    requires Clean(cfg, s, k) && k in s.active && Undisturbed(cfg, s, k) && ActionEnabled(cfg, s, k, action)
    requires !action.Fail? && !action.Report? && !action.UpdateFinalizers?
    ensures var s' := Apply(cfg, s, Reconcile(k, action));
      Clean(cfg, s', k) && Undisturbed(cfg, s', k) && forall s'' :: Paid(cfg, s', s'', k) ==> Paid(cfg, s, s'', k)
  {
    if action.Drop? {
      DropQuietly(cfg, s, k);
    } else if action.Publish? {
      PublishQuietly(cfg, s, k);
    } else {
      QuietStep(cfg, s, k, action);
    }
  }

  // --------------------------------------------------------------------------- rest

  /** Everything the API server owes this key arrives, and the key is queued. */
  lemma Delivers(cfg: Config, s: State, k: Key) returns (steps: seq<Step>, s': State)
    requires Calm(cfg, s, k) && k !in s.active && (k in s.pending || Feed(s, k) != [])
    ensures Leads(cfg, s, steps, s') && forall step | step in steps :: Ours(step, k)
    ensures Calm(cfg, s', k) && k !in s'.active && k in s'.pending && Feed(s', k) == []
    ensures Debt(cfg, s', k) == Debt(cfg, s, k)
  {
    if Feed(s, k) == [] {
      steps, s' := [], s;
    } else {
      var step := Deliver(k, |Feed(s, k)|);
      s' := Apply(cfg, s, step);
      InvariantStep(cfg, s, step);
      LeadsOnce(cfg, s, step);
      steps := [step];
    }
  }

  lemma StartsClean(cfg: Config, s: State, k: Key)
    requires Calm(cfg, s, k) && k !in s.active && k in s.pending && Feed(s, k) == []
    ensures Enabled(cfg, s, Reconcile(k, Start))
    ensures var s' := Apply(cfg, s, Reconcile(k, Start));
      Clean(cfg, s', k) && k in s'.active && Undisturbed(cfg, s', k) && Debt(cfg, s', k) == Debt(cfg, s, k)
  {
    StaysCalm(cfg, s, k, Start);
  }

  /**
   * At most three reconciles on current data: one that writes the finalizers, one that writes the status, and one
   * that finds nothing to write.
   */
  lemma {:induction false} ComesToRest(cfg: Config, s: State, k: Key) returns (steps: seq<Step>, s': State)
    requires Calm(cfg, s, k) && k !in s.active
    ensures Leads(cfg, s, steps, s') && forall step | step in steps :: Ours(step, k)
    ensures AtRest(s', k)
    decreases Debt(cfg, s, k)
  {
    if k !in s.pending && Feed(s, k) == [] {
      steps, s' := [], s;
    } else {
      var first, s1 := Delivers(cfg, s, k);
      StartsClean(cfg, s1, k);
      var s2 := Apply(cfg, s1, Reconcile(k, Start));
      var second, s3 := EndsClean(cfg, s2, k);
      LeadsFirst(cfg, s1, Reconcile(k, Start), second, s3);
      var third := [];
      s' := s3;
      if !Clean(cfg, s3, k) {
        third, s' := ComesToRest(cfg, s3, k);
      }
      LeadsOn(cfg, s1, [Reconcile(k, Start)] + second, s3, third, s');
      LeadsOn(cfg, s, first, s1, [Reconcile(k, Start)] + second + third, s');
      steps := first + ([Reconcile(k, Start)] + second + third);
    }
  }

  lemma FreesTheLock(cfg: Config, s: State, k: Key) returns (steps: seq<Step>, s': State)
    requires Invariant(cfg, s) && Reachable(cfg, s, k)
    ensures Leads(cfg, s, steps, s') && forall step | step in steps :: Ours(step, k)
    ensures Calm(cfg, s', k)
  {
    if s.writer.None? {
      steps, s' := [], s;
    } else {
      steps, s' := WriteFinishes(cfg, s);
      InvariantLeads(cfg, s, steps, s');
    }
  }

  /** No own step changes the spec or requests the deletion. */
  lemma StaysUnreachableBy(cfg: Config, s: State, k: Key, action: Action)
    requires Invariant(cfg, s) && ActionEnabled(cfg, s, k, action) && !Reachable(cfg, s, k)
    ensures !Reachable(cfg, Perform(s, k, React(cfg, s, k, action)), k)
  {
    if action.UpdateFinalizers? && React(cfg, s, k, action).put.Some? {
      AcceptedUpdate(s, k);
      KeepsOurs(cfg, s, k);
    }
  }

  lemma StaysUnreachableOnce(cfg: Config, s: State, step: Step, k: Key)
    requires Invariant(cfg, s) && Enabled(cfg, s, step) && Ours(step, k) && !Reachable(cfg, s, k)
    ensures !Reachable(cfg, Apply(cfg, s, step), k)
  {
    match step
    case Reconcile(_, action) =>
      StaysUnreachableBy(cfg, s, k, action);
    case Probe(probe) =>
      ProbeFrame(s, probe);
    case Deliver(_, n) =>
      assert Delivered(s, k, n).api == s.api;
  }

  /** Steps of ours change no spec and request no deletion. */
  lemma {:induction false} StaysUnreachable(cfg: Config, s: State, steps: seq<Step>, s': State, k: Key)
    requires Invariant(cfg, s) && Leads(cfg, s, steps, s') && forall step | step in steps :: Ours(step, k)
    requires !Reachable(cfg, s, k)
    ensures !Reachable(cfg, s', k)
    decreases |steps|
  {
    if steps != [] {
      assert Ours(steps[0], k);
      InvariantStep(cfg, s, steps[0]);
      StaysUnreachableOnce(cfg, s, steps[0], k);
      StaysUnreachable(cfg, Apply(cfg, s, steps[0]), steps[1..], s', k);
    }
  }

  /** A finalizer write for an object that is not being deleted leaves it there. */
  lemma KeepsOurs(cfg: Config, s: State, k: Key)
    requires Shape(cfg, s) && ActionEnabled(cfg, s, k, UpdateFinalizers) && !s.active[k].rm.deleting
    ensures Settle(s.active[k].rm.(finalizers := s.active[k].finalizers), s.clock).Some?
  {
  }

  /** It can fail: a run may start with a Routemap that leaves its namespaces to an invalid selector. */
  lemma StartsUnreachable(cfg: Config, k: Key, selector: Selector) returns (s: State)
    requires cfg.invalid(selector)
    ensures IsRun(cfg, [s], []) && !Reachable(cfg, s, k)
  {
    var spec := RoutemapSpec(NamespaceSelector(false, [], Some(selector)), [], None, None, "");
    var api := map[k := Routemap(spec, [], false, 1, None, 0)];
    s := State(api, map[], 1, api, Cluster(map[], map[], map[]), {k}, map[], map[], None, {}, map[], []);
  }

  /** The condition is needed: while the selector is invalid no steps of ours bring the key to rest. */
  lemma NoRestOtherwise(cfg: Config, states: seq<State>, steps: seq<Step>, k: Key, more: seq<Step>, s': State)
    requires IsRun(cfg, states, steps) && !Reachable(cfg, states[|steps|], k)
    requires Leads(cfg, states[|steps|], more, s') && forall step | step in more :: Ours(step, k)
    ensures !AtRest(s', k)
  {
    InvariantInEveryRun(cfg, states, steps, |steps|);
    StaysUnreachable(cfg, states[|steps|], more, s', k);
    var all := RunGoesOn(cfg, states, steps, more, s');
    if AtRest(s', k) {
      IndexIsRecomputation(cfg, all, steps + more, |steps + more|, k);
    }
  }

  /**
   * Convergence: from any state of any run, unless the Routemap leaves its namespaces to an invalid selector, a
   * finite number of the operator's own steps and of deliveries it is owed bring the key to rest. The run so
   * continued ends with a view exactly when the Routemap lives, and that view is full recomputation.
   */
  lemma Converges(cfg: Config, states: seq<State>, steps: seq<Step>, k: Key)
    returns (more: seq<Step>, all: seq<State>)
    requires IsRun(cfg, states, steps) && Reachable(cfg, states[|steps|], k)
    ensures IsRun(cfg, all, steps + more) && states <= all && forall step | step in more :: Ours(step, k)
    ensures var s := all[|steps + more|];
      && AtRest(s, k)
      && (k in s.store <==> k in s.api && !s.api[k].deleting)
      && (k in s.store ==>
            && s.store[k].spec == s.api[k].spec
            && multiset(Erase(s.store[k].endpoints)) == Rediscover(cfg, s.cluster, k, s.api[k].spec))
  {
    var s := states[|steps|];
    InvariantInEveryRun(cfg, states, steps, |steps|);
    var first, s1 := FreesTheLock(cfg, s, k);
    var second, s2 := EndsSomehow(cfg, s1, k);
    var third, s3 := ComesToRest(cfg, s2, k);
    LeadsOn(cfg, s, first, s1, second, s2);
    LeadsOn(cfg, s, first + second, s2, third, s3);
    more := first + second + third;
    all := RunGoesOn(cfg, states, steps, more, s3);
    IndexIsRecomputation(cfg, all, steps + more, |steps + more|, k);
  }
}
