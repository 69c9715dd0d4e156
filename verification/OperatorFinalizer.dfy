/**
 * The finalizer protocol, with an informer cache that may trail the API server by any number of versions:
 * a key in the store always has an API object that still carries the finalizer.
 */
module OperatorFinalizer {
  import opened Kube
  import opened Discovery
  import opened Finalizers
  import opened Operator

  ghost predicate ApiHolds(s: State, k: Key) {
    k in s.api && FINALIZER in s.api[k].finalizers
  }

  /** The versions of one object the cache shows or will still show, oldest first. */
  function Window(s: State, k: Key): seq<Option<Routemap>> {
    [Lookup(s.cache, k)] + Feed(s, k)
  }

  ghost predicate VersionsRise(w: seq<Option<Routemap>>, clock: nat) {
    && (forall i, j | 0 <= i < j < |w| && w[i].Some? && w[j].Some? :: w[i].value.version < w[j].value.version)
    && (forall i | 0 <= i < |w| && w[i].Some? :: w[i].value.version < clock)
  }

  ghost predicate ShowsLive(w: seq<Option<Routemap>>) {
    exists i | 0 <= i < |w| :: w[i].Some? && Live(w[i].value)
  }

  /** `rm` is what the cache once showed: nothing older is left in the window. */
  ghost predicate SeenBefore(w: seq<Option<Routemap>>, rm: Routemap, clock: nat) {
    && rm.version < clock
    && forall i | 0 <= i < |w| && w[i].Some? ::
         w[i].value.version >= rm.version && (w[i].value.version == rm.version ==> w[i].value == rm)
  }

  /** Phases in which the reconcile acts on a live Routemap and has not published yet. */
  predicate Discovering(p: Phase) { p.Resolving? || p.Listing? || p.Merging? || p.Publishing? }

  ghost predicate ProtocolPhase(s: State, k: Key, p: Phase) {
    && (Discovering(p) ==> ApiHolds(s, k))
    && (p.Updating? ==> SeenBefore(Window(s, k), p.rm, s.clock))
    && (p.Dropping? && p.gone.Some? ==> SeenBefore(Window(s, k), p.gone.value, s.clock))
  }

  ghost predicate KeyProtocol(s: State, k: Key) {
    var w := Window(s, k);
    && VersionsRise(w, s.clock)
    && w[|w| - 1] == Lookup(s.api, k)
    && (ShowsLive(w) ==> ApiHolds(s, k))
    && (k in s.store ==> ApiHolds(s, k))
    && (k in s.active ==> ProtocolPhase(s, k, s.active[k]))
  }

  ghost predicate Protocol(s: State) {
    forall k: Key :: KeyProtocol(s, k)
  }

  lemma ProtocolInit(s: State)
    requires Init(s)
    ensures Protocol(s)
  {
    forall k: Key ensures KeyProtocol(s, k) {
      assert Window(s, k) == [Lookup(s.api, k)];
    }
  }

  /** A new version at the end of the window, for an object that keeps the finalizer if it had it. */
  lemma ApiPutKeeps(s: State, k: Key, rm: Option<Routemap>)
    requires KeyProtocol(s, k)
    requires rm.Some? ==> rm.value.version == s.clock
    requires ApiHolds(s, k) ==> rm.Some? && FINALIZER in rm.value.finalizers
    ensures KeyProtocol(ApiPut(s, k, rm), k)
  {
    var s' := ApiPut(s, k, rm);
    var w, w' := Window(s, k), Window(s', k);
    assert w' == w + [rm];
    if ShowsLive(w') && !ShowsLive(w) {
      var i :| 0 <= i < |w'| && w'[i].Some? && Live(w'[i].value);
      assert i == |w|;
    }
  }

  lemma ApiPutElsewhere(s: State, k: Key, rm: Option<Routemap>, other: Key)
    requires KeyProtocol(s, other) && other != k
    ensures KeyProtocol(ApiPut(s, k, rm), other)
  {
    assert Window(ApiPut(s, k, rm), other) == Window(s, other);
  }

  lemma LaterWindow(w: seq<Option<Routemap>>, n: nat, clock: nat)
    requires n < |w|
    ensures VersionsRise(w, clock) ==> VersionsRise(w[n..], clock)
    ensures ShowsLive(w[n..]) ==> ShowsLive(w)
  {
    assert forall i | 0 <= i < |w[n..]| :: w[n..][i] == w[n + i];
  }

  lemma SeenInLaterWindow(w: seq<Option<Routemap>>, n: nat, rm: Routemap, clock: nat)
    requires n < |w| && SeenBefore(w, rm, clock)
    ensures SeenBefore(w[n..], rm, clock)
  {
  }

  lemma DeliverKeeps(s: State, k: Key, n: nat)
    requires KeyProtocol(s, k) && 0 < n <= |Feed(s, k)|
    ensures KeyProtocol(Delivered(s, k, n), k)
  {
    var w := Window(s, k);
    assert Window(Delivered(s, k, n), k) == w[n..];
    LaterWindow(w, n, s.clock);
    if k in s.active && s.active[k].Updating? {
      SeenInLaterWindow(w, n, s.active[k].rm, s.clock);
    }
    if k in s.active && s.active[k].Dropping? && s.active[k].gone.Some? {
      SeenInLaterWindow(w, n, s.active[k].gone.value, s.clock);
    }
  }

  /** Only the API object, the window, the store entry and the phase of a key matter. */
  lemma ProtocolElsewhere(s: State, s': State, k: Key)
    requires KeyProtocol(s, k) && s.clock <= s'.clock
    requires Lookup(s'.api, k) == Lookup(s.api, k) && Window(s', k) == Window(s, k)
    requires k in s'.store ==> k in s.store
    requires k in s'.active ==> k in s.active && s'.active[k] == s.active[k]
    ensures KeyProtocol(s', k)
  {
  }

  /**
   * Taking the finalizer off succeeds only against the very version that was read as being deleted, so no
   * live version of the object is left for the cache to show.
   */
  lemma RemovalIsFinal(s: State, k: Key, rm: Routemap)
    requires KeyProtocol(s, k) && SeenBefore(Window(s, k), rm, s.clock) && rm.deleting
    requires k in s.api && s.api[k].version == rm.version
    ensures s.api[k] == rm && !ShowsLive(Window(s, k))
  {
    var w := Window(s, k);
    assert w[|w| - 1] == Some(rm);
    forall i | 0 <= i < |w| && w[i].Some? ensures w[i].value == rm {
      assert w[i].value.version >= rm.version;
    }
  }

  lemma RemovalKeeps(s: State, k: Key, put: Option<Routemap>)
    requires KeyProtocol(s, k) && k in s.active && s.active[k].Updating? && k !in s.store
    requires var rm := s.active[k].rm; rm.deleting && k in s.api && s.api[k].version == rm.version
    requires put.Some? ==> put.value.deleting && put.value.version == s.clock
    ensures KeyProtocol(Perform(s, k, Finish(s, k).(put := Some(put))), k)
  {
    var s' := Perform(s, k, Finish(s, k).(put := Some(put)));
    RemovalIsFinal(s, k, s.active[k].rm);
    assert Window(s', k) == Window(s, k) + [put];
    assert !ShowsLive(Window(s', k));
  }

  lemma AdditionKeeps(s: State, k: Key, put: Option<Routemap>)
    requires KeyProtocol(s, k) && k in s.active && s.active[k].Updating?
    requires put.Some? && FINALIZER in put.value.finalizers && put.value.version == s.clock
    ensures KeyProtocol(Perform(s, k, Finish(s, k).(put := Some(put))), k)
  {
    var s' := Perform(s, k, Finish(s, k).(put := Some(put)));
    ApiPutKeeps(s, k, put);
    assert Window(s', k) == Window(ApiPut(s, k, put), k);
  }

  lemma UpdateKeeps(cfg: Config, s: State, k: Key)
    requires Shape(cfg, s) && KeyProtocol(s, k) && ActionEnabled(cfg, s, k, UpdateFinalizers)
    ensures KeyProtocol(Perform(s, k, React(cfg, s, k, UpdateFinalizers)), k)
  {
    var e := React(cfg, s, k, UpdateFinalizers);
    var p := s.active[k];
    assert PhaseShape(cfg, s, k, p);
    if e.put.None? {
      ProtocolElsewhere(s, Perform(s, k, e), k);
    } else if p.rm.deleting {
      RemovalKeeps(s, k, e.put.value);
    } else {
      AdditionKeeps(s, k, e.put.value);
    }
  }

  lemma FetchKeeps(cfg: Config, s: State, k: Key)
    requires KeyProtocol(s, k) && ActionEnabled(cfg, s, k, Fetch)
    ensures KeyProtocol(Perform(s, k, React(cfg, s, k, Fetch)), k)
  {
    var s' := Perform(s, k, React(cfg, s, k, Fetch));
    var w := Window(s, k);
    assert Window(s', k) == w;
    if k in s.cache {
      assert w[0] == Some(s.cache[k]);
      assert SeenBefore(w, s.cache[k], s.clock);
      if Live(s.cache[k]) {
        assert ShowsLive(w);
      }
    }
  }

  lemma ReportKeeps(cfg: Config, s: State, k: Key)
    requires KeyProtocol(s, k) && ActionEnabled(cfg, s, k, Report)
    ensures KeyProtocol(Perform(s, k, React(cfg, s, k, Report)), k)
  {
    var e := React(cfg, s, k, Report);
    var s' := Perform(s, k, e);
    if e.put.Some? {
      ApiPutKeeps(s, k, e.put.value);
      assert Window(s', k) == Window(ApiPut(s, k, e.put.value), k);
    } else {
      assert Window(s', k) == Window(s, k);
    }
  }

  lemma NoPutKeeps(s: State, k: Key, e: Effect)
    requires KeyProtocol(s, k) && e.put.None?
    requires e.view.Some? ==> ApiHolds(s, k)
    requires e.phase.Some? ==> ProtocolPhase(s, k, e.phase.value)
    ensures KeyProtocol(Perform(s, k, e), k)
  {
    assert Window(Perform(s, k, e), k) == Window(s, k);
  }

  lemma ActionKeeps(cfg: Config, s: State, k: Key, action: Action)
    requires Shape(cfg, s) && KeyProtocol(s, k) && ActionEnabled(cfg, s, k, action)
    ensures KeyProtocol(Perform(s, k, React(cfg, s, k, action)), k)
  {
    if action.Fetch? {
      FetchKeeps(cfg, s, k);
    } else if action.UpdateFinalizers? {
      UpdateKeeps(cfg, s, k);
    } else if action.Report? {
      ReportKeeps(cfg, s, k);
    } else {
      NoPutKeeps(s, k, React(cfg, s, k, action));
    }
  }

  lemma ReconcileKeeps(cfg: Config, s: State, key: Key, action: Action, k: Key)
    requires Shape(cfg, s) && KeyProtocol(s, k) && ActionEnabled(cfg, s, key, action)
    ensures KeyProtocol(Perform(s, key, React(cfg, s, key, action)), k)
  {
    if k == key {
      ActionKeeps(cfg, s, k, action);
    } else {
      ProtocolElsewhere(s, Perform(s, key, React(cfg, s, key, action)), k);
    }
  }

  lemma ClientKeeps(s: State, key: Key, write: ClientWrite, k: Key)
    requires KeyProtocol(s, k) && ClientAllowed(s, key, write)
    ensures KeyProtocol(ApiPut(s, key, ClientVersion(s, key, write)), k)
  {
    if k == key {
      ApiPutKeeps(s, k, ClientVersion(s, k, write));
    } else {
      ApiPutElsewhere(s, key, ClientVersion(s, key, write), k);
    }
  }

  lemma KeyProtocolStep(cfg: Config, s: State, step: Step, k: Key)
    requires Shape(cfg, s) && KeyProtocol(s, k) && Enabled(cfg, s, step)
    ensures KeyProtocol(Apply(cfg, s, step), k)
  {
    match step
    case Client(key, write) =>
      ClientKeeps(s, key, write, k);
    case Deliver(key, n) =>
      if k == key {
        DeliverKeeps(s, k, n);
      } else {
        ProtocolElsewhere(s, Delivered(s, key, n), k);
      }
    case Reconcile(key, action) =>
      ReconcileKeeps(cfg, s, key, action, k);
    case Probe(probe) =>
      ProbeFrame(s, probe);
      ProtocolElsewhere(s, ApplyProbe(s, probe), k);
    case Loops(loop) =>
      LoopFrame(s, loop);
      ProtocolElsewhere(s, ApplyLoop(s, loop), k);
    case _ =>
      ProtocolElsewhere(s, Apply(cfg, s, step), k);
  }

  lemma ProtocolStep(cfg: Config, s: State, step: Step)
    requires Shape(cfg, s) && Protocol(s) && Enabled(cfg, s, step)
    ensures Protocol(Apply(cfg, s, step))
  {
    forall k: Key ensures KeyProtocol(Apply(cfg, s, step), k) {
      assert KeyProtocol(s, k);
      KeyProtocolStep(cfg, s, step, k);
    }
  }

  /** An update is accepted only against the version it was prepared from. */
  lemma PreparedFromCurrent(s: State, k: Key)
    requires KeyProtocol(s, k) && k in s.active && s.active[k].Updating?
    requires k in s.api && s.api[k].version == s.active[k].rm.version
    ensures s.api[k] == s.active[k].rm
  {
    var w := Window(s, k);
    assert w[|w| - 1] == Some(s.api[k]);
  }

  /** On a live object an accepted finalizer update appends ours and changes nothing else. */
  lemma AdditionWrites(cfg: Config, s: State, k: Key)
    requires Shape(cfg, s) && KeyProtocol(s, k) && ActionEnabled(cfg, s, k, UpdateFinalizers)
    requires k in s.api && s.api[k].version == s.active[k].rm.version && !s.api[k].deleting
    ensures var s' := Apply(cfg, s, Reconcile(k, UpdateFinalizers));
      && k in s'.api && s'.api[k].finalizers == s.api[k].finalizers + ["routemaps.github.com/finalizer"]
      && s'.api[k] == s.api[k].(finalizers := s'.api[k].finalizers, version := s.clock)
  {
    PreparedFromCurrent(s, k);
    assert PhaseShape(cfg, s, k, s.active[k]);
  }

  lemma RemovalEffect(cfg: Config, s: State, k: Key)
    requires Shape(cfg, s) && KeyProtocol(s, k) && ActionEnabled(cfg, s, k, UpdateFinalizers)
    requires k in s.api && s.api[k].version == s.active[k].rm.version && s.api[k].deleting
    ensures var kept := Without(s.api[k].finalizers, FINALIZER);
      Apply(cfg, s, Reconcile(k, UpdateFinalizers)).api
      == if kept == s.api[k].finalizers then s.api
         else if kept == [] then s.api - {k}
         else s.api[k := s.api[k].(finalizers := kept, version := s.clock)]
  {
    PreparedFromCurrent(s, k);
    assert PhaseShape(cfg, s, k, s.active[k]);
  }

  /**
   * On an object being deleted it takes ours out and changes nothing else; the object goes exactly when there was
   * no other finalizer, and nothing is written when ours was not there.
   */
  lemma RemovalWrites(cfg: Config, s: State, k: Key)
    requires Shape(cfg, s) && KeyProtocol(s, k) && ActionEnabled(cfg, s, k, UpdateFinalizers)
    requires k in s.api && s.api[k].version == s.active[k].rm.version && s.api[k].deleting
    ensures var s' := Apply(cfg, s, Reconcile(k, UpdateFinalizers));
      var ours := "routemaps.github.com/finalizer";
      && (ours !in s.api[k].finalizers ==> s'.api == s.api)
      && (ours in s.api[k].finalizers ==>
            && (k !in s'.api <==> forall f | f in s.api[k].finalizers :: f == ours)
            && (k in s'.api ==>
                  && multiset(s'.api[k].finalizers) == multiset(s.api[k].finalizers)[ours := 0]
                  && s'.api[k] == s.api[k].(finalizers := s'.api[k].finalizers, version := s.clock)))
  {
    RemovalEffect(cfg, s, k);
    WithoutKeepsTheRest(s.api[k].finalizers, FINALIZER);
    OnlyOurs(s.api[k].finalizers);
  }

  lemma OnlyOurs(xs: seq<string>)
    ensures Without(xs, FINALIZER) == [] <==> forall x | x in xs :: x == FINALIZER
  {
    WithoutKeepsTheRest(xs, FINALIZER);
    var kept := multiset(xs)[FINALIZER := 0];
    if x :| x in xs && x != FINALIZER {
      assert x in multiset(xs) && x in kept;
    }
    if Without(xs, FINALIZER) != [] {
      var x := Without(xs, FINALIZER)[0];
      assert x in multiset(Without(xs, FINALIZER));
      assert x in xs && x != FINALIZER;
    }
  }
}
