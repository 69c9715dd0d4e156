# Routemap operator: a verified model

The operator keeps, for every `Routemap` object, an in-memory view of the Ingresses and HTTPRoutes the Routemap
selects. A controller rebuilds views when watch events say so, probe loops write health results into the same
views, a checker starts and stops the probe loops, and a dashboard serves the views behind a signed session
token. This project models those parts and proves what they promise over every run.

`dafny verify dfyconfig.toml` checks everything.

## How it is organised

| part | modules |
|---|---|
| the whole operator as a state machine, and its theorems | `Operator`, `OperatorFinalizer`, `OperatorSync`, `OperatorHealth`, `OperatorProgress`, `OperatorTheorems`, `OperatorContents`, `OperatorProvenance`, `OperatorLastWrite`, `OperatorConvergence` |
| runs built step by step, and the lost write | `OperatorRuns`, `OperatorLostWrite`, `OperatorLostRun` |
| the machine's steps on the heap | `SharedHeap`, `SharedRuns` |
| the controller's code on the heap | `Reconciler`, `Collect`, `Finalizers`, `Store` (`mergeHealth`) |
| the store and the checker as classes, and the probe loops over any run | `Store`, `Checker`, `ProbeLoops` |
| selection and full recomputation | `Discovery`, `Contents`, `Sums` |
| the meaning of merging and writing health | `Health` |
| mappers and printers | `IngressInventory`, `HTTPRouteInventory`, `Backends`, `Decimal` |
| the session token, the request paths, a whole login | `Session`, `Base64`, `Paths`, `Login` |

`Operator.State` holds the API server's Routemaps with their generation and status, the watch events the informer
has not delivered, the informer cache, the work queue, one program counter with its locals per running reconcile,
the store, the checker's wishes and the probe loops with their passes, a probe write that holds the store's lock,
and the history of the store. A reconcile is cut into a separate step at every read or write of shared state: the
Get, `Store.Delete`, the finalizer update, the namespace read, each List call, the `Get` of `mergeHealth`, its read
of each stored endpoint through the aliased slice, the `Set`, the count of each published endpoint, and the second
Get with the status update. A probe pass takes the slice at its tick; each write of it takes the lock, visits one
endpoint per step, and releases the lock. Everything else may happen between any two steps.

"Full rediscovery" (`Discovery.Rediscover`) is the independent reference: a multiset defined without lists, loops
or order, in which every object of a listed kind contributes its endpoints as often as its namespace counts.

### What the environment is assumed to do

- A change of a cached Ingress, HTTPRoute or Namespace and the requests of its watch handler happen in one step;
  the List inside a watch handler succeeds.
- A key queued while it is being processed stays queued, one reconcile runs per key at a time, and a reconcile
  that fails is queued again.
- The Routemap cache may trail the API server by any number of versions and may skip some, but it never goes
  back, and each delivery queues its key. Updates are refused unless they carry the server's current version.
- Only this controller takes its finalizer off; the server removes an object once its deletion was requested and
  its finalizers are empty, and admits no new finalizers on an object being deleted.
- Ticks, retries and the five-minute requeue may happen at any time (`Requeue`, loop steps). The server counts a
  generation for each change of the spec and for the deletion request, and a write that changes nothing makes no new
  version.
- An element of the endpoint slice is read and written atomically.

### Where code and documentation disagree (the model follows the code)

- `docs/oidc.md:59` lists only `sub` and `exp` in the token payload; the code also binds namespace, name, issuer
  and client ID. The comment at `internal/dashboard/oidc.go:348` counts five claims; four bindings and the expiry
  are compared, `sub` is not.
- `docs/overview.md:56` says a missing HTTPRoute CRD surfaces no error; the code skips the listing, as modelled,
  and also marks the Routemap Degraded in its status.
- `api/v1alpha1/routemap_types.go:34` says exactly one namespace strategy applies; the code accepts several and
  ranks them watchAll, names, selector for listing, while any of them, and the Routemap's own namespace, is
  enough for a watch event to requeue it.
- `internal/store/store.go:80` speaks of a single endpoint; the code writes every endpoint with the reference.

### Claims that fail, and when they hold

- A probe result can be lost. `OperatorLastWrite.HealthIsLastWrite` says exactly when, over every run: the write
  ended after a merge of its key had read the reference for the last time, that merge has published since, and
  what it had read differs from what was written. `OperatorLostRun.LostRun` is a run from start-up in which it
  happens, and `OperatorLostWrite.ProbeIsLostInMerge` does it from any reachable state with a merge about to
  publish.
- A handle in the checker does not mean a running loop. `ProbeLoops.RunLoops` says exactly when: the loop has
  returned if and only if some tick since the handle was made found the key absent.
  `ProbeLoops.RecreatedKeyLosesItsLoop` makes it happen from an empty store and checker, and
  `ProbeLoops.StaysUnprobed` shows that nothing but dropping the handle ends it.
- An error does not mean an unchanged store: `Reconciler.Reconcile` says for each stage at which a reconcile can
  fail what the store then holds; a failed second Get or status update leaves the new view published.
- A key does not always come to rest: `OperatorConvergence.Converges` and `OperatorConvergence.NoRestOtherwise`
  say that it can if and only if its Routemap is gone, is being deleted, or does not depend on an invalid selector;
  `OperatorConvergence.StartsUnreachable` is a run that starts with one that does.
- `intToStr` fails for exactly one integer, the 64-bit minimum: `Decimal.PrintParse`. Neither of its callers can
  pass it: `internal/inventory/ingress.go:81` and `internal/inventory/httproute.go:99` convert 32-bit ports.
- "service:port" texts decode uniquely exactly when the service name has no colon and the port name is not a
  numeral: `Backends.IngressBackendReadsBack`.
- The last-wins map of `mergeHealth` is independent of the order of endpoints exactly on uniform views
  (`Health.PrevMapOrderExactly`), and every run produces only those (`OperatorTheorems.ViewsAreUniform`).

## Model

| member | source | states |
|---|---|---|
| OperatorTheorems.InvariantInEveryRun | internal/controller/routemap_controller.go:73-179 | the combined invariant (shape, finalizer protocol, index in sync, health) holds in every state of every run |
| OperatorTheorems.IndexIsRecomputation | internal/controller/routemap_controller.go:99-142 | in every run, a key that is neither queued nor in progress and whose cache is current is stored if and only if its Routemap exists and is not being deleted, and one being deleted is free of our finalizer; the view then has the current spec and, health erased, exactly the endpoints of full rediscovery from the current cluster |
| OperatorContents.ViewHolds | internal/controller/routemap_controller.go:99-133 | in every run, an endpoint is in the view of a key at rest, health aside, if and only if it is one of an Ingress or HTTPRoute of a kind the spec asks for, in a namespace the spec selects, read with the spec's annotation key |
| OperatorContents.KindsAreRequested | internal/controller/routemap_controller.go:116-126 | an endpoint of a resting view is of a kind the sources name, or they are empty; and an HTTPRoute endpoint only where the CRD was found |
| OperatorContents.ChangeRequeues | internal/controller/routemap_controller.go:319-392 | a Namespace change requeues every cached Routemap; an Ingress change, and an HTTPRoute change where those are listed, exactly those that select the namespace, have a selector, or live in it |
| Contents.RediscoveryHolds | internal/controller/routemap_controller.go:99-133 | full rediscovery holds exactly the endpoints of the kinds asked for in the namespaces selected, both told from the spec |
| Contents.ResolvesSelected | internal/inventory/namespace.go:32-56 | the namespaces a reconcile goes through are those the spec selects, told from names, labels and the own namespace |
| Contents.TriggersExactly | internal/controller/routemap_controller.go:378-392 | a selected namespace always triggers; another does only if it is the Routemap's own or there is a selector |
| OperatorTheorems.StoredKeysHoldTheFinalizer | internal/controller/routemap_controller.go:76-97 | in every run, however far the cache trails, a stored key has an API object that still carries the finalizer, so no view outlives its Routemap |
| OperatorTheorems.OnlyPublishCreatesViews | internal/store/store.go:83-96 | the only step after which a key is stored that was not stored before is the publish of that very key; no probe write brings a view back |
| OperatorTheorems.HealthComesFromProbes | internal/health/checker.go:157-178 | in every interleaving, a health other than Unknown was written by a probe step of the run for that same key and reference, and the reference has been in the view ever since |
| OperatorTheorems.WriteWasBegun | internal/store/store.go:83-96 | every write in the history was begun by exactly that probe step of the run, on the history up to then |
| OperatorProvenance.HealthComesFromPasses | internal/health/checker.go:92-178 | a health other than Unknown was written in a pass of a loop, for an endpoint with that reference and a health path in the slice a tick of that loop took from a view of the same key; the loop was started for the key after a look at a view of it that asked for health checks |
| OperatorProvenance.PassOrigin | internal/health/checker.go:162-166 | the slice of every pass was the stored view of the loop's key at a tick of that loop |
| OperatorProvenance.PassVisits | internal/health/checker.go:166-171 | a pass leaves no endpoint with a health path out: its write was begun, or its key was gone from the store by then |
| OperatorProvenance.LoopOrigin | internal/health/checker.go:118-127 | every loop was started for its key when the checker wanted one |
| OperatorProvenance.WantOrigin | internal/health/checker.go:96-105 | the checker wants a loop only after a look at a view that asks for health checks |
| OperatorTheorems.ViewsAreUniform | internal/controller/routemap_controller.go:253-261 | in every run, whenever the store's lock is free, endpoints of one view with equal references have equal health |
| OperatorLastWrite.HealthIsLastWrite | internal/controller/routemap_controller.go:136-142 | in every run, with no write of the reference running: the simple map holds the last state written since the reference came into view (Unknown if none); the endpoint holds the same, except that it holds what a merge had read if the write ended after that merge last read the reference and the merge has published since; so the write is lost if and only if the merge had read something else |
| OperatorLastWrite.LastOrigin | internal/controller/routemap_controller.go:248-262 | the step a reference's state comes from: the end of its last write, or the publish that brought it into view, with the reference in view and unwritten from then on |
| OperatorLastWrite.SettledStep | internal/controller/routemap_controller.go:253-261 | between two writes of a reference no step changes what the view or a merge past it holds, but for the publish, which makes the latter the former |
| OperatorLostWrite.ProbeIsLostInMerge | internal/controller/routemap_controller.go:136-142 | from any invariant state with a merge about to publish and a pass come to the reference, for any view, reference and state: a complete probe and then the publish leave what the merge had read, although the simple map holds what was written |
| OperatorLostRun.LostRun | internal/controller/routemap_controller.go:136-142 | a run from start-up, with the checker starting a loop and its tick taking the slice, at whose end the one endpoint, which has a health path and whose view asks for checks, is Unknown although Healthy was written last |
| OperatorLostWrite.ProbeRun | internal/store/store.go:83-96 | with the lock free, a complete probe write of any view, for the endpoint a pass has come to, is a sequence of enabled steps that changes exactly the health of the endpoints of its reference, moves the pass on and adds one event |
| OperatorHealth.PossibleWasWritten | internal/store/store.go:83-96 | every possible state of the history other than Unknown is some write to the same key and reference, in view since |
| OperatorHealth.ExpectedIsLastWrite | internal/store/store.go:83-96 | the expected state of the history is the last write of that key and reference, or Unknown when none followed its coming into view |
| OperatorHealth.HealthStep | internal/controller/routemap_controller.go:248-262 | every step of every party keeps the health invariant: stored, merged and half-written health is possible, expected when settled, and uniform |
| OperatorFinalizer.ProtocolStep | internal/controller/routemap_controller.go:76-97 | every step keeps the finalizer protocol, including what undelivered versions and a reconcile's stale copy may still show |
| OperatorFinalizer.RemovalIsFinal | internal/controller/routemap_controller.go:170-179 | a finalizer removal that the server accepts was made against the version it holds, and no live version is left for the cache to show |
| OperatorFinalizer.AdditionWrites | internal/controller/routemap_controller.go:91-96 | an accepted update of a live object appends the finalizer and changes nothing else |
| OperatorFinalizer.RemovalWrites | internal/controller/routemap_controller.go:170-179 | an accepted update of an object being deleted takes the finalizer out and changes nothing else; the object goes exactly when there was no other finalizer |
| OperatorSync.SyncStep | internal/controller/routemap_controller.go:99-142 | every step keeps the index in sync: a key not queued is either being reconciled on data no event has overtaken, or its view is fresh |
| OperatorSync.UntriggeredPhase | internal/controller/routemap_controller.go:319-392 | a cluster change that does not requeue a Routemap leaves every stage of its reconcile up to date, half-finished listings included |
| OperatorProgress.OwnStepsProgress | internal/controller/routemap_controller.go:73-168 | every own step of a reconcile ends it or lowers its rank |
| OperatorProgress.RankFalls | internal/controller/routemap_controller.go:73-168 | over any stretch of a run in which a reconcile stays active, its rank falls with each of its own steps and with nothing else, in a well-founded order |
| OperatorConvergence.Converges | internal/controller/routemap_controller.go:73-179 | from any state of any run, unless the Routemap lives and leaves its namespaces to an invalid selector, finitely many steps of its reconciles, deliveries and the rest of a running probe write bring the key to rest, though a status write queues the key again whenever it changes the status; it then has a view exactly when it lives, and that view is full rediscovery |
| OperatorConvergence.ReportPays | internal/controller/routemap_controller.go:150-164 | on current data the status update leaves the right status, and writes nothing if it was right already, so the controller does not retrigger itself |
| OperatorConvergence.ReportedMeans | internal/controller/routemap_controller.go:146-160 | a right status has the object's generation, the length of the view, the number of its healthy endpoints, the dashboard address of the key, and Degraded exactly when HTTPRoutes are asked for and their CRD is missing |
| OperatorConvergence.ReportWrites | internal/controller/routemap_controller.go:151-164 | in any state a status update writes the server's generation, the length of the view and the count it made, and nothing but the status |
| OperatorConvergence.PublishQuietly | internal/controller/routemap_controller.go:135-148 | a reconcile on unchanged data publishes a view whose status is the one already reported |
| OperatorConvergence.EndsClean | internal/controller/routemap_controller.go:73-168 | on current data a reconcile ends, and either nothing is left to do or it has paid a write that was owed |
| OperatorConvergence.StartsUnreachable | internal/inventory/namespace.go:39-43 | with an invalid selector there is a run that starts where the key cannot come to rest |
| OperatorConvergence.NoRestOtherwise | internal/controller/routemap_controller.go:99-104 | otherwise no such steps bring the key to rest |
| OperatorConvergence.UpdatePays | internal/controller/routemap_controller.go:91-96 | on current data a finalizer write is accepted, ends the reconcile and leaves none to do, and a needless one changes nothing |
| OperatorProgress.OthersDoNotDelay | internal/controller/routemap_controller.go:73-168 | no step of anyone else changes the phase or the rank of a reconcile |
| OperatorProgress.NeverStuck | internal/controller/routemap_controller.go:73-168 | with the lock free an active reconcile has an enabled step, and needs to fail only for an invalid selector or a stale status update |
| OperatorProgress.LockIsReleased | internal/store/store.go:83-96 | the holder of the store's lock always has an enabled step and gets nearer to its release |
| Operator.ShapeStep | internal/controller/routemap_controller.go:73-168 | every step keeps what each phase knows about its locals: liveness, fresh endpoints, and the part of the view already read |
| Discovery.NoMissedTrigger | internal/controller/routemap_controller.go:378-392 | if a change in a namespace does not requeue a Routemap, any additions, changes and removals of Ingresses and HTTPRoutes there leave its full rediscovery unchanged |
| Discovery.UnmatchedHasNoWeight | internal/inventory/namespace.go:32-56 | an unmatched namespace counts zero times for the Routemap, the own-namespace default included |
| Discovery.ResolveNamespaces | internal/inventory/namespace.go:32-56 | the namespace list in each of the four cases, and failure exactly for an invalid selector or a failed List |
| Discovery.NamespacesToScan | internal/controller/routemap_controller.go:99-108 | with the own-namespace default, a successful result is a resolution of the spec, and it fails exactly in the selector case with an invalid selector or a failed List |
| Discovery.WeightIsCount | internal/controller/routemap_controller.go:99-108 | any resolved list without watchAll names a namespace exactly as often as it counts in full rediscovery |
| Discovery.KindCallsAreContribution | internal/controller/routemap_controller.go:181-229 | the List calls of one kind find exactly that kind's contribution to full rediscovery |
| Discovery.PlanIsRediscovery | internal/controller/routemap_controller.go:113-133 | on a still cluster the sequence of List calls of a reconcile finds exactly the full rediscovery |
| Discovery.PlanAvoids | internal/controller/routemap_controller.go:378-392 | no List call of a reconcile reaches into an unmatched namespace |
| Collect.MapIngresses | internal/controller/routemap_controller.go:231-237 | the concatenation of the endpoints of the items, in order |
| Collect.MapHTTPRoutes | internal/controller/routemap_controller.go:239-245 | the concatenation of the endpoints of the items, in order |
| Collect.MapAllInOrder | internal/controller/routemap_controller.go:231-245 | the endpoints come in the order of the items, those of one item together |
| Collect.CollectIngresses | internal/controller/routemap_controller.go:181-204 | fails if and only if some List failed; otherwise the endpoints of all lists in order |
| Collect.CollectHTTPRoutes | internal/controller/routemap_controller.go:206-229 | fails if and only if some List failed; otherwise the endpoints of all lists in order |
| Collect.MapListsInOrder | internal/controller/routemap_controller.go:196-202 | the lists come in the order of their calls |
| Collect.ListingMultiplicity | internal/controller/routemap_controller.go:195-203 | every object counts exactly as often as the list names its namespace |
| Collect.ListingStrategy | internal/controller/routemap_controller.go:181-245 | over a duplicate-free list covering all objects, per-namespace listing and watchAll listing yield the same multiset of endpoints |
| Reconciler.Discover | internal/controller/routemap_controller.go:99-133 | it succeeds if and only if the namespaces resolve and every List call it makes is answered, and then the result is what each List call finds in the cluster of its own moment, in some order, with all health Unknown |
| Reconciler.DiscoveredHolds | internal/controller/routemap_controller.go:113-133 | an endpoint is discovered if and only if it is one of an Ingress or HTTPRoute of a kind the spec asks for, in the scope of the List call that saw it, read with the spec's annotation key |
| Reconciler.IngressesFirst | internal/controller/routemap_controller.go:115-133 | endpoints of Ingresses come before those of HTTPRoutes |
| Reconciler.ReadsSucceedMeans | internal/controller/routemap_controller.go:99-132 | which reads can fail, told from the spec: the namespaces if a selector decides, and the Lists of each kind asked for |
| Reconciler.ListsObserve | internal/controller/routemap_controller.go:181-245 | the mapped answers of the List calls, in any listing order, are what each call finds at its moment |
| Reconciler.DiscoveredStill | internal/controller/routemap_controller.go:99-133 | if all reads saw the same cluster, what is discovered is the full rediscovery |
| Reconciler.HandleDeletion | internal/controller/routemap_controller.go:170-179 | this key's view and no other is gone whether or not the update goes through; if it does, the finalizers written are the old ones without ours |
| Reconciler.Refresh | internal/controller/routemap_controller.go:99-168 | the store is left alone if and only if a read of the discovery fails; otherwise what was discovered is published with the stored health, and the outcome is the failure of the second Get, the failure of the status update, or the counts of the stored view |
| Reconciler.Reconcile | internal/controller/routemap_controller.go:73-168 | the outcome and the whole new store as determined by the answers of the API: first Get, namespace read, Lists, finalizer update, second Get, status update, each of which may fail |
| Reconciler.OutcomeMeans | internal/controller/routemap_controller.go:85-167 | each outcome occurs exactly under its condition on the object and the answers; the finalizers written are the old ones with ours appended or taken out; the status has the generation of the second Get, the length of the published view and the number of its healthy endpoints |
| Reconciler.PublishedIsRediscovery | internal/controller/routemap_controller.go:135-142 | what is published has the given spec, carries over the health of the last stored endpoint of each surviving reference, is Unknown for a new one, leaves other keys alone, and is full rediscovery once health is erased if the cluster stood still |
| Reconciler.CountHealthy | internal/controller/routemap_controller.go:264-272 | the number of Healthy endpoints of the slice |
| Health.HealthyIsCount | internal/controller/routemap_controller.go:264-272 | the count is the number of positions that are Healthy |
| Reconciler.EnqueueAffectedRoutemaps | internal/controller/routemap_controller.go:345-359 | a key is requested if and only if its cached Routemap covers the namespace |
| Finalizers.RemoveString | internal/controller/routemap_controller.go:419-427 | compacting in the array it reads from leaves the old contents without the target as prefix, and the slots behind it untouched |
| Finalizers.WithoutKeepsTheRest | internal/controller/routemap_controller.go:419-427 | the target is gone, every other string keeps its count, and nothing changes if and only if the target was absent |
| Finalizers.WithoutAppend | internal/controller/routemap_controller.go:419-427 | removal distributes over concatenation, so order is kept |
| Finalizers.AddThenRemove | internal/controller/routemap_controller.go:91-92 | appending the finalizer and removing it restores the list if and only if it was absent |
| Health.PrevMapOrderExactly | internal/controller/routemap_controller.go:253-256 | the last-wins map is the same for every order of the endpoints if and only if endpoints with equal references have equal health |
| Health.WriteAllMeaning | internal/store/store.go:90-94 | after any sequence of writes each endpoint has the last state written for its reference, or is unchanged |
| Health.OverwriteExactly | internal/controller/routemap_controller.go:248-262 | a merge that missed some writes publishes the same as one that saw them if and only if, for each surviving reference, the last missed write equals what was read |
| Health.MergeAgain | internal/controller/routemap_controller.go:248-262 | finding the same endpoints again, in any order, and merging a uniform view into them gives the same view up to order |
| Health.CountAnyOrder | internal/controller/routemap_controller.go:264-272 | the two counts of the status do not depend on the order of the endpoints |
| Store.Store.Set | internal/store/store.go:48-52 | whatever the slice, exactly this key's view is replaced; with a slice of its own, arrays of different keys stay distinct and the replaced array is retired |
| Store.GetSharesUntilReplaced | internal/store/store.go:55-60 | a slice from Get shows every later write to its key until a publish replaces the view, and none from then on |
| Store.Store.Delete | internal/store/store.go:63-67 | exactly this key is removed and its array retired |
| Store.Store.Keys | internal/store/store.go:70-78 | all keys, each exactly once, in any order |
| Store.Store.UpdateEndpointHealth | internal/store/store.go:83-96 | every endpoint of the reference in the stored slice gets the state; with slices distinct, this is the functional update of one key's view |
| SharedRuns.PerformRun | internal/store/store.go:48-96 | over every run of the machine, with merges reading their alias and probe writes going through it one element at a time: the heap holds exactly the machine's views, merges and write, arrays of different keys are distinct, the slice of a key is retired exactly when a step replaces or removes its view and kept otherwise, and a retired slice is never written |
| SharedRuns.StepRefines | internal/controller/routemap_controller.go:136-142 | each step of the machine is one operation on the shared memory: take the alias, read one element, copy health, set, delete, lock, write one element, unlock, or nothing |
| SharedHeap.PerformAll | internal/store/store.go:48-96 | any sequence of those operations on arrays and aliases refines the same sequence on values, retires exactly the slices of replaced or removed views, and does not write retired ones |
| Store.MergeHealth | internal/controller/routemap_controller.go:248-262 | whatever slice the caller passes, it gets the last stored health of each known reference |
| Store.MergeAndPublish | internal/controller/routemap_controller.go:135-142 | the new view is the merged one in a slice of its own, and the old slice is retired |
| Store.PerformAll | internal/store/store.go:48-96 | any run of publishes, removals and in-place probe writes refines the same run on a map of values; arrays of different keys stay distinct, a slice replaced before the run is not written, and no slice changes in anything but health |
| Store.KeysAreIsolated | internal/store/store.go:48-96 | operations on other keys leave a key's view alone |
| Checker.Checker.EnsureLoop | internal/health/checker.go:118-127 | a running key is left alone, any other gets exactly one new context with the given spec |
| Checker.Checker.StopLoop | internal/health/checker.go:129-136 | exactly this key's handle is cancelled and dropped |
| Checker.Checker.StopAll | internal/health/checker.go:138-145 | no handle is held and every context ever created has been cancelled exactly once |
| Checker.Checker.Sync | internal/health/checker.go:92-116 | from any prior handles, those held afterwards are exactly the wanted keys; kept ones are the same object, new ones carry the answered spec; a second sync on the same answers changes nothing |
| Checker.WantedFromAnswers | internal/health/checker.go:95-106 | a key is wanted if and only if the answer to its one Get was a view with health checks enabled |
| Checker.ReadAll | internal/health/checker.go:93-99 | the reads of a store that stands still want a loop for exactly the stored keys with health checks enabled, with their stored spec |
| Checker.SyncWithStore | internal/health/checker.go:92-116 | with the store standing still, the handles are exactly the stored enabled keys, and a second sync changes nothing |
| ProbeLoops.RunLoops | internal/health/checker.go:157-165 | over any run of store operations, ticks, visits, removals and stopAlls: a held handle belongs to a loop that has returned if and only if some tick since the handle was made found the key absent |
| ProbeLoops.StaysUnprobed | internal/health/checker.go:121-123 | such a handle stays until it is dropped: no tick, store operation or visit that wants the key starts its loop again |
| ProbeLoops.RecreatedKeyLosesItsLoop | internal/health/checker.go:162-165 | publish, sync, delete, tick, publish, sync from an empty store and checker: the key is stored with checks enabled, has an uncancelled handle, and its loop has returned |
| Checker.PerformAll | internal/health/checker.go:92-145 | over any run of syncs and stopAlls each context is held under one key and uncancelled, or cancelled exactly once and not held; never two uncancelled ones per key, none after a final stopAll |
| Checker.ProbePass | internal/health/checker.go:161-176 | an absent key ends the loop; otherwise the tick writes each result at the reference of the slice taken at its start, in order, between any operations others perform meanwhile, replacing that slice included |
| Checker.PassAlone | internal/health/checker.go:166-171 | a tick nobody interferes with leaves each result at its reference, later endpoints winning |
| Checker.PassReaches | internal/health/checker.go:166-171 | a pass writes a reference if and only if some endpoint with a health path carries it |
| Checker.PassOutcome | internal/health/checker.go:166-171 | and what it writes is the outcome of the last such endpoint |
| HTTPRouteInventory.HTTPRouteToEndpoints | internal/inventory/httproute.go:30-73 | the nested loops produce the product that the lemmas below describe entry by entry |
| HTTPRouteInventory.RouteEntry | internal/inventory/httproute.go:30-102 | the entry at (offset of rule r + m) * hostnames + h has every field from the route itself: match m's path and type with their defaults, hostname h, the first backend reference or nothing, the annotation or nothing, no TLS, the reference, the key, Unknown; a rule without matches counts once |
| HTTPRouteInventory.OffsetCounts | internal/inventory/httproute.go:35-71 | the offset counts the matches of each earlier rule, or one for a rule without matches |
| HTTPRouteInventory.RouteLength | internal/inventory/httproute.go:30-73 | the length is hostnames times the offset of the end of the rules |
| HTTPRouteInventory.RouteEntryOrigin | internal/inventory/httproute.go:30-73 | every entry has such a position and such fields, so nothing else is in the list |
| HTTPRouteInventory.RuleBackendReadsBack | internal/inventory/httproute.go:92-102 | service and optional port of the first backend reference are recoverable from the text |
| HTTPRouteInventory.RouteEndpointsAreFresh | internal/inventory/httproute.go:61-67 | all endpoints of a route carry its reference and start Unknown |
| IngressInventory.BuildTLSHostSet | internal/inventory/ingress.go:59-67 | a host is in the map, as true, if and only if some TLS block lists it |
| IngressInventory.IngressToEndpoints | internal/inventory/ingress.go:27-57 | the nested loops produce the flattening that the lemmas below describe entry by entry |
| IngressInventory.IngressEntry | internal/inventory/ingress.go:27-84 | path i of rule r sits right after all earlier paths, and its endpoint has every field from the Ingress itself: host, path, path type or nothing, TLS if and only if some block lists the host, the backend text or nothing without a service, the annotation or nothing, the reference, the key, Unknown |
| IngressInventory.OffsetCounts | internal/inventory/ingress.go:33-38 | the offset counts the paths of the earlier rules that have an HTTP block |
| IngressInventory.EntryBackendReadsBack | internal/inventory/ingress.go:50-52 | the backend text of an entry decodes to its service if and only if the name has no colon and the port name is not a numeral |
| IngressInventory.IngressEntryOrigin | internal/inventory/ingress.go:33-55 | every entry comes from one path of a rule with an HTTP block and has its fields |
| IngressInventory.IngressEndpointsAreFresh | internal/inventory/ingress.go:39-49 | all endpoints of an Ingress carry its reference and start Unknown |
| Backends.PortReadsBack | internal/inventory/ingress.go:76-84 | the printed port reads back to the port in force (a name before a number, zero for none) if and only if the port name is not a numeral |
| Backends.IngressBackendReadsBack | internal/inventory/ingress.go:50-52 | the text decodes to service name and port in force if and only if the name has no colon and the port name is not a numeral |
| Backends.RouteBackendReadsBack | internal/inventory/httproute.go:92-102 | the text decodes to the reference, with or without a port, if and only if its name has no colon |
| Decimal.IntToStr | internal/inventory/ingress.go:86-103 | the digit loop prints the recursive decimal form, with 64-bit negation written out |
| Decimal.PrintParse | internal/inventory/ingress.go:86-103 | an independent reader gives the integer back if and only if it is above the 64-bit minimum |
| Decimal.PrintedIsCanonical | internal/inventory/ingress.go:86-103 | a sign exactly for negatives and no leading zeros |
| Decimal.PrintedInjective | internal/inventory/ingress.go:86-103 | different integers print differently, the minimum included |
| Base64.RoundTrip | internal/dashboard/oidc.go:340-343 | unpadded base64url contains no dot and decodes to its input |
| Base64.AlphabetIs | internal/dashboard/oidc.go:329-343 | the characters of Table 2 of RFC 4648, with minus and underscore last |
| Base64.GroupIsOneNumber | internal/dashboard/oidc.go:329-343 | three bytes and their four sextets are the same number, most significant first, short groups filled with zero bits, as section 4 of RFC 4648 has it |
| Base64.GroupReadsNumber | internal/dashboard/oidc.go:370 | the decoder reads the same number and drops bits that fill no byte |
| Base64.DecodesExactly | internal/dashboard/oidc.go:370-373 | a text decodes if and only if it holds nothing but the alphabet and line breaks, and no single sextet is left over |
| Base64.StripTakesOut | internal/dashboard/oidc.go:370 | the decoder takes out all line breaks and nothing else |
| Session.MakeSessionToken | internal/dashboard/oidc.go:323-345 | there is a token if and only if randomness was delivered; for a codec that round-trips it is accepted for a binding at a time if and only if the binding is the one it was made for and fewer than eight hours of whole seconds have passed |
| Session.LastDot | internal/dashboard/oidc.go:350-359 | the position of the last dot, or -1 when there is none |
| Session.AcceptableAtLastDot | internal/dashboard/oidc.go:350-370 | a token is acceptable under any reading if and only if it is under the split at its last dot |
| Session.VerifySessionToken | internal/dashboard/oidc.go:349-385 | accepts if and only if the token is some signed payload that decodes, is unexpired and is bound to exactly these coordinates |
| Session.AcceptableMeans | internal/dashboard/oidc.go:360-384 | acceptance, field by field: a token carries a payload whose encoding is followed by its own keyed hash, that decodes and unmarshals, is unexpired, and has the same namespace, name, issuer and client |
| Session.TokenAcceptedExactly | internal/dashboard/oidc.go:323-385 | a token issued for a at t0 is accepted for b at t if and only if all four bindings agree, fewer than eight hours of whole seconds have passed, and the keyed hashes agree |
| Session.LifetimeInSeconds | internal/dashboard/oidc.go:330-378 | whole seconds against the exact lifetime: never longer than eight hours, shorter by less than a second |
| Paths.SplitSlash | internal/dashboard/oidc.go:397-408 | the scan with a moving start computes the recursive split |
| Paths.SplitPath | internal/dashboard/oidc.go:387-395 | the non-empty pieces of the split, in order |
| Paths.JoinSplit | internal/dashboard/oidc.go:397-408 | joining the pieces gives the path back, and no piece holds a slash |
| Paths.SplitJoin | internal/dashboard/oidc.go:397-408 | splitting a join of slash-free pieces gives the pieces back |
| Paths.ParseSpelled | internal/dashboard/server.go:91-103 | a path spelling a namespace and a name is accepted with that key and an empty tail |
| Paths.ParseSpelledTail | internal/dashboard/server.go:91-103 | and with any tail, slashes included, when one follows |
| Paths.ParseExactly | internal/dashboard/server.go:91-103 | a path is accepted with a key and a tail if and only if it spells them, with or without a leading slash |
| Paths.DispatchExactly | internal/dashboard/server.go:104-128 | for a path that spells a key, each of not found, callback, login, JSON list and dashboard is decided exactly under its condition on tail, store, configuration and session; the JSON list exactly for the tail api/endpoints |
| Paths.OtherwiseNotFound | internal/dashboard/server.go:93-96 | any other path is not found |
| Paths.CallbackAgrees | internal/dashboard/oidc.go:137-146 | for every path the route handler accepts, the callback derives the same key, and its redirect path is accepted with that key and an empty tail |
| Paths.DashPathIs | internal/dashboard/oidc.go:137-146 | the callback goes back to the first two non-empty pieces of its path, or to the root when there are fewer |
| Paths.NonEmptyOnly | internal/dashboard/oidc.go:387-395 | the pieces kept are the non-empty ones, each as often as it occurs |
| Login.LoginRoundTrip | internal/dashboard/oidc.go:137-207 | the token a callback issues admits the request it redirects to, which shows the dashboard of the callback's key, for eight hours of whole seconds while the view names the same issuer and client; otherwise a login is asked for again if the view demands one |
| Login.TokenOpensNothingElse | internal/dashboard/oidc.go:320-322 | on any other accepted path that demands a login, the token is turned away unless key, issuer, client and time all fit |

## Left out

- `cmd/main.go`, manifests, schemes, deepcopy, logging, metrics: wiring.
- Serving of HTTP, templates, cookies, provider discovery and code exchange: library and network behaviour.
- `getOrBuildEntry` and `validateIssuerURL`: caching of provider entries and DNS policy.
- The keyed hash is any function, and the JSON codec any pair whose decoder undoes its encoder. The real codec
  replaces invalid UTF-8, so its round trip holds for valid strings only; keys of API objects are valid.
- The probe request: its outcome is an arbitrary Healthy or Unhealthy, also when the loop's context is cancelled
  in the middle of a pass.
- Label selectors: what a selector selects, and whether it is malformed, are arbitrary predicates.
- The text and times of the conditions; whether they say Degraded is part of the status. The generation written is
  that of the second Get, which may be newer than the spec that was used.
- Overflow of the counts at 32 bits and of the expiry at 64 bits.
- `effectiveInterval`, `effectiveTimeout`, `effectiveExpectedStatus`, tickers and real time.
- `LastProbe`, which nothing writes.
- `enqueueAllRoutemaps` as code: its effect, queueing every cached key, is part of `Operator.Triggered`.
- Reads of endpoint slices without the lock that see a half-written string, which Go's memory model does not
  exclude, and the dashboard's reads of them.
- Store.MergeHealth: as a method it runs without a concurrent probe; `SharedRuns.PerformRun` has it interleaved.
- Store.MergeAndPublish: likewise one uninterrupted operation; interleaved in `SharedRuns.PerformRun`.
- Store.PerformAll: each publish is one operation here; split into its reads and its Set in `SharedHeap.PerformAll`.
- Health.OverwriteExactly: the merge reads the whole view before all writes; `OperatorLastWrite.HealthIsLastWrite`
  has the exact condition with the view read one endpoint at a time.
- Checker.ProbePass: endpoints are read between operations of others, not in the middle of one.
- Checker.ReadAll: for a store that stands still; `Checker.Checker.Sync` takes any answers, from any moments.
- At most one loop per key: `Operator` allows several; `Checker` and `ProbeLoops` have the map of handles.
- OperatorConvergence.Converges: fairness of the scheduler is not modelled; a run can be continued to rest, and
  reconciles end, but that a scheduler takes those steps is not stated.
