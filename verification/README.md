# NVSentinel: verified models of five components

This project models the parts of NVSentinel whose correctness is hardest to see from the code, and
proves what they promise. `dafny verify dfyconfig.toml` checks all of it.

1. **Cold-start recovery (fault-quarantine).** When the change-stream position is lost, stored health
   events are replayed, each limited to the (entity, error code) effects that no newer event touches.
   `HealthEvents`, `Coverage`, `ColdStart`, `ReplayConvergence` and `ReplayCalls` model the incremental
   tracker, the resolver and the two-phase replay, and show that the replay ends where the full history
   would have. `Orders`, `SliceKey`, `Rectangles` and `Projection` model the projection of a partly
   superseded event onto the maximal entity x code rectangles of what remains of it. (`Options` holds
   absent values.)
2. **Field paths of CEL expressions (celfields) and the caches pruned by them.** `Cel` is the
   expression language with an evaluator, `Accesses` what an expression reads, defined on the expression
   alone, `FieldTree` the prefix tree and the pruning, `FieldPaths` the walker, `LookupUses` every lookup
   of an expression whether the walker records it or not, `LookupTargets` the merging of lookup paths.
   `PruneSoundness` shows that pruning preserves evaluation.
   `LookupServing` and `PolicyCache` are about the object monitor, which serves lookups from one pruned
   cache that all policies share.
3. **The sliding-window circuit breaker (fault-quarantine).** `BreakerThresholds`, `BreakerWindow` and
   `Breaker`: the threshold arithmetic, the ring kept in three redundant structures, and the bound on
   the cordon rate over every run.
4. **The concurrent exporter (event-exporter).** `SequenceTracker`, `ExportPool` and `ExportClose`:
   out-of-order completions, the resume token in every interleaving of consumer, workers and token
   writer, and what a nil return means.
5. **Optimistic concurrency on Kubernetes objects (commons).** `MergePatch`, `NodePatch` and
   `NodePatcher`: the merge patches written to nodes and the runs of many patchers. `NodeLock`: the
   lease-based node lock.

## Reading the model

Code that computes a value is a function. Code that changes state is a class or a method with the
source's loops, whose `ensures` ties the new state to a specification function (`Added`, `Slide`,
`Evaluated`, `ReadsOf`, `AfterMark`, `After`, ...). The theorems are about those functions and about
runs: a run is a sequence of steps of an explicit step relation, and a theorem about runs quantifies
over every run and every state of it.

What is taken from outside the modelled code:

- Cold start: the processor changes an effect only if `ShouldRecoverEffect` allows it; its answer for
  each record (`Outcome`) and whether completions can be stored (`persists`) are parameters. An attempt
  that is not processed changes no effect. The theorem on two starts in a row is about a first start in
  which the processor declines no record (one that is declined is never applied). Stored records have
  distinct (createdAt, id) positions and a non-zero createdAt in the convergence theorems. The store
  answers queries in any order; only membership matters.
- CEL: every function, operator, list, map and struct constructor is an arbitrary function of its
  operands' results, errors included, so the theorems hold for every environment. Map iteration order
  and the objects `lookup` finds are parameters too.
- Breaker: time is a natural number of nanoseconds, percentages are reals. The GPU fleet size, the
  quarantined count and the success of writing the state back are parameters of each evaluation.
  One bucket per started second of the window.
- Exporter: the consumer, N workers and the token writer take one channel or context operation at a
  time; cancellation and failures may happen between any two. A crash needs no step of its own: every
  theorem holds in every state of every run, and what was marked is all that survives.
- Node patcher: reads from the API server are current, informer versions never go back, one caller per
  node. A cached node may be any projection; a writer that changes taints or cordon state has seen
  them at the version it read. `CreateTwoWayMergePatch` is the field-by-field difference `Diff`,
  patches are applied as section 2 of RFC 7386 says.
- Node lock: reads of leases are current, one reconcile per maintenance object at a time, UIDs are
  unique.
- Strings are sequences of characters. Go measures and compares bytes; read a character as a byte.

## Where code, documentation and intent differ

The models follow the code. Each of these has a counterexample lemma and the exact condition under
which the intended property holds.

- **Blank entities.** An impacted entity whose type and value are both empty looks like the check-wide
  effect to `newerIdentityShadowsStoredEffect` but not to `identityFullyCoveredBy`, so the tracker is
  not last-writer-wins there (`BlankEntityBreaksLastWriter`). It is if and only if every such conflict
  is settled by another newer event (`TrackerIsLastWriterWins`); without blank entities it always is
  (`NamedEntitiesSettle`).
- **Polling is not always invisible.** A poll never changes which nodes are counted at a given time
  (`PollKeepsCount`), but it can keep the ring from being realigned to a whole second, and so change
  how a later cordon ages (`PollCanChangeLaterCount`). `PollIsInvisible` says exactly when.
- **A nil return of the exporter does not always mean drained.** If the caller's context is cancelled
  after the consumer saw the channel close, a worker drops the item it holds without a result, and
  the pool still returns nil (`CancelledCloseLosesProgress`). The token is safe all the same
  (`TokenNeverPassesUnhandled`); a nil return means drained if and only if no worker dropped an item
  (`CleanCloseDrains`), which is so whenever the context was not cancelled (`UncancelledCloseDrains`).
  For a cancellation while closing, `CancelledCloseIff` says from which states events can be left
  undone: exactly those with no failure under way in which one is queued, or received but not begun,
  or already dropped.
- **Computed lookups.** celfields documents that a `lookup` whose kind is computed reads through the
  API. The object monitor serves lookups by the kind they end up naming, so such a call can reach an
  entry pruned for a literal call (`ComputedLookupReadsPrunedEntry`). A field access off a lookup is
  preserved if and only if every cached kind the call can name retains the path (`LookupAccessIff`,
  for calls with field accesses, variables and literals as arguments and, in general, for settable
  ones); every expression whose computed lookups meet that condition is preserved
  (`PrunedCachePreservesEvaluation`).
- **Lookups beyond the point where the walk stops.** `LookupTargets` makes no target derivable once the
  walk has stopped, but a lookup it never reached is in no target at all, and another policy can have
  that kind cached with fewer fields (`AnotherPolicyPrunes`). `StoppedWalkIff` is the exact condition
  for a lookup beside a whole-object use; `PolicyCachePreservesEvaluation` shows that all policies
  are preserved when such lookups and computed ones find their paths.
- **Nil and empty taint lists.** `NodeMergePatch` documents a nil patch when the two nodes already
  agree. Replacing a nil taint list by an empty one still pins the version and writes
  (`EmptyTaintListStillWrites`); `NilPatchIff` says exactly when the patch is nil.
- **Garbage collection between read and delete.** `CheckUnlock` deletes the lease by name. If the
  object's own lease is garbage-collected between its read and its delete, the delete can remove
  another holder's lease, and two objects hold the lock. Collecting a lease keeps exclusion in all
  continuations if and only if its owner is not about to delete it (`CollectionIff`), and states in
  which it is do occur (`UnguardedCollectionReached`). Without such a collection exclusion holds
  (`AtMostOneHolder`).

## Model

| member | source | states |
|---|---|---|
| `HealthEvents.FaultTouchesWhatItNames` | fault-quarantine/pkg/coldstart/supersession.go:641-677 | a fault shadows exactly the product of its normalized entities and codes |
| `HealthEvents.HealthyTouchesAllItDoesNotRestrict` | fault-quarantine/pkg/coldstart/supersession.go:641-669 | a healthy event without entities shadows every entity and one without codes every code; what it names restricts it to that |
| `Coverage.EventCoverage.constructor` | fault-quarantine/pkg/coldstart/supersession.go:494-520 | the nested loops leave the tracker at the product of entities and codes with the right wildcard flags |
| `Coverage.EventCoverage.Add` | fault-quarantine/pkg/coldstart/supersession.go:522-550 | deleting while ranging over the remaining map, in any order, removes exactly the fully covered effects, records the event as shadowing when it can shadow one of the effects remaining before it, and reports whether nothing remains |
| `Coverage.NewTrackerAllows` | fault-quarantine/pkg/coldstart/supersession.go:494-583 | a fresh tracker allows exactly what its candidate touches |
| `Coverage.AddedAllows` | fault-quarantine/pkg/coldstart/supersession.go:522-669 | one newer event takes away exactly the allowed effects it counts against, for every tracker of the candidate |
| `Coverage.FoldedAllows` | fault-quarantine/pkg/coldstart/supersession.go:494-669 | after any list of newer events in any order, an effect is allowed iff the candidate touches it and none of them counts against it |
| `Coverage.FoldedRemaining` | fault-quarantine/pkg/coldstart/supersession.go:522-550 | a named effect remains iff no newer event fully covers it, in whatever order they come |
| `Coverage.RemainingAllows` | fault-quarantine/pkg/coldstart/supersession.go:522-583 | while something remains, the candidate still decides some effect |
| `Coverage.ProjectedIff` | fault-quarantine/pkg/coldstart/supersession.go:522-550 | the tracker counts as projected iff an effect was taken away or may be shadowed |
| `Coverage.TrackerIsLastWriterWins` | fault-quarantine/pkg/coldstart/supersession.go:494-669 | the incremental tracker equals last-writer-wins on all effects iff blank-entity conflicts are settled |
| `Coverage.CountsAgainstIsTouch` | fault-quarantine/pkg/coldstart/supersession.go:585-669 | on effects the candidate touches, the tracker's notion of a newer touch differs from the shadowing one only on the blank entity in a blank conflict |
| `Coverage.NamedEntitiesSettle` | fault-quarantine/pkg/coldstart/supersession.go:585-659 | events without blank entities meet the condition of last-writer-wins |
| `Coverage.BlankEntityBreaksLastWriter` | fault-quarantine/pkg/coldstart/supersession.go:585-659 | a check-wide fault keeps an effect a newer event on the blank entity touches |
| `ColdStart.Resolve` | fault-quarantine/pkg/coldstart/supersession.go:68-173 | the scan, stopping early, answers what the order-free definition says: unrestricted, superseded (nothing remains, or an unreadable newer record bars a healthy candidate) or restricted to the folded tracker |
| `ColdStart.RemainingOnlyShrinks` | fault-quarantine/pkg/coldstart/supersession.go:522-536 | the remaining effects after more newer events are among those after fewer, so stopping once nothing remains is safe |
| `ColdStart.Recovery.RecoverStoredEvent` | fault-quarantine/pkg/coldstart/coldstart.go:368-419 | exactly when the processor is handed the event, when the attempt completes, when it reports an error (a cancellation before or during processing included) and what it does to the effects |
| `ColdStart.Recovery.AttemptEvent` | fault-quarantine/pkg/coldstart/coldstart.go:349-366 | an error is counted as a failure and the replay goes on, unless it is a cancellation, which ends it |
| `ColdStart.Recovery.RecoverEvents` | fault-quarantine/pkg/coldstart/coldstart.go:315-347 | given up iff an attempt reports a cancellation or the decisions of the events cannot be stored; not given up, all are attempted and their decisions stored; given up, it ended at the first cancellation, or after all attempts, and then nothing is stored |
| `ColdStart.Recovery.RecoverBatch` | fault-quarantine/pkg/coldstart/coldstart.go:292-313 | the same for the events of one kind among those of a batch, the others being left alone |
| `ColdStart.Recovery.RecoverPhase` | fault-quarantine/pkg/coldstart/coldstart.go:251-272 | a scan in batches of 1000 is given up iff some batch of it is; not given up, it amounts to attempting all selected events of its kind in order; given up, every earlier batch was carried out whole and stored, and the first one given up ended as said above |
| `ColdStart.Recovery.Handle` | fault-quarantine/pkg/coldstart/coldstart.go:223-290 | succeeds iff no attempt on a selected record fails and no batch of either scan is given up; then all faults and after them all recoveries were attempted; the recoveries are not begun iff a fault failed or the fault scan was given up; on each way out effects, failures, handed and stored records are said exactly |
| `ColdStart.HandledIsPart` | fault-quarantine/pkg/coldstart/coldstart.go:223-290 | whatever the call returns, the state is that after a first part of the faults, or after all of them and a first part of the recoveries |
| `ColdStart.OnlyFaultsHanded` | fault-quarantine/pkg/coldstart/coldstart.go:266-281 | when no more than faults were attempted, no healthy event was handed to the processor |
| `ReplayConvergence.DecidesIffSpeaksLast` | fault-quarantine/pkg/coldstart/supersession.go:68-173 | replaying a readable record decides exactly the effects on which it is the last to speak in (createdAt, id) order, and a healthy one only if every newer record of its check is readable |
| `ReplayConvergence.OlderIsOrder` | fault-quarantine/pkg/coldstart/supersession.go:155-173 | newer means a later time, or the same time and a greater id |
| `ReplayConvergence.SelectedIffUnseen` | fault-quarantine/pkg/coldstart/coldstart.go:444-461 | a record of the history is selected iff it is pending and after the lower time bound, if there is one |
| `ReplayConvergence.LastRecordDecides` | fault-quarantine/pkg/coldstart/supersession.go:641-669 | applying a history in order, the last record touching an effect decides it, and without one nothing changes |
| `ReplayConvergence.AppliedPartAgrees` | fault-quarantine/pkg/coldstart/coldstart.go:444-461 | the records seen before the position was lost, applied alone, agree with the whole history on every effect about which no unseen record speaks last |
| `ReplayConvergence.ReplayMember` | fault-quarantine/pkg/coldstart/coldstart.go:218-290 | effect by effect: nothing the full history leaves in place is lost, and on a check with readable records the replay agrees exactly |
| `ReplayConvergence.ReplayConverges` | fault-quarantine/pkg/coldstart/coldstart.go:218-290 | for every history and every start that agrees with it on the effects about which no replayed record speaks last, and every order within a phase: a readable history ends in the effects of the full history; unreadable records lose no effect; after the fault phase no intermediate state lacks a final effect |
| `ReplayConvergence.AppliedStartAgrees` | fault-quarantine/pkg/coldstart/coldstart.go:444-461 | the state to which exactly the records up to the lower bound and those no longer pending were applied is such a start |
| `ReplayConvergence.HandleLists` | fault-quarantine/pkg/coldstart/coldstart.go:251-313 | the two scans visit exactly the unseen faults and the unseen recoveries of the history |
| `ReplayConvergence.HandleReachesHistory` | fault-quarantine/pkg/coldstart/coldstart.go:223-290 | the state of a successful replay is that of the full history |
| `ReplayConvergence.HandledEffects` | fault-quarantine/pkg/coldstart/coldstart.go:223-290 | what any call of Handle did: it replayed a first part of the faults and, only after all of them, a first part of the recoveries; the records it handed over and those it stored as decided are among these and are such that the attempt hands them over or decides them |
| `ReplayConvergence.PartAgrees` | fault-quarantine/pkg/coldstart/coldstart.go:315-419 | whatever part of a replay was carried out, with whatever outcomes, the state agrees with the history on every effect about which no record that is left speaks last |
| `ReplayConvergence.SecondHandleReachesHistory` | fault-quarantine/pkg/coldstart/coldstart.go:266-290 | a second replay after any call that failed or was cut short reaches the full history, with the records the call stored as decided, and whichever of those it had processed, no longer pending |
| `ReplayConvergence.NamedEntitiesSettleAll` | fault-quarantine/pkg/coldstart/supersession.go:585-659 | stores without blank entities meet the condition of the convergence theorem |
| `ReplayCalls.SupersededIff` | fault-quarantine/pkg/coldstart/supersession.go:68-173 | a selected record is superseded iff there is no effect on which it speaks last in the history, or it is healthy and a newer record of its check is unreadable |
| `ReplayCalls.AttemptMeans` | fault-quarantine/pkg/coldstart/coldstart.go:368-419 | on the history and the processor's answer alone: which records are handed over, which end the replay, which count as failed and which are stored as decided |
| `ReplayCalls.UnreadableAttempt` | fault-quarantine/pkg/coldstart/coldstart.go:368-419 | a document that cannot be parsed is stored as invalid without being handed over; one without an event is handed over as it is |
| `ReplayCalls.CompletedNeverBreaks` | fault-quarantine/pkg/coldstart/coldstart.go:368-419 | no record is both stored as decided and reported as an error, and a processed one is neither |
| `ReplayCalls.CompletedExactly` | fault-quarantine/pkg/coldstart/coldstart.go:315-347 | a batch that is not given up stores exactly those of its records whose attempt decided them |
| `ReplayCalls.UntimedIsReplayedWhole` | fault-quarantine/pkg/coldstart/supersession.go:68-76 | a record without a time is replayed in full |
| `ReplayCalls.AcceptedSucceeds` | fault-quarantine/pkg/coldstart/coldstart.go:223-347 | if the processor accepts what is selected and decisions can be stored, nothing fails and no scan is given up |
| `ReplayCalls.SuccessSettlesAll` | fault-quarantine/pkg/coldstart/coldstart.go:223-347 | a nil return leaves nothing behind: every selected record was processed or stored as decided |
| `ReplayCalls.FailureHasCause` | fault-quarantine/pkg/coldstart/coldstart.go:223-347 | an error has a cause: an attempt on a selected record that failed or was cancelled, or decisions that could not be stored |
| `ReplayCalls.ReplayHistory` | fault-quarantine/pkg/coldstart/coldstart.go:223-290 | a call of Handle on a readable history whose unseen part the processor accepts and whose decisions can be stored returns no error and leaves the effects of the whole history |
| `ReplayCalls.ReplayTwice` | fault-quarantine/pkg/coldstart/coldstart.go:218-290 | two calls in a row, the first failing or cut short anywhere: the second returns no error and leaves the effects of the whole history |
| `SliceKey.DecimalInjective` | fault-quarantine/pkg/coldstart/supersession.go:475-483 | the length prefix determines the length |
| `SliceKey.KeyInjective` | fault-quarantine/pkg/coldstart/supersession.go:475-483 | lists of strings with equal keys are equal, whatever characters they hold |
| `SliceKey.SetKeyInjective` | fault-quarantine/pkg/coldstart/supersession.go:471-473 | deduplication by key never merges distinct code sets |
| `SliceKey.SortedStringSet` | fault-quarantine/pkg/coldstart/supersession.go:460-473 | the elements of the set in strict order, whatever order the map yields them in; their key is the set's key |
| `Rectangles.Neighbours` | fault-quarantine/pkg/coldstart/supersession.go:313-322 | each entity of the relation with exactly its codes |
| `Rectangles.AddCodeSet` | fault-quarantine/pkg/coldstart/supersession.go:343-362 | keeps a family of distinct non-empty intersections of at most 256; the set is in the family afterwards unless the cap was hit, and then a set that does not fit exists |
| `Rectangles.Closure` | fault-quarantine/pkg/coldstart/supersession.go:337-376 | terminates with a family that holds all neighbourhoods and is closed under intersection, or reports overflow and then more than 256 intersections exist |
| `Rectangles.ClosedFamilyHoldsMeet` | fault-quarantine/pkg/coldstart/supersession.go:335-376 | a family of the neighbourhoods closed under pairwise intersection holds every intersection of any number of them |
| `Rectangles.MaximalIffMeet` | fault-quarantine/pkg/coldstart/supersession.go:306-400 | the maximal rectangles are exactly the pairs of a non-empty intersection of neighbourhoods and the entities having all of it |
| `Rectangles.MeetIsClosed` | fault-quarantine/pkg/coldstart/supersession.go:378-400 | the codes common to all entities having an intersection are that intersection again |
| `Rectangles.RectangleInsideMaximal` | fault-quarantine/pkg/coldstart/supersession.go:306-310 | every non-empty rectangle inside the relation is contained in a maximal one |
| `Rectangles.Concept` | fault-quarantine/pkg/coldstart/supersession.go:379-400 | the rectangle of one closed code set: the entities having all of it and the codes they share, both sorted |
| `Rectangles.MaximalResidualRectangles` | fault-quarantine/pkg/coldstart/supersession.go:312-410 | overflow iff the relation has more than 256 distinct non-empty intersections; otherwise the strictly sorted list of all maximal rectangles |
| `Rectangles.MaximalRectanglesCorrect` | fault-quarantine/pkg/coldstart/supersession.go:306-410 | a rectangle is listed iff it is maximal in the relation and its entities and codes are sorted |
| `Rectangles.RectangleLessIsStrictTotal` | fault-quarantine/pkg/coldstart/supersession.go:412-423 | the sort order leaves no ties between different rectangles |
| `Rectangles.RectangleListIsUnique` | fault-quarantine/pkg/coldstart/supersession.go:402-423 | the list is a function of the relation alone, without duplicates, whatever order maps are ranged in |
| `Projection.FoldedIsCoverage` | fault-quarantine/pkg/coldstart/supersession.go:494-536 | a tracker not marked as projected still has all of its event's effects |
| `Projection.ProjectedStands` | fault-quarantine/pkg/coldstart/supersession.go:266-294 | coverage derived afresh from a projected event is its rectangle, with the code wildcard of the original kept |
| `Projection.ProjectHealthEvent` | fault-quarantine/pkg/coldstart/supersession.go:221-286 | without overflow the projected events are one for one the maximal rectangles of the residual; with overflow, or when nothing remains, the event itself |
| `Projection.ProjectionCoversResidual` | fault-quarantine/pkg/coldstart/supersession.go:217-220 | the union of what the projected events name is exactly the residual set |
| `Projection.MonotoneRulesAgree` | fault-quarantine/pkg/coldstart/supersession.go:217-220 | a rule monotone in entities and codes holds on some residual rectangle iff it holds on some projected event |
| `FieldTree.InsertCovers` | health-monitors/kubernetes-object-monitor/pkg/initializer/transform.go:249-275 | inserting a path covers exactly its extensions in addition |
| `FieldTree.InsertAllCovers` | health-monitors/kubernetes-object-monitor/pkg/initializer/transform.go:240-275 | a path is covered iff the starting tree covers it or an inserted path is a prefix of it |
| `FieldPaths.FieldWalker.Walk` | commons/pkg/celfields/fields.go:98-112 | the walk appends exactly the compositional reads of the expression, stops at the first whole-object use and restores the shadow count |
| `FieldPaths.FieldWalker.Record` | commons/pkg/celfields/fields.go:162-216 | recording a rooted chain appends its path, the reads of its index keys and, for a lookup, of its arguments; an empty path off the object ends the walk |
| `FieldPaths.FieldWalker.WalkIndexKeys` | commons/pkg/celfields/fields.go:294-313 | the loop walks exactly the key expressions of the index operations along the chain |
| `FieldPaths.FieldWalker.WalkChildren` | commons/pkg/celfields/fields.go:218-260 | appends exactly the reads of the sub-expressions |
| `FieldPaths.FieldWalker.WalkComprehension` | commons/pkg/celfields/fields.go:262-289 | range and initial value are read in the outer scope, condition and step under all bindings, the result under the accumulator only |
| `FieldPaths.SortedUniquePaths` | commons/pkg/celfields/fields.go:77-82 | the same set of paths, strictly sorted |
| `FieldPaths.DeriveFieldPaths` | commons/pkg/celfields/fields.go:54-75 | complete iff the expression compiled and never uses the object whole, by the accesses defined on the expression alone (`Accesses`); then exactly the sorted set of paths it reads, otherwise nothing |
| `FieldPaths.WalkDerives` | commons/pkg/celfields/fields.go:98-378 | for every expression, shadowed or not: the walk is complete iff there is no whole use of the object, and then records exactly the paths the expression reads off the object and off each literal-kind lookup, with selects, literal and computed indexes, membership tests and comprehension scopes as the cases |
| `Orders.LexMeans` | commons/pkg/celfields/fields.go:77-82 | the order of paths: a proper prefix first, otherwise by the first element that differs |
| `PruneSoundness.ChainAgrees` | commons/pkg/celfields/fields.go:315-363 | along a chain off a pruned root the value is pruned by what is left of the tree below an exact path, and not at all beyond a computed index |
| `PruneSoundness.MembershipAgrees` | commons/pkg/celfields/fields.go:123-157 | a literal key's membership test answers alike on the pruned and the full container, for maps, other values and errors |
| `PruneSoundness.RecordedRoot` | commons/pkg/celfields/fields.go:159-216 | a recorded chain is covered by the tree of its root, whose value in the cache is the pruned one, and its keys evaluate alike |
| `PruneSoundness.LookupRootCovers` | commons/pkg/celfields/fields.go:199-216 | whatever kind a lookup ends up naming, an admitted use finds its path in the tree it is served from |
| `PruneSoundness.ComprehensionSound` | commons/pkg/celfields/fields.go:262-289 | comprehensions evaluate alike on pruned and full objects, also when a binding shadows the object variable |
| `PruneSoundness.Sound` | commons/pkg/celfields/fields.go:98-378 | for every expression whose object paths are retained (or whose object is kept whole) and whose lookups find what they read, every object, environment and served lookup, evaluation gives the same value or error on pruned as on full objects |
| `LookupTargets.FieldPathsPreserveEvaluation` | commons/pkg/celfields/fields.go:32-65 | pruning the object to any tree holding the returned paths preserves the value or error of the expression, for every object |
| `LookupTargets.DerivedPathIsNecessary` | commons/pkg/celfields/fields.go:32-47 | for a field access, a tree preserves evaluation on every object iff it covers the access path: no shorter retention would do |
| `LookupTargets.AccessReads` | commons/pkg/celfields/fields.go:114-121 | a plain field access derives exactly its own path, and the bare object none |
| `LookupTargets.MembershipReadsTheKey` | commons/pkg/celfields/fields.go:123-157 | `"k" in <access p>`, with either operator and also on the object itself, derives exactly the path p with k |
| `LookupTargets.MembershipPathIsNecessary` | commons/pkg/celfields/fields.go:123-157 | a tree preserves that test on every object iff it can be followed along the path, whether or not it keeps what is there |
| `LookupTargets.MergeFieldPathsByGVK` | commons/pkg/celfields/lookups.go:86-133 | one target per kind in the order of first read, derivable iff the kind's object is never used whole, and then with the sorted set of all its paths |
| `LookupTargets.DeriveLookupTargets` | commons/pkg/celfields/lookups.go:42-72 | one target for each kind read; after a walk that stopped early none is derivable and none has paths |
| `LookupTargets.TargetsMeanAccesses` | commons/pkg/celfields/lookups.go:42-133 | on the expression: after a complete walk the targets are the kinds looked up by literals, derivable iff none of their objects is used whole, with exactly the paths read off them |
| `LookupTargets.SameReads` | commons/pkg/celfields/fields.go:159-191 | tracking lookups changes neither completeness nor the set of paths read off the object |
| `LookupTargets.PrunedCachePreservesEvaluation` | commons/pkg/celfields/lookups.go:25-72 | with the object pruned to its paths and the derivable kinds to their merged paths, in a cache that may hold any other kinds, the expression evaluates as on full objects, if lookups with literal kinds alone are served from the cache or every computed one finds its path in the kinds it can name |
| `LookupUses.WalkRecordsUses` | commons/pkg/celfields/fields.go:98-216 | a walk that does not stop records exactly the lookups with literal kinds, each with the path read off it |
| `LookupUses.UsesAreAccesses` | commons/pkg/celfields/fields.go:159-216 | the lookups and paths this speaks of are the accesses of the expression |
| `LookupUses.GvkOfReads` | commons/pkg/celfields/lookups.go:74-84 | an apiVersion without a slash is a version of the core group, one slash separates group and version, and more give neither |
| `LookupServing.LookupAccessIff` | health-monitors/kubernetes-object-monitor/pkg/cel/environment.go:219-246 | served by the kind it names, a field access off a lookup is preserved in all worlds and for all watched objects iff every cached kind the call can name retains the path; for every call without lookups in its arguments that can be made to name each kind its literals allow |
| `LookupServing.PathArgumentsSettable` | health-monitors/kubernetes-object-monitor/pkg/cel/environment.go:167-217 | such are all calls whose arguments are string literals, variables and field accesses that read the same or unrelated places |
| `LookupServing.ObjectKindSettable` | health-monitors/kubernetes-object-monitor/pkg/cel/environment.go:167-217 | among them a call whose kind is read off the watched object |
| `LookupServing.StoppedWalkIff` | health-monitors/kubernetes-object-monitor/pkg/cel/environment.go:219-246 | the same for a lookup compared with the whole watched object, which the walk never reaches, under the real equality |
| `LookupServing.UncoveredTells` | health-monitors/kubernetes-object-monitor/pkg/initializer/transform.go:307-341 | for every object there is something to be found at an uncovered path whose comparison with the object changes when it is pruned |
| `LookupServing.StoppedWalkRecordsNothing` | commons/pkg/celfields/fields.go:98-112 | comparing the whole object with anything stops the walk before it has recorded a lookup |
| `LookupServing.MixedLookupsDerivable` | commons/pkg/celfields/lookups.go:56-133 | for an expression with a literal and a computed lookup the walk completes and the one target is derivable with the path of the literal lookup |
| `LookupServing.ComputedLookupReadsPrunedEntry` | health-monitors/kubernetes-object-monitor/pkg/cel/environment.go:219-246 | with that kind pruned to that path and served by name, the computed lookup turns a true comparison into an error |
| `PolicyCache.RecordLookupPaths` | health-monitors/kubernetes-object-monitor/pkg/initializer/transform.go:151-167 | the targets of an expression add to each kind its paths, or that it is needed whole |
| `PolicyCache.DerivePolicyFieldPaths` | health-monitors/kubernetes-object-monitor/pkg/initializer/transform.go:109-149 | for any policies the derived map holds exactly the kinds watched or looked up, each with all paths the expressions read off it in either role and whether one needs it whole |
| `PolicyCache.EntryCovers` | health-monitors/kubernetes-object-monitor/pkg/initializer/transform.go:169-205 | what a cache entry retains: everything, or the fixed paths, the watched ones and, if it serves lookups, the looked-up ones |
| `PolicyCache.ServedKinds` | health-monitors/kubernetes-object-monitor/pkg/initializer/transform.go:169-205 | which kinds have an entry, and which serve lookups: those some expression looks up, unless one needs the object whole and it is not cached whole anyway, or the kind is cached for named namespaces only |
| `PolicyCache.IdentityRetained` | health-monitors/kubernetes-object-monitor/pkg/initializer/transform.go:33-43 | every entry keeps what identifies an object, its version and its deletion time |
| `PolicyCache.WatchedRetained` | health-monitors/kubernetes-object-monitor/pkg/initializer/transform.go:72-93 | the watched kind of every expression has an entry that retains what the expression reads off the object |
| `PolicyCache.LookupsServed` | health-monitors/kubernetes-object-monitor/pkg/initializer/transform.go:169-205 | a kind that serves lookups retains what the recorded lookups of every policy read off it |
| `PolicyCache.PolicyCachePreservesEvaluation` | health-monitors/kubernetes-object-monitor/pkg/initializer/transform.go:67-93 | for any policies sharing the cache, every expression evaluates on the cached object and served lookups as on full objects, provided each lookup its walk did not record finds its path in the cached kinds it can name |
| `PolicyCache.StrayWhenComplete` | health-monitors/kubernetes-object-monitor/pkg/initializer/transform.go:135-144 | when the walk completes those are the computed lookups only |
| `PolicyCache.AnotherPolicyPrunes` | health-monitors/kubernetes-object-monitor/pkg/initializer/transform.go:116-149 | the proviso is needed: one policy has a kind pruned, another looks the kind up beyond the point where its walk stopped, and its result changes for some watched object, although that object is itself cached in full |
| `BreakerThresholds.TripThresholdIsLeast` | fault-quarantine/pkg/breaker/breaker.go:220-262 | for a non-empty fleet with a window bound: the least count that is the fleet size, the absolute bound if set or the percentage of the fleet if set, stated without rounding; between 1 and the fleet size |
| `BreakerThresholds.ScaledIsLeast` | fault-quarantine/pkg/breaker/breaker.go:220-262 | a count reaches the rounded-up share iff 100 times it is at least the percentage times the fleet |
| `BreakerThresholds.ReportedBound` | fault-quarantine/pkg/breaker/breaker.go:220-262 | the bound reported with the threshold is the one that gives its number |
| `BreakerThresholds.NoWindowBound` | fault-quarantine/pkg/breaker/breaker.go:220-262 | the rate check is skipped iff neither window bound is set |
| `BreakerThresholds.TripThresholdMonotone` | fault-quarantine/pkg/breaker/breaker.go:212-262 | a larger fleet never lowers the threshold, and an absolute bound caps it for every fleet |
| `BreakerThresholds.StandingThresholdIsLeast` | fault-quarantine/pkg/breaker/breaker.go:264-276 | the least count that is a standing bound: the same minimum, except that an absolute bound alone is not clamped to the fleet |
| `BreakerThresholds.NoStandingBound` | fault-quarantine/pkg/breaker/breaker.go:264-276 | the standing check is skipped iff neither standing bound is set |
| `BreakerWindow.SlideReachesNow` | fault-quarantine/pkg/breaker/breaker.go:94-144 | after a slide the current bucket holds the present moment, and no node has been added |
| `BreakerWindow.PollKeepsCount` | fault-quarantine/pkg/breaker/breaker.go:94-144 | polls in between never change which nodes are counted at a time |
| `BreakerWindow.PollIsInvisible` | fault-quarantine/pkg/breaker/breaker.go:94-144 | a poll leaves no trace in a later state iff the ring starts on a whole second or the poll does not delay a realignment |
| `BreakerWindow.PollCanChangeLaterCount` | fault-quarantine/pkg/breaker/breaker.go:100-116 | a poll at 1.6 s decides whether a node cordoned at 2.9 s counts at 4.2 s |
| `BreakerWindow.ShiftKeepsConsistent` | fault-quarantine/pkg/breaker/breaker.go:118-143 | shifting one bucket keeps counts equal to set sizes and the two maps inverse to each other, and drops exactly the expired nodes |
| `BreakerWindow.InsertKeepsConsistent` | fault-quarantine/pkg/breaker/breaker.go:171-174 | entering a bucket keeps the three structures consistent |
| `BreakerWindow.RemoveKeepsConsistent` | fault-quarantine/pkg/breaker/breaker.go:158-166 | leaving the old bucket keeps the three structures consistent |
| `BreakerWindow.SlidingWindow.constructor` | fault-quarantine/pkg/breaker/breaker.go:55-69 | an empty consistent window |
| `BreakerWindow.SlidingWindow.SlideWindow` | fault-quarantine/pkg/breaker/breaker.go:94-144 | the three structures, shifted or cleared in place, stay consistent and refine the shifted node-to-slot map |
| `BreakerWindow.SlidingWindow.AddCordonEvent` | fault-quarantine/pkg/breaker/breaker.go:149-175 | a cordon, first or repeated, leaves the node in the current bucket only |
| `BreakerWindow.SlidingWindow.SumBuckets` | fault-quarantine/pkg/breaker/breaker.go:180-188 | the bucket sum is the number of distinct tracked nodes |
| `Breaker.SlidingWindowBreaker.constructor` | fault-quarantine/pkg/breaker/breaker.go:44-89 | one bucket per started second and the saved state |
| `Breaker.SlidingWindowBreaker.NewBreaker` | fault-quarantine/pkg/breaker/breaker.go:44-89 | refused iff a bound is negative, none is set, the window has no length or the ConfigMap cannot be had; otherwise an empty window with no second without its bucket, tripped iff that was the saved state |
| `Breaker.SlidingWindowBreaker.IsTripped` | fault-quarantine/pkg/breaker/breaker.go:307-393 | the evaluation against both thresholds, with no counted GPU nodes, failed reads and a failed write included |
| `Breaker.PollMeans` | fault-quarantine/pkg/breaker/breaker.go:307-393 | on the counts and bounds alone: a poll answers true iff tripped already, or the recent cordons reach a window bound of a non-empty fleet, or, asked only otherwise, the quarantined nodes reach a standing bound; and exactly when it reports an error |
| `Breaker.SlidingWindowBreaker.ForceState` | fault-quarantine/pkg/breaker/breaker.go:398-415 | changes the state whether or not it can be written back, reports a failed write, and leaves the window alone |
| `Breaker.SlidingWindowBreaker.AddCordonEvent` | fault-quarantine/pkg/breaker/breaker.go:149-175 | changes the window and leaves the state alone |
| `Breaker.WindowTracksTime` | fault-quarantine/pkg/breaker/breaker.go:94-175 | after any run, a node whose latest cordon is at most n-1 seconds old is counted, and a counted node's latest cordon is less than n seconds old |
| `Breaker.RunKeepsTime` | fault-quarantine/pkg/breaker/breaker.go:94-175 | in every run the ring records the log of cordons: a tracked node's bucket contains its latest cordon, an untracked one's is more than n-1 seconds old |
| `Breaker.RunKeepsRate` | fault-quarantine/pkg/breaker/breaker.go:307-415 | in every disciplined run, with a fleet that may change, the tracked nodes stay below the limit while cordoning is permitted |
| `Breaker.CordonRateIsBounded` | fault-quarantine/pkg/breaker/breaker.go:301-393 | if each cordon follows a poll that answered false, no span of n-1 seconds in any run, forced states and a changing fleet included, sees more distinct nodes cordoned than a limit that no polled fleet's threshold exceeds |
| `Breaker.MaxNodesBoundsEveryFleet` | fault-quarantine/pkg/breaker/breaker.go:212-243 | with an absolute bound set, that bound limits the rate of every run whatever fleets its polls find |
| `Breaker.LargestFleetBoundsTheRate` | fault-quarantine/pkg/breaker/breaker.go:245-262 | with fleets of at most a given size, the threshold for that size limits the rate |
| `SequenceTracker.SequenceTracker.MarkCompleted` | event-exporter/pkg/exporter/sequence_tracker.go:50-68 | advances to the least number not completed, drops what it passed and returns the token of the last number passed |
| `SequenceTracker.PendingAndPassedAddUp` | event-exporter/pkg/exporter/sequence_tracker.go:50-74 | after distinct completions in any order, what pending reports and the numbers advanced over add up to the completions |
| `SequenceTracker.MarkKeepsLeastMissing` | event-exporter/pkg/exporter/sequence_tracker.go:50-68 | nextSeq stays the least number not completed and the buffer holds exactly what completed above it |
| `SequenceTracker.TrackerAtLeastMissing` | event-exporter/pkg/exporter/sequence_tracker.go:18-68 | the same after any distinct completions in any order |
| `ExportPool.CollectTracker` | event-exporter/pkg/exporter/worker_pool.go:153-162 | collecting a success passes exactly the events handled without a gap |
| `ExportPool.StepKeepsInv` | event-exporter/pkg/exporter/worker_pool.go:98-179 | every step of consumer, worker, token writer or caller keeps the protocol invariant: each event is in one place with its own token |
| `ExportPool.RunKeepsInv` | event-exporter/pkg/exporter/worker_pool.go:98-179 | the invariant holds in every state of every run |
| `ExportPool.TokenNeverPassesUnhandled` | event-exporter/pkg/exporter/worker_pool.go:148-179 | in every state of every run marked numbers strictly increase, the stored token is the last marked event's, and every event up to it was published or deliberately skipped |
| `ExportPool.CleanCloseDrains` | event-exporter/pkg/exporter/exporter.go:377-442 | a nil return has everything handled, the tracker empty and the token at the last event iff no worker dropped an item |
| `ExportClose.CancelledCloseIff` | event-exporter/pkg/exporter/worker_pool.go:132-179 | from every state of the invariant with the source closed and the context cancelled: all continuations that return nil are drained iff a failure is under way, or nothing was dropped yet and no event is queued or received but not begun |
| `ExportClose.LosingReturnsNil` | event-exporter/pkg/exporter/worker_pool.go:132-179 | from every other such state a schedule of finitely many steps returns nil with an event undone |
| `ExportClose.NothingBegunAfterFailure` | event-exporter/pkg/exporter/worker_pool.go:148-179 | in every run, once a fatal result was collected or a mark has failed no worker begins another item |
| `ExportClose.WriterFailsIff` | event-exporter/pkg/exporter/worker_pool.go:148-179 | the token writer fails by a fatal result or a failed mark and by nothing else |
| `ExportClose.RunKeepsChannels` | event-exporter/pkg/exporter/worker_pool.go:77-96 | in every run each channel holds at most two items for each worker |
| `ExportPool.DropsNeedCancellation` | event-exporter/pkg/exporter/worker_pool.go:132-146 | items are dropped only in runs whose context was cancelled |
| `ExportPool.UncancelledCloseDrains` | event-exporter/pkg/exporter/exporter.go:377-442 | a nil return with the context not cancelled has everything drained |
| `ExportPool.CancelledCloseLosesProgress` | event-exporter/pkg/exporter/worker_pool.go:132-146 | a run that returns nil although an item was dropped |
| `MergePatch.ApplyIsIdempotent` | commons/pkg/kubeclient/nodepatch.go:184-193 | applying a merge patch twice is applying it once |
| `MergePatch.DiffThenApply` | commons/pkg/kubeclient/nodepatch.go:206-255 | the patch from one document to another takes the first to the second |
| `MergePatch.PatchedField` | commons/pkg/kubeclient/nodepatch.go:206-255 | what patching any live document does to one field: kept where both sides agree, removed or merged otherwise |
| `NodePatch.EntriesPatched` | commons/pkg/kubeclient/nodepatch.go:206-303 | on any live node a label or annotation changes iff original and modified differ on it, and then to what modified says; other entries stay, also when modified emptied its map |
| `NodePatch.OtherFieldsUntouched` | commons/pkg/kubeclient/nodepatch.go:210-212 | no field outside the supported ones changes, at the top, in metadata or in spec |
| `NodePatch.SpecPatched` | commons/pkg/kubeclient/nodepatch.go:214-226 | taints and cordon state are replaced whole if changed and kept otherwise |
| `NodePatch.SpecReadsBack` | commons/pkg/kubeclient/nodepatch.go:257-316 | taints and cordon state can be read back from the document built of them |
| `NodePatch.PatchedSpecReads` | commons/pkg/kubeclient/nodepatch.go:206-303 | on any live node a changed taint list and a changed cordon state read back as the caller's; the unchanged stay as they are |
| `NodePatch.VersionIsPinned` | commons/pkg/kubeclient/nodepatch.go:220-226 | the patch carries the original's version iff taints or cordon state changed |
| `NodePatch.NilPatchIff` | commons/pkg/kubeclient/nodepatch.go:206-255 | the patch is nil iff labels, annotations, taints and cordon state agree and no version has to be pinned |
| `NodePatch.EmptyTaintListStillWrites` | commons/pkg/kubeclient/nodepatch.go:206-226 | nil against empty taints yields a patch although the documents agree |
| `NodePatcher.AcceptedSawTheSpec` | commons/pkg/kubeclient/nodepatch.go:70-109 | an accepted write that changes the spec was computed from the version it replaces; any other, be it from a projection with an empty spec, keeps taints and cordon state |
| `NodePatcher.TaintsNeverOverwritten` | commons/pkg/kubeclient/nodepatch.go:206-226 | in every run of interleaved patchers, those that see no spec and do not change it included, each version keeps the taint list or replaces the very list its writer had read |
| `NodePatcher.Patcher.PickVersion` | commons/pkg/kubeclient/nodepatch.go:117-150 | the cached node unless a write is pending that the cache has not caught up with; the pending entry goes when it has; other nodes' entries stay |
| `NodePatcher.Patcher.Patch` | commons/pkg/kubeclient/nodepatch.go:48-115 | the outcome is that of the attempt at which the call from the picked node ends; the written version is pending iff something was written; other nodes are untouched |
| `NodePatcher.ChangedMeans` | commons/pkg/kubeclient/nodepatch.go:68-114 | Changed(v) iff an attempt was answered with version v, its patch computed from the node last re-read and every earlier attempt sent in vain; Unchanged iff there was nothing to write for the node last re-read |
| `NodePatcher.FailedMeans` | commons/pkg/kubeclient/nodepatch.go:68-204 | on the answers alone: Failed iff, all requests before having been lost or met by a conflict that can go on, an attempt was refused or its re-read failed for good, or all ten are used up |
| `NodePatcher.LostRequestsAreRetried` | commons/pkg/kubeclient/nodepatch.go:68-204 | a call whose first k < 10 requests are lost and whose next is answered with a version has written that version |
| `NodePatcher.ConflictIsRecomputed` | commons/pkg/kubeclient/nodepatch.go:68-109 | after a conflict the patch is computed anew from the node read again |
| `NodePatcher.ReadNeededIff` | commons/pkg/kubeclient/nodepatch.go:117-150 | the API server is asked iff there is no cached node or a pending write is not the cached version; the pending entry goes iff it is |
| `NodePatcher.PatchCallIsRun` | commons/pkg/kubeclient/nodepatch.go:48-150 | every call is a run of protocol steps, beginning, lost or conflicting attempts among foreign writes, and one end according to the outcome, and leaves the same pending version |
| `NodePatcher.PatchReadsItsOwnWrites` | commons/pkg/kubeclient/nodepatch.go:48-150 | every attempt of a call mutates a node at least as new as the last reported write |
| `NodePatcher.RunAttempts` | commons/pkg/kubeclient/nodepatch.go:68-109 | the retry loop ends at the one attempt that has nothing to write, gets a final answer or is past the tenth, all before it having been sent and retried |
| `NodePatcher.StepSeesOwnWrites` | commons/pkg/kubeclient/nodepatch.go:48-150 | every step keeps: without a pending version the cache has the last reported write, with one the pending version is that write |
| `NodePatcher.ReadsItsOwnWrites` | commons/pkg/kubeclient/nodepatch.go:37-150 | in every run each mutation starts from a node at least as new as the last write this patcher reported |
| `NodeLock.StepKeepsInv` | commons/pkg/distributedlock/nodelock.go:107-255 | every API call keeps: a holder owns its lease, and whoever is about to delete a lease owns it |
| `NodeLock.RunKeepsInv` | commons/pkg/distributedlock/nodelock.go:107-255 | the same in every state of every run from any such state |
| `NodeLock.AtMostOneHolder` | commons/pkg/distributedlock/nodelock.go:107-161 | in every interleaving at most one existing object holds a node's lock |
| `NodeLock.OnlyHolderReleases` | commons/pkg/distributedlock/nodelock.go:177-221 | no step but the holder's own unlock or deletion takes its lock or its lease away |
| `NodeLock.LocksDoNotInteract` | commons/pkg/distributedlock/nodelock.go:223-255 | with lease names that never coincide, a step on one slot changes neither lease nor holders of another |
| `NodeLock.CollectionIff` | commons/pkg/distributedlock/nodelock.go:177-221 | from every state of the invariant: after a lease is garbage-collected exclusion holds in every continuation iff its owner was not about to delete it |
| `NodeLock.UnguardedCollectionReached` | commons/pkg/distributedlock/nodelock.go:190-211 | a state in which the owner is about to delete its lease and the lease can be collected is reached |
| `NodeLock.LockClient.LockNode` | commons/pkg/distributedlock/nodelock.go:107-161 | the two API calls in a row; true iff the lease is the object's own afterwards |
| `NodeLock.LockClient.CheckUnlock` | commons/pkg/distributedlock/nodelock.go:190-247 | the lease is not the object's own afterwards; retry asked for iff the lease has an unexpected number of owners |

## Left out

- Logging, metrics, tracing, flag parsing and HTTP servers: no property beyond I/O.
- `IsPermanentError`, `allPermanentErrors` and the per-event node cache of cold start: a short recursion and a memo, only easy members.
- The default of the lower time bound in `Handle`, failed store queries and stored records without a usable document id: the window is a parameter, and a failed query or id is an error before any effect.
- The `fieldTree` of the object monitor and the derived map of field paths are modelled as values; the source updates their nodes in place. The order in which maps are ranged over does not matter to either.
- Which kinds are cached for named namespaces only is a parameter of `LookupTrees`; the collection of watch scopes is not part of this model.
- CEL's optional field selection syntax, type checking, container name resolution and unsigned and floating-point map keys: the evaluator has boolean, integer and string keys.
- When the informer has caught up and when a cached read fails in `getForLookup`: in the served world any lookup may be answered from the API instead.
- Floating-point rounding of percentages, and the difference between Go's monotonic and wall clock when a time is truncated.
- The ConfigMap that stores breaker state and cursor mode, and retries of the fleet count: their results are parameters.
- Locks inside the breaker: its methods are atomic here, which the rate theorem's single caller makes sufficient.
- Progress of the exporter: workers that block forever on a full result channel after the token writer returned are reachable states of the model, and nothing is claimed about their end. Publishing retries are one step.
- Backoff timing, the classification of retryable API errors, JSON encoding and strategic-merge directives of the node patch. The time at which a taint was added.
- NodePatcher.Patcher.Patch: the retries of its first read are one optional result.
- Stale lease reads through a client cache, `GetHolder` and the resolution of the owner's kind in the node lock.
- Datastore and query builder, change streams, informers, the drain, gRPC authentication, health publishing and state manager packages.
