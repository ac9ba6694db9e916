# Northwatch, verified models

Northwatch shows and edits the databases of an OVN deployment. This project models its
stateful and algorithmic cores in Dafny and proves what they promise. `dafny verify
dfyconfig.toml` checks everything.

Where the source updates things in place, so does the model: a class with the same fields
and one method per operation, each proved equal to a specification function or relation.
The properties are then proved about those functions. Concurrent parts are state machines
over their lock acquisitions: any number of calls advance one atomic step at a time, in any
interleaving, and an invariant is kept by every step.

| files | subject |
|---|---|
| `SessionProtocol`, `SessionInvariant`, `SessionSteps`, `SessionRuns`, `SessionGuarantees`, `SessionLoads` | snapshot sessions: concurrent loads and unloads, deferred drains, the level-triggered suspend and resume of the live monitors |
| `SessionManager`, `LiveMonitors`, `ClusterRegistry` | the same as objects: the manager's critical sections, the live client pair, the cluster registry |
| `ImpactGraph`, `ImpactResolver`, `ImpactAnalysis`, `ImpactSummary`, `ImpactTables` | the impact tree of a row: a depth- and size-bounded walk with one shared visited set |
| `Ovsdb`, `WritePlans`, `WriteTransactions`, `WriteGuarantees`, `WriteSafety` | preview and apply as optimistic concurrency: wait operations (section 5.2.6 of RFC 7047) in front of the mutations of an atomic transaction (section 4.1.3 of RFC 7047) |
| `WriteEngine`, `PlanCache`, `PlanProtocol`, `PlanGuarantees` | the life of a plan: cache with expiry, tokens, the engine mutex, the audit trail |
| `Rollback`, `HaDrain`, `HaRoundTrip`, `HaFailover`, `RateLimiter`, `Hydrate`, `HydrateRoundTrip`, `HydrateTyping` | rollback to a snapshot, drain, restore and failover of HA chassis, the token bucket, map-to-struct conversion |
| `AclMatch`, `AclAudit`, `AclVerdict`, `AclFindings` | the ACL audit and what its findings mean for packets |
| `FlowDiffStore`, `PropagationTracker`, `PropagationRuns`, `AlertEngine`, `AlertChecks`, `AlertRuns` | the flow-change ring, the propagation tracker, the alert engine |
| `HistoryDiff`, `HistoryPatch`, `SnapshotPruning`, `SnapshotLoad`, `SnapshotBuild` | snapshot diffs read as patches, and the pruning of dangling references |
| `Wrappers`, `Decimal`, `Ordering` | result types, decimal printing and parsing, string order and sorting |

## What turned out not to hold

Each of these is a lemma with a failing run or input, or the failing side of an
if-and-only-if; the exact condition under which the promise does hold is named with it.

- A refused monitor cancel leaves live suspended with nothing loaded (`LiveCanStayDark`):
  `SuspendMonitors` suspends although it reports an error, so the manager's flag stays unset
  and the last unload sees nothing to do. Condition: `LiveMatchesLoaded`.
- A resume that monitors the northbound database again and then fails on the southbound one
  forgets the new cookies, so the northbound server keeps streaming to a suspended client
  (`HalfResumeKeepsStreaming`). Condition: `SuspendedIsQuiet`.
- Such a failed resume also leaves its rows in the cache. Condition: `CachesAfterResume`.
- A load is turned away below the cap while another one has committed and not returned: the
  id counts as loaded and as loading (`SecondLoadTurnedAway`). Condition: `TooManyIsPremature`.
- A committed transaction whose reply is lost is audited as an error
  (`LostReplyIsMisreported`). Condition: `RecordIsTruthful`.
- Cancelling a plan can report success although an apply already found it and commits it:
  the plan cache and the engine have different mutexes (`CancelledPlanCanStillCommit`).
  Condition: `CancelIsBinding`.
- A rollback compares sets as ordered JSON lists, the server compares them as sets: a recorded
  set whose elements come in another order is proposed again and again
  (`ReorderedSetKeepsComing`). Condition: `SecondRollbackIsEmpty`, `DiffersAfterRollback`.
- Failing over to a member that already has the leader's priority swaps equal priorities and
  changes nothing (`TiedFailoverChangesNothing`). Condition: `SwapMovesTheLead`.
- The audit calls an ACL shadowed also by one of equal priority, where dropping it changes what
  happens to packets (`TiedShadowDecides`). Condition: `DroppingTiedKeepsActions`, and
  `DroppingKeepsVerdicts` for which ACLs decide. A finding of one switch says nothing about
  another that lists the same ACL (`FlaggedElsewhereStillDecides`); findings hold for the
  bucket they were made in (`RemovingFlaggedKeepsActions`).
- A conjunct named twice in a match can hide a conflict (`RepeatedConjunctHidesConflict`).
  Condition: `CompareIs`, and `ConflictIs` for matches without repetition.
- Restore gives back only positive priorities: a member that was at zero comes back at one
  or at a stale marker's value. Condition: `EvacuateThenRestore`.
- Integers beyond 2^53 that a float64 cannot hold change on the way through JSON
  (`SmallIntegersAreExact` has the first one). Condition: `JsonTripIsExact`.
- A filter of a snapshot diff without a table after its first dot, or nothing before it,
  compares more than one table. Condition: `FilterNamesOneTable`.
- An empty required reference survives the pruning of a dump. Condition:
  `PrunedHasNoDanglingRefs`. `BuildFromRows` on its own keeps references into tables it skips,
  since it collects the present UUIDs first (`SkippedTableLeavesDangling`); `loadDump` prunes
  them. Condition: `BuiltRefsResolve`.
- A chassis whose first report at a generation carries no timestamp is never recorded for it
  (`LateTimestampIsLost`). Condition: `ReportIsRecorded`.
- A resolved alert that is reported again is not moved back to firing
  (`RecurringAlertStaysDark`). Condition: `ReportRevivesNothing`, and over runs `DarkForTtl`.

## Reading the models

- Histories (`History` in the session protocol, `issued`, `taken`, `sent`, `recorded` and
  `lost` in the plan protocol, `residency`, `pages` and `clear` in the alert runs, the ghost
  `history` of the flow store) record what happened so that properties can be stated. No
  step looks at them, except that a fresh plan id is one not issued before.
- Choices of the environment are arguments: whether a build succeeds, what servers answer,
  whether a transaction commits and its reply arrives, the clock, the UUIDs of new rows. Every
  theorem holds for all of them.
- A residency of an alert is the time from its insertion into the active map to its
  deletion. Fingerprints are opaque keys.
- A packet is a truth value for each atom of a match expression, the constant 1 being true.
- Column values in the write engine are JSON values with integers kept apart from the
  float64 form they take in Go. A set is the list of its elements in the order the client
  holds them: the write engine and the snapshot diff compare lists, order included; the server
  compares sets (`Ovsdb.SameValue`). The client's cache mirrors the database up to that order,
  and a set that changes may be read back in any order (`Ovsdb.ReadBack`).

## Model

| member | source | states |
|---|---|---|
| SessionGuarantees.LiveMatchesLoaded | internal/snapshotsession/manager.go:315-352 | in every reachable state where no call is inside `reconcileLive` and shutdown has not begun: live is suspended exactly when a snapshot is loaded if and only if a snapshot is loaded or the last monitor call did not report an error |
| SessionGuarantees.MismatchIsOwed | internal/snapshotsession/manager.go:319-328 | at any moment of any interleaving, if the flag differs from "some snapshot is loaded" and no monitor call failed, a call that has not re-read the count still has to, or the needed monitor call is in flight |
| SessionGuarantees.FailureNeedsRefusal | internal/ovsdb/client.go:433-488 | a run whose monitor calls are all answered never leaves the failure mark set: convergence needs no more than working RPCs |
| SessionGuarantees.LiveCanStayDark | internal/ovsdb/client.go:458-463 | a run in which one cancel is refused ends with every call returned, nothing loaded, and live still suspended |
| SessionGuarantees.EachSessionInOnePlace | internal/snapshotsession/manager.go:240-306 | a committed session is loaded, or pending drain, or closed: exactly one of the three, and closed at most once |
| SessionGuarantees.RoutedSessionIsOpen | internal/snapshotsession/manager.go:270-287 | a session the proxy or registry still serves is committed, loaded and not closed |
| SessionGuarantees.NothingLeaks | internal/snapshotsession/manager.go:187-191 | when every call and timer is done nothing is in flight and each session ever built is loaded or was closed exactly once |
| SessionGuarantees.RoutedExactlyLoaded | internal/snapshotsession/manager.go:240-251 | registry and proxy agree and route exactly the live names and the cluster names of the loaded ids, each to its own session |
| SessionGuarantees.DefaultStaysLive | internal/cluster/registry.go:72-106 | the live clusters stay at the head of the order, so the default cluster never changes |
| SessionGuarantees.OneBuildPerId | internal/snapshotsession/manager.go:173-191 | at most one call works on a snapshot id; the commit-race branch is never entered |
| SessionGuarantees.CapHolds | internal/snapshotsession/manager.go:177-183 | the ids loaded or loading, an id in both maps counted once, never exceed the cap unless the cap itself is changed |
| SessionLoads.LoadAnswers | internal/snapshotsession/manager.go:164-184 | in every reachable state: a load is answered with the session its cluster name is routed to if there is one, with "in progress" exactly if another call is loading the id, with "too many" exactly if it is new and the loaded and loading ids are at the cap, and is let in otherwise |
| SessionLoads.LoadWithRoomSucceeds | internal/snapshotsession/manager.go:164-251 | with room, a load of an id neither loaded nor being loaded ends with the id loaded and its cluster name routed to a session of its own, everything else as before |
| SessionLoads.BuiltLoadCommits | internal/snapshotsession/manager.go:226-251 | a load that was let in and whose build succeeded commits in any interleaving |
| SessionLoads.TooManyIsPremature | internal/snapshotsession/manager.go:177-184 | "too many" is answered below the cap of distinct ids exactly if committed ids whose load has not returned make up the difference |
| SessionLoads.SecondLoadTurnedAway | internal/snapshotsession/manager.go:177-184 | the failing run: with a cap of two and one snapshot just committed, a second one is turned away |
| SessionLoads.UnloadStopsServing | internal/snapshotsession/manager.go:260-292 | an unload of an id that is not loaded changes nothing; any other takes exactly that cluster out of registry and proxy at once and leaves its session pending |
| SessionLoads.DrainCloses | internal/snapshotsession/manager.go:277-305 | the drain timer closes the session of its unload, exactly once, and no loaded one |
| SessionLoads.CapIsLastSet | internal/snapshotsession/manager.go:137-143 | over any run the cap in force is the last positive one that was set |
| SessionGuarantees.NoDeadlock | internal/snapshotsession/manager.go:315-328 | while calls are in progress, one of them can take its next step |
| SessionRuns.StepKeepsInv | internal/snapshotsession/manager.go:164-372 | each atomic step of Load, Unload, reconcileLive, the drain timer and shutdown keeps the seven groups of facts of the invariant |
| SessionRuns.RunKeepsInv | internal/snapshotsession/manager.go:164-372 | so every state of every run from start-up satisfies them |
| SessionProtocol.ClusterNameInjective | internal/snapshotsession/manager.go:157-159 | different snapshot ids have different cluster names, through decimal printing |
| SessionManager.Manager.Reserve | internal/snapshotsession/manager.go:168-184 | the first critical section of Load is the reserve step of the protocol |
| SessionManager.Manager.Commit | internal/snapshotsession/manager.go:227-251 | the commit section of Load is the commit step of the protocol, registry included |
| SessionManager.Manager.Eject | internal/snapshotsession/manager.go:266-292 | the critical section of Unload is the eject step of the protocol, registry included |
| SessionManager.Manager.ReconcileLive | internal/snapshotsession/manager.go:315-352 | run alone, `reconcileLive` makes the one needed transition and sets the flag only if it succeeded |
| SessionManager.Manager.Close | internal/snapshotsession/manager.go:356-372 | Close empties both maps, and its effect is that of its per-entry steps in map order |
| LiveMonitors.OVNDatabases.SuspendMonitors | internal/ovsdb/client.go:426-465 | the loops over the cookies: suspended and purged whatever the answers, success only if no cancel was refused |
| LiveMonitors.SuspendEmptiesCaches | internal/ovsdb/client.go:426-465 | a suspend empties both caches and forgets every cookie whatever is refused, and reports success exactly if no cancel was refused |
| LiveMonitors.CachesAfterResume | internal/ovsdb/client.go:470-489 | after a suspend and any number of failed resumes the next one succeeds exactly if both databases can be monitored; then the caches hold its own rows and those the failed ones had left |
| LiveMonitors.SuspendedIsQuiet | internal/ovsdb/client.go:416-489 | over any run of suspends and resumes from a pair in order: while suspended no monitor of either server is open exactly if no suspend was refused a cancel and no resume failed after it had started a monitor |
| LiveMonitors.HalfResumeKeepsStreaming | internal/ovsdb/client.go:476-483 | the failing input: a resume that monitors NB again and then fails on SB forgets the NB cookies, and that monitor stays open through the next resume |
| ClusterRegistry.Registry.Register | internal/cluster/registry.go:63-70 | map and order after registering, a known name keeping its place |
| ClusterRegistry.Registry.Unregister | internal/cluster/registry.go:75-88 | the splice of the order slice removes exactly the named cluster |
| ClusterRegistry.Registry.Default | internal/cluster/registry.go:99-106 | the first registered cluster, or none |
| ClusterRegistry.Registry.List | internal/cluster/registry.go:109-117 | all clusters in registration order |
| ClusterRegistry.RegisterKeepsWellFormed | internal/cluster/registry.go:63-70 | map and order stay in one-to-one correspondence and the old order is a prefix of the new one |
| ClusterRegistry.UnregisterKeepsWellFormed | internal/cluster/registry.go:75-88 | the correspondence survives, and any prefix of the order that does not hold the name stays put |
| ClusterRegistry.UnregisterUndoesRegister | internal/cluster/registry.go:63-88 | unregistering a name that was free before gives the registry back, order included |
| ImpactAnalysis.Resolve | internal/impact/resolver.go:57-89 | the report of a readable NB row: nothing in it that is not a reference of the database, no NB row twice; not truncated with well-typed references means the forward part is exactly what is reachable, the reverse part the other referring rows, and the southbound part complete; where the depth limit cuts nothing, an analysis with fewer entities than maxEntities (the row, what it and the rows it reaches mention, the referring rows, the southbound rows) is never truncated, and one with more always is; at most maxEntities nodes when NB and SB UUIDs are disjoint; the summary counts the tree; each error exactly in its case |
| ImpactGraph.WalkIsExact | internal/impact/resolver.go:92-132 | a walk that visited everything the rows it visited refer to has in its tree exactly the reachable rows, each once |
| ImpactGraph.PathStaysVisited | internal/impact/resolver.go:103-112 | the argument behind completeness: a path from a visited row through unvisited ones stays inside what the walk visits |
| ImpactGraph.ExtractsReferences | internal/impact/resolver.go:330-350 | the UUIDs read from a column are the elements of a set, or the non-empty value of a present optional or of a scalar |
| ImpactGraph.ForwardAgreesWithReverse | internal/impact/resolver.go:330-369 | the walk forwards and the search backwards read a column alike, except for an empty string outside a set |
| ImpactResolver.RealizingIs | internal/impact/resolver.go:185-231 | the correlated rows are the datapaths whose external id is the root and the ports on them |
| ImpactResolver.Resolver.ResolveForward | internal/impact/resolver.go:92-132 | one depth- and size-bounded walk over the shared visited set: what it covers and closes, and that with a deep enough limit it is truncated only by the number of entities |
| ImpactResolver.Resolver.ResolveReverse | internal/impact/resolver.go:135-169 | one leaf for each row that refers to the root and was not visited, all of them unless truncated |
| ImpactResolver.Resolver.ResolveCorrelation | internal/impact/resolver.go:173-231 | the realizing datapaths with their ports in order, cut off only at the limit on entities |
| ImpactResolver.Resolver.ListReferencing | internal/impact/resolver.go:263-305 | exactly the rows of the table whose column mentions the UUID |
| ImpactResolver.Resolver.SetLimits | internal/impact/resolver.go:47-54 | only positive limits take effect |
| ImpactAnalysis.WalkSummary | internal/impact/resolver.go:397-410 | the counters grow by exactly the nodes of the tree, by table and by reference type, and the depth by its height |
| ImpactSummary.CountsAreRows | internal/impact/resolver.go:397-410 | the count of a table is the number of its rows in the tree; in a complete tree, of its rows that the root reaches or that refer to the root |
| ImpactSummary.KindsArePartSizes | internal/impact/resolver.go:397-410 | the counts by kind are the sizes of the forward, reverse and southbound parts |
| ImpactSummary.DepthIsLongestWay | internal/impact/resolver.go:397-401 | the reported depth is the length of the longest way down from the root |
| ImpactAnalysis.PassesSize | internal/impact/resolver.go:102-113 | the number of nodes never exceeds the number of visited entities, southbound ones included |
| ImpactAnalysis.PassesAll | internal/impact/resolver.go:92-231 | an untruncated analysis with well-typed references visited every entity there is to visit |
| ImpactTables.DefaultDepthNeverCuts | internal/impact/refs.go:12-52 | the reference tables have no cycle and no chain longer than three, so a depth limit of four or more, such as the default of five, fits every walk; every reference is strong or weak |
| ImpactTables.OnlySizeTruncates | internal/impact/refs.go:12-52 | so over the NB schema a report with the default depth is complete if there are fewer entities than the limit, and truncated if there are more |
| WriteTransactions.TransactOps | internal/write/engine.go:637-663 | for any database at the time of the transaction: success exactly when everything could be built, every target still held what the preview saw, the server ran and committed the operations and its reply arrived; stale exactly when a target had changed; the database is the old one with the plan applied, or the old one |
| WriteTransactions.BuildWaitOps | internal/write/engine.go:669-726 | the guards hold of a database exactly when each update finds its changed columns, and each delete its row, as the preview saw them |
| WriteTransactions.BuildOps | internal/write/engine.go:473-526 | one operation per plan operation, in order; an error exactly when one cannot be encoded |
| WriteTransactions.CheckResults | internal/write/engine.go:659-661 | a reply counts as success exactly if no result is missing and none is an error |
| WriteTransactions.GuardedRun | internal/write/engine.go:647-658 | guards in front of the mutations look at the database itself, and an error among the first results means exactly that a guard failed |
| WriteGuarantees.GuardsDetectForeignWrites | internal/write/engine.go:665-726 | the guards pass exactly when foreign writers left every updated column and every deleted row as previewed, whatever else they did |
| WriteGuarantees.ConcernedRow | internal/write/engine.go:482-519 | a row that one operation of the plan concerns ends up as that operation says: created with defaults, the changed columns replaced, or gone |
| WriteGuarantees.OtherRowsUntouched | internal/write/engine.go:473-526 | rows no operation concerns are untouched |
| WriteGuarantees.PreviewIsGuardable | internal/write/engine.go:684-726 | the guards of an accepted previewed plan can always be built |
| WriteGuarantees.PlanKeepsTyping | internal/write/validate.go:24-111 | applying an accepted plan leaves every row well typed, its UUID included |
| WriteSafety.QuietPlanCommits | internal/write/engine.go:637-663 | if nobody wrote since the preview, an accepted plan commits exactly if its values fit their columns and the server commits it |
| WriteSafety.AcceptedPlanRespects | internal/write/validate.go:24-111 | an accepted plan, applied, changes rows of delete-only tables only by removing them, never changes a read-only column of a row that stays, and leaves the other database alone |
| WriteSafety.CreatedRow | internal/write/engine.go:482-490 | a created row carries its new UUID, the given values, and in every other column the default of its type |
| WritePlans.CoerceIs | internal/write/hydrate.go:81-147 | a field takes a value of the type of its column as it is, null as the default, and nothing else |
| WritePlans.ComputeDiffs | internal/write/engine.go:355-417 | one diff per operation with the row found, the row left and each changed field once in order; an error exactly when an updated or deleted row is not in the cache, or is southbound without a southbound client |
| WritePlans.ValidateOps | internal/write/engine.go:587-607 | true exactly of plans on one database whose operations have the form of their kind: known and writable fields, no creation or update in a delete-only table, a UUID exactly where one belongs |
| Ovsdb.RunWaits | internal/write/engine.go:665-726 | a run of waits changes nothing and succeeds exactly if all hold of the database it starts from |
| Ovsdb.RunTargetsOnce | internal/write/engine.go:647-651 | a row one operation of a transaction targets ends up as if that operation were alone |
| Ovsdb.FailureShows | internal/write/engine.go:652-661 | a failed operation among the first n shows as an error among the first n results, and only then |
| Ovsdb.SameValueIs | internal/write/engine.go:684-721 | to the server two sets are the same exactly if they have the same elements, other values only if they are equal |
| WriteEngine.Engine.Preview | internal/write/engine.go:113-147 | succeeds exactly if the rate limit, validation, the targets and the snapshot allow it; the diffs of the stored plan describe the cache, and a rejected preview leaves the plan cache alone |
| WriteEngine.Engine.Apply | internal/write/engine.go:151-195 | which of the three early errors occurs, and that they touch neither database nor audit log; once past the rate limit the plan is gone from the cache whatever happens |
| WriteEngine.Engine.ApplyTaken | internal/write/engine.go:173-195 | the outcome of a taken plan: which failures are audited and with which snapshot, and the database as the transaction left it |
| WriteEngine.Engine.AppliedIsSent | internal/write/engine.go:420-432 | from the databases of the tables of all operations: a southbound plan transacts with the southbound server, any other with the northbound one, the other server untouched; no client exactly for a southbound plan without a southbound server |
| WriteEngine.Engine.CancelPlan | internal/write/engine.go:342-350 | true exactly if an unexpired plan was cached; gone in any case |
| Rollback.Propose | internal/write/engine.go:231-334 | one update for each recorded row of a writable table that still exists and differs; the missing rows are reported |
| Rollback.ProposalFromRows | internal/write/engine.go:251-304 | from the recorded rows themselves: of several records of a row the last counts; each update writes exactly its recorded fields that differ from the cache, a set in another order being one; the missing rows are the recorded ones of writable tables that are gone |
| Rollback.RollbackRestores | internal/write/engine.go:280-302 | after an accepted rollback each recorded field that differed has its recorded value as the column holds it, every other field is as the server had it |
| Rollback.RollbackTouchesNothingElse | internal/write/engine.go:263-304 | rows that are not restored are left exactly as they were |
| Rollback.DiffersAfterRollback | internal/write/engine.go:283-334 | a field still differs after an accepted rollback exactly if it did before and its column cannot hold the recorded value as it is, or is a set that is read back in another order |
| Rollback.SecondRollbackIsEmpty | internal/write/engine.go:283-334 | after an accepted rollback to recorded database values the next one proposes no change exactly if each restored set is read back in the recorded order |
| Rollback.ReorderedSetIsNeverRestored | internal/write/engine.go:287-334 | a recorded set whose elements the row holds in another order is proposed, changes nothing at the server, and differs as before |
| Rollback.ReorderedSetKeepsComing | internal/write/engine.go:287-334 | the failing input: recorded as a, b and live as b, a, the same update is proposed again whatever is read back |
| Rollback.QuietRollbackCommits | internal/write/engine.go:315-321 | with no write in between, an accepted rollback commits unless the server refuses it |
| PlanGuarantees.EachPlanSentOnce | internal/write/engine.go:156-169 | in every state of any interleaving: no plan reaches the database twice, and one that does was issued, presented with its own token and no other plan's, and unexpired when the apply took it |
| PlanGuarantees.EveryAttemptIsRecorded | internal/write/engine.go:551-573 | while no apply runs, every transaction sent has exactly one audit record unless writing it failed, and it says success exactly if the transaction committed and its reply arrived |
| PlanGuarantees.RecordIsTruthful | internal/write/engine.go:183-194 | the record is right about the commit exactly if no committed reply was lost |
| PlanGuarantees.SuccessMeansCommitted | internal/write/engine.go:192-194 | a success record stands for a committed transaction |
| PlanGuarantees.NothingIsLostUnlessRefused | internal/write/engine.go:551-573 | a record is lost only if the audit store refused one |
| PlanGuarantees.TakenPlanIsGone | internal/write/engine.go:159-164 | a plan an apply took out of the cache is never found again, whatever follows |
| PlanGuarantees.CancelIsBinding | internal/write/engine.go:342-350 | a cancel that is about to report success can be followed by another transaction for its plan exactly if an apply has already found the plan with its own token; otherwise the transactions for the plan stay what they are in every continuation |
| PlanGuarantees.LostReplyIsMisreported | internal/write/engine.go:648-651 | a run that commits and is recorded as an error, because the reply was lost |
| PlanGuarantees.CancelledPlanCanStillCommit | internal/write/engine.go:342-350 | a run in which a cancel reports success for a plan that an apply already found, and the plan commits |
| PlanProtocol.TokenPinsPlan | internal/write/engine.go:576-581 | the message under a token determines plan and snapshot, since plan ids have a fixed length |
| PlanProtocol.NextKeeps | internal/write/engine.go:113-195 | every step of preview, apply, cancel, lookup and cleanup keeps the protocol invariant |
| PlanCache.FindsLastStored | internal/write/plan_cache.go:29-74 | over any history of stores, lookups, deletes and sweeps: a lookup finds the plan stored last under its id exactly until its time to live has passed or it is deleted |
| PlanCache.PlanCache.Cleanup | internal/write/plan_cache.go:65-74 | the sweep removes exactly the expired plans |
| PlanCache.CleanupIsInvisible | internal/write/plan_cache.go:42-74 | neither a sweep nor a lookup changes what later lookups can find |
| HaRoundTrip.EvacuateThenRestore | internal/write/failover.go:103-185 | every member of the chassis gets its external ids back without the marker, and its priority back exactly if that was positive; all other rows and members are untouched |
| HaRoundTrip.EvacuatedIsDrained | internal/write/failover.go:103-133 | after an evacuation every listed member of the chassis has priority zero, those that had another one carry it in the marker, and nothing else changed |
| HaRoundTrip.RestoredIsBack | internal/write/failover.go:144-177 | a restore gives exactly the listed members of the chassis at priority zero another one, the positive number of their marker or one, and removes the marker |
| HaRoundTrip.SecondEvacuationIsEmpty | internal/write/failover.go:113-133 | after an evacuation a second one proposes nothing, so no marker is overwritten |
| HaRoundTrip.ProposalApplies | internal/write/failover.go:96-185 | a proposed drain or restore can always be carried out, also where a row is listed in several groups |
| HaRoundTrip.PlanEffect | internal/write/failover.go:111-177 | what a drain or restore does to each member, and that it does nothing else |
| HaRoundTrip.RestoreReadsMarker | internal/write/failover.go:155-161 | the marker a drain writes reads back as the priority, or as one if that was not positive |
| HaDrain.Propose | internal/write/failover.go:103-185 | one operation for exactly the affected members of all groups, sorted by UUID; none is reported as such |
| HaDrain.CollectGroup | internal/write/failover.go:210-222 | the existing rows a group lists, with their priorities and external ids |
| HaDrain.SortOpsByUuid | internal/write/failover.go:442-446 | sorting keeps the operations and orders them by UUID |
| HaFailover.Failover | internal/write/failover.go:39-94 | the two errors exactly in their cases; otherwise a swap of the target with a current leader, or a bump if the target is that leader |
| HaFailover.SwapMovesTheLead | internal/write/failover.go:398-415 | a proposed swap can always be applied; then the target leads its group and the group uses the same priorities with the same multiplicities; the target leads alone exactly if the old leader did, and nothing changes exactly if both had the same priority |
| HaFailover.TiedFailoverChangesNothing | internal/write/failover.go:50-93 | the failing input: two members at one priority, where the proposed swap writes back what is there |
| HaFailover.BumpChangesPriority | internal/write/failover.go:75-78 | a bump moves a valid priority by one, down only from the maximum, and keeps it valid |
| HaFailover.BumpKeepsTheLead | internal/write/failover.go:68-78 | the bumped leader still leads exactly unless it was at the maximum next to another member there |
| Decimal.ParseItoa | internal/write/failover.go:115-158 | reading a printed integer gives it back |
| Decimal.AtoiIs | internal/write/failover.go:155-161 | the marker is read exactly if it is a numeral with at most one sign whose number fits 64 bits |
| RateLimiter.WindowBound | internal/write/rate_limit.go:26-48 | any window of any run of requests grants fewer than N + 1 + N times its minutes |
| RateLimiter.TokensInRange | internal/write/rate_limit.go:33-42 | tokens stay between 0 and N over every run |
| RateLimiter.GrantsArePaid | internal/write/rate_limit.go:26-48 | every grant is paid by credit left at the start of the window or time passed since |
| RateLimiter.RefusedOnlyWhenSpent | internal/write/rate_limit.go:30-47 | a request is refused exactly if no token is left and none has been earned since the last refill |
| RateLimiter.BurstAfterIdleMinute | internal/write/rate_limit.go:30-47 | after a minute without requests the next N are all granted, however close together |
| RateLimiter.Limiter.Allow | internal/write/rate_limit.go:26-48 | the method makes exactly the step the run lemmas are about |
| HydrateRoundTrip.DirectRoundTrip | internal/write/hydrate.go:9-44 | filling a model from its own map gives it back, nil collections as empty ones |
| HydrateRoundTrip.JsonRoundTrip | internal/write/hydrate.go:81-201 | after JSON the model comes back with its integers rounded to float64, nil collections and pointers included |
| HydrateRoundTrip.JsonTripIsExact | internal/write/hydrate.go:117-127 | the JSON trip gives the model back exactly if a float64 can hold each of its integers |
| HydrateRoundTrip.SmallIntegersAreExact | internal/write/hydrate.go:119-120 | every integer of magnitude at most 2^53 qualifies, 2^53 + 1 does not |
| Hydrate.SetField | internal/write/hydrate.go:81-147 | the recursion over pointers, scalars, slices and maps assigns exactly what the specification says, or fails |
| HydrateTyping.ScalarTakes | internal/write/hydrate.go:81-130 | through any chain of pointers a scalar field takes exactly values of its own kind, an integer field also a float without its fraction |
| HydrateTyping.SliceTakes | internal/write/hydrate.go:150-170 | a slice field takes exactly slices all of whose elements fit, element by element |
| HydrateTyping.MapTakes | internal/write/hydrate.go:173-201 | a map field takes exactly maps all of whose values fit, key by key |
| HydrateTyping.FieldStaysTyped | internal/write/hydrate.go:81-201 | no value leaves a field of a model with a value of another type |
| HydrateTyping.UnsetFieldsAreEmpty | internal/write/hydrate.go:11-44 | a field no key sets is empty, zero, false or nil |
| HydrateTyping.NearestIsNear | internal/write/hydrate.go:117-127 | the float64 an integer becomes is a multiple of the spacing there, at most half a spacing away |
| Hydrate.MapToModel | internal/write/hydrate.go:11-44 | succeeds exactly if every key is a field and every value fits; unset fields are zero |
| Hydrate.ModelToMap | internal/ovsdb/modelmap.go:10-31 | every tagged field under its tag |
| AclVerdict.RemovingFlaggedKeepsVerdicts | internal/debug/acl_audit.go:163-242 | deleting at once any set of ACLs flagged shadow or redundant because of a strictly higher priority in the same bucket leaves, for every packet, the deciding ACLs the same |
| AclVerdict.RemovingFlaggedKeepsActions | internal/debug/acl_audit.go:163-242 | deleting at once any set of ACLs flagged redundant, equal priorities included, or shadowed from a strictly higher priority leaves, for every packet, the actions of the deciding ACLs the same |
| AclVerdict.DroppingKeepsVerdicts | internal/debug/acl_audit.go:163-242 | in any bucket, dropping one ACL leaves the deciding ACLs of every packet exactly if another covers it, conjunct by conjunct, from a strictly higher priority |
| AclVerdict.DroppingTiedKeepsActions | internal/debug/acl_audit.go:169-202 | in any bucket, dropping an ACL flagged because of one of the same priority leaves the actions exactly if some other ACL covers it from a strictly higher priority, or from the same one with the same action; a redundant one always may go |
| AclVerdict.TiedShadowDecides | internal/debug/acl_audit.go:186-202 | the failing input: two ACLs of one priority with the same match and different actions, flagged as a shadow |
| AclVerdict.FlaggedElsewhereStillDecides | internal/debug/acl_audit.go:99-123 | an ACL flagged on one switch may decide alone on another that lists it: findings hold per bucket |
| AclVerdict.KeptAreGenuine | internal/debug/acl_audit.go:136-146 | every finding kept under the cap is what comparing its two ACLs yields, and both are in one bucket, the related one first |
| AclMatch.RelationIsSound | internal/debug/acl_audit.go:254-285 | equal, superset and subset of two conjunctions are true of every packet |
| AclMatch.MatchesByConjuncts | internal/debug/acl_audit.go:287-298 | a conjunction is true of a packet exactly if all conjuncts the parser reads off it are |
| AclMatch.SplitJoin | internal/debug/acl_audit.go:288-295 | splitting at "&&" undoes joining, for operands that do not contain it |
| AclFindings.SplitIs | internal/debug/acl_audit.go:288-288 | splitting loses nothing and no part contains the separator |
| AclFindings.ConjunctsAre | internal/debug/acl_audit.go:287-298 | the conjuncts of a match are the parts between the separators, trimmed, the empty ones left out |
| AclMatch.ParseConjuncts | internal/debug/acl_audit.go:287-298 | the loops of the parser compute the sorted trimmed non-empty parts |
| AclMatch.IsSubsetOfConjuncts | internal/debug/acl_audit.go:300-314 | true exactly if the first list is not empty and contained in the second |
| AclMatch.MatchRelation | internal/debug/acl_audit.go:254-285 | the case decision over trimmed strings, the constant 1 and conjunct lists |
| AclAudit.BuildGroups | internal/debug/acl_audit.go:88-123 | a bucket holds exactly the ACLs its scope lists with its direction and tier |
| AclAudit.Audit | internal/debug/acl_audit.go:72-161 | every bucket once, sorted by priority; the findings are the first 500 of all pairs in that order, truncated exactly when there are that many; the summary counts them |
| AclVerdict.FindingMeans | internal/debug/acl_audit.go:163-242 | a finding other than a conflict names an ACL whose match holds of every packet the flagged one matches, with the same action if it is called redundant |
| AclFindings.CompareIs | internal/debug/acl_audit.go:163-285 | what is reported about two ACLs of a bucket, from their conjuncts: equal matches, a strictly higher broader one with another action, or an overlap; nothing otherwise |
| AclFindings.ConflictIs | internal/debug/acl_audit.go:254-285 | two matches that name no conjunct twice are a conflict exactly if they share a conjunct and each has one the other lacks |
| AclFindings.RepeatedConjunctHidesConflict | internal/debug/acl_audit.go:316-328 | the failing input: x, x, y against x, z is not reported, since the repeated conjunct counts twice |
| AclFindings.FindingsAreExactlyPairs | internal/debug/acl_audit.go:136-146 | every pair of every bucket is compared, and nothing else is reported |
| AclFindings.AuditReportsEveryPair | internal/debug/acl_audit.go:72-161 | below the cap the audit reports what comparing any two ACLs of one scope, direction and tier yields, the higher one first |
| AclFindings.ByUuidIs | internal/debug/acl_audit.go:88-98 | of several ACLs with one UUID the last counts |
| AclFindings.CountOfIs | internal/debug/acl_audit.go:148-158 | the summary holds the number of findings of each kind |
| AclFindings.TrimIs | internal/debug/acl_audit.go:254-256 | trimming drops the space around a match, all of it and nothing else |
| FlowDiffStore.Store.Query | internal/flowdiff/store.go:64-88 | exactly the age, since and datapath filter of the last maxSize changes ever added, in order |
| FlowDiffStore.FilterIs | internal/flowdiff/store.go:69-88 | a query keeps exactly the changes not older than the cutoff, not from before since, and on the datapath, each in its place |
| FlowDiffStore.CutoffIs | internal/flowdiff/store.go:66-68 | the age counts in whole milliseconds, rounded down; without one nothing is too old |
| FlowDiffStore.Store.Add | internal/flowdiff/store.go:47-58 | the ring holds the end of the history; what it lacks of the last maxSize changes is stale |
| FlowDiffStore.Store.PruneAge | internal/flowdiff/store.go:92-101 | pruning from the front drops stale changes only |
| FlowDiffStore.RingPut | internal/flowdiff/store.go:51-56 | writing behind the newest change appends, and at capacity drops the oldest |
| FlowDiffStore.WindowMoves | internal/flowdiff/store.go:47-58 | as the window of the last maxSize changes slides, whatever the ring lacks of it stays stale |
| PropagationRuns.RecordedEventsAreSound | internal/telemetry/propagation_tracker.go:122-225 | over any events: each record has the timestamp of an NB_Global row (or the seed) of its own generation and the clamped non-negative latency; between deletions of a chassis its recorded generations strictly increase |
| PropagationRuns.RunNeverGoesBack | internal/telemetry/propagation_tracker.go:129-244 | the generation never decreases, and without a deletion the last generation of a chassis does not either |
| PropagationRuns.ConfirmationCatchesUp | internal/telemetry/propagation_tracker.go:159-161 | a confirmed NB timestamp marks every chassis already at the generation |
| PropagationRuns.NbGlobalRecords | internal/telemetry/propagation_tracker.go:122-179 | what a change of NB_Global does about each chassis: if generation or timestamp moved and the timestamp is known, each one that is behind and shown at the generation is marked, and recorded once if its own timestamp is known; otherwise none is |
| PropagationRuns.GenerationIsLargest | internal/telemetry/propagation_tracker.go:129-146 | the generation is the largest NB_Global has shown, the seed included |
| PropagationRuns.HostFollows | internal/telemetry/propagation_tracker.go:227-244 | the hostname of a chassis is the one of its last Chassis event |
| PropagationRuns.SeedTakesLast | internal/telemetry/propagation_tracker.go:83-109 | the seed takes for each name the last hostname and generation listed |
| PropagationTracker.PropagationTracker.HandleNbGlobal | internal/telemetry/propagation_tracker.go:122-179 | the handler with its scan is the step of the run lemmas |
| PropagationTracker.PropagationTracker.HandleChassisPrivate | internal/telemetry/propagation_tracker.go:181-225 | the handler is the step of the run lemmas |
| PropagationRuns.ReportIsRecorded | internal/telemetry/propagation_tracker.go:181-225 | a named report at a generation whose timestamp is confirmed marks the chassis, and records exactly one event, of that chassis and generation, exactly if the chassis was behind and its own timestamp is positive; any other report changes nothing |
| PropagationRuns.NoReportIsLost | internal/telemetry/propagation_tracker.go:181-225 | over any run: such a report is in the log, whatever came before and whatever comes after |
| PropagationRuns.ReturningChassisIsRecorded | internal/telemetry/propagation_tracker.go:227-244 | a chassis that was deleted starts over: its next report that counts is recorded again |
| PropagationRuns.LateTimestampIsLost | internal/telemetry/propagation_tracker.go:211-213 | the failing input: a chassis whose first report at a generation carries no timestamp is never recorded for it |
| PropagationTracker.PropagationTracker.HandleChassis | internal/telemetry/propagation_tracker.go:227-244 | the handler is the step of the run lemmas |
| PropagationTracker.PropagationTracker.Seed | internal/telemetry/propagation_tracker.go:83-109 | the seed takes generation and timestamp from NB_Global and the last generations from Chassis_Private |
| AlertRuns.PagedAtMostOnce | internal/alert/engine.go:192-240 | over any interleaving of ticks, silence changes and time: no residency is paged twice by check passes, and one is paged exactly if it was reported while no silence matched |
| AlertRuns.PagedOnFirstClearReport | internal/alert/engine.go:221-238 | a step of any kind pages exactly if it is the first report of its residency that no silence matches |
| AlertRuns.FailedRuleKeepsFiring | internal/alert/engine.go:197-204 | a firing alert whose rule failed in a tick is still firing when that tick ends, whatever happens in between unless another tick ends |
| AlertRuns.TickKeepsExactlyReported | internal/alert/engine.go:185-259 | for any tick and anything in between: an alert firing when the tick ends stays firing exactly if a rule enabled at its begin reported it during the tick or its own rule failed in it |
| AlertRuns.SilencesExpire | internal/alert/engine.go:268-273 | the end of a tick drops exactly the silences that had expired when it began |
| AlertRuns.ControlsTakeEffect | internal/alert/engine.go:82-130 | silences and rule toggles take effect at once, and nothing else touches them but the end of a tick |
| AlertRuns.FiringUntilResolved | internal/alert/engine.go:244-259 | a firing alert stops firing exactly at the end of a tick that neither saw it reported nor saw its rule fail |
| AlertRuns.ResolvedIsFinal | internal/alert/engine.go:213-232 | a resolved alert never fires again within its residency, however often it is reported |
| AlertRuns.ReportRevivesNothing | internal/alert/engine.go:213-232 | after a report its alert is firing exactly if it was firing before or had no entry; a new entry starts now, of an old one at most the page flag changes, and no other entry does |
| AlertRuns.DarkForTtl | internal/alert/engine.go:213-266 | for five minutes after an alert resolved it stays in its residency and does not fire, in every continuation |
| AlertRuns.RecurringAlertStaysDark | internal/alert/engine.go:213-232 | the failing run: an alert that was gone for one tick and is reported again at the next one is not firing |
| AlertRuns.ForgottenAfterTtl | internal/alert/engine.go:261-266 | an entry is deleted exactly at the end of a tick that began more than five minutes after it resolved |
| AlertRuns.ResidencyIsStable | internal/alert/engine.go:213-232 | an entry keeps its residency, and a new entry gets one never used before |
| AlertEngine.Engine.Evaluate | internal/alert/engine.go:173-282 | a tick is its check pass followed by its resolve pass and cleanups; a paused tick does nothing |
| AlertEngine.Engine.CheckAndInsert | internal/alert/engine.go:210-233 | the check-and-insert section inserts once, pages once and never disturbs a stored entry otherwise |
| AlertEngine.Engine.ResolvePass | internal/alert/engine.go:242-273 | resolves and forgets exactly as specified, and pages exactly the resolved alerts no silence matches |
| AlertEngine.Engine.IsSilenced | internal/alert/engine.go:299-308 | true exactly if an unexpired silence matches |
| AlertChecks.SilencedIs | internal/alert/silence.go:17-32 | a page is held back exactly if some silence has not expired, names no other rule and asks for no label value the alert does not have |
| AlertChecks.CheckPassIs | internal/alert/engine.go:192-240 | the check pass, from its checks: which alerts it has seen and which rules failed, what became of each entry, and one page for each alert paged for the first time |
| AlertEngine.Engine.SetRuleEnabled | internal/alert/engine.go:82-103 | toggles known rules, rejects unknown ones |
| AlertEngine.Engine.AddSilence | internal/alert/engine.go:106-118 | stores the silence under its id or one made from the clock, with its creation time or the clock |
| AlertEngine.Engine.RemoveSilence | internal/alert/engine.go:121-130 | removes a known silence, rejects an unknown id |
| HistoryPatch.PatchGivesLater | internal/history/diff.go:61-139 | patching the earlier snapshot with the diff gives the later one, null counting as absent |
| HistoryPatch.ReverseGivesEarlier | internal/history/diff.go:61-139 | patching the later snapshot with the reversed diff gives the earlier one back |
| HistoryPatch.EmptyDiffMeansEqual | internal/history/diff.go:134-136 | nothing is reported exactly if the snapshots hold the same rows, list order included |
| HistoryDiff.NoChangesMeansEqual | internal/history/diff.go:161-171 | a row counts as modified exactly if it differs, a null field counting as present |
| HistoryDiff.DiffSnapshots | internal/history/diff.go:42-139 | the changed tables of what the two queries return, sorted, each with exactly its added, removed and modified rows |
| HistoryDiff.GroupedIs | internal/history/diff.go:66-88 | the rows of a table are those recorded for it, of several records of one row the last |
| HistoryDiff.FilterMeansItsTable | internal/history/diff.go:42-50 | a filter that names a database and a table asks for exactly that table |
| HistoryDiff.FilteredDiffIs | internal/history/snapshot.go:153-163 | a table is reported exactly if the filter admits it and its rows differ between the two snapshots |
| HistoryDiff.FilterNamesOneTable | internal/history/diff.go:44-50 | the filter restricts the diff to the one table it names exactly if there is something before and after its first dot; otherwise it admits more |
| HistoryDiff.DiffFields | internal/history/diff.go:142-173 | exactly the differing fields, sorted, with both values |
| Ordering.SortedListingUnique | internal/history/diff.go:154-159 | a set of keys has only one sorted listing, so the output order is determined |
| Ordering.LessIs | internal/history/diff.go:154-159 | the order of the output is the lexicographic one |
| SnapshotLoad.LoadedRefsResolve | internal/snapshot/snapshot.go:257-310 | every reference in an inserted row names a row inserted by the same transaction, skipped tables included, if and only if the row holds no empty atomic reference |
| SnapshotLoad.LoadDump | internal/snapshot/snapshot.go:257-328 | the transaction inserts exactly the records of the known tables, each under its own table and UUID, tables sorted, pruned by what is inserted; an error exactly if a record does not decode, or there is something to insert and a row is refused, the first one being named, or the commit fails |
| SnapshotLoad.InsertedRowIs | internal/snapshot/snapshot.go:294-302 | an inserted row is the row of its record without _uuid, _version and the required references to missing rows |
| SnapshotLoad.InsertedAre | internal/snapshot/snapshot.go:271-278 | the rows inserted are exactly the present set |
| SnapshotPruning.PrunedHasNoDanglingRefs | internal/snapshot/fromrows.go:214-260 | after pruning no reference dangles, exactly unless the row held an empty atomic reference, which is kept |
| SnapshotPruning.PrunedKeepsTheRest | internal/snapshot/fromrows.go:214-260 | every element and entry that refers to no missing row is kept with its value, and nothing is added |
| SnapshotPruning.PrunedColumns | internal/snapshot/fromrows.go:204-261 | exactly the required references to missing rows are dropped whole |
| SnapshotPruning.KeptElemsConcat | internal/snapshot/fromrows.go:225-240 | the elements of a set are kept or dropped one by one, in place |
| SnapshotPruning.PruningIsIdempotent | internal/snapshot/fromrows.go:204-261 | a second pass changes nothing |
| SnapshotPruning.PruneDanglingRowRefs | internal/snapshot/fromrows.go:204-261 | the loops compute the pruned row |
| SnapshotBuild.BuildFromRows | internal/snapshot/fromrows.go:47-112 | the kept rows of both databases, pruned by everything captured |
| SnapshotBuild.BuiltRefsResolve | internal/snapshot/fromrows.go:52-97 | the references of the built rows all resolve among them exactly if no kept row refers to a row captured only under tables the models do not know |
| SnapshotBuild.SkippedTableLeavesDangling | internal/snapshot/fromrows.go:54-95 | the concrete input for which a built row refers to a row that was not built |
| SnapshotBuild.PrunedDataRefs | internal/snapshot/fromrows.go:119-197 | pruning keeps exactly the references to present rows |
| SnapshotBuild.PrunedDataKeepsTheRest | internal/snapshot/fromrows.go:119-197 | everything that refers to no missing row stays as it is, lists and objects lose exactly the references to missing rows |
| SnapshotBuild.PruneDanglingRefs | internal/snapshot/fromrows.go:119-197 | copy on write: the data is copied exactly if something is pruned |

## Left out

- HTTP handlers, middleware, the WebSocket hub, the UI, flag parsing and start-up: wiring and I/O.
- The session manager's real servers and clients: a build succeeds or fails as a whole, and closing a session is one event.
- Intermediate states inside one hold of the manager's mutex (registry before proxy before map), which no other critical section sees; readers of registry and proxy could.
- A live cluster whose name has the form of a snapshot cluster name: assumed absent (`LiveNames`).
- The drain grace period: a drain timer may fire at any time after the unload.
- Shutdown is modelled as the per-entry steps of Close, which may interleave with calls in progress; convergence is claimed only before it begins.
- libovsdb: caches, condition selection by UUID and row encoding are taken to do what their documentation says. SQLite, gzip, HMAC and random ids likewise; HMAC is taken to tell messages apart and ids never to repeat.
- OVSDB's own commit-time effects (garbage collection of unreferenced rows, clearing of weak references): the server may refuse a transaction, but commits exactly its operations.
- Reference validation of operations against the cache (`ValidateReferences`): its verdict is an input of preview and apply.
- Impact entries in plans, row names in impact trees, and messages and severities of audit findings: carried along, decided nowhere.
- The order of tables in the output file of `BuildFromRows`.
- Resolving an HA group by name or through the southbound database: failover takes the members of the group as given.
- Rendering of fingerprints, rule checks, webhooks and event publishing of the alert engine.
- OpenStack and Kubernetes enrichment, correlation, topology, connectivity, diagnostics, search, the trace and propagation stores: lookups, foreign calls or bounded maps that would add only easier members.
- HydrateRoundTrip.JsonTripIsExact: does not model what Go's conversion does with floats outside the 64-bit range (integers that round up to 2^63), nor strings that are not valid UTF-8.
- RateLimiter.WindowBound: exact rational arithmetic; the float64 product in the source may round.
- AclVerdict.RemovingFlaggedKeepsVerdicts: matches are top-level conjunctions whose atoms contain no "&&" and do not end in "&"; other expressions are compared by the source in the same textual way, without this meaning.
- HistoryPatch.PatchGivesLater: needs each row's data to carry its own UUID, which every captured row does.
- SnapshotBuild.BuiltRefsResolve: for schemas in which no map column refers to rows by key and value at once, as is the case for the OVN northbound and southbound schemas.
- Slices and maps are values in the models: sharing of a plan's operations between cache and callers, or of a row's data after copy on write, is not captured.
- Hydrate.Model holds its fields in a map from tag to value; field pointers (`fieldPointersByTag`) become the keys of that map.
- WritePlans.ValidateOps: reference validation (`ValidateReferences`) is not part of the result, since it asks the cache and a schema; its verdict is an input of preview and apply.
- Hydrate.ModelToMap: does not model the parsing of `ovsdb` tags and the skipping of untagged struct fields, since the model's struct is already a map by tag.
- SnapshotBuild.BuildFromRows: does not model the renaming of columns to Go field names nor marshalling errors, which concern the form of a row and not its references.
- ImpactAnalysis.Resolve: says nothing about truncation when the number of entities equals the limit, where it depends on the order of the visits.
