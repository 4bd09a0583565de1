# Verified model of the docker-faas gateway

This project models the decision logic of a gateway that runs functions as Docker containers, and proves what that
logic keeps over whole runs, with Docker and database calls failing wherever they can. `dafny verify dfyconfig.toml`
checks everything.

| part | modules | main results |
|---|---|---|
| Replica planner and reconciler | `ReplicaNames`, `ReplicaPlan`, `ReplicaPlanLaws`, `DockerDaemon`, `DockerProvider`, `ScaleLaws`, `CreationRaces` | convergence and fixpoint of scaling, keepers protected in every intermediate state, retries converge, at most one container per index under any interleaving |
| Gateway lifecycle | `GatewayState`, `Gateway`, `GatewayRuns` | store rows and containers agree in every state of every run without failures; under failures nothing but the request's own function changes, and it is known which requests keep a function consistent and which make it so again |
| Build history | `BuildHistory`, `BuildTracking`, `BuildListing` | the tracker refines a plain sequence model; an entry is found exactly while it is fresh and among the newest; subscribers see subsequences of the broadcasts |
| Guards | `RateLimiting`, `TokenManagement`, `AuthMiddleware` | tight bound on 401 responses over any interval, exact token lifetime |
| Routing | `Routing` | exact counts of a round-robin round, and exactly when the counter's wrap-around spoils it |
| Build inputs and output | `PathJoining`, `ZipExtraction`, `TruncatingBuffer` | containment and round trip of path joining, disk bounds of zip extraction, the truncating buffer as a prefix |
| Schema and networks | `Migrations`, `Networks` | records and schema in step over every run with failures, repair of the gateway's networks |

`GoText` holds the Go library operations used throughout, `Faults` the ways a call to another process can end: it is
answered, it is refused, or it takes effect and the reply is lost. A daemon or database object carries a schedule that
says how its k-th call ends; theorems that speak of failures hold for every schedule. Clocks, random tokens and
generated ids are parameters. State that the gateway updates in place is a class, and each method is proved against a
function of the old state; the laws are lemmas about those functions.

## What the proofs brought out

- A key can get `2 * limit - 1` responses of 401 within one window length, not `limit`; that bound is exact
  (`RateLimiting.WindowBound`, `RateLimiting.WindowBoundIsTight`).
- The router's test for a running container is equality with "running" or "Up"; Docker says "Up 2 minutes", so the
  router falls back to every container, stopped ones included (`Routing.DockerStatusIsNotRunning`). The gateway's own
  availability test is a substring test; the two are kept apart.
- A negative index label that is occupied stays occupied through every scale, even to 0
  (`ScaleLaws.NegativeIndexSurvives`, `ScaleLaws.NegativeIndexExists`).
- User labels are written over the system labels. Scaling converges exactly for those requests whose labels leave the
  function label as it is and carry no replica label that parses (`ScaleLaws.ConvergesIffReadsBack`). That is the
  condition `ReadsBack` the other theorems ask of a request; labels for type and network may be overwritten.
- A deploy that fails half-way and cannot clean up leaves a container of a function that is not stored
  (`GatewayState.LeftoverOfDeploy`). While one is active under the function's first name every later deploy fails, and
  that is the only obstacle (`Gateway.Gateway.HandleDeployFunction`); update, delete and scale answer 404.
- A delete only logs that a container could not be removed. A later deploy is accepted on top of what is left, and then
  row and containers agree if and only if all of that was the first replica (`Gateway.Gateway.HandleDeployFunction`,
  `GatewayState.DeleteThenDeploy`, `GatewayRuns.LeftoverOutlivesDeploy`).
- An update keeps a consistent function consistent whatever fails, and an accepted scale makes any stored function
  consistent whatever fails (`Gateway.Gateway.HandleUpdateFunction`, `Gateway.Gateway.HandleScaleFunction`).
- Round-robin is fair in every round in which the 64-bit counter does not wrap, and in a round in which it wraps
  exactly under a condition on the counter and the two numbers of containers (`Routing.FairRound`).
- The size of a directory entry is not limited, so an archive can claim 2^64 bytes and pass the header checks
  (`ZipExtraction.DirectorySizeWraps`); extraction is bounded all the same (`ZipExtraction.Extraction.ExtractZip`).
- `safeJoin` refuses targets that mean the base itself. docs/API.md line 79 shows ".", which the code refuses
  (`PathJoining.BaseItselfIsRefused`).
- A listed file whose relative path starts with "..", such as "..notes", cannot be written back
  (`PathJoining.ListedPathJoinsBack`).
- An empty write at a full buffer sets `truncated` although nothing was lost (`TruncatingBuffer.TruncatedExactly`).
  The builder never writes an empty chunk.
- Rolling back migration 2 drops every constraint of the table, and applying it again does not bring them back:
  function names are then no longer unique (`Migrations.RollbackRestoresIff`, `Migrations.ReapplyLosesUniqueNames`).
- A reconciliation run reports a network twice when two functions share it (`Networks.SharedNetworkCountsTwice`).

## Model

| member | source | states |
|---|---|---|
| `ReplicaNames.NamesInjective` | pkg/provider/docker_provider.go:485 | two container names are equal only if service and index are, whatever dashes the services contain |
| `ReplicaNames.NameParsesBack` | pkg/provider/docker_provider.go:905-922 | the name of replica `i` parses back to `i` for every index that fits an `int`: with the slash Docker adds for any service, bare for a valid one |
| `ReplicaNames.LabelParsesBack` | pkg/provider/docker_provider.go:886-903 | a replica label the provider wrote is read back as its index, whatever the names say |
| `ReplicaNames.ParseOf` | pkg/provider/docker_provider.go:905-922 | in general the index is the number after the last dash; nothing after it, no number, or no dash means none |
| `ReplicaNames.IndexFallsBack` | pkg/provider/docker_provider.go:886-903 | without a replica label that parses the names are tried in turn |
| `ReplicaNames.RefusedNames` | pkg/gateway/validation.go:11-21 | which function names are refused, character by character |
| `ReplicaPlan.SelectReplicaKeeper` | pkg/provider/docker_provider.go:867-884 | the keeper is the first of those that are running if any is, and created latest among them; no container in the group is running when it is not, or as running and created later |
| `ReplicaPlan.GroupByIndex` | pkg/provider/docker_provider.go:817-833 | stale containers in listing order; active ones grouped by index, each group exactly the active containers there; unindexed ones set aside |
| `ReplicaPlan.PickKeepers` | pkg/provider/docker_provider.go:835-845 | in any visiting order: one keeper per non-empty index, and every container is removed exactly as often as it loses |
| `ReplicaPlan.DropExcess` | pkg/provider/docker_provider.go:853-862 | in any visiting order: the keepers at indices the target does not cover are removed as well, and only they |
| `ReplicaPlan.MissingIndices` | pkg/provider/docker_provider.go:847-851 | the missing indices, ascending, are exactly those below the target without a keeper |
| `ReplicaPlan.BuildReplicaScalePlan` | pkg/provider/docker_provider.go:810-865 | for every listing and target the plan is the one specified by multiplicities, so no map order can change it |
| `ReplicaPlanLaws.PlanConserves` | pkg/provider/docker_provider.go:810-865 | every listed container is removed as stale, removed as active, or survives: one of the three, with multiplicity |
| `ReplicaPlanLaws.PlanIgnoresOrder` | pkg/provider/docker_provider.go:810-884 | without ties in rank, permuting the listing changes neither what is removed nor what is missing |
| `ReplicaPlanLaws.KeeperOutranks` | pkg/provider/docker_provider.go:867-884 | no active container at an index is running when its keeper is not, or as running and created later |
| `ReplicaPlanLaws.MissingPlusFilled` | pkg/provider/docker_provider.go:847-851 | missing indices plus indices below the target that have an active container add up to the target |
| `ReplicaPlanLaws.EmptyPlanIffSettled` | pkg/provider/docker_provider.go:810-865 | the plan is empty exactly on listings with one active container per index below the target and nothing else to remove |
| `DockerDaemon.StaleStates` | pkg/provider/docker_provider.go:942-951 | the stale tests on state, name and listing line are one test on Docker states: created, exited or dead |
| `DockerDaemon.RunningStates` | pkg/provider/docker_provider.go:932-940 | read as a state, only "running" is running, and a container in that state lists as running whatever its status text |
| `DockerDaemon.LinesRead` | pkg/provider/docker_provider.go:924-951 | on lines with the status texts Docker prints, running means state running or paused, stale means created, exited or dead, and a restarting container is neither |
| `DockerDaemon.AgesAreNeutral` | pkg/provider/docker_provider.go:932-951 | the ages and exit codes in those texts do not name a state themselves |
| `DockerProvider.ReplicaFields` | pkg/provider/docker_provider.go:268-315 | a new replica has the function's name and index, the request's image, its network or else the base network, and the user labels over the system ones |
| `DockerProvider.Provider.RemoveContainerSummary` | pkg/provider/docker_provider.go:613-626 | on success the container is gone, a not-found answer counting as success; failed or not, no other container is touched |
| `DockerProvider.Provider.RemoveStaleContainerByName` | pkg/provider/docker_provider.go:585-611 | frees the name if a stale container holds it; an active holder makes it fail and stays untouched |
| `DockerProvider.Provider.CreateContainer` | pkg/provider/docker_provider.go:268-419 | on success a running replica of this index is new; failed or not, only containers with its name differ; without failing calls it succeeds exactly if there is a network and no active container holds the name |
| `DockerProvider.Provider.CreateAll` | pkg/provider/docker_provider.go:484-489 | the creation loop: all indices filled on success, progress on failure, and success whenever no call fails and no name is blocked |
| `DockerProvider.Provider.ScaleFunction` | pkg/provider/docker_provider.go:459-492 | every state Docker goes through, at whichever call it stops, is part-way through the plan; on success the plan is completed; without failing calls and blocked names it succeeds |
| `DockerProvider.Provider.DeployFunction` | pkg/provider/docker_provider.go:179-197 | creates replicas 0 to n - 1 and touches no container but stale holders of their names |
| `DockerProvider.Provider.RemoveFunction` | pkg/provider/docker_provider.go:432-456 | removes only containers of the function, and all of them when no call fails |
| `DockerProvider.Provider.UpdateFunction` | pkg/provider/docker_provider.go:422-429 | removes, and deploys whether or not the removal worked |
| `DockerProvider.Provider.GetFunctionContainers` | pkg/provider/docker_provider.go:530-583 | the listing in order, exactly without the lines whose own inspection failed |
| `ScaleLaws.ScaleConverges` | pkg/provider/docker_provider.go:459-492 | whatever the containers were, for labels that read back, a completed ScaleFunction leaves exactly one active container per index below the target, none at or above it, no stale one, and unindexed ones only if the target is not 0 |
| `ScaleLaws.ShapeIffNothingToDo` | pkg/provider/docker_provider.go:810-865 | that shape holds if and only if planning again yields the empty plan |
| `ScaleLaws.SurvivorsStay` | pkg/provider/docker_provider.go:459-492 | in every state of an attempt, failed or not, every container the plan spares is still there and unchanged |
| `ScaleLaws.UnindexedStay` | pkg/provider/docker_provider.go:824-830 | an active container without an index survives every attempt to a target other than 0 |
| `ScaleLaws.KeeperStays` | pkg/provider/docker_provider.go:459-492 | in every state of an attempt each filled index below the target still has its keeper, unchanged |
| `ScaleLaws.OnlyMissingAreCreated` | pkg/provider/docker_provider.go:484-489 | whoever is active at an index after an attempt was there before unchanged, or the index was missing and it is new under the right name |
| `ScaleLaws.RetryConverges` | pkg/provider/docker_provider.go:459-492 | after any number of attempts that failed anywhere, one that completes reaches the target shape; and in every state of every attempt each index filled at the start is served by one of its highest-ranked containers |
| `ScaleLaws.ScaleUntilDone` | pkg/provider/docker_provider.go:459-492 | running ScaleFunction until it works, with any calls failing: every state Docker goes through serves each index filled at the start by one of its best containers, and success is the target shape |
| `ScaleLaws.NegativeIndexSurvives` | pkg/provider/docker_provider.go:847-862 | each negative index that was occupied stays occupied, by one of its highest-ranked containers; the occupied indices end as 0 to target - 1 if and only if there was none |
| `ScaleLaws.NegativeIndexExists` | pkg/provider/docker_provider.go:886-893 | a running container whose replica label says -1 is read back there |
| `ScaleLaws.ConvergesIffReadsBack` | pkg/provider/docker_provider.go:290-299 | scaling a function always converges if and only if its user labels leave the function label alone and any replica label of theirs does not parse |
| `ScaleLaws.MisreadDiverges` | pkg/provider/docker_provider.go:290-299 | for every other request: nothing obstructs a scale of the empty function to 2, which completes and misses the target shape |
| `CreationRaces.RacesCannotDuplicate` | pkg/provider/docker_provider.go:585-611 | after every interleaving of create, start, stop and remove calls, failed or not, each function has at most one container per index |
| `Gateway.Store.CreateFunction` | pkg/store/store.go:53-92 | adds the row; fails without effect when the name is taken or the statement fails |
| `Gateway.Store.UpdateFunction` | pkg/store/store.go:185-227 | replaces the row; fails without effect when there is none |
| `Gateway.Store.DeleteFunction` | pkg/store/store.go:230-253 | removes the row; fails without effect when there is none |
| `Gateway.Store.UpdateReplicas` | pkg/store/store.go:256-279 | changes the replica count of the row and nothing else |
| `Gateway.NamedFunction` | pkg/gateway/handlers.go:675-683 | a function named as it is, or with an OpenFaaS ending, with blanks around or without, is the function meant |
| `Gateway.AvailableLines` | pkg/gateway/handlers.go:600-605 | on Docker's own status texts the availability test means running or paused |
| `Gateway.Gateway.Deploy` | pkg/provider/docker_provider.go:179-197 | whatever fails, only its own function changes and containers within a larger count stay so; success serves the replicas, and leaves all containers within the count exactly if they were before |
| `Gateway.Gateway.Remove` | pkg/provider/docker_provider.go:432-456 | whatever fails, only containers of this function are stopped or removed, and none is put out of place |
| `Gateway.Gateway.HandleDeployFunction` | pkg/gateway/handlers.go:182-285 | status codes by case; whatever fails, no other function changes; from any sound state an accepted deploy serves one replica and leaves the function consistent if and only if each of its containers was its first replica; without failures a new function is accepted exactly if no active container holds its first name; the row and the running replica have the request's image, network and labels |
| `Gateway.Gateway.HandleUpdateFunction` | pkg/gateway/handlers.go:288-381 | the new deployment with the stored replica count replaces row and containers; whatever fails and whatever the answer, no other function changes and a consistent function stays consistent; an accepted update serves all replicas; without failures the function ends consistent; the row and all running replicas have the request's image and labels, and its network or else the stored one |
| `Gateway.Gateway.HandleDeleteFunction` | pkg/gateway/handlers.go:384-442 | containers, row, then network; whatever fails, no other function changes, and a consistent function stays consistent unless the delete is accepted; without failures nothing of the function is left, and the network is cleaned up exactly when the request is accepted; for every spelling of a function's name it is that function's row that goes |
| `Gateway.Gateway.HandleScaleFunction` | pkg/gateway/handlers.go:445-536 | an accepted scale leaves the function consistent with the requested count, whatever state earlier failures left it in and whatever failed on the way; one that stops half-way keeps a consistent function consistent if the stored count covers its target; negative counts are refused; for every spelling of a function's name it is that function that is scaled, and every container it creates is made as the row says |
| `Gateway.Gateway.ScaleStored` | pkg/gateway/handlers.go:741-786 | scaling and then storing the count, each of which can fail by itself; once both worked the function is consistent, and a scale within the stored count keeps it so wherever it stops |
| `Gateway.Gateway.PrepareInvocation` | pkg/gateway/handlers.go:570-625 | without failures an invocation scales to one exactly when no listed container is available by the substring test, answers 504 when none becomes available in time, and changes nothing otherwise; whatever fails, no other function changes; for every spelling of a function's name it is that function that is woken |
| `Gateway.Gateway.Redeploy` | pkg/provider/docker_provider.go:422-429 | success serves all replicas; wherever it stops, containers within the count stay within it; without failures it leaves exactly that many replicas |
| `Gateway.Gateway.DeployBuiltImage` | pkg/gateway/build_handlers.go:537-666 | updates a stored function with its replica count, deploys a new one with one replica; whatever fails, no other function changes and success serves all replicas; a successful update keeps a consistent function consistent, and a successful deploy leaves it so if and only if each of its containers was its first replica; the row and the running replicas have the built image |
| `GatewayState.HolderIsReplica` | pkg/provider/docker_provider.go:485 | whoever holds the name `service-i` is read back as replica `i` of that service |
| `GatewayState.NewRunReplicas` | pkg/provider/docker_provider.go:186-194 | replicas that were just created all run the deployment's image on its network with its labels |
| `GatewayState.ScaleNewcomersRun` | pkg/provider/docker_provider.go:484-489 | so does every container a scale creates, wherever it stops, each under the name of an index below the target |
| `GatewayState.ProgressUndisturbed` | pkg/provider/docker_provider.go:459-492 | whichever call a deploy or scale stops at, names, labels and every other function are as before |
| `GatewayState.RedeployServed` | pkg/provider/docker_provider.go:422-429 | the same for an update, with failures in both halves |
| `GatewayState.OthersStayConsistent` | pkg/gateway/handlers.go:182-536 | a request that changes one function keeps every other function consistent |
| `GatewayState.ServedAgrees` | pkg/gateway/handlers.go:182-536 | a request that leaves its own function consistent and all others undisturbed keeps store and Docker in agreement |
| `GatewayState.ScaleUnobstructed` | pkg/provider/docker_provider.go:585-611 | no name a scale needs is ever held by a container the scale does not remove first |
| `GatewayState.DeployedOver` | pkg/provider/docker_provider.go:179-197 | after deploying n replicas over leftovers all containers are within the count if and only if all leftovers were |
| `GatewayState.PlacedMeansNamed` | pkg/provider/docker_provider.go:485 | being within a count means being named as one of its replicas |
| `GatewayState.ProgressStaysPlaced` | pkg/provider/docker_provider.go:179-197 | creating replicas below n, wherever it stops, leaves containers within n that were |
| `GatewayState.AttemptStaysPlaced` | pkg/provider/docker_provider.go:459-492 | so does a scale to at most n that stops anywhere |
| `GatewayState.RemovalsStayPlaced` | pkg/provider/docker_provider.go:440-453 | so do removals, as far as they work |
| `GatewayState.AgreementSeparates` | pkg/provider/docker_provider.go:886-903 | under agreement no two containers of a function are read back at one index |
| `GatewayState.LeftoverOfDeploy` | pkg/gateway/handlers.go:270-276 | a sound state with an unstored function whose first name is actively held exists for every valid function |
| `GatewayState.DeleteThenDeploy` | pkg/provider/docker_provider.go:447-452 | for every valid function: two agreeing replicas, a delete that removed only the first, a deploy on top that works, and a row of one replica beside the second container |
| `GatewayState.ScaleServed` | pkg/gateway/handlers.go:505-532 | a completed scale leaves the function consistent with the new count, wherever its containers were before |
| `GatewayState.DeleteServed` | pkg/gateway/handlers.go:410-429 | removing all containers of a function and its row leaves it consistent |
| `GatewayRuns.Serve` | pkg/gateway/handlers.go:182-536 | one request, or one replica exiting or removed by hand, with any call failing: what it may change, and which answers mend the function |
| `GatewayRuns.ServeAll` | pkg/gateway/handlers.go:182-536 | every run is a trace of such steps |
| `GatewayRuns.RunsStaySound` | pkg/gateway/handlers.go:182-536 | in every state of every run with any failures each container of a function is one tracked replica by name and by what is read back, and each row is well-formed |
| `GatewayRuns.MendedRunsAgree` | pkg/gateway/handlers.go:182-536 | in any run with any failures, once each function is mended (by an accepted scale whatever failed; by an accepted update, delete or build-deploy without failures; by an accepted deploy over nothing but its first replica) and every later request about it keeps or mends it, store and Docker agree again |
| `GatewayRuns.KeepingRunsAgree` | pkg/gateway/handlers.go:182-536 | store and Docker agree in every state of every run whose requests keep or mend their function, even with failing calls: updates always do, unaccepted deletes and scales within the stored count do |
| `GatewayRuns.SmoothRunsAgree` | pkg/gateway/handlers.go:182-536 | in every state of every run without failing calls store and Docker agree |
| `GatewayRuns.LeftoverOutlivesDeploy` | pkg/gateway/handlers.go:205-281 | in any run, a container of an unstored function other than its first replica outlives an accepted deploy, and the records disagree |
| `BuildTracking.BuildTracker.Add` | pkg/gateway/build_tracker.go:73-87 | the history becomes the new entry before the fresh old ones, cut to the limit; every subscriber is offered the entry |
| `BuildTracking.BuildTracker.Update` | pkg/gateway/build_tracker.go:89-156 | the last entry with the id takes each of the sixteen fields the update gives and keeps the others, its id and its start; then the history is pruned; with distinct ids and that entry live, it is what is answered and offered to subscribers; an unknown id changes nothing |
| `BuildTracking.BuildTracker.List` | pkg/gateway/build_tracker.go:158-166 | returns a fresh copy of the pruned history |
| `BuildTracking.BuildTracker.Get` | pkg/gateway/build_tracker.go:168-182 | returns the last entry with the id in the pruned history |
| `BuildTracking.BuildTracker.Clear` | pkg/gateway/build_tracker.go:184-189 | empties the history and leaves the subscriptions alone |
| `BuildTracking.BuildTracker.RebuildIndexLocked` | pkg/gateway/build_tracker.go:212-217 | the index maps each present id to its last position and nothing else |
| `BuildTracking.BuildTracker.TrimLocked` | pkg/gateway/build_tracker.go:219-225 | keeps the first `limit` entries |
| `BuildTracking.BuildTracker.CompactInPlace` | pkg/gateway/build_tracker.go:227-244 | writing into the array it reads leaves exactly the order-preserving filter of the original entries |
| `BuildTracking.BuildTracker.PruneLocked` | pkg/gateway/build_tracker.go:227-244 | afterwards the history is the fresh part of the old one, and the index fits it |
| `BuildTracking.BuildTracker.BroadcastLocked` | pkg/gateway/build_tracker.go:246-253 | exactly the current subscribers are offered the entry; full queues drop it |
| `BuildTracking.OfferAll` | pkg/gateway/build_tracker.go:246-253 | the loop over subscribers in any order offers each channel once and none that is closed |
| `BuildTracking.BuildTracker.Subscribe` | pkg/gateway/build_tracker.go:191-198 | a new open channel under a number never used before |
| `BuildTracking.BuildTracker.Cancel` | pkg/gateway/build_tracker.go:200-209 | closes its own channel only; a second cancel does nothing |
| `BuildTracking.BuildTracker.ReadFrom` | pkg/gateway/build_tracker.go:191-210 | a reader takes the oldest queued entry; what it received plus its queue stays a subsequence of the broadcasts since it subscribed, also after cancelling, and all of those offered if it never met a full queue |
| `BuildTracking.Channel.TrySend` | pkg/gateway/build_tracker.go:246-253 | appends or, at ten queued entries, drops |
| `BuildTracking.SubsequencePositions` | pkg/gateway/build_tracker.go:246-253 | what a subscriber saw sits in the broadcasts at strictly increasing positions |
| `BuildTracking.PatchKeepsIds` | pkg/gateway/build_tracker.go:89-156 | patching an entry leaves a right index right |
| `BuildTracking.IndexGrows` | pkg/gateway/build_tracker.go:212-217 | one more entry at the end moves its id to the last position, and no other id |
| `BuildTracking.Perform` | pkg/gateway/build_tracker.go:73-189 | over every run of operations, with generated ids for entries that come without one, the tracker equals the plain sequence model, within the limit |
| `BuildHistory.PruneTwice` | pkg/gateway/build_tracker.go:227-244 | pruning at t1 and again at t2 >= t1 is pruning once at t2 |
| `BuildHistory.UpdateShown` | pkg/gateway/build_tracker.go:89-156 | field by field, what an update stores and answers |
| `BuildHistory.FreshAlone` | pkg/gateway/build_tracker.go:233-241 | pruning keeps an entry that finished, or if it is running started, within the retention |
| `BuildHistory.FreshConcat` | pkg/gateway/build_tracker.go:233-241 | and works entry by entry, in order |
| `BuildHistory.RunIsBounded` | pkg/gateway/build_tracker.go:219-225 | no run exceeds the limit |
| `BuildHistory.RetainedUntilExpired` | pkg/gateway/build_tracker.go:73-244 | while fewer than `limit` newer entries have arrived, an entry nobody clears or updates is found by its id exactly as long as its retention lasts |
| `BuildHistory.FoundIffAmongNewest` | pkg/gateway/build_tracker.go:73-244 | if newer entries carry no earlier times, an entry nobody clears or updates is found if and only if its retention lasts and fewer than `limit` entries came after it |
| `BuildListing.FilterBuildEntries` | pkg/gateway/builds_handlers.go:159-196 | the matching entries in order, cut to the limit, with empty output unless it was asked for |
| `BuildListing.MatchingAlone` | pkg/gateway/builds_handlers.go:162-181 | an entry is left out exactly for its name, status, source type, or a start before or after the bounds |
| `BuildListing.MatchingConcat` | pkg/gateway/builds_handlers.go:161-182 | filtering works entry by entry, in order |
| `BuildListing.StrippedFields` | pkg/gateway/builds_handlers.go:188-193 | stripping empties the output and touches nothing else |
| `BuildListing.StripInPlace` | pkg/gateway/builds_handlers.go:188-193 | clears the output of the first entries in place; the rest of the array is unchanged |
| `BuildListing.ShownTwice` | pkg/gateway/builds_handlers.go:159-196 | listing what was listed shows it again |
| `BuildListing.HandleListBuilds` | pkg/gateway/builds_handlers.go:14-27 | shows the filtered pruned history while the tracker keeps every output |
| `RateLimiting.NewAuthRateLimiter` | pkg/middleware/rate_limiter.go:23-37 | no limiter for a non-positive limit or window, an empty one otherwise |
| `RateLimiting.AuthRateLimiter.Allow` | pkg/middleware/rate_limiter.go:39-61 | counts the failure in the current window; allowed exactly below the limit; the wait runs to the reset |
| `RateLimiting.AuthRateLimiter.Reset` | pkg/middleware/rate_limiter.go:63-70 | forgets this key only |
| `RateLimiting.WindowBound` | pkg/middleware/rate_limiter.go:39-61 | in any stretch no longer than the window, after any past and without a success of the key, at most 2 * limit - 1 of its failures are answered 401 |
| `RateLimiting.WindowBoundIsTight` | pkg/middleware/rate_limiter.go:39-61 | for every limit some run attains that bound |
| `RateLimiting.RefusedUntilReset` | pkg/middleware/rate_limiter.go:39-61 | a refused key is refused up to and including its reset and admitted at any time after it |
| `RateLimiting.OtherKeysDoNotMatter` | pkg/middleware/rate_limiter.go:39-70 | dropping all other keys from a run changes no answer to this key |
| `AuthMiddleware.BasicAuthMiddleware.Refuse` | pkg/middleware/auth.go:84-92 | 401, or 429 with the time to the reset if there is any left |
| `AuthMiddleware.BearerTokens` | pkg/middleware/auth.go:124-136 | a header carries a token exactly if it is some spelling of "Bearer", a space and something not blank |
| `AuthMiddleware.BasicAuthMiddleware.Handle` | pkg/middleware/auth.go:39-116 | a guarded request is forwarded exactly if its bearer token is in the table and not expired or, without a token that can be checked, its name and password are the configured ones; all other requests are forwarded; success forgets the failures of the key, failure charges it |
| `AuthMiddleware.AnswersSnoc` | pkg/middleware/auth.go:39-116 | the answers to a run extend by what the limiter then prescribes for the next request |
| `AuthMiddleware.IntervalBound` | pkg/middleware/auth.go:63-114 | over any interval no longer than the window without a success of the key: at most 2 * limit - 1 responses of 401 to it, and every other failure is 429 |
| `AuthMiddleware.ServeAll` | pkg/middleware/auth.go:39-116 | every run of the middleware is answered as its events prescribe; exactly the unguarded requests are exempt, and exactly those succeed whose password is right or whose token was in the table at the start and never presented late |
| `TokenManagement.Manager.Issue` | pkg/auth/manager.go:36-56 | stores the token with its user and expiry; a failed random source changes nothing |
| `TokenManagement.Manager.Validate` | pkg/auth/manager.go:58-81 | accepts until the expiry inclusive; removes an expired token; otherwise only refreshes when it was seen |
| `TokenManagement.Manager.Revoke` | pkg/auth/manager.go:83-90 | removes this token only |
| `TokenManagement.AcceptedExactlyWhileGood` | pkg/auth/manager.go:36-90 | after any history a token is accepted exactly if it was issued, not revoked since, and its lifetime covers now, however often it was validated |
| `TokenManagement.RefusedForever` | pkg/auth/manager.go:58-81 | once an issued token is refused it is refused after every continuation |
| `Routing.FilterRunning` | pkg/router/router.go:67-73 | the running containers in order |
| `Routing.Router.SelectContainer` | pkg/router/router.go:58-81 | increments this function's counter modulo 2^64 and picks by it: a container that counts as running if there is one, and container k mod n if none or all do |
| `Routing.Router.RouteRequest` | pkg/router/router.go:39-55 | no container is an error and moves no counter |
| `Routing.FairRound` | pkg/router/router.go:58-81 | a round of n selections picks the j-th of the m containers taking part n/m times, plus once if j < n mod m, if and only if the 64-bit counter does not wrap harmfully inside it; the condition is computed from counter, n and m |
| `Routing.EachOnceIff` | pkg/router/router.go:58-81 | with none or all running each container is picked once a round if and only if the counter does not wrap inside the round or n divides 2^64 |
| `Routing.StretchesAgreeIff` | pkg/router/router.go:65-80 | two stretches of counter values of one length hit every residue equally often if and only if the length is a multiple of m or they start at the same residue |
| `Routing.IdleIffSomebodyRuns` | pkg/router/router.go:67-80 | a container that does not count as running gets no request in a round if and only if another one counts |
| `Routing.OnlyRunningArePicked` | pkg/router/router.go:67-80 | while somebody is running nobody else is picked |
| `Routing.DockerStatusIsNotRunning` | pkg/router/router.go:70 | with Docker's "Up" and an age, whatever the ages, nobody counts as running, so every container, stopped ones included, gets one request a round |
| `PathJoining.SafeJoinExactly` | pkg/gateway/build_handlers.go:846-861 | for every base and target: the result is the cleaned base followed by the cleaned target, or a refusal |
| `PathJoining.AcceptedIff` | pkg/gateway/build_handlers.go:846-861 | on the text of the target: accepted exactly if it is relative, has no colon, never has more ".." than names along the way, has a name left over, and the first one left does not begin with two dots |
| `PathJoining.EscapingIsRefused` | pkg/gateway/build_handlers.go:851-854 | a target with more ".." than names somewhere along the way is refused below every base |
| `PathJoining.ParentIsRefused` | pkg/gateway/build_handlers.go:851-854 | the parent, and everything reached through it, is refused |
| `PathJoining.CleanCancels` | pkg/gateway/build_handlers.go:851 | a name and the ".." after it cancel |
| `PathJoining.CleanSkips` | pkg/gateway/build_handlers.go:851 | "." and empty parts mean nothing |
| `PathJoining.CleanUps` | pkg/gateway/build_handlers.go:851 | the root is its own parent, and a leading ".." of a relative path stays |
| `PathJoining.AcceptedStaysBelow` | pkg/gateway/build_handlers.go:846-861 | every accepted path is the cleaned base plus at least one plain name: no empty one, no "." and no ".." |
| `PathJoining.RelOfWalked` | pkg/gateway/build_handlers.go:991-995 | the relative path of a walked file is its names joined with slashes |
| `PathJoining.ListedPathJoinsBack` | pkg/gateway/build_handlers.go:991-1001 | the listed path of a walked file, taken relative to the root, joins back to that file if and only if it has no colon or backslash and does not start with ".." |
| `PathJoining.BaseItselfIsRefused` | pkg/gateway/build_handlers.go:851-859 | a target that cleans to "." is refused |
| `PathJoining.Disk.WriteInlineFiles` | pkg/gateway/build_handlers.go:821-844 | the disk is that after the files done so far, in order; success exactly when all were accepted and worked |
| `PathJoining.WritesStayBelow` | pkg/gateway/build_handlers.go:821-844 | whatever changes on disk lies below the base |
| `PathJoining.LastWriteWins` | pkg/gateway/build_handlers.go:821-844 | the last file that resolves to a path decides what is there |
| `ZipExtraction.ValidateZipArchive` | pkg/gateway/build_handlers.go:741-772 | accepts exactly the archives whose headers all pass and whose 64-bit running sum never exceeds the total limit; no links, at most 2000 entries of at most 100 MiB each, unless directories, and 500 MiB in sum |
| `ZipExtraction.HeaderRefused` | pkg/gateway/build_handlers.go:748-765 | exactly which headers are refused, with the ratio as a product |
| `ZipExtraction.AcceptedSumIsTrueIff` | pkg/gateway/build_handlers.go:746-770 | the sum of an accepted archive is the true one exactly when no directory entry claims more than the total limit |
| `ZipExtraction.DirectorySizeWraps` | pkg/gateway/build_handlers.go:757-769 | an archive of two entries that claims 2^64 bytes is accepted |
| `ZipExtraction.Extraction.CopyInto` | pkg/gateway/build_handlers.go:800-816 | succeeds exactly when the read works and both limits hold, counting true bytes; otherwise the file is gone |
| `ZipExtraction.Extraction.ExtractZipFile` | pkg/gateway/build_handlers.go:774-819 | one entry: exact success condition, what is then on disk, and the bounds kept on failure |
| `ZipExtraction.Extraction.ExtractZip` | pkg/gateway/build_handlers.go:720-739 | on success and failure alike at most the total limit stays on disk, below the destination, and never more than one file limit plus a byte above it; exact success condition |
| `ZipExtraction.SizeAfterWrite` | pkg/gateway/build_handlers.go:794-816 | replacing a file adds its new size and frees its old one |
| `TruncatingBuffer.LimitedBuffer.Write` | pkg/gateway/build_handlers.go:688-703 | reports the full chunk, keeps what fits, and notes the truncation |
| `TruncatingBuffer.LimitedBuffer.WriteAll` | pkg/builder/builder.go:48-56 | a whole build written chunk by chunk without the empty ones |
| `TruncatingBuffer.KeepsPrefix` | pkg/gateway/build_handlers.go:688-707 | the contents are the first min(limit, total) bytes, however the output was cut |
| `TruncatingBuffer.TruncatedExactly` | pkg/gateway/build_handlers.go:688-711 | for all writes: truncated exactly if a chunk, possibly empty, arrived at a full buffer or did not fit |
| `TruncatingBuffer.NonEmptyWritesTruncate` | pkg/gateway/build_handlers.go:688-711 | for non-empty writes: truncated exactly if the total exceeds the limit |
| `Migrations.MigrationManager.GetCurrentVersion` | pkg/store/migrations.go:94-105 | the maximum recorded version is the number of applied migrations |
| `Migrations.MigrationManager.ApplyOne` | pkg/store/migrations.go:126-155 | one migration forward with its record, or nothing at all; a lost commit reply is the one case that is an error and yet forward |
| `Migrations.MigrationManager.ApplyMigrations` | pkg/store/migrations.go:108-161 | success ends at the last version; a fully migrated database is not touched; every state committed on the way is one version further |
| `Migrations.MigrationManager.UndoOne` | pkg/store/migrations.go:190-213 | one migration back with its record, or nothing at all |
| `Migrations.MigrationManager.Find` | pkg/store/migrations.go:175-186 | the search finds the migration with the version if it is in the list |
| `Migrations.MigrationManager.Rollback` | pkg/store/migrations.go:164-218 | success means there was something to roll back and ends at max(0, k - steps); a failure ends in between |
| `Migrations.Perform` | pkg/store/migrations.go:108-218 | over every run with any statement failing, every committed state records exactly versions 1..k and has the tables and columns of the first k migrations |
| `Migrations.ForwardKeepsGood` | pkg/store/migrations.go:134-147 | an applied migration keeps records and schema in step, and its record is new |
| `Migrations.BackwardKeepsGood` | pkg/store/migrations.go:196-206 | an undone migration keeps records and schema in step |
| `Migrations.ShippedIsFaithful` | pkg/store/migrations.go:19-64 | the two shipped migrations meet the condition the runs need: each Down restores tables and columns, and no script gets stuck |
| `Migrations.ShippedShapes` | pkg/store/migrations.go:19-64 | the schema at each version, up to constraints |
| `Migrations.RollbackRestoresIff` | pkg/store/migrations.go:45-63 | rolling version 2 back restores the schema, constraints included, exactly if it had none |
| `Migrations.ReapplyLosesUniqueNames` | pkg/store/migrations.go:22-63 | rolling version 2 back and applying it again leaves the same columns but no unique function names |
| `Migrations.MaxOfUpto` | pkg/store/migrations.go:100 | the maximum of versions 1..k is k, and 0 of none |
| `Networks.NetworkReconciler.ConnectToNetwork` | pkg/provider/reconciler.go:100-109 | "already connected" is success; the gateway joins at most this network |
| `Networks.NetworkReconciler.ReconcileOnce` | pkg/provider/reconciler.go:49-97 | no network is ever lost, only listed joinable ones are added, and the count is no more than the connects due, whichever call fails; without failures exactly those, with the exact count; no gateway id means 0 |
| `Networks.ReconciledAttaches` | pkg/provider/reconciler.go:49-97 | afterwards the gateway is on its old networks plus every listed, non-empty, existing one that lets it in, and on no others |
| `Networks.CountIsNewIffDistinct` | pkg/provider/reconciler.go:74-96 | the count is the number of new networks exactly if no network joined is listed twice, and never less |
| `Networks.SharedNetworkCountsTwice` | pkg/provider/reconciler.go:100-109 | two functions on one network: one attachment reported as two |
| `Networks.SecondRunDoesNothing` | pkg/provider/reconciler.go:49-97 | a second run on an unchanged world attaches nothing and reports 0 |
| `Networks.ListFunctionNetworks` | cmd/gateway/main.go:73-85 | the networks of the stored functions that name one, in order |
| `Networks.NetworkCleaner.CleanupFunctionNetwork` | pkg/provider/docker_provider.go:686-732 | whichever call fails, at most this managed network loses the gateway or goes away unused; without failures exactly that |
| `Networks.CleanupSparesOthers` | pkg/provider/docker_provider.go:686-778 | no network with another container on it is removed, and no other or unmanaged network changes |
| `Networks.ManagedNetworks` | pkg/provider/docker_provider.go:760-778 | which networks a cleanup may touch, by name and by labels |
| `Networks.OtherNetworksStay` | pkg/provider/docker_provider.go:699-701 | a network labelled for another function, or not at all, is left alone unless it bears the deleted function's name |
| `Networks.ReconcileAfterCleanup` | pkg/provider/reconciler.go:49-97 | after a cleanup one run has the gateway on a listed network exactly if the network is still there and the gateway was left on it or may join |
| `Networks.RunRestoresStored` | pkg/provider/reconciler.go:49-97 | one run after any cleanup restores each network of a stored function that is in use and can be joined |

## Left out

- `Gateway.Gateway.PrepareInvocation`: ends where the request is forwarded; the half-minute of polling is one parameter that says whether a replica became available, and forwarding and the response copy change no record.
- Concurrent handlers: the gateway takes no lock around store and Docker. Interleavings are covered only for the at-most-one-container-per-index claim (`CreationRaces`); the other theorems are about one request after another.
- Failing store statements leave the table as it was; a statement that takes effect and still reports an error is not modelled for the function table (it is for Docker calls and for migrations).
- Resource limits, requests, environment, secrets, mounts and health checks of containers: the agreement is about replicas and counts. HandleScaleFunction forgets stored limits where scale-from-zero keeps them.
- Order of the removed excess containers: the plan is specified by how often each container is removed and so allows the sorted order the code uses, among others.
- Case folding: only ASCII letters are folded, which is all the compared words contain.
- Path cleaning: `filepath.Clean`, `Join` and `Rel` are modelled by their documented rules on Unix; the library's code is not part of this model.
- `PathJoining.Disk.WriteInlineFiles`: a write that fails leaves the old file; the real one may leave a part of the new one. Directories created on the way are not counted.
- Symbolic links already on disk: paths are compared as text, as the code does.
- Limits of the source listing (400 files, text test, skipped directories): they decide which files are listed, not how their paths join back.
- `ZipExtraction.Extraction.ExtractZip`: removing a failed file is taken to work, since the code ignores its error; directory entries take no space.
- Zip and gzip formats, git cloning, image builds, manifests and Dockerfile templates: foreign effects.
- SQL, JSON encoding, metrics, logging, CORS, secrets, configuration and Git URL checks: thin wrappers around libraries.
- `Migrations.Perform`: starts from an empty database and a list numbered 1..n; a functions table made before there were migrations, and indexes, are not modelled. A transaction is atomic.
- `Networks.NetworkReconciler.ReconcileOnce`: the periodic loop around it, and the identity behind a network name when a network is removed and made again during a run.
- `Networks.NetworkCleaner.CleanupFunctionNetwork`: a container that joins between the second inspection and the removal; Docker then refuses the removal, which the code treats as success.
- Retry-After text: the duration to the reset stands for the whole seconds in the header.
- Client keys (forwarded address or remote host) are opaque values; constant-time comparison is equality.
- The router's counter map is read and written without a lock by the code; selections are modelled one after the other.
- Build ids are random; the tracker's theorems hold for repeated ids as well.
