# WatchWarden, verified

WatchWarden is an agent that replaces running containers with newer versions, and a controller that
tells agents when to. This project models the parts of both that must stay right under failures,
crashes and concurrency, and proves what they promise. `dafny verify dfyconfig.toml` checks all of it.

- **ContainerLocks** is the lock an update takes on a container name, as a state machine: the map of
  entries behind its mutex, the entries' own mutexes, any number of callers, and the sweeper that
  deletes idle entries. Its steps are the critical sections and the lock operations of the code.
- **Docker**, **CrashSafety**, **Updates**, **Recovery** and **Orphans** are the updates themselves.
  The daemon is a finite map from fresh identifiers to containers with unique names. Each call may
  fail, its success may go unreported, and the process may die between any two calls: a method that
  dies returns `Crashed` at that point, so a postcondition that does not exclude `Crashed` holds after
  every single step. What is asked of the daemon is recorded, and how many calls failed that could have
  been carried out, so that the contracts say which calls a success is made of, how many failures a failed
  attempt takes, and that compensations are attempted. `Recovery` says in closed form what a start-up
  repair makes of any store, and `Orphans` proves the three loops of the repair against it.
- **UpdateRace** interleaves any number of updates of one container. The lock is a single step here,
  which is what `ContainerLocks.RefinesAtomicLock` justifies.
- **Orchestrator**, **UpdateBatches** and **AgentOrder** order a set of updates by dependencies and
  priorities in the controller and carry the order out in the agent; **Rollout** joins the two.
- **ImageRefs** and **Pruner** choose and remove unused images, and **Listings** says when the choice does
  not depend on the order in which the daemon lists them.
- **Dedup**, **CheckBatcher** and **UpdateBatcher** gather notifications under timers.
- **TokenBucket**, **UpdateGate** and **PruneService** are the controller's rate limit, its rule for
  sending updates on its own, and its pruning of one or all agents. The methods of `PruneService` are
  the pieces of code between two awaits, which may be called in any order their preconditions admit.
- **Versions** orders tags as versions, in the agent and in the controller's port of the same rules.
- **ImageDiff** compares image configurations, and **LogDemux** unframes container logs.
- **Options**, **Sorting** and **Ordering** hold the optional value and the library sorts and filters.

A class holds the fields the source updates in place. Its methods are proved against functions of the
state before the call, and the lemmas are about those functions, so that they speak of every run.

Where the obvious claim fails, the code is kept as it is and the exact condition is proved:

- a service whose only trace is a stopped `-ww-old` container is lost by the first repair, though a
  snapshot of it exists (`Recovery.ServiceIsBack`, `Recovery.StoppedOrphanIsLost`);
- an update during which one call is refused leaves the service running, except exactly if that call is
  the removal of the old container and its error is not taken for serious: then the container stays, stopped,
  and its name is not free (`Updates.Updater.UpdateContainer`, `Updates.OneFailureIsSurvived`);
- a crash of a blue-green update between stopping and removing the old container leaves the service
  under its name, but not running: the repair keeps the stopped original (`Recovery.ServiceRuns` in both
  directions, `Recovery.StoppedOriginalIsKept`);
- if nothing bears a service's name but there are a running `-ww-old` and a stopped `-ww-new` of it, the
  first repair gives the name to the stopped one, and only the second gives it back
  (`Recovery.ContestTakesTwo`, `Recovery.ContestHappens`); that and a stranded service with a snapshot are
  all that a first repair leaves undone (`Recovery.PassSettles`), and a second never leaves anything
  (`Recovery.TwoPassesSettle`);
- a dependency with a higher priority number comes after its dependent (`UpdateBatches.DependencyFirst` in
  both directions, `UpdateBatches.LateDependency`), in what the agent does as well
  (`Rollout.ExecuteOrchestratedUpdate`);
- the comment at RESTART_UNHEALTHY says that dependents stop before their dependencies; wherever the two
  are listed, that is so exactly if the dependent is in a later batch, or listed first in the same one
  (`AgentOrder.StopsDependentFirst`). Of the batches that the controller sends that makes exactly the
  dependencies with a lower priority number than their dependents (`Rollout.RestartUnhealthySet`); with a
  higher one the dependent is stopped last and even started first (`Rollout.LateRestart`);
- of equally old images the one listed first is kept first (`Pruner.TiesGoByListing`); an unprotected image
  has the same fate in every listing exactly if each of its repositories has `keepPrevious` strictly newer
  unprotected images, or one of them has fewer than that of the same age or newer
  (`Listings.OneFateIffSure`, and for whole plans `Listings.PlanIgnoresListingIff`);
- a rollback can give a container an update again under an old first-seen stamp, and the minimum age is
  then met at once (`UpdateGate.RollbackSkipsTheWait`); a rollback breaks what a stamp means exactly if it
  does so (`UpdateGate.RollbackBreaksIffRevives`, `UpdateGate.RollbackKeepsFitIff`), and what is sent under a
  minimum age is ripe exactly if its stamp meant that before (`UpdateGate.SentIsRipe`);
- starting a check of all agents drops the pending notification, whose names stay noted as notified
  (`CheckBatcher.DroppedReport`); what was gathered is dropped there and nowhere else
  (`CheckBatcher.CheckBatcher.ExpectCheckResults`, `CheckBatcher.NotedIsNotNew`);
- two runs over all agents can be started at once (`PruneService.TwoRunsAtOnce`); a new run is the only one
  under way exactly if all others are complete when it is made, which the answer given before the list of
  agents was awaited does not show (`PruneService.NewRunIsSingle`, `PruneService.PruneService.StartRun`);
- the controller's port of the version rules differs from the agent's on segments such as "16a"
  (`Versions.SuffixedNumbersDiffer`) and on numbers after a word, as in "3-alpine.18"
  (`Versions.NumbersAfterWordsDiffer`). At every known level they agree on tags that both read alike, which
  means up to the third number, and on no others (`Versions.AlikeAgree`, `Versions.ReadsAlikeIff`). A tag
  whose first numbers stand in a row, up to a word or the end, is read alike exactly if the numbers further
  on that would be among the first three are zeros (`Versions.RowReadsAlikeIff`), so always if there are
  none (`Versions.WordsReadAlike`). At unknown levels `Versions.UnknownLevel` says when they agree.

## Model

| member | source | states |
|---|---|---|
| ContainerLocks.MutualExclusion | agent/updater.go:436-459 | In every interleaving of callers and sweeps, two callers never hold the lock of the same name. |
| ContainerLocks.AttemptsPaidByDeletions | agent/updater.go:436-459 | A call's attempts exceed by at most one the entries of its key deleted since it began; each failed validation is charged to a distinct one. |
| ContainerLocks.NoDeadlock | agent/updater.go:230-254 | When nobody inside the protocol can move, the map mutex is free, no sweep is under way, and every waiting caller waits for another caller that holds the same name. |
| ContainerLocks.RefinesAtomicLock | agent/updater.go:230-254 | Seen by its users, each step of the protocol is nothing, the acquisition of a free name or a release, and only the holder's unlock takes a name from it. |
| ContainerLocks.FreeIsTaken | agent/updater.go:436-459 | A free lock is taken in one attempt, whether its entry is in the map or is made by the call. |
| ContainerLocks.GotUnlessDeleted | agent/updater.go:448-457 | Validation fails if and only if the locked entry was deleted meanwhile. |
| ContainerLocks.SweepEnds | agent/updater.go:239-250 | Every sweep ends: each step of it leaves fewer, whatever callers do. |
| ContainerLocks.StepKeepsInv | agent/updater.go:436-459 | Every step of every caller and of the sweeper keeps the protocol's invariant. |
| Docker.SuffixDiffers | agent/updater.go:318-323 | A name with an orphan suffix is never the name it was made from. |
| Updates.Updater.Recreate | agent/docker.go:549-627 | Create, connect to each further network, start: a started container is exactly the one asked for, under a fresh identifier, by exactly those calls; otherwise some call failed or the creation was illegal, nothing is left beyond one possibly created container, and nothing at all if at most one call failed. |
| Updates.Updater.WaitForHealthy | agent/updater.go:1309-1346 | Healthy if and only if the last look finds the container running without a health check or reported healthy, and every look before was undecided; it gives up on an unhealthy or ended one and when the time is up; of a container that runs throughout, the verdicts alone decide. |
| Updates.Updater.UpdateContainer | agent/updater.go:670-863 | Success replaces the container under its name, by exactly the calls in order, the image pulled and the snapshot saved before anything is stopped; early failures change nothing; other containers are never touched. If no call fails the update succeeds; if one fails the service runs, unless the old container's removal failed harmlessly. After every single step the service can be repaired. |
| Updates.OneFailureIsSurvived | agent/updater.go:770-862 | From the outcome and the count of failed calls alone: after one failure a container runs under the service's name, the new one, the old one, or one of the old image's digest. |
| Updates.Updater.Replace | agent/updater.go:798-862 | Stop, remove, recreate, with what each failing stage leaves. A creation that fails is always answered by creating the old image from its digest; that fails too only after a second failed call, unless the digest is unknown or the old container is still there. |
| Updates.Updater.RollbackContainer | agent/updater.go:866-911 | Without a snapshot in memory nothing happens; otherwise, whatever comes of stop and removal, the container the snapshot describes is asked for, and it is there if no call fails and the name is free; the service can be repaired after every step. |
| Updates.Updater.BlueGreenUpdate | agent/updater.go:1156-1305 | Without the port-conflict fallback, after every step the old container runs or the new one, seen running, still does; it succeeds, if no call fails, exactly when the new container is found healthy in time; one seen unhealthy or ended fails the update, and every failing exit leaves the old one untouched; the service can be repaired after every step. |
| Updates.Updater.FallBack | agent/updater.go:1212-1224 | After a port conflict the temporary container is cleared away and all that holds of an update in place holds of the rest. |
| Updates.Updater.SwitchOver | agent/updater.go:1262-1305 | The new container is never harmed by the switch and, if no call fails, ends under the service's name with the old one gone. |
| Updates.Updater.SelfUpdate | agent/updater.go:87-226 | The agent's container or its running replacement is running after every step; a failure whose compensation succeeds leaves the agent's container exactly as it was, name included, and a compensation is always attempted; if no call fails and the replacement does not end, it succeeds by exactly the calls in order, the removal of itself last. |
| CrashSafety.SavedIsSafe | agent/updater.go:769-774 | Once its snapshot is saved, a service can be repaired whatever becomes of its containers, unless a -ww-old container that was there before strands it. |
| CrashSafety.BesideIsSafe | agent/updater.go:1210-1260 | While only -ww-new containers of its service come and go, a container and its service are safe. |
| CrashSafety.SelfIsSafe | agent/updater.go:110-213 | A self-update is safe after every step, as the agent's container bears one of its two names until the end. |
| CrashSafety.StaysRepairable | agent/updater.go:283-310 | An update keeps what the repair relies on, whatever orphans it introduces. |
| Recovery.RepairNew | agent/updater.go:315-339 | The turn of a -ww-new orphan changes that container only: removed if its original exists, else renamed to it. |
| Recovery.RepairOld | agent/updater.go:341-398 | The turn of a -ww-old orphan changes it and, where it takes its name back, the original. |
| Recovery.AddedAreCopies | agent/updater.go:400-427 | A container that a repair adds runs and is a copy of one of the snapshots: of the exact image if its digest is known, else of what its reference names. |
| Recovery.ServiceIsBack | agent/updater.go:283-427 | After a repair whose calls succeed, a service of which anything is left bears its name again, if and only if it was not a lone stopped -ww-old container; orphans of both kinds are allowed. |
| Recovery.StrandedIsGone | agent/updater.go:384-395 | Of such a container the repair leaves nothing. |
| Recovery.StoppedOrphanIsLost | agent/updater.go:384-395 | A concrete store for which the first repair leaves nothing and only a second one recreates the service. |
| Recovery.ServiceRuns | agent/updater.go:283-427 | When a service also runs after a repair, both directions. |
| Recovery.StoppedOriginalIsKept | agent/updater.go:322-331 | A concrete store, a switch cut off half-way, of which every repair keeps the stopped original and removes the running -ww-new. |
| Recovery.NoNewRemains | agent/updater.go:315-339 | No -ww-new container is left after a repair. |
| Recovery.PassSettles | agent/updater.go:283-427 | After a repair there is nothing left to repair, if and only if no stranded service has a snapshot and no name goes to a stopped -ww-new beside a running -ww-old. |
| Recovery.TwoPassesSettle | agent/updater.go:283-427 | After two repairs there is never anything left to repair. |
| Recovery.ContestTakesTwo | agent/updater.go:329-383 | A service whose name goes to a stopped -ww-new beside a running -ww-old is down after the first repair and runs after the second. |
| Recovery.ContestHappens | agent/updater.go:329-383 | A concrete store of that kind. |
| Recovery.SettledStays | agent/updater.go:283-427 | A repair of a settled store changes nothing. |
| Orphans.HandleNew | agent/updater.go:315-339 | The first loop, in any order of the map, makes of the store what the closed form says. |
| Orphans.ResolveNew | agent/updater.go:321-339 | One -ww-new container: exactly which calls are made, a running one being stopped before an unforced removal, and what each failure leaves. |
| Orphans.ResolveOld | agent/updater.go:348-398 | One -ww-old container, by the run states of it and its original: exactly which calls are made and what each failure leaves. |
| Orphans.HandleOld | agent/updater.go:341-398 | The second loop likewise, and the names it takes for present are exactly those with any trace in the listing. |
| Orphans.RecreateMissing | agent/updater.go:400-427 | The third loop recreates exactly the services that have a snapshot and no trace, each from one of its snapshots, by its digest if that is known; whatever fails, each of them is tried, and nothing but such copies is added. |
| Orphans.RecoverOrphans | agent/updater.go:283-427 | A pass without faults does what the closed form says, and adds only copies of snapshots; a pass that fails or is cut off anywhere leaves a repairable store in which every service that was known and not stranded still is; unless cut off, it tries to recreate each service without a trace. |
| Orphans.RecoverAtLast | agent/updater.go:283-427 | After any number of passes under any faults, cut off anywhere, one good pass brings back every service that was known and not stranded at first. |
| Orphans.RunOperation | agent/updater.go:670-911 | Whatever fails and wherever it crashes, each of the four procedures leaves a repairable store in which its service is known, whatever leftovers of earlier crashes there are. |
| Orphans.CrashThenRecover | agent/updater.go:87-427 | Any procedure, a crash at any point, a restart and a repair: the service's name is back unless stranded, which takes a self-update or a -ww-old container that was there before; what comes back is a copy of a saved snapshot; no -ww-new is left; after an immediate second repair nothing is left to do, and it changes nothing unless a stranded service has a snapshot or a name was contested. |
| UpdateRace.AtMostOneSuccess | agent/updater.go:695-762 | Of any number of interleaved updates of one container, with arbitrary failures, at most one succeeds, whoever else stops, starts or removes the container or takes or frees its name meanwhile; names stay unique and the old container is gone. |
| UpdateRace.MoveKeepsInv | agent/updater.go:798-862 | Every step of every such update keeps the invariant behind this. |
| UpdateRace.OthersAreTolerated | agent/updater.go:866-1305 | Of the calls the other procedures make, on this container or on others, only a renaming of this one is not among what the others may do meanwhile. |
| UpdateRace.UndisturbedSucceeds | agent/updater.go:695-862 | A single such update that nothing goes wrong for succeeds, with the new image under the name. |
| UpdateRace.RefusedIsUndone | agent/updater.go:833-850 | If the new container is refused and nothing else goes wrong, the old image runs again. |
| UpdateRace.UnstartableIsUndone | agent/docker.go:619-623 | A container that cannot be started is cleared away before the old image is tried. |
| UpdateRace.UnremovableRunsAgain | agent/updater.go:815-828 | A removal that fails for good ends with the container running again. |
| UpdateRace.OnlyAStartSucceeds | agent/updater.go:831-862 | A step ends in success if and only if it starts the new container, which then runs. |
| UpdateRace.RemovalIsUnforced | agent/updater.go:813-829 | The removal leaves a running container alone; only one that fails for good is answered by a restart. |
| UpdateRace.TriedTwice | agent/updater.go:831-850 | What keeps the new container from being created or started leads to the old image, and the same with that to failure. |
| Orchestrator.TopologicalSort | controller/src/scheduler/orchestrator.ts:78-117 | On every graph, cyclic ones included, the result is a permutation of the update set in which each container stands after its dependencies, except those that reach it in turn. |
| Orchestrator.Sorter.Visit | controller/src/scheduler/orchestrator.ts:88-108 | A visit only adds to the result and marks its container, and keeps the order. |
| UpdateBatches.ResolveUpdateBatches | controller/src/scheduler/orchestrator.ts:17-72 | The batches are slices of the sorted set by strictly increasing priority, and just the last does not wait. |
| UpdateBatches.ToUpdateAre | controller/src/scheduler/orchestrator.ts:21-24 | A container is updated if its row's identifier or Docker's is requested. |
| UpdateBatches.BatchesPartition | controller/src/scheduler/orchestrator.ts:43-71 | The batches hold each container of the update set once. |
| UpdateBatches.FlattenOrder | controller/src/scheduler/orchestrator.ts:43-71 | In the order carried out, lower priorities come first and equal ones keep the sorted order. |
| UpdateBatches.DependencyFirst | controller/src/scheduler/orchestrator.ts:46-58 | A dependency on no cycle precedes its dependent in the order carried out, if and only if its priority number is not higher. |
| UpdateBatches.SortedFirst | controller/src/scheduler/orchestrator.ts:88-117 | In any such order a dependency on no cycle stands before its dependent. |
| UpdateBatches.FlattenByPriority | controller/src/scheduler/orchestrator.ts:43-71 | Of two containers as sorted, the first is carried out first if and only if its priority number is not higher. |
| UpdateBatches.LateDependency | controller/src/scheduler/orchestrator.ts:46-58 | For any two containers of which one depends on the other and has the lower priority number, the dependent comes first. |
| AgentOrder.UpdateSequential | agent/managed.go:281-332 | The agent updates all containers but itself in the order of the batches, waiting after those that ask for it; a failed update is passed over; only the deadline, in the first wait that is not over before, ends the loop, and then the agent does not update itself. Of several identifiers of its own, the last one listed is kept for the end, and updated only after all others. |
| AgentOrder.UpdatedUpTo | agent/managed.go:294-305 | What has been updated after any number of batches is what they list, in order, without the agent. |
| AgentOrder.WaitIsAsAsked | agent/managed.go:306-318 | After each batch but the last the agent waits if asked to, as long as asked or 30 seconds. |
| AgentOrder.SequentialKeepsOrder | agent/managed.go:294-305 | Leaving out the agent's own container keeps the order of the others. |
| AgentOrder.RestartUnhealthy | agent/managed.go:639-691 | Each container is stopped once, batches backwards; then a pause; then each is started once, batches forwards, and a batch that asks for it, but for the last, is waited for before the next one starts. |
| AgentOrder.HealthIsAwaited | agent/managed.go:675-690 | In a restart it waits for each container of such a batch, as long as asked or 120 seconds. |
| AgentOrder.StartedInOrder | agent/managed.go:667-691 | What has been started after any number of batches is what they list, in order. |
| AgentOrder.RestartsAll | agent/managed.go:652-691 | All that is stopped is stopped before anything is started, and what is started in all is what the batches list, in order. |
| AgentOrder.SameContainers | agent/managed.go:652-691 | What is stopped is what is started. |
| AgentOrder.StopsDependentFirst | agent/managed.go:652-691 | Wherever the two are listed: the dependent is stopped first if and only if it is in a later batch or listed first in the same one; the dependency is started first if and only if its dependent is in a later batch or listed later in the same one. |
| AgentOrder.UpdateAll | agent/managed.go:154-252 | UPDATE updates the containers that are not the agent's own in the order listed, and then the agent. |
| AgentOrder.UpdatedWhenCut | agent/managed.go:294-318 | A run ended by its deadline has updated a front part of what all batches list. |
| Rollout.ExecuteOrchestratedUpdate | controller/src/scheduler/orchestrator.ts:123-170 | From request to the agent's log: of two containers that are not the agent's, one depending on the other on no cycle, the dependency is updated first if its priority number is not higher, and last if it is; in a run cut short, whichever is to come second is only updated after the other; the agent itself comes last. |
| Rollout.WaitsTwoMinutes | controller/src/scheduler/orchestrator.ts:159-169 | Between any two of the controller's batches the agent waits two minutes, in a restart as long for each container. |
| Rollout.ListedByPriority | controller/src/scheduler/orchestrator.ts:43-71 | The same of the identifiers in the batches as sent, of any two containers as sorted, if and only if. |
| Rollout.RestartedByPriority | controller/src/api/routes/agents.ts:506-519 | In the batches of a restart, of two containers as sorted, the second is stopped first if and only if the first has a lower priority number, and the first is started first if and only if that is not higher. |
| Rollout.RestartUnhealthySet | controller/src/api/routes/agents.ts:506-519 | From the request to the agent's log: of two containers, one depending on the other on no cycle, the dependent is stopped first if its dependency has a lower priority number, and last otherwise; the dependency is started first if its number is not higher, and last otherwise. |
| Rollout.LateRestart | agent/managed.go:652-691 | For any two containers of which one depends on the other and has the lower priority number, the dependency is stopped first, under its running dependent, and the dependent started first. |
| ImageRefs.SplitUndoesJoin | agent/pruner.go:398-408 | A repository, registry port included, and a tag are read back from their join. |
| ImageRefs.SplitIsUnambiguous | agent/pruner.go:398-408 | Two pairs that join to the same reference are the same. |
| ImageRefs.ShortSpelling | agent/pruner.go:142-145 | A reference and its spellings with docker.io/, library/ or both in front become the same. |
| ImageRefs.LatestIsImplied | agent/pruner.go:146-150 | So do a reference without a tag and the same with :latest. |
| ImageRefs.UntaggedIsLatest | agent/pruner.go:143-151 | A reference with neither digest nor a tag after its last slash, with a registry's port or not, gets :latest. |
| ImageRefs.TaggedIsKept | agent/pruner.go:143-151 | One that has a tag keeps it. |
| ImageRefs.AfterAtIs | agent/pruner.go:155-176 | What follows the first @ of a repository digest is the digest. |
| Pruner.Greedy | agent/pruner.go:202-268 | The loop over the shared budgets removes exactly the unprotected images before which every one of their repositories has keepPrevious newer unprotected ones, whatever the order of the map. |
| Pruner.PlanIsMonotone | agent/pruner.go:176-270 | A higher keepPrevious removes no further image; including stopped containers removes no fewer. |
| Pruner.PlannedContainersAre | agent/pruner.go:203-215 | A container is planned if and only if stopped ones are to go, it has exited, was never started or is dead, no snapshot protects it by identifier or name, and it bears no suffix of an update under way. |
| Pruner.FixedAre | agent/pruner.go:227-234 | An image is kept whatever its age if and only if a container that stays uses it or a snapshot's reference names it, in one of the spellings compared. |
| Pruner.PruneIsIdempotent | agent/pruner.go:176-270 | After what a plan removes is gone, planning again finds nothing, and every container left still has its image. |
| Pruner.RollbackTargetKept | agent/pruner.go:142-174 | An image a snapshot names is never removed, whether it is named by its id, by a tag or a repository digest in any spelling, or by the bare digest. |
| Pruner.TiesGoByListing | agent/pruner.go:219-241 | Two concrete listings of the same two equally old images, of which different images go. |
| Listings.OneFateIffSure | agent/pruner.go:219-268 | An unprotected image goes in every listing of the images or stays in every one, if and only if every one of its repositories has keepPrevious strictly newer unprotected images, or some has fewer than that among the others at least as new. |
| Listings.PlanIgnoresListingIff | agent/pruner.go:176-270 | The images planned are the same for every listing, if and only if this holds of each unprotected image. |
| Listings.OneOrder | agent/pruner.go:219-221 | If no two images are of the same age, the order in which they are gone over does not depend on the listing. |
| Pruner.Host.Prune | agent/pruner.go:326-395 | From 0 to 10 versions are kept as asked, ten if more are asked for, one if the number is negative. Exactly the planned containers and images that the daemon gives up are removed and listed, the others counted as errors and left, an image short of the tags it was rid of; counters match details; a dry run changes nothing. |
| Pruner.ReclaimedAndShared | agent/pruner.go:115-122 | With sensible figures the space reclaimed and the layers shared make up the sizes; senseless ones are disregarded. |
| Pruner.PruneTwice | agent/pruner.go:326-395 | After an error-free prune a second one removes nothing. |
| Dedup.NotifiedUpdates.PruneNotified | controller/src/notifications/session-batcher.ts:118-133 | The two deleting loops leave what the specification says, at most 10000 entries. |
| Dedup.PrunedAre | controller/src/notifications/session-batcher.ts:118-133 | Entries older than 24 hours go, and of the others only those beyond 10000. |
| Dedup.NotifiedUpdates.Admit | controller/src/notifications/session-batcher.ts:246-251 | Exactly the names neither in the map nor earlier in the message are let through and noted. |
| Dedup.AdmittedAgain | controller/src/notifications/session-batcher.ts:114-133 | Over every history of calls, a name is let through again only more than 24 hours later or after at least 10000 other names. |
| Dedup.MapIsSorted | controller/src/notifications/session-batcher.ts:114-133 | The map always holds the latest admissions, under different names, oldest first. |
| Dedup.FirstLive | controller/src/notifications/session-batcher.ts:120-124 | What has expired is always a front part of the map. |
| UpdateBatcher.EverythingIsTold | controller/src/notifications/session-batcher.ts:31-109 | For each agent, the successes sent, and likewise the failures, are those of the closed batches, in order and once. |
| UpdateBatcher.UpdateBatcher.AddUpdateResult | controller/src/notifications/session-batcher.ts:69-109 | A result joins the pending batch or opens one; the armed timers are just that batch's two, for the last and for the first result. |
| UpdateBatcher.UpdateBatcher.FlushUpdateBatch | controller/src/notifications/session-batcher.ts:31-67 | All that waits is sent, grouped by agent and outcome, and no timer is left. |
| UpdateBatcher.UpdateBatcher.Fire | controller/src/notifications/session-batcher.ts:69-84 | Whichever timer fires, it is the pending batch's own, everything waiting is sent, and no more than five minutes have passed since the batch was opened. |
| UpdateBatcher.DataHolds | controller/src/notifications/session-batcher.ts:86-103 | The grouping of a batch holds for each agent exactly its results, in order. |
| UpdateBatcher.ToldAsReported | controller/src/notifications/session-batcher.ts:91-103 | What is told of a success or failure is what was reported, an empty image or the error unknown standing for missing ones. |
| CheckBatcher.CheckBatcher.DispatchCheckResults | controller/src/notifications/session-batcher.ts:224-287 | What is gathered grows by just the new names of the message; the agent is counted as heard from if it gave a non-empty id, empty report or not; the batch is sent exactly when it expects a number of agents and that many have been heard; nothing gathered is dropped. |
| CheckBatcher.CheckBatcher.ExpectCheckResults | controller/src/notifications/session-batcher.ts:208-222 | A new batch for that many agents; what was pending is dropped, and this is the only way anything is. |
| CheckBatcher.DroppedReport | controller/src/notifications/session-batcher.ts:208-222 | A concrete run in which an update is let through, noted and gathered, and is never sent. |
| CheckBatcher.CheckBatcher.FlushIfComplete | controller/src/notifications/session-batcher.ts:279-286 | The batch is closed exactly when as many agents as expected have been heard from; otherwise only the set of agents heard grows. |
| CheckBatcher.CheckBatcher.Fire | controller/src/notifications/session-batcher.ts:169-201 | The timer is the pending batch's own; an expected batch is closed 30 s after it was announced, any other within 90 s of its last report. |
| CheckBatcher.NotedAreSelected | controller/src/notifications/session-batcher.ts:244-251 | The names noted are those of the containers let through. |
| CheckBatcher.NotedIsNotNew | controller/src/notifications/session-batcher.ts:244-251 | A noted name is not reported again, even if the batch it was in was dropped. |
| TokenBucket.RejectedIffTooMany | controller/src/ws/hub.ts:88-111 | A message is rejected if and only if accepting it would put more than 60 messages plus 30 a second into some stretch of time. |
| TokenBucket.AtMostRateInWindow | controller/src/ws/hub.ts:88-111 | In every window of length T at most 60 + 30 T messages are accepted. |
| TokenBucket.NeverRejectedIff | controller/src/ws/hub.ts:88-111 | A stream is never rejected if and only if every stretch of it satisfies that bound. |
| TokenBucket.TokenBucket.Consume | controller/src/ws/hub.ts:97-110 | The refill and the decision, on every stream with a clock that does not go back. |
| UpdateGate.UpdateGate.CheckResult | controller/src/ws/hub.ts:318-464 | Rows and stamps as specified. A command is sent exactly if updating automatically is on, none is in flight and some item may go, and it holds exactly those that may; under a minimum age what is sent is ripe if and only if its stamp meant that before the message, which is so as long as no rollback has revived a stamp. |
| UpdateGate.EligibleIffMayGo | controller/src/ws/hub.ts:398-444 | An item may go if it reports an update, its container's label, or setting if there is none, is neither manual nor notify, the container is not stateful, its stamp is as old as required, and the level allows it; and only then. |
| UpdateGate.SentIsRipe | controller/src/ws/hub.ts:398-444 | What is sent under a minimum age was found by a check at least that long ago, since which every check found it again and no successful result named the row, if and only if its row's stamp, if any, meant so before. |
| UpdateGate.ChecksKeepFit | controller/src/ws/hub.ts:333-359 | The loop over a check's items, repeated items included, keeps what a stamp means. |
| UpdateGate.StampedNow | controller/src/ws/hub.ts:353-358 | A row that first gets an update in a message ends it with the stamp of that message. |
| UpdateGate.ResultsKeepFit | controller/src/db/queries.ts:262-296 | Update results keep what a stamp means, rollbacks included unless one revives a stamp; and a stamp on a row without an update means nothing any more. |
| UpdateGate.RollbackBreaksIffRevives | controller/src/db/queries.ts:280-286 | A rollback of a container breaks what its stamp means if and only if it gives a stamped row without an update one again. |
| UpdateGate.RollbackKeepsFitIff | controller/src/db/queries.ts:280-286 | The same for all rows: what stamps mean outlives a rollback if and only if it revives none. |
| UpdateGate.UpsertKeepsFit | controller/src/db/queries.ts:112-201 | So does a heartbeat, and identifiers stay unambiguous. |
| UpdateGate.HeartbeatKeeps | controller/src/db/queries.ts:112-201 | A heartbeat overwrites what it reports, keeps what only the controller knows of a container, and starts with nothing for a new one. |
| UpdateGate.UpdateGate.UpdateResult | controller/src/ws/hub.ts:515-594 | The rows after the results, and whether a rollback revived a stamp. |
| UpdateGate.UnknownChangesNothing | controller/src/db/queries.ts:280-293 | A success reported under an identifier that no row bears, as that of a container just recreated, changes no row and ends no stamp. |
| UpdateGate.RollbackSkipsTheWait | controller/src/db/queries.ts:280-286 | A run with a rollback in which an update is sent although a successful result has named its row since its stamp. |
| PruneService.OnePrunePerAgent | controller/src/ws/prune-service.ts:113-120 | No agent has two prunes on their way; it is marked active, and its legacy id names the one it has. |
| PruneService.PruneService.StartPrune | controller/src/ws/prune-service.ts:113-120 | The error cases, and otherwise one more prune with its marks. |
| PruneService.PruneService.SendAndWait | controller/src/ws/hub.ts:916-936 | A fresh request, pending with its timer, or rejected at once if the agent is not connected. |
| PruneService.PruneService.Settle | controller/src/ws/hub.ts:945-952 | A pending request is settled once; no step settles a request twice. |
| PruneService.PruneService.PruneResult | controller/src/ws/hub.ts:716-723 | A reply settles, once and with its own answer, the pending request it names, or else the prune the agent is at; nothing if there is none. |
| PruneService.PruneService.Disconnect | controller/src/ws/hub.ts:850-872 | When any agent disconnects, every pending request is rejected. |
| PruneService.PassOver | controller/src/ws/prune-service.ts:166-189 | The loop of a run skips offline agents, fails busy ones, and stops at the first it can prune. |
| PruneService.TotalsMore | controller/src/ws/prune-service.ts:183-189 | The totals stay the sums over the results. |
| PruneService.PruneService.FinishExec | controller/src/ws/prune-service.ts:208-261 | The outcome of a settled prune, a success without errors, partial if something was removed in spite of them, failed otherwise; its marks cleared, handed to the run that awaits it; a single run stays single. |
| PruneService.PruneService.ContinueRun | controller/src/ws/prune-service.ts:158-205 | A run takes the outcome it was given and goes on; it is complete with one result per agent, in order; a single run stays single. |
| PruneService.TwoRunsAtOnce | controller/src/ws/prune-service.ts:123-146 | Two runs under way at once. |
| PruneService.NewRunIsSingle | controller/src/ws/prune-service.ts:123-146 | A new run is the only one under way if and only if all others are complete; if at most one was, it is so if and only if the check would still let a run start. |
| PruneService.PruneService.StartRun | controller/src/ws/prune-service.ts:128-146 | The new run with the agents it was given, gone on to the first it can prune; at most one run is under way after it, if and only if all were complete before. |
| Versions.NewerIsTotal | agent/registry.go:115-136 | Of two different tags exactly one is newer. |
| Versions.NewerIsTransitive | agent/registry.go:115-136 | The order of tags is transitive. |
| Versions.CompareParts | agent/registry.go:116-132 | The loop over padded parts computes that order. |
| Versions.FindLatestSemver | agent/registry.go:105-139 | The result is one of the tags, and newer than all others. |
| Versions.FirstIsLatest | agent/registry.go:115-138 | Sorting the tags by that comparison puts first one that is newer than all others. |
| Versions.LatestIsUnique | agent/registry.go:105-139 | It does not depend on the order of the tags or on the sort. |
| Versions.PlainPrecedence | agent/registry.go:105-139 | On X.Y.Z the order is that of section 11.2 of Semantic Versioning 2.0.0. |
| Versions.AdmitsPadded | agent/registry.go:152-186 | The switch over the levels, on padded parts. |
| Versions.LevelsNest | agent/registry.go:142-188 | Patch implies minor implies major, for all tags. |
| Versions.AdmittedIsNewer | agent/registry.go:142-188 | At a known level, what is admitted is strictly newer. |
| Versions.FindLatestSemverAtLevel | agent/registry.go:192-205 | The newest of the admitted tags, or nothing if none is. |
| Versions.FoundIsNewer | agent/registry.go:192-205 | What is found is admitted, newer than the current tag and than all else admitted. |
| Versions.ExtractVersionParts | agent/registry.go:211-226 | The agent's reading of a tag as numbers. |
| Versions.SplitsAtEach | agent/registry.go:217-219 | Each dot, hyphen and underscore separates two pieces, and nothing else does. |
| Versions.PortExtractVersionParts | controller/src/lib/semver.ts:10-23 | The controller's reading of a tag as numbers. |
| Versions.BothReadNumbers | controller/src/lib/semver.ts:10-23 | Both read numbers between dots, with or without a leading v, as those numbers. |
| Versions.PortAgrees | controller/src/lib/semver.ts:29-56 | On such tags, each with or without a leading v, the controller's verdict is the agent's, at every known level. |
| Versions.UnknownLevel | controller/src/lib/semver.ts:46-55 | At an unknown level the verdicts agree if and only if the port reads no version in one of the tags, the tags are equal, or the candidate is a rise to the port; for all tags. |
| Versions.UnknownLevelOnNumbers | controller/src/lib/semver.ts:46-55 | On numbers between dots, with any leading v, that leaves equal tags and rises. |
| Versions.AlikeAgree | controller/src/lib/semver.ts:29-56 | On tags that both read alike up to the third number, the controller's verdict is the agent's at every known level. |
| Versions.ReadsAlikeIff | controller/src/lib/semver.ts:10-56 | On any other tag they disagree: a tag is read alike if and only if both give the same verdict on it at level major, as current and as candidate, against every X.Y.Z. |
| Versions.BothReadRow | controller/src/lib/semver.ts:10-23 | How both read a tag whose first numbers stand in a row: the agent adds the numbers after the next word, the port does not. |
| Versions.RowReadsAlikeIff | controller/src/lib/semver.ts:10-23 | Such a tag is read alike if and only if only zeros of those would be among the first three numbers. |
| Versions.WordsReadAlike | controller/src/lib/semver.ts:10-23 | A row of numbers with words before and after it is read alike. |
| Versions.NumbersAfterWordsDiffer | controller/src/lib/semver.ts:10-23 | Between tags that differ in a number after a word the agent moves at every level but patch, the port at none. |
| Versions.SuffixedNumbersDiffer | controller/src/lib/semver.ts:10-23 | From a tag such as 16a down to 15a the agent moves at any level, the controller's rule at none. |
| ImageDiff.DiffImages | agent/diff.go:57-141 | The diff is a patch from one configuration to the other, printed entries being parsed again; its count is that of the changes and of the entries in its lists, its breaking flag set exactly if ports, entrypoint or volumes changed; the lists the code sorts are sorted. |
| ImageDiff.DiffEnv | agent/diff.go:156-172 | Added, removed and changed keys, each once, with the right values; added and removed ones in order. |
| ImageDiff.DiffLabels | agent/diff.go:184-206 | The same for labels, with metadata labels left out; removed ones in order. |
| ImageDiff.CutUndoesPrint | agent/diff.go:145-154 | A printed entry is parsed back into its key and value. |
| ImageDiff.NoChangesIffSame | agent/diff.go:119-136 | The count is zero if and only if the configurations agree in all that counts. |
| ImageDiff.SwapKeepsCount | agent/diff.go:115-136 | Swapping the images keeps the count and the breaking flag. |
| LogDemux.GetContainerLogs | agent/docker.go:693-723 | The reading loop unframes the first 900 KiB; with a terminal they are returned as they are. |
| LogDemux.DemuxUndoesMux | agent/docker.go:704-722 | Unframing gives back the payloads of non-empty frames within the limit. |
| LogDemux.DemuxGoesOn | agent/docker.go:704-722 | After whole frames the rest is unframed as if it stood alone, whatever it is. |
| LogDemux.DemuxOfPrefix | agent/docker.go:704-722 | However a stream is cut short, the output is exactly the payload bytes in what is left. |
| LogDemux.LogsArePayload | agent/docker.go:691-722 | So the logs are the payload bytes among the first 900 KiB. |
| LogDemux.BadFrameEnds | agent/docker.go:713-716 | An empty or oversized frame ends the output; what comes before it is kept. |

## Left out

- UpdateRace.AtMostOneSuccess: the lock is one step and the procedure has no crashes; crashes are the subject of Orphans.CrashThenRecover. Nobody renames the container meanwhile; an update that then creates the name anew would leave it in place.
- Updates.Updater.UpdateContainer: does not model the per-name lock and other actors during the pull, which UpdateRace does, nor the progress messages; the reference to pull, and whether a failing removal counts as serious, are parameters.
- Updates.Updater.BlueGreenUpdate: what the health check reports at each look and what a failing creation complains of are parameters.
- Pruner.Host.Prune: whether the lists of the daemon are available and what it refuses to remove are parameters.
- Orphans.RunOperation: starts from a store without orphans of orphans. The self-update starts with the agent running, and a rollback by identifier with a snapshot of that container's name.
- Orphans.CrashThenRecover: starts from the same stores.
- Rollout.ExecuteOrchestratedUpdate: Docker's identifiers are unique and so are row identifiers; a dependency on a cycle, or on the agent itself, which is updated last, may come after its dependent.
- Recovery.ServiceIsBack: the repair may pick any snapshot of a name, as maps are gone over in any order, so the image a service comes back with may be an older one.
- PruneService.PruneService.ContinueRun: broadcasts do not throw here, so the branch that ends a run early after an exception is not modelled.
- UpdateGate.UpdateGate.CheckResult: one clock reading a message, handlers as single steps, and the rows of one agent; that the identifiers a heartbeat reports are unambiguous is required. A check item that both failed and reports an update, which the agent never sends, is outside the claim about ripeness. Stored diffs, audit log and the choice of update strategy are left out, and the level rule is a parameter.
- Dedup.NotifiedUpdates.Admit: one clock reading a message.
- UpdateBatcher.UpdateBatcher.Fire: timers fire when due; that Node may be late is not modelled. The same holds for the check batches.
- TokenBucket.TokenBucket.Consume: exact thousandths of tokens instead of floating point, and a clock that does not go back.
- Versions.PortExtractVersionParts: tags without white space and numbers without rounding, so below 2^53.
- Versions.FindLatestSemver: regular expressions that select tags are not modelled. That the library's sort is not stable makes no difference, as different tags never tie (Versions.NewerIsTotal).
- ImageDiff.DiffImages: the lists of changed values are in any order, as in the code, which goes over maps.
- LogDemux.GetContainerLogs: errors of the daemon.
- RollbackToImageWithTag: saves no snapshot before it removes the container, and the rewriting of tags and digests around it is about references only.
- Self-delegation from an ordinary update to a self-update by host name, and all detection of the agent's own container.
- Networks beyond their number, and the contents of container configurations: a snapshot's configuration is opaque.
- Writing of snapshot files: saving a snapshot is one step.
- The hub's queue of messages, registration, credentials, UI events, plain UPDATE messages and previews.
- Health monitor timers, reconnection, cron schedules, notification senders, REST routes and the web interface: simple guards, or foreign calls.
