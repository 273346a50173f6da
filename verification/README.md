# A verified model of the cluster manager and its cache

The repository manages Redis clusters (create, scale out, migrate slots, with a
resumable pipeline of steps) and brings a distributed cache (consistent hashing,
peers, an LRU cache with expiry, invalidation after slot migration). This project
models the parts of both that carry state, arithmetic or a protocol, and proves what
they keep over every input, every run or every schedule. `dafny verify
dfyconfig.toml` checks all of it.

| file | module | models |
|---|---|---|
| `Planner.dfy`, `Balance.dfy`, `Manager.dfy` | `SlotPlanner`, `Rebalance`, `ClusterModel` | planning which slots move to new masters: the loops on values, what they achieve, and the same loops on shared, mutable nodes |
| `Unbalanced.dfy` | `Unbalanced` | a cluster the planner does not balance |
| `Allocation.dfy`, `Replan.dfy` | `SlotAllocation`, `SecondPlan` | the first allocation of the 16384 slots, rebalancing after it, planning a second time |
| `KeyMoves.dfy`, `Migration.dfy`, `Commands.dfy`, `Progress.dfy` | `KeyMoves`, `SlotMigration`, `MigrationCommands`, `MigrationProgress` | moving a slot command by command, with failures, all interleavings of the workers, the commands each server gets, and when the workers come to an end |
| `Pipeline.dfy`, `Rerun.dfy`, `Persist.dfy`, `Table.dfy` | `PipelineEngine`, `PipelineRerun`, `PipelinePersist`, `PipelineTable` | steps, retries, rollback, the persisted table, crashes and restarts, running again, the step that clears the table, and what its rows say |
| `Roles.dfy`, `Shards.dfy`, `RoleCheck.dfy` | `RoleLayout`, `ShardCutting`, `RoleCheck` | who becomes master or replica, at bootstrap and when scaling out, and the check that the cluster took it over |
| `ClusterText.dfy`, `Decimal.dfy` | `ClusterText`, `Decimal` | addresses, slot lists, the lines of CLUSTER NODES |
| `Ring.dfy`, `Registry.dfy` | `ConsistentHash`, `PeerRegistry` | the hash ring and the peers chosen from it |
| `Lru.dfy`, `TtlCache.dfy`, `Group.dfy` | `LruCache`, `ExpiringCache`, `CacheGroup` | the LRU list with byte accounting, expiry, cache groups on many nodes |
| `HotKeys.dfy`, `HotKeyCallers.dfy` | `HotKeys`, `HotKeyCallers` | the hot-key tracker, one caller and many |
| `Basics.dfy` | `Basics` | filtering and first occurrences of sequences |

State that the program updates in place is a class here (`ConsistentHash.Ring`,
`PeerRegistry.Registry`, `ClusterModel.ClusterManager`, `LruCache.Cache`,
`ExpiringCache.Cache`, `CacheGroup.Group`, `PipelineEngine.Runner`,
`HotKeys.HotKeyTracker`, `RoleLayout.RoleManager`); each method is tied to a function
on values, and the laws are proved about that function. Clocks, the hash, the
`Getter`, replies of peers, replies of Redis and the success of every command are
parameters, so every theorem holds for all of them.

## Where the code does not do what one would expect

Each of these is a lemma below; the model follows the code.

- Reaching the target ends the current range, not the master's turn, so a master with
  several ranges can be drained below the target, even to nothing (`DrainedEmpty`).
  `KeepsTarget` says exactly when for one master's turn, `PlanBalances` for the whole
  plan. New masters still get exactly the target (`PlanFillsEmpties`).
- A retry of the migration step plans again from the old ranges and the new counters.
  It plans nothing exactly when 16384 divides evenly (`ReplanIsEmptyWhenEven`);
  otherwise it starts over at the end of the old ranges and names slots that have moved
  already (`SecondPlanStartsOver`, `PlannedTwice`).
- A migration fetches one batch of at most 1000 keys per slot, so the rest of a larger
  slot is on the source in every state of every execution (`LargeSlotsKeepKeys`). A
  source that keeps a slot while it has keys of it, as Redis does, then never lets go:
  the migration can succeed exactly when no planned slot has more than 1000 keys
  (`CanSucceed`).
- A failed pipeline keeps its steps without Undo marked as completed, and the
  table keeps its rows when no step has an Undo (`FailureLeavesMarks`). The comment on
  `RetryFrom` says that the steps before the named one are executed again; the code
  takes the marks off the named step and all later ones (`ResetKeepsEarlier`,
  `RetryExecutes`).
- The step persist-db of every operation deletes the rows of its pipeline, and the
  engine then saves the rows of that step and of later ones (`FirstRunLeavesPersist`). So
  the next operation of that name skips these and leaves all steps recorded
  (`SecondRunSkipsPersist`), and every later one reports success without doing anything
  (`LaterRunsDoNothing`).
- A rollback deletes all rows with its first Undo, so a restart after a crash during a
  rollback executes steps again that nothing has undone (`CrashDuringRollback`).
- A negative byte limit makes the LRU eviction loop run forever (`LoopCanStop`).
- The comment in `Record` speaks of powers of two; the code looks at multiples of 64,
  so with the default threshold of 100 a key becomes hot at 128 accesses
  (`BecomesHotAtTrip`).
- Adding a node and removing it again restores the ring only if it was new and its
  points were free (`AddThenRemoveRestores`). Adding a member again takes back points
  it lost to another node (`AddingAgainExactly`).
- The bootstrap layout counts masters over the whole node list, so a list that mixes
  clusters can leave a cluster without replicas (`StaffedWhenAligned` says exactly
  when it works). A second layout with the same manager passes over every node the
  first one placed (`SecondLayoutIsEmpty`). Nodes left over when the shard size does
  not divide the list end up in the master list (`LeftoversBecomeMasters`).
- The role check compares only how many replicas each master has
  (`EqualClusterNodeType`, `ExchangedReplicasPass`).
- A host with a colon is silently never met (`MeetReachesTheNode`); a master with a
  slot on its way is missing from the parsed listing (`MigratingMasterIsMissing`); a
  replica with the flag `nofailover` counts as down (`NoFailoverCountsAsDown`); a
  reversed range is read and counts below zero (`ReversedRangeIsRead`).

## Model

| member | source | states |
|---|---|---|
| SlotPlanner.PlanSound | cluster/model/manager.go:742-774 | every plan moves pairwise distinct slots, each from the master that owns it to a different, empty one, every task is the one buildSlotTask makes, and afterwards SlotsNum is the number of slots each node owns |
| SlotPlanner.PlanAddresses | cluster/model/manager.go:776-799 | every task of every plan names the addresses of its two nodes, the host port and container port of the destination and the host port of the source, 0 for an unknown host; with distinct host ports only the destination listens on the destination port and only the source on the source port |
| SlotPlanner.ApplyKeepsSlots | cluster/model/manager.go:756-774 | carrying out any prefix of a sound plan neither loses nor adds a slot |
| SlotPlanner.PlannedSlotsLeave | cluster/model/manager.go:756-774 | after any prefix of a sound plan exactly the slots moved so far have left their owners |
| SlotPlanner.MoveFills | cluster/model/manager.go:763-771 | one planned move keeps the empty masters filled one after the other to the target, gives exactly one slot and takes exactly one from the source |
| Rebalance.DrainRangeExact | cluster/model/manager.go:760-771 | how many slots the loop over one range takes, in closed form, from range length, surplus and room left, and that nobody else changes |
| Rebalance.DrainRangesExact | cluster/model/manager.go:756-774 | the same for all ranges of a master |
| Rebalance.KeepsTarget | cluster/model/manager.go:759-773 | a master with a surplus stays at or above the target if and only if its last range is longer than the target or the new masters have no room beyond its surplus |
| Rebalance.PlanConserves | cluster/model/manager.go:742-754 | after the plan the masters own all 16384 slots between them, each slot once, and their counters add up to 16384 |
| Rebalance.PlanFillsEmpties | cluster/model/manager.go:742-774 | whatever ranges the old masters have, every new master ends with exactly the target, exactly that many slots move, and no new master gives any |
| Rebalance.DrainMastersExact | cluster/model/manager.go:742-774 | the loop over all masters in closed form: every old master gives what its ranges offer as far as the earlier ones leave room, the new ones are filled in turn and give nothing |
| Rebalance.PlanBalances | cluster/model/manager.go:742-774 | for any ranges, the plan leaves every master between the target and the target plus the remainder, with each slot owned once and counted, if and only if every old master has the target and either no surplus, a last range longer than the target, or no more room left to it than its surplus |
| Rebalance.OneRangeBalances | cluster/model/manager.go:742-774 | this holds when every old master has one range and at least the target |
| Unbalanced.DrainedEmpty | cluster/model/manager.go:756-774 | a cluster that meets every premise of the planner, in which a master with two ranges loses all its slots |
| ClusterModel.ClusterManager.constructor | cluster/model/manager.go:114-122 | a manager without nodes, masters or empty masters, over the given hosts |
| ClusterModel.ClusterManager.AddNewMaster | cluster/model/manager.go:147-152 | the id is appended to the masters, and the node to the empty masters if it is known |
| ClusterModel.ClusterManager.GiveSlot | cluster/model/manager.go:763-771 | the loop body on shared nodes, with its two counter updates, is the planned move on values |
| ClusterModel.ClusterManager.DrainSlotRange | cluster/model/manager.go:761-772 | the loop over one range on shared nodes refines the function the theorems are about |
| ClusterModel.ClusterManager.CollectTasksFromMaster | cluster/model/manager.go:756-774 | the loop over the ranges refines its function |
| ClusterModel.ClusterManager.CollectSlotTasks | cluster/model/manager.go:742-754 | the whole planner on shared nodes yields the tasks and counters of the plan |
| SlotAllocation.SharesTile | cluster/model/manager.go:523-560 | the shares of the masters tile the slots: each slot is in one share and in no other |
| SlotAllocation.ShareSize | cluster/model/manager.go:530-540 | all shares have the same size but the last, which has the remainder too |
| SlotAllocation.AssignSlotsToMasters | cluster/model/manager.go:523-560 | the ADDSLOTS commands sent are the shares in order, up to the first master whose command fails; without masters it fails |
| SlotAllocation.SetRolesScalesOut | cluster/ops/scale.go:131-156 | if the new nodes hold no slots and the cluster reports as masters the old ones and those new nodes that replicate nobody after the set-roles step, each once, then the masters are the old ones and the new masters of that step, in any order, which is the premise of the end-to-end theorems |
| SlotAllocation.ScaleOutIsPossible | cluster/ops/scale.go:131-156 | that premise can be met by any distinct old and new masters, at most 16384 together |
| ShardCutting.NewMastersReplicateNobody | cluster/ops/scale.go:139-151 | the new masters are exactly the new nodes that replicate nobody |
| SlotAllocation.CreatedComplete | cluster/model/manager.go:523-560 | a cluster created this way and then scaled out meets what the planner needs: ranges list what is owned, counters agree, old masters hold at least the new target |
| SlotAllocation.RebalanceAfterCreate | cluster/model/manager.go:742-774 | creating masters and planning for new ones reaches the balance |
| SlotAllocation.ReplanIsEmptyWhenEven | cluster/ops/scale.go:171-178 | planning again after a plan yields no task if and only if the slots divide evenly among the masters |
| SecondPlan.DrainMastersTakes | cluster/model/manager.go:742-774 | with one range per master every plan takes from each the slots at the end of its range, as many as its counter drops |
| SecondPlan.SecondPlanStartsOver | cluster/ops/scale.go:171-178 | the first plan takes the last slots of an old master's share, the second again the last ones of the same share, as many as the master has above the target, all for the first new master |
| SecondPlan.PlannedTwice | cluster/ops/scale.go:171-178 | some slot of an old master is in both plans if and only if it gave something in the first and has more than the target left |
| KeyMoves.ClassifyKeys | cluster/model/manager.go:959-971 | normal keys and big keys are the keys below and at or above the limit, in order; keys of unknown size are in neither |
| KeyMoves.Chunks | cluster/model/manager.go:929-943 | the loop cuts the keys into consecutive chunks |
| KeyMoves.ChunksCover | cluster/model/manager.go:929-943 | the chunks put together are the keys, each once and in order, none empty or over-long |
| KeyMoves.AtMostElevenChunks | cluster/model/manager.go:929-943 | however many keys there are, at most eleven batches are sent |
| KeyMoves.CommandsHandle | cluster/model/manager.go:915-944 | the commands for a slot handle exactly the fetched keys, apart from those whose size query failed when there are more than fifty; none of them is a delete, which only follows a copy |
| KeyMoves.SortedBySize | cluster/model/manager.go:915-992 | of more than 50 keys every key of at least 10 MiB is named by copies as often as it was fetched and by no batch, every smaller one by batches as often as it was fetched and by no copy |
| KeyMoves.CopiesComeFirst | cluster/model/manager.go:920-943 | all copies come first, one for each large key, then batches of small keys, all but the last one of a tenth of them but at least ten |
| KeyMoves.FewKeysInOneBatch | cluster/model/manager.go:915-919 | up to 50 keys go in one batch of all of them, none in no command |
| SlotMigration.StepInv | cluster/model/manager.go:887-956 | every step of any one task, successful or failed, keeps the invariant of all: every slot claimed, no key lost, no other slot touched |
| SlotMigration.GroupSlotTasks | cluster/model/manager.go:801-812 | the grouping loop yields for every source address exactly its tasks |
| SlotMigration.GroupIsFilter | cluster/model/manager.go:801-812 | a group is the tasks of its source, in plan order, and there is a group for every source that has any |
| SlotMigration.GroupsPartition | cluster/model/manager.go:801-812 | a task is in the group of its source as often as in the plan and in no other group |
| SlotMigration.OnePortPerGroup | cluster/model/manager.go:776-812 | all tasks of a group have the same source port, so one connection serves the group |
| SlotMigration.QueueIsGroup | cluster/model/manager.go:825-848 | what is queued for the workers of a source is its group, task by task |
| SlotMigration.StaffedThroughout | cluster/model/manager.go:814-855 | in every state of every execution each task waits, is with one worker or is finished, and at most 16 of a source are under way |
| SlotMigration.ExecutionInv | cluster/model/manager.go:814-855 | the invariant of all slots and tasks holds in every state of every execution |
| SlotMigration.NothingIsLost | cluster/model/manager.go:814-956 | in every state of every interleaving, whatever commands fail, every slot is claimed by some node and all its keys are on the source or the destination |
| SlotMigration.ScheduleDoesNotMatter | cluster/model/manager.go:814-956 | if no command fails, every schedule ends with every slot claimed by exactly the owner the plan gives it |
| SlotMigration.AllKeysArrive | cluster/model/manager.go:887-944 | after an execution in which every command succeeded, the keys of a planned slot are all on the destination if and only if it had at most 1000 |
| MigrationCommands.CommandsInOrder | cluster/model/manager.go:887-957 | in every state of every execution, whatever fails, the commands of a task are the beginning of IMPORTING on the destination, MIGRATING on the source, the fetch, key commands on the source, NODE on the destination, NODE on the source, each sent to the port in the task |
| MigrationCommands.CommandsOfSuccess | cluster/model/manager.go:887-1004 | if every command succeeds and all workers finish, they are exactly these, each once, with the key commands for the fetched keys and a delete after every copy |
| SlotMigration.LargeSlotsKeepKeys | cluster/model/manager.go:887-944 | in every state of every execution, whatever fails, at least as many keys are on the source as the slot has above 1000 |
| SlotMigration.OneKeyTooMany | cluster/model/manager.go:887-944 | a slot with 1001 keys is never empty on its source |
| MigrationProgress.MigrationEnds | cluster/model/manager.go:814-855 | no execution has more than 2018 steps per task, whatever fails |
| MigrationProgress.SomeWorkerCanGoOn | cluster/model/manager.go:814-855 | unless all channels are drained and all workers idle, some worker has a next step that succeeds |
| MigrationProgress.LargeSlotsStay | cluster/model/manager.go:946-956 | if sources keep a slot while they have keys of it, a slot with more than 1000 keys is never handed over |
| MigrationProgress.CanFinish | cluster/model/manager.go:814-956 | if no planned slot has more than 1000 keys, every run without failures so far is the beginning of one that ends without failures |
| MigrationProgress.CanSucceed | cluster/model/manager.go:814-956 | with such sources an execution in which every command succeeds and all workers finish exists if and only if no planned slot has more than 1000 keys |
| SlotMigration.ScaleOutReachesBalance | cluster/model/manager.go:721-740 | create, scale out, plan, migrate: if no command fails every slot ends claimed by exactly one node, whatever the schedule, and these owners are balanced |
| MigrationProgress.ScaleOutCanSucceed | cluster/model/manager.go:721-740 | create, scale out, plan, migrate: with sources that keep a slot while it has keys, an execution that ends without failures, with every slot claimed by exactly its balanced owner, exists if and only if no planned slot has more than 1000 keys |
| PipelineEngine.ForwardReaches | cluster/pipeline/pipeline.go:76-109 | a run resumed after j steps skips exactly these and executes the others once each, in order, up to the one that fails; every crash point leaves a table it can be resumed from |
| PipelineEngine.AttemptTries | cluster/pipeline/pipeline.go:145-165 | a step is tried at most Retry + 1 times, stops at the first success, and fails only if all attempts fail |
| PipelineEngine.CrashRecordsOnlySuccesses | cluster/pipeline/pipeline.go:76-109 | whatever table writes are lost, a crash at any point of the forward phase leaves a table that records only steps that succeeded |
| PipelineEngine.RestartResumes | cluster/pipeline/pipeline.go:46-109 | if writes are applied, a restart after a crash at any point finds a prefix that misses at most the last success, and executes the rest once each and in order |
| PipelineEngine.NewStartsAt | cluster/pipeline/pipeline.go:46-63 | a new pipeline starts with exactly the recorded prefix marked as completed |
| PipelineEngine.SaveLoads | cluster/data/store/store.go:252-303 | loading after saving a step gives the steps of before and that one |
| PipelineEngine.StartKeepsLoaded | cluster/data/store/store.go:264-303 | starting a step that is not completed changes nothing that loading sees |
| PipelineEngine.FailKeepsLoaded | cluster/data/store/store.go:274-303 | so does marking such a step as failed |
| PipelineEngine.RollbackUndoes | cluster/pipeline/pipeline.go:168-186 | rollback calls exactly the Undos of the earlier steps, once each and in reverse order, unmarks exactly these, and clears the table if there was one to call |
| PipelineTable.DeleteOnlyItsRows | cluster/data/store/store.go:305-309 | deleting a pipeline removes all its rows and leaves every row of every other pipeline as it was |
| PipelineTable.OtherPipelinesStay | cluster/pipeline/pipeline.go:76-186 | whatever writes are lost, a run, its rollback and a crash at any of their points leave every row of every other pipeline as it was |
| PipelineTable.OtherPipelinesStayPersisted | cluster/ops/create.go:142-177 | the same for a run in which persist-db deletes the rows of its pipeline |
| PipelineTable.TableTellsTheRun | cluster/pipeline/pipeline.go:82-106 | if writes are applied, at every point the steps executed so far are completed, one that was called says running or what an earlier run left there, and no other row differs; a failed run ends with exactly its last step failed |
| PipelineEngine.FailureRestoresWorld | cluster/pipeline/pipeline.go:76-186 | with Undos that invert their steps, a run that fails at any step ends in the world of before, after executing the earlier steps once each and undoing them in reverse |
| PipelineEngine.FailureLeavesMarks | cluster/pipeline/pipeline.go:98-186 | after a failure exactly the earlier steps without Undo stay marked; the table forgets the run if and only if there was nothing to record or something to undo |
| PipelineEngine.StaysFailed | cluster/pipeline/pipeline.go:76-109 | once a step has failed, the loop over more steps does nothing |
| PipelineRerun.RunsUnmarked | cluster/pipeline/pipeline.go:76-109 | from any set of completed steps, also one a failed run left behind, a run executes exactly the unmarked steps, once each and in order, up to the first that fails |
| PipelineRerun.FailsAfterAllRetries | cluster/pipeline/pipeline.go:145-165 | a run fails at a step if and only if its forward phase ends with retry + 1 failed calls of that step |
| PipelineRerun.AttemptCalls | cluster/pipeline/pipeline.go:145-165 | a step fails after exactly its number of failed calls, or succeeds with the call after fewer failed ones |
| PipelineRerun.RetriesAreNewTries | cluster/pipeline/pipeline.go:145-165 | a step whose success depends on the time alone succeeds if and only if one of the times of its calls is good |
| PipelineRerun.RetryExecutes | cluster/pipeline/pipeline.go:113-127 | the run of a retry from a step executes the earlier unmarked steps and all from that step on, once each and in order, up to the first that fails |
| PipelineRerun.FailureThenRun | cluster/pipeline/pipeline.go:98-186 | the run after a failure at a step executes the earlier steps with Undo and all from that step on, once each and in order, up to the first that fails; so it passes over exactly the earlier ones without Undo |
| PipelineRerun.CrashDuringRollback | cluster/pipeline/pipeline.go:168-186 | a crash at any point of a rollback finds the steps from some c on undone as far as they can be; a restart finds nothing recorded and executes all steps from the first on, so those below c and those without Undo a second time, or, only right after the first Undo, finds all steps before the failed one recorded and passes over step c, which is undone |
| PipelinePersist.ClearedThenSaved | cluster/ops/create.go:142-177 | a successful persist-db leaves its own row as the only one of its pipeline; a crash just before that row is written finds none, although all steps so far are done |
| PipelinePersist.FirstRunLeavesPersist | cluster/ops/scale.go:180-221 | a successful run in which neither persist-db nor a later step was marked executes every unmarked step once and leaves a table from which exactly persist-db and the later steps are loaded |
| PipelinePersist.SecondRunSkipsPersist | cluster/pipeline/pipeline.go:46-109 | the next pipeline of that name, if it succeeds, executes exactly the steps before persist-db and leaves all steps recorded |
| PipelinePersist.LaterRunsDoNothing | cluster/pipeline/pipeline.go:46-109 | every later pipeline of that name reports success, executes no step and leaves the table as it is |
| PipelinePersist.ThirdRunIsLost | cluster/ops/scale.go:43-221 | three pipelines of one name in a row, the first on a table without their rows, the first two successful: they execute all steps, those before persist-db, and none |
| PipelinePersist.MarksAreRecorded | cluster/pipeline/pipeline.go:76-109 | if writes are applied, the table and the marks in memory name the same steps throughout a run in which no step clears the table |
| PipelineRerun.ResetKeepsEarlier | cluster/pipeline/pipeline.go:113-127 | whatever is completed, resetting from a step takes the marks off exactly that step and the later ones |
| PipelineEngine.Runner.ExecuteStep | cluster/pipeline/pipeline.go:145-165 | the retry loop refines the attempts the theorems are about |
| PipelineEngine.Runner.Rollback | cluster/pipeline/pipeline.go:168-186 | the rollback loop refines its function |
| PipelineEngine.Runner.Run | cluster/pipeline/pipeline.go:76-109 | the run refines forward phase and, after a failure, rollback, and reports the step that failed |
| PipelineEngine.Runner.RetryFrom | cluster/pipeline/pipeline.go:113-127 | an unknown step is an error that changes nothing; else the named step and all later ones lose their marks, and the result is that of a run |
| RoleLayout.StaffedWhenAligned | cluster/model/manager.go:441-473 | for any node list and any nodes placed before, if no command fails, every node of the cluster has exactly one role and every master its full number of replicas if and only if the positions of the cluster's nodes line up with the blocks and no placed node is in the way |
| RoleLayout.OneRoleEach | cluster/model/manager.go:441-473 | for a first layout of one cluster this holds if and only if the shard size divides the number of nodes |
| RoleLayout.LayInv | cluster/model/manager.go:444-471 | masters are the cluster's nodes among the first, each leads what it may take of the cluster's nodes in its block, and all these are placed |
| RoleLayout.LayTouches | cluster/model/manager.go:444-471 | beyond these masters and their blocks nobody's placement changes |
| RoleLayout.MixedListsLoseReplicas | cluster/model/manager.go:441-473 | a list with two clusters in which one gets two masters and no replica, whatever the commands come to |
| RoleLayout.SecondLayoutIsEmpty | cluster/model/manager.go:461-463 | after a successful layout with replicas, a second one with the same manager hands out masters without replicas |
| RoleLayout.LastAnswerStands | cluster/model/manager.go:444-493 | one command is sent for every replica a master gets, and the master list ends as the cluster reported it after the last command, or as it was if none was sent, followed by the masters promoted since |
| RoleLayout.StopsAtFirstFailure | cluster/model/manager.go:441-493 | also with failures: every command but the one that ended the layout was accepted, each accepted one placed at most its two nodes and the failed one none, and a refused one left the master list alone |
| RoleLayout.LeftoversBecomeMasters | cluster/model/manager.go:441-493 | if nodes that replicate nobody report as masters, the master list ends as the masters of the layout if and only if the shards use up all nodes |
| ShardCutting.CutIntoShards | cluster/model/manager.go:297-322 | the loop with its cycling counter, shared with the set-roles step, refines cutting the list into shards, beside the roles there were |
| ShardCutting.NewNodesGetOneRole | cluster/ops/scale.go:139-156 | the nodes of new shards all get exactly one role: the first of each shard leads exactly the nodes right behind it |
| ShardCutting.OldRolesStay | cluster/model/manager.go:300-320 | the roles of old nodes stay as they were, beside the new ones |
| ShardCutting.EveryNodeHasOneRole | cluster/model/manager.go:297-322 | after a scale-out every node that had one role has one still, and every new node has one |
| RoleLayout.NoReplicaTwice | cluster/model/manager.go:453-470 | no master lists a replica twice |
| ShardCutting.NoNewReplicaTwice | cluster/ops/scale.go:139-156 | no new master lists a replica twice |
| RoleLayout.RoleManager.AssignMastersAndSlaves | cluster/model/manager.go:441-473 | the two loops, with the placed nodes and the master list they update and the early return on a failed command, refine the layout from any earlier state |
| RoleLayout.RoleManager.AttachBlock | cluster/model/manager.go:453-470 | the inner loop with its guards and its early return refines attaching a block |
| RoleLayout.RoleManager.SetNodeAsSlave | cluster/model/manager.go:476-494 | a refused command changes nothing; an accepted one replaces the master list, and fails if it cannot be read |
| RoleCheck.ClassifyNodesByType | cluster/model/manager.go:611-620 | the two lists are the reports of masters and of slaves, in order |
| RoleCheck.BuildMasterSlaveTopology | cluster/model/manager.go:622-639 | fails if and only if a slave names a master that did not report as one; else the masters are the reported ones, each with exactly the slaves that name it |
| RoleCheck.EqualClusterNodeType | cluster/model/manager.go:1057-1068 | true if and only if both maps have the same masters with the same number of replicas each |
| RoleCheck.ExchangedReplicasPass | cluster/model/manager.go:1057-1068 | two different maps that pass, because replicas are only counted |
| RoleCheck.TakenOverPasses | cluster/model/manager.go:1039-1054 | once the nodes report the given roles, in any order, the comparison succeeds |
| RoleCheck.CheckNodeType | cluster/model/manager.go:1042-1048 | one attempt succeeds for certain once the roles are taken over, and success means the reported topology has the expected shape |
| RoleCheck.BootstrapPasses | cluster/model/manager.go:429-439 | the roles of the bootstrap layout pass the check once reported |
| RoleCheck.ScaleOutPasses | cluster/model/manager.go:297-348 | after a scale-out the check compares with old and new roles together and passes once all nodes report theirs |
| RoleCheck.NewRolesAloneFail | cluster/model/manager.go:300-348 | compared with the new roles alone it would fail in every cluster with an old master |
| ClusterText.JoinInvertsSplit | cluster/utils/utils.go:31-37 | joining the parts of a split text gives the text, and no part has the separator |
| ClusterText.SplitInvertsJoin | cluster/utils/utils.go:31-37 | splitting a join of parts without the separator gives the parts |
| ClusterText.ParseIPPortExact | cluster/utils/utils.go:31-37 | host and port are returned if and only if the text is host, one colon, port |
| ClusterText.PortRoundTrip | cluster/utils/utils.go:14-28 | a printed number is read back if and only if it fits 16 bits |
| ClusterText.MeetReachesTheNode | cluster/model/manager.go:376-395 | CLUSTER MEET is sent to the node's own host and port if the host is non-empty and has no colon, and not at all otherwise |
| ClusterText.ParseSlots | cluster/data/types.go:80-98 | all tokens are read in order, or none if one is malformed |
| ClusterText.RangeRoundTrip | cluster/data/types.go:100-122 | a printed slot or range is read back |
| ClusterText.SlotsRoundTrip | cluster/data/types.go:80-122 | so is every list of non-negative ranges |
| ClusterText.NeverNegative | cluster/data/types.go:80-122 | no token is ever read as a negative slot |
| ClusterText.SlotsOnTheWayFail | cluster/data/types.go:100-114 | a token for a migrating or importing slot is always malformed |
| ClusterText.CalculateSlots | cluster/model/manager.go:671-677 | the loop adds up the lengths of the ranges |
| ClusterText.LengthsCountSlots | cluster/model/manager.go:671-677 | without reversed ranges the sum is at least the number of slots denoted, with equality if and only if no two ranges overlap |
| ClusterText.LengthsAndTotal | cluster/model/manager.go:671-677 | the sum is at most the tally of the planner, and agrees with it if and only if no range is reversed by more than one |
| ClusterText.ReversedRangeIsRead | cluster/data/types.go:100-114 | a reversed range is accepted, denotes nothing and counts as -1 |
| ClusterText.LineIsRead | cluster/data/parse.go:20-57 | a line is read as down, skipped or listed by flags, address (one with further colons is skipped), filter and tokens, and a listed node has id, address, port, role, master, link state and slots as shown |
| ClusterText.LineRoundTrip | cluster/data/parse.go:20-57 | reading back a line as the server prints it gives the node it shows |
| ClusterText.ListingRoundTrip | cluster/data/parse.go:11-60 | a whole listing without failures is read back node by node, in order |
| ClusterText.MigratingMasterIsMissing | cluster/data/parse.go:49-56 | a master with any slot on its way is skipped |
| ClusterText.NoFailoverCountsAsDown | cluster/data/parse.go:24-27 | a replica with the flag nofailover is reported as failed |
| ClusterText.ParseClusterNodeLines | cluster/data/parse.go:11-60 | the loop collects listed nodes and failed ids, each in order |
| ClusterText.ParseLine | cluster/data/parse.go:16-57 | the loop body, with its early exits, refines the reading of a line |
| Decimal.AtoiInvertsItoa | cluster/data/types.go:105-117 | printing and reading a number gives it back if and only if it fits 64 bits |
| ConsistentHash.PrimaryIsNearest | cache/consistenthash/consistenthash.go:43-52 | Get answers the owner of the point at the least clockwise distance from the key |
| ConsistentHash.PreferenceByDistance | cache/consistenthash/consistenthash.go:56-75 | the replica list has every owner once, sorted by the distance of its nearest point |
| ConsistentHash.PreferenceUnique | cache/consistenthash/consistenthash.go:56-75 | it is the only list of the owners sorted that way |
| ConsistentHash.ReplicaList | cache/consistenthash/consistenthash.go:43-75 | GetN answers distinct nodes, min(n, members) of them, Get's answer first, and shorter answers are prefixes of longer ones |
| ConsistentHash.RemovalFiltersPreference | cache/consistenthash/consistenthash.go:78-92 | removing a node strikes it from every key's replica list and changes nothing else |
| ConsistentHash.RemovalPromotesSecondary | cache/consistenthash/consistenthash.go:78-92 | keys of other nodes stay, keys of the removed node go to the next in their list |
| ConsistentHash.AddMovesKeysOnlyToNewNode | cache/consistenthash/consistenthash.go:31-40 | adding a node moves keys only to it, whatever points collide |
| ConsistentHash.AddThenRemoveRestores | cache/consistenthash/consistenthash.go:31-92 | adding and removing a node restores the ring if and only if the node was not there and none of its points was taken |
| ConsistentHash.AddingAgainExactly | cache/consistenthash/consistenthash.go:31-40 | adding a node again changes no replica list if and only if each of its points leads to it already |
| ConsistentHash.AddingAgainChangesNothing | cache/consistenthash/consistenthash.go:31-40 | so it is for a member that owns all its points |
| ConsistentHash.SortPermutes | cache/consistenthash/consistenthash.go:39-39 | sorting keeps every point as often as it was there |
| ConsistentHash.AddNodeValid | cache/consistenthash/consistenthash.go:31-40 | adding keeps the points sorted and owned |
| ConsistentHash.RemoveNodeValid | cache/consistenthash/consistenthash.go:78-92 | removing keeps them so |
| ConsistentHash.Ring.constructor | cache/consistenthash/consistenthash.go:18-28 | an empty ring |
| ConsistentHash.Ring.Add | cache/consistenthash/consistenthash.go:31-40 | the loops over nodes and replicas refine adding the nodes one by one |
| ConsistentHash.Ring.Get | cache/consistenthash/consistenthash.go:43-52 | binary search with wrap-around answers the primary owner, or nothing on an empty ring |
| ConsistentHash.Ring.GetN | cache/consistenthash/consistenthash.go:56-75 | the walk with the set of seen nodes answers the first n of the replica list |
| ConsistentHash.Ring.Gather | cache/consistenthash/consistenthash.go:65-74 | its loop collects first occurrences until n are found or the ring is closed |
| ConsistentHash.Ring.Remove | cache/consistenthash/consistenthash.go:78-92 | both loops refine removing the node |
| PeerRegistry.RunIsReachable | cache/peer/registry.go:177-231 | after any run of joins, failed dials and leaves every owner on the ring is the local node or has a client, dialled with its own address |
| PeerRegistry.JoinTakesItsPoints | cache/peer/registry.go:202-219 | after any run, a dialled join of an address without a client makes it the owner of each of its 50 points, every other point keeps its owner, and PickPeer answers it for every key that hashes to one of its points, unless it is this node |
| PeerRegistry.StartsWithItsPoints | cache/peer/registry.go:53-97 | after construction this node owns its 50 points and no other point is owned |
| PeerRegistry.ClientsAreJoined | cache/peer/registry.go:177-231 | after any run exactly the addresses dialled since they last left have a client, and it is their own |
| PeerRegistry.OwnersAreMembers | cache/peer/registry.go:177-231 | after any run, also with colliding points, the owner of a point is on the ring and the point is one of its 50 |
| PeerRegistry.RingIsMembership | cache/peer/registry.go:177-231 | if no points collide, after any run an address owns a point if and only if it is this node or was dialled, has not left since, and the point is one of its 50 |
| PeerRegistry.CandidatesAreReplicaList | cache/peer/registry.go:139-154 | after any run the peers offered for a key are its replica list without the local node, none missing |
| PeerRegistry.FailoverFollowsReplicaList | cache/peer/registry.go:139-231 | when a peer leaves, the peers offered are the old list without it, in order, topped up from further along |
| PeerRegistry.PickIsFirstCandidate | cache/peer/registry.go:122-154 | PickPeer finds a peer if and only if the primary owner is another, named node, and then it is the first candidate of every fallback list |
| PeerRegistry.Registry.constructor | cache/peer/registry.go:53-97 | the local node is on the ring and has no client |
| PeerRegistry.Registry.AddToRing | cache/peer/registry.go:202-219 | a join puts the node on the ring and gives it a client; a node that has one, or cannot be dialled, changes nothing |
| PeerRegistry.Registry.RemoveFromRing | cache/peer/registry.go:221-231 | a leave takes the node off the ring and drops its client |
| PeerRegistry.Registry.PickPeer | cache/peer/registry.go:122-136 | the method answers what the theorems are about |
| PeerRegistry.Registry.PickPeerWithFallback | cache/peer/registry.go:139-154 | so does the loop over the candidates |
| LruCache.TrimIsLongestPrefix | cache/lru/lru.go:85-87 | without a limit eviction leaves everything; with one it leaves the longest prefix of the recency list whose bytes are within it, and evicts the rest in order from the end |
| LruCache.BytesAreKeysAndValues | cache/lru/lru.go:56-103 | the bytes counted are those of all keys and all values |
| LruCache.MostRecentFirst | cache/lru/lru.go:43-103 | in every run, for every limit, the list is in the order of last use, so that eviction takes the entries unused for longest |
| LruCache.LoopCanStop | cache/lru/lru.go:85-87 | the loop has a state to stop in if and only if the limit is not negative |
| LruCache.Inclusion | cache/lru/lru.go:43-103 | over every run the smaller cache's list is a prefix of the larger one's, values are the store's, and the larger one never has fewer hits |
| LruCache.BytesTakenOut | cache/lru/lru.go:56-103 | taking a key out gives back exactly its bytes |
| LruCache.Cache.constructor | cache/lru/lru.go:32-40 | an empty cache |
| LruCache.Cache.Get | cache/lru/lru.go:43-51 | answers the key's value and makes it the most recent; a miss changes nothing |
| LruCache.Cache.RemoveOldest | cache/lru/lru.go:56-67 | drops exactly the last entry and its bytes and reports it as evicted |
| LruCache.Cache.Add | cache/lru/lru.go:71-88 | the key is first with the new value, what no longer fits is evicted in order, and the byte count is that of the entries; with a limit nbytes is within it afterwards, and nothing is evicted if all fits |
| LruCache.Cache.Evict | cache/lru/lru.go:85-87 | the eviction loop refines trimming, ends within the limit and evicts nothing that fits |
| LruCache.Cache.Remove | cache/lru/lru.go:90-103 | takes out exactly the key, says whether it was there, and keeps the byte count right |
| ExpiringCache.HoldsLastStored | cache/cache.go:35-88 | over every run, whatever is evicted, the cache holds for a key only the entry last stored, with no delete or purge since |
| ExpiringCache.AnswersAreCurrent | cache/cache.go:56-71 | an answer is that value, and it has not expired |
| ExpiringCache.UnlimitedIsExact | cache/cache.go:35-88 | without a byte limit a lookup answers if and only if the last stored entry has not expired |
| ExpiringCache.AnsweredUntilExpiry | cache/cache.go:18-71 | without a limit a value stored without expiry is answered at every later time, one with expiry exactly until then |
| ExpiringCache.LookupDropsExpired | cache/cache.go:56-71 | a lookup drops the key exactly when it answers nothing, and leaves other keys alone |
| ExpiringCache.Cache.Add | cache/cache.go:35-42 | stores without expiry, creating the LRU on first use; without a limit the value is answered at every later time |
| ExpiringCache.Cache.AddWithTTL | cache/cache.go:44-54 | stores with the expiry now plus ttl, creating the LRU on first use; without a limit the value is answered exactly until then |
| ExpiringCache.Cache.Get | cache/cache.go:56-71 | a live entry is answered and touched; an expired one is removed and missed |
| ExpiringCache.Cache.Delete | cache/cache.go:73-80 | removes the key |
| ExpiringCache.Cache.Purge | cache/cache.go:84-88 | removes everything |
| CacheGroup.LocalHitsAreFresh | cache/geecache.go:106-146 | over every run a local hit is the value last stored for the key, stored after the last slot migration |
| CacheGroup.FirstReplyWins | cache/geecache.go:171-192 | a load answers the first reply that is not a failure, and the Getter's if all peers fail |
| CacheGroup.UnlimitedGroupIsExact | cache/geecache.go:106-234 | without a limit, after any run, a lookup is a local hit if and only if the key was loaded or pushed with no later deletion or migration, and answers that value; otherwise it answers what is loaded, which is found from then on |
| CacheGroup.EmptyKeyIsRefused | cache/geecache.go:129-133 | the empty key is an error and changes nothing |
| CacheGroup.RunIsTruthful | cache/geecache.go:129-230 | over every run of any number of nodes everything stored or answered anywhere, directly, through peers or as a replica, is the Getter's value for the key |
| CacheGroup.Group.StoreReplica | cache/geecache.go:165-167 | stores the value |
| CacheGroup.Group.DeleteLocal | cache/geecache.go:159-161 | drops the key |
| CacheGroup.Group.Lookup | cache/geecache.go:129-146 | an empty key fails; a dirty group is purged once; a hit is answered; a miss is loaded and stored |
| CacheGroup.Group.Load | cache/geecache.go:171-192 | the first peer that answers, else the Getter, and the value is stored |
| CacheGroup.SlotInvalidator.InvalidateSlots | cache/invalidator.go:29-35 | all groups are marked if the interval is not empty, none otherwise |
| CacheGroup.MigratedInterval | cluster/model/manager.go:873-884 | the interval spans exactly from the least to the greatest migrated slot |
| CacheGroup.InvalidateCacheAfterMigration | cluster/model/manager.go:873-884 | after a migration that moved something every group is dirty |
| HotKeys.BecomesHotAtTrip | cache/hotkey.go:75-145 | in every run a key that is not hot becomes hot exactly on the access that brings the accesses since the last prune to the first multiple of 64 at or above the threshold |
| HotKeys.HotExactlyWhenBusy | cache/hotkey.go:75-181 | in every run exactly the keys found busy and not forgotten since are hot, with the time they were last found busy |
| HotKeys.RunInv | cache/hotkey.go:75-181 | hot keys are counted, counters are accesses since the last prune |
| HotKeys.IdleKeysAreForgotten | cache/hotkey.go:160-181 | a key idle longer than the cooldown at a prune is gone from both maps after the next prune |
| HotKeyCallers.HotKeysAreCounted | cache/hotkey.go:75-181 | in every interleaving of the lock sections of any number of callers and prunes, every hot key has a counter |
| HotKeyCallers.AccessesMissed | cache/hotkey.go:75-181 | in every interleaving the counter of a key shows at most the accesses counted since the last prune, and misses at most one for each caller that was between looking up its counter and counting when that prune came |
| HotKeyCallers.AccessIsMissed | cache/hotkey.go:80-88 | an interleaving in which an access is missed |
| HotKeys.HotKeyTracker.constructor | cache/hotkey.go:49-63 | nothing counted, nothing hot |
| HotKeys.HotKeyTracker.Record | cache/hotkey.go:75-96 | refines one access, and answers whether the key just became hot |
| HotKeys.HotKeyTracker.CheckHot | cache/hotkey.go:126-145 | marks or refreshes the key at the threshold, and answers true only for a key that was not hot |
| HotKeys.HotKeyTracker.Prune | cache/hotkey.go:160-181 | both loops refine one prune |

## Left out

- Redis itself: what CLUSTER, MIGRATE and GETKEYSINSLOT do is modelled by their effect or their failure; a rejection is a failure. The one rejection a result depends on, SETSLOT NODE on a source that still has keys, is a premise of that result.
- Timeouts, sleeps, logging, progress reports and polling loops.
- Pods, containers, SQL and files other than the pipeline table; the records of clusters, containers and operations.
- Gossip: joins and leaves arrive as an arbitrary sequence of events.
- `checkSlotCounts`: it never reports a mismatch, so there is nothing to state.
- Single-flight loading, the rate limiter of the `Getter`, and pushing replicas to secondaries and of hot keys: a pushed replica appears as its arrival, in any order.
- Concurrency inside one cache or ring: these hold a lock for the whole operation and are modelled as atomic; the atomic swap of the dirty flag is one step with the purge that follows.
- 64-bit overflow of the LRU byte count and of slot numbers; lengths and counts are unbounded.
- The elements of the LRU list are named by their keys, so aliasing of list elements is not modelled, nor are callbacks that call back into the cache.
- The hash is any function to 32 bits; CRC32 is not modelled.
- `GetN` with a negative count and a shard size of zero, on which the code panics.
- `All`, `Completed`, `Reset`, `IsHot` and other accessors, which would only add easy members.
- Sorting of the master and replica names after the role check rebuilt them, which nothing in the model depends on.
- RoleLayout.RoleManager.AssignMastersAndSlaves: the reported masters are taken as the refresh delivers them; that it sorts them by name is not modelled.
- PipelinePersist.FirstRunLeavesPersist: the loop with a step that clears the table is modelled on values; the class `Runner` has only steps that leave the table alone.
- HotKeyCallers.AccessesMissed: a prune is one section here; the code resets and drops key after key under its lock, while callers count without it, so the sections of one key stand for all.
