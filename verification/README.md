# Test Looper: what is proved about its core

Test Looper is a continuous-integration server. It keeps its state in a multi-version object
database, resolves test definitions into environments, moves pins between branches as commits
arrive, and hands tests to machines that report back over connections that can break. This
project models those parts in Dafny and proves, for all inputs and all runs, what they promise.

`dafny verify dfyconfig.toml` checks everything.

| file | what it models |
|---|---|
| Snapshots.dfy | the database as it should look: a machine that keeps every committed state |
| Serializability.dfy | what clients of that machine can tell from running alone |
| ObjectDatabase.dfy | the database as it is: deltas per version, tail values, caches, reference counts |
| DatabaseView.dfy | views and transactions on it, and the proof that whole schedules refine the machine |
| Indices.dfy | secondary indices kept up to date by single moves |
| CommitPriority.dfy | which branch reaches a commit and what priority it has, by a queue of tasks |
| TaskQueue.dfy | background tasks as linked stacks with several heads |
| Machines.dfy | machines, runs and deployments with their counters |
| ArtifactProtocol.dfy | artifact reports between worker and server across reconnects |
| Graphs.dfy | reachability, cycles and levels |
| Pins.dfy, PinMoves.dfy | the plan of commits that moves pins, and how far they move |
| Linearization.dfy | the order in which environments are searched |
| Variables.dfy | levels of variables and the substitution in one pass |
| EnabledTests.dfy, TestNames.dfy | which tests are enabled, stage order, names of tests and artifacts |
| Encoder.dfy | typed values to and from JSON |
| Codecs.dfy | sanitized names and packed bits |

Loops and field updates of the source are methods, proved against functions or state machines;
the laws are lemmas about those. Sets that the source iterates are gone through in any order.

## What does not hold

Some things that one would expect are false of the code. Each has its exact condition and,
where that is short, an example.

* The walk that claims commits for a branch whose head moved (TestManager.py 1862-1873) can leave
  a commit with the later of two branch names although the queue drains. `NamesRightExactly` says
  when, over the store before the move: names come out right exactly when the new head was reached
  already, or every commit below it that names a later branch lies below a parent, reached before,
  of some commit that is newly reached and has a user priority. `StaleName` is an example where
  they do not. Whether a commit is reachable, and so its priority, is right in any case.
* `_new` with the identity of an object that is on some index list puts it there twice or
  wrongly: `NewKeepsIndices`. `_set` on an object that does not exist can list it: `MoveKeepsIndices`.
  A committed value that encodes to null is not stored, which can change what an index function
  sees: `CommitKeepsIndices`. Each has an example: `MadeTwice`, `SetOnNothing`, `NullIsLost`.
* An exit that raises keeps its reference, so counts can be higher than the number of views in use
  and states live longer than needed.
* Giving up the last version leaves what is filed under it for ever, as the source resets a field of
  another name (line 607): `PopVersion`. Nothing reads it any more.
* With two workers a lower task can start while a higher one waits below a running one: `LowerFirst`.
* `startNewTest` does not look again whether the machine is alive in its second transaction:
  `AssignTest`. No other operation puts anything on a dead machine: `Execute`, `OrphansAreForsaken`.
  The next heartbeat of the run that is looked at cancels it: `TestHeartbeat`.
* `recordTestResults` does not look whether results were recorded before; a second time makes the
  active count one too low: `FinishedCounts`, and over runs `ActiveExactly`.
* A list of tuples does not survive the encoder, except where each tuple has one part that names
  itself, like the one character of a string: `TuplesTakenApart`, `OneCharacter`. Neither does a
  present value that is itself missing: `NestedNullExactly`.
* Repeated edges make the level placement fail with a missing key: `PlaceNodesInLevels`.

## Model

| member | source | states |
|---|---|---|
| DatabaseViews.Execute | test_looper/core/object_database.py:523-573 | for every schedule of steps of any number of views (both locked reads of a get, the parse between them, writes, the commit of an exit and its release as two steps, clean-up, clearing the cache), the delta-keeping database makes every observation of a machine that keeps every state for ever, and ends in the state that represents it |
| DatabaseViews.Perform | test_looper/core/object_database.py:194-205 | one step on the real objects is one step of the keep-everything machine, with the same observation |
| DatabaseViews.PerformAccess | test_looper/core/object_database.py:267-287 | the same for the steps of reading, probing and writing, whatever other views did between the two locked reads |
| DatabaseViews.PerformExit | test_looper/core/object_database.py:415-422 | the first locked step of leaving a view commits, rejects or only releases as the machine does; after a commit the reference is still held, and an exit that raises keeps it |
| DatabaseViews.PerformGiveBack | test_looper/core/object_database.py:575-581 | the second locked step, whatever other views did since the commit, is the release of the machine |
| DatabaseViews.Open | test_looper/core/object_database.py:523-535 | a new view is pinned to its state and counted, and no other view is disturbed |
| DatabaseViews.DatabaseView.Get | test_looper/core/object_database.py:267-287 | a read gives the pending write or else the value of the snapshot, parsed |
| DatabaseViews.DatabaseView.ReadFinish | test_looper/core/object_database.py:277-287 | what was parsed without the lock is filed where this snapshot reads it, after any commits and clean-ups |
| DatabaseViews.DatabaseView.Commit | test_looper/core/object_database.py:387-395 | accepted exactly when the view may write and nobody has committed since its snapshot; a refusal changes nothing, and afterwards each written key reads as what was written and every other as before |
| DatabaseViews.DatabaseView.Leave | test_looper/core/object_database.py:387-422 | raises exactly when there are writes and the view is read-only or overtaken, and commits exactly when there are writes otherwise; the reference is given back at once only when there is nothing to commit |
| DatabaseViews.DatabaseView.GiveBack | test_looper/core/object_database.py:575-581 | gives back one reference, after any commits, releases and clean-ups in between, and moves the horizon only as far as the remaining ones allow |
| DatabaseViews.DatabaseView.Exit | test_looper/core/object_database.py:415-422 | leaving without interruption: raises exactly when there are writes and the view is read-only or overtaken; only then the reference is not given back |
| Snapshots.CommitReads | test_looper/core/object_database.py:387-395 | after a commit a written key reads as what was written, or as nothing if that was a deletion or encodes to null, and any other key as before |
| Snapshots.ReadsOwnWrites | test_looper/core/object_database.py:267-290 | before a commit a view sees its own writes over its snapshot, and a key is present exactly when it has a value |
| Snapshots.Responds | test_looper/core/object_database.py:267-287 | an idle view answers a read in one step or in three, a test for presence at once, and refuses a write only if it may not write |
| Snapshots.StepSound | test_looper/core/object_database.py:537-581 | one step keeps every count the number of views that hold the state, and no held state below the oldest one served |
| Snapshots.RunSound | test_looper/core/object_database.py:523-623 | the same for every run |
| Snapshots.NoNeededStateCollected | test_looper/core/object_database.py:583-623 | in every run a view that is not released looks at a state that is still served, so the assertion of the read (line 650) holds |
| Snapshots.ReleaseCollects | test_looper/core/object_database.py:575-623 | after a release the oldest state served is the oldest one that a view still holds, or the same if none does |
| Serializability.Serializable | test_looper/core/object_database.py:387-395 | under every interleaving the final store, and the reads of every committed transaction, are those of running the committed ones alone in commit order; every other view saw one state of that run |
| Serializability.ReadsExactly | test_looper/core/object_database.py:267-287 | in every run a read gives what its view last wrote there, or else what the state the view was opened on has, and so for presence |
| Serializability.CommitsAreRead | test_looper/core/object_database.py:387-395 | in every run each commit makes of every key what its view last wrote there, and leaves the others |
| Serializability.SeesLastCommit | test_looper/core/object_database.py:387-395 | in every run a key reads in every later state as the last commit that wrote it left it |
| Serializability.OpensLatest | test_looper/core/object_database.py:523-535 | in every run a view or transaction is opened on the state that all commits before it have made, only a transaction to write; a view of an older state is given exactly when that is still served |
| Serializability.SerialIsHistory | test_looper/core/object_database.py:676-715 | chaining the committed write sets rebuilds the history |
| Serializability.RejectedExactlyWhenOvertaken | test_looper/core/object_database.py:684-685 | in every run a commit is refused exactly when the view is read-only or the run shows another commit after the view was opened, and then no state, count or other view changes |
| ObjectDatabase.Database.GetVersioned | test_looper/core/object_database.py:648-664 | for any state still kept: the JSON that key had after that commit, and beside it nothing or its parse |
| ObjectDatabase.Database.ServesState | test_looper/core/object_database.py:648-664 | every state still kept is served as it was committed |
| ObjectDatabase.ServedEntry | test_looper/core/object_database.py:648-674 | versions, tail value and latest store together determine the value of a key in every kept state |
| ObjectDatabase.BestIsLatest | test_looper/core/object_database.py:666-674 | between a state and the version served for it, the key was not touched |
| ObjectDatabase.Database.BestVersionFor | test_looper/core/object_database.py:666-674 | the search from the end finds the largest version not above the state |
| ObjectDatabase.Database.SetVersioned | test_looper/core/object_database.py:676-715 | accepted exactly on the latest state; the history grows by the store with the writes put in, and everything kept stays right |
| ObjectDatabase.CommitKept | test_looper/core/object_database.py:692-715 | tail values and new versions left by a commit still serve all older states |
| ObjectDatabase.Database.Cleanup | test_looper/core/object_database.py:583-623 | the oldest state served becomes the lowest one referenced, or stays when nothing is referenced; every state from there on is still served |
| ObjectDatabase.Database.PopVersion | test_looper/core/object_database.py:597-623 | one round gives up exactly one state and keeps all others right; what was filed under that version is gone, unless it was the last one |
| ObjectDatabase.LowestComesFirst | test_looper/core/object_database.py:612-612 | the versions of a key start with the lowest one if that one touched it, so the assertion in the clean-up holds |
| ObjectDatabase.Database.UpdateCache | test_looper/core/object_database.py:625-645 | a parse of the snapshot value, filed late, keeps every cached parse the parse of the JSON beside it |
| ObjectDatabase.RefiledKept | test_looper/core/object_database.py:625-645 | new parses beside the same JSON change no served value |
| ObjectDatabase.Database.IncVersion | test_looper/core/object_database.py:537-545 | counts one reference more and keeps the minimum |
| ObjectDatabase.Database.DecVersion | test_looper/core/object_database.py:547-561 | counts one reference less and keeps the minimum, None when there are none |
| ObjectDatabase.Database.ReleaseView | test_looper/core/object_database.py:575-581 | one reference less, and then the clean-up |
| ObjectDatabase.Database.ClearCache | test_looper/core/object_database.py:477-479 | forgets parses only |
| Indices.IndexedView.New | test_looper/core/object_database.py:206-265 | a new object is listed under each of its index values; the indices stay right exactly when no object of that identity was on a list before |
| Indices.IndexedView.Set | test_looper/core/object_database.py:303-315 | the object moves between the lists its old and new values name; the indices stay right exactly when it exists or goes on no new list |
| Indices.IndexedView.Delete | test_looper/core/object_database.py:292-301 | the object is gone and off all lists |
| Indices.IndexedView.UpdateIndices | test_looper/core/object_database.py:326-341 | only lists of changed values change, and only by this identity |
| Indices.IndexedView.Make | test_looper/core/object_database.py:206-341 | any write of a transaction leaves the objects, fields and lists that its kind of write says (`Wrote`), and keeps right indices right exactly when it is one of those that keep them |
| Indices.WroteRight | test_looper/core/object_database.py:206-341 | that condition follows from what the write does alone |
| Indices.IndexedView.IndexLookup | test_looper/core/object_database.py:343-363 | with right indices: each existing object with that value once, and no other |
| Indices.IndexedView.IndexLookupOne | test_looper/core/object_database.py:424-430 | the object exactly when it is the only one |
| Indices.NewKeepsIndices | test_looper/core/object_database.py:206-265 | the exact condition for a new object, over all lists of all types |
| Indices.MoveKeepsIndices | test_looper/core/object_database.py:326-341 | the exact condition for a changed or deleted object, over all lists of all types |
| Indices.ListMoved | test_looper/core/object_database.py:333-341 | the same for a single list |
| Indices.CommitKeepsIndices | test_looper/core/object_database.py:387-395 | a commit keeps the indices right exactly when no index value depends on a field whose value encodes to null and so is not stored |
| Indices.Transact | test_looper/core/object_database.py:387-395 | the writes of a transaction lead from the latest state, each to what it writes, and what the last one leaves is committed without nulls; right indices stay right if all writes keep them and no index tells a null from an absent field |
| Indices.AllStayRight | test_looper/core/object_database.py:206-341 | along such writes the indices are right after each of them |
| Indices.Commits | test_looper/core/object_database.py:387-395 | any transactions after each other, from an empty database on, commit exactly the states that their writes lead to |
| Indices.HistoryRight | test_looper/core/object_database.py:387-395 | in such a history of writes that keep the indices, they are right in every committed state |
| Indices.MadeTwice | test_looper/core/object_database.py:206-265 | an example: an identity made twice stands on its list twice |
| Indices.SetOnNothing | test_looper/core/object_database.py:303-315 | an example: a field set on what does not exist puts it on a list |
| Indices.NullIsLost | test_looper/core/object_database.py:387-395 | an example: a null that is not stored leaves its object on a list that it should not be on |
| CommitPriority.CommitStore.Drain | test_looper/data_model/TestManager.py:1876-1933 | running queued commits in any order ends, from any state where reachability is known; then the priority is the user's exactly when some head reaches the commit, else 0, and if only queued commits were inconsistent each names the least-named branch whose head reaches it, or none |
| CommitPriority.DrainedMeansRight | test_looper/data_model/TestManager.py:1876-1933 | an empty queue and local consistency mean the right branch and priority everywhere in the graph |
| CommitPriority.DrainedMeansReachabilityRight | test_looper/data_model/TestManager.py:1876-1933 | even with stale names an empty queue means that exactly the reachable commits have a branch and a priority |
| CommitPriority.ProcessSound | test_looper/data_model/TestManager.py:1882-1910 | one task keeps: only queued commits may be locally inconsistent |
| CommitPriority.ProcessRoughlySound | test_looper/data_model/TestManager.py:1882-1910 | the same up to the choice among branch names |
| CommitPriority.TaskLightens | test_looper/data_model/TestManager.py:1908-1910 | with weight 1 plus the weights of the parents, every task makes the queue lighter whatever it adds |
| CommitPriority.CommitStore.Process | test_looper/data_model/TestManager.py:1882-1910 | a whole task is such a step |
| CommitPriority.CommitStore.CalcAnyBranch | test_looper/data_model/TestManager.py:1918-1933 | the least name among the branches headed here and those the children name |
| CommitPriority.BeforeExactly | test_looper/data_model/TestManager.py:1918-1933 | a name comes before those that go on from it, and otherwise the first character that differs decides |
| CommitPriority.CommitStore.UpdateBranchTopCommit | test_looper/data_model/TestManager.py:1838-1873 | moves the head and claims, downwards, what no branch had claimed; reachability stays right |
| CommitPriority.MovedExactly | test_looper/data_model/TestManager.py:1844-1853 | moving a head changes that head only, and queues just the commits it leaves and enters; without a new top nothing changes |
| CommitPriority.CommitStore.Seed | test_looper/data_model/TestManager.py:1862-1873 | claims exactly the unclaimed commits that the walk reaches, and queues them |
| CommitPriority.MoveHeadSound | test_looper/data_model/TestManager.py:1844-1853 | moving or dropping a head keeps the queue invariant |
| CommitPriority.SetPrioritySound | test_looper/data_model/TestManager.py:2135-2145 | a new user priority keeps it |
| CommitPriority.SeedRoughlySound | test_looper/data_model/TestManager.py:1862-1873 | claiming keeps what is known about reachability |
| CommitPriority.SeedSoundExactly | test_looper/data_model/TestManager.py:1862-1873 | right after claiming, still only queued commits are inconsistent exactly when each commit that is not queued but lies below a claimed one already names an earlier or the same branch; this is the invariant only, and the names after the drain are NamesRightExactly |
| CommitPriority.NamesRightExactly | test_looper/data_model/TestManager.py:1838-1910 | from a quiet store, moving a branch and draining in any order gives every commit its least name exactly when, before the move, the new head is reached already or each commit below it that names a later branch lies below a reached parent of an unreached commit which is below the new head and has a user priority |
| CommitPriority.SpreadStep | test_looper/data_model/TestManager.py:1882-1910 | a task keeps: later names are given up only below such parents, and every later name whose child has changed its own is queued or given up |
| CommitPriority.SpreadEnds | test_looper/data_model/TestManager.py:1882-1910 | once nothing is queued this makes the names right exactly under that condition |
| CommitPriority.StaleName | test_looper/data_model/TestManager.py:1862-1873 | an example, from a quiet store where the condition fails, in which the queue drains and a commit keeps the later of two names |
| CommitPriority.QuietStoreIsRight | test_looper/data_model/TestManager.py:1806-1933 | after any run of tasks, head moves, deletions, claims and new priorities that ends with an empty queue, exactly the reachable commits have a branch and a priority |
| CommitPriority.CommitStore.BranchDeleted | test_looper/data_model/TestManager.py:1806-1810 | drops the head and queues the commit it named |
| CommitPriority.CommitStore.SetCommitUserPriority | test_looper/data_model/TestManager.py:2135-2145 | stores and queues exactly when the priority differs |
| TaskQueue.RunGood | test_looper/data_model/TestManager.py:1217-1250 | in every run, queueing during a task included, the chains below the heads are whole, disjoint and of one status, cover every pending task, and every task is pending or was started, once |
| TaskQueue.NextGood | test_looper/data_model/TestManager.py:1217-1250 | each transaction keeps this |
| TaskQueue.EnqueueGood | test_looper/data_model/TestManager.py:2672-2680 | queueing keeps it, on top of any head of the status |
| TaskQueue.BeginGood | test_looper/data_model/TestManager.py:1217-1234 | starting a listed head keeps it |
| TaskQueue.EndGood | test_looper/data_model/TestManager.py:1244-1248 | finishing keeps it, with what stood below becoming a head |
| TaskQueue.HigherIsCovered | test_looper/data_model/TestManager.py:1217-1231 | a pending task of a higher status than the one started lies below a running one |
| TaskQueue.StartsHighest | test_looper/data_model/TestManager.py:1217-1231 | a task of a higher status waits exactly when one waits below a running task; with none running the highest is started |
| TaskQueue.BestIsSoonest | test_looper/data_model/TestManager.py:1217-1231 | what is taken has a status such that nothing is listed under one that is looked up sooner |
| TaskQueue.LowerFirst | test_looper/data_model/TestManager.py:1217-1231 | an example with two workers in which a lower task starts while a higher one waits |
| TaskQueue.CoveredByHead | test_looper/data_model/TestManager.py:1217-1250 | every pending task stands below a listed head of its status or a running task |
| TaskQueue.Queue.QueueTask | test_looper/data_model/TestManager.py:2672-2680 | the new task is a listed head and nothing else is lost |
| TaskQueue.Queue.StartTask | test_looper/data_model/TestManager.py:1217-1234 | starts a task that was never started; with no other running, one of the highest pending status; gives None only when each pending task stands below a running one |
| TaskQueue.Queue.FinishTask | test_looper/data_model/TestManager.py:1244-1248 | no pending task is lost |
| TaskQueue.Queue.Drain | test_looper/data_model/TestManager.py:1146-1182 | one worker alone starts everything that was queued and empties the queue |
| Graphs.FindAllNodes | test_looper/core/GraphUtil.py:2-15 | exactly the nodes that a path from a root reaches |
| Graphs.Walk | test_looper/core/GraphUtil.py:5-10 | adds only what the node reaches, and all children of what it adds |
| Graphs.PlaceNodesInLevels | test_looper/core/GraphUtil.py:17-49 | places each reachable node once, in the group right after the last of its parents; fails with a cycle exactly when one can be reached, if no edge is listed twice; with a repeated edge it never returns groups |
| Graphs.Relax | test_looper/core/GraphUtil.py:39-44 | removing the edges of a node fails exactly when one of them is repeated, and frees exactly what waited for that node only |
| Graphs.LongestPath | test_looper/core/GraphUtil.py:17-49 | to a node of the k-th group leads a path of k edges from the first group |
| Graphs.NoLongerPath | test_looper/core/GraphUtil.py:17-49 | and no path with more edges |
| Graphs.OneLeveling | test_looper/core/GraphUtil.py:17-49 | two placements of a graph have the same groups |
| Graphs.FirstGroup | test_looper/core/GraphUtil.py:29-31 | the first group is what nothing reachable leads to, and all of it are roots |
| Graphs.LeveledNoCycle | test_looper/core/GraphUtil.py:17-49 | nodes that can be placed have no cycle |
| Graphs.Stuck | test_looper/core/GraphUtil.py:46-48 | what is left waiting when nothing is ready lies behind a reachable cycle |
| Graphs.FindCycle | test_looper/core/GraphUtil.py:51-80 | returns a path from a root that runs into itself, exactly when there is one |
| Graphs.Check | test_looper/core/GraphUtil.py:61-75 | a search that finds nothing has cleared the node and everything below it |
| Graphs.SortedNoCycle | test_looper/core/GraphUtil.py:58-75 | nodes each cleared after all of their children have no cycle |
| Pins.Updater.ExecuteSinglePinUpdate | test_looper/data_model/BranchPinning.py:312-400 | fails exactly on a cycle; otherwise the plan lists, level by level, the branches with a new commit, what each commit names is right given all the others, and the commits there now are those of before and exactly one for each branch of the plan |
| Pins.MadeExactly | test_looper/data_model/BranchPinning.py:312-400 | a branch gets a new commit exactly when autopins lead to it from a branch of which a change was asked |
| Pins.CommitHasPins | test_looper/data_model/BranchPinning.py:402-467 | a new commit has all the pins of its branch and no other, and leaves those for which nothing is wished |
| Pins.AfterNames | test_looper/data_model/BranchPinning.py:365-388 | afterwards a pin that follows an updated branch names its new commit, whatever was asked; else what was asked; else what it named before |
| Pins.FirstWants | test_looper/data_model/BranchPinning.py:346-363 | everything in the first level was asked for and wants nothing else, so the assertion there holds |
| Pins.Progresses | test_looper/data_model/BranchPinning.py:369-388 | one more branch dealt with leaves right all that were dealt with before |
| Pins.Updater.UpdateBranch | test_looper/data_model/BranchPinning.py:367-394 | one branch more dealt with adds at most one commit, which is its own |
| Pins.RowOnce | test_looper/data_model/BranchPinning.py:396-400 | no branch is listed twice in a level |
| Pins.RowHas | test_looper/data_model/BranchPinning.py:396-400 | a level lists exactly its branches that have a new commit |
| Pins.AutopinGraph | test_looper/data_model/BranchPinning.py:89-98 | the edges lead to the live branches that have an autopin on the branch |
| Pins.EdgeExactly | test_looper/data_model/BranchPinning.py:89-98 | an edge is an automatic pin of a branch that is still in a repository, to the branch the edge starts from |
| Pins.PinnedToBranch | test_looper/data_model/BranchPinning.py:46-66 | the live branch of the name the pin gives, if any |
| Pins.TargetExactly | test_looper/data_model/BranchPinning.py:46-66 | a pin leads to the branch that has its repository and name |
| Pins.Updater.UpdatePins | test_looper/data_model/BranchPinning.py:402-467 | a commit exactly when a pin changes, and it names all that was wanted |
| Pins.Updater.CollectWanted | test_looper/data_model/BranchPinning.py:373-380 | what was asked, overridden by new commits of branches the autopins follow |
| PinMoves.GetFastForwardChain | test_looper/data_model/BranchPinning.py:197-217 | a chain exactly when the old commit is below the new one by single parents within the limit; it ends at the first meeting |
| PinMoves.ChainExactly | test_looper/data_model/BranchPinning.py:197-217 | each commit of a chain is the one parent of the one before, and the old commit is met just at the end |
| PinMoves.VisitsAll | test_looper/data_model/BranchPinning.py:158-165 | update after update a pin names every commit between where it was and the head, one at a time, and from then on the head |
| PinMoves.DesiredCommit | test_looper/data_model/BranchPinning.py:150-165 | one commit up if all pins name the same known commit and that can be reached, else the head |
| PinMoves.ComputePinUpdate | test_looper/data_model/BranchPinning.py:138-176 | asks this of exactly the autopins of live branches that follow the branch |
| PinMoves.AsksExactly | test_looper/data_model/BranchPinning.py:138-176 | asked for are exactly the automatic pins, of branches still in a repository, that name the repository and branch |
| PinMoves.AcyclicBelow | test_looper/data_model/BranchPinning.py:240-250 | if following does not lead in a circle from the branch, the plan below it cannot fail |
| PinMoves.UpdateBranchPin | test_looper/data_model/BranchPinning.py:232-263 | refused exactly without a head, on a circle or without followers; else every follower names the desired commit and every pin on an updated branch its new one, no other pin moves, and there is exactly one new commit for each updated branch |
| Linearization.MergeExactly | test_looper/data_model/TestDefinition.py:201-224 | for lists without duplicates the merge fails exactly when no common order of them exists |
| Linearization.MergeSound | test_looper/data_model/TestDefinition.py:201-224 | a result lists the union once and has every list as a subsequence |
| Linearization.MergeComplete | test_looper/data_model/TestDefinition.py:207-218 | if a common order exists some head can always be taken |
| Linearization.MergePicks | test_looper/data_model/TestDefinition.py:201-224 | the merge takes, time after time, the head of the first list whose head no list has further down; this decides which common order it is |
| Linearization.Merge | test_looper/data_model/TestDefinition.py:201-224 | the loop computes that merge |
| Linearization.OrderGood | test_looper/data_model/TestDefinition.py:226-237 | a resolution order begins with the environment, has no duplicates, and has every environment before all it imports |
| Linearization.OrderFailsExactly | test_looper/data_model/TestDefinition.py:226-237 | with all imports ordered, there is no order exactly when the lists have no common order |
| Linearization.LaterImportFirst | test_looper/data_model/TestDefinition.py:226-237 | of imports that have nothing in common with others, all that comes with a later one stands before all that comes with an earlier one |
| Linearization.LaterImportWins | test_looper/data_model/TestDefinition.py:290-309 | so a definition that comes with the earlier one is not found if the later one comes with one too |
| Linearization.TwoImports | test_looper/data_model/TestDefinition.py:226-237 | an example: of two imports without imports the last one comes first |
| Linearization.RankExists | test_looper/data_model/TestDefinition.py:274-278 | if imports do not come back to where they were, among what the environment needs, there is a rank that falls along them |
| Linearization.CyclicExactly | test_looper/data_model/TestDefinition.py:274-278 | the search for cycles in the graph of what is needed finds one exactly when the imports come back to something |
| Linearization.CheckedOrder | test_looper/data_model/TestDefinition.py:274-280 | the check and then the order: refused whenever imports come back, and otherwise the order itself, whatever dependencies lie outside what is needed |
| Linearization.MethodResolutionOrder | test_looper/data_model/TestDefinition.py:226-237 | the recursive procedure computes that order |
| Linearization.MergeVariables | test_looper/data_model/TestDefinition.py:290-309 | each variable has the value of the first environment in the order that defines it |
| Linearization.FirstDefiningIsFirst | test_looper/data_model/TestDefinition.py:307-309 | no environment that defines the variable comes before the one used |
| Linearization.OwnDefinitionWins | test_looper/data_model/TestDefinition.py:307-309 | a definition is never taken from an environment that another definer imports |
| Linearization.PickFirstNonzero | test_looper/data_model/TestDefinition.py:258-262 | the first element that is not zero, or the default |
| Variables.ComputeGraphLevels | test_looper/data_model/VariableSubstitution.py:15-57 | ends, fails exactly on a cycle, gives no variable a level twice, and otherwise gives each one, which is the length of the longest chain of dependencies |
| Variables.OneRound | test_looper/data_model/VariableSubstitution.py:38-47 | a round that sets no level leaves nothing dirty; otherwise what could be next is dirty |
| Variables.StuckVariables | test_looper/data_model/VariableSubstitution.py:49-51 | what has no level at the end lies behind a cycle |
| Variables.LevelsAreGroups | test_looper/data_model/VariableSubstitution.py:53-56 | the levels are the groups that placing the nodes of the graph would give |
| Variables.ApplyVariableSubstitutionsAndMerge | test_looper/data_model/VariableSubstitution.py:59-101 | fails exactly on a cycle or when an extra variable is defined otherwise; else each variable is the solution of its definition, with no defined variable left in it, and the extras filled in |
| Variables.SubstituteByLevel | test_looper/data_model/VariableSubstitution.py:88-91 | one pass in order of the levels solves all definitions |
| Variables.OneSolution | test_looper/data_model/VariableSubstitution.py:59-101 | the definitions have one solution, so the pass is recursive evaluation |
| Variables.FilledOne | test_looper/data_model/VariableSubstitution.py:88-91 | filling in one variable keeps: every text is its definition with all finished variables filled in |
| Variables.ExpandOneMore | test_looper/data_model/VariableSubstitution.py:10-13 | replacing a variable afterwards is replacing it along with those before |
| Variables.ExpandExactly | test_looper/data_model/VariableSubstitution.py:10-13 | a reference in a text gives way to its value, once, and the rest of the text stays in its place |
| Variables.SubstituteVariables | test_looper/data_model/VariableSubstitution.py:10-13 | one replacement after the other is all at once when no value mentions another key |
| Variables.Dependencies | test_looper/data_model/VariableSubstitution.py:68-83 | the dependencies among defined identifiers, and the same relation turned round |
| Encoder.RoundTrip | test_looper/core/algebraic_to_json.py:93-265 | for all types but the excluded ones and every value of the type: what is read from what was written coerces to the value |
| Encoder.NoTwoWrittenAlike | test_looper/core/algebraic_to_json.py:93-130 | two values of a type are never written alike |
| Encoder.SearchExactly | test_looper/core/algebraic_to_json.py:231-252 | the fields of an alternative lead back to it exactly when no other alternative has the same ones |
| Encoder.SearchFits | test_looper/core/algebraic_to_json.py:231-252 | an object is read as an alternative exactly when this has all its fields and is the only one that has, or the only one that has no others |
| Encoder.PartialReads | test_looper/core/algebraic_to_json.py:217-265 | an object that leaves fields out reads as the alternative it fits, with what the types of the others start with, and not at all if one of these starts with nothing |
| Encoder.DefaultIsEmpty | test_looper/core/algebraic.py:247-268 | what a type starts with is of the type and empty |
| Encoder.NameReads | test_looper/core/algebraic_to_json.py:193-215 | a string is the one field of the only alternative that could take it, if all have fields, and otherwise the name of one without fields |
| Encoder.MergedExactly | test_looper/core/algebraic_to_json.py:158-166 | of dictionaries that are taken together the keys are all theirs, and the last to name one decides |
| Encoder.DictFromList | test_looper/core/algebraic_to_json.py:158-166 | a list where a dictionary is wanted is one of dictionaries that are taken together |
| Encoder.OneThingReads | test_looper/core/algebraic_to_json.py:172-182 | a single thing other than a real number, where a list is wanted, is a list of it |
| Encoder.NumberReads | test_looper/core/algebraic_to_json.py:184-191 | a whole number where text is wanted is its sign and its decimal digits |
| Encoder.PrimitiveReads | test_looper/core/algebraic_to_json.py:184-191 | where text or a real number is wanted a truth value is its name, or one or zero, and a whole number the same real one |
| Encoder.ValidNameExactly | test_looper/core/algebraic.py:94-95 | which names alternatives and fields can have; those that the type object has an attribute for are not among them |
| Encoder.AllKindsWellFormed | test_looper/core/algebraic.py:23-60 | an example: a type with fields of every kind is one whose values read back |
| Encoder.SearchFinds | test_looper/core/algebraic_to_json.py:217-252 | an object is read as the alternative it was written from, by its fields or by its type tag |
| Encoder.Shape | test_looper/core/algebraic_to_json.py:93-130 | only a missing value is written as null, and only lists and tuples as arrays |
| Encoder.TuplesTakenApart | test_looper/core/algebraic_to_json.py:151-182 | a list of tuples reads back exactly when each tuple has one part, which is written as a single character or an object with one field and is what that character or field name reads as (so also when there are none) |
| Encoder.OneCharacter | test_looper/core/algebraic_to_json.py:151-182 | of the lists of tuples of one string exactly those of one-character strings read back |
| Encoder.SpelledLeaves | test_looper/core/algebraic_to_json.py:56-65 | what a string that is not empty reads as is written with at least one string or object, none with an empty key |
| Encoder.NestedNullExactly | test_looper/core/algebraic_to_json.py:140-149 | of a type that allows a missing value twice, a value reads back exactly unless it is present and itself missing |
| Encoder.Freeze | test_looper/core/algebraic.py:165-179 | marks exactly the alternatives whose set of fields no other has |
| Encoder.Narrow | test_looper/core/algebraic_to_json.py:231-244 | the loop over the fields leaves exactly the alternatives that have them all, if there is one; with extra fields allowed, exactly those that have the ones kept, none of which has any of the others, and never none |
| Encoder.Flatten | test_looper/core/algebraic_to_json.py:56-65 | nothing in the result is a list |
| Machines.Manager.MachineTerminated | test_looper/data_model/TestManager.py:1252-1272 | ends, with the counters right and nothing live on this or any other dead machine; besides the machine, only what was on machines that died has ended, single-use machines of what ended, and idle machines without work |
| Machines.Manager.TerminateMachine | test_looper/data_model/TestManager.py:2122-2133 | the same; a machine that is already dead changes nothing, and one without work dies alone |
| Machines.Manager.CancelTestRun | test_looper/data_model/TestManager.py:1115-1135 | ends with the run not live, its test one active less and its machine dead and empty if it is for a single use, and otherwise nothing else changed; besides those only what was on machines that died has ended, single-use machines of what ended, and idle machines without work |
| Machines.Manager.CancelDeployment | test_looper/data_model/TestManager.py:430-462 | the same for a deployment: one machine fewer desired, its machine left as that says, and then only idle machines without work of categories with too many die, until there is none to spare |
| Machines.Manager.Shutdown | test_looper/data_model/TestManager.py:2094-2103 | exactly one machine of the category dies, that nothing is on and that is idle if this matters; or there is none and nothing changes |
| Machines.Manager.ShutdownMachinesIfNecessary | test_looper/data_model/TestManager.py:2105-2120 | ends; only idle machines without work die, no category falls below what is desired of it, and afterwards none with more has one to spare |
| Machines.Manager.Execute | test_looper/data_model/TestManager.py:1030-1272 | a run of any operations in which every state is what the operation made of the one before, and in every state of which that holds |
| Machines.Manager.Perform | test_looper/data_model/TestManager.py:1030-1272 | each operation makes of the state exactly what `Did` says of it, and keeps the counts right and the live off dead machines but for results that come again and tests given to a dead machine |
| Machines.OrphansAreForsaken | test_looper/data_model/TestManager.py:1046-1068 | in every run: if a live test run is on a dead machine, it was given to that machine when the machine was dead already |
| Machines.DeploymentsHoused | test_looper/data_model/TestManager.py:909-933 | in every run no live deployment is on a dead machine |
| Machines.ActiveExactly | test_looper/data_model/TestManager.py:720-731 | in every run the active count of a test is the number of its live runs exactly as long as no results came again for one of its runs, and else lower |
| Machines.FinishedExactly | test_looper/data_model/TestManager.py:708-757 | in every run a test run is finished exactly if it was brought in so or results were taken for it at some time |
| Machines.SingleUse | test_looper/data_model/TestManager.py:1126-1133 | in every run a machine for a single use that lives has nothing on it that has ended, run or deployment: once something has, it is gone |
| Machines.LeftBusy | test_looper/data_model/TestManager.py:449-459 | a machine that a deployment leaves does not count as idle, and is dead if for a single use |
| Machines.StepLasts | test_looper/data_model/TestManager.py:1030-1272 | no operation revives a machine, moves what is on one, or begins again what has ended |
| Machines.Manager.Boot | test_looper/data_model/TestManager.py:2069-2077 | one machine more, and one booted more, with all counts right |
| Machines.Manager.AssignTest | test_looper/data_model/TestManager.py:1046-1068 | one run and one active run more, with all counts right; it leaves something live on a dead machine exactly when the machine died since the first transaction |
| Machines.Manager.ImportTestRun | test_looper/data_model/TestManager.py:626-655 | a run on no machine, which counts as active exactly when it is neither canceled nor finished |
| Machines.Manager.RecordTestResults | test_looper/data_model/TestManager.py:708-764 | the run is finished and otherwise as it was, its test one active less, its machine not idle and, if for a single use, dead and empty; the counts stay right exactly if these are the first results; refused exactly for an unknown or canceled run, an exception exactly for a run without a machine |
| Machines.FinishedCounts | test_looper/data_model/TestManager.py:728-731 | the count of active runs stays right exactly when the run was not finished before, and is one lower otherwise |
| Machines.RecordedFinishes | test_looper/data_model/TestManager.py:728-757 | results that are taken finish their run and change nothing else about it |
| Machines.Manager.TestHeartbeat | test_looper/data_model/TestManager.py:771-796 | one that is not looked at is true and changes nothing; of the others: true exactly for a run on a live machine, cancels exactly a running one on a dead machine, and an exception, without a change, exactly for a finished one there or one without a machine |
| Machines.Manager.ClearTestRun | test_looper/data_model/TestManager.py:605-624 | a running one is canceled, a finished one only marked, and the counts stay right either way |
| Machines.Manager.CreateDeployment | test_looper/data_model/TestManager.py:464-493 | a live deployment without a machine, and one machine more desired |
| Machines.Manager.StartNewDeployment | test_looper/data_model/TestManager.py:909-933 | a waiting deployment of its category goes to a live machine, or there is none and nothing changes |
| Machines.FollowsFurther | test_looper/data_model/TestManager.py:1252-1272 | two operations after each other end nothing but for the reasons of both |
| Machines.DiedWithAllOn | test_looper/data_model/TestManager.py:1265-1270 | all that ends when the work on a dead machine is canceled is explained by that machine |
| Machines.EachStep | test_looper/data_model/TestManager.py:2109-2117 | a round of the shutdown loop has killed a machine, or has seen that no category has one to spare |
| Machines.DiedGood | test_looper/data_model/TestManager.py:1258-1263 | a dead machine is one booted less, never below zero, and only it may have live things on it |
| Machines.RunCanceledGood | test_looper/data_model/TestManager.py:1121-1123 | a canceled run is one active less |
| Machines.DeploymentEndedGood | test_looper/data_model/TestManager.py:436-444 | an ended deployment disturbs no counter of machines or runs |
| Machines.Settled | test_looper/data_model/TestManager.py:1265-1270 | once nothing is on the dying machine, nothing live is on any dead one |
| ArtifactProtocol.RunGood | test_looper/worker/TestLooperClient.py:176-299 | in every run, whatever is lost when connections break, the completed list is a beginning of the uploads and of the declared list, and in a session lacks just what is under way |
| ArtifactProtocol.NextGood | test_looper/server/TestLooperServer.py:109-214 | every step of worker, server and connection keeps this |
| ArtifactProtocol.DeliverGood | test_looper/server/TestLooperServer.py:109-214 | so does handling any message, an exception included |
| ArtifactProtocol.DisconnectGood | test_looper/worker/TestLooperClient.py:118-135 | so does a break that loses any number of the oldest messages |
| ArtifactProtocol.RunGrows | test_looper/data_model/TestManager.py:661-702 | the completed list only grows |
| ArtifactProtocol.CaughtUp | test_looper/data_model/TestManager.py:661-702 | in a session with nothing under way the completed list is what the worker uploaded |
| ArtifactProtocol.RefusedExactly | test_looper/data_model/TestManager.py:689-700 | a report is refused exactly when it lists something not declared in its place, and final results also when they claim success with something missing; an accepted list becomes the completed one |
| ArtifactProtocol.ResultRecorded | test_looper/data_model/TestManager.py:720-744 | results that are accepted are recorded, unless the run was canceled, and nothing else changes but the list of artifacts |
| ArtifactProtocol.SucceededExactly | test_looper/data_model/TestManager.py:744-744 | in every run a test has succeeded exactly when the last results that were taken for it say so |
| ArtifactProtocol.SessionAfter | test_looper/server/TestLooperServer.py:127-214 | a wanted report opens the session; results nobody asked for, an unwanted heartbeat and an exception close it; nothing else touches it |
| ArtifactProtocol.ExceptionLeaves | test_looper/data_model/TestManager.py:708-726 | results that are refused leave the list of artifacts, if it fits, and nothing else; any other message that raises leaves nothing |
| ArtifactProtocol.ReportRecovers | test_looper/worker/TestLooperClient.py:182-208 | whatever was lost in a break, a worker that is asked again and reports brings the server up to date, results included |
| ArtifactProtocol.AskedResultsKeepSession | test_looper/server/TestLooperServer.py:127-214 | results that the server asked for leave the session open |
| ArtifactProtocol.BeatHeard | test_looper/server/TestLooperServer.py:127-214 | a heartbeat of a test that is no longer wanted ends its session, and nothing else comes of heartbeats |
| ArtifactProtocol.ForgottenWaits | test_looper/worker/TestLooperClient.py:182-208 | a worker without a test says so when asked, and nothing comes of it |
| ArtifactProtocol.TestLife | test_looper/worker/TestLooperClient.py:288-347 | a test that is assigned and started, uploads all it declares and publishes its results is recorded with just those, and its session is over |
| ArtifactProtocol.CanceledIgnored | test_looper/data_model/TestManager.py:708-718 | results for a run that was canceled are heard and not recorded |
| ArtifactProtocol.DeclaredIsAccepted | test_looper/data_model/TestManager.py:661-702 | a worker that uploads what is declared, in order, is never refused before it publishes |
| ArtifactProtocol.SuccessIsComplete | test_looper/data_model/TestManager.py:720-726 | success is recorded only when all declared artifacts are complete |
| ArtifactProtocol.ListsAreAhead | test_looper/data_model/TestManager.py:689-693 | no list under way is behind what the server knows |
| ArtifactProtocol.Session.RecordArtifacts | test_looper/data_model/TestManager.py:661-700 | the next declared artifact, or a list that extends the one known, or an exception and no change |
| ArtifactProtocol.Session.ProcessMsg | test_looper/server/TestLooperServer.py:127-214 | the session and the runs after a message are those of the protocol |
| ArtifactProtocol.Client.RecordArtifactUploaded | test_looper/worker/TestLooperClient.py:288-298 | makes the upload step of the protocol: whatever the server knows and whatever is under way, worker and server stay in step |
| ArtifactProtocol.Client.IdentifyCurrentState | test_looper/worker/TestLooperClient.py:182-208 | reports results, or all artifacts so far, or nothing, and so makes the reporting step of the protocol |
| ArtifactProtocol.Client.PublishTestResult | test_looper/worker/TestLooperClient.py:343-347 | makes the publishing step of the protocol, which keeps everything in step and the results for a later report |
| EnabledTests.Definitions.EnsureAllAppropriateChildrenEnabled | test_looper/data_model/TestDefinitionResolver.py:700-714 | ends with exactly the tests enabled that those enabled at first need, directly or not; fails exactly when one of them needs a name that is no test |
| EnabledTests.Definitions.EnsureChildrenNotDisabled | test_looper/data_model/TestDefinitionResolver.py:704-710 | enables only what the test reaches, and all that anything it enabled needs |
| EnabledTests.SortTestStages | test_looper/data_model/TestDefinitionResolver.py:716-728 | sorted by order, and for each order the same stages in the same sequence |
| EnabledTests.OneStableSort | test_looper/data_model/TestDefinitionResolver.py:716-728 | only one arrangement is that |
| TestNames.ResolveTestNameToTestAndArtifact | test_looper/data_model/TestDefinitionResolver.py:537-567 | of all ways to read the name as a test and an artifact, the one with the shortest test that exists, found exactly when that test has the artifact; no such test exactly when none exists; no such artifact exactly when the shortest test lacks it |
| TestNames.OneShortest | test_looper/data_model/TestDefinitionResolver.py:537-567 | only one test is the shortest, so the result is determined |
| TestNames.CutIsReading | test_looper/data_model/TestDefinitionResolver.py:546-549 | every cut of the list of parts is such a way |
| TestNames.ReadingIsCut | test_looper/data_model/TestDefinitionResolver.py:546-549 | every such way is a cut of the list of parts |
| Codecs.NameRoundTrip | test_looper/core/ArtifactStorage.py:45-58 | unsanitizing a sanitized name gives the name, for every string |
| Codecs.SanitizeIsEscape | test_looper/core/ArtifactStorage.py:46-47 | five replacements over the whole string are one pass that escapes characters |
| Codecs.SanitizedIsSafe | test_looper/core/ArtifactStorage.py:46-47 | no unsafe character is left |
| Codecs.FromBools | test_looper/core/Bitstring.py:26-34 | every bit reads back, bits beyond the end are false, and six bits go into a character |
| Codecs.PackBitstringToInt | test_looper/core/Bitstring.py:7-16 | the number whose bits are the list |
| Codecs.NumberBits | test_looper/core/Bitstring.py:36-40 | masking that number gives each bit, and nothing beyond |
| Codecs.IndexRoundTrip | test_looper/core/Bitstring.py:3-5 | the table has each character once |
| Codecs.TableExactly | test_looper/core/Bitstring.py:3-4 | small letters, capital letters and digits, each in a row, and two more |

## Left out

- Git, Docker, cloud machines, sockets, files, clocks, logging, HTML and HTTP: the key/value store is a map, new commit hashes come from a counter, idleness by the clock is a set of machines, and whether a test is still wanted at a heartbeat, and whether the heartbeat is one that is looked at, are parameters.
- Hashing and uuid: keys of objects and indices are a datatype or an abstract type, so they are injective.
- `commit()` called by hand before the end of a transaction: only tests do that.
- The encoder inside the database: there it is any pair of functions that reads back what was written, which Encoder.dfy proves of the real one.
- Index functions that look beyond the fields of their own object: the ones in Types.py that do are not claimed to stay right. Adding an index to a store that already has objects is not part of this model either.
- Indices.Commits: its keys and stored values are a datatype of its own; that a commit goes on the latest state is proved of the database in Database.SetVersioned.
- Fields whose type is another database object, and their laziness.
- Priorities of tests (the triggers in TestManager.py 1912-1916 and all of `_updateTestPriority`): a run canceled for its priority is the step that cancels a run.
- CommitPriority.CommitStore.Process: a task is one step, as in performBackgroundWorkSynchronously; names of branches are taken to be unique, and the commit graph is fixed while the queue drains.
- TaskQueue.Queue.StartTask: which of several heads of a status a lookup returns is left open; what tasks do is not modelled.
- Machines.Manager.ShutdownMachinesIfNecessary: `category.desired` may have any value, as the source lets it drift; totals of individual tests are not counted.
- Machines.Manager.Execute: an operation that names something unknown, reuses an identity or cancels a finished run is passed over; repairing the counts of a category is not an operation, since they are right.
- Machines.Manager.Boot: that a category is unbootable, and the choice of hardware for a test.
- ArtifactProtocol.RunGood: messages arrive in the order of sending, also across a reconnect, and a break loses the oldest ones; two server threads serving the same worker at once are not modelled, nor are logs and deployments.
- Pins.Updater.UpdatePins: the text of the definitions file is a map from pins to commits, so finding no place to rewrite a pin is not modelled; nor are commit messages and the push at the end.
- PinMoves.ComputePinUpdate: the update of one branch's own pins on request, which changes that branch only before the same plan is executed.
- Pins.AutopinGraph: live branches are taken to differ in repository or name.
- Linearization.MethodResolutionOrder: recursion is along a rank of what the environment needs; the source checks for cycles just before, and CheckedOrder derives the rank from that check.
- Linearization.MergeVariables: images, setup scripts, stages and names in `merge_environments`, and dependencies, which are merged as variables are.
- Variables.ApplyVariableSubstitutionsAndMerge: texts are characters and references, so that replacing one reference makes another out of its surroundings is not modelled; neither is the repetition of the pass, which need not end at the level of text. Values of extra variables are plain, as the documentation asks.
- Encoder.RoundTrip: dictionary keys are strings, text is ASCII, integers are unbounded and floats are real numbers; reading a list out of an object, overrides, custom defaults, and the conversion of a foreign value by calling an algebraic type are not modelled. Excluded types are lists of tuples, lists of nullable lists or tuples, and nullables of nullables. A null at top level stands for the missing value.
- Encoder.Narrow: reading with extra fields allowed is covered for the search only.
- EnabledTests.Definitions.EnsureAllAppropriateChildrenEnabled: the name of a needed test is resolved beforehand, as in TestNames.dfy; deployments, which have neither stages nor the flag, are not part of it.
- Includes, macros and caching in the definition resolver, the YAML surface, the message buffer, timers, the event log and the Redis store.
