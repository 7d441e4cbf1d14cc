# Kiro Crew, verified

A Dafny model of the stateful parts of Kiro Crew: the AutoNudge loop service, the artifact folder
forest, the artifact store with its comments, the MCP server key normaliser and hook merge, the npm
audit gate, the channel history and the agent listing cache. Each part is modelled branch by branch,
and the properties its comments and documentation rely on are proved for all inputs, all runs or all
reachable states. Where the code does not meet such a property, a lemma names an input or a run that
breaks it and, next to it, the exact condition under which it holds.

`dafny verify dfyconfig.toml` checks everything.

## Layout

| files | part |
|---|---|
| `AutoNudgeProtocol` | the service, the event loop's tasks, the lock and the executor writes as a state machine; one step is what runs between two awaits |
| `AutoNudgeInvariant`, `AutoNudgeTasks`, `AutoNudgeSteps`, `AutoNudgeStore`, `AutoNudgeStoreSteps`, `AutoNudgeLog`, `AutoNudgeFacts` | the inductive invariant and the write log, and their preservation, label by label |
| `AutoNudgeTheorems`, `AutoNudgePacing`, `AutoNudgeRearm`, `AutoNudgeStreak`, `AutoNudgeLimits`, `AutoNudgeOverlap` | the results over runs, and where they end |
| `AutoNudgeEffects`, `AutoNudgeSlots` | what each operation does to loops, timers and tasks, said of the state alone; one loop to a slot |
| `AutoNudgeService` | the service object: its methods are the protocol's steps, keep the invariant and give the caller its guarantees |
| `FolderForest`, `FolderText`, `FolderStore`, `FolderPaths`, `FolderDelete`, `FolderRuns`, `FolderLookup`, `FolderEffects`, `FolderService` | parent pointers, names and paths, guards, deletes, runs, what a lookup finds and an operation changes, and the folder store object |
| `ArtifactText`, `ArtifactHistory`, `ArtifactEffects`, `ArtifactService` | reading the store's text files back; live text, linked files, snapshots; what one update changes; the store object |
| `ArtifactComments`, `CommentPruning`, `CommentMerge`, `CommentLaws` | the comment list, and what a merge and the cap come to |
| `McpAliases`, `McpKeys`, `McpToolRefs`, `McpLaws`, `HookMerge`, `HookLaws` | agent configuration: server keys and their references, hooks |
| `AuditGraph`, `AuditReport`, `AuditGate`, `AuditWords` | the dependency gate, and the gate said of reports and exceptions as they come |
| `ChannelHistory`, `ChannelLaws`, `ChannelService` | observed channels |
| `AgentListing`, `AgentLaws` | the listing cache, and what is listed |

## How the AutoNudge model is cut

A step of the state machine is the code between two awaits. Callers of `add` and `update` run beside
their shielded inner work; `remove` runs inline. Every write handed to the executor is a separate
object that lands or fails on its own, whatever becomes of the caller. Any caller may be cancelled at
any await. The fire callback may remove loops, deliver, not deliver, raise a cancellation or swallow it.

A run is any sequence of enabled steps, and the invariant holds in every state of every run. Two things
can go wrong in the code, and each result says which of them it needs to be absent:

* A write can be handed over while an earlier one is unsettled (`Overtakes`). It takes a lock given back
  early, and `ReleasesEarlyIff` names the two steps that do so: a second cancellation delivered to a
  `remove()` over the unsettled write it drains (autonudge.py:647-659), and a cancellation delivered to the
  unshielded post-fire write (autonudge.py:872-875), which only a doubled loop can meet. From every such
  step a continuation exists in which an added loop is lost from the file (`EarlyReleaseLosesUpdate`).
* A loop can be doubled: its `add()` completes while a fire window of the new loop is open, a completed turn
  having armed it during the write (autonudge.py:504-514). Unlike `update()` it does not look at the fire
  window before it arms, so it cancels the fire and arms a second timer. The state keeps the set of doubled
  loops as history, which no step reads (`DoubledIff`). Other loops are not affected by a doubled one.

## Where code and documentation differ

* `expired` (autonudge.py:765-778) is documented as emitted after the deactivating update. For a loop
  that is not doubled no run emits it: the update cancels the timer that awaits it, because the timer table
  still names that timer and the update runs as another asyncio task. `ExpiredIff` gives the exact condition
  at the update's last step; the existing unit test (test/test_autonudge.py:121-146) meets it by calling the
  timer directly after removing it from the table. For a doubled loop `DoubledLoopEmitsExpired` has a run
  that emits it; there the update overtakes a fire that came to the lock before it.
* Pausing is documented to hold even when it meets a running cycle, the post-fire write to be recorded, and
  the cap to bound the cycles (autonudge.py:604-617, 761-764, 839-850, 872-875). After an `add()` over an
  open fire window of its own loop none of the three does, from any such state in which the fire is still in
  its callback, which may outlast its cancellation (slack/gateway.py:2891-2894): `DoubledLoopFiresPaused`,
  `DoubledLoopLosesUpdate` and, should the callback swallow the cancellation, `DoubledLoopPassesCap`. If the
  fire only waits to be recorded the timers are in order again once its cancellation is delivered, and that
  is exact: `DoubledHealsIff`.
* An `update()` that raises for its event type is documented as validating before side effects
  (artifacts.py:1443-1447); the live text and the linked file are written by then, and a refused
  mirror's demotion is lost. `RaisedUpdateIsHalfDone`.
* `get()` is relied on to return what `update(content=c)` stored. The store's own files are
  written as given and read with universal newlines (artifacts.py:2971-2984), so an artifact not served
  from its link answers `c` exactly when `c` holds no carriage return, and otherwise `c` with `\r\n` and
  `\r` turned into `\n`; `ReturnIsLost` names the input, `ReadYourWrites` and `WriteStaysReadable` the
  condition. A snapshot of a linked file with carriage returns is likewise normalised, and the artifact
  shows as dirty right after it (`SnapshotCapturesTheView`).
* `resolve_path` is documented as not minting duplicates for long segments (artifacts.py:3313-3317);
  it does when the cut at 100 characters ends in white space. `CutMakesDuplicates`.
* `add_comment` is documented as always keeping the comment just added (artifacts.py:2324); with a
  clash of ids it can be the one dropped (`ClashDropsAdded`); `AddedKeptIff` gives the exact condition.
  The dashboard handlers mint the ids themselves (dashboard/handlers/artifacts.py:3490, 3632), so it
  takes a direct `add_comment` or an edited sidecar file to meet a clash.
* Managed MCP servers are documented as skipped (agent.py:1772-1774); one that is a twin of the moved
  server behind an earlier sibling is folded away. `ManagedServerFolded`.
* References are rewritten as whole entries (agent.py:1784-1788), while the shipped tool list also holds
  entries `@server/tool` (config/defaults.json:32-37). When the server named there is folded away the
  entry stays and dangles (`FoldedToolRefDangles`); `TurnKeepsServer` and `ToolRefsKept` say when it
  keeps its meaning.
* The directory signature is documented as enough to detect in-place edits (agent_discovery.py:209-211);
  `ChangeUnseenIff` says exactly which single change it misses.
* Merging the same fetch twice can add a reply that the first merge held back, when a mirror and its
  tombstone disagree on being a root. `SecondMergeBringsBack`.
* Observing a channel twice duplicates its window unless the window is full or nothing in it is live.
  `ObserveAgainIff`.

## Model

| member | source | states |
|---|---|---|
| `AutoNudgeInvariant.InitInv` | src/kiro_crew/autonudge.py:400-427 | a freshly loaded service with its active loops armed satisfies the whole invariant |
| `AutoNudgeTheorems.Reachable` | src/kiro_crew/autonudge.py:439-884 | every state of every run, callers cancelled anywhere, satisfies the task, timer, window, lock and mirror invariant; its clauses on a single fire window except doubled loops |
| `AutoNudgeTheorems.DoubledIff` | src/kiro_crew/autonudge.py:510-514 | a loop is in the history of doubled loops if and only if some earlier step of the run completed its add() over an open fire window of it |
| `AutoNudgeTheorems.NoLostUpdate` | src/kiro_crew/autonudge.py:519-536 | over every run in which no write is handed over while one is unsettled, writes have reached the file in snapshot order, and once the newest has landed the file is the latest snapshot |
| `AutoNudgeTheorems.LockCoversWrites` | src/kiro_crew/autonudge.py:519-536 | over every run in which the lock is never given back early no write overtakes another, and with the lock free every write has settled |
| `AutoNudgeLog.ReleasesEarlyIff` | src/kiro_crew/autonudge.py:645-659 | a step gives the lock back early if and only if it delivers a cancellation over an unsettled write to a draining removal or to a post-fire write, and the latter only of a doubled loop |
| `AutoNudgeTheorems.RestartLoadsMemory` | src/kiro_crew/autonudge.py:351-362 | over such a run, the newest write landed, no delivered fire waiting for the lock and no doubled loop registered, the file holds exactly the loops in memory |
| `AutoNudgeTheorems.FireWriteNeverCancelled` | src/kiro_crew/autonudge.py:872-875 | in every reachable state the task of a post-fire write holds the lock; unless its loop is doubled no cancellation is pending for it, so the unshielded write is never cancelled |
| `AutoNudgeTheorems.BeginHoldsLock` | src/kiro_crew/autonudge.py:519-536 | an add, update, removal or post-fire record that waits for its write holds the lock across it; the write is of the loops as they are, and the only one in flight if none was |
| `AutoNudgeTheorems.OneTimerOneWindow` | src/kiro_crew/autonudge.py:737-747 | in every reachable state a loop has at most one sleeping timer not told to stop; one that is not doubled has at most one live timer and at most one timer inside its fire window |
| `AutoNudgeTheorems.FireNeverCancelled` | src/kiro_crew/autonudge.py:608-617 | update, a completed turn and user input leave a timer inside a fire window exactly as it is, unless its loop is doubled |
| `AutoNudgeTheorems.ExpiredNeverEmitted` | src/kiro_crew/autonudge.py:762-779 | no run emits `expired` for a loop that is not doubled |
| `AutoNudgeTheorems.UpdateCancelsWaiter` | src/kiro_crew/autonudge.py:615-617 | an ending update cancels the timer awaiting it if and only if its write landed, no window of the loop is open and the timer table names that timer |
| `AutoNudgeTheorems.ExpiredIff` | src/kiro_crew/autonudge.py:764-778 | `expired` can be emitted after the update if and only if its write landed and a window of the loop is open or the awaiting timer is not the registered one |
| `AutoNudgeTheorems.CappedLoopEndsInactive` | src/kiro_crew/autonudge.py:761-764 | when the update made at the cap of a loop not doubled completes the loop is inactive in memory; with its write landed no timer of it can act, and the file, writes being in order, says so; with its write failed only the waiting timer is left, which ends and arms nothing |
| `AutoNudgePacing.UpdatePausesIff` | src/kiro_crew/autonudge.py:590-617 | update(active=False) leaves the loop paused, open fire window or not, if and only if no timer of it sleeps beside an open window |
| `AutoNudgePacing.UnpausedFires` | src/kiro_crew/autonudge.py:749-786 | otherwise that timer can start a fire of the inactive loop in the next step, if and only if the loop is not at its cap |
| `AutoNudgePacing.OnlyDoubledSleepBeside` | src/kiro_crew/autonudge.py:745-747 | only a doubled loop has a timer asleep beside an open window |
| `AutoNudgePacing.PauseSafety` | src/kiro_crew/autonudge.py:580-617 | after update(active=False) has returned, no timer asleep beside an open window, no fire of the loop starts in any continuation until an update switches it on |
| `AutoNudgePacing.CyclesCountDeliveries` | src/kiro_crew/autonudge.py:869-871 | over any stretch of any run, doubled or not, the cycle counter rises by the number of delivered fires |
| `AutoNudgePacing.CyclesWithinCap` | src/kiro_crew/autonudge.py:761-764 | the counter stays within the cap over every run in which the loop is not doubled and the cap is not lowered |
| `AutoNudgePacing.OnlyActorMoves` | src/kiro_crew/autonudge.py:737-799 | a step moves no asyncio task but its own, and puts no new one inside a fire window |
| `AutoNudgeRearm.RearmIsWanted` | src/kiro_crew/autonudge.py:706-735 | in every run the deferred re-arm set is exactly the loops for which a turn completed in the open window with no user input after it |
| `AutoNudgeRearm.CloseRearmsIff` | src/kiro_crew/autonudge.py:785-799 | when a window of a loop not doubled closes the loop is armed if and only if it is registered, active, and a re-arm was deferred or the fire re-arms itself |
| `AutoNudgeRearm.UndeliveredArms` | src/kiro_crew/autonudge.py:832-868 | an undelivered fire of a live active loop always leaves it armed, after the backoff of its streak or the idle time if a turn asked for it |
| `AutoNudgeRearm.BackoffLadder` | src/kiro_crew/autonudge.py:858-867 | as a function of the streak the delays do not decrease at a fixed idle time and lie between 15 and min(300, idle) |
| `AutoNudgeStreak.StreakStep` | src/kiro_crew/autonudge.py:832-869 | a step raises the counter by one if it is a miss of that loop, and otherwise leaves it unless it ends the streak |
| `AutoNudgeStreak.StreakCountsMisses` | src/kiro_crew/autonudge.py:832-869 | over any stretch of any run that does not end the streak the counter rises by the number of undelivered fires |
| `AutoNudgeStreak.DelaysDoNotShrink` | src/kiro_crew/autonudge.py:853-868 | over any run, between two undelivered fires of a loop with the streak unbroken, the idle time the same and no turn asking for it in the earlier, the delay the later arms is at least that of the earlier |
| `AutoNudgeLimits.DrainCancelledAgainLosesUpdate` | src/kiro_crew/autonudge.py:645-659 | a run in which a removal cancelled twice frees the lock early and the file ends up with the older state |
| `AutoNudgeLimits.DrainCancelKeepsOrderIff` | src/kiro_crew/autonudge.py:647-659 | after a second cancellation delivered while a removal drains the lock still covers every unsettled write if and only if the drained write has settled |
| `AutoNudgeLimits.EarlyReleaseLosesUpdate` | src/kiro_crew/autonudge.py:645-659 | after every step that gives the lock back early, some continuation completes an add whose loop is registered but missing from the file |
| `AutoNudgeLimits.AddOverWindowCancelsFire` | src/kiro_crew/autonudge.py:504-514 | a run in which a completing add cancels the fire of its own loop and a second timer enters the window |
| `AutoNudgeLimits.AddCancelsFireIff` | src/kiro_crew/autonudge.py:510-514 | a completing add cancels a timer inside a fire window if and only if the window is of its own loop and its write is on disk |
| `AutoNudgeOverlap.DoubledHealsIff` | src/kiro_crew/autonudge.py:510-514 | an add completes over a window of its own loop: once the cancelled fire has got its cancellation the timers are in order again if and only if it only waited to be recorded |
| `AutoNudgeOverlap.DoubledLoopFiresPaused` | src/kiro_crew/autonudge.py:608-617 | from every such state with the fire still in its callback, some continuation has update(active=False) return and a fire of the loop start in the next step |
| `AutoNudgeOverlap.DoubledLoopPassesCap` | src/kiro_crew/autonudge.py:761-764 | from every such state, some continuation within a cap the counter has not reached lets two fires through and ends with the counter past it |
| `AutoNudgeOverlap.DoubledLoopEmitsExpired` | src/kiro_crew/autonudge.py:761-778 | from every such state, with the lock given to its waiters in any order, some continuation emits `expired` for the loop |
| `AutoNudgeOverlap.DoubledLoopLosesUpdate` | src/kiro_crew/autonudge.py:872-875 | from every such state, some continuation cancels a post-fire write in flight, after which an added loop is missing from the file |
| `AutoNudgeSlots.OneLoopPerSlot` | src/kiro_crew/autonudge.py:489-494 | from a start with distinct slots, in every state of every run no two registered loops have the same slot |
| `AutoNudgeSlots.AddReplaces` | src/kiro_crew/autonudge.py:489-509 | when slots are distinct, after the begin step of add() the new loop alone is registered on its slot |
| `AutoNudgeEffects.AddBeginEffect` | src/kiro_crew/autonudge.py:487-509 | the loop the lookup found is in no table afterwards and its timer is told to stop; the new loop has the given message, slot and limits; every other loop, with its timer, and every other task is as it was |
| `AutoNudgeEffects.AddFinishEffect` | src/kiro_crew/autonudge.py:510-517 | armed with its idle time if the write landed, otherwise nothing but the caller and the lock changes |
| `AutoNudgeEffects.UpdateBeginEffect` | src/kiro_crew/autonudge.py:580-598 | each field of the one loop takes what the change gives, within its limits, and no other loop, timer or task changes |
| `AutoNudgeEffects.UpdateFinishEffect` | src/kiro_crew/autonudge.py:598-619 | a landed write outside a fire window restarts the timer of an active loop and stops that of an inactive one; otherwise no timer changes |
| `AutoNudgeEffects.RemoveBeginEffect` | src/kiro_crew/autonudge.py:634-646 | the loop is in no table afterwards, its timer told to stop unless it is the caller; all others are as they were |
| `AutoNudgeEffects.TurnEffect` | src/kiro_crew/autonudge.py:696-712 | a completed turn notes a deferral if the window is open and otherwise restarts the timer of the active loop; nothing else changes |
| `AutoNudgeEffects.InputEffect` | src/kiro_crew/autonudge.py:714-735 | user input drops the deferral if the window is open and otherwise stops the loop's timer; nothing else changes |
| `AutoNudgeEffects.WakeEffect` | src/kiro_crew/autonudge.py:749-786 | what a waking timer does for shutdown, sentinel, cap, no callback and a fire, and that only its own loop's window and task change |
| `AutoNudgeEffects.DeliveredEffect` | src/kiro_crew/autonudge.py:869-871 | a delivered fire adds one cycle and ends the streak of its loop, and leaves every other loop and every timer |
| `AutoNudgeEffects.UnfiredEffect` | src/kiro_crew/autonudge.py:832-868 | an undelivered fire ends, its streak one longer if the loop is live and active and gone otherwise; a raised one ends and keeps it |
| `AutoNudgeEffects.LookupIs` | src/kiro_crew/autonudge.py:667-692 | which loops the lookup may answer: one on the slot; failing that, for a key without a channel prefix, one whose folded key it is |
| `AutoNudgeEffects.LadderIs` | src/kiro_crew/autonudge.py:853-867 | the delays are 15, 30, 60, 120, 240 and then 300 seconds, never more than the idle time |
| `AutoNudgeServices.AutoNudgeService.FindBySlot` | src/kiro_crew/autonudge.py:667-692 | an exact slot match wins; a channel loop whose folded key matches is the fallback; none means neither exists |
| `AutoNudgeServices.AutoNudgeService.CancelTimer` | src/kiro_crew/autonudge.py:737-743 | takes the timer off the table and cancels it unless it is the running one |
| `AutoNudgeServices.AutoNudgeService.ArmTimer` | src/kiro_crew/autonudge.py:745-747 | replaces the loop's timer by a new sleeping one |
| `AutoNudgeServices.AutoNudgeService.RemoveSync` | src/kiro_crew/autonudge.py:621-632 | unregisters the loop with its timer, streak and deferred re-arm |
| `AutoNudgeServices.AutoNudgeService.SerializeState` | src/kiro_crew/autonudge.py:351-362 | the payload has exactly the registered loops, and equals the latest snapshot unless a delivered fire still waits for the lock or a registered loop is doubled |
| `AutoNudgeServices.AutoNudgeService.ChangeLoop` | src/kiro_crew/autonudge.py:584-591 | the idle time given ends within 15 seconds and a day, and unchanged if it was; a negative cap becomes none; what is not given stays; changing again changes nothing |
| `AutoNudgeServices.AutoNudgeService.Submit` | src/kiro_crew/autonudge.py:534-536 | from then on the task holds the lock across a write of the loops as they are, the only one in flight if none was |
| `AutoNudgeServices.AutoNudgeService.NotifyTurnComplete` | src/kiro_crew/autonudge.py:696-712 | the turn-complete step for some loop the lookup may answer; keeps the invariant and, doubled loops apart, leaves at most one live timer a loop and spares every timer in its fire window |
| `AutoNudgeServices.AutoNudgeService.NotifyUserInput` | src/kiro_crew/autonudge.py:714-735 | the user-input step for some loop the lookup may answer, with the same guarantees |
| `AutoNudgeServices.AutoNudgeService.AddBegin` | src/kiro_crew/autonudge.py:487-513 | the step up to the write of an add: the slot's loop is in no table afterwards and the new one, made as asked, is registered; with distinct slots they stay distinct and it is alone on its slot; every other loop keeps its timer; keeps the invariant, leaves one live timer a loop and the lock held across the write |
| `AutoNudgeServices.AutoNudgeService.AddFinish` | src/kiro_crew/autonudge.py:511-517 | the step after that write: armed, or failed; keeps the invariant, noting a loop armed over its own window as doubled |
| `AutoNudgeServices.AutoNudgeService.UpdateBegin` | src/kiro_crew/autonudge.py:580-598 | the step up to the write of an update; keeps the invariant and holds the lock across the write |
| `AutoNudgeServices.AutoNudgeService.UpdateFinish` | src/kiro_crew/autonudge.py:598-619 | the step after it: deferred inside a fire window, restarted otherwise; doubled loops apart, spares every timer in its fire window and leaves one live timer a loop |
| `AutoNudgeServices.AutoNudgeService.RemoveBegin` | src/kiro_crew/autonudge.py:634-646 | the step up to the write of a removal; keeps the invariant and holds the lock across the write |
| `AutoNudgeServices.AutoNudgeService.CloseWindow` | src/kiro_crew/autonudge.py:788-799 | closes the fire window and applies a deferred re-arm |
| `AutoNudgeServices.AutoNudgeService.TimerWake` | src/kiro_crew/autonudge.py:749-786 | the wake step: shutdown, sentinel, cap, no callback, or fire; a fire starts only for a registered loop below its cap, in a window of its own |
| `AutoNudgeServices.AutoNudgeService.CallbackReturns` | src/kiro_crew/autonudge.py:822-871 | the step after the callback for each of its outcomes; undelivered or cancelled, the window is closed and the loop, unless doubled, armed if and only if it is registered, active, and a turn asked for it or the fire went undelivered |
| `AutoNudgeServices.AutoNudgeService.PersistBegin` | src/kiro_crew/autonudge.py:519-536 | snapshots the delivered fire and holds the lock across the write |
| `AutoNudgeServices.AutoNudgeService.PersistFinish` | src/kiro_crew/autonudge.py:875-884 | the step after the post-fire write; the window is closed and the loop, unless doubled, armed if and only if it is registered, active, and a turn asked for it or it is a channel loop whose write landed |
| `FolderForest.ForestShape` | src/kiro_crew/artifacts.py:3042-3056 | in a forest each parent is the root or exists, and no folder is its own proper ancestor |
| `FolderForest.ReparentDepth` | src/kiro_crew/artifacts.py:3205-3234 | a moved folder's new depth is depth of the new parent, plus one, plus its relative depth; every other folder keeps its depth |
| `FolderForest.ReparentKeepsForestIff` | src/kiro_crew/artifacts.py:3222-3232 | moving a subtree keeps the forest if and only if its deepest folder still fits below the cap |
| `FolderForest.CascadeKeepsForest` | src/kiro_crew/artifacts.py:3406-3415 | removing a downward closed set of folders keeps the forest |
| `FolderForest.SplicedDepth` | src/kiro_crew/artifacts.py:3408-3415 | splicing a folder out raises exactly its descendants by one level |
| `FolderForest.SpliceKeepsForest` | src/kiro_crew/artifacts.py:3408-3415 | splicing a folder out keeps the forest |
| `FolderStore.DescendsIsUnder` | src/kiro_crew/artifacts.py:3114-3129 | in a well-formed store the reflexive-transitive descendants are the folders with that ancestor |
| `FolderStore.DepthOfForest` | src/kiro_crew/artifacts.py:3102-3112 | in a forest the cycle-safe walk computes the number of ancestors, and it is below the cap |
| `FolderStore.CreateKeepsWf` | src/kiro_crew/artifacts.py:3164-3193 | a folder created under the guards keeps the store well formed |
| `FolderStore.MoveGuardExact` | src/kiro_crew/artifacts.py:3213-3232 | the cycle and depth guards let a move through if and only if the result is a forest |
| `FolderStore.CycleIsNoForest` | src/kiro_crew/artifacts.py:3217-3221 | hanging a folder under its own descendant never leaves a forest |
| `FolderText.PartIsClean` | src/kiro_crew/artifacts.py:3310-3317 | a path segment is never refused as a name: cleaning it is cutting it |
| `FolderText.SegmentsStrip` | src/kiro_crew/artifacts.py:3289-3298 | stripping a path does not change its segments |
| `FolderText.SplitJoin` | src/kiro_crew/artifacts.py:3349-3363 | splitting undoes joining names that hold no separator |
| `FolderPaths.ResolveKeepsWf` | src/kiro_crew/artifacts.py:3279-3347 | resolving only appends, keeps the store well formed, and answers the root or a folder of the store |
| `FolderPaths.ResolveKeepsNames` | src/kiro_crew/artifacts.py:3131-3136 | every name a resolve stores is a clean one |
| `FolderPaths.ResolveTwiceIff` | src/kiro_crew/artifacts.py:3310-3347 | a second creating resolve answers the same leaf and creates nothing if and only if, for each segment from the first missing one on, the cut and its stripped form agree in lower case |
| `FolderPaths.ResolveTwice` | src/kiro_crew/artifacts.py:3313-3318 | so it does whenever no segment's cut at 100 characters ends in white space |
| `FolderPaths.CutMakesDuplicates` | src/kiro_crew/artifacts.py:3131-3136 | a path of 99 letters, a space and a letter is created anew on every call |
| `FolderPaths.BreadcrumbRoundTripIff` | src/kiro_crew/artifacts.py:3349-3363 | with siblings apart and no separator in names, resolving a folder's path gives the folder back if and only if the path does not read as the root or another id |
| `FolderLookup.LookupIff` | src/kiro_crew/artifacts.py:3279-3327 | a lookup that creates nothing answers x if and only if the reference reads as the root or an id and x is that, or a chain of folders leads from the root to x, each the first under the one before whose name agrees with its segment; otherwise it is not found |
| `FolderLookup.ResolveCreates` | src/kiro_crew/artifacts.py:3326-3347 | a creating resolve follows the longest such chain and appends one folder for each segment left, in order and named by its cut; it is refused if and only if the last would lie deeper than level 20 |
| `FolderLookup.CleanIs` | src/kiro_crew/artifacts.py:3131-3136 | a name is refused if and only if it is white space, and otherwise is its stripped form, cut at 100 |
| `FolderDelete.SafeDeleteMap` | src/kiro_crew/artifacts.py:3400-3415 | a safe delete removes one folder and hangs its children on its parent, nothing else |
| `FolderDelete.SafeDeleteNoDangling` | src/kiro_crew/artifacts.py:3434-3446 | a safe delete leaves no artifact filed in a missing folder |
| `FolderDelete.CascadeNoDanglingIff` | src/kiro_crew/artifacts.py:3434-3444 | a cascade leaves a dangling artifact if and only if an artifact in the subtree refuses to be deleted |
| `FolderRuns.StepKeepsWf` | src/kiro_crew/artifacts.py:3164-3234 | every operation, accepted or refused, keeps the store well formed |
| `FolderRuns.RunKeepsForest` | src/kiro_crew/artifacts.py:3025-3035 | over every run of create, rename, reparent, resolve and both deletes the store stays a forest with clean names |
| `FolderRuns.RunShape` | src/kiro_crew/artifacts.py:3033-3035 | after any run each folder's parent exists or is the root, no folder reaches itself, and its depth is below 20 |
| `FolderEffects.RenameEffect` | src/kiro_crew/artifacts.py:3195-3203 | one folder takes the cleaned name, nothing else changes; a blank name or a missing folder changes nothing |
| `FolderEffects.ReparentEffect` | src/kiro_crew/artifacts.py:3205-3234 | one folder takes the new parent if it exists, is not in its subtree, and every moved folder stays within 20 levels; otherwise nothing changes |
| `FolderEffects.SafeDeleteEffect` | src/kiro_crew/artifacts.py:3400-3415 | exactly the folders left: all but the deleted one, its children under its parent |
| `FolderEffects.CascadeEffect` | src/kiro_crew/artifacts.py:3406-3415 | exactly the folders left: those not in the subtree |
| `FolderEffects.FilingEffect` | src/kiro_crew/artifacts.py:3432-3446 | which artifacts are left after either deletion, and where each is filed |
| `FolderService.ArtifactFolderStore.SubtreeIds` | src/kiro_crew/artifacts.py:3114-3129 | the worklist ends on any list, cyclic ones included, with exactly the reflexive-transitive descendants |
| `FolderService.ArtifactFolderStore.Depth` | src/kiro_crew/artifacts.py:3102-3112 | the walk ends on any list and computes the specified depth |
| `FolderService.ArtifactFolderStore.Create` | src/kiro_crew/artifacts.py:3164-3193 | succeeds if and only if the name is clean and the parent may nest; appends one folder; keeps the store well formed |
| `FolderService.ArtifactFolderStore.Rename` | src/kiro_crew/artifacts.py:3195-3203 | changes one name, or reports the missing folder or the empty name |
| `FolderService.ArtifactFolderStore.Reparent` | src/kiro_crew/artifacts.py:3205-3234 | not found, refused by the exact guard, or moved; keeps the store well formed |
| `FolderService.ArtifactFolderStore.DeepestOf` | src/kiro_crew/artifacts.py:3222-3228 | the greatest depth in the subtree, attained |
| `FolderService.ArtifactFolderStore.GuardIsTooDeep` | src/kiro_crew/artifacts.py:3226-3232 | the height test refuses if and only if some moved folder would be at the cap |
| `FolderService.ArtifactFolderStore.ResolvePath` | src/kiro_crew/artifacts.py:3279-3347 | the in-place walk does what the plain resolution says, and a failing one leaves the list as it was; one that creates nothing answers a folder if and only if the reference leads to it, and else reports it missing |
| `FolderService.ArtifactFolderStore.BreadcrumbOf` | src/kiro_crew/artifacts.py:3349-3363 | the collected and reversed names are the path |
| `FolderService.ArtifactFolderStore.Delete` | src/kiro_crew/artifacts.py:3379-3458 | removes exactly the subtree or the one folder, deletes or re-files exactly its artifacts, keeps the store well formed, and dangles only on a refused deletion |
| `FolderService.ArtifactFolderStore.RefileOrDelete` | src/kiro_crew/artifacts.py:3432-3446 | the pass over the artifacts touches exactly those filed in the affected folders |
| `ArtifactHistory.ReadYourWrites` | src/kiro_crew/artifacts.py:1042-1054 | after update(content=c) returns, get() answers c if and only if a link that took the write serves it or c holds no carriage return, and c with its newlines normalised otherwise; a refused link is demoted |
| `ArtifactText.ReadBackIff` | src/kiro_crew/artifacts.py:2971-2975 | a text file of the store reads back as written if and only if the text holds no carriage return |
| `ArtifactHistory.ReturnIsLost` | src/kiro_crew/artifacts.py:2971-2984 | a chat-backed artifact updated to a text with a carriage return answers another text |
| `ArtifactHistory.WriteStaysReadable` | src/kiro_crew/artifacts.py:1042-1054 | get() keeps answering so through any snapshots, retypings and raising updates that follow, until the next content or outside edit |
| `ArtifactHistory.OnlyGivenContentIsWritten` | src/kiro_crew/artifacts.py:1356-1376 | a linked file changes only to content the caller gave; a snapshot never writes it, truncated read or not |
| `ArtifactHistory.SnapshotCapturesTheView` | src/kiro_crew/artifacts.py:1350-1459 | a snapshot without content makes the view the live text, writes no linked file, and adds a version that reads as that view with newlines normalised; the artifact is dirty right after if and only if its link cannot be read or the view holds a carriage return |
| `ArtifactHistory.RaisedUpdateIsHalfDone` | src/kiro_crew/artifacts.py:1405-1453 | an update raising for its event type has changed the live text; get() answers it if and only if, from the link, the mirror took it or the file equals it, and otherwise it holds no carriage return |
| `ArtifactHistory.PruneKeepsWindow` | src/kiro_crew/artifacts.py:2987-3003 | pruning keeps the last 50 versions and removes every lower one that can be unlinked |
| `ArtifactHistory.TrimKeepsWindow` | src/kiro_crew/artifacts.py:1477-1485 | trimming leaves kinds for exactly the window |
| `ArtifactHistory.CreateTracks` | src/kiro_crew/artifacts.py:957-989 | a new artifact starts with its one version captured |
| `ArtifactHistory.UpdateTracks` | src/kiro_crew/artifacts.py:1442-1487 | every update keeps the window, and in it the kind and the text as read back of every bump |
| `ArtifactHistory.HistoryReplays` | src/kiro_crew/artifacts.py:1018-1037 | over any run with outside edits, versions max(1, version-49) to version are readable, no other, each with the kind and the live text of its bump, the text as given if and only if it holds no carriage return and normalised otherwise |
| `ArtifactHistory.CopiesStayCopies` | src/kiro_crew/artifacts.py:1407-1434 | once an artifact owns its copy no run of updates links it again or writes a linked file |
| `ArtifactEffects.VersionIff` | src/kiro_crew/artifacts.py:1296-1298 | an update raises the version by one if and only if it asks for a snapshot and does not raise |
| `ArtifactEffects.VersionsCountSnapshots` | src/kiro_crew/artifacts.py:1442-1455 | over any run the version rises by the number of snapshot calls that returned, and the history has one entry for each |
| `ArtifactEffects.SilentKeepsVersions` | src/kiro_crew/artifacts.py:1442-1487 | without a snapshot no version or kind of the last fifty changes |
| `ArtifactEffects.SnapshotAddsVersion` | src/kiro_crew/artifacts.py:1453-1487 | with one the new version reads as the live text with its kind, and the others of the last fifty stay |
| `ArtifactEffects.RaisesIff` | src/kiro_crew/artifacts.py:1322-1451 | an update raises if and only if its content is over 25 MiB or its event type is bad, and in the first case changes nothing |
| `ArtifactEffects.LiveTextIs` | src/kiro_crew/artifacts.py:1322-1405 | the live text afterwards: the content given, or what get() shows when a snapshot gives none, or as before |
| `ArtifactEffects.KindIs` | src/kiro_crew/artifacts.py:1333-1403 | the kind afterwards: the one given, or the detected one of new text while the kind is automatic, or as before |
| `ArtifactEffects.MirrorIs` | src/kiro_crew/artifacts.py:1407-1434 | the linked file takes the content given if it is writable, no other file changes, and a refusal makes the artifact own its copy |
| `ArtifactEffects.GetIs` | src/kiro_crew/artifacts.py:1038-1073 | what get() answers: the linked file, its first 25 MiB, or the live text as read back; missing and dirty exactly when |
| `ArtifactService.ArtifactStore.Create` | src/kiro_crew/artifacts.py:957-989 | refuses oversize content and a taken slug; otherwise adds one artifact and touches no other: the kind is the given, blank or inferred one, version 1 alone is readable, and get() answers the content as read back or the linked file, dirty exactly when the two differ or the link is missing |
| `ArtifactService.ArtifactStore.GetCurrent` | src/kiro_crew/artifacts.py:1038-1073 | the view of the specification: live text as read back, missing and dirty flags |
| `ArtifactService.ArtifactStore.TryWriteSource` | src/kiro_crew/artifacts.py:1217-1275 | writes the file whole or leaves it and every other alone; content within the limit is what the link then reads back |
| `ArtifactService.ArtifactStore.PruneVersions` | src/kiro_crew/artifacts.py:2987-3003 | deleting the lowest files one by one is the specified pruning |
| `ArtifactService.ArtifactStore.ReadLive` | src/kiro_crew/artifacts.py:1356-1369 | the content to make live, for each kind of artifact, as read back |
| `ArtifactService.ArtifactStore.MirrorLive` | src/kiro_crew/artifacts.py:1407-1434 | mirrors given content and demotes on refusal |
| `ArtifactService.ArtifactStore.WriteLive` | src/kiro_crew/artifacts.py:1378-1434 | current text and linked file written before any metadata |
| `ArtifactService.ArtifactStore.Commit` | src/kiro_crew/artifacts.py:1453-1487 | snapshot, metadata, pruning |
| `ArtifactService.ArtifactStore.UpdateArtifact` | src/kiro_crew/artifacts.py:1277-1505 | the stepwise update is the specified one, raising paths included, and touches no other artifact; the version rises by one exactly for a snapshot that returns |
| `CommentPruning.PrunedDropsThreads` | src/kiro_crew/artifacts.py:2336-2371 | whole threads go, the rest keeps its order, the kept thread stays, and the list fits unless only that thread is left |
| `CommentPruning.OldestGoFirst` | src/kiro_crew/artifacts.py:2354-2368 | the threads dropped are the oldest ones and no more than the cap requires |
| `CommentPruning.AddedKeptIff` | src/kiro_crew/artifacts.py:2319-2334 | the comment just added is kept if and only if the list had room, or the id lookup finds its own thread, or dropping the older threads makes room already |
| `CommentPruning.ClashDropsAdded` | src/kiro_crew/artifacts.py:2352-2353 | with such a clash the new comment itself is dropped |
| `CommentLaws.CappedIs` | src/kiro_crew/artifacts.py:2336-2371 | of any list exactly the threads that begin before some position go, save that of the first comment with the given id; the position is as early as the cap of 500 allows |
| `CommentPruning.PassStep` | src/kiro_crew/artifacts.py:2360-2368 | one turn of the pass drops the thread the plain statement drops next |
| `CommentPruning.CommentList.PruneOldestThreads` | src/kiro_crew/artifacts.py:2336-2371 | the single pass with a drop set and a running count refines repeated dropping of the oldest thread |
| `CommentPruning.CommentList.AddComment` | src/kiro_crew/artifacts.py:2319-2334 | appends and prunes; the comment is kept exactly under that condition |
| `CommentMerge.MergeMember` | src/kiro_crew/artifacts.py:2475-2506 | exactly which comments a merge leaves |
| `CommentMerge.DeadThreadsGo` | src/kiro_crew/artifacts.py:2464-2481 | no comment of a thread whose root is tombstoned, and no tombstoned mirror, is left or added |
| `CommentMerge.FetchIsReflected` | src/kiro_crew/artifacts.py:2488-2506 | every mirror shows the provider's status, body and author, and every live comment of the fetch is mirrored |
| `CommentMerge.LocalsUntouched` | src/kiro_crew/artifacts.py:2482-2484 | the local comments of live threads are kept unchanged and in order, and no others |
| `CommentMerge.OriginsStayUnique` | src/kiro_crew/artifacts.py:2475-2506 | provider origins stay unique |
| `CommentMerge.MergeTwiceIff` | src/kiro_crew/artifacts.py:2441-2509 | merging the same fetch again changes nothing if and only if every comment live upstream is in a thread that no mirror here kills, or has a mirror that is kept |
| `CommentMerge.MergeTwice` | src/kiro_crew/artifacts.py:2441-2509 | so it is idempotent when mirrors agree with the fetch on id, thread and parent |
| `CommentMerge.SecondMergeBringsBack` | src/kiro_crew/artifacts.py:2464-2474 | without that agreement a second merge can add what the first held back |
| `CommentLaws.MergedIs` | src/kiro_crew/artifacts.py:2441-2509 | a merge, whole, said of the list and the fetch: which comments stay and in which order, how each looks, which are added, by the last comment of each origin, in the order the fetch first names them |
| `CommentMerge.CommentMirror.ReadFetch` | src/kiro_crew/artifacts.py:2443-2445 | the dictionary of the fetch: first positions, last values |
| `CommentMerge.CommentMirror.DroppedThreads` | src/kiro_crew/artifacts.py:2464-2474 | the set holds exactly the dead threads |
| `CommentMerge.CommentMirror.KeepSurvivors` | src/kiro_crew/artifacts.py:2478-2499 | the survivors in place and refreshed, the origins they cover, and no change unless something differs |
| `CommentMerge.CommentMirror.AddArrivals` | src/kiro_crew/artifacts.py:2500-2505 | what the fetch adds, in its order |
| `CommentMerge.CommentMirror.MergeRemoteComments` | src/kiro_crew/artifacts.py:2426-2509 | the loops compute the merge |
| `McpAliases.AliasSlashFree` | src/kiro_crew/mcp_utils.py:15-34 | an alias holds no slash and is its own alias |
| `McpLaws.AliasIs` | src/kiro_crew/mcp_utils.py:15-34 | the alias of a name with a slash: its part from the last colon on without leading `@`, a dash for each other sign, dashes at both ends off, `mcp-server` if nothing is left; other names stay |
| `McpLaws.FamilyIs` | src/kiro_crew/agent.py:1797-1803 | a key belongs to an alias if it is the alias, or the alias, a dash and digits |
| `McpAliases.FindFree` | src/kiro_crew/agent.py:1804-1808 | the search ends and finds the base or the lowest free number |
| `McpKeys.RewriteTwice` | src/kiro_crew/agent.py:1784-1788 | successive reference rewrites to one alias equal one rewrite |
| `McpKeys.MoveMember` | src/kiro_crew/agent.py:1790-1824 | exactly which servers there are after moving one key |
| `McpKeys.MoveKeepsNorms` | src/kiro_crew/agent.py:1790-1824 | moving a key keeps the set of normalised specs |
| `McpKeys.MoveRepresents` | src/kiro_crew/agent.py:1810-1822 | every server, and every whole-key reference `@key` to one, is represented afterwards by a server with an equal normalised spec |
| `McpKeys.ServersSurvive` | src/kiro_crew/agent.py:1752-1826 | every server before the run has one after it with the same value in every field, an `env` or `args` apart that is falsy or absent on both sides, and conversely |
| `McpLaws.FallsTogetherIff` | src/kiro_crew/agent.py:1792-1822 | a turn drops a slash-free key if and only if its server and an earlier one are of the moved key's family and their specs agree with the moved one in that sense; one that does not agree stays whole |
| `McpLaws.ReferencesSurvive` | src/kiro_crew/agent.py:1784-1788 | every server whose whole-key reference is in a list has after the run a server that agrees with it and is in that list |
| `McpLaws.RunLeavesNone` | src/kiro_crew/agent.py:1784-1822 | no run leaves a whole-key reference to a server that was there and is gone |
| `McpKeys.NormalizedKeepsMeaning` | src/kiro_crew/agent.py:1755-1826 | after the run no unmanaged slash key remains, servers before and after agree field by field, and all whole-key references keep their meaning |
| `McpKeys.NormalizeTwice` | src/kiro_crew/agent.py:1760-1761 | a second run is the identity |
| `McpKeys.ServerKeptIff` | src/kiro_crew/agent.py:1772-1774 | a turn leaves another server as it is if and only if it is no twin, or is the home already in normal form |
| `McpKeys.ManagedServerFolded` | src/kiro_crew/agent.py:1813-1822 | a managed server that is a twin behind an earlier sibling is dropped |
| `McpToolRefs.TurnKeepsServer` | src/kiro_crew/agent.py:1797-1822 | a turn leaves a slash-free key standing for its server if and only if that is no twin of the moved one or the earliest twin; otherwise the key is gone |
| `McpToolRefs.TurnKeepsEntry` | src/kiro_crew/agent.py:1784-1788 | a turn leaves an entry with a slash as it is unless it is the moved key's own reference, and adds none |
| `McpToolRefs.ToolRefsKept` | src/kiro_crew/agent.py:1784-1822 | over a run an entry `@server/tool` stays if and only if it is not a moved key itself; its server keeps its key if it is the earliest twin for each key moved, and, when one key moves, only then |
| `McpToolRefs.NamesIff` | src/kiro_crew/agent.py:1790-1822 | over any run, exactly which server a slash-free key stands for at the end, turn by turn: kept while it is no twin of the moved server or the earliest, given again only to a moved server |
| `McpToolRefs.FoldedToolRefDangles` | src/kiro_crew/agent.py:1813-1822 | an entry `@server/tool` stays in the list while the server it names is folded away |
| `McpKeys.AgentConfig.RewriteRef` | src/kiro_crew/agent.py:1784-1788 | rewrites and de-duplicates both lists |
| `McpKeys.AgentConfig.FindHome` | src/kiro_crew/agent.py:1797-1808 | the first equivalent family member, else a free name |
| `McpKeys.AgentConfig.FoldTwins` | src/kiro_crew/agent.py:1813-1822 | drops exactly the other twins and redirects their references |
| `McpKeys.AgentConfig.Move` | src/kiro_crew/agent.py:1790-1824 | one turn in place |
| `McpKeys.AgentConfig.NormalizeKeys` | src/kiro_crew/agent.py:1755-1826 | the whole loop, with the results above about whole-key references; every server survives with its fields, a non-empty `env` or `args` unchanged |
| `HookMerge.AddedExactly` | src/kiro_crew/agent.py:1241-1318 | what one bucket adds is valid, new and distinct, within both caps, and below the caps leaves nothing valid out |
| `HookMerge.MergeExtends` | src/kiro_crew/agent.py:1200-1319 | bundled hooks stay a prefix, each event gains at most 10 new distinct hooks, all events together at most 20, other events nothing |
| `HookLaws.AddedIs` | src/kiro_crew/agent.py:1241-1318 | exactly what one bucket adds, entry by entry: the hook of each valid entry, its matcher a safe text of at most 200 or absent, that brings a new one, in order, until ten are added to the event or twenty in all |
| `HookLaws.MergeIs` | src/kiro_crew/agent.py:1200-1319 | so for every bucket of the whole merge, counting what the earlier ones added; other events stay as they are |
| `HookMerge.AddBucket` | src/kiro_crew/agent.py:1236-1318 | the loop with counters and early exit adds exactly the first valid new hooks |
| `HookMerge.MergeKiroHooks` | src/kiro_crew/agent.py:1200-1319 | the whole merge |
| `AuditGraph.RaisesIffCycleReachable` | scripts/check_npm_audit.py:230-244 | the resolver ends and raises if and only if a reference cycle is reachable |
| `AuditGraph.ResolvesExactly` | scripts/check_npm_audit.py:230-244 | otherwise it answers exactly the advisories of the packages reachable through `via` |
| `AuditReport.GraphClosed` | scripts/check_npm_audit.py:195-227 | validated records form a graph without dangling references |
| `AuditReport.ValidateRecords` | scripts/check_npm_audit.py:195-227 | accepts if and only if every record and item is well formed |
| `AuditReport.EnterCovers` | scripts/check_npm_audit.py:311-313 | entering an advisory loses no pair and keeps the more severe of two |
| `AuditReport.ResolveRecord` | scripts/check_npm_audit.py:295-300 | one package resolved, or refused for a cycle or for missing advisory details |
| `AuditReport.CollectFindings` | scripts/check_npm_audit.py:293-313 | the findings are exactly the flagged package and advisory pairs, each with its greatest severity |
| `AuditReport.ParseAuditReport` | scripts/check_npm_audit.py:265-319 | succeeds if and only if the report is trustworthy, with complete findings |
| `AuditWords.TrustworthyIff` | scripts/check_npm_audit.py:265-319 | a report is trustworthy if and only if its records are well formed, no package cites itself through others, every high or critical package has an advisory behind it, and exit status, counts and advisories agree |
| `AuditWords.FindingSeverity` | scripts/check_npm_audit.py:311-313 | a finding is critical if any advisory of its id behind the package is, and high otherwise |
| `AuditGate.AddScopes` | scripts/check_npm_audit.py:137-141 | refuses if and only if a scope of the rule is taken |
| `AuditGate.ValidateExceptions` | scripts/check_npm_audit.py:86-157 | accepts if and only if every entry meets the contract and no two share a scope |
| `AuditWords.GovernedIff` | scripts/check_npm_audit.py:86-157 | a document is accepted if and only if every entry has its fields within their lengths, known lockfiles, an end within 30 days and not past, and no two are about the same package, advisory and lockfile |
| `AuditGate.MatchIsExcuse` | scripts/check_npm_audit.py:64-69 | a rule matches a finding if and only if an entry covers exactly its package, advisory and lockfile |
| `AuditGate.NothingBlocked` | scripts/check_npm_audit.py:403-406 | no unexcepted finding if and only if every flagged pair is excused |
| `AuditGate.AuditLockfile` | scripts/check_npm_audit.py:359-400 | a lockfile lets the build through if and only if its report is trustworthy and all it flags is excused |
| `AuditGate.Decide` | scripts/check_npm_audit.py:409-437 | exit status 0 if and only if the exceptions are governed and every lockfile is clear |
| `AuditGate.PassingIsSafe` | scripts/check_npm_audit.py:409-437 | if the gate passes, each high or critical advisory behind any package has a valid entry, not expired and expiring within 30 days |
| `AuditWords.GateIff` | scripts/check_npm_audit.py:409-437 | the exit status is 0 if and only if the document and the three reports are so and every advisory of severity "high" or "critical" behind any package has an entry for exactly it |
| `AuditWords.UnexcusedBlocks` | scripts/check_npm_audit.py:297-313 | a high or critical advisory behind any package of any of the three lockfiles, with no entry for it, blocks, whatever else the inputs say |
| `ChannelHistory.WindowIsRebuilt` | src/kiro_crew/channel_history.py:247-308 | a window in step with its log, evicted at any later time, is what a load at that time rebuilds |
| `ChannelHistory.PushKeepsStep` | src/kiro_crew/channel_history.py:109-136 | eviction, a capacity drop and an append keep the window in step with the log |
| `ChannelHistory.EvictKeepsStep` | src/kiro_crew/channel_history.py:349-362 | so does eviction |
| `ChannelHistory.LoadIsInStep` | src/kiro_crew/channel_history.py:247-347 | so does a start, compacted or not |
| `ChannelHistory.RestartTransparent` | src/kiro_crew/channel_history.py:247-313 | after any mix of pushes, evictions, drops, restarts and compactions a restart rebuilds the window |
| `ChannelLaws.WindowShowsHistory` | src/kiro_crew/channel_history.py:247-362 | after any mix of pushes, looks, restarts and compactions the window shows, of all messages ever seen, those no older than the time limit, or the last of them up to the capacity |
| `ChannelLaws.LogAfterStart` | src/kiro_crew/channel_history.py:293-345 | a start rewrites the log if and only if a stamped message has outlived the limit and compaction is on, to one line for each message of the window |
| `ChannelHistory.ObserveAgainIff` | src/kiro_crew/channel_history.py:78-91 | observing an observed channel again keeps the window right if and only if it is full or nothing in it is live |
| `ChannelService.ObservedChannel.constructor` | src/kiro_crew/channel_history.py:78-91 | a first observation loads the window in step with the log |
| `ChannelService.ObservedChannel.Evict` | src/kiro_crew/channel_history.py:349-357 | pops the expired front |
| `ChannelService.ObservedChannel.Push` | src/kiro_crew/channel_history.py:109-136 | the pushed window and the longer log, in step |
| `ChannelService.ObservedChannel.ReadLog` | src/kiro_crew/channel_history.py:257-291 | the readable unexpired entries, and whether any had expired |
| `ChannelService.ObservedChannel.LoadObserve` | src/kiro_crew/channel_history.py:293-313 | the merged window, and the compacted log |
| `ChannelService.ObservedChannel.Compact` | src/kiro_crew/channel_history.py:315-345 | the log is the stamped entries of the window |
| `AgentListing.EqualSignatureEqualContents` | src/kiro_crew/agent_discovery.py:206-229 | with rising stamps, equal signatures across any writes and deletes mean equal contents |
| `AgentListing.SameStampGoesUnseen` | src/kiro_crew/agent_discovery.py:206-229 | without them a rewrite can go unseen |
| `AgentListing.ChangeUnseenIff` | src/kiro_crew/agent_discovery.py:206-229 | one change keeps the signature if and only if it rewrites a file under a stamp not above the newest and the newest stamp is still there afterwards |
| `AgentListing.DedupedIsPackageFirst` | src/kiro_crew/agent_discovery.py:374-390 | each name is listed once: by its first packaged agent, or else its first |
| `AgentLaws.ListedIff` | src/kiro_crew/agent_discovery.py:300-390 | exactly which agents are listed, said of the files: for each name that some file reads as, the first with a package, or else the first |
| `AgentLaws.ListedInOrder` | src/kiro_crew/agent_discovery.py:300-390 | in the order of the first files that bear their names |
| `AgentListing.DirSignature` | src/kiro_crew/agent_discovery.py:206-229 | the pass yields the count and the newest stamp |
| `AgentListing.AgentsDirectory.Dedup` | src/kiro_crew/agent_discovery.py:374-390 | the loop computes the de-duplicated list |
| `AgentListing.AgentsDirectory.ListAgents` | src/kiro_crew/agent_discovery.py:282-298 | cached or not, the answer is what a fresh scan would list |

## Left out

- AutoNudgeTheorems.NoLostUpdate: a write handed over while one is unsettled breaks it, as shown; `stop()` and a `remove_sync()` called from outside the service are not modelled.
- AutoNudgeTheorems.OneTimerOneWindow: a loop stays in the history once doubled, although it can come to order again.
- AutoNudgeTheorems.ExpiredNeverEmitted: loops not doubled, as shown; that the lock serves its waiters in the order they came is not modelled.
- AutoNudgeTheorems.CappedLoopEndsInactive: says nothing of the file when the deactivating write failed; the file is then as it was.
- AutoNudgePacing.CyclesWithinCap: loops not doubled, as shown.
- AutoNudgeTheorems.FireWriteNeverCancelled: loops not doubled, as shown.
- AutoNudgePacing.PauseSafety: starts when the deactivating write has landed; an update whose write failed raises and promises nothing.
- AutoNudgeServices.AutoNudgeService.FindBySlot: of several loops on one slot any may be answered, where the program takes the first of its dictionary; the results hold for every choice, and with distinct slots an exact match is the only one.
- AutoNudgeServices.AutoNudgeService.NotifyUserInput: the same choice.
- AutoNudgeServices.AutoNudgeService.AddBegin: the same choice of the loop to replace.
- AutoNudgeServices.AutoNudgeService.NotifyTurnComplete: of several loops on one slot any may be chosen, where the program takes the first of its dictionary.
- FolderService.ArtifactFolderStore.Create: colours, which the source may refuse, are not modelled.
- FolderService.ArtifactFolderStore.Delete: no `set_folder` runs between its two phases.
- ArtifactHistory.WriteStaysReadable: an outside edit of the linked file ends it, as the property itself says.
- ArtifactHistory.HistoryReplays: `settle_blank` and the migration of widget kinds, which rewrite stored kinds, are not steps of the runs.
- ArtifactService.ArtifactStore.Create: deriving a slug, the creation event, names and tags are not part of the record.
- ArtifactService.ArtifactStore.UpdateArtifact: events, names, tags, descriptions and the comment rescan are not part of the record.
- McpToolRefs.ToolRefsKept: its condition on the input is one way for runs that move several keys; the exact one is `NamesIff`, read off the turns.
- AgentListing.AgentsDirectory.ListAgents: rows other editions add after the cache are not part of the answer.
- AgentListing.EqualSignatureEqualContents: a stamp that does not rise is excluded, and so is a link target that changes without its link.
- AutoNudge: the loading of the file and its repairs, observers and logging, the body of the fire callback, wall-clock time (delays are data, any sleeping timer may wake), and the order in which waiters get the lock (any waiter may).
- AutoNudgeServices.AutoNudgeService.ArmTimer: a timer armed without a delay reads the idle time when it first runs (autonudge.py:749-751); here the delay is fixed at arming.
- AutoNudge: ids are numbers handed out fresh; the folded form of a channel key is an attribute of the loop.
- Folders: icon, colour and the reordering of siblings; white space and lower case are open functions; new ids are given and fresh; the file behind the list is not modelled, so a failing save is not.
- Artifact store: names, descriptions, tags, events, publications, web-application metadata, and the anchor rescan of comments; containment and descriptor checks are one yes or no per call; UTF-8 is a pair of functions that round-trip; text files are written without newline translation, as on POSIX.
- Artifact store: slugs are given; deriving a free one from a name is not modelled.
- Comments: writing the sidecar file, and the fields no operation here reads.
- MCP keys: numbered siblings are recognised by ASCII digits; the dictionary is a list with distinct keys.
- Hook merge: command validation and matcher characters are open functions; audit events are left out.
- Audit gate: patterns, trimming and calendar dates are open functions; running npm and reading files are inputs that may be missing.
- Channel history: channels that are not observed and their monotonic clock, formatting of the context text, and failing appends.
- Agent listing: parsing one agent file and the order of file names are open functions; rows added by other editions come after the cache and are left out.
