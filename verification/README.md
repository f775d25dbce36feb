# The ordering core of ETCS, verified

A Dafny model of the runtime's event ordering and of what is built on it, with proofs that hold for every
input, every interleaving and every run. `dafny verify dfyconfig.toml` checks the whole project.

| files | part of the runtime |
|---|---|
| EventLog, ReorderBuffer, EventStream | the conflict scheduler and the ordering loop (core/EventStream.h) |
| LmaxRing | the multi-producer, single-consumer ring that feeds it (core/LMAXSequentialSharedPage.h) |
| Lifetime, LifetimeRuns, LifetimeEffects, Loader | who keeps a module loaded (core/DynamicLoader.h, core/EventNode.h) |
| Preflight, PreflightReport, PreflightWalk, ScriptRuns, ScriptEffects, ScriptSafety, ScriptNames, ScriptWorks, WorksRefused, CleanStops | whole-tree script preflight against script execution (core/CommandExecutor.h) |
| CommandText, CommandScan, Operations, Substitution | the quote-aware scanners, the action and operation lines, and name substitution (core/Command.h, core/CommandExecutor.h) |
| TokenBuffer, TokenBufferOps, TokenReading | the escaped token codec (core/Buffer.h) |
| RidIndex | the lazily rebuilt ordered view (core/RIDList.h) |
| ScopeRegistry | the registry of calls in flight and the flag they share (core/Bundles.h, core/Entity.h) |

What the code updates in place is a class or a method with loops, proved equal to a function of the old
state; what the code promises is proved of those functions and of whole runs of them.

## Where to start reading

- `EventStreams.EventStream.Run` with `EventLog.Serializable`: whatever the masks, the handlers and the order
  of completions, the stream is serializable in arrival order.
- `EventStreams.EventStream.Service` and `ReorderBuffer.QuietWaits`: the fixpoint ends and is complete, and
  nothing deadlocks.
- `LmaxRing.FifoExactlyOnce` and `LmaxRing.NoLostPublication`: exactly-once FIFO, and no claimed frame is
  left unpublished; `LmaxRing.ProducerKeepsInvIff` and `LmaxRing.StraddleGoesWrong`: when exactly.
- `LifetimeRuns.RunsAreSafe` with `LifetimeRuns.RecheckSoundIff`: unload safety over every interleaving;
  LifetimeEffects: what each handler leaves behind.
- `ScriptSafety.PreflightIsSound`, `ScriptSafety.TypesAreSound`, `ScriptNames.SpawnsFindTheirNameFree`,
  `ScriptWorks.WorkedIsAccepted`: from any table of globals, whatever others write to it.
- `PreflightReport.TreeReportsIff`, `Preflight.TreeCycleIff`: exactly what is in the report.
- `CommandText.ActionRoundTrip`, `CommandText.StreamRoundTrip`, `Operations.KillAtRoundTrip`,
  `Operations.AcquireRoundTrip`, `Substitution.BoundariesKeptIff`.
- `TokenBuffer.CodecRoundTrip`, `RidIndex.RIDList.SearchOrdered`, `ScopeRegistry.SettledFlags` with
  `ScopeRegistry.LoweringInterruptsIff`.

## Modelling choices

- **Ordering engine.** The depth is any D >= 1; a row of the bit matrix is a set of slot indices. Handlers
  are any code: their outcome is arbitrary at every call, and so is the mask of every event. Micro-steps of
  handlers and workers may fall between any two actions of the ordering thread; enqueues and completions
  fall between turns of its loop. A worker posts exactly one completion per Async event, while the event's
  slot is Running. What a step does to the world is any relation; only steps of non-intersecting masks are
  assumed to commute.
- **Ring.** One atomic access is one step, sequentially consistent. UINT64_MAX is -1 and sequence numbers
  are unbounded, but the wrap of `seq - consumer` on a stale `seq` is kept. The `ready` and the `sequence`
  load of one observation are two steps, as in the code.
- **Lifetime.** Every handler runs on one ordering thread and is one step; the 100 ms before a recheck is
  any gap. Loading succeeds, throws, or is refused at registration. The dying entity's sibling search is any
  search that returns another live root-level entity of the module whenever one is attached. A token's
  fields are kept in the loader, keyed by the identity of what carries the token.
- **Scripts.** Files are a finite map from path to parsed lines; a launch line carries the path it resolves
  to. Every started script may take the next step at any time, so a detached script runs beside its
  launcher. Which RIDs resolve, what a spawn returns and whether work fails is arbitrary at every step. A
  dead global may be forgotten at any step. The table of globals belongs to the process: a run starts from
  any contents (earlier root scripts, the prompt, the launch line), and anybody else may publish any name
  at any step.
- **Command text.** Characters are ASCII as the source's classification uses them. What a name resolves to
  and where the tree's root is are parameters; a resolved ACE_ROOT token is the root followed by the token's
  own tail, as in the code.
- **Calls in flight.** The registry changes under a lock; the flag that the calls of a label share is raised
  and lowered by later events, done at any time and in any order. A call does not return before the flag it
  was to raise is up, because it waits for that event.
- **Codec.** Bytes are 0 to 255, the integer type any range; the standard library's to_chars and from_chars,
  stable_sort and the two bisections are written out.

## What the proofs turned up

- The publisher's sweep loads `ready` and then `sequence` (core/LMAXSequentialSharedPage.h:464-468). When
  the look is at the frame after the cursor, the ring is full of unconsumed frames with its head still
  flagged, and another producer exists, the two loads can straddle a lap, and a frame is published before
  its payload is written. A step is harmless if and only if it is not such a look, and after every such look
  the failure is reachable.
- A write can be refused on a ring that is not full: the claim it loaded may be older than the consumer's
  cursor, and the unsigned difference wraps (core/LMAXSequentialSharedPage.h:196-203).
- The delayed recheck carries a module instance while the registries are keyed by name
  (core/DynamicLoader.h:2047-2102). Two vacates within the delay leave two rechecks; once the first has
  unloaded the instance and the name is loaded again, the second one attaches a Root to the unmapped
  instance. This is exactly the case in which a recheck does harm.
- A library that loads but whose registration is refused (core/DynamicLoader.h:1680) returns without the
  unmap that the two catch blocks do; it stays mapped, unregistered and unowned.
- The preflight's comment says that it rejects nothing that would have worked
  (core/CommandExecutor.h:774-777). That is so under a condition on the files (ScriptWorks.Regular): nothing
  is written after an `exit`; no name is required twice, required and acquired, or child-spawned where the
  script has it; a launched script takes a name of the root by attach or ensure and as its type only; and a
  name of the root is handed on only as itself. And it takes a condition on the names that others have in the
  table (ScriptWorks.OthersFit): the root was launched with them, or a script of the tree looks for them only
  where the preflight expects them too, or after taking them anew. For every clause there is a tree without it
  that is refused although it can run to its end (WorksRefused). The model follows the code.
- The table of globals is said to be cleared when the root script ends, so that one root script's names do
  not leak into the next (core/Command.h:94-96, 135-138). The code does not keep that: only shutdown clears
  it (core/CommandExecutor.h:2617-2628), and the prompt publishes into it as well
  (core/CommandExecutor.h:3972-3973). So a clean script that spawns a name is refused there the second time it
  is run in one process (CleanStops.WorksOnce, ScriptNames.OldNameRefusesSpawns), a launched script can meet
  an older name of another type (CleanStops.MeetsAnOldType), and a refused root can be one that an older name
  would let work (WorksRefused.MeetsAnOldRequirement). For a script's own acquisitions nothing else goes
  wrong: a spawn that is refused for its name, and a type that is not the one the preflight knew, are always
  the doing of others.
- The preflight compares types for a script's own attach and ensure, but not for a child's
  (core/CommandExecutor.h:998-1016), although it suppresses the report of the clash as one already made. The
  program refuses such a line (core/CommandExecutor.h:1572-1578; CleanStops.ClashingChildPasses).
- A name handed to a script on its launch line may be attached there as far as the preflight is concerned
  (core/CommandExecutor.h:882-886), but the program refuses that line as already introduced
  (core/CommandExecutor.h:1467-1469). These are exactly the acquisitions it refuses for that reason.
- An ACE_ROOT token is copied without looking for quotes in it (core/CommandExecutor.h:569-580), so a quote
  that it opens and does not close is not seen by the substitution that follows, though every other scanner
  sees it, and a name inside that quote is substituted. In any one environment the payload's boundaries are
  kept if and only if nothing is changed where the scan is inside a quote; over all environments, if and only
  if no name and no token is come to there. Brackets, and quotes that the token closes itself, do no harm.
- The index after `kill` is read by stoull (core/Command.h:808-811), which lets a minus sign through: the index
  -1 is accepted, and means 2^64 - 1 (Operations.NegativeIndex).
- Equal entries are said not to permute between rebuilds (core/RIDList.h:236-238), but each rebuild sorts the
  map's own enumeration afresh, so they follow that.
- The flag of a label comes down in an event after the last call has left. A call of the same label that
  registers in between is asked to stop by that event, though nobody wants it to (core/Entity.h:2457-2465,
  3000-3009); these are exactly the calls that suffer this, and the flag stays right.
- `<<` of a string tests `written` against N - 4 and N - 3 in unsigned arithmetic. It stays inside the
  buffer exactly if N is at least 4, or N is 3 and nothing is written yet. No buffer of the runtime is that
  small.

## Model

| member | source | states |
|---|---|---|
| EventLog.Serializable | core/EventStream.h:46-132 | Any interleaved history in which conflicting steps come in arrival order runs, from any state, to what the same handlers reach one by one in arrival order, if steps of non-intersecting masks commute |
| EventLog.SerialLosesNothing | core/EventStream.h:46-132 | The serial history is a rearrangement of the interleaved one: no step lost, none invented |
| EventLog.SerialKeepsLives | core/EventStream.h:245-283 | In the serial history every event goes through exactly the life it had in the interleaved one |
| EventLog.PeelLatest | core/EventStream.h:46-132 | The latest arrival can be run last: the earlier ones first, then all of its steps |
| EventLog.MoveEarlier | core/EventStream.h:46-132 | A step moves to the front of a run of steps it is independent of without changing what the run can reach |
| EventLog.LifeAccounts | core/EventStream.h:245-283 | An unbroken life started once, returned and finished at most once, and emitted at most once; a finished one emitted exactly once unless it was dropped |
| EventLog.EmitAfterHandler | core/EventStream.h:89-132 | Every emit comes after the handler is over (an Inline return or its one completion) and hands on that result |
| EventLog.AllMasksMakeAQueue | core/EventStream.h:237-241 | Under masks that share a bit, such as the default all(), the whole history is in arrival order, async handlers or not |
| ReorderBuffer.AcquireKeepsExact | core/EventStream.h:46-65 | Filling an empty slot with the newest arrival keeps every row exactly the live, earlier, conflicting slots |
| ReorderBuffer.RetireKeepsExact | core/EventStream.h:76-88 | Retiring a slot and clearing its bit everywhere leaves no stale bit and no missing one |
| ReorderBuffer.RestatusKeepsExact | core/EventStream.h:70-96 | A change of status among the live ones is invisible to the matrix |
| ReorderBuffer.WeightUpdate | core/EventStream.h:105-132 | How one slot changes the weight that `service` lowers: the termination measure |
| ReorderBuffer.QuietWaits | core/EventStream.h:105-132 | No deadlock: once nothing is unblocked, every live slot is Running or transitively waits for one that is |
| ReorderBuffer.WaitsFindsRunning | core/EventStream.h:105-132 | Whatever waits transitively has a Running slot at the end of its chain |
| ReorderBuffer.QuietAndIdleIsEmpty | core/EventStream.h:105-132 | With nothing Running and nothing unblocked, every slot is Empty |
| ReorderBuffer.DistinctSequences | core/EventStream.h:46-65 | Two different live slots hold different sequence numbers |
| ReorderBuffer.GapReorderBuffer.Acquire | core/EventStream.h:46-65 | The slot becomes Pending under its mask and the matrix stays exact |
| ReorderBuffer.GapReorderBuffer.Blocked | core/EventStream.h:66-69 | True if and only if a live, earlier, conflicting slot remains |
| ReorderBuffer.GapReorderBuffer.MarkRunning | core/EventStream.h:70-75 | The slot becomes Running, nothing else changes, the matrix stays exact |
| ReorderBuffer.GapReorderBuffer.Finish | core/EventStream.h:89-96 | `complete`: the slot becomes Complete with the result; true if and only if nothing holds its commit back |
| ReorderBuffer.GapReorderBuffer.Abandon | core/EventStream.h:76-88 | The slot becomes Empty, its bit leaves every row, the matrix stays exact |
| ReorderBuffer.GapReorderBuffer.Release | core/EventStream.h:123-126 | The commit up to the emit: the slot is Committed and its bit gone from every row |
| ReorderBuffer.GapReorderBuffer.Vacate | core/EventStream.h:128-128 | After the emit the slot is Empty and the buffer valid |
| EventStreams.StepKeepsGood | core/EventStream.h:245-283 | Every step the ordering thread or a worker takes keeps exactly-once lives and arrival order among conflicts |
| EventStreams.AdmitKeepsGood | core/EventStream.h:327-329 | Admission under any mask keeps them |
| EventStreams.EmptyRowIsClear | core/EventStream.h:46-69 | An empty row means that no earlier conflicting event is live, which is what makes a launch or a commit safe |
| EventStreams.ConflictsNeverOverlap | core/EventStream.h:46-132 | While an event is live, no later event that conflicts with it has taken any step |
| EventStreams.QuiescentRunsAreSerial | core/EventStream.h:46-132 | Whenever every admitted event is over, the state reached is one that running the handlers in arrival order reaches |
| EventStreams.GoodIsSerial | core/EventStream.h:46-132 | The same of every reachable state, whatever is still under way: what has been done is what doing it in arrival order does |
| EventStreams.DispatchedExactlyOnce | core/EventStream.h:245-283 | An admitted event that is over started exactly once, with its own event, and emitted exactly once unless dropped |
| EventStreams.SyncIsIdle | core/EventStream.h:327-339 | If no handler ever handed off, a fixpoint leaves every slot Empty |
| EventStreams.NextSlotIsFree | core/EventStream.h:284-329 | Inside the window, the slot of the next sequence number is Empty: no live slot is ever reused |
| EventStreams.BehindTheTail | core/EventStream.h:290-294 | Every event behind the tail is over |
| EventStreams.TailSlot | core/EventStream.h:290-294 | The slot at the tail is Empty or holds exactly the tail's event |
| EventStreams.AdmitKeepsWindow | core/EventStream.h:295-329 | Live sequences stay inside the window after an admission |
| EventStreams.FullWindowHasRunning | core/EventStream.h:295-312 | A full window at a fixpoint has a Running event: a stall is always waiting for a worker |
| EventStreams.BlockedMeansConflict | core/EventStream.h:334-337 | The newest arrival is blocked if and only if a live slot intersects its mask |
| EventStreams.ConflictNeedsAsync | core/EventStream.h:334-337 | At a fixpoint an arrival can only be parked if some handler handed off |
| EventStreams.EventStream.EnqueueEvent | core/EventStream.h:668-681 | Refused once cleanup began, else published behind everything already there |
| EventStreams.EventStream.PostCompletion | core/EventStream.h:682-690 | A worker posts its one completion behind the others |
| EventStreams.EventStream.BeginHandler | core/EventStream.h:245-249 | The Pending slot becomes Running and its own parked event is handed to the handler |
| EventStreams.EventStream.EndHandler | core/EventStream.h:250-260 | The outcome decides the slot: Complete, still Running, or Empty |
| EventStreams.EventStream.LaunchSlot | core/EventStream.h:245-261 | One start with the event's own parked copy, one return, and nothing else of the buffer changed |
| EventStreams.EventStream.Commit | core/EventStream.h:122-129 | One emit of the slot's result, and the slot is Empty |
| EventStreams.EventStream.ServiceSlot | core/EventStream.h:112-131 | Progress if and only if the slot was unblocked and Pending or Complete, and then the weight falls |
| EventStreams.EventStream.Sweep | core/EventStream.h:112-131 | One pass: either the weight falls or nothing is left to do |
| EventStreams.EventStream.Service | core/EventStream.h:105-132 | Ends, and on return no unblocked slot is Pending or Complete, whatever the handlers do |
| EventStreams.EventStream.DrainOne | core/EventStream.h:268-281 | One posted completion is consumed and finishes its own event; a null one is skipped |
| EventStreams.EventStream.DrainCompletions | core/EventStream.h:268-283 | Everything posted is consumed, each completion finishing its own event once and in the order posted, then the fixpoint |
| EventStreams.EventStream.AdvanceTail | core/EventStream.h:290-294 | The tail moves to the oldest live event |
| EventStreams.EventStream.AdmitNext | core/EventStream.h:327-329 | The next event is parked in its own slot under its mask |
| EventStreams.EventStream.AdmitAndLaunch | core/EventStream.h:327-337 | Launched at once unless a live event conflicts, in which case the blocked count goes up by one |
| EventStreams.EventStream.AdmitAndService | core/EventStream.h:327-339 | One admission and the fixpoint |
| EventStreams.EventStream.TurnOnce | core/EventStream.h:284-340 | A turn stalls exactly if the window from the oldest event not over is full, and then a worker is Running; it finds no input exactly if there is room and everything published is admitted; else it admits the next event. Everything behind the tail is over; with no hand-off no turn stalls and no slot outlives the turn |
| EventStreams.EventStream.Run | core/EventStream.h:284-340 | Any script of enqueues, completions, shutdown and turns, with any handlers and masks, keeps the invariant; what was enqueued before shutdown is let in, in order, and with no hand-off every turn admits a waiting event; wherever it stops, the history has been serial in effect: same steps, each event exactly as far in its life, and every reached state reached in arrival order; and with every slot Empty every admitted event has lived its whole life |
| LmaxRing.CalmRunsKeepInv | core/LMAXSequentialSharedPage.h:189-278 | The protocol invariant holds in every state of every run, of any number of producers and the consumer, in which no look straddles a lap |
| LmaxRing.FifoExactlyOnce | core/LMAXSequentialSharedPage.h:189-278 | consumer <= publisher + 1 <= claimed <= consumer + slots, no unconsumed frame overwritten, payloads delivered in claim order, each once |
| LmaxRing.NoLostPublication | core/LMAXSequentialSharedPage.h:427-479 | When no producer is past its claim, everything claimed is published, in spite of the fast path's early return |
| LmaxRing.RefusalIsFullOrStale | core/LMAXSequentialSharedPage.h:194-203 | A write is refused exactly if the ring was full at the claim it read or that claim has been consumed since |
| LmaxRing.ProducerKeepsInvIff | core/LMAXSequentialSharedPage.h:189-240 | Exactly: a producer step keeps the invariant if and only if it is not a look at the next frame, on a brimful ring whose head is still flagged, with a second producer there |
| LmaxRing.InitialInv | core/LMAXSequentialSharedPage.h:427-479 | The invariant holds of a fresh ring |
| LmaxRing.BumpKeepsInv | core/LMAXSequentialSharedPage.h:470-474 | Advancing the cursor keeps a producer responsible for the next ready frame |
| LmaxRing.ProducerKeepsInv | core/LMAXSequentialSharedPage.h:189-240 | Every producer step that is not such a look keeps the invariant |
| LmaxRing.ConsumerKeepsInv | core/LMAXSequentialSharedPage.h:242-278 | Every consumer step keeps the invariant |
| LmaxRing.ReaderTakesIff | core/LMAXSequentialSharedPage.h:242-262 | A frame is taken exactly if it carries the expected sequence; while the invariant holds it always does |
| LmaxRing.ClaimKeepsInv | core/LMAXSequentialSharedPage.h:205-212 | A claim keeps the invariant |
| LmaxRing.FillKeepsInv | core/LMAXSequentialSharedPage.h:228-236 | Clearing, stamping, filling and flagging a claimed frame keep the invariant |
| LmaxRing.StraddleGoesWrong | core/LMAXSequentialSharedPage.h:464-468 | After every such look, wherever the consumer and any other producer stand, the code can go on, with no further look of the kind, to publish a frame whose payload is not written |
| LmaxRing.StraddleDeliversTheWrongPayload | core/LMAXSequentialSharedPage.h:464-468 | A concrete run with a single such look: two producers, one slot, and a payload delivered twice in place of the second write |
| Lifetime.FirstOtherFinds | core/EventNode.h:954-961 | The search finds a listed Root other than the excluded one, or there is none |
| Lifetime.WithoutDropsOne | core/EventNode.h:941-950 | Removing a Root from a list without repetition removes it and nothing else |
| Lifetime.ClaimKeepsSound | core/DynamicLoader.h:1800-1871 | Attaching keeps every clause of the invariant, and the module has an owner afterwards |
| Lifetime.AttachKeepsSound | core/DynamicLoader.h:1605-1942 | attachModule keeps the invariant whatever its outcome |
| Lifetime.LeaveKeepsSound | core/DynamicLoader.h:508-555 | A leaving token keeps one owner per module, the entity-owner rule and the no-leak clause |
| Lifetime.LeaveKeepsRules | core/DynamicLoader.h:508-555 | After a hand-off or a vacate a live attached entity still forces an entity owner, and a vacated module has a recheck |
| Lifetime.RootSearchIsGood | core/DynamicLoader.h:1978-1979 | The survivor that a leaving Root's search finds is attached to the same module, and is only needed when no entity is attached |
| Lifetime.RelinquishKeepsRoots | core/DynamicLoader.h:1980-1988 | The registered Roots are exactly the attached ones after a Root leaves |
| Lifetime.RelinquishKeepsSound | core/DynamicLoader.h:1964-1990 | The first half of changeModuleImpl keeps the invariant |
| LifetimeRuns.EntityDiesKeepsSound | core/DynamicLoader.h:508-555 | A dying root-level entity keeps the invariant, with any survivor its search may return |
| LifetimeRuns.RootDiesKeepsSound | core/DynamicLoader.h:1964-1990 | So does a Root that is destroyed |
| LifetimeRuns.ChangeModuleKeepsSound | core/DynamicLoader.h:1964-1998 | So does changeModuleImpl, for every target and load outcome |
| LifetimeRuns.NobodyIsAttached | core/DynamicLoader.h:2059-2075 | A module with no owner and no registered Root has no token attached at all |
| LifetimeRuns.RecheckSoundIff | core/DynamicLoader.h:2047-2102 | The delayed recheck keeps the invariant if and only if no younger instance is registered under its name |
| LifetimeRuns.StaleRecheckBreaks | core/DynamicLoader.h:2047-2102 | Otherwise it attaches a Root to an instance that is not mapped, or unregisters the young instance and leaves it mapped |
| LifetimeRuns.UnloadIsSafe | core/DynamicLoader.h:2076-2102 | A recheck that unmaps a module unmaps its own target only: no owner, no Root and no entity is attached to it |
| LifetimeRuns.DoKeepsSound | core/DynamicLoader.h:1605-2102 | Every handler keeps the invariant while every outstanding recheck is harmless |
| LifetimeRuns.DoKeepsPromptIff | core/DynamicLoader.h:1640-1797 | Rechecks stay harmless if and only if no name is bootstrapped while a recheck for it is outstanding |
| LifetimeRuns.RunsKeepSound | core/DynamicLoader.h:1605-2102 | Over every interleaving that obeys that discipline |
| LifetimeRuns.SoundServes | core/DynamicLoader.h:508-555 | An attached token's module is mapped, at most one token per module is flagged and it is the named one, entities are owned by entities, an unowned module has a recheck |
| LifetimeRuns.RunsAreSafe | core/DynamicLoader.h:1605-2102 | From the start, over every disciplined run: all of that, and a module is unmapped only by its own recheck with nothing attached |
| LifetimeRuns.OnlyRechecksUnmap | core/DynamicLoader.h:2047-2102 | No handler but the recheck unmaps anything |
| LifetimeRuns.RefusedStaysMapped | core/DynamicLoader.h:1680-1680 | An instance whose registration was refused stays mapped for good: nothing owns it and nothing rechecks it |
| LifetimeRuns.StaleRunAttachesToTheUnloaded | core/DynamicLoader.h:1410-1517 | A concrete run without the discipline: a Root ends up attached to, and owner of, the unmapped instance |
| LifetimeEffects.AttachSays | core/DynamicLoader.h:1605-1942 | True exactly if it was attached there already, or the module is registered or loads and has the tag; then the token is attached to the registered instance, as its owner if nobody or only a Root owned it, behind the other Roots if it is one, and nobody else is touched; what a failed load leaves in the catalog |
| LifetimeEffects.RelinquishSays | core/DynamicLoader.h:1964-1990 | A Root that leaves is detached and off its list, and its module keeps its owner, or goes to the eldest other Root, or to nobody with a recheck fired unless the join barrier is behind |
| LifetimeEffects.ChangeSays | core/DynamicLoader.h:1964-1998 | A Root arrives where it is sent exactly if the target is registered or loads, and has left where it was; what becomes of both modules, and nothing else changes |
| LifetimeEffects.DeathSays | core/DynamicLoader.h:508-555 | A dead entity is gone, and its module goes to the survivor of the search, or to nobody with a recheck |
| LifetimeEffects.RootDeathSays | core/DynamicLoader.h:1964-1990 | A destroyed Root has left as above, and is gone |
| LifetimeEffects.RecheckSays | core/DynamicLoader.h:2047-2102 | A recheck leaves an owned module alone, gives one with Roots to the eldest of them, and unmaps any other |
| LifetimeEffects.FirstIsEldest | core/EventNode.h:954-961 | The search finds the longest registered Root but the excluded one |
| Loaders.Loader.RegisterRoot | core/EventNode.h:937-940 | Appends the Root to its module's list |
| Loaders.Loader.UnregisterRoot | core/EventNode.h:941-950 | Removes its first occurrence |
| Loaders.Loader.FindRootCandidate | core/EventNode.h:954-961 | The longest registered Root other than the excluded one |
| Loaders.Loader.PromoteOrVacate | core/DynamicLoader.h:508-555 | In place, the effect of Lifetime.PromoteOrVacate, which LeaveKeepsSound shows to keep one owner per module |
| Loaders.Loader.ClaimModule | core/DynamicLoader.h:1800-1871 | The token is attached, as owner exactly if the module was vacant or a Root's and it is an entity; the module is owned afterwards |
| Loaders.Loader.Bootstrap | core/DynamicLoader.h:1640-1797 | A published instance is registered and mapped; an abandoned one is never registered, and stays mapped only if its registration was refused |
| Loaders.Loader.AttachModule | core/DynamicLoader.h:1605-1942 | Keeps the invariant for every load outcome; when exactly it answers true, and what it leaves behind (AttachSays); true means attached to a mapped module of that name |
| Loaders.Loader.RelinquishModule | core/DynamicLoader.h:1964-1990 | Keeps the invariant, hands the ownership to the eldest other Root if it had it, and leaves the Root detached |
| Loaders.Loader.ChangeRootModule | core/DynamicLoader.h:1964-1998 | Keeps the invariant; the Root arrives at every target that is registered or loads, and else is left with nothing; a Root already there is left alone (ChangeSays) |
| Loaders.Loader.EntityUnload | core/DynamicLoader.h:2027-2035 | Keeps the invariant with any survivor the search may return; the entity is gone and its module handed on (DeathSays) |
| Loaders.Loader.DestroyRoot | core/DynamicLoader.h:1964-1990 | Keeps the invariant, and the Root has left its module and is gone |
| Loaders.Loader.RequestUnload | core/DynamicLoader.h:2047-2102 | Keeps the invariant exactly if the recheck is harmless; unmaps only what nothing is attached to; what it leaves behind in each case (RecheckSays) |
| Loaders.Loader.Recheck | core/DynamicLoader.h:2047-2102 | In place, the effect of Lifetime.RequestUnload on any state, sound or not |
| Preflight.LeftShrinks | core/CommandExecutor.h:843-868 | The measure of the recursion: a script not yet on the stack leaves fewer files |
| Preflight.CycleReportedIff | core/CommandExecutor.h:850-868 | From any stack, a cycle is reported if and only if some chain of launches comes back to the stack or to itself |
| Preflight.CycleByLine | core/CommandExecutor.h:1031-1063 | The same, line by line |
| Preflight.TreeCycleIff | core/CommandExecutor.h:1074-1105 | A cycle is reported for the tree if and only if some chain of launches from the root meets a script twice |
| Preflight.LineAppends | core/CommandExecutor.h:948-1066 | A line by itself only ever adds to the report, and never a cycle |
| PreflightReport.TreeReportsIff | core/CommandExecutor.h:843-1105 | A problem is in the report, with its path, line and name, if and only if it is one of a place that some trail of launches from the root leads to; and a note likewise |
| PreflightReport.RequireSays | core/CommandExecutor.h:935-946 | When exactly a `requires` line is reported, as what, and what its name means afterwards |
| PreflightReport.AcquireSays | core/CommandExecutor.h:964-997 | When exactly an acquisition is reported or noted, and what its name means afterwards |
| PreflightReport.ChildAcquireSays | core/CommandExecutor.h:998-1016 | The same for a child's |
| PreflightReport.LineSays | core/CommandExecutor.h:948-1066 | The same for every line of pass 2 |
| PreflightReport.HandedMeans | core/CommandExecutor.h:1042-1055 | A launched script is handed a name exactly if some binding hands it over, with the meaning of the last that does |
| PreflightReport.GlobalsMean | core/CommandExecutor.h:1080-1102 | The globals are the names the root is launched with, requires or acquires, with the type of the last acquisition, or as launched, or untyped |
| PreflightReport.ParseErrorsIff | core/CommandExecutor.h:949-954 | A parse error is reported at a path and line exactly if a walked script has a malformed line there |
| PreflightReport.NoRootReported | core/CommandExecutor.h:1081-1088 | Of a root that cannot be opened nothing else is said |
| PreflightWalk.ScriptCheck.Lookup | core/CommandExecutor.h:888-895 | Locals shadow globals; there is nothing in between |
| PreflightWalk.ScriptCheck.IntroduceName | core/CommandExecutor.h:902-930 | In place, the effect of Preflight.Introduce: a second introduction and a foreign type are reported, a same-type shadow is noted (IntroduceClean says what silence means) |
| PreflightWalk.ScriptCheck.RequireName | core/CommandExecutor.h:935-946 | In place, the effect of Preflight.Require: a name nothing provides is reported |
| PreflightWalk.ScriptCheck.AcquireName | core/CommandExecutor.h:964-997 | In place, the effect of Preflight.CheckAcquire; AcquireClean says what silence means for each verb |
| PreflightWalk.ScriptCheck.AcquireChild | core/CommandExecutor.h:998-1016 | In place, the effect of Preflight.CheckChildAcquire (ChildAcquireClean) |
| PreflightWalk.ScriptCheck.HandOver | core/CommandExecutor.h:1042-1055 | Every binding checked, and what the launched script is handed |
| PreflightWalk.ScriptCheck.WalkLine | core/CommandExecutor.h:949-1065 | One line of pass 2: the effect of Preflight.CheckLine, of which LineSays says exactly what it adds |
| PreflightWalk.PreflightOne | core/CommandExecutor.h:843-1069 | The two passes and the recursion end, and compute Preflight.One, of which CycleReportedIff, TreeReportsIff, PreflightIsSound and WorkedIsAccepted are proved |
| PreflightWalk.PreflightScriptTree | core/CommandExecutor.h:1074-1105 | The whole report: its problems and notes are exactly those of the places that launches lead to, and there is a cycle in it if and only if the launch graph under the root has one |
| ScriptSafety.LineClean | core/CommandExecutor.h:948-1066 | A line that adds nothing to an empty report has parsed, sees every name it refers to, and introduces a new name if it acquires |
| ScriptSafety.IntroducedOnce | core/CommandExecutor.h:902-911 | No two lines of a clean script introduce the same name |
| ScriptSafety.RootAcquires | core/CommandExecutor.h:1091-1101 | Every name the clean root acquires has exactly that type among the globals |
| ScriptSafety.RootRequires | core/CommandExecutor.h:1099-1101 | Every name the clean root requires it was launched with, with that type |
| ScriptSafety.RequireKeepsOk | core/CommandExecutor.h:1375-1434 | A satisfied `requires` keeps run-time names and preflight names in step |
| ScriptSafety.BindKeepsOk | core/CommandExecutor.h:1464-1605 | So does a successful acquisition; and what it publishes is a name of the root, as the root's type |
| ScriptSafety.ChildStartsOk | core/CommandExecutor.h:1770-1990 | A launched script starts with exactly the names and types its preflight assumed |
| ScriptSafety.ExecuteKeepsOk | core/CommandExecutor.h:1440-1605 | So does every executed line |
| ScriptSafety.NextKeepsOk | core/CommandExecutor.h:2190-2420 | Every step, of an activation or of others, keeps all activations in step with the preflight, and the types of the table too if what others publish agrees with the root |
| ScriptSafety.PreflightIsSound | core/CommandExecutor.h:767-1105 | If the report is empty, then in every run, from any table of globals and whatever others write to it, every executed line parsed and every receiver and binding source on it is the script's own name or one the root introduces or was launched with |
| ScriptSafety.TypesAreSound | core/CommandExecutor.h:1499-1518 | Moreover an executed attach or ensure whose type the preflight knew meets another type if and only if others have put a live entity of another type under the name and the script has no such name itself |
| ScriptSafety.NamesHaveTheirTypes | core/CommandExecutor.h:964-997 | If what others have in the table agrees with the root, every name on an executed line whose type the preflight knew stands for a binding of that type, and no acquisition meets another |
| ScriptSafety.NextPutsOk | core/Command.h:225-233 | Whatever a script's step puts into the table is a name of the root, as the root's type |
| ScriptSafety.ChildMeetsItsType | core/CommandExecutor.h:1566-1583 | A child's attach or ensure, which the preflight does not type-check, gets the child it finds if it states the tag the preflight knew, and is refused if it states another |
| ScriptSafety.LaunchesAreShallow | core/CommandExecutor.h:850-868 | No run, from any table, nests launches deeper than there are files |
| ScriptSafety.NothingRunsAfterExit | core/CommandExecutor.h:1450-1451 | In every run no line after an `exit` is executed |
| ScriptSafety.OwnStep | core/CommandExecutor.h:948-1066 | Line by line, a script of which nothing is reported is one of whose every line nothing is reported |
| ScriptEffects.AcquireBindsIff | core/CommandExecutor.h:1464-1532 | When exactly a top-level acquisition binds its name, to which entity, and why not otherwise |
| ScriptEffects.ChildBindsIff | core/CommandExecutor.h:1538-1605 | When exactly a child's does: only under a live parent, to that parent's own child of the tag, or to a new one |
| ScriptEffects.CallsGoIff | core/CommandExecutor.h:426-471 | A call goes ahead exactly if its receiver, and the consumer of a stream, stand for live entities |
| ScriptEffects.BindingsHandOver | core/CommandExecutor.h:1314-1353 | The bindings resolve exactly if all of them stand and none rebinds the anchor; each key gets the entity of its last binding, with its type filled in |
| ScriptEffects.LaunchStartsIff | core/CommandExecutor.h:1770-1990 | When exactly a launch starts its script, and with what names |
| ScriptEffects.BindPublishesIff | core/Command.h:225-233 | Only the root publishes, and only a real name with a real RID |
| ScriptEffects.RequireMeans | core/CommandExecutor.h:1375-1434 | When a requirement is met, and what it binds |
| ScriptEffects.CourseOfAScript | core/CommandExecutor.h:2190-2280 | Parse, then the `requires` lines, then line by line to the end or an exit; a line that binds nothing changes no name |
| ScriptNames.LocalKeys | core/CommandExecutor.h:870-930 | What the preflight takes for a script's names is what it was handed and what it has introduced |
| ScriptNames.NextKeepsKnown | core/CommandExecutor.h:1464-1605 | Every step of every activation: a script has no name but those it was handed, those it introduced, and its anchor |
| ScriptNames.SpawnsFindTheirNameFree | core/CommandExecutor.h:1474-1497 | In every run of a clean tree an executed spawn finds under its name exactly what others have put there, before or meanwhile; it is refused for the name if and only if that is a live entity |
| ScriptNames.OldNameRefusesSpawns | core/CommandExecutor.h:2617-2628 | Where nobody else touches the name meanwhile: never refused if the table did not hold it before the run, always refused, while its entity lives, if it did |
| ScriptNames.ForeignWasPut | core/Command.h:110-115 | What others have under a name was in the table before the run or published while it went on |
| ScriptNames.RefusedIffHanded | core/CommandExecutor.h:1467-1469 | In every run of a clean tree, from any table, an attach or ensure is refused as already introduced if and only if the name was handed to the script |
| ScriptNames.PassesAHandedAttach | core/CommandExecutor.h:972-997 | Such a line does pass the preflight |
| ScriptWorks.ExecutedIsClean | core/CommandExecutor.h:948-1066 | A line that is executed and does not stop its script adds nothing to an empty report, given what Regular says of its name |
| ScriptWorks.MetIsClean | core/CommandExecutor.h:935-946 | Nor does a `requires` that is met |
| ScriptWorks.ExecuteKeepsFine | core/CommandExecutor.h:1440-1605 | Along a run, the preflight has nothing to report of any script that is on its way to its end |
| ScriptWorks.NextKeepsFamily | core/CommandExecutor.h:1770-1990 | Everybody but the root was launched by somebody before, and every launch behind a script has its activation |
| ScriptWorks.NeverThroughItself | core/CommandExecutor.h:850-868 | In a run that has worked, no script was launched through itself |
| ScriptWorks.WorkedIsAccepted | core/CommandExecutor.h:774-777 | Under Regular, a condition on the files alone, and OthersFit, one on the names that others have in the table, one run in which every script comes to its end is proof that the report is empty: the preflight rejects nothing that would have worked |
| WorksRefused.ExitHidesALine | core/CommandExecutor.h:774-777 | Without ExitLast: a refused tree and a run of it that works |
| WorksRefused.DeadLineNeverRuns | core/CommandExecutor.h:774-777 | No run of that tree executes the line it is refused for |
| WorksRefused.RequiredTwice | core/CommandExecutor.h:1375-1434 | Without OnceOnly: a second `requires` |
| WorksRefused.RequiredAndAcquired | core/CommandExecutor.h:1395-1397 | Without OnceOnly: a `requires` whose entity is gone between the two lookups, and an ensure of the name |
| WorksRefused.RespawnedChild | core/CommandExecutor.h:1543-1554 | Without OnceOnly: a child spawned again under a name whose entity has died |
| WorksRefused.SpawnsARootName | core/CommandExecutor.h:964-973 | Without RootNames: a launched script spawns a name before the root does |
| WorksRefused.EnsuresARootNameAsAnother | core/CommandExecutor.h:983-990 | Without RootNames: a launched script ensures a name as another type before the root spawns it |
| WorksRefused.SpawnsOverAHandedName | core/CommandExecutor.h:1001-1008 | Without KeepsHanded: a child spawned under a handed name whose entity has died |
| WorksRefused.HandedUnderAnotherType | core/CommandExecutor.h:916-928 | Without Handing: a script requires what it is handed under a root's name of another type |
| WorksRefused.MeetsAnOldRequirement | core/CommandExecutor.h:935-946 | Without OthersFit: a root requires a name that only an older global provides |
| CleanStops.WorksOnce | core/CommandExecutor.h:2617-2628 | A clean script that runs to its end, and from the table it leaves behind is refused at its spawn |
| CleanStops.MeetsAnOldType | core/CommandExecutor.h:1506-1515 | For any older entity of another type: a clean tree, and a run in which a launched script's attach meets it |
| CleanStops.ClashingChildPasses | core/CommandExecutor.h:998-1016 | A clean tree with a run to a child attach that states another type than the root's child has, and is refused |
| CommandText.CloseInFinds | core/Command.h:526-541 | The closing bracket is the first unquoted, unescaped one at which the depth is back to 0 |
| CommandText.ClosesIffBalanced | core/Command.h:526-541 | A bracketed payload closes at its last character if and only if it is balanced outside quotes with every quote closed |
| CommandText.NoArrowInCall | core/Command.h:545-561 | No arrow is seen inside a printed call with a balanced payload |
| CommandText.DottedRoundTrip | core/Command.h:571-624 | parse_dotted gives a printed call back if and only if its payload is balanced and has no outer blanks |
| CommandText.ParsedIsPrintable | core/Command.h:571-624 | Whatever parse_dotted accepts has valid names and a balanced, trimmed payload, and parses again to itself when printed |
| CommandText.ActionRoundTrip | core/Command.h:713-838 | Printing and parsing r.A(p) gives exactly that action back if and only if p is balanced and has no outer blanks |
| CommandText.StreamRoundTrip | core/Command.h:713-757 | The same for r.A(p) -> c.B(q): neither payload is ever split |
| CommandText.StreamsAreParsed | core/Command.h:723-757 | Every stream line that parses has balanced, trimmed payloads at both ends |
| CommandText.DecimalMeans | core/CommandExecutor.h:600-601 | The digits written for a number are digits, without a leading zero, and mean that number |
| Operations.OperationLine | core/Command.h:778-831 | A line with a lower-case member is read as that operation on its trimmed payload if the payload closes, and as no operation if it does not |
| Operations.KillRoundTrip | core/Command.h:795-820 | n.kill(l) is that label, with no index, if and only if l is one word and closes |
| Operations.KillAtRoundTrip | core/Command.h:795-820 | n.kill(l k) is that label and index if and only if moreover k fits into 64 bits |
| Operations.NegativeIndex | core/Command.h:808-811 | A minus sign is let through, and wraps around |
| Operations.UnflagRoundTrip | core/Command.h:821-826 | n.unflag(f) is that flag if and only if f is not empty, closes and has no outer blanks |
| Operations.AcquireRoundTrip | core/Command.h:780-794 | Verb, parent, type and name of a child acquisition come back in their places if and only if both words of the type are TitleCase and the name is valid |
| Operations.AcquiresAreParsed | core/Command.h:465-489 | Whatever parses as a child acquisition has one of the three verbs, a TitleCase type and valid names |
| Operations.DeclaredParses | core/Command.h:625-652 | What a typed declaration gives, and which refusal otherwise |
| Operations.NotAnOperationIff | core/Command.h:827-830 | Any other lower-case member is refused as no operation |
| Operations.NoCallIff | core/Command.h:571-588 | When exactly parse_dotted misses the bracket, or the receiver |
| Operations.DottedMeans | core/Command.h:590-624 | What else it refuses, in which order, and what it gives |
| Operations.RootIsReserved | core/Command.h:475-489 | The anchor is nobody's name |
| Operations.NamesAreWords | core/Command.h:475-489 | Letters, digits and underscores make a name, and nothing else |
| Operations.AfterTheCall | core/Command.h:616-621 | White space may follow a call, and nothing else |
| Operations.EmptyLineIff | core/Command.h:713-716 | Exactly the blank lines are refused as empty |
| Operations.ReservedStreams | core/Command.h:738-745 | A stream is refused exactly if one of its ends is an operation |
| Operations.HalfStreams | core/Command.h:727-730 | Half a stream is refused |
| Operations.BareVerb | core/Command.h:764-768 | A line with a verb before its first blank and no arrow is not read as a call |
| CommandScan.FindClosingBracket | core/Command.h:526-541 | The loop finds the specified bracket |
| CommandScan.FindStreamArrow | core/Command.h:545-561 | The loop finds the specified arrow |
| CommandScan.ParseDottedCall | core/Command.h:571-624 | The call, or the first refusal that applies, in the order of the source |
| Substitution.NextPiece | core/CommandExecutor.h:532-603 | One turn of the substitution loop: what is appended and where it goes on, for each kind of piece |
| Substitution.NameIsReplaced | core/CommandExecutor.h:586-602 | Outside quotes a sigil and the word after it, as long as it is, give way to the RID in decimal if the name has one |
| Substitution.TokenIsReplaced | core/CommandExecutor.h:569-580 | The word and its slash at the start of an argument give way to the root directory, the rest of the argument following |
| Substitution.WordIsReplaced | core/CommandExecutor.h:569-580 | So does the bare word at the end of the payload |
| Substitution.ProseIsCopied | core/CommandExecutor.h:571-575 | Anywhere else the word is copied |
| Substitution.OtherIsCopied | core/CommandExecutor.h:586-586 | So is every other character |
| Substitution.QuotedIsCopied | core/CommandExecutor.h:533-545 | So is everything in a quote, up to the next mark of its kind without a backslash |
| Substitution.QuoteHides | core/Command.h:526-541 | The scan passes over brackets and the other mark in a quote, and over an escaped mark |
| Substitution.SubstituteNameTokens | core/CommandExecutor.h:524-605 | The loop computes Substituted, of which BoundariesKeptIff and AlwaysKeptIff are proved |
| Substitution.PieceParts | core/CommandExecutor.h:693-712 | What can be changed: the word of a token, for the root directory, the token's own tail following; and a name with its sigil, for its RID |
| Substitution.SubstitutionIsUnseen | core/CommandExecutor.h:524-605 | From any point and in any state, if nothing that the scan has inside a quote is changed from there on, the quote and bracket scan cannot tell the payload from what substitution makes of it |
| Substitution.SubstitutionKeepsBoundaries | core/CommandExecutor.h:524-605 | Then quoted spans are copied byte for byte, the scan ends in the same state, and the payload closes at its last character afterwards exactly if it did before |
| Substitution.BoundariesKeptIff | core/CommandExecutor.h:524-605 | Exactly, in every single environment (a root directory free of quotes, brackets and sigils): that holds if and only if nothing is changed where the scan is inside a quote |
| Substitution.AlwaysKeptIff | core/CommandExecutor.h:524-605 | Exactly, on the payload alone: that holds whatever names resolve to and wherever the tree is, if and only if no name and no token is come to where the scan is inside a quote |
| Substitution.ClosedTokensSuffice | core/CommandExecutor.h:569-580 | It does hold if every ACE_ROOT token that is reached closes the quotes that it opens, whatever brackets it has |
| Substitution.ParsedPayloadsStillCloseIff | core/CommandExecutor.h:524-605 | For a payload that closes, as every parsed one does, the same two conditions are exact for its quoted spans and its closing |
| Substitution.QuotedPieceIsSeen | core/CommandExecutor.h:569-603 | For every payload in which a name or a token is come to inside a quote, an environment in which the boundaries are not kept |
| Substitution.UnresolvedIsVerbatim | core/CommandExecutor.h:591-603 | Where nothing resolves, nothing changes |
| Substitution.QuoteInRootToken | core/CommandExecutor.h:569-580 | A quote inside an ACE_ROOT token goes unnoticed, and a name inside that quote is substituted |
| TokenBuffer.UnquoteEscape | core/Buffer.h:378-404 | Escaping is undone by the extractor, for arbitrary bytes |
| TokenBuffer.DecimalDigits | core/Buffer.h:443-460 | The digits of a number are digits and mean that number |
| TokenBuffer.FromCharsNumber | core/Buffer.h:320-341 | The number at the front is found whole, whatever follows it but a digit |
| TokenBuffer.FittingPut | core/Buffer.h:443-492 | An item that fits is appended whole, with its delimiter unless the buffer is then full |
| TokenBuffer.GetToken | core/Buffer.h:320-421 | Extracting an item's own type gives it back and primes the next extraction |
| TokenBuffer.CodecRoundTrip | core/Buffer.h:320-492 | Any list of strings and integers that fits is read back equal, in order, and used up |
| TokenBuffer.StringStaysInsideIff | core/Buffer.h:462-492 | `<<` of a string stays inside the bytes if and only if there are four or more, or three and nothing is written |
| TokenReading.BareToken | core/Buffer.h:405-416 | An unquoted token is read as it is, up to the next delimiter, and used up with the delimiters after it |
| TokenReading.QuotedToken | core/Buffer.h:378-404 | A token in either quote is read back whole, for any bytes, escaped for that quote |
| TokenReading.OpenToken | core/Buffer.h:384-403 | A quote that is not closed takes everything |
| TokenReading.SkippedMeans | core/Buffer.h:418-420 | All the delimiters at the front, and nothing else |
| TokenReading.FromCharsIff | core/Buffer.h:320-332 | A number is found exactly if there is a digit and the type holds the value |
| TokenReading.NoNumber | core/Buffer.h:333-339 | Where there is none the variable is left alone and the token skipped |
| TokenReading.TakenIsMost | core/Buffer.h:470-479 | The writer takes characters as long as there is room for one more pair, and no longer |
| TokenReading.CutStringReadsBack | core/Buffer.h:462-492 | A string that does not fit is cut; what is read back is what was taken |
| TokenReading.NumberFitsOrNot | core/Buffer.h:443-460 | An integer is written exactly if all of its digits fit |
| TokenReading.BytesWritten | core/Buffer.h:443-492 | The bytes themselves: digits, sign, quotes, escapes and the delimiter |
| TokenBufferOps.TBuffer.Close | core/Buffer.h:480-489 | The delimiter if there is room, and the terminator |
| TokenBufferOps.TBuffer.PutText | core/Buffer.h:462-492 | What is written is PutString, for every string, fitting or not, in every buffer in which no store can leave the bytes (StringStaysInsideIff) |
| TokenBufferOps.TBuffer.PutEscaped | core/Buffer.h:470-479 | Exactly the characters there is room for |
| TokenBufferOps.TBuffer.PutWhole | core/Buffer.h:443-460 | All digits and a delimiter, or nothing at all if they do not fit; no index leaves the bytes in a buffer of any size |
| TokenBufferOps.TBuffer.SkipDelimiters | core/Buffer.h:337-338 | All trailing delimiters and nothing else |
| TokenBufferOps.TBuffer.GetText | core/Buffer.h:365-421 | The value and the extent of GetString, of which GetToken, BareToken, QuotedToken and OpenToken are proved, for arbitrary contents and any buffer |
| TokenBufferOps.TBuffer.ScanQuoted | core/Buffer.h:378-404 | The inside of the quoted token and where it ends |
| TokenBufferOps.TBuffer.ScanBare | core/Buffer.h:405-416 | The end of an unquoted token |
| TokenBufferOps.TBuffer.GetWhole | core/Buffer.h:320-341 | The number at the front and its extent (FromCharsIff); where there is none the variable is left alone and the token skipped (NoNumber) |
| RidIndex.BeforeIsStrictWeak | core/RIDList.h:252-257 | Null entries first, the comparison is still a strict weak order |
| RidIndex.SortSorts | core/RIDList.h:245-262 | The rebuilt view is a sorted permutation |
| RidIndex.SortIsStable | core/RIDList.h:236-238 | Entries of equal standing keep the order of the enumeration that was sorted |
| RidIndex.RebuildKeepsOrderIff | core/RIDList.h:236-238 | Between two rebuilds they keep their order if and only if the map enumerated them in the same order both times, which nothing promises |
| RidIndex.EqualsFollowTheMap | core/RIDList.h:236-238 | Any two entries of equal standing change places with their enumeration |
| RidIndex.SortOrders | core/RIDList.h:245-262 | Sorting any enumeration of the entries gives the ordered view |
| RidIndex.EqualRange | core/RIDList.h:288-306 | What lies between the two bounds is exactly the entries equivalent to the key, all of them, in order |
| RidIndex.NullsFirst | core/RIDList.h:240-257 | Null entries come first |
| RidIndex.RIDList.Insert | core/RIDList.h:218-221 | Marks the view stale |
| RidIndex.RIDList.Remove | core/RIDList.h:222-225 | Marks the view stale |
| RidIndex.RIDList.Reorder | core/RIDList.h:227-229 | Whatever has moved, the list is sound again |
| RidIndex.RIDList.Reposition | core/RIDList.h:227-229 | A key change that is reported leaves the list sound, whatever the new key |
| RidIndex.RIDList.CollectOrdered | core/RIDList.h:245-262 | Appends every entry once, null ones first and no key below an earlier one, rebuilding only a stale view |
| RidIndex.RIDList.LowerBound | core/RIDList.h:292-296 | The first entry not below the key |
| RidIndex.RIDList.UpperBound | core/RIDList.h:297-301 | The first entry above it |
| RidIndex.RIDList.SearchOrdered | core/RIDList.h:288-306 | Appends exactly the entries whose key is neither below nor above the one asked for, in the order of the list |
| RidIndex.RIDList.SearchOrderedBy | core/RIDList.h:327-335 | The same for an exemplar, which is in its own result |
| ScopeRegistry.AddressIsUnique | core/Bundles.h:435-448 | A label and an index name at most one entry of the listing |
| ScopeRegistry.AddressExistsIff | core/Bundles.h:435-448 | The indices of a label are exactly those below the number of entries that carry it |
| ScopeRegistry.IndicesAreAges | core/Bundles.h:458-472 | The index of a listed call is the number of older live calls of its label |
| ScopeRegistry.RunsAreConsistent | core/Bundles.h:381-472 | After any sequence of operations, with the flag events done at any time: ids increase along the list and are never reused; a flag that is down over a live call is awaited by one, and a flag that is up over none is about to come down |
| ScopeRegistry.SettledFlags | core/Entity.h:2731-2746 | Once no flag event is outstanding, a label's flag is up if and only if a live call carries it |
| ScopeRegistry.LoweringInterruptsIff | core/Entity.h:2457-2465 | The event that lowers a flag asks to stop exactly the calls that have registered under the label since the last one left, and takes the flag down if and only if there are none |
| ScopeRegistry.UndisputedIff | core/Entity.h:3000-3009 | Exactly: no such event interrupts anybody until a call registers under a label whose flag is still to come down |
| ScopeRegistry.SuccessorIsInterrupted | core/Entity.h:2457-2465 | Five operations after which a call is marked that nobody asked to stop |
| ScopeRegistry.Scope.RegisterContext | core/Bundles.h:381-398 | A new id, never given out before, at the end of the list; first if and only if no live entry carries the label |
| ScopeRegistry.Scope.UnregisterContext | core/Bundles.h:402-419 | Exactly the entry with the id goes, the others keep their order; last if and only if no live entry carries the label any more |
| ScopeRegistry.Scope.AddTag | core/Entity.h:2427-2431 | The flag that a call waits for goes up |
| ScopeRegistry.Scope.RemoveTag | core/Entity.h:2433-2465 | Whoever takes the flag down: with a live call of the label, all of them are asked to stop and it stays; else it falls |
| ScopeRegistry.Scope.InterruptLabel | core/Bundles.h:424-430 | Marks every entry of the label and no other, and says how many |
| ScopeRegistry.Scope.InterruptAt | core/Bundles.h:435-447 | Interrupts exactly the entry the listing shows as (label, index), if it shows one |
| ScopeRegistry.Scope.InterruptAll | core/Bundles.h:450-454 | Every entry is marked, and nothing else changes |
| ScopeRegistry.Scope.Collect | core/Bundles.h:466-472 | Every live entry in its order, with its label, its mark, and as its index the number of older ones of the label |

## Left out

- FifoExactlyOnce: for runs in which no look straddles a lap; ProducerKeepsInvIff and StraddleGoesWrong say that this is exact, and StraddleDeliversTheWrongPayload shows the failure.
- NoLostPublication: for the same runs, and so RefusalIsFullOrStale and CalmRunsKeepInv.
- RunsAreSafe: for runs in which no name is bootstrapped while a recheck of it is outstanding; DoKeepsPromptIff and RecheckSoundIff say that this is exactly when rechecks are harmless.
- EntityDiesKeepsSound: the arena's sibling search is not part of this model; what its callers rely on is assumed.
- TypesAreSound: for lines as the parser delivers them (a type has both parts, nobody names "root"). Child acquisitions are ChildMeetsItsType, which takes an entity to have the tag it was bound with.
- WorkedIsAccepted: one half of an equivalence. That an empty report promises a run that works is not so (RefusedIffHanded, PassesAHandedAttach, ClashingChildPasses).
- SubstitutionKeepsBoundaries: for a root directory without quotes or brackets, and so AlwaysKeptIff; the converse in a single environment (BoundariesKeptIff) also asks for one without an `@`. Root directories that hold these characters are left open.
- PutText: asks for a buffer in which no string is written past the end; StringStaysInsideIff says that this is exact.
- Run: enqueues and completions arrive between turns of the loop. One that arrives while a turn drains is the same run as one that came just before it, because a worker's steps are allowed until its completion is drained.
- Weak memory orderings, spin and yield back-off, sleeping, and stall reports.
- Typed children in the lifetime model: who owns them is decided in arena code that is not part of this model.
- dlopen, symbol lookup, manifest checks and the abort on a manifest mismatch: loading is one opaque step.
- The first, non-blocking unload event: a vacate and its spawned recheck are one step.
- Bare-verb lines (requires, spawn, attach, ensure, detach, run, exit) are kept as text by the line parser.
- AcquireRoundTrip: for types made of words; the parser lets other characters into a type (DeclarationSays says what it checks).
- `requires` tag lists, payload contents, signals and the winding-up of a closure: any step of a script may simply stop it.
- Script execution is a relation on activations, not a class: many of them run at once, and only the names matter here.
- The text of problems and notes: a problem is its kind, its place and its name.
- Bool, raw, whole-string and buffer-to-buffer operators of the token buffer.
- The signal contexts inside a scope entry, and flags of a label that somebody else adds.
- The type-erased handle of the entity list, and lists whose pointee declares no order.
- The browser path, deferred registrars, sockets, the navigator, logging and colour.
