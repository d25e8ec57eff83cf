# Verification of the reactor-c runtime with a master scheduler

A Dafny model of the parts of this Lingua Franca runtime whose guarantees span a whole run, and
proofs of those guarantees. `dafny verify dfyconfig.toml` checks everything.

| files | what they model |
|---|---|
| `Wrappers` | optional values and laws of concatenation used in several files |
| `Tags` | superdense tags and their arithmetic |
| `NpModel`, `NpInvariant`, `NpPreservation`, `NpSteps`, `NpTheorems`, `NpPicks`, `NpScheduler` | the non-preemptive (NP) scheduler as a protocol of any number of workers over per-level vectors, an idle counter, a semaphore and one advancer; every pick of the master scheduler is arbitrary |
| `Gedf`, `GedfExact` | the earliest-deadline-first scheduler, where deadlines lead and the level cycles |
| `MsTypes`, `MsDecisions`, `MsExact`, `MsLive` | the master scheduler's decisions: budgets per logical time, sequenced commands, guard hysteresis, the record |
| `MsText`, `MsRecord`, `MsRecordTheorem` | the record as text, character by character, and its loader |
| `MsReplay`, `MsReplayTheorem`, `MsTheorem` | replay of a recorded run, its summary, and the way from a live run through the file to a replay |
| `MsKeys` | the open-addressing table that keeps reaction keys unique |
| `Modes`, `ModesTheorems`, `ModesStartup`, `ModesRuntime` | modal reactors: activity cache, hierarchical reset, startup once, suspension |
| `Heap`, `PriorityQueue` | the binary heap with stored positions |
| `Scheduling`, `SchedulingTheorems`, `SchedulingExact`, `SchedulingRuntime` | `lf_schedule_trigger` with its conflict loop and spacing policies |
| `EventLoop`, `EventLoopRuntime` | the single-threaded event loop up to the stop tag |
| `LoopOfCalls` | the event loop and `lf_schedule_trigger` on one queue, over whole runs |
| `LevelGate` | the federate's maximum level allowed to advance, centralized coordination |
| `TagBarrier` | the barrier on tag advancement |
| `MixedRadix` | permuted mixed-radix counting |

How to read it: concurrent code is a state machine whose steps are the critical sections, atomic
additions and semaphore operations of the source, and theorems quantify over all runs. Code that
updates fields or arrays step by step is also written as classes and loops (`NpScheduler`,
`MsLive`, `ModesRuntime`, `PriorityQueue`, ...), each method proved equal to the specification the
theorems are about. Safety alone would let a body that does too little pass, so for each operation
there are also theorems that fix what it does from its raw inputs (`MsExact`, `SchedulingExact`,
`NpPicks`, `GedfExact`, `ModesStartup`, ...). The heap is verified by itself; elsewhere a queue is the collection of its
elements, whose peek and pop give a least one, which is what `PriorityQueue` proves.

What is taken as given:

- One environment, not federated, except for the level gate and the tag barrier.
- NP: a reaction triggers only reactions of higher levels; each level's vector has room for all its
  reactions; `last_enabling_reaction` is NULL, so no reaction is executed directly. Any thread may
  lower the stop tag at any moment.
- GEDF: index and level strictly increase along every dependency.
- Clocks, physical times, picks, commands and lag samples are inputs, free to take any value.
- Integers are unbounded; microsteps and delays do not wrap. Machine widths appear where they matter
  (lengths of record lines, unsigned fields of the loader, the 64-bit keys and their hash).
- Replay: a program is a function from the outcomes so far to the next batch of dispatches, the
  reactions of one level at one tag, and dispatches no key twice.
- Scheduling: logical triggers, or physical readings later than the current logical time; the checks
  that only a debug build makes are left out.

What turned out not to hold, each with an example and an exact condition:

- Picks under GEDF can start a reaction while one upstream of it is queued (`Gedf.PickCanBreakPrecedence`,
  `Gedf.PrecedenceIff`). The repository's README.md (lines 15-16) says that the master scheduler never
  alters the order of reactions at a tag: under NP the order of levels is indeed kept by every pick
  (`NpTheorems.LevelsAreRespected`), under GEDF a run keeps
  precedence exactly when each of its picks was clear, that is, taken with no queued reaction of a lower
  level upstream of it.
- With a minimum spacing of zero an event can be queued before the current tag
  (`SchedulingTheorems.ZeroSpacingGoesBack`, `AddedIsInTheFuture`).
- Under the `update` policy two events of one action can share a tag (`SchedulingTheorems.UpdateCanTwin`,
  `TwinsIff`): the early call withdraws the last event and lands on an older one.
- An event queued for a tag before the stop tag need not be handled: the `update` policy and the retraction
  of events of inactive modes withdraw events. `EventLoop.EndsAtTheStopTag` counts them.
- The tag barrier does not hold FOREVER proposals back (`TagBarrier.ForeverBreaks`, `BreaksIff`).
- When an enclosing mode is re-entered by history, events of an inner mode that becomes active again
  stay suspended (`ModesTheorems.SuspendedYetActiveExample`, `SuspendedYetActiveIff`).
- When an enclosing mode is entered by history for the first time, the initial mode inside becomes active
  and never gets its startup (`ModesStartup.NeverStarted`, `StartupExactly`), although the comment at
  core/modal_models/modes.c:176 promises a startup upon first entry; `StartedExactlyOnce` gives the programs
  that are safe.
- A TAG older than the current tag, reported as ignored, can lower the level limit below what the latest
  grant allows, until the next recomputation (`LevelGate.OutdatedTagBlocks`, `ExactIff`, `SetRight`).
- A record whose E line lost characters after the first digit of its last field is still accepted,
  with the right sets (`MsRecordTheorem.CutExactly`).

Where code and comments differ the code is followed: the comment above `_ms_tag_begin_locked` says
command first, then guard, and the code does the guard first; the shedding comment speaks of a budget
per tag, and the code counts per logical time, so microsteps share it.

## Model

| member | source | states |
|---|---|---|
| `Tags.CompareIsTotalOrder` | core/tag.c:103-115 | three-way comparison of tags is a total order: antisymmetric, zero only on equal tags, transitive also through strict steps |
| `Tags.DelayTag` | core/tag.c:133-150 | a tag delayed by zero or more is strictly later, unless it is NEVER or already FOREVER; a positive delay adds to the time and resets the microstep |
| `NpSteps.StepKeeps` | core/threaded/scheduler_NP.c:80-246 | every step of every worker, whatever is picked, takes a state with the protocol's invariant (slots, custody of each reaction, level discipline, idle accounting, order of the log) to one with it |
| `NpTheorems.LevelsAreRespected` | core/threaded/scheduler_NP.c:80-150 | in every interleaving of any number of workers, whatever is picked: no index leaves its level's vector, no reaction starts before all lower-level reactions of that tag are done, no event repeats, nothing starts before its trigger or ends before its start |
| `NpTheorems.EveryTriggerIsServed` | core/threaded/scheduler_NP.c:346-390 | a reaction triggered at a tag that is over was started and finished there exactly once, and none was started untriggered |
| `NpTheorems.OncePerTag` | core/threaded/scheduler_sync_tag_advance.c:41-65 | tags never go back, and of two rounds at one tag the later one is empty |
| `NpTheorems.IdleCounterIsExact` | core/threaded/scheduler_NP.c:157-246 | in every reachable state the idle counter lies between 0 and the number of workers; until the stop signal it is waiting workers plus the advancer minus semaphore credits, released or still owed by a worker that has counted back; after it the credits released or owed are exactly the waiting workers |
| `NpTheorems.AdvancerIsAlone` | core/threaded/scheduler_NP.c:193-246 | while one worker advances, every other one waits and no credit can wake it: at most one advancer, and no reaction runs meanwhile |
| `NpTheorems.WorkersShareALevel` | core/threaded/scheduler_NP.c:346-390 | all reactions in workers' hands are distinct and of one level |
| `NpTheorems.NotAllBlocked` | core/utils/lf_semaphore.c:32-53 | no reachable state has every worker blocked while one has not left |
| `NpTheorems.StopsAfterLastReaction` | core/threaded/scheduler_sync_tag_advance.c:26-65 | workers are told to stop only at or after the stop tag, with every reaction triggered at the current tag finished, every vector empty and nothing queued |
| `NpTheorems.StopsAtTheStopTag` | core/threaded/scheduler_sync_tag_advance.c:26-39 | if the stop tag is only lowered to tags still ahead, workers are told to stop exactly at the stop tag |
| `NpPicks.PickIsHonoured` | core/threaded/scheduler_NP.c:429-464 | in every run: if a reaction of the executing row has the key picked, one with that key starts and the worker's own takes its slot, the row and the hand together unchanged as a multiset; if none has it, the worker's own starts and the vectors are unchanged |
| `NpPicks.RequeueExactly` | core/threaded/scheduler_NP.c:429-464 | the first slot up to the index with the key is the one exchanged, no other slot or row changes, and without such a slot nothing does |
| `NpPicks.PoppedIsStarted` | core/threaded/reactor_threaded.c:1064-1080 | without a pick the worker starts the reaction it popped |
| `NpPicks.TriggersTakeEffect` | core/threaded/scheduler_NP.c:500-515 | a reaction that is triggered is due at this tag: its trigger is logged and it is not finished yet, whether it was queued before or not |
| `NpPicks.AsManyAsReady` | core/threaded/scheduler_NP.c:157-174 | for a level with ready reactions exactly as many workers are set going, the advancer included, as there are reactions or workers, whichever is less |
| `NpPicks.StopsIff` | core/threaded/scheduler_sync_tag_advance.c:41-65 | the advancer tells the workers to stop exactly when the round at the current tag is over and that tag is at or past the stop tag; otherwise it closes the round |
| `NpScheduler.Scheduler.InsertReaction` | core/threaded/scheduler_NP.c:80-120 | the fetch-and-add and the store are the insertion of the protocol model |
| `NpScheduler.Scheduler.PopReady` | core/threaded/scheduler_NP.c:346-390 | the critical section is the pop of the protocol model: the index drops even when the vector is empty |
| `NpScheduler.Scheduler.RequeueAndPick` | core/threaded/scheduler_NP.c:429-464 | the inclusive scan exchanges the first slot up to the index with the key, leaves all others alone, and does nothing if there is none; it is the step of the protocol model |
| `NpScheduler.Scheduler.DistributeReady` | core/threaded/scheduler_NP.c:128-150 | the loop stops at the first level whose first slot is filled, or past the last level |
| `NpScheduler.Scheduler.NotifyWorkers` | core/threaded/scheduler_NP.c:157-174 | the minimum of idle workers and ready reactions, spelled out, is counted back, and one credit fewer is released: the notify and credit steps of the protocol model |
| `Gedf.UpstreamIsDone` | core/threaded/scheduler_GEDF_NP.c:97-134 | with picks disabled, or with clear picks only, in every interleaving and for every tag so far: every event of a reaction upstream of r, including its trigger, precedes the start of r at that tag and it is finished by then, although the level cycles back to 0; nothing queued or running is upstream of a started reaction |
| `Gedf.EveryTriggerIsServed` | core/threaded/scheduler_GEDF_NP.c:97-253 | under the same condition a reaction triggered at a tag that is over was started and finished there exactly once, and none was started untriggered |
| `Gedf.RunningShareTheLevel` | core/threaded/scheduler_GEDF_NP.c:183-253 | every reaction held by a worker, whether just taken, running or triggering others, is of the current level, with or without picks, and no two workers hold the same one |
| `Gedf.NotAllWaiting` | core/threaded/scheduler_GEDF_NP.c:183-253 | until the stop signal some worker is off the condition variable |
| `GedfExact.HeadExactly` | core/threaded/scheduler_GEDF_NP.c:183-253 | a worker at the head takes a reaction than which none is more urgent exactly if it is of the current level; else it waits as long as another worker is off the condition variable, and else moves the level up by one, from the last back to 0 |
| `GedfExact.LevelComesRound` | core/threaded/scheduler_GEDF_NP.c:97-134 | each look of the last worker at a head of another level brings the level exactly one move nearer to it, so that after at most the maximum level many it is taken |
| `GedfExact.DispatchExactly` | core/threaded/scheduler_GEDF_NP.c:306-352 | a pick starts the reaction picked, which was queued at the current level, and puts the worker's own back; without one the worker's own starts |
| `GedfExact.TriggersTakeEffect` | core/threaded/scheduler_GEDF_NP.c:361-376 | a reaction that is triggered is due at this tag, whether it was queued before or not |
| `Gedf.PrecedenceIff` | core/threaded/scheduler_GEDF_NP.c:306-352 | over every run with picks: precedence holds in every log, and every started reaction is clear of what is left, exactly when no pick was taken while a queued reaction of a lower level was upstream of it |
| `Gedf.PickCanBreakPrecedence` | core/threaded/scheduler_GEDF_NP.c:322-330 | a run with one worker and three reactions in which a pick starts a reaction while one upstream of it is still queued |
| `MsDecisions.ShedIff` | core/utils/master_scheduler.c:1863-2001 | in every valid configuration, from the inputs: a decision sheds exactly when degradation by skipping is on, the reaction is listed, low and degradable, and either lag shedding is on and it is dispatched more than the limit after its logical time, or the cap is on or the last sample reached a threshold and as many such decisions came before it at its logical time as the budget allows |
| `MsDecisions.GrantedIsExact` | core/utils/master_scheduler.c:1942-1977 | in every valid configuration, of the decisions that compete at a logical time exactly as many are spared as its budget allows, none if it is negative |
| `MsDecisions.PressureIs` | core/utils/master_scheduler.c:2051-2074 | the degrade pressure is that of the last sample: on exactly if its lag or its ready length reached a threshold that is not negative |
| `MsExact.RecordIs` | core/utils/master_scheduler.c:403-490 | for every valid configuration and run the record is, line by line, the one the inputs call for: C or R for each command, G where the hysteresis switches and M where a newer command takes effect, at the first sight of a logical time, D for each decision the rule sheds, X for each violation; and the counter of kept reactions counts the decisions the budget spared |
| `MsExact.EndLineIs` | core/utils/master_scheduler.c:1376-1383 | the end line holds the numbers of D and X lines and the number of the command accepted but never applied, or -1 |
| `MsDecisions.BudgetIsExact` | core/utils/master_scheduler.c:1912-1977 | with the cap on and lag shedding off, of n sheddable dispatches at a logical time exactly min(n, b) are kept, b being the last command accepted before that logical time began (or the initial budget), capped by the guard if its hysteresis holds then |
| `MsDecisions.FirstOnesAreKept` | core/utils/master_scheduler.c:1942-1977 | a sheddable dispatch is kept exactly when fewer than b came before it at its logical time, whenever in the run b is looked up |
| `MsDecisions.GuardHoldsAppend` | core/utils/master_scheduler.c:408-416 | the on/off rule of the guard is the hysteresis: some reading reached the upper threshold and none since fell below the lower one |
| `MsDecisions.BudgetIsStable` | core/utils/master_scheduler.c:403-427 | once a logical time has begun, nothing that follows changes its budget |
| `MsDecisions.RecordIsFaithful` | core/utils/master_scheduler.c:430-438 | over any run the D lines are exactly the sheds and the X lines exactly the violations, in order and in number, and the numbers of applied commands strictly increase |
| `MsDecisions.OnlySheddableAreShed` | core/utils/master_scheduler.c:1920-1945 | high-criticality, non-degradable and unlisted reactions never appear as shed, under any configuration |
| `MsLive.MasterScheduler.TagBegin` | core/utils/master_scheduler.c:403-427 | guard and pending command take effect once per logical time, as in the decision model |
| `MsLive.MasterScheduler.Accept` | core/utils/master_scheduler.c:472-490 | a command is accepted exactly when it parsed, its number grew and its budget is not negative; it replaces a pending one |
| `MsLive.MasterScheduler.OnMetrics` | core/utils/master_scheduler.c:2032-2079 | the latest lag and the degrade pressure are those of the decision model |
| `MsLive.MasterScheduler.Spend` | core/utils/master_scheduler.c:1954-1969 | a reaction is allowed exactly while the window of its logical time has budget left, and the window counts it |
| `MsLive.MasterScheduler.DecideReaction` | core/utils/master_scheduler.c:1863-2001 | the answer and the new state are those of the decision model, which MsDecisions.ShedIff ties to the inputs |
| `MsLive.MasterScheduler.ShouldSkip` | core/utils/master_scheduler.c:1829-2001 | the call is the beginning of the logical time followed by the decision |
| `MsLive.MasterScheduler.OnViolation` | core/utils/master_scheduler.c:1810-1827 | a violation begins its logical time and leaves an X line |
| `MsLive.MasterScheduler.Shutdown` | core/utils/master_scheduler.c:1362-1383 | the end line carries the counts of D and X lines and the number of a command never applied; a second call changes nothing |
| `MsReplay.ReplaySet.Find` | core/utils/master_scheduler.c:441-447 | binary search over the sorted keys finds a key exactly when it is recorded |
| `MsReplay.ReplaySet.MarkKey` | core/utils/master_scheduler.c:441-455 | a recorded key is marked once, anything else counts as unexpected |
| `MsReplay.ReplaySet.ShouldSkip` | core/utils/master_scheduler.c:1841-1857 | in replay a reaction is shed exactly when its key is a recorded D key, and a miss leaves the counts alone |
| `MsReplay.DeadlineDecision` | core/utils/master_scheduler.c:645-651 | with forced X the violation is taken from the record |
| `MsReplay.LiveDeadline` | core/threaded/reactor_threaded.c:830-836 | in a live run a deadline is violated exactly if it is zero, or positive and the dispatch comes more than that after its logical time; a violated reaction is not shed |
| `MsReplay.Summary` | core/utils/master_scheduler.c:1369-1375 | ok exactly when both sets are fully met with nothing unexpected |
| `MsReplay.ShedsMetIff` | core/utils/master_scheduler.c:1369-1375 | over any sequence of evaluations, the D half of the summary is ok exactly when every recorded D key was evaluated exactly once |
| `MsReplay.ViolationsMetIff` | core/utils/master_scheduler.c:1369-1375 | over any sequence of violations, the X half is ok exactly when the violations are the recorded X keys, once each |
| `MsReplayTheorem.ReplayReproduces` | core/threaded/reactor_threaded.c:1064-1131 | for a deterministic program that dispatches each key at most once, replaying a run's own record with forced X gives every dispatch its recorded outcome, batch by batch, for any physical times and any order within a batch, and the summary is ok |
| `MsTheorem.LoadsItsRun` | core/utils/master_scheduler.c:599-639 | the text recorded by a run of the decision model is accepted and yields its sheds and violations |
| `MsTheorem.RecordedRunReplays` | core/utils/master_scheduler.c:1810-1857 | end to end: run live, record as text, load, replay: same outcomes and a summary that is ok |
| `MsText.ReadFieldsOf` | core/utils/master_scheduler.c:625-628 | fields written in decimal are read back by the scan |
| `MsText.ReadFieldsCut` | core/utils/master_scheduler.c:614-620 | fields cut short scan as that many numbers exactly when a digit of the last one is left, and the others are then intact |
| `MsRecord.LoadReplay` | core/utils/master_scheduler.c:599-639 | the line loop computes the specified load |
| `MsRecordTheorem.RoundTrip` | core/utils/master_scheduler.c:1376-1383 | loading a completed record gives exactly its D and X keys, sorted, with C, R, M and G lines ignored; a key named twice refuses the record |
| `MsRecordTheorem.CutExactly` | core/utils/master_scheduler.c:611-636 | a record cut at any character is refused unless the cut leaves a digit of the last field of the E line; then it loads as if whole |
| `MsRecordTheorem.AcceptedIff` | core/utils/master_scheduler.c:611-636 | whatever its end line says, a record is accepted exactly when the counts in it are those of its D and X lines and no key occurs twice |
| `MsRecordTheorem.LostLineIsRefused` | core/utils/master_scheduler.c:633-636 | a completed record that lost one of its D or X lines is refused |
| `MsRecordTheorem.StrangeLineIsRefused` | core/utils/master_scheduler.c:611-630 | a line that begins like none of the known kinds stops the loader, wherever it stands |
| `MsRecordTheorem.Format` | core/utils/master_scheduler.c:430-438 | each line is the letter of its kind and its fields, in their order, with a comma before each |
| `MsRecordTheorem.RepeatsIff` | core/utils/master_scheduler.c:589-597 | after sorting, the neighbour test finds a repetition exactly when some key occurs twice |
| `MsKeys.KeyTable.Probe` | core/utils/master_scheduler.c:1780-1799 | linear probing always reaches an empty slot, the reaction itself or an entry with its key |
| `MsKeys.KeyTable.Check` | core/utils/master_scheduler.c:1772-1808 | the verdict is decided by the set of reactions checked so far and their masked keys, and a fine check adds its reaction |
| `MsKeys.NoStopIff` | core/utils/master_scheduler.c:1772-1808 | over any sequence of checks with a fixed key per reaction, none is fatal exactly when the checked reactions have pairwise distinct masked keys and are at most half the table |
| `ModesTheorems.CacheIsTheWalk` | core/modal_models/modes.c:114-149 | after initialization and any run of mode requests, transition steps and handler calls, the cached ACTIVE flag of every mode is the result of the walk up its parents, at any depth |
| `ModesTheorems.ProcessKeeps` | core/modal_models/modes.c:408-454 | one transition step keeps cache, startup and request bookkeeping |
| `ModesTheorems.HandleExactly` | core/modal_models/modes.c:200-257 | the handler clears exactly the flags whose reactions it triggers, and marks exactly those modes as started |
| `ModesTheorems.StartupOnce` | core/modal_models/modes.c:423-452 | over any run no mode needs and had its startup, each mode's startup is triggered by at most one handler call, and every pending flag of an active mode has its request bit |
| `ModesTheorems.HierarchicalReset` | core/modal_models/modes.c:314-328 | after a transition step every active reactor inside a mode entered by reset, at any depth, is in its initial mode |
| `ModesStartup.CascadeExactly` | core/modal_models/modes.c:314-328 | a reactor inside a mode entered by reset enters its initial mode by reset, and every other one does what was asked of it |
| `ModesStartup.EntryFlags` | core/modal_models/modes.c:408-440 | after a transition step, for every mode: if entered, it needs its startup exactly if it never had it and its reset exactly if entered by reset; if not, its pending flags are as before; the time of leaving is noted for exactly the modes that were current where a transition happens |
| `ModesStartup.RequestExactly` | core/modal_models/modes.c:440-454 | after a step a request bit is set exactly if it was, or if an active mode waits for its startup or reset |
| `ModesStartup.StartupExactly` | core/modal_models/modes.c:423-452 | after a handler call an active mode has had its startup, from exactly one call of the run, exactly if it was active at the beginning or has been entered since; otherwise from none |
| `ModesStartup.StartedExactlyOnce` | core/modal_models/modes.c:175-257 | if only transitions by reset enter modes with reactors inside, in particular without nesting, every mode active after a handler call was started by exactly one call |
| `ModesStartup.NeverStarted` | core/modal_models/modes.c:159-173 | a run in which an enclosing mode is entered by history for the first time, and the initial mode inside becomes active without ever getting its startup |
| `ModesTheorems.SuspendedYetActiveIff` | core/modal_models/modes.c:361-400 | from the state before the step: an event is suspended after it with its mode active exactly when it was suspended before, its mode is not entered, and the mode is active among the modes the reactors move to; its mode has then become active exactly when it was not active before |
| `ModesTheorems.RevivedFromOutside` | core/modal_models/modes.c:114-149 | a mode becomes active without being entered only through an enclosing mode that is entered |
| `ModesTheorems.HandedIff` | core/modal_models/modes.c:330-400 | the events a transition step gives back to the scheduler are exactly, for each mode entered, its one-shot timers and suspended timers on a reset, and its suspended events on a change of mode by history |
| `ModesTheorems.ReversedAt` | core/modal_models/modes.c:60-69 | the suspended list holds the events put on it last first |
| `ModesTheorems.SuspendedYetActiveExample` | core/modal_models/modes.c:361-365 | a run from initialization in which the event of a nested mode stays suspended after its enclosing mode is left and re-entered by history |
| `ModesRuntime.Modal.IsActiveFallback` | core/modal_models/modes.c:129-149 | the walk terminates and decides activity |
| `ModesRuntime.Modal.Initialize` | core/modal_models/modes.c:159-173 | the loop sets the flags of the specification, parents first |
| `ModesRuntime.Modal.HandleStartupReset` | core/modal_models/modes.c:200-257 | exactly the reactions of modes due for startup or reset become queued, and the flags are those of the specification |
| `ModesRuntime.Modal.DetectChanges` | core/modal_models/modes.c:314-405 | the first loop cascades resets inwards, takes the events of entered modes off the suspended list and hands to the scheduler exactly those that go back |
| `ModesRuntime.Modal.TakeOff` | core/modal_models/modes.c:361-400 | the walk over the suspended list removes all events of the mode entered, in order, and picks those that go back |
| `ModesRuntime.Modal.ApplyChanges` | core/modal_models/modes.c:408-454 | the second loop moves every reactor, sets the flags and recomputes activity as specified; ModesStartup.EntryFlags ties these to the plan |
| `ModesRuntime.Modal.Retract` | core/modal_models/modes.c:456-482 | the queue before is exactly the queue after plus the events newly put on the suspended list, latest first, and no event of an inactive mode is left |
| `ModesRuntime.Modal.ProcessChanges` | core/modal_models/modes.c:308-491 | the whole step: specified modes and flags, the events handed back as specified, nothing lost by the retraction, and a dummy event when startup or reset is requested |
| `Heap.FindIffScan` | core/utils/pqueue_base.c:56-126 | the pruned recursive search finds an equal element exactly when a linear scan would |
| `Heap.ValidIffOrdered` | core/utils/pqueue_base.c:321-353 | the recursive validity check holds exactly when heap order holds everywhere |
| `PriorityQueue.PQueue.BubbleUp` | core/utils/pqueue_base.c:176-190 | sifting up restores heap order and stored positions and keeps the elements |
| `PriorityQueue.PQueue.PercolateDown` | core/utils/pqueue_base.c:192-205 | sifting down restores heap order and stored positions and keeps the elements |
| `PriorityQueue.PQueue.MaxChild` | core/utils/pqueue_base.c:164-174 | the child of better priority, or none |
| `PriorityQueue.PQueue.Insert` | core/utils/pqueue_base.c:211-233 | adds exactly the element, growing the array if full, and keeps order and positions |
| `PriorityQueue.PQueue.Remove` | core/utils/pqueue_base.c:235-246 | removes exactly the element from any position and keeps order and positions |
| `PriorityQueue.PQueue.Pop` | core/utils/pqueue_base.c:248-259 | removes and returns an element of least priority; nothing on an empty queue |
| `PriorityQueue.EmptyInto` | core/utils/pqueue_base.c:261-280 | one queue ends with all elements of both and the other empty, both still valid, whichever was larger |
| `PriorityQueue.PQueue.RemoveUpTo` | core/utils/pqueue_tag.c:151-157 | removes exactly the elements up to the limit and below FOREVER |
| `Scheduling.FirstFree` | lib/schedule.c:194-204 | the microstep conflict loop ends at the first microstep at which the trigger has no queued event; every one before it is taken |
| `SchedulingTheorems.AddedIsInTheFuture` | lib/schedule.c:130-342 | an event is never queued after the stop tag, and it is strictly after the current tag exactly unless spacing is zero and a second event is deferred to the current time after its first microstep |
| `SchedulingTheorems.ZeroSpacingGoesBack` | lib/schedule.c:230-285 | a run of two calls and an advance after which, with spacing zero, a queued event precedes the current tag |
| `SchedulingTheorems.SpacedTag` | lib/schedule.c:220-289 | with positive spacing and defer, drop or replace, an event lies at least the spacing after the trigger's last tag |
| `SchedulingExact.IntendedIs` | lib/schedule.c:110-171 | from the raw inputs: a logical call without delay asks for the next microstep, one with a positive delay, extra plus minimum delay of an action and extra alone for a timer, for that much later at microstep 0; a physical one for the reading plus the delay, not before the start; what reaches FOREVER is FOREVER |
| `SchedulingExact.PlainCall` | lib/schedule.c:303-342 | a call that keeps the spacing and meets no event queues its event at just the tag it asks for, with its payload, and changes nothing if that is past the stop tag |
| `SchedulingExact.ConflictingCall` | lib/schedule.c:194-204 | without spacing, a call that meets an event goes to the first free microstep of the same time, and gives out no handle |
| `SchedulingExact.EarlyDrop` | lib/schedule.c:230-240 | drop: a call that comes too soon changes nothing |
| `SchedulingExact.EarlyReplace` | lib/schedule.c:241-265 | replace: the last event, if still queued, gets the payload and nothing else changes; if not, the event is deferred |
| `SchedulingExact.EarlyUpdate` | lib/schedule.c:266-282 | update: the last event, if still queued, is taken out, and the event goes to the tag asked for |
| `SchedulingExact.EarlyDefer` | lib/schedule.c:283-300 | defer: the event goes to the earliest time the spacing allows, never to the current tag itself |
| `SchedulingExact.EveryEventWaits` | lib/schedule.c:133-342 | over any run, whatever the policy and the conflicts, every event queued by a call lies at least the delay of that call on: for an action, its minimum delay and the extra delay |
| `SchedulingExact.HandleIs` | lib/schedule.c:332-342 | a call gives out the next handle or none; handles go up by one and start again at 1 after the largest |
| `SchedulingTheorems.RunKeeps` | lib/schedule.c:194-342 | over any run of calls, stop-tag lowerings and tag advances: no two queued events of an action share a tag (no spacing, or positive spacing without update), events of a spaced action are at least the spacing apart over the whole history, and if no logical action has spacing zero every queued event lies ahead, whatever the timers |
| `SchedulingTheorems.TwinsIff` | lib/schedule.c:262-329 | for every trigger, policy and spacing, two queued events of the trigger share a tag after a call exactly when, as read off the queue, the last tag, the intended tag and the policy before it, the call lands on an event of the trigger that it does not withdraw |
| `SchedulingTheorems.UpdateCanTwin` | lib/schedule.c:266-282 | a run of three calls under the update policy after which two queued events of one action share a tag |
| `SchedulingRuntime.Environment.Settle` | lib/schedule.c:194-204 | the loop terminates at the first free tag |
| `SchedulingRuntime.Environment.Space` | lib/schedule.c:220-289 | the spacing policies act as specified on queue and tag |
| `SchedulingRuntime.Environment.ScheduleTrigger` | lib/schedule.c:100-342 | the whole call: new queue, last tag and handle as specified; the lemmas of SchedulingExact tie these to the raw inputs |
| `EventLoop.TagsAdvance` | core/reactor.c:234-293 | in every run processed tags strictly increase and never pass the stop tag, which only drops and only to a tag still ahead; queued events lie ahead of the current tag; every event is popped at its own tag |
| `EventLoop.EndsAtTheStopTag` | core/reactor.c:207-216 | a run that ends does so exactly at the stop tag; of the events ever queued for tags up to it each was popped or withdrawn, counted with multiplicity, and none beyond it was popped |
| `EventLoop.StopTagExactly` | core/reactor.c:234-293 | in every turn of every run the stop tag becomes the least of the one before, the next microstep if nothing is queued and keepalive is off, and the microstep after the tag in progress if a stop is requested; an uninterrupted turn moves to the least of the queued tags and the stop tag as it is then, an interrupted one stays; the run goes on exactly while the current tag is before the stop tag |
| `EventLoop.EmptyQueueEnds` | core/reactor.c:246-257 | an uninterrupted turn that finds nothing queued is the last: one microstep on without keepalive, at the stop tag with it |
| `EventLoop.AdvanceNeverFails` | core/reactor_common.c:728-760 | neither error exit of the tag advance is ever taken |
| `EventLoopRuntime.Environment.AdvanceTag` | core/reactor_common.c:728-760 | the advance succeeds exactly when the tag is ahead and not past the head of the queue |
| `EventLoopRuntime.Environment.PopEvents` | core/reactor_common.c:270-376 | pops all events at the current tag, in queue order, and nothing else |
| `EventLoopRuntime.Environment.SetStopTag` | core/reactor_common.c:150-155 | the stop tag is only lowered |
| `EventLoopRuntime.Environment.DoStep` | core/reactor.c:131-216 | after the effects of the step, the loop goes on exactly while the current tag is before the stop tag |
| `EventLoopRuntime.Environment.NextStep` | core/reactor.c:234-293 | one call of next() is one turn of the specification, which EventLoop.StopTagExactly ties to its inputs, and its tag advance succeeds |
| `LoopOfCalls.CallIsEffects` | lib/schedule.c:100-342 | a schedule call that is not backdated acts on the loop's queue by legal insertions, withdrawals and renewals, and both see the same queue afterwards |
| `LoopOfCalls.RunsTheLoop` | core/reactor.c:131-293 | a run of the loop whose reactions make schedule calls and stop requests, no logical action having spacing zero, is a run of the event loop, so its theorems hold of it |
| `LoopOfCalls.HandledAreSpaced` | lib/schedule.c:220-289 | in every such run any two events of a spaced action, handled or queued, lie at least the spacing apart, each is handled at most once, and every event at its own tag |
| `LevelGate.GateIsSafe` | core/federated/federate.c:2546-2552 | over all interleavings, whenever execution is let past a level, every non-physical zero-delay-cycle port at or below it has a status tag at or beyond the current tag, or a grant later than the current tag, or a final one equal to it, has been received |
| `LevelGate.LimitIff` | core/federated/federate.c:2589-2643 | the limit lets a level pass exactly when the grant completes the tag or no port at or below the level holds it back |
| `LevelGate.StepKeeps` | core/federated/federate.c:209-299 | every step, tag advances included, keeps the gate justified, and no status tag ever goes back |
| `LevelGate.ExactIff` | core/federated/federate.c:209-299 | every step keeps the limit that of the latest grant and of what is known, unless it is an outdated TAG, one from before the current tag that raises a port while a later grant lets the tag complete and a port is unknown; and then it does not |
| `LevelGate.GateOpensIff` | core/federated/federate.c:2546-2552 | over any run without outdated TAGs a level is let past exactly when the latest grant lets the current tag complete, or every port at or below the level is known up to it |
| `LevelGate.OutdatedTagBlocks` | core/federated/federate.c:971-1012 | a run in which a TAG that is reported as ignored has lowered the limit |
| `LevelGate.SetRight` | core/federated/federate.c:2589-2643 | whatever happened before, a PTAG, a new tag, a refresh or a port status that counts makes the limit exact again |
| `LevelGate.StatusCounts` | core/federated/federate.c:268-299 | the status of a port counts up to the tag told and at least the current one, a tag told again one microstep further; nothing is taken back and no other port is touched |
| `LevelGate.Federate.UpdateMaxLevel` | core/federated/federate.c:2589-2643 | the loop computes the limit |
| `LevelGate.Federate.OnTag` | core/federated/federate.c:971-1012 | a TAG raises status tags, recomputes the limit if any changed, and becomes the last grant unless it is stale |
| `LevelGate.Federate.OnPtag` | core/federated/federate.c:1218-1258 | a PTAG at or before a final grant is an error; otherwise it becomes the last grant and the limit is recomputed |
| `LevelGate.Federate.OnPortStatus` | core/federated/federate.c:268-299 | a late tag counts as the current one, a repeated one as the next microstep, an earlier one is ignored |
| `LevelGate.Federate.StartStep` | core/federated/federate.c:2156-2170 | a new tag recomputes the limit |
| `TagBarrier.BarrierHolds` | core/threaded/reactor_threaded.c:222-322 | under any interleaving of raising, releasing, stop-tag lowering, new events and tag advance without a FOREVER proposal, the current tag stays strictly below the effective tag of every outstanding requestor |
| `TagBarrier.BreaksIff` | core/threaded/reactor_threaded.c:289-322 | a step breaks the barrier exactly when it proposes a FOREVER tag to a requestor at or before it |
| `TagBarrier.ForeverBreaks` | core/threaded/reactor_threaded.c:300-304 | a run in which the FOREVER shortcut moves the tag past a requestor |
| `TagBarrier.RaiseExactly` | core/threaded/reactor_threaded.c:222-262 | a request brings the horizon to its own tag, the one asked for or the stop tag or the next microstep, if that is earlier, and leaves it otherwise |
| `TagBarrier.HorizonHasAReason` | core/threaded/reactor_threaded.c:222-287 | over any run, while the barrier is up its horizon is the tag of a request made since it went up; while it is down it is FOREVER |
| `TagBarrier.StartExactly` | core/threaded/reactor_threaded.c:289-322 | a proposed tag is held back exactly while the barrier is up with its horizon not after it, and it is not FOREVER |
| `TagBarrier.WakeExactly` | core/threaded/reactor_threaded.c:300-322 | a thread that wakes up goes on waiting exactly while the barrier is up with its horizon not after the tag it waits with, cut down to the stop tag; else it moves to the next tag as it is then |
| `TagBarrier.Barrier.Increment` | core/threaded/reactor_threaded.c:222-262 | the horizon becomes the effective tag if that is earlier, and stays ahead of the current tag |
| `TagBarrier.Barrier.Decrement` | core/threaded/reactor_threaded.c:271-287 | the horizon is reset only when the last requestor leaves; a mismatched call is an error |
| `MixedRadix.CountValue` | core/mixed_radix.c:19-36 | k increments add k to the permuted value, modulo the product of the radixes, for any radixes and permutation |
| `MixedRadix.ComesBack` | core/mixed_radix.c:19-36 | as many increments as the product of the radixes return to the start |
| `MixedRadix.VisitsEachOnce` | core/mixed_radix.c:19-36 | on the way every integer value is visited and none twice |
| `MixedRadix.Increment` | core/mixed_radix.c:19-36 | the loop increments the digits in place in the order of the permutation |
| `MixedRadix.DropIsDivision` | core/mixed_radix.c:46-57 | dropping n digits is integer division by the product of the first n radixes |
| `MixedRadix.Parent` | core/mixed_radix.c:46-63 | the accumulating loop computes that quotient; 0 if no digit is left |

## Left out

- Sockets, FIFOs, symbol lookup, environment variables, logs, tracing and OS priorities: input and output.
- The RTI, NET and DNET exchange, start-up handshakes and clock synchronization of federates.
- Token reference counts and event recycling.
- Direct execution of a sole downstream reaction: it rests on analysis by the code generator.
- ModesRuntime.Modal.ProcessChanges: which events go back to the scheduler is proved; what the scheduler then queues for each of them, with which tag, is an input.
- NpScheduler.Scheduler: the vector of a level is a sequence that an insertion updates at an index, so that its states compare with those of the protocol; aliasing of arrays is not modelled.
- NULL entries in the list of modal reactors, and modes without a reactor: the code skips them.
- The choice made by `ms_pick_next`, the master scheduler's ready set and its OS policies: a pick is arbitrary, the length of the ready queue an input.
- The adaptive scheduler, the audio and sensor code, and the utilities for vectors and deques.
- STP violations: they arise only in federated programs.
- Gedf: its functions are steps on values, with the reaction queue as a set that has a least element; the class form is given for the heap alone.
- MsRecord.LoadReplay: numbers too large for their C type, whose conversion C leaves undefined, are read exactly, and the unsigned fields wrap.
- Heap.FindIffScan: indexes do not overflow.
- Fairness and liveness beyond the absence of a state in which all workers are blocked.
