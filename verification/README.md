# Molly: the crash-safe run engine, its stores and its algorithms, in Dafny

This project models the parts of Molly whose correctness depends on whole histories, on
concurrent processes or on a bound, and proves what they are for.
`dafny verify dfyconfig.toml` checks everything.

**The run engine.** `AgentLoop.run` is an event-sourced state machine: it re-reads an append-only
ledger, projects a run's events to a state, takes one step that appends events, and mirrors
successful executions into the lineage log. A `RunInspector` derives the same state with other code.

- `RunEvents`, `Projection` and `Inspection` hold the events and the two projections: each is a
  specification by the last event, and the loops of the source are methods proved equal to it.
- `LedgerChecks` says for any list of events at all, tampered with or not, which of them each projection
  accepts.
- `RunHistory` says which event may be appended to which history (`Appendable`), for a driver that
  runs on as well as for one that resumes after a crash; `History` is every ledger of one run that
  can arise. `RunTheorems` and `RunSafety` prove what all of them satisfy.
- `RunTraces` tells the drivers apart: a trace is the events of a run with the places where a driver
  returned, failed or died. A running driver has one successor relation (`LineWrite`), a driver at the
  top of the loop another (`TopWrite`); `Legal` is every trace, and histories are exactly what legal
  traces write (`RunTraces.HistoryIffTrace`).
- `Lineage` holds the canonical list of execution relations and the `ArtifactLineage` class,
  `SharedLineage` many runs over one ledger and one lineage log.
- `AgentLoops` holds the `AgentLoop` class itself, with every append, executor call and check where
  the source has it. Everything the loop does not decide (crash before or after each write, provider
  answers, tool outcomes, refused checks, appends of other runs, clocks) is asked of an
  `Environment`, at the time the clock shows; `LoopSteps` names the causes and the legal writes. `Run`
  keeps `RunOk`, which contains `History` and `Legal`, so the theorems about histories and traces hold
  of every ledger the class can produce, each outcome has its cause within the call, and what is recorded
  comes from the provider, the operator and the executors (`Honest`); `Drive` is any number of resumes.

**Durable stores as concurrent protocols.** `HashChain` and `AppendLog` (chained JSONL log, lock,
torn lines), `ArtifactStores` (no-replace publication) and `AcquisitionCaches` (body, then manifest).
Each has a class for one process alone and a step system in which any number of processes interleave
one file operation at a time and may stop anywhere.

**Algorithms.** `ShardScheduler` (longest processing time first), `RateGate` (per-host spacing),
`TableGrid` (row and column spans), `Sections` (section forest and cycle check), `StructuralPaths`
(sibling-indexed paths), `DocumentTrees` (the numbering of a document by its traversal), `CanonicalJson`
and `JsonRoundTrip` (the encoding under every digest, with `Decimals`), `Validation`,
`ReportMeaning` and `DatasetExport` (duplicates, leakage and the export gate).

Conventions. Identifiers and artifact ids are opaque numbers, timestamps are opaque, and a digest is
either represented by the value it is taken over or an injective function; server ids are fresh. All
refusals of the loop's projection are one error class and all of the inspector's another; the constructors
for them only tell the messages apart. One
driver works on a run at a time and one `ArtifactLineage` instance is live at a time, while other runs
may write to the same ledger at any moment. A death stands for every way a process stops between two lines,
a failing append included.

## What the code does not promise, and when it does

- The documented guarantee that a tool that wants approval runs only with approval: over all traces, a
  start of a call that wants approval lacks an earlier approval bound to it if and only if a driver died
  directly behind the call's materialization (`RunTraces.UnapprovedIffDied`; `RunSafety.UnapprovedStart`
  is such a run). A driver that stays alive puts the call up for approval and returns
  (`RunTraces.TurnsAreCompleted`, `AgentLoops.AgentLoop.AskOrExecute`), and the approvals in the ledger are
  those that operators handed in (`AgentLoops.AgentLoop.Drive`).
- The inspector refuses a run whose recorded error type starts with `_`, `.` or `-`, although the loop
  goes on (`RunSafety.UnnamedFailure`). It accepts a run if and only if every recorded failure starts with
  a letter or digit (`RunTheorems.ProjectionsAgree`).
- A rejection closes the run if and only if the driver that recorded it lives until the closing event; if
  it dies before, the run is active again (`RunTraces.OpenIffDiedBeforeClosing`, with a run in
  `RunTraces.RejectionLeftOpen`). The rejected call never starts (`RunSafety.RejectedNeverStarts`).
- The success event is impossible, and the call stays interrupted, if and only if an executor returns data
  of a legal size with two equal output drafts (`AgentLoops.AgentLoop.FinishExecutor`; a run in
  `AgentLoops.RepeatedOutputsInterrupt`).
- In the cache a body without its manifest can still be completed if and only if some put of that very body
  is past its existence tests (`AcquisitionCaches.CompletedIffInFlight`); one crash between the two links is
  enough to leave it partial forever (`AcquisitionCaches.StuckIsReachable`, `AcquisitionCaches.PartialForever`).
- A put that loses the race for the manifest is answered by the winner's manifest without comparing it
  (`AcquisitionCaches.RacingPutReturnsOther`): one that links is answered by its own bindings if and only if at
  that moment no manifest, or an agreeing one, was there (`AcquisitionCaches.LinkDecidesAnswer`). As long as all
  puts of an identity carry one binding, every answer agrees (`AcquisitionCaches.OneBindingAgrees`).
- The rate gate spaces the times that threads read, not the moments of the requests. The moments keep the
  spacing up to the staleness of the readings (`RateGate.MomentsSpaced`), exactly that much can be lost
  (`RateGate.StaleReadingsTight`), and all schedules keep the full spacing if and only if no reading is stale
  (`RateGate.SpacingIffFresh`).
- Canonical bytes determine a value unless a text holds a high surrogate directly followed by a low one
  as two code points (`JsonRoundTrip.SplitPairCollides`); reading the bytes gives the value back if and
  only if no text does (`JsonRoundTrip.DecodeEncode`). Two values have the same bytes if and only if,
  with sorted keys, they are equal once each such pair is read as its code point
  (`JsonRoundTrip.BytesEqualIffJoinedEqual`).
- Two branches of the run loop are dead on every history: the one for a pending call that already
  carries an approval, and the relaxed limit check before a pending execution.

## Model

| member | source | states |
|---|---|---|
| RunEvents.EffectiveLimits | src/molly/core/agent_loop.py:437-452 | each effective limit is the smaller of the server limit and the budget of a legacy request |
| Projection.GroupEvents | src/molly/core/agent_loop.py:290-313 | the first loop of the projection reports the first contradictory event, and otherwise lists the materializations and groups all events by call id |
| Projection.ProjectCall | src/molly/core/agent_loop.py:316-370 | the state of one call from its related events, with the first contradiction found |
| Projection.ProjectEvents | src/molly/core/agent_loop.py:290-421 | the whole projection equals its specification: first event error, then per-call states in order, then end, pending call, interruption and review |
| Projection.VisibleArtifacts | src/molly/core/agent_loop.py:518-529 | the loop computes the visible artifacts in discovery order |
| Projection.VisibleExactly | src/molly/core/agent_loop.py:518-529 | visible artifacts are exactly the inputs and the outputs of successes, each once, inputs first |
| Inspection.CollectCalls | src/molly/core/inspection.py:492-531 | the inspector's first loop stops at the first bad event and otherwise tracks each call's follow-up events |
| Inspection.ProjectCalls | src/molly/core/inspection.py:492-638 | the inspector's call views, unresolved count and pending call equal their specification, of which RunTheorems.ViewOfShape says kind by kind what each view reports |
| LedgerChecks.LoopAcceptsIff | src/molly/core/agent_loop.py:290-421 | the loop's projection of any list of events succeeds if and only if every success has durable data of its own digest, every materialization names its own call, the events of each call agree with its digest and step, bind its approval and occur once, at most one call is open, and nothing follows the end |
| LedgerChecks.LoopStateMeans | src/molly/core/agent_loop.py:371-421 | on any accepted list of events: the end, and whether some call is running, awaits its approval or could run, and whether the run waits for review, each told from the events |
| LedgerChecks.InspectorAcceptsIff | src/molly/core/inspection.py:440-650 | the inspection of any list of events succeeds if and only if its start binds its request, every materialization and follow-up names its own call, digest, tool and inputs, calls are distinct and their events occur once with good ends, at most one call is pending, and nothing follows the end |
| RunHistory.HistoryKept | src/molly/core/agent_loop.py:972-1114 | every history cuts into calls whose events follow each other as they must, only the last call can be open, and nothing follows an end |
| RunHistory.PrefixHistory | src/molly/core/agent_loop.py:972-1114 | every prefix of a history is a history: each crash point is covered |
| RunHistory.CallIdsDistinct | src/molly/core/agent_loop.py:175-190 | no two calls of a run share a call id or a step id |
| RunHistory.GroupsSelected | src/molly/core/agent_loop.py:312-317 | the events carrying one call id are exactly the events of one call |
| RunHistory.CallIdsMarkCallEvents | src/molly/core/agent_loop.py:741-842 | an event carries a call id if and only if it belongs to a call |
| RunTheorems.StateOfShape | src/molly/core/agent_loop.py:316-405 | a call's projected state is decided by its last event, and its approval is the recorded one |
| RunTheorems.ViewOfShape | src/molly/core/inspection.py:534-635 | the inspector's view of a call exists if and only if its failure is nameable; it is succeeded, failed or interrupted if and only if the call's last event is a success, a failure or a start, rejected if and only if a rejection was recorded, and otherwise pending, with approval status, result, failure, outputs and event ids as recorded |
| RunTheorems.ProjectionTotal | src/molly/core/agent_loop.py:290-421 | on every history the projection succeeds, and end, interruption, pending approval, pending execution and its approval, and review are decided by the last event |
| RunTheorems.NoCollectError | src/molly/core/inspection.py:492-531 | the inspector's first loop never fails on a history of the loop |
| RunTheorems.InspectCallsByLast | src/molly/core/inspection.py:492-638 | the call projection of the inspector succeeds if and only if all failures are nameable, with at most one unresolved call |
| RunTheorems.LoopStatusByLast | src/molly/core/agent_loop.py:545-579 | the loop's status is STOPPED, BUDGET_EXHAUSTED, REJECTED, FAILED, INTERRUPTED, WAITING_APPROVAL or WAITING_REVIEW if and only if the last event is of the kind it names |
| RunTheorems.InspectStatusByLast | src/molly/core/inspection.py:641-673 | so is the inspector's status, with its own interruption and review rules, kind by kind |
| RunTheorems.ProjectionsAgree | src/molly/core/inspection.py:700-796 | on every history, at every crash point, the inspector accepts if and only if all failures are nameable, and then status, pending call, counts and artifact sequence equal the loop's, the status names the last event, and there is one view per call as its events say |
| RunTheorems.SafeErrorIsIdentifier | src/molly/core/agent_loop.py:820-823 | a recorded error type is a valid identifier if and only if it starts with a letter or digit |
| RunSafety.BudgetKept | src/molly/core/agent_loop.py:423-487 | counts never exceed the limits, calls equal steps, and a decision always leaves room for its call |
| RunSafety.EventsAccounted | src/molly/core/agent_loop.py:972-1114 | every event is the start, a decision, part of one call or the one closing event |
| RunSafety.RunIsBounded | src/molly/core/agent_loop.py:454-487 | with limits D and T a run has at most 2 + D + 5T events over all resumes, and the relaxed check never fires |
| RunSafety.LimitsDecide | src/molly/core/agent_loop.py:454-487 | in every history a decision stands only where decisions, calls and steps were all below their limits, and the budget ends only where one of them equals its limit: no run gives up early |
| RunSafety.AtMostFiftyFour | src/molly/core/agent_loop.py:437-487 | without a legacy budget no run ever has more than 54 events |
| RunSafety.InputsAreKnown | src/molly/core/agent_loop.py:732-759 | in every history a call only uses artifacts its run was given or an earlier success of the run produced |
| RunSafety.LifecycleAtMostOnce | src/molly/core/agent_loop.py:326-352 | each call has at most one approval request, approval, rejection, start and end |
| RunSafety.StartApprovedIffRequested | src/molly/core/agent_loop.py:988-1058 | in the ledger alone: a start has an earlier approval bound to its digest if and only if an approval was requested for its call; when the policy wants one is the matter of RunTraces.UnapprovedIffDied |
| RunSafety.RejectedNeverStarts | src/molly/core/agent_loop.py:1003-1020 | a rejected call never starts and never ends |
| RunSafety.UnapprovedStart | src/molly/core/agent_loop.py:1106-1114 | a concrete history in which a tool that wants approval starts without one |
| RunSafety.UnnamedFailure | src/molly/core/inspection.py:592-596 | a concrete history that the loop projects and the inspector refuses |
| RunSafety.RecordedRejectionResumesActive | src/molly/core/agent_loop.py:1003-1020 | when the last event records a rejection the run is active with nothing pending, and only the call rejection, a decision or the budget end can follow |
| RunSafety.SharedLedgerHistories | src/molly/core/ledger.py:264-268 | however runs interleave in one ledger, the events of each form a history |
| RunSafety.NotYetStarted | src/molly/core/agent_loop.py:882-901 | a call about to start has no start in the history |
| RunTraces.HistoryIffTrace | src/molly/core/agent_loop.py:972-1114 | the histories are exactly the events that legal traces write |
| RunTraces.UnapprovedIffDied | src/molly/core/agent_loop.py:1097-1114 | over all traces, a start of a call that wants approval has no earlier approval bound to it if and only if a driver died directly behind its materialization |
| RunTraces.OpenIffDiedBeforeClosing | src/molly/core/agent_loop.py:1003-1020 | over all traces, when the driver that recorded a rejection has left, the run is active if and only if it died before the closing event, and otherwise rejected |
| RunTraces.RejectionLeftOpen | src/molly/core/agent_loop.py:1003-1020 | a concrete trace whose last event records a rejection and whose run is active |
| RunTraces.TurnsAreCompleted | src/molly/core/agent_loop.py:1074-1114 | over all traces, behind a decision stands what its action asks for, behind a materialization the approval request if and only if the policy wants approval, and behind the request the return, unless the driver died there |
| Lineage.CanonicalDistinct | src/molly/core/agent_loop.py:649-707 | no relation occurs twice in a run's canonical list, and each belongs to one success event |
| Lineage.CanonicalMeans | src/molly/core/agent_loop.py:660-707 | a relation is in the canonical list of a run if and only if some success of the run gives rise to it: each output PRODUCED_BY its step and DERIVED_FROM each input, each input CONSUMED_BY the step, with the id over exactly these values |
| Lineage.LogMeans | src/molly/core/agent_loop.py:641-707 | a stored relation that names a success of the run is one the run gives rise to, and a complete log stores all of them |
| Lineage.OutputPosition | src/molly/core/agent_loop.py:700-705 | where the outer loop stands in the canonical list of one success |
| Lineage.DerivedPosition | src/molly/core/agent_loop.py:702-703 | where the inner loop stands in the canonical list of one success |
| Lineage.ConvergingStep | src/molly/core/agent_loop.py:641-707 | appending an event keeps the lineage log of the run a prefix of its canonical list |
| Lineage.NextIsPresent | src/molly/core/lineage.py:344-394 | a relation the prefix already holds is in the log with exactly its meaning |
| Lineage.NextIsAbsent | src/molly/core/lineage.py:344-394 | otherwise no stored relation has its id, and appending it extends the prefix by one |
| Lineage.ArtifactLineage.Register | src/molly/core/lineage.py:163-233 | registration makes the log strict, adds exactly the identity, and with the first one exactly the identities that stored relations refer to, so that nothing stored becomes unreadable |
| Lineage.ArtifactLineage.AddIdempotent | src/molly/core/lineage.py:344-394 | an existing id must mean exactly the same and changes nothing; a new relation is appended only between known identities |
| SharedLineage.MovesOwnPart | src/molly/core/lineage.py:344-394 | of all moves of all runs and other writers only a run's own offer moves its part of the lineage log, by its next canonical relation |
| SharedLineage.EveryRunConverges | src/molly/core/agent_loop.py:641-707 | from an empty ledger on, whatever was stored before and however runs alternate over one ledger and one lineage log, the part of each run stays a prefix of its canonical list |
| SharedLineage.OwnOffersComplete | src/molly/core/agent_loop.py:641-647 | between two writes of a run its part grows by exactly its own offers, enough of them complete it, and no other run prevents or undoes that |
| AgentLoops.AgentLoop.Append | src/molly/core/agent_loop.py:201-228 | between the writes of other runs a legal event reaches the history and the trace of the run, unless the process dies before the write |
| AgentLoops.AgentLoop.ProjectSuccess | src/molly/core/agent_loop.py:660-707 | mirroring one success stops without a new relation if and only if the store does not verify one of its artifacts; otherwise it extends the log to the end of that success's relations, appends nothing that is there, and stores every relation the success gives rise to, unless the process dies |
| AgentLoops.AgentLoop.Reconcile | src/molly/core/agent_loop.py:641-647 | after any crash reconciliation stores exactly the relations the run's successes give rise to, and nothing false; on a complete log it changes nothing |
| AgentLoops.AgentLoop.StartExecutor | src/molly/core/agent_loop.py:882-913 | the start event is in the ledger before the executor is called, once |
| AgentLoops.AgentLoop.FinishExecutor | src/molly/core/agent_loop.py:914-950 | the call ends in the failure or the mirrored success that the executor outcome asks for; it stays started without an end if and only if the outcome has legal data and repeated outputs |
| AgentLoops.AgentLoop.ExecuteCall | src/molly/core/agent_loop.py:882-950 | executing a call appends its start and then the end that the executor's outcome asks for, and adds one executor call; repeated outputs, and nothing else, leave it at the start |
| AgentLoops.AgentLoop.Review | src/molly/core/agent_loop.py:1003-1025 | an approval that does not bind to the pending call is refused and changes nothing; one that binds is recorded as it is, unless the process dies before; then a rejection is followed by the two closing events and the return, and an approval by nothing but the next turn |
| AgentLoops.AgentLoop.AskOrExecute | src/molly/core/agent_loop.py:1106-1114 | a materialized call that wants approval is put up for it, the driver returns and no executor is called, unless the process dies; any other call is started at once |
| AgentLoops.AgentLoop.Propose | src/molly/core/agent_loop.py:1097-1114 | a proposal is refused without a trace if and only if a check or an invisible input refuses it; otherwise it is materialized with its tool, arguments, inputs and reason under fresh identities, and put up for approval without executing it if and only if the policy wants approval |
| AgentLoops.AgentLoop.Decide | src/molly/core/agent_loop.py:1060-1114 | with nothing pending: the limits first, then one answer of the provider, recorded and carried out by its kind; the budget ends only if a limit was reached before, and a decision is recorded only if there was room; it ends at a repeated output exactly when limits, answer, policy and executor lead there |
| AgentLoops.AgentLoop.Turn | src/molly/core/agent_loop.py:981-1114 | one turn appends an event or stops with a cause; an awaited approval is recorded and acted upon, an approved call is started; with nothing pending it checks the limits, asks the provider once, and carries out the answer; a run that is over, waiting or interrupted is not touched, and an approval that does not fit is refused; what it records comes from the provider, the approval handed in and the executor |
| AgentLoops.AgentLoop.Initialize | src/molly/core/agent_loop.py:243-281 | a run starts with its request, or resumes only with exactly that request and policy |
| AgentLoops.AgentLoop.Run | src/molly/core/agent_loop.py:972-1114 | whatever the environment does, run terminates; the run lives through a legal trace that grows by writes and then ends by the outcome; every decision, tool version, approval and execution end recorded meanwhile is an answer of the provider, of the registry, the approval handed in, or the outcome of an executor in this call; an awaited approval is recorded first, then a rejection closes the run without an executor call and an approval is followed by the start of its call; it returns only at rest, with the status that the kind of the last event names and the lineage log complete and true, fails only for a cause met in this call, and never touches a run that is over, waiting or interrupted |
| LoopSteps.AwaitedApprovalIsRecorded | src/molly/core/agent_loop.py:988-1025 | an approval that binds to the call the run waits for is the next event of the run, unless the process dies or a check refuses; without an approved decision no executor is called |
| AgentLoops.AgentLoop.Drive | src/molly/core/agent_loop.py:972-1114 | any number of resumes, each in a new process after a crash, keep history, lineage prefix and executor record, and never touch an interrupted run; every recorded approval is one an operator handed in, and every executed call that wants approval has an operator's approved record unless a driver died directly behind its materialization |
| AgentLoops.ExecutorCallsApproved | src/molly/core/agent_loop.py:882-950 | behind each executor call stands exactly one start of a call never rejected; if the policy wants approval for it, an earlier approval is there unless a driver died directly behind its materialization |
| AgentLoops.ExecutorCallsLicensed | src/molly/core/agent_loop.py:988-1058 | if all recorded approvals were handed in by operators, each executed call that wants approval has an approved record of its digest among those handed in, unless a driver died directly behind its materialization |
| AgentLoops.RepeatedOutputsInterrupt | src/molly/core/agent_loop.py:914-950 | a concrete run without crash or refusal that repeated outputs leave interrupted |
| AgentLoops.ReportAgreesWithInspector | src/molly/core/inspection.py:700-796 | whatever the loop returns, the inspector reports the same status, pending call and artifacts whenever it accepts |
| HashChain.ReadEvents | src/molly/core/ledger.py:210-246 | the reading loop yields every event of the file or the first error of framing, decoding, digest, id or chain |
| HashChain.ReadBack | src/molly/core/ledger.py:210-246 | chained events written line by line are read back exactly; behind an unfinished line reading fails |
| HashChain.ReadOfPrefix | src/molly/core/ledger.py:210-246 | reading any prefix of the file yields a prefix of the events or fails |
| HashChain.ReadIsChained | src/molly/core/ledger.py:210-246 | whatever is read is a chain of digests with distinct ids |
| HashChain.LastDigestBinds | src/molly/core/ledger.py:136-140 | two chained logs with the same last digest are equal, event by event and in length |
| HashChain.DigestFixesPrefix | src/molly/core/ledger.py:136-140 | a digest found inside another chained log fixes that log's prefix |
| AppendLog.LogFile.AppendAll | src/molly/core/_persistence.py:60-68 | writing in pieces appends the payload, or a part of it if the process dies |
| AppendLog.LogFile.Append | src/molly/core/ledger.py:286-316 | an append adds exactly one sealed line, or changes nothing on an error, or died within that line |
| AppendLog.AppendExtendsByOne | src/molly/core/ledger.py:304-316 | a finished append is read as one more event, an unstarted one as none, and a partial one stops every reader |
| AppendLog.MoveKeeps | src/molly/core/_persistence.py:31-68 | each move of any writer or reader keeps complete lines chained and the file growing only at its end |
| AppendLog.RunKeeps | src/molly/core/_persistence.py:31-68 | after any interleaving and crashes the committed events only grew |
| AppendLog.NoDeathNoTear | src/molly/core/_persistence.py:31-68 | as long as no writer dies, whenever the lock is free the whole file is readable |
| AppendLog.ReadersSeePrefixes | src/molly/core/ledger.py:210-246 | a reader without the lock returns a prefix of the committed events or fails |
| AppendLog.ReaderCatchesUp | src/molly/core/ledger.py:210-246 | from any reachable state a reader can read on to the end of the file and then has all of it |
| AppendLog.TornForever | src/molly/core/ledger.py:210-246 | after a torn line no later read succeeds and no later append changes a byte |
| AppendLog.DeathTearsIffPartial | src/molly/core/_persistence.py:41-57 | a dying writer leaves a torn line if and only if some but not all of it was written |
| ArtifactStores.ArtifactStore.Put | src/molly/core/artifacts.py:228-324 | put never replaces anything and stops at bytes that do not match their name; on a sound disk it returns its own record, or the one that is there if media type, schema name and version agree as far as both are given, or a conflict |
| ArtifactStores.ArtifactStore.Verify | src/molly/core/artifacts.py:337-348 | a verified record is the one on disk, for bytes of the id's digest and of its size |
| ArtifactStores.ArtifactStore.Read | src/molly/core/artifacts.py:350-355 | read returns bytes whose digest is the id, even on a damaged disk |
| ArtifactStores.NothingReplaced | src/molly/core/artifacts.py:173-324 | on any disk, damaged or not, no move of any process replaces or removes a file |
| ArtifactStores.MoveKeeps | src/molly/core/artifacts.py:173-324 | one file operation of any process keeps the disk sound, keeps every earlier answer true and makes only true new ones |
| ArtifactStores.RunKeeps | src/molly/core/artifacts.py:173-324 | under any interleaving and crashes nothing published is changed |
| ArtifactStores.OneRecordForever | src/molly/core/artifacts.py:228-355 | all successful puts and verifies of one id return one record, reads return its bytes, and every refusal is a real conflict |
| ArtifactStores.PutCompletes | src/molly/core/artifacts.py:275-324 | a put left alone completes a half-published artifact from any reachable state, replacing nothing |
| ArtifactStores.VerifyAlone | src/molly/core/artifacts.py:337-355 | on any disk a process that verifies or reads and is left alone returns the record and the bytes if and only if the disk holds the artifact with its own digest and size |
| AcquisitionCaches.AcquisitionCache.Get | src/molly/acquisition/cache.py:337-366 | a hit is a matching pair with the expected binding; none only if neither file exists, partial if exactly one does; on a sound disk a complete entry is returned unless its binding differs |
| AcquisitionCaches.AcquisitionCache.Put | src/molly/acquisition/cache.py:368-426 | put refuses exactly the partial entries, replaces nothing, and an accepted entry is backed by this body; on a sound disk a complete entry is refused for another body or another manifest, and otherwise answered by what is stored |
| AcquisitionCaches.NothingReplaced | src/molly/acquisition/cache.py:290-426 | on any disk, damaged or not, no move of any process replaces or removes a file |
| AcquisitionCaches.HitsMatchOnAnyDisk | src/molly/acquisition/cache.py:337-366 | on any disk a hit is the manifest that was accepted with a body of exactly its digest and size |
| AcquisitionCaches.MoveKeeps | src/molly/acquisition/cache.py:290-426 | each existence test, read and link of any process keeps a body of the bound digest and size behind every manifest |
| AcquisitionCaches.CacheAgrees | src/molly/acquisition/cache.py:337-426 | under any interleaving and crashes hits are matching pairs with the expected binding that agree, accepted puts are backed by their body, and by their binding if the entry was complete when they started, a miss saw neither file, a partial answer saw a body and no manifest, neither is given to an operation started on a complete entry, and every failure shows a real difference on disk |
| AcquisitionCaches.PartialForever | src/molly/acquisition/cache.py:399-400 | a body without manifest stays partial forever once no put of that body is past its tests |
| AcquisitionCaches.CompletedIffInFlight | src/molly/acquisition/cache.py:399-426 | in any reachable state a body without manifest can be completed by any moves at all if and only if some put of that very body is past its tests |
| AcquisitionCaches.PutCompletes | src/molly/acquisition/cache.py:402-426 | such a put completes the entry when it is left alone |
| AcquisitionCaches.StuckIsReachable | src/molly/acquisition/cache.py:399-426 | a run from the empty cache in which one crash between the two links leaves the entry stuck |
| AcquisitionCaches.RacingPutReturnsOther | src/molly/acquisition/cache.py:412-426 | a concrete interleaving in which a put is answered by a manifest with other bindings |
| AcquisitionCaches.LinkDecidesAnswer | src/molly/acquisition/cache.py:425-426 | whatever others do afterwards, a linking put is answered by its own bindings if and only if no other manifest, or an agreeing one, was there at the link |
| AcquisitionCaches.OneBindingAgrees | src/molly/acquisition/cache.py:412-426 | under any interleaving and crashes, as long as all puts of an identity carry one binding, every accepted put is answered by a manifest that agrees with its own in everything but the time |
| ShardScheduler.AssignTestFiles | scripts/select_test_shard.py:48-60 | the loop fails exactly for non-positive shard counts, and otherwise computes the longest-first greedy assignment |
| ShardScheduler.EachFileOnLightest | scripts/select_test_shard.py:54-57 | each file is on the shard that carried least when all heavier files, and those of its weight with smaller paths, were placed, and among equals on the first |
| ShardScheduler.ShardsPartition | scripts/select_test_shard.py:51-57 | each file is in exactly one shard and nothing else is in any |
| ShardScheduler.ShardsSorted | scripts/select_test_shard.py:58-59 | shards are listed in path order without repetition |
| ShardScheduler.TotalsAreSums | scripts/select_test_shard.py:53-57 | each total is the sum of the weights of its shard |
| ShardScheduler.GrahamBound | scripts/select_test_shard.py:54-57 | in any order of jobs the greedy loads stay within 2 - 1/m of any placement |
| ShardScheduler.LargeJobFits | scripts/select_test_shard.py:54-57 | longest first, a job of more than a third of the limit finds room on some shard whenever any placement fits |
| ShardScheduler.LptBound | scripts/select_test_shard.py:54-57 | longest first, every load stays within (4m - 1) / 3m of any placement |
| ShardScheduler.AssignmentWithinFourThirds | scripts/select_test_shard.py:48-60 | three times m times any total is at most 4m - 1 times the makespan of any assignment of the same files |
| RateGate.HostRateGate.Configure | src/molly/acquisition/transport.py:214-226 | a configuration only lowers the rate and only postpones the next slot; after a lowering the next slot is at least one period of the new rate behind the last one |
| RateGate.HostRateGate.TryReserve | src/molly/acquisition/transport.py:253-258 | a slot is granted if and only if the next allowed time is not after the time read; otherwise exactly the time that is missing is returned and nothing changes |
| RateGate.RunSpaced | src/molly/acquisition/transport.py:202-263 | under any interleaving each slot is at least one period of its rate after the one before |
| RateGate.ReservationsSpaced | src/molly/acquisition/transport.py:202-263 | the n-th slot after the k-th is recorded at least n / (rate in force at k) later |
| RateGate.WindowBound | src/molly/acquisition/transport.py:202-263 | a window of recorded time holds at most 1 + window times rate slots |
| RateGate.StaleReadingsTight | src/molly/acquisition/transport.py:249-259 | for every rate and every staleness up to one period there is a schedule in lock order whose two moments are exactly the period less the staleness apart |
| RateGate.MomentsSpaced | src/molly/acquisition/transport.py:249-259 | the moments keep the spacing up to the greatest staleness |
| RateGate.SpacingIffFresh | src/molly/acquisition/transport.py:249-259 | every schedule with readings at most that stale keeps the full spacing of the moments if and only if the staleness is zero |
| TableGrid.Occupy | src/molly/documents/parsers/_xml_common.py:252-257 | the inner loops report an overlap if and only if the span meets an occupied position, and otherwise occupy exactly the span |
| TableGrid.SkipOccupied | src/molly/documents/parsers/_xml_common.py:233-234 | the skipping loop ends at the leftmost free column |
| TableGrid.MakeTable | src/molly/documents/parsers/_xml_common.py:222-279 | the loops place all cells or report the first error, and the coordinates are unique |
| TableGrid.TableRepresents | src/molly/documents/parsers/_xml_common.py:222-279 | a table that is made has one cell per element, in order, with the spans its attributes stand for; all are legal and no more than the limit, and if so only an overlap can refuse it |
| TableGrid.TableIsGrid | src/molly/documents/parsers/_xml_common.py:222-279 | spans are pairwise disjoint and cover exactly the occupied positions, cells strictly increase, each stands as far left as possible, and the check of the canonical table never fires |
| TableGrid.TableIsDetermined | src/molly/documents/parsers/_xml_common.py:222-279 | any cells with the spans of the rows, each as far left as possible, are the cells of the table |
| Sections.NearestAncestor | src/molly/documents/parsers/_common.py:94-101 | the ancestor loop finds the nearest strict ancestor with the tag |
| Sections.MakeSections | src/molly/documents/parsers/_xml_common.py:123-171 | the loop yields the sections with parent and level, or the first error, for any order of visits |
| Sections.SectionsNest | src/molly/documents/parsers/_xml_common.py:123-171 | in document order the guard never fires, parents precede children, and each level is the parent's plus one |
| Sections.FollowParents | src/molly/documents/canonical.py:505-511 | the loop ends, accepts if and only if the chain reaches a root, and a rejection means a real cycle |
| Sections.CheckHierarchy | src/molly/documents/canonical.py:489-511 | the checks accept if and only if ids are unique, parents known and every chain reaches a root |
| Sections.ParserMakesForests | src/molly/documents/parsers/_xml_common.py:123-171 | what the parser makes is accepted by the canonical document |
| DocumentTrees.Placed | src/molly/documents/parsers/_xml_common.py:104-121 | each element of the tree gets one number in the traversal, carries its kind there, and its recorded parent is the number of the element above it |
| DocumentTrees.PreorderIsDocumentOrder | src/molly/documents/parsers/_xml_common.py:104-121 | the traversal of any element tree is in document order, and every element is numbered behind its parent |
| DocumentTrees.NumbersAreDocumentOrder | src/molly/documents/parsers/_xml_common.py:104-121 | the traversal meets every element exactly once: of two elements the one earlier in the document has the smaller number, different elements have different numbers, and every number is that of an element |
| DocumentTrees.DocumentSections | src/molly/documents/parsers/_xml_common.py:123-171 | on any document the guard of the section loop is dead, and the sections nest unless one is too deep |
| StructuralPaths.Paths | src/molly/documents/parsers/_common.py:117-138 | the visit gives every element, and nothing else, its path, unless the tree is too deep |
| StructuralPaths.RootPath | src/molly/documents/parsers/_common.py:117-138 | the path of the root is its name, or document if it has none, with index 1 |
| StructuralPaths.SiblingsDiffer | src/molly/documents/parsers/_common.py:127-134 | siblings have different segments even when their tags agree only after folding |
| StructuralPaths.RenderInjective | src/molly/documents/parsers/_common.py:133-134 | the text of a path determines its segments, for names without a slash |
| StructuralPaths.PathsInjective | src/molly/documents/parsers/_common.py:117-138 | two elements have the same path if and only if they are the same element |
| StructuralPaths.AncestorIsPrefix | src/molly/documents/parsers/_common.py:117-138 | an element is a proper ancestor if and only if its path is a proper segment prefix |
| StructuralPaths.ObjectIdsDistinct | src/molly/documents/canonical.py:100-127 | objects at distinct elements have distinct ids as long as the digest does not collide |
| CanonicalJson.NormalFieldsForm | src/molly/core/ids.py:216-223 | sorting an object's keys gives a strictly sorted list of exactly its fields |
| JsonRoundTrip.TextSurvives | src/molly/core/ids.py:216-223 | a text comes back from its escaped units if and only if it splits no surrogate pair |
| JsonRoundTrip.ValueRead | src/molly/core/ids.py:207-226 | every printed value is read back, whatever follows it |
| JsonRoundTrip.DecodeEncode | src/molly/core/ids.py:207-226 | reading the canonical bytes gives the value with sorted keys if and only if no text splits a pair |
| JsonRoundTrip.NothingMayFollow | src/molly/core/ids.py:207-226 | a document followed by anything that could end it is no document |
| JsonRoundTrip.BytesEqualIffJoinedEqual | src/molly/core/ids.py:207-226 | for all values: equal bytes if and only if the values with sorted keys are equal once every split surrogate pair is read as its code point |
| JsonRoundTrip.BytesDetermineValue | src/molly/core/ids.py:207-226 | among values that split no pair, equal bytes if and only if equal values regardless of key order |
| JsonRoundTrip.SplitPairCollides | src/molly/core/ids.py:216-223 | two different texts with the same bytes |
| JsonRoundTrip.BytesAreOneLine | src/molly/core/ledger.py:221-231 | an encoding is one non-empty line of characters from 0x20 to 0x7E |
| JsonRoundTrip.ShortestEscape | src/molly/core/ids.py:216-223 | no text that is read as a unit is shorter than its escape |
| JsonRoundTrip.IntegerForm | src/molly/core/ids.py:216-223 | an integer has a sign if and only if it is negative, and no leading zeros |
| JsonRoundTrip.RefusedForSensitiveKeys | src/molly/core/ids.py:157-204 | beyond what can be printed, a value is refused if and only if some object at any depth has a credential-like key |
| JsonRoundTrip.TextsEncoded | src/molly/core/ids.py:157-204 | a text is encoded if and only if all its code points are at most 0x10FFFF |
| Validation.DetectLeakage | src/molly/evidence/validation.py:324-350 | the bucket loops report, in key order, the keys whose records have different explicit groups |
| Validation.BucketLeaks | src/molly/evidence/validation.py:340-349 | a bucket is reported if and only if two records of its key have different explicit groups |
| Validation.CheckGroups | src/molly/evidence/validation.py:280-306 | the loop over keys sends every record of a conflicting group to review and gives each record its group |
| Validation.ValidateRecords | src/molly/evidence/validation.py:243-321 | the loops compute the report of the records sorted by id, or fail for repeated ids or too many issues; ReportMeaning says field by field what that report is |
| ReportMeaning.RecordsCarried | src/molly/evidence/validation.py:315-317 | the report carries every input record once, by id, changed in nothing but verdict and group |
| ReportMeaning.VerdictMeans | src/molly/evidence/validation.py:231-297 | a record passes if and only if identity, property, condition and evidence are all there and no two values of its key are further apart than the tolerance, and otherwise goes to review |
| ReportMeaning.IssuesMean | src/molly/evidence/validation.py:231-321 | each of the four codes blocks the report if and only if some record lacks that first, a duplicate conflict if and only if two values of the key disagree, and each leakage if and only if two records of one identity or source are assigned apart |
| ReportMeaning.GroupMeans | src/molly/evidence/validation.py:280-306 | a group goes to review if and only if two values of its key disagree, and classifies its first record and the others accordingly |
| ReportMeaning.FindingsMean | src/molly/evidence/validation.py:259-297 | the findings begin with one per record, with the first thing it lacks, and go on with one per conflicting key in key order |
| Validation.GroupsPartition | src/molly/evidence/validation.py:280-306 | every record is in exactly one group, that of its key |
| Validation.OrderDoesNotMatter | src/molly/evidence/validation.py:243-321 | the report does not depend on the order of the input |
| Validation.PassesIff | src/molly/evidence/validation.py:179-183 | a report passes if and only if all records pass and no key spans two explicit groups |
| Validation.PassingGroupsAgree | src/molly/evidence/validation.py:285-297 | in a passing report two records of one key differ by at most the tolerance |
| DatasetExport.Export | src/molly/evidence/dataset.py:147-171 | rows come out, by id, if and only if the review binds to the bundle and approves it, nothing blocks and all records pass |
| DatasetExport.BuildAccepts | src/molly/evidence/review.py:149-177 | a bundle is built if and only if the report is about these candidates and this mapping and the document is among its documents, and holds what the report holds |
| DatasetExport.GateIffApprovedAndPassing | src/molly/evidence/review.py:149-177 | for a bundle built from a report the gate is exactly approval of a passing report |
| DatasetExport.ExportedRowsAgree | src/molly/evidence/dataset.py:147-171 | two exported rows with equal comparison keys have values within the tolerance |
| DatasetExport.ExportedRowsComplete | src/molly/evidence/dataset.py:147-171 | every exported row stems from a validated record with a resolved identity, a normalized property, a known condition and evidence |

## Left out

- AgentLoops.AgentLoop.Run: two drivers of one run at once, or several live lineage instances on one file, are not modelled, because the code does not serialise them. Of a request, an event and a tool call only the parts that digests bind or that the loop reads are kept; messages, model profiles, metadata texts and the summary of recent events given to the provider are not.
- RunTheorems.ProjectionsAgree: the inspector's verification of artifact bytes and of lineage relations is taken to succeed; lineage sections of its report are not modelled.
- AgentLoops.AgentLoop.Mirror: in the class only the driven run's relations are written, and lineage writers outside the engine appear as relations with ids of their own. Drivers of many runs on one lineage log are the step system of SharedLineage, where the known identities of each process are not modelled.
- JSON Schema checks, tool executors, decision providers and language-model adapters are choices of the environment.
- `INTENT_FROZEN` and `RUN_FAILED` are read by the projections but never appended by the loop.
- HashChain: SHA-256 and the JSON parser are an injective digest and a codec that undoes itself; extra fields of a ledger event are one opaque content. The symlink and path checks of the log, the store and the cache are not modelled.
- AppendLog: fsync ordering after a power failure is not modelled; a written byte stays written. Platforms without `fcntl` are not modelled.
- ArtifactStores: temporary files are invisible; `read_metadata`, `exists` and JSON convenience wrappers are not modelled.
- AcquisitionCaches: the secret-value scan and the field validation of manifests are not modelled.
- RateGate: the sleeping retry loop around the gate, deadlines, provider semaphores, redirects and retries are not modelled; every pass of that loop through the gate is one attempt.
- ShardScheduler: file discovery and the command line are not modelled, and weights are whole numbers as in the source's table.
- Sections: titles and locators are not modelled; which tags are sections or containers is an arbitrary function of the tag.
- StructuralPaths: case folding and namespace stripping are an arbitrary function into names without a slash, which XML names satisfy.
- CanonicalJson: floats are their decimal tokens, the interpreter's limit on the digits of an integer is not modelled, and which keys count as credential-like is an arbitrary predicate.
- Validation: texts of findings, evidence references and digest-sorted list orders are not modelled; floats are real numbers.
- DatasetExport: the CSV and JSON formatting of a row is not modelled; a row is its id, key, value and bundle.
- The web server, command line, exporters, credential store, network byte parsing, PDF and HTML decoding and record copies are not modelled.
