# Verified models of EPGStation's state machines

These Dafny modules model the parts of EPGStation (a recording manager for broadcast television)
in which a small state machine or algorithm carries a promise that is hard to see from its code, and
prove the promise for every input, run or interleaving. `dafny verify dfyconfig.toml` checks them all.

- **The execution lock.** `PriorityOrder` and `StableLock` say what one exclusive lock served by one
  stable priority queue is. `ExecutionManagement` models the class with its two queues, its bounded
  ids, its promises, listeners and timers, and proves that every operation does to the two merged
  queues what the stable lock does. So the order of grants depends neither on the number of ids nor
  on the watchdog, as long as no one unlocks twice: unlocking goes by the id, and ids are used again
  (see below). Branches of the source for a queue head in a wrong state are `assert false` here:
  they cannot be reached.
- **Generations of service children.** `RecordedUse` gives leases and deletion tokens a flat meaning,
  `RecordedUseRegistry` the class with its two indexes. `ProcessReports`, `StagedStop`,
  `TerminationCleanup` and `OutputDeletion` model what happens after a child ended;
  `ServiceGenerations` puts them together with the parent that restarts children.
- **The constant evaluator and the path checks of the fixture scanner.** `ConstantEvaluator` proves
  that cutting cycles neither loses nor invents values, `ConstantMeaning` what each kind of expression
  evaluates to. `PathComponents`, `SubDirectory` and
  `AnchoredPaths` share one meaning of POSIX paths and prove containment.
- **Search options of a rule.** `WhereClause` is the conditions with their three-valued truth
  (section 8.12 of ISO/IEC 9075:1992), `RuleMeaning` what the options ask and why the conditions say
  that, `RuleQuery` the builders that fill one list and one parameter map.
- **Streams.** `Streams`, `BufferedWriteStream`, `BoundedProcessInput`, `TailReading` and `TailStream`: conservation,
  order, bounds and ends, against a downstream or a file that behaves as it likes. `TailReading` holds
  the steps of the tail reader and what every run keeps, `TailStream` the class that does them.
- **The deferred loading indicator.** `DeferredLoading`, in real time.
- **Algorithms.** `DesktopPagination`, `ChannelOrder`, `TransportBits` (the CRC of Annex A and the time
  stamps of section 2.4.3.7 of ISO/IEC 13818-1), `CaptionStream` (section 2.4.4.8) and `PacedChunks`.

Properties that hold only under a condition are proved with the exact condition:

- The minimum hold of the loading indicator holds in every run if and only if the delay is no shorter
  than the minimum duration (`MinimumHeldExactly`); otherwise `CutShort` builds a failing run.
- The hours compared with are the hours meant if and only if `HoursExact` holds of start and range
  (`HoursExactly`); it does for every start from 0 to 23. A condition is well formed if and only if
  keywords have a text to look in and times name a day and a positive range (`FindRule`).
- The lock agrees with the stable lock whatever the number of ids if and only if no event is an unlock
  by a request that has given the lock back while another holds it (`AgreesExactly`). Otherwise, once
  the id is in use again, the unlock takes the lock from its holder (`RepeatedUnlock`). That a duplicate
  unlock transfers nothing, as test/server/reservation-management/lifecycle-diff-concurrency.spec.test.ts:538
  asks, holds only while its id is not in use again.
- When a new child is registered, a lease of an old one remains if and only if the old one's cleanup
  could not be obtained while the lease was there, and no message released it since
  (`LeaseRemainsExactly`).
- An accepted path expression stays under every working directory if and only if every call on its chain
  is bare or qualified by `path` (`InsideExactly`); `ArrayJoinEscapes` is an input that leads outside.
- The bytes pushed by the tail reader are those of the file if and only if no read fell short
  (`PushedIsFileExactly`), because the whole buffer is pushed.
- For a width of one to four buttons `NarrowCovers` says exactly when the page buttons still cover all pages.
- The channel order is the one described if and only if no key that occurs is listed twice.

Where the code and its documentation disagree, the code is modelled: the comment on the anchored path
check asks for `resolve` or `join` bare or qualified by `path`, but the code accepts any qualifier. What
such other calls return is left open in the model. The documentation of the pagination and of the caption
stream agrees with what is proved.

## Model

| member | source | states |
|---|---|---|
| PriorityOrder.SortedUnique | src/model/ExecutionManagementModel.ts:134-152 | the stable order of a set of requests is unique, so an order proved for one queue is the order of any other with the same members |
| PriorityOrder.InsertAt | src/model/ExecutionManagementModel.ts:134-152 | splicing before the first strictly lower priority is stable insertion |
| PriorityOrder.MergeInsertFirst | src/model/ExecutionManagementModel.ts:134-143 | inserting a newcomer in the queue with ids inserts it in the merged queue, when no one waits for an id |
| PriorityOrder.MergeInsertSecond | src/model/ExecutionManagementModel.ts:145-152 | inserting a newcomer in the queue without ids inserts it in the merged queue |
| PriorityOrder.MergePromote | src/model/ExecutionManagementModel.ts:176-188 | giving an id to the first request without one leaves the merged queue as it was |
| PriorityOrder.MergeRemove | src/model/ExecutionManagementModel.ts:166-174 | taking a request out of both queues takes it out of the merged queue |
| PriorityOrder.HeadFirst | src/model/ExecutionManagementModel.ts:190-205 | the head of a stable queue precedes every other request in it |
| StableLock.RunKeeps | src/model/ExecutionManagementModel.ts:62-233 | in every run each request has exactly one fate, pending, granted or expired; a free lock has no one pending; the holder is the latest grant |
| StableLock.GrantIsFirst | src/model/ExecutionManagementModel.ts:190-205 | whatever any step of any run grants precedes every request still pending: higher priority, or the same and earlier |
| StableLock.GrantsShow | src/model/ExecutionManagementModel.ts:190-233 | the history of grants can be read off the successive holders |
| StableLock.PrioritiesAsAsked | src/model/ExecutionManagementModel.ts:62-75 | in every run each pending request and the holder has the priority that its own call asked for, read off the events |
| StableLock.GrantsFirstAsked | src/model/ExecutionManagementModel.ts:134-205 | in every run each grant goes to a call that comes first, by the priorities asked for and then by arrival, of all calls that still wait; stated on the events alone |
| StableLock.TimerExpires | src/model/ExecutionManagementModel.ts:154-164 | the timer of a call that still waits makes it expire |
| StableLock.ExpiredTimedOut | src/model/ExecutionManagementModel.ts:154-164 | only its own timer makes a call expire |
| StableLock.UnlockReleases | src/model/ExecutionManagementModel.ts:77-92 | the unlock of the holder takes the lock from it, and leaves it free only if no call waits |
| ExecutionManagement.ExecutionManagementModel.constructor | src/model/ExecutionManagementModel.ts:33-56 | a new lock is free and stands for the empty stable queue |
| ExecutionManagement.ExecutionManagementModel.IsExecutionIdUsed | src/model/ExecutionManagementModel.ts:125-132 | an id is in use exactly if the owner or a waiting request has it |
| ExecutionManagement.ExecutionManagementModel.AllocateExecutionId | src/model/ExecutionManagementModel.ts:113-123 | succeeds exactly if some id is free, and takes the first free one met going round from the next id |
| ExecutionManagement.TriedCoversAll | src/model/ExecutionManagementModel.ts:113-123 | one round of attempts meets every id |
| ExecutionManagement.TriedClosed | src/model/ExecutionManagementModel.ts:113-123 | the id met at each attempt; after as many attempts as ids the round is back at its start |
| ExecutionManagement.ExecutionManagementModel.InsertByPriority | src/model/ExecutionManagementModel.ts:134-152 | the in-place splice is stable insertion by priority |
| ExecutionManagement.ExecutionManagementModel.EnqueueWaiting | src/model/ExecutionManagementModel.ts:134-143 | a request with an id enters the queue in stable order and starts to listen |
| ExecutionManagement.ExecutionManagementModel.EnqueueAllocating | src/model/ExecutionManagementModel.ts:145-152 | a request without an id enters the other queue in stable order |
| ExecutionManagement.ExecutionManagementModel.PromoteOne | src/model/ExecutionManagementModel.ts:176-188 | a freed id goes to the first request without one, and the merged queue does not change |
| ExecutionManagement.ExecutionManagementModel.AssignAllocationWaiters | src/model/ExecutionManagementModel.ts:176-188 | afterwards either no one waits for an id or every id is in use; the merged queue does not change |
| ExecutionManagement.ExecutionManagementModel.GrantNext | src/model/ExecutionManagementModel.ts:190-205 | a free lock goes to the head of the merged queue, as in the stable lock |
| ExecutionManagement.ExecutionManagementModel.GrantHead | src/model/ExecutionManagementModel.ts:190-233 | the granted request leaves the queue and its listeners, and its caller is told its id |
| ExecutionManagement.ExecutionManagementModel.GetExecution | src/model/ExecutionManagementModel.ts:62-75 | the new request has the priority asked for and the next arrival number, and asking does to the abstract lock exactly what asking a single stable queue does |
| ExecutionManagement.ExecutionManagementModel.UnLockExecution | src/model/ExecutionManagementModel.ts:77-92 | unlocking the owner is unlocking the stable lock; any other id changes no field of the lock or of any request |
| ExecutionManagement.ExecutionManagementModel.OwnerOverdue | src/model/ExecutionManagementModel.ts:207-224 | the watchdog marks only the current owner, which keeps the lock |
| ExecutionManagement.ExecutionManagementModel.RemoveEntryByIdentity | src/model/ExecutionManagementModel.ts:171-174 | removes the request and keeps the order of the others |
| ExecutionManagement.ExecutionManagementModel.Expire | src/model/ExecutionManagementModel.ts:154-164 | a timeout withdraws a pending request from the stable queue and rejects its promise; any other request is left alone |
| ExecutionManagement.ExecutionManagementModel.FreeMeansNoOneWaits | src/model/ExecutionManagementModel.ts:190-205 | a free lock implies that both queues are empty |
| ExecutionManagement.ExecutionManagementModel.IdsAndListeners | src/model/ExecutionManagementModel.ts:113-152 | ids of waiters and owner differ, listeners are exactly the waiting requests, and if anyone waits for an id all ids are in use |
| ExecutionManagement.ExecutionManagementModel.SettledOnce | src/model/ExecutionManagementModel.ts:154-164 | a promise settles at most once, resolved exactly if granted and rejected exactly if expired; at most one request is granted or overdue |
| ExecutionManagement.ExecutionManagementModel.PendingByPhase | src/model/ExecutionManagementModel.ts:94-111 | a request is pending in the stable lock exactly while it is allocating or waiting |
| ExecutionManagement.Replay | src/model/ExecutionManagementModel.ts:62-233 | for every number of ids, every watchdog setting and every interleaving, each caller unlocking with the id it was told: the grants are those of the stable queue for the events that took effect, which are the given ones but that an unlock by a request that has given the lock back may, and with a single id does, unlock the present holder instead; the calls keep their order and the priorities they asked for |
| ExecutionManagement.RepeatedUnlock | src/model/ExecutionManagementModel.ts:77-92 | the failing run: with one id, a repeated unlock by the first request takes the lock from the second, so a third is granted that the stable lock keeps waiting |
| ExecutionManagement.UnlockByCaller | src/model/ExecutionManagementModel.ts:77-92 | an unlock with the told id frees the lock if the id is the present one, whoever holds it, and else changes nothing |
| StableLock.AgreesExactly | src/model/ExecutionManagementModel.ts:77-92 | whatever the number of ids the lock agrees with the stable lock after every event, exactly if no event is an unlock by a request that has given the lock back while another holds it; with a single id, exactly then |
| StableLock.StaleDiffers | src/model/ExecutionManagementModel.ts:77-92 | taking the lock from its holder is never what the stable lock does |
| RecordedUse.ApplyKeepsExclusive | src/model/ServiceChildRecordedUseRegistry.ts:48-177 | no operation leaves a recording with both a lease and a deletion token |
| RecordedUse.ReleaseTwice | src/model/ServiceChildRecordedUseRegistry.ts:77-105 | a repeated release is a no-op that reports itself |
| RecordedUse.StaleTokenReleasesNothing | src/model/ServiceChildRecordedUseRegistry.ts:119-138 | an old or repeated token never releases the token that replaced it |
| RecordedUse.AcquireExactly | src/model/ServiceChildRecordedUseRegistry.ts:48-75 | a lease is granted exactly for a request of the served child, under an id none of its leases has, for encoding or delivery, on a recording without a token; blocked exactly if only the token stands against it; and then only that lease is added |
| RecordedUse.ReleaseExactly | src/model/ServiceChildRecordedUseRegistry.ts:77-105 | which releases end a lease, repeat the last one or are unknown, and that exactly the leases of that child with that id end |
| RecordedUse.ReleasePeerExactly | src/model/ServiceChildRecordedUseRegistry.ts:107-117 | exactly the leases of the child end |
| RecordedUse.TerminateExactly | src/model/ServiceChildRecordedUseRegistry.ts:169-177 | the leases of a child that ended become unknown and stay, and it is served no more; heard once |
| RecordedUse.RegisterExactly | src/model/ServiceChildRecordedUseRegistry.ts:37-46 | the new child is served; its end is listened for once, if it can be heard |
| RecordedUse.DeletionExactly | src/model/ServiceChildRecordedUseRegistry.ts:119-132 | a token is granted exactly if a child is served and neither a lease nor a token is on the recording; unknown exactly without a child or with the lease of one that ended |
| RecordedUseRegistry.ServiceChildRecordedUseRegistry.constructor | src/model/ServiceChildRecordedUseRegistry.ts:24-36 | both indexes start empty |
| RecordedUseRegistry.ServiceChildRecordedUseRegistry.RegisterPeer | src/model/ServiceChildRecordedUseRegistry.ts:37-46 | the two indexes describe the flat set after registering a child |
| RecordedUseRegistry.ServiceChildRecordedUseRegistry.Acquire | src/model/ServiceChildRecordedUseRegistry.ts:48-75 | status and new set of leases as for the flat set, under every refusal |
| RecordedUseRegistry.ServiceChildRecordedUseRegistry.Release | src/model/ServiceChildRecordedUseRegistry.ts:77-105 | status and new set of leases as for the flat set; no empty set stays in the index |
| RecordedUseRegistry.ServiceChildRecordedUseRegistry.ReleasePeer | src/model/ServiceChildRecordedUseRegistry.ts:107-117 | every lease of the child goes from both indexes |
| RecordedUseRegistry.ServiceChildRecordedUseRegistry.HandlePeerTerminal | src/model/ServiceChildRecordedUseRegistry.ts:169-177 | the leases of an ended child become unknown ones, and stay leases |
| RecordedUseRegistry.ServiceChildRecordedUseRegistry.TryAcquireDeletion | src/model/ServiceChildRecordedUseRegistry.ts:119-132 | granted exactly for a recording that is neither leased nor being deleted, with the reason otherwise |
| RecordedUseRegistry.ServiceChildRecordedUseRegistry.ReleaseDeletion | src/model/ServiceChildRecordedUseRegistry.ts:134-138 | releases exactly the recording the token was granted for |
| ProcessReports.PutMembers | src/model/ServiceChildProcessRegistry.ts:106-131 | a later report of a pid replaces the earlier one |
| ProcessReports.PutPlaces | src/model/ServiceChildProcessRegistry.ts:106-131 | a known pid keeps its place and a new one comes last; nothing else moves |
| ProcessReports.NewsExactly | src/model/ServiceChildProcessRegistry.ts:106-152 | which started messages become entries, with which identity, stream id 0 included, and which ended messages count |
| ProcessReports.EntriesExactly | src/model/ServiceChildProcessRegistry.ts:106-131 | an entry is held exactly if some report announced it and no later report says anything about its pid |
| ProcessReports.DropMembers | src/model/ServiceChildProcessRegistry.ts:106-131 | an end report removes exactly that pid |
| ProcessReports.DropPlaces | src/model/ServiceChildProcessRegistry.ts:106-131 | the other entries close up in their order |
| ProcessReports.ServiceChildProcessRegistry.RegisterPeer | src/model/ServiceChildProcessRegistry.ts:65-88 | observing starts once, with nothing reported |
| ProcessReports.ServiceChildProcessRegistry.HandleMessage | src/model/ServiceChildProcessRegistry.ts:106-131 | the entries always reflect the log of reports: each pid whose latest report is a start, with the identity read then |
| ProcessReports.ServiceChildProcessRegistry.TakeEntries | src/model/ServiceChildProcessRegistry.ts:90-104 | hands over exactly what the reports say and forgets the child |
| StagedStop.StopInStages | src/model/service/encode/EncodeProcessManageModel.ts:56-73 | a process was running unless the first check answered false; an exit is confirmed exactly if one of the checks made answered false, never if it could not be made; it stops at the first such answer, and otherwise makes one check and three for each signal |
| StagedStop.PollUntilExit | src/model/service/encode/EncodeProcessManageModel.ts:75-91 | at most three checks after each signal |
| TerminationCleanup.RunKeeps | src/model/ServiceChildTerminationCleanup.ts:71-126 | an invariant of every interleaving of the cap timer with the steps of the cleanup |
| TerminationCleanup.StepKeeps | src/model/ServiceChildTerminationCleanup.ts:103-132 | every single step keeps it |
| TerminationCleanup.NothingBeginsAfterCancellation | src/model/ServiceChildTerminationCleanup.ts:214-244 | once the run is over, no removal of an output and no HLS deletion begins |
| TerminationCleanup.EndOfRun | src/model/ServiceChildTerminationCleanup.ts:71-126 | leases are released exactly once, at the end; a run that ended by neither cap nor failure saw each process absent, a zombie, without live members or with another start time; each removed path is the output named by the first record stored for an encode that ran when it was stopped, strictly under its parent directory and no registered file |
| TerminationCleanup.DoneCompletes | src/model/ServiceChildTerminationCleanup.ts:103-126 | a run that ended by neither cap nor failure began the HLS deletion, and decided on the output of every encode that ran, removing exactly the deletable ones |
| TerminationCleanup.RecordsWereRead | src/model/ServiceChildTerminationCleanup.ts:214-228 | in every run outputs are decided on by the records that some event of the run read |
| TerminationCleanup.OutcomeExactly | src/model/ServiceChildTerminationCleanup.ts:134-155 | what the seven checks of an HLS process, or the four of another, say of it |
| TerminationCleanup.CancelledStays | src/model/ServiceChildTerminationCleanup.ts:71-101 | only the end of the run cancels, and only that step releases the leases |
| TerminationCleanup.EntriesAreTakenOnce | src/model/ServiceChildTerminationCleanup.ts:103-118 | the processes are taken once and then fixed |
| TerminationCleanup.GoneExactly | src/model/ServiceChildTerminationCleanup.ts:165-188 | a check answers false exactly if it saw another start time, or no such process, or no live member; a failed check never does |
| TerminationCleanup.OutcomeShows | src/model/ServiceChildTerminationCleanup.ts:134-155 | a process counts as stopped, or as not running, only if some check saw it gone |
| TerminationCleanup.EvidenceFromEvents | src/model/ServiceChildTerminationCleanup.ts:103-126 | all that counts as seen was seen by a check of the run, and every removal was decided on a reading of the run |
| OutputDeletion.IsDeletableOutput | src/model/ServiceChildTerminationCleanup.ts:251-289 | deletable exactly if the source is still registered, no registered file is the output, and it lies strictly under the parent directory |
| SubDirectory.InsideParentExactly | src/model/ServiceChildTerminationCleanup.ts:291-295 | the relative-path test accepts exactly the paths strictly under the parent whose first name there does not begin with two dots |
| ServiceGenerations.RunKeeps | src/index.ts:110-189 | an invariant of the parent, its children, registry, reports and cleanups in every run |
| ServiceGenerations.PhaseMoves | src/index.ts:110-189 | every step: a child is served until it exits or fails, unless its channel was closed before; it is cleaned up after until the cleanup ends or cannot be had; only then comes the next child |
| ServiceGenerations.CapBringsNextChild | src/index.ts:124-150 | whatever a cleanup is doing, once the cap has passed it ends, the leases of its child are gone and the next child is served |
| ServiceGenerations.ChannelMoves | src/model/ServiceChildProcessRegistry.ts:65-104 | reports are kept in their order until the channel closes or the processes are taken; ending alone does not stop them |
| ServiceGenerations.LeaseLeaves | src/model/ServiceChildRecordedUseRegistry.ts:77-117 | a step that ends a lease is its own release, or the end of the cleanup of its ended child |
| ServiceGenerations.LeaseEndsBetween | src/model/ServiceChildRecordedUseRegistry.ts:77-117 | a lease gone between two moments of a run was ended by such a step in between |
| ServiceGenerations.DeletionWaitsForLeases | src/model/ServiceChildRecordedUseRegistry.ts:119-132 | a token for a recording once leased is granted only after that lease was ended by its message, or by a cleanup that saw the processes gone, failed or met the cap |
| ServiceGenerations.DeletionNeedsServedChild | src/model/ServiceChildRecordedUseRegistry.ts:119-132 | tokens are granted only while a child is served |
| ServiceGenerations.NewChildFindsNoLease | src/index.ts:124-150 | when a new child is registered no lease of an earlier generation remains, provided no cleanup was unavailable |
| ServiceGenerations.RunKeepsExclusive | src/model/ServiceChildRecordedUseRegistry.ts:48-138 | in every run no recording is leased and being deleted at once |
| ServiceGenerations.StepIsOperation | src/index.ts:110-189 | each event of the whole system amounts to at most one operation of the registry |
| ServiceGenerations.LeaseRemainsExactly | src/index.ts:139-150 | when a new child is registered a lease remains exactly if the cleanup of its ended child could not be obtained while the lease was there, and no message released it since |
| ServiceGenerations.OutlivingStays | src/index.ts:139-150 | nothing but its own message ends such a lease |
| ServiceGenerations.SkippedCleanupLeavesLease | src/index.ts:139-150 | such a run: the next child is served while an old lease stays, and deletions of the recording are refused |
| ConstantEvaluator.EvaluatorIsExact | tools/eslint-fixture-scan.ts:418-476 | on any table, cyclic or not, the evaluator returns a value exactly if plain unguarded recursion ends with it |
| ConstantEvaluator.Sound | tools/eslint-fixture-scan.ts:418-476 | what the guarded evaluator finds, plain evaluation finds within as many names as are unvisited |
| ConstantEvaluator.Complete | tools/eslint-fixture-scan.ts:418-476 | what plain evaluation finds at some depth, the guarded evaluator finds |
| ConstantEvaluator.CompleteName | tools/eslint-fixture-scan.ts:465-476 | a name whose evaluation ends is not met again below itself |
| ConstantEvaluator.FollowingUsesUp | tools/eslint-fixture-scan.ts:465-476 | following a name uses up one unvisited constant, which is why evaluation ends |
| ConstantEvaluator.SourceLiteral | tools/eslint-fixture-scan.ts:418-463 | the recursive function returns the evaluator value; with an empty set it is exact |
| ConstantEvaluator.SourceArrayLiteral | tools/eslint-fixture-scan.ts:478-495 | the loop over elements yields all the values or none |
| ConstantEvaluator.SourceObjectLiteral | tools/eslint-fixture-scan.ts:497-511 | the loop over properties yields all the entries, a later one winning, or none |
| ConstantEvaluator.SourcePropertyLiteral | tools/eslint-fixture-scan.ts:515-534 | shorthand, fixed and computed names, each resolved or refused |
| ConstantEvaluator.SourceConstants | tools/eslint-fixture-scan.ts:536-561 | exactly the names declared once, each with its own initializer |
| ConstantMeaning.LiteralLaws | tools/eslint-fixture-scan.ts:430-453 | every literal evaluates to itself, and to nothing else |
| ConstantMeaning.SignLaws | tools/eslint-fixture-scan.ts:437-444 | a plus keeps the value of a number and a minus makes it negative; nothing else takes a sign |
| ConstantMeaning.WrapperLaws | tools/eslint-fixture-scan.ts:423-425 | brackets and type assertions change nothing |
| ConstantMeaning.CallLaws | tools/eslint-fixture-scan.ts:426-429 | of all calls only freezing one object has a value, that of the object |
| ConstantMeaning.NameLaw | tools/eslint-fixture-scan.ts:465-476 | a name evaluates to what the initializer of its constant does |
| ConstantMeaning.ArrayLaw | tools/eslint-fixture-scan.ts:478-495 | an array evaluates item by item, and a spread or omitted element has no value |
| ConstantMeaning.ObjectLaw | tools/eslint-fixture-scan.ts:497-534 | an object evaluates property by property, each name having the last of its values |
| AnchoredPaths.InsideExactly | tools/eslint-fixture-scan.ts:709-766 | an accepted call stays at or under every working directory, through any chain of constants and whatever calls of other objects return, exactly if every call on its chain is bare or qualified by path |
| AnchoredPaths.AnchoredStaysInside | tools/eslint-fixture-scan.ts:709-766 | with such calls only, an accepted expression evaluates, and to one path, at or under the working directory |
| AnchoredPaths.ForeignLeads | tools/eslint-fixture-scan.ts:709-766 | with any other call on the chain, some meaning of it leads outside |
| AnchoredPaths.ArrayJoinEscapes | tools/eslint-fixture-scan.ts:744-766 | the failing input: joining an array of two texts with the working directory is accepted and leads outside |
| AnchoredPaths.AcceptedExactly | tools/eslint-fixture-scan.ts:709-766 | cutting cycles rejects nothing: accepted exactly if it is a path call from which following names leads to the working directory |
| AnchoredPaths.AnchoredExactly | tools/eslint-fixture-scan.ts:709-732 | the same for the first argument |
| AnchoredPaths.AnchoredLaws | tools/eslint-fixture-scan.ts:696-766 | anchored is the working directory, a constant that is, and a call that resolves or joins an anchored first argument with at least one relative text; nothing else |
| AnchoredPaths.SegmentExactly | tools/eslint-fixture-scan.ts:734-742 | a segment is accepted exactly if it begins with neither a separator nor a drive and nowhere has two dots alone between separators |
| AnchoredPaths.NamesAreAccepted | tools/eslint-fixture-scan.ts:734-742 | names without separators, none of them two dots, joined by slashes are accepted, unless the first is empty or a drive |
| AnchoredPaths.CallEndsWithin | tools/eslint-fixture-scan.ts:744-766 | an accepted call of the path module stays under whatever its first argument stands for |
| AnchoredPaths.BaseEndsWithin | tools/eslint-fixture-scan.ts:709-732 | whatever is accepted evaluates to a path at or under the one that the end of its chain stands for |
| AnchoredPaths.RelativeGoesDown | tools/eslint-fixture-scan.ts:734-742 | a segment accepted as relative never leads up, whichever separator it is cut at |
| AnchoredPaths.CombinedStays | tools/eslint-fixture-scan.ts:744-766 | joining and resolving accepted segments stays at or under the base |
| AnchoredPaths.SamePath | tools/eslint-fixture-scan.ts:709-766 | an expression evaluates to the same path however many names may be followed |
| SubDirectory.InsideRootExactly | src/util/SubDirectoryUtil.ts:31-45 | a directory without NUL is accepted exactly if joining it to any absolute base stays at or under the base |
| SubDirectory.AcceptedStaysInside | src/util/SubDirectoryUtil.ts:31-45 | an accepted directory joined to any absolute base stays at or under it |
| SubDirectory.RejectedEscapes | src/util/SubDirectoryUtil.ts:31-45 | a rejected directory without NUL leaves some absolute base |
| SubDirectory.NormalFormShowsUps | src/util/SubDirectoryUtil.ts:40-45 | the normal form begins with an upward step exactly if the resolved path goes up |
| SubDirectory.StrippedWalks | src/util/SubDirectoryUtil.ts:19-22 | stripping leading separators does not change where the path leads |
| SubDirectory.JoinResolves | src/util/SubDirectoryUtil.ts:31-45 | joining goes up as far as the resolved form says and then down |
| PathComponents.WalkIsResolve | src/util/SubDirectoryUtil.ts:40-45 | resolving first and walking then reaches the same place as walking piece by piece |
| PathComponents.SplitJoin | src/util/SubDirectoryUtil.ts:40-45 | splitting undoes joining for names without separators |
| PathComponents.OneMoreName | src/util/SubDirectoryUtil.ts:40-45 | one more name after a slash stays for an empty name or a dot, goes up for two dots, though not above the root, and otherwise down |
| PathComponents.SplitConcat | src/util/SubDirectoryUtil.ts:40-45 | splitting two paths joined by a separator splits each |
| PathComponents.WalkWithoutUps | tools/eslint-fixture-scan.ts:734-742 | without an upward step a walk only goes deeper |
| RuleQuery.FindRule | src/model/db/ProgramDB.ts:457-487 | the condition is absent exactly if there is no option, well formed exactly for legal options, and then true under three-valued logic for exactly the programs that meet the options |
| RuleMeaning.ConditionsTruth | src/model/db/ProgramDB.ts:457-487 | the same for the list of conditions, given the parameters |
| RuleMeaning.KeywordTruth | src/model/db/ProgramDB.ts:549-627 | a keyword condition is never unknown, and true exactly if a searched text matches; well formed exactly if some text is searched |
| RuleMeaning.KeywordPartTruth | src/model/db/ProgramDB.ts:519-539 | so neither is its negation: an ignored keyword selects exactly the programs that do not match |
| RuleMeaning.FieldTruth | src/model/db/ProgramDB.ts:549-627 | the condition for one text, present or absent in the program |
| RuleMeaning.Words | src/model/db/ProgramDB.ts:586 | a keyword is cut into words without spaces that give it back when joined by single spaces |
| RuleMeaning.SplitsOnce | src/model/db/ProgramDB.ts:586 | there is only one such cut, so it is what a keyword search asks for |
| RuleMeaning.EffectiveMeets | src/model/db/ProgramDB.ts:635-653 | case and regular expressions count as asked for only where the database has them; stated on the flags and texts themselves |
| RuleMeaning.ChannelTruth | src/model/db/ProgramDB.ts:659-692 | channel ids, else the channel types whose flags are set |
| RuleMeaning.NetworkTypes | src/model/db/ProgramDB.ts:682-688 | the numbered channel types go from 1 to 40 |
| RuleMeaning.GenresTruth | src/model/db/ProgramDB.ts:699-740 | some listed genre, with its sub genre if given, stands in one of the three places |
| RuleMeaning.TimesTruth | src/model/db/ProgramDB.ts:747-811 | some listed entry has the weekday and the hour, for hour ranges that are exact; well formed exactly if some entry names a day and each such range is positive |
| RuleMeaning.DayIsBit | src/model/db/ProgramDB.ts:755-776 | day 0 goes by the lowest bit of the week mask and each next day by the next bit; no day after the sixth is named |
| RuleMeaning.HoursExactly | src/model/db/ProgramDB.ts:789-805 | the hours compared with are the hours from start on, modulo 24, exactly under a condition on start and range; it holds for every start from 0 to 23 |
| RuleMeaning.ListedHourMeets | src/model/db/ProgramDB.ts:789-805 | hour h is listed exactly if (h - start) mod 24 < range |
| RuleMeaning.MissedHour | src/model/db/ProgramDB.ts:789-805 | for a range that is not exact, an hour that is meant and not listed |
| RuleMeaning.PeriodsTruth | src/model/db/ProgramDB.ts:863-879 | the start lies in some listed period |
| RuleMeaning.LimitTruth | src/model/db/ProgramDB.ts:833-856 | duration limits in seconds compared in milliseconds |
| RuleMeaning.FreeTruth | src/model/db/ProgramDB.ts:818-826 | free broadcasts only, if asked for |
| WhereClause.IndexedReadsBack | src/model/db/ProgramDB.ts:699-879 | base and index can be read back from a parameter name, so different ones never collide |
| RuleQuery.SetKeywordQuery | src/model/db/ProgramDB.ts:519-539 | adds the keyword conditions and binds their parameters, overwriting none |
| RuleQuery.SetKeywordOption | src/model/db/ProgramDB.ts:549-627 | adds one keyword condition, regular expression or words, plain or negated |
| RuleQuery.SetChannelQuery | src/model/db/ProgramDB.ts:659-692 | adds the channel condition, or none |
| RuleQuery.ChannelTypes | src/model/db/ProgramDB.ts:664-690 | collects exactly the known types whose flags are set |
| RuleQuery.SetInQuery | src/model/db/ProgramDB.ts:887-894 | an empty list adds nothing |
| RuleQuery.SetGenresQuery | src/model/db/ProgramDB.ts:699-740 | adds the genre condition and binds its parameters, overwriting none |
| RuleQuery.SetTimesQuery | src/model/db/ProgramDB.ts:747-811 | adds the time condition, skipping entries without a weekday |
| RuleQuery.Weekdays | src/model/db/ProgramDB.ts:755-776 | exactly the days whose bits are set |
| RuleQuery.Hours | src/model/db/ProgramDB.ts:798-801 | exactly the remainders of the hours of the range |
| RuleQuery.SetFreeQuery | src/model/db/ProgramDB.ts:818-826 | adds the condition and binds its parameter, if asked for |
| RuleQuery.SetDurationMinQuery | src/model/db/ProgramDB.ts:833-841 | adds the lower limit, if given |
| RuleQuery.SetDurationMaxQuery | src/model/db/ProgramDB.ts:848-856 | adds the upper limit, if given |
| RuleQuery.SetSearchPeriodsQuery | src/model/db/ProgramDB.ts:863-879 | adds the period condition and binds two parameters for each period |
| RuleQuery.GroupsApart | src/model/db/ProgramDB.ts:457-487 | the parameter names of different options never coincide |
| RuleQuery.SetQueries | src/model/db/ProgramDB.ts:457-474 | together the builders yield all the conditions and all their parameters, none overwritten |
| BufferedWriteStream.Record | src/lib/BufferedWriteStream.ts:45-225 | in any run received chunks split in order into settled ones, each with one fate, and buffered ones; what was written is what has that fate; the end comes only with nothing buffered; if all was written, it is all that was received; a connected stream that was served holds chunks only while its last write is refused |
| BufferedWriteStream.BytesConserved | src/lib/BufferedWriteStream.ts:61-225 | every byte received was written, dropped or discarded once, or is still buffered |
| BufferedWriteStream.NothingLost | src/lib/BufferedWriteStream.ts:123-149 | with no drop, written and buffered chunks are the received ones in order |
| BufferedWriteStream.ExcessIsLeast | src/lib/BufferedWriteStream.ts:175-194 | as few of the oldest chunks as possible are dropped, and never the newest |
| BufferedWriteStream.SurplusBounds | src/lib/BufferedWriteStream.ts:86-118 | below the maximum nothing is dropped, from there on as little as brings it to nine tenths; then the buffer fits, or holds the newest chunk alone |
| BufferedWriteStream.BufferedWriteStream.SetWriteStream | src/lib/BufferedWriteStream.ts:45-56 | connecting changes nothing that was received |
| BufferedWriteStream.BufferedWriteStream.Write | src/lib/BufferedWriteStream.ts:61-74 | first drops, then writes, the newest never among the dropped; what stays is at most the larger of the maximum and the newest chunk |
| BufferedWriteStream.BufferedWriteStream.FlushBuffer | src/lib/BufferedWriteStream.ts:123-149 | writes in order until refused; a refused chunk counts as written; nothing is written while a drain is pending |
| BufferedWriteStream.BufferedWriteStream.DropOldestChunks | src/lib/BufferedWriteStream.ts:175-194 | drops exactly the least number needed |
| BufferedWriteStream.BufferedWriteStream.OnDrain | src/lib/BufferedWriteStream.ts:48-51 | resumes writing until everything is written or a write is refused, and ends a stream that waits for its end once nothing is pending |
| BufferedWriteStream.BufferedWriteStream.TryFinish | src/lib/BufferedWriteStream.ts:151-170 | ends exactly if nothing is buffered and no drain is pending |
| BufferedWriteStream.BufferedWriteStream.Final | src/lib/BufferedWriteStream.ts:79-81 | the end is reached at once or left to a drain |
| BufferedWriteStream.BufferedWriteStream.Destroy | src/lib/BufferedWriteStream.ts:220-226 | discards what is buffered and lets go of the stream |
| BoundedProcessInput.Feed | src/lib/BoundedProcessInput.ts:9-112 | in any run the child gets a beginning of what was handed over; the queue is within the limit and holds chunks only while the last write is refused; an end comes with everything written; failure is reported at most once, never with an end |
| BoundedProcessInput.BoundedProcessInput.constructor | src/lib/BoundedProcessInput.ts:19-25 | starts idle and empty |
| BoundedProcessInput.BoundedProcessInput.Write | src/lib/BoundedProcessInput.ts:27-42 | straight to an idle child, else queued; given up exactly if the limit is exceeded |
| BoundedProcessInput.BoundedProcessInput.End | src/lib/BoundedProcessInput.ts:44-51 | ended at once exactly if nothing is held back |
| BoundedProcessInput.BoundedProcessInput.Destroy | src/lib/BoundedProcessInput.ts:53-63 | no failure is reported |
| BoundedProcessInput.BoundedProcessInput.OnDrain | src/lib/BoundedProcessInput.ts:65-80 | sends queued chunks in order until refused; ends exactly if an end was asked for and all was taken |
| BoundedProcessInput.BoundedProcessInput.OnInputError | src/lib/BoundedProcessInput.ts:82-84 | reported once, and not after the input is over |
| BoundedProcessInput.BoundedProcessInput.EndWhenDrained | src/lib/BoundedProcessInput.ts:86-94 | ends exactly if asked for with nothing held back |
| BoundedProcessInput.BoundedProcessInput.Fail | src/lib/BoundedProcessInput.ts:96-107 | destroys the input and reports once |
| TailReading.PushedIsFileExactly | src/lib/TailStream.ts:85-157 | for a file at least as long as the start, in any run: the bytes pushed are the file from the start to the position exactly if no read that brought something fell short |
| TailReading.PushedExactly | src/lib/TailStream.ts:85-157 | for any file: exactly if, besides, none was made from the beginning of a file found shorter than the position |
| TailReading.EndsAtPosition | src/lib/TailStream.ts:159-181 | with full reads of such a file, the stream ends only when the file is checked to be as long as the position, and all from the start on is pushed |
| TailReading.OnlyChecksEnd | src/lib/TailStream.ts:165-227 | a stream ends exactly by a check that finds the size unchanged |
| TailReading.CloseIsLast | src/lib/TailStream.ts:54-261 | in any run no file system call follows the closing of a descriptor, at most one descriptor is opened, and a closed stream has closed it |
| TailReading.RunKeeps | src/lib/TailStream.ts:54-239 | in any run at most one size check or read is under way, and a read that is waited for has something under way that will answer it |
| TailReading.ClosedExactly | src/lib/TailStream.ts:54-239 | in any run the stream is closed exactly if it was closed from outside, or a size or read of the open stream came with an error, or a check found the size unchanged; so never because the file grew |
| TailReading.CheckedDoes | src/lib/TailStream.ts:165-178 | a check that finds another size asks for the size again; one that finds the same size ends the stream |
| TailReading.OpenedDoes | src/lib/TailStream.ts:60-82 | a descriptor is used at once if a read waits, and closed at once if it comes too late; a failed opening is tried again later |
| TailReading.SizedDoes | src/lib/TailStream.ts:91-121 | asks for what is there up to what is wanted, from the position, or from the beginning of a shorter file, or checks later |
| TailReading.BytesDo | src/lib/TailStream.ts:123-155 | bytes are pushed and move the position behind them; none leads to a check; a further demand asks for the size |
| TailReading.CheckDueDoes | src/lib/TailStream.ts:159-165 | the timer looks for the size of the file |
| TailReading.PullDoes | src/lib/TailStream.ts:193-215 | a demand counts if none is waiting, and opens the file or asks for its size |
| TailReading.RetryDoes | src/lib/TailStream.ts:54-82 | trying again opens the file |
| TailStream.Tail | src/lib/TailStream.ts:36-261 | the class plays every run as the steps say |
| TailStream.TailStream.OnOpen | src/lib/TailStream.ts:60-74 | the callback of opening does its step |
| TailStream.TailStream.DoRead | src/lib/TailStream.ts:85-91 | asks for the size only if open, wanted and not under way |
| TailStream.TailStream.OnFstat | src/lib/TailStream.ts:91-121 | the callback with the size does its step |
| TailStream.TailStream.OnRead | src/lib/TailStream.ts:123-155 | the callback with the bytes does its step: the whole buffer is pushed |
| TailStream.TailStream.OnStat | src/lib/TailStream.ts:165-178 | the callback of the check does its step |
| TailStream.TailStream.Read | src/lib/TailStream.ts:193-215 | a demand does its step |
| TailStream.TailStream.Dispose | src/lib/TailStream.ts:229-239 | disposing does its step |
| TailStream.TailStream.CloseFileDescriptor | src/lib/TailStream.ts:256-261 | a descriptor is closed once |
| DeferredLoading.MinimumHeldExactly | client/src/shared/useDeferredLoading.ts:86-133 | every visible interval lasts the minimum duration in every run exactly if the delay is no shorter than it |
| DeferredLoading.AppearsAfterDelay | client/src/shared/useDeferredLoading.ts:87-108 | in every run the indicator appears only after loading went on for the whole delay without a break |
| DeferredLoading.DisappearsInTime | client/src/shared/useDeferredLoading.ts:110-125 | in every run it is off once loading has been over for the minimum duration and no timer is late |
| DeferredLoading.AppearsInTime | client/src/shared/useDeferredLoading.ts:87-108 | in every run it is on once loading has gone on for longer than the delay and no timer is late |
| DeferredLoading.UnmountClears | client/src/shared/useDeferredLoading.ts:127-134 | with a delay no shorter, unmounting leaves no timer running |
| DeferredLoading.NeverFlickers | client/src/shared/useDeferredLoading.ts:86-133 | with a delay no shorter, no run ends a visible interval early |
| DeferredLoading.CutShort | client/src/shared/useDeferredLoading.ts:86-133 | with a shorter delay, a run in which the timer of an earlier interval ends a later one early |
| DeferredLoading.RunKeeps | client/src/shared/useDeferredLoading.ts:86-133 | what every run keeps, whatever the options |
| DeferredLoading.RunKeepsStrong | client/src/shared/useDeferredLoading.ts:86-133 | what every run keeps besides, with a delay no shorter |
| DeferredLoading.Hook.SetLoading | client/src/shared/useDeferredLoading.ts:87-125 | the effect with its cleanup does the step of the state machine |
| DeferredLoading.Hook.OnTimer | client/src/shared/useDeferredLoading.ts:91-106 | the timer callbacks do theirs |
| DeferredLoading.Hook.OnUnmount | client/src/shared/useDeferredLoading.ts:127-134 | the cleanup of both effects on unmounting |
| DesktopPagination.ItemsCover | client/src/shared/legacyPaginationDesktop.ts:57-108 | without a narrow width: exactly as many items as fit, pages in order with the current one, every ellipsis hiding at least two pages, and clamp and collapse changing nothing |
| DesktopPagination.HowMany | client/src/shared/legacyPaginationDesktop.ts:57-73 | as many items as pages, but no more than twelve or than the width allows |
| DesktopPagination.ShowsExactly | client/src/shared/legacyPaginationDesktop.ts:74-104 | exactly which pages are shown: a window around the current page, or both ends |
| DesktopPagination.ItemsBounded | client/src/shared/legacyPaginationDesktop.ts:57-108 | for every width the items start with 1, end with the last page and have no two ellipses together |
| DesktopPagination.RangesStartInside | client/src/shared/legacyPaginationDesktop.ts:22-38 | for all numbers every range starts at page 1 or later, so the clamp of the original helper is not needed |
| DesktopPagination.NarrowCoverExactly | client/src/shared/legacyPaginationDesktop.ts:45-56 | for a width of one to four buttons, exactly for which counts and pages the items still cover every page with the current one among them |
| DesktopPagination.LayoutCovers | client/src/shared/legacyPaginationDesktop.ts:74-104 | the four layouts before the collapse |
| DesktopPagination.CollapseShape | client/src/shared/legacyPaginationDesktop.ts:107 | collapsing keeps both ends and leaves no two ellipses together |
| DesktopPagination.CollapseKeeps | client/src/shared/legacyPaginationDesktop.ts:107 | collapsing changes nothing where no two stand together |
| DesktopPagination.ComputeDesktopPaginationItems | client/src/shared/legacyPaginationDesktop.ts:57-108 | the case analysis computes these items |
| DesktopPagination.DesktopPaginationRange | client/src/shared/legacyPaginationDesktop.ts:30-38 | the pages from one to another |
| TransportBits.ResidueIsZero | client/e2e/support/syntheticCaptionStream.ts:32-41 | data followed by its own code leaves the register at zero |
| TransportBits.OneByteIsNoticed | client/e2e/support/syntheticCaptionStream.ts:32-41 | data that differ in one byte have different codes |
| TransportBits.CheckValue | client/e2e/support/syntheticCaptionStream.ts:32-41 | the code of the digits from one to nine is the published check value |
| TransportBits.Crc32Mpeg2 | client/e2e/support/syntheticCaptionStream.ts:32-41 | the loops compute the register |
| TransportBits.ReadUndoesWrite | client/e2e/support/syntheticCaptionStream.ts:51-68 | reading a written time stamp gives the value modulo 2^33, so the value itself exactly below 2^33 |
| TransportBits.WriteUndoesRead | client/e2e/support/syntheticCaptionStream.ts:51-68 | writing a time stamp that was read gives the same bytes exactly if the marker bits are set |
| TransportBits.PtsLayout | client/e2e/support/syntheticCaptionStream.ts:59-68 | which bits of the time stamp stand in which byte |
| CaptionStream.WithCaptionStream | client/e2e/support/syntheticCaptionStream.ts:78-95 | refused exactly if it does not fit; else one stream more, earlier entries kept, length and code consistent, all other bytes unchanged |
| CaptionStream.SpliceAdds | client/e2e/support/syntheticCaptionStream.ts:78-95 | what the spliced section holds |
| CaptionStream.EntriesAppend | client/e2e/support/syntheticCaptionStream.ts:78-95 | two stream loops one after the other are read as one |
| CaptionStream.CodeClears | client/e2e/support/syntheticCaptionStream.ts:88-93 | the stored code gives the section residue zero |
| CaptionStream.Splicing | client/e2e/support/syntheticCaptionStream.ts:79-94 | writing into a copy byte range by byte range yields the spliced packet |
| PacedChunks.PacedTransportStreamChunks | client/e2e/support/syntheticCaptionStream.ts:165-197 | the chunks concatenate to the stream and are due at strictly increasing times; each holds the bytes of its packets, starts at a packet with its time, and holds no video stamp later than it |
| PacedChunks.ReadPacket | client/e2e/support/syntheticCaptionStream.ts:175-189 | which packet carries a video stamp, and how many seconds after the first |
| PacedChunks.Breaks | client/e2e/support/syntheticCaptionStream.ts:190-194 | a chunk closes exactly before a packet with a later stamp |
| PacedChunks.SecondsCount | client/e2e/support/syntheticCaptionStream.ts:186-188 | times count from the first stamp, and stamps 90000 apart are one second apart |
| PacedChunks.VideoPidIsFirst | client/e2e/support/syntheticCaptionStream.ts:175-182 | the video is that of the first unit of video which starts under another number than zero |
| PacedChunks.PayloadStarts | client/e2e/support/syntheticCaptionStream.ts:43-49 | where the payload starts, with and without an adaptation field |
| PacedChunks.UnitFields | client/e2e/support/syntheticCaptionStream.ts:177-186 | in which bytes of a unit the kind of stream, the flag and the stamp stand |
| ChannelOrder.SortChannels | src/model/db/ChannelDB.ts:245-276 | always a permutation; first the earliest channel for each listed key in list order, then the others in their order, exactly if no key that occurs is listed twice |
| ChannelOrder.Arrange | src/model/db/ChannelDB.ts:261-273 | the same for one list and key |
| ChannelOrder.FoundKey | src/model/db/ChannelDB.ts:261-273 | moving the first match forward adds it to the picks |
| ChannelOrder.MissingKey | src/model/db/ChannelDB.ts:266-268 | a key that no channel has changes nothing |
| ChannelOrder.LengthShowsRepeats | src/model/db/ChannelDB.ts:261-273 | a repeated key would pick a channel twice |
| ChannelOrder.FindIndex | src/model/db/ChannelDB.ts:262-264 | the first match, or none |
| ChannelOrder.GoesById | src/model/db/ChannelDB.ts:250-252 | for the order by channel number, in the field itself: the picks have listed ids, are each the earliest with its id and stand in the order of the list; no listed id that occurs is left out |
| ChannelOrder.GoesByServiceId | src/model/db/ChannelDB.ts:253-255 | the same for the order by service number |

## Left out

- ExecutionManagement.ExecutionManagementModel.GetExecution: priorities are whole numbers; fractions and not-a-number are not modelled. The order in which listeners are notified is not, as at most one accepts.
- ExecutionManagement.ExecutionManagementModel.Expire: timers fire at any time; their durations are not modelled.
- ExecutionManagement.ExecutionManagementModel.constructor: the error for a maximum that is no positive safe integer is a requirement here.
- RecordedUseRegistry.ServiceChildRecordedUseRegistry.RegisterPeer: a child that ended and is registered again would become current again; the composed runs register each child once.
- RecordedUseRegistry.ServiceChildRecordedUseRegistry.HandlePeerTerminal: listeners are a set of children; the four events are one.
- ProcessReports.ServiceChildProcessRegistry.TakeEntries: the wait for the channel to close, at most two seconds, is an event of the run in ServiceGenerations; here it has ended.
- TerminationCleanup.RunKeeps: the cleanup is modelled on values, as a state machine whose steps lie between the awaits, because they interleave with the cap timer and with the next generation. What the operating system shows and what is read from storage comes with the events; durations are not modelled.
- TerminationCleanup.NothingBeginsAfterCancellation: an HLS deletion that has begun checks for cancellation itself, in code that is not part of this model.
- StagedStop.StopInStages: waiting always succeeds and only a check settles the outcome, as the cleanup uses it; the other callers' ways to settle are not modelled.
- ServiceGenerations.RunKeeps: modelled on values; starting a process and its standard streams are left out.
- ConstantEvaluator.SourceLiteral: a number is kept as its sign and digits, and how it reads as a property name is a parameter; the special property name `__proto__` is not modelled. Parsing starts from an expression datatype.
- ConstantEvaluator.SourceConstants: the walk over the file is given as the list of its constant declarations.
- SubDirectory.InsideRootExactly: the POSIX separator only; Windows drives and separators are left out.
- AnchoredPaths.InsideExactly: what `resolve` and `join` return is modelled for POSIX paths; a bare name is taken to be the path module's, even where the file binds it to something else.
- RuleQuery.FindRule: conditions are a syntax tree, so `createAndQuery` and `createOrQuery` of src/model/db/DBUtil.ts are its And and Or; their rendering as text, LIKE and regular expression matching, character folding, the filter on programs already over, order, limit and the duplicate check are left out. Boolean columns compare as truth values.
- RuleMeaning.TimesTruth: the meaning of the hours is claimed for programs whose hour is from 0 to 23 and for exact ranges only; HoursExactly says which those are.
- RuleMeaning.LimitTruth: durations are whole seconds.
- BufferedWriteStream.Record: the percentage warnings, the log throttling and errors of the write stream are left out; a drain is never signalled from inside a write; one write stream is connected, once; after the stream was finished or destroyed nothing more is received. Nine tenths of the maximum are compared without rounding.
- BoundedProcessInput.Feed: a drain is never signalled from inside a write.
- TailReading.PushedExactly: the file is only appended to, though it may start shorter than the starting position; the idle timer, which only logs, is left out. Errors carry no text.
- DeferredLoading.MinimumHeldExactly: the options are fixed and not negative; rendering is left out, so the state is visible at once. Timers may be late but keep their order.
- DesktopPagination.ItemsCover: page counts and widths are whole numbers; the width in buttons is given.
- TransportBits.ReadUndoesWrite: the arithmetic is on 64 bits.
- CaptionStream.WithCaptionStream: the program map section lies in one packet of 188 bytes and its loop of streams is complete; other packets are not modelled. Masks and shifts on single bytes are written as division and remainder.
- PacedChunks.PacedTransportStreamChunks: which bytes carry the video stamp follows the code; nothing is claimed about streams in which the stamp wraps around, beyond what the code does.
- ChannelOrder.SortChannels: channels are values in a sequence; the objects' identity is not modelled.
- Storage, transactions, migrations, user interface components, extended and mobile pagination, configuration defaults, dependency wiring and character tables would only add field copies and easy members.
