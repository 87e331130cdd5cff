# CodeValdFunctions: a verified model

CodeValdFunctions runs pre-built functions in answer to platform events. An event is pushed to
the receiver, which records it and hands it to a dispatcher; the dispatcher looks up the function
that answers the event, creates a job, runs the function's binary, and completes or fails the job;
whole workflow runs can be rolled back afterwards. This project models that life of a job and
proves what holds over every call, every run and every interleaving.

`dafny verify dfyconfig.toml` checks the whole project.

## How the model is laid out

The service has no transactions: every manager call is a read, a guard, a merge patch and an
announcement, each a separate call on a shared store. The model therefore has several levels, and
lemmas that join them.

| file | content |
|---|---|
| `Entities.dfy` | the store of property bags: create, get, merge-patch update, conjunctive unordered listing; any call may fail, and a failed write may have taken effect |
| `Jobs.dfy` | typed jobs, their reading from property bags, the patches the service sends, and the refinement between the two |
| `Rollback.dfy` | what rolling a run back does to a store, and its algebra: pointwise, idempotent, commuting, undoable, confluent under aborted calls |
| `Manager.dfy` | the functions manager as a class over the store, each method proved against the specification |
| `Lifecycle.dfy` | the call-atomic machine over typed jobs: invariant, termination measure, event histories, totals |
| `Abstraction.dfy` | the manager's contracts refine the call-atomic machine |
| `Interleaving.dfy` | the store-atomic machine: dispatchers, cancellations and rollbacks whose single storage calls interleave |
| `Races.dfy` | overtaking writes on a job that has ended: exactly when it can be announced again, change its ending, or lose its completion time |
| `Granularity.dfy` | a thread of that machine that is left alone does what the call-atomic models say |
| `Receiver.dfy`, `Delivery.dfy` | the receiver and dispatcher as classes; overlapping deliveries of one event |
| `Matcher.dfy`, `Registry.dfy`, `Cascade.dfy` | payload qualifiers, function lookup and deployment, chains of triggers |
| `Merge.dfy` | repeated and overlapping merges of one feature branch |
| `NextTask.dfy`, `Order.dfy` | the choice of the next task, and the order of names |

Time is a number of seconds that each call is given; a stored time is that number or empty. The
output of a function's binary, the identifiers found in JSON payloads, and every storage or
publishing fault are arbitrary inputs.

## What turned out not to hold

* A cancelled or rolled-back job is not final while its dispatcher is between a guard and its
  write: `Interleaving.TwoExitsHappen` gives a run in which a job cancelled twice ends completed.
  `Interleaving.WithdrawalIsFinalIff` says exactly when it is final, and
  `Interleaving.ExitsAtMostTwice` that two is the worst. The event description calls such a job
  terminal (`events.go:12-14`).
* Completed and failed jobs are said to become nothing but rolled back, and their completion times
  to be kept (`workflow_run_rollback.go:9-11` and `86-88`). A rollback that listed a job while it ran
  cancels it even if it has completed since, and overwrites its completion time
  (`Races.CompletedJobIsCancelled`); so does a cancel call that passed its guard while the job ran,
  without any event (`Races.CompletedJobIsCancelledSilently`). `Races.EndingIsKeptIff` and
  `Races.CompletionTimeIsKeptIff` say exactly when an ended job keeps its ending and its time for good.
* A job that a rollback withdraws is said to be announced once (`events.go:12-21`). Two overlapping
  rollbacks of one run announce it twice without any fault
  (`Races.OverlappingRollbacksAnnounceTwice`); `Races.AnnouncementIsFinalIff` says exactly when a job
  withdrawn for good, that is with no dispatcher's guarded write to come, is never announced again.
  It is not announced at all when the publisher is absent or drops the event, which no call notices
  (`workflow_run_rollback.go:118-134`), nor, with an accepting publisher and calls one after the
  other, when the first call to withdraw it saw its update fail although it had taken effect; among
  such calls `Rollback.RecoveryAnnouncesOnce` shows this to be the only way.
* Two overlapping deliveries of one event dispatch it twice (`Delivery.OverlapDispatchesTwice`).
  `Delivery.AtMostOnceIff` and `Delivery.DispatchIsFinalIff` say exactly when it can be dispatched
  more than once, or once more, before and after it is on record. A record's write that takes effect
  but reports failure can lose the event; for deliveries one after the other
  `Delivery.SequentialIsExactlyOnce` says exactly which events are dispatched.
* A qualifier whose value needs JSON escaping never matches the payload that carries exactly that
  value (`Matcher.EscapedValueIsMissed`); `Matcher.ExactIffPlain` says a qualifier is exact if and
  only if its value needs none.
* Deploying a function can change the answer to another trigger, when a function is named like the
  new manifest file (`Registry.ManifestLikeNameIsNotLocal`); `Registry.DeployIsLocalIff` says exactly
  when it does.
* The merge of a branch is said to be asked for once however many merge jobs run concurrently
  (`documentation/3-SofwareDevelopment/bug-details/BUG-20260603-001_merge-flutter-branch-fires-per-todo-not-per-task.md:101`).
  `Merge.OverlappingJobsAskTwice` is a run in which it is asked for twice, and
  `Merge.MergedIsFinalIff` says when it never is again, for any range of answers the service may
  give. An extra merge is said to be preferred to a lost one
  (`functions/merge-flutter-branch:165`), but two failures of a head read lose it: a server error whose text mentions 404 (`Merge.ServerErrorTakenForMissing`), and a read cut off without an
  HTTP status, which only `HTTPError` being caught lets escape (`functions/merge-flutter-branch:58-61`,
  `Merge.CutReadLosesMerge`). `Merge.MergeIsNotLost` says exactly which steps lose a merge.
* `documentation/3-SofwareDevelopment/mvp-details/job-lifecycle.md:60-70` lists no rollback
  transitions; the model follows the code, where rollback also cancels retrying jobs although
  `CancelJob` rejects them. `CancelJob` announces nothing. A dispatcher never restarts a job that it
  left retrying.

## Model

| member | source | states |
|---|---|---|
| Interleaving.WithdrawalIsFinalIff | workflow_run_rollback.go:40-113 | in the store-atomic machine, a cancelled or rolled-back job stays so in every continuation if and only if no dispatcher has passed a guard and still has its write of that job to make |
| Interleaving.ExitsAtMostTwice | internal/server/event_receiver.go:104-150 | in every interleaving of dispatchers, cancellations and rollbacks, with any faults, a job leaves the withdrawn statuses at most twice, and never again once its dispatcher has returned |
| Interleaving.TwoExitsHappen | manager.go:126-171 | a concrete run that meets this bound: guards are checked before, not at, the write |
| Interleaving.WithdrawalIsClosed | workflow_run_rollback.go:91-113 | no step of a cancellation, of a rollback, or of a dispatcher without an outstanding guarded write takes a job out of the withdrawn statuses or creates such an outstanding write for it |
| Interleaving.CompletionTimeAndRunIdAreKept | workflow_run_rollback.go:99-109 | in every interleaving, every ended job has a completion time, a completion time once set is never emptied, and a non-empty run id never changes |
| Interleaving.ThreadOkStable | manager.go:68-229 | what each thread relies on about the store (the re-read job's completion time, the run of the jobs a rollback listed, the run id a dispatcher read) survives every step of every other thread |
| Interleaving.StepEffect | internal/server/event_receiver.go:92-151 | every storage step of every thread keeps the guarantee it owes to the others and establishes what it itself relies on next |
| Interleaving.InvAfter | manager.go:126-229 | the global invariant of the store-atomic machine holds after every sequence of actions |
| Interleaving.RollbacksOfAJobAreOfOneRun | workflow_run_rollback.go:32-45 | whenever two rollbacks are about to write the same job, at whatever times, they are rollbacks of the same run |
| Interleaving.CompletionCarriesRunId | manager.go:231-251 | an acknowledged completion announcement adds one event, and the run id it bears is the job's then and in every later state |
| Interleaving.BackfillReachesEveryCompletion | internal/server/event_receiver.go:137-150 | in every interleaving, once the back-fill of a minted run id is acknowledged, every completion event of that job bears it |
| Races.EndingIsKeptIff | workflow_run_rollback.go:40-72 | in the store-atomic machine, a completed job stays completed or is rolled back in every continuation, and a failed one likewise, if and only if no cancel, start or contrary outcome has passed its guard and its write is still to come, and no rollback still holds the job as listed in flight |
| Races.CompletionTimeIsKeptIff | workflow_run_rollback.go:99-109 | an ended job keeps its completion time in every continuation if and only if no start, completion, cancel or final failure has its write of it still to come, and no rollback that re-read it without a time is about to write another |
| Races.AnnouncementIsFinalIff | workflow_run_rollback.go:46-72 | a job withdrawn for good is never announced again in any continuation, whatever calls are made, if and only if no rollback under way still holds it as it was listed before |
| Races.OverlappingRollbacksAnnounceTwice | workflow_run_rollback.go:32-57 | a concrete run without faults in which two rollbacks of one run announce one job's withdrawal twice |
| Races.CompletedJobIsCancelled | workflow_run_rollback.go:32-51 | a concrete run in which a job that has completed, and announced it, ends cancelled with another completion time by a rollback that listed it while it ran |
| Races.CompletedJobIsCancelledSilently | manager.go:210-229 | the same by a cancel call that passed its guard while the job ran, with no event |
| Races.HeldIsWritten | workflow_run_rollback.go:40-81 | a rollback that holds a job, undisturbed, comes to write it with the status its listing calls for and to announce it, whatever the job has become |
| Granularity.UninterruptedCallIsAtomic | manager.go:126-229 | guard, write and announcement of a lifecycle call taken as separate storage steps without interference equal one step of the call-atomic machine, jobs and events alike |
| Granularity.UninterruptedWithdrawalIsAtomic | workflow_run_rollback.go:40-72 | likewise one job's part of a rollback whose snapshot is still current |
| Granularity.UninterruptedBegin | internal/server/event_receiver.go:104-114 | a dispatcher's storage steps up to the run of the binary, left alone, create and start one job and announce both |
| Granularity.UninterruptedFinish | internal/server/event_receiver.go:122-150 | its storage steps after the run, left alone, end the job as the dispatcher's own contract says, with the same event |
| Granularity.FailedWrites | internal/server/event_receiver.go:104-150 | an update that fails, applied or not, ends its call and its dispatcher or rollback without an event; a failed back-fill is skipped |
| Granularity.FailedReads | internal/server/event_receiver.go:110-150 | so does a read or a listing that fails |
| Granularity.RejectedGuards | manager.go:126-229 | and a guard that rejects |
| Lifecycle.RunKeepsInv | manager.go:38-229 | over every sequence of manager calls: retry counts fit the status, a completion time is set exactly in the ended statuses, and created, started and completed times are in order |
| Lifecycle.CompletionTimeIsWriteOnce | workflow_run_rollback.go:86-105 | no sequence of further calls changes a completion time that is set |
| Lifecycle.ChangeLowersRank | manager.go:131-133 | a status change strictly lowers a rank; completed and failed only become rolled_back; cancelled and rolled_back never change |
| Lifecycle.LifeIsBounded | manager.go:175-187 | under any caller a job starts at most three times and changes status at most seven times |
| Lifecycle.HistoriesAreTold | manager.go:231-252 | with an accepting publisher, over every run, a job's events are its creation, a number of starts fixed by status and retry count, and at most one ending, which only a rollback may follow |
| Lifecycle.WriteIsTold | manager.go:202-206 | one accepted call publishes at most one event, about its own job, and moves the job's history to one its new state allows |
| Lifecycle.EventTotals | workflow_run_rollback.go:60-72 | completed events number the completed jobs plus those rolled back from completed; the same for failed |
| Lifecycle.CallTotals | manager.go:62-144 | created events number the jobs, rolled_back events the jobs rolled back, started events the accepted starts; the jobs now cancelled number the cancelled events plus the accepted cancel calls |
| Abstraction.CallIsStep | manager.go:126-229 | a lifecycle call on property bags that storage does not fail is a step of the typed machine: same acceptance, same result, same jobs |
| Abstraction.PerformIsStep | manager.go:66-252 | a start, completion, failure, cancellation or binding made on the manager itself, nothing failing, is the machine's step: same acceptance, result, jobs and events |
| Abstraction.CreateIsStep | manager.go:38-64 | creating a job in the store is the machine's creation step |
| Abstraction.RollbackIsSteps | workflow_run_rollback.go:40-81 | a rollback of a store is the machine's withdrawal steps in listing order, with the same events |
| Abstraction.CallTouchesOnlyItsJob | manager.go:84-96 | no lifecycle call, failed or not, changes another entity or one that is not a job |
| Abstraction.WritesKeepTimesClean | converters.go:48-59 | every bag the manager writes has a completion time that is either empty or a time, which is what RollbackIsSteps needs |
| Rollback.RollbackIsPointwise | workflow_run_rollback.go:27-84 | whatever the listing order, rollback changes exactly the jobs of the run, each on its own |
| Rollback.RolledBackJob | workflow_run_rollback.go:86-113 | in-flight becomes cancelled, completed and failed become rolled_back, other statuses stay; every property but status, reason and an empty completion time is kept, and a second rollback would skip the job |
| Rollback.RolledBackJobIsTransition | converters.go:10-27 | the patch to the bag is the typed withdrawal of the job it reads as |
| Rollback.OutcomesPartition | models.go:86-107 | the three result lists together hold each listed job exactly as often as the listing |
| Rollback.OutcomeCount | models.go:92-106 | each list holds a listed job exactly when the job's status calls for that outcome |
| Rollback.SecondRollbackIsIdle | workflow_run_rollback.go:40-44 | an immediate second call, in any listing order, changes nothing, announces nothing and reports every job as skipped |
| Rollback.RollbacksCommute | workflow_run_rollback.go:32-35 | rollbacks of two different runs commute |
| Rollback.UndoRestoresStatuses | events.go:24-42 | writing the previous statuses of a rollback's own events back restores every job's status, changing nothing else the rollback kept |
| Rollback.EventsOfOneJob | workflow_run_rollback.go:46-72 | a rollback announces each job it withdraws exactly once, with its previous status, and no other |
| Rollback.RecoveryIsConfluent | workflow_run_rollback.go:37-84 | after any number of calls aborted anywhere, in any listing orders, with the failed write applied or not, one successful call leaves the store as one uninterrupted call would, up to the moment and reason recorded |
| Rollback.RecoveryAnnouncesOnce | workflow_run_rollback.go:40-72 | for calls one after the other with an accepting publisher, each with a reason of its own: aborted and final calls together announce each job as one uninterrupted call does, up to the reason given, if and only if no aborted call withdrew it first without an acknowledgement; otherwise it is never announced |
| Rollback.AttemptsAnnounce | workflow_run_rollback.go:48-50 | mid-recovery, with an accepting publisher, a job has been announced, once and with the reason of that call, exactly when the first call to touch it acknowledged that; its status has changed exactly when it was touched and could change |
| Rollback.TraceMeans | workflow_run_rollback.go:107-111 | a job is silenced if and only if some aborted call's failed update took effect on it and no earlier call had touched it |
| Manager.FunctionsManager.RollbackByWorkflowRun | workflow_run_rollback.go:27-113 | an empty run id is refused; otherwise, entity by entity and by the text of its stored status: which jobs of the run are withdrawn, what each then stores (status, the reason if one is given, the completion time only where it was empty, and every other property as before), which list each is in, and its one event with its own fields; all jobs unless storage failed; no other entity changes |
| Manager.FunctionsManager.HandleAll | workflow_run_rollback.go:40-84 | the loop over the snapshot, with what an early exit leaves behind |
| Manager.FunctionsManager.HandleListed | workflow_run_rollback.go:41-80 | one listed job goes into exactly one list, is patched from a fresh read, and is announced only if its patch succeeded |
| Manager.FunctionsManager.ApplyRollbackStatus | workflow_run_rollback.go:91-113 | stores the status, the reason if one is given, and the completion time only if that is empty, on the job as now stored, and changes no other property; without both store calls succeeding it reports failure |
| Manager.HandledNext | workflow_run_rollback.go:40-81 | the loop's step: store, report and events grow by the next job's own part, which earlier jobs have not touched |
| Manager.FunctionsManager.CreateJob | manager.go:38-64 | one entity more, with each property spelled out, reading as a pending job, announced; a failed creation may still have stored it |
| Manager.FunctionsManager.SetJobWorkflowRunID | manager.go:68-81 | sets the run id of an existing job and nothing else, in any status |
| Manager.FunctionsManager.GetJob | manager.go:84-96 | the typed job of that id; entities of another type are not found |
| Manager.FunctionsManager.ListJobs | manager.go:99-123 | every job of the agency once whose status, function name and workflow run id each equal the filter's where that is not empty, and no other entity |
| Manager.FunctionsManager.StartJob | manager.go:126-146 | from pending or retrying only; patches and announces, or says which of the error cases holds |
| Manager.FunctionsManager.CompleteJob | manager.go:149-171 | from running only; sets result and completion time, and announces |
| Manager.FunctionsManager.FailJob | manager.go:175-207 | from running only; counts the attempt, fails at the third and retries before, announcing only failure |
| Manager.FunctionsManager.CancelJob | manager.go:210-229 | from pending or running only; announces nothing |
| Manager.FunctionsManager.Publish | manager.go:233-252 | announces the job as re-read, its id, function name, trigger event and run id each under its own key, or drops the event if the read or the publisher fails |
| Jobs.PatchRefinesTransition | converters.go:10-27 | for every patch the service sends, patching the bag and then reading it is the typed transition of the job read before |
| Jobs.CreationRefinesNewJob | manager.go:40-61 | the bag of a new job reads as a new pending job |
| Jobs.NumberShapeIsInvisible | converters.go:29-46 | whichever of the three number shapes a store returns, reading and all later patches give the same job |
| Entities.IntPropReads | converters.go:31-46 | a number is read from any of its three shapes; anything else reads as zero |
| Entities.TruncateDropsFraction | converters.go:41-42 | a float converts toward zero, losing less than one |
| Jobs.StatusRoundTrip | models.go:16-27 | status texts are the seven of the service and survive the round trip, unknown ones included |
| Jobs.JobFromEntityReads | converters.go:10-27 | each field of a typed job is read from its own property |
| Entities.DataManager.CreateEntity | fake_test.go:40-55 | adds one entity under a fresh id |
| Entities.DataManager.GetEntity | fake_test.go:57-65 | the entity of that key, or not found |
| Entities.DataManager.UpdateEntity | fake_test.go:67-79 | patched properties of one entity take the new values, all other properties and entities stay; a reported failure may have been applied |
| Entities.DataManager.ListEntities | fake_test.go:88-111 | each selected entity exactly once, in no particular order |
| Receiver.EventReceiver.NotifyEvent | internal/server/event_receiver.go:35-76 | an acknowledged event is on record; a dispatch is spawned only after this delivery's own record is stored; without faults it is spawned exactly if the id is empty or not on record |
| Receiver.NotifyIsDelivery | internal/server/event_receiver.go:35-76 | the receiver, nothing failing, keeps its records and spawns as the model of deliveries does |
| Receiver.FunctionsDispatcher.Dispatch | internal/server/event_receiver.go:92-151 | no match, no effect; with any faults at most one job more, in a state on its way, with some of its own events in order and never a completion event without a completed job; without faults completed or retrying by the output, bearing the inherited or minted run id, with exactly its events |
| Receiver.FunctionsDispatcher.Succeed | internal/server/event_receiver.go:137-150 | a minted run id is stored before completion is announced, and only if none was inherited; with faults the job is left started, bound or completed, and announced only if completed, as it is stored |
| Receiver.CallMovesJob | manager.go:135-145 | an accepted call moves the one new job by its write and leaves every other entity alone; a call that storage fails moves it so or not at all |
| Delivery.Conservation | internal/server/event_receiver.go:35-75 | in every interleaving with any faults, acknowledged events are on record, and an event's records number its dispatches, those about to be made, and the refused deliveries whose write took effect |
| Delivery.ExactlyOnceIff | internal/server/event_receiver.go:38-50 | over every run, an acknowledged event with no dispatch outstanding was dispatched exactly once if and only if it has exactly one record besides those of refused writes; where checks do not overlap, never twice |
| Delivery.DispatchIsFinalIff | internal/server/event_receiver.go:38-73 | an event on record is never dispatched again, whatever further deliveries of it arrive and interleave, if and only if its id is not empty, its listings cannot fail, and no delivery of it is past its duplicate check |
| Delivery.AtMostOnceIff | internal/server/event_receiver.go:38-73 | an event not on record is dispatched at most once, in every interleaving and with any listing and write faults, if and only if no further delivery of it arrives and at most one of those under way may still write |
| Delivery.SequentialIsExactlyOnce | internal/server/event_receiver.go:38-73 | for deliveries one after the other, repeated and reordered at will, with any write faults, an event is on record if and only if a write of it took effect, and dispatched, exactly once, if and only if the first such write was acknowledged |
| Delivery.AcknowledgedIsDispatchedOnce | internal/server/event_receiver.go:64-75 | then an acknowledged event none of whose refused writes took effect is dispatched exactly once |
| Delivery.SequentialChecksApart | internal/server/event_receiver.go:38-66 | deliveries handled one after the other, repeated and reordered at will, with any write faults, are of that kind |
| Delivery.OverlapDispatchesTwice | internal/server/event_receiver.go:46-73 | two overlapping deliveries without faults dispatch one event twice |
| Matcher.PayloadMatches | internal/functions/runner.go:97-107 | true exactly when, for every required pair, its quoted key, a colon and its quoted value stand in the payload |
| Matcher.MatchIsExact | internal/functions/runner.go:99-107 | for every payload encoded by the service, whatever its values contain, a qualifier with an identifier-like key and an escape-free value occurs if and only if the payload has that pair |
| Matcher.MatchReadsField | manager.go:245-250 | for an encoded map a plain qualifier on one of its keys occurs if and only if the map holds that value there |
| Matcher.DecodesBack | internal/registrar/registrar.go:64-75 | what the encoder writes of a value reads back as that value, whatever it holds |
| Matcher.ExactIffPlain | internal/registrar/registrar.go:64-75 | a qualifier is exact on all payloads if and only if its value needs no escaping |
| Matcher.EscapedValueIsMissed | internal/functions/runner.go:101-104 | a qualifier whose value needs escaping is missed even in the payload with exactly that value |
| Matcher.HeadLocates | internal/functions/runner.go:101 | a quoted key with its colon and opening quote occurs only where a field of that key starts |
| Registry.BinaryRunner.Lookup | internal/functions/runner.go:68-95 | the first file by code points whose name ends in .json and whose manifest has the trigger, qualifiers that all stand in the payload, and a binary that is a file; without faults none is missed |
| Registry.BinaryRunner.Deploy | internal/functions/runner.go:144-163 | overwrites the binary and its manifest, which names the function and its trigger without qualifiers, and touches no other path; when the disk does not fail, it fails exactly on a name no file can have or a path that is a directory |
| Registry.FindsIsUnique | internal/functions/runner.go:68-95 | what a lookup finds is determined by the directory |
| Order.BeforeIff | internal/functions/runner.go:69-92 | names are ordered by prefix or by the first differing character |
| Registry.DeployIsVisible | internal/functions/runner.go:144-163 | in directories of manifests named after their functions, a deployed trigger is answered for every payload, at or before the new manifest |
| Registry.DeployIsLocalIff | internal/functions/runner.go:84-93 | a lookup on a trigger other than the new and the overwritten one finds what it found before if and only if the new manifest file does not stand in for the missing binary of a matching function named like it that comes before every answer |
| Registry.ManifestLikeNameIsNotLocal | internal/functions/runner.go:84-93 | a directory in which deploying changes the answer to another trigger |
| Cascade.QualifierMeansName | functions/merge-flutter-branch.json:4-6 | among completion payloads, whatever their other fields contain, a plain function_name qualifier matches only completions of that function |
| Cascade.AnnouncedPayload | manager.go:242-251 | of what the manager announces of a stored job, a plain qualifier on each of the four keys matches if and only if it is the job's own function name, id, trigger event or run id |
| Cascade.PayloadText | internal/registrar/registrar.go:68-71 | the payload's text: the four keys in order, each with its encoded value |
| Cascade.CascadesEnd | internal/server/event_receiver.go:92-104 | with a rank that falls along every start the manifests allow, every chain of completions is no longer than the first function's rank plus one |
| Cascade.BundledCompletions | functions/merge-flutter-branch.json:1-8 | with the bundled manifests a completed compile-flutter starts merge-flutter-branch and any other completion starts nothing |
| Cascade.AnnouncedCompletion | manager.go:168-170 | the same for the completion that the manager announces of a stored job |
| Cascade.BundledLookups | functions/next-task.json:1-5 | what the triggers of compile-flutter, create-branch, delete-branch and next-task find in a full bundle, for every payload |
| Cascade.PipelineLookup | functions/emit-event.json:1-8 | a pipeline request finds emit-event if its payload names that function code, and start-pipeline otherwise |
| Cascade.BundledCascades | manager.go:242-251 | with the bundled manifests no chain is longer than compile-flutter, merge-flutter-branch |
| Merge.GitService.MergeJob | functions/merge-flutter-branch:128-186 | a result whose status is not ok, or whose branch is empty or main, touches nothing; otherwise, undisturbed, one merge is asked for and main moves to the branch's head exactly when both branches exist and their heads differ or are unknown; success means nothing changed or that merge was made, and failure at most one request sent, in effect or not |
| Merge.RepeatedJobsMergeOnce | functions/merge-flutter-branch:136-160 | any number of jobs for one branch, one after the other, ask for at most one merge and leave the branch merged |
| Merge.MainMovesAtMostOnce | functions/merge-flutter-branch:136-186 | in every interleaving of overlapping jobs, whatever fails, the main branch moves at most once, to the feature's head |
| Merge.MergeIsNotLost | functions/merge-flutter-branch:145-186 | over every run with any failures and deletions, the branch is merged if and only if some request took effect, and no job ever ends with it unmerged if and only if no request is without effect and no read is cut off, refused with a text that mentions 404, or of a deleted branch |
| Merge.StepMergesIff | functions/merge-flutter-branch:145-166 | the same for one step: which replies merge, and which end a job with the branch unmerged |
| Merge.RefusalMeans | functions/merge-flutter-branch:161-166 | a failed read is taken for a missing branch exactly when its text mentions 404 |
| Merge.MergedIsFinalIff | functions/merge-flutter-branch:145-166 | once merged, and for any set of answers the service may give, true ones among them, the merge is never asked for again, by any number of new jobs, if and only if no job under way is committed to asking and no answer in the set misleads one (a refusal that does not mention 404, or an answer without a head) |
| Merge.OverlappingJobsAskTwice | functions/merge-flutter-branch:145-179 | two overlapping jobs ask for the same merge twice without any failure |
| Merge.ServerErrorTakenForMissing | functions/merge-flutter-branch:161-164 | a server error whose text mentions 404 ends the job unmerged |
| Merge.CutReadLosesMerge | functions/merge-flutter-branch:52-61 | a head read cut off without an HTTP status ends the job unmerged |
| NextTask.DepsSatisfied | functions/next-task:83-90 | true exactly when every dependency target is known and has ended |
| NextTask.SortByName | functions/next-task:167 | the incomplete tasks in ascending order of name by code points, list order among equal names, none lost or added |
| NextTask.Scan | functions/next-task:169-176 | the first in the order whose query succeeds and whose dependencies have ended |
| NextTask.Select | functions/next-task:165-176 | with any failing queries, the picked task is the first by name, ties by list order, among those pending or in progress whose query answers and whose targets are all completed or cancelled, the last task of an id counting; none is picked only if there is none |
| NextTask.SelectionIsUnique | functions/next-task:165-176 | tasks and query answers determine the selection |
| NextTask.StuckMeansCycle | functions/next-task:178-183 | selecting nothing while incomplete tasks remain, whose queries answer with known targets in known statuses, means the incomplete tasks contain a dependency cycle |
| NextTask.RunCompletesEachOnce | functions/next-task:7-12 | on an acyclic graph, selecting and completing takes as many rounds as there are incomplete tasks and completes each once |
| NextTask.RunIsLinearExtension | functions/next-task:10-11 | the order of completion is a linear extension of the dependency order |
| NextTask.RunExists | functions/next-task:165-176 | from any setting, selecting and completing comes to an end |

## Left out

- gRPC handlers, generated protocol code, configuration, wiring, HTTP routes, schema seeding, the ArangoDB adapter, the heartbeat and logging: plumbing.
- Running the binary, parsing its output, and decoding JSON payloads: the outcome, the task id, the inherited run id and the minted run id are arbitrary inputs.
- The functions compile-flutter, emit-event and start-pipeline: calls to other services with single-branch choices between them.
- next-task beyond the selection: the agent lookup and the assignment request.
- merge-flutter-branch before its guards: reading its input and fetching the compile job; the deletion of main during overlapping jobs.
- Formatting and parsing of times: a stored time is a number of seconds or empty.
- Aliasing of property maps in the in-memory store (`fake_test.go:45-56`): entities are handed out as values.
- The in-memory store's joined text key (`fake_test.go:36-38`), which is a pair here, and its comparison of a missing property as the text "<nil>" (`fake_test.go:101`): a missing property matches no filter here.
- Deletion of entities: no operation of the service deletes one.
- The width of Go's integers, and the conversion of floats outside that width: numbers are unbounded.
- Invalid UTF-8 in payloads, and the `\b` and `\f` escapes' dependence on the Go release: texts are sequences of characters, and the two escapes are the short ones.
- File names with path separators, symbolic links, and the creation of the functions directory.
- The encoding of rollback events: their payloads are typed events here, not text, since no bundled manifest matches on them.
- Registry.BinaryRunner.Deploy: does not model a binary whose own bytes are a manifest, nor the description, which no lookup reads.
- Interleaving.CompletionTimeAndRunIdAreKept: does not cover calls of SetJobWorkflowRunID by anyone but a job's own dispatcher; the service makes none.
- Interleaving.InvAfter: covers the jobs of one agency, and callers of the lifecycle methods that are dispatchers, cancellations and rollbacks; arbitrary callers are covered call by call in Lifecycle.
