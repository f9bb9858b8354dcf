# Verified model of Tower Agent

Tower Agent runs agent turns as Tower services, arranges them in workflows, and lets hosts make them
durable. This project models its stateful parts and proves what holds over every input, every run or
every interleaving.

| area | modules | main results |
|---|---|---|
| Workflow compiler | `Collections`, `Graphs`, `Counters`, `Definition`, `Authoring` | success exactly on sound graphs; the least topological order; the exact refusal; authoring order is irrelevant |
| Workflow runner | `Scheduler`, `Confluence`, `Independence`, `Execution` | safety and progress of every run; confluence; a step waits for another exactly when it depends on it; the runner refines the state machine |
| Phases | `Phases`, `Siblings` | exactly when phases are barriers, and when the steps of one are independent |
| Durable store | `DurableLog`, `DurableProtocol`, `LogFile`, `CodecExists`, `Whitespace`, `KeyOrder`, `DurableStore`, `DurableRestart`, `TornRuns` | what a log means; fencing over every run, and across restarts; which settlements count; exactly what outlives any number of torn writes |
| Local run store | `LocalRun`, `LocalRunStore` | at most one launch, call, settlement and publication per identity; exact counters |
| Event channel | `EventChannel`, `Emission` | the exact byte budget under any interleaving, and exactly when it can be trusted |
| Planning | `Partial`, `Resolve`, `Planning`, `Elicitation`, `PlanRequest` | the overlay algebra; exact outcomes; convergence of elicitation |
| Middleware | `Errors`, `Middleware`, `Stalls` | exactly what a failure may claim after any stack of layers, and when a stalled call counts as made |

How the pieces fit:

* Loops and stores of the source are methods and classes here, each tied by its `ensures` to a function
  or a state machine; what the source promises is proved about that function or machine.
* `Scheduler` has no counters: a step is waiting when it is undispatched and its dependencies have
  outputs. `Execution.Execute` has the source's counters, ready set and stop reason, and returns, as a
  ghost result, the run of `Scheduler` it performed. Its environment (token, clock, which step settles
  next and how) is a parameter, read one observation at a time, constrained only to be monotone.
* `DurableProtocol` and `LocalRun` are state machines whose operations may come in any order, from any
  worker; each section under the store's lock is one operation.
* `EventChannel` takes one step per atomic access, with wrapping word arithmetic; `Emission.TryEmit` is
  one call, with whatever the others do in between supplied by its caller.
* `Middleware` describes each layer as one call meets it (timing, faults and panics included), so its
  laws hold for every way a call can go. `Stalls` adds the clock: when the caller cancels, the deadline
  passes and each layer is called and polled decide how it is met. Which of two coinciding events a
  deadline layer notices, and which of two reasons it names, are parameters.
* Identifiers that the source compares but never inspects (step ids, host references) are integers, their
  ranks in the source's total order.

Where the code and its own words differ, the model follows the code:

* `examples/repository-worker/src/schema.rs:32-33` says each phase runs after the previous one completes.
  An empty phase resets the chain at `examples/repository-worker/src/compile.rs:72-86`, and the claim then
  fails, as `Phases.GapFileFails` shows; `Phases.BarriersIffLinked` and `Phases.NeedFreeBarriersIffNoGap` say
  exactly when it holds.
* The same lines say steps within a phase are independent. A step may name a sibling among its needs, and
  then waits for it, as `Siblings.SiblingFileFails` shows; `Siblings.IndependentIffUnlinked` and
  `Siblings.IndependentIffNoSiblingNeeds` say exactly when the claim holds.
* `crates/tower-agent/src/layer/fault.rs:21-25` says a delay before launch stalls before the inner service
  is called. At lines 143-149 the inner `call` is made first and only its future is awaited late, so a
  caller that cancels meanwhile finds the provider called: `Stalls.StopFindsCallMadeIff`,
  `Stalls.InterruptedStall`. `Stalls.OrdersDisagreeIff` says exactly when the documented order would not have
  called it at all, and `Stalls.CancelledInStall` is a stack where it shows.
* `crates/tower-agent-mcp/src/plan.rs:232-234` says an unknown provider name is reported as a diagnostic.
  The name is dropped and never reported. Unless something else is wrong, the provider is then asked for
  exactly when the application defaults bind none; otherwise the turn goes on with theirs:
  `PlanRequest.UnknownNameMeetsDefaults`, `PlanRequest.MisspeltWithoutDefaults`,
  `PlanRequest.MisspeltWithDefaults`.
* `examples/apalis-durable/src/store.rs:151-153` promises that a torn tail is not fatal. It is not, but the
  next append joins the torn line and is lost with it: `LogFile.AppendAfterTear`. An admission or launch
  lost so is made again: `DurableRestart.EpochReissuedIff`, `DurableRestart.LaunchForgottenIff`.
  `TornRuns.ReplayOfRun` says exactly which records of a whole run survive.
* Recording that a lost launch had no effects (`examples/apalis-durable/src/store.rs:230-232`) does not
  raise the epoch, so the lost worker can still settle: `DurableProtocol.ClearedWorkerMaySettle` and
  `DurableProtocol.SettlementCountsIff` say exactly when, `DurableProtocol.LostWorkerSettlesAfterClearing`
  shows the shortest run.
* A workflow run with every output in hand can still end cancelled or past its deadline, because both
  are looked at before the ready set: `Scheduler.LateStop`.

## Model

| member | source | states |
|---|---|---|
| `Definition.Compile` | crates/tower-agent-workflow/src/definition.rs:205-305 | Compiling succeeds exactly when identifiers are valid, steps are present and clean, and the graph is closed, free of self-loops and acyclic; the definition is then the unique compilation; otherwise the error is exactly the first fault in the code's order of checks |
| `Definition.CheckNeeds` | crates/tower-agent-workflow/src/definition.rs:219-234 | A dependency list is accepted exactly when every name is valid and none repeats, and comes back sorted; otherwise the first fault is reported |
| `Definition.Normalize` | crates/tower-agent-workflow/src/definition.rs:216-243 | All steps normalise exactly when every identifier is valid and unique; the error is the first fault of the first faulty step, a duplicate step being noticed only after its own dependencies |
| `Definition.CountEdges` | crates/tower-agent-workflow/src/definition.rs:245-271 | Indegrees are the true dependency counts and each successor list is the sorted set of dependents; the first self-loop or missing dependency in id order is reported |
| `Counters.ReleaseSuccessors` | crates/tower-agent-workflow/src/definition.rs:280-288 | Releasing one step keeps every counter equal to the number of outstanding dependencies, so no decrement underflows, and readies exactly the successors this unlocks; the runner does the same at crates/tower-agent-workflow/src/execution.rs:681-689 |
| `Definition.StableOrder` | crates/tower-agent-workflow/src/definition.rs:273-289 | The ready-set loop takes the least ready step each time until nothing is ready |
| `Definition.OrderSteps` | crates/tower-agent-workflow/src/definition.rs:245-297 | An order of all steps is found exactly when the graph is closed, loop-free and acyclic; a cycle error names exactly the greatest set of steps each needing another of the set |
| `Definition.StableOrderIsLeast` | crates/tower-agent-workflow/src/definition.rs:102-108 | The topological order is a permutation putting dependencies first and the lexicographically least such permutation |
| `Definition.CompilationUnique` | crates/tower-agent-workflow/src/definition.rs:299-305 | One set of authored steps has one compiled definition |
| `Definition.NormalFormUnique` | crates/tower-agent-workflow/src/definition.rs:216-243 | The normal form is determined by what was authored |
| `Graphs.ExhaustedUnique` | crates/tower-agent-workflow/src/definition.rs:277-289 | Least-first exhaustion of a graph is unique |
| `Graphs.LeastTopologicalOrder` | crates/tower-agent-workflow/src/definition.rs:102-108 | A complete least-first order is topological and lexicographically no greater than any topological order |
| `Graphs.ExhaustedIffAcyclic` | crates/tower-agent-workflow/src/definition.rs:291-297 | The ready-set loop takes every step exactly when the graph has no cycle |
| `Graphs.LeftoverIsGreatestBlocked` | crates/tower-agent-workflow/src/definition.rs:291-297 | What the loop leaves over is the greatest set of mutually blocked steps |
| `Definition.StuckIsCycleFault` | crates/tower-agent-workflow/src/definition.rs:291-297 | The steps with a positive counter left are that set, listed in id order |
| `Authoring.AuthoringOrderIrrelevant` | crates/tower-agent-workflow/src/definition.rs:102-106 | Permuting the steps, or any dependency list, changes neither whether compilation succeeds nor the definition it yields |
| `Authoring.BuildPipeline` | crates/tower-agent-workflow/src/definition.rs:160-173 | A pipeline whose step declares needs is refused naming the first such step; otherwise it is the chain in insertion order, compiled |
| `Authoring.PipelineCompilesIffDistinctlyNamed` | crates/tower-agent-workflow/src/definition.rs:160-173 | A pipeline compiles exactly when its identifiers are valid and its steps distinctly named: never a cycle or an edge error |
| `Authoring.PipelineOrderIsInsertionOrder` | crates/tower-agent-workflow/src/definition.rs:132-173 | The stable order of a compiled pipeline is the insertion order |
| `Scheduler.RunKeepsInv` | crates/tower-agent-workflow/src/execution.rs:584-700 | At every moment of every run: each step is dispatched at most once and only with all its dependencies' outputs; every dispatched step is in exactly one of in flight, completed, failed, not called; the concurrency bound holds; a not-called step implies cancellation or a stop |
| `Scheduler.StopIsLatched` | crates/tower-agent-workflow/src/execution.rs:584-700 | After the first stop reason it never changes, nothing more is dispatched, and outputs are never revised |
| `Scheduler.AncestorsComplete` | crates/tower-agent-workflow/src/execution.rs:602-616 | Every direct or transitive dependency of a dispatched step has an output |
| `Scheduler.FinishedWithoutReasonIsComplete` | crates/tower-agent-workflow/src/execution.rs:733-746 | A run that ends without a stop reason has every output: the incomplete result is unreachable |
| `Scheduler.EventsRunOut` | crates/tower-agent-workflow/src/execution.rs:584-700 | Every event the runner handles lowers 2 * undispatched + in flight + (1 if not stopped) |
| `Scheduler.NeverStuck` | crates/tower-agent-workflow/src/execution.rs:584-671 | A runner that is not done either awaits a called step or can act |
| `Scheduler.RunsAreBounded` | crates/tower-agent-workflow/src/execution.rs:584-700 | A run of any length handles at most two events per step and one stop |
| `Scheduler.SequentialDispatchFollowsStableOrder` | crates/tower-agent-workflow/src/execution.rs:599-691 | With a bound of one, dispatch follows the definition's stable order, and a run that completes dispatches exactly that sequence: the two ready-set loops agree |
| `Scheduler.LateStop` | crates/tower-agent-workflow/src/execution.rs:585-601 | Whenever a run could succeed, the same run with a cancellation, or a deadline, noticed at the last look ends with that reason and every output in hand |
| `Independence.WaitsIffAncestor` | crates/tower-agent-workflow/src/execution.rs:602-691 | Over all runs and bounds, one step waits for another exactly when it depends on it directly or transitively |
| `Independence.DispatchWithout` | crates/tower-agent-workflow/src/execution.rs:602-691 | With room for every step, a step can be dispatched while a step it does not depend on has no output |
| `Confluence.EvaluationSolves` | crates/tower-agent-workflow/src/execution.rs:602-616 | Evaluating along a topological order solves the dataflow equations of the graph |
| `Confluence.EveryRunAgrees` | crates/tower-agent-workflow/src/execution.rs:584-700 | When results are functions of job and dependency outputs, every run only ever holds outputs and failures of the solution |
| `Confluence.CompleteRunsAgree` | crates/tower-agent-workflow/src/execution.rs:748-765 | Every successful run, whatever its bound and settlement order, returns the evaluation |
| `Confluence.CompletesIffNothingFails` | crates/tower-agent-workflow/src/execution.rs:584-766 | Without cancellation or deadline a run succeeds exactly when no step of the evaluation fails |
| `Execution.DispatchStep` | crates/tower-agent-workflow/src/execution.rs:488-516 | While the token is unset the step always settles, with its dispatcher's refusal or what its call returned; a set token noticed while waiting wins over readiness, a refusal over the last look at the token |
| `Execution.ReadCancellation` | crates/tower-agent-workflow/src/execution.rs:586-590 | Reading the token records at most its change and nothing else |
| `Execution.CheckStop` | crates/tower-agent-workflow/src/execution.rs:585-598 | Cancellation is looked at before the deadline; the runner goes on only when neither is set |
| `Execution.Launch` | crates/tower-agent-workflow/src/execution.rs:599-632 | The least ready step is called with its direct dependencies' outputs, one dispatch of the state machine |
| `Execution.Fill` | crates/tower-agent-workflow/src/execution.rs:585-637 | Dispatching stops only at the bound, at a stop reason, or when nothing is waiting; with nothing in flight the run is finished |
| `Execution.AwaitOne` | crates/tower-agent-workflow/src/execution.rs:639-674 | One settlement, or a stop noticed while waiting, brings the end nearer |
| `Execution.Settle` | crates/tower-agent-workflow/src/execution.rs:676-699 | Each kind of settlement is one event of the state machine; counters and ready set stay exact until the runner stops |
| `Execution.Execute` | crates/tower-agent-workflow/src/execution.rs:518-766 | Every execution is a run of the state machine under the given environment, ends finished, and returns the result that run determines: never incomplete, every output and failure what a step returned when called with all its dependencies' outputs, every reason one that occurred |
| `Execution.ReportsAreEarned` | crates/tower-agent-workflow/src/execution.rs:702-765 | What a result claims by itself: outputs and failures are justified by the dispatcher's settlements, disjoint and closed under dependencies, and the reported reason did occur |
| `Execution.FinishedReports` | crates/tower-agent-workflow/src/execution.rs:702-765 | The result names the stop reason, the outputs and the sorted failures of the run, or all outputs and those of the leaves |
| `Execution.FailuresReportedInOrder` | crates/tower-agent-workflow/src/execution.rs:702 | The reported failures are all observed ones in strictly increasing step order |
| `Execution.ExecutionIsConfluent` | crates/tower-agent-workflow/src/execution.rs:518-766 | A successful execution returns the evaluation of the stable order for any bound; undisturbed it succeeds exactly when no step of the evaluation fails |
| `Phases.FlattenPhases` | examples/repository-worker/src/compile.rs:72-86 | Each step of a phase is listed with its own needs followed by the ids of the phase before it |
| `Phases.GapFileFails` | examples/repository-worker/src/compile.rs:72-86 | A concrete file with an empty phase between two others compiles, and a run of it starts the later phase before the earlier one has an output |
| `Phases.PhasesAreBarriers` | examples/repository-worker/src/compile.rs:72-86 | If no empty phase lies between two others, in every run no step is dispatched before all steps of every earlier phase have outputs |
| `Phases.BarriersIffLinked` | examples/repository-worker/src/compile.rs:72-86 | For every file that compiles, phases are barriers in every run exactly when dependencies link every later step to every earlier one |
| `Siblings.IndependentIffUnlinked` | examples/repository-worker/src/compile.rs:72-86 | For every file that compiles, no step of a phase is ever made to wait for another of it exactly when dependencies link no two of them |
| `Siblings.LookingBackIsEnough` | examples/repository-worker/src/compile.rs:72-86 | Where own needs only name steps of earlier phases, and so where there are none, the steps of each phase are independent in every file that compiles |
| `Siblings.IndependentIffNoSiblingNeeds` | examples/repository-worker/src/compile.rs:72-86 | Without an empty phase between two others, they are independent exactly when no step names another of its own phase among its needs |
| `Siblings.SiblingFileFails` | examples/repository-worker/src/compile.rs:72-86 | A concrete phase of two steps, the second needing the first, compiles, and the two are then not independent |
| `Phases.NeedFreeBarriersIffNoGap` | examples/repository-worker/src/compile.rs:72-86 | When steps declare no needs of their own, that is exactly when no empty phase lies between two others |
| `DurableLog.LogMeaning` | examples/apalis-durable/src/store.rs:176-246 | For every log with no decision about a step since it was frozen: it is known exactly when frozen, fingerprint and deadline are those of the first freeze, it is settled exactly when some result came no earlier than the highest claim since, and its result is that of the first such record |
| `DurableLog.LogMeaningSinceDecision` | examples/apalis-durable/src/store.rs:224-240 | For every log, from the last decision about a frozen step on: a decision that gives a result is final, and one that clears the step starts the same reading anew from the highest epoch accepted until then |
| `DurableLog.ViewFromLog` | examples/apalis-durable/src/store.rs:176-246 | From any record that leaves a step without a result, and as far as no decision about it is recorded, the folded view is what the log means |
| `DurableLog.AnswerIsFinal` | examples/apalis-durable/src/store.rs:176-246 | Extending the log never changes what was frozen, and changes an answer only through a recorded reconciliation |
| `DurableProtocol.ReconstructDeadline` | examples/apalis-durable/src/main.rs:48-57 | A persisted deadline is expired exactly when it is not in the future; otherwise the rest of it remains |
| `DurableProtocol.EveryRunIsFenced` | examples/apalis-durable/src/store.rs:191-223 | In every run a claimed or launched step is so under its highest epoch, and every epoch handed out is at most the highest |
| `DurableProtocol.EpochsIncrease` | examples/apalis-durable/src/main.rs:121-137 | Every epoch handed out for a step, by admission or by recovery, exceeds all earlier ones |
| `DurableProtocol.SupersededWorkerChangesNothing` | examples/apalis-durable/src/store.rs:200-216 | A launch or settlement under an epoch older than one handed out changes nothing |
| `DurableProtocol.NoSilentRelaunch` | examples/apalis-durable/src/main.rs:110-139 | After an accepted launch no delivery of the step is told to run until somebody records that it had no effects |
| `DurableProtocol.OneAcceptedResult` | examples/apalis-durable/src/store.rs:208-216 | Two accepted results of one step are separated by a recorded decision that the first had no effects |
| `DurableProtocol.HighestIsLastIssued` | examples/apalis-durable/src/main.rs:121-137 | In every run a step's highest epoch is the last one handed out for it, by admission or recovery |
| `DurableProtocol.SettlementCountsIff` | examples/apalis-durable/src/store.rs:208-216 | In every run a settlement under an epoch once handed out is accepted exactly when no later epoch was handed out for the step and the step has no result |
| `DurableProtocol.ClearedWorkerMaySettle` | examples/apalis-durable/src/store.rs:224-240 | After a decision that a lost launch had no effects, and until something else decides the step, a worker from before the decision can settle exactly as long as no epoch was handed out since its own |
| `DurableProtocol.LostWorkerSettlesAfterClearing` | examples/apalis-durable/src/store.rs:208-240 | A concrete run: freeze, admit, launch, recover, decide that there were no effects, and the lost worker's settlement is accepted |
| `LogFile.ReplayWritten` | examples/apalis-durable/src/store.rs:137-174 | A log written record by record replays as itself |
| `LogFile.ReplayAfterAppends` | examples/apalis-durable/src/store.rs:137-174 | Appending to a terminated file replays as the old records followed by the new |
| `LogFile.ReplayTorn` | examples/apalis-durable/src/store.rs:144-158 | A last line cut at any character replays as all records or all but the last |
| `LogFile.AppendAfterTear` | examples/apalis-durable/src/store.rs:163-174 | An append made after a line was written in part, its line break missing, loses both records, and only then |
| `DurableRestart.RestartsAreInvisible` | examples/apalis-durable/src/store.rs:133-174 | As long as every process finds a newline-terminated file, a run with crashes and restarts is store by store a run without them |
| `DurableRestart.EpochsIncreaseAcrossRestarts` | examples/apalis-durable/src/main.rs:121-137 | Epochs handed out before and after any number of such restarts increase |
| `DurableRestart.NoSilentRelaunchAcrossRestarts` | examples/apalis-durable/src/main.rs:110-139 | A launch accepted before any number of such restarts is not told to run again without a recorded decision |
| `DurableRestart.AppendAfterTearSurvivesIff` | examples/apalis-durable/src/store.rs:144-174 | What the operation after a torn write appended is found by the next process exactly when the tear left whole lines; otherwise it and the torn operation are lost |
| `DurableRestart.EpochReissuedIff` | examples/apalis-durable/src/main.rs:121-137 | The epoch admitted right after a tear, or an older one, is handed out again exactly when the tear did not leave whole lines |
| `DurableRestart.LaunchForgottenIff` | examples/apalis-durable/src/main.rs:118-137 | A launch accepted right after a tear, whatever was being written, is forgotten, and its step told to run again under the next epoch, exactly when the tear did not leave whole lines |
| `TornRuns.ReplayOfWrites` | examples/apalis-durable/src/store.rs:151-190 | After any number of writes, each torn anywhere or whole, a file replays exactly the records written whole to a newline-terminated file, and at most one more, a last record that lacks only its line break |
| `TornRuns.ReplayOfRun` | examples/apalis-durable/src/store.rs:151-190 | In every run of the host, with any number of tears and restarts, that is what each process finds |
| `DurableRestart.EpochHandedOutTwice` | examples/apalis-durable/src/main.rs:121-137 | A concrete run with one torn write hands out epoch 1 twice |
| `CodecExists.SoundCodecExists` | examples/apalis-durable/src/store.rs:154 | Some encoding meets all the laws assumed of the record encoding, so nothing proved from them is empty |
| `DurableStore.BoundedOutput` | examples/apalis-durable/src/store.rs:324-333 | A long output is cut at the last character boundary within the limit and marked; a short one is kept |
| `DurableStore.DurableStore.Open` | examples/apalis-durable/src/store.rs:137-160 | Opening folds what the file replays |
| `DurableStore.DurableStore.ApplyRecord` | examples/apalis-durable/src/store.rs:176-246 | In-place update of the maps is the fold step |
| `DurableStore.DurableStore.Append` | examples/apalis-durable/src/store.rs:163-174 | The file gains one line, the state one fold step, and a store in step with its file stays so |
| `DurableStore.DurableStore.RecoverLost` | examples/apalis-durable/src/store.rs:267-302 | In key order, every lost claim is re-fenced under the next epoch and every lost launch left uncertain; exactly these are logged and reported, in that order, and nothing else changes |
| `DurableStore.RecoveryIsOneByOne` | examples/apalis-durable/src/store.rs:278-300 | A whole recovery is one recovery operation for each lost step, in key order |
| `KeyOrder.SortedUnique` | examples/apalis-durable/src/store.rs:269-276 | There is one order in which the ordered map is visited |
| `DurableStore.DurableStore.Admit` | examples/apalis-durable/src/main.rs:81-139 | A delivery is answered as the first applicable rule says; only an admission writes, and it claims the step under the epoch it returns |
| `DurableStore.DurableStore.Execute` | examples/apalis-durable/src/main.rs:142-169 | The result is committed exactly when the epoch is not superseded and the step is not settled; otherwise the state is unchanged |
| `DurableStore.DurableStore.Freeze` | examples/apalis-durable/src/main.rs:353-370 | The first freeze of a step counts; later ones change nothing |
| `DurableStore.LaunchThenSettle` | examples/apalis-durable/src/main.rs:147-168 | Launching and settling under one epoch settles the step or does nothing |
| `LocalRun.RunKeepsInv` | examples/apalis-local/src/main.rs:172-391 | Over every interleaving: the owned call is held exactly while pending or claimed; epochs are unique; each settled step has exactly one result sent or on its way; every counter is the size of what it counts |
| `LocalRun.KeepsCounted` | examples/apalis-local/src/main.rs:203-375 | launches = launched + terminal + uncertain records, and claims = epochs issued, after every operation |
| `LocalRun.AtMostOnce` | examples/apalis-local/src/main.rs:252-340 | Each identity launches, calls its provider and settles at most once |
| `LocalRun.EpochsNeverReissued` | examples/apalis-local/src/main.rs:214-250 | Claim epochs increase over the whole run, across all steps |
| `LocalRun.PublishedAtMostOnce` | examples/apalis-local/src/main.rs:312-390 | No step has two results sent |
| `LocalRun.AcceptedResultIsTheAnswer` | examples/apalis-local/src/main.rs:312-342 | The result of the accepted completion is the only one waiters can be told, however the sending is interleaved |
| `LocalRun.EveryAnswerHasASource` | examples/apalis-local/src/main.rs:312-390 | Whatever waiters are told is an accepted completion or the loss of the launch |
| `LocalRun.DrainedHostsHaveAnswered` | examples/apalis-local/src/main.rs:337-384 | With no send outstanding, waiters of exactly the settled steps have an answer |
| `LocalRun.IdentityIsPermanent` | examples/apalis-local/src/main.rs:172-212 | A later registration is refused exactly when its work differs from the first, and a launch hands over the first registration's work |
| `LocalRun.ClaimedCallIsThere` | examples/apalis-local/src/main.rs:266-268 | A held claim never finds its call gone |
| `LocalRun.LostWorkersAreFenced` | examples/apalis-local/src/main.rs:351-391 | A claim granted before a reconciliation is refused by every operation after it, without effect |
| `LocalRun.DeliveriesAddUp` | examples/apalis-local/src/main.rs:214-250 | Deliveries are claims plus duplicate skips plus epoch overflows, and there are none of the last until the counter is exhausted |
| `LocalRunStore.LocalRunStore.Register` | examples/apalis-local/src/main.rs:172-212 | Updates fields as the specification says: new identity, replay, or collision |
| `LocalRunStore.LocalRunStore.Claim` | examples/apalis-local/src/main.rs:214-250 | A pending step is claimed under the next epoch; overflow counts the delivery alone; anything else is a counted skip |
| `LocalRunStore.LocalRunStore.Launch` | examples/apalis-local/src/main.rs:252-277 | Only the claim holding the step takes its call |
| `LocalRunStore.LocalRunStore.NoteProviderCall` | examples/apalis-local/src/main.rs:279-310 | Only the launched epoch records its provider call, once |
| `LocalRunStore.LocalRunStore.Complete` | examples/apalis-local/src/main.rs:312-339 | Only the launched epoch that called its provider settles; the result leaves the lock unsent |
| `LocalRunStore.LocalRunStore.Publish` | examples/apalis-local/src/main.rs:341-342 | Sending replaces what waiters can read, outside the lock |
| `LocalRunStore.LocalRunStore.ReconcileWorkerLoss` | examples/apalis-local/src/main.rs:351-391 | Lost claims become pending, lost launches uncertain; both are reported completely and in reference order |
| `LocalRunStore.Sweep` | examples/apalis-local/src/main.rs:355-375 | The loop over the records changes exactly the claimed and launched ones |
| `EventChannel.RetentionIsBounded` | crates/tower-agent/src/event.rs:205-273 | For any number of emitters interleaving at atomic steps: the counter equals reserved + queued + taken + abandoned bytes and never exceeds the ceiling; received events are a prefix of accepted ones in order |
| `EventChannel.NothingWraps` | crates/tower-agent/src/event.rs:205-273 | No addition overflows and no subtraction underflows the machine word |
| `EventChannel.BudgetHoldsIffSummable` | crates/tower-agent/src/event.rs:242-264 | The byte budget holds in every run exactly when the two limits sum within a word |
| `EventChannel.FullIsHonest` | crates/tower-agent/src/event.rs:250-253 | A call refused for the budget itself read a counter that left no room |
| `EventChannel.RetryMeansProgress` | crates/tower-agent/src/event.rs:254-262 | A retry that is not spurious means another emitter or the receiver moved the counter since this call's last look |
| `EventChannel.QuietMeansEmpty` | crates/tower-agent/src/event.rs:205-273 | When all calls have returned and the consumer has caught up, the whole budget is free and everything accepted was received |
| `EventChannel.StepKeepsInv` | crates/tower-agent/src/event.rs:205-273 | Every atomic step keeps the exact counter and the order of events |
| `Emission.TryEmit` | crates/tower-agent/src/event.rs:242-273 | Under any finite interference and finitely many spurious failures the call ends, enqueues its event once if it returns Ok and never otherwise, and keeps no reservation; undisturbed it is one atomic test-and-append |
| `Emission.Reserve` | crates/tower-agent/src/event.rs:248-263 | The compare-exchange loop ends with a reservation or a refusal |
| `Emission.TryRecv` | crates/tower-agent/src/event.rs:215-220 | Taking an event releases exactly its bytes |
| `Partial.OverBinds` | crates/tower-agent-plan/src/partial.rs:53-66 | At every path a layer wins where it binds and leaves alone where it does not, optional provider groups included |
| `Partial.OverAssociates` | crates/tower-agent-plan/src/partial.rs:48-134 | Folding layers is associative |
| `Partial.UnboundIsNeutral` | crates/tower-agent-plan/src/partial.rs:23-66 | The default turn is neutral on both sides |
| `Partial.StackBindsHighest` | crates/tower-agent-plan/src/partial.rs:48-66 | A stack of layers binds at each path what its highest binding layer does |
| `Resolve.FindAnsweredProvider` | crates/tower-agent-plan/src/resolve.rs:183-188 | The early scan finds the first provider answer that names a provider |
| `Resolve.MergeUpper` | crates/tower-agent-plan/src/resolve.rs:172-179 | The layers above the baselines are folded lowest first |
| `Resolve.ApplyAnswers` | crates/tower-agent-plan/src/resolve.rs:200-229 | Answers fill unbound paths in order, and each unfair one is complained about |
| `Resolve.CheckValues` | crates/tower-agent-plan/src/resolve.rs:231-278 | Every malformed bound value is diagnosed, in order |
| `Resolve.ResolveLayers` | crates/tower-agent-plan/src/resolve.rs:152-313 | One pass returns the outcome its stages determine: all diagnostics, else the requirements, else the merged turn |
| `Planning.SelectionAgrees` | crates/tower-agent-plan/src/resolve.rs:181-215 | The early provider scan agrees with the binding the later answer loop arrives at |
| `Planning.ComplaintsMeanUnfair` | crates/tower-agent-plan/src/resolve.rs:200-229 | No answer is complained about exactly when all are known, unrepeated, for unbound paths, and name a provider where they should |
| `Planning.OutcomeIsExact` | crates/tower-agent-plan/src/resolve.rs:280-313 | A pass is refused exactly when layers conflict, an answer is unacceptable or a value malformed; otherwise it asks exactly when provider or prompt is unbound |
| `Planning.EveryPathHoldsTheHighest` | crates/tower-agent-plan/src/resolve.rs:33-38 | Every path holds the highest binding among answers, explicit request, profile, application defaults and the baseline of exactly the resolved provider |
| `Planning.AskedIsUnbound` | crates/tower-agent-plan/src/resolve.rs:284-310 | A pass asks for exactly the unbound ones of provider and prompt, none of them sensitive |
| `Planning.AskingConverges` | crates/tower-agent-plan/src/resolve.rs:152-313 | If two passes both ask, the second with further answers, the second asks for strictly less |
| `Planning.AnsweringAllCompletesIff` | crates/tower-agent-plan/src/resolve.rs:152-313 | Answering every requirement once completes exactly when provider answers name providers, the chosen baseline binds no answered prompt, and the overlaid values are well formed |
| `PlanRequest.BuildExplicit` | crates/tower-agent-mcp/src/plan.rs:204-236 | The explicit layer holds the prompt and, from a continuation, the session and the provider that owns it, or else the provider named, if the name is known; a continuation that is refused, or owned by a provider nobody knows, ends the request |
| `PlanRequest.UnknownNameIsNoName` | crates/tower-agent-mcp/src/plan.rs:228-236 | A request naming an unknown provider is the same request as one naming none |
| `PlanRequest.UnknownNameMeetsDefaults` | crates/tower-agent-mcp/src/plan.rs:228-242 | An unknown name never makes a diagnostic; a first pass that is not refused asks for a provider exactly when the defaults bind none, and otherwise goes on with theirs |
| `PlanRequest.FaultsAreAboutValues` | crates/tower-agent-plan/src/resolve.rs:231-278 | Whatever is diagnosed of bound values is about prompt, model or session, none about which provider was named |
| `PlanRequest.KnownNameBinds` | crates/tower-agent-mcp/src/plan.rs:228-242 | A known name wins over the defaults and is never asked about |
| `PlanRequest.ContinuationSettlesProvider` | crates/tower-agent-mcp/src/plan.rs:209-227 | A continuation settles the provider: it is never asked about, and a launched turn runs on it |
| `PlanRequest.MisspeltWithoutDefaults` | crates/tower-agent-mcp/src/plan.rs:228-236 | The name "codx" is asked about where the host has no default provider |
| `PlanRequest.MisspeltWithDefaults` | crates/tower-agent-mcp/src/plan.rs:228-236 | Where the default is the other provider, the same request is launched on that one without a question |
| `Elicitation.Elicit` | crates/tower-agent-mcp/src/plan.rs:283-381 | Only text fields of an accepted form become answers; every other reaction is its own refusal |
| `Elicitation.Run` | crates/tower-agent-mcp/src/plan.rs:238-280 | The round loop resolves and elicits until a verdict or the rounds run out |
| `Elicitation.AtMostTwoElicitations` | crates/tower-agent-mcp/src/plan.rs:238-280 | Whatever the client does it is asked at most twice |
| `Elicitation.ThreeRoundsDecide` | crates/tower-agent-mcp/src/plan.rs:238-280 | The refusal for not resolving can happen exactly when fewer than three rounds are allowed |
| `Elicitation.VerdictsAreEarned` | crates/tower-agent-mcp/src/plan.rs:236-296 | A turn is launched only from a coherent overlay with provider and prompt bound; the sensitive-requirement refusal never arises |
| `Errors.CombineIsTheWorse` | crates/tower-agent/src/error.rs:132-138 | Combining effect states yields the more severe of the two |
| `Errors.CombineAssociates` | crates/tower-agent/src/error.rs:132-138 | Combining is associative |
| `Errors.MergeEvidenceAssociates` | crates/tower-agent/src/response.rs:133-149 | Left-biased evidence merging is associative and absence is neutral |
| `Errors.WrappingKeepsTheRoot` | crates/tower-agent/src/error.rs:341-356 | However many failures are folded around one, its effects are never lowered, every fact it had still has a value, and it stays in the cause chain |
| `Middleware.CalledIffAdmitted` | crates/tower-agent/src/layer/fault.rs:129-191 | Through any stack the provider is called exactly when no layer refuses |
| `Middleware.EffectsAreExact` | crates/tower-agent/src/layer/deadline.rs:52-147 | A failure leaving any stack claims what the provider established, made doubtful by an interruption on the way, and nothing else |
| `Middleware.EvidenceIsExact` | crates/tower-agent/src/layer/limit.rs:67-87 | No stack of layers invents, drops or alters evidence or waiting guidance |
| `Middleware.ProviderFailureStaysReachable` | crates/tower-agent/src/layer/fault.rs:176-190 | The provider's own failure ends the call as a failure and stays among its causes |
| `Middleware.SucceedsIff` | crates/tower-agent/src/layer/limit.rs:67-87 | A call succeeds exactly when the provider does and every layer lets that outcome through |
| `Middleware.PanicEscapesIff` | crates/tower-agent/src/layer/catch_panic.rs:60-88 | A provider's panic escapes exactly when the call reached it and no layer catches it |
| `Middleware.FailuresAreHonest` | crates/tower-agent/src/layer/deadline.rs:122-147 | An effect-free failure means a call never made or a provider that said so; a settled turn can only fail as reported, with exactly its facts |
| `Middleware.ReadinessPanicClaimsNothing` | crates/tower-agent/src/layer/catch_panic.rs:45-58 | A panic while becoming ready is turned into an effect-free failure exactly under a catching layer, and no request was handed on |
| `Stalls.EndsAsSeen` | crates/tower-agent/src/layer/fault.rs:129-168 | A timed call through any stack ends as the untimed call through the stack it meets, so every law of those holds of it |
| `Stalls.CallMadeAt` | crates/tower-agent/src/layer/fault.rs:143-149 | With the inner call made before the stall, or after it: the provider is called exactly when nothing refuses and no stop has come when the innermost deadline layer looks, and when exactly |
| `Stalls.StallsKeepNoCallBack` | crates/tower-agent/src/layer/fault.rs:143-149 | As written, stalls never keep a call from being made, and it is made at once |
| `Stalls.OrdersDisagreeIff` | crates/tower-agent/src/layer/fault.rs:21-26 | The two orders disagree on whether the provider is called exactly when a stop comes after the call and no later than the innermost deadline layer is reached through stalls around it |
| `Stalls.StopFindsCallMadeIff` | crates/tower-agent/src/layer/fault.rs:21-26 | A stop after the call finds the provider called, exactly when nothing refuses; with the stall first, exactly when in addition the stalls were over by then, and those around the innermost deadline layer before then |
| `Stalls.InterruptedStall` | crates/tower-agent/src/layer/fault.rs:143-149 | A stop during the stalls inside a deadline layer finds the call made: it ends neither in success nor in a failure without effects |
| `Stalls.CancelledInStall` | crates/tower-agent/src/layer/fault.rs:143-149 | A concrete stack and cancellation under which the provider is called and its turn reported, where the stall coming first would have refused the request as never launched |
| `Middleware.FaultScript.Inject` | crates/tower-agent/src/layer/fault.rs:129-168 | Each call takes the next fault of the shared script and meets exactly that fault |

## Left out

- DurableProtocol.EpochsIncrease: epochs are unbounded; the source's 64-bit epoch would overflow after 2^64 - 1 claims of one step.
- DurableProtocol.NoSilentRelaunch: bounds accepted launches and admissions, not provider calls; the host calls its provider without checking that its launch record was accepted.
- DurableStore.DurableStore.Append: a write that fails or is cut short by an error return is not modelled; a crash in the middle of one is, as a torn file.
- CodecExists.SoundCodecExists: shows that the assumed laws can be met, not that the JSON library meets them; they are assumed of it from section 7 of RFC 8259.
- DurableRestart.RestartsAreInvisible: one process at a time holds the store; a crash inside a recovery falls between two of its steps or inside one.
- LogFile.ReplayTorn: tears lie between characters; a tear inside an encoded character makes the line reader fail instead.
- LocalRunStore.LocalRunStore.Publish: the revision counter and the wake-up of waiters are left out, and counters do not wrap.
- Emission.TryEmit: the source's loop has no bound of its own; a call that is interfered with for ever is not modelled.
- Execution.Execute: the runner's variables are held in one value rather than in separate collections; run, workflow and version identities carried through to the result are left out, as is the input shared by all steps.
- EventChannel.RetentionIsBounded: atomic accesses are sequentially consistent and the bounded queue is one first-in first-out queue whose slot is freed when an event is taken.
- Partial.OverBinds: partial turns are values, and folding a layer in returns the result instead of assigning fields; a monetary amount is a real number and a JSON schema its text.
- Elicitation.Run: the shape of the form and the launch that follows are left out; the provider planner is a parameter that accepts or refuses a complete turn.
- PlanRequest.BuildExplicit: how a continuation is looked up, authorised and refused is a parameter; of a refusal only the fact is kept.
- Stalls.EndsAsSeen: time is a whole number; when a provider finishes is a function of when it is called and first polled; that a passed deadline also cancels the token shows only in which reason a layer names.
- Middleware.EffectsAreExact: messages are left out; the supervising layer's runtime is assumed to outlive the call.
- Process launch, argument and environment construction, temporary files and schema checks of the provider adapters.
- Clocks, wakers, pinning, dropped futures and memory ordering.
- Queue transport, protocol types, command-line parsing, redaction and display text.
- Continuation storage, session handles, routing and the error mapping tables, which are settled by reading one branch.
- `WorkflowDefinition::single`, `roots` and accessors, which would add only easy members.
