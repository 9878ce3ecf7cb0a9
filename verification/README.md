# Mirabilis: verified models of the workflow engine and its durable state

Mirabilis launches a development environment through a small workflow engine: a list of
steps with dependencies, some of them run in parallel, some of them waiting for the user,
each of them with retries, a time budget and cancellation.  Around the engine stand a few
pieces of durable or shared state: an outbox of notifications, JSON settings rewritten by
several steps, a broadcast of subsystem health, a `.env` store, loadout manifests, and
secrets in the keychain.  This project models the logic of those parts in Dafny 4.11 and
proves what they promise.  `dafny verify dfyconfig.toml` checks everything.

## How the parts are modelled

- **Commands, Steps, Calls, Schedule, Pipelines** model `pipeline.New` and `Run`.  `Steps.Act` is
  one atomic action of `runStep`/`runAttempts`; the goroutines of a parallel batch move
  action by action, in any order.  Everything the engine cannot decide (answers of Check and
  Run, effects, the moment of cancellation, which goroutine is next) is a function of a tick
  counter, so a theorem about all environments is a theorem about all schedules.  The log
  holds every call, with its answer, and every event in one global order.
- **Attempt** models `attempt`, `deliver`, `settle`, `setWaiting`, `takeWaiting` and `Resume`
  as a labelled transition system of four actors over an integer clock.
- **Batches** models the batch node: Kahn-style layering, and running wave by wave;
  **Contraction** compares runs of a list with runs of the list that has a batch in it.
- **Extractor** models the token extractor, with its buffer grown and compacted in place.
- **Outbox** is the watcher with its attempt tracker over a directory of job and status
  files; **OutboxFiles** is the same directory one file operation at a time, with crashes.
- **Obs** is the status broadcast, consumers receiving between any two channel operations.
- **Settings** is the recursive merge; **JsonLock** interleaves locked rewrites of JSON files.
- **EnvFile**, **Loadouts**, **Keychain** (with **Base64**) are the remaining stores.

## What came out differently from the documentation

- `internal/engine/steps/steps.go:65-70` says that batched and listed steps have identical
  semantics.  The batch checks every command before it runs it; the pipeline checks a hand-off
  only before a repeated attempt.  `Contraction.ContractionPreservesMeaning` shows that, for
  optional commands, the same Runs are called if and only if every hand-off among them has an
  unsatisfied Check; `Contraction.HandoffIsSkipped` gives an input where they are not.
- The extractor agrees with the whole stream, for every chunking, exactly when the stream is
  stable in the sense of `Extractor.Stable`: nothing matches, or the stream ends within 4096
  bytes of the start of its last match, or that match has at most 4097 bytes and no second
  start in it.  Streams whose matches have at most 4096 bytes and one prefix each are stable.
- A step may ask again before its first question is answered.  That is harmless until the loop
  registers a question while an answer is on its way: exactly then a winning Resume can find
  the channel full (`Attempt.WinnerBlocksIff`), and, if budget is left, the timer can run
  during a wait (`Attempt.TimerRunsInWaitIff`).
- Pruning goes on to remove the status file when the job file could not be removed; exactly
  then a job that had a status becomes pending again (`OutboxFiles.FailedRemovalResurrects`).
- A second run of the settings step changes the file once more exactly when the first one had
  to copy a seed that has a `sandbox` key (`Settings.StepIsIdempotent`, and
  `Settings.SandboxGoesLater` for such an input).
- The settings step and settings-env write the same file, and `env` is a managed key.  When the
  settings step merges a seed with an `env` of its own after settings-env has worked, the
  settings of settings-env are gone (`JsonLock.EnvIsLost`).  `JsonLock.ManagedKeptIff` says
  exactly which seeds leave a managed key as somebody wants it, `JsonLock.InstallKeepsIff` the
  same for any key and value; apart from such merges every writer's value survives
  (`JsonLock.WriterSurvives`).
- Two secrets whose keys differ by a trailing `-token` share a keychain entry: the entry of the
  longer key is the legacy entry of the shorter one.  Migrating the shorter key deletes the
  entry of the longer one; migrating the longer key makes its value the legacy value of the
  shorter one.  `Keychain.MigrationSafeIff` says exactly when another key keeps its value.
- The `len(batch) == 0` branch of `Run` (`internal/engine/pipeline/pipeline.go:107-115`) is
  never taken: `Pipelines.Pipeline.RunGroup` proves it.

## Model

| member | source | states |
|---|---|---|
| Attempt.EveryRunIsSafe | internal/engine/pipeline/pipeline.go:307-422 | in every interleaving of step, loop, Resume callers and context, each registered wait gets at most one answer, from the winning Resume or the Cancelled result; the step only receives such answers; the slot is empty once the attempt is over |
| Attempt.OutcomeIsExact | internal/engine/pipeline/pipeline.go:398-404 | in every interleaving an attempt that is over has succeeded if and only if Run returned no error, and timed out if and only if Run returned an error after the timer had run out; an answer by Resume is the one its caller passed, and the context is done only by a cancellation |
| Attempt.StepIsServed | internal/engine/pipeline/pipeline.go:332-396 | a running step is never kept waiting: its events and its return are always taken, and a step that has returned can be settled |
| Attempt.EveryRunIsOrderly | internal/engine/pipeline/pipeline.go:307-396 | for steps that ask again only once answered, one answer token moves through slot, caller, channel and delivery while a question is open, and the timer stands exactly while a wait is open |
| Attempt.WinningResumeNeverBlocks | internal/engine/pipeline/pipeline.go:202-214 | a Resume that emptied the slot always finds room in the channel, also when the attempt ended meanwhile |
| Attempt.AnswersArriveInOrder | internal/engine/pipeline/pipeline.go:332-396 | the k-th answer the step receives is the one decided for its k-th wait |
| Attempt.TimeoutBudgetIsExact | internal/engine/pipeline/pipeline.go:317-371 | the timer is disarmed while a wait is registered; the non-waiting time has reached the timeout if and only if the step timed out, the timer is about to fire, or the open wait will time it out when answered |
| Attempt.TimerFiresIff | internal/engine/pipeline/pipeline.go:317-366 | the timer fires exactly when it is armed and the non-waiting time has used the budget up |
| Attempt.CancelledWaitIsAnswered | internal/engine/pipeline/pipeline.go:371-396 | after cancellation an open question always has an enabled action that brings its answer closer, and no other actor takes it further away |
| Attempt.WinnerBlocksIff | internal/engine/pipeline/pipeline.go:202-214 | a winning Resume may find the channel full if and only if the loop registered a question while an earlier answer was still on its way |
| Attempt.TimerRunsInWaitIff | internal/engine/pipeline/pipeline.go:337-363 | the timer may run during a registered wait if and only if a question was registered while an answer was on its way and budget was left |
| Attempt.AskingTwiceBlocksAWinner | internal/engine/pipeline/pipeline.go:202-214 | a run in which a winning Resume blocks |
| Attempt.AskingTwiceRunsTheTimer | internal/engine/pipeline/pipeline.go:337-363 | a run in which the timer runs although a wait is registered |
| Steps.KeptStep | internal/engine/pipeline/pipeline.go:225-291 | every action of a step keeps: no verdict before the end, one verdict at the end (none only when cancelled), as many Runs as its attempt number says |
| Steps.OnTrackStep | internal/engine/pipeline/pipeline.go:225-291 | with fixed outcomes the step ends with the verdict those outcomes determine, and its Run is called exactly when its Check was not satisfied or it is a hand-off |
| Steps.RankDecreases | internal/engine/pipeline/pipeline.go:269-291 | a step ends after finitely many actions, retries included |
| Steps.RunsLeftStep | internal/engine/pipeline/pipeline.go:269-291 | with fixed outcomes every call of Run is one of the number the outcomes determine |
| Steps.AnnouncedFirst | internal/engine/pipeline/pipeline.go:243-245 | no attempt before the step was announced |
| Steps.HoldsStep | internal/engine/pipeline/pipeline.go:225-291 | a step that ends done satisfies its Check, when Run makes its own Check true |
| Calls.ToldStep | internal/engine/pipeline/pipeline.go:225-291 | whatever the answers and however they change: Checks and Runs alternate, only an answer that lets the step go on is followed by another call, the last answer decides the verdict, and only a done context stops a step that its answers would let go on |
| Schedule.ActKeepsTold | internal/engine/pipeline/pipeline.go:170-291 | any action of any running step keeps every step where its answers led it, calls only after the dependencies, and an end without a call only behind a failed dependency or, unreported, in a done context |
| Schedule.ActKeeps | internal/engine/pipeline/pipeline.go:170-291 | any action of any running step keeps the invariant of the whole pipeline: guarded starts, settled dependencies, one verdict each, reference outcomes, satisfied Checks |
| Schedule.SpentAct | internal/engine/pipeline/pipeline.go:269-306 | after a Run a step makes another call only when it has since found the context alive and a sleep has ended after that |
| Steps.WritesTruth | internal/engine/pipeline/pipeline.go:237-240 | a step is reported as satisfied if and only if it ended done without a call of Run |
| Schedule.ReleaseKeeps | internal/engine/pipeline/pipeline.go:97-98 | starting a step whose dependencies have settled unfailed keeps the invariant |
| Schedule.BlockKeeps | internal/engine/pipeline/pipeline.go:90-96 | skipping a step with a direct dependency that was reported failed keeps the invariant |
| Schedule.NotBlocked | internal/engine/pipeline/pipeline.go:216-223 | a step with settled, unfailed dependencies is not blocked in the one-by-one reference outcome |
| Schedule.ActKeepsMeter | internal/engine/pipeline/pipeline.go:269-291 | every step has called its Run as often as its place in that number says |
| Pipelines.Pipeline.New | internal/engine/pipeline/pipeline.go:32-65 | a list is accepted exactly when names are nonempty and distinct and every dependency stands earlier; a refusal names a true reason |
| Pipelines.Pipeline.FailedDep | internal/engine/pipeline/pipeline.go:216-223 | the first failed dependency, found if and only if there is one |
| Pipelines.Pipeline.CollectAutoBatch | internal/engine/pipeline/pipeline.go:137-162 | the longest run of consecutive parallel steps that are not blocked and do not depend on each other |
| Pipelines.Pipeline.RunStep | internal/engine/pipeline/pipeline.go:225-258 | one step runs to its end and keeps the invariant |
| Pipelines.Pipeline.Spawn | internal/engine/pipeline/pipeline.go:173-186 | one goroutine for each member of a batch |
| Pipelines.Pipeline.RunMembers | internal/engine/pipeline/pipeline.go:177-190 | the goroutines end, in every interleaving, and touch no step outside the batch; if the context is done before any has begun, none makes a call |
| Pipelines.Pipeline.RunAutoBatch | internal/engine/pipeline/pipeline.go:170-200 | the results are the states of exactly the members, the errors those of the failed ones |
| Pipelines.Pipeline.RunAlone | internal/engine/pipeline/pipeline.go:97-105 | one step recorded in the states map |
| Pipelines.OrderGrows | internal/engine/pipeline/pipeline.go:83-126 | steps that run after all others, alone or several that may run at once, keep the log in the order of the list |
| Pipelines.StopsGrow | internal/engine/pipeline/pipeline.go:83-87 | steps that begin while the context is alive keep the promise that nothing later begins once it is done |
| Pipelines.Pipeline.Turn | internal/engine/pipeline/pipeline.go:177-185 | any goroutine of the batch that has not returned may move next; its action keeps the invariant and is about a member |
| Pipelines.Pipeline.RunCollected | internal/engine/pipeline/pipeline.go:116-125 | a collected batch leaves the record, the invariant and the order of the log intact |
| Pipelines.Pipeline.RunGroup | internal/engine/pipeline/pipeline.go:106-125 | a batch recorded in the states map; the batch is never empty |
| Pipelines.Pipeline.PickErr | internal/engine/pipeline/pipeline.go:120-124 | the first error stays; otherwise a failed member provides one |
| Pipelines.Pipeline.Run | internal/engine/pipeline/pipeline.go:69-79 | a pipeline runs once; a second call changes nothing |
| Pipelines.Pipeline.RunSteps | internal/engine/pipeline/pipeline.go:80-135 | a Check or Run starts only when all dependencies have settled unfailed; each step settles at most once; the run reports cancellation if and only if the context was done at its last look, and once it is done no later step begins that could not run beside the ones before, and no step calls anything after a Run before it has found the context alive again and has slept; in every run, whatever the answers and however they change, a step behind a direct dependency that failed makes no call and can only be skipped, and any other makes the calls its answers ask for, in order, and is judged by the last of them; unless the run reports cancellation these are all the calls asked for, and every step has its verdict; a step is reported as satisfied exactly when its Run was never called; optional steps never fail; steps overlap only when both are parallel and independent, otherwise the log follows the list; EvPipelineDone is last and single; such a run fails exactly when a step failed |
| Pipelines.Pipeline.Finish | internal/engine/pipeline/pipeline.go:127-134 | the end of a run is reported once and agrees with the error returned |
| Pipelines.ReadyBatch | internal/engine/pipeline/pipeline.go:137-162 | all members of a collected batch may start at once |
| Pipelines.RecordBatch | internal/engine/pipeline/pipeline.go:116-125 | merging a batch's results keeps the states map the record of exactly the steps passed |
| Pipelines.Conclude | internal/engine/pipeline/pipeline.go:127-134 | the invariant at the end of the loop gives everything a run promises |
| Pipelines.FinalIgnoresParallel | internal/engine/pipeline/pipeline.go:97-125 | the reference outcome of a step does not depend on the Parallel flags |
| Pipelines.SerialIsOneByOne | internal/engine/pipeline/pipeline.go:97-105 | without Parallel flags the log goes through the steps one after the other |
| Pipelines.GroupingPreservesMeaning | internal/engine/pipeline/pipeline.go:80-162 | with fixed outcomes, two runs that do not report cancellation, one with batches and one step by step, settle every step alike, call its Run as often and fail in the same cases |
| Pipelines.RelaunchRunsHandoffsOnly | internal/engine/pipeline/contract.go:41-53 | after a run with all steps done, a second run calls Run on hand-offs only, and without hand-offs changes nothing |
| Batches.Waves | internal/engine/steps/batch.go:119-148 | for distinct names it fails exactly when the inner graph has a cycle; otherwise a partition into nonempty waves with every inner dependency in an earlier one |
| Batches.Partition | internal/engine/steps/batch.go:131-138 | the ready and the blocked commands, none lost, each in list order |
| Batches.StuckIsCyclic | internal/engine/steps/batch.go:139-141 | commands that all wait for each other contain a dependency cycle |
| Batches.LayeredIsAcyclic | internal/engine/steps/batch.go:119-148 | a graph that can be layered has no cycle |
| Batches.WaveIsLongestChain | internal/engine/steps/batch.go:119-148 | a command's wave is the length of its longest inner dependency chain, less one |
| Batches.TightIsShortest | internal/engine/steps/batch.go:119-148 | no valid layering puts a command earlier or has fewer waves |
| Batches.OuterDeps | internal/engine/steps/batch.go:159-177 | exactly the dependencies on steps outside the batch, each once |
| Batches.OuterDepsAreEarlier | internal/engine/steps/batch.go:21-28 | in an accepted list everything the batch depends on stands before it |
| Batches.CheckBatch | internal/engine/steps/batch.go:39-53 | satisfied exactly when every command passes; otherwise the first that does not decides |
| Batches.PlainStep | internal/engine/steps/batch.go:84-117 | in the terms of the pipeline: a command breaks its wave exactly when it would fail as a plain step without a retry, and its Run is wanted exactly when that step would call it |
| Batches.RunOne | internal/engine/steps/batch.go:84-117 | Run is called exactly on an unsatisfied Check; only a command that is not optional fails its wave |
| Batches.RunWave | internal/engine/steps/batch.go:68-76 | the commands of a wave that want it are run, and the wave fails exactly when one of them breaks it |
| Batches.RunWaves | internal/engine/steps/batch.go:67-81 | exactly the first waves up to one that fails or ends cancelled are run |
| Batches.FailureHasCause | internal/engine/steps/batch.go:74-79 | a batch that was not cancelled fails exactly when one of its commands breaks it |
| Batches.RunBatch | internal/engine/steps/batch.go:55-82 | commands run at most once, in a tight layering, fail-fast, and never behind a failed inner dependency; a cycle runs nothing; the batch fails exactly when a command breaks it |
| Batches.RunNode | internal/engine/steps/batch.go:39-82 | as a pipeline step: nothing runs when the Check is satisfied or fails; otherwise the node fails exactly on a cycle or a command that breaks it, and runs what wants to run |
| Batches.ListedIsAcyclic | internal/engine/pipeline/pipeline.go:47-59 | steps a pipeline accepts in this order have no inner cycle |
| Batches.BatchRunsTheListedSteps | internal/engine/steps/steps.go:65-88 | on the reference outcomes: a batch of optional commands calls the same Runs as the list, if and only if every hand-off among them has an unsatisfied Check |
| Contraction.ShortListIsAccepted | internal/engine/pipeline/pipeline.go:47-59 | a list with some steps contracted into a batch is accepted exactly when no later step depends on a contracted one |
| Contraction.SameOutside | internal/engine/pipeline/pipeline.go:80-135 | a step outside the batch has the same outcome and number of Runs in both lists |
| Contraction.NodeOutcome | internal/engine/steps/batch.go:39-82 | the batch node ends done, and is run once or, when no command wants it, never |
| Contraction.ContractionPreservesMeaning | internal/engine/steps/steps.go:65-88 | any run of the list and any run with the batch agree on every other step and on failure; the batch calls exactly the Runs the list calls, if and only if every hand-off in it has an unsatisfied Check |
| Contraction.HandoffIsSkipped | internal/engine/pipeline/pipeline.go:225-242 | the failing input: a hand-off with a satisfied Check is run by the list and not by the batch |
| Extractor.FindAllLast | internal/engine/claudeauth/setuptoken.go:50-52 | the last of the leftmost non-overlapping matches is the first start of the last run that starts a match |
| Extractor.TokenIsExtracted | internal/engine/claudeauth/setuptoken.go:21-21 | a token, spelled as sk-ant-oat01- and letters, digits, underscores or dashes, between other text and with none behind it, is extracted whole |
| Extractor.ExtractedIsToken | internal/engine/claudeauth/setuptoken.go:21-21 | nothing but tokens so spelled is extracted |
| Extractor.TailIsWindow | internal/engine/claudeauth/setuptoken.go:49-56 | after any writes the buffer holds exactly the last 4096 bytes, or all of them |
| Extractor.StableSuffices | internal/engine/claudeauth/setuptoken.go:46-61 | for a stable stream the token is the last match of everything written, whatever the chunking |
| Extractor.WrittenTokenIsFound | internal/engine/claudeauth/setuptoken.go:46-61 | a written token is found for every chunking while at most 4096 bytes have come since it began |
| Extractor.UnstableBreaks | internal/engine/claudeauth/setuptoken.go:46-61 | for any other stream some two writes give another token |
| Extractor.ChunkingIsIrrelevantIffStable | internal/engine/claudeauth/setuptoken.go:46-67 | the chunking never matters if and only if the stream is stable |
| Extractor.ShortMatchesAreStable | internal/engine/claudeauth/setuptoken.go:18-21 | streams whose matches have at most 4096 bytes and one prefix each are stable |
| Extractor.LongTokenIsUnstable | internal/engine/claudeauth/setuptoken.go:18-21 | a token of more than 4097 bytes is an unstable stream |
| Extractor.Extractor.Append | internal/engine/claudeauth/setuptoken.go:49 | the slice grows by the chunk, in place or in a larger array |
| Extractor.Extractor.Compact | internal/engine/claudeauth/setuptoken.go:53-56 | the overlapping copy in place leaves the last 4096 bytes |
| Extractor.Extractor.Write | internal/engine/claudeauth/setuptoken.go:46-61 | one write refines the step on values; other state is kept |
| Extractor.Extract | internal/engine/claudeauth/setuptoken.go:46-67 | writing the chunks of a stable stream one by one ends with its last match |
| Outbox.Watcher.WriteJob | internal/engine/notify/queue.go:38-50 | an empty ID is refused, otherwise the job is there and nothing else changed |
| Outbox.Watcher.WriteStatus | internal/engine/notify/queue.go:64-73 | an empty ID is refused; otherwise the status is there, or nothing changed |
| Outbox.Watcher.Deliver | internal/engine/notify/watcher.go:100-137 | one send of the text in the job file to its chat; success, a permanent failure or the third failure ends the job with a status, any other failure is counted |
| Outbox.Watcher.PruneDelivered | internal/engine/notify/queue.go:113-139 | both files of a job go exactly when its status is old enough |
| Outbox.Watcher.PendingJobs | internal/engine/notify/queue.go:87-111 | the jobs without a status, each once |
| Outbox.Watcher.Serve | internal/engine/notify/watcher.go:85-92 | one pending job is sent if its file can be read, while other processes add jobs |
| Outbox.Watcher.Arrive | internal/engine/notify/queue.go:38-50 | other processes add jobs; what is kept about the jobs with an ID of their own stays |
| Outbox.Watcher.Tick | internal/engine/notify/watcher.go:64-98 | a tick sends every job pending at its start once, fewer only when stopped or unreadable, and serves no job once stopped; a status at least as old as the retention goes with its job unless that was written again, everything else stays; it keeps what is kept about every job with an ID of its own and working status writes |
| Outbox.Watch | internal/engine/notify/watcher.go:24-41 | for each job whose ID nobody else writes and whose own status can be written, whatever happens to other jobs: at most three sends, one success, none after its status, counted correctly and below three while pending; if nothing keeps the watcher from it, it is sent in every tick until it has a status; whatever is sent was written; every status bears the time of a tick; a job file stays until a tick finds the status of its job as old as the retention |
| Outbox.FollowedAfterTick | internal/engine/notify/watcher.go:85-92 | a tick adds one send to every job not done with |
| Outbox.GoneAfterTick | internal/engine/notify/queue.go:113-139 | a tick removes job files only when their status was recorded at least the retention before |
| Outbox.LedgerSend | internal/engine/notify/watcher.go:106-119 | a send to a pending job keeps the promises about it |
| Outbox.LedgerRecord | internal/engine/notify/watcher.go:107-136 | recording the end of a job keeps them |
| Outbox.LedgerDeliver | internal/engine/notify/watcher.go:106-137 | a whole delivery keeps them, whether it ends the job or leaves it pending after a counted failure |
| Outbox.OthersKeep | internal/engine/notify/watcher.go:85-92 | what happens to other jobs does not matter to a job |
| OutboxFiles.NamesAreDistinct | internal/engine/notify/queue.go:141-146 | job, status and temporary files never share a name |
| OutboxFiles.PendingJobs | internal/engine/notify/queue.go:87-111 | the listed jobs without a listed status, in listing order |
| OutboxFiles.UnservedMeaning | internal/engine/notify/queue.go:101-109 | a job is listed as pending exactly when its file is there and its status is not |
| OutboxFiles.ListingIsPending | internal/engine/notify/queue.go:87-111 | what is found in a listing of the directory are its pending jobs |
| OutboxFiles.NoHalfWrittenJob | internal/engine/notify/queue.go:141-162 | with crashes anywhere, no half-written file stands under the name of a job or a status |
| OutboxFiles.OnlyOldJobsRemoved | internal/engine/notify/queue.go:121-137 | a job file disappears only when its status is at least as old as the retention |
| OutboxFiles.NoJobIsResurrected | internal/engine/notify/queue.go:113-162 | with crashes anywhere, fresh IDs and working job removals, no job that ever had a status is pending again |
| OutboxFiles.FailedRemovalResurrects | internal/engine/notify/queue.go:131-135 | in a run with fresh IDs, crashes anywhere and removals that may fail, some job with a past status is pending again if and only if a status was removed while its job file, not removed before, was there |
| OutboxFiles.ResurrectionStep | internal/engine/notify/queue.go:113-139 | the one operation that makes a job with a past status pending again |
| OutboxFiles.RemovalHadFailed | internal/engine/notify/queue.go:131-135 | the job file is still there only because its removal failed |
| OutboxFiles.AJobComesBack | internal/engine/notify/queue.go:131-135 | a run in which that happens |
| Obs.ReceivingKeeps | internal/obs/obs.go:70-89 | a consumer that receives at any moment stays in step |
| Obs.OfferKeeps | internal/obs/obs.go:75-87 | whether the old snapshot was dropped or received, the new one leaves the watcher in step |
| Obs.Obs.Drop | internal/obs/obs.go:79-82 | afterwards the buffer is empty, the old snapshot dropped or received |
| Obs.Obs.Offer | internal/obs/obs.go:75-87 | the second send always finds room |
| Obs.Obs.Set | internal/obs/obs.go:70-89 | when Set returns, every watcher has the new snapshot buffered or received it as its latest, consumers have seen genuine snapshots in increasing order, and no other channel was touched |
| Obs.Obs.Fetch | internal/obs/obs.go:70-103 | a receive between two Sets yields the current statuses, or nothing when they were received already |
| Obs.Obs.Watch | internal/obs/obs.go:97-103 | a new watcher at the end of the list, seeing only what is set from now on |
| Obs.Obs.Unwatch | internal/obs/obs.go:105-114 | the channel is no watcher any more; the others keep their order |
| JsonLock.Mutexes.PathMutex | internal/engine/provision/jsonlock.go:9-27 | one mutex for each path, made once |
| JsonLock.Outcome | internal/engine/provision/jsonlock.go:34-43 | a failed read, mutation or write leaves the file; a changed file holds the mutated document |
| JsonLock.EveryRunIsSerial | internal/engine/provision/jsonlock.go:29-44 | in every interleaving each file is what its operations make of it one after another, in the order in which they got the mutex |
| JsonLock.FailedUpdateChangesNothing | internal/engine/provision/jsonlock.go:34-43 | in every run a failing update changes no file |
| JsonLock.KeptInEveryRun | internal/engine/provision/jsonlock.go:29-44 | in every interleaving, what once holds of a file stays true when the operations that commit on this path keep it |
| JsonLock.UpdateKeepsIff | internal/engine/provision/jsonlock.go:34-43 | an update keeps it if and only if nothing is written or its mutation respects it |
| JsonLock.InstallKeepsIff | internal/engine/provision/settings.go:94-109 | for every outcome, the settings step keeps the value of a key if and only if it writes nothing, merges a seed that leaves the value, or copies a seed that has it |
| JsonLock.MergeLeavesIff | internal/engine/provision/settings.go:19-42 | the merge leaves a value if and only if the seed does not name the key, agrees, may not decide it, or adds nothing to the object |
| JsonLock.ManagedKeptIff | internal/engine/provision/settings.go:13-42 | for a managed key, what is wanted of it outlives a merge if and only if the seed does not name the key or the seed's own value will do |
| JsonLock.WriterSurvives | internal/engine/provision/settings.go:146-159 | in every interleaving, once a writer's own update has worked its value stays, whatever updates of other keys, updates of this key to the same effect and merges that keep it follow, however those end |
| JsonLock.EnvIsSpelled | internal/engine/provision/settingsenv.go:43-60 | settings-env sets ANTHROPIC_BASE_URL, and ANTHROPIC_AUTH_TOKEN if there is a token, inside the env object; its other settings and all other keys of the document stay |
| JsonLock.StepsAreHarmless | internal/engine/provision/settingsenv.go:43-60 | the writers of single keys and settings-env are such updates, any number of times |
| JsonLock.EnvIsLost | internal/engine/provision/settings.go:94-108 | a run in which the settings of settings-env are gone after the settings step merged a seed with an env of its own |
| Settings.MergeSettings | internal/engine/provision/settings.go:19-42 | the recursive loop over both key sets, in any order, computes the merge and ends |
| Settings.LevelsAreMerged | internal/engine/provision/settings.go:29-36 | the object at a shared path of the merge is the merge of the objects there |
| Settings.EveryLevel | internal/engine/provision/settings.go:13-42 | at every merged level: keys of both, managed keys from the seed, other non-object values of the destination kept |
| Settings.SeedDecidesThree | internal/engine/provision/settings.go:13-42 | the keys that the seed decides whatever was there are exactly hooks, statusLine and env |
| Settings.MergeSelf | internal/engine/provision/settings.go:19-42 | merging a document with itself gives it back |
| Settings.MergeTwice | internal/engine/provision/settings.go:19-42 | a second merge of the same seed changes nothing |
| Settings.CleanedTwice | internal/engine/provision/settings.go:100-101 | nor does it with the sandbox key deleted each time |
| Settings.StepIsIdempotent | internal/engine/provision/settings.go:50-109 | the settings step's Run makes its Check true, and the exact condition for a second Run to change nothing |
| Settings.CheckAsksForRun | internal/engine/provision/settings.go:50-81 | the Check asks for a Run exactly when there is a seed and the file is missing or lacks one of those keys of the seed |
| Settings.SandboxGoesLater | internal/engine/provision/settings.go:94-109 | an input on which a second Run changes the file once more |
| EnvFile.Repo.EnvRead | internal/engine/config/config.go:430-441 | the trimmed value on the first line of the key |
| EnvFile.TrimMeaning | internal/engine/config/config.go:430-441 | trimming cuts off white space at both ends, all of it and nothing else |
| EnvFile.SpacesAre | internal/engine/config/config.go:430-441 | white space is the Unicode property White_Space |
| EnvFile.Repo.EnvWrite | internal/engine/config/config.go:443-459 | the lines of the other keys without blank lines at the end, then the new line |
| EnvFile.Repo.EnvClear | internal/engine/config/config.go:461-487 | the lines of the other keys, the file untouched when the key is absent |
| EnvFile.WrittenLines | internal/engine/config/config.go:443-459 | the lines of a written file, split again |
| EnvFile.ReadAfterWrite | internal/engine/config/config.go:430-459 | what was written is read trimmed, and exactly one line carries the key |
| EnvFile.OtherKeysUnchanged | internal/engine/config/config.go:430-487 | writing or clearing a key changes no other key's value |
| EnvFile.LastWriteWins | internal/engine/config/config.go:443-459 | an earlier write of the key leaves no trace; writing twice is writing once |
| EnvFile.ClearIsExact | internal/engine/config/config.go:461-487 | clearing makes the key absent and changes the file exactly when the key was there |
| Loadouts.ReadPackCatalog | internal/engine/config/config.go:117-132 | the packs that have a valid line, each as its last one says |
| Loadouts.WordsDecide | internal/engine/config/config.go:229-248 | the first word of a line, spelled, says what it is; other lines are ignored |
| Loadouts.DedupMeaning | internal/engine/config/config.go:270-277 | the result has the same items, none twice, ordered by first occurrence |
| Loadouts.Loadout.ExpandPacks | internal/engine/config/config.go:253-268 | every known pack's items go to the list of its kind, unknown ones are ignored |
| Loadouts.Loadout.Read | internal/engine/config/config.go:229-248 | the effect of one line |
| Loadouts.ReadLoadoutManifest | internal/engine/config/config.go:221-251 | each list is the first-occurrence de-duplication of its items; the last effort and batch lines decide |
| Loadouts.ExpansionPreservesMeaning | internal/engine/config/config.go:246-268 | replacing packs lines in place by their packs' items changes no item list, effort or batch setting |
| Loadouts.ParseExpanded | internal/engine/config/config.go:228-248 | expanding the text expands the lines it parses to |
| Loadouts.ExpandedManifestReadsAlike | internal/engine/config/config.go:221-268 | the loadout read from a manifest equals, in lists, effort and batch, the one read from its expanded text without a catalogue |
| Base64.DecodeOfEncode | internal/engine/secrets/keychain.go:60-60 | base64 with padding decodes to the bytes that were encoded |
| Base64.DigitsAreTheAlphabet | internal/engine/secrets/keychain.go:60-60 | the digits are letters, numbers, plus and slash in their order (section 4 of RFC 4648) |
| Base64.TestVectors | internal/engine/secrets/keychain.go:60-60 | test vectors of section 10 of RFC 4648 |
| Base64.DecodesIff | internal/engine/secrets/keychain.go:152-152 | exactly the padded texts are decoded, line breaks in them skipped |
| Keychain.StoredIsRead | internal/engine/secrets/keychain.go:148-157 | the stored form survives trimming and decodes back to the value |
| Keychain.OtherFormsAreRead | internal/engine/secrets/keychain.go:148-157 | a value without the prefix, or with it but not base64, is read as it is |
| Keychain.TrimMeaning | internal/engine/secrets/keychain.go:105-111 | what is cut off a stored value is white space, all of it and nothing else |
| Keychain.LookupOrder | internal/engine/secrets/keychain.go:39-103 | the entry, the legacy entry and the legacy file by their names, in this order, the last one never decoded |
| Keychain.Separate | internal/engine/secrets/keychain.go:78-80 | different keys share an entry exactly when one is the other with -token appended |
| Keychain.AddIsSafe | internal/engine/secrets/keychain.go:81-86 | writing the new entry changes what no key resolves to, colliding keys aside |
| Keychain.CleanIsSafe | internal/engine/secrets/keychain.go:87-89 | removing the older places afterwards does not either |
| Keychain.KeychainStore.Set | internal/engine/secrets/keychain.go:51-76 | the entry holds the stored form and reads back, or the disk is as before; quotes are refused; it fails only then or when a command fails |
| Keychain.KeychainStore.Forget | internal/engine/secrets/keychain.go:87-89 | second half, in this order |
| Keychain.KeychainStore.Migrate | internal/engine/secrets/keychain.go:78-103 | at every state on the way the key resolves as before; without failing commands the migration is complete |
| Keychain.KeychainStore.Get | internal/engine/secrets/keychain.go:39-49 | the reply is the resolved value, and no crash or failure on the way changes what any key that does not collide resolves to |
| Keychain.CollisionLoses | internal/engine/secrets/keychain.go:78-90 | after migrating a key, the key with -token appended resolves as without its entry |
| Keychain.TwinKeptIff | internal/engine/secrets/keychain.go:78-90 | that key keeps its value if and only if it had no entry or an older place holds the same value |
| Keychain.BaseKeptIff | internal/engine/secrets/keychain.go:78-90 | migrating a key that ends in -token leaves the key without the ending as it was if and only if that one has an entry or this value already |
| Keychain.MigrationSafeIff | internal/engine/secrets/keychain.go:78-103 | for every other key, exactly when a migration leaves its value alone |
| Keychain.TwinIsLost | internal/engine/secrets/keychain.go:78-90 | a disk on which a secret is lost by asking for another |
| Keychain.BaseAppears | internal/engine/secrets/keychain.go:78-90 | a disk on which a secret that was never stored appears |

## Left out

- Attempt.EveryRunIsSafe: one step's protocol at a time; the pipeline runs only one waiting step at once because parallel steps are taken not to wait.
- Pipelines.Pipeline.RunSteps: before cancellation no event is lost; afterwards the model allows any event to be dropped, as the two selects of emit do, and does not model the channel's capacity.
- Pipelines.Pipeline.PickErr: which failed member of a batch provides the first error is left open, as map iteration leaves it.
- Pipelines.GroupingPreservesMeaning: for fixed outcomes; with outcomes that depend on the world, interleavings differ.
- Batches.OuterDeps: the list is not sorted in the model; only its elements are stated.
- Contraction.ContractionPreservesMeaning: with answers that stay fixed, no failed dependency from outside and optional commands; Retry and Timeout of batched commands, which the batch ignores, change how often their Run is called, and only whether it is called is compared.
- Steps.KeptStep: a whole Run, with its effect, is one action, so two Runs of a batch never overlap in the model, though everything else in it interleaves.
- Batches.RunWave: the first error of a wave cancels the context of its other commands; their answers are taken as fixed, so the model runs them all.
- Batches.RunNode: the node as one step of the pipeline, without cancellation; cancelled batches are covered by Batches.RunBatch.
- Extractor.Extractor.Write: the second writer (Tee) and its errors are not modelled.
- Outbox.Watcher.Tick: a notifier that panics and a directory that cannot be listed are not modelled.
- Outbox.Watcher.WriteJob: a job that cannot be written leaves nothing behind and is not part of a run.
- Outbox.Watcher.WriteStatus: the error goes into the health report only, which is not modelled; the steps of the write are in OutboxFiles.
- Outbox.Watcher.PruneDelivered: both removals work here, as one step; failing removals and crashes between them are in OutboxFiles.
- Obs.Obs.Set: logging, and closing the log file, are not modelled.
- JsonLock.Mutexes.PathMutex: paths are taken as absolute; symbolic links and errors of the working directory are not modelled.
- JsonLock.EveryRunIsSerial: a JSON document `null`, for which a mutation of the missing map panics, is not modelled; nor are readers that take no lock.
- EnvFile.Repo.EnvWrite: a write that fails half way is not modelled.
- EnvFile.Repo.EnvClear: a write that fails half way is not modelled.
- Keychain.KeychainStore.Find: find fails only for an absent entry or a failing command; trimming knows the ASCII spaces only; one account; a legacy file that exists can be read.
- Loadouts.ReadLoadoutManifest: lines come as fields; splitting text at white space and dropping comments is not modelled.
- Transitive skipping is not in the code: a step behind a skipped one does run, and the model follows that.
- Events that a step forwards on its own, Docker, HTTP, Telegram, MCP, terminal handling, the user interface, installer scripts, file permissions and error texts are not part of this model.
- Real time is an integer clock; the intervals between ticks are not modelled.
