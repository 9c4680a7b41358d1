# Verified models of the posting and account core

This project models, in Dafny 4.11, the parts of the application whose correctness depends on
interleavings and whole histories, and proves what the code promises about them. `dafny verify
dfyconfig.toml` checks everything.

Code that changes things step by step is a class whose methods are proved equal to a step of a
value-level system (`View()` is the object's state as a value); what the steps add up to over every
run is then proved about that system. `Runs.Run(step, s, run)` is the state after a sequence of
actions, or `None` if one of them is not possible where it stands.

The engine's steps (`PostJobEngine.Step`) are those of the job's threads, the operators' stop, pause and
resume, and the rest of the process. `PostJobRetry.AnyStep` adds what a retry does to a job that still
runs. Rows below that speak of "every run" or "every interleaving" are about runs without such a retry
unless they say otherwise.

| files | what they model |
|---|---|
| `JobStore`, `PostJobEngine`, `PostJobExecutor` | the in-memory job store; the upload workers of one post job, the thread that joins them, operators that stop, pause and resume, and the rest of the process, in any interleaving |
| `PostJobSafety`, `PostJobControl` | tally, final and stored status, the shared breaker's books; stop, pause, progress: for any rows to start with |
| `PostJobOutcomes` | what becomes of a worker and its row, by the decisions it meets: stop flag, breaker history, client, upload |
| `PostJobLifecycle`, `PostJobDuplicates` | what becomes of one row, and of the rows of a retried job; jobs that list an account twice |
| `PostJobRetry`, `PostJobWaiting`, `PostJobRaces` | a retry of the job, its cleanup, and what a retry or the outer deadline does to a job whose workers still run |
| `PostJobGate` | the executor's gate and the startup restore in front of it |
| `SyncBreaker`, `AsyncBreaker`, `AsyncHistory`, `BreakerAgreement` | the two circuit breakers, what they are after any history, and their agreement |
| `SseReader` | the two incremental readers of the event stream and the writer at the other end |
| `SingleFlight`, `SearchScheduler` | the two latest-wins runners of the frontend |
| `LoginProtocol`, `LoginPaths`, `ReloginRetry` | the exception-driven login, told step by step and from its inputs, and the retry loop around it |
| `AccountRegistry`, `AccountServices`, `BulkRelogin` | the maps of accounts, clients and statuses; the operations on them; relogin of many accounts behind a semaphore |
| `Options` | vocabulary: options, circuit states, runs |

What turned out false of the code, each with runs that show it and the exact condition under which
it holds:

- A retry promises that accounts that already posted are not posted to again. The executor submits a
  worker for every row, whatever it holds: an upload is started again in some run exactly if a row had
  succeeded and the job is not stopped before it starts (`RetryStartsNoUploadAgainExactly`,
  `CanDispatchExactly`). What keeps it from succeeding is that the run before has removed the media;
  so nobody can be posted to any more, and once the retried job has been counted no row reads
  "success", not even one that did (`CanPostExactly`, `RetryAfterCleanupLosesSuccesses`). Rows follow
  their lifecycle exactly from `pending`, or from `skipped` in a stopped job (`LifecycleExactly`,
  `RetriedRowsFollowExactly`).
- The retry route clears the controls of a job before it looks at its status, even of one that runs.
  This, and nothing else, takes the stop flag down while workers run (`FlagSurvivesExactly`,
  `BarredSurvivesExactly`); which workers then go on to upload, and which sleep for ever, is decided
  exactly (`UploadsAfterClearExactly`, `ClearedSleeperExactly`, `CanCloseExactly`).
- A job stopped while it was paused reads "stopped" at once and can be retried while its workers run;
  the reset takes away rows that nobody writes again. The tally then accounts for all rows exactly if
  no finished worker had left `failed` or `skipped` (`RetriedRunCountsAllExactly`); from every launch
  there is a run that ends "completed" with every row pending (`StoppedJobCanComplete`,
  `RetryWhileUploading`).
- The outer deadline also passes while a job is paused; the clearing of the controls that follows
  strands a sleeping worker exactly if no thread was about to wake it, and a late worker overwrites
  the `failed` it was given (`DeadlineStrandsSleeperExactly`, `LateWorkerOverwrites`).
- "After a stop nobody sleeps" holds until the next pause, but a pause that comes right after a stop
  can put a worker of a stopped job to sleep (`PauseAfterStopCanBlock`, `BlocksExactly`,
  `ReleasedStaysFree`).
- The stored status of a closed job is the final one exactly unless a stop, pause or resume route
  writes another later; a late pause sticks (`ClosedStatusIs`, `LatePauseSticks`).
- A job that lists an account twice leaves rows that never become terminal; the tally then counts
  accounts, not rows, and "completed" means that all rows succeeded exactly if it counts them all
  (`TallyCountsAccounts`, `FreshTallyCountsAccounts`, `CompletedExactly`, `RowFollowsExactly`).
- While the asynchronous breaker is open its failure count can be below the threshold. A step breaks
  the bound exactly if a call admitted earlier returns successfully while the breaker is open; runs
  without such a step, and callers that never overlap, keep it (`StepKeepsBoundExactly`,
  `RunsWithoutStaleSuccessKeepBound`, `CallsInTurnKeepBound`, `OpenBoundsFailuresExactly`).
- The operator reader counts an event before it has parsed it, so the two stream readers end
  differently exactly on a body that has payloads, all of them malformed (`ReadersDifferExactly`).
- Two single-flight tasks can be live at once exactly if a call passes neither option while the latest
  is live (`StartKeepsOneLiveExactly`).
- A saved device fingerprint is lost exactly if a fresh client gets to log in although the device
  could not be read or put on it (`DeviceIsKeptExactly`).
- Logging in again is recognised as the same login exactly if the name has no leading "@", because
  the name is stored as given but looked up without it (`LoginAgainChangesNothingExactly`).
- A relogin that ends with a `ValueError` leaves the stored status, so an account without a client may
  be reported active (`ReloginDecides`). A relogin of an unknown id can leave a client without an
  account (`ReloginKeepsConsistentExactly`); one that other operations overlap leaves the maps
  consistent exactly if the account is still known when it stores its client, and the dashboard's
  idle count one too low otherwise (`OverlappedReloginIsSafeExactly`, `OverlappedReloginCounts`).
- A bulk relogin that lists an account twice can leave it with a client and status "error", exactly
  if two can run at once (`BulkReloginSettlesExactly`).

## Model

| member | source | states |
|---|---|---|
| JobStore.ThreadSafeJobStore.Put | backend/state.py:116-119 | stores the job under its id, in place of one that is there |
| JobStore.ThreadSafeJobStore.Clear | backend/state.py:262-266 | forgets all jobs and controls |
| JobStore.ThreadSafeJobStore.SetJobStatus | backend/state.py:133-135 | sets the status of that job alone; an unknown job is the KeyError and changes nothing |
| JobStore.ThreadSafeJobStore.UpdateResult | backend/state.py:137-155 | writes exactly the first row of the account, keeps error and code where none is given, and leaves every other row, job and control untouched |
| JobStore.ThreadSafeJobStore.GetResultStatus | backend/state.py:157-163 | the status of the first row of the account, nothing if there is none |
| JobStore.ThreadSafeJobStore.TallyResults | backend/state.py:165-173 | the counts are the sizes of the sets of rows with each status |
| JobStore.ThreadSafeJobStore.RequestStop | backend/state.py:215-221 | raises the flag and sets the job's current event, so that the job is stopped and not paused |
| JobStore.ThreadSafeJobStore.RequestPause | backend/state.py:227-231 | the job has an event, a new one if it had none, and it is unset |
| JobStore.ThreadSafeJobStore.RequestResume | backend/state.py:233-237 | sets the job's event if there is one |
| JobStore.ThreadSafeJobStore.ClearControl | backend/state.py:246-250 | forgets flag and event of the job, nothing else |
| JobStore.ThreadSafeJobStore.Delete | backend/state.py:254-260 | removes the job with its flag and event; says whether it existed |
| JobStore.WriteExactly | backend/state.py:148-155 | after an update the first row of the account has the status, and the message and code where one was given; every other row is as it was |
| JobStore.ForgottenExactly | backend/state.py:246-260 | clearing the controls forgets flag and event of that job, deleting it its rows too; other jobs and the events' own states stay |
| PostJobExecutor.PostJobRun.Work | backend/instagram_runtime/post_job_executor.py:257-374 | a worker's next critical section, event operation, breaker call or upload is exactly the engine's step, and a worker that cannot move changes nothing |
| PostJobExecutor.PostJobRun.CheckAndWait | backend/instagram_runtime/post_job_executor.py:261-269 | stop check, wait_if_paused in its separate parts, second stop check |
| PostJobExecutor.PostJobRun.PassGates | backend/instagram_runtime/post_job_executor.py:271-295 | breaker, client lookup and the row becoming `uploading`, with their failure rows, exactly as the engine's steps, whose decisions BreakerDecides and ClientDecides characterise |
| PostJobExecutor.PostJobRun.Upload | backend/instagram_runtime/post_job_executor.py:314-345 | dispatch, and the three ways the upload can end |
| PostJobExecutor.PostJobRun.Report | backend/instagram_runtime/post_job_executor.py:331-374 | the final row is written before the breaker is told, as two separate steps |
| PostJobExecutor.PostJobRun.Join | backend/instagram_runtime/post_job_executor.py:211-226 | once everyone has finished: tally, clear the controls, write the final status, as three steps |
| PostJobExecutor.PostJobRun.FlagStop | backend/state.py:216-218 | the part of a stop under the lock |
| PostJobExecutor.PostJobRun.Release | backend/state.py:220-221 | the part of a stop or resume outside the lock wakes every worker asleep on that event |
| PostJobExecutor.PostJobRun.Pause | backend/state.py:227-231 | a pause of any job, as a step of the engine |
| PostJobExecutor.PostJobRun.Take | backend/instagram_runtime/post_job_executor.py:189-374 | whichever thread is scheduled takes exactly the engine's step, or none |
| PostJobExecutor.PostJobRun.RetryClears | backend/app/adapters/http/routers/posts.py:139 | the retry route clears the controls of the running job |
| PostJobExecutor.PostJobRun.RetryResets | backend/app/application/use_cases/post_job.py:353-388 | puts the reset job in place of the one that runs, or changes nothing if its status cannot be retried |
| PostJobExecutor.PostJobRun.Interleave | backend/instagram_runtime/post_job_executor.py:161-226 | under any schedule of threads, operators and retries the object ends in exactly the state that the schedule plays out to; without a retry, if it closes, every row in the store is terminal and the final status says exactly whether all succeeded, failed or were skipped |
| PostJobSafety.RunKeepsSound | backend/instagram_runtime/post_job_executor.py:257-374 | in every interleaving without a retry of the running job each row fits where its worker stands, sleeping workers hold the job's current, unset event, and the runner has not started to count while anyone works |
| PostJobRetry.OrdinaryRuns | backend/app/adapters/http/routers/posts.py:129-145 | the engine's runs are exactly the runs in which nobody retries the job |
| PostJobWaiting.RunKeepsLoose | backend/state.py:239-250 | in every run, with or without retries: the runner counts only when all have finished, and a waiting worker's event is that of its own job or of none, unset while the worker sleeps |
| PostJobWaiting.TrappedForEver | backend/state.py:239-244 | a worker waiting on an unset event that no job has and no thread is about to set waits for it in every continuation, with or without retries |
| PostJobRaces.FlagSurvivesExactly | backend/app/adapters/http/routers/posts.py:139 | a step leaves the stop flag up, or all workers finished, exactly unless it is the retry's clear while somebody works |
| PostJobRaces.BarredSurvivesExactly | backend/app/adapters/http/routers/posts.py:139 | a worker that must not upload any more stays barred exactly unless the retry clears the controls before it has finished |
| PostJobRaces.BarredUnlessCleared | backend/instagram_runtime/post_job_executor.py:261-269 | it stays so over every run in which the controls are not cleared, whatever rows are reset |
| PostJobRaces.UploadsAfterClearExactly | backend/app/adapters/http/routers/posts.py:139 | after the clear a worker goes on to its upload in some run exactly if it was on its way there and is not trapped |
| PostJobRaces.SleepsForEverExactly | backend/state.py:239-244 | a sleeping worker sleeps in every continuation exactly if its event is orphaned |
| PostJobRaces.ClearedSleeperExactly | backend/app/adapters/http/routers/posts.py:139 | the clear makes a sleeping worker sleep for ever exactly if no thread was about to set its event |
| PostJobRaces.CanCloseExactly | backend/instagram_runtime/post_job_executor.py:189-226 | from any reachable state, with or without retries, the job can be brought to its end exactly if no worker is trapped |
| PostJobRaces.UnresetRunCountsAll | backend/instagram_runtime/post_job_executor.py:211-212 | in every run from a launch in which no retry resets the rows the tally accounts for every row |
| PostJobRaces.RetriedRunCountsAllExactly | backend/app/application/use_cases/post_job.py:363-388 | after a reset of a running job the tally accounts for all rows, in every continuation without another, exactly if no worker that has written its last left failed or skipped, or a trapped worker keeps the job from being counted |
| PostJobRaces.StoppedJobCanComplete | backend/app/adapters/http/routers/posts.py:129-162 | from every launch a run of a stop and a retry closes the job as completed with every row pending and nothing dispatched; the queued retry is then ignored |
| PostJobRaces.RetryWhileUploading | backend/app/application/use_cases/post_job.py:363-388 | a reset while the last worker uploads: if that succeeds the job closes as completed, with the failed and skipped rows of the others pending |
| PostJobRaces.DeadlineStrandsSleeperExactly | backend/instagram_runtime/post_job_executor.py:189-213 | when the outer deadline passes and the controls are cleared, a sleeping worker sleeps for ever exactly if no thread was about to set its event |
| PostJobRaces.LateWorkerOverwrites | backend/instagram_runtime/post_job_executor.py:196-208 | a run in which a worker that outlives the deadline overwrites the failed row it was given |
| PostJobSafety.EveryRunEndsCounted | backend/instagram_runtime/post_job_executor.py:211-226 | whatever the rows held at the start, in every run without a retry of the running job: when the tally is taken every row is terminal, success + failed + skipped is the number of accounts, the tally stays true until the end, and the runner's final status is completed, failed, stopped or partial exactly when all succeeded, all failed, all were skipped, or none of these |
| PostJobSafety.ClosedStatusIs | backend/app/adapters/http/routers/posts.py:148-186 | in every run the stored status of a closed job is the final one or the last that a stop, pause or resume route wrote after the closing step |
| PostJobSafety.UndisturbedStatusIsFinal | backend/instagram_runtime/post_job_executor.py:225 | from any moment before the closing, the stored status ends as the final one if no route writes another |
| PostJobSafety.LatePauseSticks | backend/app/adapters/http/routers/posts.py:165-174 | a run in which the pause route's last step comes after the job has closed and leaves it "paused" |
| PostJobSafety.FinalStatusDescribesRows | backend/instagram_runtime/post_job_executor.py:215-224 | the branch on the tally means what it says of the rows, in both directions |
| PostJobSafety.BreakerReplaysLog | backend/instagram_runtime/post_job_executor.py:331-373 | the shared breaker is the replay of all records of all jobs in the order they were made |
| PostJobSafety.UploadingIsRemembered | backend/instagram_runtime/post_job_executor.py:294-374 | a row that does not start `uploading` is so at some moment of the run exactly if its worker got past its upload gate |
| PostJobSafety.RowBooks | backend/instagram_runtime/post_job_executor.py:261-374 | once all workers finish, a row has a breaker record exactly if its upload was started, that is if it was ever `uploading`; no row has two, a skipped row none, and the record is a success exactly if the row is |
| PostJobSafety.BooksBalance | backend/instagram_runtime/post_job_executor.py:261-374 | every record of the job belongs to one of its rows; as many as uploads were started, as many successes as the tally counts |
| PostJobOutcomes.StopDecides | backend/instagram_runtime/post_job_executor.py:261-269 | a worker at either stop check ends skipped without an upload, whatever follows, if the flag is up, and otherwise goes on |
| PostJobOutcomes.PauseDecides | backend/state.py:239-244 | a worker goes on to its second check exactly if it finds no event or a set one, and to sleep with an unset one |
| PostJobOutcomes.BreakerDecides | backend/instagram_runtime/post_job_executor.py:271-284 | in any run a worker is refused by the breaker exactly if, in the history before the launch and since, retryable failures since the last success reach the threshold and the newest is less than the timeout old; then it starts no upload whatever follows and ends failed as "circuit_open" with that message, and otherwise it looks up its client and can upload |
| PostJobOutcomes.ClientDecides | backend/instagram_runtime/post_job_executor.py:286-294 | a worker without a client never uploads and ends failed as not logged in; with one it goes on to `uploading` |
| PostJobOutcomes.UploadIsAnnounced | backend/instagram_runtime/post_job_executor.py:294-326 | the row reads `uploading` before the upload is started |
| PostJobOutcomes.UploadDecides | backend/instagram_runtime/post_job_executor.py:328-373 | an upload that succeeds, times out or raises decides, whatever follows, the worker's final row with its code and what kind of record the breaker gets |
| PostJobOutcomes.RecordsExactly | backend/instagram_runtime/post_job_executor.py:331-373 | a worker records exactly at its recording step, a failure with its kind and the clock of that step |
| PostJobControl.StopIsObeyed | backend/instagram_runtime/post_job_executor.py:193-213 | in runs without a retry of the running job, whatever the rows hold and even with repeated accounts: once the stop flag is up, no worker before its second check ever dispatches, and the uploads started from then on are at most the workers already past it |
| PostJobControl.StoppedWorkersEndSkipped | backend/instagram_runtime/post_job_executor.py:261-269 | in such runs, with distinct accounts, each of these workers ends with its row skipped |
| PostJobControl.StopFlagStaysUp | backend/instagram_runtime/post_job_executor.py:211-213 | over every continuation without a retry the flag stays up until all workers have finished |
| PostJobControl.BarredForEver | backend/instagram_runtime/post_job_executor.py:261-269 | a worker that meets the flag before its second check, or has finished without an upload, starts none in any continuation without a retry |
| PostJobControl.BlocksExactly | backend/state.py:239-244 | without a further pause some worker is or can yet fall asleep exactly if the job's event is unset and a worker is still exposed to it |
| PostJobControl.QuietRunStaysFree | backend/state.py:215-244 | a job where nobody can block stays so until the next pause |
| PostJobControl.ReleaseUnblocks | backend/state.py:215-237 | without a retry in between: after a stop or resume has set the event it read, or found none, nobody is asleep or about to be, whatever else happened between read and set |
| PostJobControl.ReleasedStaysFree | backend/state.py:215-244 | and nobody falls asleep in any continuation without a retry before the next pause |
| PostJobControl.StopTakesEventExactly | backend/state.py:215-237 | a stop raises the flag of its job alone, and like a resume takes over the job's event to set it |
| PostJobControl.TakenEventIsSet | backend/state.py:220-237 | an event taken over stays to be set, in every continuation, until it is |
| PostJobControl.PauseAfterStopCanBlock | backend/state.py:215-244 | a run in which a stop followed by a pause leaves a stopped job with a worker that goes to sleep |
| PostJobControl.WorkersCannotLoop | backend/instagram_runtime/post_job_executor.py:257-374 | no run contains more than fourteen steps of a worker each |
| PostJobControl.JobCanFinish | backend/instagram_runtime/post_job_executor.py:189-226 | from any reachable state in which nobody can block, the job's own threads reach the final status |
| PostJobDuplicates.TallyCountsAccounts | backend/instagram_runtime/post_job_executor.py:172-213 | in every interleaving the tally adds up to the first rows of the accounts and the repeated rows that were terminal from the start; to all rows exactly if there are no others |
| PostJobDuplicates.FreshTallyCountsAccounts | backend/app/application/use_cases/post_job.py:229-247 | for a job that was never run, to the number of distinct accounts |
| PostJobDuplicates.CompletedExactly | backend/instagram_runtime/post_job_executor.py:215-224 | such a job ends completed exactly if every counted row succeeded, which means that all rows did exactly if the tally counts them all |
| PostJobDuplicates.RowFollowsExactly | backend/instagram_runtime/post_job_executor.py:172-187 | repeated accounts or not, a row follows the lifecycle in every interleaving exactly if it is a repetition, or pending or skipped in a job already stopped, or pending and alone with its account |
| PostJobLifecycle.LifecycleExactly | backend/instagram_runtime/post_job_executor.py:161-374 | a row moves only pending to skipped, failed or uploading, and uploading to success or failed, in every interleaving exactly if it is pending at the launch, or skipped in a job already stopped |
| PostJobLifecycle.TerminalRowsAreFinal | backend/instagram_runtime/post_job_executor.py:257-374 | once its worker has written a terminal status, a row keeps it for the rest of every run, whatever it held before |
| PostJobLifecycle.CanBeSkipped | backend/instagram_runtime/post_job_executor.py:261-263 | from any launch a run overwrites a row with `skipped`, even one that had succeeded |
| PostJobLifecycle.CanDispatchExactly | backend/instagram_runtime/post_job_executor.py:172-187 | whatever its row holds, some run starts a worker's upload exactly if the job is not stopped yet |
| PostJobRetry.RetryJob | backend/app/application/use_cases/post_job.py:346-388 | which jobs can be retried, and that failed, pending and skipped rows become pending while the others stay |
| PostJobRetry.RetriedExactly | backend/app/application/use_cases/post_job.py:356-388 | a retry takes failed, stopped and partial jobs and makes a pending one with the same media and no schedule; rows that succeeded or are uploading stay, any other is pending without its message |
| PostJobRetry.RemovedExactly | backend/instagram_runtime/post_job_executor.py:379-383 | a file is removed exactly if it is one of the media or the preview beside a movie among them |
| PostJobRetry.CleanupTempFiles | backend/instagram_runtime/post_job_executor.py:379-383 | removes the media of the job and the previews beside its movies, and no other file |
| PostJobLifecycle.RetryStartsNoUploadAgainExactly | backend/app/application/use_cases/post_job.py:346-351 | no upload is started again, in any run of the retried job, for an account that had posted, exactly if none had or the job is stopped before it starts |
| PostJobLifecycle.CanPostExactly | backend/instagram_runtime/post_job_executor.py:314-371 | whatever its row holds at the launch, some run posts to an account exactly if there are media to post and the job is not stopped yet |
| PostJobLifecycle.NoMediaNoSuccess | backend/instagram_runtime/post_job_executor.py:211-226 | without media no counted row reads success, whatever it read before, and the job does not end as completed |
| PostJobLifecycle.RetryAfterCleanupLosesSuccesses | backend/instagram_runtime/post_job_executor.py:237-238 | after the cleanup of the run before, this is what every run of a retried job comes to, and no account can be posted to |
| PostJobLifecycle.RetriedRowsFollowExactly | backend/app/application/use_cases/post_job.py:363-368 | a row of a retried job follows the lifecycle in every run exactly if it had not succeeded and was not left uploading |
| PostJobGate.PostJobExecutor.RefuseTurn | backend/instagram_runtime/post_job_executor.py:84-96 | one row of the live list refused or spared, written by account |
| PostJobGate.PostJobExecutor.SetJobNonRunnable | backend/instagram_runtime/post_job_executor.py:72-99 | status set, rows refused in order as they read by then, controls cleared, nothing else |
| PostJobGate.PostJobExecutor.Run | backend/instagram_runtime/post_job_executor.py:101-165 | unknown job, five decisions, and the empty job that completes at once; says when workers are launched |
| PostJobGate.GateExactly | backend/instagram_runtime/post_job_executor.py:106-147 | on the job's fields: a stopped job is consumed, one without a non-blank path needs media, a scheduled one without a non-blank time that parses is invalid, and exactly the other pending and scheduled ones run |
| PostJobGate.RefusedJobExactly | backend/instagram_runtime/post_job_executor.py:72-147 | how a refused job is left: its status, and on every named row that has not succeeded the status and code that say why |
| PostJobGate.RunJobExactly | backend/instagram_runtime/post_job_executor.py:149-165 | a job that runs keeps its rows and media, and is completed at once exactly if it has no rows |
| PostJobGate.RefusedRows | backend/instagram_runtime/post_job_executor.py:84-96 | with distinct accounts exactly the rows that have an id and are not successful are refused |
| PostJobGate.JobRestorer.RestorePendingJobs | backend/app/main.py:117-186 | every job is left as the restore decides on it alone, and the queue receives the wanted ones, which QueueExactly characterises |
| PostJobGate.RestoreExactly | backend/app/main.py:133-181 | on the job's fields: which jobs are enqueued and when they are due, which are passed over, and how a blocked job and each of its rows say why |
| PostJobGate.QueueExactly | backend/app/main.py:133-186 | job i is in the queue, once and in order, exactly if it is pending or scheduled, has a non-blank path and if scheduled a non-blank time that parses; it is due at once if pending and at the schedule that is present if scheduled |
| PostJobGate.JobRestorer.AnnotateJobResults | backend/app/main.py:51-68 | every row gets the status, message and code |
| PostJobGate.GatesAgreeExactly | backend/app/main.py:133-186 | restoring and then running decides as running directly exactly if the four media and schedule fields agree; equal decisions give equal job statuses |
| PostJobGate.RecordsAgree | backend/app/adapters/persistence/repositories.py:95-111 | so they decide alike on every job a repository returns, which has one spelling of each field |
| PostJobGate.BlockedRowsAgreeExactly | backend/app/main.py:51-68 | the rows of a blocked job agree exactly if every spared row already reads as the restore writes it |
| PostJobGate.RestoreThenRunIsRun | backend/app/main.py:117-186 | with agreeing fields, distinct named accounts and no success so far, the whole record ends the same whichever gate stops it |
| SyncBreaker.SyncCircuitBreaker.RecordFailure | backend/instagram_runtime/circuit_breaker.py:57-72 | only retryable failures count; opens at the threshold and restarts the clock |
| SyncBreaker.SyncCircuitBreaker.RecordSuccess | backend/instagram_runtime/circuit_breaker.py:49-55 | count zero and closed |
| SyncBreaker.SyncCircuitBreaker.AllowRequest | backend/instagram_runtime/circuit_breaker.py:37-47 | refuses exactly while open and not yet recovered |
| SyncBreaker.ReplaySummarises | backend/instagram_runtime/circuit_breaker.py:49-72 | after any history: the count is the number of retryable failures since the last success, the time that of the latest of them, and open means that there is one and they number at least the threshold |
| SyncBreaker.RefusesExactly | backend/instagram_runtime/circuit_breaker.py:37-72 | over every history, a request is refused exactly if the streak reached the threshold and less than the timeout has passed since its last failure |
| SyncBreaker.ReportsExactly | backend/instagram_runtime/circuit_breaker.py:37-43 | the state it reports: closed below the threshold, open while it refuses, half open from then on |
| SyncBreaker.TerminalErrorsAreInvisible | backend/instagram_runtime/circuit_breaker.py:57-60 | erasing all non-retryable failures from any history changes nothing |
| AsyncBreaker.CircuitBreaker.Begin | backend/ai_copilot/adapters/circuit_breaker.py:90-113 | rejected, plain call or probe; a probe takes the half-open lock |
| AsyncBreaker.CircuitBreaker.End | backend/ai_copilot/adapters/circuit_breaker.py:115-142 | success, failure, nested CircuitOpenError and cancellation, for plain calls and probes, as the steps whose effect on count, state and clock HistoryExactly characterises; a probe always gives the lock back |
| AsyncBreaker.CircuitBreaker.OnFailure | backend/ai_copilot/adapters/circuit_breaker.py:148-152 | counts and trips at the threshold, with the second clock reading |
| AsyncBreaker.RunsStaySound | backend/ai_copilot/adapters/circuit_breaker.py:90-166 | under any overlap at most one probe is in flight, the lock is held exactly then, and closed implies fewer failures than the threshold |
| AsyncBreaker.ProbeReleasesLock | backend/ai_copilot/adapters/circuit_breaker.py:109-142 | whatever ends the probe, the lock is free afterwards; the end of any other call leaves it as it was |
| AsyncBreaker.AdmissionExactly | backend/ai_copilot/adapters/circuit_breaker.py:95-113 | a call becomes a probe, passes or is rejected exactly by stored state, elapsed time and whether a probe is in flight |
| AsyncBreaker.ReportsExactly | backend/ai_copilot/adapters/circuit_breaker.py:78-84 | the state it reports, whether or not a probe is in flight |
| AsyncHistory.HistoryExactly | backend/ai_copilot/adapters/circuit_breaker.py:115-166 | over every run, on the calls that ended in it: the count is the number of plain failures since the last success, the breaker is open exactly if a failure has tripped it and no probe has succeeded since, and its clock runs from the latest failure, plain or probe, stale or not |
| AsyncHistory.RejectedExactly | backend/ai_copilot/adapters/circuit_breaker.py:95-108 | a call is rejected exactly if the breaker is open and less than the timeout has passed since that failure or a probe is in flight; it is told how long is left |
| AsyncBreaker.OnlyAProbeCloses | backend/ai_copilot/adapters/circuit_breaker.py:128-166 | every run from open to closed contains a successful probe, however many stale calls finish |
| AsyncBreaker.StepKeepsBoundExactly | backend/ai_copilot/adapters/circuit_breaker.py:144-152 | a step keeps "open implies failures at the threshold" exactly unless it is the success, while open, of a call admitted before |
| AsyncBreaker.RunsWithoutStaleSuccessKeepBound | backend/ai_copilot/adapters/circuit_breaker.py:115-142 | every run without such a step keeps the bound |
| AsyncBreaker.CallsInTurnKeepBound | backend/ai_copilot/adapters/circuit_breaker.py:90-166 | so does every run whose calls never overlap |
| AsyncBreaker.OpenBoundsFailuresExactly | backend/ai_copilot/adapters/circuit_breaker.py:144-152 | over all runs the bound holds exactly for thresholds below one: for every other a run leaves the breaker open with a lower count |
| BreakerAgreement.StepAgrees | backend/instagram_runtime/circuit_breaker.py:37-72 | one call keeps the two breakers in agreement, although their counts differ while open |
| BreakerAgreement.BreakersAdmitTheSameCalls | backend/ai_copilot/adapters/circuit_breaker.py:78-166 | on every sequential trace, with equal threshold and timeout, both breakers admit exactly the same calls |
| SseReader.SplitConcat | frontend/src/api/graph-runner.ts:117-118 | splitting a concatenation is splitting the buffered rest with the new text after the complete lines |
| SseReader.ReadGraphRunner | frontend/src/api/graph-runner.ts:103-154 | for every way of cutting a text into chunks, enqueues exactly the events of its complete lines; closes exactly if the body was complete and it enqueued something, and otherwise fails as empty, aborted or broken, each exactly when it is |
| SseReader.ReadOperatorCopilot | frontend/src/api/operator-copilot.ts:202-253 | enqueues the same events; closes exactly if the body was complete and some complete line had a payload, and otherwise fails as empty, as aborted also when the read breaks with the signal aborted, or as broken |
| SseReader.PayloadExactly | frontend/src/api/graph-runner.ts:120-124 | a line carries a text exactly if it reads "data:" and that text but for white space around the two, the text being neither empty nor the sentinel |
| SseReader.ReadersDifferExactly | frontend/src/api/operator-copilot.ts:225-230 | after a complete body the two readers end differently exactly if there are payloads and none of them parses |
| SseReader.EventsNeedPayload | frontend/src/api/graph-runner.ts:120-132 | events are enqueued exactly if some complete line delivers one |
| SseReader.StreamRoundTrip | backend/app/adapters/http/streaming.py:39-129 | whatever events, heartbeats and sentinels the backend writes, and however they are cut up, the readers enqueue exactly the events in order and nothing stays in the buffer |
| SseReader.ShortStreamDeliversPrefix | frontend/src/api/graph-runner.ts:112-133 | a stream cut short delivers a beginning of what the whole would have delivered |
| SingleFlight.SingleFlightRequestRunner.Begin | frontend/src/lib/single-flight.ts:44-58 | skips, or aborts the previous request if asked to, and starts the next with a controller of its own |
| SingleFlight.SingleFlightRequestRunner.End | frontend/src/lib/single-flight.ts:60-78 | what a settling request reports, and that only the latest gives the slot back |
| SingleFlight.InFlightIsLatest | frontend/src/lib/single-flight.ts:54-78 | in every run `inFlight` holds exactly if the latest started request has not settled |
| SingleFlight.SuccessesDoNotOverlap | frontend/src/lib/single-flight.ts:60-70 | the lifetimes of requests reported successful are disjoint and in start order |
| SingleFlight.DoomedIsReportedAborted | frontend/src/lib/single-flight.ts:60-70 | a request overtaken or aborted while it runs is never reported as anything but aborted |
| SingleFlight.StartExactly | frontend/src/lib/single-flight.ts:46-58 | a call starts a live request exactly unless one is in flight and it asks to be skipped rather than to cancel it; it aborts the one in flight if asked to, and no other |
| SingleFlight.AbortExactly | frontend/src/lib/single-flight.ts:36-38 | an abort ends the life of the latest request and of no other |
| SingleFlight.UndoomedIsReportedAsItEnds | frontend/src/lib/single-flight.ts:60-70 | a settling request is reported aborted exactly if it was overtaken, aborted or rejected like an abort, and successful exactly if it was not and resolved |
| SingleFlight.StartKeepsOneLiveExactly | frontend/src/lib/single-flight.ts:46-58 | a start leaves only the latest request live exactly if it passes one of the options or the latest was not live |
| SingleFlight.AtMostOneLiveTask | frontend/src/lib/single-flight.ts:46-58 | if every call passes one of the options, at most one unaborted task runs at any time |
| SearchScheduler.DirectSearchScheduler.Schedule | frontend/src/pages/directSearchScheduler.ts:19-46 | cancels what was pending, then fires at once or sets a timer for a new token |
| SearchScheduler.DirectSearchScheduler.CancelPending | frontend/src/pages/directSearchScheduler.ts:48-57 | clears the timer and aborts the job behind it |
| SearchScheduler.DirectSearchScheduler.IsLatest | frontend/src/pages/directSearchScheduler.ts:59-61 | whether the token is that of the job scheduled last |
| SearchScheduler.ScheduleExactly | frontend/src/pages/directSearchScheduler.ts:19-46 | an immediate job's callback has run when the call returns; of any other a single timer is pending, whose expiry runs it; every older job is aborted |
| SearchScheduler.CancelExactly | frontend/src/pages/directSearchScheduler.ts:48-57 | afterwards no timer is pending, every job is aborted and no callback has run |
| SearchScheduler.OnlyLatestFires | frontend/src/pages/directSearchScheduler.ts:34-43 | in every run a callback fires only for the latest job, and that job is not aborted |
| SearchScheduler.FiringsAreOrdered | frontend/src/pages/directSearchScheduler.ts:24-45 | tokens fire in increasing order, so each at most once, and every older job is aborted |
| SearchScheduler.AbortedJobNeverFires | frontend/src/pages/directSearchScheduler.ts:48-57 | an aborted job that has not fired never does |
| LoginProtocol.AuthRuntime.CreateAuthenticatedClient | backend/instagram_runtime/auth.py:339-454 | result, attempts, waiting client and session file are those of the protocol, which AttemptsExactly and OutcomeExactly characterise |
| LoginPaths.AttemptsExactly | backend/instagram_runtime/auth.py:357-448 | from the inputs: which of the four attempts are made, in which order, with which client, device and code |
| LoginPaths.OutcomeExactly | backend/instagram_runtime/auth.py:357-454 | it returns the session's client exactly if its restore, checked where asked, or its relogin works and the session can be written, the fresh one exactly if its login is reached, works and can be written; and which exception escapes otherwise |
| LoginPaths.SuccessReturnsExactly | backend/instagram_runtime/auth.py:403-454 | if the last attempt succeeded its client is returned, with the session on disk, exactly if the session could be written |
| LoginProtocol.AuthRuntime.ReloginSession | backend/instagram_runtime/auth.py:380-405 | the handler of an expired session |
| LoginProtocol.AuthRuntime.Complete2faClient | backend/instagram_runtime/auth.py:466-500 | uses up the waiting client whatever comes of it, or creates one; writes the session file exactly on success |
| LoginProtocol.ProtocolIsBounded | backend/instagram_runtime/auth.py:339-454 | at most three logins; nothing follows a two-factor, bad-password or challenge failure; a client is returned exactly if the session file was written, and it is the one that just succeeded |
| LoginProtocol.PendingIsTheOneThatRaised | backend/instagram_runtime/auth.py:390-451 | a client is stored for a code exactly if TwoFactorRequired escapes, and it is the one that raised it |
| LoginProtocol.DeviceIsKeptExactly | backend/instagram_runtime/auth.py:366-448 | with a saved device every login presents it, exactly unless the device cannot be read or restored and the session's outcomes let a fresh client log in |
| LoginProtocol.ClientsAreOwn | backend/instagram_runtime/auth.py:357-454 | a client that is returned or left waiting is one of the two the call created |
| ReloginRetry.ComputeRetryDelay | backend/instagram_runtime/relogin.py:45-59 | cooldown plus jitter within its bounds, or a power of two |
| ReloginRetry.RetryExactly | backend/instagram_runtime/relogin.py:490-516 | for any bound the strategy is called up to and including the first attempt that ends the loop, with one sleep between any two calls |
| ReloginRetry.ReloginExactly | backend/instagram_runtime/relogin.py:490-516 | in terms of how the world is at each attempt: all but the last escape with an exception classified as worth retrying and are slept off by that classification, the last returns its client or escapes |
| ReloginRetry.DelayExactly | backend/instagram_runtime/relogin.py:45-59 | a cooldown waits as long as the rate limit asks, never less than 30 nor more than 120 seconds, and a jitter; any other delay starts at one second and doubles |
| ReloginRetry.CooldownDelayIsBounded | backend/instagram_runtime/relogin.py:45-58 | a cooldown delay lies between 30 and 135 seconds |
| ReloginRetry.PlainRetriesSleepExactly | backend/instagram_runtime/relogin.py:59 | r plain retries sleep 2^r - 1 seconds in all |
| ReloginRetry.ThreeAttemptsSleepAtMost | backend/instagram_runtime/relogin.py:12-16 | three attempts sleep at most 270 seconds |
| ReloginRetry.ReloginLoginsAreBounded | backend/instagram_runtime/auth.py:357-454 | n attempts with session restore make at most 3n logins |
| ReloginRetry.PendingIsOwn | backend/instagram_runtime/relogin.py:491-516 | a relogin can add only one of its own clients to those waiting for a code |
| ReloginRetry.LastOneWaits | backend/instagram_runtime/relogin.py:491-516 | of the attempts that need a code the last leaves its client waiting |
| ReloginRetry.NobodyNewWaits | backend/instagram_runtime/relogin.py:491-516 | without such an attempt those who wait stay as they were |
| AccountServices.Accounts.FindAccountIdByUsername | backend/state.py:377-382 | the first account, in the order of insertion, stored under the name without leading "@", or none if there is no such account |
| AccountServices.Accounts.SetAccount | backend/state.py:339-341 | a new id goes to the end of the order, a known one stays where it is |
| AccountServices.Accounts.PopAccount | backend/state.py:351-354 | the id leaves the map and the order, the others keep theirs |
| AccountServices.Accounts.LoginAccount | backend/services_focused/account_auth.py:48-140 | maps and reply after each way a login can go |
| AccountServices.Accounts.Complete2faLoginAccount | backend/services_focused/account_auth.py:143-203 | unknown account, refused code, failure and success |
| AccountServices.Accounts.RetryLoop | backend/instagram_runtime/relogin.py:490-516 | calls, sleeps, client and waiting clients are those of the retry specification |
| AccountServices.Accounts.ReloginAccountSync | backend/instagram_runtime/relogin.py:481-520 | the old client is dropped first; a new one is activated exactly on success |
| AccountServices.Accounts.ReloginAccountWithTracking | backend/services_focused/relogin.py:110-121 | failures are tracked unless they are ValueErrors |
| AccountServices.Accounts.LogoutAccount | backend/services_focused/account_auth.py:267-282 | client, status and account go; an unknown id changes nothing |
| AccountServices.Accounts.BulkLogoutAccounts | backend/services_focused/account_auth.py:293-300 | the accounts go in order, one reply each |
| AccountServices.Accounts.DashboardCounts | backend/services_focused/dashboard.py:16-21 | the counts; on consistent maps idle is the number of accounts with neither client nor error |
| AccountRegistry.RunsStayConsistent | backend/services_focused/account_auth.py:48-203 | over every sequence of logins, codes, relogins of known ids and logouts: every client belongs to a known account, status error implies no client, and no client serves two accounts or waits for a code while it serves one |
| AccountRegistry.ReloginKeepsConsistentExactly | backend/services_focused/relogin.py:110-121 | every relogin of an id keeps that, however the world behaves, exactly if the id is known |
| AccountRegistry.IdleIsExactWhen | backend/services_focused/dashboard.py:16-21 | total - active - error counts the accounts with neither exactly if every client has an account and no account in error a client |
| AccountRegistry.IdleCountsIdleAccounts | backend/services_focused/dashboard.py:16-21 | so it does, and is never negative, in every run |
| AccountRegistry.OverlappedReloginIsSafeExactly | backend/instagram_runtime/relogin.py:488-518 | whatever runs between a relogin's two halves, storing the client leaves the maps consistent exactly if the account is still known, and recording a failure exactly if nobody logged it in meanwhile |
| AccountRegistry.OverlappedReloginCounts | backend/services_focused/dashboard.py:16-21 | otherwise the idle count is one too low, and negative exactly if no account is idle |
| AccountRegistry.ReloginDecides | backend/instagram_runtime/relogin.py:488-520 | a relogin touches its own account alone and ends with a new client and active, or no client and error; a ValueError leaves the status |
| AccountRegistry.ReportedExactly | backend/services_focused/account_query.py:19-22 | an account with a client reads active, any other as stored last |
| AccountRegistry.LoginDecides | backend/services_focused/account_auth.py:65-140 | a login ends with the client that worked and active, waiting for a code, or with the account forgotten, exactly by how the protocol ends and whether the code can be made up; no other account is touched |
| AccountRegistry.CodeDecides | backend/services_focused/account_auth.py:143-203 | when a code is unknown, refused, failed or accepted; it is used on the client that waits, or a new one, and none waits afterwards |
| AccountRegistry.StripsLeadingAts | backend/state.py:378 | leading "@"s are taken off a name and nothing else |
| AccountRegistry.LoginAgainChangesNothingExactly | backend/services_focused/account_auth.py:58-60 | a repeated login answers at once and changes nothing exactly if the name has no leading "@" |
| AccountRegistry.NamesStayUnique | backend/state.py:377-382 | names stay unique over every run whose logins give them without "@" |
| AccountRegistry.LogoutForgets | backend/services_focused/account_auth.py:267-282 | a logout forgets account, client and status of a known id |
| AccountRegistry.LogoutAllIs | backend/services_focused/account_auth.py:293-300 | a bulk logout forgets exactly the listed accounts, their clients and their statuses |
| AccountRegistry.RepliesExactly | backend/services_focused/account_auth.py:293-300 | the reply is "removed" for the first mention of a known id and "not found" otherwise |
| AccountRegistry.CodeReachesTheClientThatAsked | backend/services_focused/account_auth.py:129-194 | however many unrelated operations come in between, the code goes to the very client whose login asked for it, and the account gets that client |
| BulkRelogin.BulkRun.Acquire | backend/services_focused/relogin.py:85-88 | a task passes the semaphore exactly if a permit is left |
| BulkRelogin.BulkRun.ReloginInThread | backend/services_focused/relogin.py:90 | drop, try, store the client, store the status: four separate steps on the shared maps |
| BulkRelogin.BulkRun.HandleFailure | backend/services_focused/relogin.py:91-105 | status error and the error row |
| BulkRelogin.BulkRun.Release | backend/services_focused/relogin.py:88-105 | gives the permit back with the task's row |
| BulkRelogin.BulkRun.Gather | backend/services_focused/relogin.py:107 | the rows in the order of the ids |
| BulkRelogin.BulkReloginSettles | backend/services_focused/relogin.py:79-107 | distinct ids or one permit: at most `concurrency` in flight, row i is about id i, every listed account has client and active or neither and error, every other account is unchanged |
| BulkRelogin.RowsAreTruthful | backend/services_focused/relogin.py:87-105 | with distinct ids every returned row reports the client the maps hold for its account |
| BulkRelogin.TaskAloneIsRelogin | backend/services_focused/relogin.py:87-105 | a task nobody interferes with leaves the clients of a single relogin, and its statuses except that a ValueError is tracked too |
| BulkRelogin.BulkReloginCanFinishExactly | backend/services_focused/relogin.py:85-107 | the bulk relogin can end exactly if there is nothing to do or at least one permit |
| BulkRelogin.StepsRunOut | backend/services_focused/relogin.py:87-105 | no run has more than six steps of a task each |
| BulkRelogin.DuplicatesCanUnsettle | backend/services_focused/relogin.py:107 | for any list with a repeated id and two permits, a finished run that leaves a client on an account in error |
| BulkRelogin.BulkReloginSettlesExactly | backend/services_focused/relogin.py:79-107 | every finished run settles every listed account exactly if the ids are distinct or there is at most one permit |

## Left out

- The outer deadline of a post job (post_job_executor.py:189-209) is not one of the steps of the runs; `DeadlineStrandsSleeperExactly` and `LateWorkerOverwrites` take it as one uninterrupted step, the model otherwise joins all workers.
- The handler around `run` (post_job_executor.py:228-235), reached only when a job lacks a field or a helper fails.
- Exceptions inside a worker outside the upload's own handler are swallowed by its future and would leave a row unfinished; the helpers before and inside the upload are taken to be total.
- Deleting a job, or clearing the whole store, during its run; a second run of a job beside the first, which the queue's single worker (scheduler/job_queue.py:68) does not start.
- The retry's reading and writing of the job are one step; a row written in between is lost with the copy it was made from.
- That an upload of files that do not exist fails is taken as given (`Possible`), as the SDK is not part of this model; so are media paths without surrounding blanks.
- `threading.Event` and `AbortController` objects are numbers into a table; `Event.set` wakes all its waiters in one step.
- Error texts of classified exceptions, result rows that are not dicts, runtime metadata (`mark_started`, `mark_heartbeat`), server-sent notifications and logging; of the temporary files, thumbnails.
- Statuses are datatypes; lower-casing of stored text statuses and unknown statuses are not modelled.
- `datetime.fromisoformat` is an arbitrary predicate on strings; the job queue behind `enqueue` and failures of the job repository during the restore are not part of this model.
- `TextDecoder`, `fetch` and the checks before the first read; `JSON.parse` is an arbitrary partial function and `controller.enqueue` is taken not to throw.
- Abort listeners and search callbacks that call back into their runner while it is inside a call; `getPollBackoffDelay`.
- Session file contents other than the device ids, proxies, geo and locale settings, and the dispatch on callables' signatures.
- The fresh-credentials relogin strategy; relogin uses session restore, as every caller in services_focused does.
- Account passwords, proxies and profile fields, the accounts file, imports of accounts and session archives, and activity-log writes that fail.
- Overlapping single operations on the account maps, except for the bulk relogin and what overlaps a single relogin.
- BulkReloginSettles: says nothing about clients waiting for a two-factor code, which are not part of that system.
- Cancellation of a bulk relogin, and a negative `concurrency`, which the semaphore refuses.
- Dashboard job lists, `read_log_entries`, tool policies, LangGraph nodes, schemas, facades, migrations and pages: one-branch checks or plumbing.
