# Verified model of the cyber-range backend

The backend is a training range. Students attack a language-model assistant (Red Team) and
watch and buy defenses (Blue Team); an Auto-SOC worker judges events in labs that one student
plays alone. There is no single big algorithm. What is hard is a set of small protocols that
several tasks run at the same time, and some exact transformations. This project models them
in Dafny and proves what they are for, over every run and every input.

`dafny verify dfyconfig.toml` checks everything. The modules follow the program:

| module | models |
|---|---|
| `AdmissionQueue`, `AdmissionRuns`, `AdmissionStops`, `QueueManager` | bounded ticket queue and FIFO lock in front of the shared model |
| `Forensics`, `Economy`, `EconomyRuns`, `Decisions`, `Dashboard` | purchases, investigations and worker verdicts as transactions with row locks; the counters |
| `SocLoop`, `ExceptionChain` | the worker's endless loop, and how it recognises an unreachable model |
| `Chunker`, `Ingestion` | splitting a document into overlapping chunks and inserting them in batches |
| `Seeding`, `AdminSetup` | crash-safe exercise seeding, idempotent lab provisioning |
| `LoginCounting`, `RateLimits`, `ForgeryLog` | counting failed logins, the two rate limiters, de-duplicated forgery events |
| `UploadPath`, `LoginCode`, `PrivatePdf` | path normalisation, the base64url login code, the PDF writer |
| `Options`, `Sequences`, `Sets` | the optional value, and the sequence and set lemmas that several modules share |

## How to read it

A protocol is a state machine. An event is one stretch of code between two points where another
task can run (an `await`, a statement of a transaction, a command to Redis). `Enabled` says when
an event may happen, `Step` what it does, `LegalRun` and `Final` speak of whole runs. Theorems
named after runs hold for every interleaving of any number of tasks. Where the program changes
an object in place there is a class whose methods are proved against the step function, or
against the pure function, that the theorems are about.

In the admission protocol "the lock is handed over" and "the woken task runs" are separate
events, so a timeout or a cancellation can land between them. `asyncio.Lock`, `asyncio.Queue`,
`posixpath` and `base64` are modelled as in the standard library of Python 3.11, the version
that the backend's image uses.

## Where the obvious claim is false

Each of these has its exact condition, proved in both directions, and an input that fails.

* Tickets are not matched to their owners. The chats take their own tickets exactly when they
  leave in the order in which they came (`TicketsMatchExactly`); a request that times out first
  takes the running request's (`TicketsDoNotIdentify`). The number is always right
  (`AdmissionIsSafe`).
* "compromised + pending <= total" holds in one state (`CountersInOneState`), but the dashboard
  reads three times. It then holds exactly when no more events were recorded since the first read
  than the third read finds uncounted (`CountersAcrossReads`); one new event is enough to break it
  (`CountersCanExceedTotal`).
* The limit of 250 tokens per chunk holds exactly when no sentence is longer than 125 tokens
  (`LimitHoldsUpTo125`); otherwise the bound is max(250, 50 + m, 2m) (`ChunkSize`).
* A processing job shows 100 % before it is finished exactly for documents of at most three
  chunks (`EarlyHundred`).
* More than ten login attempts of one minute key pass exactly when there are more than ten and the
  key was once unused for 60 seconds between two of them (`LoginLimitHoldsExactly`); such a gap
  needs an attempt that reaches Redis after its minute (`PunctualNeverRestarts`), and twenty can
  pass (`RestartLetsTwentyPass`). At most twenty attempts of a source in any 60 seconds are
  guaranteed exactly for a latency of at most one millisecond, the unit of the model's clock
  (`TwentyLoginsPerMinute`, `ThirtyPass`).
* The chat limiter sends EXPIRE separately. If it is lost, the window never ends
  (`LostExpireBlocksForGood`); once it ran, the window ends exactly with the first request 60
  seconds later (`ExpireEndsTheWindow`).
* One forgery event per window fails exactly through a delete that removes the live reservation of
  an event or of a task that is still writing (`OnlyHarmfulDeletesMatter`); late writes and failed
  deletes do no harm, and a delete within the task's own window never does
  (`TimelyDeletesAreHarmless`). `OverdueIsReachable` and `LateDeleteBreaksTheWindow` are a run that
  fails. What a failed delete breaks is that nothing is hidden (`OnlyAbandoningHides`).
* "Every event is analysed in the end" fails: five older events whose analysis always fails fill
  every batch, and only then does an event starve (`StarvesExactly`).
* The row lock alone does not protect the balance: without `populate_existing` the ORM would keep
  the object of the router's unlocked read. That object is current exactly if the row has not
  changed since (`UnrefreshedIsCurrentExactly`), and a purchase would undo every change in between
  (`UnrefreshedLosesUpdates`).
* The login-code decoder is not injective: it ignores two spare bits, reads `+/` like `-_`, and
  accepts one pad character (`AcceptedExactly`, `SpareBitsAreIgnored`).
* The private document comes back unchanged exactly when no line holds a carriage return
  (`LinesSurviveExactly`), and its last object is found exactly while its offset has ten digits
  (`AllObjectsAreFound`).

## Model

| member | source | states |
|---|---|---|
| AdmissionQueue.StepKeepsInv | backend/app/core/queue_manager.py:20-58 | no arrival, timeout, cancellation, resumption or release fails or breaks exclusiveness, the pending wake-up or the ticket count |
| AdmissionQueue.StopOnResumeKeepsInv | backend/app/core/queue_manager.py:33-43 | a task stopped while waiting, even after it was granted the lock, gives back one ticket, frees nobody's lock and hands its wake-up on |
| AdmissionRuns.RunsNeverFail | backend/app/core/queue_manager.py:30-48 | `get_nowait`, `task_done` and `release` never raise, in any interleaving, although they pop other tasks' tickets |
| AdmissionRuns.AdmissionIsSafe | backend/app/core/queue_manager.py:13-48 | in every reachable state queue size = unfinished tasks = chats waiting or running <= 50, and at most one task runs the model |
| AdmissionRuns.RejectedExactlyWhenFull | backend/app/core/queue_manager.py:20-28 | 503 if and only if 50 chats are inside, and then nothing changes |
| AdmissionRuns.LockIsKept | backend/app/core/queue_manager.py:33-48 | the lock leaves its owner only by the owner's own release |
| AdmissionRuns.NobodyOvertakes | backend/app/core/queue_manager.py:30-48 | no event puts anybody in front of a waiting task, each release brings it one place closer, and only tasks in front of it get the lock |
| AdmissionRuns.ServedInOrder | backend/app/core/queue_manager.py:30-58 | FIFO over whole runs: whoever is served while a task waits was in front of it at the start, and releases are bounded by its place |
| AdmissionRuns.SomebodyCanMove | backend/app/core/queue_manager.py:30-48 | no wake-up is ever lost: while a task is inside, the owner or the head of the line can move, and the load shrinks |
| AdmissionRuns.DrainsCompletely | backend/app/core/queue_manager.py:20-58 | from every admitted state there is a run that empties the manager completely |
| AdmissionRuns.TicketsMatchExactly | backend/app/core/queue_manager.py:20-48 | in every run the tickets popped are the first ones of the queue and its later arrivals, so leaving chats take their own tickets if and only if they leave in order of arrival |
| AdmissionRuns.TicketsDoNotIdentify | backend/app/core/queue_manager.py:33-35 | a run in which they do not: the chat that times out takes the running chat's ticket |
| AdmissionStops.StopIsObeyed | backend/app/core/queue_manager.py:30-43 | from any admitted state, for a woken or an unwoken waiter: after a timeout or a cancellation lands, the next resumption replies 504 or raises, never acquires, returns one ticket of a chat and leaves the lock as it is |
| AdmissionStops.ReplyTellsTheHistory | backend/app/core/queue_manager.py:30-43 | a task suspended on arrival acquires if and only if no stop landed since, replies 504 if and only if one did but no cancellation, and raises if and only if a cancellation landed |
| AdmissionStops.StoppedIsNeverServed | backend/app/core/queue_manager.py:30-43 | a stopped task does not get the lock in any run in which it does not arrive again |
| AdmissionStops.PassesAtOnceExactly | backend/app/core/queue_manager.py:20-32 | a task acquires on arrival if and only if nobody runs, nobody live is in the line and, for a chat, a place is free |
| QueueManager.LLMQueueManager.WaitForTurn | backend/app/core/queue_manager.py:20-32 | the mutable manager takes exactly the step of the protocol at an arrival |
| QueueManager.LLMQueueManager.ResumeWaiter | backend/app/core/queue_manager.py:30-43 | the same when a suspended task runs again: it owns the lock, or it cleans up |
| QueueManager.LLMQueueManager.ReleaseTurn | backend/app/core/queue_manager.py:45-48 | the same for a release |
| Forensics.RuleVerdictIsStable | backend/app/siem/soc_worker.py:84-89 | judging a closed rule-judged event again gives the same verdict, whatever the verdict wrote into its payload |
| Forensics.ActivateOwns | backend/app/defense/service.py:72-81 | a purchase switches on the defense it names and no other |
| Forensics.SessionRow.Purchase | backend/app/defense/service.py:34-96 | in names, prices and columns: refused if and only if the name is not on sale, the defense is on, or the balance would become negative; otherwise the price is taken, that defense is on and no other column changes |
| Forensics.LogRow.Investigate | backend/app/siem/forensics.py:82-117 | a foreign session changes nothing; otherwise the rules' verdict, the investigator and 3, 1 or 0 credits are recorded |
| Economy.StepKeepsLocks | backend/app/labs/repository.py:15-20 | after the refreshing read under the lock a transaction's copies are current for as long as it holds the locks, and no lock outlives its owner |
| Economy.CommitKeepsLocks | backend/app/siem/forensics.py:107-113 | a commit writes only rows that it holds |
| EconomyRuns.StepKeepsBooks | backend/app/defense/service.py:41-83 | every step of any transaction keeps budgets, defenses, closings and verdicts in agreement with the history of commits |
| EconomyRuns.BudgetIsConserved | backend/app/siem/forensics.py:74-113 | in every run budget = initial + credits awarded - prices paid, and it is never negative |
| EconomyRuns.DefensesAreChargedOnce | backend/app/defense/service.py:46-83 | in every run a defense is charged at most once, never if it was on, and is on exactly if it was on or was bought |
| EconomyRuns.LogsAreClosedOnce | backend/app/siem/soc_worker.py:69-109 | in every run, for every log whenever it was recorded: the three writers together close it at most once and credit it at most once, never if it was investigated before, and compromised implies investigated |
| EconomyRuns.SameVerdictWhoeverWins | backend/app/siem/soc_worker.py:84-90 | from any reachable state that has a rule-judged event, any two continuations that closed it store the same verdict, the one the rules gave in that state |
| EconomyRuns.DecisionsAreFinal | backend/app/siem/soc_worker.py:98-109 | a later verdict changes no field of an investigated event, and no defense is ever switched off |
| EconomyRuns.UnrefreshedIsCurrentExactly | backend/app/labs/repository.py:17-20 | without `populate_existing` a locked copy is current if and only if the row has not changed since the router's read |
| EconomyRuns.UnrefreshedLosesUpdates | backend/app/labs/repository.py:17-20 | a purchase decided on such a copy puts the balance off by exactly what was committed in between |
| EconomyRuns.StaleObjectIsReachable | backend/app/defense/router.py:21-24 | a run of two purchases in which the second one holds an outdated object when it locks the row |
| EconomyRuns.NoDeadlock | backend/app/siem/forensics.py:74-84 | whichever transaction is asked about, it or the holder it waits for (at most twice removed) can go on |
| EconomyRuns.EverybodyFinishes | backend/app/labs/repository.py:15-20 | from every reachable state all transactions can run to their end, within the number of steps left |
| Decisions.PurchaseIsDecided | backend/app/defense/service.py:34-67 | in any state that the locks protect, the lock step answers each refusal exactly when it is due, and otherwise the purchase goes on |
| Decisions.PurchaseIsPaid | backend/app/defense/service.py:69-96 | its commit takes exactly the price from the current balance, keeps it nonnegative, switches on that defense and touches no other row |
| Decisions.InvestigationIsOpened | backend/app/siem/forensics.py:74-80 | an unknown log is 404, an investigated one 400, and only a pending one goes on |
| Decisions.InvestigationIsDecided | backend/app/siem/forensics.py:82-84 | 404 if and only if the session is missing or belongs to another lab than the log |
| Decisions.InvestigationIsRecorded | backend/app/siem/forensics.py:86-117 | the commit records verdict, time and investigator on the log, changes no other column, and pays 3, 1 or 0 |
| Decisions.SavedVerdictIsStored | backend/app/siem/soc_worker.py:94-109 | the model's verdict and reason are stored as given, on that row only |
| Decisions.VerdictIsDiscardedExactly | backend/app/siem/soc_worker.py:97-104 | a verdict is discarded if and only if the row is locked or already investigated |
| Decisions.RuleVerdictsAreStored | backend/app/siem/soc_worker.py:82-91 | the rows closed without the model hold the rules' verdict and reason, blocked bursts as malicious and failed logins from five usernames on |
| Dashboard.CountersAcrossReads | backend/app/siem/repository.py:27-54 | three reads with anything in between: compromised + pending + uncounted = total + recorded since, so the inequality holds if and only if recorded <= uncounted |
| Dashboard.DashboardOfARun | backend/app/siem/repository.py:27-54 | the same account for three cuts of any interleaving of transactions |
| Dashboard.CountersInOneState | backend/app/siem/repository.py:27-54 | in one reachable state compromised + pending <= total |
| Dashboard.CountersCanExceedTotal | backend/app/siem/repository.py:31-48 | a concrete run in which the separate reads report more pending events than events |
| SocLoop.OldestExactly | backend/app/siem/soc_worker.py:50-61 | a batch is exactly the rows with fewer than `limit` older ones of their kind, oldest first |
| SocLoop.BatchSettlesExactly | backend/app/siem/soc_worker.py:132-159 | a row is settled if and only if its verdict was reached before any outage or failed write, the row was free, and the write went through; no other row changes |
| SocLoop.OutageExactly | backend/app/siem/soc_worker.py:145-155 | a poll is an outage if and only if the loop got to a lost connection, and any answer before it ends the down state |
| SocLoop.SleepFollowsStreak | backend/app/siem/soc_worker.py:164-174 | the k-th outage in a row sleeps min(5 * 2^(k-1), 60) seconds and every other poll 5, over all runs |
| SocLoop.MessagesAlternate | backend/app/siem/soc_worker.py:153-170 | warnings and all-clears strictly alternate over every run, a warning first |
| SocLoop.RunOnlySettles | backend/app/siem/soc_worker.py:47-109 | over a whole run an investigated row, or a row of a lab with two players, never changes; a rule-judged row can only get the rules' own verdict and reason |
| SocLoop.StarvesExactly | backend/app/siem/soc_worker.py:58-59 | with a set of events that always fail, an event is still waiting after enough polls if and only if five of them are older |
| SocLoop.DrainsExactly | backend/app/siem/soc_worker.py:47-91 | without failures and arrivals n model-judged events need exactly ceil(n/5) polls and m rule-judged ones ceil(m/500) |
| SocLoop.PollStoresVerdicts | backend/app/siem/soc_worker.py:82-109 | a row that a poll changes was pending, solo and free, and holds, column by column, the rules' verdict or the model's answer for that very row |
| SocLoop.RunStoresVerdicts | backend/app/siem/soc_worker.py:82-109 | over a whole run a row is as it was or holds the verdict of the poll that settled it |
| SocLoop.PollSettlesExactly | backend/app/siem/soc_worker.py:50-83 | a pending solo row is settled if and only if it is among the 500 oldest free ones for the rules, or among the five oldest, answered and written |
| SocLoop.WorkIsPartitioned | backend/app/siem/soc_worker.py:53-77 | the two kinds of work are exactly the pending solo events, split by the kind of event |
| SocLoop.PollIsReported | backend/app/siem/soc_worker.py:153-170 | after an outage the last message is the warning, after an answer it is not, and a silent poll reports nothing |
| SocLoop.SocWorker.CloseRuleJudgedLogs | backend/app/siem/soc_worker.py:64-91 | the row loop closes exactly the unlocked batch, each row with the rules' verdict in its columns |
| SocLoop.SocWorker.AnalyseBatch | backend/app/siem/soc_worker.py:132-162 | the loop with its break, continue and exception exits has the effect that the theorems describe; a changed row is of the batch and holds its own answer |
| SocLoop.SocWorker.Poll | backend/app/siem/soc_worker.py:122-174 | one pass of the endless loop moves rows, backoff, flag and messages as in the theorems and sleeps as long; every changed row holds the verdict given for it |
| ExceptionChain.IsConnectionError | backend/app/siem/soc_worker.py:33-44 | terminates on every exception graph, and is true if and only if a network error is on the `cause or context` chain |
| ExceptionChain.ChainByCause | backend/app/siem/soc_worker.py:40-43 | the chain goes on with the cause if there is one, else with the context, and ends without either |
| Chunker.ChunksAreChunking | backend/app/documents/service.py:49-71 | the chunks are contiguous windows, each full but for the next sentence, and the carried overlap is the longest suffix of at most 50 tokens, or the last sentence |
| Chunker.ChunksAreTheOnlyChunking | backend/app/documents/service.py:49-71 | that description has exactly one solution, the loops' own |
| Chunker.ChunksAdvance | backend/app/documents/service.py:58-69 | ends strictly increase, starts never decrease, and each chunk starts before the previous one ends |
| Chunker.ChunksRebuildTheText | backend/app/documents/service.py:55-71 | dropping each overlap and concatenating gives back the sentence list exactly |
| Chunker.ChunkSize | backend/app/documents/service.py:35-66 | no chunk has more than max(250, 50 + m, 2m) tokens when no sentence has more than m |
| Chunker.LimitHoldsUpTo125 | backend/app/documents/service.py:35-66 | every chunk of every document has at most 250 tokens if and only if m <= 125 |
| Chunker.ChunkCount | backend/app/documents/service.py:55-69 | the number of chunks is bounded by the document's tokens, and is zero exactly for no sentences |
| Chunker.CarryOver | backend/app/documents/service.py:61-63 | the inner loop stops at the overlap that the description asks for |
| Chunker.JoinedText | backend/app/documents/service.py:59 | a chunk's text is its sentences in order with one space between neighbours |
| Chunker.ChunkTextWithOverlap | backend/app/documents/service.py:49-71 | the mutable loops emit exactly the texts of those windows |
| Ingestion.AllBatches | backend/app/documents/service.py:174-183 | the batches together are the whole list, nothing twice and nothing missing |
| Ingestion.EarlyHundred | backend/app/documents/service.py:184-189 | the job shows 100 % or more before it is finished if and only if it has at most three chunks |
| Ingestion.TokenizeStaysBelow60 | backend/app/documents/service.py:168-171 | the tokenizing phase reports 30 to 60 %, and 60 % after the last chunk |
| Ingestion.DescribeChunks | backend/app/documents/service.py:155-167 | each record carries its own chunk's length and its position as number |
| Ingestion.InsertBatches | backend/app/documents/service.py:173-189 | whichever insertion or progress write fails, exactly the whole batches up to there are stored |
| Ingestion.InsertChunks | backend/app/documents/service.py:155-202 | a failed job returns 0 with whole batches from the front, possibly all of them; a finished one returns the number of chunks, all stored in order |
| Seeding.StageKeepsOneFlag | backend/app/labs/exercises.py:99-110 | adding the missing flags keeps at most one flag per lab and exercise |
| Seeding.CommitAddsDrawnFlags | backend/app/labs/exercises.py:99-110 | one run commits a row for each exercise that the lab lacked, with the flag drawn for it, the plaintext for EX-03 and EX-05 only, and leaves earlier rows and other labs as they were |
| Seeding.CommittedLabsHaveAllFlags | backend/app/labs/exercises.py:87-124 | after any history, once a run has committed its flags its lab has exactly one row for each of the three exercises, for good |
| Seeding.OtherDocumentsStay | backend/app/labs/exercises.py:72-74 | rebuilding private documents removes no chunk of any other document |
| Seeding.SecretStays | backend/app/labs/exercises.py:99-110 | a committed flag is never replaced by a later run |
| Seeding.RunKeepsInv | scripts/seed_exercises.py:31-49 | commit before indexing, one run at a time: the invariant holds through every crash and failure |
| Seeding.PrivateChunksAreCommitted | backend/app/labs/exercises.py:127-142 | whatever failed before, a private chunk is a chunk of the document built from the flag that a committed row of its own lab holds |
| Seeding.FailureLeavesWholeBatches | backend/app/documents/service.py:173-202 | after any history each lab has one flag per exercise and a prefix of whole batches, or nothing |
| Seeding.SuccessLeavesOneDocument | backend/app/labs/exercises.py:133-142 | a run that finishes leaves exactly one document, in order, numbered from 0, whatever earlier runs left |
| Seeding.RepeatingRecovers | scripts/seed_exercises.py:31-49 | from every state that failures can leave, repeating the command can finish |
| LoginCounting.RunKeepsInv | backend/app/siem/service.py:99-112 | lock, read, write and commit under the advisory lock keep every stored count right, in any interleaving |
| LoginCounting.CountCoversEarlierFailures | backend/app/siem/service.py:93-112 | an event stores at least the number of distinct usernames that failed in its window and were locked before it; from five on it is malicious |
| LoginCounting.CountNeverExceeds | backend/app/siem/repository.py:62-78 | a stored count is at most the number of distinct usernames that failed in the five minutes before, so fewer than five are never malicious |
| LoginCounting.BurstCountsUp | backend/app/siem/repository.py:57-78 | a burst of n distinct usernames stores exactly 1, 2, ..., n, in every interleaving |
| RateLimits.CounterIsExact | backend/app/defense/service.py:141-144 | for every sequence of attempts the counter is at most the number of attempts with its key, and equal to it if and only if the key was never unused for 60 seconds |
| RateLimits.LoginLimitIsExact | backend/app/defense/service.py:148-161 | for every sequence the verdict on an attempt is that of its place in its burst, and of its place in the minute if no gap of 60 seconds came before |
| RateLimits.LoginVerdictCounts | backend/app/defense/service.py:148-161 | for every sequence at most ten attempts of each burst pass, and each burst of more than ten writes one event |
| RateLimits.LoginLimitHoldsExactly | backend/app/defense/service.py:135-161 | at most ten attempts of a key pass if and only if there are no more than ten or no gap of 60 seconds; without a gap min(n, 10) pass and one event is written exactly if n > 10 |
| RateLimits.PunctualNeverRestarts | backend/app/defense/service.py:140-144 | attempts that reach Redis in the minute of their key leave no such gap |
| RateLimits.TwentyLoginsPerMinute | backend/app/defense/service.py:135-161 | at most twenty attempts of a source pass in any 60 seconds, for all runs of a given latency, if and only if the latency is at most one millisecond |
| RateLimits.TenPerKey | backend/app/defense/service.py:141-149 | at most ten attempts of one key pass in any 60 seconds, however late they are |
| RateLimits.ThirtyPass | backend/app/defense/service.py:141-149 | thirty attempts with three minute keys, at most two milliseconds late, that pass within 60 seconds |
| RateLimits.RestartLetsTwentyPass | backend/app/defense/service.py:141-149 | ten attempts and ten more of the same minute that reach Redis 60 seconds after them: the eleventh passes, and so do all twenty |
| RateLimits.ChatLimitHolds | backend/app/defense/service.py:106-132 | at most `rpm` requests pass per window and 2 * `rpm` in any 60 seconds, with INCR and EXPIRE as separate steps of any requests |
| RateLimits.ChatPassesExactly | backend/app/defense/service.py:106-132 | of n requests of a window exactly min(n, `rpm`) pass, after every prefix of every interleaving |
| RateLimits.LostExpireBlocksForGood | backend/app/defense/service.py:108-113 | if EXPIRE never comes, the window never ends and the counter only grows |
| RateLimits.ExpireEndsTheWindow | backend/app/defense/service.py:108-113 | once EXPIRE ran, the window goes on if and only if every request so far came within 60 seconds of it |
| RateLimits.RedisCounters.IncrAndExpire | backend/app/defense/service.py:143-147 | both commands together or none of them, and an exception also if only the answer is lost |
| RateLimits.EnforceLoginAttemptLimit | backend/app/defense/service.py:135-161 | the verdict follows from the counter's new value; without an answer the attempt passes, whether or not it was counted |
| RateLimits.ServeAttempts | backend/app/defense/service.py:135-161 | the mutable limiter gives a whole sequence of attempts the verdicts that the theorems count |
| ForgeryLog.RunKeepsInv | backend/app/siem/service.py:58-90 | every step but a harmful delete keeps the live key with the reservation that may have an event, however late tasks are and whether Redis answers or not |
| ForgeryLog.OneEventPerWindow | backend/app/siem/service.py:65-83 | in every run without a harmful delete two reservations with events are 15 minutes apart, and events written in time are in that order |
| ForgeryLog.AnsweredEventsAreApart | backend/app/siem/service.py:65-83 | if Redis also answers every attempt, all events of the run are 900 seconds apart |
| ForgeryLog.UnreservedAreUnanswered | backend/app/siem/service.py:66-72 | in any run the events without a reservation are at most as many as the attempts without an answer |
| ForgeryLog.DroppedExactly | backend/app/siem/service.py:66-73 | an attempt is dropped if and only if Redis answers and the key is there; any other stays able to write, whatever others do |
| ForgeryLog.DroppedStaysDropped | backend/app/siem/service.py:68-69 | a dropped attempt never writes an event |
| ForgeryLog.KeyLasts | backend/app/siem/service.py:67 | a reservation that nobody deletes lasts exactly 900 seconds |
| ForgeryLog.OnlyHarmfulDeletesMatter | backend/app/siem/service.py:84-89 | a step endangers that spacing, then or in any continuation, if and only if it deletes the live reservation of an event or of a task still writing |
| ForgeryLog.TimelyDeletesAreHarmless | backend/app/siem/service.py:84-89 | if every delete comes within 15 minutes of the task's own reservation, none is harmful |
| ForgeryLog.OnlyAbandoningHides | backend/app/siem/service.py:84-90 | a step leaves a reservation behind that belongs to no event and no acting task if and only if it fails to release the live key that only its own task held |
| ForgeryLog.NothingIsHidden | backend/app/siem/service.py:84-90 | in every run without such a step a reservation has an event, or a task that will write or release it |
| ForgeryLog.OverdueIsReachable | backend/app/siem/service.py:65-83 | a concrete run in which one task's write outlasts its window while another's event is written |
| ForgeryLog.LateDeleteBreaksTheWindow | backend/app/siem/service.py:84-89 | from there the late release removes the other's reservation and a second event follows at once |
| UploadPath.NormPartsIsWalk | backend/app/documents/object_store.py:29 | the component loop of `normpath` computes the shortest route to where the component-by-component walk ends |
| UploadPath.NormalisationKeepsMeaning | backend/app/documents/object_store.py:29 | normalisation changes neither where a path leads nor an already normal path |
| UploadPath.SplitParts | backend/app/documents/object_store.py:29 | splitting at slashes loses nothing: the parts hold no slash and join back to the path |
| UploadPath.AcceptedExactlyInside | backend/app/documents/object_store.py:23-33 | accepted if and only if the name is relative and the walk from `uploads` ends strictly inside one of the two folders; the key names that place |
| UploadPath.AcceptedKeysAreProper | backend/app/documents/object_store.py:30-33 | every accepted key is lab, folder and further components, none of them empty, `.` or `..` |
| LoginCode.AlphabetInOrder | backend/app/labs/service.py:55 | the 64 characters are those of the URL-safe alphabet, in order |
| LoginCode.DataExactly | backend/app/labs/service.py:61 | the decoder reads these characters and `+` and `/`, and no other |
| LoginCode.SextetsAreBits | backend/app/labs/service.py:55 | every four sextets are the number that three bytes write, and a rest of one or two bytes is filled up with zero bits |
| LoginCode.BytesOfSextets | backend/app/labs/service.py:55 | n bytes become ceil(4n/3) sextets, and the bytes are recovered from them |
| LoginCode.CodeNamesItsLab | backend/app/labs/service.py:48-67 | every lab's code has 43 characters, no padding, and decodes to that lab |
| LoginCode.AcceptedShape | backend/app/labs/service.py:60-65 | an accepted code is 43 data characters, or those and one pad character |
| LoginCode.AcceptedExactly | backend/app/labs/service.py:58-67 | a code names a lab if and only if it is that lab's own code up to spelling, one pad character and two spare bits |
| LoginCode.SpareBitsAreIgnored | backend/app/labs/service.py:61 | other last characters with the same upper four bits are read as the same lab |
| PrivatePdf.EscapeIsPerCharacter | backend/app/labs/exercises.py:42-43 | the three replacements one after the other never touch what an earlier one wrote |
| PrivatePdf.LiteralReadsBack | backend/app/labs/exercises.py:42-45 | a literal-string reader gets the line back from its escaped form, whatever follows, with line ends normalised |
| PrivatePdf.ContentShowsTheLines | backend/app/labs/exercises.py:45-46 | the content stream shows the given lines in order and nothing else |
| PrivatePdf.EntryIsTwentyBytes | backend/app/labs/exercises.py:61 | a cross-reference entry has 20 bytes if and only if its offset is below 10^10 |
| PrivatePdf.StartXrefIsXref | backend/app/labs/exercises.py:59-62 | read from the end of the file, `startxref` gives the offset of the table |
| PrivatePdf.ObjectIsFound | backend/app/labs/exercises.py:55-61 | while the offset has ten digits, following the table to entry n leads to `n 0 obj`, its body and `endobj` |
| PrivatePdf.AllObjectsAreFound | backend/app/labs/exercises.py:55-61 | the first four objects are always found, the last one exactly if its offset has ten digits |
| PrivatePdf.StreamIsRead | backend/app/labs/exercises.py:51 | `/Length` bytes after `stream` are the content, and `endstream` follows |
| PrivatePdf.PageTreeLeadsToContents | backend/app/labs/exercises.py:47-62 | the references lead from the trailer to the catalog, its pages, the page and its contents |
| PrivatePdf.FileShowsTheLines | backend/app/labs/exercises.py:39-63 | for every list of lines a reader that goes from `startxref` through the trailer and the page tree gets them back, with line ends normalised |
| PrivatePdf.LinesSurviveExactly | backend/app/labs/exercises.py:39-63 | unchanged if and only if no line holds a carriage return |
| PrivatePdf.BuildPrivatePdf | backend/app/labs/exercises.py:39-63 | the growing buffer and offset list produce that file, and only a character outside Latin-1 makes it fail |
| AdminSetup.StripKeepsExactly | scripts/admin_setup.py:30 | a name passes the whitespace check if and only if neither end is white space |
| AdminSetup.SucceedsExactly | scripts/admin_setup.py:48-97 | a run succeeds if and only if nothing that could refuse it is there beforehand, and a refused run leaves the store as it was |
| AdminSetup.RefusalTellsTheReason | scripts/admin_setup.py:27-71 | the error of a refused run names something that is indeed wrong |
| AdminSetup.AsksForCreatedUsers | scripts/admin_setup.py:65-71 | a successful run asks for the passwords of the users that it creates, in order, and for no other |
| AdminSetup.SuccessAddsTheMissingRows | scripts/admin_setup.py:64-97 | success adds exactly the missing rows, with the right role, lab, team and password hash, changes no other row and reports the right IDs |
| AdminSetup.SecondRunChangesNothing | scripts/admin_setup.py:48-97 | a second run returns the same IDs, creates nothing and asks for no password, whatever budget and mode it names |
| AdminSetup.LaterRunsStillReport | scripts/admin_setup.py:48-97 | the same after any other runs for any labs in between |
| AdminSetup.RunsKeep | scripts/admin_setup.py:126-145 | any sequence of runs loses no row, keeps usernames unique and gives no lab a second session |
| AdminSetup.Store.FindUsers | scripts/admin_setup.py:53-57 | the lookup loop stops at the first user of another role, be it admin or staff, or of another lab, and otherwise collects what is there |
| AdminSetup.LookUpPasswords | scripts/admin_setup.py:65-71 | the password loop asks for missing users only and stops at the first empty password |
| AdminSetup.Store.SeedRows | scripts/admin_setup.py:48-97 | the mutable store ends in the state and with the report that the theorems are about |
| AdminSetup.Store.RunTransaction | scripts/admin_setup.py:126-145 | any failure, of a check or of the database, leaves the store unchanged; success leaves a provisioned lab |

## Left out

- HTTP routers, server-sent events, WebSockets, CORS and the frontend: input and output without a deep invariant.
- Model calls, agent graphs, embeddings, reranking, Chroma, S3 and SMTP internals: foreign calls; an analysis is an arbitrary verdict or error, an insertion succeeds or raises.
- SQL isolation in `sqli_isolation.py` and `sqli_search.py`: PostgreSQL's meaning, not this code's.
- bcrypt, SHA-256, HMAC and JWT: the MAC and the password hash are arbitrary functions; nothing is said about forging.
- The three regular expressions of `predict_is_malicious`: one arbitrary predicate on payloads; only the rule branches are exact.
- Sentence splitting and token counting: an arbitrary sentence list and token function. Chunk sizes are sums over sentences, not tokens of the joined text.
- CTF submission: its duplicate check is not atomic and would add only a sequential property. Prompt building, e-mail parsing and DTOs are easy members.
- Time zones and connection pools: one clock that never goes back, and connections without limit.
- UUIDs that the program draws itself are parameters of the model; that they differ is not modelled.
- Economy.StepKeepsLocks: game sessions are not created during a run, and the `LIMIT` and `ORDER BY` choice of the worker is any set of at most 500 free pending rows, which covers every order the database may pick.
- SocLoop.RunOnlySettles: the students' own investigations between polls are not steps of this model (they are in `Economy`); a row they hold or have taken is one that `save_verdict` does not get.
- SocLoop.StarvesExactly: timestamps are positions in the table, so two events never share one.
- Ingestion.EarlyHundred: Python computes the percentage in floating point and cuts it off; the model uses exact floor division.
- Seeding.RepeatingRecovers: needs that the document yields at least one chunk; an insertion still in flight when the process dies is counted as done or not done, as a whole batch.
- RateLimits.LoginVerdictCounts: Redis answers every attempt of the sequence; an attempt without an answer passes (`EnforceLoginAttemptLimit`).
- RateLimits.TwentyLoginsPerMinute: time is counted in whole milliseconds, so a latency below one millisecond is none.
- Ingestion.InsertChunks: the write of the job status "Failed" itself goes through.
- PrivatePdf.FileShowsTheLines: of a dictionary the reader sees the references only; fonts and the size of the page are plain text here.
- AdminSetup.SucceedsExactly: lock and statement time limits, table creation and the added column appear only as a database error.
