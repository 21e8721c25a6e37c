# Verified model of heidi-kernel's job runner, event bus, policy store, parsers and logs

Dafny proofs about the parts of heidi-kernel that keep state or read text. Each imperative part of the program is a class
or method here, with the program's fields, arrays and loops, and is proved to compute a function on values; the properties
are then proved of those functions, over every input and every run.

- **Job runner** (`JobModel`, `JobStory`, `Scheduler`, `SchedulerInvariants`, `SchedulerHistory`, `SchedulerStory`,
  `SchedulerLoad`, `SchedulerWitness`, `SchedulerFairness`, `SchedulerStarvation`, `RoundRobin`, `ResourceGovernor`,
  `JobRunner`). A state machine whose steps
  are the public calls that change something: drawing a ticket and submitting, cancelling, ticking, a limit scan on its
  own, and each enforcement routine on a running job. `JobRunner` holds the mutable job records shared by the table and
  the queue. The spawner, `read`, `waitpid`, `/proc` and `kill(-pg, 0)` are answers supplied per job and tick (`Env`,
  `Probe`); the iteration order of the job table is a sequence that only a submission may rearrange. Drawing a ticket is a
  step of its own because the counter is incremented before the lock is taken and is shared by the whole process. The
  story of a job is what the calls of a run did to it: which tick took it, what its visits were answered, who cancelled it.
- **Event bus** (`RingBuffer`, `EventBus`, `EventDelivery`, `StatusSocket`). Publishers and subscribers as interleaved critical sections:
  push, broadcast, register, read the ring, release, drop. Any send may fail; a failure in a replay is ignored, as in the
  program. `StatusSocket` holds the ring and the subscriber list.
- **Policy store** (`GroupPolicies`, `GroupLru`, `GroupHistory`, `GroupPolicyStore`). The slot array is refined to a list
  ordered by recency. The message type carries the fields the store reads (group, action, timeouts, high_bytes), which
  `gov_rule.h` does not declare today. The number of slots is a parameter. An id is what `strncmp` sees of it: at most 32
  characters, up to the first NUL.
- **Parsers** (`GovRule`, `GovRuleParser`, `GovRulePrinter`, `GovRuleOrder`, `GovRuleFaults`, `GovRuleRoundTrip`,
  `GovRuleGrammar`, `GovRuleRefusals`, `CpuList`, `CpuListGrammar`, `Decimal`). Exceptions from `stoll`, `stoull` and `stoi`, and the operations C++ leaves undefined on an empty view, are
  outcomes of the model, not preconditions.
- **Metrics log** (`MetricsHistory`) and **event text** (`JsonEvent`).

`dafny verify dfyconfig.toml` checks everything.

## What the proofs found

- A queued job that is cancelled stays in the queue and is started later all the same. `QueuedCancellationLastsIff` gives
  the exact condition under which its CANCELLED status survives a tick.
- Once `max_queue_depth` jobs are QUEUED, every tick answers REJECT_QUEUE_FULL and skips the start loop, so nothing
  is ever started again until a QUEUED job is cancelled (`FullQueueStarves`). `docs/RESOURCE_GOVERNOR.md:86` says the decision rejects
  new submissions; `submit_job` never asks.
- `max_running_jobs` can be exceeded by all but one of the starts of one tick, and the bound is tight for every
  configuration (`ConcurrencyBound`, `ConcurrencyBoundIsTight`). The runs that reach it cancel each job while it waits,
  which takes it out of the QUEUED count but not out of the queue. If no QUEUED job is cancelled, `max_queue_depth` - 1 caps
  the starts of a tick as well, and that bound is tight too (`UncancelledBound`, `UncancelledBoundIsTight`).
- A time limit is enforced within (r + 1) * ceil(n / budget) scans if at most n jobs run and the running list changes at
  most r times meanwhile (`OverrunEndsInTime`). If it goes on changing, a job past its limit can be skipped for ever, even
  though no entry of the job table is ever rearranged: before every second scan a job starts in front of the others, and it
  is cancelled after that scan (`OverrunSkippedForEver`).
- Every record of the job table is what the job's story makes it: a spawned job started when a tick took it, its texts are
  what came through its pipes while they were open, and it was ended by one thing that happened to it, or was given no
  reason to end (`RecordTellsStory`, `TaleIsTold`).
- Every client is sent exactly its replay and then the events that returned from its registration until its removal
  (`StreamIs`).
- All subscribers are sent their broadcasts in one common order, that in which the `publish_event` calls return, which with
  several publishers need not be the order of the ring (`SameOrder`). With one publisher no stream ever goes back
  (`SinglePublisherOrder`).
- `check_job_limits` given a time before a job's start takes the job's runtime for enormous and ends it
  (`StaleTimeEndsJob`). `src/daemon/daemon.cpp:339` passes 10, meant as the scan budget, as the time.
- `docs/RESOURCE_GOVERNOR.md:51` says `max_child_processes` 0 means no limit; the code ends any job with more than 0
  processes. The model follows the code.
- A pid of 2^31 or more is accepted and narrowed; it comes back unchanged exactly below 2^31 (`PidNarrowing`).
- The message that creates a group leaves no fields in it; only later ones do (`StoredPolicy`).
- A metrics log with `max_files` below two is never rotated, and neither is one whose `max_files` - 2 narrows to a negative
  int; the size limit is kept exactly otherwise (`SizeLimitIff`, `RotatesIff`).
- An object that is only opened, as in `{"pid":1,"cpu":{}`, and a blank payload take the parser into undefined operations;
  a number of more than 64 bits makes it throw (`OutcomeIff`, `UndefinedNeedsBrace`, `ThrowNeedsDigits`).
- The CPU list parser reads anything after a number's digits as part of the number's text, and a sign before it, as
  `std::stoi` does; `ListIff` says which texts it reads and as which ranges.
- The accepted payloads are a plain grammar: keys, colons and values with optional white space, at most one optional comma
  after each, and as a last field perhaps an object whose braces never close and which loses its last character
  (`AcceptedIff`).
- Brace matching ignores quotes and texts are kept with their escapes, so a message comes back unchanged exactly when its
  affinity text closes its escapes and its braces (`RoundTripIff`).
- A payload with a newline breaks the framing of the event stream, and nothing else does (`FramedIff`).

## Model

| member | source | states |
|---|---|---|
| ResourceGovernor.Decide | src/governor/resource_governor.cpp:9-50 | jobs are admitted exactly when none of the four limits is hit, and a full queue outranks every other reason |
| JobModel.ScanVerdict | src/job/job.cpp:375-410 | a visited job ends for exactly one reason, in the order exit, time limit, process cap, each given by the clock, the byte counts, the limits and the probe; a log cut spares the job the process cap in that visit; exit code and end time say how and when |
| JobModel.ScanTexts | src/job/job.cpp:347-373 | a visit keeps all that was there and all that came, byte counts included, unless it cuts the log of a job that runs on; a pipe at its end, and both on exit, are closed |
| JobModel.LogCapKeeps | src/job/job.cpp:434-454 | a cut leaves the last min(length, half the cap) of the output and the last of the error text that the rest of the cap has room for |
| JobModel.OverranIff | src/job/job.cpp:416-419 | the unsigned subtraction is the true runtime exactly when the clock has not gone back, and what it is otherwise |
| JobModel.LogCapBounds | src/job/job.cpp:434-454 | cutting an over-long log never underflows, keeps suffixes of both streams, leaves at most the cap, and is idempotent |
| JobModel.ScanKeepsOk | src/job/job.cpp:347-409 | one visit keeps the lifecycle and log invariants of a running job |
| JobModel.CancelKeepsOk | src/job/job.cpp:271-295 | a cancellation keeps them too, whether the job runs, waits or has ended |
| JobModel.StartKeepsOk | src/job/job.cpp:574-581 | a job from the queue, cancelled or not, becomes RUNNING or FAILED with a well-formed record |
| JobModel.SignalDiscipline | src/job/job.cpp:271-282 | a job's signals are none, TERM, or TERM then KILL (KILL only on cancellation), each to the group its spawn recorded, between the spawn and the end |
| JobStory.CapVerdict | src/job/job.cpp:416-535 | called on its own on a running job, the time limit and the process cap end it exactly for their reason, with TERM to its group, and the log cap does nothing |
| JobStory.TaleIsTold | src/job/job.cpp:264-535 | whatever happens to a job, its record says it: when it was taken and under which group, all that came through its pipes while they were open, and either that nothing gave it a reason to end or which deed ended it, when, with which exit code and which signals (TERM, and KILL exactly if a cancelled group was still alive) |
| Scheduler.SelectInTable | src/job/job.cpp:329-335 | the list of running jobs holds exactly the table's jobs with an active status |
| Scheduler.SelectInOrder | src/job/job.cpp:329-335 | and it keeps the table's iteration order |
| RoundRobin.VisitsDistinct | src/job/job.cpp:341-345 | one scan never visits a job twice |
| RoundRobin.VisitsResume | src/job/job.cpp:342-343 | stopping, storing the cursor and going on is the same as not stopping |
| RoundRobin.VisitsCover | src/job/job.cpp:342-345 | n consecutive visits reach every one of n jobs |
| RoundRobin.VisitsFair | src/job/job.cpp:341-413 | after any number of visits two jobs' visit counts differ by at most one |
| SchedulerInvariants.TakenIff | src/job/job.cpp:570-584 | the start loop takes the job at position i exactly when the spawns accepted before it left room in both budgets; failed spawns use none |
| SchedulerInvariants.StartLoopQueue | src/job/job.cpp:570-584 | the start loop takes exactly that prefix of the queue, in order |
| SchedulerInvariants.StartLoopTable | src/job/job.cpp:570-584 | it starts exactly the jobs it takes and touches no other record |
| SchedulerInvariants.CheckLimitsEffect | src/job/job.cpp:325-414 | a scan visits min(n, budget) distinct running jobs from the cursor on, each once, from the record it had at the start, and nothing else happens |
| SchedulerInvariants.TickOnJob | src/job/job.cpp:537-590 | in one tick a job is started if it is taken, then scanned at most once if it runs, and otherwise unchanged |
| JobModel.EnforceKeepsOk | src/job/job.cpp:416-535 | called on its own, each enforcement routine keeps a running job's invariants; between calls the log cap has nothing to cut |
| SchedulerInvariants.NextInv | src/job/job.cpp:243-297 | every call keeps FIFO order, unique ids, conservation of jobs and each job's lifecycle and log invariants |
| SchedulerInvariants.RunInv | src/job/job.cpp:537-590 | so they hold after every run |
| SchedulerHistory.FifoAndConservation | src/job/job.cpp:243-262 | in every reachable state submissions are the jobs that left the queue followed by the queue, ids are unique, no job is lost, and a job is QUEUED exactly when it is queued and not cancelled |
| SchedulerHistory.SubmissionsAreRecorded | src/job/job.cpp:243-258 | after any run the submissions on record are those of the run, in its order, and the tickets still out are those drawn and not submitted |
| SchedulerHistory.RunExtends | src/job/job.cpp:255-258 | no call forgets or reorders a submission, a removal from the queue or a table entry |
| SchedulerHistory.SettledForGood | src/job/job.cpp:264-297 | once a job has left the queue and ended, no run changes anything about it |
| SchedulerStory.RecordTellsStory | src/job/job.cpp:243-590 | in every reachable state each record is told by the limits the job was submitted with and by what the run did to it, and by nothing else |
| SchedulerStory.StartedWhenTaken | src/job/job.cpp:574-581 | a job a tick takes has that tick's time as its start time, and the group the spawner reports, in every later state; if the spawn fails it has failed for good with the spawner's message |
| SchedulerStory.ReachableJobs | src/job/job.cpp:347-406 | in every reachable state STARTING is never seen, COMPLETED means exit code 0, the texts are suffixes of what came through the pipes, complete unless more came than max_log_bytes (and a running job's log is marked truncated exactly then), and within max_log_bytes (running) or max_log_bytes + 8192 (ended); a failed spawn keeps only the spawner's message |
| SchedulerStory.ReachableSignals | src/job/job.cpp:511-530 | the signal discipline holds of every job in every reachable state |
| SchedulerStory.ReachableEnds | src/job/job.cpp:375-410 | in every reachable state a spawned job that runs was given no reason to end, and one that runs no longer was ended by one deed of its story, as its record says, with nothing but cancellations after it |
| SchedulerHistory.TakenExactly | src/job/job.cpp:566-584 | which queued jobs a tick starts, as a condition on the state before it |
| SchedulerHistory.QueuedCancellationLastsIff | src/job/job.cpp:289-295 | a job cancelled in the queue stays CANCELLED through a tick if and only if the tick does not reach it |
| SchedulerLoad.CountsAreCardinalities | src/job/job.cpp:545-552 | the counts tick takes do not depend on the table's iteration order |
| SchedulerLoad.TickReports | src/job/job.cpp:557-587 | a tick's diagnostics and counters are true: the counts it decided by, the decision on them, how many jobs it started and how many it visited |
| Scheduler.MemoryBlocksIff | src/job/job.cpp:554-556 | memory stops admission exactly if available * 100 >= watermark * total, or the watermark is at most 0 when the total is 0 |
| SchedulerLoad.FullQueueStarves | src/governor/resource_governor.cpp:13-19 | once max_queue_depth jobs are QUEUED nothing leaves the queue in any run that cancels no QUEUED job |
| SchedulerLoad.StartLoopCounts | src/job/job.cpp:566-586 | the number of running jobs grows by exactly the starts counted, within both budgets |
| SchedulerLoad.ConcurrencyBound | src/job/job.cpp:545-584 | no run in which ticks may start at most S jobs ever has more than min(max_concurrent, max_running_jobs - 1 + S) jobs RUNNING, and none at all if the policy never admits (a limit of 0, or a CPU or memory watermark of at most 0) |
| SchedulerWitness.ConcurrencyBoundIsTight | src/job/job.cpp:545-584 | for every configuration some run, one that cancels jobs while they wait, reaches that bound |
| SchedulerLoad.StartedBounds | src/job/job.cpp:566-586 | a tick starts no more jobs than its budget and the queue hold, none unless jobs are admitted, and every start is one more job running |
| SchedulerLoad.UncancelledBound | src/job/job.cpp:545-584 | in a run that cancels no QUEUED job S is further capped by max_queue_depth - 1 |
| SchedulerWitness.UncancelledBoundIsTight | src/job/job.cpp:545-584 | for every configuration some run without cancellations reaches that bound |
| SchedulerFairness.StaleTimeEndsJob | src/job/job.cpp:416-419 | a scan given a time before a job's start ends it as TIMEOUT, unless it has exited, exactly if its limit does not reach round the clock |
| SchedulerFairness.TimeoutsAreReal | src/job/job.cpp:416-432 | with nondecreasing times every TIMEOUT job was ended by a call whose time is later than that of the tick that took it by more than its limit |
| SchedulerFairness.RuntimeNeverWraps | src/job/job.cpp:416-419 | with nondecreasing times every running job started when a tick took it, no later than the last time given, and the next call's runtime subtraction is the true difference for every job it scans or is asked about |
| SchedulerFairness.SteadyWindow | src/job/job.cpp:341-413 | the scans of a stable list visit one contiguous window modulo n of length scans * min(n, budget) |
| SchedulerFairness.ScanIsFair | src/job/job.cpp:341-413 | over any such run two jobs' visit counts differ by at most one, and one scan visits min(n, budget) different jobs |
| SchedulerFairness.OverrunEndsInTime | src/job/job.cpp:342-402 | a job past its time limit stops running within (r + 1) * ceil(n / budget) scans if meanwhile at most n jobs run and the running list changes at most r times |
| SchedulerStarvation.OverrunSkippedForEver | src/job/job.cpp:331-343 | that bound on the changes is needed: for every n some run makes 2n scans of budget 1 after a job's deadline and leaves its record as it was, though no submission rearranges the table's old entries |
| JobRunner.Job.Launch | src/job/job.cpp:574-581 | updates the record in place as Start says |
| JobRunner.Job.ReadPipes | src/job/job.cpp:347-373 | updates the record in place as Read says |
| JobRunner.Job.EnforceTimeout | src/job/job.cpp:416-432 | reports and applies the time limit as the model's function says |
| JobRunner.Job.EnforceLogCap | src/job/job.cpp:434-454 | reports and applies the log cap as the model's function says |
| JobRunner.Job.EnforceProcessCap | src/job/job.cpp:456-535 | reports and applies the process cap as the model's function says |
| JobRunner.Job.Visit | src/job/job.cpp:347-409 | one turn of the scan loop is Scan |
| JobRunner.Runner.SubmitJob | src/job/job.cpp:243-262 | is a Draw step followed by a Submit step |
| JobRunner.Runner.CancelJob | src/job/job.cpp:264-297 | is a Cancel step; false exactly for an unknown id |
| JobRunner.Runner.CheckJobLimits | src/job/job.cpp:325-414 | is a Check step, and the scan phase of a tick |
| JobRunner.Runner.EnforceJobTimeout | src/job/job.cpp:416-432 | is an Enforce step |
| JobRunner.Runner.EnforceJobLogCap | src/job/job.cpp:434-454 | is an Enforce step |
| JobRunner.Runner.EnforceJobProcessCap | src/job/job.cpp:456-535 | is an Enforce step |
| JobRunner.Runner.StartJobs | src/job/job.cpp:566-584 | is the start loop |
| JobRunner.Runner.Tick | src/job/job.cpp:537-590 | is a Tick step |
| RingBuffer.RingBuffer.Push | include/heidi-kernel/ring_buffer.h:12-22 | appends to the history the buffer stands for, at any capacity >= 1 |
| RingBuffer.RingBuffer.SizeUnlocked | include/heidi-kernel/ring_buffer.h:44-50 | the size is min(pushes, capacity) |
| RingBuffer.RingBuffer.LastItems | include/heidi-kernel/ring_buffer.h:24-36 | returns exactly the last min(n, pushes, capacity) items in push order |
| EventBus.NextInv | src/kernel/status.cpp:195-239 | every critical section keeps: what a client was sent is its replay followed by its broadcasts, and its broadcasts are, in order and without a gap, the events that returned from its registration on, all of them while it is subscribed |
| EventDelivery.BusFollows | src/kernel/status.cpp:195-239 | in every interleaving the bus is what the actions say: the list holds exactly the clients that registered and were not removed since, in that order; the lock is held from a registration to its release; events are numbered by their pushes, and the returned events are those broadcast |
| EventDelivery.StreamIs | src/kernel/status.cpp:195-239 | what every client past its replay has been sent, exactly and in order: the replay that followed its registration and the events that returned from then until its removal |
| EventDelivery.TimesSent | src/kernel/status.cpp:195-202 | how often an event was sent to a client: once if its replay sends it plus once if it returned between registration and removal |
| EventDelivery.Delivery | src/kernel/status.cpp:195-239 | an event that returns after a client registered has been sent to it unless the client was removed; so has an earlier one unless at least `capacity` later events preceded the replay or its send there failed; nobody gets an event more than twice |
| EventDelivery.MissingIff | src/kernel/status.cpp:198-202 | the exception is exact: a returned event is missing from a subscribed client's stream if and only if it had returned when the client registered and the replay does not send it |
| EventBus.SameOrder | src/kernel/status.cpp:230-238 | with any number of publishers, broadcasts common to two clients reach both in the same order, which is the order in which the events returned |
| EventDelivery.SinglePublisherOrder | src/kernel/status.cpp:227-239 | with one publisher each stream never goes back, whatever replay sends fail: the replay, then consecutive events in push order from its newest or the one after it, which alone can come twice, up to the last that returned before the client was removed |
| StatusSocket.StatusSocket.PushEvent | src/kernel/status.cpp:227-228 | is a Push step |
| StatusSocket.StatusSocket.SendLoop | src/kernel/status.cpp:231-238 | the erase-while-iterating loop sends the event to each connection whose send works and removes exactly the others |
| StatusSocket.StatusSocket.BroadcastEvent | src/kernel/status.cpp:230-238 | is a Broadcast step, and what is sent is the event pushed |
| StatusSocket.StatusSocket.RegisterClient | src/kernel/status.cpp:195-197 | is a Register step |
| StatusSocket.StatusSocket.Replay | src/kernel/status.cpp:198-202 | is a ReadRing step whatever the sends answer, and the messages sent are the ring's events |
| StatusSocket.StatusSocket.ReleaseLock | src/kernel/status.cpp:202-203 | is a Release step |
| GroupPolicies.EvictsLeastRecent | src/governor/group_policy_store.cpp:188-200 | with any clock a full table gives up the first slot with the least timestamp, and no other |
| GroupPolicies.SameKeyIff | src/governor/group_policy_store.cpp:51-53 | two ids share a slot exactly if they agree up to the first NUL or the 32nd character; plain ids of at most 32 characters only if they are equal |
| GroupPolicies.UpsertInv | src/governor/group_policy_store.cpp:40-108 | an upsert fails exactly for a missing or over-long id and then changes nothing; ids stay distinct, the count exact, and count + evictions grows by one exactly when a group is created |
| GroupHistory.Accounting | src/governor/group_policy_store.cpp:169-186 | since clear, groups created = group_count + group_evictions, and group_count is the number of slots in use |
| GroupLru.UpsertRefines | src/governor/group_policy_store.cpp:40-108 | with a later clock an upsert is one move-to-front of the reference list |
| GroupHistory.RunRefines | src/governor/group_policy_store.cpp:40-108 | with a strictly increasing clock the slot array refines the reference list through every run |
| GroupHistory.RecencyRank | src/governor/group_policy_store.cpp:188-200 | in recency order an id stands behind exactly the distinct ids upserted after it |
| GroupHistory.MostRecentlyUpserted | src/governor/group_policy_store.cpp:40-108 | the live groups are exactly the N most recently upserted distinct ids, ids being the same as strncmp has it |
| GroupHistory.UpsertStores | src/governor/group_policy_store.cpp:40-108 | for an id that is live after an upsert: its own message is merged in, or creates it with no fields; any other message leaves its fields alone |
| GroupHistory.StoredPolicy | src/governor/group_policy_store.cpp:80-89 | with any clock, a live group's fields are the fold of the upserts after the one that last created its slot |
| GroupHistory.FoldedIsLastCarried | src/governor/group_policy_store.cpp:56-75 | that fold keeps, field by field, the last value carried |
| GroupPolicyStore.GroupPolicyStore.UpsertGroup | src/governor/group_policy_store.cpp:40-108 | the array code computes the model's upsert |
| GroupPolicyStore.GroupPolicyStore.EvictOldestGroup | src/governor/group_policy_store.cpp:188-200 | the eviction loop computes the model's eviction |
| GroupPolicyStore.GroupPolicyStore.GetGroup | src/governor/group_policy_store.cpp:150-158 | finds an id exactly when a live slot holds it, as strncmp compares 32 characters, and returns that slot's fields |
| GroupPolicyStore.GroupPolicyStore.Clear | src/governor/group_policy_store.cpp:176-186 | empties every slot and both counters |
| GovRule.ParsedMessageOk | src/governor/gov_rule.cpp:156-533 | for every payload the message holds only values its fields can hold, and an accepted payload has at most 512 bytes |
| GovRulePrinter.QuotedBackIff | src/governor/gov_rule.cpp:38-55 | a quoted text is read back, whatever follows, exactly when its escapes are closed |
| GovRulePrinter.EscapesClosedIff | src/governor/gov_rule.cpp:38-55 | the search for the closing quote stops behind a text exactly if every quote in it is escaped and no backslash is left over |
| GovRulePrinter.IntBack | src/governor/gov_rule.cpp:57-70 | a printed integer is read back, up to the limits of int64 |
| GovRulePrinter.UintBack | src/governor/gov_rule.cpp:72-82 | a printed unsigned number is read back, up to the limits of uint64 |
| GovRulePrinter.ObjectBack | src/governor/gov_rule.cpp:215-288 | a printed nested object is found by brace matching and read back as the fold of its members |
| GovRulePrinter.ParsePrinted | src/governor/gov_rule.cpp:156-533 | any list of schema fields printed without white space, within 512 bytes, whose affinity texts close their escapes and braces is accepted exactly when it has a pid, and gives the last-wins fold of its fields |
| GovRulePrinter.PidNarrowing | src/governor/gov_rule.cpp:200-213 | a positive 64-bit pid is accepted and comes back unchanged exactly when it is below 2^31 |
| GovRuleOrder.LastFieldWins | src/governor/gov_rule.cpp:187-522 | in that fold the last field with a key counts, and a repeated object replaces its whole section |
| GovRuleOrder.OrderDoesNotMatter | src/governor/gov_rule.cpp:187-522 | rearranging fields with distinct keys does not change the result |
| GovRuleOrder.MemberOrder | src/governor/gov_rule.cpp:239-286 | nor does rearranging the members of an object |
| GovRuleOrder.MessageRoundTrip | src/governor/gov_rule.cpp:156-533 | a message that fits and whose affinity text closes its escapes and braces comes back exactly as it was sent |
| GovRuleRoundTrip.ParsedTextIsClosed | src/governor/gov_rule.cpp:38-55 | for every payload, an affinity text that comes out of the parser has its escapes closed |
| GovRuleRoundTrip.RoundTripIff | src/governor/gov_rule.cpp:215-288 | which messages come back as sent, exactly: the affinity text closes its escapes and never a brace it did not open, and leaves one open only if the cpu object is the last field |
| GovRuleRoundTrip.PlainTextSurvives | src/governor/gov_rule.cpp:251-258 | texts without quotes, backslashes and braces always do |
| GovRuleGrammar.AcceptedIff | src/governor/gov_rule.cpp:156-533 | the parser accepts exactly the payloads of a declarative grammar with optional white space and commas, any number of repeats and a pid, and the message is then the last-wins fold of the fields the payload stands for |
| GovRuleGrammar.TrimIff | src/governor/gov_rule.cpp:30-36 | trimming removes the white space at both ends, all of it and nothing else |
| GovRuleRefusals.RefusalIff | src/governor/gov_rule.cpp:156-533 | for every payload that is refused, which code it gets: for its size or a missing pid, for a pid that is not positive, for a value out of range, for an unknown key at the first field not read, and otherwise for its syntax |
| GovRuleFaults.OutcomeIff | src/governor/gov_rule.cpp:156-533 | for every payload: throws exactly if the first unread field has or first reaches a number beyond 64 bits; undefined exactly if blank or the first unread field is an object that is only opened; accepted exactly if no field is unread and a pid is among them |
| GovRuleFaults.UndefinedNeedsBrace | src/governor/gov_rule.cpp:221-236 | a payload that is not blank and does not end, inside its braces, in an opening brace is never undefined |
| GovRuleFaults.ThrowNeedsDigits | src/governor/gov_rule.cpp:57-82 | a payload without 19 digits in a row never throws |
| GovRuleParser.Parse | src/governor/gov_rule.cpp:156-533 | the loop over the fields computes the model's parser |
| GovRuleParser.ReadMembers | src/governor/gov_rule.cpp:239-286 | the loop over an object's members computes the model's |
| GovRuleParser.ReadMember | src/governor/gov_rule.cpp:251-279 | each key of each object is read with its own bounds and code |
| GovRuleParser.ParseText | src/governor/gov_rule.cpp:38-55 | the quote-scanning loop computes the model's |
| GovRuleParser.FindBrace | src/governor/gov_rule.cpp:221-229 | the brace-matching loop computes the model's |
| GovRuleParser.TrimView | src/governor/gov_rule.cpp:30-36 | the two trimming loops compute the model's |
| CpuList.BlanksIgnored | src/governor/process_governor.cpp:28-44 | spaces and tabs may stand anywhere in the list |
| CpuListGrammar.ListIff | src/governor/process_governor.cpp:22-85 | for every text: it is read as these ranges exactly if it is a comma-separated list of parts that stand for them, spaces and tabs anywhere, empty parts skipped; it throws exactly if it is not, and is accepted exactly if it names any CPU range and no CPU outside 0 to 1023 |
| CpuListGrammar.StoiIff | src/governor/process_governor.cpp:50-56 | a number is white space, an optional sign, all the digits there are and anything after them, within an int |
| CpuList.ParseRenderedList | src/governor/process_governor.cpp:28-62 | a rendered list is read as its ranges, or throws if a number does not fit an int |
| CpuList.RenderedListParses | src/governor/process_governor.cpp:22-85 | a rendered list, with any blanks, throws exactly for a number above INT_MAX, is accepted exactly when every CPU named is below CPU_SETSIZE, and the mask is then the union |
| CpuList.CollectRanges | src/governor/process_governor.cpp:28-62 | the loop over the parts computes the model's |
| CpuList.CheckRanges | src/governor/process_governor.cpp:68-74 | accepts exactly ranges that name only CPUs below CPU_SETSIZE |
| CpuList.SetBits | src/governor/process_governor.cpp:76-82 | sets exactly the bits of the union |
| CpuList.ParseCpuList | src/governor/process_governor.cpp:22-85 | outcome and mask are those of the model |
| MetricsHistory.RotatesIff | src/metrics/sampler.cpp:63-67 | after the narrowing to int the shifting loop runs exactly for max_files >= 2 with (max_files - 2) mod 2^32 below 2^31 - 1, and then keeps (max_files - 2) mod 2^32 + 2 files |
| MetricsHistory.SizeIsLength | src/metrics/sampler.cpp:22 | the size that decides is the length of the file's whole text |
| MetricsHistory.RotateMoves | src/metrics/sampler.cpp:59-74 | rotation moves every file up one place and drops the last if all places are taken, whether by removing or by replacing it |
| MetricsHistory.AppendToConcat | src/metrics/sampler.cpp:18-29 | an append keeps the lines a suffix of the history plus the new line, and loses none unless a full set of files rotates |
| MetricsHistory.LogIsSuffix | src/metrics/sampler.cpp:18-74 | from an empty directory, whenever files are rotated: at most that many files (never more than max_files) without gaps, whose lines oldest to newest are a suffix of all appended, each within the size limit but for its last line |
| MetricsHistory.OneFileForEver | src/metrics/sampler.cpp:59-74 | when the loop starts below zero nothing is ever rotated or lost |
| MetricsHistory.SizeLimitIff | src/metrics/sampler.cpp:18-74 | the size limit holds for every history if and only if files are rotated |
| MetricsHistory.MetricsHistory.RotateFiles | src/metrics/sampler.cpp:59-74 | the descending loop computes the model's rotation |
| MetricsHistory.MetricsHistory.AppendLine | src/metrics/sampler.cpp:18-29 | the append computes the model's |
| JsonEvent.JsonEscape | include/heidi-kernel/event.h:10-46 | the loop computes the escaped string |
| JsonEvent.EscapeForm | include/heidi-kernel/event.h:13-42 | seven characters have a short escape, the other control characters four lower-case hexadecimal digits, and every other character stands for itself |
| JsonEvent.EscapeRoundTrip | include/heidi-kernel/event.h:10-46 | decoding by section 7 of RFC 8259 gives back every string, whatever follows, so the closing quote is the first unescaped one |
| JsonEvent.EscapeIsClean | include/heidi-kernel/event.h:36-41 | an escaped string holds no raw control character |
| JsonEvent.EventRoundTrip | include/heidi-kernel/event.h:54-59 | every event can be read back from its JSON |
| JsonEvent.FramesSplit | src/kernel/status.cpp:229 | a stream of events with newline-free payloads splits back into exactly their JSON objects |
| JsonEvent.FramedIff | src/kernel/status.cpp:229 | an event arrives as one frame exactly when its payload holds no newline |
| JsonEvent.StreamRoundTrip | src/kernel/status.cpp:229 | so a subscriber recovers every event sent |

## Left out

- Process and file calls (`fork`, `pipe`, `getpgid`, `/proc`, sockets, `select`, timers): only their answers appear, as
  inputs of the steps.
- Memory exhaustion: strings and byte counts are unbounded, so `bytes_written` does not wrap at 2^64; reaching that needs
  2^64 bytes in memory. Ticket numbers are unbounded too, and stand for the ids "job_1", "job_2" and so on.
- Narrowing of job counts to `int` when `decide` is called, and floating-point rounding: percentages are reals.
- Enforcement routines called on a job that is not running: the steps ask for a running job. Nor that `check_job_limits`
  and these routines take no lock of their own: every step is atomic.
- `get_recent_jobs`, `get_job_status`, `start`, `stop`, debug recording, wall-clock fields and the command text of a job.
- `validate_and_update` and `update_policy` of the governor: the job runner never replaces its default policy.
- The cleanup of closed connections in `serve_forever` is the Drop step of `EventBus`; its loop is not modelled. A
  connection is named by its acceptance, not by its reusable descriptor number. The other requests of `handle_client` do
  not touch the bus.
- The pid half of the policy store: it inserts into the first free slot but looks up by slot number, so it keeps no map.
  Quota and period fields, which nothing sets.
- `error_detail` texts of the parser. The message that a refused payload leaves behind is modelled, but all that is stated of
  it is that its values fit their fields.
- GovRulePrinter.ParsePrinted: its texts have no white space and no trailing commas; `AcceptedIff` is about all texts.
- JsonEvent.EscapeRoundTrip: the decoder yields no result for surrogate pairs, which the escaper never writes.
- MetricsHistory.SizeLimitIff: says nothing of `max_files` = 2^31 + 1 modulo 2^32, where the loop's first `i + 1` overflows
  an int, which C++ leaves undefined.
- Number formatting of metrics lines, `tail`, and the `/proc` readers of the sampler: a line is any text.
- The daemon, cgroup driver, policy file, configuration, logger, IPC framing and command line tool: thin wrappers or
  kernel calls.
