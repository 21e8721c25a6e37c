/** The job runner as the program has it: job records shared by a table and a queue and updated in place. Every call is
    proved to be the corresponding step of Scheduler. */
module JobRunner {
  import opened Wrappers
  import opened Sequences
  import opened ResourceGovernor
  import opened JobModel
  import opened RoundRobin
  import opened Scheduler

  /** The spawn decides the status anew. */
  lemma StatusForgotten(j: JobData, now: u64, r: SpawnResult)
    ensures Start(j.(status := STARTING), now, r) == Start(j, now, r)
  {
  }

  /** At most the last `keep` characters. */
  method KeepTail(s: string, keep: nat) returns (r: string)
    ensures r == Tail(s, keep)
  {
    if |s| > keep {
      return s[|s| - keep..];
    }
    return s;
  }

  class Job {
    const id: JobId
    const limits: Limits
    var status: Status
    var exitCode: int
    var output: string
    var error: string
    var logTruncated: bool
    var bytesWritten: nat
    var startedAtMs: u64
    var endedAtMs: u64
    var processGroup: int
    var leaderStartTime: u64
    var stdoutFd: int
    var stderrFd: int
    ghost var readOut: string
    ghost var readErr: string
    ghost var trace: seq<Event>

    ghost function View(): JobData
      reads this
    {
      JobData(status, exitCode, output, error, logTruncated, bytesWritten, startedAtMs, endedAtMs, processGroup,
              leaderStartTime, limits, stdoutFd, stderrFd, readOut, readErr, trace)
    }

    constructor (id: JobId, limits: Limits)
      ensures this.id == id && View() == NewJob(limits)
    {
      this.id, this.limits := id, limits;
      status, exitCode, output, error := QUEUED, -1, "", "";
      logTruncated, bytesWritten, startedAtMs, endedAtMs := false, 0, 0, 0;
      processGroup, leaderStartTime, stdoutFd, stderrFd := -1, 0, -1, -1;
      readOut, readErr, trace := "", "", [];
    }

    method SpawnFail(text: string)
      modifies this
      ensures View() == Start(old(View()), startedAtMs, SpawnError(text))
    {
      status := FAILED;
      error := text;
      trace := trace + [SpawnFailed];
    }

    /** What spawn_job fills in itself. */
    method Adopt(group: int, leaderStart: u64, outFd: int, errFd: int)
      modifies `processGroup, `leaderStartTime, `stdoutFd, `stderrFd
      ensures processGroup == group && leaderStartTime == leaderStart && stdoutFd == outFd && stderrFd == errFd
    {
      processGroup, leaderStartTime := group, leaderStart;
      stdoutFd, stderrFd := outFd, errFd;
    }

    method SpawnDone(now: u64, group: int, leaderStart: u64, outFd: int, errFd: int)
      modifies this
      ensures View() == Start(old(View()), now, SpawnOk(group, leaderStart, outFd, errFd))
    {
      Adopt(group, leaderStart, outFd, errFd);
      status, startedAtMs := RUNNING, now;
      trace := trace + [Spawned(group)];
    }

    /** STARTING, then what the spawner made of it. */
    method Launch(now: u64, result: SpawnResult)
      modifies this
      ensures View() == Start(old(View()), now, result)
    {
      ghost var before := View();
      status := STARTING;
      StatusForgotten(before, now, result);
      hide Job.View, Start;
      match result
      case SpawnError(text) => SpawnFail(text);
      case SpawnOk(group, leaderStart, outFd, errFd) => SpawnDone(now, group, leaderStart, outFd, errFd);
    }

    method ReadOutput(r: ReadResult)
      modifies this
      ensures View() == ReadStdout(old(View()), r)
    {
      if stdoutFd != -1 {
        match r
        case Again =>
        case Eof => stdoutFd := -1;
        case Data(bytes) =>
          output := output + bytes;
          bytesWritten := bytesWritten + |bytes|;
          readOut := readOut + bytes;
      }
    }

    method ReadError(r: ReadResult)
      modifies this
      ensures View() == ReadStderr(old(View()), r)
    {
      if stderrFd != -1 {
        match r
        case Again =>
        case Eof => stderrFd := -1;
        case Data(bytes) =>
          error := error + bytes;
          bytesWritten := bytesWritten + |bytes|;
          readErr := readErr + bytes;
      }
    }

    method ReadPipes(p: Probe)
      modifies this
      ensures View() == Read(old(View()), p)
    {
      hide Job.View, ReadStdout, ReadStderr;
      ReadOutput(p.out);
      ReadError(p.err);
    }

    method ClosePipes()
      modifies `stdoutFd, `stderrFd
      ensures stdoutFd == stderrFd == -1
    {
      stdoutFd := -1;
      stderrFd := -1;
    }

    method RecordEnd(final: Status, at: u64)
      modifies `status, `endedAtMs, `trace
      ensures status == final && endedAtMs == at && trace == old(trace) + [Ended(final)]
    {
      status, endedAtMs := final, at;
      trace := trace + [Ended(final)];
    }

    method Reap(exited: bool, code: int, wallMs: u64)
      modifies this
      ensures View() == Finish(old(View()), exited, code, wallMs)
    {
      exitCode := if exited then code else -1;
      RecordEnd(if exitCode == 0 then COMPLETED else FAILED, wallMs);
      ClosePipes();
    }

    method EnforceTimeout(now: u64) returns (ended: bool)
      modifies this
      ensures ended == Overran(old(View()), now)
      ensures View() == JobModel.EnforceTimeout(old(View()), now)
    {
      var runtimeMs := RuntimeMs(now, startedAtMs);
      if runtimeMs > limits.maxRuntimeMs {
        if processGroup > 0 {
          trace := trace + [Sent(processGroup, TERM)];
        }
        RecordEnd(TIMEOUT, now);
        return true;
      }
      return false;
    }

    method EnforceLogCap() returns (cut: bool)
      modifies this
      ensures cut == OverLogCap(old(View()))
      ensures View() == JobModel.EnforceLogCap(old(View()))
    {
      hide Tail;
      if |output| + |error| > limits.maxLogBytes {
        output := KeepTail(output, limits.maxLogBytes / 2);
        var remaining := (limits.maxLogBytes - |output|) % TWO_TO_THE_64;
        error := KeepTail(error, remaining);
        logTruncated := true;
        bytesWritten := limits.maxLogBytes;
        return true;
      }
      return false;
    }

    method EnforceProcessCap(now: u64, leaderStart: Option<u64>, processes: int) returns (ended: bool)
      modifies this
      ensures ended == OverProcessCap(old(View()), leaderStart, processes)
      ensures View() == JobModel.EnforceProcessCap(old(View()), now, leaderStart, processes)
    {
      if leaderStartTime != 0 && processGroup > 0 {
        if leaderStart.Some? && leaderStart.value != leaderStartTime {
          return false;
        }
      }
      if processes < 0 {
        return false;
      }
      if processes > limits.maxChildProcesses {
        if processGroup > 0 {
          trace := trace + [Sent(processGroup, TERM)];
        }
        RecordEnd(PROC_LIMIT, now);
        return true;
      }
      return false;
    }

    /** The body of the loop in check_job_limits. */
    method Visit(now: u64, p: Probe)
      modifies this
      ensures View() == Scan(old(View()), now, p)
    {
      ReadPipes(p);
      if processGroup > 0 && p.wait.Reaped? {
        Reap(p.wait.exited, p.wait.code, p.wait.wallMs);
        return;
      }
      var ended := EnforceTimeout(now);
      if ended {
        return;
      }
      var cut := EnforceLogCap();
      if cut {
        return;
      }
      ended := EnforceProcessCap(now, p.leaderStart, p.processes);
    }

    method Cancel(alive: bool, wallMs: u64)
      modifies this
      ensures View() == JobModel.Cancel(old(View()), alive, wallMs)
    {
      if status == RUNNING {
        if processGroup > 0 {
          trace := trace + [Sent(processGroup, TERM)];
          if alive {
            trace := trace + [Sent(processGroup, KILL)];
          }
        }
        RecordEnd(CANCELLED, wallMs);
      } else if status == QUEUED {
        status := CANCELLED;
        endedAtMs := wallMs;
      }
    }
  }

  ghost function Ids(jobs: seq<Job>): (r: seq<JobId>)
    ensures |r| == |jobs| && forall i :: 0 <= i < |jobs| ==> r[i] == jobs[i].id
  {
    seq(|jobs|, i requires 0 <= i < |jobs| => jobs[i].id)
  }

  ghost function TableOf(jobs: map<JobId, Job>): (t: Table)
    reads jobs.Values
    ensures t.Keys == jobs.Keys
  {
    map id | id in jobs :: jobs[id].View()
  }

  /** Each job is filed under its own id. */
  ghost predicate Filed(jobs: map<JobId, Job>) {
    forall id :: id in jobs ==> jobs[id].id == id
  }

  /** The list shares its records with the table. */
  ghost predicate Shares(list: seq<Job>, jobs: map<JobId, Job>) {
    forall i :: 0 <= i < |list| ==> list[i].id in jobs && jobs[list[i].id] == list[i]
  }

  /** Updating one record in place changes one entry of the table. */
  lemma OneJobChanged(before: Table, jobs: map<JobId, Job>, job: Job)
    requires job.id in jobs && jobs[job.id] == job && before.Keys == jobs.Keys
    requires forall id :: id in jobs && id != job.id ==> jobs[id].View() == before[id]
    ensures TableOf(jobs) == before[job.id := job.View()]
  {
  }

  lemma OneJobAdded(before: Table, jobs: map<JobId, Job>, job: Job)
    requires job.id in jobs && jobs[job.id] == job && jobs.Keys == before.Keys + {job.id}
    requires forall id :: id in jobs && id != job.id ==> jobs[id].View() == before[id]
    ensures TableOf(jobs) == before[job.id := job.View()]
  {
  }

  lemma LinksExtend(list: seq<Job>, jobs: map<JobId, Job>, job: Job)
    requires Filed(jobs) && Shares(list, jobs) && job.id !in jobs
    ensures Filed(jobs[job.id := job]) && Shares(list, jobs[job.id := job])
  {
  }

  /** The start phase, as far as it can be seen from its code. */
  lemma AfterStartsIs(s: State, now: u64, metrics: Metrics, maxStarts: nat, env: Env, l: Launch)
    requires Closed(s)
    requires l == if Admission(s, metrics).decision == START_NOW
                  then StartLoop(Launch(s.table, s.queue, s.dequeued, 0), now, env,
                                 Budget(maxStarts, s.config.maxConcurrent, |RunningList(s)|))
                  else Launch(s.table, s.queue, s.dequeued, 0)
    ensures var result := Admission(s, metrics);
            AfterStarts(s, now, metrics, maxStarts, env) ==
            State(s.config, s.counter, s.pending, l.table, s.order, l.queue, s.cursor, l.started, 0,
                  Diagnostics(result.decision, result.reason, result.retryAfterMs, now, |RunningList(s)|, |QueuedList(s)|),
                  s.history, l.dequeued, s.scanLog)
  {
    hide Admission, StartLoop, RunningList, QueuedList;
  }

  lemma IdsExtend(order: seq<JobId>, jobs: map<JobId, Job>, job: Job, counter: nat)
    requires (forall id :: id in order ==> id in jobs) && (forall id :: id in jobs ==> id <= counter) && job.id <= counter
    ensures var r := jobs[job.id := job];
            (forall id :: id in order ==> id in r) && (forall id :: id in r ==> id <= counter)
  {
  }

  class Runner {
    const config: Config
    var counter: nat
    ghost var pending: set<JobId>
    var jobs: map<JobId, Job>
    var order: seq<JobId>
    var queue: seq<Job>
    var scanCursor: nat
    var jobsStartedThisTick: nat
    var jobsScannedThisTick: nat
    var lastTickDiagnostics: Diagnostics
    ghost var history: seq<JobId>
    ghost var dequeued: seq<JobId>
    ghost var scanLog: seq<JobId>

    ghost function View(): State
      reads this, jobs.Values
    {
      State(config, counter, pending, TableOf(jobs), order, Ids(queue), scanCursor, jobsStartedThisTick,
            jobsScannedThisTick, lastTickDiagnostics, history, dequeued, scanLog)
    }

    /** The table and the queue share their records, and every id was drawn from the ticket counter. */
    ghost predicate Valid()
      reads this
    {
      && Filed(jobs) && Shares(queue, jobs)
      && (forall id :: id in order ==> id in jobs)
      && (forall id :: id in jobs ==> id <= counter)
    }

    constructor (config: Config, counter: nat)
      ensures Valid() && View() == Init(config, counter)
    {
      this.config, this.counter := config, counter;
      pending, jobs, order, queue := {}, map[], [], [];
      scanCursor, jobsStartedThisTick, jobsScannedThisTick := 0, 0, 0;
      lastTickDiagnostics := Diagnostics(START_NOW, NONE, 0, 0, 0, 0);
      history, dequeued, scanLog := [], [], [];
      new;
      assert View() == Init(config, counter);
    }

    /** The atomic increment of the ticket counter, before the lock is taken. */
    method DrawTicket() returns (id: JobId)
      requires Valid()
      modifies this`counter, this`pending
      ensures Valid() && id == old(counter) + 1
      ensures View() == DoDraw(old(View()))
    {
      counter := counter + 1;
      id := counter;
      pending := pending + {id};
    }

    /** Files the job under its id. */
    method File(job: Job)
      requires Valid() && job.id !in jobs && job.id <= counter
      modifies this`jobs
      ensures Valid() && jobs == old(jobs)[job.id := job]
      ensures TableOf(jobs) == old(TableOf(jobs))[job.id := job.View()]
    {
      hide Job.View, Filed, Shares;
      OneJobAdded(TableOf(jobs), jobs[job.id := job], job);
      LinksExtend(queue, jobs, job);
      IdsExtend(order, jobs, job, counter);
      jobs := jobs[job.id := job];
    }

    /** `newOrder` is the iteration order the table has after the insertion. */
    method Insert(job: Job, newOrder: seq<JobId>)
      requires Valid() && job.id !in jobs && job.id <= counter
      requires Rearranges(newOrder, order, job.id)
      modifies this`jobs, this`order, this`pending
      ensures Valid() && jobs == old(jobs)[job.id := job]
      ensures var s := old(View());
              View() == s.(table := s.table[job.id := job.View()], order := newOrder, pending := s.pending - {job.id})
    {
      hide Job.View, Filed, Shares, Distinct, IsSuffix, TableOf, Ids;
      File(job);
      order := newOrder;
      pending := pending - {job.id};
    }

    method Push(job: Job)
      requires Valid() && job.id in jobs && jobs[job.id] == job
      modifies this`queue, this`history
      ensures Valid()
      ensures var s := old(View()); View() == s.(queue := s.queue + [job.id], history := s.history + [job.id])
    {
      queue := queue + [job];
      history := history + [job.id];
      assert Ids(queue) == old(Ids(queue)) + [job.id];
    }

    method SubmitJob(limits: Limits, newOrder: seq<JobId>) returns (id: JobId)
      requires Valid()
      requires Rearranges(newOrder, order, counter + 1)
      modifies this
      ensures Valid() && id == old(counter) + 1
      ensures View() == DoSubmit(DoDraw(old(View())), id, limits, newOrder)
    {
      id := DrawTicket();
      var job := new Job(id, limits);
      Insert(job, newOrder);
      Push(job);
    }

    method CancelJob(id: JobId, alive: bool, wallMs: u64) returns (found: bool)
      requires Valid()
      modifies this, jobs.Values
      ensures Valid() && found == (id in old(jobs))
      ensures View() == DoCancel(old(View()), id, alive, wallMs)
    {
      ghost var s := View();
      if id !in jobs {
        return false;
      }
      var job := jobs[id];
      job.Cancel(alive, wallMs);
      OneJobChanged(s.table, jobs, job);
      assert View() == DoCancel(s, id, alive, wallMs);
      return true;
    }

    /** The public enforcement routines, called on a job of the table. */
    method EnforceJobTimeout(job: Job, now: u64) returns (ended: bool)
      requires Valid() && job.id in jobs && jobs[job.id] == job
      modifies job
      ensures Valid() && ended == Overran(old(job.View()), now)
      ensures View() == DoEnforce(old(View()), job.id, TimeLimit(now))
    {
      hide Job.View, JobModel.EnforceTimeout, Overran;
      ghost var before := TableOf(jobs);
      ended := job.EnforceTimeout(now);
      OneJobChanged(before, jobs, job);
    }

    method EnforceJobLogCap(job: Job) returns (cut: bool)
      requires Valid() && job.id in jobs && jobs[job.id] == job
      modifies job
      ensures Valid() && cut == OverLogCap(old(job.View()))
      ensures View() == DoEnforce(old(View()), job.id, LogCap)
    {
      hide Job.View, JobModel.EnforceLogCap, OverLogCap;
      ghost var before := TableOf(jobs);
      cut := job.EnforceLogCap();
      OneJobChanged(before, jobs, job);
    }

    method EnforceJobProcessCap(job: Job, now: u64, leaderStart: Option<u64>, processes: int) returns (ended: bool)
      requires Valid() && job.id in jobs && jobs[job.id] == job
      modifies job
      ensures Valid() && ended == OverProcessCap(old(job.View()), leaderStart, processes)
      ensures View() == DoEnforce(old(View()), job.id, ProcessCap(now, leaderStart, processes))
    {
      hide Job.View, JobModel.EnforceProcessCap, OverProcessCap;
      ghost var before := TableOf(jobs);
      ended := job.EnforceProcessCap(now, leaderStart, processes);
      OneJobChanged(before, jobs, job);
    }

    /** The jobs that are RUNNING or STARTING, in table order. */
    method RunningJobs() returns (list: seq<Job>)
      requires Valid()
      ensures Shares(list, jobs)
      ensures Ids(list) == Select(order, TableOf(jobs), IsActive)
    {
      list := [];
      for i := 0 to |order|
        invariant Shares(list, jobs)
        invariant Ids(list) == Select(order[..i], TableOf(jobs), IsActive)
      {
        assert order[..i + 1][..i] == order[..i];
        var job := jobs[order[i]];
        assert TableOf(jobs)[order[i]].status == job.status;
        if job.status == RUNNING || job.status == STARTING {
          list := list + [job];
        }
      }
      assert order[..|order|] == order;
    }

    method CheckJobLimits(now: u64, maxScans: nat, env: Env)
      requires Valid()
      modifies this`scanCursor, this`jobsScannedThisTick, this`scanLog, jobs.Values
      ensures Valid() && unchanged(`jobs)
      ensures View() == CheckLimits(old(View()), now, maxScans, env)
    {
      hide Job.View, Scan, Visits, Select, ScanFirst;
      ghost var s := View();
      var runningJobs := RunningJobs();
      assert Ids(runningJobs) == RunningList(s);
      if |runningJobs| != 0 {
        ScanAndAdvance(runningJobs, now, maxScans, env);
      }
    }

    method ScanAndAdvance(list: seq<Job>, now: u64, maxScans: nat, env: Env)
      requires Valid() && Shares(list, jobs) && list != []
      modifies this`scanCursor, this`jobsScannedThisTick, this`scanLog, jobs.Values
      ensures Valid() && unchanged(`jobs)
      ensures var s := old(View());
              var checked := Min(|list|, maxScans);
              View() == s.(table := ScanFirst(s.table, Ids(list), s.cursor, checked, now, env),
                           scanLog := s.scanLog + Visits(Ids(list), s.cursor, checked),
                           cursor := (s.cursor + checked) % |list|,
                           scannedThisTick := checked)
    {
      hide Job.View, Scan, Visits, ScanFirst;
      var checked := ScanLoop(list, now, maxScans, env);
      scanLog := scanLog + Visits(Ids(list), scanCursor, checked);
      scanCursor := (scanCursor + checked) % |list|;
      jobsScannedThisTick := checked;
    }

    /** One visit of the scan to a job of the table. */
    method VisitJob(job: Job, now: u64, env: Env)
      requires Valid() && job.id in jobs && jobs[job.id] == job
      modifies job
      ensures TableOf(jobs) == ScanOne(old(TableOf(jobs)), job.id, now, env)
    {
      hide Job.View, Scan;
      ghost var before := TableOf(jobs);
      job.Visit(now, env.probe(job.id));
      OneJobChanged(before, jobs, job);
    }

    method ScanLoop(list: seq<Job>, now: u64, maxScans: nat, env: Env) returns (checked: nat)
      requires Valid() && Shares(list, jobs) && list != []
      modifies jobs.Values
      ensures unchanged(this)
      ensures checked == Min(|list|, maxScans)
      ensures TableOf(jobs) == ScanFirst(old(TableOf(jobs)), Ids(list), scanCursor, checked, now, env)
    {
      hide Job.View, Scan;
      var n := |list|;
      ghost var table := TableOf(jobs);
      checked := 0;
      var i := 0;
      while i < n && checked < maxScans
        invariant unchanged(this)
        invariant checked == i <= n && checked <= maxScans
        invariant TableOf(jobs) == ScanFirst(table, Ids(list), scanCursor, checked, now, env)
      {
        var idx := Slot(scanCursor, i, n);
        checked := checked + 1;
        VisitJob(list[idx], now, env);
        i := i + 1;
      }
    }

    /** Counts running and queued jobs, as tick does before asking the governor. */
    method CountJobs() returns (running: nat, queued: nat)
      requires Valid()
      ensures running == |Select(order, TableOf(jobs), IsActive)|
      ensures queued == |Select(order, TableOf(jobs), IsQueued)|
    {
      running, queued := 0, 0;
      for i := 0 to |order|
        invariant running == |Select(order[..i], TableOf(jobs), IsActive)|
        invariant queued == |Select(order[..i], TableOf(jobs), IsQueued)|
      {
        assert order[..i + 1][..i] == order[..i];
        var job := jobs[order[i]];
        assert TableOf(jobs)[order[i]].status == job.status;
        if job.status == RUNNING || job.status == STARTING {
          running := running + 1;
        } else if job.status == QUEUED {
          queued := queued + 1;
        }
      }
      assert order[..|order|] == order;
    }

    ghost function LaunchView(started: nat): Launch
      reads this, jobs.Values
    {
      Launch(TableOf(jobs), Ids(queue), dequeued, started)
    }

    /** Takes the front job from the queue and spawns it. */
    method StartFront(now: u64, env: Env, ghost started: nat) returns (success: bool)
      requires Valid() && queue != []
      modifies this`queue, this`dequeued, jobs.Values
      ensures Valid() && |queue| < |old(queue)|
      ensures unchanged(`jobs, `order, `counter, `pending, `scanCursor, `jobsStartedThisTick, `jobsScannedThisTick,
                        `lastTickDiagnostics, `history, `scanLog)
      ensures LaunchView(if success then started + 1 else started) == StartOne(old(LaunchView(started)), now, env)
    {
      hide Job.View, Start;
      ghost var before := TableOf(jobs);
      var job := queue[0];
      queue := queue[1..];
      dequeued := dequeued + [job.id];
      var result := env.spawn(job.id);
      job.Launch(now, result);
      success := result.SpawnOk?;
      OneJobChanged(before, jobs, job);
      assert Ids(queue) == old(Ids(queue))[1..];
    }

    method StartJobs(now: u64, maxStarts: nat, running: nat, env: Env) returns (started: nat)
      requires Valid()
      modifies this`queue, this`dequeued, jobs.Values
      ensures Valid()
      ensures unchanged(`jobs, `order, `counter, `pending, `scanCursor, `jobsStartedThisTick, `jobsScannedThisTick,
                        `lastTickDiagnostics, `history, `scanLog)
      ensures LaunchView(started) ==
              StartLoop(old(LaunchView(0)), now, env, Budget(maxStarts, config.maxConcurrent, running))
    {
      hide Job.View, Start, StartOne;
      ghost var b := Budget(maxStarts, config.maxConcurrent, running);
      started := 0;
      while |queue| > 0 && started < maxStarts && running + started < config.maxConcurrent
        invariant Valid()
        invariant unchanged(`jobs, `order, `counter, `pending, `scanCursor, `jobsStartedThisTick, `jobsScannedThisTick,
                            `lastTickDiagnostics, `history, `scanLog)
        invariant StartLoop(LaunchView(started), now, env, b) == StartLoop(old(LaunchView(0)), now, env, b)
        decreases |queue|
      {
        var success := StartFront(now, env, started);
        if success {
          started := started + 1;
        }
      }
    }

    /** Resets the counters of the tick, and asks the governor. */
    method Ask(now: u64, metrics: Metrics) returns (result: GovernorResult, running: nat)
      requires Valid()
      modifies this`lastTickDiagnostics, this`jobsStartedThisTick, this`jobsScannedThisTick
      ensures jobsStartedThisTick == jobsScannedThisTick == 0
      ensures result == old(Admission(View(), metrics)) && running == |old(RunningList(View()))|
      ensures lastTickDiagnostics == Diagnostics(result.decision, result.reason, result.retryAfterMs, now, running,
                                                 |old(QueuedList(View()))|)
    {
      hide Job.View, Select;
      jobsStartedThisTick := 0;
      jobsScannedThisTick := 0;
      var queued: nat;
      running, queued := CountJobs();
      result := Decide(config.policy, metrics.cpuPct, MemPct(metrics), running, queued);
      lastTickDiagnostics := Diagnostics(result.decision, result.reason, result.retryAfterMs, now, running, queued);
    }

    method StartIfAdmitted(now: u64, decision: Decision, maxStarts: nat, running: nat, env: Env) returns (started: nat)
      requires Valid()
      modifies this`queue, this`dequeued, jobs.Values
      ensures Valid()
      ensures unchanged(`jobs, `order, `counter, `pending, `scanCursor, `jobsStartedThisTick, `jobsScannedThisTick,
                        `lastTickDiagnostics, `history, `scanLog)
      ensures LaunchView(started) ==
              if decision == START_NOW
              then StartLoop(old(LaunchView(0)), now, env, Budget(maxStarts, config.maxConcurrent, running))
              else old(LaunchView(0))
    {
      hide Job.View, StartLoop;
      started := 0;
      if decision == START_NOW {
        started := StartJobs(now, maxStarts, running, env);
      }
    }

    method StartPhase(now: u64, metrics: Metrics, maxStarts: nat, env: Env)
      requires Valid()
      modifies this, jobs.Values
      ensures Valid() && unchanged(`jobs)
      ensures View() == AfterStarts(old(View()), now, metrics, maxStarts, env)
    {
      hide Job.View, Start, Select, StartLoop, AfterStarts, Decide, MemPct, Filed;
      ghost var s := View();
      var result, running := Ask(now, metrics);
      assert TableOf(jobs) == s.table;
      var started := StartIfAdmitted(now, result.decision, maxStarts, running, env);
      jobsStartedThisTick := started;
      AfterStartsIs(s, now, metrics, maxStarts, env, LaunchView(started));
    }

    method Tick(now: u64, metrics: Metrics, maxStarts: nat, maxScans: nat, env: Env)
      requires Valid()
      modifies this, jobs.Values
      ensures Valid() && unchanged(`jobs)
      ensures View() == DoTick(old(View()), now, metrics, maxStarts, maxScans, env)
    {
      StartPhase(now, metrics, maxStarts, env);
      CheckJobLimits(now, maxScans, env);
    }
  }
}
