/** How many jobs can run at once, and what a full queue does. */
module SchedulerLoad {
  import opened Wrappers
  import opened Sequences
  import opened ResourceGovernor
  import opened JobModel
  import opened RoundRobin
  import opened Scheduler
  import opened SchedulerInvariants

  ghost function RunningIds(table: Table): set<JobId> {
    set id | id in table && IsActive(table[id].status)
  }

  ghost function QueuedIds(table: Table): set<JobId> {
    set id | id in table && table[id].status == QUEUED
  }

  /** The two counts tick takes over the table do not depend on its iteration order. */
  lemma CountsAreCardinalities(s: State)
    requires Inv(s)
    ensures |RunningList(s)| == |RunningIds(s.table)|
    ensures |QueuedList(s)| == |QueuedIds(s.table)|
  {
    hide PlaceOk, Select;
    RunningListIs(s);
    QueuedListIs(s);
    DistinctCardinality(RunningList(s));
    DistinctCardinality(QueuedList(s));
    assert Elements(RunningList(s)) == RunningIds(s.table);
    assert Elements(QueuedList(s)) == QueuedIds(s.table);
  }

  // ----- a full queue -----

  ghost predicate NoCancel(run: seq<Action>) {
    forall a :: a in run ==> !a.Cancel?
  }

  /** The call does not cancel a job that is QUEUED. */
  ghost predicate Spares(s: State, a: Action) {
    a.Cancel? && a.target in s.table ==> s.table[a.target].status != QUEUED
  }

  /** No cancellation of the run meets a QUEUED job. */
  ghost predicate SparesQueued(s: State, run: seq<Action>)
    requires Closed(s) && Runnable(s, run)
    decreases |run|
  {
    run == [] || (Spares(s, run[0]) && SparesQueued(Next(s, run[0]), run[1..]))
  }

  lemma {:induction false} NoCancelSpares(s: State, run: seq<Action>)
    requires Closed(s) && Runnable(s, run) && NoCancel(run)
    ensures SparesQueued(s, run)
    decreases |run|
  {
    if run != [] {
      NoCancelSpares(Next(s, run[0]), run[1..]);
    }
  }

  ghost predicate QueueFull(s: State) {
    |QueuedIds(s.table)| >= s.config.policy.maxQueueDepth
  }

  lemma FullQueueTakesNothing(s: State, metrics: Metrics, maxStarts: nat, env: Env)
    requires Inv(s) && QueueFull(s)
    ensures TakenBy(s, metrics, maxStarts, env) == []
  {
    CountsAreCardinalities(s);
  }

  lemma StaysQueued(s: State, a: Action, id: JobId)
    requires Inv(s) && Enabled(s, a) && Spares(s, a) && id in QueuedIds(s.table)
    requires a.Tick? ==> id !in TakenBy(s, a.metrics, a.maxStarts, a.env)
    ensures id in QueuedIds(Next(s, a).table)
  {
    hide Start, Scan, PlaceOk, CheckLimits, DoTick, EnforceCap, RunningList, Visits, Distinct;
    match a
    case Draw =>
    case Submit(_, _, _) =>
    case Cancel(_, _, _) =>
    case Tick(now, metrics, maxStarts, maxScans, env) => TickOnJob(s, now, metrics, maxStarts, maxScans, env, id);
    case Check(now, maxScans, env) => var visited := CheckLimitsEffect(s, now, maxScans, env);
    case Enforce(_, _) =>
  }

  /** Only a submission or a tick changes the queue. */
  lemma QueueAfter(s: State, a: Action)
    requires Inv(s) && Enabled(s, a)
    ensures var r := Next(s, a);
            var taken := if a.Tick? then TakenBy(s, a.metrics, a.maxStarts, a.env) else [];
            && |taken| <= |s.queue| && r.dequeued == s.dequeued + taken
            && r.queue == s.queue[|taken|..] + (if a.Submit? then [a.id] else [])
            && r.config == s.config
  {
    hide Ledger, JobsOk, CheckLimits, DoTick, EnforceCap, JobModel.Cancel, RunningList, Visits, Distinct;
    WholeQueue(s.queue, s.dequeued);
    if a.Tick? {
      TakenIsPrefix(s, a);
      TickOnQueue(s, a.now, a.metrics, a.maxStarts, a.maxScans, a.env);
      hide TakenBy;
      WholeQueue(s.queue[|TakenBy(s, a.metrics, a.maxStarts, a.env)|..], []);
    } else if a.Check? {
      var visited := CheckLimitsEffect(s, a.now, a.maxScans, a.env);
    }
  }

  lemma TakenIsPrefix(s: State, a: Action)
    requires Inv(s) && a.Tick?
    ensures |TakenBy(s, a.metrics, a.maxStarts, a.env)| <= |s.queue|
  {
    hide Ledger, JobsOk;
  }

  lemma WholeQueue(queue: seq<JobId>, dequeued: seq<JobId>)
    ensures queue[0..] == queue && queue + [] == queue && dequeued + [] == dequeued
  {
  }

  lemma FullQueueStep(s: State, a: Action)
    requires Inv(s) && Enabled(s, a) && Spares(s, a) && QueueFull(s)
    ensures QueueFull(Next(s, a)) && Next(s, a).dequeued == s.dequeued && s.queue <= Next(s, a).queue
  {
    hide TakenBy, Ledger, JobsOk;
    if a.Tick? {
      FullQueueTakesNothing(s, a.metrics, a.maxStarts, a.env);
    }
    QueueAfter(s, a);
    hide Next;
    forall id | id in QueuedIds(s.table)
      ensures id in QueuedIds(Next(s, a).table)
    {
      StaysQueued(s, a, id);
    }
    SubsetCardinality(QueuedIds(s.table), QueuedIds(Next(s, a).table));
  }

  /** Once max_queue_depth jobs are QUEUED every tick answers REJECT_QUEUE_FULL and the start loop is skipped, so nothing
      leaves the queue again in any run whose cancellations spare the QUEUED jobs, however idle the machine. */
  lemma {:induction false} FullQueueStarves(s: State, run: seq<Action>)
    requires Inv(s) && Runnable(s, run) && SparesQueued(s, run) && QueueFull(s)
    ensures QueueFull(After(s, run)) && After(s, run).dequeued == s.dequeued && s.queue <= After(s, run).queue
    decreases |run|
  {
    if run != [] {
      FullQueueStep(s, run[0]);
      NextInv(s, run[0]);
      FullQueueStarves(Next(s, run[0]), run[1..]);
    }
  }

  // ----- the number of running jobs -----

  /** Which ids run, and which are queued, after one record has been put in the table. */
  lemma IdsAfter(table: Table, id: JobId, j: JobData)
    ensures RunningIds(table[id := j]) ==
            if IsActive(j.status) then RunningIds(table) + {id} else RunningIds(table) - {id}
    ensures QueuedIds(table[id := j]) ==
            if j.status == QUEUED then QueuedIds(table) + {id} else QueuedIds(table) - {id}
  {
  }

  lemma ReplaceCounts(table: Table, id: JobId, j: JobData)
    requires id in table && !IsActive(table[id].status)
    ensures |RunningIds(table[id := j])| == |RunningIds(table)| + if IsActive(j.status) then 1 else 0
  {
    IdsAfter(table, id, j);
    assert id !in RunningIds(table);
  }

  lemma StartOneCounts(l: Launch, now: u64, env: Env)
    requires LaunchOk(l) && l.queue != []
    ensures var r := StartOne(l, now, env);
            |RunningIds(r.table)| - r.started == |RunningIds(l.table)| - l.started
  {
    hide Start, PlaceOk;
    var id := l.queue[0];
    var j := l.table[id];
    assert PlaceOk(j, true);
    StatusByPlace(j, true);
    StartKeepsOk(j, now, env.spawn(id));
    ReplaceCounts(l.table, id, Start(j, now, env.spawn(id)));
  }

  lemma {:induction false} StartLoopCounts(l: Launch, now: u64, env: Env, b: Budget)
    requires LaunchOk(l)
    ensures var r := StartLoop(l, now, env, b);
            && |RunningIds(r.table)| - r.started == |RunningIds(l.table)| - l.started
            && (r.started == l.started || (r.started <= b.maxStarts && b.running + r.started <= b.maxConcurrent))
    decreases |l.queue|
  {
    hide Start, PlaceOk;
    if MayStart(l, b) {
      StartOneCounts(l, now, env);
      StartOneOk(l, now, env);
      StartLoopCounts(StartOne(l, now, env), now, env, b);
    }
  }

  lemma CheckLimitsCounts(s: State, now: u64, maxScans: nat, env: Env)
    requires Inv(s)
    ensures |RunningIds(CheckLimits(s, now, maxScans, env).table)| <= |RunningIds(s.table)|
  {
    hide Scan, PlaceOk;
    var visited := CheckLimitsEffect(s, now, maxScans, env);
    var r := CheckLimits(s, now, maxScans, env);
    assert RunningIds(r.table) <= RunningIds(s.table);
    SubsetCardinality(RunningIds(r.table), RunningIds(s.table));
  }

  /** The most jobs that can run at once when no tick may start more than `starts`: admission is decided before the start
      loop, so max_running_jobs can be overshot by all but one of the starts of one tick. */
  function MaxRunning(config: Config, starts: nat): nat {
    var p := config.policy;
    if p.maxRunningJobs <= 0 || p.maxQueueDepth <= 0 || p.cpuHighWatermarkPct <= 0.0 || p.memHighWatermarkPct <= 0.0 ||
       starts == 0
    then 0
    else Min(config.maxConcurrent, p.maxRunningJobs - 1 + starts)
  }

  ghost predicate StartsWithin(run: seq<Action>, starts: nat) {
    forall a :: a in run && a.Tick? ==> a.maxStarts <= starts
  }

  /** How many jobs the start loop of a tick starts. */
  ghost function Started(s: State, a: Action): nat
    requires Closed(s) && a.Tick?
  {
    AfterStarts(s, a.now, a.metrics, a.maxStarts, a.env).startedThisTick
  }

  lemma {:induction false} SuccessesBound(queue: seq<JobId>, i: nat, env: Env)
    requires i <= |queue|
    ensures Successes(queue, i, env) <= i
  {
    if i > 0 {
      SuccessesBound(queue, i - 1, env);
    }
  }

  /** A tick starts no more jobs than its budget allows and than were in the queue, and none unless jobs are admitted. */
  lemma StartedBounds(s: State, a: Action)
    requires Inv(s) && a.Tick?
    ensures Started(s, a) <= a.maxStarts && Started(s, a) <= |s.queue|
    ensures Started(s, a) > 0 ==>
              Admission(s, a.metrics).decision == START_NOW && |RunningList(s)| + Started(s, a) <= s.config.maxConcurrent
    ensures |RunningIds(AfterStarts(s, a.now, a.metrics, a.maxStarts, a.env).table)| ==
            |RunningIds(s.table)| + Started(s, a)
  {
    hide Start, PlaceOk;
    var l := Launch(s.table, s.queue, s.dequeued, 0);
    var b := Budget(a.maxStarts, s.config.maxConcurrent, |RunningList(s)|);
    StartLoopCounts(l, a.now, a.env, b);
    StartLoopStarted(l, a.now, a.env, b);
    SuccessesBound(s.queue, Taken(s.queue, 0, a.env, b), a.env);
  }

  /** What a tick reports about itself is true: the counts it decided by, the decision taken on them, how many jobs it started
      and how many it visited. */
  lemma TickReports(s: State, a: Action)
    requires Inv(s) && a.Tick?
    ensures var d := Next(s, a).diagnostics;
            && d.nowMs == a.now && d.running == |RunningIds(s.table)| && d.queued == |QueuedIds(s.table)|
            && GovernorResult(d.decision, d.reason, d.retryAfterMs) ==
               Decide(s.config.policy, a.metrics.cpuPct, MemPct(a.metrics), d.running, d.queued)
    ensures var m := AfterStarts(s, a.now, a.metrics, a.maxStarts, a.env);
            Next(s, a).startedThisTick == |RunningIds(m.table)| - |RunningIds(s.table)|
    ensures Next(s, a).scannedThisTick == |Next(s, a).scanLog| - |s.scanLog|
  {
    hide Start, Scan, ScanFirst, PlaceOk, Ledger, JobsOk, Decide, MemPct, StartLoop, RunningList, QueuedList, RunningIds,
      QueuedIds;
    CountsAreCardinalities(s);
    StartedBounds(s, a);
  }

  lemma TickBound(s: State, a: Action, starts: nat)
    requires Inv(s) && a.Tick? && Started(s, a) <= starts
    requires |RunningIds(s.table)| <= MaxRunning(s.config, starts)
    ensures |RunningIds(Next(s, a).table)| <= MaxRunning(s.config, starts)
  {
    hide Ledger, JobsOk, AfterStarts, CheckLimits, MemPct, RunningList, QueuedList;
    CountsAreCardinalities(s);
    StartedBounds(s, a);
    AfterStartsInv(s, a.now, a.metrics, a.maxStarts, a.env);
    CheckLimitsCounts(AfterStarts(s, a.now, a.metrics, a.maxStarts, a.env), a.now, a.maxScans, a.env);
  }

  lemma StepBound(s: State, a: Action, starts: nat)
    requires Inv(s) && Enabled(s, a) && (a.Tick? ==> Started(s, a) <= starts)
    requires |RunningIds(s.table)| <= MaxRunning(s.config, starts)
    ensures |RunningIds(Next(s, a).table)| <= MaxRunning(s.config, starts) && Next(s, a).config == s.config
  {
    hide Ledger, JobsOk, CheckLimits, DoTick, AfterStarts, EnforceCap, MaxRunning, Started, TakenBy;
    QueueAfter(s, a);
    if a.Tick? {
      TickBound(s, a, starts);
    } else if a.Check? {
      CheckLimitsCounts(s, a.now, a.maxScans, a.env);
    } else {
      OthersStartNothing(s, a);
      SubsetCardinality(RunningIds(Next(s, a).table), RunningIds(s.table));
    }
  }

  lemma OthersStartNothing(s: State, a: Action)
    requires Inv(s) && Enabled(s, a) && !a.Tick? && !a.Check?
    ensures RunningIds(Next(s, a).table) <= RunningIds(s.table)
  {
    hide Ledger, JobsOk, EnforceCap;
  }

  lemma {:induction false} RunBound(s: State, run: seq<Action>, starts: nat)
    requires Inv(s) && Runnable(s, run) && StartsWithin(run, starts)
    requires |RunningIds(s.table)| <= MaxRunning(s.config, starts)
    ensures |RunningIds(After(s, run).table)| <= MaxRunning(s.config, starts)
    decreases |run|
  {
    if run != [] {
      if run[0].Tick? {
        StartedBounds(s, run[0]);
      }
      StepBound(s, run[0], starts);
      NextInv(s, run[0]);
      RunBound(Next(s, run[0]), run[1..], starts);
    }
  }

  /** No run starting from an empty runner ever has more than MaxRunning jobs RUNNING. */
  lemma ConcurrencyBound(config: Config, counter: nat, run: seq<Action>, starts: nat)
    requires Runnable(Init(config, counter), run) && StartsWithin(run, starts)
    ensures |RunningIds(After(Init(config, counter), run).table)| <= MaxRunning(config, starts)
  {
    InitInv(config, counter);
    assert RunningIds(Init(config, counter).table) == {};
    RunBound(Init(config, counter), run, starts);
  }

  // ----- the same when no QUEUED job is cancelled -----

  /** Nothing in the queue has been cancelled. */
  ghost predicate AllWait(s: State)
    requires Closed(s)
  {
    forall id :: id in s.queue ==> s.table[id].status == QUEUED
  }

  lemma StepKeepsWaiting(s: State, a: Action)
    requires Inv(s) && Enabled(s, a) && Spares(s, a) && AllWait(s)
    ensures Inv(Next(s, a)) && AllWait(Next(s, a))
  {
    hide TakenBy, PlaceOk, DoTick, CheckLimits;
    NextInv(s, a);
    QueueAfter(s, a);
    var r := Next(s, a);
    SplitDisjoint(r.dequeued, r.queue);
    forall id | id in r.queue
      ensures r.table[id].status == QUEUED
    {
      if !(a.Submit? && id == a.id) {
        assert id in s.queue;
        StaysQueued(s, a, id);
      }
    }
  }

  lemma QueueIsCounted(s: State)
    requires Inv(s) && AllWait(s)
    ensures |QueuedList(s)| == |s.queue|
  {
    hide PlaceOk, Select;
    CountsAreCardinalities(s);
    SuffixDistinct(s.dequeued, s.queue);
    DistinctCardinality(s.queue);
    forall id | id in QueuedIds(s.table)
      ensures id in s.queue
    {
      StatusByPlace(s.table[id], id in s.queue);
    }
    assert QueuedIds(s.table) == Elements(s.queue);
  }

  /** The most jobs that can wait if the queue is not to block itself. */
  function QueueRoom(config: Config): nat {
    if config.policy.maxQueueDepth > 0 then config.policy.maxQueueDepth - 1 else 0
  }

  lemma {:induction false} RunBoundSparing(s: State, run: seq<Action>, starts: nat)
    requires Inv(s) && AllWait(s) && Runnable(s, run) && SparesQueued(s, run) && StartsWithin(run, starts)
    requires |RunningIds(s.table)| <= MaxRunning(s.config, Min(starts, QueueRoom(s.config)))
    ensures |RunningIds(After(s, run).table)| <= MaxRunning(s.config, Min(starts, QueueRoom(s.config)))
    decreases |run|
  {
    hide Ledger, JobsOk, DoTick, AfterStarts;
    if run != [] {
      var a := run[0];
      if a.Tick? {
        StartedBounds(s, a);
        QueueIsCounted(s);
      }
      StepBound(s, a, Min(starts, QueueRoom(s.config)));
      StepKeepsWaiting(s, a);
      RunBoundSparing(Next(s, a), run[1..], starts);
    }
  }

  /** If no QUEUED job is cancelled, a tick can also start no more jobs than the queue may hold before it blocks itself. */
  lemma UncancelledBound(config: Config, counter: nat, run: seq<Action>, starts: nat)
    requires Runnable(Init(config, counter), run) && SparesQueued(Init(config, counter), run) && StartsWithin(run, starts)
    ensures |RunningIds(After(Init(config, counter), run).table)| <= MaxRunning(config, Min(starts, QueueRoom(config)))
  {
    InitInv(config, counter);
    assert RunningIds(Init(config, counter).table) == {};
    RunBoundSparing(Init(config, counter), run, starts);
  }
}
