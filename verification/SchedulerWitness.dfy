/** Runs that reach the two concurrency bounds, for every configuration. */
module SchedulerWitness {
  import opened Wrappers
  import opened Sequences
  import opened ResourceGovernor
  import opened JobModel
  import opened RoundRobin
  import opened Scheduler
  import opened SchedulerInvariants
  import opened SchedulerLoad

  lemma {:induction false} RunAppend(s: State, a: seq<Action>, b: seq<Action>)
    requires Closed(s) && Runnable(s, a) && Runnable(After(s, a), b)
    ensures Runnable(s, a + b) && After(s, a + b) == After(After(s, a), b)
    decreases |a|
  {
    if a == [] {
      assert a + b == b;
    } else {
      assert (a + b)[0] == a[0] && (a + b)[1..] == a[1..] + b;
      RunAppend(Next(s, a[0]), a[1..], b);
    }
  }

  lemma RunStep(s: State, a: Action)
    requires Closed(s) && Enabled(s, a)
    ensures Runnable(s, [a]) && After(s, [a]) == Next(s, a)
  {
    assert [a][1..] == [];
    assert Runnable(Next(s, a), [a][1..]);
  }

  lemma RunExtend(s: State, run: seq<Action>, a: Action)
    requires Closed(s) && Runnable(s, run) && Enabled(After(s, run), a)
    ensures Runnable(s, run + [a]) && After(s, run + [a]) == Next(After(s, run), a)
  {
    hide Next, Enabled;
    RunStep(After(s, run), a);
    RunAppend(s, run, [a]);
  }

  /** Every spawn works and nothing ever ends. */
  function QuietEnv(): Env {
    Env(id => SpawnOk(-1, 0, -1, -1), id => Probe(Again, Again, NotReaped, None, -1))
  }

  const LIMITS := Limits(0, 0, 0)

  /** `waiting` jobs are in the queue and `running` jobs run. Jobs cancelled in the queue do not count as queued. */
  ghost predicate Loaded(s: State, config: Config, waiting: nat, running: nat, cancelled: bool) {
    && Inv(s) && s.config == config
    && |QueuedIds(s.table)| == (if cancelled then 0 else waiting)
    && |s.queue| == waiting && |RunningIds(s.table)| == running
  }

  function AddActions(s: State, cancelled: bool): seq<Action> {
    var id := s.counter + 1;
    [Draw, Submit(id, LIMITS, s.order + [id])] + if cancelled then [Action.Cancel(id, false, 0)] else []
  }

  lemma SubmitLoad(s: State, id: JobId)
    requires Inv(s) && id in s.pending
    ensures Enabled(s, Submit(id, LIMITS, s.order + [id]))
    ensures var r := Next(s, Submit(id, LIMITS, s.order + [id]));
            && Inv(r) && r.config == s.config && |r.queue| == |s.queue| + 1
            && RunningIds(r.table) == RunningIds(s.table)
            && QueuedIds(r.table) == QueuedIds(s.table) + {id} && id !in QueuedIds(s.table)
  {
    NewId(s, id);
    hide Ledger, JobsOk, RunningIds, QueuedIds, Rearranges;
    NextInv(s, Submit(id, LIMITS, s.order + [id]));
    IdsAfter(s.table, id, NewJob(LIMITS));
  }

  lemma NewId(s: State, id: JobId)
    requires Inv(s) && id in s.pending
    ensures Rearranges(s.order + [id], s.order, id) && id !in RunningIds(s.table) && id !in QueuedIds(s.table)
    ensures RunningIds(s.table) - {id} == RunningIds(s.table)
  {
    hide JobsOk;
    assert id !in s.table && id !in s.order;
    DistinctAppend(s.order, id);
    hide Distinct;
  }

  lemma CancelLoad(s: State, id: JobId)
    requires Inv(s) && id in QueuedIds(s.table)
    ensures var r := Next(s, Action.Cancel(id, false, 0));
            && Inv(r) && r.config == s.config && r.queue == s.queue
            && RunningIds(r.table) == RunningIds(s.table) && QueuedIds(r.table) == QueuedIds(s.table) - {id}
  {
    var j := s.table[id];
    assert j.status == QUEUED && RunningIds(s.table) - {id} == RunningIds(s.table);
    hide Ledger, JobsOk, RunningIds, QueuedIds;
    NextInv(s, Action.Cancel(id, false, 0));
    IdsAfter(s.table, id, JobModel.Cancel(j, false, 0));
  }

  lemma AddOne(s: State, config: Config, waiting: nat, running: nat, cancelled: bool)
    requires Loaded(s, config, waiting, running, cancelled)
    ensures Runnable(s, AddActions(s, cancelled))
    ensures Loaded(After(s, AddActions(s, cancelled)), config, waiting + 1, running, cancelled)
  {
    hide PlaceOk, Ledger, JobsOk, Next, RunningIds, QueuedIds;
    var id := s.counter + 1;
    var submit := Submit(id, LIMITS, s.order + [id]);
    var cancel := Action.Cancel(id, false, 0);
    DrawLoad(s);
    var s1 := Next(s, Draw);
    SubmitLoad(s1, id);
    RunTwo(s, Draw, submit);
    if cancelled {
      CancelLoad(Next(s1, submit), id);
      RunExtend(s, [Draw, submit], cancel);
    } else {
      assert AddActions(s, cancelled) == [Draw, submit];
    }
  }

  lemma DrawLoad(s: State)
    requires Inv(s)
    ensures var r := Next(s, Draw);
            && Inv(r) && r.config == s.config && r.queue == s.queue && r.table == s.table && r.order == s.order
            && s.counter + 1 in r.pending
  {
    hide PlaceOk, Ledger, JobsOk;
    NextInv(s, Draw);
  }

  lemma RunTwo(s: State, a: Action, b: Action)
    requires Closed(s) && Enabled(s, a) && Closed(Next(s, a)) && Enabled(Next(s, a), b)
    ensures Runnable(s, [a, b]) && After(s, [a, b]) == Next(Next(s, a), b)
  {
    hide Next, Enabled;
    RunStep(s, a);
    RunExtend(s, [a], b);
    assert [a] + [b] == [a, b];
  }

  /** The run has no ticks, and cancellations only if they are asked for. */
  ghost predicate OnlyLoads(run: seq<Action>, cancelled: bool) {
    forall a :: a in run ==> !a.Tick? && (a.Cancel? ==> cancelled)
  }

  lemma {:induction false} AddMany(s: State, config: Config, waiting: nat, running: nat, k: nat, cancelled: bool)
    returns (run: seq<Action>)
    requires Loaded(s, config, waiting, running, cancelled)
    ensures Runnable(s, run) && Loaded(After(s, run), config, waiting + k, running, cancelled)
    ensures OnlyLoads(run, cancelled)
    decreases k
  {
    hide Loaded;
    if k == 0 {
      run := [];
    } else {
      AddOne(s, config, waiting, running, cancelled);
      var first := AddActions(s, cancelled);
      var more := AddMany(After(s, first), config, waiting + 1, running, k - 1, cancelled);
      RunAppend(s, first, more);
      run := first + more;
    }
  }

  function LaunchTick(config: Config, k: nat): Action {
    Tick(0, Metrics(0.0, 0, 0), k, 0, QuietEnv())
  }

  lemma {:induction false} AllTaken(queue: seq<JobId>, started: nat, b: Budget)
    requires started + |queue| <= b.maxStarts && b.running + started + |queue| <= b.maxConcurrent
    ensures Taken(queue, started, QuietEnv(), b) == |queue|
    ensures Successes(queue, |queue|, QuietEnv()) == |queue|
  {
    if queue != [] {
      AllTaken(queue[1..], started + 1, b);
      SuccessesShift(queue, |queue|, QuietEnv());
    }
  }

  /** Neither the queue nor a threshold keeps a tick from starting `waiting` jobs. */
  predicate Admits(config: Config, waiting: nat, cancelled: bool) {
    && (if cancelled then 0 else waiting) < config.policy.maxQueueDepth
    && config.policy.cpuHighWatermarkPct > 0.0 && config.policy.memHighWatermarkPct > 0.0
  }

  /** The start phase of one tick starts everything that waits, if there were fewer than max_running_jobs before it. */
  lemma LaunchPhase(s: State, config: Config, waiting: nat, running: nat, cancelled: bool)
    requires Loaded(s, config, waiting, running, cancelled)
    requires running < config.policy.maxRunningJobs && running + waiting <= config.maxConcurrent
    requires Admits(config, waiting, cancelled)
    ensures var a := LaunchTick(config, waiting);
            var m := AfterStarts(s, 0, a.metrics, waiting, a.env);
            m.queue == [] && |RunningIds(m.table)| == running + waiting && m.config == config
  {
    hide Start, PlaceOk;
    var a := LaunchTick(config, waiting);
    CountsAreCardinalities(s);
    var l := Launch(s.table, s.queue, s.dequeued, 0);
    var b := Budget(waiting, config.maxConcurrent, running);
    AllTaken(s.queue, 0, b);
    StartLoopQueue(l, 0, a.env, b);
    StartLoopStarted(l, 0, a.env, b);
    StartLoopCounts(l, 0, a.env, b);
    assert Admission(s, a.metrics).decision == START_NOW;
  }

  lemma NothingQueued(s: State)
    requires Inv(s) && s.queue == []
    ensures QueuedIds(s.table) == {}
  {
    hide PlaceOk;
    forall id | id in s.table
      ensures s.table[id].status != QUEUED
    {
      assert PlaceOk(s.table[id], id in s.queue);
      StatusByPlace(s.table[id], false);
    }
  }

  lemma LaunchAll(s: State, config: Config, waiting: nat, running: nat, cancelled: bool)
    requires Loaded(s, config, waiting, running, cancelled)
    requires running < config.policy.maxRunningJobs && running + waiting <= config.maxConcurrent
    requires Admits(config, waiting, cancelled)
    ensures Loaded(Next(s, LaunchTick(config, waiting)), config, 0, running + waiting, cancelled)
  {
    hide Ledger, JobsOk, AfterStarts, Visits, RunningList, RunningIds, QueuedIds;
    var a := LaunchTick(config, waiting);
    NextInv(s, a);
    LaunchPhase(s, config, waiting, running, cancelled);
    AfterStartsInv(s, 0, a.metrics, waiting, a.env);
    var m := AfterStarts(s, 0, a.metrics, waiting, a.env);
    ScanNone(m);
    NothingQueued(Next(s, a));
  }

  lemma ScanNone(m: State)
    requires Inv(m)
    ensures var r := CheckLimits(m, 0, 0, QuietEnv());
            r.table == m.table && r.queue == m.queue && r.config == m.config
  {
    hide Ledger, JobsOk, RunningList;
    CheckLimitsIs(m, 0, 0, QuietEnv());
  }

  /** `k` more running jobs, all started by one tick. */
  lemma Grow(s: State, config: Config, running: nat, k: nat, cancelled: bool) returns (run: seq<Action>)
    requires Loaded(s, config, 0, running, cancelled)
    requires running < config.policy.maxRunningJobs && running + k <= config.maxConcurrent
    requires Admits(config, k, cancelled)
    ensures Runnable(s, run) && StartsWithin(run, k) && (!cancelled ==> NoCancel(run))
    ensures Loaded(After(s, run), config, 0, running + k, cancelled)
  {
    hide PlaceOk, DoTick, Ledger, JobsOk;
    var add := AddMany(s, config, 0, running, k, cancelled);
    var t := After(s, add);
    LaunchAll(t, config, k, running, cancelled);
    RunExtend(s, add, LaunchTick(config, k));
    run := add + [LaunchTick(config, k)];
  }

  lemma {:induction false} GrowOneByOne(s: State, config: Config, running: nat, k: nat, cancelled: bool)
    returns (run: seq<Action>)
    requires Loaded(s, config, 0, running, cancelled)
    requires running + k <= config.policy.maxRunningJobs && running + k <= config.maxConcurrent
    requires Admits(config, 1, cancelled)
    ensures Runnable(s, run) && StartsWithin(run, 1) && (!cancelled ==> NoCancel(run))
    ensures Loaded(After(s, run), config, 0, running + k, cancelled)
    decreases k
  {
    hide PlaceOk, Ledger, JobsOk;
    if k == 0 {
      run := [];
    } else {
      var first := Grow(s, config, running, 1, cancelled);
      var rest := GrowOneByOne(After(s, first), config, running + 1, k - 1, cancelled);
      RunAppend(s, first, rest);
      run := first + rest;
    }
  }

  /** First up to max_running_jobs - 1 running jobs one at a time, then `starts` more in one tick. */
  lemma ReachMaxRunning(config: Config, counter: nat, starts: nat, cancelled: bool) returns (run: seq<Action>)
    requires !cancelled ==> starts <= QueueRoom(config)
    ensures Runnable(Init(config, counter), run) && StartsWithin(run, starts) && (!cancelled ==> NoCancel(run))
    ensures |RunningIds(After(Init(config, counter), run).table)| == MaxRunning(config, starts)
  {
    hide PlaceOk;
    var s := Init(config, counter);
    InitInv(config, counter);
    assert RunningIds(s.table) == {} && QueuedIds(s.table) == {};
    if MaxRunning(config, starts) == 0 {
      run := [];
    } else {
      var base := Min(config.maxConcurrent, config.policy.maxRunningJobs - 1);
      var first := GrowOneByOne(s, config, 0, base, cancelled);
      var k := MaxRunning(config, starts) - base;
      if k == 0 {
        run := first;
      } else {
        var burst := Grow(After(s, first), config, base, k, cancelled);
        RunAppend(s, first, burst);
        run := first + burst;
      }
    }
  }

  /** The bound of ConcurrencyBound is reached. The witness cancels each job while it waits: that takes it out of the QUEUED
      count but not out of the queue, so a whole tick's worth of starts can wait without blocking admission. */
  lemma ConcurrencyBoundIsTight(config: Config, counter: nat, starts: nat) returns (run: seq<Action>)
    ensures Runnable(Init(config, counter), run) && StartsWithin(run, starts)
    ensures |RunningIds(After(Init(config, counter), run).table)| == MaxRunning(config, starts)
  {
    run := ReachMaxRunning(config, counter, starts, true);
  }

  /** The bound of UncancelledBound is reached by a run without cancellations. */
  lemma UncancelledBoundIsTight(config: Config, counter: nat, starts: nat) returns (run: seq<Action>)
    ensures Runnable(Init(config, counter), run) && StartsWithin(run, starts)
    ensures NoCancel(run) && SparesQueued(Init(config, counter), run)
    ensures |RunningIds(After(Init(config, counter), run).table)| ==
            MaxRunning(config, Min(starts, QueueRoom(config)))
  {
    run := ReachMaxRunning(config, counter, Min(starts, QueueRoom(config)), false);
    NoCancelSpares(Init(config, counter), run);
  }
}
