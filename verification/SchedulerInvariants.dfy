/** What every call of the job runner keeps, and so what holds in every reachable state. */
module SchedulerInvariants {
  import opened Wrappers
  import opened Sequences
  import opened ResourceGovernor
  import opened JobModel
  import opened RoundRobin
  import opened Scheduler

  /** FIFO order, unique ids, and conservation of jobs. */
  ghost predicate Ledger(s: State) {
    && Distinct(s.order) && (forall id :: id in s.order <==> id in s.table)
    && Distinct(s.history) && (forall id :: id in s.history <==> id in s.table)
    && s.history == s.dequeued + s.queue
    && (forall id :: id in s.table ==> id <= s.counter && id !in s.pending)
    && (forall id :: id in s.pending ==> id <= s.counter)
  }

  /** Every job is as it should be for where it is. */
  ghost predicate JobsOk(table: Table, queue: seq<JobId>) {
    forall id :: id in table ==> PlaceOk(table[id], id in queue)
  }

  ghost predicate Inv(s: State) {
    Closed(s) && Ledger(s) && JobsOk(s.table, s.queue)
  }

  /** Ids appear once in a history, so its dequeued part and its queue are disjoint. */
  lemma SplitDisjoint(dequeued: seq<JobId>, queue: seq<JobId>)
    requires Distinct(dequeued + queue)
    ensures forall id :: id in queue ==> id !in dequeued
    ensures queue != [] ==> queue[0] !in queue[1..]
  {
    var history := dequeued + queue;
    assert forall i :: 0 <= i < |queue| ==> history[|dequeued| + i] == queue[i];
    assert forall i :: 0 <= i < |dequeued| ==> history[i] == dequeued[i];
  }

  lemma InitInv(config: Config, counter: nat)
    ensures Inv(Init(config, counter))
  {
  }

  /** Replacing one record, and moving no other job into or out of the queue. */
  lemma ReplaceJobOk(table: Table, queue: seq<JobId>, id: JobId, j: JobData, newQueue: seq<JobId>)
    requires JobsOk(table, queue)
    requires forall x :: x in table && x != id ==> (x in newQueue <==> x in queue)
    requires PlaceOk(j, id in newQueue)
    ensures JobsOk(table[id := j], newQueue)
  {
    forall x | x in table[id := j]
      ensures PlaceOk(table[id := j][x], x in newQueue)
    {
      if x != id {
        assert PlaceOk(table[x], x in queue);
      }
    }
  }

  lemma SubmitInv(s: State, id: JobId, limits: Limits, newOrder: seq<JobId>)
    requires Inv(s) && id in s.pending && Rearranges(newOrder, s.order, id)
    ensures Inv(DoSubmit(s, id, limits, newOrder))
  {
    hide PlaceOk;
    NewJobOk(limits);
    var r := DoSubmit(s, id, limits, newOrder);
    ReplaceJobOk(s.table, s.queue, id, NewJob(limits), r.queue);
    assert id !in s.history;
    assert r.history == r.dequeued + r.queue;
    assert Ledger(r);
  }

  lemma CancelInv(s: State, id: JobId, alive: bool, wallMs: u64)
    requires Inv(s)
    ensures Inv(DoCancel(s, id, alive, wallMs))
  {
    hide PlaceOk;
    if id in s.table {
      var j := s.table[id];
      CancelKeepsOk(j, alive, wallMs, id in s.queue);
      ReplaceJobOk(s.table, s.queue, id, JobModel.Cancel(j, alive, wallMs), s.queue);
    }
  }

  lemma EnforceInv(s: State, id: JobId, cap: Cap)
    requires Inv(s) && id in s.table && s.table[id].status == RUNNING
    ensures Inv(DoEnforce(s, id, cap)) && id !in s.queue
  {
    hide PlaceOk, EnforceCap, Distinct;
    var j := s.table[id];
    StatusByPlace(j, id in s.queue);
    EnforceKeepsOk(j, cap);
    ReplaceJobOk(s.table, s.queue, id, EnforceCap(j, cap), s.queue);
  }

  ghost predicate LaunchOk(l: Launch) {
    Distinct(l.dequeued + l.queue) && QueueKnown(l) && JobsOk(l.table, l.queue)
  }

  lemma StartOneOk(l: Launch, now: u64, env: Env)
    requires LaunchOk(l) && l.queue != []
    ensures var r := StartOne(l, now, env);
            LaunchOk(r) && r.dequeued + r.queue == l.dequeued + l.queue
  {
    hide PlaceOk;
    var id := l.queue[0];
    StartKeepsOk(l.table[id], now, env.spawn(id));
    SplitDisjoint(l.dequeued, l.queue);
    var r := StartOne(l, now, env);
    ReplaceJobOk(l.table, l.queue, id, r.table[id], r.queue);
    assert l.queue == [id] + r.queue;
    assert r.dequeued + r.queue == l.dequeued + l.queue;
  }

  lemma {:induction false} StartLoopOk(l: Launch, now: u64, env: Env, b: Budget)
    requires LaunchOk(l)
    ensures var r := StartLoop(l, now, env, b);
            LaunchOk(r) && r.dequeued + r.queue == l.dequeued + l.queue
    decreases |l.queue|
  {
    if MayStart(l, b) {
      StartOneOk(l, now, env);
      StartLoopOk(StartOne(l, now, env), now, env, b);
    }
  }

  /** How many of the first i jobs of the queue the spawner accepts. */
  function Successes(queue: seq<JobId>, i: nat, env: Env): nat
    requires i <= |queue|
  {
    if i == 0 then 0 else Successes(queue, i - 1, env) + if env.spawn(queue[i - 1]).SpawnOk? then 1 else 0
  }

  /** Both budgets have room for one more start. */
  predicate HasRoom(b: Budget, started: nat) {
    started < b.maxStarts && b.running + started < b.maxConcurrent
  }

  lemma {:induction false} SuccessesShift(queue: seq<JobId>, i: nat, env: Env)
    requires 0 < i <= |queue|
    ensures Successes(queue, i, env) == (if env.spawn(queue[0]).SpawnOk? then 1 else 0) + Successes(queue[1..], i - 1, env)
  {
    if i > 1 {
      SuccessesShift(queue, i - 1, env);
    }
  }

  /** How many jobs the start loop takes from the queue. */
  function Taken(queue: seq<JobId>, started: nat, env: Env, b: Budget): (d: nat)
    ensures d <= |queue|
  {
    if queue == [] || !HasRoom(b, started) then 0
    else 1 + Taken(queue[1..], started + if env.spawn(queue[0]).SpawnOk? then 1 else 0, env, b)
  }

  /** The job at position i is taken exactly when the spawns accepted before it left room; a failed spawn uses up no
      budget. */
  lemma {:induction false} TakenIff(queue: seq<JobId>, started: nat, env: Env, b: Budget, i: nat)
    requires i < |queue|
    ensures i < Taken(queue, started, env, b) <==> HasRoom(b, started + Successes(queue, i, env))
  {
    if i > 0 {
      SuccessesShift(queue, i, env);
      if HasRoom(b, started) {
        TakenIff(queue[1..], started + if env.spawn(queue[0]).SpawnOk? then 1 else 0, env, b, i - 1);
      }
    }
  }

  lemma {:induction false} StartLoopQueue(l: Launch, now: u64, env: Env, b: Budget)
    requires QueueKnown(l)
    ensures var r := StartLoop(l, now, env, b);
            var d := Taken(l.queue, l.started, env, b);
            r.queue == l.queue[d..] && r.dequeued == l.dequeued + l.queue[..d]
    decreases |l.queue|
  {
    hide Start;
    if MayStart(l, b) {
      var m := StartOne(l, now, env);
      StartLoopQueue(m, now, env, b);
      var d := Taken(l.queue, l.started, env, b);
      assert d == 1 + Taken(m.queue, m.started, env, b);
      TakeDropTail(l.queue, d);
      AppendCons(l.dequeued, l.queue[0], m.queue[..d - 1]);
    } else {
      assert Taken(l.queue, l.started, env, b) == 0;
      assert l.dequeued + l.queue[..0] == l.dequeued;
    }
  }

  lemma {:induction false} StartLoopStarted(l: Launch, now: u64, env: Env, b: Budget)
    requires QueueKnown(l)
    ensures StartLoop(l, now, env, b).started ==
            l.started + Successes(l.queue, Taken(l.queue, l.started, env, b), env)
    decreases |l.queue|
  {
    hide Start;
    if MayStart(l, b) {
      var m := StartOne(l, now, env);
      StartLoopStarted(m, now, env, b);
      assert Taken(l.queue, l.started, env, b) == 1 + Taken(m.queue, m.started, env, b);
      SuccessesShift(l.queue, Taken(l.queue, l.started, env, b), env);
    }
  }

  lemma {:induction false} StartLoopTable(l: Launch, now: u64, env: Env, b: Budget)
    requires QueueKnown(l) && Distinct(l.queue)
    ensures var taken := l.queue[..Taken(l.queue, l.started, env, b)];
            forall id :: id in l.table ==>
              StartLoop(l, now, env, b).table[id] ==
              if id in taken then Start(l.table[id], now, env.spawn(id)) else l.table[id]
    decreases |l.queue|
  {
    hide Start;
    if MayStart(l, b) {
      var m := StartOne(l, now, env);
      FrontOnce(l.queue);
      var d := Taken(l.queue, l.started, env, b);
      assert d == 1 + Taken(m.queue, m.started, env, b);
      hide Taken, Distinct;
      StartLoopTable(m, now, env, b);
      TakeDropTail(l.queue, d);
      assert l.queue[0] !in m.queue[..d - 1];
    }
  }

  lemma FrontOnce(queue: seq<JobId>)
    requires queue != [] && Distinct(queue)
    ensures queue[0] !in queue[1..] && Distinct(queue[1..])
  {
  }

  /** The jobs a tick takes from the queue. */
  function TakenBy(s: State, metrics: Metrics, maxStarts: nat, env: Env): (taken: seq<JobId>)
    requires Closed(s)
    ensures taken <= s.queue
  {
    if Admission(s, metrics).decision == START_NOW
    then s.queue[..Taken(s.queue, 0, env, Budget(maxStarts, s.config.maxConcurrent, |RunningList(s)|))]
    else []
  }

  /** The whole start phase, stated without its loop. */
  lemma AfterStartsEffect(s: State, now: u64, metrics: Metrics, maxStarts: nat, env: Env)
    requires Inv(s)
    ensures var m := AfterStarts(s, now, metrics, maxStarts, env);
            var taken := TakenBy(s, metrics, maxStarts, env);
            && m.queue == s.queue[|taken|..] && m.dequeued == s.dequeued + taken
            && m.table.Keys == s.table.Keys && m.order == s.order && m.history == s.history && m.cursor == s.cursor
            && m.config == s.config && m.scanLog == s.scanLog
            && (forall id :: id in s.table ==>
                  m.table[id] == if id in taken then Start(s.table[id], now, env.spawn(id)) else s.table[id])
  {
    hide Start, PlaceOk;
    var l := Launch(s.table, s.queue, s.dequeued, 0);
    var b := Budget(maxStarts, s.config.maxConcurrent, |RunningList(s)|);
    SuffixDistinct(s.dequeued, s.queue);
    StartLoopQueue(l, now, env, b);
    StartLoopTable(l, now, env, b);
    assert s.queue[0..] == s.queue && s.dequeued + [] == s.dequeued;
  }

  lemma AfterStartsInv(s: State, now: u64, metrics: Metrics, maxStarts: nat, env: Env)
    requires Inv(s)
    ensures Inv(AfterStarts(s, now, metrics, maxStarts, env))
  {
    StartLoopOk(Launch(s.table, s.queue, s.dequeued, 0), now, env,
                Budget(maxStarts, s.config.maxConcurrent, |RunningList(s)|));
  }

  /** k visits to distinct jobs: exactly the jobs visited are scanned, each once and from the record it had at the
      start, and every other record is as it was. */
  lemma {:induction false} ScanFirstEffect(table: Table, jobs: seq<JobId>, cursor: nat, k: nat, now: u64, env: Env)
    requires (forall id :: id in jobs ==> id in table) && Distinct(jobs) && k <= |jobs|
    ensures var r := ScanFirst(table, jobs, cursor, k, now, env);
            forall id :: id in table ==>
              r[id] == if id in Visits(jobs, cursor, k) then Scan(table[id], now, env.probe(id)) else table[id]
  {
    hide Scan, Visits, Slot, Distinct;
    if k > 0 {
      ScanFirstEffect(table, jobs, cursor, k - 1, now, env);
      VisitsGrow(jobs, cursor, k - 1);
    }
  }

  /** The scan phase, as far as it can be seen from its code. */
  lemma CheckLimitsIs(s: State, now: u64, maxScans: nat, env: Env)
    requires Closed(s)
    ensures var jobs := RunningList(s);
            var n := Min(|jobs|, maxScans);
            var r := CheckLimits(s, now, maxScans, env);
            && (forall id :: id in jobs ==> id in s.table)
            && r.table == (if jobs == [] then s.table else ScanFirst(s.table, jobs, s.cursor, n, now, env))
            && r.queue == s.queue && r.dequeued == s.dequeued && r.order == s.order && r.history == s.history
            && r.pending == s.pending && r.counter == s.counter && r.config == s.config
            && r.scanLog == s.scanLog + Visits(jobs, s.cursor, n)
            && (jobs != [] ==> r.cursor == (s.cursor + n) % |jobs|)
  {
    hide RunningList, ScanFirst, Slot;
    RunningListIs(s);
    assert RunningList(s) == [] ==> s.scanLog + Visits(RunningList(s), s.cursor, 0) == s.scanLog;
  }

  lemma VisitedRun(s: State, k: nat)
    requires Inv(s) && k <= |RunningList(s)|
    ensures Distinct(Visits(RunningList(s), s.cursor, k))
    ensures forall id :: id in Visits(RunningList(s), s.cursor, k) ==> id in s.table && s.table[id].status == RUNNING
  {
    hide PlaceOk, RunningList, Slot;
    var jobs := RunningList(s);
    RunningListIs(s);
    VisitsDistinct(jobs, s.cursor, k);
    forall id | id in Visits(jobs, s.cursor, k)
      ensures id in s.table && s.table[id].status == RUNNING
    {
      assert id in jobs;
      StatusByPlace(s.table[id], id in s.queue);
    }
  }

  /** The whole scan phase, stated without its loop: min(n, maxScans) distinct running jobs are visited from the
      cursor on, each exactly once, and nothing else happens. */
  lemma CheckLimitsEffect(s: State, now: u64, maxScans: nat, env: Env) returns (visited: seq<JobId>)
    requires Inv(s)
    ensures visited == Visits(RunningList(s), s.cursor, Min(|RunningList(s)|, maxScans)) && Distinct(visited)
    ensures forall id :: id in visited ==> id in s.table && s.table[id].status == RUNNING
    ensures var r := CheckLimits(s, now, maxScans, env);
            && r.table.Keys == s.table.Keys && r.queue == s.queue && r.dequeued == s.dequeued && r.order == s.order
            && r.history == s.history && r.pending == s.pending && r.counter == s.counter && r.config == s.config
            && r.scanLog == s.scanLog + visited
            && (RunningList(s) != [] ==> r.cursor == (s.cursor + |visited|) % |RunningList(s)|)
    ensures forall id :: id in s.table ==>
              CheckLimits(s, now, maxScans, env).table[id] ==
              if id in visited then Scan(s.table[id], now, env.probe(id)) else s.table[id]
  {
    hide Ledger, JobsOk, Distinct, Scan, ScanFirst, CheckLimits, RunningList, Visits;
    var jobs := RunningList(s);
    var m := Min(|jobs|, maxScans);
    RunningIsDistinct(s);
    visited := Visits(jobs, s.cursor, m);
    VisitedRun(s, m);
    CheckLimitsIs(s, now, maxScans, env);
    if jobs != [] {
      ScanFirstEffect(s.table, jobs, s.cursor, m, now, env);
    }
  }

  lemma RunningIsDistinct(s: State)
    requires Inv(s)
    ensures Distinct(RunningList(s))
  {
    hide JobsOk, RunningList, Distinct;
    RunningListIs(s);
  }

  lemma CheckLimitsInv(s: State, now: u64, maxScans: nat, env: Env)
    requires Inv(s)
    ensures Inv(CheckLimits(s, now, maxScans, env))
  {
    hide PlaceOk, Scan, CheckLimits, RunningList, Visits, Distinct;
    var visited := CheckLimitsEffect(s, now, maxScans, env);
    var r := CheckLimits(s, now, maxScans, env);
    forall id | id in r.table
      ensures PlaceOk(r.table[id], id in r.queue)
    {
      ScannedOk(s, id, now, env);
    }
  }

  lemma ScannedOk(s: State, id: JobId, now: u64, env: Env)
    requires Inv(s) && id in s.table
    ensures PlaceOk(s.table[id], id in s.queue)
    ensures s.table[id].status == RUNNING ==> PlaceOk(Scan(s.table[id], now, env.probe(id)), id in s.queue)
  {
    hide Ledger, PlaceOk, Scan;
    StatusByPlace(s.table[id], id in s.queue);
    if s.table[id].status == RUNNING {
      ScanKeepsOk(s.table[id], now, env.probe(id));
    }
  }

  /** What a tick does to the queue and to each job: a job taken from the queue is started, and a job running after
      that is scanned at most once. */
  lemma TickOnJob(s: State, now: u64, metrics: Metrics, maxStarts: nat, maxScans: nat, env: Env, id: JobId)
    requires Inv(s) && id in s.table
    ensures var r := DoTick(s, now, metrics, maxStarts, maxScans, env);
            var j := if id in TakenBy(s, metrics, maxStarts, env) then Start(s.table[id], now, env.spawn(id))
                     else s.table[id];
            && id in r.table
            && (r.table[id] == j || (j.status == RUNNING && r.table[id] == Scan(j, now, env.probe(id))))
  {
    hide Start, Scan, PlaceOk;
    var m := AfterStarts(s, now, metrics, maxStarts, env);
    AfterStartsEffect(s, now, metrics, maxStarts, env);
    AfterStartsInv(s, now, metrics, maxStarts, env);
    var visited := CheckLimitsEffect(m, now, maxScans, env);
  }

  lemma TickOnQueue(s: State, now: u64, metrics: Metrics, maxStarts: nat, maxScans: nat, env: Env)
    requires Inv(s)
    ensures var r := DoTick(s, now, metrics, maxStarts, maxScans, env);
            var taken := TakenBy(s, metrics, maxStarts, env);
            && r.queue == s.queue[|taken|..] && r.dequeued == s.dequeued + taken
            && r.history == s.history && r.table.Keys == s.table.Keys && r.order == s.order && r.config == s.config
  {
    hide Start, Scan, PlaceOk;
    AfterStartsEffect(s, now, metrics, maxStarts, env);
    AfterStartsInv(s, now, metrics, maxStarts, env);
    var visited := CheckLimitsEffect(AfterStarts(s, now, metrics, maxStarts, env), now, maxScans, env);
  }

  lemma NextInv(s: State, a: Action)
    requires Inv(s) && Enabled(s, a)
    ensures Inv(Next(s, a))
  {
    match a
    case Draw =>
    case Submit(id, limits, newOrder) => SubmitInv(s, id, limits, newOrder);
    case Cancel(id, alive, wallMs) => CancelInv(s, id, alive, wallMs);
    case Tick(now, metrics, maxStarts, maxScans, env) =>
      AfterStartsInv(s, now, metrics, maxStarts, env);
      CheckLimitsInv(AfterStarts(s, now, metrics, maxStarts, env), now, maxScans, env);
    case Check(now, maxScans, env) => CheckLimitsInv(s, now, maxScans, env);
    case Enforce(id, cap) => EnforceInv(s, id, cap);
  }

  /** Whatever holds between calls holds after any run. */
  lemma {:induction false} RunInv(s: State, run: seq<Action>)
    requires Inv(s) && Runnable(s, run)
    ensures Inv(After(s, run))
    decreases |run|
  {
    if run != [] {
      NextInv(s, run[0]);
      RunInv(Next(s, run[0]), run[1..]);
    }
  }
}
