/** The state of a JobRunner as a value, and each public call as a step on it. */
module Scheduler {
  import opened Wrappers
  import opened Sequences
  import opened ResourceGovernor
  import opened JobModel
  import opened RoundRobin

  /** The number in "job_<n>". */
  type JobId = nat

  type Table = map<JobId, JobData>

  datatype Config = Config(maxConcurrent: nat, policy: Policy)

  datatype Metrics = Metrics(cpuPct: Percent, memTotal: u64, memAvailable: u64)

  datatype Diagnostics = Diagnostics(decision: Decision, reason: BlockReason, retryAfterMs: u64,
                                     nowMs: u64, running: nat, queued: nat)

  /** What the outside world answers during one tick: within a tick a job is spawned at most once and scanned at
      most once, so one answer per job is enough. */
  datatype Env = Env(spawn: JobId -> SpawnResult, probe: JobId -> Probe)

  /** `order` is the iteration order of the job table. `counter` and `pending` are the process-wide ticket counter and
      the tickets drawn from it but not (or not yet) entered here. `history`, `dequeued` and `scanLog` record every
      submission, every removal from the queue and every visit of the limit scan. */
  datatype State = State(
    config: Config,
    counter: nat,
    pending: set<JobId>,
    table: Table,
    order: seq<JobId>,
    queue: seq<JobId>,
    cursor: nat,
    startedThisTick: nat,
    scannedThisTick: nat,
    diagnostics: Diagnostics,
    history: seq<JobId>,
    dequeued: seq<JobId>,
    scanLog: seq<JobId>)

  datatype Action =
    | Draw
    | Submit(id: JobId, limits: Limits, newOrder: seq<JobId>)
    | Cancel(target: JobId, alive: bool, wallMs: u64)
    | Tick(now: u64, metrics: Metrics, maxStarts: nat, maxScans: nat, env: Env)
    | Check(now: u64, maxScans: nat, env: Env)
    | Enforce(target: JobId, cap: Cap)

  function Init(config: Config, counter: nat): State {
    State(config, counter, {}, map[], [], [], 0, 0, 0, Diagnostics(START_NOW, NONE, 0, 0, 0, 0), [], [], [])
  }

  /** Every id mentioned by the iteration order or the queue is in the table. */
  ghost predicate Closed(s: State) {
    && (forall id :: id in s.order ==> id in s.table)
    && (forall id :: id in s.queue ==> id in s.table)
  }

  predicate IsQueued(s: Status) {
    s == QUEUED
  }

  /** Ids of the order whose job has a status accepted by `p`, in that order. */
  function Select(order: seq<JobId>, table: Table, p: Status -> bool): seq<JobId>
    requires forall id :: id in order ==> id in table
  {
    if order == [] then []
    else
      var rest := Select(order[..|order| - 1], table, p);
      var id := order[|order| - 1];
      if p(table[id].status) then rest + [id] else rest
  }

  function RunningList(s: State): seq<JobId>
    requires Closed(s)
  {
    Select(s.order, s.table, IsActive)
  }

  function QueuedList(s: State): seq<JobId>
    requires Closed(s)
  {
    Select(s.order, s.table, IsQueued)
  }

  lemma RatioSign(a: nat, b: nat)
    requires b > 0
    ensures a as real / b as real >= 0.0
  {
    var q := a as real / b as real;
    assert q * b as real == a as real;
    if q < 0.0 {
      ProductSign(q, b as real);
    }
  }

  lemma ProductSign(q: real, b: real)
    requires q < 0.0 < b
    ensures q * b < 0.0
  {
  }

  function MemPct(m: Metrics): Percent {
    if m.memTotal > 0 then
      RatioSign(m.memAvailable, m.memTotal);
      m.memAvailable as real / m.memTotal as real * 100.0
    else 0.0
  }

  lemma ProductGrows(a: real, b: real, c: real)
    requires c > 0.0
    ensures a >= b <==> a * c >= b * c
  {
    if a < b {
      ProductSign(a - b, c);
    } else if a > b {
      ProductSign(b - a, c);
    }
  }

  /** When memory stops admission: the watermark is a share of the total, compared with what is available. A total of zero
      counts as nothing available. */
  lemma MemoryBlocksIff(m: Metrics, watermark: real)
    ensures MemPct(m) >= watermark <==>
            if m.memTotal > 0 then m.memAvailable as real * 100.0 >= watermark * m.memTotal as real else watermark <= 0.0
  {
    if m.memTotal > 0 {
      var total := m.memTotal as real;
      var q := m.memAvailable as real / total;
      assert q * total == m.memAvailable as real;
      ProductGrows(q * 100.0, watermark, total);
      assert q * 100.0 * total == m.memAvailable as real * 100.0;
    }
  }

  function Admission(s: State, metrics: Metrics): GovernorResult
    requires Closed(s)
  {
    Decide(s.config.policy, metrics.cpuPct, MemPct(metrics), |RunningList(s)|, |QueuedList(s)|)
  }

  // ----- the start phase -----

  /** What the start loop changes. */
  datatype Launch = Launch(table: Table, queue: seq<JobId>, dequeued: seq<JobId>, started: nat)

  ghost predicate QueueKnown(l: Launch) {
    forall id :: id in l.queue ==> id in l.table
  }

  function StartOne(l: Launch, now: u64, env: Env): (r: Launch)
    requires QueueKnown(l) && l.queue != []
    ensures QueueKnown(r) && r.table.Keys == l.table.Keys
  {
    var id := l.queue[0];
    var result := env.spawn(id);
    Launch(l.table[id := Start(l.table[id], now, result)], l.queue[1..], l.dequeued + [id],
           l.started + if result.SpawnOk? then 1 else 0)
  }

  /** The budgets of the start loop; `running` was counted before it. */
  datatype Budget = Budget(maxStarts: nat, maxConcurrent: nat, running: nat)

  predicate MayStart(l: Launch, b: Budget) {
    l.queue != [] && l.started < b.maxStarts && b.running + l.started < b.maxConcurrent
  }

  function StartLoop(l: Launch, now: u64, env: Env, b: Budget): (r: Launch)
    requires QueueKnown(l)
    ensures QueueKnown(r) && r.table.Keys == l.table.Keys
    decreases |l.queue|
  {
    if MayStart(l, b) then StartLoop(StartOne(l, now, env), now, env, b) else l
  }

  // ----- the scan phase -----

  function ScanOne(table: Table, id: JobId, now: u64, env: Env): (r: Table)
    requires id in table
    ensures r.Keys == table.Keys
  {
    table[id := Scan(table[id], now, env.probe(id))]
  }

  /** The table after the first k visits to the list `jobs`. */
  function ScanFirst(table: Table, jobs: seq<JobId>, cursor: nat, k: nat, now: u64, env: Env): (r: Table)
    requires (forall id :: id in jobs ==> id in table) && (k > 0 ==> jobs != [])
    ensures r.Keys == table.Keys
  {
    if k == 0 then table
    else
      ScanOne(ScanFirst(table, jobs, cursor, k - 1, now, env), jobs[Slot(cursor, k - 1, |jobs|)], now, env)
  }

  function Min(a: nat, b: nat): nat {
    if a < b then a else b
  }

  function CheckLimits(s: State, now: u64, maxScans: nat, env: Env): (r: State)
    requires Closed(s)
    ensures Closed(r)
  {
    var jobs := RunningList(s);
    if jobs == [] then s
    else
      RunningListIs(s);
      var checked := Min(|jobs|, maxScans);
      s.(table := ScanFirst(s.table, jobs, s.cursor, checked, now, env),
         scanLog := s.scanLog + Visits(jobs, s.cursor, checked),
         cursor := (s.cursor + checked) % |jobs|,
         scannedThisTick := checked)
  }

  // ----- the public calls -----

  /** State between the start phase and the scan phase of a tick. */
  function AfterStarts(s: State, now: u64, metrics: Metrics, maxStarts: nat, env: Env): (r: State)
    requires Closed(s)
    ensures Closed(r)
  {
    var running := |RunningList(s)|;
    var result := Admission(s, metrics);
    var l0 := Launch(s.table, s.queue, s.dequeued, 0);
    var l := if result.decision == START_NOW
             then StartLoop(l0, now, env, Budget(maxStarts, s.config.maxConcurrent, running)) else l0;
    s.(table := l.table, queue := l.queue, dequeued := l.dequeued, startedThisTick := l.started, scannedThisTick := 0,
       diagnostics := Diagnostics(result.decision, result.reason, result.retryAfterMs, now, running,
                                  |QueuedList(s)|))
  }

  function DoTick(s: State, now: u64, metrics: Metrics, maxStarts: nat, maxScans: nat, env: Env): (r: State)
    requires Closed(s)
    ensures Closed(r)
  {
    CheckLimits(AfterStarts(s, now, metrics, maxStarts, env), now, maxScans, env)
  }

  function DoDraw(s: State): State {
    s.(counter := s.counter + 1, pending := s.pending + {s.counter + 1})
  }

  /** The only call that may rearrange the table's iteration order. */
  function DoSubmit(s: State, id: JobId, limits: Limits, newOrder: seq<JobId>): State {
    s.(pending := s.pending - {id}, table := s.table[id := NewJob(limits)], order := newOrder,
       queue := s.queue + [id], history := s.history + [id])
  }

  function DoCancel(s: State, id: JobId, alive: bool, wallMs: u64): State {
    if id in s.table then s.(table := s.table[id := JobModel.Cancel(s.table[id], alive, wallMs)]) else s
  }

  function DoEnforce(s: State, id: JobId, cap: Cap): State
    requires id in s.table
  {
    s.(table := s.table[id := EnforceCap(s.table[id], cap)])
  }

  /** Submitting uses a ticket drawn earlier and only adds the new id to the iteration order; the enforcement routines are
      called on running jobs. */
  ghost predicate Enabled(s: State, a: Action) {
    match a
    case Submit(id, _, newOrder) => id in s.pending && Rearranges(newOrder, s.order, id)
    case Enforce(id, _) => id in s.table && s.table[id].status == RUNNING
    case _ => true
  }

  ghost predicate Rearranges(newOrder: seq<JobId>, order: seq<JobId>, id: JobId) {
    Distinct(newOrder) && forall x :: x in newOrder <==> x in order || x == id
  }

  function Next(s: State, a: Action): (r: State)
    requires Closed(s) && Enabled(s, a)
    ensures Closed(r)
  {
    match a
    case Draw => DoDraw(s)
    case Submit(id, limits, newOrder) => DoSubmit(s, id, limits, newOrder)
    case Cancel(id, alive, wallMs) => DoCancel(s, id, alive, wallMs)
    case Tick(now, metrics, maxStarts, maxScans, env) => DoTick(s, now, metrics, maxStarts, maxScans, env)
    case Check(now, maxScans, env) => CheckLimits(s, now, maxScans, env)
    case Enforce(id, cap) => DoEnforce(s, id, cap)
  }

  /** The actions can be performed one after the other from s. */
  ghost predicate Runnable(s: State, run: seq<Action>)
    requires Closed(s)
    decreases |run|
  {
    run == [] || (Enabled(s, run[0]) && Runnable(Next(s, run[0]), run[1..]))
  }

  ghost function After(s: State, run: seq<Action>): (r: State)
    requires Closed(s) && Runnable(s, run)
    ensures Closed(r)
    decreases |run|
  {
    if run == [] then s else After(Next(s, run[0]), run[1..])
  }

  // ----- selecting from the table -----

  lemma {:induction false} SelectInTable(order: seq<JobId>, table: Table, p: Status -> bool)
    requires forall id :: id in order ==> id in table
    ensures forall id :: id in Select(order, table, p) <==> id in order && p(table[id].status)
  {
    if order != [] {
      SelectInTable(order[..|order| - 1], table, p);
      assert order == order[..|order| - 1] + [order[|order| - 1]];
    }
  }

  lemma {:induction false} SelectDistinct(order: seq<JobId>, table: Table, p: Status -> bool)
    requires forall id :: id in order ==> id in table
    requires Distinct(order)
    ensures Distinct(Select(order, table, p))
  {
    if order != [] {
      SelectDistinct(order[..|order| - 1], table, p);
      SelectInTable(order[..|order| - 1], table, p);
    }
  }

  /** The list keeps the iteration order of the table. */
  lemma {:induction false} SelectInOrder(a: seq<JobId>, b: seq<JobId>, table: Table, p: Status -> bool)
    requires forall id :: id in a + b ==> id in table
    requires (forall id :: id in a ==> id in table) && (forall id :: id in b ==> id in table)
    ensures Select(a + b, table, p) == Select(a, table, p) + Select(b, table, p)
  {
    if b == [] {
      assert a + b == a;
    } else {
      var n := |b| - 1;
      assert (a + b)[..|a + b| - 1] == a + b[..n];
      SelectInOrder(a, b[..n], table, p);
    }
  }

  lemma RunningListIs(s: State)
    requires Closed(s)
    ensures forall id :: id in RunningList(s) <==> id in s.order && IsActive(s.table[id].status)
    ensures Distinct(s.order) ==> Distinct(RunningList(s))
  {
    SelectInTable(s.order, s.table, IsActive);
    if Distinct(s.order) {
      SelectDistinct(s.order, s.table, IsActive);
    }
  }

  lemma QueuedListIs(s: State)
    requires Closed(s)
    ensures forall id :: id in QueuedList(s) <==> id in s.order && s.table[id].status == QUEUED
    ensures Distinct(s.order) ==> Distinct(QueuedList(s))
  {
    SelectInTable(s.order, s.table, IsQueued);
    if Distinct(s.order) {
      SelectDistinct(s.order, s.table, IsQueued);
    }
  }
}
