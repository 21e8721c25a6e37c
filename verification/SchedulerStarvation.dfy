/** Why the running list must not keep changing for a time limit to be enforced: a job past its limit that no scan ever
    reaches, because between scans another job starts or ends just where the cursor then stands. */
module SchedulerStarvation {
  import opened Sequences
  import opened JobModel
  import opened RoundRobin
  import opened Scheduler
  import opened SchedulerInvariants
  import opened SchedulerLoad
  import opened SchedulerWitness
  import opened SchedulerFairness

  // ----- runs in which a submission leaves the order of the old entries alone -----

  ghost predicate InsertedAt(newOrder: seq<JobId>, order: seq<JobId>, id: JobId, i: nat) {
    i <= |order| && newOrder == order[..i] + [id] + order[i..]
  }

  /** The call does not rearrange the entries that are in the table already. */
  ghost predicate KeepsOrder(s: State, a: Action) {
    a.Submit? ==> exists i :: InsertedAt(a.newOrder, s.order, a.id, i)
  }

  ghost predicate OrderKept(s: State, run: seq<Action>)
    requires Closed(s) && Runnable(s, run)
    decreases |run|
  {
    run == [] || (KeepsOrder(s, run[0]) && OrderKept(Next(s, run[0]), run[1..]))
  }

  ghost predicate Orderly(s: State, run: seq<Action>)
    requires Closed(s)
  {
    Runnable(s, run) && OrderKept(s, run)
  }

  lemma OrderlyNone(s: State)
    requires Closed(s)
    ensures Orderly(s, []) && After(s, []) == s
  {
  }

  lemma {:induction false} OrderlyAppend(s: State, a: seq<Action>, b: seq<Action>)
    requires Closed(s) && Orderly(s, a) && Orderly(After(s, a), b)
    ensures Orderly(s, a + b) && After(s, a + b) == After(After(s, a), b)
    decreases |a|
  {
    hide Next, KeepsOrder, Enabled;
    if a == [] {
      assert a + b == b;
    } else {
      assert (a + b)[0] == a[0] && (a + b)[1..] == a[1..] + b;
      OrderlyAppend(Next(s, a[0]), a[1..], b);
    }
  }

  lemma OrderlyExtend(s: State, run: seq<Action>, a: Action)
    requires Closed(s) && Orderly(s, run) && Enabled(After(s, run), a)
    requires a.Submit? ==> KeepsOrder(After(s, run), a)
    ensures Orderly(s, run + [a]) && After(s, run + [a]) == Next(After(s, run), a)
  {
    hide Next, Enabled;
    RunStep(After(s, run), a);
    assert [a][1..] == [];
    OrderlyNone(Next(After(s, run), a));
    assert OrderKept(After(s, run), [a]);
    OrderlyAppend(s, run, [a]);
  }

  lemma InsertedInFront(order: seq<JobId>, id: JobId)
    ensures InsertedAt([id] + order, order, id, 0)
  {
    assert order[..0] == [] && order[0..] == order;
  }

  // ----- two running jobs -----

  /** Running, and past its limit at time 1. */
  ghost predicate Late(j: JobData) {
    j.status == RUNNING && j.startedAtMs + j.limits.maxRuntimeMs < 1
  }

  /** Running, and still within its limit at time 1. */
  ghost predicate Busy(j: JobData) {
    j.status == RUNNING && j.startedAtMs <= 1 <= j.startedAtMs + j.limits.maxRuntimeMs
  }

  /** The jobs of the list do not run. */
  ghost predicate Idle(table: Table, rest: seq<JobId>) {
    forall id :: id in rest ==> id in table && !IsActive(table[id].status)
  }

  /** The last two entries of the table run, and no other. */
  ghost predicate Pair(table: Table, order: seq<JobId>, rest: seq<JobId>, busy: JobId, late: JobId) {
    && late in table && busy in table && late != busy
    && Late(table[late]) && Busy(table[busy]) && Idle(table, rest)
    && order == rest + [busy, late]
  }

  ghost predicate TwoRun(s: State, rest: seq<JobId>, busy: JobId, late: JobId) {
    Inv(s) && Pair(s.table, s.order, rest, busy, late) && s.queue == []
  }

  /** A third job runs, the first entry of the table. */
  ghost predicate ThreeRun(s: State, extra: JobId, rest: seq<JobId>, busy: JobId, late: JobId) {
    && Inv(s) && Pair(s.table, rest + [busy, late], rest, busy, late) && s.queue == []
    && s.order == [extra] + (rest + [busy, late])
    && extra in s.table && s.table[extra].status == RUNNING && extra != late && extra != busy
  }

  lemma SelectOne(x: JobId, table: Table)
    requires x in table && IsActive(table[x].status)
    ensures Select([x], table, IsActive) == [x]
  {
    assert [x][..0] == [];
  }

  lemma {:induction false} SelectIdle(rest: seq<JobId>, table: Table)
    requires Idle(table, rest)
    ensures Select(rest, table, IsActive) == []
  {
    if rest != [] {
      SelectIdle(rest[..|rest| - 1], table);
    }
  }

  lemma SelectPair(table: Table, order: seq<JobId>, rest: seq<JobId>, busy: JobId, late: JobId)
    requires Pair(table, order, rest, busy, late)
    ensures (forall id :: id in order ==> id in table) && Select(order, table, IsActive) == [busy, late]
  {
    SelectIdle(rest, table);
    SelectOne(busy, table);
    SelectOne(late, table);
    hide Select;
    SelectInOrder([busy], [late], table, IsActive);
    assert [busy] + [late] == [busy, late];
    SelectInOrder(rest, [busy, late], table, IsActive);
  }

  lemma TwoList(s: State, rest: seq<JobId>, busy: JobId, late: JobId)
    requires TwoRun(s, rest, busy, late)
    ensures RunningList(s) == [busy, late]
  {
    hide Ledger, JobsOk, Select, Late, Busy, Idle;
    SelectPair(s.table, s.order, rest, busy, late);
  }

  lemma ThreeList(s: State, extra: JobId, rest: seq<JobId>, busy: JobId, late: JobId)
    requires ThreeRun(s, extra, rest, busy, late)
    ensures RunningList(s) == [extra, busy, late]
  {
    hide Ledger, JobsOk, Select, Late, Busy, Idle;
    SelectPair(s.table, rest + [busy, late], rest, busy, late);
    SelectOne(extra, s.table);
    SelectInOrder([extra], rest + [busy, late], s.table, IsActive);
  }

  // ----- scans that visit the busy job only -----

  lemma QuietScan(j: JobData, id: JobId)
    requires Busy(j)
    ensures Busy(Scan(j, 1, QuietEnv().probe(id)))
  {
    OverranIff(j, 1);
    ScanVerdict(j, 1, QuietEnv().probe(id));
    ScanKeepsStart(j, 1, QuietEnv().probe(id));
  }

  /** A scan of one job, with the busy job at the cursor: every other record stays as it is. */
  lemma ScanBusyOnly(m: State, busy: JobId)
    requires Inv(m) && busy in m.table && Busy(m.table[busy])
    requires RunningList(m) != [] && RunningList(m)[Slot(m.cursor, 0, |RunningList(m)|)] == busy
    ensures var r := CheckLimits(m, 1, 1, QuietEnv());
            && Inv(r) && r.order == m.order && r.queue == m.queue && r.config == m.config && r.table.Keys == m.table.Keys
            && Busy(r.table[busy]) && (forall id :: id in m.table && id != busy ==> r.table[id] == m.table[id])
            && r.cursor == (m.cursor + 1) % |RunningList(m)|
  {
    hide Scan, CheckLimits, Busy, Ledger, JobsOk, RunningList, QuietEnv, Slot;
    CheckLimitsInv(m, 1, 1, QuietEnv());
    QuietScan(m.table[busy], busy);
    var visited := CheckLimitsEffect(m, 1, 1, QuietEnv());
    assert visited == [busy];
  }

  lemma PairStays(table: Table, after: Table, order: seq<JobId>, rest: seq<JobId>, busy: JobId, late: JobId)
    requires Pair(table, order, rest, busy, late) && after.Keys == table.Keys && Busy(after[busy])
    requires forall id :: id in table && id != busy ==> after[id] == table[id]
    ensures Pair(after, order, rest, busy, late) && after[late] == table[late]
  {
    hide Late;
  }

  /** A tick that may start one job and scan one. */
  const TICK := Tick(1, Metrics(0.0, 0, 0), 1, 1, QuietEnv())

  /** Room for three running jobs, and for two waiting ones. */
  predicate Roomy(config: Config) {
    config.maxConcurrent >= 3 && config.policy.maxRunningJobs >= 3 && Admits(config, 2, false)
  }

  lemma StartNothing(s: State)
    requires Inv(s) && s.queue == []
    ensures var m := AfterStarts(s, 1, TICK.metrics, 1, QuietEnv());
            && Inv(m) && m.table == s.table && m.order == s.order && m.queue == [] && m.cursor == s.cursor
            && m.config == s.config
  {
    hide Start, AfterStarts, Ledger, JobsOk;
    AfterStartsEffect(s, 1, TICK.metrics, 1, QuietEnv());
    AfterStartsInv(s, 1, TICK.metrics, 1, QuietEnv());
    assert TakenBy(s, TICK.metrics, 1, QuietEnv()) == [];
  }

  /** With two jobs running and an even cursor, a tick scans the busy one. */
  lemma TickOnTwo(s: State, rest: seq<JobId>, busy: JobId, late: JobId)
    requires TwoRun(s, rest, busy, late) && s.cursor % 2 == 0
    ensures var r := Next(s, TICK);
            && TwoRun(r, rest, busy, late) && r.cursor == 1 && r.config == s.config && r.table[late] == s.table[late]
  {
    hide Pair, Ledger, JobsOk, AfterStarts, CheckLimits, RunningList, Busy, Late;
    StartNothing(s);
    var m := AfterStarts(s, 1, TICK.metrics, 1, QuietEnv());
    TwoList(m, rest, busy, late);
    PairHas(m.table, m.order, rest, busy, late);
    ScanBusyOnly(m, busy);
    PairStays(m.table, CheckLimits(m, 1, 1, QuietEnv()).table, m.order, rest, busy, late);
  }

  lemma PairHas(table: Table, order: seq<JobId>, rest: seq<JobId>, busy: JobId, late: JobId)
    requires Pair(table, order, rest, busy, late)
    ensures busy in table && late in table && Busy(table[busy]) && Late(table[late]) && busy != late
  {
  }

  /** A job has been submitted in front of the others and waits. */
  ghost predicate OneWaits(s: State, extra: JobId, rest: seq<JobId>, busy: JobId, late: JobId) {
    && Inv(s) && Pair(s.table, rest + [busy, late], rest, busy, late) && s.queue == [extra]
    && s.order == [extra] + (rest + [busy, late])
    && extra in s.table && s.table[extra] == NewJob(LIMITS) && extra !in rest && extra != late && extra != busy
  }

  lemma PairAndNewJob(table: Table, order: seq<JobId>, id: JobId, rest: seq<JobId>, busy: JobId, late: JobId)
    requires Pair(table, order, rest, busy, late) && id !in table
    ensures Pair(table[id := NewJob(LIMITS)], rest + [busy, late], rest, busy, late) && order == rest + [busy, late]
    ensures id !in rest && id != late && id != busy && late in table
  {
    hide Late, Busy;
  }

  lemma SubmitInFront(s: State, id: JobId, rest: seq<JobId>, busy: JobId, late: JobId)
    requires TwoRun(s, rest, busy, late) && id in s.pending
    ensures var submit := Submit(id, LIMITS, [id] + s.order);
            && Enabled(s, submit) && KeepsOrder(s, submit)
            && OneWaits(Next(s, submit), id, rest, busy, late) && Next(s, submit).cursor == s.cursor
            && Next(s, submit).config == s.config && Next(s, submit).table[late] == s.table[late]
  {
    PendingIsNew(s, id);
    hide PlaceOk, Ledger, JobsOk, Pair, Rearranges, InsertedAt;
    InsertedInFront(s.order, id);
    PairAndNewJob(s.table, s.order, id, rest, busy, late);
    NextInv(s, Submit(id, LIMITS, [id] + s.order));
  }

  lemma PendingIsNew(s: State, id: JobId)
    requires Inv(s) && id in s.pending
    ensures id !in s.table && id !in s.order && Rearranges([id] + s.order, s.order, id)
  {
    var newOrder := [id] + s.order;
    forall i, j | 0 <= i < j < |newOrder|
      ensures newOrder[i] != newOrder[j]
    {
      assert newOrder[j] == s.order[j - 1];
    }
  }

  lemma WaitingIsIdle(s: State, extra: JobId, rest: seq<JobId>, busy: JobId, late: JobId)
    requires OneWaits(s, extra, rest, busy, late)
    ensures Pair(s.table, s.order, [extra] + rest, busy, late)
  {
    hide Late, Busy, Ledger, JobsOk;
    assert s.order == [extra] + rest + [busy, late];
  }

  /** A tick takes the one waiting job. */
  lemma OneTaken(s: State, extra: JobId, rest: seq<JobId>, busy: JobId, late: JobId)
    requires OneWaits(s, extra, rest, busy, late) && Roomy(s.config)
    ensures TakenBy(s, TICK.metrics, 1, QuietEnv()) == [extra]
  {
    hide Pair, PlaceOk, Ledger, JobsOk, Select;
    WaitingIsIdle(s, extra, rest, busy, late);
    SelectPair(s.table, s.order, [extra] + rest, busy, late);
    CountsAreCardinalities(s);
    QueuedAreInQueue(s);
    SubsetCardinality(QueuedIds(s.table), {extra});
    AllTaken(s.queue, 0, Budget(1, s.config.maxConcurrent, 2));
  }

  lemma QueuedAreInQueue(s: State)
    requires Inv(s)
    ensures forall id :: id in QueuedIds(s.table) ==> id in s.queue
  {
    hide PlaceOk, Ledger;
    forall id | id in QueuedIds(s.table)
      ensures id in s.queue
    {
      StatusByPlace(s.table[id], id in s.queue);
    }
  }

  lemma StartExtra(s: State, extra: JobId, rest: seq<JobId>, busy: JobId, late: JobId)
    requires OneWaits(s, extra, rest, busy, late) && Roomy(s.config)
    ensures var m := AfterStarts(s, 1, TICK.metrics, 1, QuietEnv());
            && ThreeRun(m, extra, rest, busy, late) && m.cursor == s.cursor && m.config == s.config
            && m.table[late] == s.table[late]
  {
    hide AfterStarts, TakenBy, Ledger, JobsOk, Late, Busy, Roomy;
    OneTaken(s, extra, rest, busy, late);
    AfterStartsEffect(s, 1, TICK.metrics, 1, QuietEnv());
    AfterStartsInv(s, 1, TICK.metrics, 1, QuietEnv());
  }

  /** With a third job running in front and the cursor at 1, a tick scans the busy one. */
  lemma TickOnThree(s: State, extra: JobId, rest: seq<JobId>, busy: JobId, late: JobId)
    requires OneWaits(s, extra, rest, busy, late) && Roomy(s.config) && s.cursor == 1
    ensures var r := Next(s, TICK);
            && ThreeRun(r, extra, rest, busy, late) && r.cursor == 2 && r.config == s.config
            && r.table[late] == s.table[late]
  {
    hide Pair, Ledger, JobsOk, AfterStarts, CheckLimits, RunningList, Busy, Late, Roomy;
    StartExtra(s, extra, rest, busy, late);
    var m := AfterStarts(s, 1, TICK.metrics, 1, QuietEnv());
    ThreeList(m, extra, rest, busy, late);
    PairHas(m.table, rest + [busy, late], rest, busy, late);
    ScanBusyOnly(m, busy);
    PairStays(m.table, CheckLimits(m, 1, 1, QuietEnv()).table, rest + [busy, late], rest, busy, late);
  }

  lemma CancelExtra(s: State, extra: JobId, rest: seq<JobId>, busy: JobId, late: JobId)
    requires ThreeRun(s, extra, rest, busy, late)
    ensures var r := Next(s, Action.Cancel(extra, false, 0));
            && TwoRun(r, [extra] + rest, busy, late) && r.cursor == s.cursor && r.config == s.config
            && r.table[late] == s.table[late]
  {
    hide PlaceOk, Ledger, JobsOk, Late, Busy;
    NextInv(s, Action.Cancel(extra, false, 0));
    assert s.order == [extra] + rest + [busy, late];
  }

  lemma DrawKeepsTwo(s: State, rest: seq<JobId>, busy: JobId, late: JobId)
    requires TwoRun(s, rest, busy, late)
    ensures var r := Next(s, Draw);
            && TwoRun(r, rest, busy, late) && r.table == s.table && r.cursor == s.cursor && r.config == s.config
            && s.counter + 1 in r.pending
  {
    hide Pair, Ledger, JobsOk;
    NextInv(s, Draw);
  }

  // ----- rounds of two scans -----

  /** Every scan has budget 1 and comes at time 1. */
  ghost predicate OneAtATime(run: seq<Action>) {
    forall a :: a in run && Scans(a) ==> a.maxScans == 1 && a.now == 1
  }

  /** How one round ends: as it began, but for one more idle job. */
  ghost predicate RoundDone(s: State, run: seq<Action>, rest: seq<JobId>, busy: JobId, late: JobId)
    requires Closed(s)
  {
    && Orderly(s, run) && TwoRun(After(s, run), rest, busy, late) && After(s, run).cursor % 2 == 0
    && late in s.table && After(s, run).config == s.config && After(s, run).table[late] == s.table[late]
  }

  /** A scan of two jobs, a submission, a scan of three jobs, and the cancellation of the third. */
  lemma Round(s: State, rest: seq<JobId>, busy: JobId, late: JobId) returns (run: seq<Action>, more: seq<JobId>)
    requires TwoRun(s, rest, busy, late) && s.cursor % 2 == 0 && Roomy(s.config)
    ensures RoundDone(s, run, more, busy, late) && ScanCount(run) == 2 && OneAtATime(run)
  {
    hide Pair, PlaceOk, Ledger, JobsOk, Roomy, DoTick, DoSubmit, DoCancel, KeepsOrder;
    PairHas(s.table, s.order, rest, busy, late);
    OrderlyNone(s);
    TickOnTwo(s, rest, busy, late);
    OrderlyExtend(s, [], TICK);
    var s1 := Next(s, TICK);
    DrawKeepsTwo(s1, rest, busy, late);
    OrderlyExtend(s, [] + [TICK], Draw);
    var s2 := Next(s1, Draw);
    var id := s1.counter + 1;
    SubmitInFront(s2, id, rest, busy, late);
    var submit := Submit(id, LIMITS, [id] + s2.order);
    OrderlyExtend(s, [] + [TICK] + [Draw], submit);
    TickOnThree(Next(s2, submit), id, rest, busy, late);
    OrderlyExtend(s, [] + [TICK] + [Draw] + [submit], TICK);
    var s4 := Next(Next(s2, submit), TICK);
    CancelExtra(s4, id, rest, busy, late);
    OrderlyExtend(s, [] + [TICK] + [Draw] + [submit] + [TICK], Action.Cancel(id, false, 0));
    more := [id] + rest;
    run := [] + [TICK] + [Draw] + [submit] + [TICK] + [Action.Cancel(id, false, 0)];
    TwoScans(run);
  }

  lemma TwoScans(run: seq<Action>)
    requires |run| == 5 && run[0] == TICK && run[1] == Draw && run[2].Submit? && run[3] == TICK && run[4].Cancel?
    ensures ScanCount(run) == 2 && OneAtATime(run)
  {
    assert run[1..][0] == Draw && run[1..][1..] == run[2..];
    assert run[2..][0] == run[2] && run[2..][1..] == run[3..];
    assert run[3..][0] == TICK && run[3..][1..] == run[4..];
    assert run[4..][0] == run[4] && run[4..][1..] == [];
    assert ScanCount(run[4..]) == 0 && ScanCount(run[3..]) == 1 && ScanCount(run[2..]) == 1 && ScanCount(run[1..]) == 1;
  }

  lemma {:induction false} ScanCountConcat(a: seq<Action>, b: seq<Action>)
    ensures ScanCount(a + b) == ScanCount(a) + ScanCount(b)
  {
    if a == [] {
      assert a + b == b;
    } else {
      assert (a + b)[0] == a[0] && (a + b)[1..] == a[1..] + b;
      ScanCountConcat(a[1..], b);
    }
  }

  lemma {:induction false} Rounds(s: State, rest: seq<JobId>, busy: JobId, late: JobId, n: nat)
    returns (run: seq<Action>, more: seq<JobId>)
    requires TwoRun(s, rest, busy, late) && s.cursor % 2 == 0 && Roomy(s.config)
    ensures RoundDone(s, run, more, busy, late) && ScanCount(run) == 2 * n && OneAtATime(run)
    decreases n
  {
    hide Pair, Ledger, JobsOk, Roomy, Next, OrderKept;
    if n == 0 {
      run, more := [], rest;
      PairHas(s.table, s.order, rest, busy, late);
      OrderlyNone(s);
    } else {
      var first, longer := Round(s, rest, busy, late);
      var others;
      others, more := Rounds(After(s, first), longer, busy, late, n - 1);
      OrderlyAppend(s, first, others);
      run := first + others;
      ScanCountConcat(first, others);
    }
  }

  // ----- a run that gets there -----

  const PATIENT := Limits(1, 0, 0)

  /** Two submissions, of a job with no time to run and, in front of it, of one that may run for a millisecond. */
  lemma TwoSubmitted(config: Config, counter: nat) returns (run: seq<Action>)
    ensures Orderly(Init(config, counter), run)
    ensures var s := After(Init(config, counter), run);
            && s.config == config && s.cursor == 0
            && s.order == [counter + 2, counter + 1] && s.queue == [counter + 1, counter + 2]
            && s.table == map[counter + 1 := NewJob(LIMITS), counter + 2 := NewJob(PATIENT)]
  {
    hide PlaceOk, JobsOk, InsertedAt, CheckLimits, AfterStarts;
    var s, late, busy := Init(config, counter), counter + 1, counter + 2;
    OrderlyNone(s);
    OrderlyExtend(s, [], Draw);
    InsertedInFront([], late);
    var submit := Submit(late, LIMITS, [late] + []);
    OrderlyExtend(s, [] + [Draw], submit);
    OrderlyExtend(s, [] + [Draw] + [submit], Draw);
    InsertedInFront([late] + [], busy);
    run := [] + [Draw] + [submit] + [Draw];
    OrderlyExtend(s, run, Submit(busy, PATIENT, [busy] + ([late] + [])));
    run := run + [Submit(busy, PATIENT, [busy] + ([late] + []))];
  }

  /** The tick that starts both, at time 0, and scans none. */
  const START := Tick(0, Metrics(0.0, 0, 0), 2, 0, QuietEnv())

  lemma BothTaken(s: State, late: JobId, busy: JobId)
    requires Inv(s) && late != busy && s.queue == [late, busy] && Roomy(s.config)
    requires s.table == map[late := NewJob(LIMITS), busy := NewJob(PATIENT)]
    ensures TakenBy(s, START.metrics, 2, QuietEnv()) == s.queue
  {
    hide PlaceOk, JobsOk, Ledger;
    CountsAreCardinalities(s);
    assert RunningIds(s.table) == {} && QueuedIds(s.table) == {late, busy};
    AllTaken(s.queue, 0, Budget(2, s.config.maxConcurrent, 0));
  }

  lemma StartedPair(late: JobId, busy: JobId, table: Table)
    requires late != busy && table.Keys == {late, busy}
    requires table[late] == Start(NewJob(LIMITS), 0, QuietEnv().spawn(late))
    requires table[busy] == Start(NewJob(PATIENT), 0, QuietEnv().spawn(busy))
    ensures Pair(table, [busy, late], [], busy, late)
  {
    assert [] + [busy, late] == [busy, late];
  }

  lemma BothStart(s: State, late: JobId, busy: JobId)
    requires Inv(s) && late != busy && s.order == [busy, late] && s.queue == [late, busy] && Roomy(s.config)
    requires s.table == map[late := NewJob(LIMITS), busy := NewJob(PATIENT)] && s.cursor == 0
    ensures var r := Next(s, START);
            TwoRun(r, [], busy, late) && r.cursor == 0 && r.config == s.config && Late(r.table[late])
  {
    hide PlaceOk, JobsOk, Ledger, TakenBy, Start, Pair, QuietEnv, AfterStarts, CheckLimits, Visits, Roomy, RunningList, Late;
    BothTaken(s, late, busy);
    AfterStartsEffect(s, 0, START.metrics, 2, START.env);
    AfterStartsInv(s, 0, START.metrics, 2, START.env);
    var m := AfterStarts(s, 0, START.metrics, 2, START.env);
    CheckLimitsInv(m, 0, 0, START.env);
    var visited := CheckLimitsEffect(m, 0, 0, START.env);
    assert visited == [] && m.queue == [];
    StartedPair(late, busy, m.table);
    PairHas(m.table, [busy, late], [], busy, late);
    TwoList(m, [], busy, late);
    assert Next(s, START).table == m.table;
  }

  /** For every n there is a run with 2 * n scans of budget 1 after the deadline of a job, which it leaves as they found it.
      The old entries of the table are never rearranged: before every second scan a job starts in front of the others, and
      it is cancelled again after that scan, so that the running list is three and two jobs long by turns. */
  lemma OverrunSkippedForEver(config: Config, counter: nat, n: nat)
    returns (setup: seq<Action>, rounds: seq<Action>, late: JobId)
    requires Roomy(config)
    ensures Orderly(Init(config, counter), setup + rounds) && Orderly(Init(config, counter), setup)
    ensures ScanCount(rounds) == 2 * n && OneAtATime(rounds)
    ensures var s := After(Init(config, counter), setup);
            && late in s.table && s.table[late].status == RUNNING && AllPastDeadline(rounds, s.table[late])
            && late in After(Init(config, counter), setup + rounds).table
            && After(Init(config, counter), setup + rounds).table[late] == s.table[late]
  {
    hide PlaceOk, Ledger, JobsOk, Roomy, Idle, Next, OrderKept;
    late := counter + 1;
    var s := Init(config, counter);
    InitInv(config, counter);
    setup := TwoSubmitted(config, counter);
    RunInv(s, setup);
    BothStart(After(s, setup), late, counter + 2);
    OrderlyExtend(s, setup, START);
    setup := setup + [START];
    var more;
    rounds, more := Rounds(After(s, setup), [], counter + 2, late, n);
    OrderlyAppend(s, setup, rounds);
  }
}
