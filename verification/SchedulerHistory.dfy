/** FIFO order, conservation of jobs, lifecycles and cancellation in the queue, over whole runs. */
module SchedulerHistory {
  import opened Wrappers
  import opened Sequences
  import opened ResourceGovernor
  import opened JobModel
  import opened Scheduler
  import opened SchedulerInvariants

  // ----- order and conservation -----

  /** Nothing recorded in s is forgotten or reordered in r. */
  ghost predicate Extends(s: State, r: State) {
    s.history <= r.history && s.dequeued <= r.dequeued && s.table.Keys <= r.table.Keys
  }

  lemma StepExtends(s: State, a: Action)
    requires Inv(s) && Enabled(s, a)
    ensures Extends(s, Next(s, a))
  {
    if a.Tick? {
      TickOnQueue(s, a.now, a.metrics, a.maxStarts, a.maxScans, a.env);
    } else if a.Check? {
      var visited := CheckLimitsEffect(s, a.now, a.maxScans, a.env);
    }
  }

  lemma {:induction false} RunExtends(s: State, run: seq<Action>)
    requires Inv(s) && Runnable(s, run)
    ensures Extends(s, After(s, run))
    decreases |run|
  {
    if run != [] {
      StepExtends(s, run[0]);
      NextInv(s, run[0]);
      RunExtends(Next(s, run[0]), run[1..]);
    }
  }

  /** In every reachable state jobs have left the queue in submission order, every submitted job is in the table under an
      id of its own, and a job is QUEUED exactly when it is in the queue and not cancelled. */
  lemma FifoAndConservation(config: Config, counter: nat, run: seq<Action>)
    requires Runnable(Init(config, counter), run)
    ensures var s := After(Init(config, counter), run);
            && s.history == s.dequeued + s.queue
            && Distinct(s.history)
            && (forall id :: id in s.history <==> id in s.table)
            && (forall id :: id in s.table ==>
                  (s.table[id].status == QUEUED <==> id in s.queue && s.table[id].status != CANCELLED))
  {
    InitInv(config, counter);
    RunInv(Init(config, counter), run);
    var s := After(Init(config, counter), run);
    forall id | id in s.table
      ensures s.table[id].status == QUEUED <==> id in s.queue && s.table[id].status != CANCELLED
    {
      StatusByPlace(s.table[id], id in s.queue);
    }
  }

  /** The ids submitted by a run, in order. */
  function Submitted(run: seq<Action>): seq<JobId> {
    if run == [] then []
    else (if run[0].Submit? then [run[0].id] else []) + Submitted(run[1..])
  }

  /** How many tickets it draws. */
  function Draws(run: seq<Action>): nat {
    if run == [] then 0 else (if run[0].Draw? then 1 else 0) + Draws(run[1..])
  }

  lemma TickOnLedger(s: State, a: Action)
    requires Inv(s) && a.Tick?
    ensures var r := Next(s, a);
            r.history == s.history && r.counter == s.counter && r.pending == s.pending
  {
    hide Start, Scan, PlaceOk, Ledger, JobsOk, StartLoop, CheckLimits, Admission, RunningList, QueuedList;
    AfterStartsInv(s, a.now, a.metrics, a.maxStarts, a.env);
    var visited := CheckLimitsEffect(AfterStarts(s, a.now, a.metrics, a.maxStarts, a.env), a.now, a.maxScans, a.env);
  }

  lemma StepOnLedger(s: State, a: Action)
    requires Inv(s) && Enabled(s, a)
    ensures var r := Next(s, a);
            && r.history == s.history + (if a.Submit? then [a.id] else [])
            && r.counter == s.counter + (if a.Draw? then 1 else 0)
            && r.pending == s.pending + (if a.Draw? then {s.counter + 1} else {}) - (if a.Submit? then {a.id} else {})
            && (a.Submit? ==> a.id in s.pending && a.id <= s.counter)
  {
    hide PlaceOk, JobsOk, Distinct, DoTick, CheckLimits, EnforceCap, JobModel.Cancel;
    if a.Tick? {
      TickOnLedger(s, a);
    } else if a.Check? {
      var visited := CheckLimitsEffect(s, a.now, a.maxScans, a.env);
    }
  }

  lemma {:induction false} RunOnLedger(s: State, run: seq<Action>)
    requires Inv(s) && Runnable(s, run)
    ensures var r := After(s, run);
            && r.history == s.history + Submitted(run) && r.counter == s.counter + Draws(run)
            && (forall id :: id in r.pending <==> (id in s.pending || s.counter < id <= r.counter) && id !in Submitted(run))
    decreases |run|
  {
    hide Next, Ledger, JobsOk, Enabled;
    if run != [] {
      StepOnLedger(s, run[0]);
      NextInv(s, run[0]);
      RunOnLedger(Next(s, run[0]), run[1..]);
      ConcatAssoc(s.history, if run[0].Submit? then [run[0].id] else [], Submitted(run[1..]));
      var first: seq<JobId> := if run[0].Submit? then [run[0].id] else [];
      assert forall id :: id in Submitted(run) <==> id in first || id in Submitted(run[1..]);
    }
  }

  /** After every run the submissions recorded are those of the run, in its order, and the tickets still out are those drawn
      and not yet submitted. */
  lemma SubmissionsAreRecorded(config: Config, counter: nat, run: seq<Action>)
    requires Runnable(Init(config, counter), run)
    ensures var s := After(Init(config, counter), run);
            && s.history == Submitted(run) && s.counter == counter + Draws(run)
            && (forall id :: id in s.pending <==> counter < id <= s.counter && id !in Submitted(run))
  {
    InitInv(config, counter);
    RunOnLedger(Init(config, counter), run);
    assert [] + Submitted(run) == Submitted(run);
  }

  // ----- lifecycle -----

  /** The job has left the queue and its end has been recorded. */
  ghost predicate Settled(s: State, id: JobId) {
    id in s.dequeued && id in s.table && s.table[id].status != RUNNING
  }

  lemma StepKeepsSettled(s: State, a: Action, id: JobId)
    requires Inv(s) && Enabled(s, a) && Settled(s, id)
    ensures Settled(Next(s, a), id) && Next(s, a).table[id] == s.table[id]
  {
    hide Start, Scan, PlaceOk;
    SplitDisjoint(s.dequeued, s.queue);
    StatusByPlace(s.table[id], false);
    match a
    case Draw =>
    case Submit(_, _, _) =>
    case Cancel(_, _, _) =>
    case Tick(now, metrics, maxStarts, maxScans, env) =>
      TickOnQueue(s, now, metrics, maxStarts, maxScans, env);
      TickOnJob(s, now, metrics, maxStarts, maxScans, env, id);
    case Check(now, maxScans, env) =>
      var visited := CheckLimitsEffect(s, now, maxScans, env);
    case Enforce(_, _) =>
  }

  /** A terminal status reached after leaving the queue is final: no later call changes anything about the job. */
  lemma {:induction false} SettledForGood(s: State, run: seq<Action>, id: JobId)
    requires Inv(s) && Runnable(s, run) && Settled(s, id)
    ensures Settled(After(s, run), id) && After(s, run).table[id] == s.table[id]
    decreases |run|
  {
    if run != [] {
      StepKeepsSettled(s, run[0], id);
      NextInv(s, run[0]);
      SettledForGood(Next(s, run[0]), run[1..], id);
    }
  }

  // ----- cancelling a queued job -----

  /** A tick takes the job at position i of the queue exactly when jobs are admitted and the spawns accepted before it
      leave room in both budgets. */
  ghost predicate WillBeTaken(s: State, i: nat, metrics: Metrics, maxStarts: nat, env: Env)
    requires Closed(s) && i < |s.queue|
  {
    && Admission(s, metrics).decision == START_NOW
    && HasRoom(Budget(maxStarts, s.config.maxConcurrent, |RunningList(s)|), Successes(s.queue, i, env))
  }

  lemma TakenExactly(s: State, i: nat, now: u64, metrics: Metrics, maxStarts: nat, maxScans: nat, env: Env)
    requires Inv(s) && i < |s.queue|
    ensures var r := DoTick(s, now, metrics, maxStarts, maxScans, env);
            && (WillBeTaken(s, i, metrics, maxStarts, env) <==> s.queue[i] in r.dequeued)
            && (s.queue[i] in r.dequeued <==> s.queue[i] !in r.queue)
  {
    hide Start, Scan, PlaceOk, Distinct, Ledger, JobsOk, TakenBy;
    TickOnQueue(s, now, metrics, maxStarts, maxScans, env);
    TakenByIff(s, i, metrics, maxStarts, env);
    LedgerDistinct(s);
    SplitAt(s.dequeued, s.queue, |TakenBy(s, metrics, maxStarts, env)|, i);
  }

  lemma LedgerDistinct(s: State)
    requires Inv(s)
    ensures Distinct(s.dequeued + s.queue)
  {
  }

  lemma TakenByIff(s: State, i: nat, metrics: Metrics, maxStarts: nat, env: Env)
    requires Closed(s) && i < |s.queue|
    ensures i < |TakenBy(s, metrics, maxStarts, env)| <==> WillBeTaken(s, i, metrics, maxStarts, env)
    ensures TakenBy(s, metrics, maxStarts, env) == s.queue[..|TakenBy(s, metrics, maxStarts, env)|]
  {
    TakenIff(s.queue, 0, env, Budget(maxStarts, s.config.maxConcurrent, |RunningList(s)|), i);
  }

  lemma SplitAt(a: seq<JobId>, b: seq<JobId>, d: nat, i: nat)
    requires Distinct(a + b) && d <= |b| && i < |b|
    ensures b[i] in a + b[..d] <==> i < d
    ensures b[i] in b[d..] <==> i >= d
    ensures b[i] in b[..d] <==> i < d
  {
    SplitDisjoint(a, b);
    SuffixDistinct(a, b);
    assert i < d ==> b[..d][i] == b[i];
    assert i >= d ==> b[d..][i - d] == b[i];
  }

  /** Cancelling a job that is still queued does not keep it from starting: it stays CANCELLED through a tick if and only
      if the tick does not reach it in the queue. */
  lemma QueuedCancellationLastsIff(s: State, i: nat, now: u64, metrics: Metrics, maxStarts: nat, maxScans: nat, env: Env)
    requires Inv(s) && i < |s.queue| && s.table[s.queue[i]].status == CANCELLED
    ensures DoTick(s, now, metrics, maxStarts, maxScans, env).table[s.queue[i]].status == CANCELLED <==>
            !WillBeTaken(s, i, metrics, maxStarts, env)
  {
    hide Start, Scan, PlaceOk;
    var id := s.queue[i];
    TakenExactly(s, i, now, metrics, maxStarts, maxScans, env);
    TickOnQueue(s, now, metrics, maxStarts, maxScans, env);
    TickOnJob(s, now, metrics, maxStarts, maxScans, env, id);
    SplitDisjoint(s.dequeued, s.queue);
    StartKeepsOk(s.table[id], now, env.spawn(id));
    ScanNeverCancels(Start(s.table[id], now, env.spawn(id)), now, env.probe(id));
  }

  lemma ScanNeverCancels(j: JobData, now: u64, p: Probe)
    requires j.status != CANCELLED
    ensures Scan(j, now, p).status != CANCELLED
  {
  }
}
