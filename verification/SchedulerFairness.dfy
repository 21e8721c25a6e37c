/** Time limits and the round-robin scan, over whole runs. */
module SchedulerFairness {
  import opened Wrappers
  import opened Sequences
  import opened JobModel
  import opened RoundRobin
  import opened Scheduler
  import opened SchedulerInvariants
  import opened SchedulerHistory
  import opened JobStory
  import opened SchedulerStory

  // ----- the clock -----

  /** A scan that is given a time before a job's start ends the job as TIMEOUT, however short a time it has run, unless it
      has exited or its limit reaches round the clock. */
  lemma StaleTimeEndsJob(j: JobData, now: u64, p: Probe)
    requires j.status == RUNNING && now < j.startedAtMs && !(j.processGroup > 0 && p.wait.Reaped?)
    ensures Scan(j, now, p).status == TIMEOUT <==> j.startedAtMs - now < TWO_TO_THE_64 - j.limits.maxRuntimeMs
  {
    ScanVerdict(j, now, p);
    OverranIff(j, now);
  }

  /** Relative to the latest time given: running jobs started no later, and jobs timed out for a reason. */
  ghost predicate TimeOk(j: JobData, latest: u64) {
    && (j.status == RUNNING ==> j.startedAtMs <= latest)
    && (j.status == TIMEOUT ==> j.startedAtMs + j.limits.maxRuntimeMs < j.endedAtMs)
  }

  ghost predicate ClockOk(s: State, latest: u64) {
    forall id :: id in s.table ==> TimeOk(s.table[id], latest)
  }

  /** The time a call is given, or the latest one given before it. */
  function TimeOf(a: Action, latest: u64): u64 {
    match a
    case Tick(now, _, _, _, _) => now
    case Check(now, _, _) => now
    case Enforce(_, TimeLimit(now)) => now
    case Enforce(_, ProcessCap(now, _, _)) => now
    case _ => latest
  }

  ghost predicate Nondecreasing(run: seq<Action>, from: u64) {
    run == [] || (from <= TimeOf(run[0], from) && Nondecreasing(run[1..], TimeOf(run[0], from)))
  }

  /** The last time any call of the run was given. */
  function LastTime(run: seq<Action>, from: u64): u64 {
    if run == [] then from else LastTime(run[1..], TimeOf(run[0], from))
  }

  lemma ScanKeepsTime(j: JobData, now: u64, p: Probe)
    requires TimeOk(j, now) && j.status == RUNNING
    ensures TimeOk(Scan(j, now, p), now)
  {
    OverranIff(Read(j, p), now);
  }

  lemma StartKeepsTime(j: JobData, now: u64, r: SpawnResult)
    ensures TimeOk(Start(j, now, r), now)
  {
  }

  lemma EnforceKeepsTime(s: State, id: JobId, cap: Cap, latest: u64)
    requires Inv(s) && id in s.table && s.table[id].status == RUNNING
    requires TimeOk(s.table[id], latest) && latest <= TimeOf(Enforce(id, cap), latest)
    ensures TimeOk(EnforceCap(s.table[id], cap), TimeOf(Enforce(id, cap), latest))
  {
    OverranIff(s.table[id], TimeOf(Enforce(id, cap), latest));
  }

  lemma CheckKeepsTime(s: State, now: u64, maxScans: nat, env: Env)
    requires Inv(s) && ClockOk(s, now)
    ensures ClockOk(CheckLimits(s, now, maxScans, env), now)
  {
    hide Scan, PlaceOk, Ledger;
    var visited := CheckLimitsEffect(s, now, maxScans, env);
    forall id | id in s.table
      ensures TimeOk(CheckLimits(s, now, maxScans, env).table[id], now)
    {
      if id in visited {
        ScanKeepsTime(s.table[id], now, env.probe(id));
      }
    }
  }

  lemma StartsKeepTime(s: State, a: Action, latest: u64)
    requires Inv(s) && ClockOk(s, latest) && a.Tick? && latest <= a.now
    ensures ClockOk(AfterStarts(s, a.now, a.metrics, a.maxStarts, a.env), a.now)
  {
    hide Start, PlaceOk, Ledger;
    AfterStartsEffect(s, a.now, a.metrics, a.maxStarts, a.env);
    var m := AfterStarts(s, a.now, a.metrics, a.maxStarts, a.env);
    forall id | id in m.table
      ensures TimeOk(m.table[id], a.now)
    {
      StartKeepsTime(s.table[id], a.now, a.env.spawn(id));
    }
  }

  lemma StepKeepsTime(s: State, a: Action, latest: u64)
    requires Inv(s) && Enabled(s, a) && ClockOk(s, latest) && latest <= TimeOf(a, latest)
    ensures ClockOk(Next(s, a), TimeOf(a, latest))
  {
    hide PlaceOk, Ledger, AfterStarts, CheckLimits, EnforceCap;
    match a
    case Draw =>
    case Submit(_, _, _) =>
    case Cancel(_, _, _) =>
    case Tick(now, metrics, maxStarts, maxScans, env) =>
      StartsKeepTime(s, a, latest);
      AfterStartsInv(s, now, metrics, maxStarts, env);
      CheckKeepsTime(AfterStarts(s, now, metrics, maxStarts, env), now, maxScans, env);
    case Check(now, maxScans, env) => CheckKeepsTime(s, now, maxScans, env);
    case Enforce(id, cap) => EnforceKeepsTime(s, id, cap, latest);
  }

  lemma {:induction false} RunKeepsTime(s: State, run: seq<Action>, latest: u64)
    requires Inv(s) && Runnable(s, run) && ClockOk(s, latest) && Nondecreasing(run, latest)
    ensures ClockOk(After(s, run), LastTime(run, latest))
    decreases |run|
  {
    if run != [] {
      StepKeepsTime(s, run[0], latest);
      NextInv(s, run[0]);
      RunKeepsTime(Next(s, run[0]), run[1..], TimeOf(run[0], latest));
    }
  }

  /** When a spawned job was taken from the queue, according to the run. */
  ghost predicate TakenAt(config: Config, counter: nat, run: seq<Action>, id: JobId, at: u64)
    requires Runnable(Init(config, counter), run)
  {
    var took := TookIn(Story(Init(config, counter), run, id));
    took.Some? && took.value.0 == at && took.value.1.SpawnOk?
  }

  /** The start time of every spawned job is the time of the tick that took it. */
  lemma StartIsTaken(config: Config, counter: nat, run: seq<Action>, id: JobId)
    requires Runnable(Init(config, counter), run) && id in After(Init(config, counter), run).table
    ensures var j := After(Init(config, counter), run).table[id];
            j.status == RUNNING || j.status == TIMEOUT ==> TakenAt(config, counter, run, id, j.startedAtMs)
  {
    hide After, Story, PlaceOk, Arrived, Outs, Errs, TookIn, EndedAt, AllHarmless;
    RecordTellsStory(config, counter, run, id);
  }

  /** When the times given never decrease, a job ends as TIMEOUT only if the call that ended it came later than the tick that
      took it by more than its limit. */
  lemma TimeoutsAreReal(config: Config, counter: nat, run: seq<Action>, id: JobId) returns (at: u64)
    requires Runnable(Init(config, counter), run) && Nondecreasing(run, 0)
    requires id in After(Init(config, counter), run).table
    requires After(Init(config, counter), run).table[id].status == TIMEOUT
    ensures TakenAt(config, counter, run, id, at) && LimitsOf(run, id).Some?
    ensures After(Init(config, counter), run).table[id].endedAtMs - at > LimitsOf(run, id).value.maxRuntimeMs
  {
    hide After, Story, PlaceOk, Ran, TookIn, LimitsOf;
    InitInv(config, counter);
    RunKeepsTime(Init(config, counter), run, 0);
    StartIsTaken(config, counter, run, id);
    RecordTellsStory(config, counter, run, id);
    at := After(Init(config, counter), run).table[id].startedAtMs;
  }

  predicate Scans(a: Action) {
    a.Tick? || a.Check?
  }

  /** The state a call's scan phase finds. */
  ghost function BeforeScan(s: State, a: Action): (m: State)
    requires Closed(s) && Scans(a)
    ensures Closed(m)
  {
    if a.Tick? then AfterStarts(s, a.now, a.metrics, a.maxStarts, a.env) else s
  }

  /** The list the scan phase of a call goes over. */
  ghost function ScanList(s: State, a: Action): seq<JobId>
    requires Closed(s) && Scans(a)
  {
    RunningList(BeforeScan(s, a))
  }

  /** The runtime of every job that a scan at this time would go over is its true runtime. */
  ghost predicate TrueRuntimes(m: State, now: u64)
    requires Closed(m)
  {
    forall id :: id in RunningList(m) ==>
      id in m.table && RuntimeMs(now, m.table[id].startedAtMs) == now - m.table[id].startedAtMs
  }

  lemma ListedStartedEarlier(m: State, now: u64)
    requires Inv(m) && ClockOk(m, now)
    ensures TrueRuntimes(m, now)
  {
    hide RuntimeMs, PlaceOk, RunningList;
    RunningListIs(m);
    forall id | id in RunningList(m)
      ensures id in m.table && m.table[id].startedAtMs <= now
    {
      StatusByPlace(m.table[id], id in m.queue);
    }
  }

  /** When the times given never decrease, the unsigned subtraction does not wrap: every running job started no later than
      the last time given, when a tick took it, and the runtime that the next call computes for a job it scans, or is asked
      about, is true. */
  lemma RuntimeNeverWraps(config: Config, counter: nat, run: seq<Action>, next: Action)
    requires Runnable(Init(config, counter), run) && Nondecreasing(run, 0)
    requires LastTime(run, 0) <= TimeOf(next, LastTime(run, 0))
    ensures var s := After(Init(config, counter), run);
            && (forall id :: id in s.table && s.table[id].status == RUNNING ==>
                  s.table[id].startedAtMs <= LastTime(run, 0) && TakenAt(config, counter, run, id, s.table[id].startedAtMs))
            && TrueRuntimes(s, TimeOf(next, LastTime(run, 0)))
            && (Scans(next) ==> TrueRuntimes(BeforeScan(s, next), next.now))
  {
    hide TrueRuntimes, TakenAt, PlaceOk, Ledger, JobsOk, AfterStarts;
    InitInv(config, counter);
    RunInv(Init(config, counter), run);
    RunKeepsTime(Init(config, counter), run, 0);
    var s := After(Init(config, counter), run);
    forall id | id in s.table && s.table[id].status == RUNNING
      ensures TakenAt(config, counter, run, id, s.table[id].startedAtMs)
    {
      StartIsTaken(config, counter, run, id);
    }
    ListedStartedEarlier(s, TimeOf(next, LastTime(run, 0)));
    if next.Tick? {
      StartsKeepTime(s, next, LastTime(run, 0));
      AfterStartsInv(s, next.now, next.metrics, next.maxStarts, next.env);
      ListedStartedEarlier(BeforeScan(s, next), next.now);
    }
  }

  // ----- fairness -----

  function ScanCount(run: seq<Action>): nat {
    if run == [] then 0 else (if Scans(run[0]) then 1 else 0) + ScanCount(run[1..])
  }

  /** How many visits the scans of a run make to a list of n jobs with budget k. */
  function Window(run: seq<Action>, n: nat, k: nat): nat {
    ScanCount(run) * Min(n, k)
  }

  lemma WindowStep(run: seq<Action>, n: nat, k: nat)
    requires run != []
    ensures Window(run, n, k) == (if Scans(run[0]) then Min(n, k) else 0) + Window(run[1..], n, k)
  {
    var m := Min(n, k);
    assert (1 + ScanCount(run[1..])) * m == m + ScanCount(run[1..]) * m;
  }

  lemma NoWindow(n: nat, k: nat)
    ensures Window([], n, k) == 0
  {
  }

  /** Every scan of the run goes over the list `jobs` with budget k. */
  ghost predicate Steady(s: State, run: seq<Action>, jobs: seq<JobId>, k: nat)
    requires Closed(s) && Runnable(s, run)
    decreases |run|
  {
    run == [] ||
    (&& (Scans(run[0]) ==> ScanList(s, run[0]) == jobs && run[0].maxScans == k)
     && Steady(Next(s, run[0]), run[1..], jobs, k))
  }

  /** The scan phase starts from an ordinary state, which differs from the one before the call only in the jobs started. */
  lemma BeforeScanIs(s: State, a: Action)
    requires Inv(s) && Scans(a)
    ensures var m := BeforeScan(s, a);
            && Inv(m) && Next(s, a) == CheckLimits(m, a.now, a.maxScans, a.env)
            && m.scanLog == s.scanLog && m.cursor == s.cursor && s.dequeued <= m.dequeued
            && (forall id :: id in s.dequeued && id in s.table ==> id in m.table && m.table[id] == s.table[id])
  {
    hide Start, Scan, PlaceOk, JobsOk, CheckLimits;
    if a.Tick? {
      AfterStartsEffect(s, a.now, a.metrics, a.maxStarts, a.env);
      AfterStartsInv(s, a.now, a.metrics, a.maxStarts, a.env);
      SplitDisjoint(s.dequeued, s.queue);
    }
  }

  lemma ScanVisits(s: State, a: Action)
    requires Inv(s) && Scans(a) && ScanList(s, a) != []
    ensures var m := Min(|ScanList(s, a)|, a.maxScans);
            && Next(s, a).scanLog == s.scanLog + Visits(ScanList(s, a), s.cursor, m)
            && Next(s, a).cursor == (s.cursor + m) % |ScanList(s, a)|
  {
    hide Start, Scan, PlaceOk, Visits, Slot, Ledger, JobsOk, RunningList, BeforeScan, Next, CheckLimits;
    BeforeScanIs(s, a);
    var visited := CheckLimitsEffect(BeforeScan(s, a), a.now, a.maxScans, a.env);
  }

  lemma OtherStepsKeepCursor(s: State, a: Action)
    requires Closed(s) && Enabled(s, a) && !Scans(a)
    ensures Next(s, a).scanLog == s.scanLog && Next(s, a).cursor == s.cursor
  {
  }

  /** The scans of a steady run visit one contiguous window of positions modulo n, whatever calls come in between. */
  lemma {:induction false} SteadyWindow(s: State, run: seq<Action>, jobs: seq<JobId>, k: nat)
    requires Inv(s) && Runnable(s, run) && Steady(s, run, jobs, k) && jobs != []
    ensures After(s, run).scanLog == s.scanLog + Visits(jobs, s.cursor, Window(run, |jobs|, k))
    decreases |run|
  {
    hide DoTick, CheckLimits, ScanList, Window, PlaceOk, Visits, Slot, Ledger, JobsOk;
    var m := Min(|jobs|, k);
    if run == [] {
      NoWindow(|jobs|, k);
      assert s.scanLog + Visits(jobs, s.cursor, 0) == s.scanLog;
    } else {
      var a := run[0];
      WindowStep(run, |jobs|, k);
      NextInv(s, a);
      var r := Next(s, a);
      SteadyWindow(r, run[1..], jobs, k);
      if Scans(a) {
        ScanVisits(s, a);
        VisitsResume(jobs, s.cursor, m, Window(run[1..], |jobs|, k));
      } else {
        OtherStepsKeepCursor(s, a);
      }
    }
  }

  /** No running job is favoured: over any steady run two jobs' visit counts differ by at most one, and one scan visits
      min(k, n) different jobs. */
  lemma ScanIsFair(s: State, run: seq<Action>, jobs: seq<JobId>, k: nat, x: JobId, y: JobId)
    requires Inv(s) && Runnable(s, run) && Steady(s, run, jobs, k) && Distinct(jobs) && x in jobs && y in jobs
    ensures s.scanLog <= After(s, run).scanLog
    ensures var log := After(s, run).scanLog[|s.scanLog|..];
            && |log| == Window(run, |jobs|, k)
            && -1 <= Count(log, x) - Count(log, y) <= 1
    ensures Distinct(Visits(jobs, s.cursor, Min(|jobs|, k)))
  {
    SteadyWindow(s, run, jobs, k);
    VisitsFair(jobs, s.cursor, Window(run, |jobs|, k), x, y);
    VisitsDistinct(jobs, s.cursor, Min(|jobs|, k));
    assert After(s, run).scanLog[|s.scanLog|..] == Visits(jobs, s.cursor, Window(run, |jobs|, k));
  }

  // ----- time limits are enforced in bounded time -----

  /** As long as job `id` is running, every scan has budget k and goes over at most n jobs, and the list that the scans go
      over, `jobs` to begin with, changes at most r times. */
  ghost predicate FewChanges(s: State, run: seq<Action>, jobs: seq<JobId>, k: nat, n: nat, r: nat, id: JobId)
    requires Closed(s) && Runnable(s, run)
    decreases |run|
  {
    if run == [] then true
    else if Scans(run[0]) && id in s.table && s.table[id].status == RUNNING then
      var list := ScanList(s, run[0]);
      && run[0].maxScans == k && |list| <= n && (list != jobs ==> r > 0)
      && FewChanges(Next(s, run[0]), run[1..], list, k, n, if list == jobs then r else r - 1, id)
    else FewChanges(Next(s, run[0]), run[1..], jobs, k, n, r, id)
  }

  lemma ScanEndsOverrun(j: JobData, now: u64, p: Probe)
    requires j.status == RUNNING && j.startedAtMs + j.limits.maxRuntimeMs < now
    ensures Scan(j, now, p).status !in {RUNNING, QUEUED, STARTING, CANCELLED}
  {
    OverranIff(Read(j, p), now);
  }

  lemma ScanKeepsStart(j: JobData, now: u64, p: Probe)
    ensures Scan(j, now, p).startedAtMs == j.startedAtMs && Scan(j, now, p).limits == j.limits
  {
  }

  /** Every scan of the run comes after the job's time limit has expired. */
  ghost predicate AllPastDeadline(run: seq<Action>, j: JobData) {
    forall a :: a in run && Scans(a) ==> j.startedAtMs + j.limits.maxRuntimeMs < a.now
  }

  /** One scan, and an overrunning job that is running and out of the queue: it keeps its start time, and if the scan
      visits it, it stops running. */
  lemma ScanOnOverrun(s: State, a: Action, id: JobId)
    requires Inv(s) && Scans(a) && id in s.dequeued && id in s.table && s.table[id].status == RUNNING
    requires s.table[id].startedAtMs + s.table[id].limits.maxRuntimeMs < a.now
    requires ScanList(s, a) != []
    ensures var r := Next(s, a);
            && id in r.dequeued && id in r.table
            && r.table[id].startedAtMs == s.table[id].startedAtMs && r.table[id].limits == s.table[id].limits
            && (id in Visits(ScanList(s, a), s.cursor, Min(|ScanList(s, a)|, a.maxScans)) ==> r.table[id].status != RUNNING)
  {
    hide Start, Scan, PlaceOk, Visits, Slot, Ledger, JobsOk, BeforeScan, Next, CheckLimits;
    BeforeScanIs(s, a);
    var visited := CheckLimitsEffect(BeforeScan(s, a), a.now, a.maxScans, a.env);
    ScanEndsOverrun(s.table[id], a.now, a.env.probe(id));
    ScanKeepsStart(s.table[id], a.now, a.env.probe(id));
  }

  lemma OtherStepsOnRunning(s: State, a: Action, id: JobId)
    requires Inv(s) && Enabled(s, a) && !Scans(a) && id in s.dequeued && id in s.table && s.table[id].status == RUNNING
    ensures var r := Next(s, a);
            && id in r.dequeued && id in r.table
            && r.table[id].startedAtMs == s.table[id].startedAtMs && r.table[id].limits == s.table[id].limits
  {
    hide PlaceOk;
  }

  lemma OverrunIsListed(s: State, a: Action, id: JobId)
    requires Inv(s) && Scans(a) && id in s.dequeued && id in s.table && s.table[id].status == RUNNING
    ensures id in ScanList(s, a)
  {
    hide Start, Scan, PlaceOk, JobsOk, Next, CheckLimits, BeforeScan;
    BeforeScanIs(s, a);
    RunningListIs(BeforeScan(s, a));
  }

  /** How many scans of budget k it takes to go round a list of n jobs. */
  function Passes(n: nat, k: nat): nat
    requires k > 0
  {
    (n + k - 1) / k
  }

  lemma EnoughScans(n: nat, k: nat, t: nat)
    requires n > 0 && k > 0 && t >= Passes(n, k)
    ensures t * Min(n, k) >= n
  {
    var c := Passes(n, k);
    assert n + k - 1 == k * c + (n + k - 1) % k;
    assert k * c >= n;
    if k <= n {
      assert t * k >= c * k;
    } else {
      assert c >= 1;
      assert t * n >= 1 * n;
    }
  }

  lemma PassesGrow(m: nat, n: nat, k: nat)
    requires m <= n && k > 0
    ensures Passes(m, k) <= Passes(n, k)
    ensures n > 0 ==> Passes(n, k) >= 1
  {
    var c, d := Passes(m, k), Passes(n, k);
    assert m + k - 1 == c * k + (m + k - 1) % k && n + k - 1 == d * k + (n + k - 1) % k;
    assert (c - d) * k == c * k - d * k;
    MultipleIsLarge(c - d, k);
    MultipleIsLarge(-d, k);
  }

  /** The last t scans went over `jobs` from cursor `from` on and have not visited job `id`. */
  ghost predicate Unvisited(cursor: nat, jobs: seq<JobId>, from: nat, t: nat, k: nat, n: nat, id: JobId) {
    t > 0 ==>
      && id in jobs && |jobs| <= n
      && id !in Visits(jobs, from, t * Min(|jobs|, k)) && cursor == (from + t * Min(|jobs|, k)) % |jobs|
  }

  /** There cannot be as many such scans as it takes to go round. */
  lemma UnvisitedIsShort(cursor: nat, jobs: seq<JobId>, from: nat, t: nat, k: nat, n: nat, id: JobId)
    requires Unvisited(cursor, jobs, from, t, k, n, id) && k > 0 && n > 0
    ensures t < Passes(n, k)
  {
    hide Visits, Passes;
    PassesGrow(0, n, k);
    if t > 0 && t >= Passes(n, k) {
      PassesGrow(|jobs|, n, k);
      EnoughScans(|jobs|, k, t);
      VisitsCover(jobs, from, t * Min(|jobs|, k));
    }
  }

  lemma OneTimeMore(t: nat, m: nat)
    ensures (t + 1) * m == t * m + m
  {
  }

  /** w visits from `from` on, and then m more. */
  lemma StillUnvisited(jobs: seq<JobId>, from: nat, w: nat, m: nat, id: JobId)
    requires jobs != [] && id !in Visits(jobs, from, w) && id !in Visits(jobs, (from + w) % |jobs|, m)
    ensures id !in Visits(jobs, from, w + m) && ((from + w) % |jobs| + m) % |jobs| == (from + (w + m)) % |jobs|
  {
    VisitsResume(jobs, from, w, m);
    SlotResume(from, w, m, |jobs|);
    hide Visits;
  }

  lemma UnvisitedExtends(cursor: nat, jobs: seq<JobId>, from: nat, t: nat, k: nat, n: nat, id: JobId)
    requires Unvisited(cursor, jobs, from, t, k, n, id) && id in jobs && |jobs| <= n
    requires id !in Visits(jobs, cursor, Min(|jobs|, k))
    ensures Unvisited((cursor + Min(|jobs|, k)) % |jobs|, jobs, if t > 0 then from else cursor, t + 1, k, n, id)
  {
    hide Visits;
    var m := Min(|jobs|, k);
    OneTimeMore(t, m);
    if t > 0 {
      StillUnvisited(jobs, from, t * m, m, id);
    } else {
      assert (t + 1) * m == m;
    }
  }

  lemma UnvisitedAnew(cursor: nat, jobs: seq<JobId>, k: nat, n: nat, id: JobId)
    requires id in jobs && |jobs| <= n && id !in Visits(jobs, cursor, Min(|jobs|, k))
    ensures Unvisited((cursor + Min(|jobs|, k)) % |jobs|, jobs, cursor, 1, k, n, id)
  {
    assert 1 * Min(|jobs|, k) == Min(|jobs|, k);
  }

  /** After a change of list the scans that are left still suffice for one change less. */
  lemma OneChangeLess(scans: nat, t: nat, r: nat, c: nat)
    requires r > 0 && t < c && scans + t >= (r + 1) * c
    ensures scans >= (r - 1 + 1) * c
  {
    assert (r + 1) * c == r * c + c;
  }

  lemma {:induction false} OverrunEndsFrom(s: State, run: seq<Action>, jobs: seq<JobId>, from: nat, t: nat,
                                           k: nat, n: nat, r: nat, id: JobId)
    requires Inv(s) && Runnable(s, run) && FewChanges(s, run, jobs, k, n, r, id) && k > 0 && n > 0
    requires id in s.dequeued && id in s.table && s.table[id].status == RUNNING
    requires AllPastDeadline(run, s.table[id]) && Unvisited(s.cursor, jobs, from, t, k, n, id)
    requires ScanCount(run) + t >= (r + 1) * Passes(n, k)
    ensures id in After(s, run).table && After(s, run).table[id].status != RUNNING
    decreases |run|
  {
    hide DoTick, CheckLimits, ScanList, PlaceOk, Ledger, JobsOk, Unvisited, Passes;
    UnvisitedIsShort(s.cursor, jobs, from, t, k, n, id);
    MultipleIsLarge(r + 1, Passes(n, k));
    if run != [] {
      var a, rest := run[0], run[1..];
      NextInv(s, a);
      var next := Next(s, a);
      if Scans(a) {
        var list := ScanList(s, a);
        OverrunIsListed(s, a, id);
        ScanVisits(s, a);
        ScanOnOverrun(s, a, id);
        if next.table[id].status != RUNNING {
          SettledForGood(next, rest, id);
        } else if list == jobs {
          UnvisitedExtends(s.cursor, jobs, from, t, k, n, id);
          OverrunEndsFrom(next, rest, jobs, if t > 0 then from else s.cursor, t + 1, k, n, r, id);
        } else {
          UnvisitedAnew(s.cursor, list, k, n, id);
          OneChangeLess(ScanCount(run), t, r, Passes(n, k));
          OverrunEndsFrom(next, rest, list, s.cursor, 1, k, n, r - 1, id);
        }
      } else {
        OtherStepsKeepCursor(s, a);
        OtherStepsOnRunning(s, a, id);
        if next.table[id].status != RUNNING {
          SettledForGood(next, rest, id);
        } else {
          OverrunEndsFrom(next, rest, jobs, from, t, k, n, r, id);
        }
      }
    }
  }

  /** A job that has exceeded its time limit stops running within (r + 1) * ceil(n / k) scans of budget k >= 1 if, as long
      as it runs, at most n jobs run and the running list changes at most r times: within ceil(n / k) scans if the list
      stays as it is. */
  lemma OverrunEndsInTime(s: State, run: seq<Action>, jobs: seq<JobId>, k: nat, n: nat, r: nat, id: JobId)
    requires Inv(s) && Runnable(s, run) && FewChanges(s, run, jobs, k, n, r, id) && k > 0 && n > 0
    requires id in s.dequeued && id in s.table && s.table[id].status == RUNNING
    requires AllPastDeadline(run, s.table[id])
    requires ScanCount(run) >= (r + 1) * Passes(n, k)
    ensures id in After(s, run).table && After(s, run).table[id].status != RUNNING
  {
    OverrunEndsFrom(s, run, jobs, 0, 0, k, n, r, id);
  }
}
