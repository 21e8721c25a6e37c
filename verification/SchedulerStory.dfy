/** Every record of the job table is told by what the run did to that job: when a tick took it, what its visits read, and
    what ended it. */
module SchedulerStory {
  import opened Wrappers
  import opened Sequences
  import opened JobModel
  import opened JobStory
  import opened Scheduler
  import opened SchedulerInvariants
  import opened SchedulerHistory

  /** The limits job `id` was submitted with. */
  function LimitsOf(run: seq<Action>, id: JobId): Option<Limits> {
    if run == [] then None
    else if run[0].Submit? && run[0].id == id then Some(run[0].limits)
    else LimitsOf(run[1..], id)
  }

  /** The visits a call adds to the log of the limit scan. */
  ghost function NewVisits(s: State, a: Action): seq<JobId>
    requires Closed(s) && Enabled(s, a)
  {
    var log := Next(s, a).scanLog;
    if |s.scanLog| <= |log| then log[|s.scanLog|..] else []
  }

  /** What a call does to a job of the table: a tick may take it from the queue, and then visit it. */
  ghost function DeedsOf(s: State, a: Action, id: JobId): seq<Deed>
    requires Closed(s) && Enabled(s, a)
  {
    if id !in s.table then []
    else
      match a
      case Cancel(target, alive, wallMs) => if target == id then [Cancelled(alive, wallMs)] else []
      case Enforce(target, cap) => if target == id then [Capped(cap)] else []
      case Tick(now, _, _, _, env) =>
        (if id in s.queue && id !in Next(s, a).queue then [Took(now, env.spawn(id))] else [])
        + (if id in NewVisits(s, a) then [Visited(now, env.probe(id))] else [])
      case Check(now, _, env) => if id in NewVisits(s, a) then [Visited(now, env.probe(id))] else []
      case _ => []
  }

  ghost function Story(s: State, run: seq<Action>, id: JobId): seq<Deed>
    requires Closed(s) && Runnable(s, run)
    decreases |run|
  {
    if run == [] then [] else DeedsOf(s, run[0], id) + Story(Next(s, run[0]), run[1..], id)
  }

  // ----- one call -----

  lemma TaleOne(j: JobData, d: Deed)
    ensures Tale(j, [d]) == Tell(j, d) && (Proper(j, [d]) <==> MayHappen(j, d))
  {
    assert [d][..0] == [];
    assert Tale(j, [d][..0]) == j;
  }

  lemma {:induction false} TaleConcat(j: JobData, a: seq<Deed>, b: seq<Deed>)
    requires Proper(j, a) && Proper(Tale(j, a), b)
    ensures Proper(j, a + b) && Tale(j, a + b) == Tale(Tale(j, a), b)
  {
    hide Tell, MayHappen;
    if b == [] {
      assert a + b == a;
    } else {
      TaleConcat(j, a, b[..|b| - 1]);
      assert (a + b)[..|a + b| - 1] == a + b[..|b| - 1];
    }
  }

  lemma TaleNone(j: JobData)
    ensures Tale(j, []) == j && Proper(j, [])
  {
  }

  /** A record that is started, or visited, or both. */
  lemma TaleOfTick(j: JobData, taken: bool, visited: bool, now: u64, spawn: SpawnResult, probe: Probe)
    requires taken ==> MayHappen(j, Took(now, spawn))
    requires visited ==> (if taken then Start(j, now, spawn) else j).status == RUNNING
    ensures var deeds := (if taken then [Took(now, spawn)] else []) + (if visited then [Visited(now, probe)] else []);
            var m := if taken then Start(j, now, spawn) else j;
            Proper(j, deeds) && Tale(j, deeds) == if visited then Scan(m, now, probe) else m
  {
    hide Start, Scan, NeverSpawned, Tale, Proper;
    var m := if taken then Start(j, now, spawn) else j;
    TaleNone(j);
    TaleNone(m);
    TaleOne(j, Took(now, spawn));
    TaleOne(m, Visited(now, probe));
    TaleConcat(j, if taken then [Took(now, spawn)] else [], if visited then [Visited(now, probe)] else []);
  }

  lemma TickTale(s: State, a: Action, id: JobId)
    requires Inv(s) && a.Tick? && id in s.table
    ensures id in Next(s, a).table
    ensures Proper(s.table[id], DeedsOf(s, a, id)) && Next(s, a).table[id] == Tale(s.table[id], DeedsOf(s, a, id))
  {
    hide Start, Scan, PlaceOk, AfterStarts, CheckLimits, TakenBy, Tale, Proper, JobsOk, Ledger;
    var m := AfterStarts(s, a.now, a.metrics, a.maxStarts, a.env);
    var taken := TakenBy(s, a.metrics, a.maxStarts, a.env);
    AfterStartsEffect(s, a.now, a.metrics, a.maxStarts, a.env);
    AfterStartsInv(s, a.now, a.metrics, a.maxStarts, a.env);
    var visited := CheckLimitsEffect(m, a.now, a.maxScans, a.env);
    assert NewVisits(s, a) == visited;
    TakenIsGone(s, |taken|, id);
    QueuedMayStart(s, id, a.now, a.env.spawn(id));
    TaleOfTick(s.table[id], id in taken, id in visited, a.now, a.env.spawn(id), a.env.probe(id));
  }

  lemma TakenIsGone(s: State, d: nat, id: JobId)
    requires Inv(s) && d <= |s.queue|
    ensures id in s.queue[..d] <==> id in s.queue && id !in s.queue[d..]
  {
    hide JobsOk, Distinct;
    LedgerDistinct(s);
    if id in s.queue {
      var i :| 0 <= i < |s.queue| && s.queue[i] == id;
      SplitAt(s.dequeued, s.queue, d, i);
    }
  }

  lemma QueuedMayStart(s: State, id: JobId, now: u64, spawn: SpawnResult)
    requires Inv(s) && id in s.table
    ensures id in s.queue ==> MayHappen(s.table[id], Took(now, spawn))
  {
    hide Ledger;
    StatusByPlace(s.table[id], id in s.queue);
  }

  lemma CheckTale(s: State, a: Action, id: JobId)
    requires Inv(s) && a.Check? && id in s.table
    ensures id in Next(s, a).table
    ensures Proper(s.table[id], DeedsOf(s, a, id)) && Next(s, a).table[id] == Tale(s.table[id], DeedsOf(s, a, id))
  {
    hide Scan, CheckLimits, JobsOk, Ledger, Tale, Proper;
    var visited := CheckLimitsEffect(s, a.now, a.maxScans, a.env);
    assert NewVisits(s, a) == visited;
    TaleNone(s.table[id]);
    TaleOne(s.table[id], Visited(a.now, a.env.probe(id)));
  }

  /** What a call leaves of a record is what its deeds to this job make of it. */
  lemma StepTale(s: State, a: Action, id: JobId)
    requires Inv(s) && Enabled(s, a) && id in s.table
    ensures id in Next(s, a).table
    ensures Proper(s.table[id], DeedsOf(s, a, id)) && Next(s, a).table[id] == Tale(s.table[id], DeedsOf(s, a, id))
  {
    hide PlaceOk, JobModel.Cancel, EnforceCap, DoTick, CheckLimits, Tale, Proper, Distinct;
    TaleNone(s.table[id]);
    match a
    case Draw =>
    case Submit(_, _, _) =>
    case Cancel(_, alive, wallMs) => TaleOne(s.table[id], Cancelled(alive, wallMs));
    case Tick(_, _, _, _, _) => TickTale(s, a, id);
    case Check(_, _, _) => CheckTale(s, a, id);
    case Enforce(_, cap) => TaleOne(s.table[id], Capped(cap));
  }

  lemma {:induction false} RunTale(s: State, run: seq<Action>, id: JobId)
    requires Inv(s) && Runnable(s, run) && id in s.table
    ensures id in After(s, run).table
    ensures Proper(s.table[id], Story(s, run, id)) && After(s, run).table[id] == Tale(s.table[id], Story(s, run, id))
    decreases |run|
  {
    hide Ledger, JobsOk, Next, Enabled, DeedsOf, Tale, Proper;
    if run == [] {
      TaleNone(s.table[id]);
    } else {
      StepTale(s, run[0], id);
      NextInv(s, run[0]);
      RunTale(Next(s, run[0]), run[1..], id);
      TaleConcat(s.table[id], DeedsOf(s, run[0], id), Story(Next(s, run[0]), run[1..], id));
    }
  }

  /** Only a submission puts a job into the table. */
  lemma OnlySubmitAdds(s: State, a: Action, id: JobId)
    requires Inv(s) && Enabled(s, a) && id !in s.table
    ensures id in Next(s, a).table <==> a.Submit? && a.id == id
    ensures a.Submit? && a.id == id ==> Next(s, a).table[id] == NewJob(a.limits)
    ensures DeedsOf(s, a, id) == []
  {
    hide PlaceOk, JobModel.Cancel, EnforceCap, DoTick, CheckLimits, Distinct;
    if a.Tick? {
      TickOnQueue(s, a.now, a.metrics, a.maxStarts, a.maxScans, a.env);
    } else if a.Check? {
      var visited := CheckLimitsEffect(s, a.now, a.maxScans, a.env);
    }
  }

  lemma {:induction false} SubmittedTale(s: State, run: seq<Action>, id: JobId)
    requires Inv(s) && Runnable(s, run) && id !in s.table && id in After(s, run).table
    ensures LimitsOf(run, id).Some?
    ensures var j := NewJob(LimitsOf(run, id).value);
            Proper(j, Story(s, run, id)) && After(s, run).table[id] == Tale(j, Story(s, run, id))
    decreases |run|
  {
    hide Ledger, JobsOk, Next, Enabled, DeedsOf, Tale, Proper;
    OnlySubmitAdds(s, run[0], id);
    NextInv(s, run[0]);
    var rest := Story(Next(s, run[0]), run[1..], id);
    assert DeedsOf(s, run[0], id) + rest == rest;
    if id in Next(s, run[0]).table {
      RunTale(Next(s, run[0]), run[1..], id);
    } else {
      SubmittedTale(Next(s, run[0]), run[1..], id);
    }
  }

  // ----- every reachable record -----

  /** In every reachable state the record of a job is told by its limits and by what the run did to it, and by nothing
      else. */
  lemma RecordTellsStory(config: Config, counter: nat, run: seq<Action>, id: JobId)
    requires Runnable(Init(config, counter), run)
    requires id in After(Init(config, counter), run).table
    ensures LimitsOf(run, id).Some?
    ensures var story := Story(Init(config, counter), run, id);
            Told(After(Init(config, counter), run).table[id], LimitsOf(run, id).value, story)
    ensures PlaceOk(After(Init(config, counter), run).table[id], TookIn(Story(Init(config, counter), run, id)) == None)
  {
    hide Told, PlaceOk, Tale, Proper, After, Story, LimitsOf, TookIn;
    InitInv(config, counter);
    SubmittedTale(Init(config, counter), run, id);
    TaleIsTold(LimitsOf(run, id).value, Story(Init(config, counter), run, id));
  }

  /** The texts of a job are what came through its two pipes while they were open, or the last of it; they are complete
      unless more came than the log may hold. */
  ghost predicate TextsAre(j: JobData, story: seq<Deed>) {
    && (j.status == COMPLETED ==> j.exitCode == 0)
    && (j.status == RUNNING ==> TotalKept(j) <= j.limits.maxLogBytes)
    && match TookIn(story)
       case None => j.output == j.error == "" && !j.logTruncated
       case Some((_, SpawnError(text))) => j.output == "" && j.error == text && !j.logTruncated
       case Some((_, r)) =>
         var out := Arrived(r.outFd, Outs(story));
         var err := Arrived(r.errFd, Errs(story));
         && IsSuffix(j.output, out) && IsSuffix(j.error, err)
         && (!j.logTruncated ==> j.output == out && j.error == err && j.bytesWritten == |out| + |err|)
         && (j.logTruncated ==> |out| + |err| > j.limits.maxLogBytes)
         && (j.status == RUNNING ==> (j.logTruncated <==> |out| + |err| > j.limits.maxLogBytes))
         && TotalKept(j) <= j.limits.maxLogBytes + 8192 && j.bytesWritten >= TotalKept(j)
  }

  lemma StoryTexts(j: JobData, limits: Limits, story: seq<Deed>)
    requires Told(j, limits, story) && PlaceOk(j, TookIn(story) == None)
    ensures TextsAre(j, story) && JobOk(j) && j.status != STARTING
  {
    hide Arrived, Outs, Errs, TookIn, IsSuffix, EndedAt, AllHarmless;
    match TookIn(story)
    case Some((at, r)) =>
      if r.SpawnOk? {
        RanWasSpawned(j, at, r, story);
      }
    case None =>
  }

  /** What any caller may rely on about any job in any reachable state. */
  lemma ReachableJobs(config: Config, counter: nat, run: seq<Action>, id: JobId)
    requires Runnable(Init(config, counter), run)
    requires id in After(Init(config, counter), run).table
    ensures var j := After(Init(config, counter), run).table[id];
            var story := Story(Init(config, counter), run, id);
            JobOk(j) && j.status != STARTING && TextsAre(j, story)
  {
    hide After, Story, Inv;
    RecordTellsStory(config, counter, run, id);
    StoryTexts(After(Init(config, counter), run).table[id], LimitsOf(run, id).value, Story(Init(config, counter), run, id));
  }

  /** In every reachable state a job has been sent nothing, TERM, or TERM then KILL, the KILL only on cancellation, and
      every signal went to the process group its spawn recorded, between that spawn and the job's end. */
  lemma ReachableSignals(config: Config, counter: nat, run: seq<Action>, id: JobId)
    requires Runnable(Init(config, counter), run)
    requires id in After(Init(config, counter), run).table
    ensures Disciplined(After(Init(config, counter), run).table[id])
  {
    hide After, JobOk, StreamsOk, IsSuffix, Disciplined, Told, TookIn, Story;
    RecordTellsStory(config, counter, run, id);
    SignalDiscipline(After(Init(config, counter), run).table[id]);
  }

  /** A job that was spawned and runs no longer was ended by one thing that happened to it, which the record describes; and
      a job that still runs was given no reason to end. */
  lemma ReachableEnds(config: Config, counter: nat, run: seq<Action>, id: JobId)
    requires Runnable(Init(config, counter), run)
    requires id in After(Init(config, counter), run).table
    requires var took := TookIn(Story(Init(config, counter), run, id)); took.Some? && took.value.1.SpawnOk?
    ensures var j := After(Init(config, counter), run).table[id];
            var story := Story(Init(config, counter), run, id);
            var (at, r) := TookIn(story).value;
            && (j.status == RUNNING ==> AllHarmless(at, r, j.limits, story))
            && (j.status != RUNNING ==> exists k :: EndedAt(j, at, r, story, k))
  {
    hide After, Story, PlaceOk, Arrived, Outs, Errs, TookIn, EndedAt, AllHarmless;
    RecordTellsStory(config, counter, run, id);
  }

  lemma {:induction false} TaleKeepsStart(j: JobData, story: seq<Deed>)
    requires j.trace != [] && Proper(j, story)
    ensures var r := Tale(j, story);
            && r.trace != [] && r.startedAtMs == j.startedAtMs && r.processGroup == j.processGroup
            && r.leaderStartTime == j.leaderStartTime && r.trace[0] == j.trace[0]
            && (j.status == FAILED ==> r == j)
  {
    if story != [] {
      var n := |story| - 1;
      TaleKeepsStart(j, story[..n]);
      DeedKeepsStart(Tale(j, story[..n]), story[n]);
    }
  }

  lemma DeedKeepsStart(j: JobData, d: Deed)
    requires j.trace != [] && MayHappen(j, d)
    ensures var r := Tell(j, d);
            && r.trace != [] && r.startedAtMs == j.startedAtMs && r.processGroup == j.processGroup
            && r.leaderStartTime == j.leaderStartTime && r.trace[0] == j.trace[0]
            && (j.status == FAILED ==> r == j)
  {
    if d.Visited? {
      ReadIs(j, d.probe);
    }
    hide Read, Overran, OverLogCap, OverProcessCap, Tail, Terminate, CancelSignals;
  }

  lemma {:induction false} TaleSplit(j: JobData, a: seq<Deed>, b: seq<Deed>)
    requires Proper(j, a + b)
    ensures Proper(j, a) && Proper(Tale(j, a), b) && Tale(j, a + b) == Tale(Tale(j, a), b)
  {
    hide Tell, MayHappen;
    if b == [] {
      assert a + b == a;
    } else {
      assert (a + b)[..|a + b| - 1] == a + b[..|b| - 1];
      TaleSplit(j, a, b[..|b| - 1]);
    }
  }

  lemma TakenTale(j: JobData, took: Deed, rest: seq<Deed>)
    requires took.Took? && Proper(j, [took] + rest)
    ensures var r := Tale(j, [took] + rest);
            match took.result
            case SpawnOk(group, leaderStart, _, _) =>
              && r.startedAtMs == took.now && r.processGroup == group && r.leaderStartTime == leaderStart
              && r.trace != [] && r.trace[0] == Spawned(group)
            case SpawnError(text) =>
              r.status == FAILED && r.error == text && r.output == "" && r.trace == [SpawnFailed]
  {
    hide Tale, Proper;
    TaleSplit(j, [took], rest);
    TaleOne(j, took);
    TaleKeepsStart(Start(j, took.now, took.result), rest);
  }

  /** A tick that takes a job from the queue starts it at that tick's time and under the group the spawner reports, and
      neither ever changes again. If the spawner fails the job has failed for good, with the spawner's message. */
  lemma StartedWhenTaken(s: State, tick: Action, later: seq<Action>, id: JobId)
    requires Inv(s) && tick.Tick? && id in s.queue && id !in Next(s, tick).queue && Runnable(Next(s, tick), later)
    ensures id in After(Next(s, tick), later).table
    ensures var j := After(Next(s, tick), later).table[id];
            match tick.env.spawn(id)
            case SpawnOk(group, leaderStart, _, _) =>
              && j.startedAtMs == tick.now && j.processGroup == group && j.leaderStartTime == leaderStart
              && j.trace != [] && j.trace[0] == Spawned(group)
            case SpawnError(text) =>
              j.status == FAILED && j.error == text && j.output == "" && j.trace == [SpawnFailed]
  {
    hide Ledger, JobsOk, Next, NewVisits, Story, Tale, Proper, Tell;
    NextInv(s, tick);
    StepTale(s, tick, id);
    RunTale(Next(s, tick), later, id);
    var took := Took(tick.now, tick.env.spawn(id));
    var rest := DeedsOf(s, tick, id)[1..] + Story(Next(s, tick), later, id);
    assert DeedsOf(s, tick, id) + Story(Next(s, tick), later, id) == [took] + rest;
    TaleConcat(s.table[id], DeedsOf(s, tick, id), Story(Next(s, tick), later, id));
    TakenTale(s.table[id], took, rest);
  }
}
