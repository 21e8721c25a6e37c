/** What a job's record says, told from what has happened to the job and nothing else. */
module JobStory {
  import opened Wrappers
  import opened Sequences
  import opened JobModel

  /** One thing that happens to a job: a tick takes it from the queue, a scan visits it, somebody cancels it or calls one of
      the enforcement routines. */
  datatype Deed =
    | Took(now: u64, result: SpawnResult)
    | Visited(now: u64, probe: Probe)
    | Cancelled(alive: bool, wallMs: u64)
    | Capped(cap: Cap)

  function Tell(j: JobData, d: Deed): JobData {
    match d
    case Took(now, result) => Start(j, now, result)
    case Visited(now, probe) => Scan(j, now, probe)
    case Cancelled(alive, wallMs) => JobModel.Cancel(j, alive, wallMs)
    case Capped(cap) => EnforceCap(j, cap)
  }

  function Tale(j: JobData, story: seq<Deed>): JobData {
    if story == [] then j else Tell(Tale(j, story[..|story| - 1]), story[|story| - 1])
  }

  ghost predicate MayHappen(j: JobData, d: Deed) {
    match d
    case Took(_, _) => NeverSpawned(j) && (j.status == QUEUED || j.status == CANCELLED)
    case Cancelled(_, _) => true
    case _ => j.status == RUNNING
  }

  ghost predicate Proper(j: JobData, story: seq<Deed>) {
    story == [] ||
    (Proper(j, story[..|story| - 1]) && MayHappen(Tale(j, story[..|story| - 1]), story[|story| - 1]))
  }

  // ----- what a story says by itself -----

  /** When the job was taken from the queue, and what the spawner answered. */
  function TookIn(story: seq<Deed>): Option<(u64, SpawnResult)> {
    if story == [] then None
    else
      match story[|story| - 1]
      case Took(now, result) => Some((now, result))
      case _ => TookIn(story[..|story| - 1])
  }

  /** What the reads of its standard output answered, visit by visit. */
  function Outs(story: seq<Deed>): seq<ReadResult> {
    if story == [] then []
    else
      var last := story[|story| - 1];
      Outs(story[..|story| - 1]) + if last.Visited? then [last.probe.out] else []
  }

  function Errs(story: seq<Deed>): seq<ReadResult> {
    if story == [] then []
    else
      var last := story[|story| - 1];
      Errs(story[..|story| - 1]) + if last.Visited? then [last.probe.err] else []
  }

  /** A pipe is read until its end has been seen. */
  predicate Open(fd: int, answers: seq<ReadResult>) {
    fd != -1 && Eof !in answers
  }

  /** All bytes that came through a pipe. */
  function Arrived(fd: int, answers: seq<ReadResult>): string {
    if answers == [] then ""
    else
      var before := answers[..|answers| - 1];
      var last := answers[|answers| - 1];
      Arrived(fd, before) + if Open(fd, before) && last.Data? then last.bytes else ""
  }

  /** More has come than the log may hold. */
  predicate Overfull(r: SpawnResult, limits: Limits, story: seq<Deed>)
    requires r.SpawnOk?
  {
    |Arrived(r.outFd, Outs(story))| + |Arrived(r.errFd, Errs(story))| > limits.maxLogBytes
  }

  /** The last of these deeds gives a job that was spawned at `at` no reason to end. A job with too many processes is
      spared by a visit that finds the log too long. */
  ghost predicate Harmless(at: u64, r: SpawnResult, limits: Limits, story: seq<Deed>)
    requires r.SpawnOk? && story != []
  {
    match story[|story| - 1]
    case Took(_, _) => true
    case Visited(now, p) =>
      && !Exits(r.group, p) && !Late(now, at, limits)
      && (Crowded(limits, r.group, r.leaderStart, p.leaderStart, p.processes) ==> Overfull(r, limits, story))
    case Cancelled(_, _) => false
    case Capped(TimeLimit(now)) => !Late(now, at, limits)
    case Capped(LogCap) => true
    case Capped(ProcessCap(_, seen, processes)) => !Crowded(limits, r.group, r.leaderStart, seen, processes)
  }

  /** Nothing that happened since the job was spawned gave it a reason to end. */
  ghost predicate AllHarmless(at: u64, r: SpawnResult, limits: Limits, story: seq<Deed>)
    requires r.SpawnOk?
  {
    forall i :: 0 < i <= |story| && TookIn(story[..i]).Some? ==> Harmless(at, r, limits, story[..i])
  }

  /** The trace of a job that ended: signals go to its group, if it is known to have one. */
  function Ending(group: int, signals: seq<Sig>, final: Status): seq<Event> {
    [Spawned(group)]
    + (if group > 0 then seq(|signals|, i requires 0 <= i < |signals| => Sent(group, signals[i])) else [])
    + [Ended(final)]
  }

  /** This deed ended the job, and the record says so: how, when, with which exit code and with which signals. */
  ghost predicate EndsAs(j: JobData, d: Deed, at: u64, r: SpawnResult)
    requires r.SpawnOk?
  {
    match d
    case Visited(now, p) =>
      if Exits(r.group, p) then
        && j.status == (if p.wait.exited && p.wait.code == 0 then COMPLETED else FAILED)
        && j.exitCode == (if p.wait.exited then p.wait.code else -1) && j.endedAtMs == p.wait.wallMs
        && j.trace == Ending(r.group, [], j.status)
      else
        && j.status == (if Late(now, at, j.limits) then TIMEOUT else PROC_LIMIT)
        && (j.status == PROC_LIMIT ==> Crowded(j.limits, r.group, r.leaderStart, p.leaderStart, p.processes))
        && j.exitCode == -1 && j.endedAtMs == now && j.trace == Ending(r.group, [TERM], j.status)
    case Cancelled(alive, wallMs) =>
      && j.status == CANCELLED && j.exitCode == -1 && j.endedAtMs == wallMs
      && j.trace == Ending(r.group, if alive then [TERM, KILL] else [TERM], CANCELLED)
    case Capped(TimeLimit(now)) =>
      && Late(now, at, j.limits)
      && j.status == TIMEOUT && j.exitCode == -1 && j.endedAtMs == now
      && j.trace == Ending(r.group, [TERM], TIMEOUT)
    case Capped(ProcessCap(now, seen, processes)) =>
      && Crowded(j.limits, r.group, r.leaderStart, seen, processes)
      && j.status == PROC_LIMIT && j.exitCode == -1 && j.endedAtMs == now
      && j.trace == Ending(r.group, [TERM], PROC_LIMIT)
    case _ => false
  }

  /** Deed k ended the job: nothing before it gave a reason to, and only cancellations came after it. */
  ghost predicate EndedAt(j: JobData, at: u64, r: SpawnResult, story: seq<Deed>, k: nat)
    requires r.SpawnOk?
  {
    && k < |story| && TookIn(story[..k]).Some? && AllHarmless(at, r, j.limits, story[..k])
    && EndsAs(j, story[k], at, r)
    && forall i :: k < i < |story| ==> story[i].Cancelled?
  }

  /** A job that is cancelled while it waits gets an end time, which it keeps until it is ended for good. */
  function WaitEnd(story: seq<Deed>): u64 {
    if story != [] && story[0].Cancelled? then story[0].wallMs else 0
  }

  /** A job that is still in the queue. */
  ghost predicate Waits(j: JobData, story: seq<Deed>) {
    && NeverSpawned(j) && (forall d :: d in story ==> d.Cancelled?)
    && j.status == (if story == [] then QUEUED else CANCELLED) && j.endedAtMs == WaitEnd(story)
  }

  /** A job that was spawned: what its spawn and its pipes delivered, and whether and how it ended. */
  ghost predicate Ran(j: JobData, at: u64, r: SpawnResult, story: seq<Deed>)
    requires r.SpawnOk?
  {
    && j.startedAtMs == at && j.processGroup == r.group && j.leaderStartTime == r.leaderStart
    && j.readOut == Arrived(r.outFd, Outs(story)) && j.readErr == Arrived(r.errFd, Errs(story))
    && if j.status == RUNNING then
         && j.stdoutFd == (if Open(r.outFd, Outs(story)) then r.outFd else -1)
         && j.stderrFd == (if Open(r.errFd, Errs(story)) then r.errFd else -1)
         && j.exitCode == -1 && j.endedAtMs == WaitEnd(story) && AllHarmless(at, r, j.limits, story)
       else exists k :: EndedAt(j, at, r, story, k)
  }

  /** The record of a job is what its story makes it. */
  ghost predicate Told(j: JobData, limits: Limits, story: seq<Deed>) {
    && j.limits == limits
    && match TookIn(story)
       case None => Waits(j, story)
       case Some((_, SpawnError(text))) =>
         j == NewJob(limits).(status := FAILED, error := text, endedAtMs := WaitEnd(story), trace := [SpawnFailed])
       case Some((at, r)) => Ran(j, at, r, story)
  }

  // ----- one more deed -----

  lemma OneMore(story: seq<Deed>, d: Deed)
    ensures TookIn(story + [d]) == if d.Took? then Some((d.now, d.result)) else TookIn(story)
    ensures Outs(story + [d]) == Outs(story) + if d.Visited? then [d.probe.out] else []
    ensures Errs(story + [d]) == Errs(story) + if d.Visited? then [d.probe.err] else []
    ensures !d.Visited? ==> Outs(story + [d]) == Outs(story) && Errs(story + [d]) == Errs(story)
    ensures story != [] || !d.Cancelled? ==> WaitEnd(story + [d]) == WaitEnd(story)
    ensures TookIn(story).Some? ==> story != []
  {
    assert (story + [d])[..|story|] == story;
  }

  lemma ArrivedMore(fd: int, answers: seq<ReadResult>, r: ReadResult)
    ensures Arrived(fd, answers + [r]) == Arrived(fd, answers) + Came(if Open(fd, answers) then fd else -1, r)
    ensures Open(fd, answers + [r]) <==> Open(fd, answers) && !r.Eof?
  {
    assert (answers + [r])[..|answers|] == answers;
  }

  lemma PrefixOfMore(story: seq<Deed>, d: Deed, i: nat)
    requires i <= |story|
    ensures (story + [d])[..i] == story[..i]
  {
  }

  lemma HarmlessMore(at: u64, r: SpawnResult, limits: Limits, story: seq<Deed>, d: Deed)
    requires r.SpawnOk? && AllHarmless(at, r, limits, story)
    requires TookIn(story + [d]).Some? ==> Harmless(at, r, limits, story + [d])
    ensures AllHarmless(at, r, limits, story + [d])
  {
    hide Harmless, TookIn;
    var more := story + [d];
    forall i | 0 < i <= |more| && TookIn(more[..i]).Some?
      ensures Harmless(at, r, limits, more[..i])
    {
      if i <= |story| {
        PrefixOfMore(story, d, i);
      } else {
        assert more[..i] == more;
      }
    }
  }

  lemma EndsNow(j: JobData, at: u64, r: SpawnResult, story: seq<Deed>, d: Deed)
    requires r.SpawnOk? && TookIn(story).Some? && AllHarmless(at, r, j.limits, story) && EndsAs(j, d, at, r)
    ensures EndedAt(j, at, r, story + [d], |story|)
  {
    hide TookIn, AllHarmless, EndsAs;
    PrefixOfMore(story, d, |story|);
    assert story[..|story|] == story;
  }

  lemma EndedLonger(j: JobData, at: u64, r: SpawnResult, story: seq<Deed>, d: Deed, k: nat)
    requires r.SpawnOk? && EndedAt(j, at, r, story, k) && d.Cancelled?
    ensures EndedAt(j, at, r, story + [d], k)
  {
    hide TookIn, AllHarmless, EndsAs;
    PrefixOfMore(story, d, k);
  }

  lemma {:induction false} OnlyCancelled(story: seq<Deed>)
    requires forall d :: d in story ==> d.Cancelled?
    ensures TookIn(story) == None && Outs(story) == [] && Errs(story) == []
  {
    if story != [] {
      assert story[|story| - 1] in story;
      OnlyCancelled(story[..|story| - 1]);
    }
  }

  lemma JustSpawned(limits: Limits, story: seq<Deed>, now: u64, r: SpawnResult)
    requires r.SpawnOk? && forall d :: d in story ==> d.Cancelled?
    ensures AllHarmless(now, r, limits, story + [Took(now, r)])
  {
    hide TookIn, Outs, Errs;
    forall i | 0 < i <= |story|
      ensures TookIn(story[..i]) == None
    {
      OnlyCancelled(story[..i]);
    }
    HarmlessMore(now, r, limits, story, Took(now, r));
  }

  lemma TookStep(j: JobData, limits: Limits, story: seq<Deed>, now: u64, result: SpawnResult)
    requires Waits(j, story) && j.limits == limits
    ensures Told(Start(j, now, result), limits, story + [Took(now, result)])
  {
    OnlyCancelled(story);
    OneMore(story, Took(now, result));
    hide TookIn, Outs, Errs, AllHarmless, EndedAt;
    if result.SpawnOk? {
      JustSpawned(limits, story, now, result);
    }
  }

  lemma EndingIs(g: int, final: Status, alive: bool)
    ensures [Spawned(g)] + [Ended(final)] == Ending(g, [], final)
    ensures [Spawned(g)] + Terminate(g) + [Ended(final)] == Ending(g, [TERM], final)
    ensures [Spawned(g)] + CancelSignals(g, alive) + [Ended(final)] ==
            Ending(g, if alive then [TERM, KILL] else [TERM], final)
  {
  }

  /** A visit that ends a job records the end, and the signal if there was one. */
  lemma VisitEnding(j: JobData, now: u64, p: Probe)
    requires PlaceOk(j, false) && j.status == RUNNING
    ensures var t := Scan(j, now, p);
            && t.limits == j.limits && t.startedAtMs == j.startedAtMs && t.processGroup == j.processGroup
            && t.leaderStartTime == j.leaderStartTime
            && (t.status != RUNNING ==>
                  t.trace == Ending(j.processGroup, if Exits(j.processGroup, p) then [] else [TERM], t.status))
  {
    ReadIs(j, p);
    EndingIs(j.processGroup, Scan(j, now, p).status, true);
    hide Read, Overran, OverLogCap, OverProcessCap, Ending, Terminate, CancelSignals, LogOk;
  }

  /** A visit that finds the log too long finds that too much has come. */
  lemma FullIfCut(j: JobData, now: u64, p: Probe)
    requires PlaceOk(j, false) && j.status == RUNNING
    ensures |j.output + Came(j.stdoutFd, p.out)| + |j.error + Came(j.stderrFd, p.err)| <=
            |j.readOut + Came(j.stdoutFd, p.out)| + |j.readErr + Came(j.stderrFd, p.err)|
  {
  }

  lemma VisitedStep(j: JobData, at: u64, r: SpawnResult, story: seq<Deed>, now: u64, p: Probe)
    requires r.SpawnOk? && Ran(j, at, r, story) && j.status == RUNNING && PlaceOk(j, false) && TookIn(story).Some?
    ensures Ran(Scan(j, now, p), at, r, story + [Visited(now, p)])
  {
    hide TookIn, Outs, Errs, Arrived, Scan, PlaceOk, Late, Crowded, Ending, LastN;
    var d := Visited(now, p);
    var t := Scan(j, now, p);
    OneMore(story, d);
    ArrivedMore(r.outFd, Outs(story), p.out);
    ArrivedMore(r.errFd, Errs(story), p.err);
    ScanTexts(j, now, p);
    ScanVerdict(j, now, p);
    VisitEnding(j, now, p);
    if t.status == RUNNING {
      FullIfCut(j, now, p);
      HarmlessMore(at, r, j.limits, story, d);
    } else {
      EndsNow(t, at, r, story, d);
    }
  }

  lemma CancelledStep(j: JobData, limits: Limits, story: seq<Deed>, alive: bool, wallMs: u64)
    requires Told(j, limits, story) && PlaceOk(j, TookIn(story) == None)
    ensures Told(JobModel.Cancel(j, alive, wallMs), limits, story + [Cancelled(alive, wallMs)])
  {
    var d := Cancelled(alive, wallMs);
    var t := JobModel.Cancel(j, alive, wallMs);
    OneMore(story, d);
    EndingIs(j.processGroup, CANCELLED, alive);
    hide TookIn, Outs, Errs, Arrived, AllHarmless, Ending, Terminate, CancelSignals, LogOk;
    match TookIn(story)
    case None =>
    case Some((_, SpawnError(_))) =>
    case Some((at, r)) =>
      if j.status == RUNNING {
        EndsNow(t, at, r, story, d);
      } else {
        var k :| EndedAt(j, at, r, story, k);
        EndedLonger(j, at, r, story, d, k);
      }
  }

  /** What the public enforcement routines do to a running job: each ends it for its own reason and no other, and the log
      cap finds nothing to cut. */
  lemma CapVerdict(j: JobData, cap: Cap)
    requires PlaceOk(j, false) && j.status == RUNNING
    ensures var g := j.processGroup;
            EnforceCap(j, cap) ==
            match cap
            case TimeLimit(now) =>
              if Late(now, j.startedAtMs, j.limits)
              then j.(status := TIMEOUT, endedAtMs := now, trace := Ending(g, [TERM], TIMEOUT)) else j
            case LogCap => j
            case ProcessCap(now, seen, processes) =>
              if Crowded(j.limits, g, j.leaderStartTime, seen, processes)
              then j.(status := PROC_LIMIT, endedAtMs := now, trace := Ending(g, [TERM], PROC_LIMIT)) else j
  {
    EnforceKeepsOk(j, cap);
    EndingIs(j.processGroup, TIMEOUT, true);
    EndingIs(j.processGroup, PROC_LIMIT, true);
    hide Overran, OverLogCap, OverProcessCap, Late, Crowded, Ending, Terminate, CancelSignals, LogOk;
    match cap
    case TimeLimit(now) => OverranIff(j, now);
    case LogCap =>
    case ProcessCap(_, seen, processes) => OverCapIsCrowded(j, seen, processes);
  }

  /** The deed by itself: either it ends the job as EndsAs has it, or it is harmless. */
  lemma CappedDeed(j: JobData, at: u64, r: SpawnResult, more: seq<Deed>, cap: Cap)
    requires r.SpawnOk? && j.status == RUNNING && PlaceOk(j, false) && j.exitCode == -1
    requires j.startedAtMs == at && j.processGroup == r.group && j.leaderStartTime == r.leaderStart
    requires more != [] && more[|more| - 1] == Capped(cap)
    ensures var t := EnforceCap(j, cap);
            && t == j.(status := t.status, endedAtMs := t.endedAtMs, trace := t.trace)
            && (if t.status == RUNNING then t == j && Harmless(at, r, j.limits, more) else EndsAs(t, Capped(cap), at, r))
  {
    CapVerdict(j, cap);
    hide EnforceCap, Late, Crowded, Ending, PlaceOk;
    match cap
    case TimeLimit(_) =>
    case LogCap =>
    case ProcessCap(_, _, _) =>
  }

  lemma CappedStep(j: JobData, at: u64, r: SpawnResult, story: seq<Deed>, cap: Cap)
    requires r.SpawnOk? && Ran(j, at, r, story) && j.status == RUNNING && PlaceOk(j, false) && TookIn(story).Some?
    ensures Ran(EnforceCap(j, cap), at, r, story + [Capped(cap)])
  {
    hide TookIn, Outs, Errs, Arrived, EnforceCap, PlaceOk, Harmless, EndsAs, AllHarmless;
    var d := Capped(cap);
    var t := EnforceCap(j, cap);
    OneMore(story, d);
    CappedDeed(j, at, r, story + [d], cap);
    if t.status == RUNNING {
      HarmlessMore(at, r, j.limits, story, d);
    } else {
      EndsNow(t, at, r, story, d);
    }
  }

  lemma RanWasSpawned(j: JobData, at: u64, r: SpawnResult, story: seq<Deed>)
    requires r.SpawnOk? && Ran(j, at, r, story) && PlaceOk(j, false)
    ensures j.trace != [SpawnFailed]
  {
    hide TookIn, Outs, Errs, Arrived, AllHarmless, LogOk;
  }

  lemma RunningRan(j: JobData, limits: Limits, story: seq<Deed>)
    requires Told(j, limits, story) && j.status == RUNNING
    ensures TookIn(story).Some? && TookIn(story).value.1.SpawnOk?
    ensures Ran(j, TookIn(story).value.0, TookIn(story).value.1, story) && j.limits == limits
  {
    hide Ran, TookIn;
  }

  lemma RanIsTold(j: JobData, limits: Limits, story: seq<Deed>)
    requires j.limits == limits && TookIn(story).Some? && TookIn(story).value.1.SpawnOk?
    requires Ran(j, TookIn(story).value.0, TookIn(story).value.1, story)
    ensures Told(j, limits, story)
  {
    hide Ran, TookIn;
  }

  lemma NeverSpawnedWaits(j: JobData, limits: Limits, story: seq<Deed>)
    requires Told(j, limits, story) && PlaceOk(j, TookIn(story) == None) && NeverSpawned(j)
    ensures Waits(j, story) && TookIn(story) == None && j.limits == limits
  {
    hide Ran, TookIn, Waits;
  }

  lemma ToldStep(j: JobData, limits: Limits, story: seq<Deed>, d: Deed)
    requires Told(j, limits, story) && MayHappen(j, d) && PlaceOk(j, TookIn(story) == None)
    ensures Told(Tell(j, d), limits, story + [d]) && PlaceOk(Tell(j, d), TookIn(story + [d]) == None)
  {
    hide Told, PlaceOk, Waits, Ran, TookIn, Start, Scan, JobModel.Cancel, EnforceCap, NeverSpawned;
    OneMore(story, d);
    match d {
      case Took(now, result) =>
        NeverSpawnedWaits(j, limits, story);
        StartKeepsOk(j, now, result);
        TookStep(j, limits, story, now, result);
      case Visited(now, p) =>
        RunningRan(j, limits, story);
        ScanKeepsOk(j, now, p);
        VisitEnding(j, now, p);
        VisitedStep(j, TookIn(story).value.0, TookIn(story).value.1, story, now, p);
        RanIsTold(Tell(j, d), limits, story + [d]);
      case Cancelled(alive, wallMs) =>
        CancelKeepsOk(j, alive, wallMs, TookIn(story) == None);
        CancelledStep(j, limits, story, alive, wallMs);
      case Capped(cap) =>
        RunningRan(j, limits, story);
        EnforceKeepsOk(j, cap);
        CapVerdict(j, cap);
        CappedStep(j, TookIn(story).value.0, TookIn(story).value.1, story, cap);
        RanIsTold(Tell(j, d), limits, story + [d]);
    }
  }

  /** Whatever happens to a new job, in any order in which it can happen, its record tells it. */
  lemma {:induction false} TaleIsTold(limits: Limits, story: seq<Deed>)
    requires Proper(NewJob(limits), story)
    ensures var j := Tale(NewJob(limits), story);
            Told(j, limits, story) && PlaceOk(j, TookIn(story) == None)
  {
    if story == [] {
      NewJobOk(limits);
    } else {
      var n := |story| - 1;
      TaleIsTold(limits, story[..n]);
      ToldStep(Tale(NewJob(limits), story[..n]), limits, story[..n], story[n]);
      SplitLast(story);
    }
  }
}
