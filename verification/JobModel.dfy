/** One job: its record, what each enforcement routine of job.cpp does to it, and what stays true of it. */
module JobModel {
  import opened Wrappers
  import opened Sequences

  datatype Status = QUEUED | STARTING | RUNNING | COMPLETED | FAILED | CANCELLED | TIMEOUT | PROC_LIMIT

  datatype Limits = Limits(maxRuntimeMs: u64, maxLogBytes: u64, maxChildProcesses: int)

  datatype Sig = TERM | KILL

  /** What has been done to a job since its submission, in order. */
  datatype Event =
    | Spawned(group: int)
    | SpawnFailed
    | Sent(to: int, sig: Sig)
    | Ended(final: Status)

  /** The record of a job. The last three fields are histories the program itself does not keep. */
  datatype JobData = JobData(
    status: Status,
    exitCode: int,
    output: string,
    error: string,
    logTruncated: bool,
    bytesWritten: nat,
    startedAtMs: u64,
    endedAtMs: u64,
    processGroup: int,
    leaderStartTime: u64,
    limits: Limits,
    stdoutFd: int,
    stderrFd: int,
    readOut: string,
    readErr: string,
    trace: seq<Event>)

  const READ_CHUNK := 4096

  /** What one non-blocking read can deliver. */
  type Chunk = s: string | 0 < |s| <= READ_CHUNK witness "x"

  datatype ReadResult = Again | Eof | Data(bytes: Chunk)

  /** waitpid with WNOHANG: nothing to reap (or an error), or the leader's status. */
  datatype WaitResult = NotReaped | Reaped(exited: bool, code: int, wallMs: u64)

  /** Everything the operating system answers while one job is scanned. */
  datatype Probe = Probe(
    out: ReadResult,
    err: ReadResult,
    wait: WaitResult,
    leaderStart: Option<u64>,
    processes: int)

  /** What the spawner answers. A spawner that fails leaves its message in the job's error text. */
  datatype SpawnResult = SpawnError(text: string) | SpawnOk(group: int, leaderStart: u64, outFd: int, errFd: int)

  function NewJob(limits: Limits): JobData {
    JobData(QUEUED, -1, "", "", false, 0, 0, 0, -1, 0, limits, -1, -1, "", "", [])
  }

  predicate IsActive(s: Status) {
    s == RUNNING || s == STARTING
  }

  /** Unsigned 64-bit subtraction. */
  function RuntimeMs(now: u64, started: u64): (r: u64)
    ensures started <= now <==> r == now - started
  {
    (now - started) % TWO_TO_THE_64
  }

  function TotalKept(j: JobData): nat {
    |j.output| + |j.error|
  }

  // ----- the routines -----

  function Start(j: JobData, now: u64, r: SpawnResult): JobData {
    match r
    case SpawnError(text) => j.(status := FAILED, error := text, trace := j.trace + [SpawnFailed])
    case SpawnOk(group, leaderStart, outFd, errFd) =>
      j.(status := RUNNING, startedAtMs := now, processGroup := group, leaderStartTime := leaderStart,
         stdoutFd := outFd, stderrFd := errFd, trace := j.trace + [Spawned(group)])
  }

  function ReadStdout(j: JobData, r: ReadResult): JobData {
    if j.stdoutFd == -1 then j else
    match r
    case Again => j
    case Eof => j.(stdoutFd := -1)
    case Data(bytes) =>
      j.(output := j.output + bytes, bytesWritten := j.bytesWritten + |bytes|, readOut := j.readOut + bytes)
  }

  function ReadStderr(j: JobData, r: ReadResult): JobData {
    if j.stderrFd == -1 then j else
    match r
    case Again => j
    case Eof => j.(stderrFd := -1)
    case Data(bytes) =>
      j.(error := j.error + bytes, bytesWritten := j.bytesWritten + |bytes|, readErr := j.readErr + bytes)
  }

  function Finish(j: JobData, exited: bool, code: int, wallMs: u64): JobData {
    var exitCode := if exited then code else -1;
    var status := if exitCode == 0 then COMPLETED else FAILED;
    j.(exitCode := exitCode, endedAtMs := wallMs, status := status, stdoutFd := -1, stderrFd := -1,
       trace := j.trace + [Ended(status)])
  }

  function Terminate(group: int): seq<Event> {
    if group > 0 then [Sent(group, TERM)] else []
  }

  predicate Overran(j: JobData, now: u64) {
    RuntimeMs(now, j.startedAtMs) > j.limits.maxRuntimeMs
  }

  function EnforceTimeout(j: JobData, now: u64): JobData {
    if Overran(j, now) then
      j.(status := TIMEOUT, endedAtMs := now, trace := j.trace + Terminate(j.processGroup) + [Ended(TIMEOUT)])
    else j
  }

  predicate OverLogCap(j: JobData) {
    TotalKept(j) > j.limits.maxLogBytes
  }

  function Tail(s: string, keep: nat): string {
    if |s| > keep then s[|s| - keep..] else s
  }

  /** size_t subtraction: max_log_bytes less what is kept of the output. */
  function EnforceLogCap(j: JobData): JobData {
    if OverLogCap(j) then
      var output := Tail(j.output, j.limits.maxLogBytes / 2);
      var remaining := (j.limits.maxLogBytes - |output|) % TWO_TO_THE_64;
      j.(output := output, error := Tail(j.error, remaining), logTruncated := true,
         bytesWritten := j.limits.maxLogBytes)
    else j
  }

  predicate LeaderReplaced(j: JobData, leaderStart: Option<u64>) {
    j.leaderStartTime != 0 && j.processGroup > 0 && leaderStart.Some? && leaderStart.value != j.leaderStartTime
  }

  predicate OverProcessCap(j: JobData, leaderStart: Option<u64>, processes: int) {
    !LeaderReplaced(j, leaderStart) && processes >= 0 && processes > j.limits.maxChildProcesses
  }

  function EnforceProcessCap(j: JobData, now: u64, leaderStart: Option<u64>, processes: int): JobData {
    if OverProcessCap(j, leaderStart, processes) then
      j.(status := PROC_LIMIT, endedAtMs := now,
         trace := j.trace + Terminate(j.processGroup) + [Ended(PROC_LIMIT)])
    else j
  }

  /** The three enforcement routines, which are also public calls of their own. */
  datatype Cap = TimeLimit(now: u64) | LogCap | ProcessCap(now: u64, leaderStart: Option<u64>, processes: int)

  function EnforceCap(j: JobData, cap: Cap): JobData {
    match cap
    case TimeLimit(now) => EnforceTimeout(j, now)
    case LogCap => EnforceLogCap(j)
    case ProcessCap(now, leaderStart, processes) => EnforceProcessCap(j, now, leaderStart, processes)
  }

  function Read(j: JobData, p: Probe): JobData {
    ReadStderr(ReadStdout(j, p.out), p.err)
  }

  /** One visit of check_job_limits to one job. */
  function Scan(j: JobData, now: u64, p: Probe): JobData {
    var r := Read(j, p);
    if r.processGroup > 0 && p.wait.Reaped? then Finish(r, p.wait.exited, p.wait.code, p.wait.wallMs)
    else if Overran(r, now) then EnforceTimeout(r, now)
    else if OverLogCap(r) then EnforceLogCap(r)
    else EnforceProcessCap(r, now, p.leaderStart, p.processes)
  }

  /** `alive` is what kill(-group, 0) says after the grace period. */
  function CancelSignals(group: int, alive: bool): seq<Event> {
    if group <= 0 then [] else if alive then [Sent(group, TERM), Sent(group, KILL)] else [Sent(group, TERM)]
  }

  function Cancel(j: JobData, alive: bool, wallMs: u64): JobData {
    match j.status
    case RUNNING =>
      j.(status := CANCELLED, endedAtMs := wallMs,
         trace := j.trace + CancelSignals(j.processGroup, alive) + [Ended(CANCELLED)])
    case QUEUED => j.(status := CANCELLED, endedAtMs := wallMs)
    case _ => j
  }

  // ----- what stays true of one job -----

  ghost predicate NeverSpawned(j: JobData) {
    j == NewJob(j.limits).(status := j.status, endedAtMs := j.endedAtMs)
  }

  ghost predicate KilledTrace(j: JobData, alive: bool) {
    j.trace == [Spawned(j.processGroup)] + CancelSignals(j.processGroup, alive) + [Ended(CANCELLED)]
  }

  /** The whole life of a job can be read off its status. */
  ghost predicate LifecycleOk(j: JobData) {
    var g := j.processGroup;
    match j.status
    case QUEUED => NeverSpawned(j)
    case STARTING => false
    case RUNNING => j.trace == [Spawned(g)]
    case COMPLETED => j.trace == [Spawned(g), Ended(COMPLETED)] && j.exitCode == 0
    case FAILED => j.trace == [SpawnFailed] || (j.trace == [Spawned(g), Ended(FAILED)] && j.exitCode != 0)
    case CANCELLED => NeverSpawned(j) || KilledTrace(j, true) || KilledTrace(j, false)
    case TIMEOUT => j.trace == [Spawned(g)] + Terminate(g) + [Ended(TIMEOUT)]
    case PROC_LIMIT => j.trace == [Spawned(g)] + Terminate(g) + [Ended(PROC_LIMIT)]
  }

  /** Everything about a job that reading from its pipes leaves alone. */
  ghost predicate OnlyStreamsDiffer(j: JobData, r: JobData) {
    && r.status == j.status && r.exitCode == j.exitCode && r.logTruncated == j.logTruncated
    && r.startedAtMs == j.startedAtMs && r.endedAtMs == j.endedAtMs && r.processGroup == j.processGroup
    && r.leaderStartTime == j.leaderStartTime && r.limits == j.limits && r.trace == j.trace
  }

  /** The log clauses that hold even between a read and the cap. */
  ghost predicate StreamsOk(j: JobData, slack: nat) {
    && IsSuffix(j.output, j.readOut)
    && IsSuffix(j.error, j.readErr)
    && (!j.logTruncated ==> j.output == j.readOut && j.error == j.readErr && j.bytesWritten == TotalKept(j))
    && (j.logTruncated ==> |j.readOut| + |j.readErr| > j.limits.maxLogBytes)
    && j.bytesWritten >= TotalKept(j)
    && TotalKept(j) <= j.limits.maxLogBytes + slack
  }

  /** A running job is within its cap; a job that ended may exceed it by what its last visit read. A job that was never
      spawned has read nothing and holds at most the spawner's message. */
  ghost predicate LogOk(j: JobData) {
    if j.trace == [SpawnFailed] then j.output == j.readOut == j.readErr == ""
    else StreamsOk(j, if j.status == RUNNING then 0 else 2 * READ_CHUNK)
  }

  ghost predicate JobOk(j: JobData) {
    LifecycleOk(j) && LogOk(j)
  }

  /** What holds of a job according to whether it is still in the queue. */
  ghost predicate PlaceOk(j: JobData, inQueue: bool) {
    JobOk(j) && if inQueue then NeverSpawned(j) else j.trace != []
  }

  /** A job in the queue has not been touched, except perhaps by a cancellation; a job out of the queue has left QUEUED
      and STARTING for good; and COMPLETED means exit code 0. */
  lemma StatusByPlace(j: JobData, inQueue: bool)
    requires PlaceOk(j, inQueue)
    ensures inQueue ==> j.status == QUEUED || j.status == CANCELLED
    ensures !inQueue ==> j.status != QUEUED
    ensures j.status != STARTING
    ensures j.status == COMPLETED ==> j.exitCode == 0
    ensures IsActive(j.status) <==> j.status == RUNNING
  {
  }

  lemma NewJobOk(limits: Limits)
    ensures PlaceOk(NewJob(limits), true)
  {
  }

  lemma StartKeepsOk(j: JobData, now: u64, r: SpawnResult)
    requires PlaceOk(j, true)
    ensures PlaceOk(Start(j, now, r), false)
    ensures Start(j, now, r).status == if r.SpawnOk? then RUNNING else FAILED
  {
  }

  lemma ReadStdoutKeeps(j: JobData, r: ReadResult, slack: nat)
    requires StreamsOk(j, slack)
    ensures StreamsOk(ReadStdout(j, r), slack + READ_CHUNK) && OnlyStreamsDiffer(j, ReadStdout(j, r))
  {
    if j.stdoutFd != -1 && r.Data? {
      SuffixExtend(j.output, j.readOut, r.bytes);
    }
  }

  lemma ReadStderrKeeps(j: JobData, r: ReadResult, slack: nat)
    requires StreamsOk(j, slack)
    ensures StreamsOk(ReadStderr(j, r), slack + READ_CHUNK) && OnlyStreamsDiffer(j, ReadStderr(j, r))
  {
    if j.stderrFd != -1 && r.Data? {
      SuffixExtend(j.error, j.readErr, r.bytes);
    }
  }

  lemma ReadKeeps(j: JobData, p: Probe)
    requires StreamsOk(j, 0)
    ensures StreamsOk(Read(j, p), 2 * READ_CHUNK) && OnlyStreamsDiffer(j, Read(j, p))
  {
    ReadStdoutKeeps(j, p.out, 0);
    ReadStderrKeeps(ReadStdout(j, p.out), p.err, READ_CHUNK);
  }

  /** Cutting an over-long log: never underflows, keeps suffixes, leaves at most the cap, and cutting again changes nothing. */
  lemma LogCapBounds(j: JobData)
    ensures var t := EnforceLogCap(j);
            && TotalKept(t) <= t.limits.maxLogBytes
            && IsSuffix(t.output, j.output) && IsSuffix(t.error, j.error)
            && (OverLogCap(j) ==> |t.output| <= j.limits.maxLogBytes &&
                                  |t.error| <= j.limits.maxLogBytes - |t.output| &&
                                  t.bytesWritten >= TotalKept(t))
            && EnforceLogCap(t) == t
  {
    if OverLogCap(j) {
      var output := Tail(j.output, j.limits.maxLogBytes / 2);
      assert |output| <= j.limits.maxLogBytes;
      assert (j.limits.maxLogBytes - |output|) % TWO_TO_THE_64 == j.limits.maxLogBytes - |output|;
    }
  }

  /** How much of an over-long log survives: the last half cap of the output, and of the error text the last characters
      that the rest of the cap has room for. Nothing else changes but the flag and the count. */
  lemma LogCapKeeps(j: JobData)
    requires OverLogCap(j)
    ensures var t := EnforceLogCap(j);
            var max := j.limits.maxLogBytes;
            && t.output == LastN(j.output, max / 2) && |t.output| <= max
            && t.error == LastN(j.error, max - |t.output|)
            && t == j.(output := t.output, error := t.error, logTruncated := true, bytesWritten := max)
  {
    var output := Tail(j.output, j.limits.maxLogBytes / 2);
    assert |output| <= j.limits.maxLogBytes;
    assert (j.limits.maxLogBytes - |output|) % TWO_TO_THE_64 == j.limits.maxLogBytes - |output|;
  }

  /** A running job between its reads and its checks. */
  ghost predicate MidVisit(r: JobData) {
    r.status == RUNNING && r.trace == [Spawned(r.processGroup)] && StreamsOk(r, 2 * READ_CHUNK)
  }

  lemma FinishOk(r: JobData, exited: bool, code: int, wallMs: u64)
    requires MidVisit(r)
    ensures PlaceOk(Finish(r, exited, code, wallMs), false)
  {
    hide IsSuffix;
  }

  lemma TimeoutOk(r: JobData, now: u64)
    requires MidVisit(r) && Overran(r, now)
    ensures PlaceOk(EnforceTimeout(r, now), false)
  {
    hide IsSuffix, Overran;
  }

  lemma CutOk(r: JobData)
    requires MidVisit(r) && OverLogCap(r)
    ensures PlaceOk(EnforceLogCap(r), false)
  {
    hide IsSuffix, EnforceLogCap;
    LogCapBounds(r);
    CutFrame(r);
    var t := EnforceLogCap(r);
    SuffixTrans(t.output, r.output, r.readOut);
    SuffixTrans(t.error, r.error, r.readErr);
  }

  /** Cutting changes the two texts, the flag and the count, and nothing else. */
  lemma CutFrame(r: JobData)
    requires OverLogCap(r)
    ensures var t := EnforceLogCap(r);
            && OnlyStreamsDiffer(t.(logTruncated := r.logTruncated), r)
            && t.readOut == r.readOut && t.readErr == r.readErr && t.logTruncated
            && t.bytesWritten == r.limits.maxLogBytes
  {
    hide Tail;
  }

  lemma ProcessCapOk(r: JobData, now: u64, leaderStart: Option<u64>, processes: int)
    requires MidVisit(r) && !OverLogCap(r)
    ensures PlaceOk(EnforceProcessCap(r, now, leaderStart, processes), false)
  {
    hide IsSuffix, OverProcessCap;
  }

  lemma ReadMidVisit(j: JobData, p: Probe)
    requires PlaceOk(j, false) && j.status == RUNNING
    ensures MidVisit(Read(j, p))
  {
    ReadKeeps(j, p);
    hide IsSuffix, Read;
  }

  lemma ScanKeepsOk(j: JobData, now: u64, p: Probe)
    requires PlaceOk(j, false) && j.status == RUNNING
    ensures PlaceOk(Scan(j, now, p), false)
  {
    ReadMidVisit(j, p);
    hide PlaceOk, MidVisit, Read, Finish, EnforceTimeout, EnforceLogCap, EnforceProcessCap, Overran, OverLogCap;
    var r := Read(j, p);
    if r.processGroup > 0 && p.wait.Reaped? {
      FinishOk(r, p.wait.exited, p.wait.code, p.wait.wallMs);
    } else if Overran(r, now) {
      TimeoutOk(r, now);
    } else if OverLogCap(r) {
      CutOk(r);
    } else {
      ProcessCapOk(r, now, p.leaderStart, p.processes);
    }
  }

  /** The runtime at `now` is more than the limit, as unsigned 64-bit arithmetic has it. */
  ghost predicate Late(now: u64, started: u64, limits: Limits) {
    if started <= now then now - started > limits.maxRuntimeMs else started - now < TWO_TO_THE_64 - limits.maxRuntimeMs
  }

  /** The group has more processes than allowed, and its leader is, as far as can be told, the process spawned. */
  ghost predicate Crowded(limits: Limits, group: int, leader: u64, seen: Option<u64>, processes: int) {
    && processes > limits.maxChildProcesses && processes > -1
    && (seen == None || seen == Some(leader) || leader == 0 || group <= 0)
  }

  ghost predicate Exits(group: int, p: Probe) {
    group > 0 && p.wait.Reaped?
  }

  /** What a read delivers. */
  ghost function Came(fd: int, r: ReadResult): string {
    if fd != -1 && r.Data? then r.bytes else ""
  }

  /** The unsigned subtraction in enforce_job_timeout tells the truth exactly when the clock has not gone back; a clock
      behind the start time looks like an enormous runtime. */
  lemma OverranIff(j: JobData, now: u64)
    ensures Overran(j, now) <==> Late(now, j.startedAtMs, j.limits)
  {
    if now < j.startedAtMs {
      assert (now - j.startedAtMs) % TWO_TO_THE_64 == now - j.startedAtMs + TWO_TO_THE_64;
    }
  }

  lemma OverCapIsCrowded(j: JobData, seen: Option<u64>, processes: int)
    ensures OverProcessCap(j, seen, processes) <==> Crowded(j.limits, j.processGroup, j.leaderStartTime, seen, processes)
  {
  }

  lemma ReadIs(j: JobData, p: Probe)
    ensures var out := Came(j.stdoutFd, p.out);
            var err := Came(j.stderrFd, p.err);
            var r := Read(j, p);
            && r.output == j.output + out && r.error == j.error + err
            && r.readOut == j.readOut + out && r.readErr == j.readErr + err
            && r.bytesWritten == j.bytesWritten + |out| + |err|
            && r.stdoutFd == (if p.out.Eof? then -1 else j.stdoutFd)
            && r.stderrFd == (if p.err.Eof? then -1 else j.stderrFd)
            && OnlyStreamsDiffer(j, r)
  {
  }

  /** What one visit decides, and in which order: an exit outranks the time limit, the time limit the log cap, and a cut
      log spares the job the process cap until its next visit. */
  lemma ScanVerdict(j: JobData, now: u64, p: Probe)
    requires j.status == RUNNING
    ensures var ended := Exits(j.processGroup, p);
            var late := Late(now, j.startedAtMs, j.limits);
            var cut := |j.output + Came(j.stdoutFd, p.out)| + |j.error + Came(j.stderrFd, p.err)| > j.limits.maxLogBytes;
            var crowded := Crowded(j.limits, j.processGroup, j.leaderStartTime, p.leaderStart, p.processes);
            var r := Scan(j, now, p);
            && (r.status == COMPLETED <==> ended && p.wait.exited && p.wait.code == 0)
            && (r.status == FAILED <==> ended && !(p.wait.exited && p.wait.code == 0))
            && (r.status == TIMEOUT <==> !ended && late)
            && (r.status == PROC_LIMIT <==> !ended && !late && !cut && crowded)
            && (r.status == RUNNING <==> !ended && !late && (cut || !crowded))
            && r.exitCode == (if !ended then j.exitCode else if p.wait.exited then p.wait.code else -1)
            && r.endedAtMs == (if ended then p.wait.wallMs else if r.status == RUNNING then j.endedAtMs else now)
  {
    ReadIs(j, p);
    hide Read, Tail;
    OverranIff(Read(j, p), now);
    OverCapIsCrowded(Read(j, p), p.leaderStart, p.processes);
  }

  /** What one visit leaves of the texts: all that was there and all that came, unless the job goes on running and that is
      more than the cap; then the last half cap of the output, and as much of the error text as the rest has room for. */
  lemma ScanTexts(j: JobData, now: u64, p: Probe)
    requires j.status == RUNNING
    ensures var out := j.output + Came(j.stdoutFd, p.out);
            var err := j.error + Came(j.stderrFd, p.err);
            var max := j.limits.maxLogBytes;
            var r := Scan(j, now, p);
            var cut := |out| + |err| > max && r.status == RUNNING;
            && r.output == (if cut then LastN(out, max / 2) else out)
            && (cut ==> |r.output| <= max && r.error == LastN(err, max - |r.output|))
            && (!cut ==> r.error == err)
            && r.logTruncated == (j.logTruncated || cut)
            && r.bytesWritten == (if cut then max
                                  else j.bytesWritten + |Came(j.stdoutFd, p.out)| + |Came(j.stderrFd, p.err)|)
            && r.stdoutFd == (if p.out.Eof? || Exits(j.processGroup, p) then -1 else j.stdoutFd)
            && r.stderrFd == (if p.err.Eof? || Exits(j.processGroup, p) then -1 else j.stderrFd)
            && r.readOut == j.readOut + Came(j.stdoutFd, p.out) && r.readErr == j.readErr + Came(j.stderrFd, p.err)
  {
    ReadIs(j, p);
    var r := Read(j, p);
    hide Read, Overran, OverProcessCap, LastN, Tail, EnforceLogCap;
    if OverLogCap(r) {
      LogCapKeeps(r);
    }
  }

  /** Between calls a running job is within its log cap, so only the time limit and the process cap can act on it. */
  lemma EnforceKeepsOk(j: JobData, cap: Cap)
    requires PlaceOk(j, false) && j.status == RUNNING
    ensures PlaceOk(EnforceCap(j, cap), false)
    ensures cap.LogCap? ==> EnforceCap(j, cap) == j
    ensures EnforceCap(j, cap).status in {RUNNING, TIMEOUT, PROC_LIMIT}
  {
    assert MidVisit(j) && !OverLogCap(j);
    hide PlaceOk, MidVisit, Overran, OverLogCap, OverProcessCap;
    match cap
    case TimeLimit(now) =>
      if Overran(j, now) {
        TimeoutOk(j, now);
      }
    case LogCap =>
    case ProcessCap(now, leaderStart, processes) => ProcessCapOk(j, now, leaderStart, processes);
  }

  lemma CancelKeepsOk(j: JobData, alive: bool, wallMs: u64, inQueue: bool)
    requires PlaceOk(j, inQueue)
    ensures PlaceOk(Cancel(j, alive, wallMs), inQueue)
  {
    if j.status == RUNNING {
      assert KilledTrace(Cancel(j, alive, wallMs), alive);
    }
  }

  // ----- what the trace of a job says -----

  function SignalOf(e: Event): seq<Sig> {
    if e.Sent? then [e.sig] else []
  }

  function SignalsOf(trace: seq<Event>): seq<Sig> {
    if trace == [] then [] else SignalOf(trace[0]) + SignalsOf(trace[1..])
  }

  lemma {:induction false} SignalsConcat(a: seq<Event>, b: seq<Event>)
    ensures SignalsOf(a + b) == SignalsOf(a) + SignalsOf(b)
  {
    hide SignalOf;
    if a == [] {
      assert a + b == b;
    } else {
      SignalsConcat(a[1..], b);
      assert (a + b)[1..] == a[1..] + b;
      ConcatAssoc(SignalOf(a[0]), SignalsOf(a[1..]), SignalsOf(b));
    }
  }

  lemma SignalsOfEnclosed(first: Event, middle: seq<Event>, last: Event)
    requires !first.Sent? && !last.Sent?
    ensures SignalsOf([first] + middle + [last]) == SignalsOf(middle)
  {
    SignalsConcat([first] + middle, [last]);
    SignalsConcat([first], middle);
  }

  /** A trace is empty, one entry, or a spawn, the signals sent and the end. */
  lemma TraceShape(j: JobData)
    requires JobOk(j)
    ensures var t := j.trace;
            var g := j.processGroup;
            || t == [] || t == [SpawnFailed] || t == [Spawned(g)]
            || t == [Spawned(g), Ended(j.status)]
            || (g > 0 && t == [Spawned(g), Sent(g, TERM), Ended(j.status)])
            || (g > 0 && j.status == CANCELLED && t == [Spawned(g), Sent(g, TERM), Sent(g, KILL), Ended(j.status)])
  {
    hide LogOk;
  }

  /** Every signal of the trace lies strictly between the spawn of the group it was sent to and the end of the job, and
      KILL follows TERM and only on cancellation. */
  ghost predicate Disciplined(j: JobData) {
    && (SignalsOf(j.trace) == [] || SignalsOf(j.trace) == [TERM] || SignalsOf(j.trace) == [TERM, KILL])
    && (KILL in SignalsOf(j.trace) ==> j.status == CANCELLED)
    && (forall i :: 0 <= i < |j.trace| && j.trace[i].Sent? ==>
          && 0 < i < |j.trace| - 1
          && j.trace[0] == Spawned(j.trace[i].to) && j.trace[i].to == j.processGroup > 0
          && j.trace[|j.trace| - 1] == Ended(j.status))
  }

  /** A job is sent nothing, TERM, or TERM then KILL; KILL only when it was cancelled; and every signal goes to the
      process group its one spawn recorded, after that spawn and before its end. */
  lemma SignalDiscipline(j: JobData)
    requires JobOk(j)
    ensures Disciplined(j)
  {
    TraceShape(j);
    hide JobOk;
    SignalsOfShape(j.trace, j.processGroup, j.status);
  }

  lemma SignalsOfShape(t: seq<Event>, g: int, status: Status)
    ensures t == [] || t == [SpawnFailed] || t == [Spawned(g)] || t == [Spawned(g), Ended(status)] ==> SignalsOf(t) == []
    ensures t == [Spawned(g), Sent(g, TERM), Ended(status)] ==> SignalsOf(t) == [TERM]
    ensures t == [Spawned(g), Sent(g, TERM), Sent(g, KILL), Ended(status)] ==> SignalsOf(t) == [TERM, KILL]
  {
    hide SignalsOf;
    SignalsOfNone();
    SignalsOfOne(SpawnFailed);
    SignalsOfOne(Spawned(g));
    SignalsOfOne(Sent(g, TERM));
    SignalsOfOne(Sent(g, KILL));
    SignalsOfEnclosed(Spawned(g), [], Ended(status));
    assert [Spawned(g)] + [] + [Ended(status)] == [Spawned(g), Ended(status)];
    SignalsOfEnclosed(Spawned(g), [Sent(g, TERM)], Ended(status));
    assert [Spawned(g)] + [Sent(g, TERM)] + [Ended(status)] == [Spawned(g), Sent(g, TERM), Ended(status)];
    SignalsConcat([Sent(g, TERM)], [Sent(g, KILL)]);
    SignalsOfEnclosed(Spawned(g), [Sent(g, TERM)] + [Sent(g, KILL)], Ended(status));
    assert [Spawned(g)] + ([Sent(g, TERM)] + [Sent(g, KILL)]) + [Ended(status)] ==
           [Spawned(g), Sent(g, TERM), Sent(g, KILL), Ended(status)];
  }

  lemma SignalsOfNone()
    ensures SignalsOf([]) == []
  {
  }

  lemma SignalsOfOne(e: Event)
    ensures SignalsOf([e]) == SignalOf(e)
  {
    assert [e][1..] == [];
  }
}
