/** The admission decision taken once per tick (resource_governor.cpp). Percentages are reals. */
module ResourceGovernor {
  import opened Wrappers

  /** A share of the CPU or of memory. */
  type Percent = p: real | 0.0 <= p witness 0.0

  datatype Decision = START_NOW | HOLD_QUEUE | REJECT_QUEUE_FULL

  datatype BlockReason = NONE | CPU_HIGH | MEM_HIGH | QUEUE_FULL | RUNNING_LIMIT

  datatype GovernorResult = GovernorResult(decision: Decision, reason: BlockReason, retryAfterMs: u64)

  datatype Policy = Policy(
    maxRunningJobs: int,
    maxQueueDepth: int,
    cpuHighWatermarkPct: real,
    memHighWatermarkPct: real,
    cooldownMs: u64,
    minStartGapMs: u64)

  /** Jobs are admitted exactly when none of the four limits is hit, and a full queue outranks every other reason. */
  function Decide(policy: Policy, cpuPct: Percent, memPct: Percent, running: int, queued: int): (r: GovernorResult)
    ensures r.decision == START_NOW <==>
            queued < policy.maxQueueDepth && running < policy.maxRunningJobs &&
            cpuPct < policy.cpuHighWatermarkPct && memPct < policy.memHighWatermarkPct
    ensures r.decision == REJECT_QUEUE_FULL <==> queued >= policy.maxQueueDepth
    ensures r.decision == START_NOW <==> r.reason == NONE
    ensures r.reason == QUEUE_FULL <==> queued >= policy.maxQueueDepth
    ensures r.reason == RUNNING_LIMIT <==> queued < policy.maxQueueDepth && running >= policy.maxRunningJobs
    ensures r.reason == CPU_HIGH <==>
            queued < policy.maxQueueDepth && running < policy.maxRunningJobs && cpuPct >= policy.cpuHighWatermarkPct
    ensures r.retryAfterMs == match r.reason
                              case NONE => 0
                              case RUNNING_LIMIT => policy.minStartGapMs
                              case _ => policy.cooldownMs
  {
    if queued >= policy.maxQueueDepth then
      GovernorResult(REJECT_QUEUE_FULL, QUEUE_FULL, policy.cooldownMs)
    else if running >= policy.maxRunningJobs then
      GovernorResult(HOLD_QUEUE, RUNNING_LIMIT, policy.minStartGapMs)
    else if cpuPct >= policy.cpuHighWatermarkPct then
      GovernorResult(HOLD_QUEUE, CPU_HIGH, policy.cooldownMs)
    else if memPct >= policy.memHighWatermarkPct then
      GovernorResult(HOLD_QUEUE, MEM_HIGH, policy.cooldownMs)
    else
      GovernorResult(START_NOW, NONE, 0)
  }
}
