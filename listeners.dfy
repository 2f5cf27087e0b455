/** metricsCollector (src/process/listeners.ts): the older sampling pass,
    which src/cli/action/start.ts wires in. */
module Listeners {
  import opened Wrappers
  import opened Config
  import opened NumberUtils
  import opened Manager
  import opened Monitor

  /** metricsCollector. A failed sampling is not caught and escapes the pass;
      otherwise the selected processes are recreated in sample order. The
      disableAutoRestart flag plays no part. */
  method MetricsCollector(pool: ProcessManager, config: AppConfig, sampled: Result<seq<Sample>>, forkPids: seq<int>)
    returns (restarted: seq<int>, err: Option<string>)
    requires pool.Valid()
    requires sampled.Success? ==> |forkPids| == |sampled.value|
    modifies pool, pool.activeProcesses.Values
    ensures pool.Valid()
    ensures sampled.Failure? ==>
      && restarted == [] && err == Some(sampled.error)
      && pool.activeProcesses == old(pool.activeProcesses) && pool.forks == old(pool.forks)
      && (forall p | p in old(pool.activeProcesses) ::
            old(pool.activeProcesses)[p].signals == old(pool.activeProcesses[p].signals))
    ensures sampled.Success? ==>
      var spec := Monitor.Pass(IgnoresAutoRestart, config.maxMemoryRestart, old(pool.activeProcesses.Keys), sampled.value, forkPids);
      restarted == spec.restarted && pool.activeProcesses.Keys == spec.keys && err.Some? == spec.aborted
    ensures pool.forks == old(pool.forks) + |restarted|
    ensures forall p | p in old(pool.activeProcesses) ::
      old(pool.activeProcesses)[p].signals == old(pool.activeProcesses[p].signals) + (if p in restarted then ["sigterm"] else [])
    ensures forall p | p in old(pool.activeProcesses) && p !in restarted ::
      p in pool.activeProcesses && pool.activeProcesses[p] == old(pool.activeProcesses)[p]
  {
    if sampled.Failure? {
      return [], Some(sampled.error);
    }
    restarted, err := RestartPass(pool, IgnoresAutoRestart, config.maxMemoryRestart, sampled.value, forkPids);
  }

  /** The restart condition of listeners.ts: a threshold is configured, the pid
      is registered, and the memory reaches the threshold (inclusive). This is
      Monitor.Selects' own characterisation specialised to the
      IgnoresAutoRestart policy. */
  lemma ShouldRestartIff(threshold: Option<MaxMemoryRestart>, registered: bool, bytes: nat)
    ensures Selects(IgnoresAutoRestart, threshold, registered, bytes)
        <==> && threshold.Some? && registered
             && bytes as real >= threshold.value.value * Divisor(threshold.value.unit)
  {
    if threshold.Some? {
      ConvertedAtLeastIff(bytes as real, threshold.value.unit, threshold.value.value);
    }
  }

  /** With auto-restart disabled, a breaching registered process is still
      recreated by metricsCollector, while monitorMetrics leaves it alone. */
  lemma CollectorIgnoresDisabledAutoRestart(threshold: MaxMemoryRestart, keys: set<int>, s: Sample, forkPid: int)
    requires s.pid in keys && forkPid != 0
    requires s.memory as real >= threshold.value * Divisor(threshold.unit)
    ensures Monitor.Pass(IgnoresAutoRestart, Some(threshold), keys, [s], [forkPid]).restarted == [s.pid]
    ensures Monitor.Pass(ConsultsAutoRestart(true), Some(threshold), keys, [s], [forkPid]).restarted == []
  {
    ShouldRestartIff(Some(threshold), true, s.memory);
    QuietPass(ConsultsAutoRestart(true), Some(threshold), keys, [s], [forkPid]);
  }
}
