/** monitorMetrics (src/process/metrics.ts): one sampling pass of the newer
    memory monitor. The pidusage reading arrives as a parameter that may be
    an error. */
module Metrics {
  import opened Wrappers
  import opened Config
  import opened NumberUtils
  import opened Manager
  import opened Monitor

  /** monitorMetrics. A failed sampling is logged and ends the pass without
      touching the registry; otherwise every sample is examined in order and
      each selected process recreated before the next sample is looked at. */
  method MonitorMetrics(pool: ProcessManager, config: AppConfig, sampled: Result<seq<Sample>>, forkPids: seq<int>)
    returns (restarted: seq<int>, err: Option<string>)
    requires pool.Valid()
    requires sampled.Success? ==> |forkPids| == |sampled.value|
    modifies pool, pool.activeProcesses.Values
    ensures pool.Valid()
    ensures sampled.Failure? ==>
      && restarted == [] && err.None?
      && pool.activeProcesses == old(pool.activeProcesses) && pool.forks == old(pool.forks)
      && (forall p | p in old(pool.activeProcesses) ::
            old(pool.activeProcesses)[p].signals == old(pool.activeProcesses[p].signals))
    ensures sampled.Success? ==>
      var spec := Monitor.Pass(ConsultsAutoRestart(config.disableAutoRestart), config.maxMemoryRestart,
                       old(pool.activeProcesses.Keys), sampled.value, forkPids);
      restarted == spec.restarted && pool.activeProcesses.Keys == spec.keys && err.Some? == spec.aborted
    ensures pool.forks == old(pool.forks) + |restarted|
    ensures forall p | p in old(pool.activeProcesses) ::
      old(pool.activeProcesses)[p].signals == old(pool.activeProcesses[p].signals) + (if p in restarted then ["sigterm"] else [])
    ensures forall p | p in old(pool.activeProcesses) && p !in restarted ::
      p in pool.activeProcesses && pool.activeProcesses[p] == old(pool.activeProcesses)[p]
  {
    if sampled.Failure? {
      // logged: "Failed to collect metrics for the PIDs (...)"
      return [], None;
    }
    restarted, err := RestartPass(pool, ConsultsAutoRestart(config.disableAutoRestart), config.maxMemoryRestart,
                                  sampled.value, forkPids);
  }

  /** The restart condition of metrics.ts: a threshold is configured,
      auto-restart is enabled, the pid is registered, and the memory reaches
      the threshold, which is memory >= value * 1024^(unit index) in bytes.
      This is Monitor.Selects' own characterisation specialised to the
      ConsultsAutoRestart policy, with the flag as a plain boolean. */
  lemma ShouldRestartIff(threshold: Option<MaxMemoryRestart>, disableAutoRestart: bool, registered: bool, bytes: nat)
    ensures Selects(ConsultsAutoRestart(disableAutoRestart), threshold, registered, bytes)
        <==> && threshold.Some? && !disableAutoRestart && registered
             && bytes as real >= threshold.value.value * Divisor(threshold.value.unit)
  {
    if threshold.Some? {
      ConvertedAtLeastIff(bytes as real, threshold.value.unit, threshold.value.value);
    }
  }

  /** A threshold of 1,000,000 B: 1,500,000 bytes and exactly 1,000,000 bytes
      are restarted, 999,999 bytes is not. */
  lemma ThresholdExample()
    ensures var threshold := Some(MaxMemoryRestart(B, 1000000.0, "1 000 000 B"));
      && Selects(ConsultsAutoRestart(false), threshold, true, 1500000)
      && Selects(ConsultsAutoRestart(false), threshold, true, 1000000)
      && !Selects(ConsultsAutoRestart(false), threshold, true, 999999)
      && !Selects(ConsultsAutoRestart(false), threshold, false, 1500000)
  {
    var threshold := Some(MaxMemoryRestart(B, 1000000.0, "1 000 000 B"));
    ShouldRestartIff(threshold, false, true, 1500000);
    ShouldRestartIff(threshold, false, true, 1000000);
    ShouldRestartIff(threshold, false, true, 999999);
  }

  /** Two registered workers, pids 1 and 2, reporting 999,999 and 1,500,000
      bytes against a 1,000,000 B threshold: only pid 2 is recreated, and the
      worker forked in its place (pid 4, the fork pid paired with its sample)
      takes its slot. */
  method MemoryThresholdScenario() returns (restarted: seq<int>, keys: set<int>)
    ensures restarted == [2]
    ensures keys == {1, 4}
  {
    var pool := new ProcessManager();
    var config := new AppConfig();
    config.maxMemoryRestart := Some(MaxMemoryRestart(B, 1000000.0, "1 000 000 B"));
    var w1 := pool.CreateProcess(1);
    var w2 := pool.CreateProcess(2);
    assert pool.activeProcesses.Keys == {1, 2};
    var samples := [Sample(1, 999999), Sample(2, 1500000)];
    var threshold := config.maxMemoryRestart;
    var policy := ConsultsAutoRestart(false);
    ThresholdExample();
    assert samples[1..] == [Sample(2, 1500000)] && samples[1..][1..] == [];
    assert ({1, 2} - {2}) + {4} == {1, 4};
    assert Monitor.Pass(policy, threshold, {1, 4}, [], []) == PassResult([], {1, 4}, false);
    var err;
    restarted, err := MonitorMetrics(pool, config, Success(samples), [3, 4]);
    keys := pool.activeProcesses.Keys;
  }
}
