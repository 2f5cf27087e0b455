/** The memory-threshold restart pass shared by the two monitors: the loop
    of monitorMetrics (src/process/metrics.ts) and of metricsCollector
    (src/process/listeners.ts). They differ only in whether the
    disableAutoRestart flag is consulted. */
module Monitor {
  import opened Wrappers
  import opened Config
  import opened NumberUtils
  import opened Manager

  /** One pidusage reading: a pid and its memory in bytes. */
  datatype Sample = Sample(pid: int, memory: nat)

  /** Which monitor runs the pass. */
  datatype Policy =
    | ConsultsAutoRestart(disableAutoRestart: bool)  // monitorMetrics
    | IgnoresAutoRestart                             // metricsCollector

  /** `config.maxMemoryRestart?.unit ?? MemoryUnit.MB`. */
  function MonitorUnit(threshold: Option<MaxMemoryRestart>): (u: MemoryUnit)
    ensures threshold.Some? ==> u == threshold.value.unit
    ensures threshold.None? ==> u == MB
  {
    if threshold.Some? then threshold.value.unit else MB
  }

  /** The sampled memory converted into the monitor's unit. */
  function ActualMemory(threshold: Option<MaxMemoryRestart>, bytes: nat): real {
    ConvertKnownUnit(bytes as real, MonitorUnit(threshold));
    ConvertFromBytes(bytes as real, UnitName(MonitorUnit(threshold))).value
  }

  /** The restart condition of each monitor: a threshold is configured,
      monitorMetrics also finds auto-restart enabled, the pid is
      registered, and the sampled bytes reach value * 1024^(unit index). */
  predicate Selects(policy: Policy, threshold: Option<MaxMemoryRestart>, registered: bool, bytes: nat)
    ensures Selects(policy, threshold, registered, bytes) <==>
      && threshold.Some? && registered
      && (policy.ConsultsAutoRestart? ==> !policy.disableAutoRestart)
      && bytes as real >= threshold.value.value * Divisor(threshold.value.unit)
  {
    if threshold.None? then false
    else
      ConvertedAtLeastIff(bytes as real, threshold.value.unit, threshold.value.value);
      && (policy.ConsultsAutoRestart? ==> !policy.disableAutoRestart)
      && registered
      && ActualMemory(threshold, bytes) >= threshold.value.value
  }

  /** What a pass did: the pids it restarted in order, the registry keys it
      left, and whether a recreation threw and ended the pass. */
  datatype PassResult = PassResult(restarted: seq<int>, keys: set<int>, aborted: bool)

  /** The pass over the registry's keys. A selected sample's pid is destroyed
      and a worker with the next fork pid registered; a fork pid of 0 makes
      createProcess throw, which ends the pass. */
  function Pass(policy: Policy, threshold: Option<MaxMemoryRestart>, keys: set<int>,
                samples: seq<Sample>, forkPids: seq<int>): (r: PassResult)
    requires |forkPids| == |samples|
    ensures |r.restarted| <= |samples|
    ensures r.aborted ==> r.restarted != [] && 0 in forkPids
    ensures forall p | p in r.keys && p !in keys :: p in forkPids
    decreases |samples|
  {
    if samples == [] then PassResult([], keys, false)
    else
      var s := samples[0];
      if !Selects(policy, threshold, s.pid in keys, s.memory) then
        Pass(policy, threshold, keys, samples[1..], forkPids[1..])
      else if forkPids[0] == 0 then
        PassResult([s.pid], keys - {s.pid}, true)
      else
        var rest := Pass(policy, threshold, (keys - {s.pid}) + {forkPids[0]}, samples[1..], forkPids[1..]);
        PassResult([s.pid] + rest.restarted, rest.keys, rest.aborted)
  }

  /** `done` followed by what the rest of the pass does. */
  function Prepend(done: seq<int>, rest: PassResult): PassResult {
    PassResult(done + rest.restarted, rest.keys, rest.aborted)
  }

  lemma PrependAssoc(done: seq<int>, pid: int, rest: PassResult)
    ensures Prepend(done, Prepend([pid], rest)) == Prepend(done + [pid], rest)
  {
    assert done + ([pid] + rest.restarted) == (done + [pid]) + rest.restarted;
  }

  /** The loop over the samples: recreate each selected process, in sample
      order, each before the next sample is examined. `forkPids[i]` is the
      pid the worker forked for sample i receives. */
  method RestartPass(pool: ProcessManager, policy: Policy, threshold: Option<MaxMemoryRestart>,
                     samples: seq<Sample>, forkPids: seq<int>)
    returns (restarted: seq<int>, err: Option<string>)
    requires pool.Valid()
    requires |forkPids| == |samples|
    modifies pool, pool.activeProcesses.Values
    ensures pool.Valid()
    ensures var spec := Pass(policy, threshold, old(pool.activeProcesses.Keys), samples, forkPids);
      restarted == spec.restarted && pool.activeProcesses.Keys == spec.keys && err.Some? == spec.aborted
    ensures pool.forks == old(pool.forks) + |restarted|
    ensures forall p | p in old(pool.activeProcesses) ::
      old(pool.activeProcesses)[p].signals == old(pool.activeProcesses[p].signals) + (if p in restarted then ["sigterm"] else [])
    ensures forall p | p in old(pool.activeProcesses) && p !in restarted ::
      p in pool.activeProcesses && pool.activeProcesses[p] == old(pool.activeProcesses)[p]
  {
    restarted, err := [], None;
    ghost var initial := pool.activeProcesses;
    ghost var signals0 := map p | p in initial :: initial[p].signals;
    ghost var spec := Pass(policy, threshold, pool.activeProcesses.Keys, samples, forkPids);
    var i := 0;
    while i < |samples|
      invariant PassState(pool, policy, threshold, samples, forkPids, i, spec, restarted, initial, signals0, old(pool.forks))
      invariant forall w | w in pool.activeProcesses.Values :: w in old(pool.activeProcesses.Values) || fresh(w)
      invariant err.None?
    {
      restarted, err := RestartStep(pool, policy, threshold, samples, forkPids, i, spec, restarted, initial, signals0, old(pool.forks));
      if err.Some? {
        return;
      }
      i := i + 1;
    }
    assert samples[i..] == [] && forkPids[i..] == [];
  }

  /** The state of a pass before sample i: the registry is valid, the pids
      restarted so far followed by what the pass over the remaining samples
      would do make up the whole pass, each restart forked once, and the
      original workers are kept or signalled accordingly. */
  ghost predicate PassState(pool: ProcessManager, policy: Policy, threshold: Option<MaxMemoryRestart>,
                            samples: seq<Sample>, forkPids: seq<int>, i: int, spec: PassResult, restarted: seq<int>,
                            initial: map<int, Worker>, signals0: map<int, seq<string>>, forks0: nat)
    reads pool, initial.Values
  {
    && 0 <= i <= |samples| == |forkPids|
    && pool.Valid()
    && spec == Prepend(restarted, Pass(policy, threshold, pool.activeProcesses.Keys, samples[i..], forkPids[i..]))
    && pool.forks == forks0 + |restarted|
    && OriginalsKept(initial, pool.activeProcesses, restarted)
    && Signalled(initial, signals0, restarted)
  }

  /** One iteration of the pass: look sample i up and, when the monitor
      selects it, recreate its process. A fork pid of 0 ends the pass with
      an error. */
  method RestartStep(pool: ProcessManager, policy: Policy, threshold: Option<MaxMemoryRestart>,
                     samples: seq<Sample>, forkPids: seq<int>, i: int, ghost spec: PassResult, restarted: seq<int>,
                     ghost initial: map<int, Worker>, ghost signals0: map<int, seq<string>>, ghost forks0: nat)
    returns (restarted': seq<int>, err: Option<string>)
    requires i < |samples|
    requires PassState(pool, policy, threshold, samples, forkPids, i, spec, restarted, initial, signals0, forks0)
    modifies pool, pool.Slot(samples[i].pid)
    ensures forall w | w in pool.activeProcesses.Values :: w in old(pool.activeProcesses.Values) || fresh(w)
    ensures err.None? ==> PassState(pool, policy, threshold, samples, forkPids, i + 1, spec, restarted', initial, signals0, forks0)
    ensures err.Some? ==>
      && pool.Valid()
      && spec == PassResult(restarted', pool.activeProcesses.Keys, true)
      && pool.forks == forks0 + |restarted'|
      && OriginalsKept(initial, pool.activeProcesses, restarted')
      && Signalled(initial, signals0, restarted')
  {
    var s := samples[i];
    ghost var keys := pool.activeProcesses.Keys;
    ghost var rest := Pass(policy, threshold, keys, samples[i..], forkPids[i..]);
    assert samples[i..][0] == s && samples[i..][1..] == samples[i + 1..];
    assert forkPids[i..][0] == forkPids[i] && forkPids[i..][1..] == forkPids[i + 1..];
    var proc := pool.GetProcessByPid(s.pid);
    if !Selects(policy, threshold, proc.Some?, s.memory) {
      return restarted, None;
    }
    ghost var before := pool.activeProcesses;
    ghost var sigs := map p | p in initial :: initial[p].signals;
    var recreated := pool.RecreateProcess(s.pid, forkPids[i]);
    SignalledByRestart(initial, signals0, restarted, before, s.pid, sigs);
    OriginalsKeptByRestart(initial, before, restarted, s.pid, pool.activeProcesses);
    restarted' := restarted + [s.pid];
    if recreated.Failure? {
      assert rest == PassResult([s.pid], keys - {s.pid}, true);
      PrependAssoc(restarted, s.pid, PassResult([], keys - {s.pid}, true));
      return restarted', Some(recreated.error);
    }
    ghost var rest' := Pass(policy, threshold, pool.activeProcesses.Keys, samples[i + 1..], forkPids[i + 1..]);
    assert rest == Prepend([s.pid], rest');
    PrependAssoc(restarted, s.pid, rest');
    err := None;
  }

  /** Every original worker sits under its own pid; every one still
      registered was
      not restarted, and every original worker not restarted is still
      registered. */
  ghost predicate OriginalsKept(initial: map<int, Worker>, current: map<int, Worker>, restarted: seq<int>) {
    && (forall p | p in initial :: initial[p].pid == p)
    && (forall p | p in current && current[p] in initial.Values :: p in initial && p !in restarted && current[p] == initial[p])
    && (forall p | p in initial && p !in restarted :: p in current && current[p] == initial[p])
  }

  /** Each original worker has received one "sigterm" on top of the signals
      it had, exactly when its pid was restarted. */
  ghost predicate Signalled(initial: map<int, Worker>, signals0: map<int, seq<string>>, restarted: seq<int>)
    reads initial.Values
  {
    forall p | p in initial && p in signals0 ::
      initial[p].signals == signals0[p] + (if p in restarted then ["sigterm"] else [])
  }

  /** Signalling the worker registered under `pid`, and no other original
      worker, keeps Signalled once `pid` is counted as restarted. */
  lemma SignalledByRestart(initial: map<int, Worker>, signals0: map<int, seq<string>>, restarted: seq<int>,
                           before: map<int, Worker>, pid: int, sigs: map<int, seq<string>>)
    requires OriginalsKept(initial, before, restarted)
    requires forall p | p in initial && p in signals0 ::
      p in sigs && sigs[p] == signals0[p] + (if p in restarted then ["sigterm"] else [])
    requires pid in before
    requires forall p | p in initial && p in sigs ::
      initial[p].signals == sigs[p] + (if initial[p] == before[pid] then ["sigterm"] else [])
    ensures Signalled(initial, signals0, restarted + [pid])
  {
    forall p | p in initial && p in signals0
      ensures initial[p].signals == signals0[p] + (if p in restarted + [pid] then ["sigterm"] else [])
    {
      if p == pid && p !in restarted {
        assert initial[p] == before[pid];
      } else {
        assert before[pid] in initial.Values ==> before[pid] == initial[pid] && pid !in restarted;
        assert initial[p] != before[pid];
      }
    }
  }

  /** Destroying the worker under `pid` and possibly registering a new one
      keeps OriginalsKept once `pid` is counted as restarted. */
  lemma OriginalsKeptByRestart(initial: map<int, Worker>, before: map<int, Worker>, restarted: seq<int>,
                               pid: int, after: map<int, Worker>)
    requires OriginalsKept(initial, before, restarted)
    requires pid in before
    requires forall p | p in after :: (p in before && p != pid && after[p] == before[p]) || after[p] !in initial.Values
    requires forall p | p in before && p != pid :: p in after && after[p] == before[p]
    ensures OriginalsKept(initial, after, restarted + [pid])
  {
  }

  /** The pids of the samples selected against a fixed set of keys, in order. */
  function Selected(policy: Policy, threshold: Option<MaxMemoryRestart>, keys: set<int>, samples: seq<Sample>): seq<int>
    decreases |samples|
  {
    if samples == [] then []
    else
      var s := samples[0];
      (if Selects(policy, threshold, s.pid in keys, s.memory) then [s.pid] else [])
      + Selected(policy, threshold, keys, samples[1..])
  }

  /** Some sample for pid p reached the configured threshold. */
  predicate Breached(threshold: Option<MaxMemoryRestart>, samples: seq<Sample>, p: int) {
    threshold.Some? && exists s | s in samples :: s.pid == p && ActualMemory(threshold, s.memory) >= threshold.value.value
  }

  /** A pass restarts only pids of samples whose memory reached the threshold,
      and only when a threshold is configured and the policy allows restarts. */
  lemma {:induction false} PassRestartsOnlyBreaching(policy: Policy, threshold: Option<MaxMemoryRestart>,
                                                     keys: set<int>, samples: seq<Sample>, forkPids: seq<int>)
    requires |forkPids| == |samples|
    ensures var r := Pass(policy, threshold, keys, samples, forkPids);
      && (r.restarted != [] ==> threshold.Some? && (policy.ConsultsAutoRestart? ==> !policy.disableAutoRestart))
      && forall p | p in r.restarted :: Breached(threshold, samples, p)
    decreases |samples|
  {
    if samples != [] {
      var s := samples[0];
      var r := Pass(policy, threshold, keys, samples, forkPids);
      var keys' := if Selects(policy, threshold, s.pid in keys, s.memory) then (keys - {s.pid}) + {forkPids[0]} else keys;
      var r' := Pass(policy, threshold, keys', samples[1..], forkPids[1..]);
      PassRestartsOnlyBreaching(policy, threshold, keys', samples[1..], forkPids[1..]);
      forall p | p in r.restarted
        ensures Breached(threshold, samples, p)
      {
        if p in r'.restarted {
          assert Breached(threshold, samples[1..], p);
          var x :| x in samples[1..] && x.pid == p && ActualMemory(threshold, x.memory) >= threshold.value.value;
          assert x in samples;
        } else {
          assert s in samples;
        }
      }
    }
  }

  /** The registry keys a pass examines after its first sample. */
  function KeysAfterFirst(policy: Policy, threshold: Option<MaxMemoryRestart>, keys: set<int>,
                          samples: seq<Sample>, forkPids: seq<int>): set<int>
    requires |forkPids| == |samples| && samples != []
  {
    var s := samples[0];
    if Selects(policy, threshold, s.pid in keys, s.memory) then (keys - {s.pid}) + {forkPids[0]} else keys
  }

  /** Sample i received fork pid 0 and its pid is the last one restarted. */
  predicate AbortsAt(restarted: seq<int>, samples: seq<Sample>, forkPids: seq<int>, i: nat) {
    && i < |samples| && i < |forkPids| && restarted != []
    && forkPids[i] == 0 && samples[i].pid == restarted[|restarted| - 1]
  }

  /** An abort at index k of the rest of a pass is at index k + 1 of the
      whole pass, whatever was restarted before it. */
  lemma AbortsAtShifted(done: seq<int>, restarted: seq<int>, samples: seq<Sample>, forkPids: seq<int>, k: nat)
    requires samples != [] && |forkPids| == |samples|
    requires AbortsAt(restarted, samples[1..], forkPids[1..], k)
    ensures AbortsAt(done + restarted, samples, forkPids, k + 1)
  {
    assert (done + restarted)[|done + restarted| - 1] == restarted[|restarted| - 1];
  }

  /** A pass aborts only at the restart whose fork received no pid: the last
      pid it restarted is the pid of sample i, whose fork pid is 0. */
  lemma {:induction false} AbortedAtZeroFork(policy: Policy, threshold: Option<MaxMemoryRestart>,
                                             keys: set<int>, samples: seq<Sample>, forkPids: seq<int>)
    returns (i: nat)
    requires |forkPids| == |samples|
    ensures var r := Pass(policy, threshold, keys, samples, forkPids);
      r.aborted ==> AbortsAt(r.restarted, samples, forkPids, i)
    decreases |samples|
  {
    i := 0;
    if samples != [] {
      var s := samples[0];
      var selected := Selects(policy, threshold, s.pid in keys, s.memory);
      if selected && forkPids[0] == 0 {
        return;
      }
      var keys' := if selected then (keys - {s.pid}) + {forkPids[0]} else keys;
      var r' := Pass(policy, threshold, keys', samples[1..], forkPids[1..]);
      var k := AbortedAtZeroFork(policy, threshold, keys', samples[1..], forkPids[1..]);
      if r'.aborted {
        AbortsAtShifted(if selected then [s.pid] else [], r'.restarted, samples, forkPids, k);
      }
      i := k + 1;
    }
  }

  /** With no threshold configured, or with monitorMetrics while auto-restart
      is disabled, a pass restarts nothing and leaves the registry alone. */
  lemma {:induction false} QuietPass(policy: Policy, threshold: Option<MaxMemoryRestart>,
                                     keys: set<int>, samples: seq<Sample>, forkPids: seq<int>)
    requires |forkPids| == |samples|
    requires threshold.None? || policy == ConsultsAutoRestart(true)
    ensures Pass(policy, threshold, keys, samples, forkPids) == PassResult([], keys, false)
    decreases |samples|
  {
    if samples != [] {
      QuietPass(policy, threshold, keys, samples[1..], forkPids[1..]);
    }
  }

  /** Selection only looks at whether each sample's pid is a key. */
  lemma {:induction false} SelectedDependsOnSampledPids(policy: Policy, threshold: Option<MaxMemoryRestart>,
                                                        k1: set<int>, k2: set<int>, samples: seq<Sample>)
    requires forall i | 0 <= i < |samples| :: samples[i].pid in k1 <==> samples[i].pid in k2
    ensures Selected(policy, threshold, k1, samples) == Selected(policy, threshold, k2, samples)
    decreases |samples|
  {
    if samples != [] {
      assert samples[0].pid in k1 <==> samples[0].pid in k2;
      SelectedDependsOnSampledPids(policy, threshold, k1, k2, samples[1..]);
    }
  }

  /** When the sampled pids are distinct and every forked worker gets a
      non-zero pid that is not among them, a pass never throws and restarts
      exactly the selected samples, judged against the registry as it was
      when the pass began. */
  lemma {:induction false} PassWithFreshPids(policy: Policy, threshold: Option<MaxMemoryRestart>,
                                             keys: set<int>, samples: seq<Sample>, forkPids: seq<int>)
    requires |forkPids| == |samples|
    requires forall i, j | 0 <= i < j < |samples| :: samples[i].pid != samples[j].pid
    requires forall i, j | 0 <= i < |forkPids| && 0 <= j < |samples| :: forkPids[i] != samples[j].pid
    requires forall i | 0 <= i < |forkPids| :: forkPids[i] != 0
    ensures var r := Pass(policy, threshold, keys, samples, forkPids);
      !r.aborted && r.restarted == Selected(policy, threshold, keys, samples)
    decreases |samples|
  {
    if samples != [] {
      var s := samples[0];
      var rest, restPids := samples[1..], forkPids[1..];
      assert forall i, j | 0 <= i < j < |rest| :: rest[i].pid != rest[j].pid by {
        forall i, j | 0 <= i < j < |rest| ensures rest[i].pid != rest[j].pid {
          assert rest[i] == samples[i + 1] && rest[j] == samples[j + 1];
        }
      }
      assert forall i, j | 0 <= i < |restPids| && 0 <= j < |rest| :: restPids[i] != rest[j].pid by {
        forall i, j | 0 <= i < |restPids| && 0 <= j < |rest| ensures restPids[i] != rest[j].pid {
          assert restPids[i] == forkPids[i + 1] && rest[j] == samples[j + 1];
        }
      }
      assert forall i | 0 <= i < |restPids| :: restPids[i] != 0 by {
        forall i | 0 <= i < |restPids| ensures restPids[i] != 0 {
          assert restPids[i] == forkPids[i + 1];
        }
      }
      if Selects(policy, threshold, s.pid in keys, s.memory) {
        var keys' := (keys - {s.pid}) + {forkPids[0]};
        assert forall i | 0 <= i < |rest| :: rest[i].pid in keys' <==> rest[i].pid in keys by {
          forall i | 0 <= i < |rest| ensures rest[i].pid in keys' <==> rest[i].pid in keys {
            assert rest[i] == samples[i + 1];
            assert samples[0].pid != samples[i + 1].pid;
            assert forkPids[0] != samples[i + 1].pid;
          }
        }
        PassWithFreshPids(policy, threshold, keys', rest, restPids);
        SelectedDependsOnSampledPids(policy, threshold, keys', keys, rest);
      } else {
        PassWithFreshPids(policy, threshold, keys, rest, restPids);
      }
    }
  }

  /** While auto-restart is enabled both monitors make the same pass. */
  lemma {:induction false} PoliciesAgreeWhenAutoRestartOn(threshold: Option<MaxMemoryRestart>,
                                                          keys: set<int>, samples: seq<Sample>, forkPids: seq<int>)
    requires |forkPids| == |samples|
    ensures Pass(ConsultsAutoRestart(false), threshold, keys, samples, forkPids)
         == Pass(IgnoresAutoRestart, threshold, keys, samples, forkPids)
    decreases |samples|
  {
    if samples != [] {
      var s := samples[0];
      PoliciesAgreeWhenAutoRestartOn(threshold, keys, samples[1..], forkPids[1..]);
      PoliciesAgreeWhenAutoRestartOn(threshold, (keys - {s.pid}) + {forkPids[0]}, samples[1..], forkPids[1..]);
    }
  }
}
