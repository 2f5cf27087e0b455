/** gracefulShutDown (src/process/shutdown.ts): turn auto-restart off, then
    destroy every registered worker. */
module Shutdown {
  import opened Wrappers
  import opened Config
  import opened Manager

  /** The two signals registerGracefulShutdown listens for; both run the
      same shutdown, which uses the signal only in its log line. */
  datatype Signal = SIGTERM | SIGINT

  /** gracefulShutDown. destroyProcess is synchronous, so the destroys over
      the registry's keys happen one after another. Every worker registered
      on entry receives exactly one 'sigterm' and the registry ends empty. */
  method GracefulShutDown(pool: ProcessManager, config: AppConfig, sig: Signal)
    requires pool.Valid()
    modifies pool`activeProcesses, config`disableAutoRestart, pool.activeProcesses.Values
    ensures pool.Valid()
    ensures config.disableAutoRestart
    ensures pool.activeProcesses == map[]
    ensures forall p | p in old(pool.activeProcesses) ::
      old(pool.activeProcesses)[p].signals == old(pool.activeProcesses[p].signals) + ["sigterm"]
  {
    config.disableAutoRestart := true;
    ghost var initial := pool.activeProcesses;
    var pids := pool.activeProcesses.Keys;
    while pids != {}
      invariant pool.Valid()
      invariant config.disableAutoRestart
      invariant pool.activeProcesses.Keys == pids
      invariant forall p | p in pids :: pool.activeProcesses[p] == initial[p]
      invariant forall p | p in initial ::
        initial[p].signals == old(initial[p].signals) + (if p in pids then [] else ["sigterm"])
      decreases pids
    {
      assert (forall k :: k !in pids) ==> pids == {};
      var key :| key in pids;
      var destroyed := pool.DestroyProcess(key);
      pids := pids - {key};
    }
  }

  /** Three workers, a SIGINT, then the disconnect each destroyed worker
      emits: none of them is recreated, because auto-restart was turned off
      before the first destroy, and each worker was sent one 'sigterm'. */
  method ShutdownScenario() returns (recreated: seq<bool>, remaining: set<int>, signals: seq<seq<string>>)
    ensures recreated == [false, false, false]
    ensures remaining == {}
    ensures signals == [["sigterm"], ["sigterm"], ["sigterm"]]
  {
    var pool := new ProcessManager();
    var config := new AppConfig();
    var c1 := pool.CreateProcess(101);
    var c2 := pool.CreateProcess(102);
    var c3 := pool.CreateProcess(103);
    var w1, w2, w3 := c1.value, c2.value, c3.value;
    assert pool.activeProcesses[101] == w1 && pool.activeProcesses[102] == w2 && pool.activeProcesses[103] == w3;
    GracefulShutDown(pool, config, SIGINT);
    assert w1.signals == ["sigterm"] && w2.signals == ["sigterm"] && w3.signals == ["sigterm"];
    var d1 := pool.OnDisconnect(w1, config, 201);
    var d2 := pool.OnDisconnect(w2, config, 202);
    var d3 := pool.OnDisconnect(w3, config, 203);
    recreated := [d1.Some?, d2.Some?, d3.Some?];
    remaining := pool.activeProcesses.Keys;
    signals := [w1.signals, w2.signals, w3.signals];
  }
}
