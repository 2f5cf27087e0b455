/** The pid-keyed worker registry of src/process/manager.ts. Forking a
    worker is reduced to "a new worker with the pid the operating system
    handed out", and destroying one to recording the signal it was sent. */
module Manager {
  import opened Wrappers
  import opened Text
  import opened Config

  /** A cluster worker. A pid of 0 stands for both an undefined pid and pid
      0: the source treats the two alike wherever it tests a pid. */
  class Worker {
    /** cluster's sequential worker id. */
    const id: nat
    const pid: int
    /** The signals sent through worker.destroy, in order. */
    var signals: seq<string>

    constructor(id: nat, pid: int)
      ensures this.id == id && this.pid == pid && signals == []
    {
      this.id := id;
      this.pid := pid;
      signals := [];
    }

    method Destroy(signal: string)
      modifies this
      ensures signals == old(signals) + [signal]
    {
      signals := signals + [signal];
    }
  }

  function NotRegisteredError(pid: int): string {
    "No process is registered for the id: \"" + IntToString(pid) + "\""
  }

  function PidUndefinedError(workerId: nat): string {
    "PID is undefined for worker: \"" + NatToString(workerId) + "\"!"
  }

  /** The registry after registerProcess stores w under its pid; a pid that is
      already present keeps its existing worker. */
  function Registered(m: map<int, Worker>, w: Worker): (r: map<int, Worker>)
    ensures r.Keys == m.Keys + {w.pid}
    ensures w.pid in m ==> r == m
    ensures w.pid !in m ==> r[w.pid] == w
    ensures forall p | p in m :: r[p] == m[p]
  {
    if w.pid in m then m else m[w.pid := w]
  }

  /** The module-level `activeProcesses` record together with the count of
      cluster.fork calls made so far. */
  class ProcessManager {
    var activeProcesses: map<int, Worker>
    var forks: nat

    /** Every worker is stored under its own, non-zero pid. */
    ghost predicate Valid()
      reads this
    {
      forall p | p in activeProcesses :: p != 0 && activeProcesses[p].pid == p
    }

    /** The worker a destroy of `pid` signals, if any. */
    function Slot(pid: int): set<Worker>
      reads this
    {
      if pid in activeProcesses then {activeProcesses[pid]} else {}
    }

    constructor()
      ensures Valid() && activeProcesses == map[] && forks == 0
    {
      activeProcesses := map[];
      forks := 0;
    }

    /** getProcessByPid: the registered worker, or null. */
    function GetProcessByPid(pid: int): (r: Option<Worker>)
      reads this
      ensures r.Some? <==> pid in activeProcesses
      ensures r.Some? ==> r.value == activeProcesses[pid]
    {
      if pid in activeProcesses then Some(activeProcesses[pid]) else None
    }

    /** extractPid: the worker's pid, or an error when it is falsy. */
    static function ExtractPid(w: Worker): (r: Result<int>)
      ensures r.Success? <==> w.pid != 0
      ensures r.Success? ==> r.value == w.pid
      ensures r.Failure? ==> r.error == PidUndefinedError(w.id)
    {
      if w.pid == 0 then Failure(PidUndefinedError(w.id)) else Success(w.pid)
    }

    /** registerProcess. */
    method RegisterProcess(w: Worker) returns (r: Outcome)
      requires Valid()
      modifies this`activeProcesses
      ensures Valid()
      ensures w.pid == 0 ==> r == Fail(PidUndefinedError(w.id)) && activeProcesses == old(activeProcesses)
      ensures w.pid != 0 ==> r == Ok && activeProcesses == Registered(old(activeProcesses), w)
    {
      var pid := ExtractPid(w);
      if pid.Failure? {
        return Fail(pid.error);
      }
      if pid.value in activeProcesses {
        // logged as already registered; the new worker is not stored
        return Ok;
      }
      activeProcesses := activeProcesses[pid.value := w];
      r := Ok;
    }

    /** createProcess: fork a worker (which receives `newPid`) and register it.
        The disconnect handler it wires is OnDisconnect. */
    method CreateProcess(newPid: int) returns (r: Result<Worker>)
      requires Valid()
      modifies this
      ensures Valid()
      ensures forks == old(forks) + 1
      ensures newPid == 0 ==> r == Failure(PidUndefinedError(forks)) && activeProcesses == old(activeProcesses)
      ensures newPid != 0 ==> && r.Success? && fresh(r.value)
                              && r.value.pid == newPid && r.value.id == forks && r.value.signals == []
                              && activeProcesses == Registered(old(activeProcesses), r.value)
    {
      forks := forks + 1;
      var child := new Worker(forks, newPid);
      var registered := RegisterProcess(child);
      if registered.Fail? {
        return Failure(registered.error);
      }
      r := Success(child);
    }

    /** destroyProcess: send 'sigterm' to the registered worker and forget it. */
    method DestroyProcess(pid: int) returns (r: Outcome)
      requires Valid()
      modifies this`activeProcesses, Slot(pid)
      ensures Valid()
      ensures pid !in old(activeProcesses) ==> r == Fail(NotRegisteredError(pid)) && activeProcesses == old(activeProcesses)
      ensures pid in old(activeProcesses) ==>
        && r == Ok
        && activeProcesses == old(activeProcesses) - {pid}
        && old(activeProcesses)[pid].signals == old(activeProcesses[pid].signals) + ["sigterm"]
    {
      if pid !in activeProcesses {
        return Fail(NotRegisteredError(pid));
      }
      var existingProcess := activeProcesses[pid];
      existingProcess.Destroy("sigterm");
      activeProcesses := activeProcesses - {pid};
      r := Ok;
    }

    /** recreateProcess: destroy the worker registered under `pid` (throwing
        before any fork when there is none), then create a new one. */
    method RecreateProcess(pid: int, newPid: int) returns (r: Result<Worker>)
      requires Valid()
      modifies this, Slot(pid)
      ensures Valid()
      ensures pid !in old(activeProcesses) ==>
        && r == Failure(NotRegisteredError(pid))
        && activeProcesses == old(activeProcesses) && forks == old(forks)
      ensures pid in old(activeProcesses) ==>
        && forks == old(forks) + 1
        && old(activeProcesses)[pid].signals == old(activeProcesses[pid].signals) + ["sigterm"]
        && (newPid == 0 ==> r == Failure(PidUndefinedError(forks)) && activeProcesses == old(activeProcesses) - {pid})
        && (newPid != 0 ==> && r.Success? && fresh(r.value) && r.value.pid == newPid
                            && activeProcesses == Registered(old(activeProcesses) - {pid}, r.value))
    {
      var destroyed := DestroyProcess(pid);
      if destroyed.Fail? {
        return Failure(destroyed.error);
      }
      r := CreateProcess(newPid);
    }

    /** The disconnect handler createProcess attaches to `child`: recreate it
        when its pid is truthy, still registered and auto-restart is on. The
        recreation forks a worker that receives `newPid`. Returns None when
        nothing is recreated. */
    method OnDisconnect(child: Worker, config: AppConfig, newPid: int) returns (r: Option<Result<Worker>>)
      requires Valid()
      modifies this, Slot(child.pid)
      ensures Valid()
      ensures r.Some? <==> child.pid != 0 && child.pid in old(activeProcesses) && !config.disableAutoRestart
      ensures r.None? ==> activeProcesses == old(activeProcesses) && forks == old(forks)
      ensures r.None? ==> forall p | p in old(activeProcesses) ::
        old(activeProcesses)[p].signals == old(activeProcesses[p].signals)
      ensures r.Some? ==>
        && forks == old(forks) + 1
        && old(activeProcesses)[child.pid].signals == old(activeProcesses[child.pid].signals) + ["sigterm"]
        && (newPid == 0 ==> r.value == Failure(PidUndefinedError(forks))
                            && activeProcesses == old(activeProcesses) - {child.pid})
        && (newPid != 0 ==> && r.value.Success? && fresh(r.value.value) && r.value.value.pid == newPid
                            && activeProcesses == Registered(old(activeProcesses) - {child.pid}, r.value.value))
    {
      var pid := child.pid;
      if pid != 0 && GetProcessByPid(pid).Some? && !config.disableAutoRestart {
        var recreated := RecreateProcess(pid, newPid);
        return Some(recreated);
      }
      r := None;
    }
  }
}
