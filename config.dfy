/** The supervisor's configuration: memory units, the parsed memory
    threshold, and the process-wide mutable config object. */
module Config {
  import opened Wrappers

  /** The MemoryUnit enum; its declaration order is the order of
      Object.values(MemoryUnit). */
  datatype MemoryUnit = B | KB | MB | GB

  /** Object.values(MemoryUnit). */
  const Units: seq<MemoryUnit> := [B, KB, MB, GB]

  /** The string value of each enum member. */
  function UnitName(u: MemoryUnit): (n: string)
    ensures |n| == 1 || |n| == 2
    ensures n[|n| - 1] == 'B'
    ensures |n| == 2 <==> u != B
  {
    match u
    case B => "B"
    case KB => "KB"
    case MB => "MB"
    case GB => "GB"
  }

  /** Position of a unit in Object.values(MemoryUnit). */
  function UnitIndex(u: MemoryUnit): (i: nat)
    ensures i < |Units| && Units[i] == u
  {
    match u
    case B => 0
    case KB => 1
    case MB => 2
    case GB => 3
  }

  lemma UnitNameInjective(u: MemoryUnit, v: MemoryUnit)
    requires UnitName(u) == UnitName(v)
    ensures u == v
  {
    assert UnitName(u)[|UnitName(u)| - 1] == 'B';
    if |UnitName(u)| == 2 {
      assert UnitName(u)[0] == UnitName(v)[0];
    }
  }

  /** Object.values(MemoryUnit).includes(name), returning the member found. */
  function ParseUnit(name: string): (r: Option<MemoryUnit>)
    ensures r.Some? ==> UnitName(r.value) == name
    ensures r.None? ==> forall u :: UnitName(u) != name
  {
    if name == "B" then Some(B)
    else if name == "KB" then Some(KB)
    else if name == "MB" then Some(MB)
    else if name == "GB" then Some(GB)
    else None
  }

  lemma ParseUnitOfUnitName(u: MemoryUnit)
    ensures ParseUnit(UnitName(u)) == Some(u)
  {
    UnitNameInjective(ParseUnit(UnitName(u)).value, u);
  }

  /** The parsed --max-memory-restart threshold. */
  datatype MaxMemoryRestart = MaxMemoryRestart(unit: MemoryUnit, value: real, readable: string)

  const DEFAULT_METRIC_COLLECTION_INTERVAL_MS: int := 500

  /** The module-level `config` object; every component reads and writes
      the same instance. */
  class AppConfig {
    var maxMemoryRestart: Option<MaxMemoryRestart>
    var maxRestartAttempts: Option<int>
    var processes: Option<int>
    var disableAutoRestart: bool
    var metricCollectionIntervalMs: int
    var verbose: bool

    constructor()
      ensures maxMemoryRestart.None? && maxRestartAttempts.None? && processes.None?
      ensures !disableAutoRestart && !verbose
      ensures metricCollectionIntervalMs == DEFAULT_METRIC_COLLECTION_INTERVAL_MS
    {
      maxMemoryRestart := None;
      maxRestartAttempts := None;
      processes := None;
      disableAutoRestart := false;
      metricCollectionIntervalMs := DEFAULT_METRIC_COLLECTION_INTERVAL_MS;
      verbose := false;
    }
  }
}
