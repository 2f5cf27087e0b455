/** The start command of src/cli/action/start.ts: parsing the
    --max-memory-restart option, filling the shared config from the command's
    options, and launching the workers. A `process.exit(1)` becomes a
    Failure carrying the message that was logged. */
module Start {
  import opened Wrappers
  import opened Js
  import opened Text
  import opened Config
  import opened Manager

  /** The --max-memory-restart option: absent, a number, or text. */
  datatype ThresholdOption = Unset | Number(n: int) | Text(s: string)

  /** The option as the JavaScript value commander produced. */
  function OptionValue(o: ThresholdOption): JsValue {
    match o
    case Unset => Undefined
    case Number(n) => Num(n as real)
    case Text(s) => Str(s)
  }

  /** JavaScript truthiness of the option. */
  predicate IsSet(o: ThresholdOption) {
    match o
    case Unset => false
    case Number(n) => n != 0
    case Text(s) => s != []
  }

  /** The `!maxMemoryRestart` test is JavaScript falsiness of the option. */
  lemma IsSetIsTruthiness(o: ThresholdOption)
    ensures IsSet(o) <==> Truthy(OptionValue(o))
  {
  }

  /** The options commander hands to the start action. */
  datatype StartOptions = StartOptions(
    maxMemoryRestart: ThresholdOption,
    maxRestartAttempts: Option<int>,
    disableAutoRestart: Option<bool>,
    processes: Option<int>)

  function ThresholdError(s: string): string {
    "Incorrect value provided for \"maxMemoryRestart (\"" + s
      + "\"): should be a plain number or a number with correct suffix.\""
  }

  const ConflictError: string := "\"disableAutoRestart\" and \"maxMemoryRestart flags cannot be used together.\""

  /** `Number(t)` on the numeric part of a threshold: surrounding whitespace
      is ignored, a blank string is 0, a decimal digit string is its value,
      and anything else is NaN (None). */
  function JsNumber(t: string): (r: Option<real>)
    ensures AllWhitespace(t) ==> r == Some(0.0)
    ensures IsDigits(t) && t != [] ==> r.Some? && r.value == ParseNat(t) as real
    ensures r.Some? ==> r.value >= 0.0
  {
    var u := Trim(t);
    DigitsAreTrimmed(t);
    if u == [] then Some(0.0)
    else if IsDigits(u) then Some(ParseNat(u) as real)
    else None
  }

  /** extractSpecifiedMaxMemoryValue. A falsy option gives no threshold; a
      number n is n bytes, readable as "<n>B"; text is split into its last two
      characters, which must name a unit, and the rest, which must be a
      number; anything else is refused with ThresholdError. */
  function ExtractSpecifiedMaxMemoryValue(o: ThresholdOption): (r: Result<Option<MaxMemoryRestart>>)
    ensures r.Failure? ==> o.Text? && r.error == ThresholdError(o.s)
  {
    match o
    case Unset => Success(None)
    case Number(n) =>
      if n == 0 then Success(None)
      else Success(Some(MaxMemoryRestart(B, n as real, IntToString(n) + "B")))
    case Text(s) =>
      if s == [] then Success(None)
      else if |s| - 2 <= 0 then Failure(ThresholdError(s))
      else
        var unit := ParseUnit(s[|s| - 2..]);
        var value := JsNumber(s[..|s| - 2]);
        if unit.None? || value.None? then Failure(ThresholdError(s))
        else Success(Some(MaxMemoryRestart(unit.value, value.value, s)))
  }

  /** A falsy option gives no threshold, and a non-zero number n is n bytes,
      readable as "<n>B". */
  lemma ExtractedNonText(o: ThresholdOption)
    ensures !IsSet(o) ==> ExtractSpecifiedMaxMemoryValue(o) == Success(None)
    ensures o.Number? && o.n != 0 ==>
      ExtractSpecifiedMaxMemoryValue(o) == Success(Some(MaxMemoryRestart(B, o.n as real, IntToString(o.n) + "B")))
  {
  }

  /** Text is refused only with ThresholdError, and always when it has no
      room for a number before a two-character unit. */
  lemma RefusedText(s: string)
    ensures ExtractSpecifiedMaxMemoryValue(Text(s)).Failure? ==>
      ExtractSpecifiedMaxMemoryValue(Text(s)).error == ThresholdError(s)
    ensures 0 < |s| <= 2 ==> ExtractSpecifiedMaxMemoryValue(Text(s)).Failure?
  {
  }

  /** Accepted text has a unit named by its last two characters, the number
      before them as its value, and itself as its readable form. */
  lemma AcceptedTextParts(s: string)
    ensures var r := ExtractSpecifiedMaxMemoryValue(Text(s));
      r.Success? && r.value.Some? ==>
      && |s| > 2
      && UnitName(r.value.value.unit) == s[|s| - 2..]
      && JsNumber(s[..|s| - 2]) == Some(r.value.value.value)
      && r.value.value.readable == s
  {
  }

  /** A text option longer than two characters whose suffix names a unit
      and whose rest is a number is accepted as exactly that. */
  lemma AcceptedText(s: string, u: MemoryUnit, v: real)
    requires |s| > 2 && ParseUnit(s[|s| - 2..]) == Some(u) && JsNumber(s[..|s| - 2]) == Some(v)
    ensures ExtractSpecifiedMaxMemoryValue(Text(s)) == Success(Some(MaxMemoryRestart(u, v, s)))
  {
  }

  /** A decimal number followed by a two-letter unit parses back to that
      number and unit, keeping the text as its readable form. */
  lemma ThresholdRoundTrip(n: nat, u: MemoryUnit)
    requires u != B
    ensures var s := NatToString(n) + UnitName(u);
      ExtractSpecifiedMaxMemoryValue(Text(s)) == Success(Some(MaxMemoryRestart(u, n as real, s)))
  {
    var digits := NatToString(n);
    var s := digits + UnitName(u);
    assert |UnitName(u)| == 2;
    assert s[|s| - 2..] == UnitName(u);
    assert s[..|s| - 2] == digits;
    ParseUnitOfUnitName(u);
    ParseNatOfNatToString(n);
    assert JsNumber(digits) == Some(n as real);
    AcceptedText(s, u, n as real);
  }

  /** Because the unit is always the last two characters, a number with a
      bare "B" suffix is refused: the suffix read is a digit followed by B. */
  lemma BareByteSuffixRejected(n: nat)
    ensures ExtractSpecifiedMaxMemoryValue(Text(NatToString(n) + "B")).Failure?
  {
    var s := NatToString(n) + "B";
    if |s| > 2 {
      assert IsDigit(s[|s| - 2]);
      assert ParseUnit(s[|s| - 2..]).None?;
    }
  }

  /** A plain digit string is refused as well: its last two characters are
      digits, not a unit. */
  lemma DigitStringRejected(s: string)
    requires s != [] && IsDigits(s)
    ensures ExtractSpecifiedMaxMemoryValue(Text(s)).Failure?
  {
    if |s| > 2 {
      assert IsDigit(s[|s| - 2]);
      assert ParseUnit(s[|s| - 2..]).None?;
    }
  }

  /** A text option whose last two characters name no unit is refused. */
  lemma RejectedSuffix(s: string)
    requires |s| > 2 && ParseUnit(s[|s| - 2..]).None?
    ensures ExtractSpecifiedMaxMemoryValue(Text(s)) == Failure(ThresholdError(s))
  {
  }

  /** A text option whose suffix names a unit but whose rest is not a number
      is refused. */
  lemma RejectedNumber(s: string)
    requires |s| > 2 && ParseUnit(s[|s| - 2..]).Some? && JsNumber(s[..|s| - 2]).None?
    ensures ExtractSpecifiedMaxMemoryValue(Text(s)) == Failure(ThresholdError(s))
  {
  }

  /** Non-empty text is accepted as a threshold exactly when it is longer than
      two characters, its last two name a unit and the rest is a number;
      otherwise it is refused with ThresholdError. */
  lemma TextVerdict(s: string)
    ensures var r := ExtractSpecifiedMaxMemoryValue(Text(s));
      r.Success? && r.value.Some? <==>
        |s| > 2 && ParseUnit(s[|s| - 2..]).Some? && JsNumber(s[..|s| - 2]).Some?
    ensures var r := ExtractSpecifiedMaxMemoryValue(Text(s));
      r == Failure(ThresholdError(s)) <==>
        s != [] && !(|s| > 2 && ParseUnit(s[|s| - 2..]).Some? && JsNumber(s[..|s| - 2]).Some?)
  {
    if |s| > 2 {
      var unit := ParseUnit(s[|s| - 2..]);
      var value := JsNumber(s[..|s| - 2]);
      if unit.None? {
        RejectedSuffix(s);
      } else if value.None? {
        RejectedNumber(s);
      } else {
        AcceptedText(s, unit.value, value.value);
      }
    } else {
      RefusedText(s);
    }
  }

  /** "asd" and "1000M" are refused. */
  lemma RejectedThresholdExamples()
    ensures ExtractSpecifiedMaxMemoryValue(Text("asd")) == Failure(ThresholdError("asd"))
    ensures ExtractSpecifiedMaxMemoryValue(Text("1000M")) == Failure(ThresholdError("1000M"))
  {
    assert "asd"[1..] == "sd";
    RejectedSuffix("asd");
    assert "1000M"[3..] == "0M";
    RejectedSuffix("1000M");
  }

  /** "300MB" is 300 MB, readable as written. */
  lemma AcceptedThresholdExample()
    ensures ExtractSpecifiedMaxMemoryValue(Text("300MB")) == Success(Some(MaxMemoryRestart(MB, 300.0, "300MB")))
  {
    assert NatToString(3) == "3";
    assert NatToString(30) == "30";
    assert NatToString(300) == "300";
    ThresholdRoundTrip(300, MB);
    assert NatToString(300) + UnitName(MB) == "300MB";
  }

  /** A number is a byte count; 0 and the empty text are no threshold. */
  lemma NumericThresholdExamples()
    ensures ExtractSpecifiedMaxMemoryValue(Number(500)) == Success(Some(MaxMemoryRestart(B, 500.0, "500B")))
    ensures ExtractSpecifiedMaxMemoryValue(Number(0)) == Success(None)
    ensures ExtractSpecifiedMaxMemoryValue(Text("")) == Success(None)
  {
    assert NatToString(5) == "5";
    assert NatToString(50) == "50";
    assert NatToString(500) == "500";
    assert IntToString(500) + "B" == "500B";
  }

  /** --disable-auto-restart together with a truthy --max-memory-restart. */
  predicate Conflicting(opts: StartOptions) {
    opts.disableAutoRestart == Some(true) && IsSet(opts.maxMemoryRestart)
  }

  /** What populateConfigFromStartOptions leaves in the config: nothing
      changed on a conflict; otherwise the restart options assigned, and the
      threshold and process count assigned only when the threshold parsed.
      These are PopulateConfigFromStartOptions' postconditions on the config,
      gathered into one predicate so that OnStart can promise them. */
  twostate predicate Populated(opts: StartOptions, config: AppConfig)
    reads config
  {
    if Conflicting(opts) then unchanged(config)
    else
      && config.maxRestartAttempts == opts.maxRestartAttempts
      && config.disableAutoRestart == opts.disableAutoRestart.GetOr(false)
      && config.metricCollectionIntervalMs == old(config.metricCollectionIntervalMs)
      && config.verbose == old(config.verbose)
      && var parsed := ExtractSpecifiedMaxMemoryValue(opts.maxMemoryRestart);
         if parsed.Failure? then
           && config.maxMemoryRestart == old(config.maxMemoryRestart)
           && config.processes == old(config.processes)
         else
           && config.maxMemoryRestart == parsed.value
           && config.processes == opts.processes
  }

  /** populateConfigFromStartOptions. The conflict check runs first and
      exits before anything is assigned; maxRestartAttempts and
      disableAutoRestart are assigned before the threshold is parsed, so a
      bad threshold leaves them updated. */
  method PopulateConfigFromStartOptions(opts: StartOptions, config: AppConfig) returns (r: Outcome)
    modifies config
    ensures Conflicting(opts) ==> unchanged(config)
    ensures config.metricCollectionIntervalMs == old(config.metricCollectionIntervalMs)
    ensures config.verbose == old(config.verbose)
    ensures !Conflicting(opts) ==>
      && config.maxRestartAttempts == opts.maxRestartAttempts
      && config.disableAutoRestart == opts.disableAutoRestart.GetOr(false)
    ensures var parsed := ExtractSpecifiedMaxMemoryValue(opts.maxMemoryRestart);
      !Conflicting(opts) && parsed.Failure? ==>
      && config.maxMemoryRestart == old(config.maxMemoryRestart)
      && config.processes == old(config.processes)
    ensures var parsed := ExtractSpecifiedMaxMemoryValue(opts.maxMemoryRestart);
      !Conflicting(opts) && parsed.Success? ==>
      && config.maxMemoryRestart == parsed.value
      && config.processes == opts.processes
    ensures var parsed := ExtractSpecifiedMaxMemoryValue(opts.maxMemoryRestart);
      r == if Conflicting(opts) then Fail(ConflictError)
           else if parsed.Failure? then Fail(parsed.error)
           else Ok
    ensures r == Ok ==> !(config.disableAutoRestart && config.maxMemoryRestart.Some?)
  {
    if Conflicting(opts) {
      return Fail(ConflictError);
    }
    config.maxRestartAttempts := opts.maxRestartAttempts;
    config.disableAutoRestart := opts.disableAutoRestart.GetOr(false);
    var parsed := ExtractSpecifiedMaxMemoryValue(opts.maxMemoryRestart);
    if parsed.Failure? {
      return Fail(parsed.error);
    }
    config.maxMemoryRestart := parsed.value;
    config.processes := opts.processes;
    r := Ok;
  }

  /** How many workers onStart launches: `config.processes ??
      availableParallelism()`, a negative count launching none. */
  function LaunchCount(processes: Option<int>, availableParallelism: nat): (k: nat)
    ensures processes.None? ==> k == availableParallelism
    ensures processes.Some? && processes.value >= 0 ==> k == processes.value
    ensures processes.Some? && processes.value < 0 ==> k == 0
  {
    var n := processes.GetOr(availableParallelism);
    if n < 0 then 0 else n
  }

  /** The set of pids in a prefix of the fork pids. */
  function PidSet(pids: seq<int>): (s: set<int>)
    ensures forall p :: p in s <==> p in pids
  {
    set i | 0 <= i < |pids| :: pids[i]
  }

  /** Extending the prefix by one fork pid adds that pid. */
  lemma PidSetExtended(pids: seq<int>, i: nat)
    requires i < |pids|
    ensures PidSet(pids[..i + 1]) == PidSet(pids[..i]) + {pids[i]}
  {
    assert pids[..i + 1] == pids[..i] + [pids[i]];
  }

  /** The registry `after` a launch that began with `before` and `forks0`
      forks and ended with `forks`: every worker registered before keeps its
      pid, and each pid added holds a worker forked during the launch (its id
      is one of the launch's fork numbers). */
  predicate LaunchedFrom(before: map<int, Worker>, forks0: nat, after: map<int, Worker>, forks: nat)
  {
    && (forall p | p in before :: p in after && after[p] == before[p])
    && (forall p | p in after && p !in before :: forks0 < after[p].id <= forks)
  }

  /** A createProcess that throws keeps a launch's registry LaunchedFrom its
      start: it only counts a fork. */
  lemma LaunchedFromMoreForks(before: map<int, Worker>, forks0: nat, m: map<int, Worker>, forks: nat)
    requires LaunchedFrom(before, forks0, m, forks)
    ensures LaunchedFrom(before, forks0, m, forks + 1)
  {
  }

  /** A createProcess that registers w, its newest fork, keeps a launch's
      registry LaunchedFrom its start. */
  lemma LaunchedFromRegistered(before: map<int, Worker>, forks0: nat, m: map<int, Worker>, forks: nat, w: Worker)
    requires LaunchedFrom(before, forks0, m, forks)
    requires forks0 <= forks && w.id == forks + 1
    ensures LaunchedFrom(before, forks0, Registered(m, w), forks + 1)
  {
  }

  /** What a launch of `count` workers, the i-th receiving forkPids[i], did to
      a registry that held `before` after `forks0` forks: with no fork pid 0
      it forked `count` workers and registered their pids; otherwise the
      first fork without a pid, the j-th, ended it with its error after
      j + 1 forks and the j earlier pids registered; either way LaunchedFrom
      holds. */
  predicate LaunchOutcome(before: map<int, Worker>, forks0: nat, count: nat, forkPids: seq<int>,
                          r: Outcome, after: map<int, Worker>, forks: nat)
    requires count <= |forkPids|
  {
    && ((forall j | 0 <= j < count :: forkPids[j] != 0) ==>
          && r == Ok
          && forks == forks0 + count
          && after.Keys == before.Keys + PidSet(forkPids[..count]))
    && (forall j | 0 <= j < count && forkPids[j] == 0 && (forall l | 0 <= l < j :: forkPids[l] != 0) ::
          && r == Fail(PidUndefinedError(forks0 + j + 1))
          && forks == forks0 + j + 1
          && after.Keys == before.Keys + PidSet(forkPids[..j]))
    && LaunchedFrom(before, forks0, after, forks)
  }

  /** A launch that forked `count` workers, none without a pid, ends Ok. */
  lemma LaunchCompleted(before: map<int, Worker>, forks0: nat, count: nat, forkPids: seq<int>,
                        after: map<int, Worker>, forks: nat)
    requires count <= |forkPids|
    requires forall j | 0 <= j < count :: forkPids[j] != 0
    requires forks == forks0 + count && after.Keys == before.Keys + PidSet(forkPids[..count])
    requires LaunchedFrom(before, forks0, after, forks)
    ensures LaunchOutcome(before, forks0, count, forkPids, Ok, after, forks)
  {
  }

  /** A launch stopped by fork i, the first without a pid, ends with its
      error. */
  lemma LaunchStoppedAt(before: map<int, Worker>, forks0: nat, count: nat, forkPids: seq<int>, i: nat,
                        after: map<int, Worker>, forks: nat)
    requires i < count <= |forkPids| && forkPids[i] == 0
    requires forall j | 0 <= j < i :: forkPids[j] != 0
    requires forks == forks0 + i + 1 && after.Keys == before.Keys + PidSet(forkPids[..i])
    requires LaunchedFrom(before, forks0, after, forks)
    ensures LaunchOutcome(before, forks0, count, forkPids, Fail(PidUndefinedError(forks0 + i + 1)), after, forks)
  {
    assert forall j | 0 <= j < count && forkPids[j] == 0 && (forall l | 0 <= l < j :: forkPids[l] != 0) :: j == i;
  }

  /** onStart: fill the config, then create LaunchCount workers, the i-th
      receiving forkPids[i]. A createProcess that throws (pid 0) ends the
      launch. The cluster listeners it also attaches are not part of this
      model. */
  method OnStart(opts: StartOptions, config: AppConfig, pool: ProcessManager,
                 availableParallelism: nat, forkPids: seq<int>) returns (r: Outcome)
    requires pool.Valid()
    requires LaunchCount(opts.processes, availableParallelism) <= |forkPids|
    modifies config, pool
    ensures pool.Valid()
    ensures ExtractSpecifiedMaxMemoryValue(opts.maxMemoryRestart).Failure?
            || Conflicting(opts) ==>
      r.Fail? && pool.activeProcesses == old(pool.activeProcesses) && pool.forks == old(pool.forks)
    ensures !Conflicting(opts) && ExtractSpecifiedMaxMemoryValue(opts.maxMemoryRestart).Success? ==>
      LaunchOutcome(old(pool.activeProcesses), old(pool.forks), LaunchCount(opts.processes, availableParallelism),
                    forkPids, r, pool.activeProcesses, pool.forks)
    ensures Populated(opts, config)
  {
    r := PopulateConfigFromStartOptions(opts, config);
    ghost var parsed := ExtractSpecifiedMaxMemoryValue(opts.maxMemoryRestart);
    if r.Fail? {
      assert Conflicting(opts) || parsed.Failure?;
      return;
    }
    assert !Conflicting(opts) && parsed.Success?;
    var processesToLaunch := LaunchCount(config.processes, availableParallelism);
    assert processesToLaunch == LaunchCount(opts.processes, availableParallelism);
    r := LaunchWorkers(pool, processesToLaunch, forkPids);
  }

  /** The loop of onStart: fork `count` workers, the i-th receiving
      forkPids[i], stopping at the first createProcess that throws. */
  method LaunchWorkers(pool: ProcessManager, count: nat, forkPids: seq<int>) returns (r: Outcome)
    requires pool.Valid()
    requires count <= |forkPids|
    modifies pool
    ensures pool.Valid()
    ensures LaunchOutcome(old(pool.activeProcesses), old(pool.forks), count, forkPids, r, pool.activeProcesses, pool.forks)
  {
    var i := 0;
    while i < count
      invariant 0 <= i <= count
      invariant pool.Valid()
      invariant pool.forks == old(pool.forks) + i
      invariant forall j | 0 <= j < i :: forkPids[j] != 0
      invariant pool.activeProcesses.Keys == old(pool.activeProcesses.Keys) + PidSet(forkPids[..i])
      invariant LaunchedFrom(old(pool.activeProcesses), old(pool.forks), pool.activeProcesses, pool.forks)
    {
      ghost var mid, forks := pool.activeProcesses, pool.forks;
      var child := pool.CreateProcess(forkPids[i]);
      if child.Failure? {
        LaunchedFromMoreForks(old(pool.activeProcesses), old(pool.forks), mid, forks);
        LaunchStoppedAt(old(pool.activeProcesses), old(pool.forks), count, forkPids, i, pool.activeProcesses, pool.forks);
        return Fail(child.error);
      }
      LaunchedFromRegistered(old(pool.activeProcesses), old(pool.forks), mid, forks, child.value);
      PidSetExtended(forkPids, i);
      i := i + 1;
    }
    LaunchCompleted(old(pool.activeProcesses), old(pool.forks), count, forkPids, pool.activeProcesses, pool.forks);
    r := Ok;
  }

  /** A worker already registered under pid 5 keeps its entry when a launch
      forks another worker that receives pid 5, and pid 6 is registered to a
      worker the launch forked. */
  method RelaunchScenario() returns (kept: bool, added: bool)
    ensures kept && added
  {
    var pool := new ProcessManager();
    var first := pool.CreateProcess(5);
    var r := LaunchWorkers(pool, 2, [5, 6]);
    kept := 5 in pool.activeProcesses && pool.activeProcesses[5] == first.value;
    assert [5, 6][..2] == [5, 6];
    added := 6 in pool.activeProcesses && pool.activeProcesses[6].id > 1;
  }

  /** With no --processes option and four available cores, four workers are
      forked; with --processes 2, two; a negative count launches none. */
  method LaunchScenario() returns (byDefault: nat, byOption: nat, negative: nat)
    ensures byDefault == 4 && byOption == 2 && negative == 0
  {
    var pool := new ProcessManager();
    var config := new AppConfig();
    var r := OnStart(StartOptions(Unset, None, None, None), config, pool, 4, [11, 12, 13, 14]);
    byDefault := pool.forks;
    pool := new ProcessManager();
    r := OnStart(StartOptions(Unset, None, None, Some(2)), config, pool, 4, [21, 22]);
    byOption := pool.forks;
    pool := new ProcessManager();
    r := OnStart(StartOptions(Unset, None, None, Some(-3)), config, pool, 4, []);
    negative := pool.forks;
  }
}
