# pulsr process supervisor — Dafny model

pulsr launches a Node.js entrypoint as a set of cluster workers and keeps
them alive. This project models the sequential core of its TypeScript
source:

- **Registry** (`Manager`): a map from OS pid to worker. It supports
  create, register, destroy, recreate and the disconnect handler.
  Forking is "a new worker with a pid the caller supplies". Destroying a
  worker records the signal it was sent.
- **Memory monitors** (`Monitor`, `Metrics`, `Listeners`):
  - the newer `monitorMetrics` and the older `metricsCollector` share one
    restart pass over (pid, bytes) samples;
  - the pass is specified by the recursive function `Monitor.Pass`;
  - the two monitors differ only in whether `disableAutoRestart` is
    consulted, and in what a sampling error does.
- **Shutdown** (`Shutdown`): disable auto-restart, then destroy every
  registered worker.
- **Start command** (`Start`): parse the `--max-memory-restart` threshold,
  fill the shared config, and launch the workers.
- **Retry** (`RetryUtils`): retry with exponential backoff. The retried
  function is a script of outcomes, and the sleeps are recorded in
  milliseconds.
- **Byte conversion** (`NumberUtils`): `convertFromBytes`, with the `1024^i`
  divisor.
- **Logger** (`LoggerUtils`): level filtering, the `[child-<pid>]` /
  `[main]` prefix padded to 15 characters, trimming, and the routing of
  each line to a channel and colour.

Supporting modules:
- `Wrappers`: `Option`, `Result`, `Outcome`. A thrown `Error` and a
  `process.exit(1)` both become a failure carrying the logged message.
- `Js`: JavaScript truthiness and `Math.pow`.
- `Text`: number formatting, `padEnd` and `trim`.
- `Config`: memory units and the shared `config` object.

A pid of 0 stands for both an undefined pid and pid 0: every test of a pid
in the source treats the two alike.

Some files of the repository are written against a later version of the
manager than `src/process/manager.ts`:

- `src/process/metrics.ts:3` imports `getPidsOfActiveProcesses`, which
  `src/process/manager.ts` does not export.
- `src/process/shutdown.ts:2` imports `configuredTimers`, which
  `src/config.ts` does not export.
- `src/process/metrics.ts:47` calls `recreateProcess(proc.uid)` with one
  argument. `src/process/manager.ts:56` takes a numeric pid and a config.
- `src/process/shutdown.ts:15` awaits `destroyProcess(uid)` over the
  string keys of the registry.
- `test/process/manager.spec.ts` (lines 38, 55, 105, 128, 158 and 199) and
  `test/process/metrics.spec.ts` (lines 5 and 72) expect stable uids, an
  `isBeingRestarted` flag and asynchronous destroy and recreate.

The model follows `src/process/manager.ts`: a pid-keyed registry whose
disconnect handler does nothing while auto-restart is off. It reads
`proc.uid` in `metrics.ts` as "the registry key of the record looked up",
which is the sampled pid.

## Model

| member | source | states |
|---|---|---|
| Config.UnitName | src/config.ts:1-6 | a unit's string value is one or two characters and ends in 'B'; it has two characters exactly for the units other than B |
| Config.UnitIndex | src/config.ts:1-6 | the position of a unit in `Object.values(MemoryUnit)`, so that B, KB, MB, GB are 0..3 |
| Config.UnitNameInjective | src/config.ts:1-6 | distinct units have distinct string values |
| Config.ParseUnit | src/cli/action/start.ts:79-83 | a string is accepted as a unit exactly when it is the value of one (the `includes` test), and it gives that unit |
| Config.ParseUnitOfUnitName | src/config.ts:1-6 | every unit's string value parses back to the unit |
| Config.AppConfig.constructor | src/config.ts:23-27 | the initial config has interval 500 ms, verbose off, auto-restart on, and no threshold, retries or process count |
| Js.FalsyValues | src/utils/retry.utils.ts:35 | the `if (result)` test: a value is falsy exactly when it is undefined, null, false, 0 or the empty string |
| Js.Pow | src/utils/retry.utils.ts:39 | `Math.pow` of a positive base is positive, and of a base of at least 1 is at least 1 |
| NumberUtils.ConvertFromBytes | src/utils/number.utils.ts:5-21 | a known unit u gives bytes / 1024^(index of u), B giving bytes itself; any other name fails with "Could not convert bytes to <to>!" |
| NumberUtils.SearchUnits | src/utils/number.utils.ts:12-20 | the unit loop from index i returns the conversion for the first unit named `to`, or fails when none from i on matches |
| NumberUtils.Divisor | src/utils/number.utils.ts:16 | the divisor 1024^i is at least 1 |
| NumberUtils.ConvertKnownUnit | src/utils/number.utils.ts:8-18 | converting to a unit's own name always succeeds, with bytes / Divisor(u) |
| NumberUtils.ConvertMonotone | src/utils/number.utils.ts:16 | more bytes never convert to a smaller value |
| NumberUtils.ConvertedAtLeastIff | src/process/metrics.ts:41 | the converted memory reaches a threshold t exactly when the bytes reach t * 1024^i (both directions) |
| NumberUtils.ConversionExamples | test/utils/number.utils.spec.ts:6-30 | the expected values of the conversion tests, with exact fractions, and the failure for "abc" |
| RetryUtils.UsedExpRate | src/utils/retry.utils.ts:22 | `expRate ?? 2`: a supplied rate is used as given, zero included; a missing one is 2 |
| RetryUtils.FirstSuccess | src/utils/retry.utils.ts:24-37 | the index of the first attempt that returns a truthy value, and no earlier attempt succeeds |
| RetryUtils.CallCount | src/utils/retry.utils.ts:24-37 | fn is called at most `retries` times |
| RetryUtils.BackoffSchedule | src/utils/retry.utils.ts:39-43 | the i-th sleep is expRate^(i+1) * 1000 ms, one per failed attempt |
| RetryUtils.RetryWithExponentialBackoff | src/utils/retry.utils.ts:12-47 | the loop calls fn until its first truthy result or the budget runs out, returns the last value fn returned (null if none), sleeps only while the rate is positive, and logs one error line (plus the meta line) per throw |
| RetryUtils.ResultIsFirstSuccess | src/utils/retry.utils.ts:35-37 | when some attempt within the budget succeeds, the result is the value of the first successful attempt, after exactly k+1 calls |
| RetryUtils.NoSuccessLeavesFalsy | src/utils/retry.utils.ts:19-33 | when no call succeeds, `result` is falsy, and null when every call threw |
| RetryUtils.ExhaustedBudget | src/utils/retry.utils.ts:24-46 | when every attempt in the budget fails, fn is called `retries` times, the result is falsy, and with a positive rate there are `retries` sleeps |
| RetryUtils.NoBudgetNoCall | src/utils/retry.utils.ts:19-24 | a budget of zero or less calls fn never and returns null |
| RetryUtils.FailingThenReturning | test/utils/retry.utils.spec.ts:8-17 | the test function throws k times and then returns v |
| RetryUtils.FailsThenSucceeds | src/utils/retry.utils.ts:24-44 | k failures then a truthy value, with budget k+1: that value after k+1 calls, with sleeps rate^1..rate^k seconds, or none when the rate is not positive |
| RetryUtils.RetryScenarios | test/utils/retry.utils.spec.ts:8-60 | the three succeeding tests: sleeps of 2000..16000 ms; 3000..81000 ms at rate 3; rate 0 gives 5 calls and no sleep; each returns 4 |
| RetryUtils.ExhaustedRetryScenario | test/utils/retry.utils.spec.ts:61-74 | an exhausted budget of 4 returns null after 4 calls and 4 sleeps |
| Manager.Worker.constructor | src/process/manager.ts:11 | a forked worker has its cluster id and pid and has been sent no signal |
| Manager.Worker.Destroy | src/process/manager.ts:51 | destroy records the signal it was sent |
| Manager.Registered | src/process/manager.ts:70-78 | registering adds the pid to the keys, keeps the existing worker when the pid is already present, and changes no other entry |
| Manager.ProcessManager.constructor | src/process/manager.ts:8 | the registry starts empty |
| Manager.ProcessManager.GetProcessByPid | src/process/manager.ts:40-42 | the registered worker exactly when the pid is a key, otherwise null |
| Manager.ProcessManager.ExtractPid | src/process/manager.ts:80-88 | succeeds exactly for a truthy pid; otherwise fails with "PID is undefined for worker" and the worker id |
| Manager.ProcessManager.RegisterProcess | src/process/manager.ts:70-78 | a worker without a pid is refused and nothing changes; otherwise the registry becomes Registered(old, w); every key still maps to a worker with that pid |
| Manager.ProcessManager.CreateProcess | src/process/manager.ts:10-34 | every call forks, so the fork count goes up by one; a new worker with a pid is registered and returned; a missing pid throws with the new worker's id |
| Manager.ProcessManager.DestroyProcess | src/process/manager.ts:44-54 | an unknown pid throws "No process is registered" and nothing changes; otherwise that worker gets one 'sigterm' and only its key is removed |
| Manager.ProcessManager.RecreateProcess | src/process/manager.ts:56-64 | an unknown pid throws before any fork; otherwise the old worker gets 'sigterm', its key is removed, and the new worker is registered |
| Manager.ProcessManager.OnDisconnect | src/process/manager.ts:23-31 | recreation happens exactly when the pid is truthy, still registered and auto-restart is on; otherwise the registry, the fork count and every registered worker's signals are unchanged |
| Monitor.MonitorUnit | src/process/metrics.ts:31 | `config.maxMemoryRestart?.unit ?? MB`: the unit of the configured threshold, MB when there is none |
| Monitor.Selects | src/process/metrics.ts:37-42 | a sample is restarted exactly when a threshold is set, auto-restart is on (monitorMetrics only), the pid is registered, and bytes >= value * 1024^(unit index) |
| Monitor.Pass | src/process/metrics.ts:29-48 | the specification of a pass: at most one restart per sample; an abort comes after at least one restart and only when some fork had no pid; every key it adds is a fork pid |
| Monitor.AbortedAtZeroFork | src/process/metrics.ts:29-48 | a pass aborts only at the restart whose fork received no pid: the last pid it restarted belongs to a sample whose fork pid is 0 |
| Monitor.RestartPass | src/process/metrics.ts:29-48 | the loop restarts the pids and leaves the registry keys that Pass gives for the registry at entry, in sample order; it forks once per restart; each worker registered at entry gets one 'sigterm' exactly when its pid was restarted, and every other one stays registered unchanged |
| Monitor.RestartStep | src/process/metrics.ts:30-47 | one iteration of the loop keeps the restarts, keys, fork count, kept workers and sent signals in step with Pass; a fork without a pid ends the pass in the aborted state Pass predicts |
| Monitor.PassRestartsOnlyBreaching | src/process/metrics.ts:37-47 | every restarted pid belongs to a sample whose memory reached a configured threshold |
| Monitor.QuietPass | src/process/metrics.ts:37-39 | with no threshold, or with auto-restart disabled under monitorMetrics, a pass restarts nothing and keeps the registry |
| Monitor.SelectedDependsOnSampledPids | src/process/metrics.ts:30-40 | selection depends only on which sampled pids are registered |
| Monitor.PassWithFreshPids | src/process/metrics.ts:29-48 | with distinct sampled pids and non-zero fork pids not among them, the pass restarts exactly the samples selected against the registry at entry, and nothing aborts |
| Monitor.PoliciesAgreeWhenAutoRestartOn | src/process/listeners.ts:24-28 | while auto-restart is on, metricsCollector and monitorMetrics make the same pass |
| Metrics.MonitorMetrics | src/process/metrics.ts:17-50 | a sampling failure is logged and changes nothing: no restart, no fork, no signal; otherwise the pass consults disableAutoRestart and the configured threshold, forks once per restart, sends 'sigterm' exactly to the restarted workers and keeps every other worker |
| Metrics.ShouldRestartIff | src/process/metrics.ts:37-42 | restart exactly when a threshold is set, auto-restart is on, the pid is registered and bytes >= value * 1024^i |
| Metrics.ThresholdExample | src/process/metrics.ts:41 | at 1,000,000 B: 1,500,000 and exactly 1,000,000 bytes restart; 999,999 bytes and an unregistered pid do not |
| Metrics.MemoryThresholdScenario | test/process/metrics.spec.ts:28-75 | of two workers at 999,999 and 1,500,000 bytes, only the second is recreated |
| Listeners.MetricsCollector | src/process/listeners.ts:14-36 | a sampling failure escapes before any restart, fork or signal; otherwise the pass ignores disableAutoRestart, forks once per restart, sends 'sigterm' exactly to the restarted workers and keeps every other worker |
| Listeners.ShouldRestartIff | src/process/listeners.ts:24-28 | restart exactly when a threshold is set, the pid is registered and bytes >= value * 1024^i, whatever disableAutoRestart says |
| Listeners.CollectorIgnoresDisabledAutoRestart | src/process/listeners.ts:24-33 | with auto-restart disabled, a breaching process is still recreated by metricsCollector but not by monitorMetrics |
| Shutdown.GracefulShutDown | src/process/shutdown.ts:5-16 | auto-restart ends disabled, the registry ends empty, and every worker registered at entry received exactly one 'sigterm' |
| Shutdown.ShutdownScenario | src/process/shutdown.ts:5-21 | after a SIGINT shutdown of three workers, their disconnects recreate nothing and each worker got one 'sigterm' |
| Start.JsNumber | src/cli/action/start.ts:80 | `Number()` of a blank string is 0, of a digit string its value, and never negative |
| Start.ExtractSpecifiedMaxMemoryValue | src/cli/action/start.ts:62-97 | only a text option is ever refused, and then with the "Incorrect value" message naming that text |
| Start.IsSetIsTruthiness | src/cli/action/start.ts:65 | the `!maxMemoryRestart` test is JavaScript falsiness of the option: unset, 0 and "" are falsy |
| Start.ExtractedNonText | src/cli/action/start.ts:65-75 | a falsy option gives no threshold; a non-zero number n is n bytes, readable as "nB" |
| Start.RefusedText | src/cli/action/start.ts:77-90 | text is refused only with the "Incorrect value" message, and always when it has one or two characters |
| Start.AcceptedTextParts | src/cli/action/start.ts:77-96 | accepted text is longer than two characters, its last two characters name the unit, the number before them is the value, and the text is kept as readable |
| Start.AcceptedText | src/cli/action/start.ts:77-96 | text whose last two characters name a unit and whose rest is a number is accepted as exactly that |
| Start.RejectedSuffix | src/cli/action/start.ts:79-90 | text whose last two characters name no unit is refused with the "Incorrect value" message |
| Start.RejectedNumber | src/cli/action/start.ts:78-90 | text whose last two characters name a unit but whose rest is not a number (`isNaN`) is refused with the "Incorrect value" message |
| Start.TextVerdict | src/cli/action/start.ts:77-96 | non-empty text is accepted exactly when it is longer than two characters, its last two name a unit and the rest is a number; it is refused with the "Incorrect value" message exactly otherwise |
| Start.ThresholdRoundTrip | src/cli/action/start.ts:77-96 | the decimal text of n followed by KB, MB or GB parses back to n in that unit |
| Start.BareByteSuffixRejected | src/cli/action/start.ts:77-83 | "<n>B" is always refused, because the two-character split reads a digit followed by B |
| Start.DigitStringRejected | src/cli/action/start.ts:77-83 | a plain digit string given as text is refused |
| Start.RejectedThresholdExamples | test/cli/start.spec.ts:160-190 | "asd" and "1000M" are refused with the expected message |
| Start.AcceptedThresholdExample | test/cli/start.spec.ts:217-237 | "300MB" gives {MB, 300, "300MB"} |
| Start.NumericThresholdExamples | src/cli/action/start.ts:65-75 | 500 gives {B, 500, "500B"}; 0 and "" give no threshold |
| Start.PopulateConfigFromStartOptions | src/cli/action/start.ts:50-60 | disableAutoRestart with a truthy threshold exits with the conflict message and changes nothing; otherwise retries and disableAutoRestart (default false) are set first, a bad threshold exits with its message and leaves threshold and processes as they were, and a success sets both; the interval and verbose flag are never touched; a successful config never has both a threshold and auto-restart disabled |
| Start.LaunchCount | src/cli/action/start.ts:39-45 | `processes ?? availableParallelism()` workers, none for a negative count |
| Start.OnStart | src/cli/action/start.ts:31-48 | the config ends as PopulateConfigFromStartOptions leaves it; a config error launches nothing; otherwise LaunchCount workers are forked and their pids registered, and the first fork without a pid, the j-th, ends the launch with its error after j + 1 forks and the j earlier pids registered; every worker registered before keeps its entry, and each added pid holds a worker forked by the launch |
| Start.LaunchWorkers | src/cli/action/start.ts:45-47 | forks `count` workers and registers their pids; the first fork without a pid stops the loop with its error, after exactly the forks before it; a worker registered before the launch keeps its entry even when a fork receives its pid, and each added pid holds a worker whose fork number is one of the launch's |
| Start.RelaunchScenario | src/cli/action/start.ts:45-47 | a launch whose fork receives an already registered pid leaves that pid's worker in place and registers its other fork |
| Start.LaunchScenario | src/cli/action/start.ts:39-47 | 4 workers for 4 cores with no option, 2 with processes 2, none with a negative count |
| Text.NatToString | src/cli/action/start.ts:73 | the decimal rendering is a non-empty digit string, with no leading zero except for 0 |
| Text.IntToString | src/utils/logger.utils.ts:64 | the rendering starts with '-' exactly for a negative number |
| Text.ParseNatOfNatToString | src/cli/action/start.ts:80 | `Number()` of the decimal rendering of n is n |
| Text.NatToStringInjective | src/utils/logger.utils.ts:64 | distinct numbers render differently |
| Text.PadEnd | src/utils/logger.utils.ts:66 | padEnd keeps the string, pads it with spaces to the width, and leaves it alone when it is already that long |
| Text.TrimStart | src/utils/logger.utils.ts:42 | drops the leading whitespace and only that: a suffix of the input, empty or starting with non-whitespace, everything before it whitespace, empty exactly for blank input |
| Text.TrimEnd | src/utils/logger.utils.ts:42 | drops the trailing whitespace and only that: a prefix of the input, empty or ending with non-whitespace, everything after it whitespace |
| Text.Trim | src/utils/logger.utils.ts:42 | the result has no whitespace at either end, is empty exactly for blank input, and leaves trimmed input unchanged |
| Text.TrimRemovesOnlyWhitespace | src/utils/logger.utils.ts:42 | the trimmed string is a slice s[i..j] of the input, and s[..i] and s[j..] are all whitespace |
| Text.TrimKeepsTrimmedPrefix | src/utils/logger.utils.ts:42 | a string that starts with a non-empty piece without whitespace at either end still starts with it after trimming |
| Text.DigitsAreTrimmed | src/cli/action/start.ts:80 | a non-empty digit string is unchanged by trim |
| Text.TrimEndDropsWhitespaceSuffix | src/utils/logger.utils.ts:42 | trailing whitespace appended to a string does not survive trimEnd |
| LoggerUtils.Prefix | src/utils/logger.utils.ts:64 | the prefix is bracketed and at least six characters long |
| LoggerUtils.PrefixInjective | src/utils/logger.utils.ts:64 | different pids, and the main process, get different prefixes |
| LoggerUtils.AttachProcessPidIfPresent | src/utils/logger.utils.ts:63-67 | the prefix, spaces up to column 15 (or none when longer), then the text unchanged |
| LoggerUtils.Format | src/utils/logger.utils.ts:42 | the written line has no whitespace at either end and starts with the whole process prefix |
| LoggerUtils.FormatOfTrimmedText | src/utils/logger.utils.ts:42 | trimming does not alter a line whose text is non-empty and trimmed |
| LoggerUtils.FormatOfBlankText | src/utils/logger.utils.ts:42 | blank text leaves only the prefix, the padding trimmed away |
| LoggerUtils.Emits | src/utils/logger.utils.ts:38 | nothing is written while logging is disabled; otherwise a line is written exactly when the logger's level is at most the line's, so ERROR always is |
| LoggerUtils.DefaultLevelSuppressesOnlyDebug | src/utils/logger.utils.ts:11 | at the default level INFO, exactly the DEBUG lines are dropped |
| LoggerUtils.LowerLevelEmitsMore | src/utils/logger.utils.ts:38 | lowering the logger's level never silences a line that was written before |
| LoggerUtils.Route | src/utils/logger.utils.ts:44-57 | only ERROR goes to the error channel; INFO is blue for a child and cyan for the main process |
| LoggerUtils.Logger.constructor | src/utils/logger.utils.ts:11 | a new logger is at level INFO and has written nothing |
| LoggerUtils.Logger.SetLevel | src/utils/logger.utils.ts:29-31 | changes the level only |
| LoggerUtils.Logger.PrintLogLine | src/utils/logger.utils.ts:33-58 | a line below the level, or any line while logging is disabled, is dropped; otherwise exactly one trimmed, prefixed line is appended on the level's channel and colour |
| LoggerUtils.Logger.Debug | src/utils/logger.utils.ts:13-15 | a DEBUG line, white on standard output, when emitted |
| LoggerUtils.Logger.Info | src/utils/logger.utils.ts:17-19 | an INFO line, blue for a child and cyan for the main process, when emitted |
| LoggerUtils.Logger.Warn | src/utils/logger.utils.ts:21-23 | a WARN line, yellow on standard output, when emitted |
| LoggerUtils.Logger.Error | src/utils/logger.utils.ts:25-27 | an ERROR line, red on the error channel, when emitted |
| LoggerUtils.ChildLine | src/utils/logger.utils.ts:63-67 | child 42's "ready" is written as "[child-42]     ready" |
| LoggerUtils.MainLine | src/utils/logger.utils.ts:63-67 | the main process's "boom" is written as "[main]         boom" |
| LoggerUtils.LoggerScenario | src/utils/logger.utils.ts:10-58 | a new logger drops debug; writes info and error; after SetLevel(ERROR) drops a warning |

## Left out

- Forking, worker events, stdout/stderr piping and the `online` callback (src/process/manager.ts:11,15-21,61-63) are OS calls. A fork is modelled as a new worker whose pid the caller supplies; pid 0 stands for an undefined pid.
- `pidusage` sampling (src/process/manager.ts:66-68) is an OS query. Samples are an input that may be an error.
- Timers: `setInterval`, `nonOverlappingInterval`, `sleep`, and the timer unref/clear at shutdown. Sleeps are recorded as durations; nothing is scheduled.
- Concurrency is not modelled. Each handler runs as one atomic step. Un-awaited restarts in `metricsCollector` and `Promise.all` at shutdown run in order.
- Logging inside the manager, monitors, retry and shutdown is not modelled; only the retry's error lines are kept. The logger itself is modelled on its own.
- Monitor.RestartPass: `config.maxMemoryRestart?.unit ?? MB` only matters for the debug line when no threshold is set. The rounded readable memory is not modelled either.
- Chalk's terminal escape codes are not modelled. A line records its colour as a value.
- Start.JsNumber: `Number()` is modelled only for blank and decimal-digit strings. Signs, decimals, exponents, hexadecimal and `Infinity` are treated as NaN, so the model refuses thresholds such as "1.5GB" that the source accepts.
- A numeric threshold option is modelled as an integer. NaN and fractional numbers are not modelled.
- JavaScript numbers are modelled as exact reals with no NaN. `Js.FalsyValues` therefore lists every falsy value except NaN. `RetryUtils.BackoffSchedule` is exact where the double `Math.pow(rate, i + 1) * 1000` rounds for a rate that is not a whole number. `Text.IntToString` never uses the exponent form that `${n}` produces from 1e21 up. Dividing by a power of 1024 in `NumberUtils.ConvertFromBytes` is exact in doubles too, so the monitors are unaffected.
- Start.LaunchWorkers, Start.OnStart: the workers a launch adds are identified by their fork numbers. The contract does not state that they are fresh objects with no signal; stating those heap facts put the launch proof over the resource limit.
- RetryUtils.RetryWithExponentialBackoff requires a script that covers the whole budget (`retries <= |outcomes|`). The source makes no such demand; a call beyond the script is not modelled.
- `meta` is taken as its already serialised `JSON.stringify` text.
- `configureStartCommand` (src/cli/action/start.ts:17-29), src/cli/index.ts and `cluster.setupPrimary` are command-line wiring.
- `attachClusterListeners` (src/process/listeners.ts:10-12) only installs the interval that runs `Listeners.MetricsCollector`.
- `registerGracefulShutdown` (src/process/shutdown.ts:18-21) only installs handlers. Both signals run `Shutdown.GracefulShutDown`, whose contract does not depend on the signal.
- The `LOGGING_DISABLED` environment flag is a parameter of `PrintLogLine`. Buffer text is modelled as a string.
- Tests for the later uid-keyed, asynchronous manager have no backing code in this source and are not modelled. They cover `isDead` polling, `isBeingRestarted`, uid stability, terminate-on-disconnect, exit on an empty pool, and the sigkill/retries validations and their conflict message. `Metrics.MemoryThresholdScenario` keeps only what the shown code does with that test's data.
