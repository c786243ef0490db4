# dry-check in Dafny

dry-check is a small daemon that polls a weather forecast service for a
fixed location and raises a desktop notification ("Dry Now") the moment the
rain stops. This project models its three pieces of logic and proves what
they promise:

- `Config` (config.dfy): loading the configuration. A document without
  `latitude` or `longitude` is rejected; otherwise `check_interval`
  defaults to 300 seconds and `alert_once` to true, and values the document
  already holds are kept. `Truthy`/`AlertOnce` give the policy the loop
  runs with, as Python's `bool(...)` reads the setting.
- `RainStatus` (rain_status.dfy): deciding from a decoded forecast response
  whether it rains. The `current` block wins when it is non-empty and holds
  `precipitation` or `rain` (missing or null read as 0); otherwise the first
  entry of `hourly.precipitation` decides, with `hourly.time[0]` or
  `"unknown"` as its timestamp; otherwise the reading is dry with the
  message `"no precipitation fields found"`. A consulted value `float`
  refuses makes the poll fail, and so does a null `hourly` block once the
  fallback reaches it (not when `current` decides), as both raise in the
  program.
- `Monitor` (monitor.dfy): the poll loop's state machine. The `Monitor`
  class holds the two flags `wasRaining` (initially true) and `notified`
  (initially false); `Step` feeds it one poll outcome (None for a poll that
  raised) and `Watch` runs the loop over a finite sequence of fetched
  responses. The pure `Transition` and `Run` specify them, and the lemmas
  prove: a notification fires only on a raining-to-dry edge between
  successful polls; a failed poll changes nothing; without `alert_once`
  every such edge fires; with `alert_once` only the first edge of the
  process's life fires, so at most one notification is ever sent.

`wrappers.dfy` holds the `Option` and `Result` types.

The program's `notified` flag is never cleared (dry-check.py:102-121), so
under `alert_once` a second dry spell after renewed rain is not reported.
Rain resuming does not re-arm the notification: the model follows the
code, and `Monitor.RainDryRainDry` proves that rain, rain, dry, dry, rain,
dry notifies only at poll 3 with `alert_once` (at polls 3 and 6 without
it), not at polls 3 and 6 as a re-arming reading of the policy would have
it.

## Model

| member | source | states |
|---|---|---|
| Config.SetDefault | dry-check.py:26-27 | `setdefault` adds the key, keeps every existing entry unchanged, and stores the default only where the key was missing |
| Config.SetDefaultIdempotent | dry-check.py:26-27 | a second `setdefault` of the same key never overwrites the first |
| Config.LoadConfig | dry-check.py:22-28 | fails exactly when `latitude` or `longitude` is missing (a null document reads as empty); on success the keys are the document's plus `check_interval` and `alert_once`, given values are kept, and absent ones become 300 and true |
| Config.Truthy | dry-check.py:94 | a setting is false exactly when it is null, false, zero, the empty string or an empty collection |
| Config.AlertOnce | dry-check.py:94 | the loop's policy is the truth value of `alert_once`: false exactly for null, false, zero, the empty string and an empty collection, so a bare `alert_once:` disables the policy and any non-empty string (even "false") enables it |
| RainStatus.Amount | dry-check.py:50-51 | `float(v or 0.0)`: a number reads as itself, a falsy value as 0, and it fails exactly on a value `float` refuses; the result is positive exactly when the value is a positive number |
| RainStatus.GetRainStatus | dry-check.py:47-68 | precedence current, then hourly[0], then "no precipitation fields found"; raining exactly when the reported values show precipitation; fails exactly on an unconvertible consulted value or a null `hourly` reached by the fallback |
| RainStatus.CurrentShadowsHourly | dry-check.py:48-54 | when `current` applies, the `hourly` block (even null) does not affect the decision |
| RainStatus.OnlyFirstHourlyEntryCounts | dry-check.py:57-65 | in the fallback only the first timestamp and first precipitation entry matter |
| RainStatus.CurrentWithoutFieldsFallsThrough | dry-check.py:48-68 | a missing, null, empty or field-less `current` block falls through; with no `hourly` either the reading is dry with the fixed message |
| RainStatus.PrecedenceExamples | dry-check.py:47-68 | wet `current` reads raining from current; empty `current` with wet hour 0 reads raining from hourly[0]; a null first entry reads 0 with time "unknown"; no fields reads dry with the fixed message |
| Monitor.Transition | dry-check.py:104-121 | a failed poll changes nothing and fires nothing; a successful one remembers its reading; firing needs a raining-to-dry edge, always happens on one unless alert-once already notified; `notified` is only set, only by a firing under alert-once |
| Monitor.Run | dry-check.py:102-121 | the loop over a finite sequence of polls yields one fired flag per poll |
| Monitor.RunRemembersLastReading | dry-check.py:104-121 | after any run, `wasRaining` is the last successful reading (or the prior belief if every poll failed) |
| Monitor.EveryEdgeFires | dry-check.py:108-113 | without alert-once, a poll notifies if and only if it reads dry while the last successful reading before it was rain; `notified` never changes |
| Monitor.OnlyFirstEdgeFires | dry-check.py:108-113 | with alert-once, a poll notifies if and only if nothing was sent before and it is the first raining-to-dry edge of the run; `notified` ends set if and only if it was set or the run has an edge |
| Monitor.AtMostOneNotification | dry-check.py:109-113 | with alert-once a run sends at most one notification, none once `notified` is set |
| Monitor.DryStartNotifies | dry-check.py:98-113 | from the initial state a dry first reading notifies, under either policy |
| Monitor.ConsecutiveDryIsSilent | dry-check.py:108-115 | a dry reading right after a dry reading never notifies |
| Monitor.RainDryRainDry | dry-check.py:99-115 | rain, rain, dry, dry, rain, dry notifies at poll 3 only with alert-once, at polls 3 and 6 without |
| Monitor.FailedPollIsAbsorbed | dry-check.py:103-121 | a poll whose request failed or whose decision raised leaves both flags as they were and fires nothing |
| Monitor.CurrentDecidesPoll | dry-check.py:47-54 | a poll with an applicable, convertible `current` block succeeds whatever `hourly` holds (null included), and notifies exactly on a raining-to-dry edge allowed by the policy where neither `current` value is positive |
| Monitor.Monitor.constructor | dry-check.py:98-100 | the monitor starts believing it rains, with nothing notified |
| Monitor.Monitor.Step | dry-check.py:103-121 | the new flags and the fired result are exactly those of `Transition` from the old flags |
| Monitor.Monitor.Watch | dry-check.py:102-123 | after the loop, the fired flags and the monitor's flags are those of `Run` from the flags it started with |

## Left out

- The HTTP request, its URL and parameters, `raise_for_status` and JSON decoding (dry-check.py:35-45): network I/O; the decoded payload, or None for a request that failed, is the input.
- A decoded response that is not a JSON object, or whose `current`, `hourly`, `time` or `precipitation` entry has an unexpected type: the payload type only represents objects and lists where the program expects them.
- RainStatus.Amount: numbers are `real`, so floating-point rounding, NaN and infinities are not modelled; any value `float` refuses (a truthy non-numeric string, say) is one abstract `Unparsable`, and numeric strings that `float` would parse must be given as numbers.
- The detail strings' formatting (`f"...{precip}mm"`): a `Detail` value records which source decided and the values it used; only the fixed "no precipitation fields found" message is a literal.
- Finding and reading `config.yaml` and YAML parsing (dry-check.py:19-22): file I/O through a foreign library; the decoded document is the input, with None for an empty document.
- `int(cfg["check_interval"])` and `time.sleep(interval)` (dry-check.py:93, 123): the model assumes the interval is a valid non-negative integer. Both run outside any handler, so in the program a null or non-numeric `check_interval` ends the process with a traceback (not through the configuration-error exit), and a negative one ends the loop after the first poll.
- `notify` and `notify-send` (dry-check.py:70-75): an OS side effect, modelled as the `fired` result.
- Logging, timestamps and `sys.stdout.reconfigure` (dry-check.py:13-16, 79-89, 96, 105-106, 111, 117-121): the model assumes logging never raises. In the program `print` can raise inside the poll's `try` (an encoding error for the status emoji, a broken pipe): a raise at line 106 turns a decided poll into a failed one, and a raise at line 111 comes after `notify`, so that poll notifies yet keeps both flags, and the next dry poll notifies again even under `alert_once`. The model does not capture a poll that both raises and fires.
- The exit on a configuration error (dry-check.py:85-89): the failure is returned as `MissingCoordinates`.
- The endless `while True` and `time.sleep` (dry-check.py:102, 123): the loop runs over a finite sequence of poll outcomes.
- The kinds of exception a poll can raise (dry-check.py:116-121): every one is a failed poll.
