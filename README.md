# syswatch — a Dafny model of the snapshot-and-alert core

`syswatch.py` is a host health monitor. Each cycle it samples CPU, memory,
disk, network, host and process metrics into a single snapshot. It then
compares three percentages against threshold bounds to get a list of alerts,
and derives an overall status of `OK` or `ALERT` from that list.

This project models the part of that cycle that does not touch the operating
system:

- `Alerts` (alerts.dfy) holds the threshold record. The source keeps it in a
  global dictionary; here it is the `Thresholds` value handed to the
  evaluator, with defaults 85/85/90. It also holds the evaluator
  `check_alerts`, written as the `CheckAlerts` method with its conditional
  appends and specified by the function `Evaluate`, plus the status line of
  `take_snapshot`.
- `Uptime` (uptime.dfy) holds `_fmt_uptime`: divmod by 86400, 3600 and 60,
  rendered as `<d>d <h>h <m>m`. It also has a decimal printer that matches
  Python's `str(int)`, and a parser used to state the round trip.
- `Processes` (processes.dfy) holds `collect_top_processes`. It is a loop over
  a fallible process listing that skips `NoSuchProcess` and `AccessDenied`
  and lets any other error propagate. The kept entries are then stable-sorted
  by CPU share, largest first, with a missing share counting as 0, and cut
  with Python's `[:n]`.
- `Snapshot` (snapshot.dfy) holds `collect_disk` and `take_snapshot`. The
  collectors are called in the source's order, the first one that raises
  aborts the snapshot, and the alerts and status are then derived.
- `Provider` (provider.dfy) holds the readings the operating system supplies.
  `Wrappers` (wrappers.dfy) holds `Option` and `Result`.

Every OS reading is an input. The timestamp is a string parameter. Every
psutil and platform result is a field of `Provider.Readings`. A provider call
that raises is a `Failure` value. `diskUsage` is a function of the mount path
it is asked about.

The model follows the code, including where the code is looser than the monitor's documented design:

- `take_snapshot` always uses the default of 5 top processes. The count is
  not configurable.
- The code does not check that thresholds lie in [0, 100].
- The code does not check that the hostname is non-empty.
- `[:n]` with a negative `n` keeps all but the last `-n` entries, as Python
  slicing does.

## Model

| member | source | states |
|---|---|---|
| `Alerts.Evaluate` | syswatch.py:126-160 | at most three alerts; an alert for a metric exactly when its reading is at or above its bound, comparison inclusive; each alert carries its metric's level (WARNING for cpu and memory, CRITICAL for disk), the reading as value and the bound as threshold; alerts appear in the order cpu, memory, disk; the list is empty exactly when all three readings are below their bounds |
| `Alerts.CheckAlerts` | syswatch.py:126-160 | the conditional appends build exactly the evaluator's list, so it depends only on the three readings and the threshold record |
| `Alerts.EvaluateDetermined` | syswatch.py:126-160 | any list of breach records, in evaluation order, that names exactly the metrics at or above their bounds is the evaluator's list: the properties above fix the result |
| `Alerts.FiredPresence` | syswatch.py:131-158 | evaluating any metric order, a metric has an alert exactly when it is evaluated and its reading reaches its bound |
| `Alerts.FiredContents` | syswatch.py:132-158 | every alert produced is the breach record of an evaluated metric with that metric's reading and bound |
| `Alerts.FiredInOrder` | syswatch.py:130-158 | alerts come out in the order in which their metrics are evaluated |
| `Alerts.FiredLength` | syswatch.py:126-160 | no more alerts than metrics evaluated |
| `Alerts.CpuAlert` | syswatch.py:130-138 | a CPU alert is present exactly when cpu >= the CPU bound, and it is WARNING / cpu_percent / the reading / the bound |
| `Alerts.MemoryAlert` | syswatch.py:140-148 | a memory alert is present exactly when mem >= the memory bound, and it is a WARNING carrying the reading and the bound |
| `Alerts.DiskAlert` | syswatch.py:150-158 | a disk alert is present exactly when disk >= the disk bound, and it is always CRITICAL |
| `Alerts.MetricsDistinct` | syswatch.py:126-160 | no metric appears twice in the list |
| `Alerts.Status` | syswatch.py:177 | status is "ALERT" exactly when the alert list is non-empty and "OK" exactly when it is empty |
| `Alerts.StatusOkIffAllBelow` | syswatch.py:176-177 | the status is "OK" exactly when every reading is below its bound, and it is always "OK" or "ALERT" |
| `Alerts.NoAlertsBelowDefaults` | test_syswatch.py:114-117 | readings 10, 20, 30 under the default bounds give no alert |
| `Alerts.NoAlertJustBelow` | test_syswatch.py:144-148 | CPU at 84.9 under a bound of 85 raises no CPU alert, whatever the other readings |
| `Alerts.DiskAtBoundIsCritical` | syswatch.py:150-158 | disk exactly at the default bound of 90 fires and the alert is CRITICAL |
| `Alerts.CpuAndDiskScenario` | syswatch.py:126-177 | cpu 90, memory 20, disk 95 under the defaults give exactly a CPU warning then a critical disk alert, and status ALERT |
| `Uptime.Decompose` | syswatch.py:218-221 | hours < 24 and minutes < 60; days*86400 + hours*3600 + minutes*60 is the count less its 0-59 leftover seconds; the three numbers encode the whole minutes of the count; days >= 0 for counts >= 0 |
| `Uptime.NatToStringValue` | syswatch.py:222 | the decimal text of a number reads back as that number |
| `Uptime.FmtUptimeRoundTrip` | syswatch.py:218-222 | the rendered text reads back as exactly the days, hours and minutes of the count |
| `Uptime.FmtUptimeSameMinute` | syswatch.py:218-222 | two counts render alike exactly when they fall in the same minute: trailing seconds are dropped, nothing else is |
| `Uptime.FmtUptimeZero` | test_syswatch.py:171-172 | 0 renders as "0d 0h 0m" |
| `Uptime.FmtUptimeOneHour` | test_syswatch.py:174-175 | 3600 renders as "0d 1h 0m" |
| `Uptime.FmtUptimeOneDay` | test_syswatch.py:177-178 | 86400 renders as "1d 0h 0m" |
| `Uptime.FmtUptimeMixed` | test_syswatch.py:180-183 | 95400 renders as "1d 2h 30m" |
| `Processes.CollectTopProcesses` | syswatch.py:97-105 | the scan succeeds exactly when no read fails with an error other than NoSuchProcess or AccessDenied; on success the result is the top-N selection of the successful reads; on failure the error is that of the first uncaught failure in the listing |
| `Processes.ReadableMembers` | syswatch.py:99-104 | the collected entries are exactly those of the successful reads |
| `Processes.ReadableSkipsCaught` | syswatch.py:101-104 | a read that fails with any error contributes nothing to the collected entries |
| `Processes.FirstEscapeFacts` | syswatch.py:101-104 | there is no uncaught error exactly when every read succeeds or fails with a caught error; otherwise the reported error is that of the first read to fail with an uncaught one |
| `Processes.FirstEscapeAt` | syswatch.py:101-104 | the first uncaught failure is the one reported |
| `Processes.SortFacts` | syswatch.py:105 | the sort gives a non-increasing order by CPU share (missing share = 0) of the same entries (a permutation) |
| `Processes.SortStable` | syswatch.py:105 | for every key, the entries with that key keep their listing order |
| `Processes.Head` | syswatch.py:105 | `[:n]` is a prefix of length min(n, length) for n >= 0, and of length max(0, length + n) for negative n |
| `Processes.TopNShape` | syswatch.py:105 | the block has min(n, number of successful reads) entries for n >= 0, is non-increasing by key, and holds only collected entries |
| `Processes.TopNSelectsLargest` | syswatch.py:105 | every entry left out has a key no larger than every entry kept |
| `Processes.TopNStable` | syswatch.py:105 | for every key, the kept entries with that key are the first entries of the listing with that key, in listing order |
| `Processes.TopNFromReads` | syswatch.py:99-105 | every entry of the block came from a successful read |
| `Snapshot.CollectDisk` | syswatch.py:65-81 | the disk block echoes the path asked for and carries that path's usage figures; it has I/O counters exactly when the provider returned them; a raising usage call or I/O call is the block's error, usage first |
| `Snapshot.OutcomesClean` | syswatch.py:165-175 | every step succeeds exactly when every top-level collector answers, whatever error it would raise, and no process read fails with an uncaught error: per-item skipping happens only in the process scan |
| `Snapshot.TakeSnapshot` | syswatch.py:165-178 | a snapshot is built exactly when every step succeeds, and otherwise the error is the first failing step's in call order; a built snapshot carries the timestamp, the collectors' blocks, the disk path asked for, its uptime rendered by the formatter, the top-5 selection of the process scan, the evaluator's alerts for its CPU, RAM and disk percentages, and status ALERT exactly when there are alerts |

## Left out

- OS readings: psutil, platform and the clock are not modelled. Their results are inputs (`Provider.Readings` and the timestamp string); they cannot be reproduced.
- The range facts about those readings are not assumed and not needed: percentages in [0, 100], used not above total, positive uptime.
- Unit conversion: `round(x / 1e9, 2)` and `round(x / 1e6, 2)` are floating-point division and rounding. The size fields carry the provider's figures unchanged.
- collect_cpu, collect_memory, collect_network: apart from those conversions they only copy provider values, so their blocks are taken as given.
- collect_system_info: the uptime in seconds, a truncated clock difference, is an input. `Snapshot.CollectSystemInfo` only copies the readings and adds the formatter's text.
- Alert message text: Python's float formatting cannot be reproduced. The message is kept as its parts (subject, value, threshold) instead of rendered text.
- Floating-point comparison: percentages are `real`, so NaN is not modelled.
- The ISO timestamp with its `Z` suffix, `print_snapshot`, `parse_args`, `json.dumps`, file appends and logging are not modelled: they are presentation and I/O.
- The `main` poll loop with its sleep and interrupt handling is not modelled: it is orchestration.
- main's overwrite of the global `THRESHOLDS` dictionary is not modelled as state. The evaluator receives the threshold record as a parameter.
- psutil's own handling of processes inside `process_iter` is not modelled. So is a failure of the listing call itself. The model treats each listed item's read as fallible, as the code's try/except does.
