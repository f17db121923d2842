# log_analyzer in Dafny

A model of the decision logic of the two monitoring scripts of the log_analyzer
repository, with proofs of what that logic guarantees.

- `log_analyzer.py` (module `Monitor`).
  - `monitor_system` records five collected metrics in a summary dictionary and checks
    five fixed threshold rules. Each firing rule appends its alert line.
  - `main` then optionally does three things:
    - appends a timestamped record to the `summary.json` history;
    - mails a plain-text report of the summary and the alerts;
    - beeps.
  - The mail and the beep happen only when there is at least one alert.
- `log_analyzer_1.py` (module `LogScan`). `analyze_logs` does the following:
  - It reads the log file's lines, or returns at once when the file cannot be read.
  - It checks every line against every keyword, case-insensitively. Each hit bumps a
    `collections.Counter` entry keyed by the keyword exactly as given.
  - It totals the counts and records, for each keyword:
    - its count;
    - its percentage of the total, which is 0 when the total is 0;
    - a bar of `int(percent) // 4` `#` marks.
  - It optionally appends the summary to the history and mails it.
  - It beeps when one of the fixed alert keywords has a non-zero count.

Shared modules:

- `Dict` models a Python `dict`, `Counter` included, as an insertion-ordered
  association list.
- `Text` models ASCII lower-casing, substring tests, `str.replace`, `str(int)` and
  Python's base-10 `int()` parser.
- `History` models the history file as an abstract stored document.
- `Cli` models the one check `parse_args` makes: `--get-email` needs `--recipient`.
- `Wrappers` provides `Option` and `Result`.

Code that changes state is modelled as imperative Dafny:

- The alert list grows by appends (`Monitor.CheckThresholds`).
- The summary dictionary is filled key by key (`Monitor.FillSummary`).
- The mail body is accumulated in two loops (`Monitor.ComposeReport`).
- The counter is a class incremented inside nested loops (`LogScan.Counter`,
  `LogScan.CountKeywords`).
- The history file is a class whose `Save` rewrites it (`History.HistoryFile`).

Each method is proved against a specification function, for example `Alerts`, `Summary`,
`ReportBody`, `Scan`, `StatsOf` or `Persist`. The lemmas prove what the scripts promise
about those functions.

The code and its documented intent differ in one place: the history load. The intent
is that a missing or malformed file counts as empty. But the code calls
`existing.append` on whatever `json.load` returned, so a file that holds valid JSON
other than an array stops the run with an uncaught `AttributeError`. Both halves are
modelled (see "Findings"): `History.PersistAsWritten` is the code as written, and
`History.Persist` is the intended behaviour. `History.HistoryFile.Save`, and so both
runs (`Monitor.RunMonitor`, `LogScan.AnalyzeLogs`), use the intended `Persist`;
"Left out" names what they then do not capture.

Both scripts append to the same `summary.json`, and `json.load` accepts an array of
any values. The runs therefore take the element type of the history as a type
parameter, with an `encode` function that turns the script's own record into an
element, so one history can hold the records of both scripts.

## Model

| member | source | states |
|---|---|---|
| Monitor.Alerts | log_analyzer.py:113-131 | A rule's message is in the alert list exactly when that rule's condition holds. The messages come in strict table order (temperature, disk, service, CPU, memory), so none repeats, and there are at most five. |
| Monitor.CheckThresholds | log_analyzer.py:113-131 | The alert list built by the five successive `if … append` steps is exactly `Alerts(snap)`. |
| Monitor.MonitorSystem | log_analyzer.py:96-131 | The summary is the five collected values and the alerts are `Alerts(snap)`. The five alerts fire as follows: temperature exactly when a temperature is present and above 70; disk exactly when the text with `%` removed parses as an integer above 90 (a failed parse raises nothing); service exactly when the status is not `"active"`; CPU exactly when above 50; memory exactly when above 70, all with strict comparisons. |
| Monitor.FiredMessages | log_analyzer.py:113-131 | Checking the rule table in order yields a rule's message exactly when that rule fires. |
| Monitor.FiredMessagesRanked | log_analyzer.py:113-131 | The messages of the fired rules are in strictly increasing table position, each below 5. |
| Monitor.FiredMember | log_analyzer.py:113-131 | A rule is among the fired rules of a table exactly when it is in the table and fires. |
| Monitor.FiredSorted | log_analyzer.py:113-131 | Checking a table that is in rank order yields fired rules in rank order. |
| Monitor.MessageIn | log_analyzer.py:114-131 | A message is among the messages of a rule list exactly when its rule is in the list. The five messages are pairwise distinct. |
| Monitor.MessagesRanked | log_analyzer.py:114-131 | The messages of a rank-ordered rule list carry their rules' ranks, so they are in strict order and each rank is below 5. |
| Monitor.MessagesStep | log_analyzer.py:113-131 | Checking one more rule appends its message when it fires and nothing otherwise. |
| Monitor.FiredByRule | log_analyzer.py:113-131 | Checking the rule table is checking the five rules one after the other. |
| Monitor.DiskPercentOfReading | log_analyzer.py:116-120 | A disk reading written as an integer followed by `%` is parsed back as that integer. |
| Monitor.BusyDisk | log_analyzer.py:116-120 | The reading `"95%"` is parsed as 95. |
| Monitor.BusyFired | log_analyzer.py:113-131 | The busy snapshot (CPU 55, memory 40, disk 95%, temperature 75, service inactive) fires every rule but the memory one. |
| Monitor.BusyAlerts | log_analyzer.py:113-131 | On the busy snapshot the alerts are the temperature, disk, service and CPU messages, in that order. This holds although the disk message is an ERROR and the service message is CRITICAL. |
| Monitor.SummaryContents | log_analyzer.py:96-100 | The summary has exactly the keys `cpu_usage_percent`, `memory_usage_percent`, `disk_usage`, `cpu_temperature_celsius` and `service_status`, in that order. Each key holds the value collected for it; a missing temperature is stored as None. |
| Monitor.FillSummary | log_analyzer.py:96-100 | Assigning the five keys one by one into an empty dictionary yields `Summary(snap)`. |
| Monitor.KeyInjective | log_analyzer.py:96-100 | The five summary keys are distinct strings. |
| Monitor.ComposeReport | log_analyzer.py:164-169 | The body built with `+=` is the header, then one `- key: value` line per summary entry in dictionary order, then the alerts heading, then one `- alert` line per alert in order. |
| Monitor.AppendFieldLines | log_analyzer.py:165-166 | The first loop appends one `- key: value` line per summary entry, in order. |
| Monitor.AppendAlertLines | log_analyzer.py:168-169 | The second loop appends one `- alert` line per alert, in order. |
| Monitor.ReportRoundTrip | log_analyzer.py:164-169 | Parsing a composed body gives back the summary lines and the alerts, in order. This requires each value and alert to be a single line. So the body holds nothing besides, and loses and reorders nothing. |
| Monitor.ParseItemLines | log_analyzer.py:165-169 | A block of `- item` lines splits back into its items, in order. |
| Monitor.ParseItemsStep | log_analyzer.py:165-169 | A single `- item` line is split off the text that follows it. |
| Monitor.RunMonitor | log_analyzer.py:138-174 | The summary is `Summary(snap)` and the alerts are `Alerts(snap)`. The history file gains exactly the encoded record `(timestamp, summary, alerts)` when `--save-summary` is set and is unchanged otherwise. A mail with the composed body goes to the recipient exactly when `--get-email` is set and there are alerts. The beep happens exactly when `--get-beep` is set and there are alerts. |
| History.Persist | log_analyzer.py:145-159 | After a save the file holds an array: the old records unchanged and in order, with exactly one new record at the end. A missing or undecodable file counts as an empty history. |
| History.HistoryFile.Save | log_analyzer.py:145-159 | Saving rewrites the file to `Persist(old file, entry)`, the intended behaviour of the Findings row. |
| History.ReloadAfterSaves | log_analyzer.py:145-159 | After N saves the history is the old records followed by the N new ones, in the order they were saved. |
| History.SavesFromEmpty | log_analyzer.py:145-151 | Starting from a missing or undecodable file, N saves leave exactly those N records. |
| History.AsWrittenDiffersOnlyOnOtherJson | log_analyzer.py:147-157 | The code as written saves what `Persist` saves on every file but one holding valid JSON that is not an array. On that file it raises and stops, while `Persist` starts a fresh history. |
| Cli.CheckArgs | log_analyzer.py:19-20 | The arguments are accepted exactly when `--get-email` is off or a non-empty recipient is given. Otherwise the result is the usage error. `log_analyzer_1.py` makes the same check at lines 23-24. |
| Text.PyIntOfDecimal | log_analyzer.py:118 | `int()` reads back the decimal text of every integer. |
| Text.RemoveAllAbsent | log_analyzer.py:118 | Removing a character that does not occur leaves the text unchanged. |
| Text.RemoveAllConcat | log_analyzer.py:118 | Removing a character distributes over concatenation. |
| LogScan.CountKeywords | log_analyzer_1.py:100-103 | The nested loops over lines and keywords leave the counter holding `Scan([], lines, keywords)`, with keys that never repeat. |
| LogScan.Counter.Increment | log_analyzer_1.py:103 | `counts[k] += 1` raises k's count by one, appending the key if it is new, and keeps the keys distinct. |
| LogScan.Counter.Total | log_analyzer_1.py:105 | `sum(counts.values())` is the sum of all stored counts. |
| LogScan.ScanCount | log_analyzer_1.py:100-103 | After the scan, `counts[k]` is the number of lines whose lower-cased text contains the lower-cased `k`, times the number of times `k` was given. This is exactly the number of (line, keyword position) pairs that hit for `k`. |
| LogScan.ScanLineCount | log_analyzer_1.py:101-103 | One line adds the number of times `k` was given to k's count when it hits, and nothing otherwise. |
| LogScan.CountBound | log_analyzer_1.py:100-103 | For a keyword list without repeats, each count is the number of lines the keyword hits, so at most the number of lines. A keyword that was not given counts 0. |
| LogScan.ScanSum | log_analyzer_1.py:100-105 | The total is the number of (line, keyword position) pairs that hit. |
| LogScan.ScanLineSum | log_analyzer_1.py:101-103 | One line raises the sum of the counts by the number of keyword positions it hits. |
| LogScan.AllPairsBound | log_analyzer_1.py:100-105 | The total is at most lines × keywords. |
| LogScan.OccurrencesPositive | log_analyzer_1.py:101 | A keyword is counted as given exactly when it is in the list, and once when the list has no repeats. |
| LogScan.MatchingLinesPositive | log_analyzer_1.py:100-102 | A keyword hits some line exactly when its count of hitting lines is positive. |
| LogScan.CountsAddUp | log_analyzer_1.py:100-105 | The counts of the distinct keywords add up to the total, also when a keyword is given more than once. |
| LogScan.CountSumSnoc | log_analyzer_1.py:100-103 | Giving one more keyword adds the lines it hits to the counts summed over distinct keys, exactly when it is one of those keys. |
| LogScan.CountAfterGiven | log_analyzer_1.py:100-103 | Giving one more keyword `x` adds the lines `x` hits to `counts[x]` and leaves every other count unchanged. |
| LogScan.Percent | log_analyzer_1.py:117 | The percentage is 0 when the total is 0. Otherwise it is `count * 100 / total` exactly: it is non-negative, and at most 100 when the count does not exceed the total. |
| LogScan.Bar | log_analyzer_1.py:118 | The bar is `int(percent) // 4` `#` marks, or empty when that is not positive. |
| LogScan.BarOfCount | log_analyzer_1.py:117-118 | The bar length reduces to the integer expression `(count * 100 div total) div 4` (0 when the total is 0), and lies in 0..25. |
| LogScan.FloorOfQuotient | log_analyzer_1.py:118 | Rounding an exact quotient down is integer division. |
| LogScan.Summarize | log_analyzer_1.py:115-123 | The loop fills the summary with `StatsOf(counts, total, keywords)`. |
| LogScan.StatsKeys | log_analyzer_1.py:115-123 | The summary has one entry for every distinct given keyword, including those that never matched, in first-given order. |
| LogScan.StatsFind | log_analyzer_1.py:115-123 | A given keyword's entry holds `counts[keyword]`, its percentage and its bar. A keyword that was not given has no entry. |
| LogScan.StatsPercentSum | log_analyzer_1.py:115-123 | The recorded percentages add up to the percentages of the distinct keywords' counts. A repeated keyword's entry is overwritten with the same value, so it is recorded once. |
| LogScan.PercentOfSumIsPercentOfCountSum | log_analyzer_1.py:117 | The percentages of several counts add up to the percentage of their sum. |
| LogScan.PercentAdd | log_analyzer_1.py:117 | The percentages of two counts add up to the percentage of their sum. |
| LogScan.PercentagesSumTo100 | log_analyzer_1.py:115-123 | For any keyword list with at least one hit, repeats included, the recorded percentages add up to 100. |
| LogScan.SummaryBar | log_analyzer_1.py:115-123 | Every given keyword has an entry whose count is `counts[keyword]`. Its bar has `(count * 100 div total) div 4` marks (none when the total is 0), and never more than 25. |
| LogScan.NoHits | log_analyzer_1.py:115-123 | When nothing matched, every given keyword is recorded with count 0, 0% and an empty bar. |
| LogScan.BeepDueIff | log_analyzer_1.py:146-150 | Over the alert keywords of line 90, the beep is due exactly when some alert keyword was given, spelt exactly so, and hits some line. |
| LogScan.UpperCaseNeverBeeps | log_analyzer_1.py:146-150 | With the keywords `WARN` and `ERROR` the beep is never due, whatever the log says. The counts are keyed by the given spelling. |
| LogScan.DefaultBeep | log_analyzer_1.py:14-16 | With the default keywords and the beep test of lines 146-150, the beep is due exactly when some line contains an alert keyword, in any case. |
| LogScan.AnalyzeLogs | log_analyzer_1.py:89-150 | When the file cannot be read, the run produces nothing and leaves the history untouched. Otherwise it does the following: the record is `(timestamp, file, SummaryOf(lines, keywords))`; the history gains exactly that record, encoded, when `--save-summary` is set and is unchanged otherwise; the mail with the summary items goes to the recipient exactly when `--get-email` is set, even when all counts are 0; the beep happens exactly when `--get-beep` is set and an alert keyword has a non-zero count. |

## Left out

- History.HistoryFile.Save: follows the intended `History.Persist`, not the code as written. On a history file holding valid JSON that is not an array (such as `{}`), `Monitor.RunMonitor` and `LogScan.AnalyzeLogs` save a fresh one-record history and go on to mail and beep. The code instead raises `AttributeError` at `existing.append` (log_analyzer.py:157, log_analyzer_1.py:135) and stops, with nothing written, mailed or beeped. That behaviour is `History.PersistAsWritten`.

- Metric collection is replaced by a `Snapshot` parameter holding the parsed values. This covers `get_cpu_usage`, `get_memory_usage`, `get_disk_usage`, `check_cpu_temperature` and `check_service_status`, which shell out and parse floats. The `monitor_system` of `log_analyzer_1.py` is system I/O too and is not part of this model.
- `send_email` and `beep`, with the SMTP transport, the credential reads and the platform sound call, are not modelled. A run instead returns the mail it would send and whether it beeps.
- `argparse` is not modelled beyond the recipient check. Flags arrive as a `Cli.Flags` value, and a run requires that check to have succeeded.
- JSON text and file handling: the history file is a `History.Stored` value (missing, undecodable, an array of records, or other JSON). Encoding, indentation and the file name are not modelled.
- `datetime.now()`: the timestamp is a parameter.
- Console printing in both scripts is not modelled.
- Float formatting: `str(v)` of a float in the monitor mail is the parameter `show`. The `:.1f` percentage text and `capitalize()` of the log mail are not modelled, so `LogScan.LogEmail` carries the summary items instead of the body text. The `"percentage"` string stored in the summary becomes the exact percentage and the bar.
- LogScan.Percent: computed in exact real arithmetic, not IEEE doubles. For that reason `LogScan.PercentagesSumTo100` states an exact sum of 100, which float rounding may miss in the last digit.
- Floats are compared as exact reals in the threshold rules.
- Text.LowerStr: lower-cases ASCII letters only, not Unicode; likewise `Text.PyInt`'s whitespace and digits are ASCII only. Python's limit of 4300 digits in `int()` is not modelled.
- The summary keys of the monitor are the enumeration `Monitor.Field`, with `Monitor.Key` giving the exact key strings.

## Findings

| source | as written | input that shows it | evidently intended | confidence | as-written member | corrected member |
|---|---|---|---|---|---|---|
| log_analyzer.py:147-157 (same code in log_analyzer_1.py:130-135) | `existing = json.load(f)` accepts any JSON value, and `existing.append(...)` then runs on it | a `summary.json` holding `{}` or `"x"`: `append` raises `AttributeError` outside the `try`, so the run stops and nothing is saved | a history that does not load as an array is treated as empty and the new record is saved | not executed | History.PersistAsWritten | History.Persist |
