# cpu-monitor: the sampler and the LED gauge, modelled in Dafny

cpu-monitor is a small always-on-top window for Linux that shows CPU usage. Once a second it
reads the aggregate `cpu` line of `/proc/stat`, works out which share of the time since the last
poll was not idle, stores that percentage in an LED-bar widget and repaints it: ten bars, lit from
the bottom up. This project models the three pieces of logic in `cpuinfo.py` that do not depend
on the GUI toolkit, and proves what they promise.

- `errors.dfy`, module `Errors`: the exceptions one poll can raise (`NoCpuLine` for the IndexError
  of the empty line list, `NotAnInteger` for the ValueError of `int()`, `TooFewCounters` for the
  IndexError of `cpu[3]`, `ZeroDivision`), and the `Result`, `Outcome` and `Option` wrappers.
- `text.dfy`, module `Text`: the Python 2 byte-string operations the parser uses.
  `str.splitlines()` breaks at `\n`, `\r` and `\r\n`. `str.split()` splits on runs of space, tab,
  `\n`, `\r`, `\x0b` and `\x0c`. `str.startswith` is a prefix test. `int()` in base ten accepts an
  optional sign and one or more decimal digits. Apart from the prefix test, each comes with a
  round trip against its inverse: joining lines, joining fields, or `str(n)`.
- `procstat.dfy`, module `ProcStat`: `get_cpu_info` over the text of the statistics file. It
  keeps the first line that starts with `"cpu" + cpunum`, splits it on whitespace, drops the
  label and converts the remaining fields.
- `gauge.dfy`, module `Gauge`: the `CPUWidget` as a class with its `load` field. The bar rule of
  `OnPaint` is a loop over bars 1..10 that returns which bars it lights. Bar `i` is dark when
  `10 - i > Load / 10`, with Python 2 floor division, and lit otherwise.
- `sampler.dfy`, module `Sampler`: the arithmetic of `CPUFrame.update` in exact `real`
  arithmetic. Idle is `cpu[3]` and total is `sum(cpu[:7])`. The usage is
  `(1000*(dT-dI)/dT + 5)/10` and the stored load is `int(usage)`. `CpuFrame` is a class holding
  `prevTotal`, `prevIdle` and its gauge; its `Update` method performs one timer tick.

Behaviour worth knowing, as the code has it:

- An exception in `update` leaves every field as it was. It is raised before `SetLoad` and
  before the two counters are stored, and it stops the polling, because the call that
  re-arms the timer (cpuinfo.py:109) is never reached. `Update` returns `Fail(e)` in that case.
- The first poll runs against counters of zero. It divides by the total itself, so it raises
  only when the first seven counters sum to zero (`FirstPollDividesByZeroIffZeroTotal`). A
  later poll raises when the seven-field total has not moved since the previous one, even if
  a counter beyond the seventh did.
- The bar level `Load / 10` is not clamped. Even a load of 0 lights the bottom bar, and a
  negative load lights none. From a load of 90 upward every bar is lit.
- The CPU name is matched as a prefix. The name `"1"` takes a `cpu10` line when no `cpu1`
  line comes before it (`PrefixTakesLongerName`). The program itself only asks for `" "`,
  which matches the aggregate line and never a per-core one.

## Model

| member | source | states |
|---|---|---|
| `Text.SplitLines` | cpuinfo.py:23 | no line holds a line boundary, and only empty text has no lines |
| `Text.SplitTerminated` | cpuinfo.py:23 | splitting newline-terminated lines gives back exactly those lines |
| `Text.Split` | cpuinfo.py:25 | every field is non-empty and holds no whitespace |
| `Text.SplitSkipsBlank` | cpuinfo.py:25 | leading whitespace of any kind and width opens no field |
| `Text.SplitSeparated` | cpuinfo.py:25 | fields separated by whitespace runs of any width, with any whitespace before the first and after the last, split back into exactly those fields in order |
| `Text.SeparatedHasNoBreak` | cpuinfo.py:23-25 | fields and gaps without `\n` or `\r` form a single line |
| `Text.StartsWith` | cpuinfo.py:24 | `str.startswith` as a prefix test; `PrefixTakesLongerName` and `AggregateSkipsPerCoreLine` show what that prefix test selects |
| `Text.ParseInt` | cpuinfo.py:26 | `int()` in base ten, `None` for ValueError; `ParseDecimal` proves it inverts `str()` on every integer and `ParseIntRejects` that any stray character raises |
| `Text.ParseDecimal` | cpuinfo.py:26 | `int()` applied to the decimal form of any integer gives that integer back |
| `Text.ParseIntRejects` | cpuinfo.py:26 | a field with a character that is neither a digit nor a leading sign raises ValueError |
| `ProcStat.Matching` | cpuinfo.py:23-24 | the comprehension never holds more lines than the file has; `MatchingKeepsPrefixed` proves it keeps only lines of the file that have the prefix, and `MatchingHead` proves it is empty exactly when no line has the prefix and otherwise starts with the first line that has it |
| `ProcStat.MatchingKeepsPrefixed` | cpuinfo.py:23 | every line the comprehension keeps is a line of the file that starts with the prefix |
| `ProcStat.MatchingHead` | cpuinfo.py:23-24 | the filtered line list is empty exactly when no line has the prefix, and otherwise starts with the first line that has it |
| `ProcStat.SelectLine` | cpuinfo.py:23-24 | the IndexError happens exactly when no line has the prefix; otherwise the result is the first line that has it |
| `ProcStat.ParseCounters` | cpuinfo.py:26 | succeeds exactly when every field is an integer literal, with one value per field in order; otherwise raises ValueError naming the first bad field |
| `ProcStat.CpuLineHasLabel` | cpuinfo.py:24-25 | a line selected by its `cpu` prefix splits into at least one field, so the label can be dropped |
| `ProcStat.GetCpuInfo` | cpuinfo.py:14-26 | `get_cpu_info` on the file's text raises only IndexError (no matching line) or ValueError (a non-integer field); the three `GetCpuInfo…` lemmas below state when each happens and what a success holds |
| `ProcStat.GetCpuInfoNoLine` | cpuinfo.py:23-24 | `get_cpu_info` raises IndexError exactly when no line starts with `"cpu" + cpunum` |
| `ProcStat.GetCpuInfoValues` | cpuinfo.py:23-26 | on success the result holds, in order, the integer values of every field after the label of the first matching line, one fewer than the line has fields |
| `ProcStat.GetCpuInfoInvalid` | cpuinfo.py:26 | any other failure is the ValueError of a non-integer field after the label of the first matching line |
| `ProcStat.ParseRendered` | cpuinfo.py:14-26 | a file whose first matching line holds a label and the decimal forms of some values, separated by whitespace runs of any width, yields exactly those values |
| `ProcStat.NoLineRaises` | cpuinfo.py:23-24 | a file in which no line carries the prefix raises IndexError |
| `ProcStat.ReadAggregateFile` | cpuinfo.py:94 | the aggregate name `" "` reads back every list of counters, the empty one included, from a file whose only line is the aggregate line as the kernel writes it: `cpu`, two spaces, then the counters separated by single spaces |
| `ProcStat.AggregateSkipsPerCoreLine` | cpuinfo.py:23-24 | with the name `" "`, a `cpu0` line listed first is skipped and the `cpu  ` line is read |
| `ProcStat.MissingCpuRaises` | cpuinfo.py:24 | a CPU name that no line carries raises IndexError |
| `ProcStat.PrefixTakesLongerName` | cpuinfo.py:24 | the prefix test lets the name `1` select a `cpu10` line |
| `Gauge.Level` | cpuinfo.py:52 | the level is `Load / 10` rounded down, for negative loads too |
| `Gauge.IsLit` | cpuinfo.py:60-61 | the paint loop's test, bar `i` dark when `10 - i > level`; `OnPaint` proves the loop applies it to each bar |
| `Gauge.LitBars` | cpuinfo.py:60-68 | the set of bars one paint lights; the lemmas below prove it is a bottom run of `level + 1` bars, clamped, contiguous and growing with the load |
| `Gauge.LitBarsAreBottomRun` | cpuinfo.py:60-61 | for a level of 0 or more the lit bars are bar 10 and the bars above it, up to bar `10 - level` (all ten from level 9 up); for a negative level no bar is lit |
| `Gauge.LitBarCount` | cpuinfo.py:60-61 | one paint lights `level + 1` bars, clamped to between 0 and 10 |
| `Gauge.LitBarsContiguous` | cpuinfo.py:60-61 | every bar below a lit bar is lit |
| `Gauge.LitBarsMonotone` | cpuinfo.py:52-61 | a larger load never turns a lit bar off |
| `Gauge.LowLoadLightsBottomBar` | cpuinfo.py:52-61 | any load from 0 to 9 lights the bottom bar and only it |
| `Gauge.HighLoadLightsEveryBar` | cpuinfo.py:52-61 | every load of 90 or more lights all ten bars |
| `Gauge.CpuWidget.constructor` | cpuinfo.py:29-31 | a new widget holds a load of 0 |
| `Gauge.CpuWidget.SetLoad` | cpuinfo.py:43-44 | the widget's load becomes the given value |
| `Gauge.CpuWidget.OnPaint` | cpuinfo.py:49-68 | the paint loop draws ten bars, and bar `i` is lit exactly when it belongs to the lit set of the widget's level |
| `Sampler.Total` | cpuinfo.py:96 | `sum(cpu[:7])`, a short list summed whole; `TotalAtLeastIdle` and `IdleDeltaWithinTotalDelta` bound it against the idle counter |
| `Sampler.Usage` | cpuinfo.py:100 | the usage is the busy share of the interval in percent, plus one half |
| `Sampler.Truncate` | cpuinfo.py:101 | `int()` of a float truncates toward zero: the result is within 1 of the input, on the zero side |
| `Sampler.Measure` | cpuinfo.py:95-101 | raises IndexError exactly when there are fewer than four counters and ZeroDivisionError exactly when the total has not moved; otherwise gives the seven-field total, the idle counter, the usage and its truncation |
| `Sampler.Poll` | cpuinfo.py:94-101 | one poll: `get_cpu_info`'s exception passed on, or the measurement of the aggregate counters; `PollAggregateFile` proves a one-line aggregate file is measured exactly, and `CpuFrame.Update` is proved to follow it |
| `Sampler.TotalAtLeastIdle` | cpuinfo.py:95-96 | with non-negative counters the total is at least the idle counter |
| `Sampler.IdleDeltaWithinTotalDelta` | cpuinfo.py:95-99 | when every counter grows between two readings, the idle delta lies between 0 and the total delta |
| `Sampler.BusyPercentBounds` | cpuinfo.py:100 | when the idle delta lies between 0 and the total delta, the busy share lies between 0 and 100 percent |
| `Sampler.UsageBounds` | cpuinfo.py:98-100 | under the same condition the usage lies in [0.5, 100.5] |
| `Sampler.LoadRoundsBusyPercent` | cpuinfo.py:100-101 | the stored load lies in [0, 100] and is the busy percentage rounded to the nearest whole number, halves up |
| `Sampler.IdleIntervalReadsZero` | cpuinfo.py:100-101 | a wholly idle interval reads 0.5 and stores 0 |
| `Sampler.BusyIntervalReadsHundred` | cpuinfo.py:100-101 | a wholly busy interval reads 100.5 and stores 100 |
| `Sampler.FirstPollDividesByZeroIffZeroTotal` | cpuinfo.py:88-100 | with at least four counters, a poll against the initial counters of zero divides by zero exactly when the seven-field total is zero |
| `Sampler.SteadyPollInRange` | cpuinfo.py:95-101 | a poll of counters that only grew since the previous reading, with at least four counters and a seven-field total that moved, succeeds, with the usage in [0.5, 100.5] and the load in [0, 100] |
| `Sampler.MeasureExamples` | cpuinfo.py:95-101 | with previous counters 1000/800, an idle interval of 100 ticks reads 0.5 and a half-busy interval of 200 ticks reads 50.5 |
| `Sampler.MeasureSequence` | cpuinfo.py:95-108 | three successive polls read 20.5, then 50.5 against the counters kept by the first, then raise ZeroDivisionError |
| `Sampler.PollAggregateFile` | cpuinfo.py:94-101 | polling a one-line aggregate file measures exactly its counters |
| `Sampler.GaugeAtTheExtremes` | cpuinfo.py:52-68 | after a wholly idle interval only the bottom bar is lit, and after a wholly busy one all ten bars are |
| `Sampler.CpuFrame.constructor` | cpuinfo.py:85-89 | a new window starts with both previous counters at zero and a new gauge at load 0 |
| `Sampler.CpuFrame.Update` | cpuinfo.py:93-108 | after a successful poll the gauge holds the truncated usage and the previous counters are this poll's total and idle, against which the next poll measures; a poll that raises changes nothing |

## Left out

- Opening and reading `/proc/stat` (cpuinfo.py:21-22): the parser receives the file's text, and
  an unreadable file is not modelled.
- All wxPython code: window and panel construction and centring, brushes, pens and rectangle
  geometry, the percentage label and its `"%.2f"` text, the frame's theme paint and the drag
  handlers. These are calls into the toolkit. `OnPaint` returns the bar states it would draw.
- Timer scheduling through `wx.CallLater` and the event loop: `Update` models one tick.
  Whether the next tick is scheduled is what its `Pass`/`Fail` outcome says.
- Sampler.Usage: exact real arithmetic instead of IEEE double precision, so rounding artefacts
  of `1000.*...` and of `int()` on a value just below a whole number are not modelled.
- Text.ParseInt: surrounding whitespace, which `int()` would strip, is not modelled, because
  `str.split()` never leaves any in a field.
- `GetLoad` (cpuinfo.py:46-47) is a plain field read, modelled as the function
  `Gauge.CpuWidget.GetLoad` with no contract of its own.
