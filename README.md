# internet-monior, modelled in Dafny

The repository holds two small Python monitors of an internet connection.

- `internetConnectionTest.py` is the earlier one. It pings a server forever
  and appends a `timestamp,server,success` record to a log. It keeps only
  some records: two run-length counters, `countS` for successes and
  `countF` for failures, count how far into the current run of equal
  outcomes the sampler is, modulo a prescale each (360 and 1 by default). A
  sample is written only when the counter of its own outcome is zero.
  `createfile` writes the header line `timestamp,server,ping_success` into a
  log that does not exist yet.
- `internetmonitor.py` is the later one. `ping` turns one run of the `ping`
  command into a `PingResult`: a success flag, a round-trip time in
  milliseconds, and the server. The time is read from the command's output
  with the regular expression `.*time=(.*) ms`. It defaults to the timeout
  times 1000 when nothing matches or the command exits non-zero. `run`
  appends every result to the log as a `date,server,success,time` line.
  `plot` charges the time between consecutive samples to uptime or to
  downtime, by the outcome of the earlier sample.

The model is in five modules:

- `Platform` (`platform.dfy`): the outcome of running the `ping` command,
  and a `Disk` class. The disk is a file system reduced to a mutable map
  from path to contents, with append and overwrite.
- `Text` (`text.dfy`): Python's `str.split` and `str.join` on one
  character, `str(int(b))`, and whole numbers formatted as `"%.0f"` prints
  them.
- `ConnectionTest` (`connection_test.dfy`): the sampler of
  `internetConnectionTest.py`.
  - `Sampler` is a class with the two counter fields.
  - `Sampler.Step` updates the counters in place.
  - `Sampler.Sample` is one pass of the loop after the ping.
  - `CreateFile` and `Run` drive the `Disk`.
  - Each method is proved against specification functions:
    - `ShouldWrite` and `Advance` decide one sample;
    - `CountersAfter` and `WriteFlags` cover a whole sequence of outcomes;
    - `Records` and `RunLog` give the text a run appends;
    - `WithHeader` gives the effect of `createfile`.
  - The lemmas about those functions state what the rate limiting
    guarantees.
- `Monitor` (`monitor.dfy`): `ping` and `run` of `internetmonitor.py`.
  - `Probe` is the reference definition of what `ping` returns or raises.
  - `Ping` is the imperative method in the source's own shape: a default,
    then an override.
  - `Row` and `ParseRow` are the two sides of the log format.
  - `Run` appends one row per sample and stops at the first exception.
- `Plot` (`plot.dfy`): the uptime and downtime arithmetic of `plot`, over
  timestamps taken as whole numbers.

The world outside the program becomes parameters, one per iteration of the
loops:

- each ping outcome, as a `CommandOutcome`;
- each clock reading, as a string;
- the file system, as the `Disk`.

The endless `while True` loops are modelled as a finite stretch: one
iteration per outcome given.

Some behaviours of the code are easy to miss; the model keeps each of them:

- `ping` captures with the greedy `.*time=(.*) ms`. `Monitor.CaptureInLine`
  models the greedy capture: it ends at the last ` ms` of the first
  matching line and starts after the last `time=` before it. So
  `time=1 ms x ms` captures `1 ms x`, not `1`.
- `internetConnectionTest.py` writes its records with no line terminator
  (line 34). Only the header line written by `createfile` ends in a
  newline.
- A change of outcome resets only the opposite counter (lines 40 and 45).
  The counter of the new outcome is advanced, and wraps at once when its
  prescale is 1.
- `run` in `internetmonitor.py` calls `ping` with its default timeout of 10
  seconds (line 31), so a failed sample is written with the time `10000`.
- `internetmonitor.py` never writes a header. The header is written only
  by `createfile` in `internetConnectionTest.py`.
- A successful exit whose output holds no `time=… ms` is recorded as a
  success, with the timeout sentinel as its time (lines 13-20).

## Model

| member | source | states |
|---|---|---|
| `ConnectionTest.Advance` | internetConnectionTest.py:36-45 | a success leaves `countF` at zero and a failure leaves `countS` at zero; counters that start below their prescales stay below them |
| `ConnectionTest.WriteFlagsAt` | internetConnectionTest.py:31 | sample `i` of a sequence is flagged by `WriteFlags` exactly when `ShouldWrite` holds, that is `(success and countS == 0) or (not success and countF == 0)`, for the counters `CountersAfter` leaves after the samples before it |
| `ConnectionTest.CountersStayBounded` | internetConnectionTest.py:36-45 | over any sequence of samples `0 <= countS < prescalesuccess` and `0 <= countF < prescalefailure` (a prescale below 1 acts as 1) |
| `ConnectionTest.LastOutcomeResets` | internetConnectionTest.py:36-45 | after a success `countF` is zero; after a failure `countS` is zero |
| `ConnectionTest.ChangeOfOutcomeIsWritten` | internetConnectionTest.py:31-45 | a success right after a failure, and a failure right after a success, is always written, whatever the prescales |
| `ConnectionTest.FailureCountStaysZero` | internetConnectionTest.py:41-44 | with a failure prescale of 1, `countF` never leaves zero |
| `ConnectionTest.EveryFailureWritten` | internetConnectionTest.py:41-44 | with a failure prescale of 1 (the default), every failed sample is written |
| `ConnectionTest.ModSuccessor` | internetConnectionTest.py:37-39 | incrementing a counter and wrapping it at the prescale is counting modulo the prescale |
| `ConnectionTest.SuccessStep` | internetConnectionTest.py:37-39 | a success leaves `countS` one further round its cycle than it was before that sample |
| `ConnectionTest.CountModIsMod` | internetConnectionTest.py:37-39 | bumping a counter from zero `n` times, wrapping at the prescale, leaves it at `n` modulo the prescale |
| `ConnectionTest.SuccessRunCount` | internetConnectionTest.py:36-40 | inside an unbroken run of successes that starts with `countS` at zero, `countS` equals a counter bumped once per sample of the run so far |
| `ConnectionTest.SuccessRunPeriodic` | internetConnectionTest.py:31-40 | inside a run of successes that starts after a failure (or at the start), exactly the samples at offsets 0, p, 2p, … of the run are written, `p` being the success prescale |
| `ConnectionTest.DefaultPrescales` | internetConnectionTest.py:7 | with `run`'s default prescales (360 and 1), every failure is logged, and within a run of successes after a failure exactly every 360th sample is |
| `ConnectionTest.RecordFields` | internetConnectionTest.py:24-28 | a record built by `Record` splits on commas into exactly the timestamp, the server and `0`/`1`, when neither of the first two holds a comma |
| `ConnectionTest.Completed` | internetConnectionTest.py:14-20 | the run takes every sample before the first unexpected error of the command and stops there |
| `ConnectionTest.WithHeader` | internetConnectionTest.py:59-64 | a missing log gets exactly the header line plus its newline; an existing log and every other file keep their contents |
| `ConnectionTest.WithHeaderIdempotent` | internetConnectionTest.py:59-64 | creating the log twice is creating it once: the header is never duplicated |
| `ConnectionTest.Sampler.constructor` | internetConnectionTest.py:7-9 | both counters start at zero |
| `ConnectionTest.Sampler.Step` | internetConnectionTest.py:31-45 | returns the write decision for the counters before the sample, and leaves the counters advanced |
| `ConnectionTest.Sampler.Sample` | internetConnectionTest.py:31-45 | appends the record, with no newline, exactly when the counters say so, then advances the counters |
| `ConnectionTest.CreateFile` | internetConnectionTest.py:59-64 | the disk afterwards is `WithHeader` of the disk before |
| `ConnectionTest.Run` | internetConnectionTest.py:7-47 | the run ends with the message of the first unexpected error, if any; the log grows by exactly `RunLog`: the records `WriteFlags` selects among the samples before that error, each sample a success exactly when the command exited with status zero (`Successes`) |
| `Monitor.LastOccurrence` | internetmonitor.py:18 | the result is an occurrence of the pattern ending within the limit, and no later one ends within it; `None` exactly when there is none |
| `Monitor.CaptureInLineMeaning` | internetmonitor.py:18 | `CaptureInLine`, the greedy capture within one line: a line yields a capture `t` only if `time=` + `t` + ` ms` stands in it, and yields none exactly when no `time=` is followed by a later ` ms` |
| `Monitor.FirstCaptureMeaning` | internetmonitor.py:18-19 | `FirstCapture`, which `FindTime` applies to the lines of the output since `.` does not match a newline: the search yields the capture of the first line that has one, and nothing exactly when no line has one |
| `Monitor.ParseMillisNumeral` | internetmonitor.py:20 | `ParseMillis`, `float` of the capture as `"%.0f"` later prints it: a whole number of milliseconds reads back as itself |
| `Monitor.ParseMillisRounds` | internetmonitor.py:20 | with one decimal, the time is rounded to nearest with ties to even, as `"%.0f"` prints a float |
| `Monitor.Ping` | internetmonitor.py:11-26 | the result is `Probe`, the reference definition of `ping`: the server is kept; a non-zero exit is a failure with time `timeout*1000`; an unexpected error propagates; a successful exit without a match keeps the default time; with a match the time is the parsed capture, or `ValueError` when it is no number; success holds exactly for exit status zero |
| `Monitor.RowRoundTrip` | internetmonitor.py:32-37 | a row built by `Row` splits into the date, the server, `0`/`1` and the time, and reads back as the result it was written from, when neither the date nor the server holds a comma |
| `Monitor.RowFieldCount` | internetmonitor.py:32-37 | a row has four fields plus one for each comma in the date and the server, so exactly four if and only if neither holds a comma |
| `Monitor.FailedSampleRow` | internetmonitor.py:31-37 | a failed ping in `run` is written as `date,server,0,10000` |
| `Monitor.ReplyLineCapture` | internetmonitor.py:18 | the reply line `64 bytes from 8.8.8.8: time=23 ms` captures `23` |
| `Monitor.ReplyFindTime` | internetmonitor.py:18-19 | the output made of that reply line finds the time `23` |
| `Monitor.ReplyProbe` | internetmonitor.py:11-26 | pinging `8.8.8.8` with that reply gives a success of 23 ms |
| `Monitor.ReplyRow` | internetmonitor.py:32-37 | that result, dated `2024-01-01_00:00:00`, is written as `2024-01-01_00:00:00,8.8.8.8,1,23` |
| `Monitor.Completed` | internetmonitor.py:23-25 | `run` takes every sample before the first one whose `ping` raises, and stops there |
| `Monitor.Results` | internetmonitor.py:31 | the results of samples that do not raise, one per sample, each what `ping` returns for it |
| `Monitor.RowHasNoNewline` | internetmonitor.py:32-37 | a row holds no newline when its date and server hold none |
| `Monitor.RowsAreLines` | internetmonitor.py:38-40 | the text `run` appends for `n` results holds exactly `n` newlines: one line per result |
| `Monitor.WriteRow` | internetmonitor.py:38-40 | the log grows by the row and then a newline, and nothing else changes |
| `Monitor.Sample` | internetmonitor.py:30-40 | returns what `ping` returns or raises; the log grows by the row and its newline exactly when it returns |
| `Monitor.Run` | internetmonitor.py:28-41 | with ping's default timeout, the run ends with the exception of the first sample that raises, if any; the log grows by exactly one line per earlier sample, in order |
| `Plot.Intervals` | internetmonitor.py:66 | defined gap by gap from the last sample back: one gap fewer than samples, and gap `i` is the time from sample `i` to sample `i+1` |
| `Plot.IntervalsTelescope` | internetmonitor.py:66 | the gaps add up to the time from the first sample to the last |
| `Plot.SumWhereSplits` | internetmonitor.py:67-68 | `SumWhere`, the sum of the gaps whose earlier sample has a given outcome: with outcomes 0 and 1 only, each gap counts towards exactly one of the two sums |
| `Plot.UptimeDowntimePartition` | internetmonitor.py:66-68 | `Uptime` plus `Downtime` is the time from the first sample to the last |
| `Plot.TotalsNonNegative` | internetmonitor.py:66-68 | with timestamps in order, neither uptime nor downtime is negative |
| `Plot.IntervalChargedToEarlierSample` | internetmonitor.py:67-68 | the gap after sample `k` moves from downtime to uptime, and only it, when sample `k` is marked up instead of down |
| `Plot.LastSampleNotCharged` | internetmonitor.py:67-68 | the outcome of the last sample changes neither sum |
| `Text.SplitJoin` | internetmonitor.py:32-37 | joining fields that hold no separator and splitting again gives back the fields |
| `Text.SplitCount` | internetmonitor.py:32-37 | splitting yields one piece more than there are separators |
| `Text.FormatIntRoundTrip` | internetmonitor.py:36 | `"%.0f"` of a whole number reads back as that number and holds no comma and no newline |
| `Platform.AppendedOnlyGrowsPath` | internetConnectionTest.py:31-34 | `Appended`, an append by code that opens the file only when it has something to write: appending grows the one file by exactly the text, creates it only for non-empty text, and leaves every other file alone |
| `Platform.AppendedTwice` | internetmonitor.py:38-40 | two appends to one file are one append of both texts |
| `Platform.Disk.Append` | internetmonitor.py:38-39 | the file afterwards is its old contents (empty when missing) followed by the text |
| `Platform.Disk.Overwrite` | internetConnectionTest.py:62-63 | the file afterwards holds exactly the text |

## Left out

- The `DEBUG forcing failure` branch of `internetConnectionTest.py` (lines 21-23) is left out. Its condition has an unbalanced parenthesis, so the file as written does not parse. It would also turn successes into failures for testing.
- `print` output is not modelled (both files), nor is the `DEBUG writing` line.
- The ping command line is not modelled. The options passed to it (`-W 5`, and `-W`/`-i` with the timeout) only shape the command's output, which is a parameter here.
- The running of the command is not modelled. `subprocess.check_output` becomes a `CommandOutcome` per sample. Any exception other than `CalledProcessError` becomes `OtherError` with a message.
- The clock is not modelled. `datetime.now().strftime(...)` becomes a given string per sample, so the two date formats are not checked.
- `sleep` and the interval between samples are not modelled. In `internetConnectionTest.py` they only affect timing (line 47 converts the interval with `float`).
- `Monitor.Run` does not model the `TypeError` of `sleep(interval)` (internetmonitor.py:41) when `--interval` is given on the command line: the option has no `type` (line 79), so the interval is a string, and the run then stops right after appending its first row. The model covers the default, numeric interval.
- `ConnectionTest.Run` and `Monitor.Run` model a finite stretch of the endless `while True` loop: one iteration per given outcome. What happens after the last one is not modelled.
- `parsecml` and `main` in both files are not modelled: argument parsing, `os.path.expanduser`, and the call of the undefined `pint` when neither `--run` nor `--plot` is given.
- Two parts of `plot` are not modelled: loading the log (lines 44-61) and drawing the chart (lines 62-65, 69-72). As written, the loader calls `datetime.strptime` on the module, appends `R` to a float and never fills `D`. The model takes the timestamps and the outcomes as given sequences of whole numbers.
- `Monitor.ParseMillis` accepts only unsigned plain decimals (`23`, `23.4`, `.5`, `7.`). It treats every other form that Python's `float` accepts as a `ValueError`: signs, surrounding whitespace, exponents, `inf`, `nan`, underscores. It rounds on the exact decimal value, so it misses the binary rounding of fractions too long for a double.
- `Monitor.ParseMillis` also does not model the precision of a double for whole numbers: `float` of a numeral above 2^53 may round (`9007199254740993` reads as `9007199254740992`), and one too large for a double becomes `inf`, which `"%.0f"` prints as `inf`. The model keeps the exact number.
- `Platform.Disk` operations never fail. In the source an `IOError` from `open` (a missing directory, no permission, a full disk) would end `run` or `createfile` with that exception.
- `Monitor.PingResult` holds the time as whole milliseconds, as `"%.0f"` writes it, not as a float. A captured time therefore keeps no fraction in the model.
- `ConnectionTest.Run` does not model the command's output: `internetConnectionTest.py` never reads it.
- The HTTP probe, the bandwidth probe, dispatch by target string and the seven-field rows are not modelled. They are not part of this repository's source.

