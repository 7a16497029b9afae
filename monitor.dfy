/** The later monitor, `internetmonitor.py`: `ping` turns one run of the
    `ping` command into a result (success flag, round-trip time in
    milliseconds, server), and `run` appends every result to the log as a
    `date,server,success,time` line. */
module Monitor {
  import opened Platform
  import opened Text

  /** The timeout, in seconds, `run` passes to `ping` (its default). */
  const DefaultTimeout: int := 10

  datatype PingResult = PingResult(success: bool, time: int, server: string)

  /** The exceptions `ping` lets escape: whatever the command runner raised
      other than `CalledProcessError`, and the `ValueError` of `float` when
      the text captured as the time is not a number. */
  datatype Failure = ExecutionError(message: string) | ValueError(text: string)

  datatype Result<T> = Ok(value: T) | Raised(failure: Failure)

  // ---------------------------------------------------------------------
  // finding the time in the command's output

  predicate OccursAt(s: string, pat: string, k: int)
  {
    0 <= k && k + |pat| <= |s| && s[k..k + |pat|] == pat
  }

  /** The start of the last occurrence of `pat` in `s` that ends at or
      before `limit`. */
  function LastOccurrence(s: string, pat: string, limit: nat): (r: Option<nat>)
    requires limit <= |s|
    ensures r.Some? ==> r.value + |pat| <= limit && OccursAt(s, pat, r.value)
    ensures r.Some? ==> forall k :: r.value < k && k + |pat| <= limit ==> !OccursAt(s, pat, k)
    ensures r.None? ==> forall k :: 0 <= k && k + |pat| <= limit ==> !OccursAt(s, pat, k)
    decreases limit
  {
    if limit < |pat| then None
    else if s[limit - |pat|..limit] == pat then Some(limit - |pat|)
    else LastOccurrence(s, pat, limit - 1)
  }

  /** `"time=" + t + " ms"` stands in `line` at position `b`. */
  predicate Surrounds(line: string, t: string, b: int)
  {
    OccursAt(line, "time=" + t + " ms", b)
  }

  /** What `.*time=(.*) ms` captures on one line (`.` never crosses a line
      break). Both `.*` are greedy, so the capture ends at the last ` ms` of
      the line and starts after the last `time=` that ends before it. */
  function CaptureInLine(line: string): Option<string>
  {
    match LastOccurrence(line, " ms", |line|)
    case None => None
    case Some(e) =>
      match LastOccurrence(line, "time=", e)
      case None => None
      case Some(b) => Some(line[b + 5..e])
  }

  /** A line yields a capture exactly when it holds `time=` followed later by
      ` ms`, and the capture is what stands between the two. */
  lemma CaptureInLineMeaning(line: string)
    ensures CaptureInLine(line).Some? ==> exists b :: Surrounds(line, CaptureInLine(line).value, b)
    ensures CaptureInLine(line).None? <==>
      forall b, e :: OccursAt(line, "time=", b) && OccursAt(line, " ms", e) ==> e < b + 5
  {
    var r := CaptureInLine(line);
    match LastOccurrence(line, " ms", |line|)
    case None =>
    case Some(e) =>
      match LastOccurrence(line, "time=", e)
      case None =>
      case Some(b) =>
        var t := line[b + 5..e];
        assert line[b..e + 3] == line[b..b + 5] + line[b + 5..e] + line[e..e + 3];
        assert Surrounds(line, t, b);
  }

  /** The capture on the first line that matches, as `re.search` finds it. */
  function FirstCapture(lines: seq<string>): Option<string>
    decreases |lines|
  {
    if |lines| == 0 then None
    else if CaptureInLine(lines[0]).Some? then CaptureInLine(lines[0])
    else FirstCapture(lines[1..])
  }

  /** The search yields the capture of the first matching line, and nothing
      when no line matches. */
  lemma {:induction false} FirstCaptureMeaning(lines: seq<string>)
    ensures FirstCapture(lines).Some? ==>
      exists i :: 0 <= i < |lines| && CaptureInLine(lines[i]) == FirstCapture(lines)
        && forall j :: 0 <= j < i ==> CaptureInLine(lines[j]).None?
    ensures FirstCapture(lines).None? <==> forall i :: 0 <= i < |lines| ==> CaptureInLine(lines[i]).None?
    decreases |lines|
  {
    if |lines| > 0 && CaptureInLine(lines[0]).None? {
      var rest := lines[1..];
      FirstCaptureMeaning(rest);
      assert FirstCapture(lines) == FirstCapture(rest);
      if FirstCapture(rest).Some? {
        var i :| 0 <= i < |rest| && CaptureInLine(rest[i]) == FirstCapture(rest)
          && forall j :: 0 <= j < i ==> CaptureInLine(rest[j]).None?;
        assert lines[i + 1] == rest[i];
        forall j | 0 <= j < i + 1 ensures CaptureInLine(lines[j]).None? {
          if j > 0 {
            assert lines[j] == rest[j - 1];
          }
        }
      } else {
        forall k | 0 <= k < |lines| ensures CaptureInLine(lines[k]).None? {
          if k > 0 {
            assert lines[k] == rest[k - 1];
          }
        }
      }
    }
  }

  /** `re.search(".*time=(.*) ms", output)`, reduced to its group. */
  function FindTime(output: string): Option<string>
  {
    FirstCapture(Split(output, '\n'))
  }

  // ---------------------------------------------------------------------
  // reading the captured time

  predicate AllZeros(s: string)
  {
    forall i :: 0 <= i < |s| ==> s[i] == '0'
  }

  /** `float(text)` as `"%.0f"` later prints it, for the plain decimal forms
      `ping` writes (`23`, `23.4`, `.5`, `7.`): the whole milliseconds,
      rounded to nearest with ties to even; `None` where `float` raises. */
  function ParseMillis(text: string): (r: Option<int>)
    ensures r.Some? ==> r.value >= 0
  {
    var parts := Split(text, '.');
    if |parts| == 1 && |text| > 0 && AllDigits(text) then Some(DigitsValue(text))
    else if |parts| == 2 && |parts[0]| + |parts[1]| > 0 && AllDigits(parts[0]) && AllDigits(parts[1]) then
      var whole := DigitsValue(parts[0]);
      var fraction := parts[1];
      var up :=
        if |fraction| == 0 || fraction[0] < '5' then false
        else if fraction[0] > '5' || !AllZeros(fraction[1..]) then true
        else whole % 2 == 1;
      Some(if up then whole + 1 else whole)
    else None
  }

  /** Any whole number of milliseconds written out reads back as itself. */
  lemma ParseMillisNumeral(n: nat)
    ensures ParseMillis(NatToString(n)) == Some(n)
  {
    var s := NatToString(n);
    SplitNoSeparator(s, '.');
    NatToStringRoundTrip(n);
  }

  /** Fractions below a half round down, above a half round up. */
  lemma ParseMillisRounds(n: nat, d: char)
    requires IsDigit(d)
    ensures ParseMillis(NatToString(n) + "." + [d]) == Some(if d < '5' then n else n + (if d > '5' || n % 2 == 1 then 1 else 0))
  {
    var s := NatToString(n);
    SplitAfterPiece(s, '.', [d]);
    SplitNoSeparator([d], '.');
    NatToStringRoundTrip(n);
    assert Split(s + "." + [d], '.') == [s, [d]];
  }

  // ---------------------------------------------------------------------
  // ping

  /** The result `ping(server, timeout)` returns, or the exception it raises,
      when the command ends with `outcome`. */
  function Probe(server: string, timeout: int, outcome: CommandOutcome): Result<PingResult>
  {
    match outcome
    case NonZero => Ok(PingResult(false, timeout * 1000, server))
    case OtherError(message) => Raised(ExecutionError(message))
    case Exit0(output) =>
      match FindTime(output)
      case None => Ok(PingResult(true, timeout * 1000, server))
      case Some(t) =>
        match ParseMillis(t)
        case None => Raised(ValueError(t))
        case Some(ms) => Ok(PingResult(true, ms, server))
  }

  /** `ping`: start from success and the timeout as the time, override the
      time with the captured value, and turn only a non-zero exit into a
      failure. */
  method Ping(server: string, timeout: int, outcome: CommandOutcome) returns (r: Result<PingResult>)
    ensures r == Probe(server, timeout, outcome)
    ensures r.Ok? ==> r.value.server == server
    ensures outcome.NonZero? ==> r == Ok(PingResult(false, timeout * 1000, server))
    ensures outcome.OtherError? ==> r == Raised(ExecutionError(outcome.message))
    ensures outcome.Exit0? && FindTime(outcome.output).None? ==> r == Ok(PingResult(true, timeout * 1000, server))
    ensures outcome.Exit0? && FindTime(outcome.output).Some? ==>
      var t := FindTime(outcome.output).value;
      r == if ParseMillis(t).Some? then Ok(PingResult(true, ParseMillis(t).value, server)) else Raised(ValueError(t))
    ensures r.Ok? ==> (r.value.success <==> outcome.Exit0?)
  {
    var success := true;
    var time := timeout * 1000;
    match outcome {
      case Exit0(output) =>
        var found := FindTime(output);
        if found.Some? {
          var ms := ParseMillis(found.value);
          if ms.None? {
            return Raised(ValueError(found.value));
          }
          time := ms.value;
        }
      case NonZero =>
        success := false;
      case OtherError(message) =>
        return Raised(ExecutionError(message));
    }
    r := Ok(PingResult(success, time, server));
  }

  // ---------------------------------------------------------------------
  // log rows

  /** The line `run` writes for one result, before its newline. */
  function Row(date: string, result: PingResult): string
  {
    Join([date, result.server, Flag(result.success), FormatInt(result.time)], ',')
  }

  /** A row read back from the log. */
  datatype LogRow = LogRow(date: string, server: string, success: bool, time: int)

  /** The reader's side of the format: four comma-separated fields, the third
      `0` or `1` and the fourth a whole number. */
  function ParseRow(line: string): Option<LogRow>
  {
    var fields := Split(line, ',');
    if |fields| == 4 && (fields[2] == "0" || fields[2] == "1") && ParseInt(fields[3]).Some? then
      Some(LogRow(fields[0], fields[1], fields[2] == "1", ParseInt(fields[3]).value))
    else None
  }

  /** A row reads back as the result it was written from when neither the
      date nor the server holds a comma. */
  lemma RowRoundTrip(date: string, result: PingResult)
    requires ',' !in date && ',' !in result.server
    ensures Split(Row(date, result), ',') == [date, result.server, Flag(result.success), FormatInt(result.time)]
    ensures ParseRow(Row(date, result)) == Some(LogRow(date, result.server, result.success, result.time))
  {
    FormatIntRoundTrip(result.time);
    SplitJoin([date, result.server, Flag(result.success), FormatInt(result.time)], ',');
  }

  /** A row has exactly four fields if and only if neither the date nor the
      server holds a comma; otherwise it splits into more. */
  lemma RowFieldCount(date: string, result: PingResult)
    ensures |Split(Row(date, result), ',')| == 4 + CountOf(date, ',') + CountOf(result.server, ',')
    ensures |Split(Row(date, result), ',')| == 4 <==> ',' !in date && ',' !in result.server
  {
    var flag, time := Flag(result.success), FormatInt(result.time);
    var row := Row(date, result);
    Join4(date, result.server, flag, time, ',');
    FormatIntRoundTrip(result.time);
    CountOfZero(flag, ',');
    CountOfZero(time, ',');
    CountOfZero(date, ',');
    CountOfZero(result.server, ',');
    CountOfConcat(flag + ",", time, ',');
    CountOfConcat(flag, ",", ',');
    CountOfConcat(result.server + ",", flag + "," + time, ',');
    CountOfConcat(result.server, ",", ',');
    CountOfConcat(date + ",", result.server + "," + (flag + "," + time), ',');
    CountOfConcat(date, ",", ',');
    assert CountOf(",", ',') == 1;
    SplitCount(row, ',');
  }

  /** A failed sample in `run` is written with the timeout sentinel: the
      default timeout of ten seconds, as 10000 milliseconds. */
  lemma FailedSampleRow(date: string, server: string)
    ensures Probe(server, DefaultTimeout, NonZero).Ok?
    ensures Row(date, Probe(server, DefaultTimeout, NonZero).value) == date + "," + server + ",0,10000"
  {
    assert NatToString(10000) == "10000" by {
      assert NatToString(1) == "1";
      assert NatToString(10) == "10";
      assert NatToString(100) == "100";
      assert NatToString(1000) == "1000";
    }
    Join4(date, server, "0", "10000", ',');
  }

  /** The reply line of the usual form: its capture is the reported time. */
  lemma ReplyLineCapture()
    ensures CaptureInLine("64 bytes from 8.8.8.8: time=23 ms") == Some("23")
  {
    var line := "64 bytes from 8.8.8.8: time=23 ms";
    assert |line| == 33;
    assert line[30..33] == " ms";
    assert LastOccurrence(line, " ms", 33) == Some(30);
    assert line[25] == 'm' && line[24] == 'i' && line[23..28] == "time=";
    assert LastOccurrence(line, "time=", 28) == Some(23);
    assert line[24..29][0] == 'i';
    assert LastOccurrence(line, "time=", 29) == Some(23);
    assert line[25..30][0] == 'm';
    assert LastOccurrence(line, "time=", 30) == Some(23);
    assert line[28..30] == "23";
  }

  lemma ReplyFindTime(line: string)
    requires line == "64 bytes from 8.8.8.8: time=23 ms"
    ensures FindTime(line + "\n") == Some("23")
  {
    assert '\n' !in line;
    assert line + "\n" == line + "\n" + "";
    SplitAfterPiece(line, '\n', "");
    ReplyLineCapture();
  }

  /** A reply of the usual form gives a success with the time it reports. */
  lemma ReplyProbe(line: string)
    requires line == "64 bytes from 8.8.8.8: time=23 ms"
    ensures Probe("8.8.8.8", DefaultTimeout, Exit0(line + "\n")) == Ok(PingResult(true, 23, "8.8.8.8"))
  {
    ReplyFindTime(line);
    assert NatToString(23) == "23" by { assert NatToString(2) == "2"; }
    ParseMillisNumeral(23);
  }

  /** ... and is written with that time. */
  lemma ReplyRow()
    ensures Row("2024-01-01_00:00:00", PingResult(true, 23, "8.8.8.8")) == "2024-01-01_00:00:00,8.8.8.8,1,23"
  {
    assert NatToString(23) == "23" by { assert NatToString(2) == "2"; }
    Join4("2024-01-01_00:00:00", "8.8.8.8", "1", "23", ',');
  }

  // ---------------------------------------------------------------------
  // run

  /** The number of samples `run` writes before `ping` raises (all of them
      when it never does). */
  function Completed(server: string, timeout: int, outcomes: seq<CommandOutcome>): (n: nat)
    ensures n <= |outcomes|
    ensures forall k :: 0 <= k < n ==> Probe(server, timeout, outcomes[k]).Ok?
    ensures n < |outcomes| ==> Probe(server, timeout, outcomes[n]).Raised?
    decreases |outcomes|
  {
    if |outcomes| == 0 then 0
    else if Probe(server, timeout, outcomes[0]).Raised? then 0
    else
      var n := Completed(server, timeout, outcomes[1..]);
      assert forall k :: 1 <= k < n + 1 ==> outcomes[1..][k - 1] == outcomes[k];
      1 + n
  }

  /** The results of samples that all produce one. */
  function Results(server: string, timeout: int, outcomes: seq<CommandOutcome>): (results: seq<PingResult>)
    requires forall k :: 0 <= k < |outcomes| ==> Probe(server, timeout, outcomes[k]).Ok?
    ensures |results| == |outcomes|
    ensures forall k :: 0 <= k < |outcomes| ==> Probe(server, timeout, outcomes[k]) == Ok(results[k])
    decreases |outcomes|
  {
    if |outcomes| == 0 then []
    else
      var n := |outcomes| - 1;
      Results(server, timeout, outcomes[..n]) + [Probe(server, timeout, outcomes[n]).value]
  }

  /** The text `run` appends for a sequence of results: each row followed by
      a newline. */
  function Rows(dates: seq<string>, results: seq<PingResult>): string
    requires |dates| == |results|
    decreases |results|
  {
    if |results| == 0 then ""
    else
      var n := |results| - 1;
      Rows(dates[..n], results[..n]) + (Row(dates[n], results[n]) + "\n")
  }

  lemma RowHasNoNewline(date: string, result: PingResult)
    requires '\n' !in date && '\n' !in result.server
    ensures '\n' !in Row(date, result)
  {
    FormatIntRoundTrip(result.time);
    Join4(date, result.server, Flag(result.success), FormatInt(result.time), ',');
  }

  /** Every result is exactly one line of the log. */
  lemma {:induction false} RowsAreLines(dates: seq<string>, results: seq<PingResult>)
    requires |dates| == |results|
    requires forall k :: 0 <= k < |dates| ==> '\n' !in dates[k] && '\n' !in results[k].server
    ensures CountOf(Rows(dates, results), '\n') == |results|
    decreases |results|
  {
    if |results| > 0 {
      var n := |results| - 1;
      var before := Rows(dates[..n], results[..n]);
      RowsAreLines(dates[..n], results[..n]);
      var row := Row(dates[n], results[n]);
      RowHasNoNewline(dates[n], results[n]);
      CountOfZero(row, '\n');
      CountOfConcat(before, row + "\n", '\n');
      CountOfConcat(row, "\n", '\n');
      assert CountOf("\n", '\n') == 1;
    }
  }

  /** The `with open(output, "a")` block of `run`: the row, then a newline. */
  method WriteRow(disk: Disk, output: Path, date: string, result: PingResult)
    modifies disk
    ensures disk.files == Appended(old(disk.files), output, Row(date, result) + "\n")
  {
    var line := Row(date, result);
    disk.Append(output, line);
    disk.Append(output, "\n");
    assert FileText(old(disk.files), output) + line + "\n" == FileText(old(disk.files), output) + (line + "\n");
  }

  /** One pass of the loop in `run`: ping the server, then append the row
      and its newline. When `ping` raises, nothing is written. */
  method Sample(disk: Disk, output: Path, server: string, timeout: int, date: string, outcome: CommandOutcome)
    returns (r: Result<PingResult>)
    modifies disk
    ensures r == Probe(server, timeout, outcome)
    ensures disk.files == Appended(old(disk.files), output, if r.Ok? then Row(date, r.value) + "\n" else "")
  {
    r := Ping(server, timeout, outcome);
    if r.Ok? {
      WriteRow(disk, output, date, r.value);
    }
  }

  /** One more result extends what `run` has appended by its own row. */
  lemma RowsStep(dates: seq<string>, results: seq<PingResult>, i: nat, result: PingResult)
    requires |results| == i < |dates|
    ensures Rows(dates[..i + 1], results + [result]) == Rows(dates[..i], results) + (Row(dates[i], result) + "\n")
  {
    var ds, rs := dates[..i + 1], results + [result];
    assert ds[..i] == dates[..i] && rs[..i] == results;
    assert ds[i] == dates[i] && rs[i] == result;
  }

  /** `results` are what the first samples produce, in order. */
  ghost predicate Gathered(server: string, timeout: int, outcomes: seq<CommandOutcome>, results: seq<PingResult>)
  {
    |results| <= |outcomes| && forall k :: 0 <= k < |results| ==> Probe(server, timeout, outcomes[k]) == Ok(results[k])
  }

  /** Sample `i` of a run, after the rows of the results before it: the log
      grows by this sample's row, or stays as it is when `ping` raises. */
  method RunIteration(disk: Disk, output: Path, server: string, timeout: int, ghost before: map<Path, string>,
                      dates: seq<string>, outcomes: seq<CommandOutcome>, ghost results: seq<PingResult>, i: nat)
    returns (r: Result<PingResult>)
    requires |dates| == |outcomes| && |results| == i < |outcomes|
    requires disk.files == Appended(before, output, Rows(dates[..i], results))
    modifies disk
    ensures r == Probe(server, timeout, outcomes[i])
    ensures r.Raised? ==> disk.files == old(disk.files)
    ensures r.Ok? ==> disk.files == Appended(before, output, Rows(dates[..i + 1], results + [r.value]))
  {
    r := Sample(disk, output, server, timeout, dates[i], outcomes[i]);
    if r.Ok? {
      RowsStep(dates, results, i, r.value);
      AppendedTwice(before, output, Rows(dates[..i], results), Row(dates[i], r.value) + "\n");
    }
  }

  lemma GatheredStep(server: string, timeout: int, outcomes: seq<CommandOutcome>, results: seq<PingResult>, result: PingResult)
    requires Gathered(server, timeout, outcomes, results) && |results| < |outcomes|
    requires Probe(server, timeout, outcomes[|results|]) == Ok(result)
    ensures Gathered(server, timeout, outcomes, results + [result])
  {
    assert (results + [result])[|results|] == result;
  }

  /** The results gathered one at a time are the results of the samples. */
  lemma ResultsAgree(server: string, timeout: int, outcomes: seq<CommandOutcome>, n: nat, results: seq<PingResult>)
    requires |results| == n <= |outcomes|
    requires forall k :: 0 <= k < n ==> Probe(server, timeout, outcomes[k]) == Ok(results[k])
    ensures forall k :: 0 <= k < n ==> Probe(server, timeout, outcomes[..n][k]).Ok?
    ensures results == Results(server, timeout, outcomes[..n])
  {
    assert forall k :: 0 <= k < n ==> outcomes[..n][k] == outcomes[k];
    var expected := Results(server, timeout, outcomes[..n]);
    forall k | 0 <= k < n ensures results[k] == expected[k] {
      assert Probe(server, timeout, outcomes[..n][k]) == Ok(expected[k]);
    }
  }

  /** A sample that produces a result comes before the first one that
      raises. */
  lemma BeforeFirstRaise(server: string, timeout: int, outcomes: seq<CommandOutcome>, i: nat)
    requires i <= Completed(server, timeout, outcomes) && i < |outcomes|
    requires Probe(server, timeout, outcomes[i]).Ok?
    ensures i < Completed(server, timeout, outcomes)
  {
  }

  /** `run` over a finite stretch of its endless loop: sample `i` is dated
      `dates[i]` and its ping ends with `outcomes[i]`. The loop ends with
      the exception `ping` raises, if any. */
  method Run(disk: Disk, output: Path, server: string, timeout: int, dates: seq<string>, outcomes: seq<CommandOutcome>)
    returns (error: Option<Failure>)
    requires timeout == DefaultTimeout && |dates| == |outcomes|
    modifies disk
    ensures var n := Completed(server, timeout, outcomes);
      error == if n < |outcomes| then Some(Probe(server, timeout, outcomes[n]).failure) else None
    ensures var n := Completed(server, timeout, outcomes);
      disk.files == Appended(old(disk.files), output, Rows(dates[..n], Results(server, timeout, outcomes[..n])))
  {
    ghost var n := Completed(server, timeout, outcomes);
    ghost var results: seq<PingResult> := [];
    var i := 0;
    error := None;
    while i < |outcomes|
      invariant 0 <= i <= n
      invariant |results| == i && Gathered(server, timeout, outcomes, results)
      invariant disk.files == Appended(old(disk.files), output, Rows(dates[..i], results))
    {
      var result := RunIteration(disk, output, server, timeout, old(disk.files), dates, outcomes, results, i);
      if result.Raised? {
        error := Some(result.failure);
        break;
      }
      BeforeFirstRaise(server, timeout, outcomes, i);
      GatheredStep(server, timeout, outcomes, results, result.value);
      results := results + [result.value];
      i := i + 1;
    }
    ResultsAgree(server, timeout, outcomes, n, results);
    assert dates[..i] == dates[..n];
  }
}
