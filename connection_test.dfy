/** The earlier monitor, `internetConnectionTest.py`: it pings a server
    forever and appends a `timestamp,server,success` record to the log only
    when a run-length rule says the sample is worth keeping. Two counters,
    `countS` for successes and `countF` for failures, count how far into the
    current run of equal outcomes the sampler is, modulo a prescale each. */
module ConnectionTest {
  import opened Platform
  import opened Text

  const DefaultPrescaleSuccess: int := 360
  const DefaultPrescaleFailure: int := 1
  const Header: string := "timestamp,server,ping_success"

  // ---------------------------------------------------------------------
  // the write decision, as functions of the counters

  datatype Counters = Counters(countS: int, countF: int)

  /** The counters before the first sample. */
  const Start: Counters := Counters(0, 0)

  /** Whether a sample with outcome `success` is appended to the log. */
  predicate ShouldWrite(c: Counters, success: bool)
  {
    (success && c.countS == 0) || (!success && c.countF == 0)
  }

  /** A counter after one more matching sample: it wraps to zero once it
      reaches its prescale. */
  function Bump(count: int, prescale: int): int
  {
    if count + 1 >= prescale then 0 else count + 1
  }

  /** The largest number of values a counter can take before it wraps; a
      prescale below one wraps at once, like a prescale of one. */
  function Period(prescale: int): (p: int)
    ensures p >= 1 && (prescale >= 1 ==> p == prescale)
  {
    if prescale < 1 then 1 else prescale
  }

  predicate Bounded(c: Counters, prescaleSuccess: int, prescaleFailure: int)
  {
    0 <= c.countS < Period(prescaleSuccess) && 0 <= c.countF < Period(prescaleFailure)
  }

  /** The counters after one sample: the matching counter advances, the
      opposite one is reset. */
  function Advance(c: Counters, success: bool, prescaleSuccess: int, prescaleFailure: int): (r: Counters)
    ensures success ==> r.countF == 0
    ensures !success ==> r.countS == 0
    ensures Bounded(c, prescaleSuccess, prescaleFailure) ==> Bounded(r, prescaleSuccess, prescaleFailure)
  {
    if success then Counters(Bump(c.countS, prescaleSuccess), 0)
    else Counters(0, Bump(c.countF, prescaleFailure))
  }

  /** The counters after a whole sequence of samples. */
  function CountersAfter(c: Counters, prescaleSuccess: int, prescaleFailure: int, outcomes: seq<bool>): Counters
    decreases |outcomes|
  {
    if |outcomes| == 0 then c
    else
      var before := CountersAfter(c, prescaleSuccess, prescaleFailure, outcomes[..|outcomes| - 1]);
      Advance(before, outcomes[|outcomes| - 1], prescaleSuccess, prescaleFailure)
  }

  /** For each sample of a sequence, whether it is written. */
  function WriteFlags(c: Counters, prescaleSuccess: int, prescaleFailure: int, outcomes: seq<bool>): (w: seq<bool>)
    ensures |w| == |outcomes|
    decreases |outcomes|
  {
    if |outcomes| == 0 then []
    else
      var n := |outcomes| - 1;
      WriteFlags(c, prescaleSuccess, prescaleFailure, outcomes[..n])
        + [ShouldWrite(CountersAfter(c, prescaleSuccess, prescaleFailure, outcomes[..n]), outcomes[n])]
  }

  /** Sample `i` is written exactly when the decision taken on the counters
      left by the samples before it says so. */
  lemma {:induction false} WriteFlagsAt(c: Counters, prescaleSuccess: int, prescaleFailure: int, outcomes: seq<bool>, i: nat)
    requires i < |outcomes|
    ensures WriteFlags(c, prescaleSuccess, prescaleFailure, outcomes)[i]
      == ShouldWrite(CountersAfter(c, prescaleSuccess, prescaleFailure, outcomes[..i]), outcomes[i])
    decreases |outcomes|
  {
    var n := |outcomes| - 1;
    if i < n {
      WriteFlagsAt(c, prescaleSuccess, prescaleFailure, outcomes[..n], i);
      assert outcomes[..n][..i] == outcomes[..i];
    } else {
      assert outcomes[..n] == outcomes[..i];
    }
  }

  // ---------------------------------------------------------------------
  // properties of the decision

  /** With counters that start in range, they stay in range: `countS` below
      the success prescale and `countF` below the failure prescale. */
  lemma {:induction false} CountersStayBounded(c: Counters, prescaleSuccess: int, prescaleFailure: int, outcomes: seq<bool>)
    requires Bounded(c, prescaleSuccess, prescaleFailure)
    ensures Bounded(CountersAfter(c, prescaleSuccess, prescaleFailure, outcomes), prescaleSuccess, prescaleFailure)
    decreases |outcomes|
  {
    if |outcomes| > 0 {
      CountersStayBounded(c, prescaleSuccess, prescaleFailure, outcomes[..|outcomes| - 1]);
    }
  }

  /** The counters after a non-empty sequence depend on its last sample:
      a success leaves `countF` at zero, a failure leaves `countS` at zero. */
  lemma LastOutcomeResets(c: Counters, prescaleSuccess: int, prescaleFailure: int, outcomes: seq<bool>, i: int)
    requires 0 < i <= |outcomes|
    ensures outcomes[i - 1] ==> CountersAfter(c, prescaleSuccess, prescaleFailure, outcomes[..i]).countF == 0
    ensures !outcomes[i - 1] ==> CountersAfter(c, prescaleSuccess, prescaleFailure, outcomes[..i]).countS == 0
  {
    assert outcomes[..i][..i - 1] == outcomes[..i - 1];
  }

  /** A change of outcome is always written: a success after a failure and a
      failure after a success, whatever the prescales. */
  lemma ChangeOfOutcomeIsWritten(c: Counters, prescaleSuccess: int, prescaleFailure: int, outcomes: seq<bool>, i: int)
    requires 0 < i < |outcomes| && outcomes[i] != outcomes[i - 1]
    ensures WriteFlags(c, prescaleSuccess, prescaleFailure, outcomes)[i]
  {
    WriteFlagsAt(c, prescaleSuccess, prescaleFailure, outcomes, i);
    LastOutcomeResets(c, prescaleSuccess, prescaleFailure, outcomes, i);
  }

  /** With a failure prescale of one (the default), every failed sample is
      written, provided `countF` starts at zero. */
  lemma EveryFailureWritten(c: Counters, prescaleSuccess: int, prescaleFailure: int, outcomes: seq<bool>, i: int)
    requires prescaleFailure <= 1 && c.countF == 0
    requires 0 <= i < |outcomes| && !outcomes[i]
    ensures WriteFlags(c, prescaleSuccess, prescaleFailure, outcomes)[i]
  {
    WriteFlagsAt(c, prescaleSuccess, prescaleFailure, outcomes, i);
    FailureCountStaysZero(c, prescaleSuccess, prescaleFailure, outcomes[..i]);
  }

  /** With a failure prescale of one, `countF` never leaves zero. */
  lemma {:induction false} FailureCountStaysZero(c: Counters, prescaleSuccess: int, prescaleFailure: int, outcomes: seq<bool>)
    requires prescaleFailure <= 1 && c.countF == 0
    ensures CountersAfter(c, prescaleSuccess, prescaleFailure, outcomes).countF == 0
    decreases |outcomes|
  {
    if |outcomes| > 0 {
      FailureCountStaysZero(c, prescaleSuccess, prescaleFailure, outcomes[..|outcomes| - 1]);
    }
  }

  lemma {:induction false} MulStep(a: int, b: int, p: int)
    requires p >= 1 && a < b
    ensures a * p + p <= b * p
    decreases b - a
  {
    if a + 1 < b {
      MulStep(a + 1, b, p);
    }
  }

  lemma ModUnique(x: int, q: int, r: int, p: int)
    requires p >= 1 && 0 <= r < p && x == q * p + r
    ensures x % p == r
  {
    var q0, r0 := x / p, x % p;
    assert x == q0 * p + r0 && 0 <= r0 < p;
    if q0 > q {
      MulStep(q, q0, p);
    } else if q0 < q {
      MulStep(q0, q, p);
    }
  }

  /** A counter that holds `n % p` holds `(n + 1) % p` after one more match. */
  lemma ModSuccessor(n: nat, m: nat, p: int)
    requires p >= 1 && m == n + 1
    ensures Bump(n % p, p) == m % p
  {
    var q, r := n / p, n % p;
    assert n == q * p + r;
    if r + 1 < p {
      ModUnique(m, q, r + 1, p);
    } else {
      ModUnique(m, q + 1, 0, p);
    }
  }

  /** A success advances `countS` of the samples before it. */
  lemma SuccessStep(c: Counters, prescaleSuccess: int, prescaleFailure: int, outcomes: seq<bool>, i: nat)
    requires 0 < i <= |outcomes| && outcomes[i - 1]
    ensures CountersAfter(c, prescaleSuccess, prescaleFailure, outcomes[..i]).countS
      == Bump(CountersAfter(c, prescaleSuccess, prescaleFailure, outcomes[..i - 1]).countS, prescaleSuccess)
  {
    assert outcomes[..i][..i - 1] == outcomes[..i - 1];
  }

  /** A counter started at zero and bumped `n` times. */
  function CountMod(n: nat, p: int): int
    decreases n
  {
    if n == 0 then 0 else Bump(CountMod(n - 1, p), p)
  }

  /** Bumping `n` times from zero is counting modulo the prescale. */
  lemma {:induction false} CountModIsMod(n: nat, p: int)
    requires p >= 1
    ensures CountMod(n, p) == n % p
    decreases n
  {
    if n > 0 {
      CountModIsMod(n - 1, p);
      ModSuccessor(n - 1, n, p);
    }
  }

  /** Inside an unbroken run of successes that starts with `countS` at zero,
      `countS` counts the samples of the run, wrapping at the success
      prescale. */
  lemma {:induction false} SuccessRunCount(c: Counters, prescaleSuccess: int, prescaleFailure: int, outcomes: seq<bool>, j: nat, i: nat)
    requires j <= i <= |outcomes|
    requires forall k :: j <= k < i ==> outcomes[k]
    requires CountersAfter(c, prescaleSuccess, prescaleFailure, outcomes[..j]).countS == 0
    ensures CountersAfter(c, prescaleSuccess, prescaleFailure, outcomes[..i]).countS == CountMod(i - j, prescaleSuccess)
    decreases i
  {
    if i > j {
      SuccessRunCount(c, prescaleSuccess, prescaleFailure, outcomes, j, i - 1);
      SuccessStep(c, prescaleSuccess, prescaleFailure, outcomes, i);
    }
  }

  /** Inside an unbroken run of successes that starts either at the first
      sample with `countS` at zero or right after a failure, exactly the
      samples at offsets 0, prescale, 2 * prescale, ... of the run are
      written. */
  lemma SuccessRunPeriodic(c: Counters, prescaleSuccess: int, prescaleFailure: int, outcomes: seq<bool>, j: nat, i: nat)
    requires prescaleSuccess >= 1
    requires j <= i < |outcomes|
    requires forall k :: j <= k <= i ==> outcomes[k]
    requires (j == 0 && c.countS == 0) || (j > 0 && !outcomes[j - 1])
    ensures WriteFlags(c, prescaleSuccess, prescaleFailure, outcomes)[i] <==> (i - j) % prescaleSuccess == 0
  {
    if j > 0 {
      LastOutcomeResets(c, prescaleSuccess, prescaleFailure, outcomes, j);
    }
    SuccessRunCount(c, prescaleSuccess, prescaleFailure, outcomes, j, i);
    CountModIsMod(i - j, prescaleSuccess);
    WriteFlagsAt(c, prescaleSuccess, prescaleFailure, outcomes, i);
  }

  /** With the prescales `run` defaults to, 360 for successes and 1 for
      failures, every failed sample is logged, and within a run of successes
      that follows a failure (or opens the log) exactly every 360th sample
      is. */
  lemma DefaultPrescales(outcomes: seq<bool>, j: nat, i: nat)
    requires j <= i < |outcomes|
    ensures !outcomes[i] ==> WriteFlags(Start, DefaultPrescaleSuccess, DefaultPrescaleFailure, outcomes)[i]
    ensures (forall k :: j <= k <= i ==> outcomes[k]) && (j == 0 || !outcomes[j - 1]) ==>
      (WriteFlags(Start, DefaultPrescaleSuccess, DefaultPrescaleFailure, outcomes)[i] <==> (i - j) % 360 == 0)
  {
    if !outcomes[i] {
      EveryFailureWritten(Start, DefaultPrescaleSuccess, DefaultPrescaleFailure, outcomes, i);
    }
    if (forall k :: j <= k <= i ==> outcomes[k]) && (j == 0 || !outcomes[j - 1]) {
      SuccessRunPeriodic(Start, DefaultPrescaleSuccess, DefaultPrescaleFailure, outcomes, j, i);
    }
  }

  // ---------------------------------------------------------------------
  // records and the log file

  /** One record: `timestamp,server,success`, with no line terminator. */
  function Record(timestamp: string, server: string, success: bool): string
  {
    Join([timestamp, server, Flag(success)], ',')
  }

  /** A record has the three fields it was built from, the last one `0` or
      `1`, when neither the timestamp nor the server holds a comma. */
  lemma RecordFields(timestamp: string, server: string, success: bool)
    requires ',' !in timestamp && ',' !in server
    ensures Split(Record(timestamp, server, success), ',') == [timestamp, server, Flag(success)]
  {
    SplitJoin([timestamp, server, Flag(success)], ',');
  }

  /** The text a run appends: the records of the written samples, one after
      another with nothing in between. */
  function Records(timestamps: seq<string>, server: string, outcomes: seq<bool>, written: seq<bool>): string
    requires |timestamps| == |outcomes| == |written|
    decreases |outcomes|
  {
    if |outcomes| == 0 then ""
    else
      var n := |outcomes| - 1;
      Records(timestamps[..n], server, outcomes[..n], written[..n])
        + (if written[n] then Record(timestamps[n], server, outcomes[n]) else "")
  }

  /** The number of samples a run takes before the ping command fails with an
      unexpected error (all of them when it never does). */
  function Completed(outcomes: seq<CommandOutcome>): (n: nat)
    ensures n <= |outcomes|
    ensures forall k :: 0 <= k < n ==> !outcomes[k].OtherError?
    ensures n < |outcomes| ==> outcomes[n].OtherError?
  {
    if |outcomes| == 0 then 0
    else if outcomes[0].OtherError? then 0
    else 1 + Completed(outcomes[1..])
  }

  /** Exit status zero is a success; `CalledProcessError` is a failure. */
  function Successes(outcomes: seq<CommandOutcome>): seq<bool>
  {
    seq(|outcomes|, k requires 0 <= k < |outcomes| => outcomes[k].Exit0?)
  }

  /** What a run over the given samples appends to the log, before it stops
      at the first unexpected error. */
  function RunLog(server: string, prescaleSuccess: int, prescaleFailure: int,
                  timestamps: seq<string>, outcomes: seq<CommandOutcome>): string
    requires |timestamps| == |outcomes|
  {
    var n := Completed(outcomes);
    var s := Successes(outcomes[..n]);
    Records(timestamps[..n], server, s, WriteFlags(Start, prescaleSuccess, prescaleFailure, s))
  }

  /** `createfile`: a missing log gets the header line; an existing file,
      and every other file, is left as it is. */
  function WithHeader(files: map<Path, string>, fname: Path): (r: map<Path, string>)
    ensures r.Keys == files.Keys + {fname}
    ensures forall p :: p in files ==> r[p] == files[p]
    ensures fname !in files ==> r[fname] == Header + "\n"
  {
    if fname in files then files else files[fname := Header + "\n"]
  }

  /** Creating the log twice leaves it as creating it once: the header is
      never written a second time. */
  lemma WithHeaderIdempotent(files: map<Path, string>, fname: Path)
    ensures WithHeader(WithHeader(files, fname), fname) == WithHeader(files, fname)
  {
  }

  // ---------------------------------------------------------------------
  // the imperative sampler

  /** The state `run` keeps between iterations of its loop. */
  class Sampler {
    const prescaleSuccess: int
    const prescaleFailure: int
    var countS: int
    var countF: int

    constructor (prescaleSuccess: int, prescaleFailure: int)
      ensures this.prescaleSuccess == prescaleSuccess && this.prescaleFailure == prescaleFailure
      ensures State() == Start
    {
      this.prescaleSuccess := prescaleSuccess;
      this.prescaleFailure := prescaleFailure;
      countS := 0;
      countF := 0;
    }

    function State(): Counters
      reads this
    {
      Counters(countS, countF)
    }

    /** One iteration of the loop after the ping: decide whether the sample is
        written, then advance the counters. */
    method Step(success: bool) returns (write: bool)
      modifies this
      ensures write == ShouldWrite(old(State()), success)
      ensures State() == Advance(old(State()), success, prescaleSuccess, prescaleFailure)
    {
      write := (success && countS == 0) || (!success && countF == 0);
      if success {
        countS := countS + 1;
        if countS >= prescaleSuccess {
          countS := 0;
        }
        countF := 0;
      } else {
        countF := countF + 1;
        if countF >= prescaleFailure {
          countF := 0;
        }
        countS := 0;
      }
    }
    /** The rest of one iteration once the ping outcome is known: append the
        record when the counters say so (line 34 adds no newline), then
        advance the counters. */
    method Sample(disk: Disk, fname: Path, timestamp: string, server: string, success: bool) returns (written: bool)
      modifies this, disk
      ensures written == ShouldWrite(old(State()), success)
      ensures State() == Advance(old(State()), success, prescaleSuccess, prescaleFailure)
      ensures disk.files == Appended(old(disk.files), fname, if written then Record(timestamp, server, success) else "")
    {
      if (success && countS == 0) || (!success && countF == 0) {
        var record := Record(timestamp, server, success);
        assert record != "" by { assert record[|timestamp|] == ','; }
        disk.Append(fname, record);
      }
      written := Step(success);
    }
  }


  /** One more sample advances the counters of the samples before it. */
  lemma CountersStep(prescaleSuccess: int, prescaleFailure: int, s: seq<bool>, i: nat)
    requires i < |s|
    ensures CountersAfter(Start, prescaleSuccess, prescaleFailure, s[..i + 1])
      == Advance(CountersAfter(Start, prescaleSuccess, prescaleFailure, s[..i]), s[i], prescaleSuccess, prescaleFailure)
  {
    assert s[..i + 1][..i] == s[..i];
  }

  /** The log text of the first `i` samples. */
  ghost function Logged(prescaleSuccess: int, prescaleFailure: int, timestamps: seq<string>, server: string,
                        s: seq<bool>, i: nat): string
    requires |timestamps| == |s| && i <= |s|
  {
    Records(timestamps[..i], server, s[..i], WriteFlags(Start, prescaleSuccess, prescaleFailure, s[..i]))
  }

  /** One more sample extends the log by its record exactly when it is
      written. */
  lemma LoggedStep(prescaleSuccess: int, prescaleFailure: int, timestamps: seq<string>, server: string,
                   s: seq<bool>, i: nat)
    requires |timestamps| == |s| && i < |s|
    ensures Logged(prescaleSuccess, prescaleFailure, timestamps, server, s, i + 1)
      == Logged(prescaleSuccess, prescaleFailure, timestamps, server, s, i)
        + (if ShouldWrite(CountersAfter(Start, prescaleSuccess, prescaleFailure, s[..i]), s[i])
           then Record(timestamps[i], server, s[i]) else "")
  {
    assert s[..i + 1][..i] == s[..i];
    assert timestamps[..i + 1][..i] == timestamps[..i];
    var w := WriteFlags(Start, prescaleSuccess, prescaleFailure, s[..i + 1]);
    assert w[..i] == WriteFlags(Start, prescaleSuccess, prescaleFailure, s[..i]);
  }

  /** Sample `i` of a run, taken by `sampler` after samples `0..i-1`: it
      keeps the counters and the log in step with the specification. */
  method RunIteration(sampler: Sampler, disk: Disk, fname: Path, server: string, ghost before: map<Path, string>,
                      ghost timestamps: seq<string>, ghost s: seq<bool>, ghost i: nat, timestamp: string, success: bool)
    returns (written: bool)
    requires |timestamps| == |s| && i < |s| && timestamp == timestamps[i] && success == s[i]
    requires sampler.State() == CountersAfter(Start, sampler.prescaleSuccess, sampler.prescaleFailure, s[..i])
    requires disk.files == Appended(before, fname, Logged(sampler.prescaleSuccess, sampler.prescaleFailure, timestamps, server, s, i))
    modifies sampler, disk
    ensures sampler.State() == CountersAfter(Start, sampler.prescaleSuccess, sampler.prescaleFailure, s[..i + 1])
    ensures disk.files == Appended(before, fname, Logged(sampler.prescaleSuccess, sampler.prescaleFailure, timestamps, server, s, i + 1))
  {
    CountersStep(sampler.prescaleSuccess, sampler.prescaleFailure, s, i);
    LoggedStep(sampler.prescaleSuccess, sampler.prescaleFailure, timestamps, server, s, i);
    ghost var logged := Logged(sampler.prescaleSuccess, sampler.prescaleFailure, timestamps, server, s, i);
    written := sampler.Sample(disk, fname, timestamp, server, success);
    AppendedTwice(before, fname, logged, if written then Record(timestamp, server, success) else "");
  }

  /** `createfile`: writes the header line only when the log does not exist. */
  method CreateFile(disk: Disk, fname: Path)
    modifies disk
    ensures disk.files == WithHeader(old(disk.files), fname)
  {
    if !disk.Exists(fname) {
      disk.Overwrite(fname, Header + "\n");
    }
  }

  /** `run` over a finite stretch of its endless loop: sample `i` is taken
      with ping outcome `outcomes[i]` and clock reading `timestamps[i]`. The
      loop ends with `error` when the ping command cannot be run. */
  method Run(disk: Disk, fname: Path, server: string, prescaleSuccess: int, prescaleFailure: int,
             timestamps: seq<string>, outcomes: seq<CommandOutcome>) returns (error: Option<string>)
    requires |timestamps| == |outcomes|
    modifies disk
    ensures var n := Completed(outcomes);
      error == if n < |outcomes| then Some(outcomes[n].message) else None
    ensures disk.files == Appended(old(disk.files), fname,
      RunLog(server, prescaleSuccess, prescaleFailure, timestamps, outcomes))
  {
    var sampler := new Sampler(prescaleSuccess, prescaleFailure);
    ghost var n := Completed(outcomes);
    ghost var s := Successes(outcomes[..n]);
    ghost var stamps := timestamps[..n];
    var i := 0;
    error := None;
    while i < |outcomes|
      invariant 0 <= i <= n
      invariant sampler.prescaleSuccess == prescaleSuccess && sampler.prescaleFailure == prescaleFailure
      invariant sampler.State() == CountersAfter(Start, prescaleSuccess, prescaleFailure, s[..i])
      invariant disk.files == Appended(old(disk.files), fname, Logged(prescaleSuccess, prescaleFailure, stamps, server, s, i))
    {
      var success: bool;
      match outcomes[i] {
        case Exit0(_) => success := true;
        case NonZero => success := false;
        case OtherError(message) => error := Some(message); break;
      }
      assert success == s[i] && timestamps[i] == stamps[i];
      var written := RunIteration(sampler, disk, fname, server, old(disk.files), stamps, s, i, timestamps[i], success);
      i := i + 1;
    }
    assert s[..i] == s && stamps[..i] == stamps;
  }
}
