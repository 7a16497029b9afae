/** The arithmetic of `plot` in `internetmonitor.py`: the time between two
    consecutive samples is charged to the earlier sample, to uptime when it
    succeeded (outcome 1) and to downtime when it failed (outcome 0).
    Timestamps are whole numbers (seconds, say). */
module Plot {

  /** `D[1:] - D[:-1]`: the gaps between consecutive timestamps. */
  function Intervals(times: seq<int>): (gaps: seq<int>)
    ensures |gaps| == if |times| == 0 then 0 else |times| - 1
    ensures forall i :: 0 <= i < |gaps| ==> gaps[i] == times[i + 1] - times[i]
    decreases |times|
  {
    if |times| < 2 then []
    else
      var n := |times| - 1;
      Intervals(times[..n]) + [times[n] - times[n - 1]]
  }

  function Sum(s: seq<int>): int
    decreases |s|
  {
    if |s| == 0 then 0 else Sum(s[..|s| - 1]) + s[|s| - 1]
  }

  /** `sum(gaps[outcomes[:-1] == v])`: the gaps whose earlier sample had
      outcome `v`, added up. */
  function SumWhere(gaps: seq<int>, outcomes: seq<int>, v: int): int
    requires |gaps| <= |outcomes|
    decreases |gaps|
  {
    if |gaps| == 0 then 0
    else
      var n := |gaps| - 1;
      SumWhere(gaps[..n], outcomes, v) + (if outcomes[n] == v then gaps[n] else 0)
  }

  function Uptime(times: seq<int>, outcomes: seq<int>): int
    requires |times| == |outcomes|
  {
    SumWhere(Intervals(times), outcomes, 1)
  }

  function Downtime(times: seq<int>, outcomes: seq<int>): int
    requires |times| == |outcomes|
  {
    SumWhere(Intervals(times), outcomes, 0)
  }

  predicate Binary(outcomes: seq<int>)
  {
    forall i :: 0 <= i < |outcomes| ==> outcomes[i] == 0 || outcomes[i] == 1
  }

  predicate Nondecreasing(times: seq<int>)
  {
    forall i :: 0 < i < |times| ==> times[i - 1] <= times[i]
  }

  /** The gaps add up to the time from the first sample to the last. */
  lemma {:induction false} IntervalsTelescope(times: seq<int>)
    requires |times| >= 1
    ensures Sum(Intervals(times)) == times[|times| - 1] - times[0]
    decreases |times|
  {
    if |times| >= 2 {
      var n := |times| - 1;
      IntervalsTelescope(times[..n]);
      var gaps, shorter := Intervals(times), Intervals(times[..n]);
      assert |gaps[..n - 1]| == |shorter|;
      forall i | 0 <= i < n - 1 ensures gaps[..n - 1][i] == shorter[i] {
        assert times[..n][i] == times[i] && times[..n][i + 1] == times[i + 1];
      }
      assert gaps[..n - 1] == shorter;
      assert Sum(gaps) == Sum(shorter) + (times[n] - times[n - 1]);
    }
  }

  /** With outcomes 0 and 1 only, every gap is charged to exactly one side. */
  lemma {:induction false} SumWhereSplits(gaps: seq<int>, outcomes: seq<int>)
    requires |gaps| <= |outcomes| && Binary(outcomes)
    ensures SumWhere(gaps, outcomes, 1) + SumWhere(gaps, outcomes, 0) == Sum(gaps)
    decreases |gaps|
  {
    if |gaps| > 0 {
      SumWhereSplits(gaps[..|gaps| - 1], outcomes);
    }
  }

  /** Uptime and downtime together cover the whole observed span. */
  lemma UptimeDowntimePartition(times: seq<int>, outcomes: seq<int>)
    requires |times| == |outcomes| >= 1 && Binary(outcomes)
    ensures Uptime(times, outcomes) + Downtime(times, outcomes) == times[|times| - 1] - times[0]
  {
    SumWhereSplits(Intervals(times), outcomes);
    IntervalsTelescope(times);
  }

  lemma {:induction false} SumWhereNonNegative(gaps: seq<int>, outcomes: seq<int>, v: int)
    requires |gaps| <= |outcomes|
    requires forall i :: 0 <= i < |gaps| ==> gaps[i] >= 0
    ensures SumWhere(gaps, outcomes, v) >= 0
    decreases |gaps|
  {
    if |gaps| > 0 {
      SumWhereNonNegative(gaps[..|gaps| - 1], outcomes, v);
    }
  }

  /** With timestamps in order, neither total is negative. */
  lemma TotalsNonNegative(times: seq<int>, outcomes: seq<int>)
    requires |times| == |outcomes| && Nondecreasing(times)
    ensures Uptime(times, outcomes) >= 0 && Downtime(times, outcomes) >= 0
  {
    var gaps := Intervals(times);
    assert forall i :: 0 <= i < |gaps| ==> gaps[i] >= 0 by {
      forall i | 0 <= i < |gaps| ensures gaps[i] >= 0 {
        assert times[i] <= times[i + 1];
      }
    }
    SumWhereNonNegative(gaps, outcomes, 1);
    SumWhereNonNegative(gaps, outcomes, 0);
  }

  /** Changing the outcome of sample `k` moves its own gap, and nothing else,
      between the two sums. */
  lemma {:induction false} SumWhereUpdate(gaps: seq<int>, outcomes: seq<int>, v: int, k: nat, x: int)
    requires |gaps| <= |outcomes| && k < |outcomes|
    ensures SumWhere(gaps, outcomes[k := x], v)
      == SumWhere(gaps, outcomes, v)
        - (if k < |gaps| && outcomes[k] == v then gaps[k] else 0)
        + (if k < |gaps| && x == v then gaps[k] else 0)
    decreases |gaps|
  {
    if |gaps| > 0 {
      SumWhereUpdate(gaps[..|gaps| - 1], outcomes, v, k, x);
    }
  }

  /** Gap `k` counts towards uptime exactly when sample `k` succeeded and
      towards downtime exactly when it failed: marking sample `k` up instead
      of down moves that gap from downtime to uptime. */
  lemma IntervalChargedToEarlierSample(times: seq<int>, outcomes: seq<int>, k: nat)
    requires |times| == |outcomes| && k + 1 < |times|
    ensures Uptime(times, outcomes[k := 1]) == Uptime(times, outcomes[k := 0]) + (times[k + 1] - times[k])
    ensures Downtime(times, outcomes[k := 0]) == Downtime(times, outcomes[k := 1]) + (times[k + 1] - times[k])
  {
    var gaps := Intervals(times);
    SumWhereUpdate(gaps, outcomes, 1, k, 1);
    SumWhereUpdate(gaps, outcomes, 1, k, 0);
    SumWhereUpdate(gaps, outcomes, 0, k, 1);
    SumWhereUpdate(gaps, outcomes, 0, k, 0);
  }

  /** The outcome of the last sample is never charged: no gap follows it. */
  lemma LastSampleNotCharged(times: seq<int>, outcomes: seq<int>, x: int)
    requires |times| == |outcomes| >= 1
    ensures Uptime(times, outcomes[|outcomes| - 1 := x]) == Uptime(times, outcomes)
    ensures Downtime(times, outcomes[|outcomes| - 1 := x]) == Downtime(times, outcomes)
  {
    var gaps := Intervals(times);
    SumWhereUpdate(gaps, outcomes, 1, |outcomes| - 1, x);
    SumWhereUpdate(gaps, outcomes, 0, |outcomes| - 1, x);
  }
}
