/**
 * The sampler of the CPU window (`CPUFrame.update`): from two consecutive readings of the
 * aggregate CPU line it derives the busy share of the interval as a percentage, stores it
 * in the gauge and keeps the new idle and total counters for the next poll.
 * Arithmetic is exact (`real`), where the program uses double-precision floats.
 */
module Sampler {
  import opened Errors
  import opened ProcStat
  import Gauge

  /** Index of the idle bucket among the counters (user, nice, system, idle, ...). */
  const IdleField := 3

  /** The total is taken over the first seven buckets (user .. softirq). */
  const SummedFields := 7

  function Sum(s: seq<int>): int {
    if s == [] then 0 else s[0] + Sum(s[1..])
  }

  /** `sum(cpu[:7])`: a slice past the end stops at the end. */
  function Total(counters: seq<int>): int {
    Sum(counters[..if |counters| < SummedFields then |counters| else SummedFields])
  }

  predicate NonNegative(s: seq<int>) {
    forall i | 0 <= i < |s| :: s[i] >= 0
  }

  /** Every counter of `after` is at least its counterpart in `before`. */
  predicate Grown(before: seq<int>, after: seq<int>) {
    |before| == |after| && forall i | 0 <= i < |before| :: before[i] <= after[i]
  }

  /**
   * `(1000.*(DIFF_TOTAL-DIFF_IDLE)/DIFF_TOTAL+5)/10.`: the busy share of the interval in
   * percent, plus one half so that truncating it rounds to the nearest whole percent.
   */
  function Usage(diffTotal: int, diffIdle: int): (usage: real)
    requires diffTotal != 0
    ensures usage == BusyPercent(diffTotal, diffIdle) + 0.5
  {
    var busy := (diffTotal - diffIdle) as real;
    var total := diffTotal as real;
    ScaledQuotient(1000.0, busy, total);
    assert (1000.0 * busy / total + 5.0) / 10.0 == 100.0 * (busy / total) + 0.5;
    (1000.0 * (diffTotal - diffIdle) as real / diffTotal as real + 5.0) / 10.0
  }

  lemma ScaledQuotient(c: real, x: real, y: real)
    requires y != 0.0
    ensures (c * x) / y == c * (x / y)
  {
  }

  /** The share of the interval that was not idle, in percent. */
  function BusyPercent(diffTotal: int, diffIdle: int): real
    requires diffTotal != 0
  {
    100.0 * ((diffTotal - diffIdle) as real / diffTotal as real)
  }

  /** `int(x)` on a float: truncation toward zero. */
  function Truncate(x: real): (n: int)
    ensures 0.0 <= x ==> n as real <= x < n as real + 1.0
    ensures x < 0.0 ==> n as real - 1.0 < x <= n as real
  {
    if x >= 0.0 then x.Floor else -((-x).Floor)
  }

  /** What one successful poll computes: the usage, the load stored in the gauge, and the new counters. */
  datatype Reading = Reading(usage: real, load: int, total: int, idle: int)

  /**
   * The arithmetic of one poll against the previous total and idle counters: it raises
   * IndexError when there is no idle field and ZeroDivisionError when the total did not move.
   */
  function Measure(prevTotal: int, prevIdle: int, counters: seq<int>): (r: Result<Reading>)
    ensures r.Success? <==> |counters| > IdleField && Total(counters) != prevTotal
    ensures |counters| <= IdleField ==> r == Failure(TooFewCounters(|counters|))
    ensures |counters| > IdleField && Total(counters) == prevTotal ==> r == Failure(ZeroDivision)
    ensures r.Success? ==> r.value.total == Total(counters) && r.value.idle == counters[IdleField]
    ensures r.Success? ==>
      r.value.usage == BusyPercent(r.value.total - prevTotal, r.value.idle - prevIdle) + 0.5
    ensures r.Success? ==> r.value.load == Truncate(r.value.usage)
  {
    if |counters| <= IdleField then Failure(TooFewCounters(|counters|))
    else
      var idle := counters[IdleField];
      var total := Total(counters);
      var diffIdle := idle - prevIdle;
      var diffTotal := total - prevTotal;
      if diffTotal == 0 then Failure(ZeroDivision)
      else
        var usage := Usage(diffTotal, diffIdle);
        Success(Reading(usage, Truncate(usage), total, idle))
  }

  /** One whole poll: read the aggregate CPU line of the statistics text, then measure. */
  function Poll(prevTotal: int, prevIdle: int, stat: string): Result<Reading> {
    match GetCpuInfo(stat, AggregateCpu)
    case Failure(e) => Failure(e)
    case Success(counters) => Measure(prevTotal, prevIdle, counters)
  }

  // ---------------------------------------------------------------------------
  // Properties of the counters
  // ---------------------------------------------------------------------------

  lemma {:induction false} SumAtLeastElement(s: seq<int>, k: nat)
    requires NonNegative(s) && k < |s|
    ensures Sum(s) >= s[k]
  {
    if k == 0 {
      SumNonNegative(s[1..]);
    } else {
      SumAtLeastElement(s[1..], k - 1);
    }
  }

  lemma {:induction false} SumNonNegative(s: seq<int>)
    requires NonNegative(s)
    ensures Sum(s) >= 0
  {
    if s != [] {
      SumNonNegative(s[1..]);
    }
  }

  /** With non-negative counters the total is never below the idle counter. */
  lemma TotalAtLeastIdle(counters: seq<int>)
    requires |counters| > IdleField && NonNegative(counters)
    ensures Total(counters) >= counters[IdleField]
  {
    var n := if |counters| < SummedFields then |counters| else SummedFields;
    SumAtLeastElement(counters[..n], IdleField);
  }

  /** When every counter grows, the total grows by at least the growth of any one counter. */
  lemma {:induction false} SumGrowth(before: seq<int>, after: seq<int>, k: nat)
    requires Grown(before, after) && k < |before|
    ensures Sum(after) - Sum(before) >= after[k] - before[k] >= 0
  {
    if k == 0 {
      SumGrowthNonNegative(before[1..], after[1..]);
    } else {
      SumGrowth(before[1..], after[1..], k - 1);
    }
  }

  lemma {:induction false} SumGrowthNonNegative(before: seq<int>, after: seq<int>)
    requires Grown(before, after)
    ensures Sum(after) >= Sum(before)
  {
    if before != [] {
      SumGrowthNonNegative(before[1..], after[1..]);
    }
  }

  /** Between two readings whose counters only grew, the idle delta lies between 0 and the total delta. */
  lemma IdleDeltaWithinTotalDelta(before: seq<int>, after: seq<int>)
    requires Grown(before, after) && |before| > IdleField
    ensures 0 <= after[IdleField] - before[IdleField] <= Total(after) - Total(before)
  {
    var n := if |before| < SummedFields then |before| else SummedFields;
    SumGrowth(before[..n], after[..n], IdleField);
  }

  // ---------------------------------------------------------------------------
  // Properties of the usage arithmetic
  // ---------------------------------------------------------------------------

  lemma BusyPercentBounds(diffTotal: int, diffIdle: int)
    requires diffTotal != 0 && 0 <= diffIdle <= diffTotal
    ensures 0.0 <= BusyPercent(diffTotal, diffIdle) <= 100.0
  {
  }

  /** For an interval whose idle time is within its total, the usage lies in [0.5, 100.5]. */
  lemma UsageBounds(diffTotal: int, diffIdle: int)
    requires diffTotal != 0 && 0 <= diffIdle <= diffTotal
    ensures 0.5 <= Usage(diffTotal, diffIdle) <= 100.5
  {
  }

  /** The stored load is the busy percentage rounded to the nearest whole percent, halves up. */
  lemma LoadRoundsBusyPercent(diffTotal: int, diffIdle: int)
    requires diffTotal != 0 && 0 <= diffIdle <= diffTotal
    ensures 0 <= Truncate(Usage(diffTotal, diffIdle)) <= 100
    ensures Truncate(Usage(diffTotal, diffIdle)) as real - 0.5 <= BusyPercent(diffTotal, diffIdle)
    ensures BusyPercent(diffTotal, diffIdle) < Truncate(Usage(diffTotal, diffIdle)) as real + 0.5
  {
    UsageBounds(diffTotal, diffIdle);
  }

  /** A wholly idle interval reads 0.5 and stores a load of 0. */
  lemma IdleIntervalReadsZero(diffTotal: int)
    requires diffTotal != 0
    ensures Usage(diffTotal, diffTotal) == 0.5 && Truncate(Usage(diffTotal, diffTotal)) == 0
  {
  }

  /** A wholly busy interval reads 100.5 and stores a load of 100. */
  lemma BusyIntervalReadsHundred(diffTotal: int)
    requires diffTotal != 0
    ensures Usage(diffTotal, 0) == 100.5 && Truncate(Usage(diffTotal, 0)) == 100
  {
  }

  /** The first poll, against totals of zero, divides by zero only when the first seven counters sum to zero. */
  lemma FirstPollDividesByZeroIffZeroTotal(counters: seq<int>)
    requires |counters| > IdleField
    ensures Measure(0, 0, counters) == Failure(ZeroDivision) <==> Total(counters) == 0
  {
  }

  /**
   * Two polls of counters that only grew, with some time passed: the second succeeds, its
   * usage lies in [0.5, 100.5] and the load it stores in [0, 100].
   */
  lemma SteadyPollInRange(before: seq<int>, after: seq<int>)
    requires Grown(before, after) && |before| > IdleField
    requires Total(after) != Total(before)
    ensures Measure(Total(before), before[IdleField], after).Success?
    ensures 0.5 <= Measure(Total(before), before[IdleField], after).value.usage <= 100.5
    ensures 0 <= Measure(Total(before), before[IdleField], after).value.load <= 100
  {
    IdleDeltaWithinTotalDelta(before, after);
    var diffTotal := Total(after) - Total(before);
    var diffIdle := after[IdleField] - before[IdleField];
    UsageBounds(diffTotal, diffIdle);
    LoadRoundsBusyPercent(diffTotal, diffIdle);
  }

  /** The worked readings: an idle interval of 100 ticks, then a half-busy one of 200. */
  lemma MeasureExamples()
    ensures Measure(1000, 800, [120, 0, 80, 900, 0, 0, 0]) == Success(Reading(0.5, 0, 1100, 900))
    ensures Measure(1000, 800, [220, 0, 80, 900, 0, 0, 0]) == Success(Reading(50.5, 50, 1200, 900))
  {
    var idle := [120, 0, 80, 900, 0, 0, 0];
    var busy := [220, 0, 80, 900, 0, 0, 0];
    assert idle[..7] == idle && busy[..7] == busy;
    assert Total([120, 0, 80, 900, 0, 0, 0]) == 1100;
    assert Total([220, 0, 80, 900, 0, 0, 0]) == 1200;
  }

  /** An idle interval leaves only the bottom bar lit; a busy one lights every bar. */
  lemma GaugeAtTheExtremes(diffTotal: int)
    requires diffTotal != 0
    ensures Gauge.LitBars(Gauge.Level(Truncate(Usage(diffTotal, diffTotal)))) == {Gauge.BarCount}
    ensures Gauge.LitBars(Gauge.Level(Truncate(Usage(diffTotal, 0)))) == Gauge.Range(1, Gauge.BarCount)
  {
    IdleIntervalReadsZero(diffTotal);
    BusyIntervalReadsHundred(diffTotal);
    Gauge.LowLoadLightsBottomBar(0);
    Gauge.HighLoadLightsEveryBar(100);
  }

  // ---------------------------------------------------------------------------
  // The window's sampling state
  // ---------------------------------------------------------------------------

  class CpuFrame {
    /** The total and idle counters of the previous successful poll (`PREV_TOTAL`, `PREV_IDLE`). */
    var prevTotal: int
    var prevIdle: int
    /** The gauge that shows the load. */
    const cpu: Gauge.CpuWidget

    constructor ()
      ensures prevTotal == 0 && prevIdle == 0
      ensures fresh(cpu) && cpu.load == 0
    {
      cpu := new Gauge.CpuWidget();
      prevTotal := 0;
      prevIdle := 0;
    }

    /**
     * One timer tick on the statistics text `stat`. On success the gauge holds the new load
     * and the next poll measures against this poll's counters; when the poll raises, nothing
     * changes, and the program's re-arming of the timer is not reached.
     */
    method Update(stat: string) returns (outcome: Outcome)
      modifies this, cpu
      ensures Poll(old(prevTotal), old(prevIdle), stat).Success? ==>
        var reading := Poll(old(prevTotal), old(prevIdle), stat).value;
        outcome == Pass && prevTotal == reading.total && prevIdle == reading.idle && cpu.load == reading.load
      ensures Poll(old(prevTotal), old(prevIdle), stat).Failure? ==>
        outcome == Fail(Poll(old(prevTotal), old(prevIdle), stat).error) &&
        prevTotal == old(prevTotal) && prevIdle == old(prevIdle) && cpu.load == old(cpu.load)
    {
      var info := GetCpuInfo(stat, AggregateCpu);
      if info.Failure? {
        return Fail(info.error);
      }
      var counters := info.value;
      ghost var expected := Measure(prevTotal, prevIdle, counters);
      assert Poll(prevTotal, prevIdle, stat) == expected;
      if |counters| <= IdleField {
        return Fail(TooFewCounters(|counters|));
      }
      var idle := counters[IdleField];
      var total := Total(counters);
      var diffIdle := idle - prevIdle;
      var diffTotal := total - prevTotal;
      if diffTotal == 0 {
        return Fail(ZeroDivision);
      }
      var usage := Usage(diffTotal, diffIdle);
      cpu.SetLoad(Truncate(usage));
      var shown := cpu.OnPaint();
      prevTotal := total;
      prevIdle := idle;
      outcome := Pass;
    }
  }

  /** Polling a file whose only line is the aggregate line measures exactly its counters. */
  lemma PollAggregateFile(prevTotal: int, prevIdle: int, counters: seq<int>)
    ensures Poll(prevTotal, prevIdle, AggregateFile(counters)) == Measure(prevTotal, prevIdle, counters)
  {
    ReadAggregateFile(counters);
  }

  /** Three polls in a row: a new window's first, one against the counters it kept, and one with nothing moved. */
  lemma MeasureSequence()
    ensures Measure(0, 0, [1, 0, 1, 8, 0, 0, 0]) == Success(Reading(20.5, 20, 10, 8))
    ensures Measure(10, 8, [3, 0, 3, 12, 0, 0, 0]) == Success(Reading(50.5, 50, 18, 12))
    ensures Measure(18, 12, [3, 0, 3, 12, 0, 0, 0]) == Failure(ZeroDivision)
  {
    var first := [1, 0, 1, 8, 0, 0, 0];
    var second := [3, 0, 3, 12, 0, 0, 0];
    assert first[..SummedFields] == first && second[..SummedFields] == second;
    assert Usage(10, 8) == 20.5;
    assert Usage(8, 4) == 50.5;
  }

  /**
   * A new window polled three times: first against its zero counters, then against the
   * counters the first poll kept, then once more with nothing moved.
   */
  method PollingScenario()
  {
    var frame := new CpuFrame();
    var first, second := [1, 0, 1, 8, 0, 0, 0], [3, 0, 3, 12, 0, 0, 0];
    MeasureSequence();
    PollAggregateFile(0, 0, first);
    PollAggregateFile(10, 8, second);
    PollAggregateFile(18, 12, second);

    var outcome := frame.Update(AggregateFile(first));
    assert outcome == Pass && frame.prevTotal == 10 && frame.prevIdle == 8 && frame.cpu.load == 20;

    outcome := frame.Update(AggregateFile(second));
    assert outcome == Pass && frame.prevTotal == 18 && frame.prevIdle == 12 && frame.cpu.load == 50;

    outcome := frame.Update(AggregateFile(second));
    assert outcome == Fail(ZeroDivision) && frame.prevTotal == 18 && frame.cpu.load == 50;
  }
}
