/**
 * The LED-bar gauge (`CPUWidget`): it holds the last load as an integer percentage and,
 * when painted, lights a run of its ten bars that grows from the bottom bar upward.
 * Bars are numbered 1 (top) to 10 (bottom), as the paint loop counts them.
 */
module Gauge {

  /** The number of bars in the gauge. */
  const BarCount := 10

  /**
   * The gauge level of a load: `Load / 10` with Python 2 integer division, which floors.
   * Dafny's `/` is Euclidean, which floors as well when the divisor is positive.
   */
  function Level(load: int): (level: int)
    ensures level * 10 <= load < level * 10 + 10
  {
    load / 10
  }

  /** The paint loop's test: bar `bar` is drawn dark when `10 - bar > level`, lit otherwise. */
  predicate IsLit(level: int, bar: int) {
    !(BarCount - bar > level)
  }

  /** The bars that one paint lights. */
  function LitBars(level: int): set<int> {
    set bar | 1 <= bar <= BarCount && IsLit(level, bar)
  }

  /**
   * The bound test of `Range`, written as a predicate so that the set comprehension has a
   * term for the verifier to trigger on; the bare comparisons are kept for finiteness.
   */
  predicate Within(i: int, lo: int, hi: int) {
    lo <= i <= hi
  }

  /** The bars numbered `lo` to `hi`. */
  function Range(lo: int, hi: int): set<int> {
    set i | lo <= i <= hi && Within(i, lo, hi)
  }

  function Clamp(x: int, lo: int, hi: int): int
    requires lo <= hi
  {
    if x < lo then lo else if x > hi then hi else x
  }

  lemma {:induction false} RangeSize(lo: int, hi: int)
    ensures |Range(lo, hi)| == if hi < lo then 0 else hi - lo + 1
    decreases hi - lo
  {
    if hi < lo {
      assert Range(lo, hi) == {};
    } else {
      assert Range(lo, hi) == Range(lo, hi - 1) + {hi};
      RangeSize(lo, hi - 1);
    }
  }

  /** The lit bars are the bottom bar and the bars just above it, up to bar `10 - level`. */
  lemma LitBarsAreBottomRun(level: int)
    ensures LitBars(level) == Range(if level >= BarCount - 1 then 1 else BarCount - level, BarCount)
  {
  }

  /** One paint lights `level + 1` bars, never fewer than none nor more than all ten. */
  lemma LitBarCount(level: int)
    ensures |LitBars(level)| == Clamp(level + 1, 0, BarCount)
  {
    LitBarsAreBottomRun(level);
    RangeSize(if level >= BarCount - 1 then 1 else BarCount - level, BarCount);
  }

  /** A lit bar has only lit bars below it. */
  lemma LitBarsContiguous(level: int, bar: int, below: int)
    requires bar in LitBars(level) && bar <= below <= BarCount
    ensures below in LitBars(level)
  {
  }

  /** A higher load never turns a lit bar off. */
  lemma LitBarsMonotone(load: int, higher: int)
    requires load <= higher
    ensures LitBars(Level(load)) <= LitBars(Level(higher))
  {
  }

  /** Any load below 10, zero included, still lights the bottom bar and only it. */
  lemma LowLoadLightsBottomBar(load: int)
    requires 0 <= load < 10
    ensures LitBars(Level(load)) == {BarCount}
  {
  }

  /** From a load of 90 upward every bar is lit. */
  lemma HighLoadLightsEveryBar(load: int)
    requires load >= 90
    ensures LitBars(Level(load)) == Range(1, BarCount)
  {
  }

  class CpuWidget {
    /** The load last stored with SetLoad, as a whole percentage. */
    var load: int

    constructor ()
      ensures load == 0
    {
      load := 0;
    }

    method SetLoad(newLoad: int)
      modifies this
      ensures load == newLoad
    {
      load := newLoad;
    }

    function GetLoad(): int
      reads this
    {
      load
    }

    /**
     * The bar states one paint draws, `lit[i - 1]` for bar `i`: the loop over bars 1..10
     * picks the dark or the lit brush for each bar in turn.
     */
    method OnPaint() returns (lit: seq<bool>)
      ensures |lit| == BarCount
      ensures forall bar | 1 <= bar <= BarCount :: lit[bar - 1] <==> bar in LitBars(Level(load))
    {
      var level := GetLoad() / 10;
      lit := [];
      for i := 1 to BarCount + 1
        invariant |lit| == i - 1
        invariant forall bar | 1 <= bar < i :: lit[bar - 1] <==> bar in LitBars(Level(load))
      {
        if BarCount - i > level {
          lit := lit + [false];
        } else {
          lit := lit + [true];
        }
      }
    }
  }
}
