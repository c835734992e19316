/**
 * The two closed strategy enums of the trend-chart renderer
 * (CSVBasedTrendChartWidgetRenderer.Scale and .Aggregation): truncating an
 * instant to the start of its bucket, and combining a bucket's stored value
 * with an incoming one.
 */
module Strategies {
  import opened Utils
  import opened JavaInt
  import opened Calendar

  datatype Scale = Day | Week | Month | Year

  /** Scale.name(): the constant names users type into the configuration. */
  function ScaleName(s: Scale): string {
    match s
    case Day => "day"
    case Week => "week"
    case Month => "month"
    case Year => "year"
  }

  /** Scale.valueOf: the constant with exactly this name, or IllegalArgumentException. */
  function ParseScale(name: string): (r: Result<Scale, Exception>)
    ensures r.Success? ==> ScaleName(r.value) == name
    ensures r.Failure? ==> r.error == IllegalArgument(name) && forall s: Scale :: ScaleName(s) != name
  {
    if name == "day" then Success(Day)
    else if name == "week" then Success(Week)
    else if name == "month" then Success(Month)
    else if name == "year" then Success(Year)
    else Failure(IllegalArgument(name))
  }

  lemma ParseScaleName(s: Scale)
    ensures ParseScale(ScaleName(s)) == Success(s)
  {
  }

  /**
   * Scale.scaleDate: set the time of day to midnight, then move to the first
   * day of the week (weeks starting on firstDayOfWeek), of the month or of
   * the year; `day` changes nothing more.
   */
  function ScaleDate(scale: Scale, t: int, firstDayOfWeek: Weekday): (r: int)
    ensures r % DayMs == 0
    ensures r <= t
  {
    var d := DayOf(t);
    var first := match scale
      case Day => d
      case Week => FirstOfWeek(d, firstDayOfWeek)
      case Month => FirstOfMonth(d)
      case Year => FirstOfYear(d);
    FirstOfWeekIsStart(d, firstDayOfWeek);
    FirstOfMonthIsStart(d);
    FirstOfYearIsStart(d);
    StartOfDay(first)
  }

  /** The bucket key is the midnight that starts the day, week, month or year containing t. */
  lemma {:induction false} ScaleDateIsBucketStart(scale: Scale, t: int, firstDayOfWeek: Weekday)
    ensures var b := DayOf(ScaleDate(scale, t, firstDayOfWeek));
      match scale
      case Day => b == DayOf(t)
      case Week => DayOfWeek(b) == firstDayOfWeek && DayOf(t) - 6 <= b <= DayOf(t)
      case Month => DayOfMonth(b) == 1 && YearOf(b) == YearOf(DayOf(t)) && MonthOf(b) == MonthOf(DayOf(t))
      case Year => DayOfYear(b) == 1 && YearOf(b) == YearOf(DayOf(t))
  {
    var d := DayOf(t);
    FirstOfWeekIsStart(d, firstDayOfWeek);
    FirstOfMonthIsStart(d);
    FirstOfYearIsStart(d);
  }

  /** Scaling a bucket key again leaves it where it is. */
  lemma {:induction false} ScaleDateIdempotent(scale: Scale, t: int, firstDayOfWeek: Weekday)
    ensures ScaleDate(scale, ScaleDate(scale, t, firstDayOfWeek), firstDayOfWeek) == ScaleDate(scale, t, firstDayOfWeek)
  {
    var d := DayOf(t);
    FirstOfWeekIsStart(d, firstDayOfWeek);
    FirstOfMonthIsStart(d);
    FirstOfYearIsStart(d);
    var b := DayOf(ScaleDate(scale, t, firstDayOfWeek));
    match scale
    case Day =>
    case Week =>
    case Month =>
      FirstOfMonthIsStart(b);
      assert FirstOfMonth(b) == b;
    case Year =>
      FirstOfYearIsStart(b);
      assert FirstOfYear(b) == b;
  }

  /** Whatever the locale's first day of week, two instants share a month bucket exactly when they lie in the same year and month. */
  lemma {:induction false} MonthBucketsAreMonths(t: int, u: int, firstDayOfWeek: Weekday)
    ensures ScaleDate(Month, t, firstDayOfWeek) == ScaleDate(Month, u, firstDayOfWeek) <==>
            YearOf(DayOf(t)) == YearOf(DayOf(u)) && MonthOf(DayOf(t)) == MonthOf(DayOf(u))
  {
    ScaleDateIsBucketStart(Month, t, firstDayOfWeek);
    ScaleDateIsBucketStart(Month, u, firstDayOfWeek);
  }

  datatype Aggregation = Sum | First | Last | Min | Max

  /** Aggregation.name() */
  function AggregationName(a: Aggregation): string {
    match a
    case Sum => "sum"
    case First => "first"
    case Last => "last"
    case Min => "min"
    case Max => "max"
  }

  /** Aggregation.valueOf: the constant with exactly this name, or IllegalArgumentException. */
  function ParseAggregation(name: string): (r: Result<Aggregation, Exception>)
    ensures r.Success? ==> AggregationName(r.value) == name
    ensures r.Failure? ==> r.error == IllegalArgument(name) && forall a: Aggregation :: AggregationName(a) != name
  {
    if name == "sum" then Success(Sum)
    else if name == "first" then Success(First)
    else if name == "last" then Success(Last)
    else if name == "min" then Success(Min)
    else if name == "max" then Success(Max)
    else Failure(IllegalArgument(name))
  }

  lemma ParseAggregationName(a: Aggregation)
    ensures ParseAggregation(AggregationName(a)) == Success(a)
  {
  }

  /**
   * Aggregation.compute: with nothing stored every policy keeps the incoming
   * value; otherwise sum adds (with int wrap-around), first keeps the stored
   * value, last the incoming one, min and max the smaller and the larger.
   */
  function Compute(agg: Aggregation, stored: Option<Int32>, current: Int32): (r: Int32)
    ensures stored.None? ==> r == current
    ensures stored.Some? && agg == Sum ==> (stored.value + current - r) % Modulus == 0
    ensures stored.Some? && agg == First ==> r == stored.value
    ensures agg == Last ==> r == current
    ensures stored.Some? && agg == Min ==> r <= stored.value && r <= current && (r == stored.value || r == current)
    ensures stored.Some? && agg == Max ==> r >= stored.value && r >= current && (r == stored.value || r == current)
  {
    match agg
    case Sum => if stored.None? then current else Add(stored.value, current)
    case First => if stored.None? then current else stored.value
    case Last => current
    case Min => if stored.None? then current else if stored.value <= current then stored.value else current
    case Max => if stored.None? then current else if stored.value >= current then stored.value else current
  }

  /** The value a bucket ends up with: compute folded left over its values in arrival order, starting from "nothing stored". */
  function Aggregate(agg: Aggregation, vs: seq<Int32>): Option<Int32>
  {
    if vs == [] then None
    else Some(Compute(agg, Aggregate(agg, vs[..|vs| - 1]), vs[|vs| - 1]))
  }

  function SeqSum(vs: seq<int>): int {
    if vs == [] then 0 else SeqSum(vs[..|vs| - 1]) + vs[|vs| - 1]
  }

  /** sum: the (wrapped) total of the bucket. */
  lemma {:induction false} AggregateSum(vs: seq<Int32>)
    requires vs != []
    ensures Aggregate(Sum, vs) == Some(Wrap(SeqSum(vs)))
  {
    var init := vs[..|vs| - 1];
    var last := vs[|vs| - 1];
    if init == [] {
      assert SeqSum(vs) == SeqSum(init) + last;
    } else {
      AggregateSum(init);
      WrapAdd(SeqSum(init), last);
    }
  }

  /** first: the earliest arrival. */
  lemma {:induction false} AggregateFirst(vs: seq<Int32>)
    requires vs != []
    ensures Aggregate(First, vs) == Some(vs[0])
  {
    if |vs| > 1 {
      AggregateFirst(vs[..|vs| - 1]);
    }
  }

  /** last: the latest arrival. */
  lemma {:induction false} AggregateLast(vs: seq<Int32>)
    requires vs != []
    ensures Aggregate(Last, vs) == Some(vs[|vs| - 1])
  {
  }

  /** min: the least value of the bucket. */
  lemma {:induction false} AggregateMin(vs: seq<Int32>)
    requires vs != []
    ensures Aggregate(Min, vs).Some?
    ensures Aggregate(Min, vs).value in vs
    ensures forall i :: 0 <= i < |vs| ==> Aggregate(Min, vs).value <= vs[i]
  {
    var init := vs[..|vs| - 1];
    if init != [] {
      AggregateMin(init);
      assert forall i :: 0 <= i < |init| ==> init[i] == vs[i];
    }
  }

  /** max: the greatest value of the bucket. */
  lemma {:induction false} AggregateMax(vs: seq<Int32>)
    requires vs != []
    ensures Aggregate(Max, vs).Some?
    ensures Aggregate(Max, vs).value in vs
    ensures forall i :: 0 <= i < |vs| ==> Aggregate(Max, vs).value >= vs[i]
  {
    var init := vs[..|vs| - 1];
    if init != [] {
      AggregateMax(init);
      assert forall i :: 0 <= i < |init| ==> init[i] == vs[i];
    }
  }

  lemma {:induction false} SeqSumAppend(a: seq<int>, b: seq<int>)
    ensures SeqSum(a + b) == SeqSum(a) + SeqSum(b)
    decreases |b|
  {
    if b != [] {
      assert (a + b)[..|a + b| - 1] == a + b[..|b| - 1];
      SeqSumAppend(a, b[..|b| - 1]);
    } else {
      assert a + b == a;
    }
  }

  /** A total does not depend on the order of its terms. */
  lemma {:induction false} SeqSumPermutation(a: seq<int>, b: seq<int>)
    requires multiset(a) == multiset(b)
    ensures SeqSum(a) == SeqSum(b)
    decreases |a|
  {
    if a != [] {
      var x := a[|a| - 1];
      var init := a[..|a| - 1];
      assert a == init + [x];
      assert x in multiset(b);
      var k :| 0 <= k < |b| && b[k] == x;
      var rest := b[..k] + b[k + 1..];
      assert b == b[..k] + [x] + b[k + 1..];
      assert multiset(a) == multiset(init) + multiset{x};
      assert multiset(b) == multiset(b[..k]) + multiset{x} + multiset(b[k + 1..]);
      assert multiset(rest) == multiset(b[..k]) + multiset(b[k + 1..]);
      assert multiset(init) == multiset(a) - multiset{x};
      assert multiset(rest) == multiset(b) - multiset{x};
      SeqSumPermutation(init, rest);
      SeqSumAppend(b[..k] + [x], b[k + 1..]);
      SeqSumAppend(b[..k], [x]);
      SeqSumAppend(b[..k], b[k + 1..]);
      assert SeqSum([x]) == SeqSum([]) + x;
    } else {
      assert |b| == |multiset(b)| == 0;
    }
  }

  /** sum, min and max buckets do not depend on the order in which their values arrive. */
  lemma {:induction false} AggregateOrderFree(agg: Aggregation, vs: seq<Int32>, ws: seq<Int32>)
    requires agg == Sum || agg == Min || agg == Max
    requires multiset(vs) == multiset(ws)
    ensures Aggregate(agg, vs) == Aggregate(agg, ws)
  {
    assert |vs| == |multiset(vs)| == |multiset(ws)| == |ws|;
    if vs == [] {
    } else if agg == Sum {
      AggregateSum(vs);
      AggregateSum(ws);
      SeqSumPermutation(vs, ws);
    } else if agg == Min {
      AggregateMin(vs);
      AggregateMin(ws);
      var a, b := Aggregate(Min, vs).value, Aggregate(Min, ws).value;
      assert a in multiset(ws) && b in multiset(vs);
    } else {
      AggregateMax(vs);
      AggregateMax(ws);
      var a, b := Aggregate(Max, vs).value, Aggregate(Max, ws).value;
      assert a in multiset(ws) && b in multiset(vs);
    }
  }
}
