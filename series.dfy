/**
 * One chart series of the trend-chart renderer: the dated values of a data
 * key (filterDataByKey), re-bucketed by the scale and folded with the
 * aggregation (scaleSerieRawData), and the points plotted from the buckets
 * with their running minimum (plotScaledData).
 */
module Series {
  import opened Utils
  import opened JavaInt
  import opened Ordered
  import opened Calendar
  import opened Strategies
  import opened LoadData

  /** Points (instant, value) in iteration order: a LinkedHashMap or TreeMap from dates to ints. */
  type Serie = seq<(int, Int32)>

  /** Strictly increasing instants: ascending, each instant once. */
  predicate Chronological(s: Serie) {
    forall i, j :: 0 <= i < j < |s| ==> s[i].0 < s[j].0
  }

  /** Some point of s is at instant d. */
  predicate HasPointAt(s: Serie, d: int) {
    exists i :: 0 <= i < |s| && s[i].0 == d
  }

  /** The values of `key` at the dates ds, in the order of ds. */
  function Select(data: DataMap, ds: seq<int>, key: string): Serie
    decreases |ds|
  {
    if ds == [] then []
    else
      var d := ds[|ds| - 1];
      Select(data, ds[..|ds| - 1], key) + if d in data && key in data[d] then [(d, data[d][key])] else []
  }

  /** The series of a data key: its values at every date holding it, in ascending date order. */
  function SeriesOf(data: DataMap, key: string): Serie {
    Select(data, Ascending(data.Keys), key)
  }

  /** One more date: the series grows by that date's value of the key, if it holds one. */
  lemma SelectStep(data: DataMap, ds: seq<int>, key: string, i: int)
    requires 0 <= i < |ds|
    ensures Select(data, ds[..i + 1], key) ==
            Select(data, ds[..i], key) + if ds[i] in data && key in data[ds[i]] then [(ds[i], data[ds[i]][key])] else []
  {
    assert ds[..i + 1][..i] == ds[..i];
  }

  /** Selecting along increasing dates gives increasing instants, each a date of ds holding the key, with its value. */
  lemma {:induction false} SelectSound(data: DataMap, ds: seq<int>, key: string)
    requires Increasing(ds)
    ensures var s := Select(data, ds, key);
            && Chronological(s)
            && forall i :: 0 <= i < |s| ==> s[i].0 in ds && s[i].0 in data && key in data[s[i].0] && s[i].1 == data[s[i].0][key]
    decreases |ds|
  {
    if ds != [] {
      var init := ds[..|ds| - 1];
      var d := ds[|ds| - 1];
      SelectSound(data, init, key);
      var s0 := Select(data, init, key);
      forall i | 0 <= i < |s0|
        ensures s0[i].0 < d && s0[i].0 in ds
      {
        var k :| 0 <= k < |init| && init[k] == s0[i].0;
        assert ds[k] == init[k];
      }
    }
  }

  /** Selecting keeps every date of ds that holds the key. */
  lemma {:induction false} SelectComplete(data: DataMap, ds: seq<int>, key: string)
    ensures forall d :: d in ds && d in data && key in data[d] ==> HasPointAt(Select(data, ds, key), d)
    decreases |ds|
  {
    if ds != [] {
      var init := ds[..|ds| - 1];
      SelectComplete(data, init, key);
      var s0 := Select(data, init, key);
      var s := Select(data, ds, key);
      forall e | e in ds && e in data && key in data[e]
        ensures HasPointAt(s, e)
      {
        if e != ds[|ds| - 1] {
          var k :| 0 <= k < |ds| && ds[k] == e;
          assert init[k] == e;
          assert e in init;
          var i :| 0 <= i < |s0| && s0[i].0 == e;
          assert s[i] == s0[i];
        } else {
          assert s[|s| - 1].0 == e;
        }
      }
    }
  }

  /** filterDataByKey: walks the TreeMap in ascending date order and keeps the dates whose entry holds the key. */
  method FilterDataByKey(data: DataMap, key: string) returns (serie: Serie)
    ensures serie == SeriesOf(data, key)
    ensures Chronological(serie)
    ensures forall i :: 0 <= i < |serie| ==>
              serie[i].0 in data && key in data[serie[i].0] && serie[i].1 == data[serie[i].0][key]
    ensures forall d :: d in data && key in data[d] ==> HasPointAt(serie, d)
  {
    var ds := Ascending(data.Keys);
    serie := [];
    var i := 0;
    while i < |ds|
      invariant 0 <= i <= |ds|
      invariant serie == Select(data, ds[..i], key)
    {
      SelectStep(data, ds, key, i);
      var items := data[ds[i]];
      if key in items {
        serie := serie + [(ds[i], items[key])];
      }
      i := i + 1;
    }
    assert ds[..i] == ds;
    SelectSound(data, ds, key);
    SelectComplete(data, ds, key);
  }

  function Lookup(m: map<int, Int32>, k: int): Option<Int32> {
    if k in m then Some(m[k]) else None
  }

  /** The scale strategy's scaleDate as a function from instants to the start of their bucket. */
  function BucketOf(scale: Scale, firstDayOfWeek: Weekday): int -> int {
    t => ScaleDate(scale, t, firstDayOfWeek)
  }

  /** scaleSerieRawData: each point folded with compute into the TreeMap entry of its bucket. */
  function Bucketed(serie: Serie, bucket: int -> int, agg: Aggregation): map<int, Int32>
    decreases |serie|
  {
    if serie == [] then map[]
    else
      var m := Bucketed(serie[..|serie| - 1], bucket, agg);
      var b := bucket(serie[|serie| - 1].0);
      m[b := Compute(agg, Lookup(m, b), serie[|serie| - 1].1)]
  }

  /** One point more: its value folded into the entry of its bucket. */
  lemma BucketedStep(serie: Serie, bucket: int -> int, agg: Aggregation, i: int)
    requires 0 <= i < |serie|
    ensures var m := Bucketed(serie[..i], bucket, agg);
            var b := bucket(serie[i].0);
            Bucketed(serie[..i + 1], bucket, agg) == m[b := Compute(agg, Lookup(m, b), serie[i].1)]
  {
    assert serie[..i + 1][..i] == serie[..i];
  }

  /** scaleSerieRawData's loop. */
  method ScaleSerieRawData(serie: Serie, scale: Scale, agg: Aggregation, firstDayOfWeek: Weekday) returns (scaled: map<int, Int32>)
    ensures scaled == Bucketed(serie, BucketOf(scale, firstDayOfWeek), agg)
  {
    ghost var bucket := BucketOf(scale, firstDayOfWeek);
    scaled := map[];
    var i := 0;
    while i < |serie|
      invariant 0 <= i <= |serie|
      invariant scaled == Bucketed(serie[..i], bucket, agg)
    {
      var scaledDate := ScaleDate(scale, serie[i].0, firstDayOfWeek);
      assert scaledDate == bucket(serie[i].0);
      BucketedStep(serie, bucket, agg, i);
      var stored := Lookup(scaled, scaledDate);
      var computed := Compute(agg, stored, serie[i].1);
      scaled := scaled[scaledDate := computed];
      i := i + 1;
    }
    assert serie[..i] == serie;
  }

  /** Point i falls into the bucket starting at b. */
  predicate InBucket(serie: Serie, bucket: int -> int, b: int, i: int)
    requires 0 <= i < |serie|
  {
    bucket(serie[i].0) == b
  }

  /** The values of the points falling into bucket b, in series order. */
  function BucketValues(serie: Serie, bucket: int -> int, b: int): seq<Int32>
    decreases |serie|
  {
    if serie == [] then []
    else
      BucketValues(serie[..|serie| - 1], bucket, b) +
        if InBucket(serie, bucket, b, |serie| - 1) then [serie[|serie| - 1].1] else []
  }

  /** The buckets are exactly the buckets of the points. */
  lemma {:induction false} BucketedKeys(serie: Serie, bucket: int -> int, agg: Aggregation)
    ensures Bucketed(serie, bucket, agg).Keys == set i | 0 <= i < |serie| :: bucket(serie[i].0)
    decreases |serie|
  {
    if serie != [] {
      var init := serie[..|serie| - 1];
      var last := bucket(serie[|serie| - 1].0);
      BucketedKeys(init, bucket, agg);
      var all := set i | 0 <= i < |serie| :: bucket(serie[i].0);
      var before := set i | 0 <= i < |init| :: bucket(init[i].0);
      assert all == before + {last} by {
        forall x | x in all
          ensures x in before || x == last
        {
          var i :| 0 <= i < |serie| && x == bucket(serie[i].0);
          if i < |init| {
            assert init[i] == serie[i];
          }
        }
        forall x | x in before
          ensures x in all
        {
          var i :| 0 <= i < |init| && x == bucket(init[i].0);
          assert init[i] == serie[i];
        }
      }
    }
  }

  /** Every bucket holds compute folded over its values in series order: the aggregation of the bucket. */
  lemma {:induction false} BucketedAggregates(serie: Serie, bucket: int -> int, agg: Aggregation, b: int)
    ensures Lookup(Bucketed(serie, bucket, agg), b) == Aggregate(agg, BucketValues(serie, bucket, b))
    decreases |serie|
  {
    if serie != [] {
      var init := serie[..|serie| - 1];
      BucketedAggregates(init, bucket, agg, b);
      var vs := BucketValues(init, bucket, b);
      if InBucket(serie, bucket, b, |serie| - 1) {
        var v := serie[|serie| - 1].1;
        assert BucketValues(serie, bucket, b) == vs + [v];
        assert (vs + [v])[..|vs|] == vs;
      } else {
        assert BucketValues(serie, bucket, b) == vs;
      }
    }
  }

  /** sum buckets hold the (wrapped) total of their values, min and max buckets the least and the greatest value. */
  lemma ScaledSumMinMax(serie: Serie, bucket: int -> int, b: int)
    requires b in Bucketed(serie, bucket, Sum)
    ensures var vs := BucketValues(serie, bucket, b);
            && vs != []
            && Bucketed(serie, bucket, Sum)[b] == Wrap(SeqSum(vs))
            && b in Bucketed(serie, bucket, Min)
            && Bucketed(serie, bucket, Min)[b] in vs
            && (forall i :: 0 <= i < |vs| ==> Bucketed(serie, bucket, Min)[b] <= vs[i])
            && b in Bucketed(serie, bucket, Max)
            && Bucketed(serie, bucket, Max)[b] in vs
            && (forall i :: 0 <= i < |vs| ==> Bucketed(serie, bucket, Max)[b] >= vs[i])
  {
    var vs := BucketValues(serie, bucket, b);
    BucketedAggregates(serie, bucket, Sum, b);
    BucketedAggregates(serie, bucket, Min, b);
    BucketedAggregates(serie, bucket, Max, b);
    AggregateSum(vs);
    AggregateMin(vs);
    AggregateMax(vs);
  }

  /** Point i is the earliest point of bucket b. */
  predicate FirstOfBucket(serie: Serie, bucket: int -> int, b: int, i: int) {
    && 0 <= i < |serie| && InBucket(serie, bucket, b, i)
    && forall j :: 0 <= j < i ==> !InBucket(serie, bucket, b, j)
  }

  /** Point i is the latest point of bucket b. */
  predicate LastOfBucket(serie: Serie, bucket: int -> int, b: int, i: int) {
    && 0 <= i < |serie| && InBucket(serie, bucket, b, i)
    && forall j :: i < j < |serie| ==> !InBucket(serie, bucket, b, j)
  }

  /** The first value of a bucket comes from its earliest point. */
  lemma {:induction false} BucketValuesFirst(serie: Serie, bucket: int -> int, b: int)
    ensures var vs := BucketValues(serie, bucket, b);
            vs != [] ==> exists i :: FirstOfBucket(serie, bucket, b, i) && vs[0] == serie[i].1
    decreases |serie|
  {
    if serie != [] {
      var n := |serie|;
      var init := serie[..n - 1];
      BucketValuesFirst(init, bucket, b);
      var vs0 := BucketValues(init, bucket, b);
      if vs0 != [] {
        var i :| FirstOfBucket(init, bucket, b, i) && vs0[0] == init[i].1;
        assert init[i] == serie[i];
        forall j | 0 <= j < i
          ensures !InBucket(serie, bucket, b, j)
        {
          assert init[j] == serie[j];
          assert !InBucket(init, bucket, b, j);
        }
        assert FirstOfBucket(serie, bucket, b, i);
      } else if InBucket(serie, bucket, b, n - 1) {
        forall j | 0 <= j < n - 1
          ensures !InBucket(serie, bucket, b, j)
        {
          assert init[j] == serie[j];
          if InBucket(init, bucket, b, j) {
            BucketValuesHold(init, bucket, b, j);
          }
        }
        assert FirstOfBucket(serie, bucket, b, n - 1);
      }
    }
  }

  /** The last value of a bucket comes from its latest point. */
  lemma {:induction false} BucketValuesLast(serie: Serie, bucket: int -> int, b: int)
    ensures var vs := BucketValues(serie, bucket, b);
            vs != [] ==> exists i :: LastOfBucket(serie, bucket, b, i) && vs[|vs| - 1] == serie[i].1
    decreases |serie|
  {
    if serie != [] {
      var n := |serie|;
      var init := serie[..n - 1];
      if InBucket(serie, bucket, b, n - 1) {
        assert LastOfBucket(serie, bucket, b, n - 1);
      } else {
        BucketValuesLast(init, bucket, b);
        var vs0 := BucketValues(init, bucket, b);
        if vs0 != [] {
          var k :| LastOfBucket(init, bucket, b, k) && vs0[|vs0| - 1] == init[k].1;
          assert init[k] == serie[k];
          forall j | k < j < n
            ensures !InBucket(serie, bucket, b, j)
          {
            if j < n - 1 {
              assert init[j] == serie[j];
              assert !InBucket(init, bucket, b, j);
            }
          }
          assert LastOfBucket(serie, bucket, b, k);
        }
      }
    }
  }

  /** A point in the bucket contributes a value to it. */
  lemma {:induction false} BucketValuesHold(serie: Serie, bucket: int -> int, b: int, i: int)
    requires 0 <= i < |serie| && InBucket(serie, bucket, b, i)
    ensures BucketValues(serie, bucket, b) != []
    decreases |serie|
  {
    if i < |serie| - 1 {
      var init := serie[..|serie| - 1];
      assert init[i] == serie[i];
      BucketValuesHold(init, bucket, b, i);
    }
  }

  /** On a chronological series, `first` keeps the value of the earliest point of each bucket. */
  lemma ScaledFirst(serie: Serie, bucket: int -> int, b: int)
    requires Chronological(serie)
    requires b in Bucketed(serie, bucket, First)
    ensures exists i :: 0 <= i < |serie| && InBucket(serie, bucket, b, i) &&
              Bucketed(serie, bucket, First)[b] == serie[i].1 &&
              forall j :: 0 <= j < |serie| && InBucket(serie, bucket, b, j) ==> serie[i].0 <= serie[j].0
  {
    var vs := BucketValues(serie, bucket, b);
    BucketedAggregates(serie, bucket, First, b);
    AggregateFirst(vs);
    BucketValuesFirst(serie, bucket, b);
    var i :| FirstOfBucket(serie, bucket, b, i) && vs[0] == serie[i].1;
    forall j | 0 <= j < |serie| && InBucket(serie, bucket, b, j)
      ensures serie[i].0 <= serie[j].0
    {
    }
  }

  /** On a chronological series, `last` keeps the value of the latest point of each bucket. */
  lemma ScaledLast(serie: Serie, bucket: int -> int, b: int)
    requires Chronological(serie)
    requires b in Bucketed(serie, bucket, Last)
    ensures exists i :: 0 <= i < |serie| && InBucket(serie, bucket, b, i) &&
              Bucketed(serie, bucket, Last)[b] == serie[i].1 &&
              forall j :: 0 <= j < |serie| && InBucket(serie, bucket, b, j) ==> serie[i].0 >= serie[j].0
  {
    var vs := BucketValues(serie, bucket, b);
    BucketedAggregates(serie, bucket, Last, b);
    AggregateLast(vs);
    BucketValuesLast(serie, bucket, b);
    var k :| LastOfBucket(serie, bucket, b, k) && vs[|vs| - 1] == serie[k].1;
    forall j | 0 <= j < |serie| && InBucket(serie, bucket, b, j)
      ensures serie[k].0 >= serie[j].0
    {
    }
  }

  /** The points of the given keys of a map, in the order of the keys. */
  function PointsAt(scaled: map<int, Int32>, ks: seq<int>): (r: Serie)
    requires forall i :: 0 <= i < |ks| ==> ks[i] in scaled
    ensures |r| == |ks| && forall i :: 0 <= i < |ks| ==> r[i] == (ks[i], scaled[ks[i]])
    decreases |ks|
  {
    if ks == [] then []
    else PointsAt(scaled, ks[..|ks| - 1]) + [(ks[|ks| - 1], scaled[ks[|ks| - 1]])]
  }

  /** The points plotted from the scaled TreeMap: one per entry, in ascending date order. */
  function Points(scaled: map<int, Int32>): Serie {
    PointsAt(scaled, Ascending(scaled.Keys))
  }

  /** The plotted points are the entries of the scaled map, each once, in ascending date order. */
  lemma PointsAreEntries(scaled: map<int, Int32>)
    ensures var r := Points(scaled);
            && Chronological(r) && |r| == |scaled|
            && (forall i :: 0 <= i < |r| ==> r[i].0 in scaled && r[i].1 == scaled[r[i].0])
            && (forall k :: k in scaled ==> HasPointAt(r, k))
  {
    var ks := Ascending(scaled.Keys);
    var r := PointsAt(scaled, ks);
    assert |scaled.Keys| == |scaled|;
    assert Chronological(r) by {
      forall i, j | 0 <= i < j < |r|
        ensures r[i].0 < r[j].0
      {
        assert r[i].0 == ks[i] && r[j].0 == ks[j];
      }
    }
    assert forall i :: 0 <= i < |r| ==> r[i].0 in scaled && r[i].1 == scaled[r[i].0] by {
      forall i | 0 <= i < |r|
        ensures r[i].0 in scaled && r[i].1 == scaled[r[i].0]
      {
        assert r[i] == (ks[i], scaled[ks[i]]);
      }
    }
    forall k | k in scaled
      ensures HasPointAt(r, k)
    {
      assert k in ks;
      var i :| 0 <= i < |ks| && ks[i] == k;
      assert r[i].0 == k;
    }
  }

  /** Every plotted point carries the aggregate of the values that fall into its bucket, in series order. */
  lemma PlottedAggregates(serie: Serie, bucket: int -> int, agg: Aggregation)
    ensures var r := Points(Bucketed(serie, bucket, agg));
            forall i :: 0 <= i < |r| ==> Some(r[i].1) == Aggregate(agg, BucketValues(serie, bucket, r[i].0))
  {
    var scaled := Bucketed(serie, bucket, agg);
    var r := Points(scaled);
    PointsAreEntries(scaled);
    forall i | 0 <= i < |r|
      ensures Some(r[i].1) == Aggregate(agg, BucketValues(serie, bucket, r[i].0))
    {
      BucketedAggregates(serie, bucket, agg, r[i].0);
    }
  }

  /** Every date holding the key has the bucket it falls into plotted. */
  lemma PlottedBuckets(data: DataMap, key: string, scale: Scale, firstDayOfWeek: Weekday, agg: Aggregation)
    ensures var r := Points(Bucketed(SeriesOf(data, key), BucketOf(scale, firstDayOfWeek), agg));
            forall d :: d in data && key in data[d] ==> HasPointAt(r, ScaleDate(scale, d, firstDayOfWeek))
  {
    var serie := SeriesOf(data, key);
    var bucket := BucketOf(scale, firstDayOfWeek);
    var scaled := Bucketed(serie, bucket, agg);
    PointsAreEntries(scaled);
    BucketedKeys(serie, bucket, agg);
    SelectComplete(data, Ascending(data.Keys), key);
    forall d | d in data && key in data[d]
      ensures HasPointAt(Points(scaled), ScaleDate(scale, d, firstDayOfWeek))
    {
      assert d in Ascending(data.Keys);
      assert HasPointAt(serie, d);
      var i :| 0 <= i < |serie| && serie[i].0 == d;
      assert bucket(serie[i].0) in scaled;
    }
  }

  /** plotScaledData's running minimum: Integer.MAX_VALUE, lowered by every plotted value with Math.min. */
  function MinValue(points: Serie): (r: Int32)
    ensures forall i :: 0 <= i < |points| ==> r <= points[i].1
    ensures points == [] ==> r == MaxInt
    ensures points != [] ==> exists i :: 0 <= i < |points| && r == points[i].1
    decreases |points|
  {
    if points == [] then MaxInt
    else
      var m := MinValue(points[..|points| - 1]);
      var v := points[|points| - 1].1;
      if m <= v then m else v
  }

  /** One more point: the minimum is lowered to its value if that is smaller. */
  lemma MinValueStep(points: Serie, p: (int, Int32))
    ensures MinValue(points + [p]) == if MinValue(points) <= p.1 then MinValue(points) else p.1
  {
    assert (points + [p])[..|points|] == points;
  }

  /** One entry more: the next point of the plot, and the minimum updated by its value. */
  lemma PlotPointsStep(scaled: map<int, Int32>, ks: seq<int>, all: Serie, points: Serie, i: int)
    requires ks == Ascending(scaled.Keys) && all == Points(scaled)
    requires 0 <= i < |ks| && points == all[..i]
    ensures ks[i] in scaled
    ensures points + [(ks[i], scaled[ks[i]])] == all[..i + 1]
    ensures MinValue(points + [(ks[i], scaled[ks[i]])])
            == if MinValue(points) <= scaled[ks[i]] then MinValue(points) else scaled[ks[i]]
  {
    assert ks[i] in scaled;
    var point := (ks[i], scaled[ks[i]]);
    assert point == all[i];
    MinValueStep(points, point);
    PrefixSnoc(all, i);
  }

  /** plotScaledData's loop: one point per entry of the scaled TreeMap, in ascending date order, and their minimum. */
  method PlotPoints(scaled: map<int, Int32>) returns (points: Serie, minValue: Int32)
    ensures points == Points(scaled)
    ensures minValue == MinValue(points)
  {
    minValue := MaxInt;
    var ks := Ascending(scaled.Keys);
    ghost var all := Points(scaled);
    points := [];
    var i := 0;
    while i < |ks|
      invariant 0 <= i <= |ks| == |all|
      invariant points == all[..i]
      invariant minValue == MinValue(points)
    {
      PlotPointsStep(scaled, ks, all, points, i);
      var value := scaled[ks[i]];
      var point := (ks[i], value);
      points := points + [point];
      minValue := if minValue <= value then minValue else value;
      i := i + 1;
    }
    assert all[..i] == all;
  }

  /** plotScaledData: scales the series, then plots the buckets and tracks their minimum. */
  method PlotScaledData(serie: Serie, scale: Scale, agg: Aggregation, firstDayOfWeek: Weekday)
      returns (points: Serie, minValue: Int32)
    ensures points == Points(Bucketed(serie, BucketOf(scale, firstDayOfWeek), agg))
    ensures minValue == MinValue(points)
  {
    var scaled := ScaleSerieRawData(serie, scale, agg, firstDayOfWeek);
    points, minValue := PlotPoints(scaled);
  }
}
