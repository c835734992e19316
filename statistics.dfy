/**
 * computeStatistics: the total of every data key over all dates, kept in a
 * LinkedHashMap, so that the keys are listed in the order they first occur.
 * The dates are visited in the TreeMap's ascending order; the keys of one
 * date come in the iteration order of that date's HashMap, which is a
 * parameter here.
 */
module Statistics {
  import opened JavaInt
  import opened Ordered
  import opened LoadData
  import opened Series

  /** The LinkedHashMap of totals: the values, and the keys in insertion order. */
  datatype Stats = Stats(totals: map<string, Int32>, order: seq<string>)

  const NoStats := Stats(map[], [])

  /** The insertion order lists every key of the totals exactly once. */
  predicate Valid(s: Stats) {
    IsEnumeration(s.order, s.totals.Keys)
  }

  /** statistics.get(key), with a missing key read as 0. */
  function TotalOf(s: Stats, k: string): Int32 {
    if k in s.totals then s.totals[k] else 0
  }

  /** LinkedHashMap.put: the value of k replaced, or k added at the end of the order. */
  function PutEntry(s: Stats, k: string, v: Int32): Stats {
    Stats(s.totals[k := v], if k in s.totals then s.order else s.order + [k])
  }

  /** A put keeps the order an enumeration of the keys. */
  lemma PutEntryValid(s: Stats, k: string, v: Int32)
    requires Valid(s)
    ensures Valid(PutEntry(s, k, v))
  {
    if k !in s.totals {
      var r := PutEntry(s, k, v);
      assert r.totals.Keys == s.totals.Keys + {k};
      assert |r.totals.Keys| == |s.totals.Keys| + 1;
      forall i, j | 0 <= i < j < |r.order|
        ensures r.order[i] != r.order[j]
      {
        if j == |s.order| {
          assert r.order[i] == s.order[i];
        }
      }
    }
  }

  /** One entry of a date: statistics.put(key, number + value), number being the stored total or 0. */
  function AddItem(s: Stats, k: string, v: Int32): Stats {
    PutEntry(s, k, Add(TotalOf(s, k), v))
  }

  /** HashMap.entrySet() of one date's entries: the iteration order is a function of the map. */
  type EntryOrder = map<string, Int32> -> seq<(string, Int32)>

  /** The keys met in an entry sequence. */
  function EntryKeys(es: seq<(string, Int32)>): set<string> {
    set i | 0 <= i < |es| :: es[i].0
  }

  /** Every entry is one of m, and no key comes twice. */
  predicate EntriesOf(es: seq<(string, Int32)>, m: map<string, Int32>) {
    && (forall i :: 0 <= i < |es| ==> es[i].0 in m && es[i].1 == m[es[i].0])
    && (forall i, j :: 0 <= i < j < |es| ==> es[i].0 != es[j].0)
  }

  /** es is an iteration of the entries of m: each entry exactly once. */
  predicate ListsEntries(es: seq<(string, Int32)>, m: map<string, Int32>) {
    EntriesOf(es, m) && EntryKeys(es) == m.Keys
  }

  /** The entry order iterates every date's HashMap. */
  predicate ListsAllEntries(entryOrder: EntryOrder, data: DataMap) {
    forall d :: d in data ==> ListsEntries(entryOrder(data[d]), data[d])
  }

  /** The inner loop: the entries of one date put one after the other. */
  function PutItems(s: Stats, es: seq<(string, Int32)>): Stats
    decreases |es|
  {
    if es == [] then s
    else
      var n := |es| - 1;
      AddItem(PutItems(s, es[..n]), es[n].0, es[n].1)
  }

  /** TreeMap.values() over the dates ds: the HashMap of each date, in the order of ds. */
  function ValuesAt(data: DataMap, ds: seq<int>): seq<map<string, Int32>>
    decreases |ds|
  {
    if ds == [] then []
    else
      var d := ds[|ds| - 1];
      ValuesAt(data, ds[..|ds| - 1]) + if d in data then [data[d]] else []
  }

  /** data.values(): every date's HashMap, in ascending date order. */
  function TreeValues(data: DataMap): seq<map<string, Int32>> {
    ValuesAt(data, Ascending(data.Keys))
  }

  /** The outer loop: the HashMaps of the dates one after the other. */
  function PutDates(s: Stats, ms: seq<map<string, Int32>>, entryOrder: EntryOrder): Stats
    decreases |ms|
  {
    if ms == [] then s
    else
      var n := |ms| - 1;
      PutItems(PutDates(s, ms[..n], entryOrder), entryOrder(ms[n]))
  }

  /** computeStatistics(data): all dates in ascending order, starting from an empty map. */
  function StatisticsOf(data: DataMap, entryOrder: EntryOrder): Stats {
    PutDates(NoStats, TreeValues(data), entryOrder)
  }

  /** One more entry of a date. */
  lemma PutItemsStep(s: Stats, es: seq<(string, Int32)>, j: int)
    requires 0 <= j < |es|
    ensures PutItems(s, es[..j + 1]) == AddItem(PutItems(s, es[..j]), es[j].0, es[j].1)
  {
    PrefixStep(es, j);
  }

  /** One more date. */
  lemma PutDatesStep(ms: seq<map<string, Int32>>, entryOrder: EntryOrder, i: int)
    requires 0 <= i < |ms|
    ensures PutDates(NoStats, ms[..i + 1], entryOrder) == PutItems(PutDates(NoStats, ms[..i], entryOrder), entryOrder(ms[i]))
  {
    PrefixStep(ms, i);
  }

  /** computeStatistics's two loops. */
  method ComputeStatistics(data: DataMap, entryOrder: EntryOrder) returns (statistics: Stats)
    ensures statistics == StatisticsOf(data, entryOrder)
  {
    var values := TreeValues(data);
    statistics := NoStats;
    var i := 0;
    while i < |values|
      invariant 0 <= i <= |values|
      invariant statistics == PutDates(NoStats, values[..i], entryOrder)
    {
      PutDatesStep(values, entryOrder, i);
      var dataItems := entryOrder(values[i]);
      ghost var before := statistics;
      var j := 0;
      while j < |dataItems|
        invariant 0 <= j <= |dataItems|
        invariant statistics == PutItems(before, dataItems[..j])
      {
        PutItemsStep(before, dataItems, j);
        var key := dataItems[j].0;
        var number := if key in statistics.totals then statistics.totals[key] else 0;
        statistics := PutEntry(statistics, key, Add(number, dataItems[j].1));
        j := j + 1;
      }
      assert dataItems[..j] == dataItems;
      i := i + 1;
    }
    assert values[..i] == values;
  }

  /** The values of a series added up. */
  function ValueSum(s: Serie): int {
    if s == [] then 0 else ValueSum(s[..|s| - 1]) + s[|s| - 1].1
  }

  /** Some HashMap of ms holds k. */
  predicate Holds(ms: seq<map<string, Int32>>, k: string)
    decreases |ms|
  {
    ms != [] && (Holds(ms[..|ms| - 1], k) || k in ms[|ms| - 1])
  }

  /** The values of k in the HashMaps ms added up. */
  function ColumnSum(ms: seq<map<string, Int32>>, k: string): int
    decreases |ms|
  {
    if ms == [] then 0
    else
      var m := ms[|ms| - 1];
      ColumnSum(ms[..|ms| - 1], k) + if k in m then m[k] else 0
  }

  /** Putting the entries of one date keeps the order an enumeration of the keys. */
  lemma {:induction false} PutItemsValid(s: Stats, es: seq<(string, Int32)>)
    requires Valid(s)
    ensures Valid(PutItems(s, es))
    decreases |es|
  {
    if es != [] {
      var n := |es| - 1;
      PutItemsValid(s, es[..n]);
      var before := PutItems(s, es[..n]);
      PutEntryValid(before, es[n].0, Add(TotalOf(before, es[n].0), es[n].1));
    }
  }

  /** The entries of a date without its last one: still entries of the map, and the last key not among them. */
  lemma EntriesInit(es: seq<(string, Int32)>, m: map<string, Int32>)
    requires EntriesOf(es, m) && es != []
    ensures EntriesOf(es[..|es| - 1], m)
    ensures EntryKeys(es) == EntryKeys(es[..|es| - 1]) + {es[|es| - 1].0}
    ensures es[|es| - 1].0 !in EntryKeys(es[..|es| - 1])
  {
    var n := |es| - 1;
    var init := es[..n];
    forall k | k in EntryKeys(es)
      ensures k in EntryKeys(init) || k == es[n].0
    {
      var i :| 0 <= i < |es| && es[i].0 == k;
      if i < n {
        assert init[i] == es[i];
      }
    }
    forall k | k in EntryKeys(init)
      ensures k in EntryKeys(es)
    {
      var i :| 0 <= i < n && init[i].0 == k;
      assert es[i] == init[i];
    }
  }

  /** Putting the entries of one date adds each of its values to its key's total, once; other totals stay. */
  lemma {:induction false} PutItemsEffect(s: Stats, es: seq<(string, Int32)>, m: map<string, Int32>, k: string)
    requires EntriesOf(es, m)
    ensures var r := PutItems(s, es);
            && (k in r.totals <==> k in s.totals || k in EntryKeys(es))
            && (k in EntryKeys(es) ==> TotalOf(r, k) == Wrap(TotalOf(s, k) + m[k]))
            && (k !in EntryKeys(es) ==> TotalOf(r, k) == TotalOf(s, k))
    decreases |es|
  {
    if es != [] {
      EntriesInit(es, m);
      PutItemsEffect(s, es[..|es| - 1], m, k);
    }
  }

  /** The entry order iterates every HashMap of ms. */
  predicate ListsEvery(entryOrder: EntryOrder, ms: seq<map<string, Int32>>) {
    forall i :: 0 <= i < |ms| ==> ListsEntries(entryOrder(ms[i]), ms[i])
  }

  /** A prefix of listed HashMaps is listed. */
  lemma ListsEveryInit(entryOrder: EntryOrder, ms: seq<map<string, Int32>>)
    requires ListsEvery(entryOrder, ms) && ms != []
    ensures ListsEvery(entryOrder, ms[..|ms| - 1])
  {
    var init := ms[..|ms| - 1];
    forall i | 0 <= i < |init|
      ensures ListsEntries(entryOrder(init[i]), init[i])
    {
      assert init[i] == ms[i];
    }
  }

  /** The dates keep the order an enumeration of the keys. */
  lemma {:induction false} PutDatesValid(ms: seq<map<string, Int32>>, entryOrder: EntryOrder)
    ensures Valid(PutDates(NoStats, ms, entryOrder))
    decreases |ms|
  {
    if ms == [] {
      assert NoStats.totals.Keys == {};
    } else {
      var n := |ms| - 1;
      PutDatesValid(ms[..n], entryOrder);
      PutItemsValid(PutDates(NoStats, ms[..n], entryOrder), entryOrder(ms[n]));
    }
  }

  /** One more date: its HashMap extends the presence and the wrapped sum of a key's total. */
  lemma PutDateTotalStep(before: Stats, es: seq<(string, Int32)>, m: map<string, Int32>, k: string, sum0: int, held0: bool)
    requires ListsEntries(es, m)
    requires (k in before.totals <==> held0) && TotalOf(before, k) == Wrap(sum0)
    ensures var r := PutItems(before, es);
            && (k in r.totals <==> held0 || k in m)
            && TotalOf(r, k) == Wrap(sum0 + if k in m then m[k] else 0)
  {
    PutItemsEffect(before, es, m, k);
    if k in m {
      WrapAdd(sum0, m[k]);
    }
  }

  /**
   * After the HashMaps ms, a key is present exactly when one of them holds it,
   * and its total is its values added up with Java's int wrap-around.
   */
  lemma {:induction false} PutDatesTotal(ms: seq<map<string, Int32>>, entryOrder: EntryOrder, k: string)
    requires ListsEvery(entryOrder, ms)
    ensures var r := PutDates(NoStats, ms, entryOrder);
            && (k in r.totals <==> Holds(ms, k))
            && TotalOf(r, k) == Wrap(ColumnSum(ms, k))
    decreases |ms|
  {
    if ms != [] {
      var n := |ms| - 1;
      var init := ms[..n];
      ListsEveryInit(entryOrder, ms);
      PutDatesTotal(init, entryOrder, k);
      assert ListsEntries(entryOrder(ms[n]), ms[n]);
      var before := PutDates(NoStats, init, entryOrder);
      PutDateTotalStep(before, entryOrder(ms[n]), ms[n], k, ColumnSum(init, k), Holds(init, k));
      assert PutDates(NoStats, ms, entryOrder) == PutItems(before, entryOrder(ms[n]));
      assert ColumnSum(ms, k) == ColumnSum(init, k) + if k in ms[n] then ms[n][k] else 0;
      assert Holds(ms, k) == (Holds(init, k) || k in ms[n]);
    } else {
      assert Wrap(0) == 0;
    }
  }

  /** TreeMap.values() holds a key at some date exactly when the key's series is not empty. */
  lemma {:induction false} ValuesAtSelect(data: DataMap, ds: seq<int>, k: string)
    ensures Holds(ValuesAt(data, ds), k) <==> Select(data, ds, k) != []
    ensures ColumnSum(ValuesAt(data, ds), k) == ValueSum(Select(data, ds, k))
    decreases |ds|
  {
    if ds != [] {
      var n := |ds| - 1;
      var d := ds[n];
      ValuesAtSelect(data, ds[..n], k);
      var ms0 := ValuesAt(data, ds[..n]);
      var s0 := Select(data, ds[..n], k);
      if d in data {
        assert ValuesAt(data, ds) == ms0 + [data[d]];
        ColumnSnoc(ms0, data[d], k);
        if k in data[d] {
          assert Select(data, ds, k) == s0 + [(d, data[d][k])];
          ValueSumSnoc(s0, (d, data[d][k]));
        } else {
          assert Select(data, ds, k) == s0;
        }
      } else {
        assert ValuesAt(data, ds) == ms0;
        assert Select(data, ds, k) == s0;
      }
    }
  }

  /** One HashMap more: it may hold the key, and adds its value to the column. */
  lemma ColumnSnoc(ms: seq<map<string, Int32>>, m: map<string, Int32>, k: string)
    ensures Holds(ms + [m], k) == (Holds(ms, k) || k in m)
    ensures ColumnSum(ms + [m], k) == ColumnSum(ms, k) + if k in m then m[k] else 0
  {
    assert (ms + [m])[..|ms|] == ms;
  }

  /** One point more adds its value to the sum. */
  lemma ValueSumSnoc(s: Serie, p: (int, Int32))
    ensures ValueSum(s + [p]) == ValueSum(s) + p.1
  {
    assert (s + [p])[..|s|] == s;
  }

  /** Every date's HashMap is listed by an entry order that lists each date's entries. */
  lemma TreeValuesListed(data: DataMap, entryOrder: EntryOrder)
    requires ListsAllEntries(entryOrder, data)
    ensures ListsEvery(entryOrder, TreeValues(data))
  {
    ValuesAtListed(data, Ascending(data.Keys), entryOrder);
  }

  lemma {:induction false} ValuesAtListed(data: DataMap, ds: seq<int>, entryOrder: EntryOrder)
    requires ListsAllEntries(entryOrder, data)
    ensures ListsEvery(entryOrder, ValuesAt(data, ds))
    decreases |ds|
  {
    if ds != [] {
      var n := |ds| - 1;
      ValuesAtListed(data, ds[..n], entryOrder);
      var ms0 := ValuesAt(data, ds[..n]);
      var ms := ValuesAt(data, ds);
      if ds[n] in data {
        var d := ds[n];
        assert ListsEntries(entryOrder(data[d]), data[d]);
        forall i | 0 <= i < |ms|
          ensures ListsEntries(entryOrder(ms[i]), ms[i])
        {
          if i < |ms0| {
            assert ms[i] == ms0[i];
          }
        }
      } else {
        assert ms == ms0;
      }
    }
  }

  /** The series of a key is empty exactly when no date holds the key. */
  lemma SeriesOfEmpty(data: DataMap, key: string)
    ensures SeriesOf(data, key) == [] <==> forall d :: d in data ==> key !in data[d]
  {
    var ds := Ascending(data.Keys);
    SelectSound(data, ds, key);
    SelectComplete(data, ds, key);
    if SeriesOf(data, key) != [] {
      var s := SeriesOf(data, key);
      assert s[0].0 in data && key in data[s[0].0];
    }
  }

  /**
   * The statistics: their keys are exactly the keys held at some date, each
   * listed once in the insertion order, and each total is the wrap-around
   * sum of that key's series, whatever order the dates' HashMaps iterate in.
   */
  lemma StatisticsTotals(data: DataMap, entryOrder: EntryOrder, k: string)
    requires ListsAllEntries(entryOrder, data)
    ensures var r := StatisticsOf(data, entryOrder);
            && Valid(r)
            && (k in r.totals <==> exists d :: d in data && k in data[d])
            && (k in r.totals ==> r.totals[k] == Wrap(ValueSum(SeriesOf(data, k))))
  {
    var ms := TreeValues(data);
    PutDatesValid(ms, entryOrder);
    TreeValuesListed(data, entryOrder);
    PutDatesTotal(ms, entryOrder, k);
    ValuesAtSelect(data, Ascending(data.Keys), k);
    SeriesOfEmpty(data, k);
  }

  /** The totals do not depend on the iteration order of the dates' HashMaps; only the key order may. */
  lemma StatisticsTotalsOrderFree(data: DataMap, entryOrder: EntryOrder, entryOrder': EntryOrder)
    requires ListsAllEntries(entryOrder, data) && ListsAllEntries(entryOrder', data)
    ensures StatisticsOf(data, entryOrder).totals == StatisticsOf(data, entryOrder').totals
  {
    var t := StatisticsOf(data, entryOrder).totals;
    var t' := StatisticsOf(data, entryOrder').totals;
    forall k
      ensures k in t <==> k in t'
      ensures k in t ==> t[k] == t'[k]
    {
      StatisticsTotals(data, entryOrder, k);
      StatisticsTotals(data, entryOrder', k);
    }
  }
}
