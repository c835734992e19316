/**
 * processText: the placeholders of the texts shown above and below the
 * chart. `${_workingDays}` becomes the number of working days, `${key}` and
 * `${keyPerDay}` the total of a data key and its per-day rate (the key with
 * its whitespace removed), `${_timestamp}` and `${_timestampname}` the
 * last-changed instant of a source, and whatever `${…}` is left on a line
 * becomes "0".
 */
module Template {
  import opened Utils
  import opened JavaInt
  import opened Text
  import opened Ordered
  import opened Statistics

  /** The text "${" + name + "}". */
  function Placeholder(name: string): (r: string)
    ensures |r| == |name| + 3 && r[0] == '$' && r[1] == '{'
  {
    "${" + name + "}"
  }

  const WorkingDaysPlaceholder: string := Placeholder("_workingDays")

  /** String.format("%.1f", value / (float) workingDays): floating point and locales are outside the model. */
  type RatioFormat = (Int32, Int32) -> string

  /** dateFormat.format(timestamp) with the configured pattern. */
  type DateFormat = int -> string

  /** The per-day rate of a total: 0 when there is no working day. */
  function PerDayText(value: Int32, workingDays: Int32, formatRatio: RatioFormat): string {
    if workingDays > 0 then formatRatio(value, workingDays) else formatRatio(0, 1)
  }

  /** One statistics entry: `${key}` and then `${keyPerDay}` replaced, key being the entry's key without whitespace. */
  function PutStatistic(text: string, key: string, value: Int32, workingDays: Int32, formatRatio: RatioFormat): string {
    var k := RemoveWhitespace(key);
    var t := Replace(text, Placeholder(k), IntToString(value));
    Replace(t, Placeholder(k + "PerDay"), PerDayText(value, workingDays, formatRatio))
  }

  /** The statistics entries one after the other. */
  function PutStatistics(text: string, es: seq<(string, Int32)>, workingDays: Int32, formatRatio: RatioFormat): string
    decreases |es|
  {
    if es == [] then text
    else
      var n := |es| - 1;
      PutStatistic(PutStatistics(text, es[..n], workingDays, formatRatio), es[n].0, es[n].1, workingDays, formatRatio)
  }

  /** LinkedHashMap.entrySet(): the keys in insertion order, each with its total. */
  function StatEntries(s: Stats): (es: seq<(string, Int32)>)
    ensures |es| == |s.order|
    ensures forall i :: 0 <= i < |es| ==> es[i].0 == s.order[i]
  {
    seq(|s.order|, i requires 0 <= i < |s.order| => (s.order[i], TotalOf(s, s.order[i])))
  }

  /** The entry set of the statistics lists every key with its total exactly once. */
  lemma StatEntriesListTotals(s: Stats)
    requires Valid(s)
    ensures ListsEntries(StatEntries(s), s.totals)
  {
    var es := StatEntries(s);
    forall k | k in s.totals
      ensures k in EntryKeys(es)
    {
      var i :| 0 <= i < |s.order| && s.order[i] == k;
      assert es[i].0 == k;
    }
  }

  /** A source's name in a timestamp placeholder: the primary source (null key) has none. */
  function TimestampName(key: Option<string>): string {
    match key
    case None => ""
    case Some(name) => name
  }

  /** One timestamp entry: `${_timestamp<name>}` replaced by the formatted instant. */
  function PutTimestamp(text: string, key: Option<string>, t: int, formatDate: DateFormat): string {
    Replace(text, Placeholder("_timestamp" + TimestampName(key)), formatDate(t))
  }

  /** The timestamp entries, in the iteration order of the timestamps HashMap. */
  function PutTimestamps(text: string, ts: seq<(Option<string>, int)>, formatDate: DateFormat): string
    decreases |ts|
  {
    if ts == [] then text
    else
      var n := |ts| - 1;
      PutTimestamp(PutTimestamps(text, ts[..n], formatDate), ts[n].0, ts[n].1, formatDate)
  }

  /**
   * processText(text, statistics, workingDays): the working days, then every
   * statistics entry, then every timestamp, then the catch-all rewrite; no
   * one-line `${…}` is left in the result.
   */
  function ProcessTextOf(text: string, stats: Stats, workingDays: Int32, timestamps: seq<(Option<string>, int)>,
                         formatRatio: RatioFormat, formatDate: DateFormat): (r: string)
    ensures !HasSpan(r)
  {
    var t := Replace(text, WorkingDaysPlaceholder, IntToString(workingDays));
    var t' := PutStatistics(t, StatEntries(stats), workingDays, formatRatio);
    var t'' := PutTimestamps(t', timestamps, formatDate);
    ReplaceSpansLeavesNoSpan(t'');
    ReplaceSpans(t'')
  }

  /** The statistics entries up to i, and then entry i. */
  lemma PutStatisticsSnoc(text: string, entries: seq<(string, Int32)>, i: int, workingDays: Int32, formatRatio: RatioFormat)
    requires 0 <= i < |entries|
    ensures PutStatistics(text, entries[..i + 1], workingDays, formatRatio)
            == PutStatistic(PutStatistics(text, entries[..i], workingDays, formatRatio), entries[i].0, entries[i].1, workingDays, formatRatio)
  {
    assert entries[..i + 1][..i] == entries[..i];
  }

  /** processText's loop over the statistics entries. */
  method ReplaceStatistics(text: string, entries: seq<(string, Int32)>, workingDays: Int32, formatRatio: RatioFormat)
    returns (r: string)
    ensures r == PutStatistics(text, entries, workingDays, formatRatio)
  {
    r := text;
    var i := 0;
    while i < |entries|
      invariant 0 <= i <= |entries|
      invariant r == PutStatistics(text, entries[..i], workingDays, formatRatio)
    {
      PutStatisticsSnoc(text, entries, i, workingDays, formatRatio);
      r := PutStatistic(r, entries[i].0, entries[i].1, workingDays, formatRatio);
      i := i + 1;
    }
    assert entries[..i] == entries;
  }

  /** processText's loop over the timestamps. */
  method ReplaceTimestamps(text: string, timestamps: seq<(Option<string>, int)>, formatDate: DateFormat) returns (r: string)
    ensures r == PutTimestamps(text, timestamps, formatDate)
  {
    r := text;
    var j := 0;
    while j < |timestamps|
      invariant 0 <= j <= |timestamps|
      invariant r == PutTimestamps(text, timestamps[..j], formatDate)
    {
      assert timestamps[..j + 1][..j] == timestamps[..j];
      var key := TimestampName(timestamps[j].0);
      r := Replace(r, Placeholder("_timestamp" + key), formatDate(timestamps[j].1));
      j := j + 1;
    }
    assert timestamps[..j] == timestamps;
  }

  /** processText: the working days, the two loops, and the catch-all rewrite. */
  method ProcessText(text: string, stats: Stats, workingDays: Int32, timestamps: seq<(Option<string>, int)>,
                     formatRatio: RatioFormat, formatDate: DateFormat) returns (r: string)
    ensures r == ProcessTextOf(text, stats, workingDays, timestamps, formatRatio, formatDate)
    ensures !HasSpan(r)
  {
    r := Replace(text, WorkingDaysPlaceholder, IntToString(workingDays));
    r := ReplaceStatistics(r, StatEntries(stats), workingDays, formatRatio);
    r := ReplaceTimestamps(r, timestamps, formatDate);
    r := ReplaceSpans(r);
  }

  /** Replacing a target that does not occur changes nothing. */
  lemma {:induction false} ReplaceAbsent(s: string, target: string, replacement: string)
    requires |target| > 0 && Absent(s, target)
    ensures Replace(s, target, replacement) == s
    decreases |s|
  {
    if |s| >= |target| {
      assert !OccursAt(s, target, 0);
      assert s[..|target|] != target;
      assert Absent(s[1..], target) by {
        forall j | 0 <= j <= |s[1..]| - |target|
          ensures !OccursAt(s[1..], target, j)
        {
          assert s[1..][j..j + |target|] == s[j + 1..j + 1 + |target|];
          assert !OccursAt(s, target, j + 1);
        }
      }
      ReplaceAbsent(s[1..], target, replacement);
      assert s == [s[0]] + s[1..];
    }
  }

  /** A text that is exactly the target becomes the replacement. */
  lemma ReplaceWhole(target: string, replacement: string)
    requires |target| > 0
    ensures Replace(target, target, replacement) == replacement
  {
    assert target[..|target|] == target;
    assert target[|target|..] == [];
  }

  /** Decimal digits only. */
  lemma {:induction false} DigitsAreDigits(n: nat)
    ensures forall i :: 0 <= i < |Digits(n)| ==> '0' <= Digits(n)[i] <= '9'
    decreases n
  {
    if n >= 10 {
      DigitsAreDigits(n / 10);
    }
  }

  /** A number printed by Integer.toString holds no `${`. */
  lemma IntToStringNoOpen(n: int)
    ensures NoOpen(IntToString(n))
  {
    if n < 0 {
      DigitsAreDigits(-n);
      var s := IntToString(n);
      forall i | 1 <= i < |s|
        ensures s[i] != '$'
      {
        assert s[i] == Digits(-n)[i - 1];
      }
    } else {
      DigitsAreDigits(n);
    }
  }

  /** The statistics entries leave a text without `${` alone. */
  lemma {:induction false} PutStatisticsPlain(text: string, es: seq<(string, Int32)>, workingDays: Int32, formatRatio: RatioFormat)
    requires NoOpen(text)
    ensures PutStatistics(text, es, workingDays, formatRatio) == text
    decreases |es|
  {
    if es != [] {
      var n := |es| - 1;
      PutStatisticsPlain(text, es[..n], workingDays, formatRatio);
      var k := RemoveWhitespace(es[n].0);
      ReplaceWithoutOpen(text, Placeholder(k), IntToString(es[n].1));
      ReplaceWithoutOpen(text, Placeholder(k + "PerDay"), PerDayText(es[n].1, workingDays, formatRatio));
    }
  }

  /** The timestamp entries leave a text without `${` alone. */
  lemma {:induction false} PutTimestampsPlain(text: string, ts: seq<(Option<string>, int)>, formatDate: DateFormat)
    requires NoOpen(text)
    ensures PutTimestamps(text, ts, formatDate) == text
    decreases |ts|
  {
    if ts != [] {
      var n := |ts| - 1;
      PutTimestampsPlain(text, ts[..n], formatDate);
      ReplaceWithoutOpen(text, Placeholder("_timestamp" + TimestampName(ts[n].0)), formatDate(ts[n].1));
    }
  }

  /** Once the text holds no `${`, the rest of processText changes nothing. */
  lemma PlainAfterWorkingDays(t: string, stats: Stats, workingDays: Int32, timestamps: seq<(Option<string>, int)>,
                              formatRatio: RatioFormat, formatDate: DateFormat)
    requires NoOpen(t)
    ensures ReplaceSpans(PutTimestamps(PutStatistics(t, StatEntries(stats), workingDays, formatRatio), timestamps, formatDate)) == t
  {
    PutStatisticsPlain(t, StatEntries(stats), workingDays, formatRatio);
    PutTimestampsPlain(t, timestamps, formatDate);
    ReplaceSpansWithoutOpen(t);
  }

  /** A text without any `${` is shown as it is. */
  lemma ProcessTextPlain(text: string, stats: Stats, workingDays: Int32, timestamps: seq<(Option<string>, int)>,
                         formatRatio: RatioFormat, formatDate: DateFormat)
    requires NoOpen(text)
    ensures ProcessTextOf(text, stats, workingDays, timestamps, formatRatio, formatDate) == text
  {
    ReplaceWithoutOpen(text, WorkingDaysPlaceholder, IntToString(workingDays));
    PlainAfterWorkingDays(text, stats, workingDays, timestamps, formatRatio, formatDate);
  }

  /** `${_workingDays}` shows the number of working days. */
  lemma ProcessTextWorkingDays(stats: Stats, workingDays: Int32, timestamps: seq<(Option<string>, int)>,
                               formatRatio: RatioFormat, formatDate: DateFormat)
    ensures ProcessTextOf(WorkingDaysPlaceholder, stats, workingDays, timestamps, formatRatio, formatDate) == IntToString(workingDays)
  {
    ReplaceWhole(WorkingDaysPlaceholder, IntToString(workingDays));
    IntToStringNoOpen(workingDays);
    PlainAfterWorkingDays(IntToString(workingDays), stats, workingDays, timestamps, formatRatio, formatDate);
  }

  /** No placeholder of the first n entries occurs in the text. */
  predicate UntouchedBy(text: string, es: seq<(string, Int32)>, n: int)
    requires 0 <= n <= |es|
  {
    forall j :: 0 <= j < n ==>
      Absent(text, Placeholder(RemoveWhitespace(es[j].0))) &&
      Absent(text, Placeholder(RemoveWhitespace(es[j].0) + "PerDay"))
  }

  /** Entries whose placeholders do not occur leave the text alone. */
  lemma {:induction false} PutStatisticsUntouched(text: string, es: seq<(string, Int32)>, n: int, workingDays: Int32, formatRatio: RatioFormat)
    requires 0 <= n <= |es| && UntouchedBy(text, es, n)
    ensures PutStatistics(text, es[..n], workingDays, formatRatio) == text
    decreases n
  {
    if n > 0 {
      assert es[..n][..n - 1] == es[..n - 1];
      PutStatisticsUntouched(text, es, n - 1, workingDays, formatRatio);
      var k := RemoveWhitespace(es[n - 1].0);
      assert Absent(text, Placeholder(k)) && Absent(text, Placeholder(k + "PerDay"));
      ReplaceAbsent(text, Placeholder(k), IntToString(es[n - 1].1));
      ReplaceAbsent(text, Placeholder(k + "PerDay"), PerDayText(es[n - 1].1, workingDays, formatRatio));
    }
  }

  /** The statistics loop over a + b is the loop over a followed by the loop over b. */
  lemma {:induction false} PutStatisticsAppend(text: string, a: seq<(string, Int32)>, b: seq<(string, Int32)>,
                                               workingDays: Int32, formatRatio: RatioFormat)
    ensures PutStatistics(text, a + b, workingDays, formatRatio)
            == PutStatistics(PutStatistics(text, a, workingDays, formatRatio), b, workingDays, formatRatio)
    decreases |b|
  {
    if b == [] {
      assert a + b == a;
    } else {
      var n := |b| - 1;
      assert (a + b)[..|a + b| - 1] == a + b[..n];
      PutStatisticsAppend(text, a, b[..n], workingDays, formatRatio);
    }
  }

  /**
   * The placeholder `${key}` of entry i, untouched by the entries before it,
   * becomes the entry's value and stays so through the entries after it.
   */
  lemma PutStatisticsHit(es: seq<(string, Int32)>, i: int, workingDays: Int32, formatRatio: RatioFormat)
    requires 0 <= i < |es|
    requires UntouchedBy(Placeholder(RemoveWhitespace(es[i].0)), es, i)
    ensures PutStatistics(Placeholder(RemoveWhitespace(es[i].0)), es, workingDays, formatRatio) == IntToString(es[i].1)
  {
    var text := Placeholder(RemoveWhitespace(es[i].0));
    var v := IntToString(es[i].1);
    PutStatisticsUntouched(text, es, i, workingDays, formatRatio);
    PutStatisticsSnoc(text, es, i, workingDays, formatRatio);
    PutStatisticOwn(es[i].0, es[i].1, workingDays, formatRatio);
    assert PutStatistics(text, es[..i + 1], workingDays, formatRatio) == v;
    IntToStringNoOpen(es[i].1);
    PutStatisticsPlain(v, es[i + 1..], workingDays, formatRatio);
    SplitAt(es, i + 1);
    PutStatisticsAppend(text, es[..i + 1], es[i + 1..], workingDays, formatRatio);
  }

  /** The placeholder `${key}` alone becomes the key's value, which the `${keyPerDay}` replacement leaves alone. */
  lemma PutStatisticOwn(key: string, value: Int32, workingDays: Int32, formatRatio: RatioFormat)
    ensures PutStatistic(Placeholder(RemoveWhitespace(key)), key, value, workingDays, formatRatio) == IntToString(value)
  {
    var k := RemoveWhitespace(key);
    var v := IntToString(value);
    ReplaceWhole(Placeholder(k), v);
    IntToStringNoOpen(value);
    ReplaceWithoutOpen(v, Placeholder(k + "PerDay"), PerDayText(value, workingDays, formatRatio));
  }

  /**
   * A text that is the placeholder `${key}` of the statistics key at
   * position i (its whitespace removed) shows that key's total, unless an
   * earlier replacement already hit it.
   */
  lemma ProcessTextTotal(stats: Stats, i: int, workingDays: Int32, timestamps: seq<(Option<string>, int)>,
                         formatRatio: RatioFormat, formatDate: DateFormat)
    requires Valid(stats) && 0 <= i < |stats.order|
    requires var text := Placeholder(RemoveWhitespace(stats.order[i]));
             Absent(text, WorkingDaysPlaceholder) && UntouchedBy(text, StatEntries(stats), i)
    ensures ProcessTextOf(Placeholder(RemoveWhitespace(stats.order[i])), stats, workingDays, timestamps, formatRatio, formatDate)
            == IntToString(stats.totals[stats.order[i]])
  {
    var es := StatEntries(stats);
    var key := stats.order[i];
    var value := stats.totals[key];
    assert es[i] == (key, value);
    var v := IntToString(value);
    ReplaceAbsent(Placeholder(RemoveWhitespace(key)), WorkingDaysPlaceholder, IntToString(workingDays));
    PutStatisticsHit(es, i, workingDays, formatRatio);
    IntToStringNoOpen(value);
    PutTimestampsPlain(v, timestamps, formatDate);
    ReplaceSpansWithoutOpen(v);
  }
}
