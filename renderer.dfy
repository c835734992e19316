/**
 * CSVBasedTrendChartWidgetRenderer: the constructor reads the widget
 * configuration, loads the CSV sources into a date-keyed table and fills
 * the placeholders of the texts; a RequiredParameterException becomes a
 * warning and any other exception an error. render() then shows the error,
 * the warning, or the texts around a chart with one series per configured
 * data key, scaled into buckets and aggregated.
 *
 * The rendering context becomes the Context datatype (the parameters the
 * renderer reads) and the platform services it calls become the Services
 * datatype (parsers, formatters, the working calendar, the repository and
 * the iteration order of the HashMaps involved).
 */
module Renderer {
  import opened Utils
  import opened JavaInt
  import opened Ordered
  import opened Calendar
  import opened Strategies
  import opened CsvData
  import opened LoadData
  import opened Series
  import opened Statistics
  import opened Text
  import opened Template
  import opened DateWindow

  const TitleId: string := "title"
  const ScaleId: string := "scale"
  const YearId: string := "year"
  const TypeId: string := "type"
  const TextAboveId: string := "textAbove"
  const TextBelowId: string := "textBelow"
  const DateFormatId: string := "dateFormat"
  const SerieNameId: string := "name"
  const ColorId: string := "color"
  const DataKeyId: string := "dataKey"
  const AggregationId: string := "aggregation"
  const SerieTypeId: string := "type"

  /** The parameters of one configured series. */
  predicate HasSerieParameters(p: CompositeParameter) {
    SerieNameId in p && ColorId in p && DataKeyId in p && AggregationId in p && SerieTypeId in p
  }

  predicate AllSeriesParameters(ps: seq<CompositeParameter>) {
    forall i :: 0 <= i < |ps| ==> HasSerieParameters(ps[i])
  }

  /** What the renderer reads from its RichPageWidgetRenderingContext. */
  datatype Context = Context(
    widget: CompositeParameter,                  // title, type, textAbove, textBelow, dateFormat
    dates: CompositeParameter,                   // the "dates" composite: scale and year
    from: int,                                   // its "from" DateParameter
    to: int,                                     // its "to" DateParameter
    dataSource: CompositeParameter,              // CSVData's primary source
    additionalSources: seq<CompositeParameter>,  // CSVData's additional sources
    series: seq<CompositeParameter>)             // the "series" MultiParameter

  /** Every parameter the renderer asks for is declared by the widget. */
  predicate WellFormed(ctx: Context) {
    && TitleId in ctx.widget && TypeId in ctx.widget && TextAboveId in ctx.widget
    && TextBelowId in ctx.widget && DateFormatId in ctx.widget
    && ScaleId in ctx.dates && YearId in ctx.dates
    && HasSourceParameters(ctx.dataSource) && AllNamed(ctx.additionalSources)
    && AllSeriesParameters(ctx.series)
  }

  /** The platform behind the renderer. */
  datatype Services = Services(
    loader: Loader,                                          // the repository (Utils.loadContent)
    parseInt: IntParser,                                     // Integer.parseInt
    parseDate: DateParser,                                   // the "yyyy-MM-dd" SimpleDateFormat.parse
    validPattern: string -> bool,                            // new SimpleDateFormat(pattern) accepts the pattern
    formatDate: string -> DateFormat,                        // SimpleDateFormat(pattern).format
    formatRatio: RatioFormat,                                // String.format("%.1f", ...)
    workingDays: Dates -> Int32,                             // Dates.calculateWorkingDaysBetween
    firstDayOfWeek: Weekday,                                 // Calendar.getFirstDayOfWeek of the locale
    sourceOrder: map<Option<string>, CsvTable> -> seq<Option<string>>,  // CSVData.getAll's HashMap order
    entryOrder: EntryOrder,                                  // each date's HashMap order
    timestampOrder: map<Option<string>, int> -> seq<(Option<string>, int)>)  // the timestamps HashMap order

  /** The sources' HashMap iterates each of its keys exactly once. */
  ghost predicate OrdersListKeys(sv: Services) {
    forall m: map<Option<string>, CsvTable> :: IsEnumeration(sv.sourceOrder(m), m.Keys)
  }

  /** The fields the constructor fills when nothing is thrown. */
  datatype Setup = Setup(
    title: Option<string>,
    series: seq<CompositeParameter>,
    scale: Scale,
    chartType: string,
    textAbove: Option<string>,
    textBelow: Option<string>,
    datePattern: string,
    data: DataMap,
    timestamps: map<Option<string>, int>)

  /** initDates: the configured year's window, or the from and to dates when no year is set. */
  function InitDates(ctx: Context, year: Option<string>, parseInt: IntParser): Result<Dates, Exception> {
    match year
    case None => Success(Dates(ctx.from, ctx.to))
    case Some(y) =>
      match parseInt(y)
      case None => Failure(NumberFormat(y))
      case Some(n) => Success(YearWindow(n))
  }

  /**
   * initDates: without a year the window runs from the from date to the to
   * date; a year that does not parse throws; otherwise the window holds
   * exactly the instants whose day falls in that year.
   */
  lemma InitDatesWindow(ctx: Context, year: Option<string>, parseInt: IntParser)
    ensures year.None? ==> InitDates(ctx, year, parseInt) == Success(Dates(ctx.from, ctx.to))
    ensures year.Some? ==> (InitDates(ctx, year, parseInt).Success? <==> parseInt(year.value).Some?)
    ensures year.Some? && parseInt(year.value).None? ==> InitDates(ctx, year, parseInt) == Failure(NumberFormat(year.value))
    ensures year.Some? && parseInt(year.value).Some? ==>
              forall t :: InitDates(ctx, year, parseInt).value.Contains(t) <==> YearOf(DayOf(t)) == parseInt(year.value).value
  {
    if year.Some? && parseInt(year.value).Some? {
      forall t
        ensures YearWindow(parseInt(year.value).value).Contains(t) <==> YearOf(DayOf(t)) == parseInt(year.value).value
      {
        YearWindowIsYear(parseInt(year.value).value, t);
      }
    }
  }

  /** The timestamps map: every source's last-changed instant under its name. */
  function TimestampsOf(sources: map<Option<string>, CsvTable>): map<Option<string>, int> {
    map k | k in sources :: sources[k].timestamp
  }

  /** processText applied to a text that is set. */
  function ProcessOptional(text: Option<string>, stats: Stats, workingDays: Int32, ts: seq<(Option<string>, int)>,
                           formatRatio: RatioFormat, formatDate: DateFormat): Option<string> {
    match text
    case None => None
    case Some(t) => Some(ProcessTextOf(t, stats, workingDays, ts, formatRatio, formatDate))
  }

  /**
   * The constructor's body inside its try block, in the order it reads the
   * configuration: the first exception ends it.
   */
  function SetupOf(ctx: Context, sv: Services): (r: Result<Setup, Exception>)
    requires WellFormed(ctx) && OrdersListKeys(sv)
  {
    var title := GetStringParameterValue(ctx.widget[TitleId]);
    var scaleName :- GetRequiredStringParameterValue(ctx.dates[ScaleId]);
    var scale :- ParseScale(scaleName);
    var year := GetStringParameterValue(ctx.dates[YearId]);
    var chartType :- GetRequiredStringParameterValue(ctx.widget[TypeId]);
    var textAbove := GetStringParameterValue(ctx.widget[TextAboveId]);
    var textBelow := GetStringParameterValue(ctx.widget[TextBelowId]);
    var pattern :- GetRequiredStringParameterValue(ctx.widget[DateFormatId]);
    if !sv.validPattern(pattern) then Failure(IllegalArgument(pattern))
    else
      var dates :- InitDates(ctx, year, sv.parseInt);
      var sources :- AllSources(ctx.dataSource, ctx.additionalSources, sv.loader);
      var data :- LoadAll(sources, sv.sourceOrder(sources), dates, sv.parseInt, sv.parseDate);
      var timestamps := TimestampsOf(sources);
      var workingDays := sv.workingDays(dates);
      var stats := StatisticsOf(data, sv.entryOrder);
      var ts := sv.timestampOrder(timestamps);
      var formatDate := sv.formatDate(pattern);
      Success(Setup(title, ctx.series, scale, chartType,
                    ProcessOptional(textAbove, stats, workingDays, ts, sv.formatRatio, formatDate),
                    ProcessOptional(textBelow, stats, workingDays, ts, sv.formatRatio, formatDate),
                    pattern, data, timestamps))
  }

  /** The constructor's loop putting every source's timestamp into the timestamps map. */
  method CollectTimestamps(sources: map<Option<string>, CsvTable>, order: seq<Option<string>>)
      returns (timestamps: map<Option<string>, int>)
    requires IsEnumeration(order, sources.Keys)
    ensures timestamps == TimestampsOf(sources)
  {
    timestamps := map[];
    var i := 0;
    while i < |order|
      invariant 0 <= i <= |order|
      invariant timestamps == map k | k in sources && k in order[..i] :: sources[k].timestamp
    {
      PrefixSnoc(order, i);
      timestamps := timestamps[order[i] := sources[order[i]].timestamp];
      i := i + 1;
    }
    assert order[..i] == order;
  }

  /** The constructor's try block, step by step. */
  method RunSetup(ctx: Context, sv: Services) returns (r: Result<Setup, Exception>)
    requires WellFormed(ctx) && OrdersListKeys(sv)
    ensures r == SetupOf(ctx, sv)
  {
    var title := GetStringParameterValue(ctx.widget[TitleId]);
    var scaleName := GetRequiredStringParameterValue(ctx.dates[ScaleId]);
    if scaleName.Failure? {
      return Failure(scaleName.error);
    }
    var scale := ParseScale(scaleName.value);
    if scale.Failure? {
      return Failure(scale.error);
    }
    var year := GetStringParameterValue(ctx.dates[YearId]);
    var chartType := GetRequiredStringParameterValue(ctx.widget[TypeId]);
    if chartType.Failure? {
      return Failure(chartType.error);
    }
    var textAbove := GetStringParameterValue(ctx.widget[TextAboveId]);
    var textBelow := GetStringParameterValue(ctx.widget[TextBelowId]);
    var pattern := GetRequiredStringParameterValue(ctx.widget[DateFormatId]);
    if pattern.Failure? {
      return Failure(pattern.error);
    }
    if !sv.validPattern(pattern.value) {
      return Failure(IllegalArgument(pattern.value));
    }
    var dates := InitDates(ctx, year, sv.parseInt);
    if dates.Failure? {
      return Failure(dates.error);
    }
    var sources := GetAll(ctx.dataSource, ctx.additionalSources, sv.loader);
    if sources.Failure? {
      return Failure(sources.error);
    }
    var order := sv.sourceOrder(sources.value);
    var data := LoadData.LoadData(sources.value, order, dates.value, sv.parseInt, sv.parseDate);
    if data.Failure? {
      return Failure(data.error);
    }
    var timestamps := CollectTimestamps(sources.value, order);
    var workingDays := sv.workingDays(dates.value);
    var stats := ComputeStatistics(data.value, sv.entryOrder);
    var ts := sv.timestampOrder(timestamps);
    var formatDate := sv.formatDate(pattern.value);
    var above := textAbove;
    if textAbove.Some? {
      var t := ProcessText(textAbove.value, stats, workingDays, ts, sv.formatRatio, formatDate);
      above := Some(t);
    }
    var below := textBelow;
    if textBelow.Some? {
      var t := ProcessText(textBelow.value, stats, workingDays, ts, sv.formatRatio, formatDate);
      below := Some(t);
    }
    r := Success(Setup(title, ctx.series, scale.value, chartType.value, above, below, pattern.value, data.value, timestamps));
  }

  /** One series as the chart shows it. */
  datatype SerieView = SerieView(name: Option<string>, color: Option<string>, serieType: Option<string>, points: Serie)

  datatype Chart = Chart(title: Option<string>, chartType: string, series: seq<SerieView>, yMin: Int32)

  /** What render() produces: context.renderError, context.renderWarning, the texts around the chart, or an exception it lets through. */
  datatype Page =
    | ErrorPage(error: Exception)
    | WarningPage(message: string)
    | ChartPage(above: Option<string>, chart: Chart, below: Option<string>)
    | Thrown(exception: Exception)

  /** Math.min on two ints. */
  function MinInt32(a: Int32, b: Int32): Int32 {
    if a <= b then a else b
  }

  /**
   * buildSerie: name and color are optional, the data key and the
   * aggregation are required, the aggregation must name a constant; the
   * points are the key's series, scaled and aggregated, and the result
   * carries their minimum.
   */
  function BuildSerieOf(s: Setup, p: CompositeParameter, firstDayOfWeek: Weekday): Result<(SerieView, Int32), Exception>
    requires HasSerieParameters(p)
  {
    var name := GetStringParameterValue(p[SerieNameId]);
    var color := GetStringParameterValue(p[ColorId]);
    var dataKey :- GetRequiredStringParameterValue(p[DataKeyId]);
    var aggName :- GetRequiredStringParameterValue(p[AggregationId]);
    var agg :- ParseAggregation(aggName);
    var serieType := GetStringParameterValue(p[SerieTypeId]);
    var points := Points(Bucketed(SeriesOf(s.data, dataKey), BucketOf(s.scale, firstDayOfWeek), agg));
    Success((SerieView(name, color, serieType, points), MinValue(points)))
  }

  /** A series is drawn when its name, its color or its data key is set. */
  predicate Shown(p: CompositeParameter)
    requires HasSerieParameters(p)
  {
    AtLeastOneParameterIsSet(p, [SerieNameId, ColorId, DataKeyId])
  }

  /** renderChart's loop: the shown series built in order, the minimum starting at 0. */
  function RenderSeriesOf(s: Setup, ps: seq<CompositeParameter>, firstDayOfWeek: Weekday): Result<(seq<SerieView>, Int32), Exception>
    requires AllSeriesParameters(ps)
    decreases |ps|
  {
    if ps == [] then Success(([], 0))
    else
      var n := |ps| - 1;
      var done :- RenderSeriesOf(s, ps[..n], firstDayOfWeek);
      if !Shown(ps[n]) then Success(done)
      else
        var built :- BuildSerieOf(s, ps[n], firstDayOfWeek);
        Success((done.0 + [built.0], MinInt32(done.1, built.1)))
  }

  /** render(): the error, else the warning, else the chart; a RequiredParameterException while charting becomes a warning. */
  function RenderOf(outcome: Result<Setup, Exception>, firstDayOfWeek: Weekday): Page
    requires outcome.Success? ==> AllSeriesParameters(outcome.value.series)
  {
    match outcome
    case Failure(e) => if e.RequiredParameter? then WarningPage(e.message) else ErrorPage(e)
    case Success(s) =>
      match RenderSeriesOf(s, s.series, firstDayOfWeek)
      case Failure(e) => if e.RequiredParameter? then WarningPage(e.message) else Thrown(e)
      case Success(built) => ChartPage(s.textAbove, Chart(s.title, s.chartType, built.0, built.1), s.textBelow)
  }

  /** Once a prefix of the series fails, renderChart fails with the same exception. */
  lemma {:induction false} RenderSeriesFailurePersists(s: Setup, ps: seq<CompositeParameter>, k: nat, firstDayOfWeek: Weekday)
    requires AllSeriesParameters(ps) && k <= |ps|
    requires RenderSeriesOf(s, ps[..k], firstDayOfWeek).Failure?
    ensures RenderSeriesOf(s, ps, firstDayOfWeek) == RenderSeriesOf(s, ps[..k], firstDayOfWeek)
    decreases |ps|
  {
    if k < |ps| {
      var init := ps[..|ps| - 1];
      assert init[..k] == ps[..k];
      RenderSeriesFailurePersists(s, init, k, firstDayOfWeek);
    } else {
      assert ps[..k] == ps;
    }
  }

  /** One more series: renderChart's outcome after it, from its outcome before it. */
  lemma RenderSeriesStep(s: Setup, ps: seq<CompositeParameter>, i: int, firstDayOfWeek: Weekday)
    requires AllSeriesParameters(ps) && 0 <= i < |ps|
    ensures RenderSeriesOf(s, ps[..i + 1], firstDayOfWeek) ==
            match RenderSeriesOf(s, ps[..i], firstDayOfWeek)
            case Failure(e) => Failure(e)
            case Success(done) =>
              if !Shown(ps[i]) then Success(done)
              else match BuildSerieOf(s, ps[i], firstDayOfWeek)
                   case Failure(e) => Failure(e)
                   case Success(built) => Success((done.0 + [built.0], MinInt32(done.1, built.1)))
  {
    assert ps[..i + 1][..i] == ps[..i];
  }

  /** The series renderChart draws, in configuration order. */
  function ShownSeries(ps: seq<CompositeParameter>): (r: seq<CompositeParameter>)
    requires AllSeriesParameters(ps)
    ensures AllSeriesParameters(r)
    ensures forall i :: 0 <= i < |r| ==> Shown(r[i]) && r[i] in ps
    ensures forall i :: 0 <= i < |ps| && Shown(ps[i]) ==> ps[i] in r
    decreases |ps|
  {
    if ps == [] then []
    else
      var n := |ps| - 1;
      ShownSeries(ps[..n]) + if Shown(ps[n]) then [ps[n]] else []
  }

  /** View v is what buildSerie makes of the series parameters q. */
  predicate Builds(s: Setup, q: CompositeParameter, firstDayOfWeek: Weekday, v: SerieView) {
    HasSerieParameters(q) && BuildSerieOf(s, q, firstDayOfWeek).Success? && BuildSerieOf(s, q, firstDayOfWeek).value.0 == v
  }

  /** The series q is shown and buildSerie throws on it. */
  predicate FailsToBuild(s: Setup, q: CompositeParameter, firstDayOfWeek: Weekday)
    requires HasSerieParameters(q)
  {
    Shown(q) && BuildSerieOf(s, q, firstDayOfWeek).Failure?
  }

  /** The chart holds one view per shown series, each built from that series, in order. */
  lemma {:induction false} RenderSeriesBuildsShown(s: Setup, ps: seq<CompositeParameter>, firstDayOfWeek: Weekday)
    requires AllSeriesParameters(ps) && RenderSeriesOf(s, ps, firstDayOfWeek).Success?
    ensures var views := RenderSeriesOf(s, ps, firstDayOfWeek).value.0;
            var shown := ShownSeries(ps);
            |views| == |shown| && forall i :: 0 <= i < |shown| ==> Builds(s, shown[i], firstDayOfWeek, views[i])
    decreases |ps|
  {
    if ps != [] {
      var n := |ps| - 1;
      RenderSeriesBuildsShown(s, ps[..n], firstDayOfWeek);
    }
  }

  /**
   * renderChart throws exactly when some shown series fails to build, and
   * what it throws is the failure of the first such series.
   */
  lemma {:induction false} RenderSeriesFailure(s: Setup, ps: seq<CompositeParameter>, firstDayOfWeek: Weekday)
    requires AllSeriesParameters(ps)
    ensures RenderSeriesOf(s, ps, firstDayOfWeek).Failure? <==>
            exists i :: 0 <= i < |ps| && FailsToBuild(s, ps[i], firstDayOfWeek)
    ensures RenderSeriesOf(s, ps, firstDayOfWeek).Failure? ==>
            exists i :: 0 <= i < |ps| && FailsToBuild(s, ps[i], firstDayOfWeek) &&
                        RenderSeriesOf(s, ps, firstDayOfWeek).error == BuildSerieOf(s, ps[i], firstDayOfWeek).error &&
                        forall j :: 0 <= j < i ==> !FailsToBuild(s, ps[j], firstDayOfWeek)
    decreases |ps|
  {
    if ps != [] {
      var n := |ps| - 1;
      var init := ps[..n];
      RenderSeriesFailure(s, init, firstDayOfWeek);
      assert forall j :: 0 <= j < n ==> init[j] == ps[j];
      if RenderSeriesOf(s, init, firstDayOfWeek).Failure? {
        var i :| 0 <= i < n && FailsToBuild(s, init[i], firstDayOfWeek) &&
                 RenderSeriesOf(s, init, firstDayOfWeek).error == BuildSerieOf(s, init[i], firstDayOfWeek).error &&
                 forall j :: 0 <= j < i ==> !FailsToBuild(s, init[j], firstDayOfWeek);
        assert FailsToBuild(s, ps[i], firstDayOfWeek);
      } else if FailsToBuild(s, ps[n], firstDayOfWeek) {
        assert forall j :: 0 <= j < n ==> !FailsToBuild(s, ps[j], firstDayOfWeek);
      } else {
        forall i | 0 <= i < |ps|
          ensures !FailsToBuild(s, ps[i], firstDayOfWeek)
        {
          if i < n {
            assert !FailsToBuild(s, init[i], firstDayOfWeek);
          }
        }
      }
    }
  }

  /** Some point of some view has value v. */
  predicate Plotted(views: seq<SerieView>, v: Int32) {
    exists i, j :: 0 <= i < |views| && 0 <= j < |views[i].points| && views[i].points[j].1 == v
  }

  /** m is a y-axis minimum for the views: not above 0, not above any plotted value, and 0 or a plotted value. */
  predicate AxisMinimum(views: seq<SerieView>, m: Int32) {
    && m <= 0
    && (forall i, j :: 0 <= i < |views| && 0 <= j < |views[i].points| ==> m <= views[i].points[j].1)
    && (m == 0 || Plotted(views, m))
  }

  /** Math.min with one more series' minimum keeps the axis minimum. */
  lemma MinimumStep(views: seq<SerieView>, m: Int32, view: SerieView)
    requires AxisMinimum(views, m)
    ensures AxisMinimum(views + [view], MinInt32(m, MinValue(view.points)))
  {
    var mv := MinValue(view.points);
    var views' := views + [view];
    var m' := MinInt32(m, mv);
    forall i, j | 0 <= i < |views'| && 0 <= j < |views'[i].points|
      ensures m' <= views'[i].points[j].1
    {
      if i < |views| {
        assert views'[i] == views[i];
      }
    }
    if m' != 0 {
      if m' == m {
        var i, j :| 0 <= i < |views| && 0 <= j < |views[i].points| && views[i].points[j].1 == m;
        assert views'[i] == views[i];
      } else {
        assert view.points != [];
        var j :| 0 <= j < |view.points| && mv == view.points[j].1;
        assert views'[|views|] == view;
      }
    }
  }

  /**
   * The y-axis minimum renderChart computes: never above 0, never above a
   * plotted value, and either 0 or the value of some plotted point.
   */
  lemma {:induction false} RenderSeriesMinimum(s: Setup, ps: seq<CompositeParameter>, firstDayOfWeek: Weekday)
    requires AllSeriesParameters(ps) && RenderSeriesOf(s, ps, firstDayOfWeek).Success?
    ensures AxisMinimum(RenderSeriesOf(s, ps, firstDayOfWeek).value.0, RenderSeriesOf(s, ps, firstDayOfWeek).value.1)
    decreases |ps|
  {
    if ps != [] {
      var n := |ps| - 1;
      RenderSeriesMinimum(s, ps[..n], firstDayOfWeek);
      if Shown(ps[n]) {
        var done := RenderSeriesOf(s, ps[..n], firstDayOfWeek).value;
        var view := BuildSerieOf(s, ps[n], firstDayOfWeek).value.0;
        MinimumStep(done.0, done.1, view);
      }
    }
  }

  /**
   * The points plot `key` aggregated with `agg`: in date order, each one the
   * aggregate of the key's values in its bucket, and every date holding the
   * key with its bucket plotted.
   */
  predicate PlotsKey(data: DataMap, key: string, scale: Scale, agg: Aggregation, firstDayOfWeek: Weekday, points: Serie) {
    && Chronological(points)
    && (forall i :: 0 <= i < |points| ==>
          Some(points[i].1) == Aggregate(agg, BucketValues(SeriesOf(data, key), BucketOf(scale, firstDayOfWeek), points[i].0)))
    && (forall d :: d in data && key in data[d] ==> HasPointAt(points, ScaleDate(scale, d, firstDayOfWeek)))
  }

  /** The key's series, scaled and aggregated, plots the key. */
  lemma KeyPointsPlot(data: DataMap, key: string, scale: Scale, agg: Aggregation, firstDayOfWeek: Weekday)
    ensures PlotsKey(data, key, scale, agg, firstDayOfWeek, Points(Bucketed(SeriesOf(data, key), BucketOf(scale, firstDayOfWeek), agg)))
  {
    var bucket := BucketOf(scale, firstDayOfWeek);
    PointsAreEntries(Bucketed(SeriesOf(data, key), bucket, agg));
    PlottedAggregates(SeriesOf(data, key), bucket, agg);
    PlottedBuckets(data, key, scale, firstDayOfWeek, agg);
  }

  /**
   * buildSerie on a series with data key `key` and aggregation `agg`
   * succeeds, its points plot the key, and the minimum it returns lies at
   * or below every point.
   */
  lemma BuildSeriePoints(s: Setup, p: CompositeParameter, firstDayOfWeek: Weekday, key: string, agg: Aggregation)
    requires HasSerieParameters(p)
    requires GetStringParameterValue(p[DataKeyId]) == Some(key)
    requires GetStringParameterValue(p[AggregationId]).Some?
    requires ParseAggregation(GetStringParameterValue(p[AggregationId]).value) == Success(agg)
    ensures BuildSerieOf(s, p, firstDayOfWeek).Success?
    ensures PlotsKey(s.data, key, s.scale, agg, firstDayOfWeek, BuildSerieOf(s, p, firstDayOfWeek).value.0.points)
    ensures forall i :: 0 <= i < |BuildSerieOf(s, p, firstDayOfWeek).value.0.points| ==>
              BuildSerieOf(s, p, firstDayOfWeek).value.1 <= BuildSerieOf(s, p, firstDayOfWeek).value.0.points[i].1
  {
    KeyPointsPlot(s.data, key, s.scale, agg, firstDayOfWeek);
  }

  /**
   * The loaded data lies in the configured window: with a year, every date
   * falls in that calendar year; without one, between the from and to
   * dates.
   */
  lemma SetupDataWindow(ctx: Context, sv: Services)
    requires WellFormed(ctx) && OrdersListKeys(sv) && SetupOf(ctx, sv).Success?
    ensures var data := SetupOf(ctx, sv).value.data;
            var year := GetStringParameterValue(ctx.dates[YearId]);
            && (year.None? ==> forall d :: d in data ==> ctx.from <= d <= ctx.to)
            && (year.Some? ==> sv.parseInt(year.value).Some? &&
                               forall d :: d in data ==> YearOf(DayOf(d)) == sv.parseInt(year.value).value)
  {
    var data := SetupOf(ctx, sv).value.data;
    var year := GetStringParameterValue(ctx.dates[YearId]);
    var dates := InitDates(ctx, year, sv.parseInt).value;
    var sources := AllSources(ctx.dataSource, ctx.additionalSources, sv.loader).value;
    var order := sv.sourceOrder(sources);
    assert IsEnumeration(order, sources.Keys);
    LoadAllContents(sources, order, dates, sv.parseInt, sv.parseDate, data);
    if year.Some? {
      var n := sv.parseInt(year.value).value;
      forall d | d in data
        ensures YearOf(DayOf(d)) == n
      {
        assert dates.Contains(d);
        YearWindowIsYear(n, d);
      }
    }
  }

  /**
   * The texts around the chart: absent when not configured, free of
   * placeholders when configured, and shown as configured when they hold
   * no "${".
   */
  lemma SetupTexts(ctx: Context, sv: Services)
    requires WellFormed(ctx) && OrdersListKeys(sv) && SetupOf(ctx, sv).Success?
    ensures var r := SetupOf(ctx, sv).value;
            var above := GetStringParameterValue(ctx.widget[TextAboveId]);
            var below := GetStringParameterValue(ctx.widget[TextBelowId]);
            && (r.textAbove.None? <==> above.None?)
            && (r.textBelow.None? <==> below.None?)
            && (r.textAbove.Some? ==> !HasSpan(r.textAbove.value))
            && (r.textBelow.Some? ==> !HasSpan(r.textBelow.value))
            && (above.Some? && NoOpen(above.value) ==> r.textAbove == above)
            && (below.Some? && NoOpen(below.value) ==> r.textBelow == below)
  {
    var above := GetStringParameterValue(ctx.widget[TextAboveId]);
    var below := GetStringParameterValue(ctx.widget[TextBelowId]);
    var pattern := GetStringParameterValue(ctx.widget[DateFormatId]).value;
    var year := GetStringParameterValue(ctx.dates[YearId]);
    var dates := InitDates(ctx, year, sv.parseInt).value;
    var sources := AllSources(ctx.dataSource, ctx.additionalSources, sv.loader).value;
    var data := SetupOf(ctx, sv).value.data;
    var stats := StatisticsOf(data, sv.entryOrder);
    var ts := sv.timestampOrder(TimestampsOf(sources));
    if above.Some? && NoOpen(above.value) {
      ProcessTextPlain(above.value, stats, sv.workingDays(dates), ts, sv.formatRatio, sv.formatDate(pattern));
    }
    if below.Some? && NoOpen(below.value) {
      ProcessTextPlain(below.value, stats, sv.workingDays(dates), ts, sv.formatRatio, sv.formatDate(pattern));
    }
  }

  /**
   * The required parameters of the constructor, in the order it reads
   * them: a blank scale, chart type or date format makes the page the
   * warning naming that parameter's caption; an unknown scale name, a date
   * pattern SimpleDateFormat rejects or a year that does not parse makes it
   * an error.
   */
  lemma SetupRequired(ctx: Context, sv: Services, firstDayOfWeek: Weekday)
    requires WellFormed(ctx) && OrdersListKeys(sv)
    ensures GetStringParameterValue(ctx.dates[ScaleId]).None? ==>
              RenderOf(SetupOf(ctx, sv), firstDayOfWeek) == WarningPage(RequiredMessage(ctx.dates[ScaleId].caption))
    ensures var scale := GetStringParameterValue(ctx.dates[ScaleId]);
            scale.Some? && (forall sc: Scale :: ScaleName(sc) != scale.value) ==>
              RenderOf(SetupOf(ctx, sv), firstDayOfWeek) == ErrorPage(IllegalArgument(scale.value))
    ensures GetStringParameterValue(ctx.dates[ScaleId]).Some? && ParseScale(GetStringParameterValue(ctx.dates[ScaleId]).value).Success? &&
            GetStringParameterValue(ctx.widget[TypeId]).None? ==>
              RenderOf(SetupOf(ctx, sv), firstDayOfWeek) == WarningPage(RequiredMessage(ctx.widget[TypeId].caption))
    ensures var scale := GetStringParameterValue(ctx.dates[ScaleId]);
            var pattern := GetStringParameterValue(ctx.widget[DateFormatId]);
            var year := GetStringParameterValue(ctx.dates[YearId]);
            scale.Some? && ParseScale(scale.value).Success? && GetStringParameterValue(ctx.widget[TypeId]).Some? ==>
              && (pattern.None? ==>
                    RenderOf(SetupOf(ctx, sv), firstDayOfWeek) == WarningPage(RequiredMessage(ctx.widget[DateFormatId].caption)))
              && (pattern.Some? && !sv.validPattern(pattern.value) ==>
                    RenderOf(SetupOf(ctx, sv), firstDayOfWeek) == ErrorPage(IllegalArgument(pattern.value)))
              && (pattern.Some? && sv.validPattern(pattern.value) && year.Some? && sv.parseInt(year.value).None? ==>
                    RenderOf(SetupOf(ctx, sv), firstDayOfWeek) == ErrorPage(NumberFormat(year.value)))
    ensures SetupOf(ctx, sv).Success? ==>
              && Some(ScaleName(SetupOf(ctx, sv).value.scale)) == GetStringParameterValue(ctx.dates[ScaleId])
              && Some(SetupOf(ctx, sv).value.chartType) == GetStringParameterValue(ctx.widget[TypeId])
              && Some(SetupOf(ctx, sv).value.datePattern) == GetStringParameterValue(ctx.widget[DateFormatId])
              && SetupOf(ctx, sv).value.series == ctx.series
  {
  }

  class TrendChartRenderer {
    var title: Option<string>
    var series: seq<CompositeParameter>
    var scale: Scale
    var chartType: string
    var textAbove: Option<string>
    var textBelow: Option<string>
    var datePattern: string
    var data: DataMap
    var timestamps: map<Option<string>, int>
    var warning: Option<string>
    var error: Option<Exception>
    const firstDayOfWeek: Weekday

    /** The fields read as a setup. */
    function Current(): Setup
      reads this
    {
      Setup(title, series, scale, chartType, textAbove, textBelow, datePattern, data, timestamps)
    }

    /** What the constructor ended with: the error, the warning, or the filled fields. */
    function Outcome(): Result<Setup, Exception>
      reads this
    {
      if error.Some? then Failure(error.value)
      else if warning.Some? then Failure(RequiredParameter(warning.value))
      else Success(Current())
    }

    /** At most one of warning and error is set, the error is never a RequiredParameterException, and the series are complete. */
    predicate Valid()
      reads this
    {
      && !(error.Some? && warning.Some?)
      && (error.Some? ==> !error.value.RequiredParameter?)
      && AllSeriesParameters(series)
    }

    /** The constructor: the setup, with RequiredParameterException caught as the warning and any other exception as the error. */
    constructor (ctx: Context, sv: Services)
      requires WellFormed(ctx) && OrdersListKeys(sv)
      ensures Valid()
      ensures Outcome() == SetupOf(ctx, sv)
      ensures firstDayOfWeek == sv.firstDayOfWeek
    {
      var r := RunSetup(ctx, sv);
      firstDayOfWeek := sv.firstDayOfWeek;
      match r
      case Success(s) =>
        title, series, scale, chartType := s.title, s.series, s.scale, s.chartType;
        textAbove, textBelow, datePattern := s.textAbove, s.textBelow, s.datePattern;
        data, timestamps := s.data, s.timestamps;
        warning, error := None, None;
      case Failure(e) =>
        series := [];
        if e.RequiredParameter? {
          warning, error := Some(e.message), None;
        } else {
          warning, error := None, Some(e);
        }
    }

    /** buildSerie: reads the series' parameters, filters the data by its key and plots it. */
    method BuildSerie(p: CompositeParameter) returns (r: Result<(SerieView, Int32), Exception>)
      requires HasSerieParameters(p)
      ensures r == BuildSerieOf(Current(), p, firstDayOfWeek)
    {
      var name := GetStringParameterValue(p[SerieNameId]);
      var color := GetStringParameterValue(p[ColorId]);
      var dataKey := GetRequiredStringParameterValue(p[DataKeyId]);
      if dataKey.Failure? {
        return Failure(dataKey.error);
      }
      var aggName := GetRequiredStringParameterValue(p[AggregationId]);
      if aggName.Failure? {
        return Failure(aggName.error);
      }
      var agg := ParseAggregation(aggName.value);
      if agg.Failure? {
        return Failure(agg.error);
      }
      var serieType := GetStringParameterValue(p[SerieTypeId]);
      var serieRawData := FilterDataByKey(data, dataKey.value);
      var points, minValue := PlotScaledData(serieRawData, scale, agg.value, firstDayOfWeek);
      r := Success((SerieView(name, color, serieType, points), minValue));
    }

    /** renderChart: every shown series built, the chart minimum lowered to each series' minimum. */
    method RenderChart() returns (r: Result<(seq<SerieView>, Int32), Exception>)
      requires AllSeriesParameters(series)
      ensures r == RenderSeriesOf(Current(), series, firstDayOfWeek)
    {
      ghost var s := Current();
      var views: seq<SerieView> := [];
      var minValue: Int32 := 0;
      var i := 0;
      while i < |series|
        invariant 0 <= i <= |series|
        invariant RenderSeriesOf(s, series[..i], firstDayOfWeek) == Success((views, minValue))
      {
        RenderSeriesStep(s, series, i, firstDayOfWeek);
        var p := series[i];
        if AtLeastOneParameterIsSet(p, [SerieNameId, ColorId, DataKeyId]) {
          var built := BuildSerie(p);
          if built.Failure? {
            RenderSeriesFailurePersists(s, series, i + 1, firstDayOfWeek);
            return Failure(built.error);
          }
          views := views + [built.value.0];
          minValue := if minValue <= built.value.1 then minValue else built.value.1;
        }
        i := i + 1;
      }
      assert series[..i] == series;
      r := Success((views, minValue));
    }

    /** render() */
    method Render() returns (page: Page)
      requires Valid()
      ensures page == RenderOf(Outcome(), firstDayOfWeek)
    {
      if error.Some? {
        return ErrorPage(error.value);
      }
      if warning.Some? {
        return WarningPage(warning.value);
      }
      var chart := RenderChart();
      match chart
      case Failure(e) =>
        page := if e.RequiredParameter? then WarningPage(e.message) else Thrown(e);
      case Success(built) =>
        page := ChartPage(textAbove, Chart(title, chartType, built.0, built.1), textBelow);
    }
  }
}
