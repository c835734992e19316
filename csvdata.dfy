/**
 * The CSV sources of the trend chart (csv/CSVData.java): a resource's lines
 * split into rows on a literal separator, row 0 being the header, and the
 * name-keyed bag of all configured sources that CSVData.getAll builds.
 */
module CsvData {
  import opened Utils
  import opened Text

  /** CSVData: the rows of one resource and the instant it last changed. */
  datatype CsvTable = CsvTable(rows: seq<seq<string>>, timestamp: int) {
    /** CSVData.getHeader: row 0, or no cells when there is no row. */
    function Header(): seq<string> {
      if |rows| > 0 then rows[0] else []
    }
  }

  /** What Utils.loadContent delivers for a location: the lines of the resource and its last-changed instant. */
  datatype Content = Content(lines: seq<string>, timestamp: int)

  /** Repository access: the content at a location, or None when it cannot be read. */
  type Loader = string -> Option<Content>

  const NameId: string := "name"
  const LocationId: string := "dataLocation"
  const SeparatorId: string := "fieldSeparator"

  /** The rows of a resource: each line split on the separator, in line order. */
  function ParseRows(lines: seq<string>, separator: string): (rows: seq<seq<string>>)
    requires separator != []
    ensures |rows| == |lines|
    ensures forall i :: 0 <= i < |lines| ==> rows[i] == Split(lines[i], separator)
  {
    if lines == [] then []
    else ParseRows(lines[..|lines| - 1], separator) + [Split(lines[|lines| - 1], separator)]
  }

  /** The reading loop of CSVData(dataLocation, separator): one row per line, appended in line order. */
  method Load(content: Content, separator: string) returns (t: CsvTable)
    requires separator != []
    ensures t == CsvTable(ParseRows(content.lines, separator), content.timestamp)
    ensures |t.rows| == |content.lines|
    ensures t.Header() == if content.lines == [] then [] else Split(content.lines[0], separator)
  {
    var rows: seq<seq<string>> := [];
    var i := 0;
    while i < |content.lines|
      invariant 0 <= i <= |content.lines|
      invariant rows == ParseRows(content.lines[..i], separator)
    {
      assert content.lines[..i + 1][..i] == content.lines[..i];
      rows := rows + [Split(content.lines[i], separator)];
      i := i + 1;
    }
    assert content.lines[..i] == content.lines;
    t := CsvTable(rows, content.timestamp);
  }

  /**
   * The state a visitor reaches after being shown the rows in order, each
   * with its index; Java's Visitor callback becomes a function from the
   * state before a row to the state after it.
   */
  function VisitFold<S>(rows: seq<seq<string>>, visitor: (S, nat, seq<string>) -> S, init: S): S
    decreases |rows|
  {
    if rows == [] then init
    else visitor(VisitFold(rows[..|rows| - 1], visitor, init), |rows| - 1, rows[|rows| - 1])
  }

  /** CSVData.visit: the visitor is called once per row, with indices 0 .. |rows|-1 in increasing order. */
  method Visit<S>(t: CsvTable, visitor: (S, nat, seq<string>) -> S, init: S) returns (s: S)
    ensures s == VisitFold(t.rows, visitor, init)
  {
    s := init;
    var i := 0;
    while i < |t.rows|
      invariant 0 <= i <= |t.rows|
      invariant s == VisitFold(t.rows[..i], visitor, init)
    {
      assert t.rows[..i + 1][..i] == t.rows[..i];
      s := visitor(s, i, t.rows[i]);
      i := i + 1;
    }
    assert t.rows[..i] == t.rows;
  }

  /** A visitor that records every call it receives. */
  function Record(calls: seq<(nat, seq<string>)>, rowNum: nat, row: seq<string>): seq<(nat, seq<string>)> {
    calls + [(rowNum, row)]
  }

  /** Recording the calls of a visit yields each row exactly once, paired with its own index, in row order. */
  lemma {:induction false} VisitCallsEachRowOnce(rows: seq<seq<string>>)
    ensures var calls := VisitFold(rows, Record, []);
            |calls| == |rows| && forall i :: 0 <= i < |rows| ==> calls[i] == (i, rows[i])
    decreases |rows|
  {
    if rows != [] {
      var init := rows[..|rows| - 1];
      VisitCallsEachRowOnce(init);
    }
  }

  predicate HasSourceParameters(p: CompositeParameter) {
    LocationId in p && SeparatorId in p
  }

  /**
   * CSVData(CompositeParameter): the location and then the separator are
   * required; the resource at the location is loaded and split.
   */
  function Source(p: CompositeParameter, loader: Loader): (r: Result<CsvTable, Exception>)
    requires HasSourceParameters(p)
    ensures r.Success? <==>
              && GetStringParameterValue(p[LocationId]).Some?
              && GetStringParameterValue(p[SeparatorId]).Some?
              && loader(GetStringParameterValue(p[LocationId]).value).Some?
    ensures GetStringParameterValue(p[LocationId]).None? ==>
              r == Failure(RequiredParameter(RequiredMessage(p[LocationId].caption)))
    ensures GetStringParameterValue(p[LocationId]).Some? && GetStringParameterValue(p[SeparatorId]).None? ==>
              r == Failure(RequiredParameter(RequiredMessage(p[SeparatorId].caption)))
    ensures r.Success? ==>
              var content := loader(GetStringParameterValue(p[LocationId]).value).value;
              |r.value.rows| == |content.lines| && r.value.timestamp == content.timestamp
  {
    var location :- GetRequiredStringParameterValue(p[LocationId]);
    var separator :- GetRequiredStringParameterValue(p[SeparatorId]);
    match loader(location)
    case None => Failure(Io(location))
    case Some(content) => Success(CsvTable(ParseRows(content.lines, separator), content.timestamp))
  }

  /** The CSVData(CompositeParameter) constructor, reading the resource with Load. */
  method Open(p: CompositeParameter, loader: Loader) returns (r: Result<CsvTable, Exception>)
    requires HasSourceParameters(p)
    ensures r == Source(p, loader)
  {
    var location := GetRequiredStringParameterValue(p[LocationId]);
    if location.Failure? {
      return Failure(location.error);
    }
    var separator := GetRequiredStringParameterValue(p[SeparatorId]);
    if separator.Failure? {
      return Failure(separator.error);
    }
    var content := loader(location.value);
    if content.None? {
      return Failure(Io(location.value));
    }
    var t := Load(content.value, separator.value);
    r := Success(t);
  }

  predicate HasNamedSourceParameters(p: CompositeParameter) {
    NameId in p && HasSourceParameters(p)
  }

  /** An additional source is taken into account when its name or its location is set. */
  predicate Configured(p: CompositeParameter)
    requires HasNamedSourceParameters(p)
  {
    AtLeastOneParameterIsSet(p, [NameId, LocationId])
  }

  function SourceName(p: CompositeParameter): Option<string>
    requires HasNamedSourceParameters(p)
  {
    GetStringParameterValue(p[NameId])
  }

  /** One step of getAll's loop: skip an unconfigured source, else require its name and put it under that name. */
  function AddSource(all: map<Option<string>, CsvTable>, p: CompositeParameter, loader: Loader)
    : Result<map<Option<string>, CsvTable>, Exception>
    requires HasNamedSourceParameters(p)
  {
    if !Configured(p) then Success(all)
    else
      var name :- GetRequiredStringParameterValue(p[NameId]);
      var t :- Source(p, loader);
      Success(all[Some(name) := t])
  }

  predicate AllNamed(additional: seq<CompositeParameter>) {
    forall i :: 0 <= i < |additional| ==> HasNamedSourceParameters(additional[i])
  }

  /** CSVData.getAll: the primary source under None, then the additional sources in list order. */
  function AllSources(primary: CompositeParameter, additional: seq<CompositeParameter>, loader: Loader)
    : Result<map<Option<string>, CsvTable>, Exception>
    requires HasSourceParameters(primary) && AllNamed(additional)
    decreases |additional|
  {
    if additional == [] then
      var t :- Source(primary, loader);
      Success(map[None := t])
    else
      var all :- AllSources(primary, additional[..|additional| - 1], loader);
      AddSource(all, additional[|additional| - 1], loader)
  }

  /** Once a prefix of the sources fails, the whole bag fails with the same exception. */
  lemma {:induction false} AllSourcesFailurePersists(primary: CompositeParameter, additional: seq<CompositeParameter>, k: nat, loader: Loader)
    requires HasSourceParameters(primary) && AllNamed(additional)
    requires k <= |additional|
    requires AllSources(primary, additional[..k], loader).Failure?
    ensures AllSources(primary, additional, loader) == AllSources(primary, additional[..k], loader)
    decreases |additional|
  {
    if k < |additional| {
      var init := additional[..|additional| - 1];
      assert init[..k] == additional[..k];
      AllSourcesFailurePersists(primary, init, k, loader);
    } else {
      assert additional[..k] == additional;
    }
  }

  /** CSVData.getAll's loop. */
  method GetAll(primary: CompositeParameter, additional: seq<CompositeParameter>, loader: Loader)
      returns (r: Result<map<Option<string>, CsvTable>, Exception>)
    requires HasSourceParameters(primary) && AllNamed(additional)
    ensures r == AllSources(primary, additional, loader)
  {
    var defaultData := Open(primary, loader);
    if defaultData.Failure? {
      AllSourcesFailurePersists(primary, additional, 0, loader);
      return Failure(defaultData.error);
    }
    var all := map[None := defaultData.value];
    var i := 0;
    assert additional[..0] == [];
    while i < |additional|
      invariant 0 <= i <= |additional|
      invariant AllSources(primary, additional[..i], loader) == Success(all)
    {
      var p := additional[i];
      assert additional[..i + 1][..i] == additional[..i];
      if AtLeastOneParameterIsSet(p, [NameId, LocationId]) {
        var name := GetRequiredStringParameterValue(p[NameId]);
        if name.Failure? {
          AllSourcesFailurePersists(primary, additional, i + 1, loader);
          return Failure(name.error);
        }
        var t := Open(p, loader);
        if t.Failure? {
          AllSourcesFailurePersists(primary, additional, i + 1, loader);
          return Failure(t.error);
        }
        all := all[Some(name.value) := t.value];
      }
      i := i + 1;
    }
    assert additional[..i] == additional;
    r := Success(all);
  }

  /**
   * getAll succeeds exactly when the primary source loads and every
   * configured additional source has a name and loads.
   */
  lemma {:induction false} AllSourcesSucceeds(primary: CompositeParameter, additional: seq<CompositeParameter>, loader: Loader)
    requires HasSourceParameters(primary) && AllNamed(additional)
    ensures AllSources(primary, additional, loader).Success? <==>
              && Source(primary, loader).Success?
              && forall j :: 0 <= j < |additional| && Configured(additional[j]) ==>
                   SourceName(additional[j]).Some? && Source(additional[j], loader).Success?
    decreases |additional|
  {
    if additional != [] {
      var init := additional[..|additional| - 1];
      AllSourcesSucceeds(primary, init, loader);
      assert forall j :: 0 <= j < |init| ==> init[j] == additional[j];
    }
  }

  /** A configured additional source that stops getAll: its name is blank or it does not load. */
  predicate SourceFails(p: CompositeParameter, loader: Loader)
    requires HasNamedSourceParameters(p)
  {
    Configured(p) && (SourceName(p).None? || Source(p, loader).Failure?)
  }

  /** The exception such a source throws: the missing name is reported before the source is opened. */
  function SourceError(p: CompositeParameter, loader: Loader): Exception
    requires HasNamedSourceParameters(p) && SourceFails(p, loader)
  {
    if SourceName(p).None? then RequiredParameter(RequiredMessage(p[NameId].caption))
    else Source(p, loader).error
  }

  /** The first additional source that stops getAll, if any. */
  function FirstFailing(additional: seq<CompositeParameter>, loader: Loader): (r: Option<nat>)
    requires AllNamed(additional)
    ensures r.Some? ==> r.value < |additional| && SourceFails(additional[r.value], loader)
    ensures r.Some? ==> forall l :: 0 <= l < r.value ==> !SourceFails(additional[l], loader)
    ensures r.None? ==> forall l :: 0 <= l < |additional| ==> !SourceFails(additional[l], loader)
    decreases |additional|
  {
    if additional == [] then None
    else
      var init := additional[..|additional| - 1];
      assert forall l :: 0 <= l < |init| ==> init[l] == additional[l];
      match FirstFailing(init, loader)
      case Some(j) => Some(j)
      case None => if SourceFails(additional[|additional| - 1], loader) then Some(|additional| - 1) else None
  }

  /**
   * What getAll throws: the primary source's exception when it does not
   * load; otherwise the first configured additional source without a name
   * fails with RequiredParameterException naming the name parameter, and
   * the first that does not load with its own exception.
   */
  lemma {:induction false} AllSourcesFailure(primary: CompositeParameter, additional: seq<CompositeParameter>, loader: Loader)
    requires HasSourceParameters(primary) && AllNamed(additional)
    ensures Source(primary, loader).Failure? ==>
              AllSources(primary, additional, loader) == Failure(Source(primary, loader).error)
    ensures Source(primary, loader).Success? ==>
              match FirstFailing(additional, loader)
              case None => AllSources(primary, additional, loader).Success?
              case Some(j) => AllSources(primary, additional, loader) == Failure(SourceError(additional[j], loader))
    decreases |additional|
  {
    if additional != [] {
      var init := additional[..|additional| - 1];
      AllSourcesFailure(primary, init, loader);
      assert forall l :: 0 <= l < |init| ==> init[l] == additional[l];
    }
  }

  /** The last configured source among additional[..] with the name of source j is j itself. */
  predicate LastWithItsName(additional: seq<CompositeParameter>, j: int)
    requires AllNamed(additional) && 0 <= j < |additional|
  {
    forall l :: j < l < |additional| && Configured(additional[l]) ==>
      SourceName(additional[l]) != SourceName(additional[j])
  }

  /** A successful step of getAll either skips the source or puts it under its name. */
  lemma AddSourceEffect(prev: map<Option<string>, CsvTable>, p: CompositeParameter, loader: Loader,
                        all: map<Option<string>, CsvTable>)
    requires HasNamedSourceParameters(p)
    requires AddSource(prev, p, loader) == Success(all)
    ensures !Configured(p) ==> all == prev
    ensures Configured(p) ==> SourceName(p).Some? && Source(p, loader).Success? &&
                              all == prev[SourceName(p) := Source(p, loader).value]
  {
  }

  /** getAll always holds the primary source, under None. */
  lemma {:induction false} AllSourcesPrimary(primary: CompositeParameter, additional: seq<CompositeParameter>, loader: Loader,
                                             all: map<Option<string>, CsvTable>)
    requires HasSourceParameters(primary) && AllNamed(additional)
    requires AllSources(primary, additional, loader) == Success(all)
    ensures None in all && Source(primary, loader) == Success(all[None])
    decreases |additional|
  {
    if additional != [] {
      var init := additional[..|additional| - 1];
      var prev := AllSources(primary, init, loader).value;
      AllSourcesPrimary(primary, init, loader, prev);
      AddSourceEffect(prev, additional[|additional| - 1], loader, all);
    }
  }

  /** The keys of getAll: None and the names of the configured additional sources, nothing else. */
  lemma {:induction false} AllSourcesKeys(primary: CompositeParameter, additional: seq<CompositeParameter>, loader: Loader,
                                          all: map<Option<string>, CsvTable>)
    requires HasSourceParameters(primary) && AllNamed(additional)
    requires AllSources(primary, additional, loader) == Success(all)
    ensures forall k :: k in all <==>
              k == None || exists j :: 0 <= j < |additional| && Configured(additional[j]) && k == SourceName(additional[j])
    decreases |additional|
  {
    if additional != [] {
      var n := |additional|;
      var init := additional[..n - 1];
      var prev := AllSources(primary, init, loader).value;
      AllSourcesKeys(primary, init, loader, prev);
      AddSourceEffect(prev, additional[n - 1], loader, all);
      assert forall j :: 0 <= j < |init| ==> init[j] == additional[j];
    }
  }

  /** Of several configured sources with the same name, getAll keeps the last one. */
  lemma {:induction false} AllSourcesLastWins(primary: CompositeParameter, additional: seq<CompositeParameter>, loader: Loader,
                                              all: map<Option<string>, CsvTable>, j: int)
    requires HasSourceParameters(primary) && AllNamed(additional)
    requires AllSources(primary, additional, loader) == Success(all)
    requires 0 <= j < |additional| && Configured(additional[j]) && LastWithItsName(additional, j)
    ensures SourceName(additional[j]) in all && Source(additional[j], loader) == Success(all[SourceName(additional[j])])
    decreases |additional|
  {
    var n := |additional|;
    var init := additional[..n - 1];
    var p := additional[n - 1];
    var prev := AllSources(primary, init, loader).value;
    AddSourceEffect(prev, p, loader, all);
    if j < n - 1 {
      assert forall l :: 0 <= l < |init| ==> init[l] == additional[l];
      assert LastWithItsName(init, j);
      AllSourcesLastWins(primary, init, loader, prev, j);
    }
  }
}
