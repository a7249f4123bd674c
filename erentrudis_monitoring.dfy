/**
 * The survey of the Erentrudisstraße monitoring exports
 * (scripts/analyze_erentrudis_monitoring.py): a per-file summary of each CSV
 * export (sizes, missing values, the time column with its range and most
 * common step, content tags, the numeric columns summarised) and of each
 * workbook (its first five sheets), and the sorting of the walked files into
 * CSV, Excel and other files. Reading is a parameter: the outcome of
 * `pd.read_csv` for an encoding, of `pd.read_excel` for a sheet, and of
 * `pd.to_datetime` for a column.
 */
module ErentrudisMonitoring {
  import opened Strings
  import opened Frame
  import opened Columns
  import Sources
  import Spans
  import KwNeukirchen

  // ---------------------------------------------------------------------
  // Content tags
  // ---------------------------------------------------------------------

  datatype Tag = Temperaturdaten | Durchflussdaten | Leistungsdaten | Energiedaten | Druckdaten

  /** The tags a CSV export can carry, in the order they are checked; a sheet is checked for the first three only. */
  const CsvTags: seq<Tag> := [Temperaturdaten, Durchflussdaten, Leistungsdaten, Energiedaten, Druckdaten]
  const SheetTags: seq<Tag> := [Temperaturdaten, Durchflussdaten, Leistungsdaten]

  function Keywords(tag: Tag): seq<string>
  {
    match tag
    case Temperaturdaten => ["temperatur", "temp"]
    case Durchflussdaten => ["flow", "durchfluss", "durchfluß"]
    case Leistungsdaten => ["power", "leistung"]
    case Energiedaten => ["energie", "energy"]
    case Druckdaten => ["druck", "pressure"]
  }

  /** `any(... in c for c in col_lower)`: some lowercased column name contains a keyword of the tag. */
  predicate Fires(names: seq<string>, tag: Tag)
  {
    exists i :: 0 <= i < |names| && ContainsAny(Lower(names[i]), Keywords(tag))
  }

  /** The tags among `tags` that fire, in the order of `tags`. */
  function TagsOf(names: seq<string>, tags: seq<Tag>): (r: seq<Tag>)
    ensures forall t :: t in r <==> t in tags && Fires(names, t)
    ensures |r| <= |tags|
  {
    if tags == [] then []
    else
      var init := tags[..|tags| - 1];
      var last := tags[|tags| - 1];
      assert tags == init + [last];
      TagsOf(names, init) + (if Fires(names, last) then [last] else [])
  }

  /** The tags keep their relative order: the result is `tags` with the silent ones removed. */
  lemma {:induction false} TagsInOrder(names: seq<string>, tags: seq<Tag>, i: nat, j: nat)
    requires forall a, b :: 0 <= a < b < |tags| ==> tags[a] != tags[b]
    requires i < j < |TagsOf(names, tags)|
    ensures exists a, b :: 0 <= a < b < |tags| && tags[a] == TagsOf(names, tags)[i] && tags[b] == TagsOf(names, tags)[j]
  {
    var init := tags[..|tags| - 1];
    var last := tags[|tags| - 1];
    var r := TagsOf(names, init);
    var full := TagsOf(names, tags);
    assert full == r + if Fires(names, last) then [last] else [];
    if j < |r| {
      TagsInOrder(names, init, i, j);
      var a, b :| 0 <= a < b < |init| && init[a] == r[i] && init[b] == r[j];
      assert tags[a] == init[a] == full[i] && tags[b] == init[b] == full[j];
    } else {
      var ri := r[i];
      assert ri == full[i] && last == full[j];
      assert ri in r && ri in init;
      var a :| 0 <= a < |init| && init[a] == ri;
      assert tags[a] == ri && tags[|tags| - 1] == full[j];
    }
  }

  /** Each tag is appended at most once when the checked tags are distinct. */
  lemma {:induction false} TagsOnce(names: seq<string>, tags: seq<Tag>)
    requires forall a, b :: 0 <= a < b < |tags| ==> tags[a] != tags[b]
    ensures forall t :: multiset(TagsOf(names, tags))[t] <= 1
  {
    if tags != [] {
      var init := tags[..|tags| - 1];
      var last := tags[|tags| - 1];
      TagsOnce(names, init);
      assert last !in init;
      assert last !in TagsOf(names, init);
    }
  }

  /** `temperatur` adds nothing to the temperature keywords: every name containing it contains `temp`. */
  lemma TemperaturRedundant(c: string)
    ensures ContainsAny(Lower(c), Keywords(Temperaturdaten)) <==> Contains(Lower(c), "temp")
  {
    if Contains(Lower(c), "temperatur") {
      ContainsPrefixOf(Lower(c), "temperatur", "temp");
    }
  }

  /** The tag list is built by one `if ...: append` per tag. */
  method Describe(names: seq<string>, tags: seq<Tag>) returns (description: seq<Tag>)
    ensures description == TagsOf(names, tags)
  {
    description := [];
    for k := 0 to |tags|
      invariant description == TagsOf(names, tags[..k])
    {
      assert tags[..k + 1][..k] == tags[..k];
      if Fires(names, tags[k]) {
        description := description + [tags[k]];
      }
    }
    assert tags[..|tags|] == tags;
  }

  // ---------------------------------------------------------------------
  // The time column
  // ---------------------------------------------------------------------

  /** The name test: the lowercased name contains `time`, `date` or `zeit`. */
  predicate IsTimeCandidate(name: string)
  {
    Contains(Lower(name), "time") || Contains(Lower(name), "date") || Contains(Lower(name), "zeit")
  }

  /** What `pd.to_datetime` does to a column: raise, or give stamps whose dtype is naive `datetime64[ns]` or not. */
  datatype Conversion = Raises | Converted(stamps: seq<Option<int>>, naive: bool)

  /** A column that ends the search: a candidate name whose conversion gives naive stamps. */
  predicate IsTimeColumn(t: Table, j: nat, convert: seq<Cell> -> Conversion)
    requires j < |t.columns|
  {
    IsTimeCandidate(t.columns[j]) && convert(Column(t, j)).Converted? && convert(Column(t, j)).naive
  }

  /** The first time column among the first `k`. */
  function FirstTimeColumn(t: Table, convert: seq<Cell> -> Conversion, k: nat): (r: Option<nat>)
    requires k <= |t.columns|
    ensures r.Some? ==> r.value < k && IsTimeColumn(t, r.value, convert)
    ensures r.Some? ==> forall j :: 0 <= j < r.value ==> !IsTimeColumn(t, j, convert)
    ensures r.None? <==> forall j :: 0 <= j < k ==> !IsTimeColumn(t, j, convert)
  {
    if k == 0 then None
    else
      match FirstTimeColumn(t, convert, k - 1)
      case Some(j) => Some(j)
      case None => if IsTimeColumn(t, k - 1, convert) then Some(k - 1) else None
  }

  /** Row `i` and the row before it both have a stamp. */
  predicate StepAt(ts: seq<Option<int>>, i: int)
  {
    1 <= i < |ts| && ts[i - 1].Some? && ts[i].Some?
  }

  /** `df[col].diff().dropna()`: the step between each row and the one before, where both have a stamp. */
  function Steps(ts: seq<Option<int>>): (r: seq<int>)
    ensures |r| < |ts| || |ts| == 0
  {
    if |ts| < 2 then []
    else
      var n := |ts| - 1;
      Steps(ts[..n]) + (if ts[n - 1].Some? && ts[n].Some? then [ts[n].value - ts[n - 1].value] else [])
  }

  /** Every step between two stamped rows is among the steps. */
  lemma {:induction false} StepsHas(ts: seq<Option<int>>, i: int)
    requires StepAt(ts, i)
    ensures ts[i].value - ts[i - 1].value in Steps(ts)
  {
    var n := |ts| - 1;
    var tail := if ts[n - 1].Some? && ts[n].Some? then [ts[n].value - ts[n - 1].value] else [];
    assert Steps(ts) == Steps(ts[..n]) + tail;
    if i < n {
      assert ts[..n][i] == ts[i] && ts[..n][i - 1] == ts[i - 1];
      StepsHas(ts[..n], i);
    }
  }

  /** Every step is the step at some row `i` whose row before it is stamped too. */
  lemma {:induction false} StepsFrom(ts: seq<Option<int>>, v: int) returns (i: int)
    requires v in Steps(ts)
    ensures StepAt(ts, i) && ts[i].value - ts[i - 1].value == v
  {
    var n := |ts| - 1;
    if v in Steps(ts[..n]) {
      i := StepsFrom(ts[..n], v);
      assert ts[..n][i] == ts[i] && ts[..n][i - 1] == ts[i - 1];
    } else {
      i := n;
    }
  }

  /** Among the first `k` values, the index of the first one that occurs most often in `xs`. */
  function MostCommonAmong(xs: seq<int>, k: nat): (r: nat)
    requires 1 <= k <= |xs|
    ensures r < k
    ensures forall i :: 0 <= i < k ==> multiset(xs)[xs[i]] <= multiset(xs)[xs[r]]
  {
    if k == 1 then 0
    else
      var r := MostCommonAmong(xs, k - 1);
      if multiset(xs)[xs[k - 1]] > multiset(xs)[xs[r]] then k - 1 else r
  }

  /**
   * `value_counts().head(1)`: a value occurring most often. None when there
   * is no step at all.
   */
  function MostCommon(xs: seq<int>): (r: Option<int>)
    ensures r.None? <==> xs == []
    ensures r.Some? ==> r.value in xs
    ensures r.Some? ==> forall v :: multiset(xs)[v] <= multiset(xs)[r.value]
  {
    if xs == [] then None
    else
      var i := MostCommonAmong(xs, |xs|);
      assert forall v :: v !in xs ==> multiset(xs)[v] == 0;
      assert forall v :: v in xs ==> exists j :: 0 <= j < |xs| && xs[j] == v;
      Some(xs[i])
  }

  /** `temporal_resolution`: the most common step, looked for only when there are at least two rows. */
  function Resolution(ts: seq<Option<int>>): (r: Option<int>)
    ensures r.Some? ==> |ts| > 1 && r.value in Steps(ts)
    ensures r.Some? ==> forall v :: multiset(Steps(ts))[v] <= multiset(Steps(ts))[r.value]
    ensures r.None? <==> Steps(ts) == []
  {
    if |ts| > 1 then MostCommon(Steps(ts)) else None
  }

  /**
   * The resolution is a step between two consecutive stamped rows, and there
   * is none exactly when no two consecutive rows both have a stamp.
   */
  lemma ResolutionIsAStep(ts: seq<Option<int>>)
    ensures Resolution(ts).Some? ==>
      exists i :: StepAt(ts, i) && ts[i].value - ts[i - 1].value == Resolution(ts).value
    ensures Resolution(ts).None? <==> forall i :: !StepAt(ts, i)
  {
    var r := Resolution(ts);
    if r.Some? {
      var i := StepsFrom(ts, r.value);
      assert StepAt(ts, i);
    }
    if exists i :: StepAt(ts, i) {
      var i :| StepAt(ts, i);
      StepsHas(ts, i);
    }
  }

  /** What the time-column loop leaves in `date_range` and `temporal_resolution`. */
  datatype TimeFacts = TimeFacts(range: Option<Option<(int, int)>>, resolution: Option<int>)

  function TimeFactsOf(t: Table, convert: seq<Cell> -> Conversion): (f: TimeFacts)
    ensures f.range.None? <==> FirstTimeColumn(t, convert, |t.columns|).None?
    ensures f.range.None? ==> f.resolution.None?
  {
    match FirstTimeColumn(t, convert, |t.columns|)
    case None => TimeFacts(None, None)
    case Some(j) =>
      var ts := convert(Column(t, j)).stamps;
      TimeFacts(Some(Spans.TimeRange(ts)), Resolution(ts))
  }

  /**
   * The loop over the columns: a candidate that fails to convert, or converts
   * to anything but naive stamps, is passed over; the first that converts to
   * naive stamps sets the range and the resolution and ends the loop.
   */
  method FindTimeColumn(t: Table, convert: seq<Cell> -> Conversion) returns (facts: TimeFacts)
    ensures facts == TimeFactsOf(t, convert)
  {
    for j := 0 to |t.columns|
      invariant FirstTimeColumn(t, convert, j).None?
    {
      if IsTimeCandidate(t.columns[j]) {
        var c := convert(Column(t, j));
        if c.Converted? && c.naive {
          LaterCandidatesIgnored(t, convert, j);
          return TimeFacts(Some(Spans.TimeRange(c.stamps)), Resolution(c.stamps));
        }
      }
    }
    return TimeFacts(None, None);
  }

  /**
   * The columns the loop leaves holding stamps: every candidate it reaches
   * whose conversion does not raise, naive or not, up to and including the
   * column that ends it.
   */
  function Stamped(t: Table, convert: seq<Cell> -> Conversion): (s: set<nat>)
    ensures forall j: nat :: j in s <==>
      (j < |t.columns| && IsTimeCandidate(t.columns[j]) && convert(Column(t, j)).Converted?
       && (FirstTimeColumn(t, convert, |t.columns|).None? || j <= FirstTimeColumn(t, convert, |t.columns|).value))
  {
    var stop := match FirstTimeColumn(t, convert, |t.columns|) case None => |t.columns| case Some(j) => j + 1;
    set j | 0 <= j < stop && IsTimeCandidate(t.columns[j]) && convert(Column(t, j)).Converted?
  }

  /**
   * `select_dtypes` runs on the converted frame: a column the loop turned into
   * stamps is not numeric any more, a candidate after the chosen time column
   * keeps its cells.
   */
  lemma ConvertedLeaveNumeric(t: Table, convert: seq<Cell> -> Conversion, j: nat)
    requires j < |t.columns|
    requires forall i, k :: 0 <= i < k < |t.columns| ==> t.columns[i] != t.columns[k]
    ensures FirstTimeColumn(t, convert, |t.columns|) == Some(j) ==>
      t.columns[j] !in KwNeukirchen.NumericColumns(t, Stamped(t, convert), |t.columns|)
    ensures IsTimeCandidate(t.columns[j]) && convert(Column(t, j)).Converted? && FirstTimeColumn(t, convert, |t.columns|).None? ==>
      t.columns[j] !in KwNeukirchen.NumericColumns(t, Stamped(t, convert), |t.columns|)
    ensures !IsTimeCandidate(t.columns[j]) ==>
      (t.columns[j] in KwNeukirchen.NumericColumns(t, Stamped(t, convert), |t.columns|) <==> IsNumeric(Column(t, j)))
  {
    KwNeukirchen.NumericColumnsAt(t, Stamped(t, convert), j);
  }

  /** A later candidate never displaces the chosen one. */
  lemma LaterCandidatesIgnored(t: Table, convert: seq<Cell> -> Conversion, j: nat)
    requires j < |t.columns| && IsTimeColumn(t, j, convert)
    requires forall i :: 0 <= i < j ==> !IsTimeColumn(t, i, convert)
    ensures FirstTimeColumn(t, convert, |t.columns|) == Some(j)
    ensures TimeFactsOf(t, convert).range == Some(Spans.TimeRange(convert(Column(t, j)).stamps))
  {
    var r := FirstTimeColumn(t, convert, |t.columns|);
    assert r.Some?;
    assert r.value == j;
  }

  // ---------------------------------------------------------------------
  // analyze_csv_file
  // ---------------------------------------------------------------------

  const Encodings: seq<string> := ["utf-8", "iso-8859-1", "cp1252"]

  function Attempts(read: string -> ReadOutcome): (r: seq<ReadOutcome>)
    ensures |r| == |Encodings|
    ensures forall i :: 0 <= i < |Encodings| ==> r[i] == read(Encodings[i])
  {
    seq(|Encodings|, i requires 0 <= i < |Encodings| => read(Encodings[i]))
  }

  /** `df.isnull().sum()` column by column. */
  function MissingPerColumn(t: Table): (r: seq<nat>)
    ensures |r| == |t.columns|
    ensures forall j :: 0 <= j < |t.columns| ==> r[j] == Sources.MissingCells(Column(t, j))
  {
    seq(|t.columns|, j requires 0 <= j < |t.columns| => Sources.MissingCells(Column(t, j)))
  }

  /** `missing / len(df) * 100` column by column; NaN (None) everywhere for a frame without rows. */
  function MissingPercentPerColumn(t: Table): (r: seq<Option<real>>)
    ensures |r| == |t.columns|
    ensures forall j :: 0 <= j < |t.columns| ==> (r[j].None? <==> |t.rows| == 0)
    ensures forall j :: 0 <= j < |t.columns| && r[j].Some? ==> 0.0 <= r[j].value <= 100.0
    ensures forall j :: 0 <= j < |t.columns| && r[j].Some? ==> (r[j].value == 0.0 <==> Sources.MissingCells(Column(t, j)) == 0)
  {
    seq(|t.columns|, j requires 0 <= j < |t.columns| =>
      if |t.rows| == 0 then None else Some(KwNeukirchen.Percent(Sources.MissingCells(Column(t, j)), |t.rows|)))
  }

  datatype CsvAnalysis =
    | CsvError
    | CsvSummary(rows: nat, columns: nat, names: seq<string>, missing: seq<nat>, missingPercent: seq<Option<real>>,
                 time: TimeFacts, description: seq<Tag>, numeric: seq<string>)

  /**
   * `analyze_csv_file`. When every encoding raises, `df` is never bound and
   * the name error is caught into the error record; otherwise the summary of
   * the first frame read.
   */
  method AnalyzeCsvFile(read: string -> ReadOutcome, convert: seq<Cell> -> Conversion) returns (a: CsvAnalysis)
    ensures a.CsvError? <==> forall e :: 0 <= e < |Encodings| ==> read(Encodings[e]).Raised?
    ensures a.CsvSummary? ==>
      var t := FirstLoaded(Attempts(read)).value;
      a.rows == |t.rows| && a.columns == |t.columns| && a.names == t.columns
      && a.missing == MissingPerColumn(t) && a.missingPercent == MissingPercentPerColumn(t)
      && a.time == TimeFactsOf(t, convert) && a.description == TagsOf(t.columns, CsvTags)
      && a.numeric == Take(KwNeukirchen.NumericColumns(t, Stamped(t, convert), |t.columns|), 5)
  {
    var df: Option<Table> := None;
    for e := 0 to |Encodings|
      invariant df.None? ==> forall i :: 0 <= i < e ==> read(Encodings[i]).Raised?
      invariant df.Some? ==> df == FirstLoaded(Attempts(read))
    {
      if df.None? {
        var o := read(Encodings[e]);
        if o.Loaded? {
          df := Some(o.table);
          assert Attempts(read)[e] == o;
          FirstLoadedAt(Attempts(read), e);
        }
      }
    }
    if df.None? {
      return CsvError;
    }
    var t := df.value;
    var time := FindTimeColumn(t, convert);
    var description := Describe(t.columns, CsvTags);
    a := CsvSummary(|t.rows|, |t.columns|, t.columns, MissingPerColumn(t), MissingPercentPerColumn(t),
                    time, description, Take(KwNeukirchen.NumericColumns(t, Stamped(t, convert), |t.columns|), 5));
  }

  /** The first frame is the one at the first attempt that did not raise. */
  lemma {:induction false} FirstLoadedAt(attempts: seq<ReadOutcome>, e: nat)
    requires e < |attempts| && attempts[e].Loaded?
    requires forall i :: 0 <= i < e ==> attempts[i].Raised?
    ensures FirstLoaded(attempts) == Some(attempts[e].table)
  {
    if e > 0 {
      assert forall i :: 0 <= i < e - 1 ==> attempts[1..][i] == attempts[i + 1];
      FirstLoadedAt(attempts[1..], e - 1);
    }
  }

  // ---------------------------------------------------------------------
  // analyze_excel_file
  // ---------------------------------------------------------------------

  datatype SheetAnalysis =
    | SheetError
    | SheetSummary(rows: nat, columns: nat, names: seq<string>, missingPercent: Option<real>, content: seq<Tag>)

  /** The summary of one sheet: the names capped at 20, the missing share over all cells, three tags. */
  function SheetAnalysisOf(o: ReadOutcome): (s: SheetAnalysis)
    ensures s.SheetError? <==> o.Raised?
    ensures s.SheetSummary? ==> o.Loaded? && |s.names| <= 20 && |s.names| <= |o.table.columns| && s.names == o.table.columns[..|s.names|]
    ensures s.SheetSummary? ==> o.Loaded? && s.content == TagsOf(o.table.columns, SheetTags)
    ensures o.Loaded? && |o.table.rows| == 0 ==> s.missingPercent == Some(0.0)
  {
    match o
    case Raised => SheetError
    case Loaded(t) =>
      SheetSummary(|t.rows|, |t.columns|, Take(t.columns, 20), KwNeukirchen.NullPercentage(t), TagsOf(t.columns, SheetTags))
  }

  /** `sheets_analysis` after the first `k` of the analysed sheet names. */
  function SheetsOf(names: seq<string>, readSheet: string -> ReadOutcome, k: nat): (m: map<string, SheetAnalysis>)
    requires k <= |names|
    ensures forall s :: s in m <==> s in names[..k]
    ensures forall s :: s in m ==> m[s] == SheetAnalysisOf(readSheet(s))
  {
    if k == 0 then map[]
    else
      assert names[..k] == names[..k - 1] + [names[k - 1]];
      SheetsOf(names, readSheet, k - 1)[names[k - 1] := SheetAnalysisOf(readSheet(names[k - 1]))]
  }

  /** The workbook record; its `description` list is created empty and never filled. */
  datatype ExcelAnalysis = ExcelError | ExcelSummary(sheetNames: seq<string>, numSheets: nat, sheets: map<string, SheetAnalysis>)

  /**
   * `analyze_excel_file`: `sheetNames` is None when the workbook cannot be
   * opened. Only the first five sheets are read.
   */
  method AnalyzeExcelFile(sheetNames: Option<seq<string>>, readSheet: string -> ReadOutcome) returns (a: ExcelAnalysis)
    ensures a.ExcelError? <==> sheetNames.None?
    ensures a.ExcelSummary? ==> a.sheetNames == sheetNames.value && a.numSheets == |sheetNames.value|
    ensures a.ExcelSummary? ==> a.sheets == SheetsOf(Take(sheetNames.value, 5), readSheet, |Take(sheetNames.value, 5)|)
  {
    if sheetNames.None? {
      return ExcelError;
    }
    var analysed := Take(sheetNames.value, 5);
    var sheets: map<string, SheetAnalysis> := map[];
    for k := 0 to |analysed|
      invariant sheets == SheetsOf(analysed, readSheet, k)
    {
      sheets := sheets[analysed[k] := SheetAnalysisOf(readSheet(analysed[k]))];
    }
    a := ExcelSummary(sheetNames.value, |sheetNames.value|, sheets);
  }

  /** The analysed sheets are exactly the first five names (all of them when there are fewer). */
  lemma FirstFiveSheets(names: seq<string>, readSheet: string -> ReadOutcome)
    ensures forall s :: s in SheetsOf(Take(names, 5), readSheet, |Take(names, 5)|) <==>
      exists i :: 0 <= i < 5 && i < |names| && names[i] == s
  {
    var taken := Take(names, 5);
    assert taken[..|taken|] == taken;
    forall s | exists i :: 0 <= i < 5 && i < |names| && names[i] == s
      ensures s in taken
    {
      var i :| 0 <= i < 5 && i < |names| && names[i] == s;
      assert taken[i] == s;
    }
  }

  // ---------------------------------------------------------------------
  // main
  // ---------------------------------------------------------------------

  datatype FileKind = CsvFile | ExcelFile | OtherFile

  /** `.csv` first, then `.xlsx` or `.xls`; the suffix test is case-sensitive. */
  function KindOfFile(name: string): (k: FileKind)
    ensures k == CsvFile <==> EndsWith(name, ".csv")
    ensures k == ExcelFile <==> !EndsWith(name, ".csv") && (EndsWith(name, ".xlsx") || EndsWith(name, ".xls"))
  {
    if EndsWith(name, ".csv") then CsvFile
    else if EndsWith(name, ".xlsx") || EndsWith(name, ".xls") then ExcelFile
    else OtherFile
  }

  /** The walked files of the first `k` with the given kind, in walk order. */
  function FilesOfKind(files: seq<string>, kind: FileKind, k: nat): (r: seq<string>)
    requires k <= |files|
    ensures |r| <= k
  {
    if k == 0 then []
    else
      FilesOfKind(files, kind, k - 1) + (if KindOfFile(files[k - 1]) == kind then [files[k - 1]] else [])
  }

  /** The list of a kind holds exactly the walked files of that kind. */
  lemma {:induction false} FilesOfKindMembers(files: seq<string>, kind: FileKind, k: nat)
    requires k <= |files|
    ensures forall f :: f in FilesOfKind(files, kind, k) <==> f in files[..k] && KindOfFile(f) == kind
  {
    if k > 0 {
      FilesOfKindMembers(files, kind, k - 1);
      assert files[..k] == files[..k - 1] + [files[k - 1]];
    }
  }

  /** The walk loop: every file goes to `all_files`, and to the CSV or the Excel list by its suffix. */
  method SortFiles(files: seq<string>) returns (csv: seq<string>, excel: seq<string>, all: seq<string>)
    ensures csv == FilesOfKind(files, CsvFile, |files|)
    ensures excel == FilesOfKind(files, ExcelFile, |files|)
    ensures all == files
  {
    csv, excel, all := [], [], [];
    for k := 0 to |files|
      invariant csv == FilesOfKind(files, CsvFile, k)
      invariant excel == FilesOfKind(files, ExcelFile, k)
      invariant all == files[..k]
    {
      var kind := KindOfFile(files[k]);
      if kind == CsvFile {
        csv := csv + [files[k]];
      } else if kind == ExcelFile {
        excel := excel + [files[k]];
      }
      all := all + [files[k]];
    }
  }

  /** "Andere Dateien" is never negative: it counts exactly the files of neither kind. */
  lemma {:induction false} OtherCount(files: seq<string>, k: nat)
    requires k <= |files|
    ensures |FilesOfKind(files, CsvFile, k)| + |FilesOfKind(files, ExcelFile, k)| + |FilesOfKind(files, OtherFile, k)| == k
  {
    if k > 0 {
      OtherCount(files, k - 1);
      FilesOfKindStep(files, CsvFile, k);
      FilesOfKindStep(files, ExcelFile, k);
      FilesOfKindStep(files, OtherFile, k);
    }
  }

  lemma FilesOfKindStep(files: seq<string>, kind: FileKind, k: nat)
    requires 1 <= k <= |files|
    ensures |FilesOfKind(files, kind, k)| == |FilesOfKind(files, kind, k - 1)| + if KindOfFile(files[k - 1]) == kind then 1 else 0
  {
  }

  /** `all_descriptions`: the tags of every summary, concatenated; error records have none. */
  function AllDescriptions(analyses: seq<CsvAnalysis>): seq<Tag>
  {
    if analyses == [] then []
    else
      var last := analyses[|analyses| - 1];
      AllDescriptions(analyses[..|analyses| - 1]) + (if last.CsvSummary? then last.description else [])
  }

  /** The number of summaries carrying the tag. */
  function FilesWithTag(analyses: seq<CsvAnalysis>, tag: Tag): nat
  {
    if analyses == [] then 0
    else
      var last := analyses[|analyses| - 1];
      FilesWithTag(analyses[..|analyses| - 1], tag) + (if last.CsvSummary? && tag in last.description then 1 else 0)
  }

  /**
   * "n Datei(en)" is right: since a file carries each tag at most once,
   * `all_descriptions.count(tag)` is the number of files with that tag.
   */
  lemma {:induction false} CountIsFiles(analyses: seq<CsvAnalysis>, tag: Tag)
    requires forall i :: 0 <= i < |analyses| && analyses[i].CsvSummary? ==> multiset(analyses[i].description)[tag] <= 1
    ensures multiset(AllDescriptions(analyses))[tag] == FilesWithTag(analyses, tag)
  {
    if analyses != [] {
      var init := analyses[..|analyses| - 1];
      var last := analyses[|analyses| - 1];
      CountIsFiles(init, tag);
      if last.CsvSummary? {
        assert tag in last.description <==> multiset(last.description)[tag] > 0;
      }
    }
  }

  /** Every summary the CSV analysis produces carries each tag at most once. */
  lemma SummaryTagsOnce(t: Table, tag: Tag)
    ensures multiset(TagsOf(t.columns, CsvTags))[tag] <= 1
  {
    TagsOnce(t.columns, CsvTags);
  }
}
