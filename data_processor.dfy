/**
 * The Twin2Sim data processor: a dictionary of named frames that
 * `load_all_data` fills from five CSV files, and the two reports computed
 * from it, the per-dataset statistics and the list of data-quality issues.
 */
module Processing {
  import opened Strings
  import opened Frame
  import opened Columns
  import Dates
  import Order

  /** The datasets `load_all_data` loads: dictionary key and file name, in load order. */
  const DatasetFiles: seq<(string, string)> := [
    ("pv_int", "T2S_IntPV.csv"),
    ("pv_mani", "T2S_ManiPV.csv"),
    ("ventilation", "T2S_Lüftung.csv"),
    ("room", "T2S_RAU006.csv"),
    ("weather", "T2S_Wetterdaten.csv")
  ]

  /** The dictionary keys of the datasets, in load order. */
  const DatasetKeys: seq<string> := ["pv_int", "pv_mani", "ventilation", "room", "weather"]

  /** The one format the `Date` column is parsed with, failures raising. */
  const DatePattern: string := "%d.%m.%Y %H:%M:%S,%f"

  /** A consecutive difference above 1.5 times the expected hourly interval is a gap, in seconds. */
  const GapSeconds: int := 5400

  /** `pd.DataFrame()`. */
  const EmptyFrame: Table := Table([], [])

  /** `self.data_path / filename`. */
  function FilePath(dir: string, name: string): string
  {
    dir + "/" + name
  }

  /** The two constants list the same keys, in the same order. */
  lemma DatasetKeysMatchFiles()
    ensures |DatasetKeys| == |DatasetFiles|
    ensures forall i :: 0 <= i < |DatasetFiles| ==> DatasetFiles[i].0 == DatasetKeys[i]
  {
  }

  /** No dataset key repeats, so each file gets its own entry. */
  lemma DatasetKeysDistinct()
    ensures forall a, b :: 0 <= a < b < |DatasetKeys| ==> DatasetKeys[a] != DatasetKeys[b]
  {
  }

  /** Every cell `to_datetime(..., format=DatePattern)` meets converts without raising. */
  predicate DatesParse(cells: seq<Cell>, parse: (Dates.DateFormat, Cell) -> Option<int>)
  {
    forall i :: 0 <= i < |cells| ==> cells[i].Missing? || cells[i].Stamp? || parse(Dates.Format(DatePattern), cells[i]).Some?
  }

  /** The cells of the first `Date` column, or none. */
  function DateCells(t: Table): seq<Cell>
  {
    match ColumnIndex(t.columns, "Date")
    case None => []
    case Some(j) => Column(t, j)
  }

  /** The frame has a `Date` column of timestamps and `NaT`s. */
  predicate HasStampDates(t: Table)
  {
    "Date" in t.columns && forall i :: 0 <= i < |DateCells(t)| ==> DateCells(t)[i].Stamp? || DateCells(t)[i].Missing?
  }

  /**
   * One pass of the loading loop: a missing file, a read that raises, a frame
   * without `Date`, or a `Date` cell the format rejects all give the empty
   * frame; otherwise the read frame with its `Date` column converted.
   */
  function ReadDataset(present: bool, outcome: ReadOutcome, parse: (Dates.DateFormat, Cell) -> Option<int>): (t: Table)
    requires outcome.Loaded? ==> WellFormed(outcome.table)
    ensures WellFormed(t)
    ensures !IsEmpty(t) ==> HasStampDates(t)
  {
    if !present then EmptyFrame
    else
      match outcome
      case Raised => EmptyFrame
      case Loaded(df) =>
        match ColumnIndex(df.columns, "Date")
        case None => EmptyFrame
        case Some(j) =>
          var cells := Column(df, j);
          if !DatesParse(cells, parse) then EmptyFrame
          else
            var r := SetColumn(df, "Date", Dates.StampCells(Dates.ToDatetime(cells, Dates.Format(DatePattern), parse)));
            assert DateCells(r) == Dates.StampCells(Dates.ToDatetime(cells, Dates.Format(DatePattern), parse));
            r
  }

  /** Every way the load can fail leaves the empty frame under the key. */
  lemma ReadFailureIsEmpty(present: bool, outcome: ReadOutcome, parse: (Dates.DateFormat, Cell) -> Option<int>)
    requires outcome.Loaded? ==> WellFormed(outcome.table)
    requires !present || outcome.Raised? || "Date" !in outcome.table.columns ||
      !DatesParse(DateCells(outcome.table), parse)
    ensures ReadDataset(present, outcome, parse) == EmptyFrame
  {
  }

  /**
   * A successful load keeps the frame's columns and rows, and its `Date`
   * cells are the originals parsed with DatePattern.
   */
  lemma ReadSuccessParsesDates(df: Table, parse: (Dates.DateFormat, Cell) -> Option<int>)
    requires WellFormed(df) && "Date" in df.columns && DatesParse(DateCells(df), parse)
    ensures var t := ReadDataset(true, Loaded(df), parse);
      t.columns == df.columns && |t.rows| == |df.rows| && |DateCells(t)| == |DateCells(df)| &&
      forall i :: 0 <= i < |DateCells(df)| ==>
        DateCells(t)[i] == match DateCells(df)[i]
          case Missing => Missing
          case Stamp(s) => Stamp(s)
          case _ => Stamp(parse(Dates.Format(DatePattern), DateCells(df)[i]).value)
  {
  }

  /** `keys` with each of `added` appended unless already there: a dictionary's key order after assignments. */
  function WithKeys(keys: seq<string>, added: seq<string>): (r: seq<string>)
    ensures forall k :: k in r <==> k in keys || k in added
    ensures Order.Distinct(keys) ==> Order.Distinct(r)
    ensures |keys| <= |r| && keys == r[..|keys|]
  {
    if added == [] then keys
    else
      var init := WithKeys(keys, added[..|added| - 1]);
      var k := added[|added| - 1];
      if k in init then init else init + [k]
  }

  /** What `calculate_statistics` reports for one dataset. */
  datatype Stats = Stats(name: string, rows: nat, columns: nat, firstDate: Option<int>, lastDate: Option<int>,
                         numericColumns: nat, missingValues: nat, completeness: Option<real>)

  /** What `check_data_quality` reports. */
  datatype Issue =
    | NoData(dataset: string)
    | ManyMissing(dataset: string, column: string, count: nat)
    | Gaps(dataset: string, count: nat)

  /** The number of missing cells (`isnull().sum()`). */
  function MissingCells(cells: seq<Cell>): (n: nat)
    ensures n <= |cells|
  {
    if cells == [] then 0
    else MissingCells(cells[..|cells| - 1]) + (if cells[|cells| - 1].Missing? then 1 else 0)
  }

  /** The positions among the first `k` columns whose dtype is numeric. */
  function NumericColumns(t: Table, k: nat): (r: seq<nat>)
    requires k <= |t.columns|
    ensures forall j: nat :: j in r <==> j < k && IsNumeric(Column(t, j))
    ensures |r| <= k
  {
    if k == 0 then [] else NumericColumns(t, k - 1) + (if IsNumeric(Column(t, k - 1)) then [k - 1] else [])
  }

  /** The missing cells of the columns at `js`, summed. */
  function MissingInColumns(t: Table, js: seq<nat>): (n: nat)
    ensures n <= |js| * |t.rows|
  {
    if js == [] then 0
    else
      var n := MissingInColumns(t, js[..|js| - 1]) + MissingCells(Column(t, js[|js| - 1]));
      assert n <= (|js| - 1) * |t.rows| + |t.rows|;
      n
  }

  /** The timestamps of a `Date` column in row order, `NaT`s skipped. */
  function Stamps(cells: seq<Cell>): (r: seq<int>)
    ensures forall s :: s in r <==> Stamp(s) in cells
  {
    if cells == [] then []
    else
      var last := cells[|cells| - 1];
      Stamps(cells[..|cells| - 1]) + (if last.Stamp? then [last.t] else [])
  }

  /** `min()` of the timestamps; `NaT` (None) when there are none. */
  function Earliest(xs: seq<int>): (r: Option<int>)
    ensures r.None? <==> xs == []
    ensures r.Some? ==> r.value in xs && forall x :: x in xs ==> r.value <= x
  {
    if xs == [] then None
    else
      assert xs == [xs[0]] + xs[1..];
      match Earliest(xs[1..])
      case None => Some(xs[0])
      case Some(m) => Some(if xs[0] <= m then xs[0] else m)
  }

  /** `max()` of the timestamps; `NaT` (None) when there are none. */
  function Latest(xs: seq<int>): (r: Option<int>)
    ensures r.None? <==> xs == []
    ensures r.Some? ==> r.value in xs && forall x :: x in xs ==> x <= r.value
  {
    if xs == [] then None
    else
      assert xs == [xs[0]] + xs[1..];
      match Latest(xs[1..])
      case None => Some(xs[0])
      case Some(m) => Some(if xs[0] >= m then xs[0] else m)
  }

  /** The statistics entry of one non-empty dataset; the completeness of a frame without numeric columns is `nan`. */
  function StatsOf(name: string, t: Table): Stats
  {
    var numeric := NumericColumns(t, |t.columns|);
    var missing := MissingInColumns(t, numeric);
    var cells := |t.rows| * |numeric|;
    Stats(name, |t.rows|, |t.columns|, Earliest(Stamps(DateCells(t))), Latest(Stamps(DateCells(t))),
          |numeric|, missing,
          if cells == 0 then None else Some((1.0 - (missing as real) / (cells as real)) * 100.0))
  }

  /** The completeness is a percentage, and 100 exactly when no numeric cell is missing. */
  lemma CompletenessIsPercentage(name: string, t: Table)
    ensures var s := StatsOf(name, t);
      s.completeness.Some? ==> 0.0 <= s.completeness.value <= 100.0 && (s.completeness.value == 100.0 <==> s.missingValues == 0)
  {
    var numeric := NumericColumns(t, |t.columns|);
    var cells := |t.rows| * |numeric|;
    if cells != 0 {
      PercentagePresent(MissingInColumns(t, numeric), cells);
    }
  }

  lemma PercentagePresent(missing: nat, cells: nat)
    requires 0 < cells && missing <= cells
    ensures var p := (1.0 - (missing as real) / (cells as real)) * 100.0;
      0.0 <= p <= 100.0 && (p == 100.0 <==> missing == 0)
  {
    var q := (missing as real) / (cells as real);
    assert q * (cells as real) == missing as real;
    assert q <= 1.0;
  }

  /** The date range of a dataset is reached: both ends are timestamps of its `Date` column, and every timestamp lies between them. */
  lemma DateRangeSpansStamps(name: string, t: Table)
    ensures var s := StatsOf(name, t);
      (s.firstDate.Some? <==> exists i :: 0 <= i < |DateCells(t)| && DateCells(t)[i].Stamp?) &&
      (s.firstDate.Some? ==> s.lastDate.Some? && Stamp(s.firstDate.value) in DateCells(t) && Stamp(s.lastDate.value) in DateCells(t)) &&
      forall i :: 0 <= i < |DateCells(t)| && DateCells(t)[i].Stamp? ==>
        s.firstDate.Some? && s.firstDate.value <= DateCells(t)[i].t <= s.lastDate.value
  {
    var cells := DateCells(t);
    forall i | 0 <= i < |cells| && cells[i].Stamp?
      ensures cells[i].t in Stamps(cells)
    {
      assert Stamp(cells[i].t) in cells;
    }
    if Stamps(cells) != [] {
      var s := Stamps(cells)[0];
      assert s in Stamps(cells);
      var i :| 0 <= i < |cells| && cells[i] == Stamp(s);
    }
  }

  /** The statistics of the non-empty datasets among `keys`, in key order. */
  function Statistics(keys: seq<string>, data: map<string, Table>): (r: seq<Stats>)
    requires forall k :: k in keys ==> k in data
  {
    if keys == [] then []
    else
      var name := keys[|keys| - 1];
      Statistics(keys[..|keys| - 1], data) + (if IsEmpty(data[name]) then [] else [StatsOf(name, data[name])])
  }

  /** The report has an entry for exactly the non-empty datasets, each that dataset's statistics. */
  lemma {:induction false} StatisticsOfNonEmpty(keys: seq<string>, data: map<string, Table>)
    requires forall k :: k in keys ==> k in data
    ensures forall s :: s in Statistics(keys, data) ==> s.name in keys && !IsEmpty(data[s.name]) && s == StatsOf(s.name, data[s.name])
    ensures forall k :: k in keys && !IsEmpty(data[k]) ==> StatsOf(k, data[k]) in Statistics(keys, data)
  {
    if keys != [] {
      StatisticsOfNonEmpty(keys[..|keys| - 1], data);
      assert keys == keys[..|keys| - 1] + [keys[|keys| - 1]];
    }
  }

  /** `count > len(df) * 0.1`: more than a tenth of the rows are missing. */
  predicate Flagged(t: Table, j: nat)
  {
    var count := MissingCells(Column(t, j));
    count > 0 && count * 10 > |t.rows|
  }

  /** The integer test is the source's test against a tenth of the rows, read as exact arithmetic. */
  lemma FlaggedIsOverTenPercent(t: Table, j: nat)
    ensures Flagged(t, j) <==> (MissingCells(Column(t, j)) as real) > (|t.rows| as real) * 0.1
  {
  }

  /** The positions among the first `k` columns with too many missing cells, in column order. */
  function FlaggedColumns(t: Table, k: nat): (r: seq<nat>)
    requires k <= |t.columns|
    ensures forall j: nat :: j in r <==> j < k && Flagged(t, j)
    ensures forall a, b :: 0 <= a < b < |r| ==> r[a] < r[b]
    ensures forall a :: 0 <= a < |r| ==> r[a] < k
  {
    if k == 0 then [] else FlaggedColumns(t, k - 1) + (if Flagged(t, k - 1) then [k - 1] else [])
  }

  /** One issue per flagged column, naming the column and its missing count. */
  function ColumnIssues(name: string, t: Table, js: seq<nat>): (r: seq<Issue>)
    requires forall a :: 0 <= a < |js| ==> js[a] < |t.columns|
  {
    seq(|js|, a requires 0 <= a < |js| => ManyMissing(name, t.columns[js[a]], MissingCells(Column(t, js[a]))))
  }

  /** A consecutive pair of timestamps more than 1.5 hours apart ends at row `i`; `NaT` differences are never gaps. */
  predicate GapAt(dates: seq<Cell>, i: nat)
  {
    0 < i < |dates| && dates[i].Stamp? && dates[i - 1].Stamp? && dates[i].t - dates[i - 1].t > GapSeconds
  }

  /** The gaps ending among the first `n` rows. */
  function GapCount(dates: seq<Cell>, n: nat): (c: nat)
    requires n <= |dates|
    ensures c <= n
  {
    if n == 0 then 0 else GapCount(dates, n - 1) + (if GapAt(dates, n - 1) then 1 else 0)
  }

  /** There are gaps exactly when some consecutive pair is more than 1.5 hours apart. */
  lemma {:induction false} GapCountPositive(dates: seq<Cell>, n: nat, i: nat)
    requires n <= |dates|
    ensures i < n && GapAt(dates, i) ==> GapCount(dates, n) > 0
    ensures GapCount(dates, n) > 0 ==> exists g :: 0 < g < n && GapAt(dates, g)
  {
    if n > 0 {
      GapCountPositive(dates, n - 1, i);
      if GapAt(dates, n - 1) {
        assert 0 < n - 1 < n;
      }
    }
  }

  /** The single gap issue of a dataset, when its `Date` column has gaps. */
  function GapIssues(name: string, t: Table): (r: seq<Issue>)
  {
    if "Date" !in t.columns then []
    else
      var dates := DateCells(t);
      var count := GapCount(dates, |dates|);
      if count > 0 then [Gaps(name, count)] else []
  }

  /** The issues of one dataset: an empty one is reported and skipped, any other gets its column and gap checks. */
  function IssuesOf(name: string, t: Table): seq<Issue>
  {
    if IsEmpty(t) then [NoData(name)]
    else ColumnIssues(name, t, FlaggedColumns(t, |t.columns|)) + GapIssues(name, t)
  }

  /** The issues of the datasets `keys`, in key order. */
  function Quality(keys: seq<string>, data: map<string, Table>): seq<Issue>
    requires forall k :: k in keys ==> k in data
  {
    if keys == [] then []
    else
      var name := keys[|keys| - 1];
      Quality(keys[..|keys| - 1], data) + IssuesOf(name, data[name])
  }

  /** An empty dataset yields the one "no data" issue and nothing else. */
  lemma EmptyDatasetOneIssue(name: string, t: Table)
    requires IsEmpty(t)
    ensures IssuesOf(name, t) == [NoData(name)]
  {
  }

  /** Each column issue names a flagged column with its missing count, and each flagged column has its issue. */
  lemma ColumnIssuesExactly(name: string, t: Table)
    ensures var cols := ColumnIssues(name, t, FlaggedColumns(t, |t.columns|));
      (forall x :: x in cols ==> x.ManyMissing? && x.dataset == name && ReportsFlagged(t, x)) &&
      (forall j :: 0 <= j < |t.columns| && Flagged(t, j) ==> ManyMissing(name, t.columns[j], MissingCells(Column(t, j))) in cols)
  {
    var js := FlaggedColumns(t, |t.columns|);
    var cols := ColumnIssues(name, t, js);
    forall j | 0 <= j < |t.columns| && Flagged(t, j)
      ensures ManyMissing(name, t.columns[j], MissingCells(Column(t, j))) in cols
    {
      var a :| 0 <= a < |js| && js[a] == j;
      assert cols[a] == ManyMissing(name, t.columns[j], MissingCells(Column(t, j)));
    }
    forall x | x in cols
      ensures x.ManyMissing? && x.dataset == name && ReportsFlagged(t, x)
    {
      var a :| 0 <= a < |cols| && cols[a] == x;
      assert js[a] in js;
    }
  }

  /** The column issue `x` names some column with more than a tenth missing, and its count. */
  ghost predicate ReportsFlagged(t: Table, x: Issue)
    requires x.ManyMissing?
  {
    exists j :: 0 <= j < |t.columns| && Flagged(t, j) && x.column == t.columns[j] && x.count == MissingCells(Column(t, j))
  }

  /** There is a gap issue exactly when the frame has a `Date` column with a gap, and it is the only gap issue. */
  lemma GapIssueIffGap(name: string, t: Table)
    ensures forall x :: x in GapIssues(name, t) ==> x.Gaps? && x.dataset == name
    ensures |GapIssues(name, t)| <= 1
    ensures GapIssues(name, t) != [] <==> "Date" in t.columns && HasGap(DateCells(t))
  {
    if "Date" in t.columns {
      var dates := DateCells(t);
      if HasGap(dates) {
        var g :| 0 < g < |dates| && GapAt(dates, g);
        GapCountPositive(dates, |dates|, g);
      } else {
        GapCountPositive(dates, |dates|, 0);
      }
    }
  }

  /** Some consecutive pair of timestamps is more than 1.5 hours apart. */
  ghost predicate HasGap(dates: seq<Cell>)
  {
    exists g :: 0 < g < |dates| && GapAt(dates, g)
  }

  /**
   * A non-empty dataset yields one issue per column with more than a tenth
   * missing, in column order, then one gap issue when there are gaps; never
   * a "no data" issue.
   */
  lemma NonEmptyDatasetIssues(name: string, t: Table)
    requires !IsEmpty(t)
    ensures NoData(name) !in IssuesOf(name, t)
    ensures forall x :: x in IssuesOf(name, t) && x.ManyMissing? ==> x.dataset == name && ReportsFlagged(t, x)
    ensures forall j :: 0 <= j < |t.columns| && Flagged(t, j) ==> ManyMissing(name, t.columns[j], MissingCells(Column(t, j))) in IssuesOf(name, t)
    ensures (exists x :: x in IssuesOf(name, t) && x.Gaps?) <==> "Date" in t.columns && HasGap(DateCells(t))
  {
    ColumnIssuesExactly(name, t);
    GapIssueIffGap(name, t);
    var cols := ColumnIssues(name, t, FlaggedColumns(t, |t.columns|));
    var gaps := GapIssues(name, t);
    if gaps != [] {
      assert gaps[0] in IssuesOf(name, t);
    }
  }

  /** A dataset is reported as holding no data exactly when it is empty. */
  lemma {:induction false} NoDataIffEmpty(keys: seq<string>, data: map<string, Table>, name: string)
    requires forall k :: k in keys ==> k in data
    ensures NoData(name) in Quality(keys, data) <==> name in keys && IsEmpty(data[name])
  {
    if keys != [] {
      var init := keys[..|keys| - 1];
      var last := keys[|keys| - 1];
      NoDataIffEmpty(init, data, name);
      NoDataIssueOf(name, last, data[last]);
      assert Quality(keys, data) == Quality(init, data) + IssuesOf(last, data[last]);
      assert name in keys <==> name in init || name == last by {
        assert keys == init + [last];
      }
    }
  }

  /** Only an empty dataset contributes a "no data" issue, and it names that dataset. */
  lemma NoDataIssueOf(x: string, name: string, t: Table)
    ensures NoData(x) in IssuesOf(name, t) <==> x == name && IsEmpty(t)
  {
    if !IsEmpty(t) {
      var cols := ColumnIssues(name, t, FlaggedColumns(t, |t.columns|));
      assert forall i :: 0 <= i < |cols| ==> cols[i].ManyMissing?;
      assert forall g :: g in GapIssues(name, t) ==> g.Gaps?;
    }
  }

  /** The processor: its data directory, and the loaded frames by key in insertion order. */
  class DataProcessor {
    const dataPath: string
    var keys: seq<string>
    var data: map<string, Table>

    /** The keys are the dictionary's, each once; every frame is well formed, and a non-empty one has parsed dates. */
    ghost predicate Valid()
      reads this
    {
      Order.Distinct(keys) &&
      (forall k :: k in data <==> k in keys) &&
      (forall k :: k in data ==> WellFormed(data[k]) && (!IsEmpty(data[k]) ==> HasStampDates(data[k])))
    }

    constructor(dataPath: string)
      ensures this.dataPath == dataPath && keys == [] && data == map[]
      ensures Valid()
    {
      this.dataPath := dataPath;
      keys := [];
      data := map[];
    }

    /**
     * `load_all_data()`: each of the five datasets is read from the data
     * directory and stored under its key, as the empty frame when reading
     * fails; `isFile`, `read` and `parse` stand for the file system, the CSV
     * reader and the date parser.
     */
    method LoadAllData(isFile: string -> bool, read: string -> ReadOutcome, parse: (Dates.DateFormat, Cell) -> Option<int>)
      returns (loaded: map<string, Table>)
      requires Valid()
      requires forall p :: read(p).Loaded? ==> WellFormed(read(p).table)
      modifies this
      ensures Valid() && loaded == data
      ensures keys == WithKeys(old(keys), DatasetKeys)
      ensures data == Loads(old(data), dataPath, isFile, read, parse, |DatasetFiles|)
    {
      for i := 0 to |DatasetFiles|
        invariant Valid()
        invariant keys == WithKeys(old(keys), DatasetKeys[..i])
        invariant data == Loads(old(data), dataPath, isFile, read, parse, i)
      {
        var key := DatasetKeys[i];
        var path := FilePath(dataPath, DatasetFiles[i].1);
        var present := isFile(path);
        var df := ReadDataset(present, if present then read(path) else Raised, parse);
        assert df == LoadedFrame(dataPath, isFile, read, parse, i);
        WithKeysStep(old(keys), DatasetKeys, i);
        Store(key, df);
      }
      assert DatasetKeys[..|DatasetFiles|] == DatasetKeys;
      loaded := data;
    }

    /** `self.data[key] = df`: a new key joins the end of the key order, a known one keeps its place. */
    method Store(key: string, df: Table)
      requires Valid() && WellFormed(df) && (!IsEmpty(df) ==> HasStampDates(df))
      modifies this
      ensures Valid()
      ensures keys == if key in old(keys) then old(keys) else old(keys) + [key]
      ensures data == old(data)[key := df]
    {
      if key !in keys {
        keys := keys + [key];
      }
      data := data[key := df];
    }

    /** `calculate_statistics()`: one entry per non-empty dataset, in key order. */
    method CalculateStatistics() returns (stats: seq<Stats>)
      requires Valid()
      ensures stats == Statistics(keys, data)
    {
      var names, frames := keys, data;
      stats := [];
      for i := 0 to |names|
        invariant stats == Statistics(names[..i], frames)
      {
        var name := names[i];
        var df := frames[name];
        StatisticsStep(names, frames, i);
        if !IsEmpty(df) {
          stats := stats + [StatsOf(name, df)];
        }
      }
      assert names[..|names|] == names;
    }

    /** `check_data_quality()`: the issues of every dataset, in key order. */
    method CheckDataQuality() returns (issues: seq<Issue>)
      requires Valid()
      ensures issues == Quality(keys, data)
    {
      var names, frames := keys, data;
      issues := [];
      for i := 0 to |names|
        invariant issues == Quality(names[..i], frames)
      {
        var name := names[i];
        var df := frames[name];
        QualityStep(names, frames, i);
        if IsEmpty(df) {
          issues := issues + [NoData(name)];
          continue;
        }
        var found := DatasetChecks(name, df);
        issues := issues + found;
      }
      assert names[..|names|] == names;
    }
  }

  /** The frame stored under the `m`-th key: the file read from `dir`, or the empty frame. */
  function LoadedFrame(dir: string, isFile: string -> bool, read: string -> ReadOutcome, parse: (Dates.DateFormat, Cell) -> Option<int>, m: nat): (t: Table)
    requires m < |DatasetFiles|
    requires forall p :: read(p).Loaded? ==> WellFormed(read(p).table)
    ensures WellFormed(t) && (!IsEmpty(t) ==> HasStampDates(t))
  {
    var path := FilePath(dir, DatasetFiles[m].1);
    ReadDataset(isFile(path), read(path), parse)
  }

  /** The dictionary after the first `i` datasets are stored over `d`. */
  function Loads(d: map<string, Table>, dir: string, isFile: string -> bool, read: string -> ReadOutcome,
                 parse: (Dates.DateFormat, Cell) -> Option<int>, i: nat): map<string, Table>
    requires i <= |DatasetFiles|
    requires forall p :: read(p).Loaded? ==> WellFormed(read(p).table)
  {
    if i == 0 then d
    else Loads(d, dir, isFile, read, parse, i - 1)[DatasetKeys[i - 1] := LoadedFrame(dir, isFile, read, parse, i - 1)]
  }

  /** After the load the dictionary holds the keys it held before and the dataset keys, no others. */
  lemma {:induction false} LoadsDomain(d: map<string, Table>, dir: string, isFile: string -> bool, read: string -> ReadOutcome,
                                        parse: (Dates.DateFormat, Cell) -> Option<int>, i: nat)
    requires i <= |DatasetFiles|
    requires forall p :: read(p).Loaded? ==> WellFormed(read(p).table)
    ensures forall k :: k in Loads(d, dir, isFile, read, parse, i) <==> k in d || k in DatasetKeys[..i]
  {
    if i > 0 {
      LoadsDomain(d, dir, isFile, read, parse, i - 1);
      assert DatasetKeys[..i] == DatasetKeys[..i - 1] + [DatasetKeys[i - 1]];
    }
  }

  /** After the load every dataset key holds its file's frame, the empty frame when the file is missing or unreadable. */
  lemma {:induction false} LoadsDatasets(d: map<string, Table>, dir: string, isFile: string -> bool, read: string -> ReadOutcome,
                                          parse: (Dates.DateFormat, Cell) -> Option<int>, i: nat)
    requires i <= |DatasetFiles|
    requires forall p :: read(p).Loaded? ==> WellFormed(read(p).table)
    ensures forall m :: 0 <= m < i ==>
      (DatasetKeys[m] in Loads(d, dir, isFile, read, parse, i) &&
       Loads(d, dir, isFile, read, parse, i)[DatasetKeys[m]] == LoadedFrame(dir, isFile, read, parse, m))
  {
    if i > 0 {
      LoadsDatasets(d, dir, isFile, read, parse, i - 1);
      DatasetKeysDistinct();
    }
  }

  /** The load leaves every other key's frame alone. */
  lemma {:induction false} LoadsKeepsOthers(d: map<string, Table>, dir: string, isFile: string -> bool, read: string -> ReadOutcome,
                                             parse: (Dates.DateFormat, Cell) -> Option<int>, i: nat)
    requires i <= |DatasetFiles|
    requires forall p :: read(p).Loaded? ==> WellFormed(read(p).table)
    ensures forall k :: k in d && k !in DatasetKeys[..i] ==> k in Loads(d, dir, isFile, read, parse, i) && Loads(d, dir, isFile, read, parse, i)[k] == d[k]
  {
    if i > 0 {
      LoadsKeepsOthers(d, dir, isFile, read, parse, i - 1);
      assert DatasetKeys[..i] == DatasetKeys[..i - 1] + [DatasetKeys[i - 1]];
    }
  }

  lemma WithKeysStep(keys: seq<string>, added: seq<string>, i: nat)
    requires i < |added|
    ensures WithKeys(keys, added[..i + 1]) == if added[i] in WithKeys(keys, added[..i]) then WithKeys(keys, added[..i]) else WithKeys(keys, added[..i]) + [added[i]]
  {
    assert added[..i + 1][..i] == added[..i];
  }

  lemma StatisticsStep(keys: seq<string>, data: map<string, Table>, i: nat)
    requires forall k :: k in keys ==> k in data
    requires i < |keys|
    ensures Statistics(keys[..i + 1], data) == Statistics(keys[..i], data) + (if IsEmpty(data[keys[i]]) then [] else [StatsOf(keys[i], data[keys[i]])])
  {
    assert keys[..i + 1][..i] == keys[..i];
  }

  lemma QualityStep(keys: seq<string>, data: map<string, Table>, i: nat)
    requires forall k :: k in keys ==> k in data
    requires i < |keys|
    ensures Quality(keys[..i + 1], data) == Quality(keys[..i], data) + IssuesOf(keys[i], data[keys[i]])
  {
    assert keys[..i + 1][..i] == keys[..i];
  }

  /** The column loop and the gap check of one non-empty dataset. */
  method DatasetChecks(name: string, df: Table) returns (issues: seq<Issue>)
    requires !IsEmpty(df)
    ensures issues == IssuesOf(name, df)
  {
    issues := [];
    for j := 0 to |df.columns|
      invariant issues == ColumnIssues(name, df, FlaggedColumns(df, j))
    {
      var count := MissingCells(Column(df, j));
      ghost var js := FlaggedColumns(df, j);
      if count > 0 && count * 10 > |df.rows| {
        assert ColumnIssues(name, df, js + [j]) == ColumnIssues(name, df, js) + [ManyMissing(name, df.columns[j], count)];
        issues := issues + [ManyMissing(name, df.columns[j], count)];
      }
    }
    if "Date" in df.columns {
      var dates := DateCells(df);
      var gaps := GapCount(dates, |dates|);
      if gaps > 0 {
        issues := issues + [Gaps(name, gaps)];
      }
    }
  }
}
