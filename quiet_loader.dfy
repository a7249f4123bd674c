/**
 * The quiet loader: one separator order for every source, the in-order scan
 * for a timestamp column, the under-10% drop rule, the Excel engine choice,
 * the verbosity switch, and the aggregation of the KW Neukirchen datasets.
 */
module QuietLoader {
  import opened Strings
  import opened Frame
  import opened Columns
  import opened Dates
  import opened Sources
  import opened Order

  /** Every source tries ',', ';', tab, and no source skips header rows. */
  const Separators: seq<char> := [',', ';', '\t']

  function Candidate(read: (string, char) -> ReadOutcome): (r: Option<Table>)
    requires forall e, c :: read(e, c).Loaded? ==> WellFormed(read(e, c).table)
    ensures r.Some? ==> WellFormed(r.value)
  {
    SearchOutcome(Generic, Separators, read)
  }

  const DateCandidates: seq<string> := ["Date", "Datum + Uhrzeit", "DateTime", "Time", "Timestamp", "Zeit", "Datum"]

  /** The converted timestamp column, when the scan finds one. */
  function ConvertedDates(df: Table, parse: (DateFormat, Cell) -> Option<int>): (d: Option<seq<Option<int>>>)
    ensures d.Some? ==> |d.value| == |df.rows|
  {
    match FirstNameMatch(df.columns, DateCandidates)
    case None => None
    case Some(j) => Some(ToDatetime(Column(df, j), Inferred, parse))
  }

  /** `d` stored as `Date`, its rows without a timestamp dropped only when they are fewer than a tenth. */
  function ApplyDropRule(df: Table, d: seq<Option<int>>): (r: Table)
    requires WellFormed(df) && |d| == |df.rows|
    ensures WellFormed(r)
    ensures |r.rows| == if FewInvalid(d) then |df.rows| - CountMissing(d) else |df.rows|
  {
    if FewInvalid(d) then DropMissingDates(df, d) else SetColumn(df, "Date", StampCells(d))
  }

  /** Fewer than a tenth of the rows lack a timestamp, and some do (`0 < invalid < len * 0.1`). */
  predicate FewInvalid(d: seq<Option<int>>)
  {
    0 < CountMissing(d) && 10 * CountMissing(d) < |d|
  }

  /** What `_process_datetime_columns_improved` of this loader returns. */
  function ProcessedFrame(df: Table, parse: (DateFormat, Cell) -> Option<int>): Table
    requires WellFormed(df)
  {
    EnsureDate(match ConvertedDates(df, parse) case None => df case Some(d) => ApplyDropRule(df, d))
  }

  /**
   * The scan, the conversion with the drop rule, and the hourly index for an
   * absent or all-missing `Date`.
   */
  method ProcessDatetimeColumns(df: Table, parse: (DateFormat, Cell) -> Option<int>) returns (r: Table)
    requires WellFormed(df)
    ensures r == ProcessedFrame(df, parse)
    ensures WellFormed(r) && HasUsableDate(r)
    ensures |r.rows| == if ConvertedDates(df, parse).Some? && FewInvalid(ConvertedDates(df, parse).value)
                        then |df.rows| - CountMissing(ConvertedDates(df, parse).value) else |df.rows|
  {
    var found := ScanColumns(df.columns, DateCandidates);
    var u := df;
    if found.Some? {
      var d := ToDatetime(Column(df, found.value), Inferred, parse);
      if FewInvalid(d) {
        u := DropMissingDates(df, d);
      } else {
        u := SetColumn(df, "Date", StampCells(d));
      }
    }
    r := EnsureDate(u);
  }

  /** When rows are dropped, every remaining row has a timestamp. */
  lemma DroppedRowsAllDated(df: Table, parse: (DateFormat, Cell) -> Option<int>)
    requires WellFormed(df)
    requires ConvertedDates(df, parse).Some? && FewInvalid(ConvertedDates(df, parse).value)
    ensures var r := ProcessedFrame(df, parse);
      DateIndex(r).Some? && forall i :: 0 <= i < |r.rows| ==> Column(r, DateIndex(r).value)[i].Stamp?
  {
    var d := ConvertedDates(df, parse).value;
    DroppedDatesComplete(df, d);
    DroppedFrameHasDates(df, d);
  }

  /** Columns kept as text by the numeric conversion. */
  const TextColumns: seq<string> := ["Date", "DateTime", "Datum + Uhrzeit", "Datum", "Zeit"]

  /** `load_csv_flexible`: search, timestamp handling and numeric conversion. */
  method LoadCsvFlexible(read: (string, char) -> ReadOutcome, parse: (DateFormat, Cell) -> Option<int>,
                         toNumber: string -> Option<real>) returns (t: Table)
    requires forall e, c :: read(e, c).Loaded? ==> WellFormed(read(e, c).table)
    ensures Candidate(read).None? ==> t == Empty
    ensures Candidate(read).Some? ==> CoercedFrom(ProcessedFrame(Candidate(read).value, parse), t, TextColumns, toNumber)
    ensures Candidate(read).Some? ==> HasUsableDate(t)
  {
    var df := SearchCsv(Generic, Separators, read);
    if df.None? {
      return Empty;
    }
    var processed := ProcessDatetimeColumns(df.value, parse);
    t := CoerceNumericColumns(processed, TextColumns, toNumber);
    assert Column(t, DateIndex(t).value) == Column(processed, DateIndex(t).value);
  }

  datatype Engine = Openpyxl | Xlrd

  /** The reader engine by file ending; None when an `.xls` file meets a missing xlrd. */
  function EngineFor(path: string, xlrdInstalled: bool): (e: Option<Engine>)
    ensures e == Some(Xlrd) <==> EndsWith(Lower(path), ".xls") && xlrdInstalled
    ensures e.None? <==> EndsWith(Lower(path), ".xls") && !xlrdInstalled
    ensures e == Some(Openpyxl) <==> !EndsWith(Lower(path), ".xls")
  {
    XlsxIsNotXls(Lower(path));
    var name := Lower(path);
    if EndsWith(name, ".xlsx") then Some(Openpyxl)
    else if EndsWith(name, ".xls") then (if xlrdInstalled then Some(Xlrd) else None)
    else Some(Openpyxl)
  }

  /** The two endings exclude each other: they differ in the last character. */
  lemma XlsxIsNotXls(s: string)
    ensures EndsWith(s, ".xlsx") ==> !EndsWith(s, ".xls")
  {
    if EndsWith(s, ".xlsx") {
      assert s[|s| - 1] == ".xlsx"[4] == 'x';
      assert ".xls"[3] == 's';
      assert s[|s| - 4..][3] == s[|s| - 1];
    }
  }

  const ExcelRenames: map<string, string> := map[
    "ZEIT_VON_UTC" := "Date", "WERT" := "Value", "Energie (kWh)" := "Energy_kWh", "Leistung (kW)" := "Power_kW"]

  /**
   * `load_excel_flexible`: the engine's read, the renames, and `Date`
   * converted in place without dropping rows; the empty frame when there is no
   * engine, the read raises, or `Date` is duplicated.
   */
  method LoadExcelFlexible(path: string, xlrdInstalled: bool, read: Engine -> ReadOutcome,
                           parse: (DateFormat, Cell) -> Option<int>) returns (t: Table)
    requires forall e :: read(e).Loaded? ==> WellFormed(read(e).table)
    ensures EngineFor(path, xlrdInstalled).None? ==> t == Empty
    ensures EngineFor(path, xlrdInstalled).Some? && read(EngineFor(path, xlrdInstalled).value).Raised? ==> t == Empty
    ensures EngineFor(path, xlrdInstalled).Some? && read(EngineFor(path, xlrdInstalled).value).Loaded? ==>
      var df := Renamed(read(EngineFor(path, xlrdInstalled).value).table, ExcelRenames);
      (Duplicated(df.columns, "Date") ==> t == Empty) &&
      (!Duplicated(df.columns, "Date") ==> WellFormed(t) && t.columns == df.columns && |t.rows| == |df.rows|) &&
      ("Date" in df.columns && !Duplicated(df.columns, "Date") ==>
        DateIndex(t).Some? && Column(t, DateIndex(t).value) == StampCells(ToDatetime(Column(df, DateIndex(df).value), Inferred, parse)))
    ensures EngineFor(path, xlrdInstalled).Some? && read(EngineFor(path, xlrdInstalled).value).Loaded? ==>
      var df := Renamed(read(EngineFor(path, xlrdInstalled).value).table, ExcelRenames);
      !Duplicated(df.columns, "Date") ==> forall j :: 0 <= j < |df.columns| && df.columns[j] != "Date" ==> Column(t, j) == Column(df, j)
  {
    var engine := EngineFor(path, xlrdInstalled);
    if engine.None? {
      return Empty;
    }
    var outcome := read(engine.value);
    if outcome.Raised? {
      return Empty;
    }
    var df := Renamed(outcome.table, ExcelRenames);
    t := df;
    if "Date" in df.columns {
      if Duplicated(df.columns, "Date") {
        return Empty;
      }
      t := SetColumn(df, "Date", StampCells(ToDatetime(Column(df, DateIndex(df).value), Inferred, parse)));
    }
  }

  /** `DASHBOARD_VERBOSE`, default 'false', compared case-insensitively with 'true'. */
  function IsVerbose(env: map<string, string>): (v: bool)
    ensures v ==> "DASHBOARD_VERBOSE" in env && |env["DASHBOARD_VERBOSE"]| == 4
  {
    Lower(if "DASHBOARD_VERBOSE" in env then env["DASHBOARD_VERBOSE"] else "false") == "true"
  }

  datatype Level = Success | Warning | Failure | Info

  function Prefix(level: Level): string
  {
    match level
    case Success => "[OK] "
    case Warning => "  [WARNUNG] "
    case Failure => "[FEHLER] "
    case Info => ""
  }

  /** The line `log` prints: nothing unless verbose, else the level's prefix and the message. */
  function LogLine(verbose: bool, message: string, level: Level): (line: Option<string>)
    ensures line.Some? <==> verbose
    ensures line.Some? ==> EndsWith(line.value, message) && StartsWith(line.value, Prefix(level))
    ensures line.Some? && level == Info ==> line.value == message
  {
    if verbose then
      var s := Prefix(level) + message;
      assert s[|s| - |message|..] == message;
      Some(s)
    else None
  }

  /** A dataset takes part in the aggregate when its key contains the pattern, ignoring case, and it is not empty. */
  predicate Matches(entry: (string, Table), pattern: string)
  {
    Contains(Lower(entry.0), Lower(pattern)) && !IsEmpty(entry.1)
  }

  /** `df.copy()` with the column `Quelle` set to the key on every row. */
  function Tagged(entry: (string, Table)): (r: Table)
    requires WellFormed(entry.1)
    ensures WellFormed(r) && |r.rows| == |entry.1.rows| && "Quelle" in r.columns
    ensures Column(r, ColumnIndex(r.columns, "Quelle").value) == seq(|entry.1.rows|, _ => Text(entry.0))
  {
    SetColumn(entry.1, "Quelle", seq(|entry.1.rows|, _ => Text(entry.0)))
  }

  predicate AllWellFormed(datasets: seq<(string, Table)>)
  {
    forall i :: 0 <= i < |datasets| ==> WellFormed(datasets[i].1)
  }

  /** The tagged copies of the matching datasets, in dictionary order. */
  function Selected(datasets: seq<(string, Table)>, pattern: string): (r: seq<Table>)
    requires AllWellFormed(datasets)
    ensures |r| <= |datasets|
    ensures r == [] <==> forall i :: 0 <= i < |datasets| ==> !Matches(datasets[i], pattern)
    ensures forall k :: 0 <= k < |r| ==> WellFormed(r[k]) && "Quelle" in r[k].columns
  {
    if datasets == [] then []
    else
      var rest := Selected(datasets[1..], pattern);
      assert forall i :: 1 <= i < |datasets| ==> datasets[i] == datasets[1..][i - 1];
      if Matches(datasets[0], pattern) then [Tagged(datasets[0])] + rest else rest
  }

  lemma {:induction false} SelectedAppend(datasets: seq<(string, Table)>, entry: (string, Table), pattern: string)
    requires AllWellFormed(datasets) && WellFormed(entry.1)
    ensures AllWellFormed(datasets + [entry])
    ensures Selected(datasets + [entry], pattern) ==
      Selected(datasets, pattern) + (if Matches(entry, pattern) then [Tagged(entry)] else [])
  {
    var all := datasets + [entry];
    assert forall i :: 0 <= i < |datasets| ==> all[i] == datasets[i];
    if datasets != [] {
      assert all[1..] == datasets[1..] + [entry];
      SelectedAppend(datasets[1..], entry, pattern);
    }
  }

  /** Rows of the matching datasets, summed. */
  function MatchedRows(datasets: seq<(string, Table)>, pattern: string): nat
  {
    if datasets == [] then 0
    else (if Matches(datasets[0], pattern) then |datasets[0].1.rows| else 0) + MatchedRows(datasets[1..], pattern)
  }

  /** Column names in order of first appearance, each once (the outer join of `pd.concat`). */
  function UnionInOrder(acc: seq<string>, xs: seq<string>): (r: seq<string>)
    requires Distinct(acc)
    ensures Distinct(r) && |acc| <= |r| && r[..|acc|] == acc
    ensures forall x :: x in r <==> x in acc || x in xs
    decreases |xs|
  {
    if xs == [] then acc
    else if xs[0] in acc then UnionInOrder(acc, xs[1..])
    else
      var r := UnionInOrder(acc + [xs[0]], xs[1..]);
      assert r[..|acc|] == (acc + [xs[0]])[..|acc|];
      r
  }

  function AllColumns(frames: seq<Table>): seq<string>
  {
    if frames == [] then [] else frames[0].columns + AllColumns(frames[1..])
  }

  lemma {:induction false} AllColumnsHas(frames: seq<Table>, k: nat, name: string)
    requires k < |frames| && name in frames[k].columns
    ensures name in AllColumns(frames)
  {
    if k > 0 {
      AllColumnsHas(frames[1..], k - 1, name);
    }
  }

  /** The cell of `row` (a row of `t`) under the name `name`, missing when `t` has no such column. */
  function CellByName(t: Table, row: seq<Cell>, name: string): Cell
  {
    match ColumnIndex(t.columns, name)
    case None => Missing
    case Some(j) => if j < |row| then row[j] else Missing
  }

  /** The rows of `t` laid out under `cols`. */
  function Realign(t: Table, cols: seq<string>): (rows: seq<seq<Cell>>)
    ensures |rows| == |t.rows|
    ensures forall i :: 0 <= i < |rows| ==> |rows[i]| == |cols|
    ensures forall i, k :: 0 <= i < |rows| && 0 <= k < |cols| ==> rows[i][k] == CellByName(t, t.rows[i], cols[k])
  {
    seq(|t.rows|, i requires 0 <= i < |t.rows| => seq(|cols|, k requires 0 <= k < |cols| => CellByName(t, t.rows[i], cols[k])))
  }

  function ConcatRows(frames: seq<Table>, cols: seq<string>): (rows: seq<seq<Cell>>)
    ensures forall i :: 0 <= i < |rows| ==> |rows[i]| == |cols|
  {
    if frames == [] then [] else Realign(frames[0], cols) + ConcatRows(frames[1..], cols)
  }

  /** `pd.concat(frames, ignore_index=True)`. */
  function Concat(frames: seq<Table>): (r: Table)
    ensures WellFormed(r)
  {
    var cols := UnionInOrder([], AllColumns(frames));
    Table(cols, ConcatRows(frames, cols))
  }

  /** The `Date` value a row sorts by, when it has one. */
  function DateOf(row: seq<Cell>, j: nat): Option<int>
  {
    if j < |row| && row[j].Stamp? then Some(row[j].t) else None
  }

  /** Ascending by `Date`, rows without a timestamp last (`sort_values('Date')`). */
  predicate DateOrdered(rows: seq<seq<Cell>>, j: nat)
  {
    forall a, b :: 0 <= a < b < |rows| && DateOf(rows[b], j).Some? ==>
      DateOf(rows[a], j).Some? && DateOf(rows[a], j).value <= DateOf(rows[b], j).value
  }

  function Dated(rows: seq<seq<Cell>>, j: nat): (r: seq<seq<Cell>>)
    ensures forall i :: 0 <= i < |r| ==> DateOf(r[i], j).Some?
    ensures forall x :: x in r ==> x in rows
  {
    if rows == [] then []
    else (if DateOf(rows[0], j).Some? then [rows[0]] else []) + Dated(rows[1..], j)
  }

  function Undated(rows: seq<seq<Cell>>, j: nat): (r: seq<seq<Cell>>)
    ensures forall i :: 0 <= i < |r| ==> DateOf(r[i], j).None?
  {
    if rows == [] then []
    else (if DateOf(rows[0], j).None? then [rows[0]] else []) + Undated(rows[1..], j)
  }

  lemma {:induction false} SplitIsPermutation(rows: seq<seq<Cell>>, j: nat)
    ensures multiset(Dated(rows, j) + Undated(rows, j)) == multiset(rows)
  {
    if rows != [] {
      SplitIsPermutation(rows[1..], j);
      assert rows == [rows[0]] + rows[1..];
    }
  }

  function SortRowsByDate(rows: seq<seq<Cell>>, j: nat): (r: seq<seq<Cell>>)
    ensures multiset(r) == multiset(rows)
    ensures DateOrdered(r, j)
  {
    var key := (row: seq<Cell>) => if j < |row| && row[j].Stamp? then row[j].t else 0;
    var dated := Dated(rows, j);
    var sorted := SortBy(dated, key);
    SplitIsPermutation(rows, j);
    forall i | 0 <= i < |sorted| ensures DateOf(sorted[i], j).Some? {
      assert sorted[i] in multiset(dated);
    }
    assert forall i :: 0 <= i < |sorted| ==> key(sorted[i]) == DateOf(sorted[i], j).value;
    DatedFirstIsOrdered(sorted, Undated(rows, j), j);
    sorted + Undated(rows, j)
  }

  /** Rows in ascending timestamp order followed by rows without one are ordered as `sort_values` leaves them. */
  lemma DatedFirstIsOrdered(dated: seq<seq<Cell>>, undated: seq<seq<Cell>>, j: nat)
    requires forall i :: 0 <= i < |dated| ==> DateOf(dated[i], j).Some?
    requires forall a, b :: 0 <= a < b < |dated| ==> DateOf(dated[a], j).value <= DateOf(dated[b], j).value
    requires forall i :: 0 <= i < |undated| ==> DateOf(undated[i], j).None?
    ensures DateOrdered(dated + undated, j)
  {
    var r := dated + undated;
    assert forall a :: |dated| <= a < |r| ==> DateOf(r[a], j).None?;
  }

  /** What `aggregate_kw_datasets` returns: sorted by `Date` when there is one. */
  function Aggregate(datasets: seq<(string, Table)>, pattern: string): (r: Table)
    requires AllWellFormed(datasets)
    ensures "Date" in r.columns ==> DateOrdered(r.rows, ColumnIndex(r.columns, "Date").value)
  {
    var sel := Selected(datasets, pattern);
    if sel == [] then Empty
    else
      var c := Concat(sel);
      match ColumnIndex(c.columns, "Date")
      case None => c
      case Some(j) => Table(c.columns, SortRowsByDate(c.rows, j))
  }

  /** The loop over the dictionary, then the concatenation and the sort. */
  method AggregateKwDatasets(datasets: seq<(string, Table)>, pattern: string) returns (r: Table)
    requires AllWellFormed(datasets)
    ensures r == Aggregate(datasets, pattern)
  {
    var matching: seq<Table> := [];
    var i := 0;
    while i < |datasets|
      invariant 0 <= i <= |datasets|
      invariant matching == Selected(datasets[..i], pattern)
    {
      SelectedAppend(datasets[..i], datasets[i], pattern);
      assert datasets[..i + 1] == datasets[..i] + [datasets[i]];
      if Matches(datasets[i], pattern) {
        matching := matching + [Tagged(datasets[i])];
      }
      i := i + 1;
    }
    assert datasets[..i] == datasets;
    if matching == [] {
      return Empty;
    }
    var combined := Concat(matching);
    var at := ColumnIndex(combined.columns, "Date");
    if at.Some? {
      combined := Table(combined.columns, SortRowsByDate(combined.rows, at.value));
    }
    r := combined;
  }

  lemma {:induction false} ConcatRowCount(datasets: seq<(string, Table)>, pattern: string, cols: seq<string>)
    requires AllWellFormed(datasets)
    ensures |ConcatRows(Selected(datasets, pattern), cols)| == MatchedRows(datasets, pattern)
  {
    if datasets != [] {
      var sel := Selected(datasets, pattern);
      assert AllWellFormed(datasets[1..]) by {
        assert forall i :: 1 <= i < |datasets| ==> datasets[i] == datasets[1..][i - 1];
      }
      ConcatRowCount(datasets[1..], pattern, cols);
      if Matches(datasets[0], pattern) {
        assert sel[1..] == Selected(datasets[1..], pattern);
      }
    }
  }

  /** The aggregate holds exactly the rows of the matching datasets. */
  lemma AggregateRowCount(datasets: seq<(string, Table)>, pattern: string)
    requires AllWellFormed(datasets)
    ensures |Aggregate(datasets, pattern).rows| == MatchedRows(datasets, pattern)
  {
    var sel := Selected(datasets, pattern);
    ConcatRowCount(datasets, pattern, UnionInOrder([], AllColumns(sel)));
    if sel != [] {
      var c := Concat(sel);
      if "Date" in c.columns {
        var j := ColumnIndex(c.columns, "Date").value;
        assert |multiset(SortRowsByDate(c.rows, j))| == |multiset(c.rows)|;
      }
    } else {
      NoMatchNoRows(datasets, pattern);
    }
  }

  lemma {:induction false} NoMatchNoRows(datasets: seq<(string, Table)>, pattern: string)
    requires forall i :: 0 <= i < |datasets| ==> !Matches(datasets[i], pattern)
    ensures MatchedRows(datasets, pattern) == 0
  {
    if datasets != [] {
      assert datasets[0] == datasets[0];
      assert forall i :: 1 <= i < |datasets| ==> datasets[i] == datasets[1..][i - 1];
      NoMatchNoRows(datasets[1..], pattern);
    }
  }

  /** The aggregate is the empty frame exactly when no dataset matches. */
  lemma AggregateEmptyIffNoMatch(datasets: seq<(string, Table)>, pattern: string)
    requires AllWellFormed(datasets)
    ensures Aggregate(datasets, pattern) == Empty <==> forall i :: 0 <= i < |datasets| ==> !Matches(datasets[i], pattern)
  {
    var sel := Selected(datasets, pattern);
    if sel != [] {
      AllColumnsHas(sel, 0, "Quelle");
      assert "Quelle" in Aggregate(datasets, pattern).columns;
    }
  }

  /** Under column `q` the row holds the key of a matching dataset. */
  predicate TaggedRow(row: seq<Cell>, q: nat, datasets: seq<(string, Table)>, pattern: string)
  {
    q < |row| && exists i :: 0 <= i < |datasets| && Matches(datasets[i], pattern) && row[q] == Text(datasets[i].0)
  }

  /** Every row of the concatenation carries, under `Quelle`, the key of the matching dataset it came from. */
  lemma {:induction false} ConcatRowsTagged(datasets: seq<(string, Table)>, pattern: string, cols: seq<string>, q: nat)
    requires AllWellFormed(datasets) && q < |cols| && cols[q] == "Quelle"
    ensures forall row :: row in ConcatRows(Selected(datasets, pattern), cols) ==> TaggedRow(row, q, datasets, pattern)
  {
    if datasets != [] {
      var sel := Selected(datasets, pattern);
      assert AllWellFormed(datasets[1..]) by {
        assert forall i :: 1 <= i < |datasets| ==> datasets[i] == datasets[1..][i - 1];
      }
      ConcatRowsTagged(datasets[1..], pattern, cols, q);
      forall row | row in ConcatRows(sel, cols) ensures TaggedRow(row, q, datasets, pattern) {
        if Matches(datasets[0], pattern) && row in Realign(Tagged(datasets[0]), cols) {
          var t := Tagged(datasets[0]);
          var r :| 0 <= r < |t.rows| && Realign(t, cols)[r] == row;
          var j := ColumnIndex(t.columns, "Quelle").value;
          assert Column(t, j)[r] == Text(datasets[0].0);
          assert row[q] == Text(datasets[0].0);
        } else {
          if Matches(datasets[0], pattern) {
            assert sel[1..] == Selected(datasets[1..], pattern);
          }
          assert TaggedRow(row, q, datasets[1..], pattern);
          var i :| 0 <= i < |datasets[1..]| && Matches(datasets[1..][i], pattern) && row[q] == Text(datasets[1..][i].0);
          assert datasets[1..][i] == datasets[i + 1];
        }
      }
    }
  }

  /** Sorting keeps the rows, so every aggregated row is tagged with the key it came from. */
  lemma AggregateRowsTagged(datasets: seq<(string, Table)>, pattern: string)
    requires AllWellFormed(datasets)
    ensures var r := Aggregate(datasets, pattern);
      r != Empty ==> (ColumnIndex(r.columns, "Quelle").Some? &&
        forall row :: row in r.rows ==> TaggedRow(row, ColumnIndex(r.columns, "Quelle").value, datasets, pattern))
  {
    var sel := Selected(datasets, pattern);
    if sel != [] {
      AllColumnsHas(sel, 0, "Quelle");
      var c := Concat(sel);
      var q := ColumnIndex(c.columns, "Quelle").value;
      ConcatRowsTagged(datasets, pattern, c.columns, q);
      var r := Aggregate(datasets, pattern);
      assert r.columns == c.columns && multiset(r.rows) == multiset(c.rows);
      forall row | row in r.rows ensures TaggedRow(row, q, datasets, pattern) {
        assert row in multiset(r.rows);
        assert row in c.rows;
      }
    }
  }
}
