/**
 * The original loader: a comma-only search for Erentrudis files, an exact-name
 * candidate list for the timestamp column whose accepted column has every
 * unparsed row dropped, a first-column fallback, the hourly index only for a
 * frame with rows, and keys cut to 30 characters.
 */
module PlainLoader {
  import opened Strings
  import opened Frame
  import opened Columns
  import opened Dates
  import opened Sources

  /** Erentrudis files are read with ',' only; every other source tries ';', ',', tab. */
  function Separators(source: SourceType): seq<char>
  {
    if source == Erentrudis then [','] else [';', ',', '\t']
  }

  /** Exact column names accepted as the timestamp column, in priority order. */
  const DateCandidates: seq<string> := [
    "Date", "Datum + Uhrzeit", "Time", "Timestamp", "Zeit", "ZEIT_VON_UTC", "ZEIT_BIS_UTC", "Datum", "DateTime"]

  const FallbackKeywords: seq<string> := ["date", "zeit", "time"]

  /** One candidate column: interpolation raised after `Date` was stored, or the column was accepted. */
  datatype Attempt = Failed(stored: Table) | Accepted(result: Table)

  /**
   * One pass of the candidate loop over column `j`: the converted column is
   * stored as `Date`; with gaps and some timestamps it is interpolated, which
   * may raise; otherwise the rows still lacking a timestamp are dropped.
   */
  function TryColumn(df: Table, j: nat, parse: (DateFormat, Cell) -> Option<int>,
                     interpolate: seq<Option<int>> -> Option<seq<Option<int>>>): (a: Attempt)
    requires WellFormed(df) && KeepsLength(interpolate)
    ensures a.Failed? ==> WellFormed(a.stored) && |a.stored.rows| == |df.rows|
    ensures a.Failed? ==> a.stored.columns == if "Date" in df.columns then df.columns else df.columns + ["Date"]
    ensures a.Accepted? ==> WellFormed(a.result) && |a.result.rows| <= |df.rows|
  {
    var d := ToDatetime(Column(df, j), Inferred, parse);
    if CountMissing(d) > 0 && ValidCount(d) > 0 then
      match interpolate(d)
      case None => Failed(SetColumn(df, "Date", StampCells(d)))
      case Some(filled) => Accepted(DropMissingDates(df, filled))
    else Accepted(DropMissingDates(df, d))
  }

  /** The frame after the candidate loop, and whether a column was accepted. */
  datatype Scan = Scan(table: Table, found: bool)

  function ScanCandidates(df: Table, cands: seq<string>, parse: (DateFormat, Cell) -> Option<int>,
                          interpolate: seq<Option<int>> -> Option<seq<Option<int>>>): (r: Scan)
    requires WellFormed(df) && KeepsLength(interpolate)
    ensures WellFormed(r.table) && |r.table.rows| <= |df.rows|
    ensures !r.found ==> |r.table.rows| == |df.rows|
    ensures !r.found ==> r.table.columns == df.columns || ("Date" !in df.columns && r.table.columns == df.columns + ["Date"])
    decreases |cands|
  {
    if cands == [] then Scan(df, false)
    else
      match ColumnIndex(df.columns, cands[0])
      case None => ScanCandidates(df, cands[1..], parse, interpolate)
      case Some(j) =>
        match TryColumn(df, j, parse, interpolate)
        case Accepted(t) => Scan(t, true)
        case Failed(t) => ScanCandidates(t, cands[1..], parse, interpolate)
  }

  /** The first-column fallback, taken only when the loop accepted nothing. */
  function Fallback(s: Scan, parse: (DateFormat, Cell) -> Option<int>): (r: Scan)
    requires WellFormed(s.table)
    ensures WellFormed(r.table) && |r.table.rows| <= |s.table.rows|
    ensures r.found <==> s.found || (|s.table.columns| > 0 && ContainsAny(Lower(s.table.columns[0]), FallbackKeywords))
    ensures !r.found ==> r == s
  {
    if !s.found && |s.table.columns| > 0 && ContainsAny(Lower(s.table.columns[0]), FallbackKeywords) then
      Scan(DropMissingDates(s.table, ToDatetime(Column(s.table, 0), Inferred, parse)), true)
    else s
  }

  /** The hourly index, only when no column was found and the frame has rows. */
  function Finish(s: Scan): (r: Table)
    requires WellFormed(s.table)
    ensures WellFormed(r) && |r.rows| == |s.table.rows|
    ensures s.found || |s.table.rows| == 0 ==> r == s.table
    ensures !s.found && |s.table.rows| > 0 ==>
      DateIndex(r).Some? && Column(r, DateIndex(r).value) == StampCells(HourlyDates(|s.table.rows|))
  {
    if !s.found && |s.table.rows| > 0 then SetColumn(s.table, "Date", StampCells(HourlyDates(|s.table.rows|)))
    else s.table
  }

  /** What `_process_datetime_columns` returns. */
  function ProcessedFrame(df: Table, parse: (DateFormat, Cell) -> Option<int>,
                          interpolate: seq<Option<int>> -> Option<seq<Option<int>>>): (r: Table)
    requires WellFormed(df) && KeepsLength(interpolate)
    ensures WellFormed(r) && |r.rows| <= |df.rows|
  {
    Finish(Fallback(ScanCandidates(df, DateCandidates, parse, interpolate), parse))
  }

  /** `_process_datetime_columns`: the candidate loop, then the fallback, then the hourly index. */
  method ProcessDatetimeColumns(df: Table, parse: (DateFormat, Cell) -> Option<int>,
                                interpolate: seq<Option<int>> -> Option<seq<Option<int>>>) returns (r: Table)
    requires WellFormed(df) && KeepsLength(interpolate)
    ensures r == ProcessedFrame(df, parse, interpolate)
    ensures WellFormed(r) && |r.rows| <= |df.rows|
  {
    var cur := df;
    var i := 0;
    while i < |DateCandidates|
      invariant 0 <= i <= |DateCandidates| && WellFormed(cur)
      invariant ScanCandidates(cur, DateCandidates[i..], parse, interpolate) == ScanCandidates(df, DateCandidates, parse, interpolate)
    {
      assert DateCandidates[i..][0] == DateCandidates[i] && DateCandidates[i..][1..] == DateCandidates[i + 1..];
      ScanStep(cur, DateCandidates[i..], parse, interpolate);
      var at := ColumnIndex(cur.columns, DateCandidates[i]);
      if at.Some? {
        var attempt := TryColumn(cur, at.value, parse, interpolate);
        if attempt.Accepted? {
          r := attempt.result;
          assert r == ProcessedFrame(df, parse, interpolate);
          return;
        }
        cur := attempt.stored;
      }
      i := i + 1;
    }
    assert DateCandidates[i..] == [];
    r := FallbackOrHourly(cur, parse);
    assert r == ProcessedFrame(df, parse, interpolate);
  }

  /** The part of `_process_datetime_columns` after a loop that accepted nothing: the first-column fallback, then the hourly index. */
  method FallbackOrHourly(cur: Table, parse: (DateFormat, Cell) -> Option<int>) returns (r: Table)
    requires WellFormed(cur)
    ensures r == Finish(Fallback(Scan(cur, false), parse))
    ensures WellFormed(r) && |r.rows| <= |cur.rows|
  {
    var s := Scan(cur, false);
    if |cur.columns| > 0 && ContainsAny(Lower(cur.columns[0]), FallbackKeywords) {
      var d := ToDatetime(Column(cur, 0), Inferred, parse);
      s := Scan(DropMissingDates(cur, d), true);
    }
    r := Finish(s);
  }

  /** One candidate of the loop: skipped when absent, the stored frame carried on after a failure, the end after an acceptance. */
  lemma ScanStep(cur: Table, cands: seq<string>, parse: (DateFormat, Cell) -> Option<int>,
                 interpolate: seq<Option<int>> -> Option<seq<Option<int>>>)
    requires WellFormed(cur) && KeepsLength(interpolate) && cands != []
    ensures ColumnIndex(cur.columns, cands[0]).None? ==>
      ScanCandidates(cur, cands, parse, interpolate) == ScanCandidates(cur, cands[1..], parse, interpolate)
    ensures ColumnIndex(cur.columns, cands[0]).Some? ==>
      var a := TryColumn(cur, ColumnIndex(cur.columns, cands[0]).value, parse, interpolate);
      if a.Failed? then ScanCandidates(cur, cands, parse, interpolate) == ScanCandidates(a.stored, cands[1..], parse, interpolate)
      else Finish(Fallback(ScanCandidates(cur, cands, parse, interpolate), parse)) == a.result
  {
  }

  /** A column accepted by the loop keeps only rows with a timestamp in `Date`. */
  lemma {:induction false} AcceptedHasNoMissingDates(df: Table, cands: seq<string>, parse: (DateFormat, Cell) -> Option<int>,
                                                     interpolate: seq<Option<int>> -> Option<seq<Option<int>>>)
    requires WellFormed(df) && KeepsLength(interpolate)
    ensures var s := ScanCandidates(df, cands, parse, interpolate);
      s.found ==> DateIndex(s.table).Some? && forall i :: 0 <= i < |s.table.rows| ==> Column(s.table, DateIndex(s.table).value)[i].Stamp?
    decreases |cands|
  {
    if cands != [] {
      match ColumnIndex(df.columns, cands[0])
      case None => AcceptedHasNoMissingDates(df, cands[1..], parse, interpolate);
      case Some(j) =>
        var d := ToDatetime(Column(df, j), Inferred, parse);
        if CountMissing(d) > 0 && ValidCount(d) > 0 && interpolate(d).Some? {
          DroppedDatesComplete(df, interpolate(d).value);
        } else if CountMissing(d) > 0 && ValidCount(d) > 0 {
          AcceptedHasNoMissingDates(TryColumn(df, j, parse, interpolate).stored, cands[1..], parse, interpolate);
        } else {
          DroppedDatesComplete(df, d);
        }
    }
  }

  /** Whenever a timestamp column was found, by the loop or the fallback, no row of the result lacks a timestamp. */
  lemma FoundDatesComplete(df: Table, parse: (DateFormat, Cell) -> Option<int>,
                           interpolate: seq<Option<int>> -> Option<seq<Option<int>>>)
    requires WellFormed(df) && KeepsLength(interpolate)
    ensures var s := Fallback(ScanCandidates(df, DateCandidates, parse, interpolate), parse);
      s.found ==> var r := ProcessedFrame(df, parse, interpolate);
        DateIndex(r).Some? && forall i :: 0 <= i < |r.rows| ==> Column(r, DateIndex(r).value)[i].Stamp?
  {
    var s := ScanCandidates(df, DateCandidates, parse, interpolate);
    AcceptedHasNoMissingDates(df, DateCandidates, parse, interpolate);
    if !s.found && |s.table.columns| > 0 && ContainsAny(Lower(s.table.columns[0]), FallbackKeywords) {
      DroppedDatesComplete(s.table, ToDatetime(Column(s.table, 0), Inferred, parse));
    }
  }

  /**
   * When interpolation never raises, the loop settles on the first candidate
   * that is a column name, whatever comes after it.
   */
  lemma {:induction false} FirstPresentCandidateWins(df: Table, cands: seq<string>, k: nat,
                                                     parse: (DateFormat, Cell) -> Option<int>,
                                                     interpolate: seq<Option<int>> -> Option<seq<Option<int>>>)
    requires WellFormed(df) && KeepsLength(interpolate)
    requires forall d :: interpolate(d).Some?
    requires k < |cands| && cands[k] in df.columns
    requires forall m :: 0 <= m < k ==> cands[m] !in df.columns
    ensures ScanCandidates(df, cands, parse, interpolate) ==
      Scan(TryColumn(df, ColumnIndex(df.columns, cands[k]).value, parse, interpolate).result, true)
    decreases k
  {
    if k > 0 {
      assert cands[0] !in df.columns;
      assert forall m :: 0 <= m < k - 1 ==> cands[1..][m] == cands[m + 1];
      FirstPresentCandidateWins(df, cands[1..], k - 1, parse, interpolate);
    }
  }

  /** And when no candidate is a column name the loop leaves the frame as it was. */
  lemma {:induction false} NoCandidateLeavesFrame(df: Table, cands: seq<string>,
                                                  parse: (DateFormat, Cell) -> Option<int>,
                                                  interpolate: seq<Option<int>> -> Option<seq<Option<int>>>)
    requires WellFormed(df) && KeepsLength(interpolate)
    requires forall m :: 0 <= m < |cands| ==> cands[m] !in df.columns
    ensures ScanCandidates(df, cands, parse, interpolate) == Scan(df, false)
    decreases |cands|
  {
    if cands != [] {
      assert cands[0] !in df.columns;
      NoCandidateLeavesFrame(df, cands[1..], parse, interpolate);
    }
  }

  /** The frame the search settles on for this loader's separators. */
  function Candidate(source: SourceType, read: (string, char) -> ReadOutcome): (r: Option<Table>)
    requires forall e, c :: read(e, c).Loaded? ==> WellFormed(read(e, c).table)
    ensures r.Some? ==> WellFormed(r.value)
  {
    SearchOutcome(source, Separators(source), read)
  }

  /** Only `Date` stays text: every other object column is parsed as a number. */
  const TextColumns: seq<string> := ["Date"]

  /**
   * `load_csv_flexible`: search, timestamp handling and numeric conversion; the
   * empty frame when nothing was read.
   */
  method LoadCsvFlexible(source: SourceType, read: (string, char) -> ReadOutcome,
                         parse: (DateFormat, Cell) -> Option<int>,
                         interpolate: seq<Option<int>> -> Option<seq<Option<int>>>,
                         toNumber: string -> Option<real>) returns (t: Table)
    requires forall e, c :: read(e, c).Loaded? ==> WellFormed(read(e, c).table)
    requires KeepsLength(interpolate)
    ensures Candidate(source, read).None? ==> t == Empty
    ensures Candidate(source, read).Some? ==>
      CoercedFrom(ProcessedFrame(Candidate(source, read).value, parse, interpolate), t, TextColumns, toNumber)
  {
    var df := SearchCsv(source, Separators(source), read);
    if df.None? {
      return Empty;
    }
    var processed := ProcessDatetimeColumns(df.value, parse, interpolate);
    t := CoerceNumericColumns(processed, TextColumns, toNumber);
  }

  /** Column names the Excel loader normalises. */
  const ExcelRenames: map<string, string> := map[
    "ZEIT_VON_UTC" := "Date", "ZEIT_BIS_UTC" := "Date_To", "Zeit_Von" := "Date",
    "WERT" := "Value", "Energie (kWh)" := "Energy_kWh", "Leistung (kW)" := "Power_kW",
    "EINHEIT" := "Unit", "DateTime" := "Date"]

  const ExcelNumeric: seq<string> := ["Value", "Energy_kWh", "Power_kW", "WERT"]

  /** pandas raises on a duplicated `Date` or numeric column name after the renames. */
  predicate ExcelRaises(cols: seq<string>)
  {
    Duplicated(cols, "Date") || exists n :: n in ExcelNumeric && Duplicated(cols, n)
  }

  /** The `Date` column of the renamed sheet, converted. */
  function ExcelDates(df: Table, parse: (DateFormat, Cell) -> Option<int>): (d: seq<Option<int>>)
    requires "Date" in df.columns
    ensures |d| == |df.rows|
  {
    ToDatetime(Column(df, DateIndex(df).value), Inferred, parse)
  }

  /**
   * `load_excel_flexible`: the first engine that reads, the renames, every row
   * with an unparsed `Date` dropped, and the numeric columns.
   */
  method LoadExcelFlexible(attempts: seq<ReadOutcome>, parse: (DateFormat, Cell) -> Option<int>,
                           toNumber: string -> Option<real>) returns (t: Table)
    requires forall i :: 0 <= i < |attempts| && attempts[i].Loaded? ==> WellFormed(attempts[i].table)
    ensures FirstLoaded(attempts).None? ==> t == Empty
    ensures FirstLoaded(attempts).Some? ==>
      var df := Renamed(FirstLoaded(attempts).value, ExcelRenames);
      (ExcelRaises(df.columns) ==> t == Empty) &&
      (!ExcelRaises(df.columns) ==> WellFormed(t) && t.columns == df.columns) &&
      (!ExcelRaises(df.columns) && "Date" !in df.columns ==> |t.rows| == |df.rows|) &&
      (!ExcelRaises(df.columns) && "Date" in df.columns ==>
        |t.rows| == |df.rows| - CountMissing(ExcelDates(df, parse)) &&
        forall i :: 0 <= i < |t.rows| ==> Column(t, DateIndex(t).value)[i].Stamp?)
    ensures FirstLoaded(attempts).Some? && !ExcelRaises(Renamed(FirstLoaded(attempts).value, ExcelRenames).columns) ==>
      var df := Renamed(FirstLoaded(attempts).value, ExcelRenames);
      NamedCoercedFrom(if "Date" in df.columns then DropMissingDates(df, ExcelDates(df, parse)) else df, t, ExcelNumeric, toNumber)
  {
    var first := FirstLoaded(attempts);
    if first.None? {
      return Empty;
    }
    var i :| 0 <= i < |attempts| && attempts[i] == Loaded(first.value);
    var df := Renamed(first.value, ExcelRenames);
    var u := df;
    if "Date" in df.columns {
      if Duplicated(df.columns, "Date") {
        return Empty;
      }
      u := DropMissingDates(df, ExcelDates(df, parse));
    }
    var coerced := CoerceNamed(u, ExcelNumeric, toNumber);
    if coerced.None? {
      return Empty;
    }
    t := coerced.value;
    CoercedSheetKeepsDates(df, parse, u, t, toNumber);
  }

  /** Coercing the numeric columns leaves the columns, the row count and the parsed `Date` column as the drop made them. */
  lemma CoercedSheetKeepsDates(df: Table, parse: (DateFormat, Cell) -> Option<int>, u: Table, t: Table,
                               toNumber: string -> Option<real>)
    requires WellFormed(df)
    requires u == if "Date" in df.columns then DropMissingDates(df, ExcelDates(df, parse)) else df
    requires NamedCoercedFrom(u, t, ExcelNumeric, toNumber)
    ensures WellFormed(t) && t.columns == df.columns
    ensures "Date" !in df.columns ==> |t.rows| == |df.rows|
    ensures "Date" in df.columns ==>
      |t.rows| == |df.rows| - CountMissing(ExcelDates(df, parse)) &&
      forall i :: 0 <= i < |t.rows| ==> Column(t, DateIndex(t).value)[i].Stamp?
  {
    if "Date" in df.columns {
      DroppedDatesComplete(df, ExcelDates(df, parse));
      var j := DateIndex(u).value;
      assert u.columns[j] !in ExcelNumeric;
      assert Column(t, j) == Column(u, j);
    }
  }

  /** The files each key is derived from in `load_all_data`. */
  datatype DatasetFile =
    | Twin2SimCsv(stem: string)
    | MonitoringCsv(stem: string)
    | MonitoringSubdirCsv(dir: string, stem: string)
    | FisWorkbook(stem: string)
    | FisSubdirCsv(dir: string, stem: string)
    | KwWorkbook(stem: string)
    | KwYearWorkbook(year: string, stem: string)

  /** The key before truncation. */
  function FullKey(f: DatasetFile): string
  {
    match f
    case Twin2SimCsv(stem) => ReplaceAll(Lower(stem), "t2s_", "")
    case MonitoringCsv(stem) => stem
    case MonitoringSubdirCsv(dir, stem) => dir + "_" + stem
    case FisWorkbook(stem) => stem
    case FisSubdirCsv(dir, stem) => dir + "_" + stem
    case KwWorkbook(stem) => ReplaceChar(Lower(stem), ' ', '_')
    case KwYearWorkbook(year, stem) => year + "_" + stem
  }

  /** Every key of this loader is its full name cut to 30 characters. */
  function Key(f: DatasetFile): (k: string)
    ensures |k| <= 30
    ensures StartsWith(FullKey(f), k)
    ensures |FullKey(f)| <= 30 ==> k == FullKey(f)
  {
    DatasetKey(FullKey(f))
  }
}
