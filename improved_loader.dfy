/**
 * The improved CSV and Excel loader: a per-source separator order in the
 * candidate search, the Twin2Sim header-row skip, the case-insensitive scan for
 * a timestamp column, the Erentrudis format list, the rule for invalid
 * timestamps, and the dataset keys of `load_all_data`.
 */
module ImprovedLoader {
  import opened Strings
  import opened Frame
  import opened Columns
  import opened Dates
  import opened Sources

  /** Separator order of the inner loop for each source. */
  function Separators(source: SourceType): seq<char>
  {
    match source
    case Erentrudis => [',', ';', '\t']
    case Fis => [',', ';', '\t']
    case _ => [';', ',', '\t']
  }

  /** The frame the search settles on for this loader's separator order. */
  function Candidate(source: SourceType, read: (string, char) -> ReadOutcome): (r: Option<Table>)
    requires forall e, c :: read(e, c).Loaded? ==> WellFormed(read(e, c).table)
    ensures r.Some? ==> WellFormed(r.value)
  {
    SearchOutcome(source, Separators(source), read)
  }

  /** Names whose lowercase form marks a timestamp column. */
  const DateCandidates: seq<string> := [
    "Date", "Datum + Uhrzeit", "Datum+Uhrzeit", "DateTime", "Time", "Timestamp",
    "Zeit", "Datum", "ZEIT_VON_UTC", "ZEIT_BIS_UTC", "Zeitstempel"]

  /** Keywords of the first-column fallback. */
  const FallbackKeywords: seq<string> := ["date", "zeit", "time", "datum"]

  /** The timestamp column as the code picks it: the scan, then the first-column fallback. */
  function DateSource(cols: seq<string>): Option<nat>
  {
    match FirstNameMatch(cols, DateCandidates)
    case Some(i) => Some(i)
    case None => if |cols| > 0 && ContainsAny(Lower(cols[0]), FallbackKeywords) then Some(0) else None
  }

  /** Each fallback keyword is the lowercase form of a candidate, so the fallback never accepts a column the scan missed. */
  lemma FallbackNeverMatches(name: string)
    requires !NameMatches(name, DateCandidates)
    ensures !ContainsAny(Lower(name), FallbackKeywords)
  {
    FallbackKeywordsCovered();
    CoveredKeywordsNeverMatch(name, DateCandidates, FallbackKeywords);
  }

  /** Keywords that are all lowercase forms of scanned names add no match of their own. */
  lemma CoveredKeywordsNeverMatch(name: string, keys: seq<string>, fallback: seq<string>)
    requires !NameMatches(name, keys)
    requires forall k :: k in fallback ==> exists c :: c in keys && Lower(c) == k
    ensures !ContainsAny(Lower(name), fallback)
  {
    forall k | k in fallback ensures !Contains(Lower(name), k) {
      var c :| c in keys && Lower(c) == k;
    }
  }

  lemma FallbackKeywordsCovered()
    ensures forall k :: k in FallbackKeywords ==> exists c :: c in DateCandidates && Lower(c) == k
  {
    LowerCandidates();
    forall k | k in FallbackKeywords ensures exists c :: c in DateCandidates && Lower(c) == k {
      var m :| 0 <= m < 4 && FallbackKeywords[m] == k;
      var c := DateCandidates[[0, 6, 4, 7][m]];
      assert c in DateCandidates && Lower(c) == k;
    }
  }

  lemma LowerCandidates()
    ensures Lower(DateCandidates[0]) == FallbackKeywords[0] && Lower(DateCandidates[4]) == FallbackKeywords[2]
    ensures Lower(DateCandidates[6]) == FallbackKeywords[1] && Lower(DateCandidates[7]) == FallbackKeywords[3]
  {
    assert Lower("Date") == "date" && Lower("Zeit") == "zeit" && Lower("Time") == "time" && Lower("Datum") == "datum";
  }

  /** Hence the timestamp column is exactly the first one the scan accepts. */
  lemma DateSourceIsFirstMatch(cols: seq<string>)
    ensures DateSource(cols) == FirstNameMatch(cols, DateCandidates)
  {
    if FirstNameMatch(cols, DateCandidates).None? && |cols| > 0 {
      FallbackNeverMatches(cols[0]);
    }
  }

  /** Formats tried in order for Erentrudis files. */
  const ErentrudisFormats: seq<string> := [
    "%d.%m.%Y %H:%M:%S", "%Y-%m-%d %H:%M:%S", "%d/%m/%Y %H:%M:%S", "%Y/%m/%d %H:%M:%S",
    "%d.%m.%Y %H:%M", "%Y-%m-%d %H:%M", "%d-%m-%Y %H:%M:%S", "%m/%d/%Y %H:%M:%S"]

  /** More than half of the rows hold a timestamp (`valid > len * 0.5`). */
  predicate MostlyValid(ts: seq<Option<int>>)
  {
    2 * ValidCount(ts) > |ts|
  }

  /** The first format under which most rows parse. */
  function FirstPassingFormat(cells: seq<Cell>, fmts: seq<string>, parse: (DateFormat, Cell) -> Option<int>): (r: Option<nat>)
    ensures r.Some? ==> r.value < |fmts| && MostlyValid(ToDatetime(cells, Format(fmts[r.value]), parse))
    ensures r.Some? ==> forall f :: 0 <= f < r.value ==> !MostlyValid(ToDatetime(cells, Format(fmts[f]), parse))
    ensures r.None? ==> forall f :: 0 <= f < |fmts| ==> !MostlyValid(ToDatetime(cells, Format(fmts[f]), parse))
  {
    if fmts == [] then None
    else if MostlyValid(ToDatetime(cells, Format(fmts[0]), parse)) then Some(0)
    else
      match FirstPassingFormat(cells, fmts[1..], parse)
      case None => None
      case Some(f) => Some(f + 1)
  }

  /** The intended Erentrudis parse: the first format under which most rows parse, else inference. */
  function ParseWithFormats(cells: seq<Cell>, fmts: seq<string>, parse: (DateFormat, Cell) -> Option<int>): seq<Option<int>>
  {
    match FirstPassingFormat(cells, fmts, parse)
    case Some(f) => ToDatetime(cells, Format(fmts[f]), parse)
    case None => ToDatetime(cells, Inferred, parse)
  }

  /**
   * The Erentrudis loop as written. Each attempt assigns `df['Date']`; when the
   * timestamp column is itself called `Date` (`overwrites`), the next attempt
   * parses that converted column instead of the original text.
   */
  function DatesAsWritten(src: seq<Cell>, fmts: seq<string>, overwrites: bool, parse: (DateFormat, Cell) -> Option<int>): seq<Option<int>>
    decreases |fmts|
  {
    if fmts == [] then ToDatetime(src, Inferred, parse)
    else
      var d := ToDatetime(src, Format(fmts[0]), parse);
      if MostlyValid(d) then d
      else DatesAsWritten(if overwrites then StampCells(d) else src, fmts[1..], overwrites, parse)
  }

  /** With any other column name the loop does what was intended. */
  lemma {:induction false} AsWrittenWithoutOverwrite(cells: seq<Cell>, fmts: seq<string>, parse: (DateFormat, Cell) -> Option<int>)
    ensures DatesAsWritten(cells, fmts, false, parse) == ParseWithFormats(cells, fmts, parse)
    decreases |fmts|
  {
    if fmts != [] && !MostlyValid(ToDatetime(cells, Format(fmts[0]), parse)) {
      AsWrittenWithoutOverwrite(cells, fmts[1..], parse);
      match FirstPassingFormat(cells, fmts[1..], parse)
      case None =>
      case Some(f) => assert fmts[1..][f] == fmts[f + 1];
    }
  }

  /** Once the column holds timestamps, no later format can change it. */
  lemma {:induction false} ConvertedColumnStays(ts: seq<Option<int>>, fmts: seq<string>, parse: (DateFormat, Cell) -> Option<int>)
    ensures DatesAsWritten(StampCells(ts), fmts, true, parse) == ts
    decreases |fmts|
  {
    if fmts == [] {
      ReconvertIsIdentity(ts, Inferred, parse);
    } else {
      ReconvertIsIdentity(ts, Format(fmts[0]), parse);
      if !MostlyValid(ts) {
        ConvertedColumnStays(ts, fmts[1..], parse);
      }
    }
  }

  /** So a column called `Date` always ends up with the first format's parse. */
  lemma OverwritingKeepsFirstAttempt(src: seq<Cell>, fmts: seq<string>, parse: (DateFormat, Cell) -> Option<int>)
    requires |fmts| > 0
    ensures DatesAsWritten(src, fmts, true, parse) == ToDatetime(src, Format(fmts[0]), parse)
  {
    var d := ToDatetime(src, Format(fmts[0]), parse);
    if !MostlyValid(d) {
      ConvertedColumnStays(d, fmts[1..], parse);
    }
  }

  /** A day-first value without seconds, which only the fifth format reads. */
  const SampleColumn: seq<Cell> := [Text("01.01.2024 00:00")]

  function SampleParser(fmt: DateFormat, c: Cell): Option<int>
  {
    if fmt == Format("%d.%m.%Y %H:%M") then Some(HourlyStart) else None
  }

  lemma SampleConversion(p: string)
    ensures ToDatetime(SampleColumn, Format(p), SampleParser) == if p == "%d.%m.%Y %H:%M" then [Some(HourlyStart)] else [None]
    ensures !MostlyValid([None]) && MostlyValid([Some(HourlyStart)])
  {
    assert CountMissing<int>([None]) == 1 && CountMissing([Some(HourlyStart)]) == 0;
    var ts := ToDatetime(SampleColumn, Format(p), SampleParser);
    assert ts[0] == SampleParser(Format(p), SampleColumn[0]);
  }

  /** The discrepancy: with the column named `Date` the sample loses its timestamp, though the fifth format reads it. */
  lemma DateNamedColumnLosesLaterFormats()
    ensures DatesAsWritten(SampleColumn, ErentrudisFormats, true, SampleParser) == [None]
    ensures ParseWithFormats(SampleColumn, ErentrudisFormats, SampleParser) == [Some(HourlyStart)]
  {
    OverwritingKeepsFirstAttempt(SampleColumn, ErentrudisFormats, SampleParser);
    SampleConversion(ErentrudisFormats[0]);
    SampleConversion(ErentrudisFormats[4]);
    var r := FirstPassingFormat(SampleColumn, ErentrudisFormats, SampleParser);
    assert r.Some?;
    SampleConversion(ErentrudisFormats[r.value]);
  }

  /** The corrected Erentrudis loop: every format parses the original column. */
  method ParseErentrudisDates(cells: seq<Cell>, parse: (DateFormat, Cell) -> Option<int>) returns (date: seq<Option<int>>)
    ensures date == ParseWithFormats(cells, ErentrudisFormats, parse)
    ensures |date| == |cells|
  {
    var i := 0;
    while i < |ErentrudisFormats|
      invariant 0 <= i <= |ErentrudisFormats|
      invariant forall f :: 0 <= f < i ==> !MostlyValid(ToDatetime(cells, Format(ErentrudisFormats[f]), parse))
    {
      date := ToDatetime(cells, Format(ErentrudisFormats[i]), parse);
      if MostlyValid(date) {
        return;
      }
      i := i + 1;
    }
    date := ToDatetime(cells, Inferred, parse);
  }

  /** The column stored in `Date` before the invalid-timestamp rule runs. */
  function ParsedDates(df: Table, source: SourceType, parse: (DateFormat, Cell) -> Option<int>): (d: seq<Option<int>>)
    requires DateSource(df.columns).Some?
    ensures |d| == |df.rows|
  {
    var cells := Column(df, DateSource(df.columns).value);
    if source == Erentrudis then ParseWithFormats(cells, ErentrudisFormats, parse) else ToDatetime(cells, Inferred, parse)
  }

  /**
   * For every Erentrudis frame whose timestamp column is not itself called
   * `Date`, the format loop as written stores exactly these stamps; the one
   * case where it does not is the overwrite recorded under the findings.
   */
  lemma ParsedDatesAsWritten(df: Table, parse: (DateFormat, Cell) -> Option<int>)
    requires DateSource(df.columns).Some? && DateSource(df.columns).value < |df.columns|
    requires df.columns[DateSource(df.columns).value] != "Date"
    ensures DatesAsWritten(Column(df, DateSource(df.columns).value), ErentrudisFormats, false, parse) == ParsedDates(df, Erentrudis, parse)
  {
    AsWrittenWithoutOverwrite(Column(df, DateSource(df.columns).value), ErentrudisFormats, parse);
  }

  /** Fewer than a tenth of the rows lack a timestamp, and some do (`0 < invalid < len * 0.1`). */
  predicate FewInvalid(d: seq<Option<int>>)
  {
    0 < CountMissing(d) && 10 * CountMissing(d) < |d|
  }

  /** What the invalid-timestamp rule promises about the frame it returns. */
  predicate InvalidDateRule(df: Table, out: Table, d: seq<Option<int>>, interpolate: seq<Option<int>> -> Option<seq<Option<int>>>)
    requires WellFormed(df) && |d| == |df.rows|
  {
    && (CountMissing(d) == 0 ==> out == SetColumn(df, "Date", StampCells(d)))
    && (FewInvalid(d) ==> out == DropMissingDates(df, d))
    && (!FewInvalid(d) ==> |out.rows| == |df.rows|)
    && (10 * CountMissing(d) >= |d| > 0 && ValidCount(d) <= 2 ==>
          DateIndex(out).Some? && Column(out, DateIndex(out).value) == StampCells(HourlyDates(|d|)))
    && (10 * CountMissing(d) >= |d| > 0 && ValidCount(d) > 2 && interpolate(d).None? ==>
          DateIndex(out).Some? && Column(out, DateIndex(out).value) == StampCells(d))
  }

  /** Storing `d` in `Date` and applying the invalid-timestamp rule (the `try` block after the parse). */
  function RepairDates(df: Table, d: seq<Option<int>>, interpolate: seq<Option<int>> -> Option<seq<Option<int>>>): (r: Table)
    requires WellFormed(df) && |d| == |df.rows| && KeepsLength(interpolate)
    ensures WellFormed(r)
  {
    var t := SetColumn(df, "Date", StampCells(d));
    var invalid := CountMissing(d);
    if invalid == 0 then t
    else if 10 * invalid < |d| then DropMissingDates(df, d)
    else if ValidCount(d) > 2 then
      match interpolate(d)
      case Some(filled) => SetColumn(t, "Date", StampCells(filled))
      case None => t
    else SetColumn(t, "Date", StampCells(HourlyDates(|d|)))
  }

  lemma RepairFollowsRule(df: Table, d: seq<Option<int>>, interpolate: seq<Option<int>> -> Option<seq<Option<int>>>)
    requires WellFormed(df) && |d| == |df.rows| && KeepsLength(interpolate)
    ensures InvalidDateRule(df, EnsureDate(RepairDates(df, d, interpolate)), d, interpolate)
  {
    var t := SetColumn(df, "Date", StampCells(d));
    NoMissingIffAllPresent(d);
    if FewInvalid(d) {
      DroppedFrameHasDates(df, d);
    } else if CountMissing(d) == 0 || (ValidCount(d) > 2 && interpolate(d).None?) {
      UsableWhenSomePresent(t, d);
    } else if ValidCount(d) <= 2 {
      var h := HourlyDates(|d|);
      NoMissingIffAllPresent(h);
      UsableWhenSomePresent(SetColumn(t, "Date", StampCells(h)), h);
    }
  }

  /** A `Date` column holding `d` is usable when `d` has a timestamp or the frame has no rows. */
  lemma UsableWhenSomePresent(t: Table, d: seq<Option<int>>)
    requires WellFormed(t) && |d| == |t.rows| && DateIndex(t).Some? && Column(t, DateIndex(t).value) == StampCells(d)
    requires |d| > 0 ==> CountMissing(d) < |d|
    ensures HasUsableDate(t)
  {
    if |d| > 0 {
      NoMissingIffAllPresent(d);
      assert !AllMissing(Column(t, DateIndex(t).value));
    }
  }

  /**
   * The frame `_process_datetime_columns_improved` returns: the chosen column
   * parsed and repaired into `Date`, or the hourly range when there is none.
   */
  function Processed(df: Table, source: SourceType, parse: (DateFormat, Cell) -> Option<int>,
                     interpolate: seq<Option<int>> -> Option<seq<Option<int>>>): (r: Option<Table>)
    requires WellFormed(df) && KeepsLength(interpolate)
    ensures r.None? <==> |df.columns| == 0
    ensures r.Some? ==> WellFormed(r.value) && HasUsableDate(r.value)
  {
    if |df.columns| == 0 then None
    else if DateSource(df.columns).None? then Some(EnsureDate(df))
    else Some(EnsureDate(RepairDates(df, ParsedDates(df, source, parse), interpolate)))
  }

  /**
   * `_process_datetime_columns_improved`. None stands for the IndexError of a
   * frame without columns, which the caller turns into an empty frame.
   */
  method ProcessDatetimeColumns(df: Table, source: SourceType, parse: (DateFormat, Cell) -> Option<int>,
                                interpolate: seq<Option<int>> -> Option<seq<Option<int>>>) returns (r: Option<Table>)
    requires WellFormed(df) && KeepsLength(interpolate)
    ensures r.None? <==> |df.columns| == 0
    ensures r.Some? ==> WellFormed(r.value) && HasUsableDate(r.value)
    ensures r.Some? ==> r.value.columns == df.columns || r.value.columns == df.columns + ["Date"]
    ensures r.Some? && DateSource(df.columns).None? ==> r.value == EnsureDate(df)
    ensures r.Some? && DateSource(df.columns).Some? ==> InvalidDateRule(df, r.value, ParsedDates(df, source, parse), interpolate)
    ensures r == Processed(df, source, parse, interpolate)
  {
    if |df.columns| == 0 {
      return None;
    }
    var col := FindDateColumn(df.columns);
    if col.None? {
      return Some(EnsureDate(df));
    }
    var date := ParseDateColumn(df, col.value, source, parse);
    r := Some(EnsureDate(RepairDates(df, date, interpolate)));
    RepairFollowsRule(df, date, interpolate);
  }

  /** The scan, then the first-column fallback. */
  method FindDateColumn(cols: seq<string>) returns (col: Option<nat>)
    requires |cols| > 0
    ensures col == DateSource(cols)
    ensures col.Some? ==> col.value < |cols|
  {
    col := ScanColumns(cols, DateCandidates);
    if col.None? && ContainsAny(Lower(cols[0]), FallbackKeywords) {
      col := Some(0);
    }
  }

  /** The chosen column through the source's format handling. */
  method ParseDateColumn(df: Table, j: nat, source: SourceType, parse: (DateFormat, Cell) -> Option<int>) returns (date: seq<Option<int>>)
    requires DateSource(df.columns) == Some(j)
    ensures date == ParsedDates(df, source, parse)
  {
    var cells := Column(df, j);
    if source == Erentrudis {
      date := ParseErentrudisDates(cells, parse);
    } else {
      date := ToDatetime(cells, Inferred, parse);
    }
  }

  /** Columns kept as text by the numeric conversion. */
  const TextColumns: seq<string> := ["Date", "DateTime", "Datum + Uhrzeit", "Datum", "Zeit"]

  /**
   * `load_csv_flexible`: search, timestamp handling and numeric conversion;
   * an empty frame when nothing was read or the frame had no columns.
   */
  method LoadCsvFlexible(source: SourceType, read: (string, char) -> ReadOutcome,
                         parse: (DateFormat, Cell) -> Option<int>,
                         interpolate: seq<Option<int>> -> Option<seq<Option<int>>>,
                         toNumber: string -> Option<real>) returns (t: Table)
    requires forall e, c :: read(e, c).Loaded? ==> WellFormed(read(e, c).table)
    requires KeepsLength(interpolate)
    ensures Candidate(source, read).None? ==> t == Empty
    ensures Candidate(source, read).Some? && |Candidate(source, read).value.columns| == 0 ==> t == Empty
    ensures Candidate(source, read).Some? && |Candidate(source, read).value.columns| > 0 ==>
      WellFormed(t) && HasUsableDate(t) && |t.rows| <= |Candidate(source, read).value.rows| &&
      forall c :: c in Candidate(source, read).value.columns ==> c in t.columns
    ensures Candidate(source, read).Some? && |Candidate(source, read).value.columns| > 0 ==>
      CoercedFrom(Processed(Candidate(source, read).value, source, parse, interpolate).value, t, TextColumns, toNumber)
  {
    var df := SearchCsv(source, Separators(source), read);
    if df.None? {
      return Empty;
    }
    var processed := ProcessDatetimeColumns(df.value, source, parse, interpolate);
    if processed.None? {
      return Empty;
    }
    t := CoerceNumericColumns(processed.value, TextColumns, toNumber);
    assert Column(t, DateIndex(t).value) == Column(processed.value, DateIndex(t).value);
  }

  /** Column names the Excel loader normalises. */
  const ExcelRenames: map<string, string> := map[
    "ZEIT_VON_UTC" := "Date", "ZEIT_BIS_UTC" := "Date_To", "Zeit_Von" := "Date",
    "WERT" := "Value", "Energie (kWh)" := "Energy_kWh", "Leistung (kW)" := "Power_kW",
    "EINHEIT" := "Unit", "DateTime" := "Date", "Datum + Uhrzeit" := "Date"]

  const ExcelNumeric: seq<string> := ["Value", "Energy_kWh", "Power_kW", "WERT"]

  /** `WERT` is always renamed, so its entry in the numeric list never applies. */
  lemma WertNeverSurvivesRename(cols: seq<string>)
    ensures "WERT" !in Rename(cols, ExcelRenames)
  {
    var r := Rename(cols, ExcelRenames);
    forall i | 0 <= i < |r| ensures r[i] != "WERT" {
      if cols[i] !in ExcelRenames {
        assert cols[i] != "WERT";
      }
    }
  }

  /**
   * The `Date` conversion of the Excel loader: the column becomes stamps, and
   * when some but fewer than a tenth of the rows lack one, those rows go.
   */
  function ExcelDated(df: Table, parse: (DateFormat, Cell) -> Option<int>): (u: Table)
    requires WellFormed(df)
    ensures WellFormed(u) && u.columns == df.columns
    ensures DateIndex(df).None? ==> u == df
  {
    match DateIndex(df)
    case None => df
    case Some(j) =>
      var d := ToDatetime(Column(df, j), Inferred, parse);
      if FewInvalid(d) then DropMissingDates(df, d) else SetColumn(df, "Date", StampCells(d))
  }

  /**
   * What the conversion leaves in `Date`: all the parsed stamps, or, after the
   * drop, only rows that hold a stamp; the drop removes exactly the rows without one.
   */
  lemma ExcelDatedDates(df: Table, parse: (DateFormat, Cell) -> Option<int>)
    requires WellFormed(df) && DateIndex(df).Some?
    ensures var d := ToDatetime(Column(df, DateIndex(df).value), Inferred, parse);
      |ExcelDated(df, parse).rows| == if FewInvalid(d) then |df.rows| - CountMissing(d) else |df.rows|
    ensures var d := ToDatetime(Column(df, DateIndex(df).value), Inferred, parse);
      !FewInvalid(d) ==> Column(ExcelDated(df, parse), DateIndex(df).value) == StampCells(d)
    ensures var d := ToDatetime(Column(df, DateIndex(df).value), Inferred, parse);
      FewInvalid(d) ==> forall i :: 0 <= i < |ExcelDated(df, parse).rows| ==> Column(ExcelDated(df, parse), DateIndex(df).value)[i].Stamp?
  {
    var d := ToDatetime(Column(df, DateIndex(df).value), Inferred, parse);
    if FewInvalid(d) {
      DroppedDatesComplete(df, d);
    }
  }

  /** A numeric column name occurs twice, so `df[col]` is a frame and the coercion raises. */
  predicate NumericDuplicated(cols: seq<string>)
  {
    exists n :: n in ExcelNumeric && Duplicated(cols, n)
  }

  /**
   * `load_excel_flexible`: the first engine that reads, the renames, the
   * timestamp conversion with the under-10% drop, and the numeric columns.
   * A duplicated `Date` or numeric column makes pandas raise, giving the empty frame.
   */
  method LoadExcelFlexible(attempts: seq<ReadOutcome>, parse: (DateFormat, Cell) -> Option<int>,
                           toNumber: string -> Option<real>) returns (t: Table)
    requires forall i :: 0 <= i < |attempts| && attempts[i].Loaded? ==> WellFormed(attempts[i].table)
    ensures FirstLoaded(attempts).None? ==> t == Empty
    ensures FirstLoaded(attempts).Some? && Duplicated(Renamed(FirstLoaded(attempts).value, ExcelRenames).columns, "Date") ==> t == Empty
    ensures FirstLoaded(attempts).Some? && NumericDuplicated(Renamed(FirstLoaded(attempts).value, ExcelRenames).columns) ==> t == Empty
    ensures FirstLoaded(attempts).Some? && !Duplicated(Renamed(FirstLoaded(attempts).value, ExcelRenames).columns, "Date")
              && !NumericDuplicated(Renamed(FirstLoaded(attempts).value, ExcelRenames).columns) ==>
      NamedCoercedFrom(ExcelDated(Renamed(FirstLoaded(attempts).value, ExcelRenames), parse), t, ExcelNumeric, toNumber)
  {
    var first := FirstLoaded(attempts);
    if first.None? {
      return Empty;
    }
    var df := Renamed(first.value, ExcelRenames);
    if Duplicated(df.columns, "Date") {
      return Empty;
    }
    var u := ExcelDated(df, parse);
    var coerced := CoerceNamed(u, ExcelNumeric, toNumber);
    t := if coerced.Some? then coerced.value else Empty;
  }

  /** `file.stem.lower().replace('t2s_', '')`: Twin2Sim keys are not truncated. */
  function Twin2SimKey(stem: string): string
  {
    ReplaceAll(Lower(stem), "t2s_", "")
  }

  /** `stem.replace('export_', '').replace('_', '-')[:30]`. */
  function MonitoringKey(stem: string): (k: string)
    ensures |k| <= 30 && '_' !in k
  {
    DatasetKey(ReplaceChar(ReplaceAll(stem, "export_", ""), '_', '-'))
  }

  /** `f"hauptdaten_{stem}"`: FIS workbook keys are not truncated. */
  function FisWorkbookKey(stem: string): (k: string)
    ensures StartsWith(k, "hauptdaten_")
  {
    "hauptdaten_" + stem
  }

  /** `stem.replace('_ERZEUGUNG', '')`. */
  function KwKey(stem: string): string
  {
    ReplaceAll(stem, "_ERZEUGUNG", "")
  }
}
