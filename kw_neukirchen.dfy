/**
 * The survey of the KW-Neukirchen hydro plant exports
 * (scripts/analyze_kw_neukirchen.py): the monthly transfer sheets
 * ("ÜBERGABE", consumption and delivery) and the yearly generation sheets of
 * three plants are read, summarised and listed in a file mapping, from which
 * the overall statistics are aggregated. Reading a workbook is a parameter:
 * the outcome for each workbook, whose path relative to the data directory
 * is `PathOf`; `Raised` also stands for a file that does not exist. No two
 * workbooks of a year share a path, so a reader of paths and a reader of
 * workbooks are the same thing.
 */
module KwNeukirchen {
  import opened Strings
  import opened Frame
  import opened Columns
  import Sources
  import Spans

  const Years: seq<string> := ["2020", "2021", "2022", "2023", "2024"]
  const Plants: seq<string> := ["DÜRNBACH", "UNTERSULZBACH", "WIESBACH"]

  datatype FileType = Bezug | Lieferung | Erzeugung

  // ---------------------------------------------------------------------
  // File names
  // ---------------------------------------------------------------------

  function Digit(d: nat): char
    requires d < 10
  {
    ('0' as int + d) as char
  }

  /** `f"{month:02d}"` for a month number below 100. */
  function Pad2(m: nat): (r: string)
    requires m < 100
    ensures |r| == 2 && IsDigit(r[0]) && IsDigit(r[1])
    ensures (r[0] as int - '0' as int) * 10 + (r[1] as int - '0' as int) == m
  {
    [Digit(m / 10), Digit(m % 10)]
  }

  /** Two months with the same padded text are the same month. */
  lemma Pad2Injective(m1: nat, m2: nat)
    requires m1 < 100 && m2 < 100 && Pad2(m1) == Pad2(m2)
    ensures m1 == m2
  {
    assert Pad2(m1)[0] == Pad2(m2)[0] && Pad2(m1)[1] == Pad2(m2)[1];
  }

  function Prefix(kind: FileType): string
  {
    match kind
    case Bezug => "ÜBERGABE_BEZUG_"
    case Lieferung => "ÜBERGABE_LIEFERUNG_"
    case Erzeugung => "KW "
  }

  /** `ÜBERGABE_BEZUG_{year}.{month:02d}.XLSX` and its LIEFERUNG twin. */
  function MonthlyName(kind: FileType, year: string, month: nat): (r: string)
    requires kind != Erzeugung && 1 <= month <= 12
    ensures r == Prefix(kind) + year + "." + Pad2(month) + ".XLSX"
    ensures |r| == |Prefix(kind)| + |year| + 8
  {
    Prefix(kind) + year + "." + Pad2(month) + ".XLSX"
  }

  /** The monthly names differ for different months, and between the two kinds. */
  lemma MonthlyNamesDistinct(k1: FileType, k2: FileType, year: string, m1: nat, m2: nat)
    requires k1 != Erzeugung && k2 != Erzeugung && 1 <= m1 <= 12 && 1 <= m2 <= 12
    requires MonthlyName(k1, year, m1) == MonthlyName(k2, year, m2)
    ensures k1 == k2 && m1 == m2
  {
    var n1, n2 := MonthlyName(k1, year, m1), MonthlyName(k2, year, m2);
    assert n1[9] == Prefix(k1)[9] && n2[9] == Prefix(k2)[9];
    var p := |Prefix(k1)| + |year| + 1;
    assert n1[p..p + 2] == Pad2(m1);
    assert n2[p..p + 2] == Pad2(m2);
    Pad2Injective(m1, m2);
  }

  /** The path of a monthly file relative to the data directory: it lies in the year's folder. */
  function MonthlyPath(kind: FileType, year: string, month: nat): string
    requires kind != Erzeugung && 1 <= month <= 12
  {
    year + "/" + MonthlyName(kind, year, month)
  }

  /** `KW {plant}_ERZEUGUNG_{year}.XLSX`, directly in the data directory. */
  function GenerationName(plant: string, year: string): string
  {
    "KW " + plant + "_ERZEUGUNG_" + year + ".XLSX"
  }

  /** The workbooks the survey opens, named by what they hold. */
  datatype Workbook =
    | MonthlyBook(kind: FileType, year: string, month: nat)
    | GenerationBook(plant: string, year: string)

  predicate Surveyed(w: Workbook)
  {
    w.MonthlyBook? ==> w.kind != Erzeugung && 1 <= w.month <= 12
  }

  /** The path opened for a workbook. */
  function PathOf(w: Workbook): (p: string)
    requires Surveyed(w)
    ensures w.MonthlyBook? ==> p == w.year + "/" + MonthlyName(w.kind, w.year, w.month)
    ensures w.GenerationBook? ==> p == GenerationName(w.plant, w.year)
  {
    match w
    case MonthlyBook(kind, year, month) => MonthlyPath(kind, year, month)
    case GenerationBook(plant, year) => GenerationName(plant, year)
  }

  /** Two monthly workbooks of one year folder have different paths. */
  lemma MonthlyPathsDistinct(w1: Workbook, w2: Workbook)
    requires w1.MonthlyBook? && w2.MonthlyBook? && Surveyed(w1) && Surveyed(w2) && w1.year == w2.year
    requires PathOf(w1) == PathOf(w2)
    ensures w1 == w2
  {
    var n := |w1.year| + 1;
    assert PathOf(w1)[n..] == MonthlyName(w1.kind, w1.year, w1.month);
    assert PathOf(w2)[n..] == MonthlyName(w2.kind, w2.year, w2.month);
    MonthlyNamesDistinct(w1.kind, w2.kind, w1.year, w1.month, w2.month);
  }

  /** Two generation workbooks of one year have different paths. */
  lemma GenerationPathsDistinct(w1: Workbook, w2: Workbook)
    requires w1.GenerationBook? && w2.GenerationBook? && w1.year == w2.year
    requires PathOf(w1) == PathOf(w2)
    ensures w1 == w2
  {
    var n1, n2 := PathOf(w1), PathOf(w2);
    assert |w1.plant| == |w2.plant|;
    assert n1[3..3 + |w1.plant|] == w1.plant;
    assert n2[3..3 + |w2.plant|] == w2.plant;
  }

  /** `f"{year}-{month:02d}"`: the key of a monthly summary. */
  function MonthKey(year: string, month: nat): (r: string)
    requires 1 <= month <= 12
    ensures r == year + "-" + Pad2(month)
  {
    year + "-" + Pad2(month)
  }

  /** Within a year, each month has its own key. */
  lemma MonthKeysDistinct(year: string, m1: nat, m2: nat)
    requires 1 <= m1 <= 12 && 1 <= m2 <= 12 && MonthKey(year, m1) == MonthKey(year, m2)
    ensures m1 == m2
  {
    var p := |year| + 1;
    assert MonthKey(year, m1)[p..] == Pad2(m1);
    assert MonthKey(year, m2)[p..] == Pad2(m2);
    Pad2Injective(m1, m2);
  }

  // ---------------------------------------------------------------------
  // Sheet summaries
  // ---------------------------------------------------------------------

  /** `df.isnull().sum().sum()`. */
  function NullCount(rows: seq<seq<Cell>>): (n: nat)
  {
    if rows == [] then 0 else NullCount(rows[..|rows| - 1]) + Sources.MissingCells(rows[|rows| - 1])
  }

  lemma {:induction false} NullCountBounded(t: Table, k: nat)
    requires WellFormed(t) && k <= |t.rows|
    ensures NullCount(t.rows[..k]) <= k * |t.columns|
  {
    if k > 0 {
      var pre := t.rows[..k];
      assert pre[..k - 1] == t.rows[..k - 1] && pre[k - 1] == t.rows[k - 1];
      assert NullCount(pre) == NullCount(t.rows[..k - 1]) + Sources.MissingCells(t.rows[k - 1]);
      assert |t.rows[k - 1]| == |t.columns|;
      NullCountBounded(t, k - 1);
      Distribute(k - 1, |t.columns|);
    }
  }

  lemma Distribute(a: nat, b: nat)
    ensures a * b + b == (a + 1) * b
  {
  }

  /** `part / whole * 100` for a positive whole. */
  function Percent(part: nat, whole: nat): (p: real)
    requires whole > 0
    ensures 0.0 <= p
    ensures p <= 100.0 <==> part <= whole
    ensures p == 0.0 <==> part == 0
    ensures p == 100.0 <==> part == whole
  {
    var p := part as real / whole as real * 100.0;
    assert p * whole as real == part as real * 100.0;
    assert p > 100.0 ==> p * whole as real > 100.0 * whole as real;
    assert p < 100.0 ==> p * whole as real < 100.0 * whole as real;
    p
  }

  /**
   * `null_percentage`: nulls over all cells times 100, and 0 for a sheet
   * without rows. A sheet with rows but no columns divides zero by zero,
   * which is NaN (`None`).
   */
  function NullPercentage(t: Table): (p: Option<real>)
    ensures |t.rows| == 0 ==> p == Some(0.0)
    ensures p.None? <==> |t.rows| > 0 && |t.columns| == 0
    ensures p.Some? ==> 0.0 <= p.value
    ensures p.Some? && WellFormed(t) ==> p.value <= 100.0
    ensures p == Some(0.0) <==> |t.rows| == 0 || (|t.columns| > 0 && NullCount(t.rows) == 0)
  {
    if |t.rows| == 0 then Some(0.0)
    else if |t.columns| == 0 then None
    else
      var cells := |t.rows| * |t.columns|;
      assert cells > 0 by {
        assert cells >= |t.columns|;
      }
      assert WellFormed(t) ==> NullCount(t.rows) <= cells by {
        if WellFormed(t) {
          assert t.rows[..|t.rows|] == t.rows;
          NullCountBounded(t, |t.rows|);
        }
      }
      Some(Percent(NullCount(t.rows), cells))
  }

  /** The summary shared by both kinds of sheet (dtype counts and file size left out). */
  datatype SheetInfo = SheetInfo(rows: nat, columns: seq<string>, nullCount: nat, nullPercentage: Option<real>)

  function SheetInfoOf(t: Table): (s: SheetInfo)
    ensures s.rows == |t.rows| && s.columns == t.columns && s.nullCount == NullCount(t.rows)
    ensures s.nullPercentage == NullPercentage(t)
  {
    SheetInfo(|t.rows|, t.columns, NullCount(t.rows), NullPercentage(t))
  }

  // ---------------------------------------------------------------------
  // detect_frequency
  // ---------------------------------------------------------------------

  datatype Frequency =
    | Unknown | Irregular | FifteenMinute | Hourly | Daily | Weekly | Monthly
    | ApproxDays(days: int)          // `~{days} days`
    | ApproxHours(seconds: int)      // `~{seconds/3600:.1f} hours`, from the seconds part of the step

  /** `Timedelta.days` and `Timedelta.seconds`: floor division by a day, and the remainder. */
  function DaysOf(step: int): int
  {
    step / Spans.SecondsPerDay
  }

  /** The label of the most common step `step` (seconds). */
  function StepLabel(step: int): (f: Frequency)
    ensures f == FifteenMinute <==> step == 900
    ensures f == Hourly <==> step == 3600
    ensures f == Daily <==> step == 86400
    ensures f == Weekly <==> step == 7 * 86400
    ensures f == Monthly <==> 28 <= DaysOf(step) <= 31 && step != 7 * 86400
    ensures f.ApproxDays? ==> f.days == DaysOf(step) && f.days > 0 && !(28 <= f.days <= 31)
    ensures f.ApproxHours? ==> DaysOf(step) <= 0 && 0 <= f.seconds < Spans.SecondsPerDay
  {
    if step == 900 then FifteenMinute
    else if step == 3600 then Hourly
    else if step == 86400 then Daily
    else if step == 7 * 86400 then Weekly
    else if 28 <= DaysOf(step) <= 31 then Monthly
    else if DaysOf(step) > 0 then ApproxDays(DaysOf(step))
    else ApproxHours(step % Spans.SecondsPerDay)
  }

  /**
   * `detect_frequency`: "Unknown" for fewer than two stamps or when no two
   * neighbouring stamps are both present; otherwise the label of the modal
   * step (the smallest one on a tie, as `mode()[0]`).
   */
  function DetectFrequency(ts: seq<Option<int>>): (f: Frequency)
    ensures f == Unknown <==> Spans.AdjacentDiffs(ts) == []
    ensures f != Unknown ==> f == StepLabel(Spans.Interval(ts).value)
  {
    if |ts| < 2 then Unknown
    else
      match Spans.Interval(ts)
      case None => Unknown
      case Some(step) => StepLabel(step)
  }

  /** "Irregular" is never returned: a non-empty list of steps always has a mode. */
  lemma NeverIrregular(ts: seq<Option<int>>)
    ensures DetectFrequency(ts) != Irregular
  {
  }

  /** Stamps every fifteen minutes are reported as such. */
  lemma QuarterHourSeries(ts: seq<Option<int>>)
    requires |ts| >= 2
    requires forall i :: 0 <= i < |ts| ==> ts[i].Some?
    requires forall i :: 1 <= i < |ts| ==> ts[i].value - ts[i - 1].value == 900
    ensures DetectFrequency(ts) == FifteenMinute
  {
    Spans.RegularInterval(ts, 900);
  }

  // ---------------------------------------------------------------------
  // The time column of a generation sheet
  // ---------------------------------------------------------------------

  predicate IsTimeName(name: string)
  {
    Contains(Lower(name), "date") || Contains(Lower(name), "zeit") || Contains(Lower(name), "time")
  }

  datatype TimeInfo = TimeInfo(column: string, range: Option<(int, int)>, frequency: Frequency)

  /**
   * The loop over the columns: the first column with a time-like name whose
   * conversion (`pd.to_datetime`, a parameter) succeeds; a failing
   * conversion moves on to the next candidate.
   */
  function TimeColumn(t: Table, j: nat, convert: seq<Cell> -> Option<seq<Option<int>>>): (r: Option<nat>)
    requires j <= |t.columns|
    ensures r.Some? ==> j <= r.value < |t.columns| && IsTimeName(t.columns[r.value]) && convert(Column(t, r.value)).Some?
    ensures r.Some? ==> forall k :: j <= k < r.value && IsTimeName(t.columns[k]) ==> convert(Column(t, k)).None?
    ensures r.None? ==> forall k :: j <= k < |t.columns| && IsTimeName(t.columns[k]) ==> convert(Column(t, k)).None?
    decreases |t.columns| - j
  {
    if j == |t.columns| then None
    else if IsTimeName(t.columns[j]) && convert(Column(t, j)).Some? then Some(j)
    else TimeColumn(t, j + 1, convert)
  }

  /** `time_info`: empty (`None`) when no column qualifies. */
  function TimeInfoOf(t: Table, convert: seq<Cell> -> Option<seq<Option<int>>>): (r: Option<TimeInfo>)
    ensures r.None? <==> TimeColumn(t, 0, convert).None?
    ensures r.Some? ==> r.value.column == t.columns[TimeColumn(t, 0, convert).value]
    ensures r.Some? ==> r.value.range == Spans.TimeRange(convert(Column(t, TimeColumn(t, 0, convert).value)).value)
    ensures r.Some? ==> r.value.frequency == DetectFrequency(convert(Column(t, TimeColumn(t, 0, convert).value)).value)
  {
    match TimeColumn(t, 0, convert)
    case None => None
    case Some(j) =>
      var ts := convert(Column(t, j)).value;
      Some(TimeInfo(t.columns[j], Spans.TimeRange(ts), DetectFrequency(ts)))
  }

  /**
   * `select_dtypes(include=[np.number]).columns`, in column order, of the
   * frame in which the columns at `stamped` were replaced by the stamps
   * `pd.to_datetime` gave: a datetime column is never numeric.
   */
  function NumericColumns(t: Table, stamped: set<nat>, k: nat): (r: seq<string>)
    requires k <= |t.columns|
    ensures forall c :: c in r <==> exists j :: 0 <= j < k && t.columns[j] == c && IsNumeric(Column(t, j)) && j !in stamped
  {
    if k == 0 then []
    else NumericColumns(t, stamped, k - 1) + (if IsNumeric(Column(t, k - 1)) && k - 1 !in stamped then [t.columns[k - 1]] else [])
  }

  /** The columns the generation loop converted: the time column, when there is one. */
  function Stamped(t: Table, convert: seq<Cell> -> Option<seq<Option<int>>>): (s: set<nat>)
    ensures TimeColumn(t, 0, convert).None? ==> s == {}
    ensures TimeColumn(t, 0, convert).Some? ==> s == {TimeColumn(t, 0, convert).value}
  {
    match TimeColumn(t, 0, convert)
    case None => {}
    case Some(j) => {j}
  }

  /** With distinct names, a column is listed exactly when it is numeric and was not converted. */
  lemma NumericColumnsAt(t: Table, stamped: set<nat>, j: nat)
    requires j < |t.columns|
    requires forall i, k :: 0 <= i < k < |t.columns| ==> t.columns[i] != t.columns[k]
    ensures t.columns[j] in NumericColumns(t, stamped, |t.columns|) <==> IsNumeric(Column(t, j)) && j !in stamped
  {
    forall i | 0 <= i < |t.columns| && t.columns[i] == t.columns[j]
      ensures i == j
    {
    }
  }

  /**
   * The converted time column leaves the numeric list, even when its cells
   * were numbers (epoch stamps); every other numeric column stays.
   */
  lemma ConvertedColumnNotNumeric(t: Table, convert: seq<Cell> -> Option<seq<Option<int>>>, j: nat)
    requires j < |t.columns|
    requires forall i, k :: 0 <= i < k < |t.columns| ==> t.columns[i] != t.columns[k]
    ensures TimeColumn(t, 0, convert) == Some(j) ==> t.columns[j] !in NumericColumns(t, Stamped(t, convert), |t.columns|)
    ensures TimeColumn(t, 0, convert) != Some(j) && IsNumeric(Column(t, j)) ==> t.columns[j] in NumericColumns(t, Stamped(t, convert), |t.columns|)
  {
    NumericColumnsAt(t, Stamped(t, convert), j);
  }

  datatype Summary =
    | Transfer(sheet: SheetInfo)
    | Generation(sheet: SheetInfo, time: Option<TimeInfo>, numeric: seq<string>)

  // ---------------------------------------------------------------------
  // The file mapping and the statistics
  // ---------------------------------------------------------------------

  datatype FileEntry = FileEntry(file: string, kind: FileType, year: string, month: Option<nat>, plant: Option<string>,
                                 rows: nat, columns: nat)

  /** The entry appended for a monthly sheet. */
  function MonthlyEntry(kind: FileType, year: string, month: nat, t: Table): (e: FileEntry)
    requires kind != Erzeugung && 1 <= month <= 12
    ensures e.kind == kind && e.year == year && e.month == Some(month) && e.plant.None?
  {
    FileEntry(MonthlyPath(kind, year, month), kind, year, Some(month), None, |t.rows|, |t.columns|)
  }

  /** The entry appended for a generation sheet. */
  function GenerationEntry(plant: string, year: string, t: Table): (e: FileEntry)
    ensures e.kind == Erzeugung && e.year == year && e.month.None? && e.plant == Some(plant)
  {
    FileEntry(GenerationName(plant, year), Erzeugung, year, None, Some(plant), |t.rows|, |t.columns|)
  }

  /** The entries a monthly file contributes: one if it was read, none otherwise. */
  function MonthlyEntries(kind: FileType, year: string, month: nat, read: Workbook -> ReadOutcome): seq<FileEntry>
    requires kind != Erzeugung && 1 <= month <= 12
  {
    match read(MonthlyBook(kind, year, month))
    case Raised => []
    case Loaded(t) => [MonthlyEntry(kind, year, month, t)]
  }

  /** One month of a year folder: the consumption file, then the delivery file. */
  function MonthEntries(year: string, month: nat, read: Workbook -> ReadOutcome): seq<FileEntry>
    requires 1 <= month <= 12
  {
    MonthlyEntries(Bezug, year, month, read) + MonthlyEntries(Lieferung, year, month, read)
  }

  lemma MonthEntriesShape(year: string, month: nat, read: Workbook -> ReadOutcome, e: FileEntry)
    requires 1 <= month <= 12 && e in MonthEntries(year, month, read)
    ensures e.year == year && e.kind != Erzeugung && e.month == Some(month) && e.plant.None?
  {
    var b, l := MonthlyEntries(Bezug, year, month, read), MonthlyEntries(Lieferung, year, month, read);
    assert e in b || e in l;
  }

  /** Concatenation regrouped, kept apart from the loop bodies that use it. */
  lemma Regroup(a: seq<FileEntry>, b: seq<FileEntry>, c: seq<FileEntry>)
    ensures a + (b + c) == a + b + c
  {
  }

  /* One pass of each of the four loops that fill the mapping. */

  lemma YearStep(o: seq<FileEntry>, fm: seq<FileEntry>, year: string, read: Workbook -> ReadOutcome, m: nat)
    requires m < 12 && fm == o + YearEntries(year, read, m) + MonthEntries(year, m + 1, read)
    ensures fm == o + YearEntries(year, read, m + 1)
  {
    Regroup(o, YearEntries(year, read, m), MonthEntries(year, m + 1, read));
  }

  lemma TransferStep(o: seq<FileEntry>, fm: seq<FileEntry>, exists_: string -> bool, read: Workbook -> ReadOutcome,
                     years: seq<string>, k: nat)
    requires k < |years|
    requires fm == o + TransferEntries(exists_, read, years, k) + (if exists_(years[k]) then YearEntries(years[k], read, 12) else [])
    ensures fm == o + TransferEntries(exists_, read, years, k + 1)
  {
    Regroup(o, TransferEntries(exists_, read, years, k), if exists_(years[k]) then YearEntries(years[k], read, 12) else []);
  }

  lemma GenerationStep(o: seq<FileEntry>, fm: seq<FileEntry>, read: Workbook -> ReadOutcome,
                       plants: seq<string>, years: seq<string>, p: nat)
    requires p < |plants|
    requires fm == o + GenerationEntries(read, plants, years, p) + PlantEntries(plants[p], read, years, |years|)
    ensures fm == o + GenerationEntries(read, plants, years, p + 1)
  {
    Regroup(o, GenerationEntries(read, plants, years, p), PlantEntries(plants[p], read, years, |years|));
  }

  lemma PlantStep(o: seq<FileEntry>, fm: seq<FileEntry>, plant: string, read: Workbook -> ReadOutcome,
                  years: seq<string>, k: nat)
    requires k < |years| && fm == o + PlantEntries(plant, read, years, k) + GenerationFileEntries(plant, years[k], read)
    ensures fm == o + PlantEntries(plant, read, years, k + 1)
  {
    Regroup(o, PlantEntries(plant, read, years, k), GenerationFileEntries(plant, years[k], read));
  }

  /** The entries of one year folder after month `m`. */
  function YearEntries(year: string, read: Workbook -> ReadOutcome, m: nat): seq<FileEntry>
    requires m <= 12
  {
    if m == 0 then [] else YearEntries(year, read, m - 1) + MonthEntries(year, m, read)
  }

  /** The entries of the first `k` year folders of `years` that exist. */
  function TransferEntries(exists_: string -> bool, read: Workbook -> ReadOutcome, years: seq<string>, k: nat): seq<FileEntry>
    requires k <= |years|
  {
    if k == 0 then []
    else TransferEntries(exists_, read, years, k - 1) + (if exists_(years[k - 1]) then YearEntries(years[k - 1], read, 12) else [])
  }

  /** The entries a generation file contributes. */
  function GenerationFileEntries(plant: string, year: string, read: Workbook -> ReadOutcome): seq<FileEntry>
  {
    match read(GenerationBook(plant, year))
    case Raised => []
    case Loaded(t) => [GenerationEntry(plant, year, t)]
  }

  /** The generation files of one plant for the first `k` years. */
  function PlantEntries(plant: string, read: Workbook -> ReadOutcome, years: seq<string>, k: nat): seq<FileEntry>
    requires k <= |years|
  {
    if k == 0 then []
    else PlantEntries(plant, read, years, k - 1) + GenerationFileEntries(plant, years[k - 1], read)
  }

  /** The generation files of the first `p` plants, plant by plant and year by year. */
  function GenerationEntries(read: Workbook -> ReadOutcome, plants: seq<string>, years: seq<string>, p: nat): seq<FileEntry>
    requires p <= |plants|
  {
    if p == 0 then []
    else GenerationEntries(read, plants, years, p - 1) + PlantEntries(plants[p - 1], read, years, |years|)
  }

  /** Every transfer entry is of a surveyed year and is a monthly file. */
  lemma {:induction false} TransferEntriesShape(exists_: string -> bool, read: Workbook -> ReadOutcome, years: seq<string>, k: nat, e: FileEntry)
    requires k <= |years| && e in TransferEntries(exists_, read, years, k)
    ensures e.year in years && e.kind != Erzeugung && e.month.Some? && 1 <= e.month.value <= 12 && e.plant.None?
  {
    var prev := TransferEntries(exists_, read, years, k - 1);
    var last := if exists_(years[k - 1]) then YearEntries(years[k - 1], read, 12) else [];
    assert TransferEntries(exists_, read, years, k) == prev + last;
    if e in prev {
      TransferEntriesShape(exists_, read, years, k - 1, e);
    } else {
      assert e in last;
      YearEntriesShape(years[k - 1], read, 12, e);
    }
  }

  lemma {:induction false} YearEntriesShape(year: string, read: Workbook -> ReadOutcome, m: nat, e: FileEntry)
    requires m <= 12 && e in YearEntries(year, read, m)
    ensures e.year == year && e.kind != Erzeugung && e.month.Some? && 1 <= e.month.value <= m && e.plant.None?
  {
    var prev := YearEntries(year, read, m - 1);
    assert YearEntries(year, read, m) == prev + MonthEntries(year, m, read);
    if e in prev {
      YearEntriesShape(year, read, m - 1, e);
    } else {
      MonthEntriesShape(year, m, read, e);
    }
  }

  /** Every generation entry names one of the plants and one of the years. */
  lemma {:induction false} GenerationEntriesShape(read: Workbook -> ReadOutcome, plants: seq<string>, years: seq<string>, p: nat, e: FileEntry)
    requires p <= |plants| && e in GenerationEntries(read, plants, years, p)
    ensures e.kind == Erzeugung && e.plant.Some? && e.plant.value in plants && e.year in years && e.month.None?
  {
    var prev := GenerationEntries(read, plants, years, p - 1);
    var last := PlantEntries(plants[p - 1], read, years, |years|);
    assert GenerationEntries(read, plants, years, p) == prev + last;
    if e in prev {
      GenerationEntriesShape(read, plants, years, p - 1, e);
    } else {
      assert e in last;
      PlantEntriesShape(plants[p - 1], read, years, |years|, e);
      assert plants[p - 1] in plants;
    }
  }

  lemma {:induction false} PlantEntriesShape(plant: string, read: Workbook -> ReadOutcome, years: seq<string>, k: nat, e: FileEntry)
    requires k <= |years| && e in PlantEntries(plant, read, years, k)
    ensures e.kind == Erzeugung && e.plant == Some(plant) && e.year in years && e.month.None?
  {
    var prev := PlantEntries(plant, read, years, k - 1);
    assert PlantEntries(plant, read, years, k) == prev + GenerationFileEntries(plant, years[k - 1], read);
    if e in prev {
      PlantEntriesShape(plant, read, years, k - 1, e);
    } else {
      assert years[k - 1] in years;
    }
  }

  /** How many entries have kind `kind`. */
  function CountKind(fm: seq<FileEntry>, kind: FileType): (n: nat)
    ensures n <= |fm|
  {
    if fm == [] then 0 else CountKind(fm[..|fm| - 1], kind) + (if fm[|fm| - 1].kind == kind then 1 else 0)
  }

  /** Every entry has one of the three kinds, so the kind counts add up to the number of files. */
  lemma {:induction false} KindCountsAddUp(fm: seq<FileEntry>)
    ensures CountKind(fm, Bezug) + CountKind(fm, Lieferung) + CountKind(fm, Erzeugung) == |fm|
  {
    if fm != [] {
      KindCountsAddUp(fm[..|fm| - 1]);
    }
  }

  lemma {:induction false} CountKindPositive(fm: seq<FileEntry>, kind: FileType)
    ensures CountKind(fm, kind) > 0 <==> exists e :: e in fm && e.kind == kind
  {
    if fm != [] {
      var init := fm[..|fm| - 1];
      CountKindPositive(init, kind);
      assert fm == init + [fm[|fm| - 1]];
    }
  }

  function TotalRows(fm: seq<FileEntry>): nat
  {
    if fm == [] then 0 else TotalRows(fm[..|fm| - 1]) + fm[|fm| - 1].rows
  }

  /** `file_types` after the entries `fm`: `get(type, 0) + 1` for each. */
  function TypesOf(fm: seq<FileEntry>): map<FileType, nat>
  {
    if fm == [] then map[]
    else
      var m := TypesOf(fm[..|fm| - 1]);
      var k := fm[|fm| - 1].kind;
      m[k := (if k in m then m[k] else 0) + 1]
  }

  lemma {:induction false} TypesOfCounts(fm: seq<FileEntry>)
    ensures TypeCounts(TypesOf(fm), fm)
  {
    if fm != [] {
      TypesOfCounts(fm[..|fm| - 1]);
    }
  }

  /** `years_covered`. */
  function YearsOf(fm: seq<FileEntry>): set<string>
  {
    if fm == [] then {} else YearsOf(fm[..|fm| - 1]) + {fm[|fm| - 1].year}
  }

  /** `power_plants`: only the entries that carry a plant contribute. */
  function PlantsOf(fm: seq<FileEntry>): set<string>
  {
    if fm == [] then {}
    else PlantsOf(fm[..|fm| - 1]) + (if fm[|fm| - 1].plant.Some? then {fm[|fm| - 1].plant.value} else {})
  }

  /** The years covered are exactly the years of the entries. */
  lemma {:induction false} YearsOfIff(fm: seq<FileEntry>)
    ensures forall y :: y in YearsOf(fm) <==> exists e :: e in fm && e.year == y
  {
    if fm != [] {
      var init := fm[..|fm| - 1];
      YearsOfIff(init);
      assert fm == init + [fm[|fm| - 1]];
    }
  }

  /** The plants collected are exactly the plants the entries carry. */
  lemma {:induction false} PlantsOfIff(fm: seq<FileEntry>)
    ensures forall p :: p in PlantsOf(fm) <==> exists e :: e in fm && e.plant == Some(p)
  {
    if fm != [] {
      var init := fm[..|fm| - 1];
      PlantsOfIff(init);
      assert fm == init + [fm[|fm| - 1]];
    }
  }

  /** `stats['file_types']`: a count for each kind that occurs, and no key for the others. */
  predicate TypeCounts(fileTypes: map<FileType, nat>, fm: seq<FileEntry>)
  {
    forall k: FileType :: (k in fileTypes <==> CountKind(fm, k) > 0) && (k in fileTypes ==> fileTypes[k] == CountKind(fm, k))
  }

  datatype Availability = Availability(files: nat, bezugMonths: nat, lieferungMonths: nat, kwPlants: nat)

  /** The entries of one year. */
  function OfYear(fm: seq<FileEntry>, year: string): (r: seq<FileEntry>)
    ensures |r| <= |fm|
    ensures forall e :: e in r <==> e in fm && e.year == year
  {
    if fm == [] then []
    else
      var init := fm[..|fm| - 1];
      var last := fm[|fm| - 1];
      assert fm == init + [last];
      OfYear(init, year) + (if last.year == year then [last] else [])
  }

  /** `data_availability[year]`. */
  function AvailabilityOf(fm: seq<FileEntry>, year: string): (a: Availability)
    ensures a.files == a.bezugMonths + a.lieferungMonths + a.kwPlants
    ensures a.files <= |fm|
  {
    var ys := OfYear(fm, year);
    KindCountsAddUp(ys);
    Availability(|ys|, CountKind(ys, Bezug), CountKind(ys, Lieferung), CountKind(ys, Erzeugung))
  }

  datatype Statistics = Statistics(totalFiles: nat, fileTypes: map<FileType, nat>, years: set<string>,
                                   plants: set<string>, totalRows: nat, availability: map<string, Availability>)

  /** The key under which an entry's summary is stored: `year-MM`, or `{plant}_{year}`. */
  function KeyOf(e: FileEntry): string
  {
    if e.month.Some? && 1 <= e.month.value <= 12 then MonthKey(e.year, e.month.value)
    else if e.plant.Some? then e.plant.value + "_" + e.year
    else e.year
  }

  // ---------------------------------------------------------------------
  // The analyzer
  // ---------------------------------------------------------------------

  /** `KWNeukirchenAnalyzer`: the three summary dictionaries and the file mapping. */
  class Analyzer {
    var bezug: map<string, Summary>
    var lieferung: map<string, Summary>
    var erzeugung: map<string, Summary>
    var fileMapping: seq<FileEntry>

    /** Every entry of the mapping has its summary in the dictionary of its kind. */
    predicate Valid()
      reads this
    {
      forall i :: 0 <= i < |fileMapping| ==> KeyOf(fileMapping[i]) in DictOf(fileMapping[i].kind)
    }

    /** `data_summary['ubergabe_bezug']`, `['ubergabe_lieferung']` or `['kw_erzeugung']`. */
    function DictOf(kind: FileType): map<string, Summary>
      reads this
    {
      match kind
      case Bezug => bezug
      case Lieferung => lieferung
      case Erzeugung => erzeugung
    }

    constructor()
      ensures bezug == map[] && lieferung == map[] && erzeugung == map[] && fileMapping == []
      ensures Valid()
    {
      bezug, lieferung, erzeugung := map[], map[], map[];
      fileMapping := [];
    }

    /** One monthly file: a sheet that was read is summarised under `year-MM` and appended to the mapping. */
    method RecordMonthly(kind: FileType, year: string, month: nat, read: Workbook -> ReadOutcome)
      requires kind != Erzeugung && 1 <= month <= 12
      requires Valid()
      modifies this
      ensures Valid()
      ensures fileMapping == old(fileMapping) + MonthlyEntries(kind, year, month, read)
      ensures erzeugung == old(erzeugung)
      ensures kind == Bezug && read(MonthlyBook(kind, year, month)).Loaded? ==>
        bezug == old(bezug)[MonthKey(year, month) := Transfer(SheetInfoOf(read(MonthlyBook(kind, year, month)).table))]
      ensures kind == Lieferung || read(MonthlyBook(kind, year, month)).Raised? ==> bezug == old(bezug)
      ensures kind == Lieferung && read(MonthlyBook(kind, year, month)).Loaded? ==>
        lieferung == old(lieferung)[MonthKey(year, month) := Transfer(SheetInfoOf(read(MonthlyBook(kind, year, month)).table))]
      ensures kind == Bezug || read(MonthlyBook(kind, year, month)).Raised? ==> lieferung == old(lieferung)
    {
      var outcome := read(MonthlyBook(kind, year, month));
      if outcome.Loaded? {
        var t := outcome.table;
        var summary := Transfer(SheetInfoOf(t));
        if kind == Bezug {
          bezug := bezug[MonthKey(year, month) := summary];
        } else {
          lieferung := lieferung[MonthKey(year, month) := summary];
        }
        var e := MonthlyEntry(kind, year, month, t);
        assert (fileMapping + [e])[..|fileMapping|] == fileMapping;
        fileMapping := fileMapping + [e];
      }
    }

    /** One pass of the month loop: the consumption file, then the delivery file. */
    method RecordMonth(year: string, month: nat, read: Workbook -> ReadOutcome)
      requires 1 <= month <= 12
      requires Valid()
      modifies this
      ensures Valid()
      ensures fileMapping == old(fileMapping) + MonthEntries(year, month, read)
      ensures erzeugung == old(erzeugung)
    {
      RecordMonthly(Bezug, year, month, read);
      RecordMonthly(Lieferung, year, month, read);
    }

    /** The twelve months of one year folder. */
    method AnalyzeYear(year: string, read: Workbook -> ReadOutcome)
      requires Valid()
      modifies this
      ensures Valid()
      ensures fileMapping == old(fileMapping) + YearEntries(year, read, 12)
      ensures erzeugung == old(erzeugung)
    {
      for m := 0 to 12
        invariant Valid()
        invariant fileMapping == old(fileMapping) + YearEntries(year, read, m)
        invariant erzeugung == old(erzeugung)
      {
        RecordMonth(year, m + 1, read);
        YearStep(old(fileMapping), fileMapping, year, read, m);
      }
    }

    /** `analyze_ubergabe_files` over the year folders `years` (the fixed list `Years`) that exist. */
    method AnalyzeTransferFiles(years: seq<string>, exists_: string -> bool, read: Workbook -> ReadOutcome)
      requires Valid()
      modifies this
      ensures Valid()
      ensures fileMapping == old(fileMapping) + TransferEntries(exists_, read, years, |years|)
      ensures erzeugung == old(erzeugung)
    {
      for k := 0 to |years|
        invariant Valid()
        invariant fileMapping == old(fileMapping) + TransferEntries(exists_, read, years, k)
        invariant erzeugung == old(erzeugung)
      {
        if exists_(years[k]) {
          AnalyzeYear(years[k], read);
        }
        TransferStep(old(fileMapping), fileMapping, exists_, read, years, k);
      }
    }

    /** One generation sheet: summarised under `{plant}_{year}` with its time information. */
    method RecordGeneration(plant: string, year: string, read: Workbook -> ReadOutcome,
                            convert: seq<Cell> -> Option<seq<Option<int>>>)
      requires Valid()
      modifies this
      ensures Valid()
      ensures bezug == old(bezug) && lieferung == old(lieferung)
      ensures fileMapping == old(fileMapping) + GenerationFileEntries(plant, year, read)
      ensures read(GenerationBook(plant, year)).Raised? ==> erzeugung == old(erzeugung)
      ensures read(GenerationBook(plant, year)).Loaded? ==>
        var t := read(GenerationBook(plant, year)).table;
        erzeugung == old(erzeugung)[plant + "_" + year := Generation(SheetInfoOf(t), TimeInfoOf(t, convert), NumericColumns(t, Stamped(t, convert), |t.columns|))]
    {
      var outcome := read(GenerationBook(plant, year));
      if outcome.Loaded? {
        var t := outcome.table;
        var summary := Generation(SheetInfoOf(t), TimeInfoOf(t, convert), NumericColumns(t, Stamped(t, convert), |t.columns|));
        erzeugung := erzeugung[plant + "_" + year := summary];
        var e := GenerationEntry(plant, year, t);
        assert (fileMapping + [e])[..|fileMapping|] == fileMapping;
        fileMapping := fileMapping + [e];
      }
    }

    /** `analyze_kw_erzeugung_files`: plants (the fixed list `Plants`) outside, years inside. */
    method AnalyzeGenerationFiles(plants: seq<string>, years: seq<string>, read: Workbook -> ReadOutcome,
                                  convert: seq<Cell> -> Option<seq<Option<int>>>)
      requires Valid()
      modifies this
      ensures Valid()
      ensures fileMapping == old(fileMapping) + GenerationEntries(read, plants, years, |plants|)
    {
      for p := 0 to |plants|
        invariant Valid()
        invariant fileMapping == old(fileMapping) + GenerationEntries(read, plants, years, p)
      {
        AnalyzePlant(plants[p], years, read, convert);
        GenerationStep(old(fileMapping), fileMapping, read, plants, years, p);
      }
    }

    method AnalyzePlant(plant: string, years: seq<string>, read: Workbook -> ReadOutcome,
                        convert: seq<Cell> -> Option<seq<Option<int>>>)
      requires Valid()
      modifies this
      ensures Valid()
      ensures fileMapping == old(fileMapping) + PlantEntries(plant, read, years, |years|)
    {
      for k := 0 to |years|
        invariant Valid()
        invariant fileMapping == old(fileMapping) + PlantEntries(plant, read, years, k)
      {
        RecordGeneration(plant, years[k], read, convert);
        PlantStep(old(fileMapping), fileMapping, plant, read, years, k);
      }
    }

    /**
     * `run_analysis` over the year folders `years` and the plants `plants`
     * (the fixed lists `Years` and `Plants`): the transfer sheets, the
     * generation sheets, then the statistics, which mention no year or plant
     * beyond the listed ones and those already in the mapping.
     */
    method RunAnalysis(years: seq<string>, plants: seq<string>, exists_: string -> bool, read: Workbook -> ReadOutcome,
                       convert: seq<Cell> -> Option<seq<Option<int>>>) returns (stats: Statistics)
      requires Valid()
      modifies this
      ensures Valid()
      ensures fileMapping == old(fileMapping) + TransferEntries(exists_, read, years, |years|)
                             + GenerationEntries(read, plants, years, |plants|)
      ensures stats.totalFiles == |fileMapping| && stats.totalRows == TotalRows(fileMapping)
      ensures stats.years == YearsOf(fileMapping) && stats.plants == PlantsOf(fileMapping)
      ensures forall y :: y in stats.years ==> y in YearsOf(old(fileMapping)) || y in years
      ensures forall p :: p in stats.plants ==> p in PlantsOf(old(fileMapping)) || p in plants
    {
      AnalyzeTransferFiles(years, exists_, read);
      AnalyzeGenerationFiles(plants, years, read, convert);
      stats := GenerateStatistics(years);
      SurveyCovers(old(fileMapping), exists_, read, years, plants);
    }

    /** `generate_statistics`: one pass over the mapping, then the availability per year. */
    method GenerateStatistics(years: seq<string>) returns (stats: Statistics)
      ensures stats.totalFiles == |fileMapping|
      ensures TypeCounts(stats.fileTypes, fileMapping)
      ensures forall y :: y in stats.years <==> exists e :: e in fileMapping && e.year == y
      ensures forall p :: p in stats.plants <==> exists e :: e in fileMapping && e.plant == Some(p)
      ensures stats.totalRows == TotalRows(fileMapping)
      ensures stats.years == YearsOf(fileMapping) && stats.plants == PlantsOf(fileMapping)
      ensures forall y :: y in stats.availability <==> y in years
      ensures forall y :: y in stats.availability ==> stats.availability[y] == AvailabilityOf(fileMapping, y)
    {
      var fileTypes, seenYears, plants, totalRows := Tally(fileMapping);
      var availability := AvailabilityByYear(fileMapping, years);
      YearsOfIff(fileMapping);
      PlantsOfIff(fileMapping);
      stats := Statistics(|fileMapping|, fileTypes, seenYears, plants, totalRows, availability);
    }
  }

  /** The pass of `generate_statistics` over the mapping: counts per kind, years, plants and rows. */
  method Tally(fm: seq<FileEntry>) returns (fileTypes: map<FileType, nat>, years: set<string>, plants: set<string>, totalRows: nat)
    ensures fileTypes == TypesOf(fm) && TypeCounts(fileTypes, fm)
    ensures years == YearsOf(fm) && plants == PlantsOf(fm)
    ensures totalRows == TotalRows(fm)
  {
    fileTypes, years, plants, totalRows := map[], {}, {}, 0;
    for i := 0 to |fm|
      invariant fileTypes == TypesOf(fm[..i])
      invariant years == YearsOf(fm[..i]) && plants == PlantsOf(fm[..i])
      invariant totalRows == TotalRows(fm[..i])
    {
      var e := fm[i];
      TallyStep(fm, i);
      var before := if e.kind in fileTypes then fileTypes[e.kind] else 0;
      fileTypes := fileTypes[e.kind := before + 1];
      years := years + {e.year};
      if e.plant.Some? {
        plants := plants + {e.plant.value};
      }
      totalRows := totalRows + e.rows;
    }
    assert fm[..|fm|] == fm;
    TypesOfCounts(fm);
  }

  /** What one more entry adds to each of the tallies. */
  lemma TallyStep(fm: seq<FileEntry>, i: nat)
    requires i < |fm|
    ensures TypesOf(fm[..i + 1]) == TypesOf(fm[..i])[fm[i].kind :=
      (if fm[i].kind in TypesOf(fm[..i]) then TypesOf(fm[..i])[fm[i].kind] else 0) + 1]
    ensures YearsOf(fm[..i + 1]) == YearsOf(fm[..i]) + {fm[i].year}
    ensures PlantsOf(fm[..i + 1]) == PlantsOf(fm[..i]) + (if fm[i].plant.Some? then {fm[i].plant.value} else {})
    ensures TotalRows(fm[..i + 1]) == TotalRows(fm[..i]) + fm[i].rows
  {
    assert fm[..i + 1][..i] == fm[..i];
  }

  /** `data_availability`: one record per year surveyed. */
  method AvailabilityByYear(fm: seq<FileEntry>, years: seq<string>) returns (availability: map<string, Availability>)
    ensures forall y :: y in availability <==> y in years
    ensures forall y :: y in availability ==> availability[y] == AvailabilityOf(fm, y)
  {
    availability := map[];
    for k := 0 to |years|
      invariant forall y :: y in availability <==> y in years[..k]
      invariant forall y :: y in availability ==> availability[y] == AvailabilityOf(fm, y)
    {
      assert years[..k + 1] == years[..k] + [years[k]];
      availability := availability[years[k] := AvailabilityOf(fm, years[k])];
    }
    assert years[..|years|] == years;
  }

  /** An entry of a survey is of a listed year, and names a listed plant if it names one. */
  lemma SurveyedEntry(exists_: string -> bool, read: Workbook -> ReadOutcome, years: seq<string>, plants: seq<string>, e: FileEntry)
    requires e in TransferEntries(exists_, read, years, |years|) + GenerationEntries(read, plants, years, |plants|)
    ensures e.year in years
    ensures e.plant.Some? ==> e.plant.value in plants
  {
    if e in TransferEntries(exists_, read, years, |years|) {
      TransferEntriesShape(exists_, read, years, |years|, e);
    } else {
      GenerationEntriesShape(read, plants, years, |plants|, e);
    }
  }

  /**
   * A survey adds only listed years and plants to those of the entries
   * `start` already in the mapping.
   */
  lemma SurveyCovers(start: seq<FileEntry>, exists_: string -> bool, read: Workbook -> ReadOutcome,
                     years: seq<string>, plants: seq<string>)
    ensures forall y ::
      (y in YearsOf(start + TransferEntries(exists_, read, years, |years|) + GenerationEntries(read, plants, years, |plants|))
       ==> y in YearsOf(start) || y in years)
    ensures forall p ::
      (p in PlantsOf(start + TransferEntries(exists_, read, years, |years|) + GenerationEntries(read, plants, years, |plants|))
       ==> p in PlantsOf(start) || p in plants)
  {
    var fm := start + TransferEntries(exists_, read, years, |years|) + GenerationEntries(read, plants, years, |plants|);
    YearsOfIff(fm);
    PlantsOfIff(fm);
    YearsOfIff(start);
    PlantsOfIff(start);
    forall y | y in YearsOf(fm)
      ensures y in YearsOf(start) || y in years
    {
      var e :| e in fm && e.year == y;
      if e !in start {
        SurveyedEntry(exists_, read, years, plants, e);
      }
    }
    forall p | p in PlantsOf(fm)
      ensures p in PlantsOf(start) || p in plants
    {
      var e :| e in fm && e.plant == Some(p);
      if e !in start {
        SurveyedEntry(exists_, read, years, plants, e);
      }
    }
  }

  /** The statistics count every file once: by kind, and by year for the years surveyed. */
  lemma StatisticsAddUp(fm: seq<FileEntry>, fileTypes: map<FileType, nat>)
    requires TypeCounts(fileTypes, fm)
    ensures (if Bezug in fileTypes then fileTypes[Bezug] else 0) + (if Lieferung in fileTypes then fileTypes[Lieferung] else 0)
      + (if Erzeugung in fileTypes then fileTypes[Erzeugung] else 0) == |fm|
  {
    KindCountsAddUp(fm);
  }
}
