/**
 * The final comparison of all CSV exports of the Erentrudisstraße
 * monitoring (scripts/final_comparison.py): the guarded read with its
 * separator retry, the per-file summary, the breakdown of a file whose
 * header was read as one column, the ranking and the grouping by column
 * count, and the classification of each file's time coverage.
 */
module FinalComparison {
  import opened Strings
  import opened Frame
  import opened Columns
  import Order
  import Spans
  import AllFiles

  // ---------------------------------------------------------------------
  // Reading
  // ---------------------------------------------------------------------

  /** A comma read that put the whole header into one column. */
  predicate WrongSeparator(t: Table)
  {
    |t.columns| == 1 && Contains(t.columns[0], ",")
  }

  /**
   * `read_csv_safe`: ',' in UTF-8, re-read with ';' and decimal ',' when the
   * header landed in one column; any exception on the way falls back to ';'
   * in cp1252, and when that raises too the result is `None`.
   */
  function ReadSafe(commaUtf8: ReadOutcome, semicolonUtf8: ReadOutcome, semicolonCp1252: ReadOutcome): (r: Option<Table>)
    ensures commaUtf8.Loaded? && !WrongSeparator(commaUtf8.table) ==> r == Some(commaUtf8.table)
    ensures commaUtf8.Loaded? && WrongSeparator(commaUtf8.table) && semicolonUtf8.Loaded? ==> r == Some(semicolonUtf8.table)
    ensures (commaUtf8.Raised? || (WrongSeparator(commaUtf8.table) && semicolonUtf8.Raised?)) ==>
      r == (if semicolonCp1252.Loaded? then Some(semicolonCp1252.table) else None)
    ensures r.None? ==> semicolonCp1252.Raised?
  {
    var first :=
      if commaUtf8.Raised? then Raised
      else if WrongSeparator(commaUtf8.table) then semicolonUtf8
      else commaUtf8;
    match first
    case Loaded(t) => Some(t)
    case Raised => if semicolonCp1252.Loaded? then Some(semicolonCp1252.table) else None
  }

  // ---------------------------------------------------------------------
  // analyze_file
  // ---------------------------------------------------------------------

  /** The time information `analyze_file` records. */
  datatype TimeOf =
    | NoTime                                      // no date column, or its parse raised
    | NaTRange                                    // parsed, but every stamp is NaT
    | Span(start: int, end: int, days: int)       // `(end - start).days + 1`

  datatype FileInfo = FileInfo(rows: nat, columns: nat, names: seq<string>, time: TimeOf)

  /** The test for a date column: its lowercased name contains 'datum' or 'zeit'. */
  predicate IsDateName(name: string)
  {
    Contains(Lower(name), "datum") || Contains(Lower(name), "zeit")
  }

  /** The loop with `break`: the first column that passes the test. */
  function DatetimeColumn(cols: seq<string>): (r: Option<nat>)
    ensures r.None? <==> forall j :: 0 <= j < |cols| ==> !IsDateName(cols[j])
    ensures r.Some? ==> r.value < |cols| && IsDateName(cols[r.value])
    ensures r.Some? ==> forall j :: 0 <= j < r.value ==> !IsDateName(cols[j])
  {
    if cols == [] then None
    else if IsDateName(cols[0]) then Some(0)
    else
      match DatetimeColumn(cols[1..])
      case None => None
      case Some(k) => Some(k + 1)
  }

  /**
   * The cells as `to_datetime` sees them: text, or `None` for an empty cell.
   * A number in the column makes the formatted parse raise (`None` overall).
   */
  function DateTexts(cells: seq<Cell>): (r: Option<seq<Option<string>>>)
    ensures r.None? <==> exists i :: 0 <= i < |cells| && (cells[i].Num? || cells[i].Stamp?)
    ensures r.Some? ==> |r.value| == |cells|
    ensures r.Some? ==> forall i :: 0 <= i < |cells| ==>
      r.value[i] == (if cells[i].Text? then Some(cells[i].s) else None)
  {
    if cells == [] then Some([])
    else
      var init := cells[..|cells| - 1];
      var last := cells[|cells| - 1];
      assert forall i :: 0 <= i < |init| ==> init[i] == cells[i];
      match DateTexts(init)
      case None => None
      case Some(texts) =>
        match last
        case Text(s) => Some(texts + [Some(s)])
        case Missing => Some(texts + [None])
        case _ => None
  }

  /** The time entries of `analyze_file` for the cells of the date column. */
  function TimeOfColumn(cells: seq<Cell>): (r: TimeOf)
    ensures r.NoTime? <==> DateTexts(cells).None? || AllFiles.ParseColumn(DateTexts(cells).value).None?
    ensures r.Span? <==>
      DateTexts(cells).Some? && AllFiles.ParseColumn(DateTexts(cells).value).Some? &&
      Spans.TimeRange(AllFiles.ParseColumn(DateTexts(cells).value).value).Some?
    ensures r.Span? ==> Spans.TimeRange(AllFiles.ParseColumn(DateTexts(cells).value).value) == Some((r.start, r.end))
    ensures r.Span? ==> r.start <= r.end && r.days >= 1 && r.days == Spans.DurationDays(r.start, r.end)
    ensures r.Span? ==> forall i :: 0 <= i < |cells| && cells[i].Text? ==>
      AllFiles.StampOf(cells[i].s).Some? && r.start <= AllFiles.StampOf(cells[i].s).value <= r.end
  {
    match DateTexts(cells)
    case None => NoTime
    case Some(texts) =>
      match AllFiles.ParseColumn(texts)
      case None => NoTime
      case Some(ts) =>
        match Spans.TimeRange(ts)
        case None => NaTRange
        case Some(range) =>
          Spans.DurationBounds(range.0, range.1);
          TextCellsParsed(cells, texts, ts);
          Span(range.0, range.1, Spans.DurationDays(range.0, range.1))
  }

  lemma TextCellsParsed(cells: seq<Cell>, texts: seq<Option<string>>, ts: seq<Option<int>>)
    requires DateTexts(cells) == Some(texts) && AllFiles.ParseColumn(texts) == Some(ts)
    ensures forall i :: 0 <= i < |cells| && cells[i].Text? ==> ts[i] == AllFiles.StampOf(cells[i].s) && ts[i].Some?
  {
    forall i | 0 <= i < |cells| && cells[i].Text?
      ensures ts[i] == AllFiles.StampOf(cells[i].s) && ts[i].Some?
    {
      assert texts[i] == Some(cells[i].s);
    }
  }

  /** `analyze_file`: `None` for a file that could not be read. */
  function AnalyzeFile(df: Option<Table>): (r: Option<FileInfo>)
    ensures r.Some? <==> df.Some?
    ensures r.Some? ==>
      (r.value.rows == |df.value.rows| && r.value.columns == |df.value.columns| && r.value.names == df.value.columns)
    ensures r.Some? && DatetimeColumn(df.value.columns).None? ==> r.value.time == NoTime
    ensures r.Some? && DatetimeColumn(df.value.columns).Some? ==>
      r.value.time == TimeOfColumn(Column(df.value, DatetimeColumn(df.value.columns).value))
  {
    match df
    case None => None
    case Some(t) =>
      var time := match DatetimeColumn(t.columns)
        case None => NoTime
        case Some(j) => TimeOfColumn(Column(t, j));
      Some(FileInfo(|t.rows|, |t.columns|, t.columns, time))
  }

  // ---------------------------------------------------------------------
  // A header read as one column
  // ---------------------------------------------------------------------

  /** `col_name.split(',')` for a file read into one column whose name holds a ','. */
  function HeaderParams(t: Table): (r: Option<seq<string>>)
    ensures r.Some? <==> WrongSeparator(t)
    ensures r.Some? ==> |r.value| >= 2 && r.value == SplitOn(t.columns[0], ",")
  {
    if WrongSeparator(t) then
      ContainsFound(t.columns[0], ",");
      Some(SplitOn(t.columns[0], ","))
    else None
  }

  /** `len([p for p in params if key in p])`. */
  function KeyCount(ps: seq<string>, key: string): (n: nat)
    ensures n <= |ps|
  {
    if ps == [] then 0 else (if Contains(ps[0], key) then 1 else 0) + KeyCount(ps[1..], key)
  }

  const GroupKeys: seq<string> := ["Pumpe", "Puffer", "HK", "Durchfluss"]

  /** The "Andere" count as printed: the total minus the four keyword counts. */
  function OtherAsWritten(ps: seq<string>): int
  {
    |ps| - KeyCount(ps, "Pumpe") - KeyCount(ps, "Puffer") - KeyCount(ps, "HK") - KeyCount(ps, "Durchfluss")
  }

  /** "Puffer Pumpe" names a buffer and a pump, ... */
  lemma PufferPumpeKeywords()
    ensures Contains("Puffer Pumpe", "Puffer") && Contains("Puffer Pumpe", "Pumpe")
  {
    var p := "Puffer Pumpe";
    assert p[0..6] == "Puffer";
    ContainsAt(p, "Puffer", 0);
    assert p[7..12] == "Pumpe";
    ContainsAt(p, "Pumpe", 7);
  }

  /** ... and neither a heating circuit nor a flow. */
  lemma PufferPumpeNoOtherKeywords()
    ensures !Contains("Puffer Pumpe", "HK") && !Contains("Puffer Pumpe", "Durchfluss")
  {
    var p := "Puffer Pumpe";
    assert 'H' !in p && 'D' !in p;
    NotContainsWhenHeadAbsent(p, "HK");
    NotContainsWhenHeadAbsent(p, "Durchfluss");
  }

  /**
   * A file whose one-column header is "Puffer Pumpe,Puffer Pumpe": each
   * parameter is counted as both pump and buffer, is subtracted twice, and
   * "Andere" goes negative.
   */
  lemma OtherAsWrittenNegative()
    ensures var t := Table(["Puffer Pumpe,Puffer Pumpe"], []);
      HeaderParams(t) == Some(["Puffer Pumpe", "Puffer Pumpe"]) &&
      OtherAsWritten(HeaderParams(t).value) == -2
  {
    PufferPumpeHeader();
    PufferPumpeTwice();
  }

  /** The header "Puffer Pumpe,Puffer Pumpe" holds a ',' and splits at it into two parameters. */
  lemma PufferPumpeHeader()
    ensures Contains("Puffer Pumpe,Puffer Pumpe", ",")
    ensures SplitOn("Puffer Pumpe,Puffer Pumpe", ",") == ["Puffer Pumpe", "Puffer Pumpe"]
  {
    var p := "Puffer Pumpe";
    var h := "Puffer Pumpe,Puffer Pumpe";
    assert h == p + [','] + p;
    FoundAfterAbsent(p, ',', p);
    ContainsAt(h, ",", 12);
    SplitOnOnce(p, ',', p);
  }

  /** Two "Puffer Pumpe" parameters make the printed "Andere" count -2. */
  lemma PufferPumpeTwice()
    ensures OtherAsWritten(["Puffer Pumpe", "Puffer Pumpe"]) == -2
  {
    var p := "Puffer Pumpe";
    assert [p, p][1..] == [p] && [p][1..] == [];
    PufferPumpeKeywords();
    PufferPumpeNoOtherKeywords();
  }

  /** How many of the four keywords a parameter contains. */
  function Hits(p: string): (n: nat)
    ensures n <= 4
    ensures n == 0 <==> !ContainsAny(p, GroupKeys)
  {
    (if Contains(p, "Pumpe") then 1 else 0) + (if Contains(p, "Puffer") then 1 else 0)
      + (if Contains(p, "HK") then 1 else 0) + (if Contains(p, "Durchfluss") then 1 else 0)
  }

  /** The parameters in none of the four groups: what "Andere" is meant to count. */
  function Others(ps: seq<string>): (r: seq<string>)
    ensures |r| <= |ps|
    ensures forall p :: p in r <==> p in ps && !ContainsAny(p, GroupKeys)
  {
    if ps == [] then []
    else
      assert ps == [ps[0]] + ps[1..];
      (if Hits(ps[0]) == 0 then [ps[0]] else []) + Others(ps[1..])
  }

  /** The double counting: one for every keyword a parameter holds beyond its first. */
  function Excess(ps: seq<string>): nat
  {
    if ps == [] then 0 else (if Hits(ps[0]) > 0 then Hits(ps[0]) - 1 else 0) + Excess(ps[1..])
  }

  /** The printed count falls short of the true one by exactly the double counting. */
  lemma {:induction false} OtherShortfall(ps: seq<string>)
    ensures OtherAsWritten(ps) == |Others(ps)| - Excess(ps)
  {
    if ps != [] {
      OtherShortfall(ps[1..]);
    }
  }

  lemma {:induction false} ExcessZero(ps: seq<string>)
    ensures Excess(ps) == 0 <==> forall i :: 0 <= i < |ps| ==> Hits(ps[i]) <= 1
  {
    if ps != [] {
      ExcessZero(ps[1..]);
      assert forall i :: 1 <= i < |ps| ==> ps[i] == ps[1..][i - 1];
    }
  }

  /**
   * The printed "Andere" is the number of parameters in no group exactly
   * when no parameter falls into two groups; otherwise it is smaller.
   */
  lemma OtherAsWrittenExactIff(ps: seq<string>)
    ensures OtherAsWritten(ps) <= |Others(ps)|
    ensures OtherAsWritten(ps) == |Others(ps)| <==> forall i :: 0 <= i < |ps| ==> Hits(ps[i]) <= 1
  {
    OtherShortfall(ps);
    ExcessZero(ps);
  }

  /** The five counts printed for a header read as one column, with "Andere" as intended. */
  datatype Breakdown = Breakdown(pumps: nat, buffers: nat, heatingCircuits: nat, flow: nat, other: nat)

  function BreakdownOf(ps: seq<string>): (b: Breakdown)
    ensures b.other == |Others(ps)| && b.other <= |ps|
    ensures b.pumps == KeyCount(ps, "Pumpe") && b.buffers == KeyCount(ps, "Puffer")
    ensures b.heatingCircuits == KeyCount(ps, "HK") && b.flow == KeyCount(ps, "Durchfluss")
  {
    Breakdown(KeyCount(ps, "Pumpe"), KeyCount(ps, "Puffer"), KeyCount(ps, "HK"), KeyCount(ps, "Durchfluss"), |Others(ps)|)
  }

  // ---------------------------------------------------------------------
  // create_complete_hierarchy
  // ---------------------------------------------------------------------

  /** The names of the files, in the order of the `FILES` dictionary. */
  function Names<T>(files: seq<(string, T)>): (r: seq<string>)
    ensures |r| == |files|
    ensures forall i :: 0 <= i < |files| ==> r[i] == files[i].0
  {
    if files == [] then [] else Names(files[..|files| - 1]) + [files[|files| - 1].0]
  }

  /** `all_info` after the first `k` files: an entry for every file that could be read. */
  function Hierarchy(files: seq<(string, Option<Table>)>, k: nat): (r: seq<(string, FileInfo)>)
    requires k <= |files|
    ensures |r| <= k
    ensures forall e :: e in r ==> exists i :: 0 <= i < k && files[i].1.Some? && e == (files[i].0, AnalyzeFile(files[i].1).value)
    ensures forall i :: 0 <= i < k && files[i].1.Some? ==> (files[i].0, AnalyzeFile(files[i].1).value) in r
  {
    if k == 0 then []
    else
      var rest := Hierarchy(files, k - 1);
      var info := AnalyzeFile(files[k - 1].1);
      if info.Some? then rest + [(files[k - 1].0, info.value)] else rest
  }

  /** Every entry of `all_info` after `k` files names one of those files. */
  lemma HierarchyNamesEarlier(files: seq<(string, Option<Table>)>, k: nat, e: (string, FileInfo))
    requires k <= |files|
    requires e in Hierarchy(files, k)
    ensures exists i :: 0 <= i < k && e.0 == files[i].0
  {
  }

  /** No two entries carry the same file name. */
  predicate DistinctNames<T>(r: seq<(string, T)>)
  {
    forall i, j :: 0 <= i < j < |r| ==> r[i].0 != r[j].0
  }

  /** With distinct file names, the entries of `all_info` have distinct names. */
  lemma {:induction false} HierarchyDistinct(files: seq<(string, Option<Table>)>, k: nat)
    requires k <= |files|
    requires DistinctNames(files)
    ensures DistinctNames(Hierarchy(files, k))
  {
    if k > 0 {
      HierarchyDistinct(files, k - 1);
      var rest := Hierarchy(files, k - 1);
      var info := AnalyzeFile(files[k - 1].1);
      if info.Some? {
        var name := files[k - 1].0;
        forall i | 0 <= i < |rest|
          ensures rest[i].0 != name
        {
          HierarchyNamesEarlier(files, k - 1, rest[i]);
        }
        AppendFreshName(rest, name, info.value);
        assert Hierarchy(files, k) == rest + [(name, info.value)];
      } else {
        assert Hierarchy(files, k) == rest;
      }
    }
  }

  /** Appending an entry whose name is new keeps the names distinct. */
  lemma AppendFreshName(rest: seq<(string, FileInfo)>, name: string, info: FileInfo)
    requires DistinctNames(rest)
    requires forall i :: 0 <= i < |rest| ==> rest[i].0 != name
    ensures DistinctNames(rest + [(name, info)])
  {
    var r := rest + [(name, info)];
    forall i, j | 0 <= i < j < |r|
      ensures r[i].0 != r[j].0
    {
      assert r[i] == rest[i];
      if j < |rest| {
        assert r[j] == rest[j];
      }
    }
  }

  /**
   * The loop of `create_complete_hierarchy`. The file names are the keys of
   * a dictionary literal, so they are distinct and every entry is new.
   */
  method CreateHierarchy(files: seq<(string, Option<Table>)>) returns (allInfo: seq<(string, FileInfo)>)
    requires DistinctNames(files)
    ensures allInfo == Hierarchy(files, |files|)
    ensures DistinctNames(allInfo)
  {
    allInfo := [];
    for k := 0 to |files|
      invariant allInfo == Hierarchy(files, k)
    {
      var info := AnalyzeFile(files[k].1);
      if info.Some? {
        allInfo := allInfo + [(files[k].0, info.value)];
      }
    }
    HierarchyDistinct(files, |files|);
  }

  /** `sorted(all_info.items(), key=columns, reverse=True)`: the same files, most columns first. */
  function Ranked(allInfo: seq<(string, FileInfo)>): (r: seq<(string, FileInfo)>)
    ensures multiset(r) == multiset(allInfo)
    ensures forall i, j :: 0 <= i < j < |r| ==> r[i].1.columns >= r[j].1.columns
  {
    var r := Order.SortBy(allInfo, (e: (string, FileInfo)) => -(e.1.columns as int));
    assert forall i, j :: 0 <= i < j < |r| ==> -(r[i].1.columns as int) <= -(r[j].1.columns as int);
    r
  }

  // ---------------------------------------------------------------------
  // analyze_relationships
  // ---------------------------------------------------------------------

  datatype Group = Minimal | Basic | Extended | Complete | ParsingIssue

  /** The column-count test of each group. */
  predicate InGroup(g: Group, columns: nat)
  {
    match g
    case Minimal => columns == 4
    case Basic => columns == 15
    case Extended => columns == 23
    case Complete => columns >= 45
    case ParsingIssue => columns == 1
  }

  /** `[name for name, info in all_info.items() if <test>]`. */
  function Members(allInfo: seq<(string, FileInfo)>, g: Group): (r: seq<string>)
    ensures |r| <= |allInfo|
    ensures forall n :: n in r <==> exists e :: e in allInfo && e.0 == n && InGroup(g, e.1.columns)
  {
    if allInfo == [] then []
    else
      var init := allInfo[..|allInfo| - 1];
      var last := allInfo[|allInfo| - 1];
      assert allInfo == init + [last];
      Members(init, g) + (if InGroup(g, last.1.columns) then [last.0] else [])
  }

  /** No file is in two groups. */
  lemma GroupsExclusive(g1: Group, g2: Group, columns: nat)
    requires InGroup(g1, columns) && InGroup(g2, columns)
    ensures g1 == g2
  {
  }

  /** A file whose column count is none of 1, 4, 15, 23 and is below 45 is listed in no group. */
  lemma UngroupedIff(columns: nat)
    ensures (forall g: Group :: !InGroup(g, columns)) <==>
      (columns != 1 && columns != 4 && columns != 15 && columns != 23 && columns < 45)
  {
    if columns == 1 { assert InGroup(ParsingIssue, columns); }
    if columns == 4 { assert InGroup(Minimal, columns); }
    if columns == 15 { assert InGroup(Basic, columns); }
    if columns == 23 { assert InGroup(Extended, columns); }
    if columns >= 45 { assert InGroup(Complete, columns); }
  }

  // ---------------------------------------------------------------------
  // compare_time_coverage
  // ---------------------------------------------------------------------

  datatype Coverage = FullYear | MultiMonth | Monthly | Partial

  function CoverageOf(days: int): (c: Coverage)
    ensures c == FullYear <==> days > 300
    ensures c == MultiMonth <==> 100 < days <= 300
    ensures c == Monthly <==> 25 < days <= 100
    ensures c == Partial <==> days <= 25
  {
    if days > 300 then FullYear
    else if days > 100 then MultiMonth
    else if days > 25 then Monthly
    else Partial
  }

  function CoverageRank(c: Coverage): nat
  {
    match c
    case Partial => 0
    case Monthly => 1
    case MultiMonth => 2
    case FullYear => 3
  }

  /** A longer span never gets a smaller coverage label. */
  lemma CoverageMonotone(d1: int, d2: int)
    requires d1 <= d2
    ensures CoverageRank(CoverageOf(d1)) <= CoverageRank(CoverageOf(d2))
  {
  }

  /** A file spanning a whole calendar year at five-minute steps counts as a full year. */
  lemma YearIsFull(start: int)
    ensures CoverageOf(Spans.DurationDays(start, start + 365 * Spans.SecondsPerDay - 300)) == FullYear
  {
  }

  /** `[(name, info) ... if 'time_start' in info]`, in dictionary order. */
  function Timed(allInfo: seq<(string, FileInfo)>): (r: seq<(string, FileInfo)>)
    ensures forall e :: e in r <==> e in allInfo && !e.1.time.NoTime?
  {
    if allInfo == [] then []
    else
      var init := allInfo[..|allInfo| - 1];
      var last := allInfo[|allInfo| - 1];
      assert allInfo == init + [last];
      Timed(init) + (if !last.1.time.NoTime? then [last] else [])
  }

  function Start(e: (string, FileInfo)): int
  {
    if e.1.time.Span? then e.1.time.start else 0
  }

  /**
   * The files listed with their coverage, by ascending start. A file whose
   * stamps are all NaT has a `time_start`, and formatting it raises, so the
   * listing is `None` then.
   */
  function CoverageListing(allInfo: seq<(string, FileInfo)>): (r: Option<seq<(string, FileInfo)>>)
    ensures r.None? <==> exists e :: e in allInfo && e.1.time.NaTRange?
    ensures r.Some? ==> forall e :: e in r.value <==> e in allInfo && e.1.time.Span?
    ensures r.Some? ==> forall i, j :: 0 <= i < j < |r.value| ==> r.value[i].1.time.start <= r.value[j].1.time.start
  {
    var timed := Timed(allInfo);
    if exists e :: e in allInfo && e.1.time.NaTRange? then None
    else
      var r := Order.SortBy(timed, Start);
      assert forall e :: e in r <==> e in timed by {
        forall e ensures e in r <==> e in timed {
          assert e in multiset(r) <==> e in multiset(timed);
        }
      }
      Some(r)
  }
}
