/**
 * The structure analysis of the Erentrudisstraße monitoring exports
 * (scripts/analyze_erentrudisstr_data.py): flexible timestamp parsing, the
 * detection of datetime columns, and the pairwise comparison of the
 * datasets' parameter sets and time ranges.
 */
module ErentrudisStructure {
  import opened Strings
  import opened Frame
  import opened Columns
  import Order
  import CsvComparison

  // ---------------------------------------------------------------------
  // Flexible parsing
  // ---------------------------------------------------------------------

  /** The formats `parse_datetime_flexible` tries, in order. */
  datatype Format =
    | DmyHms   // '%d.%m.%Y %H:%M:%S'
    | YmdHms   // '%Y-%m-%d %H:%M:%S'
    | YmdHm    // '%Y-%m-%d %H:%M'
    | DmyHm    // '%d.%m.%Y %H:%M'
    | Ymd      // '%Y-%m-%d'
    | Dmy      // '%d.%m.%Y'
    | MdyHms   // '%m/%d/%Y %H:%M:%S'
    | Mdy      // '%m/%d/%Y'

  const Formats: seq<Format> := [DmyHms, YmdHms, YmdHm, DmyHm, Ymd, Dmy, MdyHms, Mdy]

  /** The first of `fmts` under which `parse` accepts `s`, with its position and result. */
  function FirstParse(fmts: seq<Format>, s: string, parse: (Format, string) -> Option<int>): (r: Option<(nat, int)>)
    ensures r.Some? ==> r.value.0 < |fmts| && parse(fmts[r.value.0], s) == Some(r.value.1)
    ensures r.Some? ==> forall k :: 0 <= k < r.value.0 ==> parse(fmts[k], s).None?
    ensures r.None? <==> forall k :: 0 <= k < |fmts| ==> parse(fmts[k], s).None?
  {
    if fmts == [] then None
    else match parse(fmts[0], s)
      case Some(t) => Some((0, t))
      case None =>
        match FirstParse(fmts[1..], s, parse)
        case None => None
        case Some(p) => Some((p.0 + 1, p.1))
  }

  /**
   * `parse_datetime_flexible`: the first listed format that accepts the text,
   * else pandas' own inference (`flexible`), else `None`; it never raises.
   */
  function ParseDatetimeFlexible(s: string, parse: (Format, string) -> Option<int>, flexible: string -> Option<int>): Option<int>
  {
    match FirstParse(Formats, s, parse)
    case Some(p) => Some(p.1)
    case None => flexible(s)
  }

  /** The result is the first accepting format's, and inference is consulted only when all fail. */
  lemma FlexibleTakesFirstSuccess(s: string, parse: (Format, string) -> Option<int>, flexible: string -> Option<int>, i: nat)
    requires i < |Formats| && parse(Formats[i], s).Some?
    requires forall k :: 0 <= k < i ==> parse(Formats[k], s).None?
    ensures ParseDatetimeFlexible(s, parse, flexible) == parse(Formats[i], s)
  {
    var r := FirstParse(Formats, s, parse);
    assert r.Some?;
    if r.value.0 < i {
    } else if r.value.0 > i {
    }
  }

  lemma FlexibleFallsBack(s: string, parse: (Format, string) -> Option<int>, flexible: string -> Option<int>)
    requires forall k :: 0 <= k < |Formats| ==> parse(Formats[k], s).None?
    ensures ParseDatetimeFlexible(s, parse, flexible) == flexible(s)
  {
  }

  // ---------------------------------------------------------------------
  // Datetime columns
  // ---------------------------------------------------------------------

  /** `str(df[col].iloc[0])` for the cells a CSV read puts in an object column. */
  function SampleText(c: Cell): string
  {
    match c
    case Text(s) => s
    case Missing => "nan"
    case _ => ""
  }

  predicate LooksLikeDate(sample: string)
  {
    '-' in sample || '/' in sample || '.' in sample || ':' in sample
  }

  /**
   * A column is treated as a timestamp column when its lowercased name
   * contains 'date', 'time' or 'zeit', or when it is an object column whose
   * first value contains '-', '/', '.' or ':'; the trial parse of that value
   * cannot raise, so it always succeeds in marking the column.
   */
  predicate IsDatetimeColumn(name: string, cells: seq<Cell>)
  {
    ContainsAny(Lower(name), ["date", "time", "zeit"]) ||
    (IsObject(cells) && |cells| > 0 && LooksLikeDate(SampleText(cells[0])))
  }

  /** The datetime column names, in column order (from the end). */
  function DatetimeColumns(t: Table, n: nat): (r: seq<string>)
    requires n <= |t.columns|
    ensures forall x :: x in r <==> exists j :: 0 <= j < n && t.columns[j] == x && IsDatetimeColumn(x, Column(t, j))
  {
    if n == 0 then []
    else
      var r := DatetimeColumns(t, n - 1);
      var x := t.columns[n - 1];
      r + (if IsDatetimeColumn(x, Column(t, n - 1)) then [x] else [])
  }

  /** The loop over `df.columns` collecting `datetime_cols`. */
  method DetectDatetimeColumns(t: Table) returns (cols: seq<string>)
    ensures cols == DatetimeColumns(t, |t.columns|)
  {
    cols := [];
    for j := 0 to |t.columns|
      invariant cols == DatetimeColumns(t, j)
    {
      var name := t.columns[j];
      var cells := Column(t, j);
      if ContainsAny(Lower(name), ["date", "time", "zeit"]) {
        cols := cols + [name];
      } else if IsObject(cells) && |cells| > 0 {
        var sample := SampleText(cells[0]);
        if LooksLikeDate(sample) {
          cols := cols + [name];
        }
      }
    }
  }

  /** The parameter names: every column not among the datetime columns. */
  function Parameters(t: Table): (ps: set<string>)
    ensures forall x :: x in ps <==> x in t.columns && x !in DatetimeColumns(t, |t.columns|)
  {
    set x | x in t.columns && x !in DatetimeColumns(t, |t.columns|)
  }

  /** An object column whose first value looks like a date is never a parameter, whatever its name. */
  lemma DateLikeColumnIsNoParameter(t: Table, j: nat)
    requires j < |t.columns| && IsObject(Column(t, j)) && |t.rows| > 0
    requires LooksLikeDate(SampleText(Column(t, j)[0]))
    ensures t.columns[j] !in Parameters(t)
  {
    assert IsDatetimeColumn(t.columns[j], Column(t, j));
  }

  // ---------------------------------------------------------------------
  // Pairs of datasets
  // ---------------------------------------------------------------------

  /** The entries the nested loops `for i ...: for j in range(i + 1, n)` append, for rows `i < m`. */
  function PairsUpTo<T>(n: nat, m: nat, f: (nat, nat) -> seq<T>): seq<T>
    requires m <= n
  {
    if m == 0 then [] else PairsUpTo(n, m - 1, f) + PairsRow(m - 1, n, f)
  }

  /** One more row is appended after the rows before it. */
  lemma PairsUpToStep<T>(n: nat, m: nat, f: (nat, nat) -> seq<T>)
    requires m < n
    ensures PairsUpTo(n, m + 1, f) == PairsUpTo(n, m, f) + PairsRow(m, n, f)
  {
  }

  /** The entries of row `i` for `i < j < k`. */
  function PairsRow<T>(i: nat, k: nat, f: (nat, nat) -> seq<T>): seq<T>
  {
    if k <= i + 1 then [] else PairsRow(i, k - 1, f) + f(i, k - 1)
  }

  /** Every entry comes from some pair `i < j < n`. */
  lemma {:induction false} PairsUpToFrom<T>(n: nat, m: nat, f: (nat, nat) -> seq<T>, e: T)
    requires m <= n && e in PairsUpTo(n, m, f)
    ensures exists i, j :: 0 <= i < j < n && e in f(i, j)
  {
    if e in PairsUpTo(n, m - 1, f) {
      PairsUpToFrom(n, m - 1, f, e);
    } else {
      PairsRowFrom(m - 1, n, f, e);
    }
  }

  lemma {:induction false} PairsRowFrom<T>(i: nat, k: nat, f: (nat, nat) -> seq<T>, e: T)
    requires e in PairsRow(i, k, f)
    ensures exists j :: i < j < k && e in f(i, j)
    decreases k
  {
    if e !in f(i, k - 1) {
      PairsRowFrom(i, k - 1, f, e);
    }
  }

  datatype ParameterOverlap = ParameterOverlap(file1: string, file2: string, common: set<string>, percent: real)
  datatype SubsetPair = SubsetPair(subset: string, superset: string)

  /** `len(common) * 100 / min(len(params1), len(params2))`. */
  function Percent(common: set<string>, p1: set<string>, p2: set<string>): real
    requires |p1| > 0 && |p2| > 0
  {
    (|common| as real) * 100.0 / (CsvComparison.Min(|p1|, |p2|) as real)
  }

  lemma SubsetCard(a: set<string>, b: set<string>)
    requires a <= b
    ensures |a| <= |b|
  {
    assert b == a + (b - a);
  }

  /** For two parameter sets with a common parameter, the overlap lies in (0, 100]. */
  lemma PercentBounds(p1: set<string>, p2: set<string>)
    requires p1 * p2 != {}
    ensures |p1| > 0 && |p2| > 0
    ensures 0.0 < Percent(p1 * p2, p1, p2) <= 100.0
  {
    SubsetCard(p1 * p2, p1);
    SubsetCard(p1 * p2, p2);
    RatioBounds(|p1 * p2| as real, CsvComparison.Min(|p1|, |p2|) as real);
  }

  /** A positive part of a whole, times 100 over the whole, lies in (0, 100]. */
  lemma RatioBounds(part: real, whole: real)
    requires 0.0 < part <= whole
    ensures 0.0 < part * 100.0 / whole <= 100.0
  {
    var q := part * 100.0 / whole;
    assert q * whole == part * 100.0;
    assert q > 100.0 ==> q * whole > 100.0 * whole;
  }

  /** The overlap entry for the pair (i, j): present only when they share a parameter. */
  function OverlapAt(names: seq<string>, params: map<string, set<string>>, i: nat, j: nat): seq<ParameterOverlap>
  {
    if i < |names| && j < |names| && names[i] in params && names[j] in params
       && params[names[i]] * params[names[j]] != {} then
      var p1, p2 := params[names[i]], params[names[j]];
      PercentBounds(p1, p2);
      [ParameterOverlap(names[i], names[j], p1 * p2, Percent(p1 * p2, p1, p2))]
    else []
  }

  /** The subset entry for (i, j): the first set when it is contained in the second, else the reverse. */
  function SubsetAt(names: seq<string>, params: map<string, set<string>>, i: nat, j: nat): seq<SubsetPair>
  {
    if i < |names| && j < |names| && names[i] in params && names[j] in params
       && params[names[i]] * params[names[j]] != {} then
      var p1, p2 := params[names[i]], params[names[j]];
      if p1 <= p2 then [SubsetPair(names[i], names[j])]
      else if p2 <= p1 then [SubsetPair(names[j], names[i])]
      else []
    else []
  }

  function OverlapF(names: seq<string>, params: map<string, set<string>>): (nat, nat) -> seq<ParameterOverlap>
  {
    (i: nat, j: nat) => OverlapAt(names, params, i, j)
  }

  function SubsetF(names: seq<string>, params: map<string, set<string>>): (nat, nat) -> seq<SubsetPair>
  {
    (i: nat, j: nat) => SubsetAt(names, params, i, j)
  }

  function Overlaps(names: seq<string>, params: map<string, set<string>>): seq<ParameterOverlap>
  {
    PairsUpTo(|names|, |names|, OverlapF(names, params))
  }

  function Subsets(names: seq<string>, params: map<string, set<string>>): seq<SubsetPair>
  {
    PairsUpTo(|names|, |names|, SubsetF(names, params))
  }

  /** Section 1 of `compare_datasets`: the nested loops over pairs i < j. */
  method ParameterOverlaps(names: seq<string>, params: map<string, set<string>>)
    returns (overlaps: seq<ParameterOverlap>, subsets: seq<SubsetPair>)
    requires forall x :: x in names ==> x in params
    ensures overlaps == Overlaps(names, params)
    ensures subsets == Subsets(names, params)
  {
    overlaps, subsets := [], [];
    for i := 0 to |names|
      invariant overlaps == PairsUpTo(|names|, i, OverlapF(names, params))
      invariant subsets == PairsUpTo(|names|, i, SubsetF(names, params))
    {
      var row, rowSubsets := ParameterOverlapsWith(names, params, i);
      PairsUpToStep(|names|, i, OverlapF(names, params));
      PairsUpToStep(|names|, i, SubsetF(names, params));
      overlaps, subsets := overlaps + row, subsets + rowSubsets;
    }
  }

  /** The inner loop of section 1: dataset `i` against every later one. */
  method ParameterOverlapsWith(names: seq<string>, params: map<string, set<string>>, i: nat)
    returns (overlaps: seq<ParameterOverlap>, subsets: seq<SubsetPair>)
    requires forall x :: x in names ==> x in params
    requires i < |names|
    ensures overlaps == PairsRow(i, |names|, OverlapF(names, params))
    ensures subsets == PairsRow(i, |names|, SubsetF(names, params))
  {
    var f, g := OverlapF(names, params), SubsetF(names, params);
    overlaps, subsets := [], [];
    for j := i + 1 to |names|
      invariant overlaps == PairsRow(i, j, f)
      invariant subsets == PairsRow(i, j, g)
    {
      assert PairsRow(i, j + 1, f) == PairsRow(i, j, f) + OverlapAt(names, params, i, j);
      assert PairsRow(i, j + 1, g) == PairsRow(i, j, g) + SubsetAt(names, params, i, j);
      var p1, p2 := params[names[i]], params[names[j]];
      var common := p1 * p2;
      if common != {} {
        PercentBounds(p1, p2);
        overlaps := overlaps + [ParameterOverlap(names[i], names[j], common, Percent(common, p1, p2))];
        if p1 <= p2 {
          subsets := subsets + [SubsetPair(names[i], names[j])];
        } else if p2 <= p1 {
          subsets := subsets + [SubsetPair(names[j], names[i])];
        }
      }
    }
  }

  /** Every reported overlap percentage lies in (0, 100]. */
  lemma OverlapPercentInRange(names: seq<string>, params: map<string, set<string>>, e: ParameterOverlap)
    requires e in Overlaps(names, params)
    ensures 0.0 < e.percent <= 100.0
    ensures e.common != {}
  {
    var f := OverlapF(names, params);
    PairsUpToFrom(|names|, |names|, f, e);
    var i, j :| 0 <= i < j < |names| && e in f(i, j);
    assert e in OverlapAt(names, params, i, j);
    PercentBounds(params[names[i]], params[names[j]]);
  }

  /**
   * A subset entry names a set contained in the other; two equal sets are
   * reported with the earlier dataset as the subset.
   */
  lemma SubsetEntryMeaning(names: seq<string>, params: map<string, set<string>>, i: nat, j: nat)
    requires i < j < |names| && names[i] in params && names[j] in params
    ensures forall e :: e in SubsetAt(names, params, i, j) ==>
      e.subset in params && e.superset in params && params[e.subset] <= params[e.superset]
    ensures params[names[i]] == params[names[j]] != {} ==>
      SubsetAt(names, params, i, j) == [SubsetPair(names[i], names[j])]
    ensures SubsetAt(names, params, i, j) == [] <==>
      params[names[i]] * params[names[j]] == {} ||
      (!(params[names[i]] <= params[names[j]]) && !(params[names[j]] <= params[names[i]]))
  {
  }

  /** Section 3: `len(p1) == len(p2) and p1 == p2`, i.e. equal parameter sets. */
  function IdenticalAt(names: seq<string>, params: map<string, set<string>>, i: nat, j: nat): seq<(string, string)>
  {
    if i < |names| && j < |names| && names[i] in params && names[j] in params
       && |params[names[i]]| == |params[names[j]]| && params[names[i]] == params[names[j]] then
      [(names[i], names[j])]
    else []
  }

  function IdenticalStructures(names: seq<string>, params: map<string, set<string>>): seq<(string, string)>
  {
    PairsUpTo(|names|, |names|, (i: nat, j: nat) => IdenticalAt(names, params, i, j))
  }

  /** "Identical structure" is reported for a pair exactly when the parameter sets are equal. */
  lemma IdenticalIffEqual(names: seq<string>, params: map<string, set<string>>, i: nat, j: nat)
    requires i < |names| && j < |names| && names[i] in params && names[j] in params
    ensures IdenticalAt(names, params, i, j) != [] <==> params[names[i]] == params[names[j]]
  {
  }

  // ---------------------------------------------------------------------
  // Time periods
  // ---------------------------------------------------------------------

  /** A datetime column's range: its name, first and last instant. */
  datatype TimedColumn = TimedColumn(column: string, first: int, last: int)
  datatype TimeOverlap = TimeOverlap(file1: string, file2: string, first: int, last: int)

  /** `start1 <= end2 and start2 <= end1`, then (max start, min end). */
  function ColumnOverlap(c1: TimedColumn, c2: TimedColumn): (o: Option<(int, int)>)
    ensures o.Some? <==> c1.first <= c2.last && c2.first <= c1.last
  {
    if c1.first <= c2.last && c2.first <= c1.last then
      Some((CsvComparison.Max(c1.first, c2.first), CsvComparison.Min(c1.last, c2.last)))
    else None
  }

  /** For proper ranges this is exactly `find_overlap` of csv_comparison. */
  lemma ColumnOverlapIsFindOverlap(c1: TimedColumn, c2: TimedColumn)
    requires c1.first <= c1.last && c2.first <= c2.last
    ensures ColumnOverlap(c1, c2) == CsvComparison.FindOverlap((c1.first, c1.last), (c2.first, c2.last))
  {
  }

  /** The entries for every column pair of two files, in loop order. */
  function ColumnPairs(f1: string, cs1: seq<TimedColumn>, f2: string, cs2: seq<TimedColumn>): (r: seq<TimeOverlap>)
    ensures forall e :: e in r ==> e.file1 == f1 && e.file2 == f2
  {
    if cs1 == [] then []
    else ColumnPairs(f1, cs1[..|cs1| - 1], f2, cs2) + WithColumn(f1, cs1[|cs1| - 1], f2, cs2)
  }

  function WithColumn(f1: string, c1: TimedColumn, f2: string, cs2: seq<TimedColumn>): (r: seq<TimeOverlap>)
    ensures forall e :: e in r ==> e.file1 == f1 && e.file2 == f2
  {
    if cs2 == [] then []
    else
      WithColumn(f1, c1, f2, cs2[..|cs2| - 1]) +
      match ColumnOverlap(c1, cs2[|cs2| - 1])
      case Some(o) => [TimeOverlap(f1, f2, o.0, o.1)]
      case None => []
  }

  /** Python's `a < b` on strings. */
  predicate Lt(a: string, b: string)
  {
    Order.Le(a, b) && a != b
  }

  /** The entries of the pair (file i, file j); pairs with `file_i >= file_j` are skipped. */
  function TimeAt(files: seq<(string, seq<TimedColumn>)>, i: nat, j: nat): (r: seq<TimeOverlap>)
    ensures forall e :: e in r ==> Lt(e.file1, e.file2)
  {
    if i < |files| && j < |files| && Lt(files[i].0, files[j].0) then
      ColumnPairs(files[i].0, files[i].1, files[j].0, files[j].1)
    else []
  }

  /** The entries of the full grid `for file1 ...: for file2 ...`, rows `i < m`. */
  function GridUpTo(files: seq<(string, seq<TimedColumn>)>, m: nat): (r: seq<TimeOverlap>)
    requires m <= |files|
    ensures forall e :: e in r ==> Lt(e.file1, e.file2)
  {
    if m == 0 then [] else GridUpTo(files, m - 1) + GridRow(files, m - 1, |files|)
  }

  function GridRow(files: seq<(string, seq<TimedColumn>)>, i: nat, k: nat): (r: seq<TimeOverlap>)
    ensures forall e :: e in r ==> Lt(e.file1, e.file2)
  {
    if k == 0 then [] else GridRow(files, i, k - 1) + TimeAt(files, i, k - 1)
  }

  /** Section 2 of `compare_datasets`: every ordered pair of files, skipping `file1 >= file2`. */
  method TimeOverlaps(files: seq<(string, seq<TimedColumn>)>) returns (overlaps: seq<TimeOverlap>)
    ensures overlaps == GridUpTo(files, |files|)
  {
    overlaps := [];
    for i := 0 to |files|
      invariant overlaps == GridUpTo(files, i)
    {
      var row := TimeOverlapsWith(files, i);
      overlaps := overlaps + row;
    }
  }

  /** The inner loop of section 2: file `i` against every file. */
  method TimeOverlapsWith(files: seq<(string, seq<TimedColumn>)>, i: nat) returns (overlaps: seq<TimeOverlap>)
    requires i < |files|
    ensures overlaps == GridRow(files, i, |files|)
  {
    overlaps := [];
    for j := 0 to |files|
      invariant overlaps == GridRow(files, i, j)
    {
      assert GridRow(files, i, j + 1) == overlaps + TimeAt(files, i, j);
      if Lt(files[i].0, files[j].0) {
        overlaps := overlaps + ColumnPairs(files[i].0, files[i].1, files[j].0, files[j].1);
      } else {
        assert TimeAt(files, i, j) == [];
      }
    }
  }

  /** Each pair of files is compared in one direction only: never both (a, b) and (b, a). */
  lemma ComparedOnce(files: seq<(string, seq<TimedColumn>)>, e1: TimeOverlap, e2: TimeOverlap)
    requires e1 in GridUpTo(files, |files|) && e2 in GridUpTo(files, |files|)
    ensures !(e1.file1 == e2.file2 && e1.file2 == e2.file1)
  {
    if e1.file1 == e2.file2 && e1.file2 == e2.file1 {
      Order.LeAntisymmetric(e1.file1, e1.file2);
    }
  }
}
