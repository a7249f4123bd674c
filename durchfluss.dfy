/**
 * The comparison of the flow-rate ("Durchfluss") export with the other
 * exports of the Erentrudisstraße monitoring (scripts/compare_durchfluss.py):
 * the coverage of its time column, the zero counts of its value columns,
 * how its column set relates to each other file's, and whether its values
 * agree with a file of the same shape.
 */
module Durchfluss {
  import opened Strings
  import opened Frame
  import opened Columns
  import opened Spans

  const DateColumn: string := "Datum + Uhrzeit"

  // ---------------------------------------------------------------------
  // Time coverage and values
  // ---------------------------------------------------------------------

  /** The exports are sampled every five minutes. */
  const SampleSeconds: int := 300

  /** `span.total_seconds() / 300 + 1`: the rows a gap-free five-minute series over the span has. */
  function ExpectedRows(first: int, last: int): (e: real)
    requires first <= last
    ensures e >= 1.0
  {
    (last - first) as real / SampleSeconds as real + 1.0
  }

  /** `len(df) / expected_rows * 100`. */
  function Completeness(rows: nat, first: int, last: int): (c: real)
    requires first <= last
    ensures c >= 0.0
    ensures c <= 100.0 <==> rows as real <= ExpectedRows(first, last)
  {
    var e := ExpectedRows(first, last);
    var c := rows as real / e * 100.0;
    assert c * e == rows as real * 100.0;
    assert c <= 100.0 ==> c * e <= 100.0 * e;
    assert c > 100.0 ==> c * e > 100.0 * e;
    c
  }

  /** A series without gaps at the five-minute step is 100 % complete. */
  lemma GapFreeIsComplete(n: nat, first: int)
    requires n >= 1
    ensures Completeness(n, first, first + SampleSeconds * (n - 1)) == 100.0
  {
    var last := first + SampleSeconds * (n - 1);
    assert (last - first) as real == 300.0 * (n - 1) as real;
    assert ExpectedRows(first, last) == n as real;
  }

  /** The printed coverage: start, end, duration in days and completeness in percent. */
  datatype CoverageInfo = CoverageInfo(start: int, end: int, days: int, completeness: real)

  /**
   * The time coverage printed for the parsed column, or `None` when every
   * timestamp is `NaT` and start, end, days and completeness all come out as NaT or NaN.
   */
  function Coverage(ts: seq<Option<int>>): (r: Option<CoverageInfo>)
    ensures r.Some? <==> TimeRange(ts).Some?
    ensures r.Some? ==> TimeRange(ts) == Some((r.value.start, r.value.end))
    ensures r.Some? ==> r.value.days == DurationDays(r.value.start, r.value.end) && r.value.days >= 1
    ensures r.Some? ==> r.value.completeness == Completeness(|ts|, r.value.start, r.value.end) && r.value.completeness >= 0.0
  {
    match TimeRange(ts)
    case None => None
    case Some(range) =>
      DurationBounds(range.0, range.1);
      Some(CoverageInfo(range.0, range.1, DurationDays(range.0, range.1), Completeness(|ts|, range.0, range.1)))
  }

  /** `df[col] == 0` for one cell: only the number zero; a missing cell compares unequal. */
  predicate IsZero(c: Cell)
  {
    c == Num(0.0)
  }

  /** `(df[col] != 0).sum()` and `(df[col] == 0).sum()`. */
  function ZeroCounts(cells: seq<Cell>): (r: (nat, nat))
    ensures r.0 + r.1 == |cells|
  {
    if cells == [] then (0, 0)
    else
      var rest := ZeroCounts(cells[1..]);
      if IsZero(cells[0]) then (rest.0, rest.1 + 1) else (rest.0 + 1, rest.1)
  }

  /** Missing cells count as non-zero, so a column of missing values reports only non-zero values. */
  lemma {:induction false} MissingCountsAsNonZero(cells: seq<Cell>)
    requires forall i :: 0 <= i < |cells| ==> cells[i] == Missing
    ensures ZeroCounts(cells) == (|cells|, 0)
  {
    if cells != [] {
      MissingCountsAsNonZero(cells[1..]);
    }
  }

  // ---------------------------------------------------------------------
  // Column set relations
  // ---------------------------------------------------------------------

  datatype Relation = Identical | Subset | Superset | Partial

  /** The label printed for a file with columns `c`, testing equality first. */
  function RelationOf(d: set<string>, c: set<string>): (r: Relation)
    ensures r == Identical <==> d == c
    ensures r == Subset <==> d < c
    ensures r == Superset <==> c < d
    ensures r == Partial <==> !(d <= c) && !(c <= d)
  {
    if d == c then Identical
    else if d <= c then Subset
    else if c <= d then Superset
    else Partial
  }

  /** The common count printed for a subset is the whole flow file. */
  lemma SubsetSharesAll(d: set<string>, c: set<string>)
    requires RelationOf(d, c) == Subset
    ensures d * c == d && |d * c| == |d|
  {
  }

  /** Swapping the two files swaps subset and superset. */
  lemma RelationFlips(d: set<string>, c: set<string>)
    ensures RelationOf(d, c) == Subset <==> RelationOf(c, d) == Superset
    ensures RelationOf(d, c) == Identical <==> RelationOf(c, d) == Identical
    ensures RelationOf(d, c) == Partial <==> RelationOf(c, d) == Partial
  {
  }

  /**
   * "These parameters also appear in": printed only when the flow file has
   * at most five columns, naming the files that hold every one of them.
   */
  function AlsoAppearIn(d: set<string>, files: seq<(string, set<string>)>): (r: Option<seq<string>>)
    ensures r.Some? <==> |d| <= 5
    ensures r.Some? ==> forall n :: n in r.value <==> exists f :: f in files && f.0 == n && d <= f.1
  {
    if |d| > 5 then None
    else if files == [] then Some([])
    else
      var init := files[..|files| - 1];
      var last := files[|files| - 1];
      assert files == init + [last];
      var rest := AlsoAppearIn(d, init).value;
      Some(rest + (if d <= last.1 then [last.0] else []))
  }

  /** A file is listed exactly when its label is IDENTICAL or SUBSET. */
  lemma AppearsIffContains(d: set<string>, f: (string, set<string>))
    ensures d <= f.1 <==> RelationOf(d, f.1) == Identical || RelationOf(d, f.1) == Subset
  {
  }

  /**
   * The row comparison with Vp.csv: the signed difference, printed only when
   * the column sets are identical and the row counts differ.
   */
  function RowWarning(d: set<string>, vp: set<string>, rowsD: nat, rowsVp: nat): (w: Option<int>)
    ensures w.Some? <==> d == vp && rowsD != rowsVp
    ensures w.Some? ==> w.value != 0 && rowsD == rowsVp + w.value
  {
    if d == vp && rowsD != rowsVp then Some(rowsD - rowsVp) else None
  }

  // ---------------------------------------------------------------------
  // Value consistency
  // ---------------------------------------------------------------------

  /** `df1[col].equals(df2[col])`: same length and the same cell in every row (missing equals missing). */
  predicate SameValues(t1: Table, t2: Table, name: string)
    requires name in t1.columns && name in t2.columns
  {
    Named(t1, name) == Named(t2, name)
  }

  /** The verdict of `check_data_consistency`. */
  datatype Consistency = RowCountsDiffer | TimestampsDiffer | Checked(identical: seq<bool>, allMatch: bool)

  /** The loop over the common columns: one verdict per column, and `all_match`. */
  method CompareColumns(t1: Table, t2: Table, common: seq<string>) returns (identical: seq<bool>, allMatch: bool)
    requires forall c :: c in common ==> c in t1.columns && c in t2.columns
    ensures |identical| == |common|
    ensures forall k :: 0 <= k < |common| ==> identical[k] == SameValues(t1, t2, common[k])
    ensures allMatch <==> forall c :: c in common ==> SameValues(t1, t2, c)
  {
    identical := [];
    allMatch := true;
    for k := 0 to |common|
      invariant |identical| == k
      invariant forall i :: 0 <= i < k ==> identical[i] == SameValues(t1, t2, common[i])
      invariant allMatch <==> forall i :: 0 <= i < k ==> SameValues(t1, t2, common[i])
    {
      if Named(t1, common[k]) == Named(t2, common[k]) {
        identical := identical + [true];
      } else {
        identical := identical + [false];
        allMatch := false;
      }
    }
  }

  /**
   * `check_data_consistency`: values are compared only when the row counts
   * agree and the parsed timestamp columns are equal; `common` are the shared
   * columns other than the timestamp, in iteration order. The conclusion is
   * printed exactly when the result is `Checked` with `allMatch`.
   */
  method CheckDataConsistency(t1: Table, t2: Table, stamps1: seq<Option<int>>, stamps2: seq<Option<int>>,
                              common: seq<string>) returns (r: Consistency)
    requires forall c :: c in common ==> c in t1.columns && c in t2.columns && c != DateColumn
    ensures r == RowCountsDiffer <==> |t1.rows| != |t2.rows|
    ensures r == TimestampsDiffer <==> |t1.rows| == |t2.rows| && stamps1 != stamps2
    ensures r.Checked? ==> |r.identical| == |common|
    ensures r.Checked? ==> (r.allMatch <==> forall c :: c in common ==> SameValues(t1, t2, c))
  {
    if |t1.rows| != |t2.rows| {
      return RowCountsDiffer;
    }
    if stamps1 != stamps2 {
      return TimestampsDiffer;
    }
    var identical, allMatch := CompareColumns(t1, t2, common);
    r := Checked(identical, allMatch);
  }
}
