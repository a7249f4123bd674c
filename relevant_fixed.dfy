/**
 * The corrected comparison of the two "Relevant" exports of the
 * Erentrudisstraße monitoring (scripts/compare_relevant_fixed.py): reading
 * with ',' in two encodings, the per-file null listing, the sorted split of
 * the two column sets, and the tally of identical and different columns.
 */
module RelevantFixed {
  import opened Strings
  import opened Frame
  import opened Columns
  import opened Regions
  import Order
  import Sources
  import Spans
  import AllFiles

  const DateColumn: string := "Datum + Uhrzeit"

  // ---------------------------------------------------------------------
  // Reading
  // ---------------------------------------------------------------------

  /**
   * `read_csv_correct`: ',' in UTF-8, then ',' in cp1252. The second read is
   * not guarded, so when it raises too the function raises (`None`).
   */
  function ReadCorrect(utf8: ReadOutcome, cp1252: ReadOutcome): (r: Option<Table>)
    ensures utf8.Loaded? ==> r == Some(utf8.table)
    ensures utf8.Raised? && cp1252.Loaded? ==> r == Some(cp1252.table)
    ensures r.None? <==> utf8.Raised? && cp1252.Raised?
  {
    var attempts := [utf8, cp1252];
    assert attempts[0] == utf8 && attempts[1] == cp1252;
    FirstLoaded(attempts)
  }

  // ---------------------------------------------------------------------
  // analyze_detailed
  // ---------------------------------------------------------------------

  /** What the time section of `analyze_detailed` prints. */
  datatype TimeLine =
    | NoDateColumn                              // no 'Datum + Uhrzeit' column: nothing
    | Unparsable                                // the parse raises and is swallowed: nothing
    | AllNaT                                    // every stamp is NaT: the range and duration print as NaT
    | Range(first: int, last: int, days: int)   // `time_diff.days`, without a day added

  /** The time section for the date column's text cells (`None` is an empty cell). */
  function TimeLineOf(dates: Option<seq<Option<string>>>): (r: TimeLine)
    ensures r == NoDateColumn <==> dates.None?
    ensures r == Unparsable <==> dates.Some? && AllFiles.ParseColumn(dates.value).None?
    ensures r.Range? <==>
      dates.Some? && AllFiles.ParseColumn(dates.value).Some? && Spans.TimeRange(AllFiles.ParseColumn(dates.value).value).Some?
    ensures r.Range? ==> Spans.TimeRange(AllFiles.ParseColumn(dates.value).value) == Some((r.first, r.last))
    ensures r.Range? ==> r.first <= r.last && r.days >= 0
    ensures r.Range? ==> r.days == Spans.DurationDays(r.first, r.last) - 1
    ensures r.Range? ==> forall i :: 0 <= i < |dates.value| && dates.value[i].Some? ==>
      AllFiles.StampOf(dates.value[i].value).Some? && r.first <= AllFiles.StampOf(dates.value[i].value).value <= r.last
  {
    if dates.None? then NoDateColumn
    else
      match AllFiles.ParseColumn(dates.value)
      case None => Unparsable
      case Some(ts) =>
        match Spans.TimeRange(ts)
        case None => AllNaT
        case Some(range) =>
          Spans.DurationBounds(range.0, range.1);
          assert forall i :: 0 <= i < |dates.value| && dates.value[i].Some? ==> ts[i].Some?;
          Range(range.0, range.1, (range.1 - range.0) / Spans.SecondsPerDay)
  }

  /** The printed duration is one day shorter than the `+ 1` durations of the other comparisons. */
  lemma DurationOneDayShort(dates: seq<Option<string>>)
    requires TimeLineOf(Some(dates)).Range?
    ensures TimeLineOf(Some(dates)).days + 1 == Spans.DurationDays(TimeLineOf(Some(dates)).first, TimeLineOf(Some(dates)).last)
  {
  }

  /** `df[col].isnull().sum()` for column `j`. */
  function NullCount(t: Table, j: nat): (n: nat)
    ensures n <= |t.rows|
    ensures n == 0 <==> forall i :: 0 <= i < |t.rows| ==> !Column(t, j)[i].Missing?
  {
    Sources.MissingCells(Column(t, j))
  }

  /** The null count of every column, in column order. */
  function NullCounts(t: Table): (r: seq<nat>)
    ensures |r| == |t.columns|
    ensures forall j :: 0 <= j < |t.columns| ==> r[j] == NullCount(t, j)
  {
    seq(|t.columns|, j requires 0 <= j < |t.columns| => NullCount(t, j))
  }

  /** The names among the first `k` whose count is positive, each with its count, in order. */
  function Flagged(names: seq<string>, counts: seq<nat>, k: nat): (r: seq<(string, nat)>)
    requires k <= |names| == |counts|
    ensures |r| <= k
    ensures forall e :: e in r ==> e.1 > 0
    ensures forall j :: 0 <= j < k && counts[j] > 0 ==> (names[j], counts[j]) in r
  {
    if k == 0 then []
    else
      var rest := Flagged(names, counts, k - 1);
      rest + (if counts[k - 1] > 0 then [(names[k - 1], counts[k - 1])] else [])
  }

  /** One more name is appended, with its count, exactly when its count is positive. */
  lemma FlaggedStep(names: seq<string>, counts: seq<nat>, k: nat)
    requires k < |names| == |counts|
    ensures Flagged(names, counts, k + 1)
         == Flagged(names, counts, k) + (if counts[k] > 0 then [(names[k], counts[k])] else [])
  {
  }

  /** Nothing is flagged exactly when every count is zero. */
  lemma {:induction false} FlaggedEmpty(names: seq<string>, counts: seq<nat>, k: nat)
    requires k <= |names| == |counts|
    ensures Flagged(names, counts, k) == [] <==> forall j :: 0 <= j < k ==> counts[j] == 0
  {
    if k > 0 {
      FlaggedEmpty(names, counts, k - 1);
    }
  }

  /** `null_cols`: the columns with a null, in column order, with their counts. */
  function NullColumns(t: Table, k: nat): (r: seq<(string, nat)>)
    requires k <= |t.columns|
    ensures |r| <= k
    ensures forall e :: e in r ==> e.1 > 0
    ensures forall j :: 0 <= j < k && NullCount(t, j) > 0 ==> (t.columns[j], NullCount(t, j)) in r
  {
    Flagged(t.columns, NullCounts(t), k)
  }

  /** One more column is listed, with its count, exactly when it holds a null. */
  lemma NullColumnsStep(t: Table, j: nat)
    requires j < |t.columns|
    ensures NullColumns(t, j + 1) == NullColumns(t, j) + (if NullCount(t, j) > 0 then [(t.columns[j], NullCount(t, j))] else [])
  {
    var counts := NullCounts(t);
    FlaggedStep(t.columns, counts, j);
    assert counts[j] == NullCount(t, j);
  }

  /** Every flagged entry is the name at some index `j` with its count. */
  lemma {:induction false} FlaggedFrom(names: seq<string>, counts: seq<nat>, k: nat, e: (string, nat)) returns (j: nat)
    requires k <= |names| == |counts|
    requires e in Flagged(names, counts, k)
    ensures j < k && e == (names[j], counts[j])
  {
    if e in Flagged(names, counts, k - 1) {
      j := FlaggedFrom(names, counts, k - 1, e);
    } else {
      j := k - 1;
    }
  }

  /** Every entry of `null_cols` is a column at some index `j` with its null count. */
  lemma NullColumnsFrom(t: Table, k: nat, e: (string, nat)) returns (j: nat)
    requires k <= |t.columns|
    requires e in NullColumns(t, k)
    ensures j < k && e == (t.columns[j], NullCount(t, j))
  {
    j := FlaggedFrom(t.columns, NullCounts(t), k, e);
  }

  /** The loop of `analyze_detailed` that builds `null_cols`. */
  method ListNullColumns(t: Table) returns (nullCols: seq<(string, nat)>)
    ensures nullCols == NullColumns(t, |t.columns|)
  {
    nullCols := [];
    for j := 0 to |t.columns|
      invariant nullCols == NullColumns(t, j)
    {
      var count := NullCount(t, j);
      NullColumnsStep(t, j);
      if count > 0 {
        nullCols := nullCols + [(t.columns[j], count)];
      }
    }
  }

  /** "No missing values detected" is printed exactly when no column holds a missing cell. */
  lemma NoMissingValues(t: Table, k: nat)
    requires k <= |t.columns|
    ensures NullColumns(t, k) == [] <==> forall j, i :: 0 <= j < k && 0 <= i < |t.rows| ==> !Column(t, j)[i].Missing?
  {
    var counts := NullCounts(t);
    FlaggedEmpty(t.columns, counts, k);
    assert NullColumns(t, k) == Flagged(t.columns, counts, k);
    forall j | 0 <= j < k
      ensures counts[j] == 0 <==> forall i :: 0 <= i < |t.rows| ==> !Column(t, j)[i].Missing?
    {
      assert counts[j] == NullCount(t, j);
    }
  }

  // ---------------------------------------------------------------------
  // compare_details
  // ---------------------------------------------------------------------

  /** The names of `c1` not in `c2`, in `c1`'s order. */
  function Minus(c1: seq<string>, c2: seq<string>): (r: seq<string>)
    ensures forall x :: x in r <==> x in c1 && x !in c2
  {
    if c1 == [] then []
    else
      var init := c1[..|c1| - 1];
      var last := c1[|c1| - 1];
      assert c1 == init + [last];
      Minus(init, c2) + (if last !in c2 then [last] else [])
  }

  /** `common`, `only_file1` and `only_file2`, each `sorted` of a set. */
  datatype ColumnSplit = ColumnSplit(common: seq<string>, onlyFirst: seq<string>, onlySecond: seq<string>)

  predicate StrictlySorted(s: seq<string>)
  {
    forall i, j :: 0 <= i < j < |s| ==> Order.Le(s[i], s[j]) && s[i] != s[j]
  }

  function SplitColumns(c1: seq<string>, c2: seq<string>): (s: ColumnSplit)
    ensures StrictlySorted(s.common) && StrictlySorted(s.onlyFirst) && StrictlySorted(s.onlySecond)
    ensures forall x :: x in s.common <==> x in c1 && x in c2
    ensures forall x :: x in s.onlyFirst <==> x in c1 && x !in c2
    ensures forall x :: x in s.onlySecond <==> x in c2 && x !in c1
  {
    ColumnSplit(Order.SortedSet(Minus(c1, Minus(c1, c2))), Order.SortedSet(Minus(c1, c2)), Order.SortedSet(Minus(c2, c1)))
  }

  /** The three lists hold exactly the parts of the set split of the two column sets. */
  lemma SplitIsSetSplit(c1: seq<string>, c2: seq<string>)
    ensures var s := SplitColumns(c1, c2); var p := SplitOf(Order.Elems(c1), Order.Elems(c2));
      Order.Elems(s.common) == p.common && Order.Elems(s.onlyFirst) == p.onlyA && Order.Elems(s.onlySecond) == p.onlyB
  {
    var s := SplitColumns(c1, c2);
    var p := SplitOf(Order.Elems(c1), Order.Elems(c2));
    ElemsExactly(s.common, p.common);
    ElemsExactly(s.onlyFirst, p.onlyA);
    ElemsExactly(s.onlySecond, p.onlyB);
  }

  lemma ElemsExactly(r: seq<string>, s: set<string>)
    requires forall x :: x in r <==> x in s
    ensures Order.Elems(r) == s
  {
  }

  /** So they partition the union of the two column sets. */
  lemma SplitPartitions(c1: seq<string>, c2: seq<string>)
    ensures var s := SplitColumns(c1, c2);
      Order.Elems(s.common) + Order.Elems(s.onlyFirst) + Order.Elems(s.onlySecond) == Order.Elems(c1) + Order.Elems(c2)
    ensures var s := SplitColumns(c1, c2);
      Order.Elems(s.common) * Order.Elems(s.onlyFirst) == {} && Order.Elems(s.common) * Order.Elems(s.onlySecond) == {}
      && Order.Elems(s.onlyFirst) * Order.Elems(s.onlySecond) == {}
  {
    SplitIsSetSplit(c1, c2);
    SplitPartition(Order.Elems(c1), Order.Elems(c2));
  }

  /**
   * `numeric_common[:5]`: the sorted common names other than the timestamp,
   * the first five of them.
   */
  function Checked(common: seq<string>): (r: seq<string>)
    requires StrictlySorted(common)
    ensures |r| <= 5
    ensures StrictlySorted(r)
    ensures forall x :: x in r ==> x in common && x != DateColumn
    ensures forall x :: x in common && x != DateColumn && x !in r ==> |r| == 5 && forall y :: y in r ==> Order.Le(y, x)
  {
    var w := Without(common, DateColumn);
    WithoutKeepsOrder(common, DateColumn);
    TakeOfSorted(w, 5);
    Take(w, 5)
  }

  /** The first `n` names of a strictly sorted list are sorted and come before every name left out. */
  lemma TakeOfSorted(w: seq<string>, n: nat)
    requires StrictlySorted(w)
    ensures StrictlySorted(Take(w, n))
    ensures forall x :: x in Take(w, n) ==> x in w
    ensures forall x :: x in w && x !in Take(w, n) ==> |Take(w, n)| == n && forall y :: y in Take(w, n) ==> Order.Le(y, x)
  {
    var r := Take(w, n);
    forall x | x in w && x !in r
      ensures |r| == n && forall y :: y in r ==> Order.Le(y, x)
    {
      var k :| 0 <= k < |w| && w[k] == x;
      assert r == w[..|r|];
      forall y | y in r
        ensures Order.Le(y, x)
      {
        var i :| 0 <= i < |r| && r[i] == y;
        assert w[i] == y;
      }
    }
  }

  /** Filtering a list that holds nothing but `name` leaves it empty. */
  lemma {:induction false} WithoutOnly(names: seq<string>, name: string)
    requires forall p :: p in names ==> p == name
    ensures Without(names, name) == []
  {
    if names != [] {
      var init := names[..|names| - 1];
      assert forall p :: p in init ==> p in names;
      assert names[|names| - 1] in names;
      WithoutOnly(init, name);
    }
  }

  /** Filtering keeps a strictly sorted list strictly sorted. */
  lemma {:induction false} WithoutKeepsOrder(names: seq<string>, name: string)
    requires StrictlySorted(names)
    ensures StrictlySorted(Without(names, name))
  {
    if names != [] {
      var init := names[..|names| - 1];
      var last := names[|names| - 1];
      assert names == init + [last];
      assert StrictlySorted(init);
      WithoutKeepsOrder(init, name);
      var w := Without(init, name);
      assert forall y :: y in w ==> y in init;
      assert forall y :: y in init ==> Order.Le(y, last) && y != last;
    }
  }

  /** What `compare_details` makes of one checked column. */
  datatype Outcome = Same | Differs | Raises

  /**
   * `df1[col].equals(df2[col])` gives `Same`; otherwise `corr` is computed,
   * which succeeds only when both columns are numeric, and any value it
   * returns counts as different.
   */
  function OutcomeOf(t1: Table, t2: Table, c: string): Outcome
    requires c in t1.columns && c in t2.columns
  {
    if Named(t1, c) == Named(t2, c) then Same
    else if IsNumeric(Named(t1, c)) && IsNumeric(Named(t2, c)) then Differs
    else Raises
  }

  /** The outcome of every checked column, in order. */
  function Outcomes(t1: Table, t2: Table, cols: seq<string>): (r: seq<Outcome>)
    requires forall c :: c in cols ==> c in t1.columns && c in t2.columns
    ensures |r| == |cols|
    ensures forall i :: 0 <= i < |cols| ==> r[i] == OutcomeOf(t1, t2, cols[i])
  {
    seq(|cols|, i requires 0 <= i < |cols| => OutcomeOf(t1, t2, cols[i]))
  }

  /** The two counts after the first `k` outcomes. */
  function TallyOf(outcomes: seq<Outcome>, k: nat): (r: (nat, nat))
    requires k <= |outcomes|
    ensures r.0 + r.1 <= k
    ensures r.0 == k <==> forall i :: 0 <= i < k ==> outcomes[i] == Same
  {
    if k == 0 then (0, 0)
    else
      var rest := TallyOf(outcomes, k - 1);
      match outcomes[k - 1]
      case Same => (rest.0 + 1, rest.1)
      case Differs => (rest.0, rest.1 + 1)
      case Raises => rest
  }

  /** One more outcome raises the count it belongs to, or neither when the comparison raised. */
  lemma TallyOfStep(outcomes: seq<Outcome>, k: nat)
    requires k < |outcomes|
    ensures TallyOf(outcomes, k + 1) == match outcomes[k]
      case Same => (TallyOf(outcomes, k).0 + 1, TallyOf(outcomes, k).1)
      case Differs => (TallyOf(outcomes, k).0, TallyOf(outcomes, k).1 + 1)
      case Raises => TallyOf(outcomes, k)
  {
  }

  /** `identical_count` and `different_count` after the first `k` checked columns. */
  function Tally(t1: Table, t2: Table, cols: seq<string>, k: nat): (r: (nat, nat))
    requires k <= |cols|
    requires forall c :: c in cols ==> c in t1.columns && c in t2.columns
    ensures r.0 + r.1 <= k
    ensures r.0 == k <==> forall i :: 0 <= i < k ==> OutcomeOf(t1, t2, cols[i]) == Same
  {
    TallyOf(Outcomes(t1, t2, cols), k)
  }

  /** The counting loop of `compare_details`; a comparison that raises is counted in neither. */
  method CountIdentical(t1: Table, t2: Table, checked: seq<string>) returns (identical: nat, different: nat)
    requires forall c :: c in checked ==> c in t1.columns && c in t2.columns
    ensures (identical, different) == Tally(t1, t2, checked, |checked|)
    ensures identical + different <= |checked|
  {
    identical, different := 0, 0;
    ghost var outcomes := Outcomes(t1, t2, checked);
    for k := 0 to |checked|
      invariant (identical, different) == TallyOf(outcomes, k)
    {
      var outcome := OutcomeOf(t1, t2, checked[k]);
      assert outcome == outcomes[k];
      TallyOfStep(outcomes, k);
      if outcome == Same {
        identical := identical + 1;
      } else if outcome == Differs {
        different := different + 1;
      }
    }
  }

  /** With the sorted split, at most five columns are tallied. */
  lemma AtMostFiveTallied(t1: Table, t2: Table)
    ensures var checked := Checked(SplitColumns(t1.columns, t2.columns).common);
      Tally(t1, t2, checked, |checked|).0 + Tally(t1, t2, checked, |checked|).1 <= 5
  {
  }

  /**
   * "All checked common parameters have IDENTICAL values" is printed when
   * `identical_count == len(numeric_common[:5])`: exactly when every checked
   * column is equal, and so also when no column is checked at all.
   */
  predicate AllIdenticalPrinted(t1: Table, t2: Table, checked: seq<string>)
    requires forall c :: c in checked ==> c in t1.columns && c in t2.columns
  {
    Tally(t1, t2, checked, |checked|).0 == |checked|
  }

  lemma AllIdenticalIffSame(t1: Table, t2: Table, checked: seq<string>)
    requires forall c :: c in checked ==> c in t1.columns && c in t2.columns
    ensures AllIdenticalPrinted(t1, t2, checked) <==> forall c :: c in checked ==> Named(t1, c) == Named(t2, c)
  {
    assert forall c :: c in checked ==> exists i :: 0 <= i < |checked| && checked[i] == c;
  }

  /** Two files sharing only the timestamp column still get the conclusion. */
  lemma VacuousConclusion(t1: Table, t2: Table)
    requires forall c :: c in t1.columns && c in t2.columns ==> c == DateColumn
    ensures Checked(SplitColumns(t1.columns, t2.columns).common) == []
    ensures AllIdenticalPrinted(t1, t2, Checked(SplitColumns(t1.columns, t2.columns).common))
  {
    WithoutOnly(SplitColumns(t1.columns, t2.columns).common, DateColumn);
  }

  /** The timestamp verdict of `compare_details`. */
  datatype StampVerdict = NotCompared | StampsIdentical | StampsDiffer

  /**
   * Printed only when the timestamp column is common and both columns parse;
   * a parse that raises is swallowed and prints nothing.
   */
  function StampCheck(common: seq<string>, dates1: seq<Option<string>>, dates2: seq<Option<string>>): (r: StampVerdict)
    ensures r == NotCompared <==>
      (DateColumn !in common || AllFiles.ParseColumn(dates1).None? || AllFiles.ParseColumn(dates2).None?)
    ensures r == StampsIdentical <==>
      DateColumn in common && AllFiles.ParseColumn(dates1).Some? && AllFiles.ParseColumn(dates1) == AllFiles.ParseColumn(dates2)
    ensures r == StampsIdentical ==>
      (|dates1| == |dates2| && forall i :: 0 <= i < |dates1| ==> (dates1[i].None? <==> dates2[i].None?))
  {
    if DateColumn !in common then NotCompared
    else
      match (AllFiles.ParseColumn(dates1), AllFiles.ParseColumn(dates2))
      case (Some(s1), Some(s2)) =>
        if s1 == s2 then
          assert forall i :: 0 <= i < |dates1| ==> (dates1[i].None? <==> dates2[i].None?) by {
            forall i | 0 <= i < |dates1| ensures dates1[i].None? <==> dates2[i].None? {
              assert s1[i] == s2[i];
            }
          }
          StampsIdentical
        else StampsDiffer
      case _ => NotCompared
  }
}
