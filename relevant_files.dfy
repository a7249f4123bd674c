/**
 * The comparison of the two "Relevant" exports of the Erentrudisstraße
 * monitoring (scripts/compare_relevant_files.py): the reading fallbacks, the
 * split of the two column sets, the overlap percentage, and which columns
 * have their values compared.
 */
module RelevantFiles {
  import opened Strings
  import opened Frame
  import opened Columns
  import opened Regions
  import Order
  import KwNeukirchen

  // ---------------------------------------------------------------------
  // Reading
  // ---------------------------------------------------------------------

  /**
   * `read_csv_properly`: ';' with decimal ',' in UTF-8, then in cp1252, then
   * ',' with decimal '.'; the outcomes are the three reads in that order.
   * When the last one raises too, so does the function (`None`).
   */
  function ReadProperly(semicolonUtf8: ReadOutcome, semicolonCp1252: ReadOutcome, comma: ReadOutcome): (r: Option<Table>)
    ensures r.None? <==> semicolonUtf8.Raised? && semicolonCp1252.Raised? && comma.Raised?
    ensures semicolonUtf8.Loaded? ==> r == Some(semicolonUtf8.table)
    ensures semicolonUtf8.Raised? && semicolonCp1252.Loaded? ==> r == Some(semicolonCp1252.table)
    ensures semicolonUtf8.Raised? && semicolonCp1252.Raised? && comma.Loaded? ==> r == Some(comma.table)
  {
    var attempts := [semicolonUtf8, semicolonCp1252, comma];
    var r := FirstLoaded(attempts);
    assert attempts[0] == semicolonUtf8 && attempts[1] == semicolonCp1252 && attempts[2] == comma;
    r
  }

  // ---------------------------------------------------------------------
  // Column sets
  // ---------------------------------------------------------------------

  /**
   * `len(common) / max(len(cols1), len(cols2)) * 100`; `None` when both sets
   * are empty and the division raises.
   */
  function OverlapPercentage(a: set<string>, b: set<string>): (p: Option<real>)
    ensures p.None? <==> a == {} && b == {}
    ensures p.Some? ==> 0.0 <= p.value <= 100.0
    ensures p == Some(100.0) <==> a == b && a != {}
  {
    var common := SplitOf(a, b).common;
    var m := if |a| >= |b| then |a| else |b|;
    if m == 0 then None
    else
      CommonBounded(a, b);
      var p := KwNeukirchen.Percent(|common|, m);
      assert p == 100.0 ==> a == b by {
        if p == 100.0 {
          SameSizeSubset(common, a);
          SameSizeSubset(common, b);
        }
      }
      assert a == b ==> common == a;
      Some(p)
  }

  /** The overlap does not depend on which file comes first. */
  lemma OverlapSymmetric(a: set<string>, b: set<string>)
    ensures OverlapPercentage(a, b) == OverlapPercentage(b, a)
  {
    assert a * b == b * a;
  }

  /** `abs(len(df1) - len(df2))`. */
  function RowDifference(n1: nat, n2: nat): (d: nat)
    ensures d == 0 <==> n1 == n2
    ensures n1 == n2 + d || n2 == n1 + d
  {
    if n1 >= n2 then n1 - n2 else n2 - n1
  }

  // ---------------------------------------------------------------------
  // Value comparison
  // ---------------------------------------------------------------------

  /** The values are compared only when the row counts agree and some column is common. */
  predicate ComparesValues(t1: Table, t2: Table)
  {
    |t1.rows| == |t2.rows| && SplitOf(Order.Elems(t1.columns), Order.Elems(t2.columns)).common != {}
  }

  /** The names both tables have, in the first table's column order. */
  function CommonNames(c1: seq<string>, c2: seq<string>): (r: seq<string>)
    ensures forall x :: x in r <==> x in c1 && x in c2
  {
    if c1 == [] then []
    else
      var init := c1[..|c1| - 1];
      var last := c1[|c1| - 1];
      assert c1 == init + [last];
      CommonNames(init, c2) + (if last in c2 then [last] else [])
  }

  /** `sorted(common_cols)[0]`: the alphabetically first common column. */
  function FirstCommon(t1: Table, t2: Table): (name: string)
    requires ComparesValues(t1, t2)
    ensures name in t1.columns && name in t2.columns
    ensures forall x :: x in t1.columns && x in t2.columns ==> Order.Le(name, x)
  {
    var common := CommonNames(t1.columns, t2.columns);
    var sorted := Order.SortedSet(common);
    var x :| x in SplitOf(Order.Elems(t1.columns), Order.Elems(t2.columns)).common;
    assert x in common;
    assert x in sorted;
    assert sorted[0] in common;
    assert forall y :: y in t1.columns && y in t2.columns ==> Order.Le(sorted[0], y) by {
      forall y | y in t1.columns && y in t2.columns
        ensures Order.Le(sorted[0], y)
      {
        assert y in common;
        var k :| 0 <= k < |sorted| && sorted[k] == y;
        if k == 0 { Order.LeReflexive(y); }
      }
    }
    sorted[0]
  }

  /** The rows where the two columns, rendered as text by `show`, differ. */
  function DiffCount(col1: seq<Cell>, col2: seq<Cell>, show: Cell -> string): (n: nat)
    requires |col1| == |col2|
    ensures n <= |col1|
    ensures n == 0 <==> forall i :: 0 <= i < |col1| ==> show(col1[i]) == show(col2[i])
  {
    if col1 == [] then 0
    else
      var k := |col1| - 1;
      var rest := DiffCount(col1[..k], col2[..k], show);
      assert forall i :: 0 <= i < k ==> col1[..k][i] == col1[i] && col2[..k][i] == col2[i];
      rest + (if show(col1[k]) != show(col2[k]) then 1 else 0)
  }

  /**
   * The check of the first common column after `astype(str)`: `0` means
   * identical, otherwise the number of differing rows.
   */
  function FirstColumnDifferences(t1: Table, t2: Table, show: Cell -> string): (n: nat)
    requires ComparesValues(t1, t2)
    ensures n <= |t1.rows|
    ensures n == 0 <==> forall i :: 0 <= i < |t1.rows| ==>
      show(Named(t1, FirstCommon(t1, t2))[i]) == show(Named(t2, FirstCommon(t1, t2))[i])
  {
    var name := FirstCommon(t1, t2);
    DiffCount(Named(t1, name), Named(t2, name), show)
  }

  /**
   * The numeric columns compared: the common columns (in iteration order)
   * numeric in both frames, at most three of them.
   */
  function NumericCompared(t1: Table, t2: Table, common: seq<string>): (r: seq<string>)
    requires forall c :: c in common ==> c in t1.columns && c in t2.columns
    ensures |r| <= 3
    ensures forall c :: c in r ==> c in common && IsNumeric(Named(t1, c)) && IsNumeric(Named(t2, c))
    ensures |NumericBoth(t1, t2, common)| >= 3 ==> |r| == 3
  {
    var all := NumericBoth(t1, t2, common);
    var r := Take(all, 3);
    assert forall c :: c in r ==> c in all;
    r
  }

  function NumericBoth(t1: Table, t2: Table, common: seq<string>): (r: seq<string>)
    requires forall c :: c in common ==> c in t1.columns && c in t2.columns
    ensures forall c :: c in r <==> c in common && IsNumeric(Named(t1, c)) && IsNumeric(Named(t2, c))
  {
    if common == [] then []
    else
      var init := common[..|common| - 1];
      var last := common[|common| - 1];
      assert common == init + [last];
      NumericBoth(t1, t2, init) + (if IsNumeric(Named(t1, last)) && IsNumeric(Named(t2, last)) then [last] else [])
  }
}
