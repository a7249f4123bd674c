/**
 * The comparison of the three FIS Inhauser exports
 * (scripts/compare_fis_datasets.py): the Venn regions of their columns, the
 * house numbers read out of the house-specific column names, the keyword
 * filters over the sorted unique columns, the rows the longer exports have
 * inside the V1 period, and the columns whose values are compared.
 */
module FisDatasets {
  import opened Strings
  import opened Regions
  import opened Spans
  import Order
  import Columns
  import DateFormat

  // ---------------------------------------------------------------------
  // Unique columns and keyword filters
  // ---------------------------------------------------------------------

  /** The names of `cols` in neither `other1` nor `other2`, in column order. */
  function OnlyIn(cols: seq<string>, other1: seq<string>, other2: seq<string>): (r: seq<string>)
    ensures forall x :: x in r <==> x in cols && x !in other1 && x !in other2
  {
    if cols == [] then []
    else
      var init := cols[..|cols| - 1];
      var last := cols[|cols| - 1];
      assert cols == init + [last];
      OnlyIn(init, other1, other2) + (if last !in other1 && last !in other2 then [last] else [])
  }

  /**
   * `sorted(only_2024)`: the columns unique to the first file, each once,
   * ascending. They are exactly its region of the Venn diagram.
   */
  function SortedUnique(cols: seq<string>, other1: seq<string>, other2: seq<string>): (r: seq<string>)
    ensures Order.Sorted(r)
    ensures Order.Elems(r) == VennOf(Order.Elems(cols), Order.Elems(other1), Order.Elems(other2)).onlyA
  {
    var r := Order.SortedSet(OnlyIn(cols, other1, other2));
    assert forall i, j :: 0 <= i < j < |r| ==> Order.Le(r[i], r[j]);
    r
  }

  /** `[p for p in ps if any(k in p for k in keys)]`. */
  function WithKey(ps: seq<string>, keys: seq<string>): (r: seq<string>)
    ensures |r| <= |ps|
    ensures forall p :: p in r <==> p in ps && ContainsAny(p, keys)
  {
    if ps == [] then []
    else
      var init := ps[..|ps| - 1];
      var last := ps[|ps| - 1];
      assert ps == init + [last];
      WithKey(init, keys) + (if ContainsAny(last, keys) then [last] else [])
  }

  /** Filtering a sorted list leaves it sorted. */
  lemma {:induction false} WithKeyKeepsSorted(ps: seq<string>, keys: seq<string>)
    requires Order.Sorted(ps)
    ensures Order.Sorted(WithKey(ps, keys))
  {
    if ps != [] {
      var init := ps[..|ps| - 1];
      var last := ps[|ps| - 1];
      assert Order.Sorted(init) by {
        assert forall i :: 0 <= i < |init| ==> init[i] == ps[i];
      }
      WithKeyKeepsSorted(init, keys);
      var w := WithKey(init, keys);
      forall i | 0 <= i < |w|
        ensures Order.Le(w[i], last)
      {
        assert w[i] in init;
        var k :| 0 <= k < |init| && init[k] == w[i];
        assert ps[k] == w[i];
      }
    }
  }

  const HausKeys: seq<string> := ["Haus"]
  const ElectricityKeys: seq<string> := ["Stromzähler"]
  const CoolingKeys: seq<string> := ["Kältezähler"]
  const HeatPumpKeys: seq<string> := ["WP", "Wärmepumpe"]

  /** The heat pump columns unique to the second file, sorted, and the first five that are listed. */
  function HeatPumpShown(unique2025: seq<string>): (r: seq<string>)
    ensures |r| <= 5
    ensures forall p :: p in r ==> p in unique2025 && ContainsAny(p, HeatPumpKeys)
  {
    Take(WithKey(unique2025, HeatPumpKeys), 5)
  }

  // ---------------------------------------------------------------------
  // House numbers
  // ---------------------------------------------------------------------

  /** What one house column contributes: nothing, a house number, or the `IndexError` that ends the script. */
  datatype Extract = NoHouse | House(num: string) | Raises

  /**
   * `parts = p.split('Haus')`; when there are two parts or more, the first
   * word after the first 'Haus' with '/' stripped; `split()[0]` raises when
   * the text up to the next 'Haus' is blank.
   */
  function HouseOf(p: string): (e: Extract)
    ensures e.House? ==> forall c :: c in e.num ==> !IsSpace(c)
    ensures e.House? && e.num != [] ==> e.num[0] != '/' && e.num[|e.num| - 1] != '/'
  {
    var parts := SplitOn(p, "Haus");
    if |parts| > 1 then
      var ws := Words(parts[1]);
      if ws == [] then Raises
      else
        assert forall c :: c in ws[0] ==> !IsSpace(c);
        House(StripChar(ws[0], '/'))
    else NoHouse
  }

  /** The text between the first 'Haus' of a name and the next one, or the end of the name. */
  function HausSegment(p: string): (seg: string)
    requires IndexOf(p, "Haus").Some?
    ensures IndexOf(p, "Haus").value + 4 + |seg| <= |p|
    ensures seg == p[IndexOf(p, "Haus").value + 4..IndexOf(p, "Haus").value + 4 + |seg|]
  {
    var rest := p[IndexOf(p, "Haus").value + 4..];
    match IndexOf(rest, "Haus")
    case None => rest
    case Some(j) => rest[..j]
  }

  /**
   * What the extraction gives, stated on the name itself: nothing without a
   * 'Haus'; a raise when the text up to the next 'Haus' is blank; otherwise
   * the first whitespace-free run of that text with '/' stripped.
   */
  lemma HouseOfFirstWord(p: string)
    ensures HouseOf(p) == NoHouse <==> IndexOf(p, "Haus").None?
    ensures IndexOf(p, "Haus").Some? ==>
      var seg := HausSegment(p);
      var r := seg[SpaceRun(seg)..];
      (HouseOf(p) == Raises <==> r == []) &&
      (r != [] ==> HouseOf(p) == House(StripChar(r[..TokenLength(r)], '/')))
  {
    match IndexOf(p, "Haus")
    case None =>
      assert SplitOn(p, "Haus") == [p];
    case Some(i) =>
      var rest := p[i + 4..];
      assert SplitOn(p, "Haus") == [p[..i]] + SplitOn(rest, "Haus");
      var seg := HausSegment(p);
      assert SplitOn(rest, "Haus")[0] == seg;
      assert SplitOn(p, "Haus")[1] == seg;
      WordsEmptyIffBlank(seg);
      if SpaceRun(seg) < |seg| {
        WordsHead(seg);
      }
  }

  /** A name holding 'Haus' always splits in two or more, so the length test never skips it. */
  lemma HausAlwaysSplits(p: string)
    requires Contains(p, "Haus")
    ensures |SplitOn(p, "Haus")| >= 2
    ensures HouseOf(p) != NoHouse
  {
    ContainsFound(p, "Haus");
  }

  /** The extraction raises exactly when the text between the first 'Haus' and the next is blank. */
  lemma RaisesIffBlank(p: string)
    requires Contains(p, "Haus")
    ensures |SplitOn(p, "Haus")| >= 2
    ensures HouseOf(p) == Raises <==>
      forall i :: 0 <= i < |SplitOn(p, "Haus")[1]| ==> IsSpace(SplitOn(p, "Haus")[1][i])
  {
    HausAlwaysSplits(p);
    WordsEmptyIffBlank(SplitOn(p, "Haus")[1]);
  }

  /** A name with nothing but whitespace after its first 'Haus' (say "Wärmemenge Haus") makes the script raise. */
  lemma NothingAfterHausRaises(p: string)
    requires IndexOf(p, "Haus").Some?
    requires forall k :: IndexOf(p, "Haus").value + 4 <= k < |p| ==> IsSpace(p[k])
    ensures HouseOf(p) == Raises
  {
    BlankAfterHaus(p);
    WordsEmptyIffBlank(SplitOn(p, "Haus")[1]);
  }

  /** A NO-BREAK SPACE after 'Haus' is whitespace to `split()` too, so "Wärmemenge Haus\u00a0" raises. */
  lemma NoBreakSpaceAfterHausRaises()
    ensures HouseOf("Wärmemenge Haus\U{A0}") == Raises
  {
    var p := "Wärmemenge Haus\U{A0}";
    assert OccursAt(p, "Haus", 11);
    forall j | 0 <= j < 11
      ensures !OccursAt(p, "Haus", j)
    {
      assert p[j] != 'H';
    }
    assert IndexOf(p, "Haus") == Some(11);
    NothingAfterHausRaises(p);
  }

  /** Only blanks after the first 'Haus': the text after it splits off as blanks. */
  lemma BlankAfterHaus(p: string)
    requires IndexOf(p, "Haus").Some?
    requires forall k :: IndexOf(p, "Haus").value + 4 <= k < |p| ==> IsSpace(p[k])
    ensures |SplitOn(p, "Haus")| > 1
    ensures forall k :: 0 <= k < |SplitOn(p, "Haus")[1]| ==> IsSpace(SplitOn(p, "Haus")[1][k])
  {
    var i := IndexOf(p, "Haus").value;
    SplitOnSecond(p, "Haus");
    var seg := SplitOn(p, "Haus")[1];
    forall k | 0 <= k < |seg|
      ensures IsSpace(seg[k])
    {
      assert IsSpace(p[i + 4 + k]);
    }
  }

  /**
   * The set `houses` after the loop, or `None` when some column raised:
   * the script then stops before printing the houses.
   */
  function HousesOf(ps: seq<string>): (r: Option<set<string>>)
    ensures r.None? <==> exists p :: p in ps && HouseOf(p) == Raises
    ensures r.Some? ==> forall n :: n in r.value <==> exists p :: p in ps && HouseOf(p) == House(n)
  {
    if ps == [] then Some({})
    else
      var init := ps[..|ps| - 1];
      var last := ps[|ps| - 1];
      assert ps == init + [last];
      assert forall p :: p in ps <==> p in init || p == last;
      match HousesOf(init)
      case None => None
      case Some(hs) =>
        match HouseOf(last)
        case Raises => None
        case NoHouse => Some(hs)
        case House(n) => Some(hs + {n})
  }

  /** The house loop of `analyze_overlap` over the 'Haus' columns. */
  method CollectHouses(hausParams: seq<string>) returns (r: Option<set<string>>)
    ensures r == HousesOf(hausParams)
  {
    var houses: set<string> := {};
    for i := 0 to |hausParams|
      invariant HousesOf(hausParams[..i]) == Some(houses)
    {
      var p := hausParams[i];
      assert hausParams[..i + 1][..i] == hausParams[..i] && hausParams[..i + 1][i] == p;
      if Contains(p, "Haus") {
        var parts := SplitOn(p, "Haus");
        if |parts| > 1 {
          var ws := Words(parts[1]);
          if ws == [] {
            assert HousesOf(hausParams[..i + 1]).None?;
            assert p in hausParams && HouseOf(p) == Raises;
            return None;
          }
          houses := houses + {StripChar(ws[0], '/')};
        }
      } else {
        assert |SplitOn(p, "Haus")| == 1 by {
          if IndexOf(p, "Haus").Some? {
            var k := IndexOf(p, "Haus").value;
            ContainsAt(p, "Haus", k);
          }
        }
      }
    }
    assert hausParams[..|hausParams|] == hausParams;
    r := Some(houses);
  }

  /** `x.isdigit()`: a non-empty text of characters that carry a digit value. */
  predicate IsDigitText(x: string)
  {
    x != [] && forall i :: 0 <= i < |x| ==> IsDigitLike(x[i])
  }

  /**
   * `int(x)` in the sort key raises `ValueError` exactly for a label that
   * `isdigit()` accepts but that holds a digit which is no decimal digit,
   * such as '²'.
   */
  predicate KeyRaises(x: string)
  {
    IsDigitText(x) && !DateFormat.AllDigits(x)
  }

  /**
   * `int(x) if x.isdigit() else 0` where it does not raise: the decimal
   * value of a label of decimal digits (any script), 0 for any other label.
   */
  function HouseKey(x: string): (k: int)
    ensures k >= 0
    ensures !KeyRaises(x) && IsDigitText(x) ==> k == DateFormat.Number(x)
    ensures !IsDigitText(x) ==> k == 0
  {
    if x != [] && DateFormat.AllDigits(x) then DateFormat.Number(x) else 0
  }

  /**
   * `sorted(houses, key=...)` over the houses in iteration order. `sorted`
   * computes every key before it compares, so one raising key makes the
   * whole call raise (`None`), wherever that label sits.
   */
  function HousesInOrder(houses: seq<string>): (r: Option<seq<string>>)
    ensures r.None? <==> exists i :: 0 <= i < |houses| && KeyRaises(houses[i])
    ensures r.Some? ==> multiset(r.value) == multiset(houses) && |r.value| == |houses|
    ensures r.Some? ==> Order.SortedBy(r.value, HouseKey)
  {
    if exists i :: 0 <= i < |houses| && KeyRaises(houses[i]) then None
    else
      var r := Order.SortBy(houses, HouseKey);
      assert |r| == |multiset(r)| == |houses|;
      Some(r)
  }

  /**
   * Numbered houses come out in numeric order, and a label that is not a
   * number sorts like house 0, before every house numbered 1 or more.
   */
  lemma HousesNumericOrder(houses: seq<string>, i: nat, j: nat)
    requires i < j < |houses|
    requires HousesInOrder(houses).Some?
    ensures var r := HousesInOrder(houses).value;
      IsDigitText(r[i]) && IsDigitText(r[j]) ==> DateFormat.Number(r[i]) <= DateFormat.Number(r[j])
    ensures var r := HousesInOrder(houses).value;
      !IsDigitText(r[j]) ==> HouseKey(r[i]) <= 0
  {
    var r := HousesInOrder(houses).value;
    assert HouseKey(r[i]) <= HouseKey(r[j]);
    assert r[i] in multiset(houses) && r[j] in multiset(houses);
    assert !KeyRaises(r[i]) && !KeyRaises(r[j]) by {
      assert r[i] in houses && r[j] in houses;
    }
  }

  /** An Arabic-Indic three is house 3, so it sorts after house 2. */
  lemma ArabicIndicHouseSortsByValue()
    ensures HouseKey("\U{663}") == 3
    ensures HousesInOrder(["\U{663}", "2"]) == Some(["2", "\U{663}"])
  {
    var three, two := "\U{663}", "2";
    assert DecimalZero(three[0]) == 0x660 && DecimalZero(two[0]) == '0' as int;
    assert DateFormat.AllDigits(three) && DateFormat.AllDigits(two);
    assert DateFormat.Number(three) == 3 && DateFormat.Number(two) == 2;
    var houses := [three, two];
    assert !KeyRaises(houses[0]) && !KeyRaises(houses[1]);
    var r := HousesInOrder(houses).value;
    SortedPairSwaps(houses, r);
  }

  /** Two labels with falling keys come out of the sort swapped. */
  lemma SortedPairSwaps(houses: seq<string>, r: seq<string>)
    requires |houses| == 2 && HouseKey(houses[1]) < HouseKey(houses[0])
    requires multiset(r) == multiset(houses) && |r| == 2
    requires Order.SortedBy(r, HouseKey)
    ensures r == [houses[1], houses[0]]
  {
    assert houses == [houses[0], houses[1]] && r == [r[0], r[1]];
    assert multiset{r[0], r[1]} == multiset{houses[0], houses[1]};
    assert HouseKey(r[0]) <= HouseKey(r[1]);
    if r[0] == houses[0] {
      assert false;
    }
    assert multiset{r[1]} == multiset{houses[0]};
  }

  /** A superscript two passes `isdigit()` but not `int()`: the sort raises. */
  lemma SuperscriptHouseRaises()
    ensures KeyRaises("\U{B2}")
    ensures HousesInOrder(["2", "\U{B2}"]).None?
  {
    var two := "\U{B2}";
    assert IsDigitLike(two[0]) && DecimalZero(two[0]) == -1;
    assert !DateFormat.AllDigits(two) && IsDigitText(two);
    var houses := ["2", two];
    assert KeyRaises(houses[1]);
  }

  // ---------------------------------------------------------------------
  // The V1 period
  // ---------------------------------------------------------------------

  /**
   * `(t >= v1_start) & (t <= v1_end)` for one row; a `NaT` row, or a
   * period whose bounds are `NaT`, never matches.
   */
  predicate InPeriod(t: Option<int>, period: Option<(int, int)>)
  {
    t.Some? && period.Some? && period.value.0 <= t.value <= period.value.1
  }

  /** `len(df[mask])`: the rows inside the period. */
  function RowsInPeriod(ts: seq<Option<int>>, period: Option<(int, int)>): (n: nat)
    ensures n <= |ts|
  {
    if ts == [] then 0
    else RowsInPeriod(ts[..|ts| - 1], period) + (if InPeriod(ts[|ts| - 1], period) then 1 else 0)
  }

  /** Rows exactly at the start or the end of the period count: both bounds are inclusive. */
  lemma {:induction false} BoundsInclusive(ts: seq<Option<int>>, period: Option<(int, int)>, k: nat)
    requires period.Some? && period.value.0 <= period.value.1 && k < |ts|
    requires ts[k] == Some(period.value.0) || ts[k] == Some(period.value.1)
    ensures RowsInPeriod(ts, period) >= 1
  {
    if k < |ts| - 1 {
      BoundsInclusive(ts[..|ts| - 1], period, k);
    }
  }

  /** The present timestamps, as counted by `count()`. */
  function PresentCount(ts: seq<Option<int>>): (n: nat)
    ensures n <= |ts|
  {
    if ts == [] then 0 else PresentCount(ts[..|ts| - 1]) + (if ts[|ts| - 1].Some? then 1 else 0)
  }

  /** Every present row of the V1 export lies inside its own period. */
  lemma {:induction false} OwnPeriodHoldsAll(ts: seq<Option<int>>, period: Option<(int, int)>)
    requires period.Some?
    requires forall i :: 0 <= i < |ts| && ts[i].Some? ==> period.value.0 <= ts[i].value <= period.value.1
    ensures RowsInPeriod(ts, period) == PresentCount(ts)
  {
    if ts != [] {
      var init := ts[..|ts| - 1];
      assert forall i :: 0 <= i < |init| ==> init[i] == ts[i];
      OwnPeriodHoldsAll(init, period);
    }
  }

  /** The V1 export has all its timestamped rows in the V1 period, as computed from its own column. */
  lemma V1InOwnPeriod(v1: seq<Option<int>>)
    ensures RowsInPeriod(v1, TimeRange(v1)) == PresentCount(v1) || TimeRange(v1).None?
  {
    if TimeRange(v1).Some? {
      OwnPeriodHoldsAll(v1, TimeRange(v1));
    }
  }

  /** A period that is `NaT` (the V1 column holds no timestamp) selects no row. */
  lemma {:induction false} NoPeriodNoRows(ts: seq<Option<int>>)
    ensures RowsInPeriod(ts, None) == 0
  {
    if ts != [] {
      NoPeriodNoRows(ts[..|ts| - 1]);
    }
  }

  // ---------------------------------------------------------------------
  // Consistency check
  // ---------------------------------------------------------------------

  /**
   * `list(common_params)[:5]` after the timestamp column is discarded, with
   * the common columns in their iteration order.
   */
  function ParamsToCheck(common: seq<string>): (r: seq<string>)
    ensures |r| <= 5
    ensures "Datum + Uhrzeit" !in r
    ensures forall p :: p in r ==> p in common
    ensures |Columns.Without(common, "Datum + Uhrzeit")| >= 5 ==> |r| == 5
  {
    var w := Columns.Without(common, "Datum + Uhrzeit");
    var r := Take(w, 5);
    assert forall p :: p in r ==> p in w;
    r
  }
}
