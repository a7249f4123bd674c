/**
 * Timestamp handling shared by the loaders: `pd.to_datetime(..., errors='coerce')`
 * over a column (the parser itself is a parameter), the `Date` column the
 * loaders store, the synthetic hourly range, and the case-insensitive scan
 * for a timestamp column by name.
 */
module Dates {
  import opened Strings
  import opened Frame
  import opened Columns

  /** An explicit `format=` string, or pandas' own inference. */
  datatype DateFormat = Format(pattern: string) | Inferred

  /**
   * `pd.to_datetime(column, format=fmt, errors='coerce')`. Cells that already
   * hold a timestamp keep it whatever the format, missing cells stay missing,
   * and every other cell goes to the given parser (None for a failure).
   */
  function ToDatetime(cells: seq<Cell>, fmt: DateFormat, parse: (DateFormat, Cell) -> Option<int>): (ts: seq<Option<int>>)
    ensures |ts| == |cells|
    ensures forall i :: 0 <= i < |cells| && cells[i].Missing? ==> ts[i].None?
    ensures forall i :: 0 <= i < |cells| && cells[i].Stamp? ==> ts[i] == Some(cells[i].t)
  {
    seq(|cells|, i requires 0 <= i < |cells| =>
      match cells[i]
      case Missing => None
      case Stamp(t) => Some(t)
      case _ => parse(fmt, cells[i]))
  }

  /** A timestamp column stored back into the frame: `NaT` is a missing cell. */
  function StampCells(ts: seq<Option<int>>): (cells: seq<Cell>)
    ensures |cells| == |ts|
    ensures forall i :: 0 <= i < |ts| ==> (cells[i].Missing? <==> ts[i].None?)
    ensures forall i :: 0 <= i < |ts| && ts[i].Some? ==> cells[i] == Stamp(ts[i].value)
  {
    seq(|ts|, i requires 0 <= i < |ts| => if ts[i].Some? then Stamp(ts[i].value) else Missing)
  }

  /** Converting a column that is already converted gives it back, whatever the format or parser. */
  lemma ReconvertIsIdentity(ts: seq<Option<int>>, fmt: DateFormat, parse: (DateFormat, Cell) -> Option<int>)
    ensures ToDatetime(StampCells(ts), fmt, parse) == ts
  {
    var back := ToDatetime(StampCells(ts), fmt, parse);
    assert forall i :: 0 <= i < |ts| ==> back[i] == ts[i];
  }

  /** `notna().sum()`. */
  function ValidCount(ts: seq<Option<int>>): (n: nat)
    ensures n <= |ts|
  {
    |ts| - CountMissing(ts)
  }

  /** `pd.date_range(start='2024-01-01', periods=n, freq='H')` as a column. */
  function HourlyDates(n: nat): (ts: seq<Option<int>>)
    ensures |ts| == n && CountMissing(ts) == 0
    ensures forall i :: 0 <= i < n ==> ts[i] == Some(HourlyStart + 3600 * i)
  {
    var ts := seq(n, i => Some(HourlyStart + 3600 * i));
    NoneMissing(ts);
    ts
  }

  lemma {:induction false} NoneMissing(ts: seq<Option<int>>)
    requires forall i :: 0 <= i < |ts| ==> ts[i].Some?
    ensures CountMissing(ts) == 0
  {
    if ts != [] {
      NoneMissing(ts[1..]);
    }
  }

  /** Nothing is missing exactly when every row holds a timestamp, and everything is missing exactly when none does. */
  lemma {:induction false} NoMissingIffAllPresent(ts: seq<Option<int>>)
    ensures CountMissing(ts) == 0 <==> forall i :: 0 <= i < |ts| ==> ts[i].Some?
    ensures CountMissing(ts) == |ts| <==> forall i :: 0 <= i < |ts| ==> ts[i].None?
  {
    if ts != [] {
      NoMissingIffAllPresent(ts[1..]);
      assert forall i :: 1 <= i < |ts| ==> ts[i] == ts[1..][i - 1];
    }
  }

  /** `isna().all()`: true for an empty column as well. */
  predicate AllMissing(cells: seq<Cell>)
  {
    forall i :: 0 <= i < |cells| ==> cells[i].Missing?
  }

  /** Position of the `Date` column. */
  function DateIndex(t: Table): Option<nat>
  {
    ColumnIndex(t.columns, "Date")
  }

  /** The frame has a `Date` column with at least one timestamp, or has no rows at all. */
  predicate HasUsableDate(t: Table)
  {
    DateIndex(t).Some? && (|t.rows| > 0 ==> !AllMissing(Column(t, DateIndex(t).value)))
  }

  /**
   * The last step of the loaders' timestamp handling: an absent or all-missing
   * `Date` becomes the hourly range over the frame's rows.
   */
  function EnsureDate(t: Table): (r: Table)
    requires WellFormed(t)
    ensures WellFormed(r) && HasUsableDate(r)
    ensures |r.rows| == |t.rows|
    ensures r.columns == t.columns || r.columns == t.columns + ["Date"]
    ensures HasUsableDate(t) ==> r == t
    ensures !HasUsableDate(t) ==> Column(r, DateIndex(r).value) == StampCells(HourlyDates(|t.rows|))
  {
    if DateIndex(t).None? || AllMissing(Column(t, DateIndex(t).value)) then
      var r := SetColumn(t, "Date", StampCells(HourlyDates(|t.rows|)));
      assert |t.rows| > 0 ==> !Column(r, DateIndex(r).value)[0].Missing?;
      if |t.rows| == 0 then
        assert r.rows == t.rows;
        r
      else
        r
    else
      t
  }

  /** `df.dropna(subset=['Date'])` after storing `d` in `Date`: exactly the rows with a timestamp remain, in order. */
  function DropMissingDates(df: Table, d: seq<Option<int>>): (r: Table)
    requires WellFormed(df) && |d| == |df.rows|
    ensures WellFormed(r) && |r.rows| == |df.rows| - CountMissing(d)
    ensures r.columns == SetColumn(df, "Date", StampCells(d)).columns
    ensures forall k :: 0 <= k < |r.rows| ==>
      PresentRows(d)[k] < |df.rows| && d[PresentRows(d)[k]].Some? &&
      r.rows[k] == SetColumn(df, "Date", StampCells(d)).rows[PresentRows(d)[k]]
    ensures forall k :: 0 < k < |r.rows| ==> PresentRows(d)[k - 1] < PresentRows(d)[k]
  {
    PresentRowsSound(d);
    SelectRows(SetColumn(df, "Date", StampCells(d)), PresentRows(d))
  }

  /** After the drop every remaining row holds a timestamp in `Date`. */
  lemma DroppedDatesComplete(df: Table, d: seq<Option<int>>)
    requires WellFormed(df) && |d| == |df.rows|
    ensures DateIndex(DropMissingDates(df, d)).Some?
    ensures forall i :: 0 <= i < |DropMissingDates(df, d).rows| ==>
      Column(DropMissingDates(df, d), DateIndex(DropMissingDates(df, d)).value)[i].Stamp?
  {
    PresentRowsSound(d);
    var stored := SetColumn(df, "Date", StampCells(d));
    var keep := PresentRows(d);
    var j := DateIndex(stored).value;
    forall i | 0 <= i < |keep| ensures Column(DropMissingDates(df, d), j)[i].Stamp? {
      ColumnOfSelection(stored, keep, j, i);
      assert Column(stored, j)[keep[i]] == StampCells(d)[keep[i]];
    }
  }

  /** Hence the dropped frame has a usable `Date` column. */
  lemma DroppedFrameHasDates(df: Table, d: seq<Option<int>>)
    requires WellFormed(df) && |d| == |df.rows|
    ensures HasUsableDate(DropMissingDates(df, d))
  {
    DroppedDatesComplete(df, d);
    var r := DropMissingDates(df, d);
    if |r.rows| > 0 {
      assert Column(r, DateIndex(r).value)[0].Stamp?;
    }
  }

  /** `any(k.lower() in name.lower() for k in keys)`. */
  predicate NameMatches(name: string, keys: seq<string>)
  {
    exists k :: k in keys && Contains(Lower(name), Lower(k))
  }

  /** The first column whose lowercased name contains a lowercased key. */
  function FirstNameMatch(cols: seq<string>, keys: seq<string>): (r: Option<nat>)
    ensures r.Some? ==> r.value < |cols| && NameMatches(cols[r.value], keys)
    ensures r.Some? ==> forall i :: 0 <= i < r.value ==> !NameMatches(cols[i], keys)
    ensures r.None? ==> forall i :: 0 <= i < |cols| ==> !NameMatches(cols[i], keys)
  {
    if cols == [] then None
    else if NameMatches(cols[0], keys) then Some(0)
    else
      match FirstNameMatch(cols[1..], keys)
      case None => None
      case Some(i) => Some(i + 1)
  }

  /**
   * The loaders' nested scan: columns in the outer loop, keys in the inner
   * one, both left at the first hit.
   */
  method ScanColumns(cols: seq<string>, keys: seq<string>) returns (r: Option<nat>)
    ensures r == FirstNameMatch(cols, keys)
  {
    r := None;
    var i := 0;
    while i < |cols|
      invariant 0 <= i <= |cols|
      invariant r.None?
      invariant forall k :: 0 <= k < i ==> !NameMatches(cols[k], keys)
    {
      var name := Lower(cols[i]);
      var j := 0;
      while j < |keys| && !Contains(name, Lower(keys[j]))
        invariant 0 <= j <= |keys|
        invariant forall m :: 0 <= m < j ==> !Contains(name, Lower(keys[m]))
      {
        j := j + 1;
      }
      if j < |keys| {
        assert keys[j] in keys;
        r := Some(i);
        break;
      }
      i := i + 1;
    }
  }

  /** Interpolation never changes the length of the column it fills. */
  ghost predicate KeepsLength(interpolate: seq<Option<int>> -> Option<seq<Option<int>>>)
  {
    forall d :: interpolate(d).Some? ==> |interpolate(d).value| == |d|
  }
}
