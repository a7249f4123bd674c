/**
 * Column-level operations on a frame, as the loaders use them: looking a
 * column up by name, `df[name] = values`, `df.dropna(subset=...)` as a row
 * selection, and the numeric coercion of text columns.
 */
module Columns {
  import opened Strings
  import opened Frame

  /** Every row has one cell per column, as in any pandas frame. */
  predicate WellFormed(t: Table)
  {
    forall i :: 0 <= i < |t.rows| ==> |t.rows[i]| == |t.columns|
  }

  /** Position of the first column called `name`. */
  function ColumnIndex(cols: seq<string>, name: string): (r: Option<nat>)
    ensures r.Some? ==> r.value < |cols| && cols[r.value] == name
    ensures r.Some? ==> forall k :: 0 <= k < r.value ==> cols[k] != name
    ensures r.None? <==> name !in cols
  {
    if cols == [] then None
    else if cols[0] == name then Some(0)
    else
      assert cols == [cols[0]] + cols[1..];
      match ColumnIndex(cols[1..], name)
      case None => None
      case Some(k) => Some(k + 1)
  }

  /** The cells of column `j`, top to bottom. */
  function Column(t: Table, j: nat): (c: seq<Cell>)
    ensures |c| == |t.rows|
    ensures forall i :: 0 <= i < |t.rows| && j < |t.rows[i]| ==> c[i] == t.rows[i][j]
  {
    seq(|t.rows|, i requires 0 <= i < |t.rows| => if j < |t.rows[i]| then t.rows[i][j] else Missing)
  }

  /** Column `j` replaced by `cells`; every other column untouched. */
  function ReplaceColumn(t: Table, j: nat, cells: seq<Cell>): (r: Table)
    requires WellFormed(t) && j < |t.columns| && |cells| == |t.rows|
    ensures r.columns == t.columns && |r.rows| == |t.rows| && WellFormed(r)
    ensures Column(r, j) == cells
    ensures forall k: nat :: k != j ==> Column(r, k) == Column(t, k)
  {
    var r := Table(t.columns, seq(|t.rows|, i requires 0 <= i < |t.rows| => t.rows[i][j := cells[i]]));
    assert forall k: nat :: k != j ==> Column(r, k) == Column(t, k) by {
      forall k: nat | k != j ensures Column(r, k) == Column(t, k) {
        assert forall i :: 0 <= i < |t.rows| ==> Column(r, k)[i] == Column(t, k)[i];
      }
    }
    r
  }

  /** `df[name] = cells`: overwrites the first column called `name`, or appends one. */
  function SetColumn(t: Table, name: string, cells: seq<Cell>): (r: Table)
    requires WellFormed(t) && |cells| == |t.rows|
    ensures WellFormed(r) && |r.rows| == |t.rows|
    ensures r.columns == if name in t.columns then t.columns else t.columns + [name]
    ensures ColumnIndex(r.columns, name).Some?
    ensures Column(r, ColumnIndex(r.columns, name).value) == cells
    ensures forall k :: 0 <= k < |t.columns| && t.columns[k] != name ==> Column(r, k) == Column(t, k)
  {
    match ColumnIndex(t.columns, name)
    case Some(j) => ReplaceColumn(t, j, cells)
    case None =>
      var r := Table(t.columns + [name], seq(|t.rows|, i requires 0 <= i < |t.rows| => t.rows[i] + [cells[i]]));
      assert Column(r, |t.columns|) == cells;
      assert forall k :: 0 <= k < |t.columns| ==> Column(r, k) == Column(t, k) by {
        forall k | 0 <= k < |t.columns| ensures Column(r, k) == Column(t, k) {
          assert forall i :: 0 <= i < |t.rows| ==> Column(r, k)[i] == Column(t, k)[i];
        }
      }
      r
  }

  /** The rows at positions `keep`, in that order (`df.iloc[keep]`). */
  function SelectRows(t: Table, keep: seq<nat>): (r: Table)
    requires forall k :: 0 <= k < |keep| ==> keep[k] < |t.rows|
    ensures r.columns == t.columns && |r.rows| == |keep|
    ensures forall k :: 0 <= k < |keep| ==> r.rows[k] == t.rows[keep[k]]
    ensures WellFormed(t) ==> WellFormed(r)
  {
    Table(t.columns, seq(|keep|, k requires 0 <= k < |keep| => t.rows[keep[k]]))
  }

  lemma ColumnOfSelection(t: Table, keep: seq<nat>, j: nat, k: nat)
    requires WellFormed(t) && j < |t.columns|
    requires forall m :: 0 <= m < |keep| ==> keep[m] < |t.rows|
    requires k < |keep|
    ensures Column(SelectRows(t, keep), j)[k] == Column(t, j)[keep[k]]
  {
  }

  /** `pd.to_numeric(..., errors='coerce')` on one cell: text is parsed, failures become missing. */
  function ToNumericCell(c: Cell, toNumber: string -> Option<real>): (d: Cell)
    ensures d.Missing? || d.Num?
    ensures c.Num? ==> d == c
  {
    match c
    case Text(s) => (match toNumber(s) case Some(x) => Num(x) case None => Missing)
    case Num(_) => c
    case _ => Missing
  }

  /** `.astype(str).str.replace(',', '.')` on one cell of an object column. */
  function DecimalPoint(c: Cell): (d: Cell)
    ensures d.Text? <==> c.Text?
    ensures d.Text? ==> ',' !in d.s && |d.s| == |c.s|
    ensures d.Text? ==> forall i :: 0 <= i < |c.s| ==> d.s[i] == (if c.s[i] == ',' then '.' else c.s[i])
    ensures !c.Text? ==> d == c
  {
    match c
    case Text(s) => Text(ReplaceChar(s, ',', '.'))
    case _ => c
  }

  /** Replacing the decimal commas a second time changes nothing. */
  lemma DecimalPointIdempotent(c: Cell)
    ensures DecimalPoint(DecimalPoint(c)) == DecimalPoint(c)
  {
    if c.Text? {
      var d := DecimalPoint(c);
      assert DecimalPoint(d).s == d.s;
    }
  }

  /** A pandas `object` column: one holding text. */
  predicate IsObject(cells: seq<Cell>)
  {
    exists i :: 0 <= i < |cells| && cells[i].Text?
  }

  /** A column after the decimal-comma replacement and numeric coercion. */
  function NumericColumn(cells: seq<Cell>, toNumber: string -> Option<real>): (r: seq<Cell>)
    ensures |r| == |cells|
    ensures forall i :: 0 <= i < |cells| ==> r[i] == ToNumericCell(DecimalPoint(cells[i]), toNumber)
    ensures !IsObject(r)
  {
    seq(|cells|, i requires 0 <= i < |cells| => ToNumericCell(DecimalPoint(cells[i]), toNumber))
  }

  /** Whether the coercion loop rewrites column `j`: an object column whose name is not exempt. */
  predicate Coerced(t: Table, exempt: seq<string>, j: nat)
    requires j < |t.columns|
  {
    t.columns[j] !in exempt && IsObject(Column(t, j))
  }

  /** `r` is `t` with exactly the columns `Coerced` picks converted, and nothing else changed. */
  predicate CoercedFrom(t: Table, r: Table, exempt: seq<string>, toNumber: string -> Option<real>)
  {
    && r.columns == t.columns && |r.rows| == |t.rows| && WellFormed(r)
    && forall j :: 0 <= j < |t.columns| ==>
         Column(r, j) == if Coerced(t, exempt, j) then NumericColumn(Column(t, j), toNumber) else Column(t, j)
  }

  /**
   * The loaders' loop over `df.columns`: every object column not named in
   * `exempt` gets its commas replaced by dots and is coerced to numbers.
   */
  method CoerceNumericColumns(t: Table, exempt: seq<string>, toNumber: string -> Option<real>) returns (r: Table)
    requires WellFormed(t)
    ensures CoercedFrom(t, r, exempt, toNumber)
  {
    r := t;
    var j := 0;
    while j < |t.columns|
      invariant 0 <= j <= |t.columns|
      invariant CoercedUpTo(t, r, exempt, toNumber, j)
    {
      CoerceAtStep(t, r, exempt, toNumber, j);
      if r.columns[j] !in exempt && IsObject(Column(r, j)) {
        r := ReplaceColumn(r, j, NumericColumn(Column(r, j), toNumber));
      }
      j := j + 1;
    }
  }

  /** The loop after `j` columns: those before `j` rewritten as `Coerced` says, the rest untouched. */
  predicate CoercedUpTo(t: Table, r: Table, exempt: seq<string>, toNumber: string -> Option<real>, j: nat)
  {
    && j <= |t.columns| && r.columns == t.columns && |r.rows| == |t.rows| && WellFormed(r)
    && (forall k :: 0 <= k < j ==>
         Column(r, k) == if Coerced(t, exempt, k) then NumericColumn(Column(t, k), toNumber) else Column(t, k))
    && (forall k :: j <= k < |t.columns| ==> Column(r, k) == Column(t, k))
  }

  /** One turn of the loop: column `j`, still as read, is rewritten exactly when `Coerced` picks it. */
  lemma CoerceAtStep(t: Table, r: Table, exempt: seq<string>, toNumber: string -> Option<real>, j: nat)
    requires j < |t.columns| && CoercedUpTo(t, r, exempt, toNumber, j)
    ensures Coerced(t, exempt, j) <==> r.columns[j] !in exempt && IsObject(Column(r, j))
    ensures CoercedUpTo(t, if Coerced(t, exempt, j) then ReplaceColumn(r, j, NumericColumn(Column(r, j), toNumber)) else r,
                        exempt, toNumber, j + 1)
  {
  }

  /** `pd.DataFrame()`: what every loader returns on failure. */
  const Empty: Table := Table([], [])

  /** `pd.to_numeric(column, errors='coerce')` without any text rewriting. */
  function ToNumericColumn(cells: seq<Cell>, toNumber: string -> Option<real>): (r: seq<Cell>)
    ensures |r| == |cells|
    ensures forall i :: 0 <= i < |cells| ==> r[i] == ToNumericCell(cells[i], toNumber)
  {
    seq(|cells|, i requires 0 <= i < |cells| => ToNumericCell(cells[i], toNumber))
  }

  /** Coercing a coerced column changes nothing. */
  lemma ToNumericIdempotent(cells: seq<Cell>, toNumber: string -> Option<real>)
    ensures ToNumericColumn(ToNumericColumn(cells, toNumber), toNumber) == ToNumericColumn(cells, toNumber)
  {
    var r := ToNumericColumn(cells, toNumber);
    assert forall i :: 0 <= i < |r| ==> ToNumericCell(r[i], toNumber) == r[i];
  }

  /** `r` is `t` with the columns called one of `names` coerced to numbers, and nothing else changed. */
  predicate NamedCoercedFrom(t: Table, r: Table, names: seq<string>, toNumber: string -> Option<real>)
  {
    && r.columns == t.columns && |r.rows| == |t.rows| && WellFormed(r)
    && forall j :: 0 <= j < |t.columns| ==>
         Column(r, j) == if t.columns[j] in names then ToNumericColumn(Column(t, j), toNumber) else Column(t, j)
  }

  /** The name occurs at two positions, so `df[name]` is a frame and not a column. */
  predicate Duplicated(cols: seq<string>, name: string)
  {
    exists i, j :: 0 <= i < j < |cols| && cols[i] == name && cols[j] == name
  }

  /** `df.rename(columns=mapping)`. */
  function Rename(cols: seq<string>, mapping: map<string, string>): (r: seq<string>)
    ensures |r| == |cols|
    ensures forall i :: 0 <= i < |cols| ==> r[i] == if cols[i] in mapping then mapping[cols[i]] else cols[i]
  {
    seq(|cols|, i requires 0 <= i < |cols| => if cols[i] in mapping then mapping[cols[i]] else cols[i])
  }

  /** A frame with its columns renamed. */
  function Renamed(t: Table, mapping: map<string, string>): (r: Table)
    ensures r.rows == t.rows
    ensures r.columns == Rename(t.columns, mapping)
    ensures WellFormed(t) ==> WellFormed(r)
  {
    Table(Rename(t.columns, mapping), t.rows)
  }

  /** The first attempt that produced a frame: `try a except: try b except: c`. */
  function FirstLoaded(attempts: seq<ReadOutcome>): (r: Option<Table>)
    ensures r.Some? ==> exists i :: 0 <= i < |attempts| && attempts[i] == Loaded(r.value) && forall k :: 0 <= k < i ==> attempts[k].Raised?
    ensures r.None? <==> forall i :: 0 <= i < |attempts| ==> attempts[i].Raised?
  {
    if attempts == [] then None
    else if attempts[0].Loaded? then Some(attempts[0].table)
    else
      var r := FirstLoaded(attempts[1..]);
      assert forall i :: 1 <= i < |attempts| ==> attempts[i] == attempts[1..][i - 1];
      r
  }

  /**
   * `for col in names: if col in df.columns: df[col] = pd.to_numeric(df[col], errors='coerce')`.
   * None when a listed name is duplicated, where pandas raises.
   */
  method CoerceNamed(t: Table, names: seq<string>, toNumber: string -> Option<real>) returns (r: Option<Table>)
    requires WellFormed(t)
    ensures r.None? <==> exists n :: n in names && Duplicated(t.columns, n)
    ensures r.Some? ==> r.value.columns == t.columns && |r.value.rows| == |t.rows| && WellFormed(r.value)
    ensures r.Some? ==> forall j :: 0 <= j < |t.columns| ==>
      Column(r.value, j) == if t.columns[j] in names then ToNumericColumn(Column(t, j), toNumber) else Column(t, j)
  {
    var u := t;
    var i := 0;
    while i < |names|
      invariant 0 <= i <= |names|
      invariant forall n :: n in names[..i] ==> !Duplicated(t.columns, n)
      invariant NamedCoercedFrom(t, u, names[..i], toNumber)
    {
      var name := names[i];
      if Duplicated(u.columns, name) {
        return None;
      }
      CoerceOneStep(t, u, names, i, toNumber);
      u := CoerceOne(u, name, toNumber);
      assert names[..i + 1] == names[..i] + [name];
      i := i + 1;
    }
    assert names[..i] == names;
    r := Some(u);
  }

  /** `df[name] = pd.to_numeric(df[name], errors='coerce')` when the frame has the column. */
  function CoerceOne(u: Table, name: string, toNumber: string -> Option<real>): (r: Table)
    requires WellFormed(u)
    ensures r.columns == u.columns && |r.rows| == |u.rows| && WellFormed(r)
  {
    match ColumnIndex(u.columns, name)
    case None => u
    case Some(j) => ReplaceColumn(u, j, ToNumericColumn(Column(u, j), toNumber))
  }

  /** Coercing one more name that is not duplicated extends the coerced prefix by that name. */
  lemma CoerceOneStep(t: Table, u: Table, names: seq<string>, i: nat, toNumber: string -> Option<real>)
    requires WellFormed(t) && i < |names| && !Duplicated(t.columns, names[i])
    requires NamedCoercedFrom(t, u, names[..i], toNumber)
    ensures NamedCoercedFrom(t, CoerceOne(u, names[i], toNumber), names[..i + 1], toNumber)
  {
    var name := names[i];
    assert names[..i + 1] == names[..i] + [name];
    match ColumnIndex(u.columns, name)
    case None =>
    case Some(j) =>
      assert forall k :: 0 <= k < |t.columns| && k != j ==> t.columns[k] != name;
      ToNumericIdempotent(Column(t, j), toNumber);
  }

  /** Dataset keys are cut to their first 30 characters (`key[:30]`). */
  function DatasetKey(full: string): (k: string)
    ensures |k| <= 30
    ensures |full| <= 30 ==> k == full
    ensures |full| > 30 ==> |k| == 30
    ensures StartsWith(full, k)
  {
    Take(full, 30)
  }

  /** The prefixed keys (`2024_`, `Durchfluss_`, `{subdir}_`, `test_`, `{year}_`), cut to 30 characters. */
  function PrefixedKey(prefix: string, stem: string): (k: string)
    ensures |k| <= 30
    ensures |prefix| <= 30 ==> StartsWith(k, prefix)
    ensures |prefix| + |stem| <= 30 ==> k == prefix + stem
  {
    var full := prefix + stem;
    var k := DatasetKey(full);
    assert |prefix| <= 30 ==> k[..|prefix|] == full[..|prefix|] == prefix;
    k
  }

  /** Two names that agree on their first 30 characters get the same key, so the later file replaces the earlier. */
  lemma KeysCollide(a: string, b: string)
    requires |a| >= 30 && |b| >= 30 && a[..30] == b[..30]
    ensures DatasetKey(a) == DatasetKey(b)
  {
  }

  /**
   * `data[key] = value` for each entry in order: the dictionary the loaders
   * fill, where a later entry with the same key replaces an earlier one.
   */
  method Register(entries: seq<(string, Table)>) returns (m: map<string, Table>)
    ensures forall k :: k in m <==> exists i :: 0 <= i < |entries| && entries[i].0 == k
    ensures forall i :: 0 <= i < |entries| && LastWith(entries, i, |entries|) ==> m[entries[i].0] == entries[i].1
  {
    m := map[];
    var n := 0;
    while n < |entries|
      invariant 0 <= n <= |entries|
      invariant m.Keys == KeysBefore(entries, n)
      invariant LatestUpTo(entries, n, m)
    {
      KeysStep(entries, n);
      LatestStep(entries, n, m);
      m := m[entries[n].0 := entries[n].1];
      n := n + 1;
    }
  }

  /** No entry after `i` and before `n` has the same key as entry `i`. */
  predicate LastWith(entries: seq<(string, Table)>, i: nat, n: nat)
    requires i < n <= |entries|
  {
    forall j :: i < j < n ==> entries[j].0 != entries[i].0
  }

  /** The keys of the first `n` entries. */
  function KeysBefore(entries: seq<(string, Table)>, n: nat): (ks: set<string>)
    requires n <= |entries|
  {
    set i | 0 <= i < n :: entries[i].0
  }

  lemma KeysStep(entries: seq<(string, Table)>, n: nat)
    requires n < |entries|
    ensures KeysBefore(entries, n + 1) == KeysBefore(entries, n) + {entries[n].0}
  {
    var a, b := KeysBefore(entries, n + 1), KeysBefore(entries, n) + {entries[n].0};
    forall k | k in a ensures k in b {
      var i :| 0 <= i < n + 1 && entries[i].0 == k;
      if i < n {
        assert k in KeysBefore(entries, n);
      }
    }
    forall k | k in b ensures k in a {
      if k != entries[n].0 {
        var i :| 0 <= i < n && entries[i].0 == k;
        assert 0 <= i < n + 1;
      }
    }
  }

  /** Each of the first `n` entries that is the last with its key among them has its value in `m`. */
  ghost predicate LatestUpTo(entries: seq<(string, Table)>, n: nat, m: map<string, Table>)
    requires n <= |entries|
  {
    forall i :: 0 <= i < n && LastWith(entries, i, n) ==> entries[i].0 in m && m[entries[i].0] == entries[i].1
  }

  lemma LatestStep(entries: seq<(string, Table)>, n: nat, m: map<string, Table>)
    requires n < |entries| && LatestUpTo(entries, n, m)
    ensures LatestUpTo(entries, n + 1, m[entries[n].0 := entries[n].1])
  {
    var m' := m[entries[n].0 := entries[n].1];
    forall i | 0 <= i < n + 1 && LastWith(entries, i, n + 1)
      ensures entries[i].0 in m' && m'[entries[i].0] == entries[i].1
    {
      if i < n {
        assert entries[n].0 != entries[i].0;
        assert LastWith(entries, i, n);
      }
    }
  }

  /** The cells of the column called `name`, as `df[name]` (the first such column). */
  function Named(t: Table, name: string): seq<Cell>
    requires name in t.columns
  {
    Column(t, ColumnIndex(t.columns, name).value)
  }

  /** `names` without `name`, in order, as `set.discard(name)` or `[c for c in names if c != name]`. */
  function Without(names: seq<string>, name: string): (r: seq<string>)
    ensures |r| <= |names|
    ensures forall p :: p in r <==> p in names && p != name
  {
    if names == [] then []
    else
      var init := names[..|names| - 1];
      var last := names[|names| - 1];
      assert names == init + [last];
      Without(init, name) + (if last != name then [last] else [])
  }

  /** A `float64` column as `read_csv` builds it: at least one row, and only numbers or missing values. */
  predicate IsNumeric(cells: seq<Cell>)
  {
    |cells| > 0 && forall i :: 0 <= i < |cells| ==> cells[i].Num? || cells[i].Missing?
  }
}
