/**
 * scripts/csv_detailed_analysis.py: reading an export into a dictionary
 * keyed by its parsed timestamps, German number conversion, the value
 * comparison of two exports, the identical/similar/different verdict per
 * common parameter, and the search for equal readings under different
 * names. A crash of the script (an `IndexError` on a short record, a
 * `StopIteration` on an empty file) is `None`.
 */
module DetailedAnalysis {
  import opened Strings
  import opened DateFormat
  import opened Columns

  // ---------------------------------------------------------------------
  // read_csv_with_timestamps
  // ---------------------------------------------------------------------

  /** The state of the reading loop: the dictionary and the accepted-row counter, or the crash on an empty record. */
  datatype Reading = Crashed | Reading(data: map<DateTime, seq<string>>, count: nat)

  /** `max_rows` is truthy and reached: the loop breaks before the next record. */
  predicate LimitReached(r: Reading, maxRows: nat)
  {
    r.Reading? && maxRows > 0 && r.count >= maxRows
  }

  /** The timestamp a record is filed under: a non-empty first field that parses. */
  function StampOf(row: seq<string>, parse: string -> Option<DateTime>): Option<DateTime>
  {
    if row == [] || row[0] == "" then None else parse(row[0])
  }

  /** One pass of the loop body. An empty record has no `row[0]`. */
  function Step(r: Reading, row: seq<string>, maxRows: nat, parse: string -> Option<DateTime>): Reading
  {
    if r.Crashed? || LimitReached(r, maxRows) then r
    else if row == [] then Crashed
    else
      match StampOf(row, parse)
      case None => r
      case Some(t) => Reading(r.data[t := row], r.count + 1)
  }

  /**
   * The loop over the records after the header; `max_rows` of 0 stands for
   * both 0 and `None`, and `parse` for the timestamp format (`Parse`).
   */
  function ReadRows(rows: seq<seq<string>>, maxRows: nat, parse: string -> Option<DateTime>): Reading
  {
    if rows == [] then Reading(map[], 0)
    else Step(ReadRows(rows[..|rows| - 1], maxRows, parse), rows[|rows| - 1], maxRows, parse)
  }

  /** Once the loop has crashed or reached its limit, later records change nothing. */
  lemma {:induction false} SettledStays(rows: seq<seq<string>>, n: nat, maxRows: nat, parse: string -> Option<DateTime>)
    requires n <= |rows|
    requires ReadRows(rows[..n], maxRows, parse).Crashed? || LimitReached(ReadRows(rows[..n], maxRows, parse), maxRows)
    ensures ReadRows(rows, maxRows, parse) == ReadRows(rows[..n], maxRows, parse)
    decreases |rows| - n
  {
    if n < |rows| {
      assert rows[..n + 1][..n] == rows[..n];
      SettledStays(rows, n + 1, maxRows, parse);
    } else {
      assert rows[..n] == rows;
    }
  }

  /** With a limit, at most `max_rows` rows are accepted, and the dictionary never holds more entries than were accepted. */
  lemma {:induction false} ReadBounded(rows: seq<seq<string>>, maxRows: nat, parse: string -> Option<DateTime>)
    ensures ReadRows(rows, maxRows, parse).Reading? ==> |ReadRows(rows, maxRows, parse).data| <= ReadRows(rows, maxRows, parse).count
    ensures ReadRows(rows, maxRows, parse).Reading? && maxRows > 0 ==> ReadRows(rows, maxRows, parse).count <= maxRows
  {
    if rows != [] {
      ReadBounded(rows[..|rows| - 1], maxRows, parse);
    }
  }

  /** Without a limit, the reading crashes exactly when some record is empty. */
  lemma {:induction false} CrashIffEmptyRecord(rows: seq<seq<string>>, parse: string -> Option<DateTime>)
    ensures ReadRows(rows, 0, parse).Crashed? <==> exists k :: 0 <= k < |rows| && rows[k] == []
  {
    if rows != [] {
      var n := |rows| - 1;
      CrashIffEmptyRecord(rows[..n], parse);
      if exists k :: 0 <= k < |rows| && rows[k] == [] {
        var k :| 0 <= k < |rows| && rows[k] == [];
        if k < n {
          assert rows[..n][k] == [];
        }
      }
      if exists k :: 0 <= k < n && rows[..n][k] == [] {
        var k :| 0 <= k < n && rows[..n][k] == [];
        assert rows[k] == [];
      }
    }
  }

  /** Without a limit and without a crash, the dictionary holds exactly the timestamps of the accepted records. */
  lemma {:induction false} KeysAreAcceptedStamps(rows: seq<seq<string>>, t: DateTime, parse: string -> Option<DateTime>)
    requires ReadRows(rows, 0, parse).Reading?
    ensures t in ReadRows(rows, 0, parse).data <==> exists k :: 0 <= k < |rows| && StampOf(rows[k], parse) == Some(t)
  {
    if rows != [] {
      var n := |rows| - 1;
      KeysAreAcceptedStamps(rows[..n], t, parse);
      if exists k :: 0 <= k < |rows| && StampOf(rows[k], parse) == Some(t) {
        var k :| 0 <= k < |rows| && StampOf(rows[k], parse) == Some(t);
        if k < n {
          assert StampOf(rows[..n][k], parse) == Some(t);
        }
      }
      if exists k :: 0 <= k < n && StampOf(rows[..n][k], parse) == Some(t) {
        var k :| 0 <= k < n && StampOf(rows[..n][k], parse) == Some(t);
        assert rows[k] == rows[..n][k];
      }
    }
  }

  /**
   * Each timestamp keeps the LAST record that carries it: a later record
   * with the same timestamp overwrites the earlier row.
   */
  lemma {:induction false} LastRecordWins(rows: seq<seq<string>>, t: DateTime, k: nat, parse: string -> Option<DateTime>)
    requires ReadRows(rows, 0, parse).Reading?
    requires k < |rows| && StampOf(rows[k], parse) == Some(t)
    requires forall j :: k < j < |rows| ==> StampOf(rows[j], parse) != Some(t)
    ensures t in ReadRows(rows, 0, parse).data && ReadRows(rows, 0, parse).data[t] == rows[k]
  {
    var n := |rows| - 1;
    var prev := ReadRows(rows[..n], 0, parse);
    assert ReadRows(rows, 0, parse) == Step(prev, rows[n], 0, parse);
    if k < n {
      assert StampOf(rows[n], parse) != Some(t);
      assert prev.Reading?;
      assert StampOf(rows[..n][k], parse) == Some(t);
      assert forall j :: k < j < n ==> rows[..n][j] == rows[j];
      LastRecordWins(rows[..n], t, k, parse);
    }
  }

  /** Read with the script's `strptime` format, every timestamp in the dictionary is a date the calendar has. */
  lemma {:induction false} ReadKeysValid(rows: seq<seq<string>>, maxRows: nat)
    ensures ReadRows(rows, maxRows, Parse).Reading? ==> forall t :: t in ReadRows(rows, maxRows, Parse).data ==> Valid(t)
  {
    if rows != [] {
      ReadKeysValid(rows[..|rows| - 1], maxRows);
    }
  }

  /** An export as the script holds it: the header record and the timestamp dictionary. */
  datatype Export = Export(headers: seq<string>, data: map<DateTime, seq<string>>)

  /**
   * `read_csv_with_timestamps` over the decoded records of a file: the
   * first record is the header, the rest go through the loop, which stops
   * once `max_rows` rows (when non-zero) have been accepted. `parse` is the
   * `strptime(..., '%d.%m.%Y %H:%M')` call, `DateFormat.Parse` in the script.
   */
  method ReadCsvWithTimestamps(records: seq<seq<string>>, maxRows: nat, parse: string -> Option<DateTime>) returns (r: Option<Export>)
    ensures records == [] ==> r.None?
    ensures records != [] ==> (r.None? <==> ReadRows(records[1..], maxRows, parse).Crashed?)
    ensures r.Some? ==> records != [] && r.value == Export(records[0], ReadRows(records[1..], maxRows, parse).data)
  {
    if records == [] {
      return None;
    }
    var rows := records[1..];
    var data: map<DateTime, seq<string>> := map[];
    var count: nat := 0;
    var i := 0;
    while i < |rows|
      invariant 0 <= i <= |rows|
      invariant ReadRows(rows[..i], maxRows, parse) == Reading(data, count)
    {
      if maxRows > 0 && count >= maxRows {
        SettledStays(rows, i, maxRows, parse);
        return Some(Export(records[0], data));
      }
      var row := rows[i];
      ReadStep(rows, i, maxRows, parse);
      if row == [] {
        SettledStays(rows, i + 1, maxRows, parse);
        return None;
      }
      data, count := ReadRecord(data, count, row, maxRows, parse);
      i := i + 1;
    }
    assert rows[..i] == rows;
    r := Some(Export(records[0], data));
  }

  /** One more record is one more step of the loop. */
  lemma ReadStep(rows: seq<seq<string>>, i: nat, maxRows: nat, parse: string -> Option<DateTime>)
    requires i < |rows|
    ensures ReadRows(rows[..i + 1], maxRows, parse) == Step(ReadRows(rows[..i], maxRows, parse), rows[i], maxRows, parse)
  {
    assert rows[..i + 1][..i] == rows[..i];
  }

  /** The body of the loop for a record that has a first field. */
  method ReadRecord(data0: map<DateTime, seq<string>>, count0: nat, row: seq<string>, maxRows: nat,
                    parse: string -> Option<DateTime>)
    returns (data: map<DateTime, seq<string>>, count: nat)
    requires row != [] && !LimitReached(Reading(data0, count0), maxRows)
    ensures Reading(data, count) == Step(Reading(data0, count0), row, maxRows, parse)
  {
    data, count := data0, count0;
    if row[0] != "" {
      var timestamp := parse(row[0]);
      if timestamp.Some? {
        data := data[timestamp.value := row];
        count := count + 1;
      }
    }
  }

  // ---------------------------------------------------------------------
  // convert_german_number and compare_values
  // ---------------------------------------------------------------------

  /** The text handed to `float`: every ',' made a '.', every '"' removed. */
  function Normalized(value: string): (r: string)
    ensures ',' !in r && '"' !in r
    ensures ',' !in value && '"' !in value ==> r == value
  {
    var t := ReplaceChar(value, ',', '.');
    assert ',' !in value ==> t == value;
    RemoveChar(t, '"')
  }

  /**
   * Normalising turns every ',' into a '.', drops every '"', and keeps every
   * other character as often as it occurs.
   */
  lemma NormalizedCount(value: string, x: char)
    ensures Count(Normalized(value), x) ==
      if x == '.' then Count(value, '.') + Count(value, ',')
      else if x == ',' || x == '"' then 0
      else Count(value, x)
  {
    ReplaceCharCount(value, ',', '.', x);
    RemoveCharCount(ReplaceChar(value, ',', '.'), '"', x);
  }

  /** Normalising works piece by piece, so the characters that stay keep their order. */
  lemma NormalizedAppend(a: string, b: string)
    ensures Normalized(a + b) == Normalized(a) + Normalized(b)
  {
    ReplaceCharAppend(a, b, ',', '.');
    RemoveCharAppend(ReplaceChar(a, ',', '.'), ReplaceChar(b, ',', '.'), '"');
  }

  /** `convert_german_number`; `toFloat` is Python's `float` on a string, `None` where it raises. */
  function ConvertGermanNumber(value: string, toFloat: string -> Option<real>): (r: Option<real>)
    ensures value == "" ==> r.None?
    ensures value != "" ==> r == toFloat(Normalized(value))
  {
    if value == "" then None else toFloat(Normalized(value))
  }

  /**
   * A number written with a '.' thousands separator and a decimal comma
   * ("1.234,56") becomes text with two dots, which `float` rejects, so the
   * conversion gives `None`.
   */
  lemma GroupedNumberRejected(value: string, toFloat: string -> Option<real>)
    requires forall s :: Count(s, '.') >= 2 ==> toFloat(s).None?
    requires '.' in value && ',' in value
    ensures ConvertGermanNumber(value, toFloat).None?
  {
    NormalizedCount(value, '.');
  }

  function Abs(x: real): real
  {
    if x < 0.0 then -x else x
  }

  /**
   * `compare_values`: the absolute difference and the difference relative
   * to the first value in percent (100 when only the first is zero, 0 when
   * both are), or `None` when either side is not a number.
   */
  function CompareValues(v1: string, v2: string, toFloat: string -> Option<real>): (r: Option<(real, real)>)
    ensures r.Some? <==> ConvertGermanNumber(v1, toFloat).Some? && ConvertGermanNumber(v2, toFloat).Some?
    ensures r.Some? ==> r.value.0 >= 0.0 && r.value.1 >= 0.0
    ensures r.Some? ==> (r.value.0 == 0.0 <==> ConvertGermanNumber(v1, toFloat) == ConvertGermanNumber(v2, toFloat))
    ensures r.Some? ==> (r.value.1 == 0.0 <==> r.value.0 == 0.0)
    ensures r.Some? ==>
      var a, b := ConvertGermanNumber(v1, toFloat).value, ConvertGermanNumber(v2, toFloat).value;
      (r.value.0 == a - b || r.value.0 == b - a) &&
      (a != 0.0 ==> r.value.1 * Abs(a) == r.value.0 * 100.0) &&
      (a == 0.0 ==> r.value.1 == if b != 0.0 then 100.0 else 0.0)
  {
    match (ConvertGermanNumber(v1, toFloat), ConvertGermanNumber(v2, toFloat))
    case (Some(a), Some(b)) =>
      var diff := Abs(a - b);
      var rel := if a != 0.0 then diff / Abs(a) * 100.0 else if b != 0.0 then 100.0 else 0.0;
      Some((diff, rel))
    case _ => None
  }

  /** The absolute difference does not depend on the order of the two values. */
  lemma DifferenceSymmetric(v1: string, v2: string, toFloat: string -> Option<real>)
    ensures CompareValues(v1, v2, toFloat).Some? <==> CompareValues(v2, v1, toFloat).Some?
    ensures CompareValues(v1, v2, toFloat).Some? ==> CompareValues(v1, v2, toFloat).value.0 == CompareValues(v2, v1, toFloat).value.0
  {
  }

  // ---------------------------------------------------------------------
  // Identical, similar and different parameters
  // ---------------------------------------------------------------------

  datatype Agreement = Identical | Similar | Different

  /** The verdict on a parameter's largest difference. */
  function Verdict(maxDiff: real): Agreement
  {
    if maxDiff == 0.0 then Identical else if maxDiff < 0.01 then Similar else Different
  }

  /** The largest element. */
  function MaxOf(ds: seq<real>): (m: real)
    requires ds != []
    ensures m in ds
    ensures forall k :: 0 <= k < |ds| ==> ds[k] <= m
  {
    if |ds| == 1 then ds[0]
    else
      var m := MaxOf(ds[..|ds| - 1]);
      assert forall k :: 0 <= k < |ds| - 1 ==> ds[k] == ds[..|ds| - 1][k];
      if ds[|ds| - 1] > m then ds[|ds| - 1] else m
  }

  /** The loop over a parameter's differences that finds the largest and classifies it. */
  method ClassifyDifferences(ds: seq<real>) returns (a: Option<Agreement>)
    ensures ds == [] ==> a.None?
    ensures ds != [] ==> a == Some(Verdict(MaxOf(ds)))
  {
    if ds == [] {
      return None;
    }
    var m := ds[0];
    var i := 1;
    while i < |ds|
      invariant 1 <= i <= |ds|
      invariant m in ds[..i]
      invariant forall k :: 0 <= k < i ==> ds[k] <= m
    {
      if ds[i] > m {
        m := ds[i];
      }
      i := i + 1;
    }
    assert ds[..i] == ds;
    a := Some(Verdict(m));
  }

  predicate NonNegative(ds: seq<real>)
  {
    forall k :: 0 <= k < |ds| ==> ds[k] >= 0.0
  }

  /**
   * For absolute differences, a parameter is identical exactly when every
   * compared pair is equal, and similar exactly when some pair differs but
   * every difference stays below 0.01.
   */
  lemma VerdictMeaning(ds: seq<real>)
    requires ds != [] && NonNegative(ds)
    ensures Verdict(MaxOf(ds)) == Identical <==> forall k :: 0 <= k < |ds| ==> ds[k] == 0.0
    ensures Verdict(MaxOf(ds)) == Similar <==> (exists k :: 0 <= k < |ds| && ds[k] > 0.0) && forall k :: 0 <= k < |ds| ==> ds[k] < 0.01
  {
    var m := MaxOf(ds);
    var j :| 0 <= j < |ds| && ds[j] == m;
  }

  /** The differences of one parameter over the given timestamps: `None` when a record is too short for its column index. */
  function Differences(times: seq<DateTime>, d1: map<DateTime, seq<string>>, d2: map<DateTime, seq<string>>,
                       i1: nat, i2: nat, toFloat: string -> Option<real>): (r: Option<seq<real>>)
    requires forall k :: 0 <= k < |times| ==> times[k] in d1 && times[k] in d2
    ensures r.Some? ==> |r.value| <= |times| && NonNegative(r.value)
  {
    if times == [] then Some([])
    else
      var n := |times| - 1;
      match Differences(times[..n], d1, d2, i1, i2, toFloat)
      case None => None
      case Some(ds) =>
        var t := times[n];
        if i1 >= |d1[t]| || i2 >= |d2[t]| then None
        else
          match CompareValues(d1[t][i1], d2[t][i2], toFloat)
          case None => Some(ds)
          case Some(c) => Some(ds + [c.0])
  }

  /** Timestamps in strictly increasing order, as `sorted` leaves distinct keys. */
  predicate Ascending(ts: seq<DateTime>)
  {
    forall i, j :: 0 <= i < j < |ts| ==> Before(ts[i], ts[j])
  }

  lemma BeforeTotal(a: DateTime, b: DateTime)
    ensures a == b || Before(a, b) || Before(b, a)
  {
  }

  lemma BeforeTransitive(a: DateTime, b: DateTime, c: DateTime)
    requires Before(a, b) && Before(b, c)
    ensures Before(a, c)
  {
  }

  /** `m` comes before every other timestamp of `s`. */
  predicate IsEarliest(m: DateTime, s: set<DateTime>)
  {
    m in s && forall x :: x in s && x != m ==> Before(m, x)
  }

  /** Every non-empty set of timestamps has an earliest one. */
  lemma {:induction false} EarliestExists(s: set<DateTime>)
    requires s != {}
    ensures exists m :: IsEarliest(m, s)
    decreases |s|
  {
    var x :| x in s;
    if s == {x} {
      assert IsEarliest(x, s);
    } else {
      EarliestExists(s - {x});
      var m :| IsEarliest(m, s - {x});
      BeforeTotal(x, m);
      if Before(x, m) {
        EarlierThanEarliest(s, x, m);
      } else {
        assert IsEarliest(m, s);
      }
    }
  }

  /** A timestamp before the earliest of the others is the earliest of all. */
  lemma EarlierThanEarliest(s: set<DateTime>, x: DateTime, m: DateTime)
    requires x in s && IsEarliest(m, s - {x}) && Before(x, m)
    ensures IsEarliest(x, s)
  {
    forall y | y in s && y != x ensures Before(x, y) {
      if y != m {
        BeforeTransitive(x, m, y);
      }
    }
  }

  /** Two increasing enumerations of the same timestamps are the same sequence. */
  lemma {:induction false} AscendingUnique(a: seq<DateTime>, b: seq<DateTime>)
    requires Ascending(a) && Ascending(b)
    requires forall t :: t in a <==> t in b
    ensures a == b
  {
    if a != [] && b != [] {
      HeadsMeet(a, b);
      forall t ensures t in a[1..] <==> t in b[1..] {
        if t in a[1..] {
          assert t != a[0] && t in b;
        }
        if t in b[1..] {
          assert t != b[0] && t in a;
        }
      }
      AscendingUnique(a[1..], b[1..]);
      assert a == [a[0]] + a[1..] && b == [b[0]] + b[1..];
    } else if a != [] {
      HeadIn(a);
      assert false;
    } else if b != [] {
      HeadIn(b);
      assert false;
    }
  }

  lemma HeadIn<T>(s: seq<T>)
    requires s != []
    ensures s[0] in s
  {
  }

  /** The first elements of two increasing enumerations of the same timestamps precede each other, which cannot be unless they are equal. */
  lemma HeadsMeet(a: seq<DateTime>, b: seq<DateTime>)
    requires Ascending(a) && Ascending(b) && a != [] && b != []
    requires forall t :: t in a <==> t in b
    ensures a[0] == b[0]
  {
    HeadIn(a);
    HeadIn(b);
    var i :| 0 <= i < |b| && b[i] == a[0];
    var j :| 0 <= j < |a| && a[j] == b[0];
    if i != 0 && j != 0 {
      BeforeTransitive(a[0], b[0], a[0]);
    }
  }

  lemma {:induction false} SortedExists(s: set<DateTime>)
    ensures exists ts :: Ascending(ts) && forall t :: t in ts <==> t in s
    decreases |s|
  {
    if s == {} {
      assert Ascending([]) && forall t :: t in [] <==> t in s;
    } else {
      EarliestExists(s);
      var m :| IsEarliest(m, s);
      SortedExists(s - {m});
      var ts :| Ascending(ts) && forall t :: t in ts <==> t in s - {m};
      var r := [m] + ts;
      forall i, j | 0 <= i < j < |r| ensures Before(r[i], r[j]) {
        if i == 0 {
          assert r[j] in ts;
        } else {
          assert r[i] == ts[i - 1] && r[j] == ts[j - 1];
        }
      }
      assert Ascending(r) && forall t :: t in r <==> t in s;
    }
  }

  /** `sorted(s)` for a set of timestamps. */
  ghost function SortedOf(s: set<DateTime>): (ts: seq<DateTime>)
    ensures Ascending(ts)
    ensures forall t :: t in ts <==> t in s
  {
    SortedExists(s);
    var ts :| Ascending(ts) && forall t :: t in ts <==> t in s;
    ts
  }

  /** `sorted(common_times)`: the set's timestamps in increasing order. */
  method SortedTimes(s: set<DateTime>) returns (ts: seq<DateTime>)
    ensures ts == SortedOf(s)
  {
    ts := [];
    var rest := s;
    while rest != {}
      invariant rest <= s
      invariant Ascending(ts)
      invariant forall t :: t in ts <==> t in s && t !in rest
      invariant forall a, b :: a in ts && b in rest ==> Before(a, b)
      decreases |rest|
    {
      EarliestExists(rest);
      var m :| IsEarliest(m, rest);
      forall i | 0 <= i < |ts| ensures Before(ts[i], m) {
        assert ts[i] in ts;
      }
      ts := ts + [m];
      rest := rest - {m};
    }
    AscendingUnique(ts, SortedOf(s));
  }

  /** The sample for the statistics: the first 100 common timestamps. */
  const SampleSize := 100

  /** The columns both exports share, without the timestamp column. */
  function ComparedColumns(h1: seq<string>, h2: seq<string>): set<string>
  {
    set c | c in h1 && c in h2 && c != "Datum + Uhrzeit"
  }

  /** The differences of a common column over the sample, with the column found by `headers.index`. */
  function ColumnDifferences(e1: Export, e2: Export, c: string, sample: seq<DateTime>, toFloat: string -> Option<real>): Option<seq<real>>
    requires c in e1.headers && c in e2.headers
    requires forall k :: 0 <= k < |sample| ==> sample[k] in e1.data && sample[k] in e2.data
  {
    Differences(sample, e1.data, e2.data, ColumnIndex(e1.headers, c).value, ColumnIndex(e2.headers, c).value, toFloat)
  }

  /** The first 100 common timestamps, in increasing order. */
  ghost function Sample(e1: Export, e2: Export): (ts: seq<DateTime>)
    ensures forall k :: 0 <= k < |ts| ==> ts[k] in e1.data && ts[k] in e2.data
  {
    var ts := Take(SortedOf(e1.data.Keys * e2.data.Keys), SampleSize);
    assert forall k :: 0 <= k < |ts| ==> ts[k] in SortedOf(e1.data.Keys * e2.data.Keys);
    ts
  }

  /** Some common column meets a record too short for its index within the sample. */
  ghost predicate SampleCrashes(e1: Export, e2: Export, toFloat: string -> Option<real>)
  {
    exists c :: c in ComparedColumns(e1.headers, e2.headers) && ColumnDifferences(e1, e2, c, Sample(e1, e2), toFloat).None?
  }

  /** The verdicts of the statistics section, for columns with at least one numeric pair. */
  ghost function Verdicts(e1: Export, e2: Export, toFloat: string -> Option<real>): map<string, Agreement>
  {
    VerdictsOver(e1, e2, ComparedColumns(e1.headers, e2.headers), Sample(e1, e2), toFloat)
  }

  /** The verdicts for the columns `cols` over the timestamps `sample`. */
  ghost function VerdictsOver(e1: Export, e2: Export, cols: set<string>, sample: seq<DateTime>,
                              toFloat: string -> Option<real>): map<string, Agreement>
    requires cols <= ComparedColumns(e1.headers, e2.headers)
    requires forall k :: 0 <= k < |sample| ==> sample[k] in e1.data && sample[k] in e2.data
  {
    map c | c in cols && ColumnDifferences(e1, e2, c, sample, toFloat).Some? &&
                ColumnDifferences(e1, e2, c, sample, toFloat).value != []
      :: Verdict(MaxOf(ColumnDifferences(e1, e2, c, sample, toFloat).value))
  }

  /** One more column adds its verdict when it has a numeric pair, and nothing otherwise. */
  lemma VerdictsStep(e1: Export, e2: Export, done: set<string>, c: string, sample: seq<DateTime>,
                     toFloat: string -> Option<real>)
    requires done <= ComparedColumns(e1.headers, e2.headers) && c in ComparedColumns(e1.headers, e2.headers)
    requires forall k :: 0 <= k < |sample| ==> sample[k] in e1.data && sample[k] in e2.data
    ensures var ds := ColumnDifferences(e1, e2, c, sample, toFloat);
      VerdictsOver(e1, e2, done + {c}, sample, toFloat) ==
        if ds.Some? && ds.value != [] then VerdictsOver(e1, e2, done, sample, toFloat)[c := Verdict(MaxOf(ds.value))]
        else VerdictsOver(e1, e2, done, sample, toFloat)
  {
  }

  /** The section runs only when the exports share a timestamp and a column name. */
  predicate Compared(e1: Export, e2: Export)
  {
    e1.data.Keys * e2.data.Keys != {} && exists c :: c in e1.headers && c in e2.headers
  }

  /**
   * The statistics section: for every common parameter with at least one
   * numeric pair in the sample, its verdict; `None` when a short record
   * makes the script crash. Without common timestamps or columns the
   * section is skipped.
   */
  method ParameterAgreement(e1: Export, e2: Export, toFloat: string -> Option<real>) returns (r: Option<map<string, Agreement>>)
    ensures !Compared(e1, e2) ==> r == Some(map[])
    ensures Compared(e1, e2) ==> (r.None? <==> SampleCrashes(e1, e2, toFloat))
    ensures Compared(e1, e2) && r.Some? ==> r.value == Verdicts(e1, e2, toFloat)
  {
    var common := e1.data.Keys * e2.data.Keys;
    if common == {} || !(exists c :: c in e1.headers && c in e2.headers) {
      return Some(map[]);
    }
    var columns := ComparedColumns(e1.headers, e2.headers);
    var sorted := SortedTimes(common);
    var sample := Take(sorted, SampleSize);
    assert sample == Sample(e1, e2);
    var verdicts: map<string, Agreement> := map[];
    var rest := columns;
    while rest != {}
      invariant rest <= columns
      invariant forall c :: c in columns - rest ==> ColumnDifferences(e1, e2, c, sample, toFloat).Some?
      invariant verdicts == VerdictsOver(e1, e2, columns - rest, sample, toFloat)
      decreases |rest|
    {
      var c :| c in rest;
      ghost var done := columns - rest;
      rest := rest - {c};
      assert columns - rest == done + {c};
      var ds := ColumnDifferences(e1, e2, c, sample, toFloat);
      if ds.None? {
        return None;
      }
      VerdictsStep(e1, e2, done, c, sample, toFloat);
      var a := ClassifyDifferences(ds.value);
      if a.Some? {
        verdicts := verdicts[c := a.value];
      }
    }
    r := Some(verdicts);
  }

  // ---------------------------------------------------------------------
  // The same readings under different names
  // ---------------------------------------------------------------------

  /** `\w`: letters, digits and '_', among them the German umlauts and ß and the superscripts of m² and m³. */
  predicate IsWordChar(c: char)
  {
    'a' <= c <= 'z' || 'A' <= c <= 'Z' || '0' <= c <= '9' || c == '_' ||
    c == 'ä' || c == 'ö' || c == 'ü' || c == 'Ä' || c == 'Ö' || c == 'Ü' || c == 'ß' || c == '²' || c == '³'
  }

  /** Length of the leading run of word characters. */
  function WordLength(s: string): (n: nat)
    ensures n <= |s|
    ensures forall i :: 0 <= i < n ==> IsWordChar(s[i])
    ensures n < |s| ==> !IsWordChar(s[n])
  {
    if s == [] || !IsWordChar(s[0]) then 0 else 1 + WordLength(s[1..])
  }

  /** `re.findall(r'\b\w+\b', s)`: the maximal runs of word characters, in order. */
  function WordTokens(s: string): (ws: seq<string>)
    ensures forall k :: 0 <= k < |ws| ==> |ws[k]| > 0 && forall i :: 0 <= i < |ws[k]| ==> IsWordChar(ws[k][i])
    decreases |s|
  {
    if s == [] then []
    else if !IsWordChar(s[0]) then WordTokens(s[1..])
    else
      var n := WordLength(s);
      [s[..n]] + WordTokens(s[n..])
  }

  /** The keyword set of a column name. */
  function Keywords(name: string): set<string>
  {
    set w | w in WordTokens(Lower(name))
  }

  /** Two different names sharing at least three keywords are a candidate pair. */
  predicate Candidate(c1: string, c2: string)
  {
    c1 != c2 && |Keywords(c1) * Keywords(c2)| >= 3
  }

  /** A candidate pair is symmetric. */
  lemma CandidateSymmetric(c1: string, c2: string)
    ensures Candidate(c1, c2) <==> Candidate(c2, c1)
  {
    assert Keywords(c1) * Keywords(c2) == Keywords(c2) * Keywords(c1);
  }

  /** Both records are long enough for the two columns' first indices. */
  predicate InRecords(h1: seq<string>, h2: seq<string>, c1: string, c2: string, sample: Option<(seq<string>, seq<string>)>)
    requires c1 in h1 && c2 in h2
  {
    sample.Some? && ColumnIndex(h1, c1).value < |sample.value.0| && ColumnIndex(h2, c2).value < |sample.value.1|
  }

  /** The two columns read the same number at the sampled timestamp. */
  predicate EqualReadings(h1: seq<string>, h2: seq<string>, c1: string, c2: string, sample: Option<(seq<string>, seq<string>)>,
                          toFloat: string -> Option<real>)
    requires c1 in h1 && c2 in h2
  {
    InRecords(h1, h2, c1, c2, sample) &&
    var v1 := sample.value.0[ColumnIndex(h1, c1).value];
    var v2 := sample.value.1[ColumnIndex(h2, c2).value];
    ConvertGermanNumber(v1, toFloat).Some? && ConvertGermanNumber(v1, toFloat) == ConvertGermanNumber(v2, toFloat)
  }

  /**
   * The check of one pair at the first common timestamp: `Some(true)` for a
   * mapping (equal numbers), `Some(false)` for none, `None` when a record
   * is too short for a column index.
   */
  function MappingCheck(h1: seq<string>, h2: seq<string>, c1: string, c2: string, sample: Option<(seq<string>, seq<string>)>,
                        toFloat: string -> Option<real>): (r: Option<bool>)
    requires c1 in h1 && c2 in h2
    ensures r == Some(true) <==> Candidate(c1, c2) && EqualReadings(h1, h2, c1, c2, sample, toFloat)
    ensures r.None? <==> Candidate(c1, c2) && sample.Some? && !InRecords(h1, h2, c1, c2, sample)
  {
    if !Candidate(c1, c2) || sample.None? then Some(false)
    else
      var i1, i2 := ColumnIndex(h1, c1).value, ColumnIndex(h2, c2).value;
      var (row1, row2) := sample.value;
      if i1 >= |row1| || i2 >= |row2| then None
      else
        var cmp := CompareValues(row1[i1], row2[i2], toFloat);
        Some(cmp.Some? && cmp.value.0 == 0.0)
  }

  /** The check of every name of the second header against `c1`, in header order. */
  function Checks(h1: seq<string>, h2: seq<string>, c1: string, sample: Option<(seq<string>, seq<string>)>,
                  toFloat: string -> Option<real>): (r: seq<Option<bool>>)
    requires c1 in h1
    ensures |r| == |h2|
    ensures forall j :: 0 <= j < |h2| ==> r[j] == MappingCheck(h1, h2, c1, h2[j], sample, toFloat)
  {
    seq(|h2|, j requires 0 <= j < |h2| => MappingCheck(h1, h2, c1, h2[j], sample, toFloat))
  }

  /** The inner loop over the first `n` names: a failed check ends it, a hit appends the pair. */
  function Collect(c1: string, names: seq<string>, checks: seq<Option<bool>>, n: nat): Option<seq<(string, string)>>
    requires n <= |names| == |checks|
  {
    if n == 0 then Some([])
    else
      match Collect(c1, names, checks, n - 1)
      case None => None
      case Some(found) =>
        match checks[n - 1]
        case None => None
        case Some(hit) => Some(if hit then found + [(c1, names[n - 1])] else found)
  }

  /** The pairs found for `c1` against the first `n` names of the second header. */
  function MappingsFor(h1: seq<string>, h2: seq<string>, c1: string, n: nat, sample: Option<(seq<string>, seq<string>)>,
                       toFloat: string -> Option<real>): Option<seq<(string, string)>>
    requires c1 in h1 && n <= |h2|
  {
    Collect(c1, h2, Checks(h1, h2, c1, sample, toFloat), n)
  }

  /** The inner loop's result for every name of the first header, in header order. */
  function PerColumn(h1: seq<string>, h2: seq<string>, sample: Option<(seq<string>, seq<string>)>,
                     toFloat: string -> Option<real>): (r: seq<Option<seq<(string, string)>>>)
    ensures |r| == |h1|
    ensures forall i :: 0 <= i < |h1| ==> r[i] == MappingsFor(h1, h2, h1[i], |h2|, sample, toFloat)
  {
    seq(|h1|, i requires 0 <= i < |h1| => MappingsFor(h1, h2, h1[i], |h2|, sample, toFloat))
  }

  /** The outer loop over the first `n` results: a failed inner loop ends it, otherwise its pairs are appended. */
  function Join<T>(results: seq<Option<seq<T>>>, n: nat): Option<seq<T>>
    requires n <= |results|
  {
    if n == 0 then Some([])
    else
      match Join(results, n - 1)
      case None => None
      case Some(found) =>
        match results[n - 1]
        case None => None
        case Some(more) => Some(found + more)
  }

  /** The pairs found for the first `n` names of the first header, in the order of the nested loops. */
  function Mappings(h1: seq<string>, h2: seq<string>, n: nat, sample: Option<(seq<string>, seq<string>)>,
                    toFloat: string -> Option<real>): Option<seq<(string, string)>>
    requires n <= |h1|
  {
    Join(PerColumn(h1, h2, sample, toFloat), n)
  }

  /** Every reported pair has different names, three shared keywords, and equal readings. */
  lemma MappingsSound(h1: seq<string>, h2: seq<string>, n: nat, sample: Option<(seq<string>, seq<string>)>,
                      toFloat: string -> Option<real>, p: (string, string))
    requires n <= |h1|
    requires Mappings(h1, h2, n, sample, toFloat).Some? && p in Mappings(h1, h2, n, sample, toFloat).value
    ensures p.0 in h1 && p.1 in h2 && Candidate(p.0, p.1) && sample.Some?
    ensures p.0 in h1 && p.1 in h2 && EqualReadings(h1, h2, p.0, p.1, sample, toFloat)
  {
    var i := JoinSound(PerColumn(h1, h2, sample, toFloat), n, p);
    MappingsForSound(h1, h2, h1[i], |h2|, sample, toFloat, p);
  }

  /** A pair of the outer loop's result comes from one of the inner loops, whose index is `i`. */
  lemma {:induction false} JoinSound<T>(results: seq<Option<seq<T>>>, n: nat, p: T) returns (i: nat)
    requires n <= |results|
    requires Join(results, n).Some? && p in Join(results, n).value
    ensures i < n && results[i].Some? && p in results[i].value
  {
    if p in Join(results, n - 1).value {
      i := JoinSound(results, n - 1, p);
    } else {
      i := n - 1;
    }
  }

  /** A pair of the inner loop's result pairs `c1` with the name at `j`, whose check was a hit. */
  lemma {:induction false} CollectSound(c1: string, names: seq<string>, checks: seq<Option<bool>>, n: nat,
                                        p: (string, string)) returns (j: nat)
    requires n <= |names| == |checks|
    requires Collect(c1, names, checks, n).Some? && p in Collect(c1, names, checks, n).value
    ensures j < n && p == (c1, names[j]) && checks[j] == Some(true)
  {
    if p in Collect(c1, names, checks, n - 1).value {
      j := CollectSound(c1, names, checks, n - 1, p);
    } else {
      j := n - 1;
    }
  }

  lemma MappingsForSound(h1: seq<string>, h2: seq<string>, c1: string, n: nat, sample: Option<(seq<string>, seq<string>)>,
                         toFloat: string -> Option<real>, p: (string, string))
    requires c1 in h1 && n <= |h2|
    requires MappingsFor(h1, h2, c1, n, sample, toFloat).Some? && p in MappingsFor(h1, h2, c1, n, sample, toFloat).value
    ensures p.0 == c1 && p.1 in h2 && Candidate(p.0, p.1) && sample.Some?
    ensures p.1 in h2 && EqualReadings(h1, h2, c1, p.1, sample, toFloat)
  {
    var j := CollectSound(c1, h2, Checks(h1, h2, c1, sample, toFloat), n, p);
    assert MappingCheck(h1, h2, c1, h2[j], sample, toFloat) == Some(true);
  }

  /**
   * When the nested loops finish, every candidate pair whose readings are
   * equal at the sampled timestamp has been reported.
   */
  lemma MappingsComplete(h1: seq<string>, h2: seq<string>, sample: Option<(seq<string>, seq<string>)>,
                         toFloat: string -> Option<real>, i: nat, j: nat)
    requires Mappings(h1, h2, |h1|, sample, toFloat).Some?
    requires i < |h1| && j < |h2| && Candidate(h1[i], h2[j]) && EqualReadings(h1, h2, h1[i], h2[j], sample, toFloat)
    ensures (h1[i], h2[j]) in Mappings(h1, h2, |h1|, sample, toFloat).value
  {
    var results := PerColumn(h1, h2, sample, toFloat);
    JoinComplete(results, |h1|, i);
    var checks := Checks(h1, h2, h1[i], sample, toFloat);
    CollectComplete(h1[i], h2, checks, |h2|, j);
  }

  /** A finished outer loop holds every inner loop's pairs. */
  lemma {:induction false} JoinComplete<T>(results: seq<Option<seq<T>>>, n: nat, i: nat)
    requires n <= |results| && Join(results, n).Some? && i < n
    ensures results[i].Some? && forall p :: p in results[i].value ==> p in Join(results, n).value
  {
    if i < n - 1 {
      JoinComplete(results, n - 1, i);
    }
  }

  /** A finished inner loop holds the pair of every hit. */
  lemma {:induction false} CollectComplete(c1: string, names: seq<string>, checks: seq<Option<bool>>, n: nat, j: nat)
    requires n <= |names| == |checks| && Collect(c1, names, checks, n).Some? && j < n && checks[j] == Some(true)
    ensures (c1, names[j]) in Collect(c1, names, checks, n).value
  {
    if j < n - 1 {
      CollectComplete(c1, names, checks, n - 1, j);
    }
  }

  /** The first common timestamp's two records, if the exports share one. */
  ghost function SampleRows(e1: Export, e2: Export): Option<(seq<string>, seq<string>)>
  {
    var common := e1.data.Keys * e2.data.Keys;
    if common == {} then None
    else
      var ts := SortedOf(common);
      var x :| x in common;
      assert x in ts;
      var t := ts[0];
      assert t in ts;
      Some((e1.data[t], e2.data[t]))
  }

  /** `sorted(common_times_1_2)[0]` and the two records filed under it. */
  method FirstCommonRows(e1: Export, e2: Export) returns (sample: Option<(seq<string>, seq<string>)>)
    ensures sample == SampleRows(e1, e2)
  {
    var common := e1.data.Keys * e2.data.Keys;
    if common == {} {
      return None;
    }
    var sorted := SortedTimes(common);
    var x :| x in common;
    assert x in sorted;
    var t := sorted[0];
    assert t in sorted;
    sample := Some((e1.data[t], e2.data[t]));
  }

  /** The inner loop: the names of the second header paired with `c1`. */
  method FindMappingsFor(h1: seq<string>, h2: seq<string>, c1: string, sample: Option<(seq<string>, seq<string>)>,
                         toFloat: string -> Option<real>) returns (r: Option<seq<(string, string)>>)
    requires c1 in h1
    ensures r == MappingsFor(h1, h2, c1, |h2|, sample, toFloat)
  {
    var stop, more := ScanMappingsFor(h1, h2, c1, sample, toFloat);
    if stop < |h2| {
      r := None;
    } else {
      r := Some(more);
    }
  }

  /**
   * The inner loop's pass over the second header, left at the first check
   * that fails (`stop`, or the length of the header when none does, and
   * then the whole loop fails), with the pairs found before it.
   */
  method ScanMappingsFor(h1: seq<string>, h2: seq<string>, c1: string, sample: Option<(seq<string>, seq<string>)>,
                         toFloat: string -> Option<real>) returns (stop: nat, more: seq<(string, string)>)
    requires c1 in h1
    ensures stop <= |h2| && MappingsFor(h1, h2, c1, stop, sample, toFloat) == Some(more)
    ensures stop < |h2| ==> MappingsFor(h1, h2, c1, |h2|, sample, toFloat).None?
  {
    more := [];
    stop := 0;
    while stop < |h2|
      invariant 0 <= stop <= |h2|
      invariant MappingsFor(h1, h2, c1, stop, sample, toFloat) == Some(more)
    {
      var ok, next := MappingStep(h1, h2, c1, stop, sample, toFloat, more);
      if !ok {
        NoneStaysFor(h1, h2, c1, stop + 1, sample, toFloat);
        return;
      }
      more := next;
      stop := stop + 1;
    }
  }

  /** One pass of the inner loop: check the pair of `c1` with the name at `j`, and append it on a hit; `ok` is false when the check fails. */
  method MappingStep(h1: seq<string>, h2: seq<string>, c1: string, j: nat, sample: Option<(seq<string>, seq<string>)>,
                     toFloat: string -> Option<real>, more: seq<(string, string)>) returns (ok: bool, next: seq<(string, string)>)
    requires c1 in h1 && j < |h2| && MappingsFor(h1, h2, c1, j, sample, toFloat) == Some(more)
    ensures ok ==> MappingsFor(h1, h2, c1, j + 1, sample, toFloat) == Some(next)
    ensures !ok ==> MappingsFor(h1, h2, c1, j + 1, sample, toFloat).None?
  {
    var hit := MappingCheck(h1, h2, c1, h2[j], sample, toFloat);
    assert Checks(h1, h2, c1, sample, toFloat)[j] == hit;
    ok, next := hit.Some?, more;
    if hit == Some(true) {
      next := more + [(c1, h2[j])];
    }
  }

  /**
   * Section 5 of the script: the nested loops over both headers that
   * collect the pairs with equal readings at the first common timestamp.
   */
  method FindMappings(e1: Export, e2: Export, toFloat: string -> Option<real>) returns (r: Option<seq<(string, string)>>)
    ensures r == Mappings(e1.headers, e2.headers, |e1.headers|, SampleRows(e1, e2), toFloat)
  {
    var sample := FirstCommonRows(e1, e2);
    var stop, found := ScanMappings(e1.headers, e2.headers, sample, toFloat);
    if stop < |e1.headers| {
      r := None;
    } else {
      r := Some(found);
    }
  }

  /**
   * The outer loop over the first header, left at the first inner loop that
   * fails (`stop`, or the length of the header when none does, and then
   * the whole search fails), with the pairs found before it.
   */
  method ScanMappings(h1: seq<string>, h2: seq<string>, sample: Option<(seq<string>, seq<string>)>,
                      toFloat: string -> Option<real>) returns (stop: nat, found: seq<(string, string)>)
    ensures stop <= |h1| && Mappings(h1, h2, stop, sample, toFloat) == Some(found)
    ensures stop < |h1| ==> Mappings(h1, h2, |h1|, sample, toFloat).None?
  {
    found := [];
    stop := 0;
    while stop < |h1|
      invariant 0 <= stop <= |h1|
      invariant Mappings(h1, h2, stop, sample, toFloat) == Some(found)
    {
      var ok, next := ColumnStep(h1, h2, stop, sample, toFloat, found);
      if !ok {
        NoneStays(h1, h2, stop + 1, sample, toFloat);
        return;
      }
      found := next;
      stop := stop + 1;
    }
  }

  /** One pass of the outer loop: the inner loop for the name at `i`, its pairs appended; `ok` is false when it fails. */
  method ColumnStep(h1: seq<string>, h2: seq<string>, i: nat, sample: Option<(seq<string>, seq<string>)>,
                    toFloat: string -> Option<real>, found: seq<(string, string)>) returns (ok: bool, next: seq<(string, string)>)
    requires i < |h1| && Mappings(h1, h2, i, sample, toFloat) == Some(found)
    ensures ok ==> Mappings(h1, h2, i + 1, sample, toFloat) == Some(next)
    ensures !ok ==> Mappings(h1, h2, i + 1, sample, toFloat).None?
  {
    var more := FindMappingsFor(h1, h2, h1[i], sample, toFloat);
    assert PerColumn(h1, h2, sample, toFloat)[i] == more;
    ok, next := more.Some?, found;
    if more.Some? {
      next := found + more.value;
    }
  }

  lemma NoneStaysFor(h1: seq<string>, h2: seq<string>, c1: string, n: nat, sample: Option<(seq<string>, seq<string>)>,
                      toFloat: string -> Option<real>)
    requires c1 in h1 && n <= |h2|
    requires MappingsFor(h1, h2, c1, n, sample, toFloat).None?
    ensures MappingsFor(h1, h2, c1, |h2|, sample, toFloat).None?
  {
    CollectNoneStays(c1, h2, Checks(h1, h2, c1, sample, toFloat), n, |h2|);
  }

  /** Once a check has failed, the inner loop's result stays `None`. */
  lemma {:induction false} CollectNoneStays(c1: string, names: seq<string>, checks: seq<Option<bool>>, n: nat, m: nat)
    requires n <= m <= |names| == |checks|
    requires Collect(c1, names, checks, n).None?
    ensures Collect(c1, names, checks, m).None?
  {
    if n < m {
      CollectNoneStays(c1, names, checks, n, m - 1);
    }
  }

  lemma NoneStays(h1: seq<string>, h2: seq<string>, n: nat, sample: Option<(seq<string>, seq<string>)>,
                   toFloat: string -> Option<real>)
    requires n <= |h1|
    requires Mappings(h1, h2, n, sample, toFloat).None?
    ensures Mappings(h1, h2, |h1|, sample, toFloat).None?
  {
    JoinNoneStays(PerColumn(h1, h2, sample, toFloat), n, |h1|);
  }

  /** Once an inner loop has failed, the outer loop's result stays `None`. */
  lemma {:induction false} JoinNoneStays<T>(results: seq<Option<seq<T>>>, n: nat, m: nat)
    requires n <= m <= |results|
    requires Join(results, n).None?
    ensures Join(results, m).None?
  {
    if n < m {
      JoinNoneStays(results, n, m - 1);
    }
  }
}
