/**
 * The survey of the FIS_Inhauser monitoring exports
 * (scripts/analyze_fis_inhauser.py): the tolerant CSV reader that tries
 * separators and encodings until a read looks right, the detection and
 * parsing of the time columns, the grouping of the measured parameters into
 * six kinds, and the per-sheet summary of a workbook. Reading a file is a
 * parameter: the outcome of `pd.read_csv` for a separator and an encoding.
 */
module FisInhauser {
  import opened Strings
  import opened Frame
  import opened Columns
  import Categories
  import Spans

  // ---------------------------------------------------------------------
  // read_csv_flexible
  // ---------------------------------------------------------------------

  datatype Encoding = Utf8 | Cp1252 | Iso8859 | Latin1

  /** The encodings of the inner loop, the separators of the outer one, and the decimal-comma retries. */
  const Encodings: seq<Encoding> := [Utf8, Cp1252, Iso8859, Latin1]
  const Separators: seq<char> := [',', ';', '\t']
  const DecimalSeparators: seq<char> := [';', '\t']

  /**
   * The test a read with separator `sep` must pass: several columns, or a
   * single column whose name does not contain the separator (a header that
   * the separator failed to split is rejected).
   */
  predicate Accepted(t: Table, sep: char)
  {
    |t.columns| > 1 || (|t.columns| == 1 && sep !in t.columns[0])
  }

  predicate Acceptable(o: ReadOutcome, sep: char)
  {
    o.Loaded? && Accepted(o.table, sep)
  }

  /** A read of the decimal-comma retries counts only with more than one column. */
  predicate Wide(o: ReadOutcome)
  {
    o.Loaded? && |o.table.columns| > 1
  }

  /** The first of the first `n` encodings whose read with `sep` is accepted. */
  function FirstEncoding(sep: char, encs: seq<Encoding>, read: (char, Encoding) -> ReadOutcome, n: nat): (r: Option<nat>)
    requires n <= |encs|
    ensures r.Some? ==> r.value < n && Acceptable(read(sep, encs[r.value]), sep)
    ensures r.Some? ==> forall i :: 0 <= i < r.value ==> !Acceptable(read(sep, encs[i]), sep)
    ensures r.None? <==> forall i :: 0 <= i < n ==> !Acceptable(read(sep, encs[i]), sep)
  {
    if n == 0 then None
    else
      match FirstEncoding(sep, encs, read, n - 1)
      case Some(k) => Some(k)
      case None => if Acceptable(read(sep, encs[n - 1]), sep) then Some(n - 1) else None
  }

  /**
   * The first accepted (separator, encoding) pair among the first `m`
   * separators, in loop order: separator outside, encoding inside.
   */
  function FirstAttempt(seps: seq<char>, encs: seq<Encoding>, read: (char, Encoding) -> ReadOutcome, m: nat): (r: Option<(nat, nat)>)
    requires m <= |seps|
    ensures r.Some? ==> r.value.0 < m && r.value.1 < |encs|
    ensures r.Some? ==> Acceptable(read(seps[r.value.0], encs[r.value.1]), seps[r.value.0])
    ensures r.Some? ==> forall s, e :: 0 <= s < r.value.0 && 0 <= e < |encs| ==> !Acceptable(read(seps[s], encs[e]), seps[s])
    ensures r.Some? ==> forall e :: 0 <= e < r.value.1 ==> !Acceptable(read(seps[r.value.0], encs[e]), seps[r.value.0])
    ensures r.None? <==> forall s, e :: 0 <= s < m && 0 <= e < |encs| ==> !Acceptable(read(seps[s], encs[e]), seps[s])
  {
    if m == 0 then None
    else
      match FirstAttempt(seps, encs, read, m - 1)
      case Some(p) => Some(p)
      case None =>
        match FirstEncoding(seps[m - 1], encs, read, |encs|)
        case Some(k) => Some((m - 1, k))
        case None => None
  }

  /** The first of the first `m` decimal-comma retries that reads several columns. */
  function FirstWide(seps: seq<char>, readDecimal: char -> ReadOutcome, m: nat): (r: Option<nat>)
    requires m <= |seps|
    ensures r.Some? ==> r.value < m && Wide(readDecimal(seps[r.value]))
    ensures r.Some? ==> forall i :: 0 <= i < r.value ==> !Wide(readDecimal(seps[i]))
    ensures r.None? <==> forall i :: 0 <= i < m ==> !Wide(readDecimal(seps[i]))
  {
    if m == 0 then None
    else
      match FirstWide(seps, readDecimal, m - 1)
      case Some(k) => Some(k)
      case None => if Wide(readDecimal(seps[m - 1])) then Some(m - 1) else None
  }

  /**
   * What the reader returns: the frame of the first accepted attempt of the
   * main search, else that of the first wide decimal-comma retry, else None.
   */
  function Flexible(seps: seq<char>, encs: seq<Encoding>, wideSeps: seq<char>,
                    read: (char, Encoding) -> ReadOutcome, readDecimal: char -> ReadOutcome): Option<Table>
  {
    match FirstAttempt(seps, encs, read, |seps|)
    case Some(p) => Some(read(seps[p.0], encs[p.1]).table)
    case None =>
      match FirstWide(wideSeps, readDecimal, |wideSeps|)
      case Some(k) => Some(readDecimal(wideSeps[k]).table)
      case None => None
  }

  /**
   * Once an attempt among the first `m` separators is accepted, later
   * separators are never tried: the first accepted pair is the same.
   */
  lemma FirstAttemptStays(seps: seq<char>, encs: seq<Encoding>, read: (char, Encoding) -> ReadOutcome, m: nat, n: nat)
    requires m <= n <= |seps| && FirstAttempt(seps, encs, read, m).Some?
    ensures FirstAttempt(seps, encs, read, n) == FirstAttempt(seps, encs, read, m)
  {
    var p := FirstAttempt(seps, encs, read, m).value;
    assert Acceptable(read(seps[p.0], encs[p.1]), seps[p.0]);
    assert FirstAttempt(seps, encs, read, n).Some?;
    var q := FirstAttempt(seps, encs, read, n).value;
    assert q.0 == p.0;
    assert q.1 == p.1;
  }

  /** Once a retry among the first `m` is wide, later retries are never tried. */
  lemma {:induction false} FirstWideStays(seps: seq<char>, readDecimal: char -> ReadOutcome, m: nat, n: nat)
    requires m <= n <= |seps| && FirstWide(seps, readDecimal, m).Some?
    ensures FirstWide(seps, readDecimal, n) == FirstWide(seps, readDecimal, m)
    decreases n
  {
    if m < n {
      FirstWideStays(seps, readDecimal, m, n - 1);
    }
  }

  /** The encoding loop for one separator: the first accepted frame, if any. */
  method TryEncodings(sep: char, encs: seq<Encoding>, read: (char, Encoding) -> ReadOutcome) returns (df: Option<Table>)
    ensures df.None? <==> FirstEncoding(sep, encs, read, |encs|).None?
    ensures df.Some? ==> df == Some(read(sep, encs[FirstEncoding(sep, encs, read, |encs|).value]).table)
  {
    for e := 0 to |encs|
      invariant FirstEncoding(sep, encs, read, e).None?
    {
      var o := read(sep, encs[e]);
      if o.Loaded? && Accepted(o.table, sep) {
        return Some(o.table);
      }
    }
    return None;
  }

  /**
   * `read_csv_flexible` over the given separators, encodings and
   * decimal-comma separators (the constants above); a `Raised` outcome is
   * the `except: continue` branch.
   */
  method ReadCsvFlexible(seps: seq<char>, encs: seq<Encoding>, wideSeps: seq<char>,
                         read: (char, Encoding) -> ReadOutcome, readDecimal: char -> ReadOutcome) returns (df: Option<Table>)
    ensures df == Flexible(seps, encs, wideSeps, read, readDecimal)
  {
    for s := 0 to |seps|
      invariant FirstAttempt(seps, encs, read, s).None?
    {
      var found := TryEncodings(seps[s], encs, read);
      if found.Some? {
        FirstAttemptStays(seps, encs, read, s + 1, |seps|);
        return found;
      }
    }
    for w := 0 to |wideSeps|
      invariant FirstWide(wideSeps, readDecimal, w).None?
    {
      var o := readDecimal(wideSeps[w]);
      if o.Loaded? && |o.table.columns| > 1 {
        FirstWideStays(wideSeps, readDecimal, w + 1, |wideSeps|);
        return Some(o.table);
      }
    }
    return None;
  }

  /**
   * The frame returned passed the test it was read under: accepted with its
   * separator in the main search, or several columns in a retry; and None
   * only when no attempt of either phase passed.
   */
  lemma FlexibleAccepts(seps: seq<char>, encs: seq<Encoding>, wideSeps: seq<char>,
                        read: (char, Encoding) -> ReadOutcome, readDecimal: char -> ReadOutcome)
    ensures Flexible(seps, encs, wideSeps, read, readDecimal).Some? ==>
      |Flexible(seps, encs, wideSeps, read, readDecimal).value.columns| >= 1
    ensures Flexible(seps, encs, wideSeps, read, readDecimal).None? <==>
      (forall s, e :: 0 <= s < |seps| && 0 <= e < |encs| ==> !Acceptable(read(seps[s], encs[e]), seps[s]))
      && (forall i :: 0 <= i < |wideSeps| ==> !Wide(readDecimal(wideSeps[i])))
  {
  }

  /** A single-column frame is returned only when its one name lacks the separator it was read with. */
  lemma SingleColumnKeepsNoSeparator(seps: seq<char>, encs: seq<Encoding>, wideSeps: seq<char>,
                                     read: (char, Encoding) -> ReadOutcome, readDecimal: char -> ReadOutcome)
    requires Flexible(seps, encs, wideSeps, read, readDecimal).Some?
    requires |Flexible(seps, encs, wideSeps, read, readDecimal).value.columns| == 1
    ensures FirstAttempt(seps, encs, read, |seps|).Some?
    ensures seps[FirstAttempt(seps, encs, read, |seps|).value.0] !in Flexible(seps, encs, wideSeps, read, readDecimal).value.columns[0]
  {
  }

  // ---------------------------------------------------------------------
  // Time columns
  // ---------------------------------------------------------------------

  const DateTerms: seq<string> := ["date", "datum", "zeit", "time", "timestamp"]

  /** A column is a time column when its lowercased name contains one of the terms. */
  predicate IsDatetimeName(col: string)
  {
    ContainsAny(Lower(col), DateTerms)
  }

  /** `timestamp` adds nothing to the list: every name containing it contains `time`. */
  lemma TimestampTermRedundant(col: string)
    ensures IsDatetimeName(col) <==> ContainsAny(Lower(col), ["date", "datum", "zeit", "time"])
  {
    var s := Lower(col);
    if Contains(s, "timestamp") {
      ContainsPrefixOf(s, "timestamp", "time");
      assert Contains(s, "time");
    }
    if IsDatetimeName(col) {
      var k :| k in DateTerms && Contains(s, k);
      if k == "timestamp" {
        assert "time" in ["date", "datum", "zeit", "time"];
      } else {
        assert k in ["date", "datum", "zeit", "time"];
      }
    }
  }

  /** The time columns, in column order. */
  function DatetimeColumns(cols: seq<string>): (r: seq<string>)
    ensures |r| <= |cols|
    ensures forall c :: c in r <==> c in cols && IsDatetimeName(c)
  {
    if cols == [] then []
    else
      var init := cols[..|cols| - 1];
      var last := cols[|cols| - 1];
      assert cols == init + [last];
      DatetimeColumns(init) + (if IsDatetimeName(last) then [last] else [])
  }

  /** The loop collecting the time columns. */
  method CollectDatetimeColumns(cols: seq<string>) returns (r: seq<string>)
    ensures r == DatetimeColumns(cols)
  {
    r := [];
    for i := 0 to |cols|
      invariant r == DatetimeColumns(cols[..i])
    {
      assert cols[..i + 1][..i] == cols[..i];
      if IsDatetimeName(cols[i]) {
        r := r + [cols[i]];
      }
    }
    assert cols[..|cols|] == cols;
  }

  const Formats: seq<string> := ["%d.%m.%Y %H:%M:%S", "%Y-%m-%d %H:%M:%S", "%d.%m.%Y %H:%M", "%m/%d/%Y %H:%M"]

  /**
   * The first of the first `n` formats that parses the whole column;
   * `parse(fmt, cells)` is `pd.to_datetime(cells, format=fmt)`, None when it raises.
   */
  function FirstFormat(formats: seq<string>, cells: seq<Cell>, parse: (string, seq<Cell>) -> Option<seq<Option<int>>>, n: nat): (r: Option<nat>)
    requires n <= |formats|
    ensures r.Some? ==> r.value < n && parse(formats[r.value], cells).Some?
    ensures r.Some? ==> forall i :: 0 <= i < r.value ==> parse(formats[i], cells).None?
    ensures r.None? <==> forall i :: 0 <= i < n ==> parse(formats[i], cells).None?
  {
    if n == 0 then None
    else
      match FirstFormat(formats, cells, parse, n - 1)
      case Some(k) => Some(k)
      case None => if parse(formats[n - 1], cells).Some? then Some(n - 1) else None
  }

  /** The column after the format loop: parsed with the first format that works, or None when none does. */
  function Parsed(formats: seq<string>, cells: seq<Cell>, parse: (string, seq<Cell>) -> Option<seq<Option<int>>>): Option<seq<Option<int>>>
  {
    match FirstFormat(formats, cells, parse, |formats|)
    case Some(k) => parse(formats[k], cells)
    case None => None
  }

  /** The format loop for one column. */
  method TryFormats(formats: seq<string>, cells: seq<Cell>, parse: (string, seq<Cell>) -> Option<seq<Option<int>>>)
    returns (ts: Option<seq<Option<int>>>)
    ensures ts == Parsed(formats, cells, parse)
  {
    for f := 0 to |formats|
      invariant FirstFormat(formats, cells, parse, f).None?
    {
      var attempt := parse(formats[f], cells);
      if attempt.Some? {
        return attempt;
      }
    }
    return None;
  }

  /** What `info` holds about time: nothing, a range of `NaT`s, or the first and last stamp. */
  datatype TimeRecord = NoTime | NaTRange | Range(start: int, end: int)

  function RecordOf(ts: seq<Option<int>>): (r: TimeRecord)
    ensures r != NoTime
    ensures r == NaTRange <==> forall i :: 0 <= i < |ts| ==> ts[i].None?
    ensures r.Range? <==> exists i :: 0 <= i < |ts| && ts[i].Some?
    ensures r.Range? ==> Spans.TimeRange(ts) == Some((r.start, r.end))
    ensures r.Range? ==> r.start <= r.end
    ensures r.Range? ==> forall i :: 0 <= i < |ts| && ts[i].Some? ==> r.start <= ts[i].value <= r.end
  {
    match Spans.TimeRange(ts)
    case None => NaTRange
    case Some(range) => Range(range.0, range.1)
  }

  /** The cells of the time columns, in column order. */
  function DatetimeCells(t: Table, dtCols: seq<string>): (r: seq<seq<Cell>>)
    requires forall i :: 0 <= i < |dtCols| ==> dtCols[i] in t.columns
    ensures |r| == |dtCols|
    ensures forall i :: 0 <= i < |dtCols| ==> r[i] == Named(t, dtCols[i])
  {
    seq(|dtCols|, i requires 0 <= i < |dtCols| => Named(t, dtCols[i]))
  }

  /** Every time column after the format loop, in column order. */
  function ParsedColumns(cells: seq<seq<Cell>>, formats: seq<string>,
                         parse: (string, seq<Cell>) -> Option<seq<Option<int>>>): (r: seq<Option<seq<Option<int>>>>)
    ensures |r| == |cells|
    ensures forall i :: 0 <= i < |cells| ==> r[i] == Parsed(formats, cells[i], parse)
  {
    seq(|cells|, i requires 0 <= i < |cells| => Parsed(formats, cells[i], parse))
  }

  /** The last of the first `n` columns that parsed. */
  function LastParsed(results: seq<Option<seq<Option<int>>>>, n: nat): (r: Option<nat>)
    requires n <= |results|
    ensures r.Some? ==> r.value < n && results[r.value].Some?
    ensures r.Some? ==> forall i :: r.value < i < n ==> results[i].None?
    ensures r.None? <==> forall i :: 0 <= i < n ==> results[i].None?
  {
    if n == 0 then None
    else if results[n - 1].Some? then Some(n - 1)
    else LastParsed(results, n - 1)
  }

  /**
   * `time_start`/`time_end` after the first `n` time columns: every column
   * that parses overwrites them, so they come from the last one that did.
   */
  function TimeAfter(results: seq<Option<seq<Option<int>>>>, n: nat): TimeRecord
    requires n <= |results|
  {
    if n == 0 then NoTime
    else if results[n - 1].Some? then RecordOf(results[n - 1].value)
    else TimeAfter(results, n - 1)
  }

  /** The record comes from the last column that parsed, and is empty when none did. */
  lemma {:induction false} TimeAfterIsLastParsed(results: seq<Option<seq<Option<int>>>>, n: nat)
    requires n <= |results|
    ensures TimeAfter(results, n) == match LastParsed(results, n)
      case None => NoTime
      case Some(k) => RecordOf(results[k].value)
  {
    if n > 0 && results[n - 1].None? {
      TimeAfterIsLastParsed(results, n - 1);
    }
  }

  /**
   * The record is empty exactly when no column parsed, and a range of `NaT`s
   * exactly when the last column that parsed holds no stamp at all.
   */
  lemma NoTimeIffNoneParsed(results: seq<Option<seq<Option<int>>>>, n: nat)
    requires n <= |results|
    ensures TimeAfter(results, n) == NoTime <==> forall i :: 0 <= i < n ==> results[i].None?
    ensures TimeAfter(results, n) == NaTRange <==>
      exists k :: 0 <= k < n && results[k].Some? && (forall i :: k < i < n ==> results[i].None?)
        && forall j :: 0 <= j < |results[k].value| ==> results[k].value[j].None?
  {
    TimeAfterIsLastParsed(results, n);
    if TimeAfter(results, n) == NaTRange {
      var k := LastParsed(results, n).value;
      assert results[k].Some?;
    }
    if exists k :: 0 <= k < n && results[k].Some? && (forall i :: k < i < n ==> results[i].None?)
        && forall j :: 0 <= j < |results[k].value| ==> results[k].value[j].None? {
      var k :| 0 <= k < n && results[k].Some? && (forall i :: k < i < n ==> results[i].None?)
        && forall j :: 0 <= j < |results[k].value| ==> results[k].value[j].None?;
      var last := LastParsed(results, n).value;
      assert last == k;
    }
  }

  /** The loop over the time columns. */
  method ParseDatetimeColumns(cells: seq<seq<Cell>>, formats: seq<string>,
                              parse: (string, seq<Cell>) -> Option<seq<Option<int>>>) returns (time: TimeRecord)
    ensures time == TimeAfter(ParsedColumns(cells, formats, parse), |cells|)
  {
    ghost var results := ParsedColumns(cells, formats, parse);
    time := NoTime;
    for i := 0 to |cells|
      invariant time == TimeAfter(results, i)
    {
      var ts := TryFormats(formats, cells[i], parse);
      if ts.Some? {
        time := RecordOf(ts.value);
      }
    }
  }

  // ---------------------------------------------------------------------
  // Parameter groups
  // ---------------------------------------------------------------------

  datatype ParamKind = Temperature | Flow | Power | Valve | Pump | Other

  const Kinds: seq<ParamKind> := [Temperature, Flow, Power, Valve, Pump, Other]

  predicate TemperatureName(c: string)
  {
    Contains(c, "°C") || Contains(c, "Temp") || Contains(Lower(c), "temperatur")
  }

  predicate FlowName(c: string)
  {
    Contains(c, "m³/h") || Contains(c, "Durchfluss") || Contains(Lower(c), "flow")
  }

  /** The power test; `W` is matched with its case, so any upper-case W counts. */
  predicate PowerName(c: string)
  {
    Contains(c, "kW") || Contains(c, "W") || Contains(c, "Leistung") || Contains(c, "Power")
  }

  predicate ValveName(c: string)
  {
    Contains(c, "Ventil") || Contains(Lower(c), "valve") || Contains(c, "%")
  }

  predicate PumpName(c: string)
  {
    Contains(c, "Pumpe") || Contains(Lower(c), "pump")
  }

  /** The `if/elif` chain: the first test that holds decides. */
  function KindOf(c: string): ParamKind
  {
    if TemperatureName(c) then Temperature
    else if FlowName(c) then Flow
    else if PowerName(c) then Power
    else if ValveName(c) then Valve
    else if PumpName(c) then Pump
    else Other
  }

  /** `c in s` for a one-character string is membership of the character. */
  lemma {:induction false} ContainsOneChar(s: string, c: char)
    ensures Contains(s, [c]) <==> c in s
  {
    if |s| > 0 {
      ContainsOneChar(s[1..], c);
      assert c in s <==> s[0] == c || c in s[1..];
    }
  }

  /**
   * The power test is the same as "has an upper-case W, or says Leistung or
   * Power": `kW` adds nothing, and a `W` anywhere, as in "Wärme" or
   * "Warmwasser", is enough.
   */
  lemma PowerIsUpperW(c: string)
    ensures PowerName(c) <==> 'W' in c || Contains(c, "Leistung") || Contains(c, "Power")
  {
    ContainsOneChar(c, 'W');
    if Contains(c, "kW") {
      ContainsFound(c, "kW");
      var j := IndexOf(c, "kW").value;
      assert OccursAt(c, "kW", j);
      assert c[j..j + 2][1] == "kW"[1] == 'W';
      assert c[j + 1] == c[j..j + 2][1];
      assert c[j + 1] in c;
    }
  }

  /** Every name with an upper-case W that is neither a temperature nor a flow lands among the power parameters. */
  lemma UpperWIsPower(c: string)
    requires 'W' in c && !TemperatureName(c) && !FlowName(c)
    ensures KindOf(c) == Power
  {
    PowerIsUpperW(c);
  }

  /** The six lists, filled in column order by the grouping loop. */
  method GroupParameters(cols: seq<string>) returns (groups: map<ParamKind, seq<string>>)
    ensures forall k :: k in groups <==> k in Kinds
    ensures forall k :: k in groups ==> groups[k] == Categories.Group(cols, KindOf, k)
  {
    groups := Categories.GroupInto(cols, KindOf, Kinds);
  }

  /**
   * Every column lands in exactly one of the six lists: together they hold
   * each name as often as the columns do.
   */
  lemma GroupsPartition(cols: seq<string>)
    ensures multiset(Categories.Group(cols, KindOf, Temperature)) + multiset(Categories.Group(cols, KindOf, Flow))
      + multiset(Categories.Group(cols, KindOf, Power)) + multiset(Categories.Group(cols, KindOf, Valve))
      + multiset(Categories.Group(cols, KindOf, Pump)) + multiset(Categories.Group(cols, KindOf, Other)) == multiset(cols)
  {
    var total := multiset(Categories.Group(cols, KindOf, Temperature)) + multiset(Categories.Group(cols, KindOf, Flow))
      + multiset(Categories.Group(cols, KindOf, Power)) + multiset(Categories.Group(cols, KindOf, Valve))
      + multiset(Categories.Group(cols, KindOf, Pump)) + multiset(Categories.Group(cols, KindOf, Other));
    forall x
      ensures total[x] == multiset(cols)[x]
    {
      CountInGroup(cols, x, Temperature);
      CountInGroup(cols, x, Flow);
      CountInGroup(cols, x, Power);
      CountInGroup(cols, x, Valve);
      CountInGroup(cols, x, Pump);
      CountInGroup(cols, x, Other);
    }
  }

  /** A name occurs in its own kind's list as often as among the columns, and in no other list. */
  lemma CountInGroup(cols: seq<string>, x: string, l: ParamKind)
    ensures multiset(Categories.Group(cols, KindOf, l))[x] == if KindOf(x) == l then multiset(cols)[x] else 0
  {
    if KindOf(x) != l {
      assert x !in Categories.Group(cols, KindOf, l);
    }
  }

  /** Hence the six list lengths add up to the number of columns. */
  lemma GroupSizesAddUp(cols: seq<string>)
    ensures |Categories.Group(cols, KindOf, Temperature)| + |Categories.Group(cols, KindOf, Flow)|
      + |Categories.Group(cols, KindOf, Power)| + |Categories.Group(cols, KindOf, Valve)|
      + |Categories.Group(cols, KindOf, Pump)| + |Categories.Group(cols, KindOf, Other)| == |cols|
  {
    GroupsPartition(cols);
  }

  /** Only the temperature list prints "... and n more" after its first five names. */
  function MoreNote(kind: ParamKind, group: seq<string>): (n: Option<nat>)
    ensures n.Some? <==> kind == Temperature && |group| > 5
    ensures n.Some? ==> n.value + 5 == |group|
  {
    if kind == Temperature && |group| > 5 then Some(|group| - 5) else None
  }

  // ---------------------------------------------------------------------
  // analyze_csv_file
  // ---------------------------------------------------------------------

  /** The `info` of a CSV file: sizes, names, time record and five of the six group sizes. */
  datatype CsvInfo = CsvInfo(rows: nat, columns: nat, names: seq<string>, time: TimeRecord,
                             temp: nat, flow: nat, power: nat, valve: nat, pump: nat)

  /** `analyze_csv_file`: None when the reader gives up; otherwise the summary of the frame it returned. */
  method AnalyzeCsvFile(read: (char, Encoding) -> ReadOutcome, readDecimal: char -> ReadOutcome,
                        parse: (string, seq<Cell>) -> Option<seq<Option<int>>>) returns (info: Option<CsvInfo>)
    ensures info.None? <==> Flexible(Separators, Encodings, DecimalSeparators, read, readDecimal).None?
    ensures info.Some? ==>
      var t := Flexible(Separators, Encodings, DecimalSeparators, read, readDecimal).value;
      info.value.rows == |t.rows| && info.value.columns == |t.columns| && info.value.names == t.columns
      && info.value.time == TimeAfter(ParsedColumns(DatetimeCells(t, DatetimeColumns(t.columns)), Formats, parse), |DatetimeColumns(t.columns)|)
      && info.value.temp == |Categories.Group(t.columns, KindOf, Temperature)|
      && info.value.flow == |Categories.Group(t.columns, KindOf, Flow)|
      && info.value.power == |Categories.Group(t.columns, KindOf, Power)|
      && info.value.valve == |Categories.Group(t.columns, KindOf, Valve)|
      && info.value.pump == |Categories.Group(t.columns, KindOf, Pump)|
  {
    var df := ReadCsvFlexible(Separators, Encodings, DecimalSeparators, read, readDecimal);
    if df.None? {
      return None;
    }
    var t := df.value;
    var dtCols := CollectDatetimeColumns(t.columns);
    var time := ParseDatetimeColumns(DatetimeCells(t, dtCols), Formats, parse);
    var groups := GroupParameters(t.columns);
    info := Some(CsvInfo(|t.rows|, |t.columns|, t.columns, time,
                         |groups[Temperature]|, |groups[Flow]|, |groups[Power]|, |groups[Valve]|, |groups[Pump]|));
  }

  // ---------------------------------------------------------------------
  // analyze_excel_file
  // ---------------------------------------------------------------------

  /** `is_datetime64_any_dtype`: only stamps and missing values, and at least one stamp. */
  predicate IsStampColumn(cells: seq<Cell>)
  {
    (exists i :: 0 <= i < |cells| && cells[i].Stamp?) && forall i :: 0 <= i < |cells| ==> cells[i].Stamp? || cells[i].Missing?
  }

  function StampValues(cells: seq<Cell>): (ts: seq<Option<int>>)
    ensures |ts| == |cells|
    ensures forall i :: 0 <= i < |cells| ==> ts[i] == (if cells[i].Stamp? then Some(cells[i].t) else None)
  {
    seq(|cells|, i requires 0 <= i < |cells| => if cells[i].Stamp? then Some(cells[i].t) else None)
  }

  /** The first datetime column of the first `n`. */
  function FirstStampColumn(t: Table, n: nat): (r: Option<nat>)
    requires n <= |t.columns|
    ensures r.Some? ==> r.value < n && IsStampColumn(Column(t, r.value))
    ensures r.None? <==> forall j :: 0 <= j < n ==> !IsStampColumn(Column(t, j))
  {
    if n == 0 then None
    else
      match FirstStampColumn(t, n - 1)
      case Some(j) => Some(j)
      case None => if IsStampColumn(Column(t, n - 1)) then Some(n - 1) else None
  }

  /** The summary of a non-empty sheet. */
  datatype SheetInfo = SheetInfo(rows: nat, columns: nat, names: seq<string>, time: Option<(int, int)>)

  function SheetInfoOf(t: Table): (s: SheetInfo)
    ensures s.rows == |t.rows| && s.columns == |t.columns| && s.names == t.columns
    ensures s.time.None? <==> FirstStampColumn(t, |t.columns|).None?
    ensures s.time.Some? ==> s.time == Spans.TimeRange(StampValues(Column(t, FirstStampColumn(t, |t.columns|).value)))
    ensures s.time.Some? ==> s.time.value.0 <= s.time.value.1
  {
    var time :=
      match FirstStampColumn(t, |t.columns|)
      case None => None
      case Some(j) =>
        var ts := StampValues(Column(t, j));
        var i :| 0 <= i < |Column(t, j)| && Column(t, j)[i].Stamp?;
        assert ts[i].Some?;
        Spans.TimeRange(ts);
    SheetInfo(|t.rows|, |t.columns|, t.columns, time)
  }

  /** The `sheets` dictionary after the first `k` sheet names; empty and unreadable sheets are skipped. */
  function SheetsOf(names: seq<string>, readSheet: string -> ReadOutcome, k: nat): (m: map<string, SheetInfo>)
    requires k <= |names|
    ensures forall s :: s in m ==> s in names[..k] && readSheet(s).Loaded? && !IsEmpty(readSheet(s).table)
    ensures forall s :: s in m ==> m[s] == SheetInfoOf(readSheet(s).table)
    ensures forall i :: 0 <= i < k && readSheet(names[i]).Loaded? && !IsEmpty(readSheet(names[i]).table) ==> names[i] in m
  {
    if k == 0 then map[]
    else
      var m := SheetsOf(names, readSheet, k - 1);
      assert names[..k] == names[..k - 1] + [names[k - 1]];
      var o := readSheet(names[k - 1]);
      if o.Loaded? && !IsEmpty(o.table) then m[names[k - 1] := SheetInfoOf(o.table)] else m
  }

  datatype ExcelInfo = ExcelInfo(sheetCount: nat, sheets: map<string, SheetInfo>)

  /**
   * `analyze_excel_file`: `sheetNames` is None when the workbook cannot be
   * opened; `readSheet` gives the outcome for each sheet.
   */
  method AnalyzeExcelFile(sheetNames: Option<seq<string>>, readSheet: string -> ReadOutcome) returns (info: Option<ExcelInfo>)
    ensures info.None? <==> sheetNames.None?
    ensures info.Some? ==> info.value.sheetCount == |sheetNames.value|
    ensures info.Some? ==> info.value.sheets == SheetsOf(sheetNames.value, readSheet, |sheetNames.value|)
  {
    if sheetNames.None? {
      return None;
    }
    var names := sheetNames.value;
    var sheets: map<string, SheetInfo> := map[];
    for k := 0 to |names|
      invariant sheets == SheetsOf(names, readSheet, k)
    {
      var o := readSheet(names[k]);
      if o.Loaded? && !IsEmpty(o.table) {
        sheets := sheets[names[k] := SheetInfoOf(o.table)];
      }
    }
    info := Some(ExcelInfo(|names|, sheets));
  }

  // ---------------------------------------------------------------------
  // main
  // ---------------------------------------------------------------------

  datatype Handler = AsCsv | AsExcel | Unhandled

  /** The suffix test of `main`: `.csv` in either all-lower or all-upper case, `.xlsx` only in lower case. */
  function HandlerFor(suffix: string): (h: Handler)
    ensures h == AsCsv <==> suffix == ".csv" || suffix == ".CSV"
    ensures h == AsExcel <==> suffix == ".xlsx"
  {
    if suffix == ".csv" || suffix == ".CSV" then AsCsv
    else if suffix == ".xlsx" then AsExcel
    else Unhandled
  }
}
