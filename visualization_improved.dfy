/**
 * The selection rules of the advanced visualisation panel: which column is
 * the time axis, which columns may be plotted, which three are ticked by
 * default, and what the figure callback draws for a selection.
 */
module Visualization {
  import opened Strings
  import opened Axes
  import Order

  // ---------------------------------------------------------------------
  // create_advanced_visualization_panel
  // ---------------------------------------------------------------------

  /**
   * The date column: the first candidate present, then a second test for
   * `Date` when none was found.
   */
  function DateColumn(columns: seq<string>): (r: Option<string>)
    ensures r.Some? ==> r.value in columns
  {
    var first := FirstDateCandidate(columns);
    if first.None? && "Date" in columns then Some("Date") else first
  }

  /** The second test for `Date` never changes the choice: `Date` is already the first candidate. */
  lemma DateFallbackUnreachable(columns: seq<string>)
    ensures DateColumn(columns) == FirstDateCandidate(columns)
  {
    if FirstDateCandidate(columns).None? {
      assert DateCandidates[0] == "Date";
    }
  }

  /** At most this many parameters are ticked when the panel opens. */
  const DefaultCount: nat := 3

  /**
   * The parameters ticked by default: first occurrences of the keyword
   * matches (keyword priority, then column order), then of the remaining
   * options in their order, cut to three.
   */
  function DefaultParamsOf(yOptions: seq<string>): seq<string>
  {
    Take(Firsts(KeywordOrder(PriorityKeywords, yOptions) + yOptions), DefaultCount)
  }

  /** The two append loops of the panel, each leaving as soon as three parameters are chosen. */
  method DefaultParams(yOptions: seq<string>) returns (params: seq<string>)
    ensures params == DefaultParamsOf(yOptions)
  {
    ghost var stream := KeywordOrder(PriorityKeywords, yOptions) + yOptions;
    params := [];
    ghost var seen: seq<string> := [];
    var k := 0;
    while k < |PriorityKeywords|
      invariant k <= |PriorityKeywords|
      invariant params == Firsts(seen) && |params| < DefaultCount
      invariant seen == KeywordOrder(PriorityKeywords[..k], yOptions)
    {
      ghost var done := seen;
      params, seen := PickMatches(PriorityKeywords[k], yOptions, params, seen);
      KeywordOrderStep(PriorityKeywords, yOptions, k);
      if |params| >= DefaultCount {
        KeywordOrderPrefix(PriorityKeywords, yOptions, k + 1);
        PrefixTransitive(seen, KeywordOrder(PriorityKeywords[..k + 1], yOptions), KeywordOrder(PriorityKeywords, yOptions));
        PrefixTransitive(seen, KeywordOrder(PriorityKeywords, yOptions), stream);
        ChosenEarly(seen, stream, params);
        return;
      }
      k := k + 1;
    }
    assert PriorityKeywords[..k] == PriorityKeywords;
    if |params| < DefaultCount {
      params := FillUp(yOptions, params, seen);
    }
  }

  /**
   * The inner loop for one keyword: append each option that mentions it and
   * is not chosen yet, and stop at three. `seen` is the stream of matches
   * looked at so far; `params` holds its first occurrences.
   */
  method PickMatches(keyword: string, yOptions: seq<string>, params0: seq<string>, ghost seen0: seq<string>)
    returns (params: seq<string>, ghost seen: seq<string>)
    requires params0 == Firsts(seen0) && |params0| < DefaultCount
    ensures params == Firsts(seen) && |params| <= DefaultCount
    ensures |params| < DefaultCount ==> seen == seen0 + Matching(keyword, yOptions)
    ensures |params| == DefaultCount ==> IsPrefix(seen, seen0 + Matching(keyword, yOptions))
  {
    params, seen := params0, seen0;
    ghost var part: seq<string> := [];
    var j := 0;
    while j < |yOptions|
      invariant j <= |yOptions|
      invariant params == Firsts(seen) && |params| < DefaultCount
      invariant part == Matching(keyword, yOptions[..j]) && seen == seen0 + part
    {
      var col := yOptions[j];
      MatchingStep(keyword, yOptions, j);
      if Mentions(col, keyword) {
        FirstsStep(seen, col);
        if col !in params {
          params := params + [col];
        }
        Associative(seen0, part, [col]);
        part := part + [col];
        seen := seen + [col];
        if |params| >= DefaultCount {
          MatchingPrefix(keyword, yOptions, j + 1);
          PrefixExtend(seen0, part, Matching(keyword, yOptions));
          return;
        }
      }
      j := j + 1;
    }
    assert yOptions[..j] == yOptions;
  }

  /** The fill-up loop: append the options not chosen yet, in order, and stop at three. */
  method FillUp(yOptions: seq<string>, params0: seq<string>, ghost seen0: seq<string>) returns (params: seq<string>)
    requires params0 == Firsts(seen0) && |params0| < DefaultCount
    ensures params == Take(Firsts(seen0 + yOptions), DefaultCount)
  {
    params := params0;
    ghost var seen := seen0;
    var j := 0;
    while j < |yOptions|
      invariant j <= |yOptions|
      invariant params == Firsts(seen) && |params| < DefaultCount
      invariant seen == seen0 + yOptions[..j]
    {
      var col := yOptions[j];
      FillStep(seen, col, params);
      if col !in params {
        params := params + [col];
      }
      SeenStep(seen0, yOptions, j);
      seen := seen + [col];
      if |params| >= DefaultCount {
        FilledEarly(seen0, yOptions, j, params);
        return;
      }
      j := j + 1;
    }
    assert yOptions[..j] == yOptions;
    assert Take(Firsts(seen0 + yOptions), DefaultCount) == params;
  }

  /** One more option is appended exactly when it is not chosen yet. */
  lemma FillStep(seen: seq<string>, col: string, params: seq<string>)
    requires params == Firsts(seen)
    ensures Firsts(seen + [col]) == if col in params then params else params + [col]
  {
    FirstsStep(seen, col);
  }

  /** The options seen grow by the option at `j`. */
  lemma SeenStep(seen0: seq<string>, yOptions: seq<string>, j: nat)
    requires j < |yOptions|
    ensures (seen0 + yOptions[..j]) + [yOptions[j]] == seen0 + yOptions[..j + 1]
  {
    assert yOptions[..j + 1] == yOptions[..j] + [yOptions[j]];
    Associative(seen0, yOptions[..j], [yOptions[j]]);
  }

  /** Three options chosen from the first `j + 1` are the first three of the whole stream. */
  lemma FilledEarly(seen0: seq<string>, yOptions: seq<string>, j: nat, params: seq<string>)
    requires j < |yOptions|
    requires params == Firsts(seen0 + yOptions[..j + 1]) && |params| == DefaultCount
    ensures params == Take(Firsts(seen0 + yOptions), DefaultCount)
  {
    PrefixExtend(seen0, yOptions[..j + 1], yOptions);
    ChosenEarly(seen0 + yOptions[..j + 1], seen0 + yOptions, params);
  }

  /** A common start keeps a prefix a prefix. */
  lemma PrefixExtend(a: seq<string>, b: seq<string>, c: seq<string>)
    requires IsPrefix(b, c)
    ensures IsPrefix(a + b, a + c)
  {
    assert (a + c)[..|a + b|] == a + c[..|b|];
  }

  lemma Associative(a: seq<string>, b: seq<string>, c: seq<string>)
    ensures (a + b) + c == a + (b + c)
  {
  }

  /** Once three parameters are chosen from a prefix of the candidates, the rest of them cannot change the choice. */
  lemma ChosenEarly(seen: seq<string>, stream: seq<string>, params: seq<string>)
    requires IsPrefix(seen, stream)
    requires params == Firsts(seen) && |params| == DefaultCount
    ensures params == Take(Firsts(stream), DefaultCount)
  {
    FirstsOfPrefix(seen, stream);
  }

  /** The defaults are distinct y options. */
  lemma DefaultsAreDistinctOptions(yOptions: seq<string>)
    ensures Order.Distinct(DefaultParamsOf(yOptions))
    ensures forall c :: c in DefaultParamsOf(yOptions) ==> c in yOptions
  {
    var all := Firsts(KeywordOrder(PriorityKeywords, yOptions) + yOptions);
    FirstsDistinct(KeywordOrder(PriorityKeywords, yOptions) + yOptions);
    KeywordOrderMembers(PriorityKeywords, yOptions);
    assert DefaultParamsOf(yOptions) == all[..|DefaultParamsOf(yOptions)|];
    forall c | c in DefaultParamsOf(yOptions) ensures c in yOptions {
      assert c in all;
    }
  }

  /** With distinct options, exactly min(3, |y options|) parameters are ticked. */
  lemma DefaultsCount(yOptions: seq<string>)
    requires Order.Distinct(yOptions)
    ensures |DefaultParamsOf(yOptions)| == if |yOptions| < DefaultCount then |yOptions| else DefaultCount
  {
    var all := Firsts(KeywordOrder(PriorityKeywords, yOptions) + yOptions);
    FirstsDistinct(KeywordOrder(PriorityKeywords, yOptions) + yOptions);
    KeywordOrderMembers(PriorityKeywords, yOptions);
    assert Order.Elems(all) == Order.Elems(yOptions);
    Order.DistinctCard(all);
    Order.DistinctCard(yOptions);
  }

  /** Keyword matches come first: a ticked parameter matching a keyword is never preceded by one that matches none. */
  lemma KeywordMatchesFirst(yOptions: seq<string>, i: nat, j: nat)
    requires i < j < |DefaultParamsOf(yOptions)|
    requires DefaultParamsOf(yOptions)[j] in KeywordOrder(PriorityKeywords, yOptions)
    ensures DefaultParamsOf(yOptions)[i] in KeywordOrder(PriorityKeywords, yOptions)
  {
    var matched := KeywordOrder(PriorityKeywords, yOptions);
    var all := Firsts(matched + yOptions);
    var head := Firsts(matched);
    assert IsPrefix(matched, matched + yOptions);
    FirstsOfPrefix(matched, matched + yOptions);
    FirstsDistinct(matched + yOptions);
    assert DefaultParamsOf(yOptions) == all[..|DefaultParamsOf(yOptions)|];
    var x := all[j];
    assert x in head;
    var t :| 0 <= t < |head| && head[t] == x;
    assert all[t] == x;
    assert t == j;
    assert all[i] == head[i];
  }

  /** What the panel shows. */
  datatype Panel =
    | NoData                                   // "Keine Daten verfügbar"
    | NoNumeric                                // "Keine visualisierbaren numerischen Daten gefunden"
    | Selector(dateCol: Option<string>, yOptions: seq<string>, defaults: seq<string>)

  /**
   * `create_advanced_visualization_panel(df, panel_id)` for a frame with
   * `columns`, `rows` rows and numeric columns `numeric` in column order.
   */
  method AdvancedPanel(columns: seq<string>, rows: nat, numeric: seq<string>) returns (p: Panel)
    ensures rows == 0 || columns == [] ==> p == NoData
    ensures rows > 0 && columns != [] && YOptions(numeric, DateColumn(columns)) == [] ==> p == NoNumeric
    ensures p.Selector? ==> p.dateCol == FirstDateCandidate(columns)
    ensures p.Selector? ==> p.yOptions == YOptions(numeric, p.dateCol) && p.yOptions != []
    ensures p.Selector? ==> p.defaults == DefaultParamsOf(p.yOptions)
  {
    if rows == 0 || columns == [] {
      return NoData;
    }
    var dateCol := DateColumn(columns);
    DateFallbackUnreachable(columns);
    var yOptions := YOptions(numeric, dateCol);
    if yOptions == [] {
      return NoNumeric;
    }
    var defaults := DefaultParams(yOptions);
    p := Selector(dateCol, yOptions, defaults);
  }

  // ---------------------------------------------------------------------
  // create_visualization_figure
  // ---------------------------------------------------------------------

  /** A drawn line: a parameter's values, or their rolling mean. */
  datatype Trace = Line(param: string, markers: bool) | Smoothed(param: string)

  /** What the figure callback returns. */
  datatype Figure =
    | PickOne                                  // "Bitte wählen Sie mindestens einen Parameter aus"
    | Separate(charts: seq<seq<Trace>>)        // one 350 px chart per parameter found
    | Overlay(lines: seq<Trace>)              // one 500 px chart
    | Subplots(rows: nat, traces: seq<(nat, Trace)>, height: int)

  /** The name of the rolling-mean column of `param`. */
  function SmoothName(param: string): string
  {
    param + "_smooth"
  }

  /** A date column counts only when it is set and not empty. */
  predicate HasDate(dateCol: Option<string>)
  {
    dateCol.Some? && dateCol.value != ""
  }

  /**
   * The columns after the smoothing loop: each selected parameter that is a
   * column at its turn gets a `_smooth` column; one that is already there
   * keeps its place.
   */
  function SmoothedColumns(columns: seq<string>, selected: seq<string>): (r: seq<string>)
    ensures forall c :: c in columns ==> c in r
  {
    if selected == [] then columns
    else
      var before := SmoothedColumns(columns, selected[..|selected| - 1]);
      var p := selected[|selected| - 1];
      if p in before && SmoothName(p) !in before then before + [SmoothName(p)] else before
  }

  /** The traces for the selected parameters that are columns, each followed by its rolling mean when one exists. */
  function TracesFor(columns: seq<string>, selected: seq<string>, smooth: bool, markers: bool): (r: seq<Trace>)
    ensures forall t :: t in r ==> t.param in selected && t.param in columns
  {
    if selected == [] then []
    else
      var p := selected[|selected| - 1];
      TracesFor(columns, selected[..|selected| - 1], smooth, markers) + ParamTraces(columns, p, smooth, markers)
  }

  /** The traces of one parameter. */
  function ParamTraces(columns: seq<string>, p: string, smooth: bool, markers: bool): (r: seq<Trace>)
    ensures forall t :: t in r ==> t.param == p && p in columns
  {
    if p !in columns then []
    else [Line(p, markers)] + (if smooth && SmoothName(p) in columns then [Smoothed(p)] else [])
  }

  /** The subplot traces: the traces of the `i`-th selected parameter (from 1) go into row `i`. */
  function RowTraces(columns: seq<string>, selected: seq<string>, smooth: bool, markers: bool): (r: seq<(nat, Trace)>)
    ensures forall e :: e in r ==> 1 <= e.0 <= |selected|
  {
    if selected == [] then []
    else
      var n := |selected|;
      RowTraces(columns, selected[..n - 1], smooth, markers) +
        seq(|ParamTraces(columns, selected[n - 1], smooth, markers)|,
          i requires 0 <= i < |ParamTraces(columns, selected[n - 1], smooth, markers)| =>
            (n, ParamTraces(columns, selected[n - 1], smooth, markers)[i]))
  }

  /** The charts of the separate layout: one per selected parameter that is a column. */
  function Charts(columns: seq<string>, selected: seq<string>, smooth: bool, markers: bool): (r: seq<seq<Trace>>)
    ensures |r| <= |selected|
  {
    if selected == [] then []
    else
      var p := selected[|selected| - 1];
      Charts(columns, selected[..|selected| - 1], smooth, markers) +
        (if p in columns then [ParamTraces(columns, p, smooth, markers)] else [])
  }

  /** The height of the subplot figure. */
  const SubplotHeight: int := 250

  /**
   * `create_visualization_figure(df_dict, selected_params, chart_type,
   * chart_options, date_col)`: no selection gives the warning; otherwise the
   * layout named by `chartType` (anything else than separate or overlay
   * gives subplots).
   */
  function VisualizationFigure(columns: seq<string>, selected: seq<string>, chartType: string, options: seq<string>, dateCol: Option<string>): (f: Figure)
    ensures selected == [] <==> f == PickOne
    ensures f.Subplots? ==> f.rows == |selected| && f.height == SubplotHeight * |selected|
  {
    if selected == [] then PickOne
    else
      var smooth := "smooth" in options;
      var markers := "markers" in options;
      var cols := if smooth && HasDate(dateCol) then SmoothedColumns(columns, selected) else columns;
      if chartType == "separate" then Separate(Charts(cols, selected, smooth, markers))
      else if chartType == "overlay" then Overlay(TracesFor(cols, selected, smooth, markers))
      else Subplots(|selected|, RowTraces(cols, selected, smooth, markers), SubplotHeight * |selected|)
  }

  /** With smoothing and a date column, every selected column gets its rolling mean drawn right after it. */
  lemma SmoothedParamHasMean(columns: seq<string>, selected: seq<string>, p: string)
    requires p in selected && p in columns
    ensures SmoothName(p) in SmoothedColumns(columns, selected)
  {
    var n := |selected| - 1;
    if selected[n] == p {
      assert p in SmoothedColumns(columns, selected[..n]);
    } else {
      assert p in selected[..n] by {
        var i :| 0 <= i < |selected| && selected[i] == p;
        assert i < n && selected[..n][i] == p;
      }
      SmoothedParamHasMean(columns, selected[..n], p);
    }
  }

  /** Without a date column, a rolling mean is drawn only for a parameter whose `_smooth` column was loaded. */
  lemma NoDateNoNewMeans(columns: seq<string>, selected: seq<string>, options: seq<string>, dateCol: Option<string>, p: string)
    requires !HasDate(dateCol) && selected != []
    requires Smoothed(p) in VisualizationFigure(columns, selected, "overlay", options, dateCol).lines
    ensures SmoothName(p) in columns
  {
    var smooth := "smooth" in options;
    var markers := "markers" in options;
    SmoothedTraceNeedsColumn(columns, selected, smooth, markers, p);
  }

  lemma {:induction false} SmoothedTraceNeedsColumn(columns: seq<string>, selected: seq<string>, smooth: bool, markers: bool, p: string)
    requires Smoothed(p) in TracesFor(columns, selected, smooth, markers)
    ensures SmoothName(p) in columns
  {
    var n := |selected| - 1;
    if Smoothed(p) !in ParamTraces(columns, selected[n], smooth, markers) {
      SmoothedTraceNeedsColumn(columns, selected[..n], smooth, markers, p);
    }
  }
}
