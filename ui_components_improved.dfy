/**
 * The selection rules of the improved dashboard components: which rows the
 * data table shows, which axes the visualisation panel starts with, which
 * description a dataset gets, and which traces the comparison chart draws.
 * The components themselves (layout, styling, figures) are not modelled.
 */
module UiComponents {
  import opened Strings
  import opened Axes
  import Order
  import Visualization

  // ---------------------------------------------------------------------
  // create_data_table_with_full_columns
  // ---------------------------------------------------------------------

  /** Without a caller's `max_rows`, no more than this many rows are shown. */
  const RowCap: nat := 100000

  /** Above this many rows, a table with a `Date` column shows its newest rows. */
  const NewestThreshold: nat := 20000

  /** The `max_rows` in force: the caller's, else every row up to RowCap. */
  function MaxRowsFor(n: nat, maxRows: Option<int>): (m: int)
    ensures maxRows.Some? ==> m == maxRows.value
    ensures maxRows.None? ==> 0 <= m <= n && m <= RowCap && (m == n || m == RowCap)
  {
    match maxRows
    case Some(k) => k
    case None => if n > RowCap then RowCap else n
  }

  /** `df.head(k)`: the first `k` rows, or for a negative `k` all rows but the last `-k`. */
  function Head<R>(rows: seq<R>, k: int): (r: seq<R>)
    ensures |r| <= |rows| && r == rows[..|r|]
    ensures k >= 0 ==> |r| == (if k < |rows| then k else |rows|)
    ensures k < 0 ==> |r| + (if -k < |rows| then -k else |rows|) == |rows|
  {
    if k >= |rows| then rows
    else if k >= 0 then rows[..k]
    else if -k >= |rows| then []
    else rows[..|rows| + k]
  }

  /**
   * The newest `m` rows by date in ascending date order: sorted newest first,
   * cut with `head(m)`, sorted back.
   */
  function NewestRows<R>(rows: seq<R>, m: int, date: R -> int): (r: seq<R>)
    ensures Order.SortedBy(r, date)
    ensures |r| == |Head(rows, m)|
  {
    var desc := Order.SortBy(rows, (x: R) => -date(x));
    assert |desc| == |multiset(desc)| == |rows|;
    var newest := Head(desc, m);
    var r := Order.SortBy(newest, date);
    assert |r| == |multiset(r)| == |newest|;
    r
  }

  /** What the table component shows: a message for an empty frame, or rows and the "limited" note. */
  datatype TableView<R> = NoRows | Shown(rows: seq<R>, limited: bool)

  /**
   * `create_data_table_with_full_columns(df, table_id, max_rows)` on the rows
   * of `df`. `date` reads the `Date` of a row; `sortable` says whether
   * `sort_values('Date')` succeeds, and when it raises the table falls back
   * to the first rows.
   */
  function DataTable<R>(rows: seq<R>, columns: seq<string>, maxRows: Option<int>, date: R -> int, sortable: bool): (v: TableView<R>)
    ensures v.NoRows? <==> rows == [] || columns == []
    ensures v.Shown? ==> |v.rows| == |Head(rows, MaxRowsFor(|rows|, maxRows))|
  {
    if rows == [] || columns == [] then NoRows
    else
      var m := MaxRowsFor(|rows|, maxRows);
      var shown := if |rows| > NewestThreshold && "Date" in columns && sortable then NewestRows(rows, m, date) else Head(rows, m);
      Shown(shown, |rows| > m)
  }

  /** The "limited" note appears exactly when rows were left out, for any `max_rows`, negative ones included. */
  lemma LimitedIffRowsDropped<R>(rows: seq<R>, columns: seq<string>, maxRows: Option<int>, date: R -> int, sortable: bool)
    requires DataTable(rows, columns, maxRows, date, sortable).Shown?
    ensures var v := DataTable(rows, columns, maxRows, date, sortable);
      v.limited <==> |v.rows| < |rows|
  {
  }

  /** Without `max_rows`, everything up to RowCap rows is shown, and the note appears only above RowCap. */
  lemma DefaultShowsUpToCap<R>(rows: seq<R>, columns: seq<string>, date: R -> int, sortable: bool)
    requires rows != [] && columns != []
    ensures var v := DataTable(rows, columns, None, date, sortable);
      |v.rows| == (if |rows| > RowCap then RowCap else |rows|) && (v.limited <==> |rows| > RowCap)
  {
  }

  /** Small tables, tables without `Date`, and unsortable dates: the first rows, in frame order. */
  lemma FirstRowsShown<R>(rows: seq<R>, columns: seq<string>, maxRows: Option<int>, date: R -> int, sortable: bool)
    requires rows != [] && columns != []
    requires |rows| <= NewestThreshold || "Date" !in columns || !sortable
    ensures var v := DataTable(rows, columns, maxRows, date, sortable);
      v.rows == rows[..|v.rows|]
  {
  }

  /**
   * Large tables with a `Date` column: the rows shown are rows of the frame,
   * in ascending date order, and none of them is older than a row left out.
   */
  lemma NewestRowsShown<R>(rows: seq<R>, columns: seq<string>, maxRows: Option<int>, date: R -> int)
    requires |rows| > NewestThreshold && "Date" in columns
    ensures var v := DataTable(rows, columns, maxRows, date, true);
      Order.SortedBy(v.rows, date) && multiset(v.rows) <= multiset(rows) &&
      forall x, y :: x in v.rows && y in multiset(rows) - multiset(v.rows) ==> date(x) >= date(y)
  {
    NewestRowsAreNewest(rows, MaxRowsFor(|rows|, maxRows), date);
  }

  lemma NewestRowsAreNewest<R>(rows: seq<R>, m: int, date: R -> int)
    ensures multiset(NewestRows(rows, m, date)) <= multiset(rows)
    ensures forall x, y :: x in NewestRows(rows, m, date) && y in multiset(rows) - multiset(NewestRows(rows, m, date)) ==> date(x) >= date(y)
  {
    var desc := Order.SortBy(rows, (x: R) => -date(x));
    var head := Head(desc, m);
    var r := NewestRows(rows, m, date);
    SplitMultiset(desc, |head|);
    NewestFirstSplit(desc, |head|, (x: R) => -date(x), date);
    forall x, y | x in r && y in multiset(rows) - multiset(r)
      ensures date(x) >= date(y)
    {
      assert x in multiset(r);
      assert y in multiset(desc[|head|..]);
    }
  }

  /** Cutting a list in two splits its multiset in two. */
  lemma SplitMultiset<R>(s: seq<R>, c: nat)
    requires c <= |s|
    ensures multiset(s[..c]) <= multiset(s)
    ensures multiset(s) - multiset(s[..c]) == multiset(s[c..])
  {
    assert s == s[..c] + s[c..];
  }

  /** In a list sorted newest first, nothing before a cut is older than anything after it. */
  lemma NewestFirstSplit<R>(desc: seq<R>, c: nat, neg: R -> int, date: R -> int)
    requires c <= |desc| && Order.SortedBy(desc, neg)
    requires forall x :: neg(x) == -date(x)
    ensures forall x, y :: x in desc[..c] && y in desc[c..] ==> date(x) >= date(y)
  {
    forall x, y | x in desc[..c] && y in desc[c..]
      ensures date(x) >= date(y)
    {
      var i :| 0 <= i < c && desc[i] == x;
      var j :| 0 <= j < |desc| - c && desc[c..][j] == y;
      assert neg(desc[i]) <= neg(desc[c + j]);
    }
  }

  // ---------------------------------------------------------------------
  // create_visualization_panel_with_defaults
  // ---------------------------------------------------------------------

  /**
   * The x column: the first date candidate present, else the first column.
   * The source's second chance for `Date` sits between the two and never fires.
   */
  function PanelDateColumn(columns: seq<string>): (r: Option<string>)
    ensures r.Some? ==> r.value in columns
    ensures r.None? <==> columns == []
  {
    var first := FirstDateCandidate(columns);
    if first.Some? then first
    else if "Date" in columns then Some("Date")
    else if |columns| > 0 then Some(columns[0])
    else None
  }

  /** The `Date` fallback is dead: when no candidate is present, `Date` is not a column. */
  lemma DateFallbackUnreachable(columns: seq<string>)
    ensures FirstDateCandidate(columns).None? ==> "Date" !in columns
    ensures FirstDateCandidate(columns).None? && columns != [] ==> PanelDateColumn(columns) == Some(columns[0])
  {
    if FirstDateCandidate(columns).None? {
      assert DateCandidates[0] == "Date";
    }
  }

  /** The default y: the first option that mentions the earliest keyword any option mentions, else the first option. */
  function DefaultYOf(yOptions: seq<string>): (r: Option<string>)
  {
    var matched := KeywordOrder(PriorityKeywords, yOptions);
    if matched != [] then Some(matched[0])
    else if yOptions != [] then Some(yOptions[0])
    else None
  }

  /** The nested keyword and column loops, leaving both at the first match. */
  method DefaultY(yOptions: seq<string>) returns (y: Option<string>)
    ensures y == DefaultYOf(yOptions)
  {
    y := None;
    var k := 0;
    while k < |PriorityKeywords|
      invariant k <= |PriorityKeywords|
      invariant KeywordOrder(PriorityKeywords[..k], yOptions) == []
      invariant y.None?
    {
      var keyword := PriorityKeywords[k];
      var j := 0;
      while j < |yOptions|
        invariant j <= |yOptions|
        invariant Matching(keyword, yOptions[..j]) == []
        invariant y.None?
      {
        var col := yOptions[j];
        MatchingStep(keyword, yOptions, j);
        if Mentions(col, keyword) {
          FirstMatchHeads(PriorityKeywords, yOptions, k, j);
          y := Some(col);
          break;
        }
        j := j + 1;
      }
      // A matched column contains a keyword, so it is never the empty name and always true.
      if y.Some? {
        return;
      }
      assert yOptions[..j] == yOptions;
      KeywordOrderStep(PriorityKeywords, yOptions, k);
      k := k + 1;
    }
    assert PriorityKeywords[..k] == PriorityKeywords;
    if |yOptions| > 0 {
      y := Some(yOptions[0]);
    }
  }

  /** A first match after no earlier match heads the keyword order. */
  lemma FirstMatchHeads(keywords: seq<string>, cols: seq<string>, k: nat, j: nat)
    requires k < |keywords| && j < |cols|
    requires KeywordOrder(keywords[..k], cols) == []
    requires Matching(keywords[k], cols[..j]) == []
    requires Mentions(cols[j], keywords[k])
    ensures KeywordOrder(keywords, cols) != [] && KeywordOrder(keywords, cols)[0] == cols[j]
  {
    MatchHeadsMatching(keywords[k], cols, j);
    KeywordHeadsOrder(keywords, cols, k);
  }

  lemma MatchHeadsMatching(keyword: string, cols: seq<string>, j: nat)
    requires j < |cols| && Matching(keyword, cols[..j]) == [] && Mentions(cols[j], keyword)
    ensures Matching(keyword, cols) != [] && Matching(keyword, cols)[0] == cols[j]
  {
    MatchingStep(keyword, cols, j);
    MatchingPrefix(keyword, cols, j + 1);
  }

  lemma KeywordHeadsOrder(keywords: seq<string>, cols: seq<string>, k: nat)
    requires k < |keywords| && KeywordOrder(keywords[..k], cols) == [] && Matching(keywords[k], cols) != []
    ensures KeywordOrder(keywords, cols) != [] && KeywordOrder(keywords, cols)[0] == Matching(keywords[k], cols)[0]
  {
    KeywordOrderStep(keywords, cols, k);
    KeywordOrderPrefix(keywords, cols, k + 1);
  }

  /** No column mentions the keyword: no matches. */
  lemma MatchingNone(keyword: string, cols: seq<string>)
    requires forall c :: c in cols ==> !Mentions(c, keyword)
    ensures Matching(keyword, cols) == []
  {
    MatchingMembers(keyword, cols);
    if Matching(keyword, cols) != [] {
      assert Matching(keyword, cols)[0] in Matching(keyword, cols);
    }
  }

  /** No column mentions any of the keywords: no matches at all. */
  lemma {:induction false} KeywordOrderNone(keywords: seq<string>, cols: seq<string>)
    requires forall k, c :: 0 <= k < |keywords| && c in cols ==> !Mentions(c, keywords[k])
    ensures KeywordOrder(keywords, cols) == []
  {
    if keywords != [] {
      KeywordOrderNone(keywords[..|keywords| - 1], cols);
      MatchingNone(keywords[|keywords| - 1], cols);
    }
  }

  /**
   * The default y is the first option mentioning the earliest keyword that
   * any option mentions.
   */
  lemma DefaultYIsFirstMatch(yOptions: seq<string>, k: nat, j: nat)
    requires k < |PriorityKeywords| && j < |yOptions|
    requires Mentions(yOptions[j], PriorityKeywords[k])
    requires forall k', c :: 0 <= k' < k && c in yOptions ==> !Mentions(c, PriorityKeywords[k'])
    requires forall j' :: 0 <= j' < j ==> !Mentions(yOptions[j'], PriorityKeywords[k])
    ensures DefaultYOf(yOptions) == Some(yOptions[j])
  {
    KeywordOrderNone(PriorityKeywords[..k], yOptions);
    MatchingNone(PriorityKeywords[k], yOptions[..j]);
    FirstMatchHeads(PriorityKeywords, yOptions, k, j);
  }

  /** When no option mentions a keyword, the default y is the first option. */
  lemma DefaultYWithoutMatch(yOptions: seq<string>)
    requires yOptions != []
    requires forall k, c :: 0 <= k < |PriorityKeywords| && c in yOptions ==> !Mentions(c, PriorityKeywords[k])
    ensures DefaultYOf(yOptions) == Some(yOptions[0])
  {
    KeywordOrderNone(PriorityKeywords, yOptions);
  }

  /** There is a default y exactly when there are y options, and it is one of them. */
  lemma DefaultYIsOption(yOptions: seq<string>)
    ensures DefaultYOf(yOptions).Some? <==> yOptions != []
    ensures DefaultYOf(yOptions).Some? ==> DefaultYOf(yOptions).value in yOptions
  {
    var matched := KeywordOrder(PriorityKeywords, yOptions);
    KeywordOrderMembers(PriorityKeywords, yOptions);
    if matched != [] {
      assert matched[0] in matched;
    }
  }

  /** The single default y of this panel is the first of the three defaults of the advanced panel. */
  lemma DefaultYHeadsDefaultParams(yOptions: seq<string>)
    requires yOptions != []
    ensures |Visualization.DefaultParamsOf(yOptions)| > 0
    ensures DefaultYOf(yOptions) == Some(Visualization.DefaultParamsOf(yOptions)[0])
  {
    var stream := KeywordOrder(PriorityKeywords, yOptions) + yOptions;
    FirstsHead(stream);
  }

  /** The first occurrences start with the first element. */
  lemma {:induction false} FirstsHead(xs: seq<string>)
    requires xs != []
    ensures Firsts(xs) != [] && Firsts(xs)[0] == xs[0]
  {
    var init := xs[..|xs| - 1];
    if init != [] {
      FirstsHead(init);
    }
  }

  /** What the panel starts with: a message for an empty frame, or the x column, the y options and the default y. */
  datatype PanelView = NoPanel | Choice(x: Option<string>, yOptions: seq<string>, y: Option<string>)

  /** `create_visualization_panel_with_defaults(df, panel_id)` on the column names, the row count and the numeric columns of `df`. */
  method VisualizationPanel(columns: seq<string>, rows: nat, numeric: seq<string>) returns (p: PanelView)
    ensures p.NoPanel? <==> rows == 0 || columns == []
    ensures p.Choice? ==> p.x == PanelDateColumn(columns) && p.yOptions == YOptions(numeric, p.x)
    ensures p.Choice? ==> p.y == DefaultYOf(p.yOptions)
  {
    if rows == 0 || columns == [] {
      return NoPanel;
    }
    var x := PanelDateColumn(columns);
    var yOptions := YOptions(numeric, x);
    var y := DefaultY(yOptions);
    p := Choice(x, yOptions, y);
  }

  /** The x column is never offered for y, and the default y is an offered option other than x. */
  lemma AxesApart(columns: seq<string>, numeric: seq<string>)
    ensures var x := PanelDateColumn(columns);
      var y := DefaultYOf(YOptions(numeric, x));
      (x.Some? ==> x.value !in YOptions(numeric, x)) &&
      (y.Some? ==> y.value in numeric && y != x)
  {
    DefaultYIsOption(YOptions(numeric, PanelDateColumn(columns)));
  }

  // ---------------------------------------------------------------------
  // get_dataset_description
  // ---------------------------------------------------------------------

  /** The sources the description table knows. */
  const KnownSources: seq<string> := ["twin2sim", "erentrudis", "fis", "kw"]

  /** The keys of a source's descriptions, in the order the table lists them; none for an unknown source. */
  function DescriptionKeys(source: string): (keys: seq<string>)
    ensures source in KnownSources <==> "default" in keys
    ensures source in KnownSources ==> keys[0] == "default"
  {
    if source == "twin2sim" then
      ["default", "intpv", "manipv", "lüftung", "rau006", "wetterdaten"]
    else if source == "erentrudis" then
      ["default", "gesamtdaten_2024", "detail_juli_2024", "langzeit_2023_2025", "durchfluss", "2024", "relevant"]
    else if source == "fis" then
      ["default", "export_q1_2025", "data_2024_2025_at", "hauptdaten", "test", "250101"]
    else if source == "kw" then
      ["default", "uebergabe_bezug_gesamt", "uebergabe_lieferung_gesamt", "kw_duernbach_gesamt", "kw_untersulzbach_gesamt",
       "kw_wiesbach_gesamt", "dürnbach", "untersulzbach", "wiesbach", "übergabe"]
    else []
  }

  /** A description: one of the stored texts, by source and key, or the generated fallback. */
  datatype Description = Stored(source: string, key: string) | Generated(text: string)

  /** The position of the first key other than `default` that occurs in `name`. */
  function FirstContainedKey(keys: seq<string>, name: string): (r: Option<nat>)
    ensures r.Some? ==> r.value < |keys| && keys[r.value] != "default" && Contains(name, keys[r.value])
    ensures r.Some? ==> forall j :: 0 <= j < r.value ==> keys[j] == "default" || !Contains(name, keys[j])
    ensures r.None? ==> forall j :: 0 <= j < |keys| ==> keys[j] == "default" || !Contains(name, keys[j])
  {
    if keys == [] then None
    else if keys[0] != "default" && Contains(name, keys[0]) then Some(0)
    else
      match FirstContainedKey(keys[1..], name)
      case None => None
      case Some(i) => Some(i + 1)
  }

  /** `get_dataset_description(source, dataset_name)`. */
  function DatasetDescription(source: string, datasetName: string): (d: Description)
    ensures d.Stored? ==> d.source == source && d.key in DescriptionKeys(source)
    ensures d.Generated? <==> source !in KnownSources
  {
    var keys := DescriptionKeys(source);
    var found := if datasetName != "" then FirstContainedKey(keys, Lower(datasetName)) else None;
    if found.Some? then Stored(source, keys[found.value])
    else if source in KnownSources then Stored(source, "default")
    else Generated("Dataset aus " + Upper(source))
  }

  /** A named dataset gets the first key, in table order, that its lowercased name contains. */
  lemma DescriptionByFirstKey(source: string, datasetName: string, i: nat)
    requires datasetName != "" && i < |DescriptionKeys(source)|
    requires DescriptionKeys(source)[i] != "default" && Contains(Lower(datasetName), DescriptionKeys(source)[i])
    requires forall j :: 0 <= j < i ==> DescriptionKeys(source)[j] == "default" || !Contains(Lower(datasetName), DescriptionKeys(source)[j])
    ensures DatasetDescription(source, datasetName) == Stored(source, DescriptionKeys(source)[i])
  {
    FirstContainedKeyIs(DescriptionKeys(source), Lower(datasetName), i);
  }

  lemma FirstContainedKeyIs(keys: seq<string>, name: string, i: nat)
    requires i < |keys| && keys[i] != "default" && Contains(name, keys[i])
    requires forall j :: 0 <= j < i ==> keys[j] == "default" || !Contains(name, keys[j])
    ensures FirstContainedKey(keys, name) == Some(i)
  {
    var r := FirstContainedKey(keys, name);
    if r.None? {
      assert false;
    }
    if r.value < i {
      assert false;
    }
  }

  /** Without a matching key, a known source gets its default text and an unknown one the generated text. */
  lemma DescriptionFallback(source: string, datasetName: string)
    requires datasetName == "" || forall j :: 0 <= j < |DescriptionKeys(source)| ==>
      DescriptionKeys(source)[j] == "default" || !Contains(Lower(datasetName), DescriptionKeys(source)[j])
    ensures source in KnownSources ==> DatasetDescription(source, datasetName) == Stored(source, "default")
    ensures source !in KnownSources ==> DatasetDescription(source, datasetName) == Generated("Dataset aus " + Upper(source))
  {
    if datasetName != "" {
      var r := FirstContainedKey(DescriptionKeys(source), Lower(datasetName));
      if r.Some? {
        assert false;
      }
    }
  }

  // ---------------------------------------------------------------------
  // create_comparison_chart
  // ---------------------------------------------------------------------

  /** Plotly's qualitative Set2 palette has eight colours. */
  const PaletteSize: nat := 8

  /** What the chart needs of one frame: its column names, its row count and its numeric columns in order. */
  datatype FrameShape = FrameShape(columns: seq<string>, rows: nat, numeric: seq<string>)

  datatype Mark = LineMark | BarMark

  /** One trace: its mark, the frame it draws, its legend name, its y column and its colour index in the palette. */
  datatype ComparisonTrace = ComparisonTrace(mark: Mark, frame: nat, name: string, y: string, colour: nat)

  /** `line` draws lines, `bar` draws bars; any other chart type draws nothing. */
  function MarkOf(chartType: string): Option<Mark>
  {
    if chartType == "line" then Some(LineMark)
    else if chartType == "bar" then Some(BarMark)
    else None
  }

  /** A frame is drawn when it has a `Date` column, rows, and a numeric column. */
  predicate Drawable(f: FrameShape)
  {
    "Date" in f.columns && f.rows > 0 && |f.numeric| > 0
  }

  /** `create_comparison_chart(dataframes, labels, chart_type)`: the traces, in order; `zip` stops at the shorter list. */
  function ComparisonTraces(frames: seq<FrameShape>, labels: seq<string>, chartType: string): (r: seq<ComparisonTrace>)
  {
    TracesUpTo(frames, labels, chartType, if |frames| < |labels| then |frames| else |labels|)
  }

  /** The traces of the first `n` frame and label pairs. */
  function TracesUpTo(frames: seq<FrameShape>, labels: seq<string>, chartType: string, n: nat): (r: seq<ComparisonTrace>)
    requires n <= |frames| && n <= |labels|
    ensures |r| <= n
    ensures forall t :: 0 <= t < |r| ==>
      (r[t].frame < n && Drawable(frames[r[t].frame]) && MarkOf(chartType) == Some(r[t].mark) &&
       r[t].y == frames[r[t].frame].numeric[0] && r[t].name == labels[r[t].frame] + " - " + r[t].y)
    ensures forall t :: 0 <= t < |r| ==> r[t].colour == r[t].frame % PaletteSize
    ensures forall s, t :: 0 <= s < t < |r| ==> r[s].frame < r[t].frame
  {
    if n == 0 then []
    else
      var i := n - 1;
      var f := frames[i];
      var earlier := TracesUpTo(frames, labels, chartType, i);
      if Drawable(f) && MarkOf(chartType).Some? then
        var y := f.numeric[0];
        earlier + [ComparisonTrace(MarkOf(chartType).value, i, labels[i] + " - " + y, y, i % PaletteSize)]
      else earlier
  }

  /** Every drawable frame within the zipped pairs gets a trace, for a line or bar chart. */
  lemma {:induction false} EveryDrawableFrameDrawn(frames: seq<FrameShape>, labels: seq<string>, chartType: string, n: nat, i: nat)
    requires n <= |frames| && n <= |labels|
    requires i < n && Drawable(frames[i]) && MarkOf(chartType).Some?
    ensures exists t :: 0 <= t < |TracesUpTo(frames, labels, chartType, n)| && TracesUpTo(frames, labels, chartType, n)[t].frame == i
  {
    var earlier := TracesUpTo(frames, labels, chartType, n - 1);
    var r := TracesUpTo(frames, labels, chartType, n);
    if i == n - 1 {
      assert r[|r| - 1].frame == i;
    } else {
      EveryDrawableFrameDrawn(frames, labels, chartType, n - 1, i);
      var t :| 0 <= t < |earlier| && earlier[t].frame == i;
      assert r[t] == earlier[t];
    }
  }

  /** Two drawn frames eight apart share a colour: the palette repeats, and a skipped frame still uses up its colour. */
  lemma ColoursCycle(frames: seq<FrameShape>, labels: seq<string>, chartType: string, s: nat, t: nat)
    requires var r := ComparisonTraces(frames, labels, chartType); s < |r| && t < |r|
    requires ComparisonTraces(frames, labels, chartType)[t].frame == ComparisonTraces(frames, labels, chartType)[s].frame + PaletteSize
    ensures ComparisonTraces(frames, labels, chartType)[t].colour == ComparisonTraces(frames, labels, chartType)[s].colour
  {
  }
}
