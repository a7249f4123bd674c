/**
 * The comparison of the July export with the two "Relevant" exports of the
 * Erentrudisstraße monitoring (scripts/compare_all_files.py): the time range
 * each file covers, its columns grouped by case-sensitive keywords, the
 * three-way Venn regions of the column names, and the breakdown of the
 * columns only the July export has.
 */
module AllFiles {
  import opened Strings
  import opened Categories
  import opened Regions
  import opened Spans
  import DateFormat

  // ---------------------------------------------------------------------
  // Time range
  // ---------------------------------------------------------------------

  /** One cell under `format='%d.%m.%Y %H:%M'`, as seconds; `None` where parsing raises. */
  function StampOf(s: string): Option<int>
  {
    match DateFormat.Parse(s)
    case None => None
    case Some(dt) => Some(DateFormat.Seconds(dt))
  }

  /**
   * `pd.to_datetime(column, format=...)`: `None` when any present cell does not
   * parse (pandas raises); otherwise one timestamp per row, `NaT` for a
   * missing cell.
   */
  function ParseColumn(cells: seq<Option<string>>): (r: Option<seq<Option<int>>>)
    ensures r.None? <==> exists i :: 0 <= i < |cells| && cells[i].Some? && StampOf(cells[i].value).None?
    ensures r.Some? ==> |r.value| == |cells|
    ensures r.Some? ==> forall i :: 0 <= i < |cells| ==>
      r.value[i] == (if cells[i].None? then None else StampOf(cells[i].value))
  {
    if exists i :: 0 <= i < |cells| && cells[i].Some? && StampOf(cells[i].value).None? then None
    else Some(seq(|cells|, i requires 0 <= i < |cells| => if cells[i].None? then None else StampOf(cells[i].value)))
  }

  /** What `analyze_file` prints about time: nothing, or range, duration and (when it has one) the interval. */
  datatype TimeInfo = NoTimeInfo | TimeInfo(first: int, last: int, days: int, interval: Option<int>)

  /**
   * The `try` block of `analyze_file`: it prints nothing when the file has no
   * 'Datum + Uhrzeit' column (`None`), when parsing raises, or when every
   * timestamp is `NaT` (formatting the minimum raises); the interval is
   * missing when `mode()[0]` raises after the duration has been printed.
   */
  function TimeSummary(column: Option<seq<Option<string>>>): (r: TimeInfo)
    ensures r.NoTimeInfo? <==>
      (column.None? || ParseColumn(column.value).None? || TimeRange(ParseColumn(column.value).value).None?)
    ensures r.TimeInfo? ==> TimeRange(ParseColumn(column.value).value) == Some((r.first, r.last))
    ensures r.TimeInfo? ==> r.first <= r.last && r.days == DurationDays(r.first, r.last) && r.days >= 1
    ensures r.TimeInfo? ==> r.interval == Interval(ParseColumn(column.value).value)
  {
    if column.None? then NoTimeInfo
    else match ParseColumn(column.value)
      case None => NoTimeInfo
      case Some(ts) =>
        match TimeRange(ts)
        case None => NoTimeInfo
        case Some(range) =>
          DurationBounds(range.0, range.1);
          TimeInfo(range.0, range.1, DurationDays(range.0, range.1), Interval(ts))
  }

  /** A column with every cell present. */
  function Filled(cells: seq<string>): (column: seq<Option<string>>)
    ensures |column| == |cells|
    ensures forall k :: 0 <= k < |cells| ==> column[k] == Some(cells[k])
  {
    seq(|cells|, k requires 0 <= k < |cells| => Some(cells[k]))
  }

  /** A column of well-formed timestamps gets a summary whose range holds every one of them. */
  lemma SummaryCoversEveryStamp(cells: seq<string>, i: nat)
    requires forall k :: 0 <= k < |cells| ==> StampOf(cells[k]).Some?
    requires i < |cells|
    ensures TimeSummary(Some(Filled(cells))).TimeInfo?
    ensures TimeSummary(Some(Filled(cells))).first <= StampOf(cells[i]).value <= TimeSummary(Some(Filled(cells))).last
  {
    var ts := ParseColumn(Filled(cells)).value;
    assert ts[i] == StampOf(cells[i]);
  }

  /** Timestamps rendered in the export's own format parse back to the same instant. */
  lemma RenderedStampParses(dt: DateFormat.DateTime)
    requires DateFormat.Valid(dt)
    ensures StampOf(DateFormat.Format(dt)) == Some(DateFormat.Seconds(dt))
  {
    DateFormat.ParseFormat(dt);
  }

  // ---------------------------------------------------------------------
  // Parameter categories
  // ---------------------------------------------------------------------

  datatype Category = Puffer | Heizkreis | Ventil | PumpeDrehzahl | ZaehlerEnergie | Temperatur | Durchfluss | Status | Andere

  /** The dictionary keys in their order of declaration. */
  const AllCategories: seq<Category> :=
    [Puffer, Heizkreis, Ventil, PumpeDrehzahl, ZaehlerEnergie, Temperatur, Durchfluss, Status, Andere]

  function Rank(c: Category): int
  {
    match c
    case Puffer => 0
    case Heizkreis => 1
    case Ventil => 2
    case PumpeDrehzahl => 3
    case ZaehlerEnergie => 4
    case Temperatur => 5
    case Durchfluss => 6
    case Status => 7
    case Andere => 8
  }

  /** The `if/elif` chain of `analyze_file`, applied to the column name as it is (case matters). */
  const Rules: seq<Rule<Category>> := [
    Rule(Puffer, ["Puffer"]),
    Rule(Heizkreis, ["HK", "Heizkreis"]),
    Rule(Ventil, ["Ventil"]),
    Rule(PumpeDrehzahl, ["Pumpe", "Drehzahl"]),
    Rule(ZaehlerEnergie, ["Zähler", "Leistung", "kWh", "Energie"]),
    Rule(Temperatur, ["°C", "Temperatur", "temperatur"]),
    Rule(Durchfluss, ["Durchfluss", "m³/h"]),
    Rule(Status, ["Status"])
  ]

  function CategoryOf(name: string): (c: Category)
    ensures c in AllCategories
  {
    Classify(name, Rules, Andere)
  }

  lemma RulesDistinct()
    ensures DistinctLabels(Rules, Andere)
  {
    assert forall i :: 0 <= i < |Rules| ==> Rank(Rules[i].category) == i;
  }

  lemma CategoriesRanked()
    ensures forall i, j :: 0 <= i < j < |AllCategories| ==> Rank(AllCategories[i]) < Rank(AllCategories[j])
    ensures forall i, j :: 0 <= i < j < |AllCategories| ==> AllCategories[i] != AllCategories[j]
  {
    assert forall i :: 0 <= i < |AllCategories| ==> Rank(AllCategories[i]) == i;
  }

  /** A column gets rule `i`'s category exactly when that rule is the first whose keyword its name contains. */
  lemma CategoryOfIsFirstMatch(name: string, i: nat)
    requires i < |Rules|
    ensures CategoryOf(name) == Rules[i].category <==>
      ContainsAny(name, Rules[i].keys) && forall j :: 0 <= j < i ==> !ContainsAny(name, Rules[j].keys)
  {
    RulesDistinct();
    ClassifyIsFirstMatch(name, Rules, Andere, i);
  }

  /** A column is 'Andere' exactly when it contains none of the keywords. */
  lemma OtherIffNoKeyword(name: string)
    ensures CategoryOf(name) == Andere <==> forall j :: 0 <= j < |Rules| ==> !ContainsAny(name, Rules[j].keys)
  {
    RulesDistinct();
    ClassifyFallback(name, Rules, Andere);
  }

  /** Every buffer column is a 'Puffer' column, whatever else its name holds. */
  lemma BufferFirst(name: string)
    requires Contains(name, "Puffer")
    ensures CategoryOf(name) == Puffer
  {
    assert ContainsAny(name, Rules[0].keys) by { assert "Puffer" in Rules[0].keys; }
  }

  function Groups(columns: seq<string>): (m: map<Category, seq<string>>)
    ensures m.Keys == set c | c in AllCategories
    ensures forall c :: c in m ==> m[c] == Group(columns, CategoryOf, c)
  {
    map c | c in AllCategories :: Group(columns, CategoryOf, c)
  }

  /** The categories `analyze_file` prints: the non-empty ones, in the dictionary's order. */
  function Categorized(columns: seq<string>): seq<(Category, seq<string>)>
  {
    NonEmpty(AllCategories, Groups(columns))
  }

  /** The grouping loop of `analyze_file`, followed by dropping the empty categories. */
  method AnalyzeCategories(columns: seq<string>) returns (r: seq<(Category, seq<string>)>)
    ensures r == Categorized(columns)
  {
    var m := GroupInto(columns, CategoryOf, AllCategories);
    assert m == Groups(columns);
    r := NonEmpty(AllCategories, m);
  }

  /** Each column is listed exactly once, under its category. */
  lemma EachColumnOnce(columns: seq<string>, x: string)
    requires x in columns
    ensures exists p :: p in Categorized(columns) && p.0 == CategoryOf(x) && x in p.1
    ensures forall p :: p in Categorized(columns) && x in p.1 ==> p.0 == CategoryOf(x)
  {
    var m := Groups(columns);
    assert x in m[CategoryOf(x)];
  }

  /** The printed category counts add up to the column count. */
  lemma SizesAddUp(columns: seq<string>)
    ensures PairsTotal(Categorized(columns)) == |columns|
  {
    CategoriesRanked();
    NonEmptyTotal(AllCategories, Groups(columns), columns, CategoryOf);
    SizesSumToCount(columns, CategoryOf, AllCategories);
  }

  /** The printed categories keep the dictionary's order. */
  lemma KeepsFixedOrder(columns: seq<string>)
    ensures forall i, j :: 0 <= i < j < |Categorized(columns)| ==>
      Rank(Categorized(columns)[i].0) < Rank(Categorized(columns)[j].0)
  {
    CategoriesRanked();
    NonEmptyKeepsOrder(AllCategories, Groups(columns), Rank);
  }

  // ---------------------------------------------------------------------
  // Columns only the July export has
  // ---------------------------------------------------------------------

  /** The four lists `compare_three_files` prints for the columns unique to the July export. */
  datatype Breakdown = Breakdown(puffer: set<string>, drehzahl: set<string>, ev: set<string>, other: set<string>)

  /**
   * 'Puffer', 'Drehzahl' and 'EV' columns, and the rest: a column counts as
   * other when it is in none of the three lists.
   */
  function BreakdownOf(onlyAll: set<string>): (b: Breakdown)
    ensures forall p :: p in b.puffer <==> p in onlyAll && Contains(p, "Puffer")
    ensures forall p :: p in b.drehzahl <==> p in onlyAll && Contains(p, "Drehzahl")
    ensures forall p :: p in b.ev <==> p in onlyAll && Contains(p, "EV")
    ensures forall p :: p in b.other <==> p in onlyAll && !Contains(p, "Puffer") && !Contains(p, "Drehzahl") && !Contains(p, "EV")
  {
    var puffer := set p | p in onlyAll && Contains(p, "Puffer");
    var drehzahl := set p | p in onlyAll && Contains(p, "Drehzahl");
    var ev := set p | p in onlyAll && Contains(p, "EV");
    Breakdown(puffer, drehzahl, ev, onlyAll - (puffer + drehzahl + ev))
  }

  /**
   * The four lists together hold every unique column, and 'other' shares
   * none with the three keyword lists.
   */
  lemma BreakdownCovers(onlyAll: set<string>)
    ensures BreakdownOf(onlyAll).puffer + BreakdownOf(onlyAll).drehzahl + BreakdownOf(onlyAll).ev + BreakdownOf(onlyAll).other == onlyAll
    ensures BreakdownOf(onlyAll).other * (BreakdownOf(onlyAll).puffer + BreakdownOf(onlyAll).drehzahl + BreakdownOf(onlyAll).ev) == {}
  {
    var b := BreakdownOf(onlyAll);
    forall p | p in onlyAll
      ensures p in b.puffer + b.drehzahl + b.ev + b.other
    {
    }
  }

  /** The keyword lists are not exclusive: a buffer pump speed is listed under both. */
  lemma KeywordListsOverlap(onlyAll: set<string>)
    requires "Puffer Drehzahl" in onlyAll
    ensures "Puffer Drehzahl" in BreakdownOf(onlyAll).puffer * BreakdownOf(onlyAll).drehzahl
  {
    var p := "Puffer Drehzahl";
    ContainsAt(p, "Puffer", 0);
    assert p[7..15] == "Drehzahl";
    ContainsAt(p, "Drehzahl", 7);
  }
}
