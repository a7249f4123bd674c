/**
 * The grouping rules of the dashboard's column toggle panel
 * (src/column_toggle_component.py): columns sorted into eleven categories by
 * the first keyword group their lowercased name hits, empty categories
 * dropped, and the initial state of each category checkbox.
 */
module ColumnToggle {
  import opened Strings
  import opened Categories

  datatype Category =
    | DatumZeit | Temperaturen | EnergieLeistung | DurchflussVolumenstrom | VentileStellwerte
    | PumpenMotoren | Heizkreise | WetterUmgebung | SensorenMesswerte | SystemStatus | Sonstige

  /** The keys of `categories`, in the order the dictionary is built. */
  const AllCategories: seq<Category> := [
    DatumZeit, Temperaturen, EnergieLeistung, DurchflussVolumenstrom, VentileStellwerte,
    PumpenMotoren, Heizkreise, WetterUmgebung, SensorenMesswerte, SystemStatus, Sonstige
  ]

  /** The display name, which is also the dictionary key. */
  function Name(c: Category): string
  {
    match c
    case DatumZeit => "Datum & Zeit"
    case Temperaturen => "Temperaturen"
    case EnergieLeistung => "Energie & Leistung"
    case DurchflussVolumenstrom => "Durchfluss & Volumenstrom"
    case VentileStellwerte => "Ventile & Stellwerte"
    case PumpenMotoren => "Pumpen & Motoren"
    case Heizkreise => "Heizkreise"
    case WetterUmgebung => "Wetter & Umgebung"
    case SensorenMesswerte => "Sensoren & Messwerte"
    case SystemStatus => "System & Status"
    case Sonstige => "Sonstige"
  }

  /** Position of the category among the dictionary keys. */
  function Rank(c: Category): int
  {
    match c
    case DatumZeit => 0
    case Temperaturen => 1
    case EnergieLeistung => 2
    case DurchflussVolumenstrom => 3
    case VentileStellwerte => 4
    case PumpenMotoren => 5
    case Heizkreise => 6
    case WetterUmgebung => 7
    case SensorenMesswerte => 8
    case SystemStatus => 9
    case Sonstige => 10
  }

  /** The `if/elif` chain of `categorize_columns`; a name matching none goes to Sonstige. */
  const Rules: seq<Rule<Category>> := [
    Rule(DatumZeit, ["date", "zeit", "time", "datum", "timestamp", "jahr", "monat", "tag"]),
    Rule(Temperaturen, ["temp", "temperature", "°c", "grad", "celsius", "vorlauf", "rücklauf", "ruecklauf"]),
    Rule(EnergieLeistung, ["energie", "energy", "leistung", "power", "kwh", "kw", "watt", "strom", "spannung",
                           "consumption", "verbrauch"]),
    Rule(DurchflussVolumenstrom, ["durchfluss", "flow", "volumenstrom", "volume", "l/h", "m³", "m3", "liter", "menge"]),
    Rule(VentileStellwerte, ["ventil", "valve", "stellwert", "stellung", "position", "prozent", "%", "öffnung", "oeffnung"]),
    Rule(PumpenMotoren, ["pumpe", "pump", "motor", "drehzahl", "rpm", "frequenz", "hz", "laufzeit", "betrieb"]),
    Rule(Heizkreise, ["heizkreis", "hk", "hkr", "heating", "kreis", "wärme", "waerme", "fernwärme", "fernwaerme"]),
    Rule(WetterUmgebung, ["wetter", "weather", "außen", "aussen", "wind", "regen", "sonne", "strahlung", "luftfeuchte",
                          "humidity", "niederschlag"]),
    Rule(SensorenMesswerte, ["sensor", "messwert", "measurement", "fühler", "fuehler", "signal", "wert", "value", "meldung"]),
    Rule(SystemStatus, ["status", "zustand", "state", "alarm", "fehler", "error", "warnung", "warning", "betriebsart",
                        "mode", "quelle"])
  ]

  function CategoryOf(name: string): (c: Category)
    ensures c in AllCategories
  {
    Classify(Lower(name), Rules, Sonstige)
  }

  lemma RulesDistinct()
    ensures DistinctLabels(Rules, Sonstige)
  {
    assert forall i :: 0 <= i < |Rules| ==> Rank(Rules[i].category) == i;
  }

  lemma CategoriesRanked()
    ensures forall i, j :: 0 <= i < j < |AllCategories| ==> Rank(AllCategories[i]) < Rank(AllCategories[j])
    ensures forall i, j :: 0 <= i < j < |AllCategories| ==> AllCategories[i] != AllCategories[j]
  {
    assert forall i :: 0 <= i < |AllCategories| ==> Rank(AllCategories[i]) == i;
  }

  /** A column gets group `i` exactly when group `i` is the first whose keyword its lowercased name contains. */
  lemma CategoryOfIsFirstMatch(name: string, i: nat)
    requires i < |Rules|
    ensures CategoryOf(name) == Rules[i].category <==>
      ContainsAny(Lower(name), Rules[i].keys) && forall j :: 0 <= j < i ==> !ContainsAny(Lower(name), Rules[j].keys)
  {
    RulesDistinct();
    ClassifyIsFirstMatch(Lower(name), Rules, Sonstige, i);
  }

  /** Date and time keywords win over every other group, e.g. 'Tagesenergie' is a date column. */
  lemma DateKeywordsWin(name: string)
    requires ContainsAny(Lower(name), Rules[0].keys)
    ensures CategoryOf(name) == DatumZeit
  {
  }

  /** The groups before empty ones are removed: every category with its columns in input order. */
  function Groups(columns: seq<string>): (m: map<Category, seq<string>>)
    ensures m.Keys == set c | c in AllCategories
    ensures forall c :: c in m ==> m[c] == Group(columns, CategoryOf, c)
  {
    map c | c in AllCategories :: Group(columns, CategoryOf, c)
  }

  /** `categorize_columns`: the non-empty categories in their fixed order with their columns. */
  function Categorized(columns: seq<string>): seq<(Category, seq<string>)>
  {
    NonEmpty(AllCategories, Groups(columns))
  }

  method CategorizeColumns(columns: seq<string>) returns (r: seq<(Category, seq<string>)>)
    ensures r == Categorized(columns)
  {
    var m := GroupInto(columns, CategoryOf, AllCategories);
    assert m == Groups(columns);
    r := NonEmpty(AllCategories, m);
  }

  /**
   * Each column lands in exactly one listed category, the one it is
   * classified as; no listed category is empty.
   */
  lemma EachColumnOnce(columns: seq<string>, x: string)
    requires x in columns
    ensures exists p :: p in Categorized(columns) && p.0 == CategoryOf(x) && x in p.1
    ensures forall p :: p in Categorized(columns) && x in p.1 ==> p.0 == CategoryOf(x)
    ensures forall p :: p in Categorized(columns) ==> p.1 != []
  {
    var m := Groups(columns);
    assert x in m[CategoryOf(x)];
  }

  /** The category sizes add up to the number of columns. */
  lemma SizesAddUp(columns: seq<string>)
    ensures PairsTotal(Categorized(columns)) == |columns|
  {
    CategoriesRanked();
    NonEmptyTotal(AllCategories, Groups(columns), columns, CategoryOf);
    SizesSumToCount(columns, CategoryOf, AllCategories);
  }

  /** The remaining categories keep the fixed order of the dictionary. */
  lemma KeepsFixedOrder(columns: seq<string>)
    ensures forall i, j :: 0 <= i < j < |Categorized(columns)| ==>
      Rank(Categorized(columns)[i].0) < Rank(Categorized(columns)[j].0)
  {
    CategoriesRanked();
    NonEmptyKeepsOrder(AllCategories, Groups(columns), Rank);
  }

  // ---------------------------------------------------------------------
  // Panel state
  // ---------------------------------------------------------------------

  /** `visible_columns`, where `None` means every column of the frame. */
  function VisibleColumns(all: seq<string>, visible: Option<seq<string>>): seq<string>
  {
    match visible
    case None => all
    case Some(v) => v
  }

  /** A category checkbox starts checked iff all its columns are visible. */
  predicate AllChecked(columns: seq<string>, visible: seq<string>)
  {
    forall c :: c in columns ==> c in visible
  }

  /** With no visible list given, every category checkbox starts checked. */
  lemma NoneMeansAllChecked(all: seq<string>, p: (Category, seq<string>))
    requires p in Categorized(all)
    ensures AllChecked(p.1, VisibleColumns(all, None))
  {
  }

  /** `.replace('&', 'and')`. */
  function ExpandAmpersand(s: string): (r: string)
    ensures '&' !in r
    ensures forall c :: c in r && c != 'a' && c != 'n' && c != 'd' ==> c in s
    ensures '&' !in s ==> r == s
  {
    if s == [] then []
    else if s[0] == '&' then "and" + ExpandAmpersand(s[1..])
    else [s[0]] + ExpandAmpersand(s[1..])
  }

  /** `category.replace(' ', '_').replace('&', 'and')`: an id without spaces or ampersands. */
  function CategoryId(name: string): (id: string)
    ensures ' ' !in id && '&' !in id
    ensures ' ' !in name && '&' !in name ==> id == name
  {
    var underscored := ReplaceChar(name, ' ', '_');
    assert ' ' !in underscored;
    ExpandAmpersand(underscored)
  }

  /** The id of one character: a space becomes `_`, an ampersand `and`, anything else stays. */
  function IdOfChar(c: char): string
  {
    if c == ' ' then "_" else if c == '&' then "and" else [c]
  }

  /** The expansion works character by character, so it splits over a concatenation. */
  lemma {:induction false} ExpandAmpersandAppend(a: string, b: string)
    ensures ExpandAmpersand(a + b) == ExpandAmpersand(a) + ExpandAmpersand(b)
  {
    if a == [] {
      assert a + b == b;
    } else {
      assert (a + b)[0] == a[0];
      assert (a + b)[1..] == a[1..] + b;
      ExpandAmpersandAppend(a[1..], b);
    }
  }

  /** The id is the name with each character replaced by its own id, in order. */
  lemma {:induction false} CategoryIdByChar(name: string)
    ensures name == [] ==> CategoryId(name) == []
    ensures name != [] ==> CategoryId(name) == IdOfChar(name[0]) + CategoryId(name[1..])
  {
    if name != [] {
      var u := ReplaceChar(name, ' ', '_');
      var rest := ReplaceChar(name[1..], ' ', '_');
      assert u == [u[0]] + rest;
      ExpandAmpersandAppend([u[0]], rest);
    }
  }
}
