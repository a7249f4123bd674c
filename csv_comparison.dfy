/**
 * The detailed comparison of three CSV exports (scripts/csv_comparison.py):
 * loading with German number format, the time overlap of two ranges,
 * name similarity scores, and the six parameter categories.
 */
module CsvComparison {
  import opened Strings
  import opened Frame
  import opened Columns
  import opened Categories
  import DetailedAnalysis
  import SimpleComparison

  // ---------------------------------------------------------------------
  // Loading
  // ---------------------------------------------------------------------

  /** The parser applied after the comma replacement: double quotes are removed first. */
  function QuoteFree(toNumber: string -> Option<real>): string -> Option<real>
  {
    s => toNumber(RemoveChar(s, '"'))
  }

  /**
   * `load_csv_with_german_format`: `read` is the pandas read (`None` where it
   * raises); every object column other than 'Datum + Uhrzeit' then has ','
   * made '.', '"' removed, and is coerced to numbers.
   */
  method LoadGermanFormat(read: Option<Table>, toNumber: string -> Option<real>) returns (r: Option<Table>)
    requires read.Some? ==> WellFormed(read.value)
    ensures r.None? <==> read.None?
    ensures r.Some? ==> CoercedFrom(read.value, r.value, ["Datum + Uhrzeit"], QuoteFree(toNumber))
  {
    if read.None? {
      return None;
    }
    var t := CoerceNumericColumns(read.value, ["Datum + Uhrzeit"], QuoteFree(toNumber));
    return Some(t);
  }

  /**
   * A text cell of a converted column becomes the number the German
   * normalisation of csv_detailed_analysis gives it, or missing.
   */
  lemma ConvertedText(t: Table, r: Table, toNumber: string -> Option<real>, j: nat, i: nat)
    requires CoercedFrom(t, r, ["Datum + Uhrzeit"], QuoteFree(toNumber))
    requires j < |t.columns| && t.columns[j] != "Datum + Uhrzeit" && IsObject(Column(t, j))
    requires i < |t.rows| && Column(t, j)[i].Text?
    ensures Column(r, j)[i] == match toNumber(DetailedAnalysis.Normalized(Column(t, j)[i].s))
      case Some(x) => Num(x)
      case None => Missing
  {
    assert Coerced(t, ["Datum + Uhrzeit"], j);
  }

  // ---------------------------------------------------------------------
  // Time overlap
  // ---------------------------------------------------------------------

  /** A time range (first, last) in seconds. */
  type Range = (int, int)

  function Max(a: int, b: int): int { if a >= b then a else b }
  function Min(a: int, b: int): int { if a <= b then a else b }

  /** `find_overlap`: (latest start, earliest end) when that is not empty. */
  function FindOverlap(r1: Range, r2: Range): (o: Option<Range>)
    ensures o.Some? <==> r1.0 <= r2.1 && r2.0 <= r1.1 && r1.0 <= r1.1 && r2.0 <= r2.1
    ensures o.Some? ==> o.value.0 <= o.value.1
    ensures o.Some? ==> r1.0 <= o.value.0 && r2.0 <= o.value.0 && o.value.1 <= r1.1 && o.value.1 <= r2.1
  {
    var start := Max(r1.0, r2.0);
    var end := Min(r1.1, r2.1);
    if start <= end then Some((start, end)) else None
  }

  /** The overlap holds exactly the instants that lie in both ranges. */
  lemma OverlapIsIntersection(r1: Range, r2: Range, t: int)
    ensures (FindOverlap(r1, r2).Some? && FindOverlap(r1, r2).value.0 <= t <= FindOverlap(r1, r2).value.1)
      <==> (r1.0 <= t <= r1.1 && r2.0 <= t <= r2.1)
  {
  }

  lemma OverlapSymmetric(r1: Range, r2: Range)
    ensures FindOverlap(r1, r2) == FindOverlap(r2, r1)
  {
  }

  // ---------------------------------------------------------------------
  // Similar names
  // ---------------------------------------------------------------------

  /** 1.0 for names equal ignoring case, 0.8 when one lowercased name contains the other. */
  function Score(c1: string, c2: string): (s: Option<real>)
    ensures s == Some(1.0) <==> Lower(c1) == Lower(c2)
    ensures s == Some(0.8) <==> Lower(c1) != Lower(c2) && (Contains(Lower(c2), Lower(c1)) || Contains(Lower(c1), Lower(c2)))
    ensures s.None? <==> !Contains(Lower(c2), Lower(c1)) && !Contains(Lower(c1), Lower(c2))
  {
    if Lower(c1) == Lower(c2) then
      ContainsItself(Lower(c1));
      Some(1.0)
    else if Contains(Lower(c2), Lower(c1)) || Contains(Lower(c1), Lower(c2)) then Some(0.8)
    else None
  }

  lemma ContainsItself(s: string)
    ensures Contains(s, s)
  {
    assert s[..|s|] == s;
  }

  function ScoredFor(c1: string, cols2: seq<string>): (r: seq<(string, string, real)>)
    ensures forall p :: p in r <==> p.0 == c1 && p.1 in cols2 && Score(c1, p.1) == Some(p.2)
  {
    if cols2 == [] then []
    else
      var init := cols2[..|cols2| - 1];
      var c2 := cols2[|cols2| - 1];
      assert cols2 == init + [c2];
      ScoredFor(c1, init) + (match Score(c1, c2) case Some(s) => [(c1, c2, s)] case None => [])
  }

  /** `find_similar_columns` over the two column lists in their iteration order. */
  function Scored(cols1: seq<string>, cols2: seq<string>): (r: seq<(string, string, real)>)
    ensures forall p :: p in r <==> p.0 in cols1 && p.1 in cols2 && Score(p.0, p.1) == Some(p.2)
  {
    if cols1 == [] then []
    else
      var init := cols1[..|cols1| - 1];
      assert cols1 == init + [cols1[|cols1| - 1]];
      Scored(init, cols2) + ScoredFor(cols1[|cols1| - 1], cols2)
  }

  /** The score does not depend on the order of the two names, so neither do the pairs found. */
  lemma ScoredSymmetric(cols1: seq<string>, cols2: seq<string>, c1: string, c2: string, s: real)
    ensures (c1, c2, s) in Scored(cols1, cols2) <==> (c2, c1, s) in Scored(cols2, cols1)
  {
    assert Score(c1, c2) == Score(c2, c1);
  }

  /** Every reported score is 1.0 or 0.8. */
  lemma ScoresAreFixed(cols1: seq<string>, cols2: seq<string>, p: (string, string, real))
    requires p in Scored(cols1, cols2)
    ensures p.2 == 1.0 || p.2 == 0.8
  {
  }

  method FindSimilarFor(c1: string, cols2: seq<string>) returns (r: seq<(string, string, real)>)
    ensures r == ScoredFor(c1, cols2)
  {
    r := [];
    for j := 0 to |cols2|
      invariant r == ScoredFor(c1, cols2[..j])
    {
      assert cols2[..j + 1][..j] == cols2[..j] && cols2[..j + 1][j] == cols2[j];
      var a, b := Lower(c1), Lower(cols2[j]);
      if a == b {
        r := r + [(c1, cols2[j], 1.0)];
      } else if Contains(b, a) || Contains(a, b) {
        r := r + [(c1, cols2[j], 0.8)];
      }
    }
    assert cols2[..|cols2|] == cols2;
  }

  method FindSimilarColumns(cols1: seq<string>, cols2: seq<string>) returns (similar: seq<(string, string, real)>)
    ensures similar == Scored(cols1, cols2)
  {
    similar := [];
    for i := 0 to |cols1|
      invariant similar == Scored(cols1[..i], cols2)
    {
      assert cols1[..i + 1][..i] == cols1[..i];
      var found := FindSimilarFor(cols1[i], cols2);
      similar := similar + found;
    }
    assert cols1[..|cols1|] == cols1;
  }

  // ---------------------------------------------------------------------
  // Parameter categories
  // ---------------------------------------------------------------------

  datatype Category = Temperatur | StromEnergie | Durchfluss | Leistung | Zaehlerstand | Sonstige

  /** The `if/elif` chain of `categorize_parameters`, on the lowercased name. */
  const Rules: seq<Rule<Category>> := [
    Rule(Temperatur, ["temperatur", "(°c)", "vorlauf", "rücklauf"]),
    Rule(StromEnergie, ["strom", "energie", "(kwh)"]),
    Rule(Durchfluss, ["durchfluss", "durchfluß", "(m³/h)"]),
    Rule(Leistung, ["leistung", "(kw)", "(w)"]),
    Rule(Zaehlerstand, ["zähler", "zählerstand"])
  ]

  /** The six keys of the result, in their order of declaration. */
  const AllCategories: seq<Category> := [Temperatur, StromEnergie, Durchfluss, Leistung, Zaehlerstand, Sonstige]

  function CategoryOf(name: string): (c: Category)
    ensures c in AllCategories
  {
    Classify(Lower(name), Rules, Sonstige)
  }

  /** A column goes to rule `i`'s category exactly when that rule is the first to match. */
  lemma CategoryOfIsFirstMatch(name: string, i: nat)
    requires i < |Rules|
    ensures CategoryOf(name) == Rules[i].category <==>
      ContainsAny(Lower(name), Rules[i].keys) && forall j :: 0 <= j < i ==> !ContainsAny(Lower(name), Rules[j].keys)
  {
    RulesDistinct();
    ClassifyIsFirstMatch(Lower(name), Rules, Sonstige, i);
  }

  lemma RulesDistinct()
    ensures DistinctLabels(Rules, Sonstige)
  {
    var cs := [Temperatur, StromEnergie, Durchfluss, Leistung, Zaehlerstand];
    assert forall i :: 0 <= i < |Rules| ==> Rules[i].category == cs[i];
  }

  /**
   * `categorize_parameters`: all six keys are present, and each holds the
   * columns of its category in input order.
   */
  method CategorizeParameters(columns: seq<string>) returns (m: map<Category, seq<string>>)
    ensures m.Keys == set c | c in AllCategories
    ensures forall c :: c in m ==> m[c] == Group(columns, CategoryOf, c)
  {
    m := GroupInto(columns, CategoryOf, AllCategories);
  }

  /** Every column is in exactly one category list, and the list sizes add up to the column count. */
  lemma CategoriesPartition(columns: seq<string>, x: string, c: Category)
    requires x in columns
    ensures x in Group(columns, CategoryOf, c) <==> c == CategoryOf(x)
    ensures SumSizes(columns, CategoryOf, AllCategories) == |columns|
  {
    SizesSumToCount(columns, CategoryOf, AllCategories);
  }

  // ---------------------------------------------------------------------
  // Unique columns
  // ---------------------------------------------------------------------

  /**
   * The "unique to file i" sets (`cols_i` minus the other two) share no
   * column, and none of them meets a pairwise common set it is not part of.
   */
  lemma UniqueColumnsDisjoint(cols1: set<string>, cols2: set<string>, cols3: set<string>)
    ensures SimpleComparison.OnlyIn(cols1, cols2, cols3) * SimpleComparison.OnlyIn(cols2, cols1, cols3) == {}
    ensures SimpleComparison.OnlyIn(cols1, cols2, cols3) * SimpleComparison.OnlyIn(cols3, cols1, cols2) == {}
    ensures SimpleComparison.OnlyIn(cols2, cols1, cols3) * SimpleComparison.OnlyIn(cols3, cols1, cols2) == {}
    ensures SimpleComparison.OnlyIn(cols1, cols2, cols3) * (cols1 * cols2) == {}
    ensures SimpleComparison.OnlyIn(cols1, cols2, cols3) * (cols1 * cols3) == {}
  {
    SimpleComparison.OnlyInDisjoint(cols1, cols2, cols3);
  }
}
