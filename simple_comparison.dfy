/**
 * The column comparison of three CSV exports (scripts/csv_comparison_simple.py):
 * keyword categories of column names, exact and keyword-based matches between
 * two header lists, the row count of a file, and the columns unique to one file.
 */
module SimpleComparison {
  import opened Strings
  import opened Categories

  datatype Category = Temperatur | StromEnergie | Durchfluss | Leistung | Zaehlerstand | Kaeltetechnik | Sonstige

  /** The `if/elif` chain of `categorize_column`, applied to the lowercased name. */
  const Rules: seq<Rule<Category>> := [
    Rule(Temperatur, ["temperatur", "(°c)", "vorlauf", "rücklauf", "außenfühler"]),
    Rule(StromEnergie, ["strom", "energie", "(kwh)"]),
    Rule(Durchfluss, ["durchfluss", "durchfluß", "(m³/h)", "(m³)"]),
    Rule(Leistung, ["leistung", "(kw)", "(w)"]),
    Rule(Zaehlerstand, ["zähler", "zählerstand", "kmz", "wmz"]),
    Rule(Kaeltetechnik, ["kälte"])
  ]

  function CategorizeColumn(name: string): Category
  {
    Classify(Lower(name), Rules, Sonstige)
  }

  /**
   * A column gets the category of rule `i` exactly when its lowercased name
   * contains one of that rule's keywords and none of an earlier rule's.
   */
  lemma CategorizeColumnIsFirstMatch(name: string, i: nat)
    requires i < |Rules|
    ensures CategorizeColumn(name) == Rules[i].category <==>
      ContainsAny(Lower(name), Rules[i].keys) && forall j :: 0 <= j < i ==> !ContainsAny(Lower(name), Rules[j].keys)
  {
    RulesDistinct();
    ClassifyIsFirstMatch(Lower(name), Rules, Sonstige, i);
  }

  /** 'Sonstige' is given exactly to names that match no rule. */
  lemma CategorizeColumnOther(name: string)
    ensures CategorizeColumn(name) == Sonstige <==>
      forall j :: 0 <= j < |Rules| ==> !ContainsAny(Lower(name), Rules[j].keys)
  {
    RulesDistinct();
    ClassifyFallback(Lower(name), Rules, Sonstige);
  }

  lemma RulesDistinct()
    ensures DistinctLabels(Rules, Sonstige)
  {
    var cs := [Temperatur, StromEnergie, Durchfluss, Leistung, Zaehlerstand, Kaeltetechnik];
    assert forall i :: 0 <= i < |Rules| ==> Rules[i].category == cs[i];
  }

  /** A supply-line column ('vorlauf') is a temperature even when it also mentions 'strom'. */
  lemma SupplyLineIsTemperature(name: string)
    requires Contains(Lower(name), "vorlauf")
    ensures CategorizeColumn(name) == Temperatur
  {
    assert Rules[0].keys[2] == "vorlauf";
    EarlierRuleWins(Lower(name), Rules, Sonstige, 0, "vorlauf");
  }

  /** `[c1 for c1 in cols1 if c1 in cols2]`, from the end. */
  function ExactMatches(cols1: seq<string>, cols2: seq<string>): (r: seq<string>)
    ensures forall x :: x in r <==> x in cols1 && x in cols2
    ensures forall x :: x in cols2 ==> multiset(r)[x] == multiset(cols1)[x]
    ensures |r| <= |cols1|
  {
    if cols1 == [] then []
    else
      var init := cols1[..|cols1| - 1];
      var last := cols1[|cols1| - 1];
      assert cols1 == init + [last];
      ExactMatches(init, cols2) + (if last in cols2 then [last] else [])
  }

  /** Appending one name appends it to the matches exactly when cols2 holds it. */
  lemma ExactMatchesSnoc(s: seq<string>, x: string, cols2: seq<string>)
    ensures ExactMatches(s + [x], cols2) == ExactMatches(s, cols2) + (if x in cols2 then [x] else [])
  {
    assert (s + [x])[..|s|] == s;
  }

  /** The matches of a concatenation are the matches of each part, in order. */
  lemma {:induction false} ExactMatchesAppend(a: seq<string>, b: seq<string>, cols2: seq<string>)
    ensures ExactMatches(a + b, cols2) == ExactMatches(a, cols2) + ExactMatches(b, cols2)
    decreases |b|
  {
    if b == [] {
      assert a + b == a;
    } else {
      var init, last := b[..|b| - 1], b[|b| - 1];
      assert b == init + [last];
      assert a + b == (a + init) + [last];
      ExactMatchesSnoc(a + init, last, cols2);
      ExactMatchesSnoc(init, last, cols2);
      ExactMatchesAppend(a, init, cols2);
      MatchesRegroup(ExactMatches(a, cols2), ExactMatches(init, cols2), if last in cols2 then [last] else []);
    }
  }

  /** Regrouping a concatenation of match lists. */
  lemma MatchesRegroup(x: seq<string>, y: seq<string>, z: seq<string>)
    ensures (x + y) + z == x + (y + z)
  {
  }

  /** So the matches keep the order of `cols1`: a name of cols1 found in cols2 contributes itself at its place. */
  lemma ExactMatchesInOrder(cols1: seq<string>, cols2: seq<string>, i: nat)
    requires i < |cols1|
    ensures ExactMatches(cols1, cols2) ==
      ExactMatches(cols1[..i], cols2) + (if cols1[i] in cols2 then [cols1[i]] else []) + ExactMatches(cols1[i + 1..], cols2)
  {
    assert cols1 == cols1[..i] + [cols1[i]] + cols1[i + 1..];
    ExactMatchesAppend(cols1[..i] + [cols1[i]], cols1[i + 1..], cols2);
    ExactMatchesAppend(cols1[..i], [cols1[i]], cols2);
    assert [cols1[i]][..0] == [];
  }

  /** `find_exact_matches`: the loop appending every name of cols1 also in cols2. */
  method FindExactMatches(cols1: seq<string>, cols2: seq<string>) returns (matches: seq<string>)
    ensures matches == ExactMatches(cols1, cols2)
  {
    matches := [];
    for i := 0 to |cols1|
      invariant matches == ExactMatches(cols1[..i], cols2)
    {
      assert cols1[..i + 1][..i] == cols1[..i];
      if cols1[i] in cols2 {
        matches := matches + [cols1[i]];
      }
    }
    assert cols1[..|cols1|] == cols1;
  }

  /** `re.sub(r'\([^)]*\)', '', s)`: each '(' with a later ')' is removed up to that ')'. */
  function RemoveGroups(s: string): (r: string)
    ensures |r| <= |s|
    ensures forall c :: c in r ==> c in s
    ensures forall i, j :: 0 <= i < j < |r| && r[i] == '(' ==> r[j] != ')'
    decreases |s|
  {
    if s == [] then []
    else if s[0] == '(' then
      match IndexOf(s[1..], ")")
      case Some(k) => RemoveGroups(s[1..][k + 1..])
      case None =>
        NoCloseAfter(s[1..]);
        [s[0]] + RemoveGroups(s[1..])
    else
      [s[0]] + RemoveGroups(s[1..])
  }

  lemma NoCloseAfter(s: string)
    requires IndexOf(s, ")").None?
    ensures ')' !in s
  {
    forall j | 0 <= j < |s|
      ensures s[j] != ')'
    {
      assert s[j..j + 1] == [s[j]];
      assert !OccursAt(s, ")", j);
    }
  }

  lemma NoneWithoutClose(s: string)
    requires ')' !in s
    ensures IndexOf(s, ")").None?
  {
    forall j | 0 <= j && j + 1 <= |s|
      ensures !OccursAt(s, ")", j)
    {
      assert s[j..j + 1] == [s[j]];
    }
  }

  /** A name without a complete '(...)' group is left as it is; so removal is idempotent. */
  lemma {:induction false} RemoveGroupsKeepsPlain(s: string)
    requires forall i, j :: 0 <= i < j < |s| && s[i] == '(' ==> s[j] != ')'
    ensures RemoveGroups(s) == s
    decreases |s|
  {
    if s != [] {
      if s[0] == '(' {
        assert ')' !in s[1..];
        NoneWithoutClose(s[1..]);
      }
      RemoveGroupsKeepsPlain(s[1..]);
    }
  }

  lemma RemoveGroupsIdempotent(s: string)
    ensures RemoveGroups(RemoveGroups(s)) == RemoveGroups(s)
  {
    RemoveGroupsKeepsPlain(RemoveGroups(s));
  }

  predicate IsSeparator(c: char)
  {
    c == '/' || c == '-' || c == '_'
  }

  /** `re.sub(r'[/\-_]', ' ', s)`. */
  function SeparatorsToSpaces(s: string): (r: string)
    ensures |r| == |s|
    ensures forall i :: 0 <= i < |s| ==> r[i] == (if IsSeparator(s[i]) then ' ' else s[i])
  {
    ReplaceChar(ReplaceChar(ReplaceChar(s, '/', ' '), '-', ' '), '_', ' ')
  }

  /** The words of `ws` longer than two characters, lowercased, as a set. */
  function LongWords(ws: seq<string>): (ks: set<string>)
    ensures forall w :: w in ws && |w| > 2 ==> Lower(w) in ks
    ensures forall k :: k in ks ==> exists w :: w in ws && |w| > 2 && k == Lower(w)
  {
    if ws == [] then {}
    else
      var init := ws[..|ws| - 1];
      var w := ws[|ws| - 1];
      assert ws == init + [w];
      assert forall x :: x in ws <==> x in init || x == w;
      LongWords(init) + (if |w| > 2 then {Lower(w)} else {})
  }

  /** `extract_keywords`: the lowercased words longer than two characters, without units. */
  function ExtractKeywords(name: string): set<string>
  {
    LongWords(Words(SeparatorsToSpaces(RemoveGroups(name))))
  }

  lemma SpacedHasNoSeparator(s: string)
    ensures forall c :: c in SeparatorsToSpaces(s) ==> !IsSeparator(c)
  {
    var r := SeparatorsToSpaces(s);
    forall c | c in r
      ensures !IsSeparator(c)
    {
      var i :| 0 <= i < |r| && r[i] == c;
    }
  }

  /** Keywords are longer than two characters and hold no whitespace and no '/', '-' or '_'. */
  lemma KeywordShape(name: string, k: string)
    requires k in ExtractKeywords(name)
    ensures |k| > 2
    ensures forall i :: 0 <= i < |k| ==> !IsSpace(k[i]) && !IsSeparator(k[i])
  {
    var spaced := SeparatorsToSpaces(RemoveGroups(name));
    SpacedHasNoSeparator(RemoveGroups(name));
    var ws := Words(spaced);
    var w :| w in ws && |w| > 2 && k == Lower(w);
    var n :| 0 <= n < |ws| && ws[n] == w;
    forall i | 0 <= i < |k|
      ensures !IsSpace(k[i]) && !IsSeparator(k[i])
    {
      var c := ws[n][i];
      assert c in spaced && !IsSpace(c);
      assert k[i] == LowerChar(c);
      LowerCharKeepsClass(c);
    }
  }

  lemma LowerCharKeepsClass(c: char)
    requires !IsSpace(c) && !IsSeparator(c)
    ensures !IsSpace(LowerChar(c)) && !IsSeparator(LowerChar(c))
  {
    if 'A' <= c <= 'Z' {
      assert 'a' <= LowerChar(c) <= 'z';
    }
  }

  function Common(c1: string, c2: string): set<string>
  {
    ExtractKeywords(c1) * ExtractKeywords(c2)
  }

  /** The pairs found for one column of the first file, in cols2 order. */
  function SimilarFor(c1: string, cols2: seq<string>): (r: seq<(string, string, int)>)
    ensures forall p :: p in r <==> p.0 == c1 && p.1 in cols2 && p.2 == |Common(c1, p.1)| && p.2 >= 2
  {
    if cols2 == [] then []
    else
      var init := cols2[..|cols2| - 1];
      var c2 := cols2[|cols2| - 1];
      assert cols2 == init + [c2];
      var rest := SimilarFor(c1, init);
      SimilarForStep(c1, init, c2, rest);
      rest + PairIfSimilar(c1, c2)
  }

  /** The pair of `c1` and `c2` when they share at least two keywords. */
  function PairIfSimilar(c1: string, c2: string): (r: seq<(string, string, int)>)
    ensures forall p :: p in r <==> p == (c1, c2, |Common(c1, c2)|) && |Common(c1, c2)| >= 2
  {
    var k := |Common(c1, c2)|;
    if k >= 2 then [(c1, c2, k)] else []
  }

  lemma SimilarForStep(c1: string, init: seq<string>, c2: string, rest: seq<(string, string, int)>)
    requires forall p :: p in rest <==> p.0 == c1 && p.1 in init && p.2 == |Common(c1, p.1)| && p.2 >= 2
    ensures forall p :: p in rest + PairIfSimilar(c1, c2) <==>
      p.0 == c1 && p.1 in init + [c2] && p.2 == |Common(c1, p.1)| && p.2 >= 2
  {
    assert forall x :: x in init + [c2] <==> x in init || x == c2;
  }

  /** `find_similar_columns`: every pair sharing at least two keywords, with the number shared. */
  function Similar(cols1: seq<string>, cols2: seq<string>): (r: seq<(string, string, int)>)
    ensures forall p :: p in r <==> p.0 in cols1 && p.1 in cols2 && p.2 == |Common(p.0, p.1)| && p.2 >= 2
  {
    if cols1 == [] then []
    else
      var init := cols1[..|cols1| - 1];
      assert cols1 == init + [cols1[|cols1| - 1]];
      Similar(init, cols2) + SimilarFor(cols1[|cols1| - 1], cols2)
  }

  /** Swapping the two header lists finds the same pairs, swapped. */
  lemma SimilarSymmetric(cols1: seq<string>, cols2: seq<string>, c1: string, c2: string, k: nat)
    ensures (c1, c2, k) in Similar(cols1, cols2) <==> (c2, c1, k) in Similar(cols2, cols1)
  {
    assert Common(c1, c2) == Common(c2, c1);
  }

  method FindSimilarFor(c1: string, cols2: seq<string>) returns (r: seq<(string, string, int)>)
    ensures r == SimilarFor(c1, cols2)
  {
    r := [];
    var keywords1 := ExtractKeywords(c1);
    for j := 0 to |cols2|
      invariant r == SimilarFor(c1, cols2[..j])
    {
      var common := keywords1 * ExtractKeywords(cols2[j]);
      assert cols2[..j + 1][..j] == cols2[..j] && cols2[..j + 1][j] == cols2[j];
      assert SimilarFor(c1, cols2[..j + 1]) ==
        SimilarFor(c1, cols2[..j]) + (if |common| >= 2 then [(c1, cols2[j], |common|)] else []);
      if |common| >= 2 {
        r := r + [(c1, cols2[j], |common|)];
      }
    }
    assert cols2[..|cols2|] == cols2;
  }

  method FindSimilarColumns(cols1: seq<string>, cols2: seq<string>) returns (similar: seq<(string, string, int)>)
    ensures similar == Similar(cols1, cols2)
  {
    similar := [];
    for i := 0 to |cols1|
      invariant similar == Similar(cols1[..i], cols2)
    {
      assert cols1[..i + 1][..i] == cols1[..i];
      var found := FindSimilarFor(cols1[i], cols2);
      similar := similar + found;
    }
    assert cols1[..|cols1|] == cols1;
  }

  /** Lines a text file yields when iterated: one per '\n', plus an unterminated last line. */
  function LineCount(text: string): (n: nat)
    ensures text == [] ==> n == 0
  {
    if text == [] then 0
    else if text[0] == '\n' then 1 + LineCount(text[1..])
    else if '\n' !in text then 1
    else LineCount(text[1..])
  }

  /** `count_rows`: the number of lines minus the header line (-1 for an empty file). */
  function CountRows(text: string): int
  {
    LineCount(text) - 1
  }

  /** The file written as `header\n` followed by one `row\n` per row. */
  function Terminated(lines: seq<string>): string
  {
    if lines == [] then "" else lines[0] + "\n" + Terminated(lines[1..])
  }

  lemma {:induction false} LineCountOfLine(line: string, rest: string)
    requires '\n' !in line
    ensures LineCount(line + "\n" + rest) == 1 + LineCount(rest)
    decreases |line|
  {
    if line != [] {
      assert (line + "\n" + rest)[1..] == line[1..] + "\n" + rest;
      assert '\n' in line + "\n" + rest by { assert (line + "\n" + rest)[|line|] == '\n'; }
      LineCountOfLine(line[1..], rest);
    } else {
      assert line + "\n" + rest == "\n" + rest;
      assert ("\n" + rest)[1..] == rest;
    }
  }

  /** A file of a header and n newline-terminated rows counts n rows. */
  lemma {:induction false} CountRowsOfFile(header: string, rows: seq<string>)
    requires '\n' !in header
    requires forall k :: 0 <= k < |rows| ==> '\n' !in rows[k]
    ensures CountRows(header + "\n" + Terminated(rows)) == |rows|
  {
    LineCountOfLine(header, Terminated(rows));
    LinesOfTerminated(rows);
  }

  lemma {:induction false} LinesOfTerminated(lines: seq<string>)
    requires forall k :: 0 <= k < |lines| ==> '\n' !in lines[k]
    ensures LineCount(Terminated(lines)) == |lines|
  {
    if lines != [] {
      LineCountOfLine(lines[0], Terminated(lines[1..]));
      LinesOfTerminated(lines[1..]);
    }
  }

  /** `set(h1) - set(h2) - set(h3)`: the columns only the first file has. */
  function OnlyIn(s1: set<string>, s2: set<string>, s3: set<string>): (u: set<string>)
    ensures u <= s1
    ensures forall x :: x in u <==> x in s1 && x !in s2 && x !in s3
  {
    s1 - s2 - s3
  }

  /** The three "only in file i" sets share no column, with each other or with the common set. */
  lemma OnlyInDisjoint(h1: set<string>, h2: set<string>, h3: set<string>)
    ensures OnlyIn(h1, h2, h3) * OnlyIn(h2, h1, h3) == {}
    ensures OnlyIn(h1, h2, h3) * OnlyIn(h3, h1, h2) == {}
    ensures OnlyIn(h2, h1, h3) * OnlyIn(h3, h1, h2) == {}
    ensures OnlyIn(h1, h2, h3) * (h1 * h2 * h3) == {}
  {
  }
}
