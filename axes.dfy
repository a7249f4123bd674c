/**
 * The axis rules the two chart panels share: the date-column candidates,
 * the y options, and the keyword priority that picks default y columns.
 */
module Axes {
  import opened Strings

  /** The x-axis candidates, most preferred first. */
  const DateCandidates: seq<string> := ["Date", "DateTime", "Datum + Uhrzeit", "Zeit", "Timestamp"]

  /** The keywords that make a column an interesting default, most preferred first. */
  const PriorityKeywords: seq<string> := ["power", "leistung", "energie", "energy", "temperatur", "temp", "value", "wert"]

  /** Position in `cands` of the first candidate that is a column. */
  function FirstPresent(cands: seq<string>, columns: seq<string>): (r: Option<nat>)
    ensures r.Some? ==> r.value < |cands| && cands[r.value] in columns
    ensures r.Some? ==> forall j :: 0 <= j < r.value ==> cands[j] !in columns
    ensures r.None? ==> forall j :: 0 <= j < |cands| ==> cands[j] !in columns
  {
    if cands == [] then None
    else if cands[0] in columns then Some(0)
    else
      match FirstPresent(cands[1..], columns)
      case None => None
      case Some(i) => Some(i + 1)
  }

  /** The first date candidate present, by name. */
  function FirstDateCandidate(columns: seq<string>): (r: Option<string>)
    ensures r.Some? ==> r.value in DateCandidates && r.value in columns
    ensures r.None? ==> forall j :: 0 <= j < |DateCandidates| ==> DateCandidates[j] !in columns
  {
    match FirstPresent(DateCandidates, columns)
    case None => None
    case Some(i) => Some(DateCandidates[i])
  }

  /** `Date` heads the candidates, so whenever it is a column it is the choice. */
  lemma DateIsPreferred(columns: seq<string>)
    requires "Date" in columns
    ensures FirstDateCandidate(columns) == Some("Date")
  {
  }

  /** `[col for col in numeric_cols if col != date_col]`. */
  function YOptions(numeric: seq<string>, dateCol: Option<string>): (r: seq<string>)
    ensures forall c :: c in r <==> c in numeric && Some(c) != dateCol
    ensures |r| <= |numeric|
  {
    if numeric == [] then []
    else
      var c := numeric[|numeric| - 1];
      YOptions(numeric[..|numeric| - 1], dateCol) + (if Some(c) != dateCol then [c] else [])
  }

  /** `keyword in col.lower()`. */
  predicate Mentions(col: string, keyword: string)
  {
    Contains(Lower(col), keyword)
  }

  /** The columns that mention `keyword`, in column order. */
  function Matching(keyword: string, cols: seq<string>): seq<string>
  {
    if cols == [] then []
    else
      var c := cols[|cols| - 1];
      Matching(keyword, cols[..|cols| - 1]) + (if Mentions(c, keyword) then [c] else [])
  }

  /** The keyword matches, keyword by keyword in priority order, each in column order. */
  function KeywordOrder(keywords: seq<string>, cols: seq<string>): seq<string>
  {
    if keywords == [] then []
    else KeywordOrder(keywords[..|keywords| - 1], cols) + Matching(keywords[|keywords| - 1], cols)
  }

  /** The matches of a keyword are exactly the columns that mention it. */
  lemma {:induction false} MatchingMembers(keyword: string, cols: seq<string>)
    ensures forall c :: c in Matching(keyword, cols) <==> c in cols && Mentions(c, keyword)
  {
    if cols != [] {
      var init := cols[..|cols| - 1];
      MatchingMembers(keyword, init);
      assert cols == init + [cols[|cols| - 1]];
    }
  }

  /** Every keyword match is a column. */
  lemma {:induction false} KeywordOrderMembers(keywords: seq<string>, cols: seq<string>)
    ensures forall c :: c in KeywordOrder(keywords, cols) ==> c in cols
  {
    if keywords != [] {
      KeywordOrderMembers(keywords[..|keywords| - 1], cols);
      MatchingMembers(keywords[|keywords| - 1], cols);
    }
  }

  /** The first occurrence of every element, in order of first occurrence. */
  function Firsts(xs: seq<string>): (r: seq<string>)
    ensures forall x :: x in r <==> x in xs
    ensures |r| <= |xs|
  {
    if xs == [] then []
    else
      var x := xs[|xs| - 1];
      Firsts(xs[..|xs| - 1]) + (if x in xs[..|xs| - 1] then [] else [x])
  }

  /** `a` is a prefix of `b`. */
  predicate IsPrefix(a: seq<string>, b: seq<string>)
  {
    |a| <= |b| && b[..|a|] == a
  }

  /** Keeping first occurrences never repeats an element. */
  lemma {:induction false} FirstsDistinct(xs: seq<string>)
    ensures forall i, j :: 0 <= i < j < |Firsts(xs)| ==> Firsts(xs)[i] != Firsts(xs)[j]
  {
    if xs != [] {
      FirstsDistinct(xs[..|xs| - 1]);
    }
  }

  /** The first occurrences in a prefix are a prefix of the first occurrences in the whole. */
  lemma {:induction false} FirstsOfPrefix(a: seq<string>, b: seq<string>)
    requires IsPrefix(a, b)
    ensures IsPrefix(Firsts(a), Firsts(b))
    decreases |b|
  {
    if |a| < |b| {
      var b' := b[..|b| - 1];
      assert b'[..|a|] == a;
      FirstsOfPrefix(a, b');
    } else {
      assert a == b;
    }
  }

  /** One more element: its first occurrence is appended unless it was seen. */
  lemma FirstsStep(seen: seq<string>, x: string)
    ensures Firsts(seen + [x]) == Firsts(seen) + (if x in seen then [] else [x])
  {
    assert (seen + [x])[..|seen|] == seen;
  }

  /** The matches among the first `j` columns are a prefix of all matches. */
  lemma {:induction false} MatchingPrefix(keyword: string, cols: seq<string>, j: nat)
    requires j <= |cols|
    ensures IsPrefix(Matching(keyword, cols[..j]), Matching(keyword, cols))
    decreases |cols| - j
  {
    if j < |cols| {
      MatchingGrows(keyword, cols, j);
      MatchingPrefix(keyword, cols, j + 1);
      PrefixTransitive(Matching(keyword, cols[..j]), Matching(keyword, cols[..j + 1]), Matching(keyword, cols));
    } else {
      assert cols[..j] == cols;
    }
  }

  /** One more column: it is appended when it mentions the keyword. */
  lemma MatchingStep(keyword: string, cols: seq<string>, j: nat)
    requires j < |cols|
    ensures Matching(keyword, cols[..j + 1]) == Matching(keyword, cols[..j]) + (if Mentions(cols[j], keyword) then [cols[j]] else [])
  {
    assert cols[..j + 1][..j] == cols[..j];
  }

  lemma MatchingGrows(keyword: string, cols: seq<string>, j: nat)
    requires j < |cols|
    ensures IsPrefix(Matching(keyword, cols[..j]), Matching(keyword, cols[..j + 1]))
  {
    MatchingStep(keyword, cols, j);
  }

  lemma PrefixTransitive(a: seq<string>, b: seq<string>, c: seq<string>)
    requires IsPrefix(a, b) && IsPrefix(b, c)
    ensures IsPrefix(a, c)
  {
    assert c[..|a|] == c[..|b|][..|a|];
  }

  /** One more keyword: its matches follow those of the keywords before it. */
  lemma KeywordOrderStep(keywords: seq<string>, cols: seq<string>, k: nat)
    requires k < |keywords|
    ensures KeywordOrder(keywords[..k + 1], cols) == KeywordOrder(keywords[..k], cols) + Matching(keywords[k], cols)
  {
    assert keywords[..k + 1][..k] == keywords[..k];
  }

  /** The matches of the first `k` keywords are a prefix of the matches of all of them. */
  lemma {:induction false} KeywordOrderPrefix(keywords: seq<string>, cols: seq<string>, k: nat)
    requires k <= |keywords|
    ensures IsPrefix(KeywordOrder(keywords[..k], cols), KeywordOrder(keywords, cols))
    decreases |keywords| - k
  {
    if k < |keywords| {
      KeywordOrderStep(keywords, cols, k);
      KeywordOrderPrefix(keywords, cols, k + 1);
    } else {
      assert keywords[..k] == keywords;
    }
  }
}
