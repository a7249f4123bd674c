/**
 * First-match keyword classification of column and file names, and the
 * grouping of a column list by category, as the dashboard's column toggle and
 * several comparison scripts do it: an `if/elif` chain of `any(k in name ...)`
 * tests, then one list per category filled in input order.
 */
module Categories {
  import opened Strings

  /** One `elif` arm: the category it assigns and the keywords it looks for. */
  datatype Rule<L> = Rule(category: L, keys: seq<string>)

  /** Index of the first rule with a keyword inside `name`; `|rules|` when none has one. */
  function FirstMatch<L(==)>(name: string, rules: seq<Rule<L>>): (i: nat)
    ensures i <= |rules|
    ensures i < |rules| ==> ContainsAny(name, rules[i].keys)
    ensures forall j :: 0 <= j < i ==> !ContainsAny(name, rules[j].keys)
  {
    if rules == [] then 0
    else if ContainsAny(name, rules[0].keys) then 0
    else 1 + FirstMatch(name, rules[1..])
  }

  function Classify<L(==)>(name: string, rules: seq<Rule<L>>, fallback: L): L
  {
    var i := FirstMatch(name, rules);
    if i < |rules| then rules[i].category else fallback
  }

  predicate DistinctLabels<L(==)>(rules: seq<Rule<L>>, fallback: L)
  {
    (forall i, j :: 0 <= i < j < |rules| ==> rules[i].category != rules[j].category) &&
    (forall i :: 0 <= i < |rules| ==> rules[i].category != fallback)
  }

  /**
   * With distinct labels, a name gets rule `i`'s label exactly when rule `i`
   * matches and no earlier rule does.
   */
  lemma ClassifyIsFirstMatch<L>(name: string, rules: seq<Rule<L>>, fallback: L, i: nat)
    requires DistinctLabels(rules, fallback) && i < |rules|
    ensures Classify(name, rules, fallback) == rules[i].category <==>
      ContainsAny(name, rules[i].keys) && forall j :: 0 <= j < i ==> !ContainsAny(name, rules[j].keys)
  {
    var k := FirstMatch(name, rules);
    if Classify(name, rules, fallback) == rules[i].category {
      assert k < |rules| && rules[k].category == rules[i].category;
      assert k == i;
    }
  }

  /** A name gets the fallback label exactly when no rule matches it. */
  lemma ClassifyFallback<L>(name: string, rules: seq<Rule<L>>, fallback: L)
    requires DistinctLabels(rules, fallback)
    ensures Classify(name, rules, fallback) == fallback <==>
      forall j :: 0 <= j < |rules| ==> !ContainsAny(name, rules[j].keys)
  {
  }

  /** A matching rule wins over every later one: the label comes from rule `i` or an earlier one. */
  lemma EarlierRuleWins<L>(name: string, rules: seq<Rule<L>>, fallback: L, i: nat, key: string)
    requires i < |rules| && key in rules[i].keys && Contains(name, key)
    ensures FirstMatch(name, rules) <= i
    ensures Classify(name, rules, fallback) == rules[FirstMatch(name, rules)].category
  {
    assert ContainsAny(name, rules[i].keys);
  }

  /** The names of `names` that `f` puts in category `l`, in input order. */
  function Group<L(==)>(names: seq<string>, f: string -> L, l: L): (g: seq<string>)
    ensures |g| <= |names|
    ensures forall x :: x in g <==> x in names && f(x) == l
    ensures forall x :: f(x) == l ==> multiset(g)[x] == multiset(names)[x]
  {
    if names == [] then []
    else
      var init := names[..|names| - 1];
      var last := names[|names| - 1];
      assert names == init + [last];
      Group(init, f, l) + (if f(last) == l then [last] else [])
  }

  /** Grouping a concatenation groups each part and keeps them in order. */
  lemma {:induction false} GroupKeepsOrder<L>(a: seq<string>, b: seq<string>, f: string -> L, l: L)
    ensures Group(a + b, f, l) == Group(a, f, l) + Group(b, f, l)
  {
    if b != [] {
      var b' := b[..|b| - 1];
      assert a + b == (a + b') + [b[|b| - 1]];
      assert (a + b)[..|a + b| - 1] == a + b';
      GroupKeepsOrder(a, b', f, l);
    } else {
      assert a + b == a;
    }
  }

  /** Total size of the groups of `labels`. */
  function SumSizes<L(==)>(names: seq<string>, f: string -> L, labels: seq<L>): nat
  {
    if labels == [] then 0 else |Group(names, f, labels[0])| + SumSizes(names, f, labels[1..])
  }

  /** One more name adds one to the total when its label is listed once. */
  lemma {:induction false} SumSizesStep<L>(names: seq<string>, x: string, f: string -> L, labels: seq<L>)
    requires forall i, j :: 0 <= i < j < |labels| ==> labels[i] != labels[j]
    ensures SumSizes(names + [x], f, labels) == SumSizes(names, f, labels) + (if f(x) in labels then 1 else 0)
  {
    if labels != [] {
      assert (names + [x])[..|names + [x]| - 1] == names;
      SumSizesStep(names, x, f, labels[1..]);
      if f(x) == labels[0] {
        assert f(x) !in labels[1..];
      }
    }
  }

  /**
   * The groups of a repeat-free list of labels covering every name have sizes
   * adding up to the number of names: each name is counted exactly once.
   */
  lemma {:induction false} SizesSumToCount<L>(names: seq<string>, f: string -> L, labels: seq<L>)
    requires forall i, j :: 0 <= i < j < |labels| ==> labels[i] != labels[j]
    requires forall x :: x in names ==> f(x) in labels
    ensures SumSizes(names, f, labels) == |names|
  {
    if names == [] {
      EmptyGroups(f, labels);
    } else {
      var init := names[..|names| - 1];
      assert names == init + [names[|names| - 1]];
      SizesSumToCount(init, f, labels);
      SumSizesStep(init, names[|names| - 1], f, labels);
    }
  }

  lemma {:induction false} EmptyGroups<L>(f: string -> L, labels: seq<L>)
    ensures SumSizes([], f, labels) == 0
  {
    if labels != [] {
      EmptyGroups(f, labels[1..]);
    }
  }

  /**
   * The loop that appends every name to the list of its category, starting
   * from one empty list per label.
   */
  method GroupInto<L(==)>(names: seq<string>, f: string -> L, labels: seq<L>) returns (m: map<L, seq<string>>)
    requires forall x :: x in names ==> f(x) in labels
    ensures m.Keys == set l | l in labels
    ensures forall l :: l in m ==> m[l] == Group(names, f, l)
  {
    m := map l | l in labels :: [];
    ghost var keys := m.Keys;
    for i := 0 to |names|
      invariant m.Keys == keys
      invariant forall l :: l in m ==> m[l] == Group(names[..i], f, l)
    {
      assert names[i] in names;
      m := AddName(m, names, i, f);
    }
    assert names[..|names|] == names;
  }

  /** One pass of the loop in `GroupInto`: the name joins the list of its label, and every list stays its group. */
  method AddName<L(==)>(m0: map<L, seq<string>>, names: seq<string>, i: nat, f: string -> L) returns (m: map<L, seq<string>>)
    requires i < |names| && f(names[i]) in m0
    requires forall l :: l in m0 ==> m0[l] == Group(names[..i], f, l)
    ensures m.Keys == m0.Keys
    ensures forall l :: l in m ==> m[l] == Group(names[..i + 1], f, l)
  {
    var l := f(names[i]);
    m := m0[l := m0[l] + [names[i]]];
    forall k | k in m ensures m[k] == Group(names[..i + 1], f, k) {
      GroupSnoc(names, i, f, k);
    }
  }

  /** The group of `l` after one more name: that name is appended when it has label `l`. */
  lemma GroupSnoc<L>(names: seq<string>, i: nat, f: string -> L, l: L)
    requires i < |names|
    ensures Group(names[..i + 1], f, l) == Group(names[..i], f, l) + if f(names[i]) == l then [names[i]] else []
  {
    var pre := names[..i + 1];
    assert pre[..|pre| - 1] == names[..i] && pre[|pre| - 1] == names[i];
  }

  /** `{k: v for k, v in groups.items() if v}` over labels in their fixed order. */
  function NonEmpty<L(==)>(labels: seq<L>, m: map<L, seq<string>>): (r: seq<(L, seq<string>)>)
    requires forall l :: l in labels ==> l in m
    ensures forall p :: p in r ==> p.0 in labels && p.1 == m[p.0] && p.1 != []
    ensures forall l :: l in labels && m[l] != [] ==> exists p :: p in r && p.0 == l
  {
    if labels == [] then []
    else
      var init := labels[..|labels| - 1];
      var last := labels[|labels| - 1];
      assert labels == init + [last];
      assert forall l :: l in init ==> l in labels;
      NonEmpty(init, m) + (if m[last] != [] then [(last, m[last])] else [])
  }

  /** Dropping empty groups keeps the labels in their fixed (ranked) order. */
  lemma {:induction false} NonEmptyKeepsOrder<L>(labels: seq<L>, m: map<L, seq<string>>, rank: L -> int)
    requires forall l :: l in labels ==> l in m
    requires forall i, j :: 0 <= i < j < |labels| ==> rank(labels[i]) < rank(labels[j])
    ensures forall i, j :: 0 <= i < j < |NonEmpty(labels, m)| ==>
      rank(NonEmpty(labels, m)[i].0) < rank(NonEmpty(labels, m)[j].0)
  {
    if labels != [] {
      var init := labels[..|labels| - 1];
      var last := labels[|labels| - 1];
      assert labels == init + [last];
      assert forall l :: l in init ==> l in labels;
      NonEmptyKeepsOrder(init, m, rank);
      forall p | p in NonEmpty(init, m)
        ensures rank(p.0) < rank(last)
      {
        var k :| 0 <= k < |init| && init[k] == p.0;
        assert labels[k] == p.0;
      }
    }
  }

  /** Total number of names held by the pairs, as summing `len(v)` over the dictionary. */
  function PairsTotal<L>(r: seq<(L, seq<string>)>): nat
  {
    if r == [] then 0 else PairsTotal(r[..|r| - 1]) + |r[|r| - 1].1|
  }

  lemma {:induction false} PairsTotalAppend<L>(a: seq<(L, seq<string>)>, b: seq<(L, seq<string>)>)
    ensures PairsTotal(a + b) == PairsTotal(a) + PairsTotal(b)
  {
    if b != [] {
      var b' := b[..|b| - 1];
      assert (a + b)[..|a + b| - 1] == a + b';
      PairsTotalAppend(a, b');
    } else {
      assert a + b == a;
    }
  }

  lemma {:induction false} SumSizesAppend<L>(names: seq<string>, f: string -> L, labels: seq<L>, l: L)
    ensures SumSizes(names, f, labels + [l]) == SumSizes(names, f, labels) + |Group(names, f, l)|
  {
    if labels == [] {
      assert [l][1..] == [];
    } else {
      assert (labels + [l])[1..] == labels[1..] + [l];
      SumSizesAppend(names, f, labels[1..], l);
    }
  }

  /** Dropping the empty groups does not change how many names the groups hold. */
  lemma {:induction false} NonEmptyTotal<L>(labels: seq<L>, m: map<L, seq<string>>, names: seq<string>, f: string -> L)
    requires forall l :: l in labels ==> l in m && m[l] == Group(names, f, l)
    ensures PairsTotal(NonEmpty(labels, m)) == SumSizes(names, f, labels)
  {
    if labels == [] {
    } else {
      var init := labels[..|labels| - 1];
      var last := labels[|labels| - 1];
      assert labels == init + [last];
      assert forall l :: l in init ==> l in labels;
      NonEmptyTotal(init, m, names, f);
      SumSizesAppend(names, f, init, last);
      PairsTotalAppend(NonEmpty(init, m), if m[last] != [] then [(last, m[last])] else []);
      if m[last] != [] {
        assert PairsTotal([(last, m[last])]) == |m[last]| by {
          assert [(last, m[last])][..0] == [];
        }
      }
    }
  }
}
