/**
 * The seven regions of a three-set Venn diagram of column names, as the
 * three-way comparison scripts compute them from `set(df.columns)` with `&`
 * and `-`: the names in all three, in exactly two, and in exactly one.
 */
module Regions {
  /** The regions of sets `a`, `b` and `c`; `ab` holds the names in `a` and `b` but not `c`. */
  datatype Venn<T> = Venn(all: set<T>, ab: set<T>, ac: set<T>, bc: set<T>, onlyA: set<T>, onlyB: set<T>, onlyC: set<T>)

  function VennOf<T>(a: set<T>, b: set<T>, c: set<T>): (v: Venn<T>)
    ensures v.all <= a && v.all <= b && v.all <= c
    ensures v.onlyA <= a && v.onlyA * (b + c) == {}
    ensures v.onlyB <= b && v.onlyB * (a + c) == {}
    ensures v.onlyC <= c && v.onlyC * (a + b) == {}
  {
    Venn(a * b * c, (a * b) - c, (a * c) - b, (b * c) - a, a - b - c, b - a - c, c - a - b)
  }

  /** The regions in a fixed order. */
  function Parts<T>(v: Venn<T>): seq<set<T>>
  {
    [v.all, v.ab, v.ac, v.bc, v.onlyA, v.onlyB, v.onlyC]
  }

  /**
   * Which sets a name belongs to decides its region: the region holding it is
   * the one whose membership pattern it has.
   */
  function RegionOf<T>(a: set<T>, b: set<T>, c: set<T>, x: T): (k: nat)
    ensures k < 8
  {
    if x in a && x in b && x in c then 0
    else if x in a && x in b then 1
    else if x in a && x in c then 2
    else if x in b && x in c then 3
    else if x in a then 4
    else if x in b then 5
    else if x in c then 6
    else 7
  }

  /** A name lies in region `k` exactly when its membership pattern is region `k`'s. */
  lemma InRegionIff<T>(a: set<T>, b: set<T>, c: set<T>, x: T, k: nat)
    requires k < 7
    ensures x in Parts(VennOf(a, b, c))[k] <==> RegionOf(a, b, c, x) == k
  {
  }

  /**
   * The seven regions are pairwise disjoint and together make up the union of
   * the three sets: every name of any file is counted in exactly one region.
   */
  lemma RegionsPartition<T>(a: set<T>, b: set<T>, c: set<T>)
    ensures forall i, j :: 0 <= i < j < 7 ==> Parts(VennOf(a, b, c))[i] * Parts(VennOf(a, b, c))[j] == {}
    ensures a + b + c == Parts(VennOf(a, b, c))[0] + Parts(VennOf(a, b, c))[1] + Parts(VennOf(a, b, c))[2] +
      Parts(VennOf(a, b, c))[3] + Parts(VennOf(a, b, c))[4] + Parts(VennOf(a, b, c))[5] + Parts(VennOf(a, b, c))[6]
  {
    var p := Parts(VennOf(a, b, c));
    forall i, j | 0 <= i < j < 7
      ensures p[i] * p[j] == {}
    {
      forall x | x in p[i]
        ensures x !in p[j]
      {
        InRegionIff(a, b, c, x, i);
        InRegionIff(a, b, c, x, j);
      }
    }
  }

  /** Each set is the union of the four regions inside it. */
  lemma SetIsItsRegions<T>(a: set<T>, b: set<T>, c: set<T>)
    ensures a == VennOf(a, b, c).all + VennOf(a, b, c).ab + VennOf(a, b, c).ac + VennOf(a, b, c).onlyA
    ensures b == VennOf(a, b, c).all + VennOf(a, b, c).ab + VennOf(a, b, c).bc + VennOf(a, b, c).onlyB
    ensures c == VennOf(a, b, c).all + VennOf(a, b, c).ac + VennOf(a, b, c).bc + VennOf(a, b, c).onlyC
  {
  }

  /** Swapping the first two sets swaps their regions and leaves the shared ones alone. */
  lemma RegionsSwap<T>(a: set<T>, b: set<T>, c: set<T>)
    ensures VennOf(b, a, c) == Venn(VennOf(a, b, c).all, VennOf(a, b, c).ab, VennOf(a, b, c).bc,
      VennOf(a, b, c).ac, VennOf(a, b, c).onlyB, VennOf(a, b, c).onlyA, VennOf(a, b, c).onlyC)
  {
  }

  /** The two-file split: `cols1 & cols2`, `cols1 - cols2` and `cols2 - cols1`. */
  datatype Split<T> = Split(common: set<T>, onlyA: set<T>, onlyB: set<T>)

  function SplitOf<T>(a: set<T>, b: set<T>): (s: Split<T>)
    ensures s.common <= a && s.common <= b
    ensures s.onlyA <= a && s.onlyA * b == {}
    ensures s.onlyB <= b && s.onlyB * a == {}
  {
    Split(a * b, a - b, b - a)
  }

  /**
   * The three parts are pairwise disjoint, make up the union, and each file
   * is its common part plus its own part.
   */
  lemma SplitPartition<T>(a: set<T>, b: set<T>)
    ensures SplitOf(a, b).common * SplitOf(a, b).onlyA == {}
    ensures SplitOf(a, b).common * SplitOf(a, b).onlyB == {}
    ensures SplitOf(a, b).onlyA * SplitOf(a, b).onlyB == {}
    ensures SplitOf(a, b).common + SplitOf(a, b).onlyA + SplitOf(a, b).onlyB == a + b
    ensures SplitOf(a, b).common + SplitOf(a, b).onlyA == a && SplitOf(a, b).common + SplitOf(a, b).onlyB == b
  {
  }

  /** The common part is never larger than either file. */
  lemma CommonBounded<T>(a: set<T>, b: set<T>)
    ensures |SplitOf(a, b).common| <= |a| && |SplitOf(a, b).common| <= |b|
  {
    SplitPartition(a, b);
    assert |a| == |SplitOf(a, b).common| + |SplitOf(a, b).onlyA|;
    assert |b| == |SplitOf(a, b).common| + |SplitOf(a, b).onlyB|;
  }

  /** A subset as large as its superset is the whole set. */
  lemma SameSizeSubset<T>(a: set<T>, b: set<T>)
    requires a <= b && |a| == |b|
    ensures a == b
  {
    assert b == a + (b - a);
    assert |b| == |a| + |b - a|;
    assert b - a == {};
  }
}
