/**
 * `count_files_in_dir` of the overview script: a walk of one directory
 * tree that counts every file and tallies the files by lowercased suffix.
 */
module FileCount {
  import opened Strings
  import ScanDaten
  import FileOverview

  type Dir = ScanDaten.Dir

  /**
   * The file lists of the directories `os.walk` visits, top-down: the
   * directory itself, then each sub-directory outside SKIP_DIRS with
   * everything below it. The root is visited whatever its name.
   */
  function WalkOrder(d: Dir): (r: seq<seq<string>>)
    ensures |r| >= 1 && r[0] == d.files
    decreases d, |d.subdirs| + 1
  {
    [d.files] + WalkBelow(d, |d.subdirs|)
  }

  /** The walks of the first `k` sub-directories, pruned ones left out. */
  function WalkBelow(d: Dir, k: nat): seq<seq<string>>
    requires k <= |d.subdirs|
    decreases d, k
  {
    if k == 0 then []
    else
      var c := d.subdirs[k - 1];
      WalkBelow(d, k - 1) + (if c.name in FileOverview.SkipDirs then [] else WalkOrder(c))
  }

  /** The file lists one after the other. */
  function Flatten(walk: seq<seq<string>>): (r: seq<string>)
    ensures |walk| == 0 ==> r == []
  {
    if walk == [] then [] else Flatten(walk[..|walk| - 1]) + walk[|walk| - 1]
  }

  /** Every file the walk reaches, in the order it reaches them. */
  function WalkFiles(d: Dir): seq<string>
  {
    Flatten(WalkOrder(d))
  }

  /** `Path(file).suffix.lower()`; a name without a suffix gives the empty key. */
  function ExtensionOf(name: string): string
  {
    Lower(FileOverview.Suffix(name))
  }

  /** The extension of each file, in order. */
  function Extensions(files: seq<string>): (r: seq<string>)
    ensures |r| == |files|
  {
    MapSeq(ExtensionOf, files)
  }

  /** `f` applied to each element, in order. */
  function MapSeq(f: string -> string, xs: seq<string>): (r: seq<string>)
    ensures |r| == |xs|
  {
    if xs == [] then [] else MapSeq(f, xs[..|xs| - 1]) + [f(xs[|xs| - 1])]
  }

  /** How many entries of `exts` equal `e`. */
  function Occurrences(exts: seq<string>, e: string): (n: nat)
    ensures n <= |exts|
  {
    if exts == [] then 0
    else Occurrences(exts[..|exts| - 1], e) + (if exts[|exts| - 1] == e then 1 else 0)
  }

  /** `m` is the tally of `exts`: exactly the extensions that occur, each with its number of occurrences. */
  ghost predicate Tallies(m: map<string, nat>, exts: seq<string>)
  {
    (forall e :: e in m <==> Occurrences(exts, e) > 0) &&
    (forall e :: e in m ==> m[e] == Occurrences(exts, e))
  }

  /** The sum of the values of a map. */
  ghost function SumValues(m: map<string, nat>): nat
    decreases |m|
  {
    if m == map[] then 0
    else
      var k :| k in m;
      m[k] + SumValues(m - {k})
  }

  /** `count_files_in_dir(path)`: the number of files the walk reaches and their tally by extension. */
  method CountFilesInDir(d: Dir) returns (total: nat, byType: map<string, nat>)
    ensures total == |WalkFiles(d)|
    ensures Tallies(byType, Extensions(WalkFiles(d)))
    ensures total == SumValues(byType)
  {
    total, byType := CountWalk(WalkOrder(d));
    TalliedTotal(byType, Extensions(WalkFiles(d)));
  }

  /** The outer loop over the directories of a walk, in the order `os.walk` yields them. */
  method CountWalk(walk: seq<seq<string>>) returns (total: nat, byType: map<string, nat>)
    ensures total == |Flatten(walk)|
    ensures Tallies(byType, Extensions(Flatten(walk)))
  {
    total := 0;
    byType := map[];
    for i := 0 to |walk|
      invariant total == |Flatten(walk[..i])|
      invariant Tallies(byType, Extensions(Flatten(walk[..i])))
    {
      ghost var seen := Flatten(walk[..i]);
      total, byType := CountFiles(walk[i], total, byType, Extensions(seen));
      FlattenStep(walk, i);
      ExtensionsAppend(seen, walk[i]);
      assert Extensions(Flatten(walk[..i + 1])) == Extensions(seen) + Extensions(walk[i]);
    }
    assert walk[..|walk|] == walk;
  }

  /** The inner loop over one directory's files: each raises `total` and its extension's count by one. */
  method CountFiles(files: seq<string>, total0: nat, byType0: map<string, nat>, ghost seen: seq<string>)
    returns (total: nat, byType: map<string, nat>)
    requires total0 == |seen| && Tallies(byType0, seen)
    ensures total == |seen| + |files| && Tallies(byType, seen + Extensions(files))
  {
    total, byType := total0, byType0;
    assert seen + Extensions(files[..0]) == seen;
    for j := 0 to |files|
      invariant total == |seen| + j
      invariant Tallies(byType, seen + Extensions(files[..j]))
    {
      total := total + 1;
      var ext := ExtensionOf(files[j]);
      ghost var before := byType;
      byType := byType[ext := (if ext in byType then byType[ext] else 0) + 1];
      TallyStep(seen + Extensions(files[..j]), ext, before, byType);
      ExtensionsStep(seen, files, j);
    }
    assert files[..|files|] == files;
  }

  lemma FlattenStep(walk: seq<seq<string>>, i: nat)
    requires i < |walk|
    ensures Flatten(walk[..i + 1]) == Flatten(walk[..i]) + walk[i]
  {
    assert walk[..i + 1][..i] == walk[..i];
  }

  lemma ExtensionsStep(seen: seq<string>, files: seq<string>, j: nat)
    requires j < |files|
    ensures (seen + Extensions(files[..j])) + [ExtensionOf(files[j])] == seen + Extensions(files[..j + 1])
  {
    assert files[..j + 1][..j] == files[..j];
    assert MapSeq(ExtensionOf, files[..j + 1]) == MapSeq(ExtensionOf, files[..j]) + [ExtensionOf(files[j])];
  }

  /** The extensions of two lists one after the other are those of the first, then those of the second. */
  lemma ExtensionsAppend(a: seq<string>, b: seq<string>)
    ensures Extensions(a + b) == Extensions(a) + Extensions(b)
  {
    MapSeqAppend(ExtensionOf, a, b);
  }

  lemma {:induction false} MapSeqAppend(f: string -> string, a: seq<string>, b: seq<string>)
    ensures MapSeq(f, a + b) == MapSeq(f, a) + MapSeq(f, b)
    decreases |b|
  {
    if b != [] {
      var b' := b[..|b| - 1];
      assert (a + b)[..|a + b| - 1] == a + b';
      assert (a + b)[|a + b| - 1] == b[|b| - 1];
      MapSeqAppend(f, a, b');
    } else {
      assert a + b == a;
    }
  }

  /** One more extension raises its count by one and leaves the others alone. */
  lemma TallyStep(seen: seq<string>, e: string, before: map<string, nat>, after: map<string, nat>)
    requires Tallies(before, seen)
    requires after == before[e := (if e in before then before[e] else 0) + 1]
    ensures Tallies(after, seen + [e])
  {
    assert (seen + [e])[..|seen|] == seen;
  }

  /** The counts of a tally add up to the number of files: `total` is the sum of `by_type`'s values. */
  lemma {:induction false} TalliedTotal(m: map<string, nat>, exts: seq<string>)
    requires Tallies(m, exts)
    ensures SumValues(m) == |exts|
    decreases |exts|
  {
    if exts == [] {
      assert m == map[] by {
        forall e ensures e !in m {
          assert Occurrences(exts, e) == 0;
        }
      }
    } else {
      var e := exts[|exts| - 1];
      UntallyLast(m, exts);
      TalliedTotal(Untally(m, e), exts[..|exts| - 1]);
      SumUntally(m, e);
    }
  }

  /** The tally with one file of extension `e` taken back out. */
  function Untally(m: map<string, nat>, e: string): map<string, nat>
    requires e in m
  {
    if m[e] <= 1 then m - {e} else m[e := m[e] - 1]
  }

  /** Taking the last file back out of a tally gives the tally of the others. */
  lemma UntallyLast(m: map<string, nat>, exts: seq<string>)
    requires exts != [] && Tallies(m, exts)
    ensures exts[|exts| - 1] in m
    ensures Tallies(Untally(m, exts[|exts| - 1]), exts[..|exts| - 1])
  {
    var p := exts[..|exts| - 1];
    var e := exts[|exts| - 1];
    assert Occurrences(exts, e) == Occurrences(p, e) + 1;
    var m' := Untally(m, e);
    forall x ensures x in m' <==> Occurrences(p, x) > 0 {
      assert Occurrences(exts, x) == Occurrences(p, x) + (if x == e then 1 else 0);
    }
    forall x | x in m' ensures m'[x] == Occurrences(p, x) {
      assert Occurrences(exts, x) == Occurrences(p, x) + (if x == e then 1 else 0);
    }
  }

  /** Taking one file back out lowers the sum by one. */
  lemma SumUntally(m: map<string, nat>, e: string)
    requires e in m && m[e] >= 1
    ensures SumValues(m) == SumValues(Untally(m, e)) + 1
  {
    SumValuesRemove(m, e);
    if m[e] > 1 {
      var m' := Untally(m, e);
      SumValuesRemove(m', e);
      assert m' - {e} == m - {e};
    }
  }

  /** The sum does not depend on which key is taken out first. */
  lemma {:induction false} SumValuesRemove(m: map<string, nat>, k: string)
    requires k in m
    ensures SumValues(m) == m[k] + SumValues(m - {k})
    decreases |m|
  {
    var j :| j in m && SumValues(m) == m[j] + SumValues(m - {j});
    if j != k {
      SumValuesRemove(m - {j}, k);
      SumValuesRemove(m - {k}, j);
      assert m - {j} - {k} == m - {k} - {j};
    }
  }
}
