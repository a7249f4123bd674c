/**
 * The offline report on missing and faulty measurements: runs of missing
 * rows in a column and the sentence describing them, gaps in a time series
 * measured against its most frequent interval, sensors stuck on one value,
 * physically implausible readings chosen by the column's name, and the
 * per-site totals of the summary.
 */
module MissingDataAnalysis {
  import opened Strings
  import opened Order
  import opened Frame
  import opened Columns
  import opened Dates

  /** A run of missing rows, both bounds inclusive. */
  datatype Block = Block(first: nat, last: nat)

  // ---------------------------------------------------------------------
  // Blocks of missing rows
  // ---------------------------------------------------------------------

  /** The last index of the run of `true` that contains `i`, scanning rightwards. */
  function RunEnd(mask: seq<bool>, i: nat): (e: nat)
    requires i < |mask| && mask[i]
    ensures i <= e < |mask|
    ensures forall j :: i <= j <= e ==> mask[j]
    ensures e + 1 == |mask| || !mask[e + 1]
    decreases |mask| - i
  {
    if i + 1 < |mask| && mask[i + 1] then RunEnd(mask, i + 1) else i
  }

  /** Starting inside a run at `i` or later in that same run ends at the same place. */
  lemma {:induction false} RunEndWithin(mask: seq<bool>, i: nat, k: nat)
    requires i <= k < |mask| && forall j :: i <= j <= k ==> mask[j]
    ensures RunEnd(mask, i) == RunEnd(mask, k)
    decreases k - i
  {
    if i < k {
      RunEndWithin(mask, i + 1, k);
    }
  }

  /**
   * Reference definition of the blocks of `mask[i..]`: skip a present row, or
   * take a whole run of missing rows and continue after it.
   */
  function BlocksFrom(mask: seq<bool>, i: nat): (bs: seq<Block>)
    requires i <= |mask|
    decreases |mask| - i
  {
    if i == |mask| then []
    else if !mask[i] then BlocksFrom(mask, i + 1)
    else
      var e := RunEnd(mask, i);
      [Block(i, e)] + BlocksFrom(mask, e + 1)
  }

  function Blocks(mask: seq<bool>): seq<Block>
  {
    BlocksFrom(mask, 0)
  }

  /** Row `j` lies in one of the blocks. */
  predicate InSomeBlock(bs: seq<Block>, j: nat)
  {
    exists k :: 0 <= k < |bs| && bs[k].first <= j <= bs[k].last
  }

  /** `b` is a whole run of missing rows: inside the column, and bounded by a present row or the end on both sides. */
  predicate IsRun(mask: seq<bool>, b: Block)
  {
    && b.first <= b.last < |mask|
    && (forall j :: b.first <= j <= b.last ==> mask[j])
    && (b.first == 0 || !mask[b.first - 1])
    && (b.last + 1 == |mask| || !mask[b.last + 1])
  }

  /** Ascending, with at least one present row between neighbouring blocks. */
  predicate Separated(bs: seq<Block>)
  {
    forall k :: 0 <= k < |bs| - 1 ==> bs[k].last + 1 < bs[k + 1].first
  }

  /**
   * `bs` are the maximal runs of missing rows of `mask` from `lo` on: each is
   * a whole run starting at `lo` or later, they ascend, and together they
   * cover every missing row from `lo`.
   */
  predicate MaximalRuns(mask: seq<bool>, bs: seq<Block>, lo: nat)
  {
    && (forall k :: 0 <= k < |bs| ==> lo <= bs[k].first && IsRun(mask, bs[k]))
    && Separated(bs)
    && (forall j :: lo <= j < |mask| && mask[j] ==> InSomeBlock(bs, j))
  }

  lemma {:induction false} BlocksFromRuns(mask: seq<bool>, i: nat)
    requires i <= |mask|
    requires i == 0 || i == |mask| || !mask[i - 1] || !mask[i]
    ensures forall k :: 0 <= k < |BlocksFrom(mask, i)| ==> i <= BlocksFrom(mask, i)[k].first && IsRun(mask, BlocksFrom(mask, i)[k])
    decreases |mask| - i
  {
    if i == |mask| {
    } else if !mask[i] {
      BlocksFromRuns(mask, i + 1);
    } else {
      var e := RunEnd(mask, i);
      var rest := BlocksFrom(mask, e + 1);
      BlocksFromRuns(mask, e + 1);
      var bs := [Block(i, e)] + rest;
      assert bs == BlocksFrom(mask, i);
      forall k | 0 <= k < |bs| ensures i <= bs[k].first && IsRun(mask, bs[k]) {
        if k > 0 { assert bs[k] == rest[k - 1]; }
      }
    }
  }

  lemma SeparatedCons(b: Block, rest: seq<Block>)
    requires Separated(rest)
    requires rest != [] ==> b.last + 1 < rest[0].first
    ensures Separated([b] + rest)
  {
    var bs := [b] + rest;
    forall k | 0 <= k < |bs| - 1 ensures bs[k].last + 1 < bs[k + 1].first {
      if k > 0 {
        assert bs[k] == rest[k - 1] && bs[k + 1] == rest[k];
      }
    }
  }

  lemma {:induction false} BlocksFromSeparated(mask: seq<bool>, i: nat)
    requires i <= |mask|
    ensures Separated(BlocksFrom(mask, i))
    decreases |mask| - i
  {
    if i == |mask| {
    } else if !mask[i] {
      BlocksFromSeparated(mask, i + 1);
    } else {
      var e := RunEnd(mask, i);
      var rest := BlocksFrom(mask, e + 1);
      BlocksFromSeparated(mask, e + 1);
      if rest != [] {
        BlocksFromRuns(mask, e + 1);
        assert IsRun(mask, rest[0]) && e + 1 <= rest[0].first;
        assert mask[rest[0].first];
      }
      SeparatedCons(Block(i, e), rest);
    }
  }

  lemma {:induction false} BlocksFromCover(mask: seq<bool>, i: nat)
    requires i <= |mask|
    ensures forall j :: i <= j < |mask| && mask[j] ==> InSomeBlock(BlocksFrom(mask, i), j)
    decreases |mask| - i
  {
    if i == |mask| {
    } else if !mask[i] {
      BlocksFromCover(mask, i + 1);
    } else {
      var e := RunEnd(mask, i);
      var rest := BlocksFrom(mask, e + 1);
      BlocksFromCover(mask, e + 1);
      var bs := [Block(i, e)] + rest;
      assert bs == BlocksFrom(mask, i);
      forall j | i <= j < |mask| && mask[j] ensures InSomeBlock(bs, j) {
        if j <= e {
          assert bs[0].first <= j <= bs[0].last;
        } else {
          assert InSomeBlock(rest, j);
          var k :| 0 <= k < |rest| && rest[k].first <= j <= rest[k].last;
          assert bs[k + 1] == rest[k];
        }
      }
    }
  }

  /** The reference blocks are exactly the maximal runs of missing rows of the whole column. */
  lemma BlocksAreMaximalRuns(mask: seq<bool>)
    ensures MaximalRuns(mask, Blocks(mask), 0)
  {
    BlocksFromRuns(mask, 0);
    BlocksFromSeparated(mask, 0);
    BlocksFromCover(mask, 0);
  }

  /** Some row is missing. */
  predicate AnyMissing(mask: seq<bool>)
  {
    exists j :: 0 <= j < |mask| && mask[j]
  }

  /** There are no blocks exactly when no row is missing. */
  lemma NoBlocksIffNothingMissing(mask: seq<bool>)
    ensures Blocks(mask) == [] <==> !AnyMissing(mask)
  {
    BlocksAreMaximalRuns(mask);
    if AnyMissing(mask) {
      var j :| 0 <= j < |mask| && mask[j];
      assert InSomeBlock(Blocks(mask), j);
    }
    if Blocks(mask) != [] {
      assert IsRun(mask, Blocks(mask)[0]);
      assert mask[Blocks(mask)[0].first];
    }
  }

  /**
   * The scan of `detect_missing_pattern`: a flag for "inside a block" and the
   * row where the current block began; a block still open after the last row
   * closes at the last row.
   */
  method DetectMissingBlocks(mask: seq<bool>) returns (blocks: seq<Block>)
    ensures blocks == Blocks(mask)
  {
    blocks := [];
    var inBlock := false;
    var blockStart: nat := 0;
    var i := 0;
    while i < |mask|
      invariant 0 <= i <= |mask|
      invariant !inBlock ==> (i == 0 || !mask[i - 1]) && blocks + BlocksFrom(mask, i) == Blocks(mask)
      invariant inBlock ==> blockStart < i && mask[blockStart] && (forall j :: blockStart <= j < i ==> mask[j])
      invariant inBlock ==> blocks + [Block(blockStart, RunEnd(mask, blockStart))] + BlocksFrom(mask, RunEnd(mask, blockStart) + 1) == Blocks(mask)
    {
      if mask[i] && !inBlock {
        inBlock := true;
        blockStart := i;
      } else if !mask[i] && inBlock {
        RunEndWithin(mask, blockStart, i - 1);
        inBlock := false;
        blocks := blocks + [Block(blockStart, i - 1)];
        assert BlocksFrom(mask, i) == BlocksFrom(mask, i + 1);
      } else if !mask[i] {
        assert BlocksFrom(mask, i) == BlocksFrom(mask, i + 1);
      }
      i := i + 1;
    }
    if inBlock {
      RunEndWithin(mask, blockStart, |mask| - 1);
      blocks := blocks + [Block(blockStart, |mask| - 1)];
    }
  }

  // ---------------------------------------------------------------------
  // The pattern sentence
  // ---------------------------------------------------------------------

  const NoMissingText: string := "Keine fehlenden Werte"
  const ScatteredText: string := "Zufällig verteilt"

  /** The sentence for one or more blocks: the rows of a single block, a count of two to four blocks, or a count of five or more areas. */
  function BlocksText(bs: seq<Block>): string
    requires |bs| > 0
  {
    if |bs| == 1 then "Ein zusammenhängender Block: Zeilen " + NatToString(bs[0].first) + "-" + NatToString(bs[0].last)
    else if |bs| < 5 then NatToString(|bs|) + " Blöcke fehlender Daten"
    else "Verteilt über " + NatToString(|bs|) + " Bereiche"
  }

  /** The sentence `detect_missing_pattern` returns for a missing-value mask. */
  function PatternText(mask: seq<bool>): string
  {
    if !AnyMissing(mask) then NoMissingText
    else if |Blocks(mask)| > 0 then BlocksText(Blocks(mask))
    else ScatteredText
  }

  /**
   * The fall-back sentence is never produced: a column with a missing row
   * always has a block, and no block sentence reads like the fall-back.
   */
  lemma ScatteredUnreachable(mask: seq<bool>)
    ensures PatternText(mask) != ScatteredText
    ensures PatternText(mask) == NoMissingText <==> !AnyMissing(mask)
    ensures AnyMissing(mask) ==> PatternText(mask) == BlocksText(Blocks(mask))
  {
    NoBlocksIffNothingMissing(mask);
    if AnyMissing(mask) {
      var bs := Blocks(mask);
      var text := BlocksText(bs);
      if |bs| < 5 && |bs| != 1 {
        assert IsDigit(text[0]);
      }
      assert text[0] != ScatteredText[0] && text[0] != NoMissingText[0];
    }
  }

  /** A single block names exactly the run of missing rows: no other row of the column is missing. */
  lemma SingleBlockNamesAllMissingRows(mask: seq<bool>)
    requires |Blocks(mask)| == 1
    ensures forall j :: 0 <= j < |mask| ==> (mask[j] <==> Blocks(mask)[0].first <= j <= Blocks(mask)[0].last)
  {
    BlocksAreMaximalRuns(mask);
    assert IsRun(mask, Blocks(mask)[0]);
  }

  /** `detect_missing_pattern` on a column's missing mask. */
  method DetectMissingPattern(mask: seq<bool>) returns (msg: string)
    ensures msg == PatternText(mask)
  {
    var any := false;
    var i := 0;
    while i < |mask| && !any
      invariant 0 <= i <= |mask|
      invariant any <==> exists j :: 0 <= j < i && mask[j]
    {
      any := mask[i];
      i := i + 1;
    }
    if !any {
      return NoMissingText;
    }
    var blocks := DetectMissingBlocks(mask);
    if |blocks| > 0 {
      msg := BlocksText(blocks);
    } else {
      msg := ScatteredText;
    }
  }

  // ---------------------------------------------------------------------
  // Row lists
  // ---------------------------------------------------------------------

  /** The indices of the marked rows, ascending: `df[mask].index.tolist()` on a default index. */
  function Marked(mask: seq<bool>): (rows: seq<nat>)
    ensures forall k :: 0 <= k < |rows| ==> rows[k] < |mask| && mask[rows[k]]
    ensures forall k :: 0 < k < |rows| ==> rows[k - 1] < rows[k]
  {
    var opts := seq(|mask|, i requires 0 <= i < |mask| => if mask[i] then Some(i) else None);
    PresentRowsSound(opts);
    PresentRows(opts)
  }

  /** Every marked row is listed. */
  lemma MarkedComplete(mask: seq<bool>, i: nat)
    requires i < |mask| && mask[i]
    ensures i in Marked(mask)
  {
    var opts := seq(|mask|, i requires 0 <= i < |mask| => if mask[i] then Some(i) else None);
    PresentRowsComplete(opts, i);
  }

  const ExampleCap: nat := 10

  /** `isnull()` of a column. */
  function MissingMask(col: seq<Cell>): (mask: seq<bool>)
    ensures |mask| == |col| && forall i :: 0 <= i < |col| ==> (mask[i] <==> col[i].Missing?)
  {
    seq(|col|, i requires 0 <= i < |col| => col[i].Missing?)
  }

  /** One column's entry in `missing_analysis`. */
  datatype MissingInfo = MissingInfo(count: nat, percent: real, rowsAffected: nat, exampleRows: seq<nat>, pattern: string)

  /**
   * The entry for a column, absent when nothing is missing. The percentage is
   * kept exact (the two-decimal rounding is not modelled).
   */
  function MissingInfoOf(col: seq<Cell>): (r: Option<MissingInfo>)
    ensures r.None? <==> !AnyMissing(MissingMask(col))
    ensures r.Some? ==> r.value.count == r.value.rowsAffected == |Marked(MissingMask(col))| > 0
    ensures r.Some? ==> r.value.percent == (r.value.count as real) * 100.0 / (|col| as real)
    ensures r.Some? ==> |r.value.exampleRows| <= ExampleCap && r.value.exampleRows <= Marked(MissingMask(col))
  {
    var mask := MissingMask(col);
    var rows := Marked(mask);
    if !AnyMissing(mask) then None
    else
      var j :| 0 <= j < |mask| && mask[j];
      MarkedComplete(mask, j);
      Some(MissingInfo(|rows|, (|rows| as real) * 100.0 / (|col| as real), |rows|, Take(rows, ExampleCap), PatternText(mask)))
  }

  /** The examples are the first ten missing rows, all of them when there are at most ten. */
  lemma ExamplesAreFirstMissingRows(col: seq<Cell>)
    requires MissingInfoOf(col).Some?
    ensures var info := MissingInfoOf(col).value;
      && (forall k :: 0 <= k < |info.exampleRows| ==> col[info.exampleRows[k]].Missing?)
      && (info.count <= ExampleCap ==> forall i :: 0 <= i < |col| && col[i].Missing? ==> i in info.exampleRows)
  {
    var mask := MissingMask(col);
    var info := MissingInfoOf(col).value;
    if info.count <= ExampleCap {
      forall i | 0 <= i < |col| && col[i].Missing? ensures i in info.exampleRows {
        MarkedComplete(mask, i);
      }
    }
  }

  /** The column loop of the missing-value analysis, with the pattern of each column found by the scan. */
  method DescribeMissing(col: seq<Cell>) returns (info: Option<MissingInfo>)
    ensures info == MissingInfoOf(col)
  {
    var mask := MissingMask(col);
    var rows := Marked(mask);
    if |rows| == 0 {
      if AnyMissing(mask) {
        var j :| 0 <= j < |mask| && mask[j];
        MarkedComplete(mask, j);
      }
      return None;
    }
    assert mask[rows[0]];
    var pattern := DetectMissingPattern(mask);
    info := Some(MissingInfo(|rows|, (|rows| as real) * 100.0 / (|col| as real), |rows|, Take(rows, ExampleCap), pattern));
  }

  // ---------------------------------------------------------------------
  // Duplicate rows
  // ---------------------------------------------------------------------

  /** `df.duplicated()`: a row equal to an earlier one (missing cells compare equal). */
  function DuplicateMask(rows: seq<seq<Cell>>): (mask: seq<bool>)
    ensures |mask| == |rows|
    ensures forall i :: 0 <= i < |rows| ==> (mask[i] <==> exists j :: 0 <= j < i && rows[j] == rows[i])
  {
    seq(|rows|, i requires 0 <= i < |rows| => rows[i] in rows[..i])
  }

  datatype DuplicateInfo = DuplicateInfo(count: nat, rows: seq<nat>)

  /** The `duplicates` entry: absent unless some row repeats an earlier one; at most ten example rows. */
  function DuplicatesOf(rows: seq<seq<Cell>>): (r: Option<DuplicateInfo>)
    ensures r.None? <==> forall i, j :: 0 <= j < i < |rows| ==> rows[j] != rows[i]
    ensures r.Some? ==> r.value.count > 0 && |r.value.rows| <= ExampleCap
    ensures r.Some? ==> forall k :: 0 <= k < |r.value.rows| ==> r.value.rows[k] < |rows| && rows[r.value.rows[k]] in rows[..r.value.rows[k]]
  {
    var mask := DuplicateMask(rows);
    var dups := Marked(mask);
    if !AnyMissing(mask) then None
    else
      var j :| 0 <= j < |mask| && mask[j];
      MarkedComplete(mask, j);
      Some(DuplicateInfo(|dups|, Take(dups, ExampleCap)))
  }

  // ---------------------------------------------------------------------
  // Constant sensors
  // ---------------------------------------------------------------------

  /** A column pandas types as float64 or int64: it has rows, and every cell is a number or missing. */
  predicate IsNumeric(col: seq<Cell>)
  {
    |col| > 0 && forall i :: 0 <= i < |col| ==> col[i].Missing? || col[i].Num?
  }

  /** The non-missing numbers of a column, in order (`dropna()`). */
  function Values(col: seq<Cell>): (vs: seq<real>)
    ensures |vs| <= |col|
    ensures forall v :: v in vs <==> Num(v) in col
  {
    if col == [] then []
    else
      assert col == [col[0]] + col[1..];
      if col[0].Num? then [col[0].x] + Values(col[1..]) else Values(col[1..])
  }

  function Occurrences(vs: seq<real>, v: real): nat
  {
    multiset(vs)[v]
  }

  /** The first value with the highest count (`value_counts().index[0]` when the top count is unique). */
  function TopValue(vs: seq<real>): (v: real)
    requires vs != []
    ensures v in vs
    ensures forall w :: w in vs ==> Occurrences(vs, w) <= Occurrences(vs, v)
  {
    TopAmong(vs, vs)
  }

  function TopAmong(vs: seq<real>, cs: seq<real>): (v: real)
    requires cs != []
    ensures v in cs
    ensures forall w :: w in cs ==> Occurrences(vs, w) <= Occurrences(vs, v)
  {
    if |cs| == 1 then cs[0]
    else
      var m := TopAmong(vs, cs[1..]);
      assert forall w :: w in cs ==> w == cs[0] || w in cs[1..];
      if Occurrences(vs, cs[0]) >= Occurrences(vs, m) then cs[0] else m
  }

  /** Two different values together occur no more often than there are values. */
  lemma {:induction false} TwoCountsBound(vs: seq<real>, v: real, w: real)
    requires v != w
    ensures Occurrences(vs, v) + Occurrences(vs, w) <= |vs|
  {
    if vs != [] {
      TwoCountsBound(vs[1..], v, w);
      assert vs == [vs[0]] + vs[1..];
      assert multiset(vs) == multiset{vs[0]} + multiset(vs[1..]);
    }
  }

  /** What the constant-value check records for a column. */
  datatype Constancy = Constant(value: real) | Dominant(value: real, count: nat)

  /** The outcome of the check: `value_counts().iloc[0]` on a column without values raises. */
  datatype ConstantCheck = Raises | Recorded(c: Constancy) | Unremarkable

  function DistinctValues(col: seq<Cell>): set<real>
  {
    set v | v in Values(col)
  }

  /**
   * One distinct value: constant. Fewer than five: dominant when the most
   * frequent value fills more than 95% of the rows. No value at all: the
   * `value_counts` lookup fails.
   */
  function CheckConstant(col: seq<Cell>): (r: ConstantCheck)
    ensures r == Raises <==> Values(col) == []
    ensures r.Recorded? && r.c.Constant? ==> DistinctValues(col) == {r.c.value}
    ensures r.Recorded? && r.c.Dominant? ==>
      && 1 < |DistinctValues(col)| < 5
      && r.c.count == Occurrences(Values(col), r.c.value)
      && 100 * r.c.count > 95 * |col|
  {
    var vs := Values(col);
    var ds := DistinctValues(col);
    if |ds| == 1 then
      assert vs[0] in ds;
      SingletonSet(ds, vs[0]);
      Recorded(Constant(vs[0]))
    else if |ds| < 5 then
      if vs == [] then Raises
      else
        assert vs[0] in ds;
        var top := TopValue(vs);
        var n := Occurrences(vs, top);
        if 100 * n > 95 * |col| then Recorded(Dominant(top, n)) else Unremarkable
    else
      assert vs != [] by { assert vs[0] in ds; }
      Unremarkable
  }

  lemma SingletonSet(ds: set<real>, x: real)
    requires x in ds && |ds| == 1
    ensures ds == {x}
  {
    var rest := ds - {x};
    assert ds == {x} + rest;
    assert |rest| == 0;
  }

  /** Only one value can fill more than 95% of the rows, so the dominant value does not depend on how ties are ordered. */
  lemma DominantValueUnique(col: seq<Cell>, v: real)
    requires CheckConstant(col).Recorded? && CheckConstant(col).c.Dominant?
    requires 100 * Occurrences(Values(col), v) > 95 * |col|
    ensures v == CheckConstant(col).c.value
  {
    var top := CheckConstant(col).c.value;
    if v != top {
      TwoCountsBound(Values(col), v, top);
    }
  }

  // ---------------------------------------------------------------------
  // Implausible values
  // ---------------------------------------------------------------------

  /** The plausibility rule a column is held to, chosen by its name. */
  datatype Rule = TemperatureRange | NoNegativePower | NoNegativeFlow | NoRule

  function RuleFor(name: string): (r: Rule)
    ensures r == TemperatureRange <==> Contains(Lower(name), "temp")
    ensures r == NoNegativePower <==> !Contains(Lower(name), "temp") && (Contains(Lower(name), "leistung") || Contains(Lower(name), "power"))
    ensures r == NoNegativeFlow <==> !Contains(Lower(name), "temp") && !Contains(Lower(name), "leistung") && !Contains(Lower(name), "power")
                                     && (Contains(Lower(name), "durchfluss") || Contains(Lower(name), "flow"))
  {
    var lower := Lower(name);
    TemperaturMentionsTemp(lower);
    if Contains(lower, "temperatur") || Contains(lower, "temp") then TemperatureRange
    else if Contains(lower, "leistung") || Contains(lower, "power") then NoNegativePower
    else if Contains(lower, "durchfluss") || Contains(lower, "flow") then NoNegativeFlow
    else NoRule
  }

  /** 'temperatur' contains 'temp', so the first of the two temperature keywords never decides anything. */
  lemma TemperaturMentionsTemp(s: string)
    ensures Contains(s, "temperatur") ==> Contains(s, "temp")
  {
    if Contains(s, "temperatur") {
      assert StartsWith("temperatur", "temp");
      ContainsPrefixOf(s, "temperatur", "temp");
    }
  }

  /** A reading the rule rejects; a missing reading compares false and is never rejected. */
  predicate Violates(rule: Rule, c: Cell)
  {
    && c.Num?
    && (if rule == TemperatureRange then c.x < -50.0 || c.x > 100.0
        else if rule == NoRule then false
        else c.x < 0.0)
  }

  datatype Implausible = Implausible(rule: Rule, count: nat, rows: seq<nat>, values: seq<real>)

  /** The rows a rule rejects, ascending. */
  function ViolatingRows(rule: Rule, col: seq<Cell>): seq<nat>
  {
    Marked(seq(|col|, i requires 0 <= i < |col| => Violates(rule, col[i])))
  }

  /**
   * The `error_analysis` entry of a column: absent when its name selects no
   * rule or no reading breaks it, else the count and the first ten rows, and
   * for temperatures also the first ten offending values.
   */
  function ImplausibleOf(name: string, col: seq<Cell>): (r: Option<Implausible>)
    ensures r.Some? ==> r.value.rule == RuleFor(name) != NoRule && r.value.count == |ViolatingRows(RuleFor(name), col)| > 0
    ensures r.Some? ==> |r.value.rows| <= ExampleCap && |r.value.values| <= ExampleCap
    ensures r.Some? ==> forall k :: 0 <= k < |r.value.rows| ==> r.value.rows[k] < |col| && Violates(r.value.rule, col[r.value.rows[k]])
    ensures r.None? ==> forall i :: 0 <= i < |col| ==> !Violates(RuleFor(name), col[i])
  {
    var rule := RuleFor(name);
    var rows := ViolatingRows(rule, col);
    if rule == NoRule || |rows| == 0 then
      forall i | 0 <= i < |col| && Violates(rule, col[i]) ensures false {
        MarkedComplete(seq(|col|, i requires 0 <= i < |col| => Violates(rule, col[i])), i);
      }
      None
    else
      var shown := Take(rows, ExampleCap);
      assert forall k :: 0 <= k < |shown| ==> shown[k] == rows[k] && shown[k] < |col|;
      var values := if rule == TemperatureRange then seq(|shown|, k requires 0 <= k < |shown| => col[shown[k]].x) else [];
      Some(Implausible(rule, |rows|, shown, values))
  }

  // ---------------------------------------------------------------------
  // Time gaps
  // ---------------------------------------------------------------------

  /** Timestamps in ascending order. */
  predicate Ascending(ts: seq<int>)
  {
    forall i, j :: 0 <= i < j < |ts| ==> ts[i] <= ts[j]
  }

  /** `sort_values` on the present timestamps. */
  function SortTimes(ts: seq<int>): (r: seq<int>)
    ensures multiset(r) == multiset(ts) && Ascending(r)
  {
    var r := SortBy(ts, x => x);
    assert forall i, j :: 0 <= i < j < |r| ==> (x => x)(r[i]) <= (x => x)(r[j]);
    r
  }

  /** The interval assumed when the differences have no mode: five minutes. */
  const DefaultInterval: int := 300

  function Count(xs: seq<int>, v: int): nat
  {
    multiset(xs)[v]
  }

  /** The most frequent of `cs` by their counts in `xs`, the smallest one on a tie. */
  function ModeAmong(xs: seq<int>, cs: seq<int>): (m: int)
    requires cs != []
    ensures m in cs
    ensures forall c :: c in cs ==> Count(xs, c) < Count(xs, m) || (Count(xs, c) == Count(xs, m) && m <= c)
  {
    if |cs| == 1 then cs[0]
    else
      var m := ModeAmong(xs, cs[1..]);
      assert forall c :: c in cs ==> c == cs[0] || c in cs[1..];
      if Count(xs, cs[0]) > Count(xs, m) || (Count(xs, cs[0]) == Count(xs, m) && cs[0] < m) then cs[0] else m
  }

  /** `mode()[0]`: pandas lists the modes in ascending order, so this is the smallest most frequent value. */
  function Mode(xs: seq<int>): (m: int)
    requires xs != []
    ensures m in xs
    ensures forall c :: c in xs ==> Count(xs, c) <= Count(xs, m)
    ensures forall c :: c in xs && Count(xs, c) == Count(xs, m) ==> m <= c
  {
    ModeAmong(xs, xs)
  }

  /** `diff()` of the sorted timestamps, leaving out the leading `NaT`: entry `i - 1` is `ts[i] - ts[i - 1]`. */
  function Diffs(ts: seq<int>): (ds: seq<int>)
    ensures |ts| > 0 ==> |ds| == |ts| - 1
    ensures |ts| == 0 ==> ds == []
    ensures forall i :: 0 < i < |ts| ==> ds[i - 1] == ts[i] - ts[i - 1]
  {
    if |ts| == 0 then [] else seq(|ts| - 1, i requires 0 <= i < |ts| - 1 => ts[i + 1] - ts[i])
  }

  /** The normal interval: the modal difference, or five minutes when there is no difference. */
  function NormalInterval(ts: seq<int>): int
  {
    if |ts| >= 2 then Mode(Diffs(ts)) else DefaultInterval
  }

  /** In ascending timestamps every difference, hence the normal interval, is non-negative. */
  lemma NormalIntervalNonNegative(ts: seq<int>)
    requires Ascending(ts)
    ensures NormalInterval(ts) >= 0
  {
    if |ts| >= 2 {
      var m := Mode(Diffs(ts));
      var k :| 0 <= k < |Diffs(ts)| && Diffs(ts)[k] == m;
      assert ts[k] <= ts[k + 1];
    }
  }

  /** A reported gap: the neighbouring sorted rows, their times, the gap and how many normal intervals fit in it. */
  datatype Gap = Gap(startRow: nat, endRow: nat, startTime: int, endTime: int, duration: int, missingIntervals: int)

  /** `int(diff / normal_interval)`: how many normal intervals fit into a non-negative difference. */
  function Intervals(d: int, normal: int): int
    requires normal > 0
  {
    d / normal
  }

  /** The gap record of position `i` against a positive normal interval. */
  function GapAt(ts: seq<int>, i: nat, normal: int): (g: Gap)
    requires 1 <= i < |ts| && normal > 0
    ensures g.endRow == g.startRow + 1 == i
    ensures g.duration == g.endTime - g.startTime
  {
    Gap(i - 1, i, ts[i - 1], ts[i], ts[i] - ts[i - 1], Intervals(ts[i] - ts[i - 1], normal))
  }

  /** Position `i` is more than twice the normal interval after the timestamp before it. */
  predicate IsGap(ts: seq<int>, i: int, normal: int)
  {
    1 <= i < |ts| && ts[i] - ts[i - 1] > 2 * normal
  }

  /** The records of the gaps at positions below `i`, in row order. */
  function GapsUpTo(ts: seq<int>, normal: int, i: nat): seq<Gap>
    requires normal > 0 && 1 <= i <= |ts|
  {
    if i == 1 then []
    else GapsUpTo(ts, normal, i - 1) + (if IsGap(ts, i - 1, normal) then [GapAt(ts, i - 1, normal)] else [])
  }

  /** The records of all gaps against a positive normal interval, in row order. */
  function AllGaps(ts: seq<int>, normal: int): seq<Gap>
    requires |ts| >= 1 && normal > 0
  {
    GapsUpTo(ts, normal, |ts|)
  }

  /**
   * The first ten gaps against a normal interval. With a zero interval a
   * difference above the threshold makes the division for its record fail,
   * and the exception handler returns no gaps; without such a difference
   * there are none to report either.
   */
  function GapsAgainst(ts: seq<int>, normal: int): (gaps: seq<Gap>)
    ensures |gaps| <= ExampleCap
    ensures |ts| < 2 || normal <= 0 ==> gaps == []
    ensures |ts| >= 2 && normal > 0 ==> |gaps| <= |AllGaps(ts, normal)| && gaps == AllGaps(ts, normal)[..|gaps|]
    ensures |ts| >= 2 && normal > 0 && |gaps| < ExampleCap ==> gaps == AllGaps(ts, normal)
  {
    if |ts| < 2 || normal <= 0 then [] else Take(AllGaps(ts, normal), ExampleCap)
  }

  /** The gaps of sorted timestamps against their normal interval. */
  function TimeGaps(ts: seq<int>): seq<Gap>
  {
    GapsAgainst(ts, NormalInterval(ts))
  }

  /** Each record below `i` is the record of a gap, and the records ascend by position. */
  lemma {:induction false} GapsUpToSound(ts: seq<int>, normal: int, i: nat)
    requires normal > 0 && 1 <= i <= |ts|
    ensures forall k :: 0 <= k < |GapsUpTo(ts, normal, i)| ==>
      var g := GapsUpTo(ts, normal, i)[k]; g.endRow < i && IsGap(ts, g.endRow, normal) && g == GapAt(ts, g.endRow, normal)
    ensures forall k :: 0 < k < |GapsUpTo(ts, normal, i)| ==>
      GapsUpTo(ts, normal, i)[k - 1].endRow < GapsUpTo(ts, normal, i)[k].endRow
  {
    if i > 1 {
      GapsUpToSound(ts, normal, i - 1);
    }
  }

  /** The record of every gap at a position below `i` is among the records, at index `k`. */
  lemma {:induction false} GapsUpToComplete(ts: seq<int>, normal: int, i: nat, j: nat) returns (k: nat)
    requires normal > 0 && 1 <= i <= |ts| && j < i && IsGap(ts, j, normal)
    ensures k < |GapsUpTo(ts, normal, i)| && GapsUpTo(ts, normal, i)[k] == GapAt(ts, j, normal)
  {
    if j < i - 1 {
      k := GapsUpToComplete(ts, normal, i - 1, j);
    } else {
      k := |GapsUpTo(ts, normal, i - 1)|;
    }
  }

  /**
   * Each gap record joins neighbours more than twice the normal interval
   * apart and spans at least two normal intervals; the records ascend by row.
   */
  lemma AllGapsSound(ts: seq<int>, normal: int)
    requires |ts| >= 1 && normal > 0
    ensures forall k :: 0 <= k < |AllGaps(ts, normal)| ==>
      && AllGaps(ts, normal)[k].endRow == AllGaps(ts, normal)[k].startRow + 1 < |ts|
      && AllGaps(ts, normal)[k].startTime == ts[AllGaps(ts, normal)[k].startRow]
      && AllGaps(ts, normal)[k].endTime == ts[AllGaps(ts, normal)[k].endRow]
      && AllGaps(ts, normal)[k].duration > 2 * normal
      && AllGaps(ts, normal)[k].missingIntervals >= 2
    ensures forall k :: 0 < k < |AllGaps(ts, normal)| ==> AllGaps(ts, normal)[k - 1].endRow < AllGaps(ts, normal)[k].endRow
  {
    var all := AllGaps(ts, normal);
    GapsUpToSound(ts, normal, |ts|);
    forall k | 0 <= k < |all|
      ensures all[k].endRow == all[k].startRow + 1 < |ts|
      ensures all[k].startTime == ts[all[k].startRow] && all[k].endTime == ts[all[k].endRow]
      ensures all[k].duration > 2 * normal && all[k].missingIntervals >= 2
    {
      var g := all[k];
      assert IsGap(ts, g.endRow, normal) && g == GapAt(ts, g.endRow, normal);
      DivAtLeastTwo(g.duration, normal);
    }
  }

  /** Every difference above twice a positive interval has its record. */
  lemma AllGapsComplete(ts: seq<int>, normal: int, i: nat)
    requires normal > 0 && 1 <= i < |ts| && ts[i] - ts[i - 1] > 2 * normal
    ensures exists k :: 0 <= k < |AllGaps(ts, normal)| && AllGaps(ts, normal)[k] == GapAt(ts, i, normal)
  {
    var k := GapsUpToComplete(ts, normal, |ts|, i);
    assert AllGaps(ts, normal)[k] == GapAt(ts, i, normal);
  }

  lemma DivAtLeastTwo(d: int, n: int)
    requires n > 0 && d > 2 * n
    ensures d / n >= 2
  {
  }

  /** The loop over the differences: a record per gap, and an empty result once a division by a zero interval fails. */
  method ScanGaps(ts: seq<int>, normal: int) returns (gaps: seq<Gap>)
    requires normal >= 0
    ensures gaps == GapsAgainst(ts, normal)
  {
    var found: seq<Gap> := [];
    var i := 1;
    while i < |ts|
      invariant 1 <= i && (|ts| >= 1 ==> i <= |ts|)
      invariant normal == 0 ==> found == []
      invariant normal > 0 && |ts| >= 1 ==> found == GapsUpTo(ts, normal, i)
    {
      var d := ts[i] - ts[i - 1];
      if d > 2 * normal {
        if normal == 0 {
          return [];
        }
        found := found + [GapAt(ts, i, normal)];
      }
      i := i + 1;
    }
    if |ts| < 2 || normal == 0 {
      return [];
    }
    gaps := Take(found, ExampleCap);
  }

  /**
   * `detect_time_gaps` on the converted timestamps of the time column:
   * missing ones sort last and never form a gap, so only the present ones
   * are sorted and scanned.
   */
  method DetectTimeGaps(stamps: seq<Option<int>>) returns (gaps: seq<Gap>)
    ensures gaps == TimeGaps(SortTimes(Present(stamps)))
  {
    var ts := SortTimes(Present(stamps));
    var normal := NormalInterval(ts);
    NormalIntervalNonNegative(ts);
    gaps := ScanGaps(ts, normal);
  }

  /**
   * The time column: 'Datum + Uhrzeit' when present; otherwise, when some
   * column is named 'timestamp' in any case, the first column whose
   * lowercased name contains 'timestamp'.
   */
  function TimeColumn(cols: seq<string>): (r: Option<nat>)
    ensures r.Some? ==> r.value < |cols|
    ensures "Datum + Uhrzeit" in cols ==> r.Some? && cols[r.value] == "Datum + Uhrzeit"
    ensures r.Some? && cols[r.value] != "Datum + Uhrzeit" ==> Contains(Lower(cols[r.value]), "timestamp")
    ensures r.None? <==> "Datum + Uhrzeit" !in cols && forall c :: c in cols ==> Lower(c) != "timestamp"
  {
    var exact := ColumnIndex(cols, "Datum + Uhrzeit");
    if exact.Some? then exact
    else if exists c :: c in cols && Lower(c) == "timestamp" then
      var first := FirstContaining(cols, "timestamp");
      assert first.Some? by {
        var c :| c in cols && Lower(c) == "timestamp";
        var j :| 0 <= j < |cols| && cols[j] == c;
        assert Contains(Lower(cols[j]), "timestamp") by { ContainsAt(Lower(cols[j]), "timestamp", 0); }
      }
      first
    else None
  }

  function FirstContaining(cols: seq<string>, key: string): (r: Option<nat>)
    ensures r.Some? ==> r.value < |cols| && Contains(Lower(cols[r.value]), key)
    ensures r.Some? ==> forall j :: 0 <= j < r.value ==> !Contains(Lower(cols[j]), key)
    ensures r.None? ==> forall j :: 0 <= j < |cols| ==> !Contains(Lower(cols[j]), key)
  {
    if cols == [] then None
    else if Contains(Lower(cols[0]), key) then Some(0)
    else
      match FirstContaining(cols[1..], key)
      case None => None
      case Some(i) => Some(i + 1)
  }

  // ---------------------------------------------------------------------
  // One file
  // ---------------------------------------------------------------------

  /** The named entries of the first `n` columns, in column order, leaving out the columns the check has nothing to say about. */
  function EntriesUpTo<T>(names: seq<string>, infos: seq<Option<T>>, n: nat): (es: seq<(string, T)>)
    requires n <= |names| == |infos|
    ensures |es| <= n
  {
    if n == 0 then []
    else EntriesUpTo(names, infos, n - 1) + (if infos[n - 1].Some? then [(names[n - 1], infos[n - 1].value)] else [])
  }

  /** One more column adds its entry when its check says something. */
  lemma EntriesStep<T>(names: seq<string>, infos: seq<Option<T>>, n: nat)
    requires n < |names| == |infos|
    ensures EntriesUpTo(names, infos, n + 1)
         == EntriesUpTo(names, infos, n) + (if infos[n].Some? then [(names[n], infos[n].value)] else [])
  {
  }

  /** The named entries of a per-column check, in column order. */
  function Entries<T>(names: seq<string>, infos: seq<Option<T>>): (es: seq<(string, T)>)
    requires |names| == |infos|
  {
    EntriesUpTo(names, infos, |names|)
  }

  /** Among the first `n` columns, a column has an entry exactly when its check says something, and the entry carries what it says. */
  lemma {:induction false} EntriesUpToExact<T>(names: seq<string>, infos: seq<Option<T>>, n: nat, e: (string, T))
    requires n <= |names| == |infos|
    ensures e in EntriesUpTo(names, infos, n) <==> exists j :: 0 <= j < n && names[j] == e.0 && infos[j] == Some(e.1)
  {
    if n > 0 {
      EntriesUpToExact(names, infos, n - 1, e);
    }
  }

  /** A column has an entry exactly when its check says something, and the entry carries what it says. */
  lemma EntriesExact<T>(names: seq<string>, infos: seq<Option<T>>, e: (string, T))
    requires |names| == |infos|
    ensures e in Entries(names, infos) <==> exists j :: 0 <= j < |names| && names[j] == e.0 && infos[j] == Some(e.1)
  {
    EntriesUpToExact(names, infos, |names|, e);
  }

  function MissingInfos(t: Table): (infos: seq<Option<MissingInfo>>)
    ensures |infos| == |t.columns|
  {
    seq(|t.columns|, j requires 0 <= j < |t.columns| => MissingInfoOf(Column(t, j)))
  }

  function ConstantInfo(col: seq<Cell>): Option<Constancy>
  {
    if IsNumeric(col) && CheckConstant(col).Recorded? then Some(CheckConstant(col).c) else None
  }

  function ConstantInfos(t: Table): (infos: seq<Option<Constancy>>)
    ensures |infos| == |t.columns|
  {
    seq(|t.columns|, j requires 0 <= j < |t.columns| => ConstantInfo(Column(t, j)))
  }

  /** Column `j` is numeric and holds no value, so its constant check raises. */
  predicate CheckFailsAt(t: Table, j: nat)
  {
    IsNumeric(Column(t, j)) && Values(Column(t, j)) == []
  }

  /** Some numeric column holds no value at all: its constant check raises and takes the whole file analysis with it. */
  predicate ConstantCheckFails(t: Table)
  {
    true in FailFlags(t)
  }

  /** Which columns fail their constant check, column by column. */
  function FailFlags(t: Table): (flags: seq<bool>)
    ensures |flags| == |t.columns|
  {
    seq(|t.columns|, j requires 0 <= j < |t.columns| => CheckFailsAt(t, j))
  }

  /** The analysis of a file fails exactly when some column's constant check raises. */
  lemma ConstantCheckFailsIff(t: Table)
    ensures ConstantCheckFails(t) <==> exists j :: 0 <= j < |t.columns| && CheckFailsAt(t, j)
  {
    if ConstantCheckFails(t) {
      var j :| 0 <= j < |t.columns| && FailFlags(t)[j];
      assert CheckFailsAt(t, j);
    } else {
      forall j | 0 <= j < |t.columns|
        ensures !CheckFailsAt(t, j)
      {
        assert FailFlags(t)[j] == CheckFailsAt(t, j);
      }
    }
  }

  /** Some flag before position `j` is set. */
  predicate SetBefore(flags: seq<bool>, j: nat)
    requires j <= |flags|
  {
    j > 0 && (SetBefore(flags, j - 1) || flags[j - 1])
  }

  lemma {:induction false} SetBeforeIff(flags: seq<bool>, j: nat)
    requires j <= |flags|
    ensures SetBefore(flags, j) <==> true in flags[..j]
  {
    if j > 0 {
      SetBeforeIff(flags, j - 1);
      assert flags[..j] == flags[..j - 1] + [flags[j - 1]];
    }
  }

  /**
   * The implausible-value entry of a numeric column. The time column, once
   * the gap detection has converted it to timestamps, is no longer numeric.
   */
  function ImplausibleInfo(t: Table, j: nat, timeCol: Option<nat>): Option<Implausible>
  {
    if IsNumeric(Column(t, j)) && timeCol != Some(j) && j < |t.columns| then ImplausibleOf(t.columns[j], Column(t, j)) else None
  }

  function ImplausibleInfos(t: Table): (infos: seq<Option<Implausible>>)
    ensures |infos| == |t.columns|
  {
    seq(|t.columns|, j requires 0 <= j < |t.columns| => ImplausibleInfo(t, j, TimeColumn(t.columns)))
  }

  /** The gaps of the time column, if the frame has one, with its cells converted by the given parser. */
  function GapsOfFrame(t: Table, parse: (DateFormat, Cell) -> Option<int>): seq<Gap>
  {
    match TimeColumn(t.columns)
    case None => []
    case Some(j) => TimeGaps(SortTimes(Present(ToDatetime(Column(t, j), Inferred, parse))))
  }

  /** The result of `analyze_csv_file`: the error dictionary, or the findings of every check. */
  datatype FileAnalysis =
    | Failed
    | Analysis(totalRows: nat, totalColumns: nat, missing: seq<(string, MissingInfo)>, duplicates: Option<DuplicateInfo>,
               constants: seq<(string, Constancy)>, gaps: seq<Gap>, errors: seq<(string, Implausible)>)

  /** The loop over the columns that records the missing-value entries. */
  method CollectMissing(t: Table) returns (es: seq<(string, MissingInfo)>)
    ensures es == Entries(t.columns, MissingInfos(t))
  {
    es := [];
    var j := 0;
    while j < |t.columns|
      invariant 0 <= j <= |t.columns|
      invariant es == EntriesUpTo(t.columns, MissingInfos(t), j)
    {
      es := MissingStep(t, j, es);
      j := j + 1;
    }
  }

  /** One pass of the loop in `CollectMissing`: describe column `j` and record its entry when it has missing cells. */
  method MissingStep(t: Table, j: nat, es: seq<(string, MissingInfo)>) returns (es': seq<(string, MissingInfo)>)
    requires j < |t.columns| && es == EntriesUpTo(t.columns, MissingInfos(t), j)
    ensures es' == EntriesUpTo(t.columns, MissingInfos(t), j + 1)
  {
    var info := DescribeMissing(Column(t, j));
    assert info == MissingInfos(t)[j];
    EntriesStep(t.columns, MissingInfos(t), j);
    es' := es;
    if info.Some? {
      es' := es + [(t.columns[j], info.value)];
    }
  }

  /** The constant check of one column: whether it raises, and the entry it records. */
  method CheckColumnConstant(t: Table, j: nat) returns (fails: bool, info: Option<Constancy>)
    requires j < |t.columns|
    ensures fails == CheckFailsAt(t, j)
    ensures info == ConstantInfos(t)[j]
  {
    var col := Column(t, j);
    fails, info := false, None;
    if IsNumeric(col) {
      var check := CheckConstant(col);
      fails := check == Raises;
      if check.Recorded? {
        info := Some(check.c);
      }
    }
  }

  /** The constant sensors of a frame; `None` when the check of some column raises. */
  method CollectConstants(t: Table) returns (es: Option<seq<(string, Constancy)>>)
    ensures es.None? <==> ConstantCheckFails(t)
    ensures es.Some? ==> es == Some(Entries(t.columns, ConstantInfos(t)))
  {
    var stop, acc := ScanConstants(t);
    if stop < |t.columns| {
      es := None;
    } else {
      ConstantsPass(t, acc);
      es := Some(acc);
    }
  }

  /**
   * The loop over the numeric columns that records constant sensors, left
   * at the first column whose check raises (`stop`, or the number of columns
   * when none does), with the entries of the columns before it.
   */
  method ScanConstants(t: Table) returns (stop: nat, acc: seq<(string, Constancy)>)
    ensures stop <= |t.columns| && !SetBefore(FailFlags(t), stop)
    ensures stop < |t.columns| ==> FailFlags(t)[stop]
    ensures acc == EntriesUpTo(t.columns, ConstantInfos(t), stop)
  {
    acc := [];
    stop := 0;
    ghost var flags := FailFlags(t);
    while stop < |t.columns|
      invariant 0 <= stop <= |t.columns|
      invariant acc == EntriesUpTo(t.columns, ConstantInfos(t), stop)
      invariant !SetBefore(flags, stop)
    {
      var fails, next := ConstantStep(t, stop, acc);
      if fails {
        return;
      }
      assert !SetBefore(flags, stop + 1);
      acc := next;
      stop := stop + 1;
    }
  }

  /** Leaving the loop without a failure: no column fails, and every entry has been recorded. */
  lemma ConstantsPass(t: Table, acc: seq<(string, Constancy)>)
    requires acc == EntriesUpTo(t.columns, ConstantInfos(t), |t.columns|) && !SetBefore(FailFlags(t), |t.columns|)
    ensures !ConstantCheckFails(t) && acc == Entries(t.columns, ConstantInfos(t))
  {
    SetBeforeIff(FailFlags(t), |t.columns|);
    assert FailFlags(t)[..|t.columns|] == FailFlags(t);
  }

  /** One pass of the loop in `CollectConstants`: check column `j`, and record its entry when the check passes. */
  method ConstantStep(t: Table, j: nat, acc: seq<(string, Constancy)>) returns (fails: bool, acc': seq<(string, Constancy)>)
    requires j < |t.columns| && acc == EntriesUpTo(t.columns, ConstantInfos(t), j)
    ensures fails == FailFlags(t)[j]
    ensures acc' == EntriesUpTo(t.columns, ConstantInfos(t), j + 1)
  {
    var info;
    fails, info := CheckColumnConstant(t, j);
    EntriesStep(t.columns, ConstantInfos(t), j);
    acc' := acc;
    if info.Some? {
      acc' := acc + [(t.columns[j], info.value)];
    }
  }

  /** The implausible-value check of one column, the time column excepted. */
  method CheckColumnPlausible(t: Table, j: nat, timeCol: Option<nat>) returns (info: Option<Implausible>)
    requires j < |t.columns| && timeCol == TimeColumn(t.columns)
    ensures info == ImplausibleInfos(t)[j]
  {
    var col := Column(t, j);
    info := None;
    if IsNumeric(col) && timeCol != Some(j) {
      info := ImplausibleOf(t.columns[j], col);
    }
  }

  /** The loop over the numeric columns that records implausible readings. */
  method CollectImplausible(t: Table) returns (es: seq<(string, Implausible)>)
    ensures es == Entries(t.columns, ImplausibleInfos(t))
  {
    var timeCol := TimeColumn(t.columns);
    es := [];
    var j := 0;
    while j < |t.columns|
      invariant 0 <= j <= |t.columns|
      invariant es == EntriesUpTo(t.columns, ImplausibleInfos(t), j)
    {
      es := ImplausibleStep(t, j, timeCol, es);
      j := j + 1;
    }
  }

  /** One pass of the loop in `CollectImplausible`: check column `j` and record its entry when it has implausible readings. */
  method ImplausibleStep(t: Table, j: nat, timeCol: Option<nat>, es: seq<(string, Implausible)>) returns (es': seq<(string, Implausible)>)
    requires j < |t.columns| && timeCol == TimeColumn(t.columns) && es == EntriesUpTo(t.columns, ImplausibleInfos(t), j)
    ensures es' == EntriesUpTo(t.columns, ImplausibleInfos(t), j + 1)
  {
    var info := CheckColumnPlausible(t, j, timeCol);
    EntriesStep(t.columns, ImplausibleInfos(t), j);
    es' := es;
    if info.Some? {
      es' := es + [(t.columns[j], info.value)];
    }
  }

  /**
   * `analyze_csv_file` on the frame the reader produced (`None` when both
   * reads raised): missing values per column, duplicate rows, constant
   * sensors, gaps in the time column, and implausible readings. A failed
   * read or a failing constant check yields the error dictionary.
   */
  method AnalyzeCsvFile(read: Option<Table>, parse: (DateFormat, Cell) -> Option<int>) returns (r: FileAnalysis)
    ensures r.Failed? <==> read.None? || ConstantCheckFails(read.value)
    ensures r.Analysis? ==> r.totalRows == |read.value.rows| && r.totalColumns == |read.value.columns|
    ensures r.Analysis? ==> r.missing == Entries(read.value.columns, MissingInfos(read.value))
    ensures r.Analysis? ==> r.duplicates == DuplicatesOf(read.value.rows)
    ensures r.Analysis? ==> r.constants == Entries(read.value.columns, ConstantInfos(read.value))
    ensures r.Analysis? ==> r.gaps == GapsOfFrame(read.value, parse)
    ensures r.Analysis? ==> r.errors == Entries(read.value.columns, ImplausibleInfos(read.value))
  {
    if read.None? {
      return Failed;
    }
    var t := read.value;
    var missing := CollectMissing(t);
    var duplicates := DuplicatesOf(t.rows);
    var constants := CollectConstants(t);
    if constants.None? {
      return Failed;
    }
    var gaps: seq<Gap> := [];
    var timeCol := TimeColumn(t.columns);
    if timeCol.Some? {
      gaps := DetectTimeGaps(ToDatetime(Column(t, timeCol.value), Inferred, parse));
    }
    var errors := CollectImplausible(t);
    r := Analysis(|t.rows|, |t.columns|, missing, duplicates, constants.value, gaps, errors);
  }

  /** A column has a missing-value entry exactly when one of its cells is missing. */
  lemma MissingEntryIffMissingCell(t: Table, name: string, info: MissingInfo)
    ensures (name, info) in Entries(t.columns, MissingInfos(t)) <==>
      exists j :: 0 <= j < |t.columns| && t.columns[j] == name && AnyMissing(MissingMask(Column(t, j))) && MissingInfoOf(Column(t, j)) == Some(info)
  {
    EntriesExact(t.columns, MissingInfos(t), (name, info));
  }

  // ---------------------------------------------------------------------
  // Summary
  // ---------------------------------------------------------------------

  /** A column of a file with more than half of its rows missing. */
  datatype Issue = Issue(file: string, column: string, percent: real)

  datatype SiteSummary = SiteSummary(filesAnalyzed: nat, totalMissing: nat, totalConstant: nat, totalGaps: nat, critical: seq<Issue>)

  function SumCounts(es: seq<(string, MissingInfo)>): nat
  {
    if es == [] then 0 else SumCounts(es[..|es| - 1]) + es[|es| - 1].1.count
  }

  function IssuesOf(file: string, es: seq<(string, MissingInfo)>): seq<Issue>
  {
    if es == [] then []
    else
      var e := es[|es| - 1];
      IssuesOf(file, es[..|es| - 1]) + (if e.1.percent > 50.0 then [Issue(file, e.0, e.1.percent)] else [])
  }

  /** The per-site totals over the analysed files; files that failed add nothing. */
  function Totals(files: seq<(string, FileAnalysis)>): (s: SiteSummary)
    ensures s.filesAnalyzed == |files|
  {
    if files == [] then SiteSummary(0, 0, 0, 0, [])
    else
      var s := Totals(files[..|files| - 1]);
      var f := files[|files| - 1];
      if f.1.Failed? then s.(filesAnalyzed := s.filesAnalyzed + 1)
      else SiteSummary(s.filesAnalyzed + 1, s.totalMissing + SumCounts(f.1.missing), s.totalConstant + |f.1.constants|,
                       s.totalGaps + |f.1.gaps|, s.critical + IssuesOf(f.0, f.1.missing))
  }

  /** An issue is listed for a file's column exactly when the column's missing share exceeds 50%. */
  lemma {:induction false} IssuesOfExact(file: string, es: seq<(string, MissingInfo)>, i: Issue)
    ensures i in IssuesOf(file, es) <==> i.file == file && i.percent > 50.0 && exists info :: (i.column, info) in es && info.percent == i.percent
  {
    if es != [] {
      var n := |es| - 1;
      IssuesOfExact(file, es[..n], i);
      assert es == es[..n] + [es[n]];
      if i.file == file && i.percent > 50.0 && exists info :: (i.column, info) in es && info.percent == i.percent {
        var info :| (i.column, info) in es && info.percent == i.percent;
        if (i.column, info) != es[n] {
          assert (i.column, info) in es[..n];
        }
      }
    }
  }

  /** The critical issues are exactly the columns of successfully analysed files with more than 50% missing. */
  lemma {:induction false} CriticalIssuesExact(files: seq<(string, FileAnalysis)>, i: Issue)
    ensures i in Totals(files).critical <==>
      exists k :: 0 <= k < |files| && files[k].0 == i.file && files[k].1.Analysis? && i in IssuesOf(files[k].0, files[k].1.missing)
  {
    if files != [] {
      var n := |files| - 1;
      CriticalIssuesExact(files[..n], i);
      if exists k :: 0 <= k < |files| && files[k].0 == i.file && files[k].1.Analysis? && i in IssuesOf(files[k].0, files[k].1.missing) {
        var k :| 0 <= k < |files| && files[k].0 == i.file && files[k].1.Analysis? && i in IssuesOf(files[k].0, files[k].1.missing);
        if k < n {
          assert files[..n][k] == files[k];
        }
      }
      if i in Totals(files).critical {
        if i in Totals(files[..n]).critical {
          var k :| 0 <= k < n && files[..n][k].0 == i.file && files[..n][k].1.Analysis? && i in IssuesOf(files[..n][k].0, files[..n][k].1.missing);
          assert files[k] == files[..n][k];
        } else {
          assert files[n].1.Analysis? && i in IssuesOf(files[n].0, files[n].1.missing);
          IssuesOfExact(files[n].0, files[n].1.missing, i);
        }
      }
    }
  }

  /** `generate_summary` for one site: the nested loop over files and their missing-value entries. */
  method Summarize(files: seq<(string, FileAnalysis)>) returns (s: SiteSummary)
    ensures s == Totals(files)
  {
    s := SiteSummary(|files|, 0, 0, 0, []);
    var i := 0;
    while i < |files|
      invariant 0 <= i <= |files|
      invariant s == Totals(files[..i]).(filesAnalyzed := |files|)
    {
      var f := files[i];
      assert files[..i + 1][..i] == files[..i];
      if f.1.Analysis? {
        var es := f.1.missing;
        var missing := s.totalMissing;
        var critical := s.critical;
        var j := 0;
        while j < |es|
          invariant 0 <= j <= |es|
          invariant missing == s.totalMissing + SumCounts(es[..j])
          invariant critical == s.critical + IssuesOf(f.0, es[..j])
        {
          assert es[..j + 1][..j] == es[..j];
          missing := missing + es[j].1.count;
          if es[j].1.percent > 50.0 {
            critical := critical + [Issue(f.0, es[j].0, es[j].1.percent)];
          }
          j := j + 1;
        }
        assert es[..j] == es;
        s := s.(totalMissing := missing, critical := critical,
                totalConstant := s.totalConstant + |f.1.constants|, totalGaps := s.totalGaps + |f.1.gaps|);
      }
      i := i + 1;
    }
    assert files[..i] == files;
  }

  /** The summary of both monitored sites. */
  datatype Summary = Summary(fis: SiteSummary, erentrudis: SiteSummary)

  method GenerateSummary(fis: seq<(string, FileAnalysis)>, erentrudis: seq<(string, FileAnalysis)>) returns (s: Summary)
    ensures s == Summary(Totals(fis), Totals(erentrudis))
  {
    var a := Summarize(fis);
    var b := Summarize(erentrudis);
    s := Summary(a, b);
  }
}
