/**
 * The CSV/Excel-to-Parquet converter: the name of the Parquet file, the test
 * that lets an earlier conversion be reused, the separator probe of the CSV
 * reader, the per-column type choices, and the index column. File contents,
 * MD5 digests and the Parquet writer are inputs to the model.
 */
module ParquetOptimizer {
  import opened Strings
  import opened Frame
  import OptimizedLoader

  /** `f"{stem}_{file_hash[:8]}.parquet"`. */
  function ParquetName(stem: string, fileHash: string): string
  {
    stem + "_" + Take(fileHash, 8) + ".parquet"
  }

  /** Two sources get the same Parquet name only with the same stem and the same eight-character hash prefix. */
  lemma ParquetNameInjective(s1: string, h1: string, s2: string, h2: string)
    requires |h1| >= 8 && |h2| >= 8
    requires ParquetName(s1, h1) == ParquetName(s2, h2)
    ensures s1 == s2 && h1[..8] == h2[..8]
  {
    var n := ParquetName(s1, h1);
    assert |s1| == |n| - 17 == |s2|;
    assert s1 == n[..|s1|] == s2;
    assert h1[..8] == n[|s1| + 1..|s1| + 9] == h2[..8];
  }

  /** What `metadata.json` records for one converted file. */
  datatype MetaEntry = MetaEntry(hash: Option<string>, rows: nat, columns: nat)

  /** The early return of `convert_to_parquet`: no force, the file exists, and the recorded hash is the same. */
  predicate ShouldReuse(metadata: map<string, MetaEntry>, stem: string, fileHash: string, force: bool, exists_: bool)
  {
    !force && exists_ && stem in metadata && metadata[stem].hash == Some(fileHash)
  }

  /** The date-like column names `_add_indices` tries, in order. */
  const IndexCandidates: seq<string> := ["Date", "DateTime", "Datum", "Datum + Uhrzeit", "Zeit", "ZEIT_VON_UTC", "Zeitstempel"]

  /**
   * `_add_indices`: the first candidate present in the frame whose conversion
   * to datetimes succeeds; the frame is indexed and sorted by it, keeping it
   * as a column.
   */
  function IndexColumn(columns: seq<string>, convertible: string -> bool): (r: Option<nat>)
    ensures r.Some? ==> r.value < |IndexCandidates| && IndexCandidates[r.value] in columns && convertible(IndexCandidates[r.value])
    ensures r.Some? ==> forall i :: 0 <= i < r.value ==> !(IndexCandidates[i] in columns && convertible(IndexCandidates[i]))
    ensures r.None? ==> forall i :: 0 <= i < |IndexCandidates| ==> !(IndexCandidates[i] in columns && convertible(IndexCandidates[i]))
  {
    FirstIndex(IndexCandidates, 0, columns, convertible)
  }

  function FirstIndex(cands: seq<string>, from: nat, columns: seq<string>, convertible: string -> bool): (r: Option<nat>)
    requires from <= |cands|
    ensures r.Some? ==> from <= r.value < |cands| && cands[r.value] in columns && convertible(cands[r.value])
    ensures r.Some? ==> forall i :: from <= i < r.value ==> !(cands[i] in columns && convertible(cands[i]))
    ensures r.None? ==> forall i :: from <= i < |cands| ==> !(cands[i] in columns && convertible(cands[i]))
    decreases |cands| - from
  {
    if from == |cands| then None
    else if cands[from] in columns && convertible(cands[from]) then Some(from)
    else FirstIndex(cands, from + 1, columns, convertible)
  }

  /** The column count after `_add_indices`: a `Date` copy of the index is added only when the frame lacks `Date`. */
  function ColumnsAfterIndexing(columns: seq<string>, convertible: string -> bool): (n: nat)
    ensures n == |columns| || n == |columns| + 1
    ensures n == |columns| + 1 <==> "Date" !in columns && IndexColumn(columns, convertible).Some?
  {
    if "Date" !in columns && IndexColumn(columns, convertible).Some? then |columns| + 1 else |columns|
  }

  /** The separators `_load_csv_optimized` probes, in order. */
  const ProbeSeparators: seq<char> := [';', ',', '\t']

  /**
   * The separator `_load_csv_optimized` settles on: the first whose 100-row
   * sample read has more than one column and whose full read succeeds (a
   * failing read moves on to the next separator). `None` is the fallback to
   * the default read.
   */
  function ChooseSeparator(sampleColumns: char -> Option<nat>, fullReadOk: char -> bool): (r: Option<char>)
    ensures r.Some? ==> r.value in ProbeSeparators && Accepts(sampleColumns, fullReadOk, r.value)
    ensures r.Some? ==> forall i :: 0 <= i < IndexOfSep(r.value) ==> !Accepts(sampleColumns, fullReadOk, ProbeSeparators[i])
    ensures r.None? ==> forall i :: 0 <= i < |ProbeSeparators| ==> !Accepts(sampleColumns, fullReadOk, ProbeSeparators[i])
  {
    if Accepts(sampleColumns, fullReadOk, ';') then Some(';')
    else if Accepts(sampleColumns, fullReadOk, ',') then Some(',')
    else if Accepts(sampleColumns, fullReadOk, '\t') then Some('\t')
    else None
  }

  predicate Accepts(sampleColumns: char -> Option<nat>, fullReadOk: char -> bool, sep: char)
  {
    sampleColumns(sep).Some? && sampleColumns(sep).value > 1 && fullReadOk(sep)
  }

  function IndexOfSep(c: char): (i: nat)
    ensures i < |ProbeSeparators|
  {
    if c == ';' then 0 else if c == ',' then 1 else 2
  }

  /**
   * The decimal-comma step of `_load_csv_optimized` on one object column:
   * every ',' becomes '.', but only when some cell contains a comma. Missing
   * cells render as 'nan' and never contain one.
   */
  function NormaliseDecimal(cells: seq<Option<string>>): (r: seq<Option<string>>)
    ensures |r| == |cells|
    ensures (forall i :: 0 <= i < |cells| ==> cells[i].None? || ',' !in cells[i].value) ==> r == cells
    ensures forall i :: 0 <= i < |r| ==> r[i].None? == cells[i].None?
    ensures forall i :: 0 <= i < |r| && r[i].Some? ==> ',' !in r[i].value
    ensures (exists i :: 0 <= i < |cells| && cells[i].Some? && ',' in cells[i].value) ==>
      forall i :: 0 <= i < |cells| ==> r[i] == if cells[i].Some? then Some(ReplaceChar(cells[i].value, ',', '.')) else None
  {
    if exists i :: 0 <= i < |cells| && cells[i].Some? && ',' in cells[i].value then
      seq(|cells|, i requires 0 <= i < |cells| =>
        if cells[i].Some? then Some(ReplaceChar(cells[i].value, ',', '.')) else None)
    else cells
  }

  /** The dtypes the converter distinguishes. */
  datatype DType = I8 | I16 | I32 | I64 | U8 | U16 | U32 | F32 | F64 | Object | Category | DateTime

  predicate IsInt(t: DType)
  {
    t in {I8, I16, I32, I64, U8, U16, U32}
  }

  /**
   * One column as `_optimize_datatypes` sees it: its dtype, its integer values
   * (for integer columns), and its distinct and total counts (for object columns).
   */
  datatype Column = Column(dtype: DType, ints: seq<int>, distinct: nat, total: nat)

  /**
   * The integer branch of `_optimize_datatypes`: a non-negative column goes to
   * uint8, uint16 or uint32 when its maximum is below 255, 65535 or
   * 4294967295 (first fit); any other column goes to int8, int16 or int32 only
   * when its minimum and maximum lie strictly inside the type's bounds;
   * otherwise the dtype is kept. An empty column has NaN bounds and is kept.
   */
  function IntTarget(xs: seq<int>, current: DType): (t: DType)
    ensures t == current || |xs| > 0
    ensures t in {U8, U16, U32} && t != current ==> forall i :: 0 <= i < |xs| ==> 0 <= xs[i]
    ensures t == U8 && t != current ==> forall i :: 0 <= i < |xs| ==> xs[i] < 255
    ensures t == U16 && t != current ==> forall i :: 0 <= i < |xs| ==> xs[i] < 65535
    ensures t == U32 && t != current ==> forall i :: 0 <= i < |xs| ==> xs[i] < 4294967295
    ensures t in {I8, I16, I32} && t != current ==> exists i :: 0 <= i < |xs| && xs[i] < 0
    ensures t == I8 && t != current ==> forall i :: 0 <= i < |xs| ==> -128 < xs[i] < 127
    ensures t == I16 && t != current ==> forall i :: 0 <= i < |xs| ==> -32768 < xs[i] < 32767
    ensures t == I32 && t != current ==> forall i :: 0 <= i < |xs| ==> -2147483648 < xs[i] < 2147483647
    ensures |xs| > 0 && (forall i :: 0 <= i < |xs| ==> 0 <= xs[i] < 255) ==> t == U8
  {
    if |xs| == 0 then current
    else
      var lo, hi := OptimizedLoader.MinOf(xs), OptimizedLoader.MaxOf(xs);
      if lo >= 0 then
        if hi < 255 then U8
        else if hi < 65535 then U16
        else if hi < 4294967295 then U32
        else current
      else
        if lo > -128 && hi < 127 then I8
        else if lo > -32768 && hi < 32767 then I16
        else if lo > -2147483648 && hi < 2147483647 then I32
        else current
  }

  /** Every value is below `bound`. */
  predicate AllBelow(xs: seq<int>, bound: int)
  {
    forall i :: 0 <= i < |xs| ==> xs[i] < bound
  }

  /** Every value lies strictly between `lo` and `hi`. */
  predicate AllInside(xs: seq<int>, lo: int, hi: int)
  {
    forall i :: 0 <= i < |xs| ==> lo < xs[i] < hi
  }

  /**
   * The integer branch is a first fit: each target is taken exactly when its
   * test passes and every earlier one fails, and the dtype is kept only when
   * no test in the column's branch passes.
   */
  lemma IntTargetFirstFit(xs: seq<int>, current: DType)
    requires |xs| > 0
    ensures var nonNeg := forall i :: 0 <= i < |xs| ==> 0 <= xs[i];
      && (nonNeg && AllBelow(xs, 255) ==> IntTarget(xs, current) == U8)
      && (nonNeg && !AllBelow(xs, 255) && AllBelow(xs, 65535) ==> IntTarget(xs, current) == U16)
      && (nonNeg && !AllBelow(xs, 65535) && AllBelow(xs, 4294967295) ==> IntTarget(xs, current) == U32)
      && (nonNeg && !AllBelow(xs, 4294967295) ==> IntTarget(xs, current) == current)
      && (!nonNeg && AllInside(xs, -128, 127) ==> IntTarget(xs, current) == I8)
      && (!nonNeg && !AllInside(xs, -128, 127) && AllInside(xs, -32768, 32767) ==> IntTarget(xs, current) == I16)
      && (!nonNeg && !AllInside(xs, -32768, 32767) && AllInside(xs, -2147483648, 2147483647) ==> IntTarget(xs, current) == I32)
      && (!nonNeg && !AllInside(xs, -2147483648, 2147483647) ==> IntTarget(xs, current) == current)
  {
    var lo, hi := OptimizedLoader.MinOf(xs), OptimizedLoader.MaxOf(xs);
    var i :| 0 <= i < |xs| && xs[i] == lo;
    var j :| 0 <= j < |xs| && xs[j] == hi;
    assert AllBelow(xs, 255) <==> hi < 255;
    assert AllBelow(xs, 65535) <==> hi < 65535;
    assert AllBelow(xs, 4294967295) <==> hi < 4294967295;
    assert AllInside(xs, -128, 127) <==> lo > -128 && hi < 127;
    assert AllInside(xs, -32768, 32767) <==> lo > -32768 && hi < 32767;
    assert AllInside(xs, -2147483648, 2147483647) <==> lo > -2147483648 && hi < 2147483647;
  }

  /** An object column becomes categorical exactly when fewer than half of its values are distinct. */
  function ObjectTarget(distinct: nat, total: nat): (t: DType)
    ensures t == Category <==> 2 * distinct < total
    ensures t == Object || t == Category
  {
    if 2 * distinct < total then Category else Object
  }

  /** `_optimize_datatypes` for one column; floats and datetimes keep their dtype in this model. */
  function OptimizeColumn(c: Column): (r: Column)
    ensures r.ints == c.ints && r.distinct == c.distinct && r.total == c.total
    ensures IsInt(c.dtype) ==> IsInt(r.dtype)
    ensures c.dtype == Object ==> (r.dtype == Category <==> 2 * c.distinct < c.total)
    ensures !IsInt(c.dtype) && c.dtype != Object ==> r == c
  {
    if IsInt(c.dtype) then c.(dtype := IntTarget(c.ints, c.dtype))
    else if c.dtype == Object then c.(dtype := ObjectTarget(c.distinct, c.total))
    else c
  }

  /** The `for col in df.columns` loop of `_optimize_datatypes`, rewriting each column in turn. */
  method OptimizeDatatypes(cols: seq<Column>) returns (out: seq<Column>)
    ensures |out| == |cols|
    ensures forall i :: 0 <= i < |cols| ==> out[i] == OptimizeColumn(cols[i])
  {
    out := cols;
    var i := 0;
    while i < |out|
      invariant 0 <= i <= |out| == |cols|
      invariant forall j :: 0 <= j < i ==> out[j] == OptimizeColumn(cols[j])
      invariant forall j :: i <= j < |out| ==> out[j] == cols[j]
    {
      out := out[i := OptimizeColumn(out[i])];
      i := i + 1;
    }
  }

  /** `int64` columns read by `_load_csv_optimized` go to int32 when non-negative and below 2147483647. */
  function LoaderIntTarget(xs: seq<int>): (t: DType)
    ensures t == I32 ==> |xs| > 0 && forall i :: 0 <= i < |xs| ==> 0 <= xs[i] < 2147483647
    ensures t == I32 || t == I64
  {
    if |xs| > 0 && OptimizedLoader.MinOf(xs) >= 0 && OptimizedLoader.MaxOf(xs) < 2147483647 then I32 else I64
  }

  /** The converter and the metadata it keeps per source stem. */
  class DataOptimizer {
    var metadata: map<string, MetaEntry>

    constructor (stored: map<string, MetaEntry>)
      ensures metadata == stored
    {
      metadata := stored;
    }

    /**
     * `convert_to_parquet` for a source with stem `stem` and digest
     * `fileHash`. `loaded` is the frame the CSV or Excel reader produced,
     * `None` when reading or optimising raised; `written` says whether writing
     * the Parquet file succeeded. The result is the Parquet file name.
     */
    method ConvertToParquet(stem: string, fileHash: string, force: bool, parquetExists: bool,
                            loaded: Option<Table>, convertible: string -> bool, written: bool)
      returns (r: Option<string>)
      modifies this
      ensures ShouldReuse(old(metadata), stem, fileHash, force, parquetExists) ==>
                r == Some(ParquetName(stem, fileHash)) && metadata == old(metadata)
      ensures !ShouldReuse(old(metadata), stem, fileHash, force, parquetExists) ==>
                if loaded.None? || IsEmpty(loaded.value) || !written then
                  r.None? && metadata == old(metadata)
                else
                  r == Some(ParquetName(stem, fileHash)) &&
                  metadata == old(metadata)[stem := MetaEntry(Some(fileHash), |loaded.value.rows|,
                                                               ColumnsAfterIndexing(loaded.value.columns, convertible))]
    {
      var name := ParquetName(stem, fileHash);
      if !force && parquetExists && stem in metadata && metadata[stem].hash == Some(fileHash) {
        return Some(name);
      }
      if loaded.None? || IsEmpty(loaded.value) || !written {
        return None;
      }
      var df := loaded.value;
      metadata := metadata[stem := MetaEntry(Some(fileHash), |df.rows|, ColumnsAfterIndexing(df.columns, convertible))];
      r := Some(name);
    }
  }

  /** After a successful conversion, converting the unchanged file again without force reuses the Parquet file. */
  lemma ConversionThenReuse(metadata: map<string, MetaEntry>, stem: string, fileHash: string, rows: nat, cols: nat, other: string)
    ensures ShouldReuse(metadata[stem := MetaEntry(Some(fileHash), rows, cols)], stem, fileHash, false, true)
    ensures other != fileHash ==> !ShouldReuse(metadata[stem := MetaEntry(Some(fileHash), rows, cols)], stem, other, false, true)
  {
  }
}
