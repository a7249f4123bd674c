/**
 * The Parquet-first loader of the dashboard: its in-memory cache with a
 * five-minute lifetime and room for ten entries, the load flow that consults
 * it, page slicing, the integer downcast, and the lookup of a Parquet file by
 * dataset name.
 *
 * Times are whole seconds supplied by the caller (the wall clock is not part
 * of the model). A cache key is the text the source hashes, not its MD5 digest.
 */
module OptimizedLoader {
  import opened Strings
  import opened Order
  import opened Frame

  const CacheTtl: int := 300
  const MaxEntries: nat := 10
  const EvictCount: nat := 5

  /**
   * The text `_get_cache_key` hashes: source, dataset, the sorted column names
   * joined by '_' when any are given, and the rendering of the filters when
   * there are any, all joined by '_'. `filters` is `None` for falsy filters.
   */
  function CacheKeyText(source: string, dataset: string, columns: seq<string>, filters: Option<string>): string
  {
    var parts := [source, dataset]
      + (if |columns| > 0 then [Join(Sort(columns), "_")] else [])
      + (if filters.Some? then [filters.value] else []);
    Join(parts, "_")
  }

  /** Asking for the same columns in another order hits the same cache entry. */
  lemma CacheKeyIgnoresColumnOrder(source: string, dataset: string, c1: seq<string>, c2: seq<string>, filters: Option<string>)
    requires multiset(c1) == multiset(c2)
    ensures CacheKeyText(source, dataset, c1, filters) == CacheKeyText(source, dataset, c2, filters)
  {
    assert |c1| == |multiset(c1)| == |multiset(c2)| == |c2|;
    SortIgnoresOrder(c1, c2);
  }

  /** `_is_cache_valid`: a timestamp exists and is younger than the lifetime. */
  predicate IsCacheValid(stamps: map<string, int>, key: string, now: int)
  {
    key in stamps && now - stamps[key] < CacheTtl
  }

  /** An entry stamped at `t` is valid from then on for exactly 300 seconds. */
  lemma FreshEntryValidity(stamps: map<string, int>, key: string, t: int, now: int)
    ensures IsCacheValid(stamps[key := t], key, now) <==> now < t + CacheTtl
  {
  }

  /** The timestamp of a key, as the sort key of the eviction. */
  function StampOf(stamps: map<string, int>): string -> int
  {
    k => if k in stamps then stamps[k] else 0
  }

  /** The keys `_save_to_cache` evicts: the first five of the keys sorted by timestamp (among equal timestamps, any order). */
  function Oldest(order: seq<string>, stamps: map<string, int>): (r: seq<string>)
    ensures |r| == if |order| < EvictCount then |order| else EvictCount
    ensures multiset(r) <= multiset(order)
  {
    var s := SortBy(order, StampOf(stamps));
    assert |s| == |multiset(s)| == |multiset(order)| == |order|;
    assert s == s[..|Take(s, EvictCount)|] + s[|Take(s, EvictCount)|..];
    Take(s, EvictCount)
  }

  /** Every evicted key is at least as old as every key that stays. */
  lemma OldestAreOldest(order: seq<string>, stamps: map<string, int>, e: string, k: string)
    requires e in Oldest(order, stamps) && k in order && k !in Oldest(order, stamps)
    ensures StampOf(stamps)(e) <= StampOf(stamps)(k)
  {
    var s := SortBy(order, StampOf(stamps));
    var r := Oldest(order, stamps);
    assert r == s[..|r|];
    var i :| 0 <= i < |r| && r[i] == e;
    assert k in multiset(s);
    var j :| 0 <= j < |s| && s[j] == k;
    assert forall t :: 0 <= t < |r| ==> s[t] != k;
  }

  /** With a strictly newest key among more than five, that key is never evicted. */
  lemma NewestSurvives(order: seq<string>, stamps: map<string, int>, key: string)
    requires Distinct(order) && key in order && |order| > EvictCount
    requires forall k :: k in order && k != key ==> StampOf(stamps)(k) < StampOf(stamps)(key)
    ensures key !in Oldest(order, stamps)
  {
    var s := SortBy(order, StampOf(stamps));
    var r := Oldest(order, stamps);
    assert r == s[..|r|];
    PermutationKeepsDistinct(order, s);
    assert |s| == |multiset(s)| == |multiset(order)| == |order|;
    var last := s[|s| - 1];
    assert last in multiset(s);
    forall i | 0 <= i < |r| ensures r[i] != key {
      if last != key {
        assert StampOf(stamps)(s[i]) <= StampOf(stamps)(last) < StampOf(stamps)(key);
      }
    }
  }

  /** The evicted keys are distinct keys of the cache. */
  lemma OldestDistinctMembers(order: seq<string>, stamps: map<string, int>)
    requires Distinct(order)
    ensures Distinct(Oldest(order, stamps))
    ensures Elems(Oldest(order, stamps)) <= Elems(order)
  {
    var s := SortBy(order, StampOf(stamps));
    var r := Oldest(order, stamps);
    assert r == s[..|r|];
    PermutationKeepsDistinct(order, s);
    forall x | x in r ensures x in order {
      assert x in multiset(r);
    }
  }

  /** The key order of a Python dict after assigning `key`: a new key goes last, an old one stays put. */
  function AddKey(order: seq<string>, key: string): (r: seq<string>)
    ensures Elems(r) == Elems(order) + {key}
    ensures Distinct(order) ==> Distinct(r)
  {
    if key in order then order else order + [key]
  }

  /** The key order after deleting the keys in `gone`. */
  function Without(order: seq<string>, gone: set<string>): (r: seq<string>)
    ensures Elems(r) == Elems(order) - gone
    ensures Distinct(order) ==> Distinct(r)
  {
    if order == [] then []
    else
      var rest := Without(order[1..], gone);
      assert Elems(order) == {order[0]} + Elems(order[1..]) by { assert order == [order[0]] + order[1..]; }
      if order[0] in gone then rest
      else
        assert Elems([order[0]] + rest) == {order[0]} + Elems(rest);
        assert Distinct(order) ==> order[0] !in Elems(order[1..]);
        assert Distinct(order) ==> Distinct([order[0]] + rest) by {
          if Distinct(order) {
            assert forall j :: 0 <= j < |order| - 1 ==> order[1..][j] == order[j + 1];
            assert order[0] !in Elems(rest);
          }
        }
        [order[0]] + rest
  }

  lemma {:induction false} WithoutOneMore(order: seq<string>, gone: set<string>, x: string)
    ensures Without(Without(order, gone), {x}) == Without(order, gone + {x})
  {
    if order != [] {
      WithoutOneMore(order[1..], gone, x);
    }
  }

  lemma {:induction false} WithoutNothing(order: seq<string>)
    ensures Without(order, {}) == order
  {
    if order != [] {
      WithoutNothing(order[1..]);
      assert order == [order[0]] + order[1..];
    }
  }

  lemma MapMinusOneMore<V>(m: map<string, V>, gone: set<string>, x: string)
    ensures m - gone - {x} == m - (gone + {x})
  {
  }

  /** `|A - B| == |A| - |B|` for `B` inside `A`. */
  lemma DiffCard<T>(a: set<T>, b: set<T>)
    requires b <= a
    ensures |a - b| == |a| - |b|
  {
    assert a == (a - b) + b;
    assert (a - b) * b == {};
  }

  /** `df.iloc[start:end]`: Python slice bounds, counted from the end when negative. */
  function SliceBound(i: int, n: nat): (b: nat)
    ensures b <= n
  {
    if i < 0 then (if i + n < 0 then 0 else i + n) else if i < n then i else n
  }

  function Slice<T>(rows: seq<T>, start: int, end: int): seq<T>
  {
    var lo, hi := SliceBound(start, |rows|), SliceBound(end, |rows|);
    if lo < hi then rows[lo..hi] else []
  }

  /** The rows of page `page` (counted from 1) of `page_size` rows. */
  function Page<T>(rows: seq<T>, page: int, pageSize: int): seq<T>
  {
    var start := (page - 1) * pageSize;
    Slice(rows, start, start + pageSize)
  }

  /** A page from 1 on holds the rows from (page-1)*size on, as many as remain up to the page size. */
  lemma PageContents<T>(rows: seq<T>, page: int, pageSize: int)
    requires page >= 1 && pageSize >= 0
    ensures var start := (page - 1) * pageSize;
      var p := Page(rows, page, pageSize);
      |p| == (if |rows| <= start then 0 else if |rows| - start < pageSize then |rows| - start else pageSize) &&
      forall k :: 0 <= k < |p| ==> p[k] == rows[start + k]
  {
    var start := (page - 1) * pageSize;
    NonNegativeProduct(page - 1, pageSize);
    SliceFrom(rows, start, pageSize);
  }

  lemma NonNegativeProduct(a: int, b: int)
    requires a >= 0 && b >= 0
    ensures a * b >= 0
  {
  }

  /** `rows[start:start + len]` for a start and a length from 0 on. */
  lemma SliceFrom<T>(rows: seq<T>, start: int, len: int)
    requires start >= 0 && len >= 0
    ensures var p := Slice(rows, start, start + len);
      |p| == (if |rows| <= start then 0 else if |rows| - start < len then |rows| - start else len) &&
      forall k :: 0 <= k < |p| ==> p[k] == rows[start + k]
  {
  }

  /** Two consecutive pages together are the rows of one page of twice the size. */
  lemma PagesAdjoin<T>(rows: seq<T>, page: int, pageSize: int)
    requires page >= 1 && pageSize >= 0
    ensures Page(rows, page, pageSize) + Page(rows, page + 1, pageSize)
         == Slice(rows, (page - 1) * pageSize, (page + 1) * pageSize)
  {
    var a := (page - 1) * pageSize;
    assert page * pageSize == a + pageSize;
    assert (page + 1) * pageSize == a + 2 * pageSize;
    assert a >= 0;
    var n := |rows|;
    var lo, mid, hi := SliceBound(a, n), SliceBound(a + pageSize, n), SliceBound(a + 2 * pageSize, n);
    assert lo <= mid <= hi;
    if lo < mid && mid < hi {
      assert rows[lo..mid] + rows[mid..hi] == rows[lo..hi];
    }
  }

  /** Page 0 is always empty: its end bound is 0. */
  lemma PageZeroEmpty<T>(rows: seq<T>, pageSize: int)
    requires pageSize >= 0
    ensures Page(rows, 0, pageSize) == []
  {
  }

  /** The integer widths `_optimize_dataframe` may choose; `Int64` means the column is left alone. */
  datatype IntType = Int8 | Int16 | Int32 | Int64

  function IntMin(t: IntType): int
  {
    match t
    case Int8 => -0x80
    case Int16 => -0x8000
    case Int32 => -0x8000_0000
    case Int64 => -0x8000_0000_0000_0000
  }

  function IntMax(t: IntType): int
  {
    match t
    case Int8 => 0x7f
    case Int16 => 0x7fff
    case Int32 => 0x7fff_ffff
    case Int64 => 0x7fff_ffff_ffff_ffff
  }

  /** Every value lies strictly between the type's bounds (the source's comparisons are strict). */
  predicate StrictlyInside(xs: seq<int>, t: IntType)
  {
    |xs| > 0 && forall i :: 0 <= i < |xs| ==> IntMin(t) < xs[i] < IntMax(t)
  }

  function MinOf(xs: seq<int>): (m: int)
    requires |xs| > 0
    ensures m in xs && forall i :: 0 <= i < |xs| ==> m <= xs[i]
  {
    if |xs| == 1 then xs[0]
    else
      var r := MinOf(xs[1..]);
      assert forall i :: 1 <= i < |xs| ==> xs[i] == xs[1..][i - 1];
      if xs[0] <= r then xs[0] else r
  }

  function MaxOf(xs: seq<int>): (m: int)
    requires |xs| > 0
    ensures m in xs && forall i :: 0 <= i < |xs| ==> xs[i] <= m
  {
    if |xs| == 1 then xs[0]
    else
      var r := MaxOf(xs[1..]);
      assert forall i :: 1 <= i < |xs| ==> xs[i] == xs[1..][i - 1];
      if xs[0] >= r then xs[0] else r
  }

  /**
   * The integer branch of `_optimize_dataframe` for one column: int8, int16 or
   * int32, narrowest first, when the column's minimum and maximum lie strictly
   * inside that type's bounds; otherwise unchanged. An empty column has a NaN
   * minimum, every comparison with it is false, and it stays unchanged.
   */
  function DowncastInt(xs: seq<int>): (t: IntType)
    ensures t != Int64 ==> StrictlyInside(xs, t)
    ensures t != Int8 ==> !StrictlyInside(xs, Int8)
    ensures t != Int8 && t != Int16 ==> !StrictlyInside(xs, Int16)
    ensures t == Int64 ==> !StrictlyInside(xs, Int32)
  {
    if |xs| == 0 then Int64
    else
      var lo, hi := MinOf(xs), MaxOf(xs);
      if IntMin(Int8) < lo && hi < IntMax(Int8) then Int8
      else if IntMin(Int16) < lo && hi < IntMax(Int16) then Int16
      else if IntMin(Int32) < lo && hi < IntMax(Int32) then Int32
      else Int64
  }

  /** The dataset-to-file-name table of `_find_parquet_file`. */
  function ParquetPattern(source: string, dataset: string): Option<string>
  {
    if source == "erentrudis" then
      if dataset == "gesamtdaten_2024" then Some("Relevant-1_2024_export")
      else if dataset == "detail_juli_2024" then Some("All_24-07_export")
      else if dataset == "langzeit_2023_2025" then Some("export_ERS_2023")
      else None
    else if source == "fis" then
      if dataset == "export_q1_2025" then Some("export_1551_2024")
      else if dataset == "data_2024_2025_at" then Some("2024-2025-05_AT")
      else None
    else if source == "kw" then
      if dataset == "kw_duernbach_gesamt" then Some("KW DÜRNBACH_ERZEUGUNG_2020_2024")
      else if dataset == "kw_untersulzbach_gesamt" then Some("KW UNTERSULZBACH_ERZEUGUNG_2020_2024")
      else if dataset == "kw_wiesbach_gesamt" then Some("KW WIESBACH_ERZEUGUNG_2020_2024")
      else if dataset == "uebergabe_bezug_gesamt" then Some("ÜBERGABE_BEZUG_2020_2024")
      else if dataset == "uebergabe_lieferung_gesamt" then Some("ÜBERGABE_LIEFERUNG_2020_2024")
      else None
    else if source == "twin2sim" then
      if dataset == "intpv" then Some("T2S_IntPV")
      else if dataset == "lüftung" then Some("T2S_Lüftung")
      else if dataset == "manipv" then Some("T2S_ManiPV")
      else if dataset == "rau006" then Some("T2S_RAU006")
      else if dataset == "wetterdaten" then Some("T2S_Wetterdaten")
      else None
    else None
  }

  /** The first file name containing `pat`, both lowercased. */
  function FirstContaining(files: seq<string>, pat: string): (r: Option<nat>)
    ensures r.Some? ==> r.value < |files| && Contains(Lower(files[r.value]), Lower(pat))
    ensures r.Some? ==> forall j :: 0 <= j < r.value ==> !Contains(Lower(files[j]), Lower(pat))
    ensures r.None? ==> forall j :: 0 <= j < |files| ==> !Contains(Lower(files[j]), Lower(pat))
  {
    if files == [] then None
    else if Contains(Lower(files[0]), Lower(pat)) then Some(0)
    else match FirstContaining(files[1..], pat)
      case None => None
      case Some(i) => Some(i + 1)
  }

  /**
   * `_find_parquet_file` over the Parquet files of the directory in listing
   * order: the first file matching the mapped name, else the first file whose
   * name contains the dataset name, else none; nothing when the directory is
   * absent.
   */
  function FindParquetFile(dirExists: bool, files: seq<string>, source: string, dataset: string): (r: Option<string>)
    ensures r.Some? ==> dirExists && r.value in files
    ensures r.Some? ==> (ParquetPattern(source, dataset).Some? && Contains(Lower(r.value), Lower(ParquetPattern(source, dataset).value)))
                        || Contains(Lower(r.value), Lower(dataset))
    ensures dirExists && ParquetPattern(source, dataset).Some? && FirstContaining(files, ParquetPattern(source, dataset).value).Some?
            ==> r == Some(files[FirstContaining(files, ParquetPattern(source, dataset).value).value])
    ensures dirExists && (ParquetPattern(source, dataset).None? || FirstContaining(files, ParquetPattern(source, dataset).value).None?)
            && FirstContaining(files, dataset).Some?
            ==> r == Some(files[FirstContaining(files, dataset).value])
    ensures r.None? ==> !dirExists || forall j :: 0 <= j < |files| ==> !Contains(Lower(files[j]), Lower(dataset))
  {
    if !dirExists then None
    else
      var mapped := if ParquetPattern(source, dataset).Some? then FirstContaining(files, ParquetPattern(source, dataset).value) else None;
      if mapped.Some? then Some(files[mapped.value])
      else match FirstContaining(files, dataset)
        case Some(i) => Some(files[i])
        case None => None
  }

  /** The two dicts of the cache and the insertion order of their keys. */
  datatype CacheState = CacheState(cache: map<string, Table>, stamps: map<string, int>, order: seq<string>)

  /** Both dicts hold the same keys, in the recorded order, and at most ten of them. */
  ghost predicate Consistent(st: CacheState)
  {
    ConsistentParts(st.cache, st.stamps, st.order)
  }

  ghost predicate ConsistentParts(cache: map<string, Table>, stamps: map<string, int>, order: seq<string>)
  {
    cache.Keys == stamps.Keys && Elems(order) == stamps.Keys && Distinct(order) && |cache| <= MaxEntries
  }

  /** `_save_to_cache`: store the frame stamped `now`; when that makes more than ten entries, the five oldest go. */
  function AfterSave(st: CacheState, key: string, data: Table, now: int): CacheState
  {
    var c, s, o := st.cache[key := data], st.stamps[key := now], AddKey(st.order, key);
    if |c| > MaxEntries then
      var gone := Elems(Oldest(o, s));
      CacheState(c - gone, s - gone, Without(o, gone))
    else CacheState(c, s, o)
  }

  /** Saving keeps both dicts on the same keys and the cache at ten entries or fewer. */
  lemma SaveKeepsConsistent(st: CacheState, key: string, data: Table, now: int)
    requires Consistent(st)
    ensures Consistent(AfterSave(st, key, data, now))
  {
    var c, s, o := st.cache[key := data], st.stamps[key := now], AddKey(st.order, key);
    assert c.Keys == s.Keys == Elems(o);
    DistinctCard(o);
    assert |c| == |c.Keys|;
    if |c| > MaxEntries {
      EvictKeepsConsistent(c, s, o);
    }
  }

  /** Evicting the oldest five of eleven entries leaves six, still on the same keys in both dicts. */
  lemma EvictKeepsConsistent(c: map<string, Table>, s: map<string, int>, o: seq<string>)
    requires c.Keys == s.Keys == Elems(o) && Distinct(o) && |o| == MaxEntries + 1
    ensures var gone := Elems(Oldest(o, s));
      ConsistentParts(c - gone, s - gone, Without(o, gone))
  {
    var gone := Elems(Oldest(o, s));
    OldestDistinctMembers(o, s);
    DistinctCard(Oldest(o, s));
    DistinctCard(o);
    DiffCard(c.Keys, gone);
    assert (c - gone).Keys == c.Keys - gone;
    assert |c - gone| == |(c - gone).Keys|;
  }

  /** A key a save evicts is no newer than any key it keeps. */
  lemma SaveEvictsOldest(st: CacheState, key: string, data: Table, now: int, e: string, k: string)
    requires Consistent(st)
    requires e in st.cache && e !in AfterSave(st, key, data, now).cache
    requires k in AfterSave(st, key, data, now).cache
    ensures st.stamps[key := now][e] <= st.stamps[key := now][k]
  {
    var c, s, o := st.cache[key := data], st.stamps[key := now], AddKey(st.order, key);
    assert AfterSave(st, key, data, now).cache == if |c| > MaxEntries then c - Elems(Oldest(o, s)) else c;
    assert c.Keys == Elems(o);
    EvictedIsOldest(c, s, o, e, k);
  }

  /** Among the keys of `c`, one the eviction removes is no newer than one it keeps. */
  lemma EvictedIsOldest(c: map<string, Table>, s: map<string, int>, o: seq<string>, e: string, k: string)
    requires c.Keys == Elems(o) && c.Keys <= s.Keys
    requires e in c && e !in c - Elems(Oldest(o, s))
    requires k in c - Elems(Oldest(o, s))
    ensures s[e] <= s[k]
  {
    OldestAreOldest(o, s, e, k);
  }

  /** With every stored stamp older than `now`, the key just stored at `now` is not among the evicted. */
  lemma SaveKeepsNewKey(stamps: map<string, int>, order: seq<string>, key: string, now: int)
    requires Elems(order) == stamps.Keys && Distinct(order)
    requires forall k :: k in stamps ==> stamps[k] < now
    requires |AddKey(order, key)| > MaxEntries
    ensures key !in Oldest(AddKey(order, key), stamps[key := now])
  {
    var s, o := stamps[key := now], AddKey(order, key);
    forall k | k in o && k != key ensures StampOf(s)(k) < StampOf(s)(key) {
      assert k in stamps;
    }
    NewestSurvives(o, s, key);
  }

  /** Under a clock that has moved past every stored stamp, the entry just saved survives the eviction. */
  lemma SaveKeepsNewEntry(st: CacheState, key: string, data: Table, now: int)
    requires Consistent(st)
    requires forall k :: k in st.stamps ==> st.stamps[k] < now
    ensures var after := AfterSave(st, key, data, now);
      key in after.cache && after.cache[key] == data && key in after.stamps && after.stamps[key] == now
  {
    var c, o := st.cache[key := data], AddKey(st.order, key);
    if |c| > MaxEntries {
      assert |o| > MaxEntries by {
        assert c.Keys == Elems(o);
        DistinctCard(o);
        assert |c| == |c.Keys|;
      }
      SaveKeepsNewKey(st.stamps, st.order, key, now);
    }
  }

  /** The body of `_save_to_cache` on the two dicts and the key order. */
  method SaveParts(cache0: map<string, Table>, stamps0: map<string, int>, order0: seq<string>,
                   key: string, data: Table, now: int)
    returns (cache: map<string, Table>, stamps: map<string, int>, keys: seq<string>)
    requires ConsistentParts(cache0, stamps0, order0)
    ensures CacheState(cache, stamps, keys) == AfterSave(CacheState(cache0, stamps0, order0), key, data, now)
    ensures ConsistentParts(cache, stamps, keys)
  {
    SaveKeepsConsistent(CacheState(cache0, stamps0, order0), key, data, now);
    cache := cache0[key := data];
    stamps := stamps0[key := now];
    keys := AddKey(order0, key);
    if |cache| > MaxEntries {
      var oldest := Oldest(keys, stamps);
      cache, stamps, keys := DeleteKeys(cache, stamps, keys, oldest);
    }
  }

  /** The `for key, _ in oldest_keys: del ...` loop of `_save_to_cache`, on both dicts and their key order. */
  method DeleteKeys(cache: map<string, Table>, stamps: map<string, int>, keys: seq<string>, doomed: seq<string>)
    returns (cache': map<string, Table>, stamps': map<string, int>, keys': seq<string>)
    ensures cache' == cache - Elems(doomed)
    ensures stamps' == stamps - Elems(doomed)
    ensures keys' == Without(keys, Elems(doomed))
  {
    cache', stamps', keys' := cache, stamps, keys;
    WithoutNothing(keys);
    assert Elems(doomed[..0]) == {};
    var i := 0;
    while i < |doomed|
      invariant 0 <= i <= |doomed|
      invariant cache' == cache - Elems(doomed[..i])
      invariant stamps' == stamps - Elems(doomed[..i])
      invariant keys' == Without(keys, Elems(doomed[..i]))
    {
      assert Elems(doomed[..i + 1]) == Elems(doomed[..i]) + {doomed[i]} by {
        assert doomed[..i + 1] == doomed[..i] + [doomed[i]];
      }
      WithoutOneMore(keys, Elems(doomed[..i]), doomed[i]);
      MapMinusOneMore(cache, Elems(doomed[..i]), doomed[i]);
      MapMinusOneMore(stamps, Elems(doomed[..i]), doomed[i]);
      cache' := cache' - {doomed[i]};
      stamps' := stamps' - {doomed[i]};
      keys' := Without(keys', {doomed[i]});
      i := i + 1;
    }
    assert doomed[..i] == doomed;
  }

  /** The loader's cache and its timings; the three fields move together. */
  class OptimizedDataLoader {
    var memoryCache: map<string, Table>
    var cacheTimestamps: map<string, int>
    /** The keys of `cache_timestamps` in insertion order, the order the eviction sort starts from. */
    var order: seq<string>
    var loadTimes: seq<int>

    function State(): CacheState
      reads this
    {
      CacheState(memoryCache, cacheTimestamps, order)
    }

    ghost predicate Valid()
      reads this
    {
      Consistent(State())
    }

    constructor ()
      ensures Valid()
      ensures State() == CacheState(map[], map[], []) && loadTimes == []
    {
      memoryCache := map[];
      cacheTimestamps := map[];
      order := [];
      loadTimes := [];
    }

    /** `_get_from_cache`: the stored frame while its entry is younger than the lifetime. */
    function GetFromCache(key: string, now: int): (r: Option<Table>)
      reads this
      ensures r.Some? <==> key in memoryCache && key in cacheTimestamps && now < cacheTimestamps[key] + CacheTtl
      ensures r.Some? ==> r.value == memoryCache[key]
    {
      if key in memoryCache && IsCacheValid(cacheTimestamps, key, now) then Some(memoryCache[key]) else None
    }

    /**
     * `_save_to_cache`: store the frame stamped `now`; when that makes more
     * than ten entries, delete the five oldest from both dicts.
     */
    method SaveToCache(key: string, data: Table, now: int)
      requires Valid()
      modifies this
      ensures Valid()
      ensures State() == AfterSave(old(State()), key, data, now)
      ensures loadTimes == old(loadTimes)
    {
      var cache, stamps, keys := SaveParts(memoryCache, cacheTimestamps, order, key, data, now);
      memoryCache, cacheTimestamps, order := cache, stamps, keys;
    }

    /** `clear_cache`: both dicts emptied, the timings kept. */
    method ClearCache()
      modifies this
      ensures Valid()
      ensures State() == CacheState(map[], map[], [])
      ensures loadTimes == old(loadTimes)
    {
      memoryCache := map[];
      cacheTimestamps := map[];
      order := [];
    }

    /**
     * `load_dataset_optimized` after the cache lookup at `now`: a hit returns
     * the cached frame and changes nothing; otherwise `loaded` (what the
     * Parquet or legacy path produced) is returned, cached at `savedAt` when it
     * is a non-empty frame, and the load time `elapsed` is recorded.
     */
    method LoadDatasetOptimized(source: string, dataset: string, columns: seq<string>, filters: Option<string>,
                                now: int, loaded: Option<Table>, savedAt: int, elapsed: int)
      returns (df: Option<Table>)
      requires Valid()
      modifies this
      ensures Valid()
      ensures var key := CacheKeyText(source, dataset, columns, filters);
              var hit := old(GetFromCache(key, now));
              if hit.Some? then
                df == hit && State() == old(State()) && loadTimes == old(loadTimes)
              else
                df == loaded && loadTimes == old(loadTimes) + [elapsed] &&
                State() == if loaded.Some? && !IsEmpty(loaded.value) then AfterSave(old(State()), key, loaded.value, savedAt)
                           else old(State())
    {
      var key := CacheKeyText(source, dataset, columns, filters);
      var cached := GetFromCache(key, now);
      if cached.Some? {
        return cached;
      }
      df := loaded;
      if df.Some? && !IsEmpty(df.value) {
        SaveToCache(key, df.value, savedAt);
      }
      loadTimes := loadTimes + [elapsed];
    }

    /**
     * `load_dataset_paginated`: the whole dataset through the cached load, then
     * the slice of page `page`; an empty frame when nothing or an empty frame
     * was loaded.
     */
    method LoadDatasetPaginated(source: string, dataset: string, page: int, pageSize: int,
                                now: int, loaded: Option<Table>, savedAt: int, elapsed: int)
      returns (t: Table)
      requires Valid()
      modifies this
      ensures Valid()
      ensures var hit := old(GetFromCache(CacheKeyText(source, dataset, [], None), now));
              var df := if hit.Some? then hit else loaded;
              if df.None? || IsEmpty(df.value) then t == Table([], [])
              else t == Table(df.value.columns, Page(df.value.rows, page, pageSize))
      ensures var key := CacheKeyText(source, dataset, [], None);
              var hit := old(GetFromCache(key, now));
              if hit.Some? then
                State() == old(State()) && loadTimes == old(loadTimes)
              else
                loadTimes == old(loadTimes) + [elapsed] &&
                State() == if loaded.Some? && !IsEmpty(loaded.value) then AfterSave(old(State()), key, loaded.value, savedAt)
                           else old(State())
    {
      var df := LoadDatasetOptimized(source, dataset, [], None, now, loaded, savedAt, elapsed);
      if df.None? || IsEmpty(df.value) {
        return Table([], []);
      }
      t := Table(df.value.columns, Page(df.value.rows, page, pageSize));
    }
  }
}
