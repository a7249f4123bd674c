/**
 * The overview of the Daten directory (scripts/scan_daten_directory.py): a
 * top-down walk that prunes hidden and `__pycache__` directories, one entry
 * list per directory that has files (hidden and temporary files skipped),
 * per-extension statistics over all entries, the human-readable size, and a
 * content label guessed from a file name. The directory tree and `os.stat`
 * are parameters.
 */
module ScanDaten {
  import opened Strings

  // ---------------------------------------------------------------------
  // format_size
  // ---------------------------------------------------------------------

  datatype Unit = B | KB | MB | GB | TB

  /** The unit after `k` divisions by 1024. */
  function UnitAt(k: nat): Unit
    requires k <= 4
  {
    [B, KB, MB, GB, TB][k]
  }

  /** 1024 to the power `k`. */
  function Scale(k: nat): (r: real)
    ensures r >= 1.0
  {
    if k == 0 then 1.0 else 1024.0 * Scale(k - 1)
  }

  /** The first `k` from `from` on, below 4, with `bytes / 1024^k < 1024`; 4 (TB) when there is none. */
  function UnitIndex(bytes: real, from: nat): (k: nat)
    requires from <= 4
    ensures from <= k <= 4
    ensures k < 4 ==> bytes / Scale(k) < 1024.0
    ensures forall j :: from <= j < k ==> bytes / Scale(j) >= 1024.0
    decreases 4 - from
  {
    if from == 4 then 4
    else if bytes / Scale(from) < 1024.0 then from
    else UnitIndex(bytes, from + 1)
  }

  lemma DivideAgain(bytes: real, k: nat)
    ensures bytes / Scale(k + 1) == bytes / Scale(k) / 1024.0
  {
    var s := Scale(k);
    assert Scale(k + 1) == 1024.0 * s;
    assert bytes / (1024.0 * s) == bytes / s / 1024.0;
  }

  /**
   * `format_size`: the loop divides by 1024 until the value drops below 1024
   * or the units run out; the number is shown with one decimal.
   */
  method FormatSize(bytes: real) returns (value: real, unit: Unit)
    ensures unit == UnitAt(UnitIndex(bytes, 0))
    ensures value == bytes / Scale(UnitIndex(bytes, 0))
  {
    value := bytes;
    var k := 0;
    while k < 4
      invariant k <= 4
      invariant value == bytes / Scale(k)
      invariant forall j :: 0 <= j < k ==> bytes / Scale(j) >= 1024.0
    {
      if value < 1024.0 {
        return value, UnitAt(k);
      }
      DivideAgain(bytes, k);
      value := value / 1024.0;
      k := k + 1;
    }
    unit := TB;
  }

  /**
   * For a non-negative size the number shown is below 1024 in every unit but
   * TB, and at least 1 in every unit above B.
   */
  lemma ReadableRange(bytes: real)
    requires bytes >= 0.0
    ensures UnitIndex(bytes, 0) < 4 ==> 0.0 <= bytes / Scale(UnitIndex(bytes, 0)) < 1024.0
    ensures UnitIndex(bytes, 0) > 0 ==> bytes / Scale(UnitIndex(bytes, 0)) >= 1.0
  {
    var k := UnitIndex(bytes, 0);
    if k > 0 {
      assert bytes / Scale(k - 1) >= 1024.0;
      DivideAgain(bytes, k - 1);
    }
  }

  // ---------------------------------------------------------------------
  // get_file_info
  // ---------------------------------------------------------------------

  /** The index of the last `.` in `s`. */
  function LastDot(s: string): (r: Option<nat>)
    ensures r.Some? ==> r.value < |s| && s[r.value] == '.' && forall j :: r.value < j < |s| ==> s[j] != '.'
    ensures r.None? ==> forall j :: 0 <= j < |s| ==> s[j] != '.'
  {
    if s == [] then None
    else if s[|s| - 1] == '.' then Some(|s| - 1)
    else LastDot(s[..|s| - 1])
  }

  /**
   * `os.path.splitext(name)[1]`: from the last dot on, unless only dots
   * come before that dot (a leading dot does not start an extension).
   */
  function Extension(name: string): (ext: string)
    ensures ext == [] || (ext[0] == '.' && EndsWith(name, ext) && forall j :: 1 <= j < |ext| ==> ext[j] != '.')
  {
    match LastDot(name)
    case None => []
    case Some(i) =>
      if forall j :: 0 <= j < i ==> name[j] == '.' then [] else name[i..]
  }

  /** What `get_file_info` adds to an entry: the error of `os.stat`, or the size and the lowercased extension. */
  datatype FileInfo = InfoError | Info(size: nat, extension: string)

  /** `stat` is `os.stat(...).st_size`, None when it raises. */
  function InfoOf(name: string, size: Option<nat>): (i: FileInfo)
    ensures i.InfoError? <==> size.None?
    ensures i.Info? ==> i.size == size.value && i.extension == Lower(Extension(name))
  {
    match size
    case None => InfoError
    case Some(n) => Info(n, Lower(Extension(name)))
  }

  // ---------------------------------------------------------------------
  // scan_directory
  // ---------------------------------------------------------------------

  /** A directory of the tree: its name, its file names and its sub-directories, in listing order. */
  datatype Dir = Dir(name: string, files: seq<string>, subdirs: seq<Dir>)

  /** `dirnames[:]` drops the hidden directories and `__pycache__`, so the walk never enters them. */
  predicate Pruned(name: string)
  {
    StartsWith(name, ".") || name == "__pycache__"
  }

  /** Hidden and temporary files are skipped. */
  predicate Skipped(name: string)
  {
    StartsWith(name, ".") || StartsWith(name, "~")
  }

  /** A directory `os.walk` yields: its path below the root as components (`[]` for the root) and its file names. */
  datatype Visit = Visit(path: seq<string>, files: seq<string>)

  /** The top-down walk from `d`, reached at `path`: `d` first, then each kept sub-directory in turn. */
  function Walk(d: Dir, path: seq<string>): (r: seq<Visit>)
    ensures |r| >= 1 && r[0] == Visit(path, d.files)
    decreases d, |d.subdirs| + 1
  {
    [Visit(path, d.files)] + WalkChildren(d, path, |d.subdirs|)
  }

  /** The walks of the first `k` kept sub-directories of `d`. */
  function WalkChildren(d: Dir, path: seq<string>, k: nat): seq<Visit>
    requires k <= |d.subdirs|
    decreases d, k
  {
    if k == 0 then []
    else
      var c := d.subdirs[k - 1];
      WalkChildren(d, path, k - 1) + (if Pruned(c.name) then [] else Walk(c, path + [c.name]))
  }

  /** Every directory the walk visits lies below `path` through directories that are not pruned. */
  lemma {:induction false} WalkAvoidsPruned(d: Dir, path: seq<string>)
    ensures forall v :: v in Walk(d, path) ==>
      |path| <= |v.path| && v.path[..|path|] == path && forall i :: |path| <= i < |v.path| ==> !Pruned(v.path[i])
    decreases d, |d.subdirs| + 1
  {
    WalkChildrenAvoidPruned(d, path, |d.subdirs|);
  }

  lemma {:induction false} WalkChildrenAvoidPruned(d: Dir, path: seq<string>, k: nat)
    requires k <= |d.subdirs|
    ensures forall v :: v in WalkChildren(d, path, k) ==>
      |path| <= |v.path| && v.path[..|path|] == path && forall i :: |path| <= i < |v.path| ==> !Pruned(v.path[i])
    decreases d, k
  {
    if k > 0 {
      WalkChildrenAvoidPruned(d, path, k - 1);
      var c := d.subdirs[k - 1];
      if !Pruned(c.name) {
        var p := path + [c.name];
        WalkAvoidsPruned(c, p);
        forall v | v in Walk(c, p)
          ensures |path| <= |v.path| && v.path[..|path|] == path && forall i :: |path| <= i < |v.path| ==> !Pruned(v.path[i])
        {
          assert v.path[..|path|] == v.path[..|p|][..|path|];
          assert v.path[|path|] == p[|path|];
        }
      }
    }
  }

  /** One entry of the structure: the file name, its path below the root, and what `get_file_info` found. */
  datatype FileEntry = FileEntry(name: string, path: seq<string>, info: FileInfo)

  /** The entries of the first `k` files of a visited directory; skipped files leave no entry. */
  function EntriesOf(v: Visit, stat: seq<string> -> Option<nat>, k: nat): (r: seq<FileEntry>)
    requires k <= |v.files|
    ensures |r| <= k
    ensures forall i :: 0 <= i < |r| ==> !Skipped(r[i].name) && r[i].path == v.path + [r[i].name]
    ensures forall i :: 0 <= i < |r| ==> r[i].info == InfoOf(r[i].name, stat(r[i].path))
    ensures forall i :: 0 <= i < |r| ==> r[i].name in v.files[..k]
  {
    if k == 0 then []
    else
      var name := v.files[k - 1];
      assert v.files[..k] == v.files[..k - 1] + [name];
      var init := EntriesOf(v, stat, k - 1);
      if Skipped(name) then init
      else init + [FileEntry(name, v.path + [name], InfoOf(name, stat(v.path + [name])))]
  }

  /** Some entry of `r` is for the file `name`. */
  predicate HasEntry(r: seq<FileEntry>, name: string)
  {
    exists i :: 0 <= i < |r| && r[i].name == name
  }

  /** Every file that is not skipped has its entry. */
  lemma {:induction false} KeptFilesHaveEntries(v: Visit, stat: seq<string> -> Option<nat>, k: nat)
    requires k <= |v.files|
    ensures forall j :: 0 <= j < k && !Skipped(v.files[j]) ==> HasEntry(EntriesOf(v, stat, k), v.files[j])
  {
    if k > 0 {
      KeptFilesHaveEntries(v, stat, k - 1);
      var init := EntriesOf(v, stat, k - 1);
      var r := EntriesOf(v, stat, k);
      var name := v.files[k - 1];
      assert r == if Skipped(name) then init else init + [FileEntry(name, v.path + [name], InfoOf(name, stat(v.path + [name])))];
      forall j | 0 <= j < k && !Skipped(v.files[j])
        ensures HasEntry(r, v.files[j])
      {
        if j < k - 1 {
          assert HasEntry(init, v.files[j]);
          var i :| 0 <= i < |init| && init[i].name == v.files[j];
          assert r[i] == init[i];
        } else {
          assert r[|init|].name == v.files[j];
        }
      }
    }
  }

  /** A directory whose files are all skipped has no entries. */
  lemma {:induction false} AllSkippedNoEntries(v: Visit, stat: seq<string> -> Option<nat>, k: nat)
    requires k <= |v.files| && forall i :: 0 <= i < k ==> Skipped(v.files[i])
    ensures EntriesOf(v, stat, k) == []
  {
    if k > 0 {
      AllSkippedNoEntries(v, stat, k - 1);
    }
  }

  /** The inner loop over the file names of one directory. */
  method CollectEntries(v: Visit, stat: seq<string> -> Option<nat>) returns (entries: seq<FileEntry>)
    ensures entries == EntriesOf(v, stat, |v.files|)
  {
    entries := [];
    for k := 0 to |v.files|
      invariant entries == EntriesOf(v, stat, k)
    {
      var name := v.files[k];
      if Skipped(name) {
        continue;
      }
      var path := v.path + [name];
      entries := entries + [FileEntry(name, path, InfoOf(name, stat(path)))];
    }
  }

  /**
   * `data_structure` in insertion order: a key for every visited directory
   * with at least one file name, holding the entries of its files.
   */
  function StructureOf(visits: seq<Visit>, stat: seq<string> -> Option<nat>, k: nat): (r: seq<(seq<string>, seq<FileEntry>)>)
    requires k <= |visits|
    ensures |r| <= k
    ensures forall i :: 0 <= i < |r| ==> exists j :: 0 <= j < k && visits[j].files != [] && r[i] == (visits[j].path, EntriesOf(visits[j], stat, |visits[j].files|))
    ensures forall j :: 0 <= j < k && visits[j].files != [] ==> (visits[j].path, EntriesOf(visits[j], stat, |visits[j].files|)) in r
  {
    if k == 0 then []
    else
      var v := visits[k - 1];
      var init := StructureOf(visits, stat, k - 1);
      if v.files == [] then init
      else init + [(v.path, EntriesOf(v, stat, |v.files|))]
  }

  /** `scan_directory`: walk the tree and record the entries of each directory that has files. */
  method ScanDirectory(root: Dir, stat: seq<string> -> Option<nat>) returns (structure: seq<(seq<string>, seq<FileEntry>)>)
    ensures structure == StructureOf(Walk(root, []), stat, |Walk(root, [])|)
  {
    var visits := Walk(root, []);
    structure := [];
    for k := 0 to |visits|
      invariant structure == StructureOf(visits, stat, k)
    {
      var v := visits[k];
      if v.files != [] {
        var entries := CollectEntries(v, stat);
        structure := structure + [(v.path, entries)];
      }
    }
  }

  /** A directory whose every file is skipped still gets its key, with an empty list. */
  lemma SkippedFilesLeaveEmptyList(v: Visit, stat: seq<string> -> Option<nat>)
    requires v.files != [] && forall i :: 0 <= i < |v.files| ==> Skipped(v.files[i])
    ensures EntriesOf(v, stat, |v.files|) == []
    ensures (v.path, []) in StructureOf([v], stat, 1)
  {
    AllSkippedNoEntries(v, stat, |v.files|);
  }

  // ---------------------------------------------------------------------
  // analyze_data_types
  // ---------------------------------------------------------------------

  /** All entries of the structure, directory after directory. */
  function Flatten(structure: seq<(seq<string>, seq<FileEntry>)>): seq<FileEntry>
  {
    if structure == [] then [] else Flatten(structure[..|structure| - 1]) + structure[|structure| - 1].1
  }

  /** Entries with an `extension` field, that is, those whose stat succeeded, with extension `ext`. */
  predicate HasExt(e: FileEntry, ext: string)
  {
    e.info.Info? && e.info.extension == ext
  }

  function Count(es: seq<FileEntry>, ext: string): nat
  {
    if es == [] then 0 else Count(es[..|es| - 1], ext) + if HasExt(es[|es| - 1], ext) then 1 else 0
  }

  function SizeOf(es: seq<FileEntry>, ext: string): nat
  {
    if es == [] then 0 else SizeOf(es[..|es| - 1], ext) + if HasExt(es[|es| - 1], ext) then es[|es| - 1].info.size else 0
  }

  function NamesWith(es: seq<FileEntry>, ext: string): seq<string>
  {
    if es == [] then [] else NamesWith(es[..|es| - 1], ext) + if HasExt(es[|es| - 1], ext) then [es[|es| - 1].name] else []
  }

  /** The extensions seen. */
  function Exts(es: seq<FileEntry>): (r: set<string>)
    ensures forall ext :: ext in r <==> exists i :: 0 <= i < |es| && HasExt(es[i], ext)
  {
    if es == [] then {}
    else
      var init := es[..|es| - 1];
      assert forall i :: 0 <= i < |init| ==> init[i] == es[i];
      Exts(init) + if es[|es| - 1].info.Info? then {es[|es| - 1].info.extension} else {}
  }

  /** Entries that count at all: those with an `extension` field. */
  function Counted(es: seq<FileEntry>): nat
  {
    if es == [] then 0 else Counted(es[..|es| - 1]) + if es[|es| - 1].info.Info? then 1 else 0
  }

  function TotalSize(es: seq<FileEntry>): nat
  {
    if es == [] then 0 else TotalSize(es[..|es| - 1]) + if es[|es| - 1].info.Info? then es[|es| - 1].info.size else 0
  }

  datatype ExtStats = ExtStats(count: nat, totalSize: nat, examples: seq<string>)

  /** The statistics of one extension: its entries, their size, and the first three of their names. */
  function StatsOf(es: seq<FileEntry>, ext: string): (s: ExtStats)
    ensures |s.examples| <= 3 && |s.examples| <= |NamesWith(es, ext)| && s.examples == NamesWith(es, ext)[..|s.examples|]
  {
    ExtStats(Count(es, ext), SizeOf(es, ext), Take(NamesWith(es, ext), 3))
  }

  /** One more entry: its extension's statistics take it in, every other extension's stay as they were. */
  lemma StatsStep(es: seq<FileEntry>, e: FileEntry, ext: string)
    ensures (es + [e])[..|es|] == es
    ensures HasExt(e, ext) ==> (StatsOf(es + [e], ext) ==
      ExtStats(Count(es, ext) + 1, SizeOf(es, ext) + e.info.size,
               if |StatsOf(es, ext).examples| < 3 then StatsOf(es, ext).examples + [e.name] else StatsOf(es, ext).examples))
    ensures !HasExt(e, ext) ==> StatsOf(es + [e], ext) == StatsOf(es, ext)
  {
    assert (es + [e])[..|es|] == es;
    var names := NamesWith(es, ext);
    if HasExt(e, ext) && |names| < 3 {
      assert Take(names + [e.name], 3) == names + [e.name];
    } else if HasExt(e, ext) {
      assert (names + [e.name])[..3] == names[..3];
    }
  }

  /** What the accumulation has produced after the entries `es`. */
  ghost predicate Tallied(es: seq<FileEntry>, fileTypes: map<string, ExtStats>, totalFiles: nat, totalSize: nat)
  {
    (forall ext :: ext in fileTypes <==> ext in Exts(es))
    && (forall ext :: ext in fileTypes ==> fileTypes[ext] == StatsOf(es, ext))
    && totalFiles == Counted(es) && totalSize == TotalSize(es)
  }

  /** Statistics of an extension not seen yet: the zero record the loop starts it from. */
  lemma UnseenStats(es: seq<FileEntry>, ext: string)
    requires ext !in Exts(es)
    ensures StatsOf(es, ext) == ExtStats(0, 0, [])
  {
    if es != [] {
      var init := es[..|es| - 1];
      UnseenStats(init, ext);
    }
  }

  /** What one entry with an extension field does to `file_types`. */
  function Added(m: map<string, ExtStats>, file: FileEntry): map<string, ExtStats>
  {
    if !file.info.Info? then m
    else
      var ext := file.info.extension;
      var s := if ext in m then m[ext] else ExtStats(0, 0, []);
      m[ext := ExtStats(s.count + 1, s.totalSize + file.info.size, if |s.examples| < 3 then s.examples + [file.name] else s.examples)]
  }

  /** The accumulation stays in step with the statistics of the entries seen. */
  lemma TallyStep(es: seq<FileEntry>, file: FileEntry, m: map<string, ExtStats>, totalFiles: nat, totalSize: nat)
    requires Tallied(es, m, totalFiles, totalSize)
    ensures Tallied(es + [file], Added(m, file),
                    totalFiles + (if file.info.Info? then 1 else 0), totalSize + (if file.info.Info? then file.info.size else 0))
  {
    var es' := es + [file];
    assert es'[..|es|] == es;
    if file.info.Info? && file.info.extension !in m {
      UnseenStats(es, file.info.extension);
    }
    forall ext | ext in Added(m, file)
      ensures Added(m, file)[ext] == StatsOf(es', ext)
    {
      StatsStep(es, file, ext);
    }
    assert Exts(es') == Exts(es) + if file.info.Info? then {file.info.extension} else {};
    assert Counted(es') == Counted(es) + if file.info.Info? then 1 else 0;
    assert TotalSize(es') == TotalSize(es) + if file.info.Info? then file.info.size else 0;
  }

  /** The body of the entry loop for one entry: count it, add its size, keep its name among the first three. */
  method AddEntry(fileTypes0: map<string, ExtStats>, totalFiles0: nat, totalSize0: nat, file: FileEntry)
    returns (fileTypes: map<string, ExtStats>, totalFiles: nat, totalSize: nat)
    ensures fileTypes == Added(fileTypes0, file)
    ensures totalFiles == totalFiles0 + (if file.info.Info? then 1 else 0)
    ensures totalSize == totalSize0 + (if file.info.Info? then file.info.size else 0)
  {
    fileTypes, totalFiles, totalSize := fileTypes0, totalFiles0, totalSize0;
    if file.info.Info? {
      var ext := file.info.extension;
      if ext !in fileTypes {
        fileTypes := fileTypes[ext := ExtStats(0, 0, [])];
      }
      var s := fileTypes[ext];
      var examples := if |s.examples| < 3 then s.examples + [file.name] else s.examples;
      UpdateTwice(fileTypes0, ext, fileTypes, ExtStats(s.count + 1, s.totalSize + file.info.size, examples));
      fileTypes := fileTypes[ext := ExtStats(s.count + 1, s.totalSize + file.info.size, examples)];
      totalSize := totalSize + file.info.size;
      totalFiles := totalFiles + 1;
    }
  }

  lemma UpdateTwice<K, V>(m: map<K, V>, k: K, m': map<K, V>, v: V)
    requires forall x :: x != k ==> (x in m' <==> x in m) && (x in m ==> m'[x] == m[x])
    ensures m'[k := v] == m[k := v]
  {
  }

  /** The inner loop of `analyze_data_types` over the entries of one directory. */
  method TallyEntries(before: seq<FileEntry>, files: seq<FileEntry>, fileTypes0: map<string, ExtStats>, totalFiles0: nat, totalSize0: nat)
    returns (fileTypes: map<string, ExtStats>, totalFiles: nat, totalSize: nat)
    requires Tallied(before, fileTypes0, totalFiles0, totalSize0)
    ensures Tallied(before + files, fileTypes, totalFiles, totalSize)
  {
    fileTypes, totalFiles, totalSize := fileTypes0, totalFiles0, totalSize0;
    ghost var es := before;
    for i := 0 to |files|
      invariant es == before + files[..i]
      invariant Tallied(es, fileTypes, totalFiles, totalSize)
    {
      var file := files[i];
      TallyStep(es, file, fileTypes, totalFiles, totalSize);
      fileTypes, totalFiles, totalSize := AddEntry(fileTypes, totalFiles, totalSize, file);
      assert files[..i + 1] == files[..i] + [file];
      es := es + [file];
    }
    assert files[..|files|] == files;
  }

  /** `analyze_data_types`: directory by directory, entry by entry; entries without an extension field count nowhere. */
  method AnalyzeDataTypes(structure: seq<(seq<string>, seq<FileEntry>)>)
    returns (fileTypes: map<string, ExtStats>, totalFiles: nat, totalSize: nat)
    ensures Tallied(Flatten(structure), fileTypes, totalFiles, totalSize)
  {
    fileTypes, totalFiles, totalSize := map[], 0, 0;
    for d := 0 to |structure|
      invariant Tallied(Flatten(structure[..d]), fileTypes, totalFiles, totalSize)
    {
      assert structure[..d + 1][..d] == structure[..d];
      fileTypes, totalFiles, totalSize := TallyEntries(Flatten(structure[..d]), structure[d].1, fileTypes, totalFiles, totalSize);
    }
    assert structure[..|structure|] == structure;
  }

  /** Sum of the counts of the listed extensions. */
  function SumCounts(es: seq<FileEntry>, exts: seq<string>): nat
  {
    if exts == [] then 0 else Count(es, exts[0]) + SumCounts(es, exts[1..])
  }

  /**
   * `total_files` is the sum of the per-extension counts: over any repeat-free
   * list of extensions that includes every extension seen, the counts add up
   * to the number of entries with an extension field.
   */
  lemma {:induction false} TotalIsSumOfCounts(es: seq<FileEntry>, exts: seq<string>)
    requires forall i, j :: 0 <= i < j < |exts| ==> exts[i] != exts[j]
    requires forall ext :: ext in Exts(es) ==> ext in exts
    ensures SumCounts(es, exts) == Counted(es)
  {
    if es == [] {
      ZeroCounts([], exts);
    } else {
      var init := es[..|es| - 1];
      var e := es[|es| - 1];
      assert forall ext :: ext in Exts(init) ==> ext in Exts(es);
      TotalIsSumOfCounts(init, exts);
      SumCountsStep(init, e, exts);
      assert init + [e] == es;
      if e.info.Info? {
        assert HasExt(es[|es| - 1], e.info.extension);
      }
    }
  }

  lemma {:induction false} ZeroCounts(es: seq<FileEntry>, exts: seq<string>)
    requires es == []
    ensures SumCounts(es, exts) == 0
  {
    if exts != [] {
      ZeroCounts(es, exts[1..]);
    }
  }

  lemma {:induction false} SumCountsStep(es: seq<FileEntry>, e: FileEntry, exts: seq<string>)
    requires forall i, j :: 0 <= i < j < |exts| ==> exts[i] != exts[j]
    ensures SumCounts(es + [e], exts) == SumCounts(es, exts) + if e.info.Info? && e.info.extension in exts then 1 else 0
  {
    if exts != [] {
      assert (es + [e])[..|es|] == es;
      SumCountsStep(es, e, exts[1..]);
      if e.info.Info? && e.info.extension == exts[0] {
        assert e.info.extension !in exts[1..];
      }
    }
  }

  // ---------------------------------------------------------------------
  // identify_data_content
  // ---------------------------------------------------------------------

  datatype Content =
    | Twin2SimData | MonitoringData | GenerationData | ConsumptionData | WeatherData | TemperatureData
    | CsvData | JsonData | ExcelData | ParquetData | Hdf5Data | TextData | PickleData | DataFile

  /** True when one of the name keywords decides the label. */
  predicate KeywordDecides(lower: string)
  {
    Contains(lower, "twin2sim") || Contains(lower, "monitoring") || Contains(lower, "monitor")
    || Contains(lower, "erzeugung") || Contains(lower, "verbrauch") || Contains(lower, "wetter")
    || Contains(lower, "weather") || Contains(lower, "temperatur") || Contains(lower, "temp")
  }

  /**
   * `identify_data_content`: the keywords are looked for in the lowercased name
   * first; the extensions after them, on the name as written.
   */
  function IdentifyContent(name: string): (c: Content)
    ensures KeywordDecides(Lower(name)) <==> c in {Twin2SimData, MonitoringData, GenerationData, ConsumptionData, WeatherData, TemperatureData}
  {
    var lower := Lower(name);
    if Contains(lower, "twin2sim") then Twin2SimData
    else if Contains(lower, "monitoring") || Contains(lower, "monitor") then MonitoringData
    else if Contains(lower, "erzeugung") then GenerationData
    else if Contains(lower, "verbrauch") then ConsumptionData
    else if Contains(lower, "wetter") || Contains(lower, "weather") then WeatherData
    else if Contains(lower, "temperatur") || Contains(lower, "temp") then TemperatureData
    else if EndsWith(name, ".csv") then CsvData
    else if EndsWith(name, ".json") then JsonData
    else if EndsWith(name, ".xlsx") || EndsWith(name, ".xls") then ExcelData
    else if EndsWith(name, ".parquet") then ParquetData
    else if EndsWith(name, ".h5") || EndsWith(name, ".hdf5") then Hdf5Data
    else if EndsWith(name, ".txt") then TextData
    else if EndsWith(name, ".pkl") || EndsWith(name, ".pickle") then PickleData
    else DataFile
  }

  /** The suffixes of the extension checks, as written. */
  const KnownSuffixes: seq<string> := [".csv", ".json", ".xlsx", ".xls", ".parquet", ".h5", ".hdf5", ".txt", ".pkl", ".pickle"]

  /** A name without keywords and with none of the suffixes as written is a plain data file, whatever its case. */
  lemma UnknownSuffixIsDataFile(name: string)
    requires !KeywordDecides(Lower(name))
    requires forall i :: 0 <= i < |KnownSuffixes| ==> !EndsWith(name, KnownSuffixes[i])
    ensures IdentifyContent(name) == DataFile
  {
    assert !EndsWith(name, KnownSuffixes[0]) && !EndsWith(name, KnownSuffixes[1]) && !EndsWith(name, KnownSuffixes[2]);
    assert !EndsWith(name, KnownSuffixes[3]) && !EndsWith(name, KnownSuffixes[4]) && !EndsWith(name, KnownSuffixes[5]);
    assert !EndsWith(name, KnownSuffixes[6]) && !EndsWith(name, KnownSuffixes[7]) && !EndsWith(name, KnownSuffixes[8]);
    assert !EndsWith(name, KnownSuffixes[9]);
  }

  /** A word longer than the string cannot occur in it. */
  lemma {:induction false} TooLongNotContained(s: string, sub: string)
    requires |sub| > |s|
    ensures !Contains(s, sub)
  {
    if |s| > 0 {
      TooLongNotContained(s[1..], sub);
    }
  }

  /** None of the name keywords occurs in "x.csv". */
  lemma NoKeywordInUpperCaseCsv()
    ensures !KeywordDecides(Lower("X.CSV"))
  {
    var lower := Lower("X.CSV");
    assert lower == "x.csv";
    TooLongNotContained(lower, "twin2sim");
    TooLongNotContained(lower, "monitoring");
    TooLongNotContained(lower, "monitor");
    TooLongNotContained(lower, "erzeugung");
    TooLongNotContained(lower, "verbrauch");
    TooLongNotContained(lower, "wetter");
    TooLongNotContained(lower, "weather");
    TooLongNotContained(lower, "temperatur");
    NotContainsWhenHeadAbsent(lower, "temp");
  }

  /** The extension checks are case-sensitive: "X.CSV" is not recognised as CSV. */
  lemma UpperCaseCsvIsDataFile()
    ensures IdentifyContent("X.CSV") == DataFile
  {
    NoKeywordInUpperCaseCsv();
    UnknownSuffixIsDataFile("X.CSV");
  }

  /** A name keyword wins over the extension: a temperature export in CSV is labelled a temperature measurement. */
  lemma KeywordBeforeExtension(name: string)
    requires Contains(Lower(name), "temp") && !Contains(Lower(name), "twin2sim") && !Contains(Lower(name), "monitor")
    requires !Contains(Lower(name), "erzeugung") && !Contains(Lower(name), "verbrauch")
    requires !Contains(Lower(name), "wetter") && !Contains(Lower(name), "weather")
    ensures IdentifyContent(name) == TemperatureData
  {
    if Contains(Lower(name), "monitoring") {
      ContainsPrefixOf(Lower(name), "monitoring", "monitor");
    }
  }
}
