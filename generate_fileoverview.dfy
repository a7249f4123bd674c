/**
 * The project file overview: every file name gets a category, the project
 * tree is scanned into a nested structure (skipping tool directories,
 * limited in depth and to 20 files a directory), the structure is rendered
 * as Markdown list lines, and a directory's files are counted by extension.
 */
module FileOverview {
  import opened Strings
  import Order
  import ScanDaten

  type Dir = ScanDaten.Dir

  // ---------------------------------------------------------------------
  // get_file_category
  // ---------------------------------------------------------------------

  datatype Category = Data | Documentation | Code | Config | Test | Other

  /** The category as it is written into the overview. */
  function CategoryName(c: Category): string
  {
    match c
    case Data => "Data"
    case Documentation => "Documentation"
    case Code => "Code"
    case Config => "Config"
    case Test => "Test"
    case Other => "Other"
  }

  /** The categories of the table, in its declared order. */
  const TableOrder: seq<Category> := [Data, Documentation, Code, Config, Test]

  /** Position of a category in the table; Other comes after it. */
  function TableRank(c: Category): (r: nat)
    ensures r <= |TableOrder| && (r < |TableOrder| ==> TableOrder[r] == c)
  {
    match c
    case Data => 0
    case Documentation => 1
    case Code => 2
    case Config => 3
    case Test => 4
    case Other => 5
  }

  /** The suffixes the table lists for a category; Other has no entry. */
  function Suffixes(c: Category): seq<string>
  {
    match c
    case Data => [".csv", ".json", ".xlsx", ".xls", ".parquet"]
    case Documentation => [".md", ".txt", ".pdf"]
    case Code => [".py", ".js", ".html", ".css"]
    case Config => [".yaml", ".yml", ".toml", ".ini", ".conf"]
    case Test => ["test_*.py", "*_test.py"]
    case Other => []
  }

  /** `Path(name).suffix`: from the last dot on, when that dot is neither the first nor the last character. */
  function Suffix(name: string): (r: string)
    ensures r == [] || (|r| >= 2 && r[0] == '.' && EndsWith(name, r) && |r| < |name|)
  {
    match ScanDaten.LastDot(name)
    case None => []
    case Some(i) => if 0 < i < |name| - 1 then name[i..] else []
  }

  /** Index of the first table entry listing `ext`; `|table|` when none does. */
  function FirstListing(ext: string, table: seq<Category>): (i: nat)
    ensures i <= |table|
    ensures i < |table| ==> ext in Suffixes(table[i])
    ensures forall j :: 0 <= j < i ==> ext !in Suffixes(table[j])
  {
    if table == [] then 0
    else if ext in Suffixes(table[0]) then 0
    else 1 + FirstListing(ext, table[1..])
  }

  /**
   * `get_file_category`: Test when the lowercased name contains "test";
   * otherwise the first category listing the lowercased suffix; otherwise Other.
   */
  function FileCategory(name: string): Category
  {
    if Contains(Lower(name), "test") then Test else ListedCategory(Lower(Suffix(name)))
  }

  /** The category of the first table entry listing `ext`; Other when none does. */
  function ListedCategory(ext: string): Category
  {
    var i := FirstListing(ext, TableOrder);
    if i < |TableOrder| then TableOrder[i] else Other
  }

  /** The two Test patterns are never a suffix, which is empty or starts with a dot. */
  lemma TestPatternsNeverMatch(name: string)
    ensures Lower(Suffix(name)) !in Suffixes(Test)
  {
    var ext := Lower(Suffix(name));
    if ext != [] {
      assert ext[0] == '.';
      assert "test_*.py"[0] == 't' && "*_test.py"[0] == '*';
    }
  }

  /** A file is a Test file exactly when its lowercased name contains "test". */
  lemma TestIffNameSaysTest(name: string)
    ensures FileCategory(name) == Test <==> Contains(Lower(name), "test")
  {
    if !Contains(Lower(name), "test") {
      TestPatternsNeverMatch(name);
      var i := FirstListing(Lower(Suffix(name)), TableOrder);
      assert i != 4;
      TableRankOfPosition();
    }
  }

  /**
   * Without "test" in the name, a file gets the category of table entry `k`
   * exactly when that entry is the first one listing its lowercased suffix.
   */
  lemma FirstListingWins(name: string, k: nat)
    requires k < |TableOrder| && !Contains(Lower(name), "test")
    ensures FileCategory(name) == TableOrder[k] <==>
      Lower(Suffix(name)) in Suffixes(TableOrder[k]) && forall j :: 0 <= j < k ==> Lower(Suffix(name)) !in Suffixes(TableOrder[j])
  {
    ListedCategoryWins(Lower(Suffix(name)), k);
  }

  lemma ListedCategoryWins(ext: string, k: nat)
    requires k < |TableOrder|
    ensures ListedCategory(ext) == TableOrder[k] <==>
      ext in Suffixes(TableOrder[k]) && forall j :: 0 <= j < k ==> ext !in Suffixes(TableOrder[j])
  {
    FirstListingAt(ext, TableOrder, k);
    TableRankOfPosition();
  }

  /** Each table position holds a different category. */
  lemma {:induction false} TableRankOfPosition()
    ensures forall i :: 0 <= i < |TableOrder| ==> TableRank(TableOrder[i]) == i
  {
    assert TableRank(TableOrder[0]) == 0 && TableRank(TableOrder[1]) == 1 && TableRank(TableOrder[2]) == 2;
    assert TableRank(TableOrder[3]) == 3 && TableRank(TableOrder[4]) == 4;
  }

  /** The first listing is at `k` exactly when entry `k` lists the suffix and no earlier entry does. */
  lemma FirstListingAt(ext: string, table: seq<Category>, k: nat)
    requires k < |table|
    ensures FirstListing(ext, table) == k <==> ext in Suffixes(table[k]) && forall j :: 0 <= j < k ==> ext !in Suffixes(table[j])
  {
  }

  /** Without "test" in the name, a file is Other exactly when no table entry lists its lowercased suffix. */
  lemma OtherIffUnlisted(name: string)
    requires !Contains(Lower(name), "test")
    ensures FileCategory(name) == Other <==> forall j :: 0 <= j < |TableOrder| ==> Lower(Suffix(name)) !in Suffixes(TableOrder[j])
  {
  }

  /** A suffix is matched case-insensitively: "SALES.CSV" is a data file. */
  lemma UpperCaseSuffixMatches()
    ensures FileCategory("SALES.CSV") == Data
  {
    SalesSuffix();
    assert Lower(".CSV") == ".csv";
    CsvIsListedAsData();
    SalesNameHasNoTest();
  }

  lemma SalesSuffix()
    ensures Suffix("SALES.CSV") == ".CSV"
  {
    var s := "SALES.CSV";
    var d := ScanDaten.LastDot(s);
    assert s[5] == '.';
    assert d == Some(5) by {
      assert d.Some?;
      assert s[6] != '.' && s[7] != '.' && s[8] != '.';
    }
  }

  lemma CsvIsListedAsData()
    ensures ListedCategory(".csv") == Data
  {
    assert ".csv" in Suffixes(TableOrder[0]);
  }

  lemma SalesNameHasNoTest()
    ensures !Contains(Lower("SALES.CSV"), "test")
  {
    var s := "SALES.CSV";
    var lower := Lower(s);
    assert lower == "sales.csv" by {
      assert lower[0] == 's' && lower[1] == 'a' && lower[2] == 'l' && lower[3] == 'e' && lower[4] == 's';
      assert lower[5] == '.' && lower[6] == 'c' && lower[7] == 's' && lower[8] == 'v';
    }
    NotContainsWhenHeadAbsent(lower, "test");
  }


  // ---------------------------------------------------------------------
  // scan_directory
  // ---------------------------------------------------------------------

  /** The tool and cache directories the walks never enter. */
  const SkipDirs: set<string> := {
    "venv", "__pycache__", ".git", "node_modules", ".pytest_cache",
    ".mypy_cache", ".ruff_cache", ".claude", ".claude-flow",
    ".hive-mind", ".roo", ".swarm", "coordination", "memory"
  }

  /** At most this many files of a directory are recorded. */
  const FilesPerDir: nat := 20

  /** A recorded file, `{'name': ..., 'category': ...}`. */
  datatype FileRecord = FileRecord(name: string, category: Category)

  /** The records of the first 20 files of a directory, each with its category. */
  function RecordsOf(names: seq<string>): (r: seq<FileRecord>)
    ensures |r| == if |names| < FilesPerDir then |names| else FilesPerDir
    ensures forall i :: 0 <= i < |r| ==> r[i] == FileRecord(names[i], FileCategory(names[i]))
  {
    var kept := Take(names, FilesPerDir);
    seq(|kept|, i requires 0 <= i < |kept| => FileRecord(kept[i], FileCategory(kept[i])))
  }

  /**
   * One dictionary of the scanned structure: its `_files` list and its
   * directory keys in insertion order, each with the entry created for it.
   */
  datatype Level = Level(files: seq<FileRecord>, children: seq<(string, Slot)>)

  /** The entry created for a directory, `{'_files': ..., '_dirs': ...}`: its own file list and the dictionary below it. */
  datatype Slot = Slot(files: seq<FileRecord>, dirs: Level)

  /**
   * What `scan_directory` builds for the directory `d` at `depth` below the
   * root. The root's files go into the top dictionary. Below the root the
   * code has already stepped into the entry's `_dirs` dictionary when it
   * appends, so a directory's files land there and the entry's own `_files`
   * stays empty; `intended` puts them into the entry instead.
   */
  function LevelOf(d: Dir, depth: nat, maxDepth: int, intended: bool): Level
    requires depth <= maxDepth
    decreases d, |d.subdirs| + 1
  {
    Level(if intended && depth > 0 then [] else RecordsOf(d.files), ChildrenOf(d, depth, maxDepth, intended, |d.subdirs|))
  }

  /** The entries for the first `k` sub-directories: pruned ones and those deeper than `maxDepth` get none. */
  function ChildrenOf(d: Dir, depth: nat, maxDepth: int, intended: bool, k: nat): (r: seq<(string, Slot)>)
    requires depth <= maxDepth && k <= |d.subdirs|
    ensures |r| <= k
    ensures forall i :: 0 <= i < |r| ==> r[i].0 in SubdirNames(d)[..k]
    decreases d, k
  {
    if k == 0 then []
    else
      var c := d.subdirs[k - 1];
      assert SubdirNames(d)[..k] == SubdirNames(d)[..k - 1] + [c.name];
      ChildrenOf(d, depth, maxDepth, intended, k - 1) +
        (if c.name in SkipDirs || depth + 1 > maxDepth then []
         else [(c.name, Slot(if intended then RecordsOf(c.files) else [], LevelOf(c, depth + 1, maxDepth, intended)))])
  }

  function SubdirNames(d: Dir): (r: seq<string>)
    ensures |r| == |d.subdirs|
  {
    seq(|d.subdirs|, i requires 0 <= i < |d.subdirs| => d.subdirs[i].name)
  }

  /** `scan_directory(root, max_depth)` as written; a negative depth limit skips even the root. */
  function ScanDirectory(root: Dir, maxDepth: int): Level
  {
    if maxDepth < 0 then Level([], []) else LevelOf(root, 0, maxDepth, false)
  }

  /** The same scan with every directory's files stored in its own entry. */
  function ScanDirectoryIntended(root: Dir, maxDepth: int): Level
  {
    if maxDepth < 0 then Level([], []) else LevelOf(root, 0, maxDepth, true)
  }

  /**
   * The limits of the scan hold at every level: no pruned directory, no
   * level nested deeper than `budget`, and at most 20 files in every list.
   */
  ghost predicate WithinLimits(l: Level, budget: int)
  {
    |l.files| <= FilesPerDir && forall k :: 0 <= k < |l.children| ==> EntryWithinLimits(l.children[k], budget)
  }

  /** A directory entry one level below a dictionary with `budget` levels to go. */
  ghost predicate EntryWithinLimits(e: (string, Slot), budget: int)
  {
    e.0 !in SkipDirs && budget >= 1 && |e.1.files| <= FilesPerDir && WithinLimits(e.1.dirs, budget - 1)
  }

  lemma {:induction false} LevelWithinLimits(d: Dir, depth: nat, maxDepth: int, intended: bool)
    requires depth <= maxDepth
    ensures WithinLimits(LevelOf(d, depth, maxDepth, intended), maxDepth - depth)
    decreases d, |d.subdirs| + 1
  {
    ChildrenWithinLimits(d, depth, maxDepth, intended, |d.subdirs|);
  }

  lemma {:induction false} ChildrenWithinLimits(d: Dir, depth: nat, maxDepth: int, intended: bool, k: nat)
    requires depth <= maxDepth && k <= |d.subdirs|
    ensures forall j :: 0 <= j < |ChildrenOf(d, depth, maxDepth, intended, k)| ==>
      EntryWithinLimits(ChildrenOf(d, depth, maxDepth, intended, k)[j], maxDepth - depth)
    decreases d, k
  {
    if k > 0 {
      ChildrenWithinLimits(d, depth, maxDepth, intended, k - 1);
      var c := d.subdirs[k - 1];
      var init := ChildrenOf(d, depth, maxDepth, intended, k - 1);
      if c.name !in SkipDirs && depth + 1 <= maxDepth {
        LevelWithinLimits(c, depth + 1, maxDepth, intended);
        var e := (c.name, Slot(if intended then RecordsOf(c.files) else [], LevelOf(c, depth + 1, maxDepth, intended)));
        assert ChildrenOf(d, depth, maxDepth, intended, k) == init + [e];
      } else {
        assert ChildrenOf(d, depth, maxDepth, intended, k) == init;
      }
    }
  }

  /**
   * `scan_directory` never records a pruned directory, nothing deeper than
   * `max_depth`, and at most the first 20 files of a directory; the root
   * keeps exactly its first 20 files.
   */
  lemma ScanWithinLimits(root: Dir, maxDepth: int)
    ensures WithinLimits(ScanDirectory(root, maxDepth), maxDepth)
    ensures WithinLimits(ScanDirectoryIntended(root, maxDepth), maxDepth)
    ensures maxDepth >= 0 ==> |ScanDirectory(root, maxDepth).files| == (if |root.files| < FilesPerDir then |root.files| else FilesPerDir)
    ensures maxDepth >= 0 ==> forall i :: 0 <= i < |ScanDirectory(root, maxDepth).files| ==>
      ScanDirectory(root, maxDepth).files[i] == FileRecord(root.files[i], FileCategory(root.files[i]))
  {
    if maxDepth >= 0 {
      LevelWithinLimits(root, 0, maxDepth, false);
      LevelWithinLimits(root, 0, maxDepth, true);
    }
  }

  // ---------------------------------------------------------------------
  // generate_markdown
  // ---------------------------------------------------------------------

  /** A Markdown list line of the overview: a directory header, or the files of one category. */
  datatype Line =
    | DirLine(indent: nat, name: string, link: string)
    | FilesLine(indent: nat, category: Category, shown: seq<string>, more: nat)

  /** At most this many names of a category are shown. */
  const ShownPerCategory: nat := 5

  /** The line for the files of category `c`: the first five names and how many more there are. */
  function FilesLineOf(indent: nat, c: Category, files: seq<string>): (l: Line)
    ensures l.FilesLine? && l.indent == indent && l.category == c
    ensures |l.shown| == if |files| < ShownPerCategory then |files| else ShownPerCategory
    ensures l.shown == files[..|l.shown|]
    ensures |l.shown| + l.more == |files|
  {
    FilesLine(indent, c, Take(files, ShownPerCategory), if |files| > ShownPerCategory then |files| - ShownPerCategory else 0)
  }

  /** Two spaces per level. */
  function Indent(n: nat): (r: string)
    ensures |r| == 2 * n
  {
    if n == 0 then "" else Indent(n - 1) + "  "
  }

  /** The text of a line, as it is written into the overview. */
  function LineText(l: Line): string
  {
    match l
    case DirLine(i, name, link) => Indent(i) + "- **[" + name + "/](" + link + "/)**"
    case FilesLine(i, c, shown, more) =>
      Indent(i) + "- *" + CategoryName(c) + "*: " + Join(shown, ", ") +
      (if more > 0 then " (+" + NatToString(more) + " more)" else "")
  }

  /** A files line ends with its shown names, and then with " (+n more)" exactly when names were left out. */
  lemma MoreNote(l: Line)
    requires l.FilesLine?
    ensures l.more > 0 ==> EndsWith(LineText(l), " (+" + NatToString(l.more) + " more)")
    ensures l.more == 0 ==> EndsWith(LineText(l), Join(l.shown, ", "))
  {
    var head := Indent(l.indent) + "- *" + CategoryName(l.category) + "*: ";
    if l.more > 0 {
      var tail := " (+" + NatToString(l.more) + " more)";
      assert LineText(l) == (head + Join(l.shown, ", ")) + tail;
    } else {
      assert LineText(l) == head + Join(l.shown, ", ") + "";
    }
  }

  /** The order of `sorted(files_by_cat.items())`: the category names ascending. */
  const SortedCategories: seq<Category> := [Code, Config, Data, Documentation, Other, Test]

  function SortedRank(c: Category): (r: nat)
    ensures r < |SortedCategories| && SortedCategories[r] == c
  {
    match c
    case Code => 0
    case Config => 1
    case Data => 2
    case Documentation => 3
    case Other => 4
    case Test => 5
  }

  lemma {:induction false} SortedRankOfPosition()
    ensures forall i :: 0 <= i < |SortedCategories| ==> SortedRank(SortedCategories[i]) == i
  {
    assert SortedRank(SortedCategories[0]) == 0 && SortedRank(SortedCategories[1]) == 1;
    assert SortedRank(SortedCategories[2]) == 2 && SortedRank(SortedCategories[3]) == 3;
    assert SortedRank(SortedCategories[4]) == 4 && SortedRank(SortedCategories[5]) == 5;
  }

  /** Ranking the categories by position is ranking them by name. */
  lemma RankIsNameOrder(a: Category, b: Category)
    requires SortedRank(a) < SortedRank(b)
    ensures Order.Le(CategoryName(a), CategoryName(b)) && CategoryName(a) != CategoryName(b)
  {
    var x, y := CategoryName(a), CategoryName(b);
    assert x[0] != y[0] || (x == "Code" && y == "Config") || (x == "Data" && y == "Documentation");
    if x == "Code" && y == "Config" {
      assert Order.Le(x[1..][1..], y[1..][1..]);
    }
  }

  /** `files_by_cat[c]`: the names of the records of category `c`, in recorded order. */
  function NamesIn(files: seq<FileRecord>, c: Category): (g: seq<string>)
    ensures |g| <= |files|
    ensures forall x :: x in g ==> FileRecord(x, c) in files
    ensures forall f :: f in files && f.category == c ==> f.name in g
  {
    if files == [] then []
    else
      var init := files[..|files| - 1];
      var last := files[|files| - 1];
      assert files == init + [last];
      NamesIn(init, c) + (if last.category == c then [last.name] else [])
  }

  /** The files lines for the categories `cats` that have files, in the order of `cats`. */
  function LinesFor(files: seq<FileRecord>, cats: seq<Category>, indent: nat): (r: seq<Line>)
    ensures forall i :: 0 <= i < |r| ==> r[i].FilesLine? && r[i].category in cats
  {
    if cats == [] then []
    else
      var c := cats[|cats| - 1];
      var g := NamesIn(files, c);
      LinesFor(files, cats[..|cats| - 1], indent) + (if g == [] then [] else [FilesLineOf(indent, c, g)])
  }

  /** One files line per category that has files, in ascending name order. */
  function CategoryLines(files: seq<FileRecord>, indent: nat): seq<Line>
  {
    LinesFor(files, SortedCategories, indent)
  }

  /** Number of names a list of lines accounts for: shown and counted in " (+n more)". */
  function Listed(lines: seq<Line>): nat
  {
    if lines == [] then 0
    else
      var l := lines[|lines| - 1];
      Listed(lines[..|lines| - 1]) + (if l.FilesLine? then |l.shown| + l.more else 0)
  }

  lemma {:induction false} ListedAppend(a: seq<Line>, b: seq<Line>)
    ensures Listed(a + b) == Listed(a) + Listed(b)
  {
    if b != [] {
      var b' := b[..|b| - 1];
      assert (a + b)[..|a + b| - 1] == a + b';
      ListedAppend(a, b');
    } else {
      assert a + b == a;
    }
  }

  /** Total number of names of the categories `cats`. */
  function CountIn(files: seq<FileRecord>, cats: seq<Category>): nat
  {
    if cats == [] then 0 else CountIn(files, cats[..|cats| - 1]) + |NamesIn(files, cats[|cats| - 1])|
  }

  lemma {:induction false} ListedLinesFor(files: seq<FileRecord>, cats: seq<Category>, indent: nat)
    ensures Listed(LinesFor(files, cats, indent)) == CountIn(files, cats)
  {
    if cats != [] {
      var c := cats[|cats| - 1];
      var g := NamesIn(files, c);
      ListedLinesFor(files, cats[..|cats| - 1], indent);
      ListedAppend(LinesFor(files, cats[..|cats| - 1], indent), if g == [] then [] else [FilesLineOf(indent, c, g)]);
      if g != [] {
        assert Listed([FilesLineOf(indent, c, g)]) == |g| by {
          assert [FilesLineOf(indent, c, g)][..0] == [];
        }
      }
    }
  }

  /** One more record adds one name to the categories of `cats` when its category is listed once. */
  lemma {:induction false} CountInStep(files: seq<FileRecord>, f: FileRecord, cats: seq<Category>)
    requires forall i, j :: 0 <= i < j < |cats| ==> cats[i] != cats[j]
    ensures CountIn(files + [f], cats) == CountIn(files, cats) + (if f.category in cats then 1 else 0)
  {
    if cats != [] {
      var init := cats[..|cats| - 1];
      var c := cats[|cats| - 1];
      assert (files + [f])[..|files + [f]| - 1] == files;
      CountInStep(files, f, init);
      assert cats == init + [c];
      if f.category == c {
        assert f.category !in init;
      }
    }
  }

  lemma {:induction false} CountInAll(files: seq<FileRecord>)
    ensures CountIn(files, SortedCategories) == |files|
  {
    if files == [] {
      assert CountIn([], SortedCategories) == 0 by {
        assert forall k :: 0 <= k <= |SortedCategories| ==> CountIn([], SortedCategories[..k]) == 0 by {
          forall k | 0 <= k <= |SortedCategories| ensures CountIn([], SortedCategories[..k]) == 0 {
            ZeroCount(SortedCategories[..k]);
          }
        }
        assert SortedCategories[..|SortedCategories|] == SortedCategories;
      }
    } else {
      var init := files[..|files| - 1];
      var f := files[|files| - 1];
      assert files == init + [f];
      CountInAll(init);
      SortedRankOfPosition();
      assert SortedCategories[SortedRank(f.category)] == f.category;
      CountInStep(init, f, SortedCategories);
    }
  }

  lemma {:induction false} ZeroCount(cats: seq<Category>)
    ensures CountIn([], cats) == 0
  {
    if cats != [] {
      ZeroCount(cats[..|cats| - 1]);
    }
  }

  /** Every file of a directory is accounted for in its category lines: the lines' counts add up to the number of files. */
  lemma CategoryLinesAccountForAll(files: seq<FileRecord>, indent: nat)
    ensures Listed(CategoryLines(files, indent)) == |files|
  {
    ListedLinesFor(files, SortedCategories, indent);
    CountInAll(files);
  }

  lemma {:induction false} LinesForAscending(files: seq<FileRecord>, cats: seq<Category>, indent: nat)
    requires forall i, j :: 0 <= i < j < |cats| ==> SortedRank(cats[i]) < SortedRank(cats[j])
    ensures forall i, j :: 0 <= i < j < |LinesFor(files, cats, indent)| ==>
      SortedRank(LinesFor(files, cats, indent)[i].category) < SortedRank(LinesFor(files, cats, indent)[j].category)
  {
    if cats != [] {
      var init := cats[..|cats| - 1];
      var c := cats[|cats| - 1];
      LinesForAscending(files, init, indent);
      var r0 := LinesFor(files, init, indent);
      forall i | 0 <= i < |r0| ensures SortedRank(r0[i].category) < SortedRank(c) {
        var k :| 0 <= k < |init| && init[k] == r0[i].category;
        assert cats[k] == init[k];
      }
    }
  }

  /** The category lines come in strictly ascending order of category name. */
  lemma CategoryLinesSorted(files: seq<FileRecord>, indent: nat)
    ensures forall i, j :: 0 <= i < j < |CategoryLines(files, indent)| ==>
      Order.Le(CategoryName(CategoryLines(files, indent)[i].category), CategoryName(CategoryLines(files, indent)[j].category)) &&
      CategoryLines(files, indent)[i].category != CategoryLines(files, indent)[j].category
  {
    SortedRankOfPosition();
    LinesForAscending(files, SortedCategories, indent);
    var r := CategoryLines(files, indent);
    forall i, j | 0 <= i < j < |r|
      ensures Order.Le(CategoryName(r[i].category), CategoryName(r[j].category)) && r[i].category != r[j].category
    {
      RankIsNameOrder(r[i].category, r[j].category);
    }
  }

  lemma {:induction false} LinesForHoldTheirFiles(files: seq<FileRecord>, cats: seq<Category>, indent: nat)
    ensures forall i :: 0 <= i < |LinesFor(files, cats, indent)| ==>
      var l := LinesFor(files, cats, indent)[i];
      l.shown != [] && forall x :: x in l.shown ==> FileRecord(x, l.category) in files
  {
    if cats != [] {
      LinesForHoldTheirFiles(files, cats[..|cats| - 1], indent);
      var c := cats[|cats| - 1];
      var g := NamesIn(files, c);
      if g != [] {
        var l := FilesLineOf(indent, c, g);
        forall x | x in l.shown ensures FileRecord(x, c) in files {
          assert x in g;
        }
      }
    }
  }

  /** Every category line shows at least one name, and only names recorded with its category. */
  lemma CategoryLinesHoldTheirFiles(files: seq<FileRecord>, indent: nat)
    ensures forall i :: 0 <= i < |CategoryLines(files, indent)| ==>
      var l := CategoryLines(files, indent)[i];
      l.shown != [] && forall x :: x in l.shown ==> FileRecord(x, l.category) in files
  {
    LinesForHoldTheirFiles(files, SortedCategories, indent);
  }

  /** The directory keys of a dictionary, in insertion order. */
  function ChildNames(l: Level): (r: seq<string>)
    ensures |r| == |l.children|
  {
    seq(|l.children|, i requires 0 <= i < |l.children| => l.children[i].0)
  }

  /** Where the key `name` sits among the entries; `|children|` when it is not a key. */
  function SlotIndex(l: Level, name: string): (k: nat)
    ensures k <= |l.children|
    ensures k < |l.children| ==> l.children[k].0 == name
  {
    FirstKey(l.children, name)
  }

  /** A key of the dictionary is found. */
  lemma KeyHasSlot(l: Level, name: string)
    requires name in ChildNames(l)
    ensures SlotIndex(l, name) < |l.children|
  {
    var j :| 0 <= j < |l.children| && ChildNames(l)[j] == name;
    assert l.children[j].0 == name;
  }

  function FirstKey(entries: seq<(string, Slot)>, name: string): (k: nat)
    ensures k <= |entries|
    ensures k < |entries| ==> entries[k].0 == name
    ensures forall j :: 0 <= j < k ==> entries[j].0 != name
  {
    if entries == [] then 0
    else if entries[0].0 == name then 0
    else 1 + FirstKey(entries[1..], name)
  }

  /** Every name of `names` is a key of the dictionary. */
  predicate AllKeys(l: Level, names: seq<string>)
  {
    forall k :: 0 <= k < |names| ==> SlotIndex(l, names[k]) < |l.children|
  }

  /** `f"{path}/{name}" if path else name`. */
  function Link(path: string, name: string): string
  {
    if path == "" then name else path + "/" + name
  }

  /**
   * The lines `process_dir` appends for a dictionary: each directory key in
   * sorted order gets its header, then the lines of the dictionary below it,
   * then the category lines of its entry's own files.
   */
  function DirLines(l: Level, path: string, indent: nat): seq<Line>
    decreases l, 1, 0
  {
    var names := Order.SortedSet(ChildNames(l));
    DirLinesFrom(l, names, |names|, path, indent)
  }

  lemma SortedKeysAreKeys(l: Level)
    ensures AllKeys(l, Order.SortedSet(ChildNames(l)))
  {
    var names := Order.SortedSet(ChildNames(l));
    forall k | 0 <= k < |names| ensures SlotIndex(l, names[k]) < |l.children| {
      assert names[k] in names;
      KeyHasSlot(l, names[k]);
    }
  }

  /** The lines for the first `n` keys of `names`, in the order given. */
  function DirLinesFrom(l: Level, names: seq<string>, n: nat, path: string, indent: nat): seq<Line>
    requires n <= |names|
    decreases l, 0, n
  {
    if n == 0 then []
    else DirLinesFrom(l, names, n - 1, path, indent) + EntryLines(l, names[n - 1], path, indent)
  }

  /**
   * The lines for one directory key. The keys visited are the dictionary's
   * own, so the lookup always finds an entry; a name that is not a key
   * would give no lines.
   */
  function EntryLines(l: Level, name: string, path: string, indent: nat): seq<Line>
    decreases l, 0, 0
  {
    var i := SlotIndex(l, name);
    if i == |l.children| then []
    else
      var slot := l.children[i].1;
      var link := Link(path, name);
      [DirLine(indent, name, link)] + DirLines(slot.dirs, link, indent + 1) + CategoryLines(slot.files, indent + 1)
  }

  /**
   * `generate_markdown`: the category lines of the root's files, then the
   * lines of every directory key of the top dictionary.
   */
  function Markdown(structure: Level): seq<Line>
  {
    CategoryLines(structure.files, 0) + DirLines(structure, "", 0)
  }

  /**
   * Groups `files` by category with `setdefault(...).append`, then appends
   * a files line for each group in sorted category order.
   */
  method AppendCategoryLines(files: seq<FileRecord>, indent: nat, lines: seq<Line>) returns (out: seq<Line>)
    ensures out == lines + CategoryLines(files, indent)
  {
    var byCat := GroupByCategory(files);
    out := lines;
    for k := 0 to |SortedCategories|
      invariant out == lines + LinesFor(files, SortedCategories[..k], indent)
    {
      var c := SortedCategories[k];
      ghost var before := out;
      if c in byCat {
        out := out + [FilesLineOf(indent, c, byCat[c])];
      }
      LinesForStep(files, k, indent, lines, before, out);
    }
    assert SortedCategories[..|SortedCategories|] == SortedCategories;
  }

  lemma LinesForStep(files: seq<FileRecord>, k: nat, indent: nat, lines: seq<Line>, before: seq<Line>, after: seq<Line>)
    requires k < |SortedCategories|
    requires before == lines + LinesFor(files, SortedCategories[..k], indent)
    requires var g := NamesIn(files, SortedCategories[k]);
      (g == [] && after == before) || (g != [] && after == before + [FilesLineOf(indent, SortedCategories[k], g)])
    ensures after == lines + LinesFor(files, SortedCategories[..k + 1], indent)
  {
    var c := SortedCategories[k];
    var g := NamesIn(files, c);
    var done := LinesFor(files, SortedCategories[..k], indent);
    LinesForUnfold(files, k, indent);
    if g != [] {
      AppendAssoc(lines, done, [FilesLineOf(indent, c, g)]);
    }
  }

  /** The lines for one more category: the earlier lines, then its own line when it has files. */
  lemma LinesForUnfold(files: seq<FileRecord>, k: nat, indent: nat)
    requires k < |SortedCategories|
    ensures var g := NamesIn(files, SortedCategories[k]);
      LinesFor(files, SortedCategories[..k + 1], indent) ==
        LinesFor(files, SortedCategories[..k], indent) + (if g == [] then [] else [FilesLineOf(indent, SortedCategories[k], g)])
  {
    assert SortedCategories[..k + 1][..k] == SortedCategories[..k];
  }

  /** `files_by_cat.setdefault(cat, []).append(name)` over the records: only categories with files become keys. */
  method GroupByCategory(files: seq<FileRecord>) returns (byCat: map<Category, seq<string>>)
    ensures forall c :: c in byCat <==> NamesIn(files, c) != []
    ensures forall c :: c in byCat ==> byCat[c] == NamesIn(files, c)
  {
    byCat := map[];
    for i := 0 to |files|
      invariant forall c :: c in byCat <==> NamesIn(files[..i], c) != []
      invariant forall c :: c in byCat ==> byCat[c] == NamesIn(files[..i], c)
    {
      var f := files[i];
      ghost var before := byCat;
      byCat := byCat[f.category := (if f.category in byCat then byCat[f.category] else []) + [f.name]];
      GroupStep(files, i, before, byCat);
    }
    assert files[..|files|] == files;
  }

  /** Appending one record to its category's list keeps the map equal to the groups of the records seen. */
  lemma GroupStep(files: seq<FileRecord>, i: nat, before: map<Category, seq<string>>, after: map<Category, seq<string>>)
    requires i < |files|
    requires forall c :: c in before <==> NamesIn(files[..i], c) != []
    requires forall c :: c in before ==> before[c] == NamesIn(files[..i], c)
    requires var f := files[i];
      after == before[f.category := (if f.category in before then before[f.category] else []) + [f.name]]
    ensures forall c :: c in after <==> NamesIn(files[..i + 1], c) != []
    ensures forall c :: c in after ==> after[c] == NamesIn(files[..i + 1], c)
  {
    assert files[..i + 1][..i] == files[..i];
    forall c ensures NamesIn(files[..i + 1], c) == NamesIn(files[..i], c) + (if files[i].category == c then [files[i].name] else []) {
    }
  }

  /** `process_dir`: appends the lines of the dictionary `l` to `lines`. */
  method ProcessDir(l: Level, path: string, indent: nat, lines: seq<Line>) returns (out: seq<Line>)
    ensures out == lines + DirLines(l, path, indent)
    decreases l, 2
  {
    var names := Order.SortedSet(ChildNames(l));
    SortedKeysAreKeys(l);
    out := ProcessKeys(l, names, path, indent, lines);
  }

  /** The loop of `process_dir` over the sorted directory keys `names`. */
  method ProcessKeys(l: Level, names: seq<string>, path: string, indent: nat, lines: seq<Line>) returns (out: seq<Line>)
    requires AllKeys(l, names)
    ensures out == lines + DirLinesFrom(l, names, |names|, path, indent)
    decreases l, 1
  {
    out := lines;
    for i := 0 to |names|
      invariant out == lines + DirLinesFrom(l, names, i, path, indent)
    {
      ghost var before := out;
      out := AppendEntry(l, names[i], path, indent, out);
      DirLinesStep(l, names, i, path, indent, lines, before, out);
    }
  }

  lemma DirLinesStep(l: Level, names: seq<string>, i: nat, path: string, indent: nat, lines: seq<Line>, before: seq<Line>, after: seq<Line>)
    requires i < |names|
    requires before == lines + DirLinesFrom(l, names, i, path, indent)
    requires after == before + EntryLines(l, names[i], path, indent)
    ensures after == lines + DirLinesFrom(l, names, i + 1, path, indent)
  {
    var done := DirLinesFrom(l, names, i, path, indent);
    var entry := EntryLines(l, names[i], path, indent);
    assert DirLinesFrom(l, names, i + 1, path, indent) == done + entry;
    AppendAssoc(lines, done, entry);
  }

  lemma AppendAssoc(a: seq<Line>, b: seq<Line>, c: seq<Line>)
    ensures (a + b) + c == a + (b + c)
  {
  }

  /** One turn of the loop: the header of directory `name`, the lines below it, then its own files. */
  method AppendEntry(l: Level, name: string, path: string, indent: nat, lines: seq<Line>) returns (out: seq<Line>)
    requires SlotIndex(l, name) < |l.children|
    ensures out == lines + EntryLines(l, name, path, indent)
    decreases l, 0, 0
  {
    var slot := l.children[SlotIndex(l, name)].1;
    var link := Link(path, name);
    var header := lines + [DirLine(indent, name, link)];
    var below := ProcessDir(slot.dirs, link, indent + 1, header);
    out := AppendCategoryLines(slot.files, indent + 1, below);
    EntryLinesParts(l, name, path, indent, lines, below, out);
  }

  lemma EntryLinesParts(l: Level, name: string, path: string, indent: nat, lines: seq<Line>, below: seq<Line>, after: seq<Line>)
    requires SlotIndex(l, name) < |l.children|
    requires below == lines + [DirLine(indent, name, Link(path, name))] + DirLines(l.children[SlotIndex(l, name)].1.dirs, Link(path, name), indent + 1)
    requires after == below + CategoryLines(l.children[SlotIndex(l, name)].1.files, indent + 1)
    ensures after == lines + EntryLines(l, name, path, indent)
  {
    var slot := l.children[SlotIndex(l, name)].1;
    var header := [DirLine(indent, name, Link(path, name))];
    var below := DirLines(slot.dirs, Link(path, name), indent + 1);
    var own := CategoryLines(slot.files, indent + 1);
    assert EntryLines(l, name, path, indent) == header + below + own;
    AppendAssoc(lines, header, below);
    AppendAssoc(lines, header + below, own);
  }

  /** `generate_markdown(structure)`. */
  method GenerateMarkdown(structure: Level) returns (lines: seq<Line>)
    ensures lines == Markdown(structure)
  {
    var rootLines := AppendCategoryLines(structure.files, 0, []);
    assert rootLines == CategoryLines(structure.files, 0);
    lines := ProcessDir(structure, "", 0, rootLines);
  }

  // ---------------------------------------------------------------------
  // What the overview lists
  // ---------------------------------------------------------------------

  /** Number of file records held anywhere in a dictionary: its own list, its entries' lists and everything below. */
  function Recorded(l: Level): nat
    decreases l, |l.children| + 1
  {
    |l.files| + RecordedUpTo(l, |l.children|)
  }

  function RecordedUpTo(l: Level, n: nat): nat
    requires n <= |l.children|
    decreases l, n
  {
    if n == 0 then 0
    else
      var slot := l.children[n - 1].1;
      RecordedUpTo(l, n - 1) + |slot.files| + Recorded(slot.dirs)
  }

  /** Number of file records in the entries' own lists at every depth: the lists `process_dir` renders. */
  function EntryFiles(l: Level): nat
    decreases l, |l.children| + 1
  {
    EntryFilesUpTo(l, |l.children|)
  }

  function EntryFilesUpTo(l: Level, n: nat): nat
    requires n <= |l.children|
    decreases l, n
  {
    if n == 0 then 0
    else
      var slot := l.children[n - 1].1;
      EntryFilesUpTo(l, n - 1) + |slot.files| + EntryFiles(slot.dirs)
  }

  /** Every entry's own file list is empty, at every depth. */
  ghost predicate NoEntryFiles(l: Level)
    decreases l
  {
    forall k :: 0 <= k < |l.children| ==> l.children[k].1.files == [] && NoEntryFiles(l.children[k].1.dirs)
  }

  /** Every dictionary below the top one has an empty own file list. */
  ghost predicate InnerListsEmpty(l: Level)
    decreases l
  {
    forall k :: 0 <= k < |l.children| ==> l.children[k].1.dirs.files == [] && InnerListsEmpty(l.children[k].1.dirs)
  }

  /** No dictionary has the same directory key twice. */
  ghost predicate KeysDistinct(l: Level)
    decreases l
  {
    Order.Distinct(ChildNames(l)) && forall k :: 0 <= k < |l.children| ==> KeysDistinct(l.children[k].1.dirs)
  }

  /** No directory of the tree has two sub-directories of the same name, as in a file system. */
  ghost predicate UniqueNames(d: Dir)
    decreases d
  {
    Order.Distinct(SubdirNames(d)) && forall i :: 0 <= i < |d.subdirs| ==> UniqueNames(d.subdirs[i])
  }

  /**
   * `b` holds the same tree as `a` with each directory's files moved from
   * the dictionary below its entry into the entry itself.
   */
  ghost predicate Moved(a: Level, b: Level)
    decreases a
  {
    |a.children| == |b.children| &&
    forall k :: 0 <= k < |a.children| ==>
      a.children[k].0 == b.children[k].0 &&
      a.children[k].1.files == [] && b.children[k].1.files == a.children[k].1.dirs.files &&
      b.children[k].1.dirs.files == [] && Moved(a.children[k].1.dirs, b.children[k].1.dirs)
  }

  /** The shape of what the two scans build. */
  lemma {:induction false} ScanShape(d: Dir, depth: nat, maxDepth: int)
    requires depth <= maxDepth
    ensures NoEntryFiles(LevelOf(d, depth, maxDepth, false))
    ensures InnerListsEmpty(LevelOf(d, depth, maxDepth, true))
    ensures Moved(LevelOf(d, depth, maxDepth, false), LevelOf(d, depth, maxDepth, true))
    decreases d, |d.subdirs| + 1
  {
    ChildrenShape(d, depth, maxDepth, |d.subdirs|);
  }

  lemma {:induction false} ChildrenShape(d: Dir, depth: nat, maxDepth: int, k: nat)
    requires depth <= maxDepth && k <= |d.subdirs|
    ensures var a, b := ChildrenOf(d, depth, maxDepth, false, k), ChildrenOf(d, depth, maxDepth, true, k);
      |a| == |b| &&
      forall j :: 0 <= j < |a| ==>
        a[j].0 == b[j].0 &&
        a[j].1.files == [] && b[j].1.files == a[j].1.dirs.files && b[j].1.dirs.files == [] &&
        NoEntryFiles(a[j].1.dirs) && InnerListsEmpty(b[j].1.dirs) && Moved(a[j].1.dirs, b[j].1.dirs)
    decreases d, k
  {
    if k > 0 {
      ChildrenShape(d, depth, maxDepth, k - 1);
      var c := d.subdirs[k - 1];
      var a0, b0 := ChildrenOf(d, depth, maxDepth, false, k - 1), ChildrenOf(d, depth, maxDepth, true, k - 1);
      if c.name !in SkipDirs && depth + 1 <= maxDepth {
        ScanShape(c, depth + 1, maxDepth);
        var ea := (c.name, Slot([], LevelOf(c, depth + 1, maxDepth, false)));
        var eb := (c.name, Slot(RecordsOf(c.files), LevelOf(c, depth + 1, maxDepth, true)));
        assert ChildrenOf(d, depth, maxDepth, false, k) == a0 + [ea];
        assert ChildrenOf(d, depth, maxDepth, true, k) == b0 + [eb];
      } else {
        assert ChildrenOf(d, depth, maxDepth, false, k) == a0;
        assert ChildrenOf(d, depth, maxDepth, true, k) == b0;
      }
    }
  }

  /** A tree without repeated directory names gives dictionaries without repeated keys. */
  lemma {:induction false} ScanKeysDistinct(d: Dir, depth: nat, maxDepth: int, intended: bool)
    requires depth <= maxDepth && UniqueNames(d)
    ensures KeysDistinct(LevelOf(d, depth, maxDepth, intended))
    decreases d, |d.subdirs| + 1
  {
    ChildrenKeysDistinct(d, depth, maxDepth, intended, |d.subdirs|);
    var l := LevelOf(d, depth, maxDepth, intended);
    assert l.children == ChildrenOf(d, depth, maxDepth, intended, |d.subdirs|);
    forall i, j | 0 <= i < j < |l.children| ensures ChildNames(l)[i] != ChildNames(l)[j] {
      assert ChildNames(l)[i] == l.children[i].0 && ChildNames(l)[j] == l.children[j].0;
    }
  }

  lemma {:induction false} ChildrenKeysDistinct(d: Dir, depth: nat, maxDepth: int, intended: bool, k: nat)
    requires depth <= maxDepth && k <= |d.subdirs| && UniqueNames(d)
    ensures forall j :: 0 <= j < |ChildrenOf(d, depth, maxDepth, intended, k)| ==>
      KeysDistinct(ChildrenOf(d, depth, maxDepth, intended, k)[j].1.dirs)
    ensures forall i, j :: 0 <= i < j < |ChildrenOf(d, depth, maxDepth, intended, k)| ==>
      ChildrenOf(d, depth, maxDepth, intended, k)[i].0 != ChildrenOf(d, depth, maxDepth, intended, k)[j].0
    decreases d, k
  {
    if k > 0 {
      ChildrenKeysDistinct(d, depth, maxDepth, intended, k - 1);
      var c := d.subdirs[k - 1];
      var a0 := ChildrenOf(d, depth, maxDepth, intended, k - 1);
      if c.name !in SkipDirs && depth + 1 <= maxDepth {
        assert UniqueNames(c);
        ScanKeysDistinct(c, depth + 1, maxDepth, intended);
        var e := (c.name, Slot(if intended then RecordsOf(c.files) else [], LevelOf(c, depth + 1, maxDepth, intended)));
        assert ChildrenOf(d, depth, maxDepth, intended, k) == a0 + [e];
        forall i | 0 <= i < |a0| ensures a0[i].0 != c.name {
          var names := SubdirNames(d);
          assert a0[i].0 in names[..k - 1];
          var m :| 0 <= m < k - 1 && names[..k - 1][m] == a0[i].0;
          assert names[m] != names[k - 1];
        }
      } else {
        assert ChildrenOf(d, depth, maxDepth, intended, k) == a0;
      }
    }
  }

  /** How many names the directory lines of a dictionary account for, computed on the dictionary itself. */
  function DirCount(l: Level): nat
    decreases l, 1
  {
    var names := Order.SortedSet(ChildNames(l));
    DirCountFrom(l, names, |names|)
  }

  function DirCountFrom(l: Level, names: seq<string>, n: nat): nat
    requires n <= |names|
    decreases l, 0, n
  {
    if n == 0 then 0 else DirCountFrom(l, names, n - 1) + KeyTotal(l, names[n - 1])
  }

  /** What the lines of one directory key account for: its entry's files and everything counted below it. */
  function KeyTotal(l: Level, name: string): nat
    decreases l, 0, 0
  {
    var i := SlotIndex(l, name);
    if i == |l.children| then 0 else |l.children[i].1.files| + DirCount(l.children[i].1.dirs)
  }

  /** The directory lines account for as many names as `DirCount` says. */
  lemma {:induction false} ListedCounts(l: Level, path: string, indent: nat)
    ensures Listed(DirLines(l, path, indent)) == DirCount(l)
    decreases l, 1
  {
    var names := Order.SortedSet(ChildNames(l));
    ListedCountsFrom(l, names, |names|, path, indent);
  }

  lemma {:induction false} ListedCountsFrom(l: Level, names: seq<string>, n: nat, path: string, indent: nat)
    requires n <= |names|
    ensures Listed(DirLinesFrom(l, names, n, path, indent)) == DirCountFrom(l, names, n)
    decreases l, 0, n
  {
    if n > 0 {
      ListedStep(l, names, n, path, indent);
      ListedCountsFrom(l, names, n - 1, path, indent);
      KeyListed(l, names[n - 1], path, indent);
    }
  }

  lemma ListedStep(l: Level, names: seq<string>, n: nat, path: string, indent: nat)
    requires 0 < n <= |names|
    ensures Listed(DirLinesFrom(l, names, n, path, indent)) ==
      Listed(DirLinesFrom(l, names, n - 1, path, indent)) + Listed(EntryLines(l, names[n - 1], path, indent))
  {
    var done := DirLinesFrom(l, names, n - 1, path, indent);
    var entry := EntryLines(l, names[n - 1], path, indent);
    assert DirLinesFrom(l, names, n, path, indent) == done + entry;
    ListedAppend(done, entry);
  }

  /** The lines of one key account for its entry's files and the lines below it. */
  lemma {:induction false} KeyListed(l: Level, name: string, path: string, indent: nat)
    ensures Listed(EntryLines(l, name, path, indent)) == KeyTotal(l, name)
    decreases l, 0, 0
  {
    var i := SlotIndex(l, name);
    if i < |l.children| {
      var slot := l.children[i].1;
      var link := Link(path, name);
      var header: seq<Line> := [DirLine(indent, name, link)];
      assert Listed(header) == 0 by { assert header[..0] == []; }
      ListedAppend(header, DirLines(slot.dirs, link, indent + 1));
      ListedAppend(header + DirLines(slot.dirs, link, indent + 1), CategoryLines(slot.files, indent + 1));
      CategoryLinesAccountForAll(slot.files, indent + 1);
      ListedCounts(slot.dirs, link, indent + 1);
    }
  }

  /** When every entry's own list is empty, the directory lines list no file at all. */
  lemma NothingListedBelow(l: Level, path: string, indent: nat)
    requires NoEntryFiles(l)
    ensures Listed(DirLines(l, path, indent)) == 0
  {
    ListedCounts(l, path, indent);
    NothingCounted(l);
  }

  lemma {:induction false} NothingCounted(l: Level)
    requires NoEntryFiles(l)
    ensures DirCount(l) == 0
    decreases l, 1
  {
    var names := Order.SortedSet(ChildNames(l));
    NothingCountedFrom(l, names, |names|);
  }

  lemma {:induction false} NothingCountedFrom(l: Level, names: seq<string>, n: nat)
    requires n <= |names| && NoEntryFiles(l)
    ensures DirCountFrom(l, names, n) == 0
    decreases l, 0, n
  {
    if n > 0 {
      NothingCountedFrom(l, names, n - 1);
      NothingAtKey(l, names[n - 1]);
    }
  }

  lemma {:induction false} NothingAtKey(l: Level, name: string)
    requires NoEntryFiles(l)
    ensures KeyTotal(l, name) == 0
    decreases l, 0, 0
  {
    var i := SlotIndex(l, name);
    if i < |l.children| {
      NothingCounted(l.children[i].1.dirs);
    }
  }

  /** What one directory key contributes to the listing. */
  function KeyCount(l: Level, name: string): nat
  {
    var i := SlotIndex(l, name);
    if i < |l.children| then |l.children[i].1.files| + EntryFiles(l.children[i].1.dirs) else 0
  }

  /** The contributions of the keys `names`. */
  function KeysCount(l: Level, names: seq<string>): nat
  {
    if names == [] then 0 else KeysCount(l, names[..|names| - 1]) + KeyCount(l, names[|names| - 1])
  }

  lemma {:induction false} KeysCountAppend(l: Level, a: seq<string>, b: seq<string>)
    ensures KeysCount(l, a + b) == KeysCount(l, a) + KeysCount(l, b)
  {
    if b != [] {
      var b' := b[..|b| - 1];
      assert (a + b)[..|a + b| - 1] == a + b';
      KeysCountAppend(l, a, b');
    } else {
      assert a + b == a;
    }
  }

  /** The order in which the keys are visited does not change their total. */
  lemma {:induction false} KeysCountReordered(l: Level, a: seq<string>, b: seq<string>)
    requires multiset(a) == multiset(b)
    ensures KeysCount(l, a) == KeysCount(l, b)
    decreases |a|
  {
    if a != [] {
      var x := a[|a| - 1];
      var a' := a[..|a| - 1];
      assert a == a' + [x];
      assert x in multiset(b);
      var i :| 0 <= i < |b| && b[i] == x;
      var b' := b[..i] + b[i + 1..];
      KeysCountRemove(l, b, i);
      KeysCountReordered(l, a', b');
    } else {
      assert |b| == |multiset(b)| == 0;
    }
  }

  /** Taking the `i`-th key out of a list takes its contribution out of the total. */
  lemma KeysCountRemove(l: Level, b: seq<string>, i: nat)
    requires i < |b|
    ensures multiset(b[..i] + b[i + 1..]) == multiset(b) - multiset{b[i]}
    ensures KeysCount(l, b) == KeysCount(l, b[..i] + b[i + 1..]) + KeyCount(l, b[i])
  {
    var x := b[i];
    assert b == b[..i] + [x] + b[i + 1..];
    KeysCountAppend(l, b[..i] + [x], b[i + 1..]);
    KeysCountAppend(l, b[..i], [x]);
    KeysCountAppend(l, b[..i], b[i + 1..]);
    assert [x][..0] == [];
  }

  /** With distinct keys, the entry of the `j`-th key is the `j`-th entry. */
  lemma DistinctKeySlot(l: Level, j: nat)
    requires Order.Distinct(ChildNames(l)) && j < |l.children|
    ensures SlotIndex(l, l.children[j].0) == j
  {
    var k := SlotIndex(l, l.children[j].0);
    assert ChildNames(l)[j] == l.children[j].0;
    if k < |l.children| {
      assert ChildNames(l)[k] == l.children[k].0;
    }
  }

  lemma {:induction false} KeysInOrderCount(l: Level, n: nat)
    requires Order.Distinct(ChildNames(l)) && n <= |l.children|
    ensures KeysCount(l, ChildNames(l)[..n]) == EntryFilesUpTo(l, n)
  {
    if n > 0 {
      KeysInOrderCount(l, n - 1);
      assert ChildNames(l)[..n][..n - 1] == ChildNames(l)[..n - 1];
      DistinctKeySlot(l, n - 1);
    }
  }

  /** With distinct keys, the directory lines list exactly the files held in the entries. */
  lemma DirLinesListEntryFiles(l: Level, path: string, indent: nat)
    requires KeysDistinct(l)
    ensures Listed(DirLines(l, path, indent)) == EntryFiles(l)
  {
    ListedCounts(l, path, indent);
    CountedEntryFiles(l);
  }

  lemma {:induction false} CountedEntryFiles(l: Level)
    requires KeysDistinct(l)
    ensures DirCount(l) == EntryFiles(l)
    decreases l, 1
  {
    var names := Order.SortedSet(ChildNames(l));
    CountedFrom(l, names, |names|);
    assert names[..|names|] == names;
    Order.SortedSetPermutes(ChildNames(l));
    KeysCountReordered(l, names, ChildNames(l));
    KeysInOrderCount(l, |l.children|);
    assert ChildNames(l)[..|l.children|] == ChildNames(l);
  }

  lemma {:induction false} CountedFrom(l: Level, names: seq<string>, n: nat)
    requires n <= |names| && KeysDistinct(l)
    ensures DirCountFrom(l, names, n) == KeysCount(l, names[..n])
    decreases l, 0, n
  {
    if n > 0 {
      CountedFrom(l, names, n - 1);
      CountedAtKey(l, names[n - 1]);
      KeysCountPrefix(l, names, n);
    }
  }

  /** A prefix one key longer counts that key as well. */
  lemma KeysCountPrefix(l: Level, names: seq<string>, n: nat)
    requires 0 < n <= |names|
    ensures KeysCount(l, names[..n]) == KeysCount(l, names[..n - 1]) + KeyCount(l, names[n - 1])
  {
    var pre := names[..n];
    assert pre[..n - 1] == names[..n - 1] && pre[n - 1] == names[n - 1];
  }

  lemma {:induction false} CountedAtKey(l: Level, name: string)
    requires KeysDistinct(l)
    ensures KeyTotal(l, name) == KeyCount(l, name)
    decreases l, 0, 0
  {
    var i := SlotIndex(l, name);
    if i < |l.children| {
      CountedEntryFiles(l.children[i].1.dirs);
    }
  }

  /** When the dictionaries below the top hold no files themselves, everything recorded is in the top list or an entry. */
  lemma {:induction false} RecordedInEntries(l: Level)
    requires InnerListsEmpty(l)
    ensures Recorded(l) == |l.files| + EntryFiles(l)
    decreases l, |l.children| + 1
  {
    RecordedInEntriesUpTo(l, |l.children|);
  }

  lemma {:induction false} RecordedInEntriesUpTo(l: Level, n: nat)
    requires InnerListsEmpty(l) && n <= |l.children|
    ensures RecordedUpTo(l, n) == EntryFilesUpTo(l, n)
    decreases l, n
  {
    if n > 0 {
      RecordedInEntriesUpTo(l, n - 1);
      RecordedInEntries(l.children[n - 1].1.dirs);
    }
  }

  lemma {:induction false} MovedRecordsSame(a: Level, b: Level)
    requires Moved(a, b)
    ensures RecordedUpTo(a, |a.children|) == RecordedUpTo(b, |b.children|)
    decreases a, |a.children| + 1
  {
    MovedRecordsSameUpTo(a, b, |a.children|);
  }

  lemma {:induction false} MovedRecordsSameUpTo(a: Level, b: Level, n: nat)
    requires Moved(a, b) && n <= |a.children|
    ensures RecordedUpTo(a, n) == RecordedUpTo(b, n)
    decreases a, n
  {
    if n > 0 {
      MovedRecordsSameUpTo(a, b, n - 1);
      MovedRecordsSame(a.children[n - 1].1.dirs, b.children[n - 1].1.dirs);
    }
  }

  /** The corrected scan records the same number of files as the scan as written; it only stores them in the entries. */
  lemma ScansRecordSameFiles(root: Dir, maxDepth: int)
    ensures Recorded(ScanDirectory(root, maxDepth)) == Recorded(ScanDirectoryIntended(root, maxDepth))
  {
    if maxDepth >= 0 {
      ScanShape(root, 0, maxDepth);
      MovedRecordsSame(LevelOf(root, 0, maxDepth, false), LevelOf(root, 0, maxDepth, true));
    }
  }

  /**
   * As written, the overview lists only the root's files: whatever the
   * scan records below the root sits in dictionaries the renderer never
   * reads as file lists.
   */
  lemma AsWrittenListsRootOnly(root: Dir, maxDepth: int)
    ensures Listed(Markdown(ScanDirectory(root, maxDepth))) ==
      if maxDepth < 0 then 0 else if |root.files| < FilesPerDir then |root.files| else FilesPerDir
  {
    var l := ScanDirectory(root, maxDepth);
    if maxDepth >= 0 {
      ScanShape(root, 0, maxDepth);
    }
    NothingListedBelow(l, "", 0);
    ListedAppend(CategoryLines(l.files, 0), DirLines(l, "", 0));
    CategoryLinesAccountForAll(l.files, 0);
  }

  /** With the files stored in the entries, every recorded file is listed. */
  lemma IntendedListsEveryFile(root: Dir, maxDepth: int)
    requires UniqueNames(root)
    ensures Listed(Markdown(ScanDirectoryIntended(root, maxDepth))) == Recorded(ScanDirectoryIntended(root, maxDepth))
  {
    var l := ScanDirectoryIntended(root, maxDepth);
    if maxDepth >= 0 {
      ScanShape(root, 0, maxDepth);
      ScanKeysDistinct(root, 0, maxDepth, true);
    }
    DirLinesListEntryFiles(l, "", 0);
    RecordedInEntries(l);
    ListedAppend(CategoryLines(l.files, 0), DirLines(l, "", 0));
    CategoryLinesAccountForAll(l.files, 0);
  }

  /** A data directory with one sub-directory holding one file. */
  const Example: Dir := ScanDaten.Dir("Daten", [], [ScanDaten.Dir("Beispieldaten", ["werte.csv"], [])])

  /** The scan as written records the file of the example's sub-directory. */
  lemma ExampleRecorded()
    ensures Recorded(ScanDirectory(Example, 3)) == 1
  {
    var sub := Example.subdirs[0];
    var inner := LevelOf(sub, 1, 3, false);
    assert ChildrenOf(sub, 1, 3, false, 0) == [];
    assert |inner.files| == 1 && inner.children == [];
    assert Recorded(inner) == 1;
    assert "Beispieldaten" !in SkipDirs;
    var top := ScanDirectory(Example, 3);
    assert top.children == [("Beispieldaten", Slot([], inner))];
    assert RecordedUpTo(top, 1) == 1;
  }

  /** As written, the file of the sub-directory is recorded but the overview lists nothing; corrected, it is listed. */
  lemma SubdirectoryFileNotListed()
    ensures Recorded(ScanDirectory(Example, 3)) == 1 && Listed(Markdown(ScanDirectory(Example, 3))) == 0
    ensures Listed(Markdown(ScanDirectoryIntended(Example, 3))) == 1
  {
    AsWrittenListsRootOnly(Example, 3);
    ExampleRecorded();
    ScansRecordSameFiles(Example, 3);
    ExampleUnique();
    IntendedListsEveryFile(Example, 3);
  }

  lemma ExampleUnique()
    ensures UniqueNames(Example)
  {
    var sub := Example.subdirs[0];
    assert UniqueNames(sub);
  }
}
