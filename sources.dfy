/**
 * What the CSV loaders share: the source kinds, the encodings tried in order,
 * and the Twin2Sim rule that skips two header rows.
 */
module Sources {
  import opened Strings
  import opened Frame
  import opened Columns

  datatype SourceType = Erentrudis | Twin2Sim | Fis | Generic

  const Encodings: seq<string> := ["utf-8-sig", "utf-8", "iso-8859-1", "windows-1252", "cp1252"]

  /** Cells of a row that are missing (`isna().sum()` over one row). */
  function MissingCells(row: seq<Cell>): (n: nat)
    ensures n <= |row|
    ensures n == 0 <==> forall i :: 0 <= i < |row| ==> !row[i].Missing?
  {
    if row == [] then 0
    else
      assert forall i :: 1 <= i < |row| ==> row[i] == row[1..][i - 1];
      (if row[0].Missing? then 1 else 0) + MissingCells(row[1..])
  }

  /** Twin2Sim files may open with two header rows: more than two rows, the first NaN in more than half the columns. */
  predicate HasHeaderRows(t: Table)
  {
    |t.rows| > 2 && 2 * MissingCells(t.rows[0]) > |t.columns|
  }

  /** `df.iloc[2:]` with the column names kept, when the frame has header rows. */
  function SkipHeaderRows(t: Table): (r: Table)
    ensures r.columns == t.columns
    ensures HasHeaderRows(t) ==> r.rows == t.rows[2..]
    ensures !HasHeaderRows(t) ==> r == t
    ensures IsEmpty(r) <==> IsEmpty(t)
    ensures WellFormed(t) ==> WellFormed(r)
  {
    if HasHeaderRows(t) then Table(t.columns, t.rows[2..]) else t
  }

  /** What one read attempt gives the search: Twin2Sim skips header rows before the emptiness test. */
  function Reader(source: SourceType, read: (string, char) -> ReadOutcome): (string, char) -> ReadOutcome
  {
    if source == Twin2Sim then
      (e: string, c: char) => match read(e, c) case Raised => Raised case Loaded(t) => Loaded(SkipHeaderRows(t))
    else read
  }

  /** The frame a loader's search settles on: the first non-empty read, else the last one read. */
  function SearchOutcome(source: SourceType, seps: seq<char>, read: (string, char) -> ReadOutcome): (r: Option<Table>)
    requires forall e, c :: read(e, c).Loaded? ==> WellFormed(read(e, c).table)
    ensures r.Some? ==> WellFormed(r.value)
  {
    ReaderKeepsWellFormed(source, read);
    SearchKeeps(Encodings, seps, Reader(source, read), t => WellFormed(t));
    SearchResult(Attempts(Encodings, seps, Reader(source, read)))
  }

  lemma ReaderKeepsWellFormed(source: SourceType, read: (string, char) -> ReadOutcome)
    requires forall e, c :: read(e, c).Loaded? ==> WellFormed(read(e, c).table)
    ensures forall e, c :: Reader(source, read)(e, c).Loaded? ==> WellFormed(Reader(source, read)(e, c).table)
  {
    forall e, c | Reader(source, read)(e, c).Loaded? ensures WellFormed(Reader(source, read)(e, c).table) {
      if source == Twin2Sim {
        assert read(e, c).Loaded?;
      }
    }
  }

  /** The candidate search, with encodings outside and separators inside. */
  method SearchCsv(source: SourceType, seps: seq<char>, read: (string, char) -> ReadOutcome) returns (df: Option<Table>)
    requires forall e, c :: read(e, c).Loaded? ==> WellFormed(read(e, c).table)
    ensures df == SearchOutcome(source, seps, read)
  {
    df := FirstNonEmpty(Encodings, seps, Reader(source, read));
  }
}
