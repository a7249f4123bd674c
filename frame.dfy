/**
 * The table abstraction the loaders work on, and the candidate search every
 * CSV loader runs: encodings in the outer loop, separators in the inner loop,
 * `df` reassigned by each successful read, and both loops left at the first
 * read that is not empty.
 */
module Frame {
  import opened Strings

  datatype Cell = Missing | Num(x: real) | Text(s: string) | Stamp(t: int)

  /** A data frame: column names and rows of cells. */
  datatype Table = Table(columns: seq<string>, rows: seq<seq<Cell>>)

  /** `df.empty`: true when either axis has length zero. */
  predicate IsEmpty(t: Table)
  {
    |t.rows| == 0 || |t.columns| == 0
  }

  /** What one `pd.read_csv` attempt did: raised, or produced a frame. */
  datatype ReadOutcome = Raised | Loaded(table: Table)

  /** Seconds since the epoch of 2024-01-01 00:00, the start of every synthetic hourly range. */
  const HourlyStart: int := 1704067200

  /** `pd.date_range(start='2024-01-01', periods=n, freq='H')` in epoch seconds. */
  function HourlyRange(n: nat): (r: seq<int>)
    ensures |r| == n
    ensures forall i :: 0 <= i < n ==> r[i] == HourlyStart + 3600 * i
  {
    seq(n, i => HourlyStart + 3600 * i)
  }

  /** The outcomes of one encoding's separator loop. */
  function Row<E>(e: E, seps: seq<char>, read: (E, char) -> ReadOutcome): (r: seq<ReadOutcome>)
    ensures |r| == |seps|
    ensures forall i :: 0 <= i < |seps| ==> r[i] == read(e, seps[i])
  {
    seq(|seps|, i requires 0 <= i < |seps| => read(e, seps[i]))
  }

  /** All outcomes in loop order: encoding after encoding, separators inside. */
  function Attempts<E>(encs: seq<E>, seps: seq<char>, read: (E, char) -> ReadOutcome): (r: seq<ReadOutcome>)
    ensures |r| == |encs| * |seps|
  {
    if encs == [] then [] else Row(encs[0], seps, read) + Attempts(encs[1..], seps, read)
  }

  /** The search after some attempts: still searching with the last frame read, or stopped at a non-empty one. */
  datatype SearchState = Searching(last: Option<Table>) | Found(table: Table)

  function Step(st: SearchState, o: ReadOutcome): SearchState
  {
    match st
    case Found(_) => st
    case Searching(_) =>
      match o
      case Raised => st
      case Loaded(t) => if IsEmpty(t) then Searching(Some(t)) else Found(t)
  }

  function Run(st: SearchState, outs: seq<ReadOutcome>): SearchState
    decreases |outs|
  {
    if outs == [] then st else Run(Step(st, outs[0]), outs[1..])
  }

  /** The `df` the loaders go on with: the first non-empty read, else the last successful one, else None. */
  function SearchResult(outs: seq<ReadOutcome>): Option<Table>
  {
    match Run(Searching(None), outs)
    case Found(t) => Some(t)
    case Searching(last) => last
  }

  lemma {:induction false} RunAppend(st: SearchState, a: seq<ReadOutcome>, b: seq<ReadOutcome>)
    ensures Run(st, a + b) == Run(Run(st, a), b)
    decreases |a|
  {
    if a == [] {
      assert a + b == b;
    } else {
      assert (a + b)[0] == a[0] && (a + b)[1..] == a[1..] + b;
      RunAppend(Step(st, a[0]), a[1..], b);
    }
  }

  lemma {:induction false} RunFound(t: Table, outs: seq<ReadOutcome>)
    ensures Run(Found(t), outs) == Found(t)
    decreases |outs|
  {
    if outs != [] { RunFound(t, outs[1..]); }
  }

  /** The search state the loop variables `found` and `df` stand for. */
  function StateOf(found: bool, df: Option<Table>): SearchState
  {
    if found && df.Some? then Found(df.value) else Searching(df)
  }

  /**
   * The loop itself. `read` gives the outcome of reading with an encoding and a
   * separator; a `Raised` outcome is the `except: continue` branch.
   */
  method FirstNonEmpty<E>(encs: seq<E>, seps: seq<char>, read: (E, char) -> ReadOutcome) returns (df: Option<Table>)
    ensures df == SearchResult(Attempts(encs, seps, read))
  {
    df := None;
    var found := false;
    ghost var st := Searching(None);
    var i := 0;
    while i < |encs|
      invariant 0 <= i <= |encs|
      invariant Run(Searching(None), Attempts(encs, seps, read)) == Run(st, Attempts(encs[i..], seps, read))
      invariant found ==> df.Some?
      invariant st == StateOf(found, df)
    {
      var j := 0;
      ghost var before := st;
      while j < |seps|
        invariant 0 <= j <= |seps|
        invariant st == Run(before, Row(encs[i], seps, read)[..j])
        invariant found ==> df.Some?
        invariant st == StateOf(found, df)
      {
        var o := read(encs[i], seps[j]);
        assert Row(encs[i], seps, read)[..j + 1] == Row(encs[i], seps, read)[..j] + [o];
        RunAppend(before, Row(encs[i], seps, read)[..j], [o]);
        st := Step(st, o);
        if o.Loaded? {
          df := Some(o.table);
          if !IsEmpty(o.table) {
            found := true;
            break;
          }
        }
        j := j + 1;
      }
      assert encs[i..] == [encs[i]] + encs[i + 1..];
      RunAppend(before, Row(encs[i], seps, read)[..j], Row(encs[i], seps, read)[j..]);
      assert Row(encs[i], seps, read) == Row(encs[i], seps, read)[..j] + Row(encs[i], seps, read)[j..];
      RunAppend(before, Row(encs[i], seps, read), Attempts(encs[i + 1..], seps, read));
      if found {
        RunFound(df.value, Row(encs[i], seps, read)[j..]);
        RunFound(df.value, Attempts(encs[i + 1..], seps, read));
        break;
      }
      assert j == |seps| && Row(encs[i], seps, read)[..j] == Row(encs[i], seps, read);
      i := i + 1;
    }
    if !found {
      assert encs[i..] == [];
    }
  }

  /** Two outcomes sequences: the search result is the first non-empty frame read. */
  lemma {:induction false} SearchStopsAtFirstNonEmpty(outs: seq<ReadOutcome>, k: nat, st: SearchState)
    requires k < |outs| && outs[k].Loaded? && !IsEmpty(outs[k].table)
    requires forall i :: 0 <= i < k ==> !(outs[i].Loaded? && !IsEmpty(outs[i].table))
    requires st.Searching?
    ensures Run(st, outs) == Found(outs[k].table)
    decreases k
  {
    if k == 0 {
      RunFound(outs[0].table, outs[1..]);
    } else {
      SearchStopsAtFirstNonEmpty(outs[1..], k - 1, Step(st, outs[0]));
    }
  }

  /** The last frame any attempt produced. */
  function LastLoaded(outs: seq<ReadOutcome>): Option<Table>
  {
    if outs == [] then None
    else match LastLoaded(outs[1..])
      case Some(t) => Some(t)
      case None => if outs[0].Loaded? then Some(outs[0].table) else None
  }

  /** With no non-empty read, the search keeps the last frame read, and None only when every read raised. */
  lemma {:induction false} SearchKeepsLastRead(outs: seq<ReadOutcome>, last: Option<Table>)
    requires forall i :: 0 <= i < |outs| ==> !(outs[i].Loaded? && !IsEmpty(outs[i].table))
    ensures Run(Searching(last), outs) == Searching(if LastLoaded(outs).Some? then LastLoaded(outs) else last)
    ensures LastLoaded(outs).None? <==> forall i :: 0 <= i < |outs| ==> outs[i].Raised?
    decreases |outs|
  {
    if outs != [] {
      SearchKeepsLastRead(outs[1..], Step(Searching(last), outs[0]).last);
      assert forall i :: 1 <= i < |outs| ==> outs[i] == outs[1..][i - 1];
    }
  }

  /** Whatever holds of every frame a read can produce holds of the frame the search keeps. */
  lemma SearchKeeps<E>(encs: seq<E>, seps: seq<char>, read: (E, char) -> ReadOutcome, ok: Table -> bool)
    requires forall e, c :: read(e, c).Loaded? ==> ok(read(e, c).table)
    ensures SearchResult(Attempts(encs, seps, read)).Some? ==> ok(SearchResult(Attempts(encs, seps, read)).value)
  {
    AttemptsKeep(encs, seps, read, ok);
    RunKeeps(Searching(None), Attempts(encs, seps, read), ok);
  }

  lemma {:induction false} AttemptsKeep<E>(encs: seq<E>, seps: seq<char>, read: (E, char) -> ReadOutcome, ok: Table -> bool)
    requires forall e, c :: read(e, c).Loaded? ==> ok(read(e, c).table)
    ensures forall i :: 0 <= i < |Attempts(encs, seps, read)| && Attempts(encs, seps, read)[i].Loaded? ==> ok(Attempts(encs, seps, read)[i].table)
  {
    if encs != [] {
      AttemptsKeep(encs[1..], seps, read, ok);
    }
  }

  lemma {:induction false} RunKeeps(st: SearchState, outs: seq<ReadOutcome>, ok: Table -> bool)
    requires forall i :: 0 <= i < |outs| && outs[i].Loaded? ==> ok(outs[i].table)
    requires match st case Found(t) => ok(t) case Searching(last) => last.Some? ==> ok(last.value)
    ensures match Run(st, outs) case Found(t) => ok(t) case Searching(last) => last.Some? ==> ok(last.value)
    decreases |outs|
  {
    if outs != [] {
      assert forall i :: 0 <= i < |outs[1..]| ==> outs[1..][i] == outs[i + 1];
      RunKeeps(Step(st, outs[0]), outs[1..], ok);
    }
  }

  /** Number of values that are missing (`isna().sum()`). */
  function CountMissing<T>(xs: seq<Option<T>>): (n: nat)
    ensures n <= |xs|
  {
    if xs == [] then 0 else (if xs[0].None? then 1 else 0) + CountMissing(xs[1..])
  }

  /** The present values of `xs`, in order (`dropna`). */
  function Present(xs: seq<Option<int>>): (r: seq<int>)
    ensures |r| == |xs| - CountMissing(xs)
    ensures forall v :: v in r <==> Some(v) in xs
  {
    if xs == [] then []
    else if xs[0].None? then
      assert forall v :: Some(v) in xs <==> Some(v) in xs[1..] by { assert xs == [xs[0]] + xs[1..]; }
      Present(xs[1..])
    else
      assert forall v :: Some(v) in xs <==> v == xs[0].value || Some(v) in xs[1..] by { assert xs == [xs[0]] + xs[1..]; }
      [xs[0].value] + Present(xs[1..])
  }

  /** Indices of the rows whose value is present: the rows `dropna` keeps. */
  function PresentRows<T>(xs: seq<Option<T>>): (r: seq<nat>)
    ensures |r| == |xs| - CountMissing(xs)
  {
    if xs == [] then []
    else
      var rest := PresentRows(xs[1..]);
      var shifted := seq(|rest|, k requires 0 <= k < |rest| => rest[k] + 1);
      if xs[0].None? then shifted else [0] + shifted
  }

  /** Every kept index names a present row, and the kept indices ascend. */
  lemma {:induction false} PresentRowsSound<T>(xs: seq<Option<T>>)
    ensures forall k :: 0 <= k < |PresentRows(xs)| ==> PresentRows(xs)[k] < |xs| && xs[PresentRows(xs)[k]].Some?
    ensures forall k :: 0 < k < |PresentRows(xs)| ==> PresentRows(xs)[k - 1] < PresentRows(xs)[k]
    decreases |xs|
  {
    if xs != [] {
      var tail := xs[1..];
      PresentRowsSound(tail);
      var rest := PresentRows(tail);
      var shifted := seq(|rest|, k requires 0 <= k < |rest| => rest[k] + 1);
      assert PresentRows(xs) == if xs[0].None? then shifted else [0] + shifted;
      forall k | 0 <= k < |rest| ensures shifted[k] < |xs| && xs[shifted[k]].Some? {
        assert tail[rest[k]] == xs[rest[k] + 1];
      }
    }
  }

  /** Every present row is kept: `dropna` drops exactly the missing ones. */
  lemma {:induction false} PresentRowsComplete<T>(xs: seq<Option<T>>, i: nat)
    requires i < |xs| && xs[i].Some?
    ensures i in PresentRows(xs)
    decreases i
  {
    var rest := PresentRows(xs[1..]);
    var shifted := seq(|rest|, k requires 0 <= k < |rest| => rest[k] + 1);
    assert PresentRows(xs) == if xs[0].None? then shifted else [0] + shifted;
    if i > 0 {
      assert xs[1..][i - 1].Some?;
      PresentRowsComplete(xs[1..], i - 1);
      var k :| 0 <= k < |rest| && rest[k] == i - 1;
      assert shifted[k] == i;
    }
  }
}
