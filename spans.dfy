/**
 * The time span summaries the comparison scripts print for a parsed
 * timestamp column: first and last instant, the duration in days as
 * `(max - min).days + 1`, and the most common step between neighbouring rows.
 * Timestamps are seconds; `None` is `NaT`.
 */
module Spans {
  import opened Strings
  import opened Frame
  import OptimizedLoader
  import MissingDataAnalysis

  const SecondsPerDay: int := 86400

  /**
   * `(last - first).days + 1`: `timedelta.days` rounds down, which Dafny's
   * division by a positive number also does.
   */
  function DurationDays(first: int, last: int): (d: int)
  {
    (last - first) / SecondsPerDay + 1
  }

  /** The duration counts the whole days in the span, plus one for the first day. */
  lemma DurationBounds(first: int, last: int)
    ensures (DurationDays(first, last) - 1) * SecondsPerDay <= last - first < DurationDays(first, last) * SecondsPerDay
    ensures first <= last ==> DurationDays(first, last) >= 1
    ensures first <= last && last - first < SecondsPerDay ==> DurationDays(first, last) == 1
  {
  }

  /** `min()` and `max()` of the column, skipping `NaT`; `None` when nothing is left. */
  function TimeRange(ts: seq<Option<int>>): (r: Option<(int, int)>)
    ensures r.None? <==> forall i :: 0 <= i < |ts| ==> ts[i].None?
    ensures r.Some? ==> r.value.0 <= r.value.1
    ensures r.Some? ==> Some(r.value.0) in ts && Some(r.value.1) in ts
    ensures r.Some? ==> forall i :: 0 <= i < |ts| && ts[i].Some? ==> r.value.0 <= ts[i].value <= r.value.1
  {
    var p := Present(ts);
    if p == [] then
      assert forall i :: 0 <= i < |ts| ==> ts[i].None? by {
        forall i | 0 <= i < |ts| ensures ts[i].None? {
          assert ts[i] in ts;
        }
      }
      None
    else
      var lo, hi := OptimizedLoader.MinOf(p), OptimizedLoader.MaxOf(p);
      assert forall i :: 0 <= i < |ts| && ts[i].Some? ==> lo <= ts[i].value <= hi by {
        forall i | 0 <= i < |ts| && ts[i].Some? ensures lo <= ts[i].value <= hi {
          assert ts[i].value in p;
        }
      }
      Some((lo, hi))
  }

  /**
   * `diff().dropna()`: the differences between neighbouring rows, where a
   * row next to `NaT` gives no difference.
   */
  function AdjacentDiffs(ts: seq<Option<int>>): (ds: seq<int>)
    ensures |ds| <= if |ts| == 0 then 0 else |ts| - 1
    ensures forall d :: d in ds <==> exists i :: 1 <= i < |ts| && ts[i - 1].Some? && ts[i].Some? && d == ts[i].value - ts[i - 1].value
  {
    if |ts| < 2 then []
    else
      var init := ts[..|ts| - 1];
      var a, b := ts[|ts| - 2], ts[|ts| - 1];
      assert forall i :: 0 <= i < |init| ==> init[i] == ts[i];
      AdjacentDiffs(init) + (if a.Some? && b.Some? then [b.value - a.value] else [])
  }

  /** `mode()[0]` of the differences; `None` where there is none and indexing raises. */
  function Interval(ts: seq<Option<int>>): (r: Option<int>)
    ensures r.None? <==> AdjacentDiffs(ts) == []
    ensures r.Some? ==> r.value in AdjacentDiffs(ts)
    ensures r.Some? ==> forall c :: c in AdjacentDiffs(ts) ==>
      MissingDataAnalysis.Count(AdjacentDiffs(ts), c) <= MissingDataAnalysis.Count(AdjacentDiffs(ts), r.value)
  {
    var ds := AdjacentDiffs(ts);
    if ds == [] then None else Some(MissingDataAnalysis.Mode(ds))
  }

  /** With two neighbouring timestamps there is an interval, and it is one of their steps. */
  lemma IntervalExists(ts: seq<Option<int>>, i: nat)
    requires 1 <= i < |ts| && ts[i - 1].Some? && ts[i].Some?
    ensures Interval(ts).Some?
  {
    assert ts[i].value - ts[i - 1].value in AdjacentDiffs(ts);
  }

  /** Rows at a regular step `step` have that step as interval. */
  lemma RegularInterval(ts: seq<Option<int>>, step: int)
    requires |ts| >= 2
    requires forall i :: 0 <= i < |ts| ==> ts[i].Some?
    requires forall i :: 1 <= i < |ts| ==> ts[i].value - ts[i - 1].value == step
    ensures Interval(ts) == Some(step)
  {
    IntervalExists(ts, 1);
    var ds := AdjacentDiffs(ts);
    assert forall d :: d in ds ==> d == step;
  }
}
