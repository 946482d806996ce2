/**
 * Model of challenge/utils/operations/time_windows_utils.py: turning an ordered
 * list of ISS positions into the list of daylight time windows.
 *
 * The declarative specification: a maximal run of consecutive DAYLIGHT samples
 * covering indices [a, b] of an n-element list gives the window
 * (a == 0 ? None : ts[a], b == n - 1 ? None : ts[b + 1]), and the windows come
 * out in the left-to-right order of their runs. `GetDaylightTimeWindows` is the
 * source's single index pass, proved equal to that specification.
 */
module TimeWindows {
  import opened Wrappers

  datatype Visibility = Daylight | Eclipsed

  /** The only two fields of an IssPosition the segmenter reads. */
  datatype Position = Position(visibility: Visibility, timestamp: int)

  /** A daylight window; `None` marks an edge that touches the edge of the list. */
  datatype Window = Window(start: Option<int>, end: Option<int>)

  /** The inclusive index range [first, last] of a run of samples. */
  datatype Run = Run(first: nat, last: nat)

  // ---------------------------------------------------------------------------
  // Specification
  // ---------------------------------------------------------------------------

  /** `r` is a maximal run of consecutive daylight samples of `ps`. */
  predicate IsMaximalRun(ps: seq<Position>, r: Run)
  {
    && r.first <= r.last < |ps|
    && (forall k :: r.first <= k <= r.last ==> ps[k].visibility == Daylight)
    && (r.first == 0 || ps[r.first - 1].visibility == Eclipsed)
    && (r.last == |ps| - 1 || ps[r.last + 1].visibility == Eclipsed)
  }

  /** Sample `b` is the last sample of a daylight run. */
  predicate EndsRun(ps: seq<Position>, b: nat)
  {
    b < |ps| && ps[b].visibility == Daylight
    && (b == |ps| - 1 || ps[b + 1].visibility == Eclipsed)
  }

  /** The index at which the daylight run containing sample `j` begins. */
  function RunStart(ps: seq<Position>, j: nat): (a: nat)
    requires j < |ps| && ps[j].visibility == Daylight
    ensures a <= j
    ensures forall k :: a <= k <= j ==> ps[k].visibility == Daylight
    ensures a == 0 || ps[a - 1].visibility == Eclipsed
    decreases j
  {
    if j == 0 || ps[j - 1].visibility == Eclipsed then j else RunStart(ps, j - 1)
  }

  /** The maximal daylight runs of `ps` that end before index `k`, left to right. */
  function RunsBefore(ps: seq<Position>, k: nat): (rs: seq<Run>)
    requires k <= |ps|
    ensures forall i :: 0 <= i < |rs| ==> IsMaximalRun(ps, rs[i]) && rs[i].last < k
    ensures forall i :: 0 < i < |rs| ==> rs[i - 1].last + 1 < rs[i].first
    decreases k
  {
    if k == 0 then []
    else if EndsRun(ps, k - 1) then RunsBefore(ps, k - 1) + [Run(RunStart(ps, k - 1), k - 1)]
    else RunsBefore(ps, k - 1)
  }

  /** All maximal daylight runs of `ps`, left to right. */
  function Runs(ps: seq<Position>): seq<Run>
  {
    RunsBefore(ps, |ps|)
  }

  /** The window a run stands for. */
  function WindowOf(ps: seq<Position>, r: Run): Window
    requires r.first <= r.last < |ps|
  {
    Window(if r.first == 0 then None else Some(ps[r.first].timestamp),
           if r.last == |ps| - 1 then None else Some(ps[r.last + 1].timestamp))
  }

  /** The windows of the runs that end before index `k`, in run order. */
  function WindowsBefore(ps: seq<Position>, k: nat): seq<Window>
    requires k <= |ps|
  {
    var rs := RunsBefore(ps, k);
    seq(|rs|, i requires 0 <= i < |rs| => WindowOf(ps, rs[i]))
  }

  /** What `get_daylight_time_windows` is meant to return. */
  function DaylightWindows(ps: seq<Position>): seq<Window>
  {
    WindowsBefore(ps, |ps|)
  }

  // ---------------------------------------------------------------------------
  // The source's algorithm
  // ---------------------------------------------------------------------------

  /**
   * `_append_if_not_none`: appends the window when there is one; a
   * `(None, None)` tuple is a window (only a bare `None` is skipped).
   */
  function AppendIfNotNone(windows: seq<Window>, w: Option<Window>): (r: seq<Window>)
    ensures |r| == |windows| + (if w.Some? then 1 else 0)
    ensures r[..|windows|] == windows
    ensures w.Some? ==> r[|windows|] == w.value
  {
    if w.Some? then windows + [w.value] else windows
  }

  /**
   * `_get_first_daylight_time_window`: the window to emit at index 0, which
   * exists exactly when the first sample is a daylight run of its own.
   */
  function FirstDaylightTimeWindow(ps: seq<Position>): (w: Option<Window>)
    requires |ps| > 0
    ensures w == if EndsRun(ps, 0) then Some(WindowOf(ps, Run(0, 0))) else None
  {
    if ps[0].visibility == Daylight then
      if |ps| - 1 == 0 then Some(Window(None, None))
      else if ps[1].visibility == Eclipsed then Some(Window(None, Some(ps[1].timestamp)))
      else None
    else None
  }

  /**
   * The start the pending-start variable holds when the loop reaches index `i`:
   * the timestamp of the start of the daylight run still open across `i - 1`
   * and `i`, unless that run began at index 0 (or no run is open).
   */
  ghost function PendingStart(ps: seq<Position>, i: nat): Option<int>
    requires i < |ps|
  {
    if 0 < i && ps[i - 1].visibility == Daylight && ps[i].visibility == Daylight
       && RunStart(ps, i - 1) > 0
    then Some(ps[RunStart(ps, i - 1)].timestamp)
    else None
  }

  /**
   * `_get_last_daylight_time_window`: the window to emit at the last index,
   * which exists exactly when the last sample is daylight; given the pending
   * start the loop holds there, it is the window of the trailing run.
   */
  function LastDaylightTimeWindow(ps: seq<Position>, start: Option<int>): (w: Option<Window>)
    requires |ps| > 0
    ensures w.Some? <==> ps[|ps| - 1].visibility == Daylight
    ensures w.Some? ==> w.value.end == None
    ensures start == PendingStart(ps, |ps| - 1) ==>
      w == if EndsRun(ps, |ps| - 1) then Some(WindowOf(ps, Run(RunStart(ps, |ps| - 1), |ps| - 1))) else None
  {
    var i := |ps| - 1;
    // Python's index i - 1 is -1 for a one-element list: the last element
    var previous := if i == 0 then ps[|ps| - 1] else ps[i - 1];
    if ps[i].visibility == Daylight then
      var s := if start.None? && previous.visibility == Eclipsed then Some(ps[i].timestamp) else start;
      Some(Window(s, None))
    else None
  }

  /** Appending the next index to the scanned prefix adds the window of the run ending there, if any. */
  lemma {:induction false} WindowsBeforeStep(ps: seq<Position>, k: nat)
    requires k < |ps|
    ensures WindowsBefore(ps, k + 1) ==
      WindowsBefore(ps, k) + (if EndsRun(ps, k) then [WindowOf(ps, Run(RunStart(ps, k), k))] else [])
  {
    var rs, rs' := RunsBefore(ps, k), RunsBefore(ps, k + 1);
    var ws, ws' := WindowsBefore(ps, k), WindowsBefore(ps, k + 1);
    if EndsRun(ps, k) {
      assert rs' == rs + [Run(RunStart(ps, k), k)];
      assert |ws'| == |ws| + 1;
      forall i | 0 <= i < |ws'|
        ensures ws'[i] == (ws + [WindowOf(ps, Run(RunStart(ps, k), k))])[i]
      {
        if i < |ws| { assert rs'[i] == rs[i]; }
      }
    } else {
      assert rs' == rs;
    }
  }

  /**
   * `get_daylight_time_windows`: one left-to-right pass with a pending start,
   * special handling of the first and last index, returning exactly the
   * windows of the maximal daylight runs in order.
   */
  method GetDaylightTimeWindows(ps: seq<Position>) returns (windows: seq<Window>)
    ensures windows == DaylightWindows(ps)
  {
    var startWindow: Option<int> := None;
    windows := [];
    for i := 0 to |ps|
      invariant windows == WindowsBefore(ps, i)
      invariant i < |ps| ==> startWindow == PendingStart(ps, i)
    {
      WindowsBeforeStep(ps, i);
      if i == 0 {
        windows := AppendIfNotNone(windows, FirstDaylightTimeWindow(ps));
      } else if i == |ps| - 1 {
        windows := AppendIfNotNone(windows, LastDaylightTimeWindow(ps, startWindow));
      } else if ps[i].visibility == Daylight {
        if ps[i - 1].visibility == Eclipsed {
          startWindow := Some(ps[i].timestamp);
        }
        if ps[i + 1].visibility == Eclipsed {
          windows := windows + [Window(startWindow, Some(ps[i + 1].timestamp))];
          startWindow := None;
        }
      }
    }
  }

  // ---------------------------------------------------------------------------
  // Properties of the specification
  // ---------------------------------------------------------------------------

  /** A daylight stretch that starts at a run boundary is found by `RunStart` from any of its samples. */
  lemma {:induction false} RunStartFindsFirst(ps: seq<Position>, a: nat, j: nat)
    requires a <= j < |ps|
    requires forall k :: a <= k <= j ==> ps[k].visibility == Daylight
    requires a == 0 || ps[a - 1].visibility == Eclipsed
    ensures RunStart(ps, j) == a
    decreases j
  {
    if j > a {
      RunStartFindsFirst(ps, a, j - 1);
    }
  }

  /** Every maximal run that ends before `k` is listed by `RunsBefore(ps, k)`. */
  lemma {:induction false} MaximalRunListed(ps: seq<Position>, r: Run, k: nat)
    requires k <= |ps| && IsMaximalRun(ps, r) && r.last < k
    ensures r in RunsBefore(ps, k)
    decreases k
  {
    if r.last == k - 1 {
      RunStartFindsFirst(ps, r.first, r.last);
      assert RunsBefore(ps, k) == RunsBefore(ps, k - 1) + [r];
    } else {
      MaximalRunListed(ps, r, k - 1);
      assert RunsBefore(ps, k - 1) <= RunsBefore(ps, k);
    }
  }

  /** The listed runs are exactly the maximal daylight runs. */
  lemma RunsAreMaximalRuns(ps: seq<Position>, r: Run)
    ensures r in Runs(ps) <==> IsMaximalRun(ps, r)
  {
    if IsMaximalRun(ps, r) {
      MaximalRunListed(ps, r, |ps|);
    }
  }

  /** Runs come in strictly left-to-right order, separated by at least one eclipsed sample. */
  lemma {:induction false} RunsInOrder(ps: seq<Position>, i: nat, j: nat)
    requires i < j < |Runs(ps)|
    ensures Runs(ps)[i].last + 1 < Runs(ps)[j].first
    decreases j - i
  {
    var rs := Runs(ps);
    if i + 1 < j {
      RunsInOrder(ps, i, j - 1);
      assert rs[j - 1].first <= rs[j - 1].last;
    }
  }

  /**
   * Each maximal daylight run gives exactly one window: it sits at exactly one
   * position of the run list, and the window at that position is its window.
   */
  lemma OneWindowPerRun(ps: seq<Position>, r: Run)
    requires IsMaximalRun(ps, r)
    ensures exists i :: 0 <= i < |Runs(ps)| && Runs(ps)[i] == r
    ensures forall i :: 0 <= i < |Runs(ps)| && Runs(ps)[i] == r ==>
      i < |DaylightWindows(ps)| && DaylightWindows(ps)[i] == WindowOf(ps, r)
    ensures forall i, j :: 0 <= i < j < |Runs(ps)| ==> Runs(ps)[i] != Runs(ps)[j]
  {
    RunsAreMaximalRuns(ps, r);
    forall i, j | 0 <= i < j < |Runs(ps)| ensures Runs(ps)[i] != Runs(ps)[j] {
      RunsInOrder(ps, i, j);
    }
  }

  /**
   * The i-th window is the window of the i-th maximal run: its start is `None`
   * exactly when the run begins at index 0 and is otherwise the timestamp of the
   * run's first sample; its end is `None` exactly when the run reaches the last
   * index and is otherwise the timestamp of the eclipsed sample right after it.
   */
  lemma WindowEdges(ps: seq<Position>, i: nat)
    requires i < |DaylightWindows(ps)|
    ensures |DaylightWindows(ps)| == |Runs(ps)|
    ensures var r, w := Runs(ps)[i], DaylightWindows(ps)[i];
      && IsMaximalRun(ps, r)
      && (w.start == None <==> r.first == 0)
      && (w.start != None ==> w.start == Some(ps[r.first].timestamp) && ps[r.first - 1].visibility == Eclipsed)
      && (w.end == None <==> r.last == |ps| - 1)
      && (w.end != None ==> w.end == Some(ps[r.last + 1].timestamp) && ps[r.last + 1].visibility == Eclipsed)
  {
  }

  /** An empty list has no windows. */
  lemma EmptyHasNoWindows()
    ensures DaylightWindows([]) == []
  {
  }

  /** With no daylight sample before index `k` no run ends before `k`. */
  lemma {:induction false} NoDaylightNoRuns(ps: seq<Position>, k: nat)
    requires k <= |ps|
    requires forall j :: 0 <= j < |ps| ==> ps[j].visibility == Eclipsed
    ensures RunsBefore(ps, k) == []
    decreases k
  {
    if k > 0 {
      NoDaylightNoRuns(ps, k - 1);
    }
  }

  /** A list without a daylight sample, of any length, has no windows. */
  lemma NoDaylightNoWindows(ps: seq<Position>)
    requires forall j :: 0 <= j < |ps| ==> ps[j].visibility == Eclipsed
    ensures DaylightWindows(ps) == []
  {
    NoDaylightNoRuns(ps, |ps|);
  }

  /** A non-empty all-daylight list has the single unbounded window `(None, None)`. */
  lemma AllDaylightOneUnboundedWindow(ps: seq<Position>)
    requires |ps| > 0
    requires forall j :: 0 <= j < |ps| ==> ps[j].visibility == Daylight
    ensures DaylightWindows(ps) == [Window(None, None)]
  {
    var r := Run(0, |ps| - 1);
    LeadingRunIsFirst(ps, r);
    TrailingRunIsLast(ps, r);
    assert Runs(ps) == [r];
  }

  /** A maximal run starting at index 0 is the first run. */
  lemma {:induction false} LeadingRunIsFirst(ps: seq<Position>, r: Run)
    requires IsMaximalRun(ps, r) && r.first == 0
    ensures |Runs(ps)| > 0 && Runs(ps)[0] == r
  {
    RunsAreMaximalRuns(ps, r);
    var i :| 0 <= i < |Runs(ps)| && Runs(ps)[i] == r;
    if i > 0 {
      RunsInOrder(ps, 0, i);
    }
  }

  /** A maximal run reaching the last index is the last run. */
  lemma {:induction false} TrailingRunIsLast(ps: seq<Position>, r: Run)
    requires IsMaximalRun(ps, r) && r.last == |ps| - 1
    ensures |Runs(ps)| > 0 && Runs(ps)[|Runs(ps)| - 1] == r
  {
    RunsAreMaximalRuns(ps, r);
    var rs := Runs(ps);
    var i :| 0 <= i < |rs| && rs[i] == r;
    if i < |rs| - 1 {
      RunsInOrder(ps, i, |rs| - 1);
    }
  }

  /**
   * However many daylight samples lead the list, if an eclipsed sample follows
   * them at index `m`, the first window is `(None, ts[m])`.
   */
  lemma LeadingDaylightWindow(ps: seq<Position>, m: nat)
    requires 0 < m < |ps| && ps[m].visibility == Eclipsed
    requires forall j :: 0 <= j < m ==> ps[j].visibility == Daylight
    ensures |DaylightWindows(ps)| > 0
    ensures DaylightWindows(ps)[0] == Window(None, Some(ps[m].timestamp))
  {
    LeadingRunIsFirst(ps, Run(0, m - 1));
  }

  /**
   * However many daylight samples trail the list from index `m` on, if an
   * eclipsed sample precedes them, the last window is `(ts[m], None)`.
   */
  lemma TrailingDaylightWindow(ps: seq<Position>, m: nat)
    requires 0 < m < |ps| && ps[m - 1].visibility == Eclipsed
    requires forall j :: m <= j < |ps| ==> ps[j].visibility == Daylight
    ensures |DaylightWindows(ps)| > 0
    ensures DaylightWindows(ps)[|DaylightWindows(ps)| - 1] == Window(Some(ps[m].timestamp), None)
  {
    TrailingRunIsLast(ps, Run(m, |ps| - 1));
  }

  /**
   * Daylight at indices {2, 3, 4} and {7, 8} of a ten-sample list gives the
   * windows (t2, t5) and (t7, t9).
   */
  lemma TwoInteriorRunsExample(t: seq<int>)
    requires |t| == 10
    ensures DaylightWindows([
        Position(Eclipsed, t[0]), Position(Eclipsed, t[1]), Position(Daylight, t[2]),
        Position(Daylight, t[3]), Position(Daylight, t[4]), Position(Eclipsed, t[5]),
        Position(Eclipsed, t[6]), Position(Daylight, t[7]), Position(Daylight, t[8]),
        Position(Eclipsed, t[9])])
      == [Window(Some(t[2]), Some(t[5])), Window(Some(t[7]), Some(t[9]))]
  {
    var ps := [
        Position(Eclipsed, t[0]), Position(Eclipsed, t[1]), Position(Daylight, t[2]),
        Position(Daylight, t[3]), Position(Daylight, t[4]), Position(Eclipsed, t[5]),
        Position(Eclipsed, t[6]), Position(Daylight, t[7]), Position(Daylight, t[8]),
        Position(Eclipsed, t[9])];
    RunStartFindsFirst(ps, 2, 4);
    RunStartFindsFirst(ps, 7, 8);
    assert RunsBefore(ps, 4) == [];
    assert RunsBefore(ps, 5) == [Run(2, 4)];
    assert RunsBefore(ps, 8) == [Run(2, 4)];
    assert Runs(ps) == [Run(2, 4), Run(7, 8)];
  }

  /**
   * Three leading daylight samples, then an eclipsed sample and an interior
   * daylight run: the leading window still opens with `None`.
   */
  lemma LeadingRunExample(t: seq<int>)
    requires |t| == 9
    ensures DaylightWindows([
        Position(Daylight, t[0]), Position(Daylight, t[1]), Position(Daylight, t[2]),
        Position(Eclipsed, t[3]), Position(Daylight, t[4]), Position(Daylight, t[5]),
        Position(Daylight, t[6]), Position(Eclipsed, t[7]), Position(Eclipsed, t[8])])
      == [Window(None, Some(t[3])), Window(Some(t[4]), Some(t[7]))]
  {
    var ps := [
        Position(Daylight, t[0]), Position(Daylight, t[1]), Position(Daylight, t[2]),
        Position(Eclipsed, t[3]), Position(Daylight, t[4]), Position(Daylight, t[5]),
        Position(Daylight, t[6]), Position(Eclipsed, t[7]), Position(Eclipsed, t[8])];
    RunStartFindsFirst(ps, 0, 2);
    RunStartFindsFirst(ps, 4, 6);
    assert RunsBefore(ps, 2) == [];
    assert RunsBefore(ps, 3) == [Run(0, 2)];
    assert RunsBefore(ps, 6) == [Run(0, 2)];
    assert Runs(ps) == [Run(0, 2), Run(4, 6)];
  }

  /**
   * A trailing daylight run of three samples, two of which share a timestamp:
   * the trailing window still ends with `None`, and the repeated timestamp is
   * accepted as it is.
   */
  lemma TrailingRunDuplicateTimestampExample(t: seq<int>)
    requires |t| == 9
    ensures DaylightWindows([
        Position(Eclipsed, t[0]), Position(Eclipsed, t[1]), Position(Daylight, t[2]),
        Position(Daylight, t[3]), Position(Daylight, t[4]), Position(Eclipsed, t[5]),
        Position(Eclipsed, t[6]), Position(Daylight, t[7]), Position(Daylight, t[7]),
        Position(Daylight, t[8])])
      == [Window(Some(t[2]), Some(t[5])), Window(Some(t[7]), None)]
  {
    var ps := [
        Position(Eclipsed, t[0]), Position(Eclipsed, t[1]), Position(Daylight, t[2]),
        Position(Daylight, t[3]), Position(Daylight, t[4]), Position(Eclipsed, t[5]),
        Position(Eclipsed, t[6]), Position(Daylight, t[7]), Position(Daylight, t[7]),
        Position(Daylight, t[8])];
    RunStartFindsFirst(ps, 2, 4);
    RunStartFindsFirst(ps, 7, 9);
    assert RunsBefore(ps, 4) == [];
    assert RunsBefore(ps, 5) == [Run(2, 4)];
    assert RunsBefore(ps, 9) == [Run(2, 4)];
    assert Runs(ps) == [Run(2, 4), Run(7, 9)];
  }
}
