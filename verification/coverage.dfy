/** Sweep windows over time: which transfers no sequence of sweeps can miss. Times are
    reals; a run lists its window at some moments between its start and its log entry. */
module Coverage {
  import opened Domain

  /** One run: its window is [from, start); `ranAt` is the database time of its log entry;
      `ok` says that it was logged without an error. */
  datatype Sweep = Sweep(start: real, ranAt: real, from: real, ok: bool)

  predicate InSequence(log: seq<Sweep>) {
    && (forall k :: 0 <= k < |log| ==> log[k].start < log[k].ranAt)
    && (forall j, k :: 0 <= j < k < |log| ==> log[j].ranAt <= log[k].start)
  }

  /** The latest of the first n log entries without an error. */
  function LastSuccess(log: seq<Sweep>, n: nat): (r: Option<nat>)
    requires n <= |log|
    ensures r.Some? ==> r.value < n && log[r.value].ok && forall j :: r.value < j < n ==> !log[j].ok
    ensures r.None? ==> forall j :: 0 <= j < n ==> !log[j].ok
  {
    if n == 0 then None
    else if log[n - 1].ok then Some(n - 1)
    else LastSuccess(log, n - 1)
  }

  function LastSweepTime(log: seq<Sweep>, n: nat): Option<real>
    requires n <= |log|
  {
    var k := LastSuccess(log, n);
    if k.None? then None else Some(log[k.value].ranAt)
  }

  /** In a serialized log the last success has the greatest time of all successes, which
      is what the ordered query asks for. */
  lemma LastSweepTimeIsGreatest(log: seq<Sweep>, n: nat, j: nat)
    requires InSequence(log) && j < n <= |log| && log[j].ok
    ensures LastSweepTime(log, n).Some? && log[j].ranAt <= LastSweepTime(log, n).value
  {
    var k := LastSuccess(log, n).value;
    if j < k { assert log[j].ranAt <= log[k].start < log[k].ranAt; }
  }

  function WindowFrom(last: Option<real>, now: real, interval: real, overlap: real): real {
    if last.None? then now - (interval + overlap) else last.value - overlap
  }

  predicate HasDefaultWindow(log: seq<Sweep>, k: nat, interval: real, overlap: real)
    requires k < |log|
  {
    log[k].from == WindowFrom(LastSweepTime(log, k), log[k].start, interval, overlap)
  }

  predicate DefaultWindows(log: seq<Sweep>, interval: real, overlap: real) {
    forall k :: 0 <= k < |log| ==> HasDefaultWindow(log, k, interval, overlap)
  }

  /** A transfer that occurred at t and became visible at v cannot escape this run. */
  predicate Sees(r: Sweep, t: real, v: real) { r.ok && r.from <= t < r.start && v <= r.start }

  /** Between the first success f and the success l, with visibility delay at most d. */
  predicate InSpan(log: seq<Sweep>, f: nat, l: nat, d: real, t: real, v: real)
    requires f <= l < |log|
  {
    log[f].from <= t < log[l].start && t <= v <= t + d && v <= log[l].start
  }

  ghost predicate Seen(log: seq<Sweep>, t: real, v: real) {
    exists k :: 0 <= k < |log| && Sees(log[k], t, v)
  }

  /** Each successful run after the first reaches back to where the success before it
      could still have missed something. */
  predicate Overlapping(log: seq<Sweep>, f: nat, l: nat, d: real)
    requires f <= l < |log|
  {
    forall k :: f < k <= l && log[k].ok ==>
      LastSuccess(log, k).Some? && log[k].from <= log[LastSuccess(log, k).value].start - d
  }

  /** If windows overlap so, whatever their origin, every transfer of the span is seen. */
  lemma {:induction false} OverlappingWindowsCover(log: seq<Sweep>, f: nat, l: nat, d: real, t: real, v: real)
    requires InSequence(log) && f <= l < |log| && log[f].ok && log[l].ok
    requires Overlapping(log, f, l, d) && InSpan(log, f, l, d, t, v)
    ensures Seen(log, t, v)
    decreases l
  {
    if log[l].from <= t {
      assert Sees(log[l], t, v);
    } else {
      assert f < l;
      var p := LastSuccess(log, l).value;
      assert v <= log[p].start && t < log[p].start;
      OverlappingWindowsCover(log, f, p, d, t, v);
    }
  }

  /** Every successful run but the last is short enough for the overlap to absorb its
      duration and the visibility delay. */
  predicate ShortRuns(log: seq<Sweep>, f: nat, l: nat, overlap: real, d: real)
    requires f <= l < |log|
  {
    forall k :: f <= k < l && log[k].ok ==> log[k].ranAt - log[k].start + d <= overlap
  }

  lemma ShortRunsOverlap(log: seq<Sweep>, f: nat, l: nat, interval: real, overlap: real, d: real)
    requires InSequence(log) && DefaultWindows(log, interval, overlap) && f <= l < |log| && log[f].ok
    requires ShortRuns(log, f, l, overlap, d)
    ensures Overlapping(log, f, l, d)
  {
    forall k | f < k <= l && log[k].ok
      ensures LastSuccess(log, k).Some? && log[k].from <= log[LastSuccess(log, k).value].start - d
    {
      assert HasDefaultWindow(log, k, interval, overlap);
      var p := LastSuccess(log, k).value;
      assert f <= p;
    }
  }

  /** A run that outlasts the overlap leaves a moment that no run is bound to see: the run
      itself looked too early, and every later window starts too late. */
  lemma LongRunLosesATransfer(log: seq<Sweep>, f: nat, l: nat, k: nat, interval: real, overlap: real, d: real)
    returns (t: real, v: real)
    requires InSequence(log) && DefaultWindows(log, interval, overlap)
    requires interval > 0.0 && overlap >= 0.0 && d >= 0.0
    requires f <= k < l < |log| && log[f].ok && log[k].ok && LastSuccess(log, f).None?
    requires log[k].ranAt - log[k].start + d > overlap
    ensures InSpan(log, f, l, d, t, v) && !Seen(log, t, v)
  {
    hide Seen, LastSuccess, DefaultWindows, InSequence;
    FirstWindow(log, f, k, l, interval, overlap);
    t, v := EscapingMoment(log[f].from, log[k].start, log[k].ranAt - overlap, log[l].start, d);
    Escapes(log, k, interval, overlap, t, v);
  }

  lemma FirstWindow(log: seq<Sweep>, f: nat, k: nat, l: nat, interval: real, overlap: real)
    requires InSequence(log) && DefaultWindows(log, interval, overlap) && interval > 0.0
    requires f <= k < l < |log| && LastSuccess(log, f).None?
    ensures log[f].from < log[k].start - overlap && log[k].start < log[k].ranAt <= log[l].start
  {
    assert HasDefaultWindow(log, f, interval, overlap);
    if f < k { assert log[f].ranAt <= log[k].start; }
  }

  lemma Escapes(log: seq<Sweep>, k: nat, interval: real, overlap: real, t: real, v: real)
    requires InSequence(log) && DefaultWindows(log, interval, overlap) && k < |log| && log[k].ok
    requires t < log[k].ranAt - overlap && (t >= log[k].start || v > log[k].start)
    ensures !Seen(log, t, v)
  {
    forall j | 0 <= j < |log| ensures !Sees(log[j], t, v) {
      if j < k {
        assert log[j].ranAt <= log[k].start;
      } else if j > k {
        LaterWindowsStartLater(log, k, j, interval, overlap);
      }
    }
  }

  /** The moment itself: inside the span, too late for runs that started by `start` to be bound
      to see it, and before `upper`, where every window that follows starts. */
  lemma EscapingMoment(spanFrom: real, start: real, upper: real, spanTo: real, d: real) returns (t: real, v: real)
    requires spanFrom < upper <= spanTo && start < spanTo && start - d < upper && d >= 0.0
    ensures spanFrom <= t < spanTo && t <= v <= t + d && v <= spanTo
    ensures t < upper && (t >= start || v > start)
  {
    var lo := if start - d > spanFrom then start - d else spanFrom;
    t := (lo + upper) / 2.0;
    var latest := if t + d < spanTo then t + d else spanTo;
    v := if t >= start then t else (start + latest) / 2.0;
  }

  lemma LaterWindowsStartLater(log: seq<Sweep>, k: nat, j: nat, interval: real, overlap: real)
    requires InSequence(log) && DefaultWindows(log, interval, overlap) && k < j < |log| && log[k].ok
    ensures log[j].from >= log[k].ranAt - overlap
  {
    assert HasDefaultWindow(log, j, interval, overlap);
    LastSweepTimeIsGreatest(log, j, k);
  }

  ghost predicate SpanCovered(log: seq<Sweep>, f: nat, l: nat, d: real)
    requires f <= l < |log|
  {
    forall t, v :: InSpan(log, f, l, d, t, v) ==> Seen(log, t, v)
  }

  /** Serialized default-window sweeps see every transfer of the covered span, however many
      runs failed in between, if and only if every successful run but the last has duration
      plus visibility delay at most the overlap. */
  lemma SpanCoveredIff(log: seq<Sweep>, f: nat, l: nat, interval: real, overlap: real, d: real)
    requires InSequence(log) && DefaultWindows(log, interval, overlap)
    requires interval > 0.0 && overlap >= 0.0 && d >= 0.0
    requires f <= l < |log| && log[f].ok && log[l].ok && LastSuccess(log, f).None?
    ensures SpanCovered(log, f, l, d) <==> ShortRuns(log, f, l, overlap, d)
  {
    if ShortRuns(log, f, l, overlap, d) {
      ShortRunsOverlap(log, f, l, interval, overlap, d);
      forall t, v | InSpan(log, f, l, d, t, v) ensures Seen(log, t, v) {
        OverlappingWindowsCover(log, f, l, d, t, v);
      }
    } else {
      var k :| f <= k < l && log[k].ok && log[k].ranAt - log[k].start + d > overlap;
      var t, v := LongRunLosesATransfer(log, f, l, k, interval, overlap, d);
    }
  }

  // ── A swallowed read error ────────────────────────────────────────────────

  lemma {:induction false} LastSuccessOfPrefix(log: seq<Sweep>, r: Sweep, n: nat)
    requires n <= |log|
    ensures LastSuccess(log + [r], n) == LastSuccess(log, n)
  {
    if n != 0 { LastSuccessOfPrefix(log, r, n - 1); }
  }

  /** The query's error is read as "never swept". This is a run that succeeded, whose window was computed after its read of the last sweep time had
      failed, and before which all went well. */
  predicate AfterSwallowedError(log: seq<Sweep>, r: Sweep, f: nat, interval: real, overlap: real, d: real) {
    && InSequence(log + [r]) && DefaultWindows(log, interval, overlap)
    && interval > 0.0 && overlap >= 0.0 && d >= 0.0
    && f < |log| && log[f].ok && LastSuccess(log, f).None? && ShortRuns(log + [r], f, |log|, overlap, d)
    && r.ok && r.from == WindowFrom(None, r.start, interval, overlap)
  }

  /** Everything of the span is seen if and only if this window still reaches back to the start
      of the last success, less the visibility delay. */
  lemma SwallowedReadLosesIff(log: seq<Sweep>, r: Sweep, f: nat, interval: real, overlap: real, d: real)
    requires AfterSwallowedError(log, r, f, interval, overlap, d)
    ensures LastSuccess(log, |log|).Some?
    ensures SpanCovered(log + [r], f, |log|, d) <==> r.from <= log[LastSuccess(log, |log|).value].start - d
  {
    hide Seen, DefaultWindows, ShortRuns, LastSuccess, InSequence;
    if r.from <= log[LastSuccess(log, |log|).value].start - d {
      SwallowedReadOverlaps(log, r, f, interval, overlap, d);
      forall t, v | InSpan(log + [r], f, |log|, d, t, v) ensures Seen(log + [r], t, v) {
        OverlappingWindowsCover(log + [r], f, |log|, d, t, v);
      }
    } else {
      var t, v := SwallowedReadLoses(log, r, f, interval, overlap, d);
    }
  }

  lemma SwallowedReadOverlaps(log: seq<Sweep>, r: Sweep, f: nat, interval: real, overlap: real, d: real)
    requires AfterSwallowedError(log, r, f, interval, overlap, d)
    requires r.from <= log[LastSuccess(log, |log|).value].start - d
    ensures Overlapping(log + [r], f, |log|, d)
  {
    hide InSequence;
    var all := log + [r];
    forall j | f < j <= |log| && all[j].ok
      ensures LastSuccess(all, j).Some? && all[j].from <= all[LastSuccess(all, j).value].start - d
    {
      LastSuccessOfPrefix(log, r, j);
      if j < |log| { DefaultWindowOverlaps(log, r, f, j, interval, overlap, d); }
    }
  }

  lemma DefaultWindowOverlaps(
    log: seq<Sweep>, r: Sweep, f: nat, j: nat, interval: real, overlap: real, d: real)
    requires DefaultWindows(log, interval, overlap) && f < j < |log| && log[f].ok && log[j].ok
    requires ShortRuns(log + [r], f, |log|, overlap, d)
    ensures LastSuccess(log, j).Some? && log[j].from <= log[LastSuccess(log, j).value].start - d
  {
    assert HasDefaultWindow(log, j, interval, overlap);
    var p := LastSuccess(log, j).value;
    assert (log + [r])[p] == log[p];
  }

  lemma SwallowedReadLoses(log: seq<Sweep>, r: Sweep, f: nat, interval: real, overlap: real, d: real)
    returns (t: real, v: real)
    requires AfterSwallowedError(log, r, f, interval, overlap, d)
    requires r.from > log[LastSuccess(log, |log|).value].start - d
    ensures InSpan(log + [r], f, |log|, d, t, v) && !Seen(log + [r], t, v)
  {
    var all, k := log + [r], LastSuccess(log, |log|).value;
    assert all[|log|] == r && all[f] == log[f] && all[k] == log[k];
    assert HasDefaultWindow(log, f, interval, overlap);
    assert all[f].ranAt <= r.start && all[k].ranAt <= r.start;
    t, v := EscapingMoment(log[f].from, log[k].start, r.from, r.start, d);
    forall j | 0 <= j < |all| ensures !Sees(all[j], t, v) {
      if j < k { assert all[j].ranAt <= all[k].start; }
    }
  }

  // ── The run log ───────────────────────────────────────────────────────────

  /** The time is the greatest of a successful run, or there is no such run. */
  ghost predicate IsLastTime(runs: seq<Sweep>, t: Option<real>) {
    && (t.None? <==> forall r <- runs :: !r.ok)
    && (t.Some? ==> (exists r <- runs :: r.ok && r.ranAt == t.value)
                    && forall r <- runs :: r.ok ==> r.ranAt <= t.value)
  }

  /** The table of sweep runs, one row per run. */
  class SweepLog {
    var runs: seq<Sweep>

    constructor ()
      ensures runs == []
    {
      runs := [];
    }

    /** Logs a run. A successful one sets the last sweep time; a failed one leaves it. */
    method CreateSweepRun(run: Sweep)
      modifies this
      ensures runs == old(runs) + [run]
      ensures LastSweepTime(runs, |runs|) == if run.ok then Some(run.ranAt) else LastSweepTime(old(runs), |old(runs)|)
    {
      LastSuccessOfPrefix(runs, run, |runs|);
      runs := runs + [run];
    }

    /** The greatest time among the runs without an error. */
    method GetLastSweepTime() returns (t: Option<real>)
      ensures IsLastTime(runs, t)
      ensures InSequence(runs) ==> t == LastSweepTime(runs, |runs|)
    {
      t := None;
      for i := 0 to |runs|
        invariant t.None? <==> forall j :: 0 <= j < i ==> !runs[j].ok
        invariant t.Some? ==> (exists j :: 0 <= j < i && runs[j].ok && runs[j].ranAt == t.value)
                              && forall j :: 0 <= j < i && runs[j].ok ==> runs[j].ranAt <= t.value
      {
        if runs[i].ok && (t.None? || t.value < runs[i].ranAt) { t := Some(runs[i].ranAt); }
      }
      if t.Some? && InSequence(runs) {
        var j :| 0 <= j < |runs| && runs[j].ok && runs[j].ranAt == t.value;
        LastSweepTimeIsGreatest(runs, |runs|, j);
        assert runs[LastSuccess(runs, |runs|).value].ranAt <= t.value;
      }
    }

    method ComputeWindowFrom(now: real, interval: real, overlap: real) returns (from: real)
      ensures exists t :: IsLastTime(runs, t) && from == WindowFrom(t, now, interval, overlap)
      ensures InSequence(runs) ==> from == WindowFrom(LastSweepTime(runs, |runs|), now, interval, overlap)
      ensures (forall r <- runs :: !r.ok) ==> from == now - interval - overlap
      ensures forall r <- runs :: r.ok && (forall q <- runs :: q.ok ==> q.ranAt <= r.ranAt) ==> from == r.ranAt - overlap
    {
      var last := GetLastSweepTime();
      from := if last.None? then now - (interval + overlap) else last.value - overlap;
    }

    /** One default-window run, from its window to its row: logs that start like this one are
        what `SpanCoveredIff` speaks of. */
    method LogDefaultRun(start: real, ranAt: real, ok: bool, interval: real, overlap: real)
      requires InSequence(runs) && DefaultWindows(runs, interval, overlap)
      requires start < ranAt && (runs != [] ==> runs[|runs| - 1].ranAt <= start)
      modifies this
      ensures InSequence(runs) && DefaultWindows(runs, interval, overlap)
      ensures |runs| == |old(runs)| + 1 && runs[..|old(runs)|] == old(runs)
      ensures var r := runs[|old(runs)|]; r.start == start && r.ranAt == ranAt && r.ok == ok
    {
      var from := ComputeWindowFrom(start, interval, overlap);
      DefaultRunExtends(runs, Sweep.Sweep(start, ranAt, from, ok), interval, overlap);
      CreateSweepRun(Sweep.Sweep(start, ranAt, from, ok));
    }
  }

  lemma DefaultRunExtends(log: seq<Sweep>, r: Sweep, interval: real, overlap: real)
    requires InSequence(log) && DefaultWindows(log, interval, overlap)
    requires r.start < r.ranAt && (log != [] ==> log[|log| - 1].ranAt <= r.start)
    requires r.from == WindowFrom(LastSweepTime(log, |log|), r.start, interval, overlap)
    ensures InSequence(log + [r]) && DefaultWindows(log + [r], interval, overlap)
  {
    var all := log + [r];
    forall k | 0 <= k < |all| ensures HasDefaultWindow(all, k, interval, overlap) {
      LastSuccessOfPrefix(log, r, k);
      if k < |log| { assert HasDefaultWindow(log, k, interval, overlap); }
    }
    forall j | 0 <= j < |log| ensures log[j].ranAt <= r.start {
      if j < |log| - 1 { assert log[j].ranAt <= log[|log| - 1].start; }
    }
  }
}
