/** Collecting clipped window intervals and adding up their union.

    The two accounting loops of the repository share these steps: one pushes the
    windows of a date, one sorts intervals by start, joins those that overlap or
    touch, and sums the whole seconds of what remains.
 */
module Intervals {
  import opened Wrappers
  import opened Stretches
  import opened Calendar

  datatype Span = Span(lo: int, hi: int)

  ghost predicate Covers(spans: seq<Span>, t: int) {
    exists s | s in spans :: s.lo <= t < s.hi
  }

  ghost function CoversP(spans: seq<Span>): int -> bool {
    t => Covers(spans, t)
  }

  /** Non-empty and inside [start, end). */
  ghost predicate Clipped(spans: seq<Span>, start: int, end: int) {
    forall s | s in spans :: start <= s.lo < s.hi <= end
  }

  ghost predicate SortedByStart(spans: seq<Span>) {
    forall i, j | 0 <= i < j < |spans| :: spans[i].lo <= spans[j].lo
  }

  function InsertByStart(s: Span, sorted: seq<Span>): (r: seq<Span>)
    requires SortedByStart(sorted)
    ensures SortedByStart(r) && |r| == |sorted| + 1
    ensures forall x :: x in r <==> x == s || x in sorted
  {
    if sorted == [] || s.lo <= sorted[0].lo then [s] + sorted
    else
      var rest := InsertByStart(s, sorted[1..]);
      assert forall x :: x in sorted <==> x == sorted[0] || x in sorted[1..];
      assert forall i | 0 <= i < |rest| :: rest[i] in rest;
      [sorted[0]] + rest
  }

  function SortByStart(spans: seq<Span>): (r: seq<Span>)
    ensures SortedByStart(r) && |r| == |spans|
    ensures forall x :: x in r <==> x in spans
  {
    if spans == [] then []
    else
      assert forall x :: x in spans <==> x == spans[0] || x in spans[1..];
      InsertByStart(spans[0], SortByStart(spans[1..]))
  }

  function Join(cur: Span, next: Span): Span {
    Span(cur.lo, Max(cur.hi, next.hi))
  }

  function Seconds(s: Span): nat {
    Secs(Max(s.hi - s.lo, 0))
  }

  /** What the merging loop still adds from `rest` while `cur` is open. */
  ghost function Merged(cur: Span, rest: seq<Span>): nat
    decreases |rest|
  {
    if rest == [] then Seconds(cur)
    else if rest[0].lo <= cur.hi then Merged(Join(cur, rest[0]), rest[1..])
    else Seconds(cur) + Merged(rest[0], rest[1..])
  }

  /** The merging loop measures the union exactly as if it were scanned instant by
      instant: each longest covered stretch counts its whole seconds, once. */
  method MergedSeconds(intervals: seq<Span>, ghost start: int, ghost end: int) returns (total: nat)
    requires start <= end && Clipped(intervals, start, end)
    ensures total == ActiveSeconds(CoversP(intervals), start, end)
  {
    hide CoversP, Covers, ActiveSeconds, SortedByStart, Join, Seconds;
    var sorted := SortByStart(intervals);
    total := 0;
    var active: Option<Span> := None;
    for i := 0 to |sorted|
      invariant active.None? <==> i == 0
      invariant active.None? ==> total == 0
      invariant active.Some? ==>
                  total + Merged(active.value, sorted[i..]) == Merged(sorted[0], sorted[1..])
    {
      var next := sorted[i];
      match active {
        case Some(cur) =>
          if next.lo <= cur.hi {
            active := Some(Join(cur, next));
          } else {
            total := total + Seconds(cur);
            active := Some(next);
          }
        case None =>
          active := Some(next);
      }
    }
    if active.Some? {
      total := total + Seconds(active.value);
    }
    MergedIsActive(sorted, start, end);
    SameMembersSameCover(sorted, intervals, start, end);
  }

  /** `cur` is the stretch left open after the intervals `seen`, `total` the rest. */
  ghost predicate OpenStretch(seen: seq<Span>, start: int, total: nat, cur: Span) {
    && start <= cur.lo < cur.hi
    && (forall t | cur.lo <= t < cur.hi :: Covers(seen, t))
    && (forall s | s in seen :: s.hi <= cur.hi)
    && Scan(CoversP(seen), start, cur.hi) == (total, cur.hi - cur.lo)
  }

  lemma {:induction false} CoversOneMore(seen: seq<Span>, next: Span)
    ensures forall t :: Covers(seen + [next], t) <==> Covers(seen, t) || next.lo <= t < next.hi
  {
    forall t ensures Covers(seen + [next], t) <==> Covers(seen, t) || next.lo <= t < next.hi {
      assert next in seen + [next];
    }
  }

  lemma {:induction false} OpenFirst(next: Span, start: int)
    requires start <= next.lo < next.hi
    ensures OpenStretch([next], start, 0, next)
  {
    var p := CoversP([next]);
    CoversOneMore([], next);
    assert [] + [next] == [next];
    ScanIdle(p, start, next.lo);
    ScanOn(p, start, next.lo, next.hi);
  }

  /** The next interval only adds instants from the end of the open stretch on. */
  lemma {:induction false} ScanOneMore(seen: seq<Span>, start: int, total: nat, cur: Span, next: Span)
    requires OpenStretch(seen, start, total, cur) && cur.lo <= next.lo
    ensures Scan(CoversP(seen + [next]), start, cur.hi) == (total, cur.hi - cur.lo)
  {
    CoversOneMore(seen, next);
    ScanAgrees(CoversP(seen), CoversP(seen + [next]), start, cur.hi);
  }

  lemma {:induction false} OpenJoin(seen: seq<Span>, start: int, total: nat, cur: Span, next: Span)
    requires OpenStretch(seen, start, total, cur) && cur.lo <= next.lo <= cur.hi && next.lo < next.hi
    ensures OpenStretch(seen + [next], start, total, Join(cur, next))
  {
    ScanOneMore(seen, start, total, cur, next);
    CoversOneMore(seen, next);
    ScanOn(CoversP(seen + [next]), start, cur.hi, Join(cur, next).hi);
  }

  lemma {:induction false} OpenFresh(seen: seq<Span>, start: int, total: nat, cur: Span, next: Span)
    requires OpenStretch(seen, start, total, cur) && cur.hi < next.lo < next.hi
    ensures OpenStretch(seen + [next], start, total + Secs(cur.hi - cur.lo), next)
  {
    ScanOneMore(seen, start, total, cur, next);
    CoversOneMore(seen, next);
    ScanOff(CoversP(seen + [next]), start, cur.hi, next.lo);
    ScanOn(CoversP(seen + [next]), start, next.lo, next.hi);
  }

  lemma {:induction false} MergedFrom(seen: seq<Span>, rest: seq<Span>, start: int, end: int, total: nat, cur: Span)
    requires OpenStretch(seen, start, total, cur) && cur.hi <= end
    requires Clipped(rest, start, end) && SortedByStart(rest)
    requires forall s | s in rest :: cur.lo <= s.lo
    ensures total + Merged(cur, rest) == ActiveSeconds(CoversP(seen + rest), start, end)
    decreases |rest|
  {
    if rest == [] {
      assert seen + rest == seen;
      if cur.hi < end {
        ScanOff(CoversP(seen), start, cur.hi, end);
      }
    } else {
      var next := rest[0];
      assert next in rest;
      assert seen + rest == (seen + [next]) + rest[1..];
      if next.lo <= cur.hi {
        OpenJoin(seen, start, total, cur, next);
        MergedFrom(seen + [next], rest[1..], start, end, total, Join(cur, next));
      } else {
        OpenFresh(seen, start, total, cur, next);
        MergedFrom(seen + [next], rest[1..], start, end, total + Secs(cur.hi - cur.lo), next);
      }
    }
  }

  lemma {:induction false} MergedIsActive(sorted: seq<Span>, start: int, end: int)
    requires start <= end && Clipped(sorted, start, end) && SortedByStart(sorted)
    ensures ActiveSeconds(CoversP(sorted), start, end)
            == if sorted == [] then 0 else Merged(sorted[0], sorted[1..])
  {
    if sorted == [] {
      ScanIdle(CoversP(sorted), start, end);
    } else {
      assert sorted[0] in sorted;
      OpenFirst(sorted[0], start);
      MergedFrom([sorted[0]], sorted[1..], start, end, 0, sorted[0]);
      assert [sorted[0]] + sorted[1..] == sorted;
    }
  }

  lemma {:induction false} SameMembersSameCover(xs: seq<Span>, ys: seq<Span>, start: int, end: int)
    requires forall s :: s in xs <==> s in ys
    ensures ActiveSeconds(CoversP(xs), start, end) == ActiveSeconds(CoversP(ys), start, end)
  {
    ScanAgrees(CoversP(xs), CoversP(ys), start, end);
  }

  function Max(a: int, b: int): int { if a > b then a else b }

  function Min(a: int, b: int): int { if a < b then a else b }

  /** Push the windows that open on `date`, clipped to [start, end); empty clips
      are skipped. */
  method PushWindows(intervals: seq<Span>, windows: seq<Window>, date: int, start: int, end: int)
    returns (pushed: seq<Span>)
    requires Clipped(intervals, start, end)
    ensures Clipped(pushed, start, end)
    ensures forall t | start <= t < end ::
              Covers(pushed, t) <==> Covers(intervals, t) || OnDate(windows, date, t)
  {
    pushed := intervals;
    for k := 0 to |windows|
      invariant Clipped(pushed, start, end)
      invariant forall t | start <= t < end ::
                  Covers(pushed, t) <==> Covers(intervals, t) || OnDate(windows[..k], date, t)
    {
      var w := windows[k];
      assert windows[..k + 1] == windows[..k] + [w];
      ghost var before := pushed;
      if w.weekday.Includes(WeekdayOf(date)) {
        var lo := Max(WindowStart(w, date), start);
        var hi := Min(WindowEnd(w, date), end);
        if hi > lo {
          pushed := pushed + [Span(lo, hi)];
        }
      }
      forall t | start <= t < end
        ensures Covers(pushed, t) <==> Covers(before, t) || InWindow(w, date, t)
      {
        CoversPushed(before, pushed, t);
      }
      forall t ensures OnDate(windows[..k + 1], date, t) <==> OnDate(windows[..k], date, t) || InWindow(w, date, t) {
      }
    }
    assert windows[..|windows|] == windows;
  }

  lemma {:induction false} CoversPushed(before: seq<Span>, after: seq<Span>, t: int)
    requires after == before || (|after| == |before| + 1 && after == before + [after[|before|]])
    ensures after == before ==> (Covers(after, t) <==> Covers(before, t))
    ensures after != before ==>
              (Covers(after, t) <==> Covers(before, t) || after[|before|].lo <= t < after[|before|].hi)
  {
  }
}
