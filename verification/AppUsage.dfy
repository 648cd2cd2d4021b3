/** Application usage sessions: synchronising the open ones with the set of rules
    in use, and the time they add up to. */
module AppUsage {
  import opened Wrappers
  import opened Stretches
  import opened Intervals

  datatype Session = Session(ruleId: string, startedAt: int, lastSeenAt: int, endedAt: Option<int>)

  predicate OpenFor(s: Session, ruleId: string) {
    s.ruleId == ruleId && s.endedAt.None?
  }

  function OpenCount(rows: seq<Session>, ruleId: string): nat {
    if rows == [] then 0
    else OpenCount(rows[..|rows| - 1], ruleId) + if OpenFor(rows[|rows| - 1], ruleId) then 1 else 0
  }

  predicate Superseded(rows: seq<Session>, k: nat)
    requires k < |rows|
  {
    rows[k].endedAt.None? && exists j | k < j < |rows| :: OpenFor(rows[j], rows[k].ruleId)
  }

  /** Every open session of a rule but the newest ends when it was last seen. */
  function Deduped(rows: seq<Session>): (r: seq<Session>)
    ensures |r| == |rows|
  {
    seq(|rows|, k requires 0 <= k < |rows| =>
      if Superseded(rows, k) then rows[k].(endedAt := Some(rows[k].lastSeenAt)) else rows[k])
  }

  function Synced(s: Session, active: set<string>, now: int): Session {
    if s.endedAt.Some? then s
    else if s.ruleId in active then s.(lastSeenAt := now)
    else s.(endedAt := Some(now), lastSeenAt := now)
  }

  /** The sessions a sync opens: one for each active rule without an open session,
      in whatever order the hash set yields them. */
  ghost predicate Opened(rows: seq<Session>, before: seq<Session>, active: set<string>, now: int) {
    && (forall k | 0 <= k < |rows| :: rows[k] == Session(rows[k].ruleId, now, now, None))
    && (forall r :: OpenCount(rows, r) == if r in active && OpenCount(before, r) == 0 then 1 else 0)
  }

  ghost predicate SyncedTable(before: seq<Session>, after: seq<Session>, active: set<string>, now: int) {
    var d := Deduped(before);
    && |d| <= |after|
    && (forall k | 0 <= k < |d| :: after[k] == Synced(d[k], active, now))
    && Opened(after[|d|..], d, active, now)
  }

  lemma {:induction false} OneMoreOpen(rows: seq<Session>, ruleId: string, now: int, r: string)
    ensures OpenCount(rows + [Session(ruleId, now, now, None)], r)
            == OpenCount(rows, r) + if r == ruleId then 1 else 0
  {
    assert (rows + [Session(ruleId, now, now, None)])[..|rows|] == rows;
  }

  class UsageTable {
    var rows: seq<Session>

    constructor ()
      ensures rows == []
    {
      rows := [];
    }

    method CloseDuplicates()
      modifies this
      ensures rows == Deduped(old(rows))
    {
      var before := rows;
      for k := 0 to |before|
        invariant |rows| == |before|
        invariant forall j | 0 <= j < k :: rows[j] == Deduped(before)[j]
        invariant forall j | k <= j < |before| :: rows[j] == before[j]
      {
        if Superseded(before, k) {
          rows := rows[k := rows[k].(endedAt := Some(rows[k].lastSeenAt))];
        }
      }
    }

    method OpenRuleIds() returns (ids: set<string>)
      ensures forall r :: r in ids <==> OpenCount(rows, r) > 0
    {
      ids := {};
      for k := 0 to |rows|
        invariant forall r :: r in ids <==> OpenCount(rows[..k], r) > 0
      {
        assert rows[..k + 1][..k] == rows[..k];
        if rows[k].endedAt.None? {
          ids := ids + {rows[k].ruleId};
        }
      }
      assert rows[..|rows|] == rows;
    }

    method TouchOpen(ruleId: string, now: int)
      modifies this
      ensures |rows| == |old(rows)|
      ensures forall k | 0 <= k < |rows| ::
                rows[k] == if OpenFor(old(rows)[k], ruleId) then old(rows)[k].(lastSeenAt := now) else old(rows)[k]
    {
      for k := 0 to |rows|
        invariant |rows| == |old(rows)|
        invariant forall j | 0 <= j < k ::
                    rows[j] == if OpenFor(old(rows)[j], ruleId) then old(rows)[j].(lastSeenAt := now) else old(rows)[j]
        invariant forall j | k <= j < |rows| :: rows[j] == old(rows)[j]
      {
        if OpenFor(rows[k], ruleId) {
          rows := rows[k := rows[k].(lastSeenAt := now)];
        }
      }
    }

    method EndOpen(ruleId: string, now: int)
      modifies this
      ensures |rows| == |old(rows)|
      ensures forall k | 0 <= k < |rows| ::
                rows[k] == if OpenFor(old(rows)[k], ruleId)
                           then old(rows)[k].(endedAt := Some(now), lastSeenAt := now) else old(rows)[k]
    {
      for k := 0 to |rows|
        invariant |rows| == |old(rows)|
        invariant forall j | 0 <= j < k ::
                    rows[j] == if OpenFor(old(rows)[j], ruleId)
                               then old(rows)[j].(endedAt := Some(now), lastSeenAt := now) else old(rows)[j]
        invariant forall j | k <= j < |rows| :: rows[j] == old(rows)[j]
      {
        if OpenFor(rows[k], ruleId) {
          rows := rows[k := rows[k].(endedAt := Some(now), lastSeenAt := now)];
        }
      }
    }

    /** Touch the open sessions of active rules and start the missing ones. */
    method StartActive(active: set<string>, open: set<string>, now: int)
      modifies this
      ensures |old(rows)| <= |rows|
      ensures forall k | 0 <= k < |old(rows)| ::
                rows[k] == if old(rows)[k].endedAt.None? && old(rows)[k].ruleId in active * open
                           then old(rows)[k].(lastSeenAt := now) else old(rows)[k]
      ensures forall k | |old(rows)| <= k < |rows| ::
                rows[k] == Session(rows[k].ruleId, now, now, None) && rows[k].ruleId !in open
      ensures forall r :: OpenCount(rows[|old(rows)|..], r) == if r in active && r !in open then 1 else 0
    {
      ghost var d := rows;
      var todo := active;
      assert forall r :: OpenCount(rows[|d|..], r) == 0;
      hide OpenCount, OpenFor;
      while todo != {}
        invariant todo <= active && |d| <= |rows|
        invariant forall k | 0 <= k < |d| ::
                    rows[k] == if d[k].endedAt.None? && d[k].ruleId in (active - todo) * open
                               then d[k].(lastSeenAt := now) else d[k]
        invariant forall k | |d| <= k < |rows| ::
                    rows[k] == Session(rows[k].ruleId, now, now, None) && rows[k].ruleId !in open
        invariant forall r :: OpenCount(rows[|d|..], r) == if r in active - todo && r !in open then 1 else 0
      {
        var ruleId :| ruleId in todo;
        ghost var was := rows[|d|..];
        if ruleId in open {
          TouchOpen(ruleId, now);
          assert rows[|d|..] == was;
        } else {
          rows := rows + [Session(ruleId, now, now, None)];
          assert rows[|d|..] == was + [Session(ruleId, now, now, None)];
          forall r ensures OpenCount(rows[|d|..], r) == OpenCount(was, r) + if r == ruleId then 1 else 0 {
            OneMoreOpen(was, ruleId, now, r);
          }
        }
        todo := todo - {ruleId};
      }
    }

    /** End the open sessions of rules that are no longer active. */
    method EndInactive(active: set<string>, open: set<string>, now: int)
      modifies this
      ensures |rows| == |old(rows)|
      ensures forall k | 0 <= k < |rows| ::
                rows[k] == if old(rows)[k].endedAt.None? && old(rows)[k].ruleId in open - active
                           then old(rows)[k].(endedAt := Some(now), lastSeenAt := now) else old(rows)[k]
    {
      var ending := open;
      while ending != {}
        invariant ending <= open && |rows| == |old(rows)|
        invariant forall k | 0 <= k < |rows| ::
                    rows[k] == if old(rows)[k].endedAt.None? && old(rows)[k].ruleId in (open - ending) - active
                               then old(rows)[k].(endedAt := Some(now), lastSeenAt := now) else old(rows)[k]
      {
        var ruleId :| ruleId in ending;
        if ruleId !in active {
          EndOpen(ruleId, now);
        }
        ending := ending - {ruleId};
      }
    }

    method Sync(active: set<string>, now: int)
      modifies this
      ensures SyncedTable(old(rows), rows, active, now)
    {
      CloseDuplicates();
      ghost var d := rows;
      var open := OpenRuleIds();
      StartActive(active, open, now);
      ghost var started := rows;
      EndInactive(active, open, now);
      hide OpenCount;
      assert rows[|d|..] == started[|d|..];
      forall k | 0 <= k < |d| ensures rows[k] == Synced(d[k], active, now) {
        if d[k].endedAt.None? {
          OpenAt(d, k);
        }
      }
    }

    method UsedSecondsBetween(ruleId: string, periodStart: int, periodEnd: int, now: int) returns (used: nat)
      ensures used == UsedSeconds(rows, ruleId, periodStart, periodEnd, now)
    {
      used := 0;
      for k := 0 to |rows|
        invariant used == UsedSeconds(rows[..k], ruleId, periodStart, periodEnd, now)
      {
        assert rows[..k + 1][..k] == rows[..k];
        var s := rows[k];
        var ended := if s.endedAt.Some? then s.endedAt.value else now;
        if s.ruleId == ruleId && s.startedAt < periodEnd && ended > periodStart {
          var lo, hi := Max(s.startedAt, periodStart), Min(Min(ended, now), periodEnd);
          if hi > lo {
            used := used + Secs(hi - lo);
          }
        }
      }
      assert rows[..|rows|] == rows;
    }
  }

  lemma {:induction false} OpenAt(rows: seq<Session>, k: nat)
    requires k < |rows| && rows[k].endedAt.None?
    ensures OpenCount(rows, rows[k].ruleId) > 0
  {
    if k < |rows| - 1 {
      OpenAt(rows[..|rows| - 1], k);
    }
  }

  // ------------------------------------------------------------- open sessions

  lemma {:induction false} OpenCountConcat(xs: seq<Session>, ys: seq<Session>, r: string)
    ensures OpenCount(xs + ys, r) == OpenCount(xs, r) + OpenCount(ys, r)
  {
    if ys == [] {
      assert xs + ys == xs;
    } else {
      assert (xs + ys)[..|xs + ys| - 1] == xs + ys[..|ys| - 1];
      OpenCountConcat(xs, ys[..|ys| - 1], r);
    }
  }

  lemma {:induction false} NoneOpenFrom(rows: seq<Session>, r: string)
    requires forall k | 0 <= k < |rows| :: !OpenFor(rows[k], r)
    ensures OpenCount(rows, r) == 0
  {
    if rows != [] {
      NoneOpenFrom(rows[..|rows| - 1], r);
    }
  }

  /** At most the newest open session of a rule survives. */
  lemma {:induction false} DedupedLeavesOne(rows: seq<Session>, n: nat, r: string)
    requires n <= |rows|
    ensures OpenCount(Deduped(rows)[..n], r) <= 1
    ensures OpenCount(Deduped(rows)[..n], r) == 1 ==> forall j | n <= j < |rows| :: !OpenFor(rows[j], r)
  {
    if n > 0 {
      DedupedLeavesOne(rows, n - 1, r);
      assert Deduped(rows)[..n][..n - 1] == Deduped(rows)[..n - 1];
    }
  }

  lemma {:induction false} SyncedOpenCount(d: seq<Session>, kept: seq<Session>, active: set<string>, now: int,
        r: string)
    requires |kept| == |d| && forall k | 0 <= k < |d| :: kept[k] == Synced(d[k], active, now)
    ensures OpenCount(kept, r) == if r in active then OpenCount(d, r) else 0
  {
    if d != [] {
      SyncedOpenCount(d[..|d| - 1], kept[..|d| - 1], active, now, r);
    }
  }

  /** After a sync of any table, each active rule has exactly one open session and
      every other rule has none. */
  lemma {:induction false} OneOpenSessionEach(before: seq<Session>, after: seq<Session>, active: set<string>, now: int,
        r: string)
    requires SyncedTable(before, after, active, now)
    ensures OpenCount(after, r) == if r in active then 1 else 0
  {
    var d := Deduped(before);
    var n := |d|;
    assert after == after[..n] + after[n..];
    OpenCountConcat(after[..n], after[n..], r);
    SyncedOpenCount(d, after[..n], active, now, r);
    DedupedLeavesOne(before, n, r);
    assert d[..n] == d;
  }

  // ------------------------------------------------------------- time accounting

  /** The part of [lo, hi) that falls in the period. */
  function Clip(lo: int, hi: int, periodStart: int, periodEnd: int): nat {
    Max(Min(hi, periodEnd) - Max(lo, periodStart), 0)
  }

  function End(s: Session, now: int): int {
    if s.endedAt.Some? then Min(s.endedAt.value, now) else now
  }

  function SessionTicks(s: Session, ruleId: string, periodStart: int, periodEnd: int, now: int): nat {
    if s.ruleId == ruleId then Clip(s.startedAt, End(s, now), periodStart, periodEnd) else 0
  }

  function UsedSeconds(rows: seq<Session>, ruleId: string, periodStart: int, periodEnd: int, now: int): nat {
    if rows == [] then 0
    else UsedSeconds(rows[..|rows| - 1], ruleId, periodStart, periodEnd, now)
         + Secs(SessionTicks(rows[|rows| - 1], ruleId, periodStart, periodEnd, now))
  }

  ghost function UsedTicks(rows: seq<Session>, ruleId: string, periodStart: int, periodEnd: int, now: int): nat {
    if rows == [] then 0
    else UsedTicks(rows[..|rows| - 1], ruleId, periodStart, periodEnd, now)
         + SessionTicks(rows[|rows| - 1], ruleId, periodStart, periodEnd, now)
  }

  datatype Tick = Tick(active: set<string>, now: int)

  ghost predicate Ordered(history: seq<Tick>) {
    forall i, j | 0 <= i < j < |history| :: history[i].now <= history[j].now
  }

  /** A table reached from the empty one by this history of syncs. */
  ghost predicate Reached(history: seq<Tick>, rows: seq<Session>) {
    if history == [] then rows == []
    else
      var n := |history| - 1;
      exists before :: Reached(history[..n], before) && SyncedTable(before, rows, history[n].active, history[n].now)
  }

  /** The time the rule was in use: each sync where it was active counts until the
      next sync, the last one until `now`. */
  ghost function GapSum(history: seq<Tick>, ruleId: string, periodStart: int, periodEnd: int, now: int): nat {
    if history == [] then 0
    else
      var n := |history| - 1;
      GapSum(history[..n], ruleId, periodStart, periodEnd, history[n].now)
      + if ruleId in history[n].active then Clip(history[n].now, now, periodStart, periodEnd) else 0
  }

  lemma {:induction false} UsedTicksConcat(xs: seq<Session>, ys: seq<Session>, r: string, ps: int, pe: int, now: int)
    ensures UsedTicks(xs + ys, r, ps, pe, now) == UsedTicks(xs, r, ps, pe, now) + UsedTicks(ys, r, ps, pe, now)
  {
    if ys == [] {
      assert xs + ys == xs;
    } else {
      assert (xs + ys)[..|xs + ys| - 1] == xs + ys[..|ys| - 1];
      UsedTicksConcat(xs, ys[..|ys| - 1], r, ps, pe, now);
    }
  }

  /** No session starts or ends after the last sync. */
  ghost predicate UpTo(rows: seq<Session>, t: int) {
    forall k | 0 <= k < |rows| :: rows[k].startedAt <= t && rows[k].lastSeenAt <= t && End(rows[k], t)
        == OwnEnd(rows[k], t)
  }

  function OwnEnd(s: Session, now: int): int {
    if s.endedAt.Some? then s.endedAt.value else now
  }

  lemma {:induction false} KeptTicks(d: seq<Session>, kept: seq<Session>, active: set<string>, t: int, r: string,
        ps: int, pe: int, now: int)
    requires |kept| == |d| && forall k | 0 <= k < |d| :: kept[k] == Synced(d[k], active, t)
    requires t <= now && UpTo(d, t)
    ensures UsedTicks(kept, r, ps, pe, now)
            == UsedTicks(d, r, ps, pe, t) + if r in active then OpenSum(d, r, Clip(t, now, ps, pe)) else 0
  {
    if d != [] {
      var n := |d| - 1;
      KeptTicks(d[..n], kept[..n], active, t, r, ps, pe, now);
      hide UsedTicks;
      SessionGrows(d[n], active, t, r, ps, pe, now);
      UsedTicksLast(d, r, ps, pe, t);
      UsedTicksLast(kept, r, ps, pe, now);
    }
  }

  lemma {:induction false} UsedTicksLast(rows: seq<Session>, r: string, ps: int, pe: int, now: int)
    requires rows != []
    ensures UsedTicks(rows, r, ps, pe, now)
            == UsedTicks(rows[..|rows| - 1], r, ps, pe, now) + SessionTicks(rows[|rows| - 1], r, ps, pe, now)
  {
  }

  /** `x` once for every open session of the rule. */
  ghost function OpenSum(rows: seq<Session>, r: string, x: nat): nat {
    if rows == [] then 0
    else OpenSum(rows[..|rows| - 1], r, x) + if OpenFor(rows[|rows| - 1], r) then x else 0
  }

  lemma {:induction false} OpenSumOnce(rows: seq<Session>, r: string, x: nat)
    requires OpenCount(rows, r) <= 1
    ensures OpenSum(rows, r, x) == if OpenCount(rows, r) == 1 then x else 0
  {
    if rows != [] {
      OpenSumOnce(rows[..|rows| - 1], r, x);
    }
  }

  lemma {:induction false} SessionGrows(s: Session, active: set<string>, t: int, r: string, ps: int, pe: int, now: int)
    requires t <= now && s.startedAt <= t && End(s, t) == OwnEnd(s, t)
    ensures SessionTicks(Synced(s, active, t), r, ps, pe, now)
            == SessionTicks(s, r, ps, pe, t) + if OpenFor(s, r) && r in active then Clip(t, now, ps, pe) else 0
  {
  }

  lemma {:induction false} OpenedTicks(rows: seq<Session>, t: int, r: string, ps: int, pe: int, now: int)
    requires forall k | 0 <= k < |rows| :: rows[k] == Session(rows[k].ruleId, t, t, None)
    ensures UsedTicks(rows, r, ps, pe, now) == OpenSum(rows, r, Clip(t, now, ps, pe))
  {
    if rows != [] {
      OpenedTicks(rows[..|rows| - 1], t, r, ps, pe, now);
    }
  }

  /** One sync moves the account forward by the time since the last one. */
  lemma {:induction false} SyncTicks(before: seq<Session>, after: seq<Session>, active: set<string>, t: int, r: string,
        ps: int, pe: int, now: int)
    requires SyncedTable(before, after, active, t) && Deduped(before) == before && UpTo(before, t) && t <= now
    ensures UsedTicks(after, r, ps, pe, now)
            == UsedTicks(before, r, ps, pe, t) + if r in active then Clip(t, now, ps, pe) else 0
  {
    hide UsedTicks, Clip, Superseded, OpenCount, OpenSum, UpTo;
    var n := |before|;
    var x := Clip(t, now, ps, pe);
    assert after == after[..n] + after[n..];
    UsedTicksConcat(after[..n], after[n..], r, ps, pe, now);
    KeptTicks(before, after[..n], active, t, r, ps, pe, now);
    OpenedTicks(after[n..], t, r, ps, pe, now);
    DedupedLeavesOne(before, n, r);
    assert before[..n] == before;
    OpenSumOnce(before, r, x);
    OpenSumOnce(after[n..], r, x);
  }

  lemma {:induction false} SyncedStaysClean(before: seq<Session>, after: seq<Session>, active: set<string>, t: int)
    requires SyncedTable(before, after, active, t) && Deduped(before) == before && UpTo(before, t)
    ensures Deduped(after) == after && UpTo(after, t)
  {
    forall k: nat | k < |after| ensures !Superseded(after, k) {
      var r := after[k].ruleId;
      OneOpenSessionEach(before, after, active, t, r);
      if Superseded(after, k) {
        var j :| k < j < |after| && OpenFor(after[j], r);
        TwoOpen(after, k, j, r);
      }
    }
    assert forall k | 0 <= k < |after| :: Deduped(after)[k] == after[k];
    forall k | 0 <= k < |after|
      ensures after[k].startedAt <= t && after[k].lastSeenAt <= t && End(after[k], t) == OwnEnd(after[k], t)
    {
      if k >= |before| {
        assert after[k] == after[|before|..][k - |before|];
      }
    }
  }

  lemma {:induction false} TwoOpen(rows: seq<Session>, i: nat, j: nat, r: string)
    requires i < j < |rows| && OpenFor(rows[i], r) && OpenFor(rows[j], r)
    ensures OpenCount(rows, r) >= 2
  {
    if j < |rows| - 1 {
      TwoOpen(rows[..|rows| - 1], i, j, r);
    } else {
      OpenAt(rows[..j], i);
    }
  }

  lemma {:induction false} UpToLater(rows: seq<Session>, t: int, u: int)
    requires UpTo(rows, t) && t <= u
    ensures UpTo(rows, u)
  {
  }

  /** Usage is conserved. After any syncs at nondecreasing times, and read at any
      later time: a rule has one open session if it was in the last active set and
      none otherwise, and its sessions cover, within any period, exactly the gaps
      that follow the syncs where it was active. */
  lemma {:induction false} UsageIsConserved(history: seq<Tick>, rows: seq<Session>, r: string, ps: int, pe: int,
        now: int)
    requires Reached(history, rows) && Ordered(history)
    requires history != [] ==> history[|history| - 1].now <= now
    ensures OpenCount(rows, r) == if history != [] && r in history[|history| - 1].active then 1 else 0
    ensures UsedTicks(rows, r, ps, pe, now) == GapSum(history, r, ps, pe, now)
    ensures Deduped(rows) == rows && UpTo(rows, now)
  {
    hide SyncedTable, Deduped, UsedTicks, UpTo, Clip, OpenCount;
    if history == [] {
      EmptyTable(r, ps, pe, now);
    } else {
      var n := |history| - 1;
      var before :| Reached(history[..n], before) && SyncedTable(before, rows, history[n].active, history[n].now);
      UsageIsConserved(history[..n], before, r, ps, pe, history[n].now);
      OneOpenSessionEach(before, rows, history[n].active, history[n].now, r);
      SyncTicks(before, rows, history[n].active, history[n].now, r, ps, pe, now);
      SyncedStaysClean(before, rows, history[n].active, history[n].now);
      UpToLater(rows, history[n].now, now);
    }
  }

  lemma {:induction false} EmptyTable(r: string, ps: int, pe: int, now: int)
    ensures OpenCount([], r) == 0 && UsedTicks([], r, ps, pe, now) == 0 && Deduped([]) == [] && UpTo([], now)
  {
  }

  /** Reported seconds never exceed the time in use. */
  lemma {:induction false} ReportedSeconds(rows: seq<Session>, r: string, ps: int, pe: int, now: int)
    ensures 1_000_000 * UsedSeconds(rows, r, ps, pe, now) <= UsedTicks(rows, r, ps, pe, now)
    ensures (forall k | 0 <= k < |rows| :: Whole(SessionTicks(rows[k], r, ps, pe, now))) ==>
              1_000_000 * UsedSeconds(rows, r, ps, pe, now) == UsedTicks(rows, r, ps, pe, now)
  {
    if rows != [] {
      ReportedSeconds(rows[..|rows| - 1], r, ps, pe, now);
      hide SessionTicks;
      var ticks := SessionTicks(rows[|rows| - 1], r, ps, pe, now);
      if Whole(ticks) {
        WholeSecs(ticks);
      }
    }
  }

  ghost predicate WholeTimes(rows: seq<Session>) {
    forall k | 0 <= k < |rows| ::
      Whole(rows[k].startedAt) && Whole(rows[k].lastSeenAt) && (rows[k].endedAt.Some? ==> Whole(rows[k].endedAt.value))
  }

  lemma {:induction false} SyncedWhole(before: seq<Session>, after: seq<Session>, active: set<string>, t: int)
    requires SyncedTable(before, after, active, t) && WholeTimes(before) && Whole(t)
    ensures WholeTimes(after)
  {
    hide Whole, OpenCount, Superseded;
    var d := Deduped(before);
    forall k | 0 <= k < |after|
      ensures Whole(after[k].startedAt) && Whole(after[k].lastSeenAt)
              && (after[k].endedAt.Some? ==> Whole(after[k].endedAt.value))
    {
      if k >= |d| {
        assert after[k] == after[|d|..][k - |d|];
      }
    }
  }

  lemma {:induction false} ReachedWhole(history: seq<Tick>, rows: seq<Session>)
    requires Reached(history, rows) && forall k | 0 <= k < |history| :: Whole(history[k].now)
    ensures WholeTimes(rows)
  {
    hide Whole, SyncedTable;
    if history != [] {
      var n := |history| - 1;
      var before :| Reached(history[..n], before) && SyncedTable(before, rows, history[n].active, history[n].now);
      ReachedWhole(history[..n], before);
      SyncedWhole(before, rows, history[n].active, history[n].now);
    }
  }

  lemma {:induction false} WholeDifference(a: int, b: int)
    requires Whole(a) && Whole(b)
    ensures Whole(a - b)
  {
  }

  lemma {:induction false} WholeSession(s: Session, r: string, ps: int, pe: int, now: int)
    requires WholeTimes([s]) && Whole(ps) && Whole(pe) && Whole(now)
    ensures Whole(SessionTicks(s, r, ps, pe, now))
  {
    assert [s][0] == s;
    assert Whole(0);
    hide Whole;
    WholeDifference(Min(End(s, now), pe), Max(s.startedAt, ps));
  }

  /** Conservation in the seconds reported: with whole sync times, period and reading
      time a rule's used seconds are exactly the gaps that follow the syncs where it
      was active; at any times they do not exceed them. */
  lemma {:induction false} ReportedUsageIsConserved(history: seq<Tick>, rows: seq<Session>, r: string, ps: int,
        pe: int, now: int)
    requires Reached(history, rows) && Ordered(history)
    requires history != [] ==> history[|history| - 1].now <= now
    ensures 1_000_000 * UsedSeconds(rows, r, ps, pe, now) <= GapSum(history, r, ps, pe, now)
    ensures Whole(ps) && Whole(pe) && Whole(now) && (forall k | 0 <= k < |history| :: Whole(history[k].now)) ==>
              1_000_000 * UsedSeconds(rows, r, ps, pe, now) == GapSum(history, r, ps, pe, now)
  {
    hide UsedTicks, UsedSeconds, GapSum, Reached, SessionTicks, Whole;
    UsageIsConserved(history, rows, r, ps, pe, now);
    ReportedSeconds(rows, r, ps, pe, now);
    if Whole(ps) && Whole(pe) && Whole(now) && forall k | 0 <= k < |history| :: Whole(history[k].now) {
      ReachedWhole(history, rows);
      forall k | 0 <= k < |rows| ensures Whole(SessionTicks(rows[k], r, ps, pe, now)) {
        assert [rows[k]][0] == rows[k];
        WholeSession(rows[k], r, ps, pe, now);
      }
    }
  }
}
