/** How long a schedule was active: the per-date accounting loop of the database,
    what it measures, and the running totals built on it. */
module Schedules {
  import opened Wrappers
  import opened Stretches
  import opened Calendar
  import opened Intervals

  /** Seconds of each date's own windows, for the dates first..last, within [a, b). */
  ghost function DatedSeconds(windows: seq<Window>, first: int, last: int, a: int, b: int): nat
    decreases last - first
  {
    if last < first then 0
    else DatedSeconds(windows, first, last - 1, a, b) + ActiveSeconds(OnDateP(windows, last), a, b)
  }

  ghost function ScheduleSeconds(windows: seq<Window>, start: int, end: int): nat {
    if end <= start then 0 else DatedSeconds(windows, Date(start) - 1, Date(end), start, end)
  }

  /** The accounting loop. It merges the windows of one date at a time. */
  method ScheduleActiveSecondsBetween(windows: seq<Window>, start: int, end: int) returns (total: nat)
    ensures total == ScheduleSeconds(windows, start, end)
  {
    if end <= start {
      return 0;
    }
    var first := Date(start) - 1;
    var date := first;
    var finalDate := Date(end);
    total := 0;
    while date <= finalDate
      invariant first <= date <= finalDate + 1
      invariant total == DatedSeconds(windows, first, date - 1, start, end)
    {
      var intervals := PushWindows([], windows, date, start, end);
      var merged := MergedSeconds(intervals, start, end);
      ScanAgrees(CoversP(intervals), OnDateP(windows, date), start, end);
      total := total + merged;
      date := date + 1;
    }
  }

  // ---------------------------------------------------- against the true count

  /** Instants reached twice: by a window of their own date and by an overnight
      window of the date before. */
  ghost function TwiceP(windows: seq<Window>): int -> bool {
    t => OnDate(windows, Date(t), t) && OnDate(windows, Date(t) - 1, t)
  }

  ghost function DatedCount(windows: seq<Window>, first: int, last: int, a: int, b: int): nat
    decreases last - first
  {
    if last < first then 0
    else DatedCount(windows, first, last - 1, a, b) + Count(OnDateP(windows, last), a, b)
  }

  ghost function DatesAt(windows: seq<Window>, first: int, last: int, t: int): nat
    decreases last - first
  {
    if last < first then 0
    else DatesAt(windows, first, last - 1, t) + if OnDate(windows, last, t) then 1 else 0
  }

  lemma {:induction false} DatesAtMost2(windows: seq<Window>, first: int, last: int, t: int)
    ensures DatesAt(windows, first, last, t)
            == (if first <= Date(t) <= last && OnDate(windows, Date(t), t) then 1 else 0)
               + (if first <= Date(t) - 1 <= last && OnDate(windows, Date(t) - 1, t) then 1 else 0)
    decreases last - first
  {
    hide OnDate, ScheduleIsActive, Date;
    SchedulePointwise(windows, t);
    if first <= last {
      DatesAtMost2(windows, first, last - 1, t);
    }
  }

  lemma {:induction false} DatedCountStep(windows: seq<Window>, first: int, last: int, a: int, b: int)
    requires a <= b
    ensures DatedCount(windows, first, last, a, b + 1)
            == DatedCount(windows, first, last, a, b) + DatesAt(windows, first, last, b)
    decreases last - first
  {
    if first <= last {
      DatedCountStep(windows, first, last - 1, a, b);
    }
  }

  lemma {:induction false} DatedCountEmpty(windows: seq<Window>, first: int, last: int, a: int)
    ensures DatedCount(windows, first, last, a, a) == 0
    decreases last - first
  {
    if first <= last {
      DatedCountEmpty(windows, first, last - 1, a);
    }
  }

  lemma {:induction false} DatedCountIsActivePlusTwice(windows: seq<Window>, first: int, last: int, a: int, b: int)
    requires a <= b && first <= Date(a) - 1 && Date(b) <= last
    ensures DatedCount(windows, first, last, a, b) == Count(ActiveP(windows), a, b) + Count(TwiceP(windows), a, b)
    decreases b - a
  {
    hide TwiceP, ActiveP;
    if a == b {
      DatedCountEmpty(windows, first, last, a);
    } else {
      DatedCountIsActivePlusTwice(windows, first, last, a, b - 1);
      DatedCountStep(windows, first, last, a, b - 1);
      DatesAtInstant(windows, first, last, b - 1);
    }
  }

  lemma {:induction false} DatesAtInstant(windows: seq<Window>, first: int, last: int, t: int)
    requires first <= Date(t) - 1 && Date(t) <= last
    ensures DatesAt(windows, first, last, t)
            == (if ActiveP(windows)(t) then 1 else 0) + if TwiceP(windows)(t) then 1 else 0
  {
    hide OnDate, ScheduleIsActive, Date, DatesAt;
    DatesAtMost2(windows, first, last, t);
    SchedulePointwise(windows, t);
  }

  lemma {:induction false} DatedSecondsCount(windows: seq<Window>, first: int, last: int, a: int, b: int)
    requires a <= b
    ensures 1_000_000 * DatedSeconds(windows, first, last, a, b) <= DatedCount(windows, first, last, a, b)
    ensures Whole(a) && Whole(b) ==>
              1_000_000 * DatedSeconds(windows, first, last, a, b) == DatedCount(windows, first, last, a, b)
    decreases last - first
  {
    if first <= last {
      DatedSecondsCount(windows, first, last - 1, a, b);
      SecondsWithinCount(OnDateP(windows, last), a, b);
      WindowsOnSeconds(windows, last);
      if Whole(a) && Whole(b) {
        WholeSecondsExact(OnDateP(windows, last), a, b);
      }
    }
  }

  /** Between whole seconds the loop returns the active time plus, once more, the
      time at which an overnight window runs into a window of the next date. */
  lemma {:induction false} ScheduleSecondsExact(windows: seq<Window>, start: int, end: int)
    requires start <= end && Whole(start) && Whole(end)
    ensures 1_000_000 * ScheduleSeconds(windows, start, end)
            == Count(ActiveP(windows), start, end) + Count(TwiceP(windows), start, end)
  {
    if start < end {
      DatedCountIsActivePlusTwice(windows, Date(start) - 1, Date(end), start, end);
      DatedSecondsCount(windows, Date(start) - 1, Date(end), start, end);
    }
  }

  lemma {:induction false} CountNone(p: int -> bool, a: int, b: int)
    ensures Count(p, a, b) == 0 <==> forall t | a <= t < b :: !p(t)
    decreases b - a
  {
    if a < b {
      CountNone(p, a, b - 1);
      if Count(p, a, b) == 0 {
        forall t | a <= t < b ensures !p(t) {
        }
      }
    }
  }

  lemma {:induction false} CountSubset(p: int -> bool, q: int -> bool, a: int, b: int)
    requires forall t | a <= t < b :: p(t) ==> q(t)
    ensures Count(p, a, b) <= Count(q, a, b)
    decreases b - a
  {
    if a < b {
      CountSubset(p, q, a, b - 1);
    }
  }

  /** For every range: never more than twice the active time. For whole seconds:
      never less than the active time, and equal to it exactly when no instant of
      the range lies in windows of two dates. */
  lemma {:induction false} ScheduleSecondsBounds(windows: seq<Window>, start: int, end: int)
    requires start <= end
    ensures 1_000_000 * ScheduleSeconds(windows, start, end) <= 2 * Count(ActiveP(windows), start, end)
    ensures Whole(start) && Whole(end) ==>
              Count(ActiveP(windows), start, end) <= 1_000_000 * ScheduleSeconds(windows, start, end)
    ensures Whole(start) && Whole(end) ==>
              (1_000_000 * ScheduleSeconds(windows, start, end) == Count(ActiveP(windows), start, end)
               <==> forall t | start <= t < end :: !TwiceP(windows)(t))
  {
    CountNone(TwiceP(windows), start, end);
    forall t | start <= t < end ensures TwiceP(windows)(t) ==> ActiveP(windows)(t) {
      SchedulePointwise(windows, t);
    }
    CountSubset(TwiceP(windows), ActiveP(windows), start, end);
    if start < end {
      DatedCountIsActivePlusTwice(windows, Date(start) - 1, Date(end), start, end);
      DatedSecondsCount(windows, Date(start) - 1, Date(end), start, end);
    }
    if Whole(start) && Whole(end) {
      ScheduleSecondsExact(windows, start, end);
    }
  }

  // --------------------------------------------------------- splitting a range

  lemma {:induction false} DateOff(windows: seq<Window>, date: int, a: int, b: int)
    requires date < Date(a) - 1 || Date(b) < date
    ensures forall t | a <= t < b :: !OnDateP(windows, date)(t)
  {
    forall t | a <= t < b ensures !OnDateP(windows, date)(t) {
      SchedulePointwise(windows, t);
    }
  }

  lemma {:induction false} Widen(windows: seq<Window>, first: int, last: int, a: int, b: int)
    requires a < b && first <= Date(a) - 1 && Date(b) <= last
    ensures DatedSeconds(windows, first, last, a, b) == ScheduleSeconds(windows, a, b)
    decreases last - first
  {
    if Date(b) < last {
      DateOff(windows, last, a, b);
      ScanIdle(OnDateP(windows, last), a, b);
      Widen(windows, first, last - 1, a, b);
    } else if first < Date(a) - 1 {
      WidenLeft(windows, first, last, a, b);
      Widen(windows, first + 1, last, a, b);
    }
  }

  lemma {:induction false} WidenLeft(windows: seq<Window>, first: int, last: int, a: int, b: int)
    requires a < b && first < Date(a) - 1 && first <= last
    ensures DatedSeconds(windows, first, last, a, b) == DatedSeconds(windows, first + 1, last, a, b)
    decreases last - first
  {
    if first == last {
      DateOff(windows, first, a, b);
      ScanIdle(OnDateP(windows, first), a, b);
      assert DatedSeconds(windows, first, last - 1, a, b) == 0;
    } else {
      WidenLeft(windows, first, last - 1, a, b);
    }
  }

  ghost function DatedCarry(windows: seq<Window>, date: int, a: int, b: int, c: int): nat {
    Carry(OnDateP(windows, date), a, b, c)
  }

  lemma {:induction false} DatedSplit(windows: seq<Window>, first: int, last: int, a: int, b: int, c: int)
    requires a <= b < c
    ensures DatedSeconds(windows, first, last, a, c)
            == DatedSeconds(windows, first, last, a, b) + DatedSeconds(windows, first, last, b, c)
               + (if first <= Date(b) - 1 <= last then DatedCarry(windows, Date(b) - 1, a, b, c) else 0)
               + (if first <= Date(b) <= last then DatedCarry(windows, Date(b), a, b, c) else 0)
    decreases last - first
  {
    hide ActiveSeconds, OnDateP, Carry;
    if first <= last {
      DatedSplit(windows, first, last - 1, a, b, c);
      SplitSeconds(OnDateP(windows, last), a, b, c);
      OnlyOpenDatesCarry(windows, last, a, b, c);
    }
  }

  lemma {:induction false} OnlyOpenDatesCarry(windows: seq<Window>, date: int, a: int, b: int, c: int)
    requires b < c
    ensures date != Date(b) && date != Date(b) - 1 ==> DatedCarry(windows, date, a, b, c) == 0
  {
    if date != Date(b) && date != Date(b) - 1 {
      SchedulePointwise(windows, b);
      assert !OnDateP(windows, date)(b);
      LeadOff(OnDateP(windows, date), b, c);
    }
  }

  /** The seconds lost by reading the total at `b`: at most one for the windows of
      each of the two dates that can be open then. */
  ghost function LostAt(windows: seq<Window>, a: int, b: int, c: int): (n: nat)
    ensures n <= 2
  {
    DatedCarry(windows, Date(b) - 1, a, b, c) + DatedCarry(windows, Date(b), a, b, c)
  }

  lemma {:induction false} ScheduleSplit(windows: seq<Window>, a: int, b: int, c: int)
    requires a < b < c
    ensures ScheduleSeconds(windows, a, c)
            == ScheduleSeconds(windows, a, b) + ScheduleSeconds(windows, b, c) + LostAt(windows, a, b, c)
  {
    var first, last := Date(a) - 1, Date(c);
    assert Date(a) <= Date(b) <= Date(c);
    Widen(windows, first, last, a, b);
    Widen(windows, first, last, b, c);
    DatedSplit(windows, first, last, a, b, c);
  }

  lemma {:induction false} WholeSplitLosesNothing(windows: seq<Window>, a: int, b: int, c: int)
    requires a < b < c && Whole(a) && Whole(b)
    ensures LostAt(windows, a, b, c) == 0
  {
    WindowsOnSeconds(windows, Date(b) - 1);
    WindowsOnSeconds(windows, Date(b));
    WholeCutCarriesNothing(OnDateP(windows, Date(b) - 1), a, b, c);
    WholeCutCarriesNothing(OnDateP(windows, Date(b)), a, b, c);
  }

  // ------------------------------------------------------- the running totals

  /** A stored row: seconds so far, and the UTC instant they run up to. */
  datatype Total = Total(seconds: nat, until: int)

  ghost function Advance(previous: Option<Total>, windows: seq<Window>, offset: int, now: int): Total {
    match previous
    case None => Total(0, now)
    case Some(row) =>
      if now <= row.until then row
      else Total(row.seconds + ScheduleSeconds(windows, row.until + offset, now + offset), now)
  }

  ghost function Row(rows: map<string, Total>, id: string): Option<Total> {
    if id in rows then Some(rows[id]) else None
  }

  ghost function AdvanceAll(rows: map<string, Total>, schedules: seq<Schedule>, offset: int, now: int)
    : (after: map<string, Total>)
    ensures schedules != [] ==> schedules[|schedules| - 1].id in after
  {
    if schedules == [] then rows
    else
      var before := AdvanceAll(rows, schedules[..|schedules| - 1], offset, now);
      var last := schedules[|schedules| - 1];
      before[last.id := Advance(Row(before, last.id), last.windows, offset, now)]
  }

  lemma {:induction false} AdvanceNone(rows: map<string, Total>, offset: int, now: int)
    ensures AdvanceAll(rows, [], offset, now) == rows
  {
  }

  lemma {:induction false} AdvanceOneMore(rows: map<string, Total>, schedules: seq<Schedule>, k: nat, offset: int,
        now: int)
    requires k < |schedules|
    ensures var before := AdvanceAll(rows, schedules[..k], offset, now);
            AdvanceAll(rows, schedules[..k + 1], offset, now)
            == before[schedules[k].id := Advance(Row(before, schedules[k].id), schedules[k].windows, offset, now)]
  {
    assert schedules[..k + 1][..k] == schedules[..k];
  }

  class ActivityTotals {
    var rows: map<string, Total>

    constructor ()
      ensures rows == map[]
    {
      rows := map[];
    }

    method Sync(schedules: seq<Schedule>, offset: int, now: int) returns (totals: seq<(string, nat)>)
      modifies this
      ensures rows == AdvanceAll(old(rows), schedules, offset, now)
      ensures |totals| == |schedules|
      ensures forall k | 0 <= k < |schedules| ::
                totals[k] == (schedules[k].id,
                              AdvanceAll(old(rows), schedules[..k + 1], offset, now)[schedules[k].id].seconds)
    {
      hide ScheduleSeconds, AdvanceAll;
      totals := [];
      assert AdvanceAll(old(rows), schedules[..0], offset, now) == old(rows) by {
        AdvanceNone(old(rows), offset, now);
      }
      for k := 0 to |schedules|
        invariant |totals| == k
        invariant rows == AdvanceAll(old(rows), schedules[..k], offset, now)
        invariant forall j | 0 <= j < k ::
                    totals[j] == (schedules[j].id,
                                  AdvanceAll(old(rows), schedules[..j + 1], offset, now)[schedules[j].id].seconds)
      {
        var schedule := schedules[k];
        AdvanceOneMore(old(rows), schedules, k, offset, now);
        var total: nat;
        if schedule.id in rows {
          var previous := rows[schedule.id];
          if now <= previous.until {
            total := previous.seconds;
            assert rows == rows[schedule.id := previous];
          } else {
            var elapsed := ScheduleActiveSecondsBetween(schedule.windows, previous.until + offset, now + offset);
            total := previous.seconds + elapsed;
            rows := rows[schedule.id := Total(total, now)];
          }
        } else {
          rows := rows[schedule.id := Total(0, now)];
          total := 0;
        }
        totals := totals + [(schedule.id, total)];
      }
      assert schedules[..|schedules|] == schedules;
    }
  }

  /** The row of one schedule first read at `first`, then at each of `later`, in
      any order. */
  ghost function AfterReads(windows: seq<Window>, offset: int, first: int, later: seq<int>): Total
    decreases |later|
  {
    if later == [] then Advance(None, windows, offset, first)
    else
      var n := |later| - 1;
      Advance(Some(AfterReads(windows, offset, first, later[..n])), windows, offset, later[n])
  }

  ghost function LostNow(windows: seq<Window>, offset: int, first: int, until: int, now: int): nat {
    if first < until < now then LostAt(windows, first + offset, until + offset, now + offset) else 0
  }

  /** The seconds lost at the reads that moved the row forward. */
  ghost function Lost(windows: seq<Window>, offset: int, first: int, later: seq<int>): nat
    decreases |later|
  {
    if later == [] then 0
    else
      var n := |later| - 1;
      Lost(windows, offset, first, later[..n])
      + LostNow(windows, offset, first, AfterReads(windows, offset, first, later[..n]).until, later[n])
  }

  lemma {:induction false} NoTime(windows: seq<Window>, t: int)
    ensures ScheduleSeconds(windows, t, t) == 0
  {
  }

  lemma {:induction false} OneRead(windows: seq<Window>, offset: int, first: int, row: Total, lost: nat, now: int)
    requires first <= row.until
    requires row.seconds + lost == ScheduleSeconds(windows, first + offset, row.until + offset)
    ensures var next := Advance(Some(row), windows, offset, now);
            next.seconds + lost + LostNow(windows, offset, first, row.until, now)
            == ScheduleSeconds(windows, first + offset, next.until + offset)
  {
    hide ScheduleSeconds, LostAt;
    NoTime(windows, first + offset);
    if first < row.until < now {
      ScheduleSplit(windows, first + offset, row.until + offset, now + offset);
    }
  }

  /** After any reads, forward, repeated or backward: the row runs up to the latest
      of them, never exceeds the single measurement from the first to the latest,
      and falls short of it by exactly the seconds lost at intermediate reads. */
  lemma {:induction false} ReadsAgainstOneMeasurement(windows: seq<Window>, offset: int, first: int, later: seq<int>)
    ensures var row := AfterReads(windows, offset, first, later);
            row.seconds + Lost(windows, offset, first, later)
            == ScheduleSeconds(windows, first + offset, row.until + offset)
    ensures var row := AfterReads(windows, offset, first, later);
            && (row.until == first || row.until in later)
            && first <= row.until && (forall t | t in later :: t <= row.until)
    decreases |later|
  {
    hide ScheduleSeconds, LostNow;
    NoTime(windows, first + offset);
    if later != [] {
      var n := |later| - 1;
      ReadsAgainstOneMeasurement(windows, offset, first, later[..n]);
      OneRead(windows, offset, first, AfterReads(windows, offset, first, later[..n]),
              Lost(windows, offset, first, later[..n]), later[n]);
      assert later == later[..n] + [later[n]];
    }
  }

  /** The latest of the reads. */
  function Latest(first: int, later: seq<int>): int {
    if later == [] then first
    else
      var before := Latest(first, later[..|later| - 1]);
      if later[|later| - 1] > before then later[|later| - 1] else before
  }

  /** A total started at `a` and read at `b` has lost a second when it is next read at
      `c`: the windows of one of the two dates that can be open at `b` are cut. */
  ghost predicate ReadLoses(windows: seq<Window>, a: int, b: int, c: int) {
    a < b < c && (Cuts(OnDateP(windows, Date(b) - 1), a, b, c) || Cuts(OnDateP(windows, Date(b)), a, b, c))
  }

  lemma {:induction false} LostAtExactly(windows: seq<Window>, a: int, b: int, c: int)
    requires a < b < c
    ensures LostAt(windows, a, b, c) == (if Cuts(OnDateP(windows, Date(b) - 1), a, b, c) then 1 else 0)
                                        + if Cuts(OnDateP(windows, Date(b)), a, b, c) then 1 else 0
  {
    hide Cuts, Carry, OnDateP, Date;
    WindowsOnSeconds(windows, Date(b) - 1);
    WindowsOnSeconds(windows, Date(b));
    CarryExactly(OnDateP(windows, Date(b) - 1), a, b, c);
    CarryExactly(OnDateP(windows, Date(b)), a, b, c);
  }

  /** Read `k` finds that the read before it, of those that moved the total on, has
      lost a second. */
  ghost predicate LosesAt(windows: seq<Window>, offset: int, first: int, later: seq<int>, k: nat)
    requires k < |later|
  {
    ReadLoses(windows, first + offset, Latest(first, later[..k]) + offset, later[k] + offset)
  }

  /** Path independence, exactly. After any reads in any order the stored total is the
      single measurement from the first read to the latest if and only if no read
      finds a second lost, which the read times and the windows decide. */
  lemma {:induction false} PathIndependence(windows: seq<Window>, offset: int, first: int, later: seq<int>)
    ensures var row := AfterReads(windows, offset, first, later);
            && row.until == Latest(first, later)
            && (row.seconds == ScheduleSeconds(windows, first + offset, row.until + offset)
                <==> forall k | 0 <= k < |later| :: !LosesAt(windows, offset, first, later, k))
  {
    hide AfterReads, ScheduleSeconds, LosesAt;
    ReadsAgainstOneMeasurement(windows, offset, first, later);
    LostExactly(windows, offset, first, later);
  }

  lemma {:induction false} LostExactly(windows: seq<Window>, offset: int, first: int, later: seq<int>)
    ensures AfterReads(windows, offset, first, later).until == Latest(first, later)
    ensures Lost(windows, offset, first, later) == 0
            <==> forall k | 0 <= k < |later| :: !LosesAt(windows, offset, first, later, k)
    decreases |later|
  {
    hide LosesAt, LostNow, ScheduleSeconds;
    if later != [] {
      var n := |later| - 1;
      LostExactly(windows, offset, first, later[..n]);
      LostLast(windows, offset, first, later);
      forall k | 0 <= k < n
        ensures LosesAt(windows, offset, first, later[..n], k) == LosesAt(windows, offset, first, later, k)
      {
        LosesEarlier(windows, offset, first, later, n, k);
      }
    }
  }

  lemma {:induction false} LosesEarlier(windows: seq<Window>, offset: int, first: int, later: seq<int>, n: nat, k: nat)
    requires k < n <= |later|
    ensures LosesAt(windows, offset, first, later[..n], k) == LosesAt(windows, offset, first, later, k)
  {
    hide ReadLoses;
    assert later[..n][..k] == later[..k];
  }

  lemma {:induction false} LostLast(windows: seq<Window>, offset: int, first: int, later: seq<int>)
    requires later != []
    ensures var n := |later| - 1;
            LostNow(windows, offset, first, Latest(first, later[..n]), later[n]) == 0
            <==> !LosesAt(windows, offset, first, later, n)
  {
    hide LostAt, Cuts, OnDateP, Date, Latest;
    var n := |later| - 1;
    var until := Latest(first, later[..n]);
    if first < until < later[n] {
      LostAtExactly(windows, first + offset, until + offset, later[n] + offset);
    }
  }

  /** Reads on whole seconds lose nothing, in any order. */
  lemma {:induction false} WholeReadsLoseNothing(windows: seq<Window>, offset: int, first: int, later: seq<int>)
    requires Whole(offset) && Whole(first) && forall t | t in later :: Whole(t)
    ensures Lost(windows, offset, first, later) == 0
    decreases |later|
  {
    hide Whole, LostNow, ScheduleSeconds;
    if later != [] {
      var n := |later| - 1;
      assert forall t | t in later[..n] :: t in later;
      WholeReadsLoseNothing(windows, offset, first, later[..n]);
      ReadsAgainstOneMeasurement(windows, offset, first, later[..n]);
      WholeReadLosesNothing(windows, offset, first, AfterReads(windows, offset, first, later[..n]).until, later[n]);
    }
  }

  lemma {:induction false} WholeSum(a: int, b: int)
    requires Whole(a) && Whole(b)
    ensures Whole(a + b)
  {
  }

  lemma {:induction false} WholeReadLosesNothing(windows: seq<Window>, offset: int, first: int, until: int, now: int)
    requires Whole(offset) && Whole(first) && Whole(until)
    ensures LostNow(windows, offset, first, until, now) == 0
  {
    hide LostAt;
    WholeSum(first, offset);
    WholeSum(until, offset);
    if first < until < now {
      WholeSplitLosesNothing(windows, first + offset, until + offset, now + offset);
    }
  }

  lemma {:induction false} LeadOn(p: int -> bool, b: int, c: int)
    requires b <= c && forall t | b <= t < c :: p(t)
    ensures Lead(p, b, c) == c - b
    decreases c - b
  {
    if b < c {
      LeadOn(p, b, c - 1);
    }
  }

  lemma {:induction false} CutInsideASecond(p: int -> bool, x: int, t: int)
    requires OnSeconds(p) && InSecond(x, t) && x < t && p(t)
    ensures Carry(p, x, t, x + 1_000_000) == 1
  {
    forall u | x <= u < x + 1_000_000 ensures p(u) {
      assert InSecond(x, u);
    }
    ScanOn(p, x, x, t);
    LeadOn(p, t, x + 1_000_000);
  }

  lemma {:induction false} TwoReads(windows: seq<Window>, first: int, b: int, c: int)
    requires first < b < c
    ensures Lost(windows, 0, first, [b, c]) == LostAt(windows, first, b, c)
    ensures AfterReads(windows, 0, first, [b, c]).until == c
  {
    hide ScheduleSeconds, LostAt;
    assert [b, c][..1] == [b] && [b][..0] == [];
    assert AfterReads(windows, 0, first, [b]).until == b;
    assert Lost(windows, 0, first, [b]) == Lost(windows, 0, first, []) + LostNow(windows, 0, first, first, b);
  }

  lemma {:induction false} SomeDateOpen(windows: seq<Window>, t: int) returns (date: int)
    requires ScheduleIsActive(windows, t)
    ensures (date == Date(t) || date == Date(t) - 1) && OnDateP(windows, date)(t)
  {
    SchedulePointwise(windows, t);
    date := if OnDate(windows, Date(t), t) then Date(t) else Date(t) - 1;
  }

  /** Reading inside a second while the schedule is active loses that second: one
      read between the whole seconds on either side of it costs one or two. */
  lemma {:induction false} FractionalReadLoses(windows: seq<Window>, x: int, t: int)
    requires InSecond(x, t) && t != x && ScheduleIsActive(windows, t)
    ensures Lost(windows, 0, x, [t, x + 1_000_000]) >= 1
    ensures AfterReads(windows, 0, x, [t, x + 1_000_000]).seconds < ScheduleSeconds(windows, x, x + 1_000_000)
  {
    hide ScheduleIsActive, OnDate, AfterReads, Carry, Lost, ScheduleSeconds;
    var date := SomeDateOpen(windows, t);
    WindowsOnSeconds(windows, date);
    CutInsideASecond(OnDateP(windows, date), x, t);
    TwoReads(windows, x, t, x + 1_000_000);
    ReadsAgainstOneMeasurement(windows, 0, x, [t, x + 1_000_000]);
  }

  /** A morning schedule, read at midnight, half a second later and one second
      later: the stored total misses the second that one measurement counts. */
  lemma {:induction false} ReadTwiceInASecond()
    ensures var windows := [Window(Everyday, Clock(0, 0), Clock(12, 0))];
            AfterReads(windows, 0, 0, [500_000, 1_000_000]).seconds < ScheduleSeconds(windows, 0, 1_000_000)
  {
    hide ScheduleSeconds, AfterReads, Lost;
    var windows := [Window(Everyday, Clock(0, 0), Clock(12, 0))];
    assert WindowIsActive(windows[0], 500_000);
    FractionalReadLoses(windows, 0, 500_000);
  }

  lemma {:induction false} MorningWindow(w: Window, t: int)
    requires w == Window(Everyday, Clock(0, 0), Clock(12, 0)) && 0 <= t < 43_200_000_000
    ensures InWindow(w, 0, t) && !InWindow(w, -1, t)
  {
    hide WeekdayOf;
  }

  lemma {:induction false} MorningOpen(w: Window, t: int)
    requires w == Window(Everyday, Clock(0, 0), Clock(12, 0)) && 0 <= t < 43_200_000_000
    ensures OnDateP([w], 0)(t) && !OnDateP([w], -1)(t)
  {
    hide InWindow;
    MorningWindow(w, t);
    assert w in [w] && forall v | v in [w] :: v == w;
  }

  /** A read inside a second need not lose it: read again at 1.7 seconds, the second
      half second and the 1.2 seconds after it make up for each other. */
  lemma {:induction false} ReadLaterInASecond()
    ensures var windows := [Window(Everyday, Clock(0, 0), Clock(12, 0))];
            AfterReads(windows, 0, 0, [500_000, 1_700_000]).seconds == ScheduleSeconds(windows, 0, 1_700_000)
  {
    hide ScheduleSeconds, AfterReads, Lost, OnDateP;
    var windows := [Window(Everyday, Clock(0, 0), Clock(12, 0))];
    var later := [500_000, 1_700_000];
    assert later[..1] == [500_000] && later[..0] == [] && later[..1][..0] == [] && later[..2] == later;
    assert Latest(0, later[..1]) == 500_000 && Latest(0, later) == 1_700_000;
    forall t | 0 <= t < 1_700_000 ensures OnDateP(windows, 0)(t) && !OnDateP(windows, -1)(t) {
      MorningOpen(windows[0], t);
      assert [windows[0]] == windows;
    }
    assert Date(500_000) == 0;
    assert !LosesAt(windows, 0, 0, later, 1);
    assert !LosesAt(windows, 0, 0, later, 0);
    hide LosesAt;
    PathIndependence(windows, 0, 0, later);
  }

  /** Windows 22:00-02:00 and 01:00-03:00 every day: the second from one o'clock is
      counted twice. */
  lemma {:induction false} OverlapCountedTwice()
    ensures var windows := [Window(Everyday, Clock(22, 0), Clock(2, 0)), Window(Everyday, Clock(1, 0), Clock(3, 0))];
            var one := 3_600_000_000;
            1_000_000 * ScheduleSeconds(windows, one, one + 1_000_000) > Count(ActiveP(windows), one, one + 1_000_000)
  {
    var windows := [Window(Everyday, Clock(22, 0), Clock(2, 0)), Window(Everyday, Clock(1, 0), Clock(3, 0))];
    var one := 3_600_000_000;
    assert InWindow(windows[0], -1, one) && InWindow(windows[1], 0, one);
    assert TwiceP(windows)(one);
    hide ScheduleSeconds, TwiceP, ActiveP;
    assert Whole(one) && Whole(one + 1_000_000);
    ScheduleSecondsBounds(windows, one, one + 1_000_000);
  }
}
