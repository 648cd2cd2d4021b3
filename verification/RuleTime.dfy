/** The active time of one website rule: the accounting loop of the engine, which
    merges schedule windows and detox sessions over the whole range at once. */
module RuleTime {
  import opened Wrappers
  import opened Stretches
  import opened Calendar
  import opened Intervals
  import opened Config
  import opened Engine

  /** Some schedule row attached to the rule is active at local time `t`. */
  ghost predicate AttachedActive(schedules: seq<Schedule>, ids: seq<string>, t: int) {
    exists s | s in schedules && s.id in ids :: ScheduleIsActive(s.windows, t)
  }

  ghost predicate AttachedOnDate(schedules: seq<Schedule>, ids: seq<string>, date: int, t: int) {
    exists s | s in schedules && s.id in ids :: OnDate(s.windows, date, t)
  }

  /** A session targeting the rule covers `t`, up to its end or its cancellation. */
  ghost predicate DetoxCovers(sessions: seq<DetoxSession>, ruleId: string, offset: int, t: int) {
    exists x | x in sessions && ruleId in x.siteRuleIds :: x.startsAt <= t - offset < DetoxEnd(x)
  }

  function DetoxEnd(x: DetoxSession): int {
    if x.cancelledAt.Some? then Min(x.endsAt, x.cancelledAt.value) else x.endsAt
  }

  ghost predicate RuleActiveAt(rule: Rule<Pattern>, schedules: seq<Schedule>, sessions: seq<DetoxSession>, offset: int,
        t: int)
  {
    AttachedActive(schedules, rule.scheduleIds, t) || DetoxCovers(sessions, rule.id, offset, t)
  }

  ghost function RuleActiveP(rule: Rule<Pattern>, schedules: seq<Schedule>, sessions: seq<DetoxSession>, offset: int)
    : int -> bool
  {
    t => RuleActiveAt(rule, schedules, sessions, offset, t)
  }

  method DetoxIntervals(sessions: seq<DetoxSession>, ruleId: string, start: int, end: int, offset: int)
    returns (intervals: seq<Span>)
    ensures Clipped(intervals, start + offset, end + offset)
    ensures forall t | start + offset <= t < end + offset ::
              Covers(intervals, t) <==> DetoxCovers(sessions, ruleId, offset, t)
  {
    intervals := [];
    for k := 0 to |sessions|
      invariant Clipped(intervals, start + offset, end + offset)
      invariant forall t | start + offset <= t < end + offset ::
                  Covers(intervals, t) <==> DetoxCovers(sessions[..k], ruleId, offset, t)
    {
      var x := sessions[k];
      ghost var before := intervals;
      if ruleId in x.siteRuleIds && x.startsAt < end && x.endsAt > start
         && (x.cancelledAt.None? || x.cancelledAt.value > start)
      {
        var lo, hi := Max(x.startsAt, start), Min(DetoxEnd(x), end);
        if hi > lo {
          intervals := intervals + [Span(lo + offset, hi + offset)];
        }
      }
      forall t | start + offset <= t < end + offset
        ensures Covers(intervals, t) <==> DetoxCovers(sessions[..k + 1], ruleId, offset, t)
      {
        CoversPushed(before, intervals, t);
        OneMoreSession(sessions, k, ruleId, offset, t);
      }
    }
    assert sessions[..|sessions|] == sessions;
  }

  lemma {:induction false} OneMoreSession(sessions: seq<DetoxSession>, k: nat, ruleId: string, offset: int, t: int)
    requires k < |sessions|
    ensures var x := sessions[k];
            DetoxCovers(sessions[..k + 1], ruleId, offset, t) <==>
            DetoxCovers(sessions[..k], ruleId, offset, t)
            || (ruleId in x.siteRuleIds && x.startsAt <= t - offset < DetoxEnd(x))
  {
    assert sessions[..k + 1] == sessions[..k] + [sessions[k]];
  }

  method PushSchedules(intervals: seq<Span>, schedules: seq<Schedule>, ids: seq<string>, date: int, start: int,
        end: int)
    returns (pushed: seq<Span>)
    requires Clipped(intervals, start, end)
    ensures Clipped(pushed, start, end)
    ensures forall t | start <= t < end ::
              Covers(pushed, t) <==> Covers(intervals, t) || AttachedOnDate(schedules, ids, date, t)
  {
    pushed := intervals;
    for k := 0 to |schedules|
      invariant Clipped(pushed, start, end)
      invariant forall t | start <= t < end ::
                  Covers(pushed, t) <==> Covers(intervals, t) || AttachedOnDate(schedules[..k], ids, date, t)
    {
      hide Covers, OnDate, Clipped;
      assert schedules[..k + 1] == schedules[..k] + [schedules[k]];
      if schedules[k].id in ids {
        pushed := PushWindows(pushed, schedules[k].windows, date, start, end);
      }
    }
    assert schedules[..|schedules|] == schedules;
  }

  ghost predicate AttachedBetween(schedules: seq<Schedule>, ids: seq<string>, first: int, date: int, t: int) {
    exists d | first <= d < date :: AttachedOnDate(schedules, ids, d, t)
  }

  lemma {:induction false} NoDateYet(schedules: seq<Schedule>, ids: seq<string>, first: int, t: int)
    ensures !AttachedBetween(schedules, ids, first, first, t)
  {
  }

  lemma {:induction false} OneMoreDate(schedules: seq<Schedule>, ids: seq<string>, first: int, date: int, t: int)
    requires first <= date
    ensures AttachedBetween(schedules, ids, first, date + 1, t)
            <==> AttachedBetween(schedules, ids, first, date, t) || AttachedOnDate(schedules, ids, date, t)
  {
    hide AttachedOnDate;
  }

  lemma {:induction false} DatesInOrder(s: int, t: int)
    requires s <= t
    ensures Date(s) <= Date(t)
  {
  }

  /** The loop measures the rule exactly as an instant-by-instant scan does, for
      every range and offset, sub-second endpoints included. */
  method RuleActiveSecondsBetween(rule: Rule<Pattern>, schedules: seq<Schedule>, sessions: seq<DetoxSession>,
        startUtc: int, endUtc: int, offset: int) returns (total: nat)
    ensures total == RuleSeconds(rule, schedules, sessions, offset, startUtc, endUtc)
  {
    if endUtc <= startUtc {
      RuleSecondsEmpty(rule, schedules, sessions, offset, startUtc, endUtc);
      return 0;
    }
    hide Covers, Clipped, AttachedOnDate, AttachedBetween, DetoxCovers, AttachedActive, Date;
    var start, end := startUtc + offset, endUtc + offset;
    var first := Date(start) - 1;
    var date := first;
    var finalDate := Date(end);
    var intervals := DetoxIntervals(sessions, rule.id, startUtc, endUtc, offset);
    forall t ensures !AttachedBetween(schedules, rule.scheduleIds, first, first, t) {
      NoDateYet(schedules, rule.scheduleIds, first, t);
    }
    DatesInOrder(start, end);
    while date <= finalDate
      invariant first <= date <= finalDate + 1
      invariant Clipped(intervals, start, end)
      invariant forall t | start <= t < end ::
                  Covers(intervals, t) <==>
                  DetoxCovers(sessions, rule.id, offset, t)
                  || AttachedBetween(schedules, rule.scheduleIds, first, date, t)
    {
      intervals := PushSchedules(intervals, schedules, rule.scheduleIds, date, start, end);
      forall t
        ensures AttachedBetween(schedules, rule.scheduleIds, first, date + 1, t)
                <==> AttachedBetween(schedules, rule.scheduleIds, first, date, t)
                     || AttachedOnDate(schedules, rule.scheduleIds, date, t)
      {
        OneMoreDate(schedules, rule.scheduleIds, first, date, t);
      }
      date := date + 1;
    }
    total := MergedSeconds(intervals, start, end);
    forall t | start <= t < end
      ensures CoversP(intervals)(t) == RuleActiveP(rule, schedules, sessions, offset)(t)
    {
      DatesInOrder(start, t);
      DatesInOrder(t, end);
      AttachedPointwise(schedules, rule.scheduleIds, first, date, t);
    }
    ScanAgrees(CoversP(intervals), RuleActiveP(rule, schedules, sessions, offset), start, end);
  }

  ghost function RuleSeconds(rule: Rule<Pattern>, schedules: seq<Schedule>, sessions: seq<DetoxSession>, offset: int,
        start: int, end: int): nat
  {
    ActiveSeconds(RuleActiveP(rule, schedules, sessions, offset), start + offset, end + offset)
  }

  lemma {:induction false} RuleSecondsEmpty(rule: Rule<Pattern>, schedules: seq<Schedule>, sessions: seq<DetoxSession>,
        offset: int, start: int, end: int)
    requires end <= start
    ensures RuleSeconds(rule, schedules, sessions, offset, start, end) == 0
  {
  }

  lemma {:induction false} AttachedPointwise(schedules: seq<Schedule>, ids: seq<string>, first: int, date: int, t: int)
    requires first <= Date(t) - 1 && Date(t) < date
    ensures AttachedActive(schedules, ids, t) <==> AttachedBetween(schedules, ids, first, date, t)
  {
    hide OnDate, ScheduleIsActive;
    forall windows
      ensures ScheduleIsActive(windows, t) <==> OnDate(windows, Date(t), t) || OnDate(windows, Date(t) - 1, t)
      ensures forall d :: OnDate(windows, d, t) ==> d == Date(t) || d == Date(t) - 1
    {
      SchedulePointwise(windows, t);
    }
    if AttachedActive(schedules, ids, t) {
      var s :| s in schedules && s.id in ids && ScheduleIsActive(s.windows, t);
      var d := if OnDate(s.windows, Date(t), t) then Date(t) else Date(t) - 1;
      assert AttachedOnDate(schedules, ids, d, t);
    }
  }

  // --------------------------------------------- against the engine's own view

  /** For a configuration whose references resolve and whose schedule ids are
      unique, the rows attached to a rule are active exactly when the engine says
      its schedules are. */
  lemma {:induction false} AttachedIsSchedulesActive(rule: Rule<Pattern>, ctx: Context)
    requires !ctx.tampered && Distinct(ScheduleIds(ctx.schedules))
    requires forall id | id in rule.scheduleIds :: exists s | s in ctx.schedules :: s.id == id
    ensures AttachedActive(ctx.schedules, rule.scheduleIds, ctx.now + ctx.offset)
            <==> SchedulesActive(rule.scheduleIds, ctx)
  {
    forall id | id in rule.scheduleIds
      ensures ScheduleActive(id, ctx) <==>
              exists s | s in ctx.schedules && s.id == id :: ScheduleIsActive(s.windows, ctx.now + ctx.offset)
    {
      var found := FindSchedule(ctx.schedules, id).value;
      forall s | s in ctx.schedules && s.id == id ensures s == found {
        UniqueSchedule(ctx.schedules, s, found);
      }
    }
  }

  lemma {:induction false} UniqueSchedule(schedules: seq<Schedule>, a: Schedule, b: Schedule)
    requires Distinct(ScheduleIds(schedules)) && a in schedules && b in schedules && a.id == b.id
    ensures a == b
  {
    var i :| 0 <= i < |schedules| && schedules[i] == a;
    var j :| 0 <= j < |schedules| && schedules[j] == b;
    assert ScheduleIds(schedules)[i] == ScheduleIds(schedules)[j];
  }

  /** The sessions that target the rule start and end on whole seconds. */
  ghost predicate WholeSessions(sessions: seq<DetoxSession>, ruleId: string) {
    forall x | x in sessions && ruleId in x.siteRuleIds :: Whole(x.startsAt) && Whole(DetoxEnd(x))
  }

  lemma {:induction false} RuleOnSeconds(rule: Rule<Pattern>, schedules: seq<Schedule>, sessions: seq<DetoxSession>,
        offset: int)
    requires Whole(offset) && WholeSessions(sessions, rule.id)
    ensures OnSeconds(RuleActiveP(rule, schedules, sessions, offset))
  {
    hide ScheduleIsActive;
    forall x, t | InSecond(x, t)
      ensures RuleActiveP(rule, schedules, sessions, offset)(t) == RuleActiveP(rule, schedules, sessions, offset)(x)
    {
      forall windows ensures ScheduleIsActive(windows, t) == ScheduleIsActive(windows, x) {
        SameSecondSameActivity(windows, x, t);
      }
      forall s | s in sessions && rule.id in s.siteRuleIds
        ensures s.startsAt <= t - offset < DetoxEnd(s) <==> s.startsAt <= x - offset < DetoxEnd(s)
      {
        SessionOnSeconds(s, offset, x, t);
      }
    }
  }

  lemma {:induction false} SessionOnSeconds(s: DetoxSession, offset: int, x: int, t: int)
    requires Whole(offset) && Whole(s.startsAt) && Whole(DetoxEnd(s)) && InSecond(x, t)
    ensures s.startsAt <= t - offset < DetoxEnd(s) <==> s.startsAt <= x - offset < DetoxEnd(s)
  {
    WholeBound(s.startsAt + offset, x, t);
    WholeBound(DetoxEnd(s) + offset, x, t);
  }

  /** With whole-second endpoints the result is the number of active seconds: the
      day loop, overnight windows, sorting and merging neither miss nor repeat an
      instant. */
  lemma {:induction false} RuleSecondsExact(rule: Rule<Pattern>, schedules: seq<Schedule>, sessions: seq<DetoxSession>,
        offset: int, start: int, end: int)
    requires start <= end && Whole(start) && Whole(end) && Whole(offset) && WholeSessions(sessions, rule.id)
    ensures 1_000_000 * RuleSeconds(rule, schedules, sessions, offset, start, end)
            == Count(RuleActiveP(rule, schedules, sessions, offset), start + offset, end + offset)
  {
    RuleOnSeconds(rule, schedules, sessions, offset);
    WholeShift(start, offset);
    WholeShift(end, offset);
    WholeSecondsExact(RuleActiveP(rule, schedules, sessions, offset), start + offset, end + offset);
  }

  lemma {:induction false} WholeShift(a: int, b: int)
    requires Whole(a) && Whole(b)
    ensures Whole(a + b)
  {
  }

  /** With any endpoints it is short by less than a second per active stretch. */
  lemma {:induction false} RuleSecondsWithinCount(rule: Rule<Pattern>, schedules: seq<Schedule>,
        sessions: seq<DetoxSession>, offset: int, start: int, end: int)
    ensures var p := RuleActiveP(rule, schedules, sessions, offset);
            var n := Count(p, start + offset, end + offset);
            1_000_000 * RuleSeconds(rule, schedules, sessions, offset, start, end) <= n
              <= 1_000_000 * RuleSeconds(rule, schedules, sessions, offset, start, end)
                 + 999_999 * Beginnings(p, start + offset, end + offset)
  {
    SecondsWithinCount(RuleActiveP(rule, schedules, sessions, offset), start + offset, end + offset);
  }

  // ------------------------------------------------------------------- growth

  /** More active time never measures as less, dropped remainders included. */
  lemma {:induction false} ScanMonotone(p: int -> bool, q: int -> bool, a: int, b: int, more: nat)
    requires forall t | a <= t < b :: p(t) ==> q(t)
    ensures Scan(p, a, b).0 + Secs(Scan(p, a, b).1 + more) <= Scan(q, a, b).0 + Secs(Scan(q, a, b).1 + more)
    decreases b - a
  {
    if a < b {
      if p(b - 1) {
        ScanMonotone(p, q, a, b - 1, more + 1);
      } else if q(b - 1) {
        ScanMonotone(p, q, a, b - 1, more + 1);
        SecsSuperadditive(Scan(p, a, b - 1).1, more);
      } else {
        ScanMonotone(p, q, a, b - 1, 0);
      }
    }
  }

  lemma {:induction false} SecsSuperadditive(m: nat, n: nat)
    ensures Secs(m) + Secs(n) <= Secs(m + n + 1)
  {
  }

  lemma {:induction false} ActiveSecondsMonotone(p: int -> bool, q: int -> bool, a: int, b: int)
    requires forall t | a <= t < b :: p(t) ==> q(t)
    ensures ActiveSeconds(p, a, b) <= ActiveSeconds(q, a, b)
  {
    ScanMonotone(p, q, a, b, 0);
  }

  lemma {:induction false} MoreSessionsCoverMore(sessions: seq<DetoxSession>, more: seq<DetoxSession>, ruleId: string,
        offset: int, t: int)
    requires forall x | x in sessions :: x in more
    ensures DetoxCovers(sessions, ruleId, offset, t) ==> DetoxCovers(more, ruleId, offset, t)
  {
  }

  /** A rule's seconds only grow with a later end and with further detox sessions. */
  lemma {:induction false} RuleSecondsGrow(rule: Rule<Pattern>, schedules: seq<Schedule>, sessions: seq<DetoxSession>,
        more: seq<DetoxSession>, offset: int, start: int, end: int, later: int)
    requires end <= later && forall x | x in sessions :: x in more
    ensures RuleSeconds(rule, schedules, sessions, offset, start, end)
            <= RuleSeconds(rule, schedules, more, offset, start, later)
  {
    hide DetoxCovers, AttachedActive, ActiveSeconds;
    var p, q := RuleActiveP(rule, schedules, sessions, offset), RuleActiveP(rule, schedules, more, offset);
    forall t ensures p(t) ==> q(t) {
      MoreSessionsCoverMore(sessions, more, rule.id, offset, t);
    }
    ActiveSecondsMonotone(p, q, start + offset, end + offset);
    ActiveSecondsGrows(q, start + offset, end + offset, later + offset);
  }
}
