/** The visit table and the daily allowance it is charged against. */
module Visits {
  import opened Wrappers
  import opened Stretches
  import opened Calendar
  import opened Intervals
  import opened Config
  import opened Engine
  import opened RuleTime

  datatype Visit = Visit(
    id: int, ruleId: Option<string>, url: string, tab: string,
    startedAt: int, lastHeartbeatAt: int, endedAt: Option<int>)
  {
    function EndsAt(): int {
      if endedAt.Some? then endedAt.value else lastHeartbeatAt
    }
  }

  // --------------------------------------------------------------- statements

  function Close(v: Visit, now: int): Visit {
    v.(endedAt := Some(now), lastHeartbeatAt := now)
  }

  function CloseIf(v: Visit, chosen: bool, now: int): Visit {
    if chosen && v.endedAt.None? then Close(v, now) else v
  }

  function BeatIf(v: Visit, chosen: bool, now: int): Visit {
    if chosen && v.endedAt.None? then v.(lastHeartbeatAt := now) else v
  }

  datatype Step =
    | Start(ruleId: Option<string>, url: string, tab: string, now: int)
    | Heartbeat(id: int, now: int)
    | End(id: int, now: int)

  function After(rows: seq<Visit>, step: Step): (r: seq<Visit>)
    ensures |rows| <= |r|
  {
    match step
    case Start(ruleId, url, tab, now) =>
      seq(|rows|, k requires 0 <= k < |rows| => CloseIf(rows[k], rows[k].tab == tab, now))
      + [Visit(|rows| + 1, ruleId, url, tab, now, now, None)]
    case Heartbeat(id, now) =>
      seq(|rows|, k requires 0 <= k < |rows| => BeatIf(rows[k], rows[k].id == id, now))
    case End(id, now) =>
      seq(|rows|, k requires 0 <= k < |rows| => CloseIf(rows[k], rows[k].id == id, now))
  }

  class VisitTable {
    var rows: seq<Visit>

    constructor ()
      ensures rows == []
    {
      rows := [];
    }

    method InsertVisitStart(ruleId: Option<string>, url: string, tab: string, now: int) returns (v: Visit)
      modifies this
      ensures rows == After(old(rows), Start(ruleId, url, tab, now))
      ensures v == rows[|rows| - 1]
    {
      for k := 0 to |rows|
        invariant |rows| == |old(rows)|
        invariant forall j | 0 <= j < k :: rows[j] == CloseIf(old(rows)[j], old(rows)[j].tab == tab, now)
        invariant forall j | k <= j < |rows| :: rows[j] == old(rows)[j]
      {
        if rows[k].tab == tab && rows[k].endedAt.None? {
          rows := rows[k := Close(rows[k], now)];
        }
      }
      v := Visit(|rows| + 1, ruleId, url, tab, now, now, None);
      rows := rows + [v];
    }

    method UpdateVisitHeartbeat(id: int, now: int)
      modifies this
      ensures rows == After(old(rows), Heartbeat(id, now))
    {
      for k := 0 to |rows|
        invariant |rows| == |old(rows)|
        invariant forall j | 0 <= j < k :: rows[j] == BeatIf(old(rows)[j], old(rows)[j].id == id, now)
        invariant forall j | k <= j < |rows| :: rows[j] == old(rows)[j]
      {
        if rows[k].id == id && rows[k].endedAt.None? {
          rows := rows[k := rows[k].(lastHeartbeatAt := now)];
        }
      }
    }

    method EndVisit(id: int, now: int)
      modifies this
      ensures rows == After(old(rows), End(id, now))
    {
      for k := 0 to |rows|
        invariant |rows| == |old(rows)|
        invariant forall j | 0 <= j < k :: rows[j] == CloseIf(old(rows)[j], old(rows)[j].id == id, now)
        invariant forall j | k <= j < |rows| :: rows[j] == old(rows)[j]
      {
        if rows[k].id == id && rows[k].endedAt.None? {
          rows := rows[k := Close(rows[k], now)];
        }
      }
    }

    /** The query first drops visits that cannot overlap the day. */
    method UsedSecondsForSiteRule(b: Billing, now: int) returns (used: nat)
      ensures used == UsedSeconds(rows, b, now)
    {
      var dayStart, dayEnd := DayStart(now, b.offset), DayStart(now, b.offset) + 86_400_000_000;
      used := 0;
      for k := 0 to |rows|
        invariant used == UsedSeconds(rows[..k], b, now)
      {
        assert rows[..k + 1][..k] == rows[..k];
        var v := rows[k];
        if v.startedAt < dayEnd && v.EndsAt() > dayStart && Charged(v, b) {
          var lo, hi := Max(v.startedAt, dayStart), Min(Min(v.EndsAt(), now), dayEnd);
          if hi > lo {
            var seconds := RuleActiveSecondsBetween(b.rule, b.schedules, b.sessions, lo, hi, b.offset);
            used := used + seconds;
          }
        }
      }
      assert rows[..|rows|] == rows;
    }
  }

  // ------------------------------------------------------------------ metering

  /** What the meter of one rule is read with. `hits` parses a stored URL. */
  datatype Billing = Billing(
    rule: Rule<Pattern>, schedules: seq<Schedule>, sessions: seq<DetoxSession>, offset: int,
    hits: string -> Option<Pattern -> bool>)

  function DayStart(now: int, offset: int): int {
    Date(now + offset) * 86_400_000_000 - offset
  }

  predicate Charged(v: Visit, b: Billing) {
    v.ruleId == Some(b.rule.id)
    || match b.hits(v.url)
       case None => false
       case Some(hit) => RuleApplies(b.rule, hit)
  }

  ghost function VisitSeconds(v: Visit, b: Billing, now: int): nat {
    var dayStart := DayStart(now, b.offset);
    var lo, hi := Max(v.startedAt, dayStart), Min(Min(v.EndsAt(), now), dayStart + 86_400_000_000);
    if Charged(v, b) && hi > lo then RuleSeconds(b.rule, b.schedules, b.sessions, b.offset, lo, hi) else 0
  }

  ghost function UsedSeconds(rows: seq<Visit>, b: Billing, now: int): nat {
    if rows == [] then 0
    else UsedSeconds(rows[..|rows| - 1], b, now) + VisitSeconds(rows[|rows| - 1], b, now)
  }

  // --------------------------------------------------------------- monotonicity

  /** `w` is the same visit as `v`, seen no earlier. */
  ghost predicate Later(v: Visit, w: Visit) {
    w.ruleId == v.ruleId && w.url == v.url && w.startedAt == v.startedAt && v.EndsAt() <= w.EndsAt()
  }

  ghost predicate Extends(rows: seq<Visit>, more: seq<Visit>) {
    |rows| <= |more| && forall k | 0 <= k < |rows| :: Later(rows[k], more[k])
  }

  /** No visit reaches past the last recorded instant. */
  ghost predicate UpTo(rows: seq<Visit>, clock: int) {
    forall v | v in rows :: v.EndsAt() <= clock
  }

  function TimeOf(step: Step): int {
    step.now
  }

  lemma {:induction false} StepExtends(rows: seq<Visit>, step: Step, clock: int)
    requires UpTo(rows, clock) && clock <= TimeOf(step)
    ensures Extends(rows, After(rows, step)) && UpTo(After(rows, step), TimeOf(step))
  {
    var r := After(rows, step);
    forall v | v in r ensures v.EndsAt() <= TimeOf(step) {
      var k :| 0 <= k < |r| && r[k] == v;
      if k < |rows| {
        assert rows[k] in rows;
      }
    }
    assert forall k | 0 <= k < |rows| :: rows[k] in rows;
  }

  ghost predicate Nondecreasing(steps: seq<Step>, from: int) {
    steps == [] || (from <= TimeOf(steps[0]) && Nondecreasing(steps[1..], TimeOf(steps[0])))
  }

  ghost function Run(rows: seq<Visit>, steps: seq<Step>): seq<Visit>
    decreases |steps|
  {
    if steps == [] then rows else Run(After(rows, steps[0]), steps[1..])
  }

  lemma {:induction false} RunExtends(rows: seq<Visit>, steps: seq<Step>, clock: int)
    requires UpTo(rows, clock) && Nondecreasing(steps, clock)
    ensures Extends(rows, Run(rows, steps))
    decreases |steps|
  {
    if steps != [] {
      StepExtends(rows, steps[0], clock);
      RunExtends(After(rows, steps[0]), steps[1..], TimeOf(steps[0]));
    }
  }

  ghost predicate SameBilling(b: Billing, c: Billing) {
    c == b.(sessions := c.sessions) && forall x | x in b.sessions :: x in c.sessions
  }

  lemma {:induction false} VisitSecondsGrow(v: Visit, w: Visit, b: Billing, c: Billing, now: int, laterNow: int)
    requires Later(v, w) && SameBilling(b, c) && now <= laterNow
    requires DayStart(laterNow, b.offset) == DayStart(now, b.offset)
    ensures VisitSeconds(v, b, now) <= VisitSeconds(w, c, laterNow)
  {
    hide RuleSeconds, RuleApplies;
    var dayStart := DayStart(now, b.offset);
    var lo := Max(v.startedAt, dayStart);
    var hi, hi' := Min(Min(v.EndsAt(), now), dayStart + 86_400_000_000),
        Min(Min(w.EndsAt(), laterNow), dayStart + 86_400_000_000);
    RuleSecondsGrow(b.rule, b.schedules, b.sessions, c.sessions, b.offset, lo, hi, hi');
  }

  lemma {:induction false} UsedSecondsGrow(rows: seq<Visit>, more: seq<Visit>, b: Billing, c: Billing, now: int,
        laterNow: int)
    requires Extends(rows, more) && SameBilling(b, c) && now <= laterNow
    requires DayStart(laterNow, b.offset) == DayStart(now, b.offset)
    ensures UsedSeconds(rows, b, now) <= UsedSeconds(more, c, laterNow)
    decreases |more|
  {
    hide VisitSeconds, DayStart, SameBilling, Later;
    if |rows| < |more| {
      UsedSecondsGrow(rows, more[..|more| - 1], b, c, now, laterNow);
    } else if rows != [] {
      var n := |rows| - 1;
      UsedSecondsGrow(rows[..n], more[..n], b, c, now, laterNow);
      VisitSecondsGrow(rows[n], more[n], b, c, now, laterNow);
    }
  }

  /** Within one local day a rule's used seconds never decrease over any run of
      visit starts, heartbeats and ends at nondecreasing times, whatever detox
      sessions are added meanwhile. */
  lemma {:induction false} UsageNeverDecreases(rows: seq<Visit>, steps: seq<Step>, clock: int, b: Billing, c: Billing,
        now: int, laterNow: int)
    requires UpTo(rows, clock) && Nondecreasing(steps, clock)
    requires SameBilling(b, c) && now <= laterNow
    requires DayStart(laterNow, b.offset) == DayStart(now, b.offset)
    ensures UsedSeconds(rows, b, now) <= UsedSeconds(Run(rows, steps), c, laterNow)
  {
    RunExtends(rows, steps, clock);
    UsedSecondsGrow(rows, Run(rows, steps), b, c, now, laterNow);
  }

  /** Once a rule is blocked for an exhausted allowance it stays blocked until
      local midnight, except while an unlock for that rule is active. */
  lemma {:induction false} ExhaustedUntilMidnight(rows: seq<Visit>, steps: seq<Step>, clock: int, b: Billing,
        c: Billing, ctx: Context, later: Context)
    requires UpTo(rows, clock) && Nondecreasing(steps, clock)
    requires SameBilling(b, c) && ctx.now <= later.now
    requires DayStart(later.now, b.offset) == DayStart(ctx.now, b.offset)
    requires ctx.used(b.rule.id) == UsedSeconds(rows, b, ctx.now)
    requires later.used(b.rule.id) == UsedSeconds(Run(rows, steps), c, later.now)
    requires later.allowances == ctx.allowances
    requires EvaluateControlled(b.rule, ctx) == Some(AllowanceExhausted)
    ensures EvaluateControlled(b.rule, later).None? <==> !later.tampered && b.rule.id in later.unlocked
    ensures !later.tampered && b.rule.id !in later.unlocked ==>
              EvaluateControlled(b.rule, later) == Some(AllowanceExhausted)
  {
    hide UsedSeconds, Run, DayStart, SameBilling, UpTo, Nondecreasing;
    UsageNeverDecreases(rows, steps, clock, b, c, ctx.now, later.now);
    assert AllowanceMinutes(b.rule, later) == AllowanceMinutes(b.rule, ctx);
  }
}
