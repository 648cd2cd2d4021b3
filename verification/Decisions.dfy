/** What the decision engine guarantees: when it allows, what it reports, and how
    its answer moves with rule order, unlocks, the clock guard and time. */
module Decisions {
  import opened Wrappers
  import opened Calendar
  import opened Config
  import opened Engine

  // ------------------------------------------------------------ what folds find

  ghost predicate DetoxApplies<M>(rule: Rule<M>, x: DetoxSession, s: Subject<M>, ctx: Context) {
    Matching(rule, ScheduledBlock, s) && x in ctx.sessions && Covering(x, rule.id, s, ctx)
  }

  /** The detox loop finds a session exactly when some applying Tier 2 rule is
      covered, and reports the latest end over all of them. */
  lemma {:induction false} DetoxReportsLatestEnd<M>(rules: seq<Rule<M>>, s: Subject<M>, ctx: Context)
    ensures DetoxFold(rules, s, ctx).Some? <==> exists r, x :: r in rules && DetoxApplies(r, x, s, ctx)
    ensures DetoxFold(rules, s, ctx).Some? ==>
              var (best, id) := DetoxFold(rules, s, ctx).value;
              && (exists r | r in rules :: r.id == id && DetoxApplies(r, best, s, ctx))
              && (forall r, x | r in rules && DetoxApplies(r, x, s, ctx) :: x.endsAt <= best.endsAt)
  {
    hide Matching, Covering;
    if rules != [] {
      var n := |rules| - 1;
      DetoxReportsLatestEnd(rules[..n], s, ctx);
      assert forall r :: r in rules <==> r in rules[..n] || r == rules[n];
      var latest := LatestSession(ctx.sessions, rules[n].id, s, ctx);
      if Matching(rules[n], ScheduledBlock, s) && latest.Some? {
        assert DetoxApplies(rules[n], latest.value, s, ctx);
      }
    }
  }

  /** The Tier 3 loop keeps the first blocking rule that no blocking rule beats:
      every earlier blocking rule is beaten by it. */
  lemma {:induction false} StrictestIsFirstUnbeaten<M>(rules: seq<Rule<M>>, s: Subject<M>, ctx: Context)
    ensures StrictestFold(rules, s, ctx).Some? <==> exists r | r in rules :: Tier3Blocks(r, s, ctx)
    ensures StrictestFold(rules, s, ctx).Some? ==>
              var b := StrictestFold(rules, s, ctx).value;
              && (forall k | 0 <= k < |rules| && Tier3Blocks(rules[k], s, ctx) ::
                    !StrictnessOf(rules[k], s, ctx).StricterThan(StrictnessOf(rules[b], s, ctx)))
              && (forall k | 0 <= k < b && Tier3Blocks(rules[k], s, ctx) ::
                    StrictnessOf(rules[b], s, ctx).StricterThan(StrictnessOf(rules[k], s, ctx)))
  {
    hide Tier3Blocks, StrictnessOf;
    if rules != [] {
      var n := |rules| - 1;
      StrictestIsFirstUnbeaten(rules[..n], s, ctx);
      assert forall r :: r in rules <==> r in rules[..n] || r == rules[n];
      assert forall k | 0 <= k < n :: rules[..n][k] == rules[k];
      var before := StrictestFold(rules[..n], s, ctx);
      if before.Some? && Tier3Blocks(rules[n], s, ctx) {
        var last, best := StrictnessOf(rules[n], s, ctx), StrictnessOf(rules[before.value], s, ctx);
        forall k | 0 <= k < n && Tier3Blocks(rules[k], s, ctx)
          ensures last.StricterThan(best) ==> last.StricterThan(StrictnessOf(rules[k], s, ctx))
        {
          StrictWeakOrder(last, StrictnessOf(rules[k], s, ctx), best);
        }
        forall k | 0 <= k < n && Tier3Blocks(rules[k], s, ctx)
          ensures last.StricterThan(best) ==> !StrictnessOf(rules[k], s, ctx).StricterThan(last)
        {
          StrictWeakOrder(StrictnessOf(rules[k], s, ctx), last, best);
        }
        StrictWeakOrder(last, last, last);
      }
    }
  }

  // ------------------------------------------------------------ allow and block

  datatype Kind = Allowed | Unparsed | HardTier | DetoxTier | ScheduledTier | ControlledTier

  function KindOf(d: Decision): Kind {
    match d
    case Allow => Allowed
    case Block(InvalidUrl) => Unparsed
    case Block(Detox(_, _)) => DetoxTier
    case Block(HardBlock(_)) => HardTier
    case Block(Scheduled(_)) => ScheduledTier
    case Block(Controlled(_, _)) => ControlledTier
  }

  ghost predicate AnyHard<M>(rules: seq<Rule<M>>, s: Subject<M>) {
    exists r | r in rules :: Matching(r, Hard, s)
  }

  ghost predicate AnyDetox<M>(rules: seq<Rule<M>>, s: Subject<M>, ctx: Context) {
    exists r, x :: r in rules && DetoxApplies(r, x, s, ctx)
  }

  ghost predicate AnyScheduled<M>(rules: seq<Rule<M>>, s: Subject<M>, ctx: Context) {
    exists r | r in rules :: Matching(r, ScheduledBlock, s) && RuleIsActive(r, ctx)
  }

  ghost predicate AnyTier3<M>(rules: seq<Rule<M>>, s: Subject<M>, ctx: Context) {
    exists r | r in rules :: Tier3Blocks(r, s, ctx)
  }

  /** The outcome and its tier are fixed by which rules exist, in tier order. */
  lemma {:induction false} DecisionKind<M>(rules: seq<Rule<M>>, s: Subject<M>, ctx: Context)
    ensures KindOf(Decide(rules, s, ctx))
            == if AnyHard(rules, s) then HardTier
               else if AnyDetox(rules, s, ctx) then DetoxTier
               else if AnyScheduled(rules, s, ctx) then ScheduledTier
               else if AnyTier3(rules, s, ctx) then ControlledTier
               else Allowed
  {
    hide Matching, RuleIsActive, Tier3Blocks;
    DetoxReportsLatestEnd(rules, s, ctx);
    StrictestIsFirstUnbeaten(rules, s, ctx);
  }

  /** Allowing, spelled out rule by rule. */
  lemma {:induction false} AllowsExactly<M>(rules: seq<Rule<M>>, s: Subject<M>, ctx: Context)
    ensures Decide(rules, s, ctx) == Allow <==>
              forall r | r in rules && r.enabled && RuleApplies(r, s.hit) ::
                match r.tier
                case Hard => false
                case ScheduledBlock =>
                  !RuleIsActive(r, ctx) && forall x | x in ctx.sessions :: !Covering(x, r.id, s, ctx)
                case ControlledAccess => ControlledIsActive(r, s, ctx) ==> EvaluateControlled(r, ctx).None?
  {
    hide RuleApplies, RuleIsActive, Covering, ControlledIsActive, EvaluateControlled, Decide;
    DecisionKind(rules, s, ctx);
    if AnyHard(rules, s) {
      var r :| r in rules && Matching(r, Hard, s);
    } else if AnyDetox(rules, s, ctx) {
      var r, x :| r in rules && DetoxApplies(r, x, s, ctx);
    } else if AnyScheduled(rules, s, ctx) {
      var r :| r in rules && Matching(r, ScheduledBlock, s) && RuleIsActive(r, ctx);
    } else if AnyTier3(rules, s, ctx) {
      var r :| r in rules && Tier3Blocks(r, s, ctx);
    } else {
      forall r, x | r in rules && r.enabled && RuleApplies(r, s.hit) && r.tier.ScheduledBlock? && x in ctx.sessions
        ensures !Covering(x, r.id, s, ctx)
      {
        assert Matching(r, ScheduledBlock, s);
        assert !DetoxApplies(r, x, s, ctx);
      }
    }
  }

  // --------------------------------------------- order of rules, stored order

  /** The two contexts answer every lookup alike. */
  ghost predicate SameLookups(c: Context, d: Context) {
    && (forall id :: FindSchedule(c.schedules, id) == FindSchedule(d.schedules, id))
    && (forall id :: FindAllowance(c.allowances, id) == FindAllowance(d.allowances, id))
    && c.sessions == d.sessions && c.unlocked == d.unlocked && c.used == d.used
    && c.now == d.now && c.offset == d.offset && c.tampered == d.tampered
  }

  lemma {:induction false} SameLookupsSameRule<M>(rule: Rule<M>, s: Subject<M>, c: Context, d: Context)
    requires SameLookups(c, d)
    ensures RuleIsActive(rule, c) == RuleIsActive(rule, d)
    ensures Tier3Blocks(rule, s, c) == Tier3Blocks(rule, s, d)
    ensures forall x :: DetoxApplies(rule, x, s, c) == DetoxApplies(rule, x, s, d)
  {
    forall id ensures ScheduleActive(id, c) == ScheduleActive(id, d) {
    }
    assert SchedulesActive(rule.scheduleIds, c) == SchedulesActive(rule.scheduleIds, d);
    assert AllowanceMinutes(rule, c) == AllowanceMinutes(rule, d);
    assert ControlledIsActive(rule, s, c) == ControlledIsActive(rule, s, d) by {
      forall x ensures Covering(x, rule.id, s, c) == Covering(x, rule.id, s, d) {
      }
    }
  }

  /** Reordering rules, schedules or allowances changes neither the outcome nor
      the tier of a block. */
  lemma {:induction false} OrderDoesNotMatter<M>(rules: seq<Rule<M>>, other: seq<Rule<M>>, s: Subject<M>, c: Context,
        d: Context)
    requires forall r :: r in rules <==> r in other
    requires SameLookups(c, d)
    ensures KindOf(Decide(rules, s, c)) == KindOf(Decide(other, s, d))
  {
    hide Matching, RuleIsActive, Tier3Blocks, DetoxApplies, Decide, SameLookups;
    DecisionKind(rules, s, c);
    DecisionKind(other, s, d);
    forall r: Rule<M>
      ensures RuleIsActive(r, c) == RuleIsActive(r, d)
      ensures Tier3Blocks(r, s, c) == Tier3Blocks(r, s, d)
    {
      SameLookupsSameRule(r, s, c, d);
    }
    forall r: Rule<M>, x ensures DetoxApplies(r, x, s, c) == DetoxApplies(r, x, s, d) {
      SameLookupsSameRule(r, s, c, d);
    }
    assert AnyHard(rules, s) == AnyHard(other, s);
    assert AnyDetox(rules, s, c) == AnyDetox(other, s, d);
    assert AnyScheduled(rules, s, c) == AnyScheduled(other, s, d);
    assert AnyTier3(rules, s, c) == AnyTier3(other, s, d);
  }

  // ------------------------------------------------------------------- unlocks

  /** Unlocks and usage reach Tier 3 only: any other decision is returned as it
      was, rule and session included, and a Tier 3 answer stays in Tier 3. */
  lemma {:induction false} UnlocksOnlyReachTier3<M>(rules: seq<Rule<M>>, s: Subject<M>, ctx: Context,
        unlocked: set<string>, used: string -> int)
    ensures var d := Decide(rules, s, ctx);
            var e := Decide(rules, s, ctx.(unlocked := unlocked, used := used));
            if KindOf(d) == Allowed || KindOf(d) == ControlledTier
            then KindOf(e) == Allowed || KindOf(e) == ControlledTier
            else e == d
  {
    var other := ctx.(unlocked := unlocked, used := used);
    DetoxIgnoresUnlocks(rules, s, ctx, unlocked, used);
    forall r: Rule<M> ensures RuleIsActive(r, ctx) == RuleIsActive(r, other) {
      ActivityIgnoresUnlocks(r, ctx, unlocked, used);
    }
    hide Matching, RuleIsActive;
    SameFirst(rules, r => Matching(r, ScheduledBlock, s) && RuleIsActive(r, ctx),
              r => Matching(r, ScheduledBlock, s) && RuleIsActive(r, other));
  }

  lemma {:induction false} SameFirst<M>(rules: seq<Rule<M>>, p: Rule<M> -> bool, q: Rule<M> -> bool)
    requires forall r :: p(r) == q(r)
    ensures FirstMatching(rules, p) == FirstMatching(rules, q)
  {
    if rules != [] {
      SameFirst(rules[1..], p, q);
    }
  }

  lemma {:induction false} ActivityIgnoresUnlocks<M>(rule: Rule<M>, ctx: Context, unlocked: set<string>,
        used: string -> int)
    ensures RuleIsActive(rule, ctx) == RuleIsActive(rule, ctx.(unlocked := unlocked, used := used))
  {
    forall id ensures ScheduleActive(id, ctx) == ScheduleActive(id, ctx.(unlocked := unlocked, used := used)) {
    }
  }

  lemma {:induction false} LatestIgnoresUnlocks<M>(sessions: seq<DetoxSession>, ruleId: string, s: Subject<M>,
        ctx: Context, unlocked: set<string>, used: string -> int)
    ensures LatestSession(sessions, ruleId, s, ctx)
            == LatestSession(sessions, ruleId, s, ctx.(unlocked := unlocked, used := used))
  {
    if sessions != [] {
      LatestIgnoresUnlocks(sessions[..|sessions| - 1], ruleId, s, ctx, unlocked, used);
    }
  }

  lemma {:induction false} DetoxIgnoresUnlocks<M>(rules: seq<Rule<M>>, s: Subject<M>, ctx: Context,
        unlocked: set<string>, used: string -> int)
    ensures DetoxFold(rules, s, ctx) == DetoxFold(rules, s, ctx.(unlocked := unlocked, used := used))
  {
    if rules != [] {
      var n := |rules| - 1;
      DetoxIgnoresUnlocks(rules[..n], s, ctx, unlocked, used);
      LatestIgnoresUnlocks(ctx.sessions, rules[n].id, s, ctx, unlocked, used);
    }
  }

  // ------------------------------------------------------------ tampered clock

  lemma {:induction false} TamperedKeepsActive<M>(rule: Rule<M>, s: Subject<M>, ctx: Context)
    ensures var t := ctx.(tampered := true);
            && (RuleIsActive(rule, ctx) ==> RuleIsActive(rule, t))
            && (forall x | DetoxApplies(rule, x, s, ctx) :: DetoxApplies(rule, x, s, t))
            && (Tier3Blocks(rule, s, ctx) ==> Tier3Blocks(rule, s, t))
  {
    var t := ctx.(tampered := true);
    if ControlledIsActive(rule, s, ctx) && !RuleIsActive(rule, ctx) {
      var x :| x in ctx.sessions && Covering(x, rule.id, s, ctx);
      assert Covering(x, rule.id, s, t);
    }
  }

  /** Whatever is blocked under a trusted clock is blocked under a tampered one. */
  lemma {:induction false} TamperedIsStricter<M>(rules: seq<Rule<M>>, s: Subject<M>, ctx: Context)
    ensures Decide(rules, s, ctx).Block? ==> Decide(rules, s, ctx.(tampered := true)).Block?
  {
    hide Matching, RuleIsActive, Tier3Blocks, DetoxApplies, Decide;
    var t := ctx.(tampered := true);
    DecisionKind(rules, s, ctx);
    DecisionKind(rules, s, t);
    forall r: Rule<M>
      ensures RuleIsActive(r, ctx) ==> RuleIsActive(r, t)
      ensures forall x | DetoxApplies(r, x, s, ctx) :: DetoxApplies(r, x, s, t)
      ensures Tier3Blocks(r, s, ctx) ==> Tier3Blocks(r, s, t)
    {
      TamperedKeepsActive(r, s, ctx);
    }
  }

  /** The same for URLs, including those that do not parse. */
  lemma {:induction false} TamperedUrlIsStricter(hit: Option<Pattern -> bool>, config: Config, ctx: Context)
    ensures DecideUrl(hit, config, ctx).Block? ==> DecideUrl(hit, config, ctx.(tampered := true)).Block?
  {
    if hit.Some? {
      TamperedIsStricter(config.rules, SiteSubject(hit.value), ctx);
    }
  }

  // ---------------------------------------------------------- detox commitment

  /** A reported detox end is a commitment. With the same rules and the reported
      session still there uncancelled, whatever unlocks, usage, schedules or further
      sessions there are, a later decision is again a detox block if and only if the
      clock is suspect, or the time lies within the reported session, or another
      session covers; in the first two cases it ends no earlier. */
  lemma {:induction false} DetoxCommitment<M>(rules: seq<Rule<M>>, s: Subject<M>, ctx: Context, later: Context)
    requires KindOf(Decide(rules, s, ctx)) == DetoxTier
    requires Decide(rules, s, ctx).reason.session in later.sessions
    ensures var x := Decide(rules, s, ctx).reason.session;
            var runs := later.tampered || x.startsAt <= later.now < x.endsAt;
            && (KindOf(Decide(rules, s, later)) == DetoxTier
                <==> runs || exists r, y :: r in rules && y != x && DetoxApplies(r, y, s, later))
            && (runs ==> x.endsAt <= Decide(rules, s, later).reason.session.endsAt)
  {
    DecisionKind(rules, s, ctx);
    DecisionKind(rules, s, later);
    DetoxReportsLatestEnd(rules, s, ctx);
    DetoxReportsLatestEnd(rules, s, later);
    hide Matching;
    var (best, id) := DetoxFold(rules, s, ctx).value;
    var r :| r in rules && r.id == id && DetoxApplies(r, best, s, ctx);
    if later.tampered || best.startsAt <= later.now < best.endsAt {
      assert DetoxApplies(r, best, s, later);
    }
  }

  /** Under a trusted clock the reported session is running, so until its end no
      later evaluation escapes the block. */
  lemma {:induction false} TrustedCommitment<M>(rules: seq<Rule<M>>, s: Subject<M>, ctx: Context, later: Context)
    requires !ctx.tampered && KindOf(Decide(rules, s, ctx)) == DetoxTier
    requires Decide(rules, s, ctx).reason.session in later.sessions
    requires ctx.now <= later.now < Decide(rules, s, ctx).reason.session.endsAt
    ensures KindOf(Decide(rules, s, later)) == DetoxTier
    ensures Decide(rules, s, ctx).reason.session.endsAt <= Decide(rules, s, later).reason.session.endsAt
  {
    hide Decide;
    DetoxDecisionReportsLatestEnd(rules, s, ctx);
    DetoxCommitment(rules, s, ctx, later);
  }

  /** A suspect clock also reports sessions that have not begun. Should a trusted
      clock then answer before the session begins, the block is gone before the end
      that was reported. */
  lemma {:induction false} TamperedCommitmentLapses(p: Pattern, hit: Pattern -> bool, used: string -> int)
    requires hit(p)
    ensures var rule := Rule("r", "r", ScheduledBlock, true, Blocklist, [p], [], None);
            var session := DetoxSession("d", 100, 200, None, ["r"], []);
            var s := SiteSubject(hit);
            var ctx := Context([], [], [session], {}, used, 0, 0, true);
            && Decide([rule], s, ctx) == Block(Detox(session, "r"))
            && Decide([rule], s, ctx.(now := 50, tampered := false)) == Allow
  {
    var rule := Rule("r", "r", ScheduledBlock, true, Blocklist, [p], [], None);
    var session := DetoxSession("d", 100, 200, None, ["r"], []);
    var s := SiteSubject(hit);
    var ctx := Context([], [], [session], {}, used, 0, 0, true);
    var later := ctx.(now := 50, tampered := false);
    assert rule.members[0] == p && RuleApplies(rule, s.hit) && Matching(rule, ScheduledBlock, s);
    assert [session][..0] == [] && [rule][..0] == [] && [rule][1..] == [];
    assert LatestSession([session], "r", s, ctx) == Some(session);
    assert LatestSession([session], "r", s, later) == None;
    assert DetoxFold([rule], s, ctx) == Some((session, "r")) && DetoxFold([rule], s, later) == None;
    assert !RuleIsActive(rule, later) && !Tier3Blocks(rule, s, later);
  }

  /** A detox block names the latest end over every covered Tier 2 rule. */
  lemma {:induction false} DetoxDecisionReportsLatestEnd<M>(rules: seq<Rule<M>>, s: Subject<M>, ctx: Context)
    requires KindOf(Decide(rules, s, ctx)) == DetoxTier
    ensures var Detox(best, id) := Decide(rules, s, ctx).reason;
            && (exists r | r in rules :: r.id == id && DetoxApplies(r, best, s, ctx))
            && (forall r, x | r in rules && DetoxApplies(r, x, s, ctx) :: x.endsAt <= best.endsAt)
  {
    DetoxReportsLatestEnd(rules, s, ctx);
  }
}
