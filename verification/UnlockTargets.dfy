/** From a block to an unlock and back: which rules a request's target stands for,
    and what the grant then opens. */
module UnlockTargets {
  import opened Wrappers
  import opened Calendar
  import opened Config
  import opened Engine
  import Decisions
  import Text
  import Unlocks

  /** A trimmed target as library code reads it: lower-casing, the URL it parses to
      (its text without fragment and the patterns that hit it), and the application
      matchers whose value it equals. */
  datatype Target = Target(
    text: string, lower: string -> string, url: Option<(string, Pattern -> bool)>, hit: Matcher -> bool)

  type Resolving = Result<Unlocks.Resolution, Unlocks.Refusal>

  function Filter<M>(rules: seq<Rule<M>>, p: Rule<M> -> bool): (r: seq<Rule<M>>)
    ensures forall x | x in r :: x in rules && p(x)
    ensures forall x | x in rules && p(x) :: x in r
  {
    if rules == [] then []
    else
      var n := |rules| - 1;
      assert rules == rules[..n] + [rules[n]];
      Filter(rules[..n], p) + if p(rules[n]) then [rules[n]] else []
  }

  function Named(t: Target): Rule<Matcher> -> bool {
    (r: Rule<Matcher>) => t.lower(Text.Trim(r.name)) == t.lower(t.text)
  }

  function WithId(t: Target): Rule<Matcher> -> bool {
    (r: Rule<Matcher>) => r.id == t.text
  }

  function Strict(): Rule<Matcher> -> bool {
    (r: Rule<Matcher>) => r.enabled && r.tier.ScheduledBlock?
  }

  function StrictOn(t: Target): Rule<Matcher> -> bool {
    (r: Rule<Matcher>) => r.enabled && r.tier.ScheduledBlock? && (r.id == t.text || RuleApplies(r, t.hit))
  }

  function OpenToUnlock(s: Subject<Matcher>, ctx: Context): Rule<Matcher> -> bool {
    (r: Rule<Matcher>) => r.enabled && r.tier.ControlledAccess? && ControlledIsActive(r, s, ctx)
  }

  function InForce(ctx: Context): Rule<Matcher> -> bool {
    (r: Rule<Matcher>) => r.enabled && (r.tier.Hard? || RuleIsActive(r, ctx))
  }

  function IsHard<M>(s: Subject<M>): Rule<M> -> bool {
    (r: Rule<M>) => Matching(r, Hard, s)
  }

  function IsScheduled<M>(s: Subject<M>, ctx: Context): Rule<M> -> bool {
    (r: Rule<M>) => Matching(r, ScheduledBlock, s) && RuleIsActive(r, ctx)
  }

  /** A Tier 3 rule in force on the subject, blocking or not. */
  predicate Restricts<M>(rule: Rule<M>, s: Subject<M>, ctx: Context) {
    Matching(rule, ControlledAccess, s) && ControlledIsActive(rule, s, ctx)
  }

  function IsControlled<M>(s: Subject<M>, ctx: Context): Rule<M> -> bool {
    (r: Rule<M>) => Restricts(r, s, ctx)
  }

  /** A list name stands for every list of that name; failing that, a list id. */
  function NamedLists(rules: seq<Rule<Matcher>>, t: Target): seq<Rule<Matcher>> {
    var named := Filter(rules, Named(t));
    if named != [] then named else Filter(rules, WithId(t))
  }

  function Ids<M>(rules: seq<Rule<M>>): (ids: seq<string>)
    ensures |ids| == |rules| && forall k | 0 <= k < |rules| :: ids[k] == rules[k].id
  {
    seq(|rules|, k requires 0 <= k < |rules| => rules[k].id)
  }

  function FirstIn(ids: seq<string>, among: seq<string>): Option<string> {
    if ids == [] then None
    else if ids[0] in among then Some(ids[0])
    else FirstIn(ids[1..], among)
  }

  /** The last active session with the latest end that holds one of the ids, with
      the first such id. */
  function SessionFold(sessions: seq<DetoxSession>, ids: seq<string>, ctx: Context): Option<(string, DetoxSession)> {
    if sessions == [] then None
    else
      var n := |sessions| - 1;
      var before := SessionFold(sessions[..n], ids, ctx);
      if !SessionActive(sessions[n], ctx) then before
      else
        match FirstIn(ids, sessions[n].appRuleIds)
        case None => before
        case Some(id) =>
          if before.None? || before.value.1.endsAt <= sessions[n].endsAt then Some((id, sessions[n])) else before
  }

  function DetoxLists(t: Target, c: Config): seq<Rule<Matcher>> {
    var named := NamedLists(c.appRules, t);
    if named != [] then Filter(named, Strict())
    else Filter(c.appRules, StrictOn(t))
  }

  function DetoxForTarget(t: Target, c: Config, ctx: Context): Option<(string, DetoxSession)> {
    var site := if NamedLists(c.appRules, t) == [] && t.url.Some?
                then DetoxFold(c.rules, SiteSubject(t.url.value.1), ctx) else None;
    match site
    case Some((session, id)) => Some((id, session))
    case None => SessionFold(ctx.sessions, Ids(DetoxLists(t, c)), ctx)
  }

  /** The strictest Tier 3 rule in force on a subject, blocking or not. */
  function ActiveFold<M>(rules: seq<Rule<M>>, s: Subject<M>, ctx: Context): (r: Option<nat>)
    ensures r.Some? ==> r.value < |rules| && Restricts(rules[r.value], s, ctx)
    ensures r.None? ==> StrictestFold(rules, s, ctx).None?
  {
    if rules == [] then None
    else
      var n := |rules| - 1;
      var before := ActiveFold(rules[..n], s, ctx);
      if !Restricts(rules[n], s, ctx) then before
      else if before.None?
              || StrictnessOf(rules[n], s, ctx).StricterThan(StrictnessOf(rules[before.value], s, ctx)) then Some(n)
      else before
  }

  function ControlledForUnlock(rules: seq<Rule<Pattern>>, s: Subject<Pattern>, ctx: Context): (r: Option<nat>)
    ensures r.Some? ==> r.value < |rules| && IsControlled(s, ctx)(rules[r.value])
    ensures r.None? ==> StrictestFold(rules, s, ctx).None?
  {
    var blocking := StrictestFold(rules, s, ctx);
    if blocking.Some? then blocking else ActiveFold(rules, s, ctx)
  }

  function FromList(rule: Rule<Matcher>, t: Target): Resolving {
    match rule.tier
    case Hard => Err(Unlocks.HardBlocked(rule.id))
    case ScheduledBlock => Err(Unlocks.ScheduledBlocked(rule.id))
    case ControlledAccess => Ok(Unlocks.Resolved(t.text, [rule.id]))
  }

  function ResolveNamed(named: seq<Rule<Matcher>>, t: Target, ctx: Context): Resolving {
    match FirstMatching(named, InForce(ctx))
    case Some(k) => FromList(named[k], t)
    case None => Err(Unlocks.UnknownTarget)
  }

  /** None: no site rule speaks, and application rules are tried. */
  function ResolveUrl(rules: seq<Rule<Pattern>>, text: string, s: Subject<Pattern>, ctx: Context): Option<Resolving> {
    match FirstMatching(rules, IsHard(s))
    case Some(k) => Some(Err(Unlocks.HardBlocked(rules[k].id)))
    case None =>
      match FirstMatching(rules, IsScheduled(s, ctx))
      case Some(k) => Some(Err(Unlocks.ScheduledBlocked(rules[k].id)))
      case None =>
        match ControlledForUnlock(rules, s, ctx)
        case Some(k) => Some(Ok(Unlocks.Resolved(text, [rules[k].id])))
        case None => None
  }

  function ResolveApp(rules: seq<Rule<Matcher>>, t: Target, ctx: Context): Resolving {
    var s := AppSubject(t.hit);
    match FirstMatching(rules, IsHard(s))
    case Some(k) => Err(Unlocks.HardBlocked(rules[k].id))
    case None =>
      match FirstMatching(rules, IsScheduled(s, ctx))
      case Some(k) => Err(Unlocks.ScheduledBlocked(rules[k].id))
      case None =>
        match FirstMatching(rules, IsControlled(s, ctx))
        case Some(k) => Ok(Unlocks.Resolved(t.text, [rules[k].id]))
        case None => Err(Unlocks.UnknownTarget)
  }

  function ResolveOne(t: Target, c: Config, ctx: Context): Resolving {
    var named := NamedLists(c.appRules, t);
    if named != [] then ResolveNamed(named, t, ctx)
    else
      var url := if t.url.Some? then ResolveUrl(c.rules, t.url.value.0, SiteSubject(t.url.value.1), ctx) else None;
      if url.Some? then url.value else ResolveApp(c.appRules, t, ctx)
  }

  function Eligible(t: Target, c: Config, ctx: Context): seq<Rule<Matcher>> {
    Filter(NamedLists(c.appRules, t), OpenToUnlock(AppSubject(t.hit), ctx))
  }

  function Resolve(t: Target, c: Config, ctx: Context): Resolving {
    var eligible := Eligible(t, c, ctx);
    if eligible != [] then Ok(Unlocks.Resolved(t.text, Ids(eligible)))
    else
      match DetoxForTarget(t, c, ctx)
      case Some((id, session)) => Err(Unlocks.InDetox(id, session.id, session.endsAt))
      case None => ResolveOne(t, c, ctx)
  }

  // ----------------------------------------------------------------- the resolver

  method Select<M>(rules: seq<Rule<M>>, p: Rule<M> -> bool) returns (r: seq<Rule<M>>)
    ensures r == Filter(rules, p)
  {
    r := [];
    for k := 0 to |rules|
      invariant r == Filter(rules[..k], p)
    {
      assert rules[..k + 1][..k] == rules[..k];
      if p(rules[k]) {
        r := r + [rules[k]];
      }
    }
    assert rules[..|rules|] == rules;
  }

  method ApplicationLists(rules: seq<Rule<Matcher>>, t: Target) returns (r: seq<Rule<Matcher>>)
    ensures r == NamedLists(rules, t)
  {
    r := Select(rules, Named(t));
    if r == [] {
      r := Select(rules, WithId(t));
    }
  }

  method LatestSessionFor(ids: seq<string>, ctx: Context) returns (r: Option<(string, DetoxSession)>)
    ensures r == SessionFold(ctx.sessions, ids, ctx)
  {
    r := None;
    for k := 0 to |ctx.sessions|
      invariant r == SessionFold(ctx.sessions[..k], ids, ctx)
    {
      assert ctx.sessions[..k + 1][..k] == ctx.sessions[..k];
      var session := ctx.sessions[k];
      var id := FirstIn(ids, session.appRuleIds);
      if SessionActive(session, ctx) && id.Some? && (r.None? || r.value.1.endsAt <= session.endsAt) {
        r := Some((id.value, session));
      }
    }
    assert ctx.sessions[..|ctx.sessions|] == ctx.sessions;
  }

  method StrictestForUnlock(rules: seq<Rule<Pattern>>, s: Subject<Pattern>, ctx: Context) returns (r: Option<nat>)
    ensures r == ControlledForUnlock(rules, s, ctx)
  {
    hide Matching, ControlledIsActive, EvaluateControlled, StrictnessOf;
    var current: Option<nat> := None;
    var blocking: Option<nat> := None;
    for k := 0 to |rules|
      invariant current == ActiveFold(rules[..k], s, ctx)
      invariant blocking == StrictestFold(rules[..k], s, ctx)
    {
      assert rules[..k + 1][..k] == rules[..k];
      var rule := rules[k];
      if Matching(rule, ControlledAccess, s) && ControlledIsActive(rule, s, ctx) {
        var strictness := StrictnessOf(rule, s, ctx);
        if current.None? || strictness.StricterThan(StrictnessOf(rules[current.value], s, ctx)) {
          current := Some(k);
        }
        if EvaluateControlled(rule, ctx).Some?
           && (blocking.None? || strictness.StricterThan(StrictnessOf(rules[blocking.value], s, ctx))) {
          blocking := Some(k);
        }
      }
    }
    assert rules[..|rules|] == rules;
    r := if blocking.Some? then blocking else current;
  }

  method ResolveUnlockRule(t: Target, c: Config, ctx: Context) returns (r: Resolving)
    ensures r == ResolveOne(t, c, ctx)
  {
    hide Matching, RuleIsActive, RuleApplies, ControlledIsActive, ControlledForUnlock, Filter;
    var named := ApplicationLists(c.appRules, t);
    if named != [] {
      var first := FindFirst(named, InForce(ctx));
      return if first.Some? then FromList(named[first.value], t) else Err(Unlocks.UnknownTarget);
    }
    if t.url.Some? {
      var s := SiteSubject(t.url.value.1);
      var hard := FindFirst(c.rules, IsHard(s));
      if hard.Some? {
        return Err(Unlocks.HardBlocked(c.rules[hard.value].id));
      }
      var scheduled := FindFirst(c.rules, IsScheduled(s, ctx));
      if scheduled.Some? {
        return Err(Unlocks.ScheduledBlocked(c.rules[scheduled.value].id));
      }
      var controlled := StrictestForUnlock(c.rules, s, ctx);
      if controlled.Some? {
        return Ok(Unlocks.Resolved(t.url.value.0, [c.rules[controlled.value].id]));
      }
    }
    var s := AppSubject(t.hit);
    var hard := FindFirst(c.appRules, IsHard(s));
    if hard.Some? {
      return Err(Unlocks.HardBlocked(c.appRules[hard.value].id));
    }
    var scheduled := FindFirst(c.appRules, IsScheduled(s, ctx));
    if scheduled.Some? {
      return Err(Unlocks.ScheduledBlocked(c.appRules[scheduled.value].id));
    }
    var controlled := FindFirst(c.appRules, IsControlled(s, ctx));
    r := if controlled.Some? then Ok(Unlocks.Resolved(t.text, [c.appRules[controlled.value].id]))
        else Err(Unlocks.UnknownTarget);
  }

  method DetoxForUnlockTarget(t: Target, c: Config, ctx: Context) returns (r: Option<(string, DetoxSession)>)
    ensures r == DetoxForTarget(t, c, ctx)
  {
    hide DetoxFold, SessionFold, RuleApplies, Filter;
    var named := ApplicationLists(c.appRules, t);
    if named != [] {
      var strict := Select(named, Strict());
      r := LatestSessionFor(Ids(strict), ctx);
      return;
    }
    if t.url.Some? {
      var site := DetoxBlock(c.rules, SiteSubject(t.url.value.1), ctx);
      if site.Some? {
        return Some((site.value.1, site.value.0));
      }
    }
    var strict := Select(c.appRules, StrictOn(t));
    r := LatestSessionFor(Ids(strict), ctx);
  }

  method ResolveUnlockRules(t: Target, c: Config, ctx: Context) returns (r: Resolving)
    ensures r == Resolve(t, c, ctx)
  {
    hide DetoxForTarget, ResolveOne, Filter;
    var named := ApplicationLists(c.appRules, t);
    var eligible := Select(named, OpenToUnlock(AppSubject(t.hit), ctx));
    if eligible != [] {
      return Ok(Unlocks.Resolved(t.text, Ids(eligible)));
    }
    var detox := DetoxForUnlockTarget(t, c, ctx);
    if detox.Some? {
      return Err(Unlocks.InDetox(detox.value.0, detox.value.1.id, detox.value.1.endsAt));
    }
    r := ResolveUnlockRule(t, c, ctx);
  }

  method RequestUnlock(table: Unlocks.UnlockTable, t: Target, c: Config, ctx: Context, reason: string,
        letters: Unlocks.Letters)
    returns (r: Result<nat, Unlocks.UnlockError>)
    modifies table
    ensures match Unlocks.Request(old(table.Now()), t.text, Resolve(t, c, ctx), reason, ctx.now, letters)
            case Ok(after) => r == Ok(|old(table.grants)|) && table.Now() == after
            case Err(error) => r == Err(error) && table.Now() == old(table.Now())
  {
    hide Unlocks.Request, Resolve;
    var resolved := ResolveUnlockRules(t, c, ctx);
    r := table.RequestUnlock(t.text, resolved, reason, ctx.now, letters);
  }

  // ------------------------------------------------------------ what it resolves to

  /** An enabled Tier 3 rule in force: an application list the target names or
      whose matchers it meets, or a site list that the target's URL falls under. */
  ghost predicate Answers(id: string, t: Target, c: Config, ctx: Context) {
    || (exists r | r in c.appRules :: r.id == id && OpenToUnlock(AppSubject(t.hit), ctx)(r)
                                      && (r in NamedLists(c.appRules, t) || RuleApplies(r, t.hit)))
    || (t.url.Some? && exists r | r in c.rules :: r.id == id && IsControlled(SiteSubject(t.url.value.1), ctx)(r))
  }

  lemma {:induction false} FirstInBoth(ids: seq<string>, among: seq<string>)
    ensures FirstIn(ids, among).Some? <==> exists id | id in ids :: id in among
    ensures FirstIn(ids, among).Some? ==> FirstIn(ids, among).value in ids && FirstIn(ids, among).value in among
  {
    if ids != [] {
      FirstInBoth(ids[1..], among);
      assert forall id :: id in ids <==> id == ids[0] || id in ids[1..];
    }
  }

  ghost predicate Holds(x: DetoxSession, ids: seq<string>, ctx: Context) {
    SessionActive(x, ctx) && exists id | id in ids :: id in x.appRuleIds
  }

  /** The fold finds a session exactly when an active one holds one of the ids, and
      the one it finds ends last of those. */
  lemma {:induction false} SessionReportsLatestEnd(sessions: seq<DetoxSession>, ids: seq<string>, ctx: Context)
    ensures SessionFold(sessions, ids, ctx).Some? <==> exists x | x in sessions :: Holds(x, ids, ctx)
    ensures SessionFold(sessions, ids, ctx).Some? ==>
              var (id, best) := SessionFold(sessions, ids, ctx).value;
              && best in sessions && SessionActive(best, ctx) && id in ids && id in best.appRuleIds
              && (forall x | x in sessions && Holds(x, ids, ctx) :: x.endsAt <= best.endsAt)
  {
    hide SessionActive, FirstIn;
    if sessions != [] {
      var n := |sessions| - 1;
      SessionReportsLatestEnd(sessions[..n], ids, ctx);
      FirstInBoth(ids, sessions[n].appRuleIds);
      assert Holds(sessions[n], ids, ctx)
             <==> SessionActive(sessions[n], ctx) && FirstIn(ids, sessions[n].appRuleIds).Some?;
      assert forall x :: x in sessions <==> x in sessions[..n] || x == sessions[n];
    }
  }

  /** Naming application lists unlocks the whole group: every list of the group that
      is open to it and no other, and nothing at all only when none is open. */
  lemma {:induction false} NamedResolvesToGroup(t: Target, c: Config, ctx: Context)
    requires NamedLists(c.appRules, t) != []
    ensures var group := NamedLists(c.appRules, t);
            var isOpen := OpenToUnlock(AppSubject(t.hit), ctx);
            && (Resolve(t, c, ctx).Ok? <==> exists r | r in group :: isOpen(r))
            && (Resolve(t, c, ctx).Ok? ==>
                  && Resolve(t, c, ctx).value.target == t.text
                  && forall id :: id in Resolve(t, c, ctx).value.ruleIds <==> exists r | r in group ::
                      r.id == id && isOpen(r))
  {
    hide NamedLists, DetoxForTarget, SchedulesActive, SessionActive;
    var group, eligible := NamedLists(c.appRules, t), Eligible(t, c, ctx);
    if eligible == [] {
      assert forall r | r in group :: r !in eligible;
      forall k | 0 <= k < |group| && InForce(ctx)(group[k]) ensures !group[k].tier.ControlledAccess? {
        assert group[k] in group;
      }
    } else {
      assert eligible[0] in eligible;
      forall id ensures id in Ids(eligible) <==> exists r | r in group ::
          r.id == id && OpenToUnlock(AppSubject(t.hit), ctx)(r) {
        if r :| r in group && r.id == id && OpenToUnlock(AppSubject(t.hit), ctx)(r) {
          assert r in eligible;
          var k :| 0 <= k < |eligible| && eligible[k] == r;
          assert Ids(eligible)[k] == id;
        }
        if id in Ids(eligible) {
          var k :| 0 <= k < |eligible| && eligible[k].id == id;
          assert eligible[k] in eligible;
        }
      }
    }
  }

  lemma {:induction false} FilterDistinct<M(!new)>(rules: seq<Rule<M>>, p: Rule<M> -> bool)
    requires Distinct(RuleIds(rules))
    ensures Distinct(RuleIds(Filter(rules, p)))
  {
    if rules != [] {
      var n := |rules| - 1;
      var before := Filter(rules[..n], p);
      assert RuleIds(rules)[..n] == RuleIds(rules[..n]);
      FilterDistinct(rules[..n], p);
      forall i | 0 <= i < |before| ensures before[i].id != rules[n].id {
        assert before[i] in before;
        var k :| 0 <= k < n && rules[..n][k] == before[i];
        assert RuleIds(rules)[k] != RuleIds(rules)[n];
      }
      assert RuleIds(Filter(rules, p)) == RuleIds(before) + if p(rules[n]) then [rules[n].id] else [];
    }
  }

  /** A request only ever unlocks Tier 3 rules that are in force on its target. */
  lemma {:induction false} ResolvesToTier3(t: Target, c: Config, ctx: Context)
    requires Resolve(t, c, ctx).Ok?
    ensures forall id | id in Resolve(t, c, ctx).value.ruleIds :: Answers(id, t, c, ctx)
  {
    hide RuleApplies, ControlledForUnlock, DetoxForTarget, SessionActive, RuleIsActive, ControlledIsActive, NamedLists;
    var eligible := Eligible(t, c, ctx);
    NamedAreLists(t, c);
    forall id | id in Resolve(t, c, ctx).value.ruleIds ensures Answers(id, t, c, ctx) {
      if eligible != [] {
        var k :| 0 <= k < |eligible| && eligible[k].id == id;
        assert eligible[k] in eligible;
      } else {
        OneAnswers(t, c, ctx);
      }
    }
  }

  lemma {:induction false} NamedAreLists(t: Target, c: Config)
    ensures forall r | r in NamedLists(c.appRules, t) :: r in c.appRules
  {
  }

  lemma {:induction false} OneAnswers(t: Target, c: Config, ctx: Context)
    requires ResolveOne(t, c, ctx).Ok?
    ensures |ResolveOne(t, c, ctx).value.ruleIds| == 1
    ensures Answers(ResolveOne(t, c, ctx).value.ruleIds[0], t, c, ctx)
  {
    hide RuleApplies, ControlledForUnlock, NamedLists, SchedulesActive;
    NamedAreLists(t, c);
  }

  lemma {:induction false} EligibleDistinct(t: Target, c: Config, ctx: Context)
    requires Distinct(RuleIds(c.appRules))
    ensures Distinct(Ids(Eligible(t, c, ctx)))
  {
    hide Filter, Distinct;
    FilterDistinct(c.appRules, Named(t));
    FilterDistinct(c.appRules, WithId(t));
    FilterDistinct(NamedLists(c.appRules, t), OpenToUnlock(AppSubject(t.hit), ctx));
    assert Ids(Eligible(t, c, ctx)) == RuleIds(Eligible(t, c, ctx));
  }

  /** With a valid policy the rows of a grant never collide, so a request that
      passes the checks is always written. */
  lemma {:induction false} ValidPolicyAlwaysWrites(t: Target, c: Config, ctx: Context, parses: string -> bool,
        l: Unlocks.Ledger, reason: string, letters: Unlocks.Letters)
    requires Valid(c, parses)
    ensures Unlocks.Request(l, t.text, Resolve(t, c, ctx), reason, ctx.now, letters) != Err(Unlocks.WriteFailed)
  {
    hide DetoxForTarget, Valid, Eligible, Unlocks.ActiveUnlock, Unlocks.CountSince, Unlocks.ReasonUsed,
        Unlocks.FirstActive,
      Unlocks.TargetRows, Text.CleanReason, Text.Trim, Unlocks.LetterCount, NamedLists, ControlledForUnlock;
    assert Distinct(RuleIds(c.appRules)) by {
      ValidIds(c, parses);
    }
    EligibleDistinct(t, c, ctx);
  }

  lemma {:induction false} ValidIds(c: Config, parses: string -> bool)
    requires Valid(c, parses)
    ensures Distinct(RuleIds(c.appRules))
  {
    hide RuleOk, OwnAllowances;
  }

  /** For a URL that names no application list the request is answered from the very
      decision the page was shown. An unlock is asked of exactly the Tier 3 rule
      reported; otherwise the request is refused with the rule reported, a detox, on
      the page or on an application the target also fits, taking precedence. A page
      that is allowed is unlocked ahead of time through the strictest rule in force,
      or taken for an application if there is none. */
  lemma {:induction false} ResolveFollowsDecision(t: Target, c: Config, ctx: Context)
    requires t.url.Some? && NamedLists(c.appRules, t) == []
    ensures var s := SiteSubject(t.url.value.1);
            var site := DetoxFold(c.rules, s, ctx);
            var app := SessionFold(ctx.sessions, Ids(DetoxLists(t, c)), ctx);
            Resolve(t, c, ctx)
            == if site.Some? then Err(Unlocks.InDetox(site.value.1, site.value.0.id, site.value.0.endsAt))
               else if app.Some? then Err(Unlocks.InDetox(app.value.0, app.value.1.id, app.value.1.endsAt))
               else
                 match Decide(c.rules, s, ctx)
                 case Block(HardBlock(id)) => Err(Unlocks.HardBlocked(id))
                 case Block(Scheduled(id)) => Err(Unlocks.ScheduledBlocked(id))
                 case Block(Controlled(id, _)) => Ok(Unlocks.Resolved(t.url.value.0, [id]))
                 case _ =>
                   match ActiveFold(c.rules, s, ctx)
                   case Some(k) => Ok(Unlocks.Resolved(t.url.value.0, [c.rules[k].id]))
                   case None => ResolveApp(c.appRules, t, ctx)
    ensures var s := SiteSubject(t.url.value.1);
            Decisions.KindOf(Decide(c.rules, s, ctx)) == Decisions.DetoxTier ==> DetoxFold(c.rules, s, ctx).Some?
  {
    assert Eligible(t, c, ctx) == [];
    hide Eligible, NamedLists, DetoxLists, Matching, RuleIsActive, RuleApplies, DetoxFold, StrictestFold, ActiveFold,
      SessionFold, ResolveApp;
  }

  /** The fallback is the strictest rule in force: no rule in force beats it and it
      beats every earlier one. */
  lemma {:induction false} ActiveIsFirstUnbeaten(rules: seq<Rule<Pattern>>, s: Subject<Pattern>, ctx: Context)
    ensures ActiveFold(rules, s, ctx).Some? <==> exists r | r in rules :: Restricts(r, s, ctx)
    ensures ActiveFold(rules, s, ctx).Some? ==>
              var b := ActiveFold(rules, s, ctx).value;
              && (forall k | 0 <= k < |rules| && Restricts(rules[k], s, ctx) ::
                    !StrictnessOf(rules[k], s, ctx).StricterThan(StrictnessOf(rules[b], s, ctx)))
              && (forall k | 0 <= k < b && Restricts(rules[k], s, ctx) ::
                    StrictnessOf(rules[b], s, ctx).StricterThan(StrictnessOf(rules[k], s, ctx)))
  {
    hide Restricts, StrictnessOf, StrictestFold;
    if rules != [] {
      var n := |rules| - 1;
      ActiveIsFirstUnbeaten(rules[..n], s, ctx);
      assert forall r :: r in rules <==> r in rules[..n] || r == rules[n];
      assert forall k | 0 <= k < n :: rules[..n][k] == rules[k];
      var before := ActiveFold(rules[..n], s, ctx);
      if before.Some? && Restricts(rules[n], s, ctx) {
        var last, best := StrictnessOf(rules[n], s, ctx), StrictnessOf(rules[before.value], s, ctx);
        forall k | 0 <= k < n && Restricts(rules[k], s, ctx)
          ensures last.StricterThan(best) ==>
                    last.StricterThan(StrictnessOf(rules[k], s, ctx))
                        && !StrictnessOf(rules[k], s, ctx).StricterThan(last)
        {
          StrictWeakOrder(last, StrictnessOf(rules[k], s, ctx), best);
          StrictWeakOrder(StrictnessOf(rules[k], s, ctx), last, best);
        }
        StrictWeakOrder(last, last, last);
      }
    }
  }

  /** A detox on the page the target's URL falls under. */
  ghost predicate SiteDetox(t: Target, c: Config, ctx: Context) {
    NamedLists(c.appRules, t) == [] && t.url.Some? && Decisions.AnyDetox(c.rules, SiteSubject(t.url.value.1), ctx)
  }

  /** A target is refused for a detox if and only if no list it names is open to an
      unlock and an active session covers a Tier 2 rule on its page or holds a Tier 2
      application list it fits; the end reported is the latest of the kind. */
  lemma {:induction false} RefusedForDetoxExactly(t: Target, c: Config, ctx: Context)
    ensures var r := Resolve(t, c, ctx);
            var ids := Ids(DetoxLists(t, c));
            && (r.Err? && r.error.InDetox? <==>
                Eligible(t, c, ctx) == []
                && (SiteDetox(t, c, ctx) || exists x | x in ctx.sessions :: Holds(x, ids, ctx)))
            && (r.Err? && r.error.InDetox? && SiteDetox(t, c, ctx) ==>
                  var s := SiteSubject(t.url.value.1);
                  && (exists y, x | y in c.rules && Decisions.DetoxApplies(y, x, s, ctx) ::
                        y.id == r.error.ruleId && x.id == r.error.sessionId && x.endsAt == r.error.endsAt)
                  && (forall y, x | y in c.rules && Decisions.DetoxApplies(y, x, s, ctx) :: x.endsAt <= r.error.endsAt))
            && (r.Err? && r.error.InDetox? && !SiteDetox(t, c, ctx) ==>
                  && (exists x | x in ctx.sessions ::
                      Holds(x, ids, ctx) && x.id == r.error.sessionId && x.endsAt == r.error.endsAt)
                  && (forall x | x in ctx.sessions && Holds(x, ids, ctx) :: x.endsAt <= r.error.endsAt))
  {
    SessionReportsLatestEnd(ctx.sessions, Ids(DetoxLists(t, c)), ctx);
    if t.url.Some? {
      Decisions.DetoxReportsLatestEnd(c.rules, SiteSubject(t.url.value.1), ctx);
    }
    OnlyDetoxRefusesSo(t, c, ctx);
    hide SessionFold, DetoxFold, ResolveOne, Eligible, DetoxLists, NamedLists, SessionActive, Decisions.DetoxApplies;
  }

  lemma {:induction false} OnlyDetoxRefusesSo(t: Target, c: Config, ctx: Context)
    ensures var r := ResolveOne(t, c, ctx); !(r.Err? && r.error.InDetox?)
  {
    hide NamedLists, ControlledForUnlock, RuleIsActive, Matching, ControlledIsActive;
  }

  // ------------------------------------------------------------ what a grant opens

  /** The rule ids with an unlock at an instant, as an evaluation sees them. */
  function UnlockedAt(l: Unlocks.Ledger, now: int): (ids: set<string>)
    ensures forall r :: r in ids <==> Unlocks.ActiveUnlock(l, r, now).Some?
  {
    var ids := set t | t in l.targets && Unlocks.ActiveUnlock(l, t.ruleId, now).Some? :: t.ruleId;
    assert forall r, k: nat | k < |l.grants| && Unlocks.Candidate(l, k, r, now) :: exists t | t in l.targets ::
        t.ruleId == r;
    ids
  }

  /** A grant adds its rules for two minutes, and touches no other rule. */
  lemma {:induction false} AfterGrant(l: Unlocks.Ledger, target: string, resolved: Unlocks.Resolution, reason: string,
        now: int, letters: Unlocks.Letters, at: int)
    requires Unlocks.Covered(l) && Unlocks.Request(l, target, Ok(resolved), reason, now, letters).Ok?
    ensures var after := Unlocks.Request(l, target, Ok(resolved), reason, now, letters).value;
            forall r :: r in UnlockedAt(after, at) <==>
              r in UnlockedAt(l, at) || (r in resolved.ruleIds && at < now + 120_000_000)
  {
    hide Text.CleanReason, Text.Trim, Unlocks.LetterCount, Unlocks.ReasonUsed, Unlocks.CountSince, Unlocks.FirstActive;
    var after := Unlocks.Request(l, target, Ok(resolved), reason, now, letters).value;
    hide Unlocks.Request;
    var rows := Unlocks.TargetRows(|l.grants|, resolved.ruleIds);
    forall r, k: nat | k < |l.grants| ensures Unlocks.Live(after.targets, k, r) <==> Unlocks.Live(l.targets, k, r) {
      forall t | t in rows ensures t.unlockId == |l.grants| {
      }
    }
    forall r ensures Unlocks.Live(after.targets, |l.grants|, r) <==> r in resolved.ruleIds {
      if r in resolved.ruleIds {
        var j :| 0 <= j < |resolved.ruleIds| && resolved.ruleIds[j] == r;
        assert Unlocks.LiveRow(rows[j], |l.grants|, r) && rows[j] in after.targets;
      }
    }
    hide Unlocks.Live, Unlocks.LatestLive;
    forall r ensures r in UnlockedAt(after, at) <==>
        r in UnlockedAt(l, at) || (r in resolved.ruleIds && at < now + 120_000_000)
    {
      Latest(l, r, at);
      Latest(after, r, at);
      forall k: nat | k < |l.grants| ensures Unlocks.Candidate(after, k, r, at) <==> Unlocks.Candidate(l, k, r, at) {
      }
      assert Unlocks.Candidate(after, |l.grants|, r, at) <==> r in resolved.ruleIds && at < now + 120_000_000;
    }
  }

  lemma {:induction false} Latest(l: Unlocks.Ledger, r: string, at: int)
    ensures Unlocks.ActiveUnlock(l, r, at).Some? <==> exists k: nat | k < |l.grants| :: Unlocks.Candidate(l, k, r, at)
  {
    var latest := Unlocks.LatestLive(l, |l.grants|, r, at);
    assert latest.Some? ==> Unlocks.Candidate(l, latest.value, r, at);
  }

  /** What a grant opens. The subject is allowed after it exactly when no higher
      tier blocks and every Tier 3 rule that blocks is one the grant names, the
      grant still runs and the clock is trusted: a page under two exhausted lists
      stays blocked after its unlock. */
  lemma {:induction false} GrantOpens<M(!new)>(rules: seq<Rule<M>>, s: Subject<M>, ctx: Context, l: Unlocks.Ledger,
        target: string, resolved: Unlocks.Resolution, reason: string, now: int, letters: Unlocks.Letters)
    requires Unlocks.Covered(l) && ctx.unlocked == UnlockedAt(l, ctx.now)
    requires Unlocks.Request(l, target, Ok(resolved), reason, now, letters).Ok?
    ensures var after := Unlocks.Request(l, target, Ok(resolved), reason, now, letters).value;
            var later := ctx.(unlocked := UnlockedAt(after, ctx.now));
            Decide(rules, s, later) == Allow <==>
              && Decisions.KindOf(Decide(rules, s, ctx)) in {Decisions.Allowed, Decisions.ControlledTier}
              && forall r | r in rules && Tier3Blocks(r, s, ctx) ::
                   !ctx.tampered && ctx.now < now + 120_000_000 && r.id in resolved.ruleIds
  {
    hide Unlocks.Request, Unlocks.Covered, UnlockedAt, Decide, Matching, ControlledIsActive, AllowanceMinutes;
    var after := Unlocks.Request(l, target, Ok(resolved), reason, now, letters).value;
    var later := ctx.(unlocked := UnlockedAt(after, ctx.now));
    AfterGrant(l, target, resolved, reason, now, letters, ctx.now);
    Decisions.UnlocksOnlyReachTier3(rules, s, ctx, later.unlocked, ctx.used);
    Decisions.DecisionKind(rules, s, ctx);
    Decisions.DecisionKind(rules, s, later);
    forall r: Rule<M>
      ensures Tier3Blocks(r, s, later) <==>
                Tier3Blocks(r, s, ctx) && (ctx.tampered || !(r.id in resolved.ruleIds && ctx.now < now + 120_000_000))
    {
      UnlockedRule(r, s, ctx, later);
    }
  }

  lemma {:induction false} UnlockedRule<M>(rule: Rule<M>, s: Subject<M>, ctx: Context, later: Context)
    requires later == ctx.(unlocked := later.unlocked) && ctx.unlocked <= later.unlocked
    ensures Tier3Blocks(rule, s, later) <==> Tier3Blocks(rule, s, ctx) && (ctx.tampered || rule.id !in later.unlocked)
  {
    hide Matching;
    assert ControlledIsActive(rule, s, later) == ControlledIsActive(rule, s, ctx) by {
      forall x ensures Covering(x, rule.id, s, later) == Covering(x, rule.id, s, ctx) {
      }
      Decisions.ActivityIgnoresUnlocks(rule, ctx, later.unlocked, ctx.used);
    }
    assert AllowanceMinutes(rule, later) == AllowanceMinutes(rule, ctx);
  }

  // ------------------------------------------- a page that its unlock leaves blocked

  function Morning(id: string): Schedule {
    Schedule(id, None, [Window(Everyday, Clock(0, 0), Clock(12, 0))])
  }

  /** A Tier 3 list without an allowance, in force on schedule `s`. */
  function Strictly(id: string, s: string, p: Pattern): Rule<Pattern> {
    Rule(id, id, ControlledAccess, true, Blocklist, [p], [s], None)
  }

  function TwoLists(a: string, b: string, s: string, p: Pattern): Config {
    Config([Strictly(a, s, p), Strictly(b, s, p)], [], [Morning(s)], [], StrictMode(true, true, true, true, 60))
  }

  lemma {:induction false} StrictlyOk(id: string, s: string, p: Pattern, parses: string -> bool)
    requires Text.IsTrimmed(id) && PatternOk(p, parses)
    ensures RuleOk(Strictly(id, s, p), PatternCheck(parses), {s}, {})
  {
    Text.TrimmedIff(id);
    hide PatternOk, Text.Trim;
  }

  lemma {:induction false} IdsGood(ids: seq<string>)
    requires |ids| <= 2 && (|ids| == 2 ==> ids[0] != ids[1]) && forall k | 0 <= k < |ids| :: Text.IsTrimmed(ids[k])
    ensures GoodIds(ids)
  {
    hide Text.IsTrimmed;
  }

  lemma {:induction false} TwoListsValid(a: string, b: string, s: string, p: Pattern, parses: string -> bool)
    requires Text.IsTrimmed(a) && Text.IsTrimmed(b) && Text.IsTrimmed(s) && a != b && PatternOk(p, parses)
    ensures Valid(TwoLists(a, b, s, p), parses)
  {
    hide RuleOk, PatternOk, Text.IsTrimmed, GoodIds;
    var c := TwoLists(a, b, s, p);
    StrictlyOk(a, s, p, parses);
    StrictlyOk(b, s, p, parses);
    IdsGood(RuleIds(c.rules));
    IdsGood(RuleIds(c.appRules));
    IdsGood(ScheduleIds(c.schedules));
    IdsGood(AllowanceIds(c.allowances));
    assert c.schedules[0] in c.schedules;
    assert (set x | x in c.schedules :: x.id) == {s} && (set x | x in c.allowances :: x.id) == {};
    assert OwnAllowances(c.rules) && OwnAllowances(c.appRules);
    forall x, w | x in c.schedules && w in x.windows ensures w.start != w.end {
      assert w == Window(Everyday, Clock(0, 0), Clock(12, 0));
    }
  }

  ghost predicate AtMidnight(ctx: Context, s: string) {
    ctx.schedules == [Morning(s)] && ctx.sessions == [] && !ctx.tampered && ctx.now == 0 && ctx.offset == 0
  }

  /** The list blocks exactly while it is not unlocked. */
  lemma {:induction false} ListBlocks(id: string, s: string, p: Pattern, hit: Pattern -> bool, ctx: Context)
    requires hit(p) && AtMidnight(ctx, s)
    ensures var r := Strictly(id, s, p);
            && (Tier3Blocks(r, SiteSubject(hit), ctx) <==> id !in ctx.unlocked)
            && EvaluateControlled(r, ctx) == if id in ctx.unlocked then None else Some(NoAllowance)
  {
    var r := Strictly(id, s, p);
    assert r.members[0] == p && RuleApplies(r, hit);
    var w := Morning(s).windows[0];
    assert w in Morning(s).windows && WindowIsActive(w, 0);
    assert FindSchedule(ctx.schedules, s) == Some(Morning(s));
    assert r.scheduleIds[0] == s && ScheduleActive(s, ctx);
    assert RuleIsActive(r, ctx);
  }

  lemma {:induction false} TwoListsDecision(a: string, b: string, s: string, p: Pattern, hit: Pattern -> bool,
        ctx: Context)
    requires hit(p) && AtMidnight(ctx, s) && b !in ctx.unlocked
    ensures var rules := TwoLists(a, b, s, p).rules;
            && Decide(rules, SiteSubject(hit), ctx)
                == Block(Controlled(if a in ctx.unlocked then b else a, NoAllowance))
            && DetoxFold(rules, SiteSubject(hit), ctx) == None
  {
    var rules, subject := TwoLists(a, b, s, p).rules, SiteSubject(hit);
    ListBlocks(a, s, p, hit, ctx);
    ListBlocks(b, s, p, hit, ctx);
    Decisions.DetoxReportsLatestEnd(rules, subject, ctx);
    assert forall k | 0 <= k < 2 :: !Matching(rules[k], Hard, subject) && !Matching(rules[k], ScheduledBlock, subject);
    assert StrictnessOf(rules[0], subject, ctx) == StrictnessOf(rules[1], subject, ctx);
    assert rules[..1] == [rules[0]] && rules[..1][..0] == [];
    hide Tier3Blocks, Matching, StrictnessOf, EvaluateControlled, DetoxFold;
    assert StrictestFold(rules[..1], subject, ctx) == if a in ctx.unlocked then None else Some(0);
    assert StrictestFold(rules, subject, ctx) == Some(if a in ctx.unlocked then 1 else 0);
  }

  lemma {:induction false} QuotaSpent(l: Unlocks.Ledger, target: string, resolved: Unlocks.Resolution, reason: string,
        now: int, letters: Unlocks.Letters)
    requires Text.Trim(target) != "" && Text.CleanReason(reason) == reason && Unlocks.LetterCount(reason, letters) >= 20
    requires !Unlocks.ReasonUsed(l.grants, reason, letters)
    requires forall r | r in resolved.ruleIds :: r !in UnlockedAt(l, now)
    requires Unlocks.CountSince(l.grants, now - 3_600_000_000) >= 1
    ensures Unlocks.Request(l, target, Ok(resolved), reason, now, letters) == Err(Unlocks.HourlyQuotaExceeded)
  {
    assert Unlocks.LetterCount("", letters) == 0;
  }

  lemma {:induction false} EmptyLedger(letters: Unlocks.Letters, reason: string, now: int)
    ensures Unlocks.Covered(Unlocks.Ledger([], [])) && UnlockedAt(Unlocks.Ledger([], []), now) == {}
    ensures !Unlocks.ReasonUsed([], reason, letters) && Unlocks.CountSince([], now - 3_600_000_000) == 0
  {
    forall r ensures Unlocks.ActiveUnlock(Unlocks.Ledger([], []), r, now).None? {
    }
  }

  lemma {:induction false} OneGrantLeft(g: Unlocks.Grant, reason: string, letters: Unlocks.Letters)
    requires Text.CleanReason(g.reason) == g.reason && Text.CleanReason(reason) == reason
    requires letters.lower(g.reason) != letters.lower(reason) && g.startedAt == 0
    ensures !Unlocks.ReasonUsed([g], reason, letters) && Unlocks.CountSince([g], -3_600_000_000) == 1
  {
    hide Text.CleanReason;
    assert [g][..0] == [];
  }

  /** The page of a valid policy under two exhausted Tier 3 lists: the unlock that is
      asked for it is granted, the page stays blocked, and the next request is turned
      down because the hour's grant is spent. */
  lemma {:induction false} PageUnderTwoLists(a: string, b: string, sid: string, p: Pattern, parses: string -> bool,
        t: Target, ctx: Context, r1: string, r2: string, letters: Unlocks.Letters)
    requires Text.IsTrimmed(a) && Text.IsTrimmed(b) && Text.IsTrimmed(sid) && a != b && PatternOk(p, parses)
    requires Text.Trim(t.text) != "" && t.url.Some? && t.url.value.1(p)
    requires AtMidnight(ctx, sid) && ctx.unlocked == {}
    requires Text.CleanReason(r1) == r1 && Unlocks.LetterCount(r1, letters) >= 20
    requires Text.CleanReason(r2) == r2 && Unlocks.LetterCount(r2, letters) >= 20
        && letters.lower(r1) != letters.lower(r2)
    ensures var c := TwoLists(a, b, sid, p);
            var s := SiteSubject(t.url.value.1);
            var granted := Unlocks.Request(Unlocks.Ledger([], []), t.text, Resolve(t, c, ctx), r1, 0, letters);
            && Valid(c, parses)
            && Decide(c.rules, s, ctx) == Block(Controlled(a, NoAllowance))
            && granted.Ok?
            && var later := ctx.(unlocked := UnlockedAt(granted.value, 0));
               && Decide(c.rules, s, later) == Block(Controlled(b, NoAllowance))
               && Unlocks.Request(granted.value, t.text, Resolve(t, c, later), r2, 0, letters)
                  == Err(Unlocks.HourlyQuotaExceeded)
  {
    hide *;
    var c, l := TwoLists(a, b, sid, p), Unlocks.Ledger([], []);
    TwoListsValid(a, b, sid, p, parses);
    TwoListsResolve(a, b, sid, p, t, ctx);
    EmptyLedger(letters, r1, 0);
    TwoListsDecision(a, b, sid, p, t.url.value.1, ctx);
    Granted(l, t.text, t.url.value.0, a, r1, letters);
    AfterGrant(l, t.text, Unlocks.Resolved(t.url.value.0, [a]), r1, 0, letters, 0);
    var after := Unlocks.Request(l, t.text, Resolve(t, c, ctx), r1, 0, letters).value;
    assert forall r :: r in UnlockedAt(after, 0) <==> r == a;
    SecondRequest(a, b, sid, p, t, ctx, after, r2, letters);
  }

  lemma {:induction false} SecondRequest(a: string, b: string, sid: string, p: Pattern, t: Target, ctx: Context,
        l: Unlocks.Ledger, reason: string, letters: Unlocks.Letters)
    requires a != b && t.url.Some? && t.url.value.1(p) && AtMidnight(ctx, sid) && Text.Trim(t.text) != ""
    requires Text.CleanReason(reason) == reason && Unlocks.LetterCount(reason, letters) >= 20
    requires |l.grants| == 1 && l.grants[0].startedAt == 0 && Text.CleanReason(l.grants[0].reason) == l.grants[0].reason
    requires letters.lower(l.grants[0].reason) != letters.lower(reason)
    requires forall r :: r in UnlockedAt(l, 0) <==> r == a
    ensures var c := TwoLists(a, b, sid, p);
            var later := ctx.(unlocked := UnlockedAt(l, 0));
            && Decide(c.rules, SiteSubject(t.url.value.1), later) == Block(Controlled(b, NoAllowance))
            && Unlocks.Request(l, t.text, Resolve(t, c, later), reason, 0, letters) == Err(Unlocks.HourlyQuotaExceeded)
  {
    hide *;
    var later := ctx.(unlocked := UnlockedAt(l, 0));
    SameMidnight(ctx, later, sid);
    TwoListsDecision(a, b, sid, p, t.url.value.1, later);
    TwoListsResolve(a, b, sid, p, t, later);
    assert l.grants == [l.grants[0]];
    OneGrantLeft(l.grants[0], reason, letters);
    QuotaSpent(l, t.text, Unlocks.Resolved(t.url.value.0, [b]), reason, 0, letters);
  }

  lemma {:induction false} SameMidnight(ctx: Context, later: Context, sid: string)
    requires AtMidnight(ctx, sid) && later == ctx.(unlocked := later.unlocked)
    ensures AtMidnight(later, sid)
  {
  }

  lemma {:induction false} Granted(l: Unlocks.Ledger, target: string, url: string, rule: string, reason: string,
        letters: Unlocks.Letters)
    requires l == Unlocks.Ledger([], []) && UnlockedAt(l, 0) == {}
    requires Text.Trim(target) != "" && Text.CleanReason(reason) == reason && Unlocks.LetterCount(reason, letters) >= 20
    requires !Unlocks.ReasonUsed([], reason, letters) && Unlocks.CountSince([], -3_600_000_000) == 0
    ensures var r := Unlocks.Request(l, target, Ok(Unlocks.Resolved(url, [rule])), reason, 0, letters);
            r.Ok? && r.value.grants == [Unlocks.Grant(url, rule, 2, reason, 0, 120_000_000)]
  {
    assert Unlocks.LetterCount("", letters) == 0;
    assert rule !in UnlockedAt(l, 0);
    hide Text.CleanReason, Text.Trim, Unlocks.LetterCount, Unlocks.ReasonUsed, Unlocks.CountSince,
        Unlocks.ActiveUnlock, UnlockedAt;
    assert forall r | r in [rule] :: r == rule;
    assert [rule][0] == rule && !Unlocks.Repeats([rule]);
  }

  lemma {:induction false} TwoListsResolve(a: string, b: string, sid: string, p: Pattern, t: Target, ctx: Context)
    requires t.url.Some? && t.url.value.1(p) && AtMidnight(ctx, sid) && b !in ctx.unlocked
    ensures Resolve(t, TwoLists(a, b, sid, p), ctx)
            == Ok(Unlocks.Resolved(t.url.value.0, [if a in ctx.unlocked then b else a]))
  {
    var c := TwoLists(a, b, sid, p);
    assert NamedLists(c.appRules, t) == [];
    assert SessionFold(ctx.sessions, Ids(DetoxLists(t, c)), ctx).None?;
    TwoListsDecision(a, b, sid, p, t.url.value.1, ctx);
    hide Decide, DetoxFold, Resolve, NamedLists, SessionFold, DetoxLists, TwoLists;
    ResolveFollowsDecision(t, c, ctx);
  }
}
