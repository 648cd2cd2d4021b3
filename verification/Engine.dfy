/** The decision engine: three tiers, detox sessions, list polarity, unlocks and
    the tampered-clock mode, for websites and for applications.

    Websites and applications are decided by the same steps. A `Subject` says what
    differs: which list members hit, how specific a member is, and which ids of a
    detox session count. URL parsing and string matching stay inside `hit`.
 */
module Engine {
  import opened Wrappers
  import opened Calendar
  import opened Config

  datatype DetoxSession = DetoxSession(
    id: string, startsAt: int, endsAt: int, cancelledAt: Option<int>,
    siteRuleIds: seq<string>, appRuleIds: seq<string>)

  /** What an evaluation reads: configuration, detox rows in the order the query
      returns them, rule ids with an unexpired unlock, seconds used today per rule. */
  datatype Context = Context(
    schedules: seq<Schedule>, allowances: seq<Allowance>, sessions: seq<DetoxSession>,
    unlocked: set<string>, used: string -> int, now: int, offset: int, tampered: bool)

  datatype Subject<!M> = Subject(hit: M -> bool, weight: M -> nat, covered: DetoxSession -> seq<string>)

  datatype ControlledReason = NoAllowance | AllowanceExhausted | UnlockRequired

  datatype BlockReason =
    | InvalidUrl
    | Detox(session: DetoxSession, ruleId: string)
    | HardBlock(ruleId: string)
    | Scheduled(ruleId: string)
    | Controlled(ruleId: string, why: ControlledReason)

  datatype Decision = Allow | Block(reason: BlockReason)

  // ---------------------------------------------------------- rules and activity

  predicate RuleApplies<M>(rule: Rule<M>, hit: M -> bool) {
    var member := exists k | 0 <= k < |rule.members| :: hit(rule.members[k]);
    match rule.mode
    case Blocklist => member
    case Allowlist => !member
  }

  predicate Matching<M>(rule: Rule<M>, tier: RuleTier, s: Subject<M>) {
    rule.enabled && rule.tier == tier && RuleApplies(rule, s.hit)
  }

  function FindSchedule(schedules: seq<Schedule>, id: string): (r: Option<Schedule>)
    ensures r.Some? ==> r.value in schedules && r.value.id == id
    ensures r.None? ==> forall x | x in schedules :: x.id != id
  {
    if schedules == [] then None
    else if schedules[0].id == id then Some(schedules[0])
    else FindSchedule(schedules[1..], id)
  }

  function FindAllowance(allowances: seq<Allowance>, id: string): (r: Option<Allowance>)
    ensures r.Some? ==> r.value in allowances && r.value.id == id
    ensures r.None? ==> forall x | x in allowances :: x.id != id
  {
    if allowances == [] then None
    else if allowances[0].id == id then Some(allowances[0])
    else FindAllowance(allowances[1..], id)
  }

  /** A schedule that cannot be found counts as active; under a tampered clock any
      attached schedule does. */
  predicate SchedulesActive(ids: seq<string>, ctx: Context) {
    if ctx.tampered then ids != []
    else exists id | id in ids :: ScheduleActive(id, ctx)
  }

  predicate ScheduleActive(id: string, ctx: Context) {
    match FindSchedule(ctx.schedules, id)
    case None => true
    case Some(schedule) => ScheduleIsActive(schedule.windows, ctx.now + ctx.offset)
  }

  predicate RuleIsActive<M>(rule: Rule<M>, ctx: Context) {
    rule.enabled && (rule.tier.Hard? || SchedulesActive(rule.scheduleIds, ctx))
  }

  predicate SessionActive(s: DetoxSession, ctx: Context) {
    s.cancelledAt.None? && (ctx.tampered || s.startsAt <= ctx.now < s.endsAt)
  }

  predicate Covering<M>(session: DetoxSession, ruleId: string, s: Subject<M>, ctx: Context) {
    SessionActive(session, ctx) && ruleId in s.covered(session)
  }

  predicate ControlledIsActive<M>(rule: Rule<M>, s: Subject<M>, ctx: Context) {
    rule.enabled && (RuleIsActive(rule, ctx) || exists x | x in ctx.sessions :: Covering(x, rule.id, s, ctx))
  }

  function AllowanceMinutes<M>(rule: Rule<M>, ctx: Context): Option<nat> {
    match rule.allowanceId
    case None => None
    case Some(id) =>
      match FindAllowance(ctx.allowances, id)
      case None => None
      case Some(allowance) => Some(allowance.dailyMinutes)
  }

  /** One Tier 3 rule on its own: None allows. */
  function EvaluateControlled<M>(rule: Rule<M>, ctx: Context): Option<ControlledReason> {
    if ctx.tampered then Some(UnlockRequired)
    else if rule.id in ctx.unlocked then None
    else
      match AllowanceMinutes(rule, ctx)
      case None => Some(NoAllowance)
      case Some(minutes) => if ctx.used(rule.id) < minutes * 60 then None else Some(AllowanceExhausted)
  }

  // ---------------------------------------------------------------- strictness

  datatype Strictness = Strictness(minutes: Option<nat>, specificity: nat) {
    predicate StricterThan(other: Strictness) {
      match (minutes, other.minutes)
      case (None, Some(_)) => true
      case (Some(_), None) => false
      case (Some(left), Some(right)) => if left != right then left < right else specificity > other.specificity
      case (None, None) => specificity > other.specificity
    }
  }

  /** A strict weak order: a stricter-than b is passed on by anything in between. */
  lemma {:induction false} StrictWeakOrder(a: Strictness, b: Strictness, c: Strictness)
    ensures !a.StricterThan(a)
    ensures a.StricterThan(b) ==> !b.StricterThan(a)
    ensures a.StricterThan(b) && b.StricterThan(c) ==> a.StricterThan(c)
    ensures a.StricterThan(c) ==> a.StricterThan(b) || b.StricterThan(c)
  {
  }

  function PatternWeight(p: Pattern): nat {
    match p.kind
    case ExactUrl => 4
    case PathPrefix => 3
    case UrlPrefix => 3
    case UrlContains => 2
    case Domain => if p.matchSubdomains then 1 else 2
  }

  function Specificity<M>(members: seq<M>, s: Subject<M>): nat {
    if members == [] then 0
    else
      var rest := Specificity(members[1..], s);
      if s.hit(members[0]) && s.weight(members[0]) > rest then s.weight(members[0]) else rest
  }

  function StrictnessOf<M>(rule: Rule<M>, s: Subject<M>, ctx: Context): Strictness {
    Strictness(AllowanceMinutes(rule, ctx), Specificity(rule.members, s))
  }

  // ------------------------------------------------------ the folds of the loops

  /** The last session with the latest end among those covering the rule. */
  function LatestSession<M>(sessions: seq<DetoxSession>, ruleId: string, s: Subject<M>, ctx: Context)
    : (r: Option<DetoxSession>)
    ensures r.Some? ==> r.value in sessions && Covering(r.value, ruleId, s, ctx)
    ensures forall x | x in sessions && Covering(x, ruleId, s, ctx) :: r.Some? && x.endsAt <= r.value.endsAt
  {
    if sessions == [] then None
    else
      var n := |sessions| - 1;
      var before := LatestSession(sessions[..n], ruleId, s, ctx);
      var last := sessions[n];
      assert forall x :: x in sessions <==> x in sessions[..n] || x == last;
      if !Covering(last, ruleId, s, ctx) then before
      else if before.None? || before.value.endsAt <= last.endsAt then Some(last)
      else before
  }

  /** The pair the detox loop holds after `rules`: a later rule replaces it only
      when its session ends strictly later. */
  function DetoxFold<M>(rules: seq<Rule<M>>, s: Subject<M>, ctx: Context): Option<(DetoxSession, string)> {
    if rules == [] then None
    else
      var n := |rules| - 1;
      var before := DetoxFold(rules[..n], s, ctx);
      if !Matching(rules[n], ScheduledBlock, s) then before
      else
        match LatestSession(ctx.sessions, rules[n].id, s, ctx)
        case None => before
        case Some(session) =>
          if before.None? || session.endsAt > before.value.0.endsAt then Some((session, rules[n].id)) else before
  }

  predicate Tier3Blocks<M>(rule: Rule<M>, s: Subject<M>, ctx: Context) {
    Matching(rule, ControlledAccess, s) && ControlledIsActive(rule, s, ctx) && EvaluateControlled(rule, ctx).Some?
  }

  /** The position the Tier 3 loop holds after `rules`. */
  function StrictestFold<M>(rules: seq<Rule<M>>, s: Subject<M>, ctx: Context): (r: Option<nat>)
    ensures r.Some? ==> r.value < |rules| && Tier3Blocks(rules[r.value], s, ctx)
  {
    if rules == [] then None
    else
      var n := |rules| - 1;
      var before := StrictestFold(rules[..n], s, ctx);
      if !Tier3Blocks(rules[n], s, ctx) then before
      else if before.None?
              || StrictnessOf(rules[n], s, ctx).StricterThan(StrictnessOf(rules[before.value], s, ctx)) then Some(n)
      else before
  }

  function FirstMatching<M>(rules: seq<Rule<M>>, p: Rule<M> -> bool): (r: Option<nat>)
    ensures r.Some? ==> r.value < |rules| && p(rules[r.value]) && forall k | 0 <= k < r.value :: !p(rules[k])
    ensures r.None? ==> forall k | 0 <= k < |rules| :: !p(rules[k])
  {
    if rules == [] then None
    else if p(rules[0]) then Some(0)
    else
      match FirstMatching(rules[1..], p)
      case None => None
      case Some(k) => Some(k + 1)
  }

  function Decide<M>(rules: seq<Rule<M>>, s: Subject<M>, ctx: Context): Decision {
    var hard := FirstMatching(rules, r => Matching(r, Hard, s));
    if hard.Some? then Block(HardBlock(rules[hard.value].id))
    else
      var detox := DetoxFold(rules, s, ctx);
      if detox.Some? then Block(Detox(detox.value.0, detox.value.1))
      else
        var scheduled := FirstMatching(rules, r => Matching(r, ScheduledBlock, s) && RuleIsActive(r, ctx));
        if scheduled.Some? then Block(Scheduled(rules[scheduled.value].id))
        else
          match StrictestFold(rules, s, ctx)
          case None => Allow
          case Some(k) => Block(Controlled(rules[k].id, EvaluateControlled(rules[k], ctx).value))
  }

  // ----------------------------------------------------------- the engine itself

  method FindFirst<M>(rules: seq<Rule<M>>, p: Rule<M> -> bool) returns (r: Option<nat>)
    ensures r == FirstMatching(rules, p)
  {
    for k := 0 to |rules|
      invariant forall j | 0 <= j < k :: !p(rules[j])
    {
      if p(rules[k]) {
        return Some(k);
      }
    }
    r := None;
  }

  method DetoxBlock<M>(rules: seq<Rule<M>>, s: Subject<M>, ctx: Context) returns (block: Option<(DetoxSession, string)>)
    ensures block == DetoxFold(rules, s, ctx)
  {
    block := None;
    for k := 0 to |rules|
      invariant block == DetoxFold(rules[..k], s, ctx)
    {
      assert rules[..k + 1][..k] == rules[..k];
      var rule := rules[k];
      if Matching(rule, ScheduledBlock, s) {
        var session := LatestSession(ctx.sessions, rule.id, s, ctx);
        if session.Some? && (block.None? || session.value.endsAt > block.value.0.endsAt) {
          block := Some((session.value, rule.id));
        }
      }
    }
    assert rules[..|rules|] == rules;
  }

  /** The Tier 3 loop: the strictest blocking rule, with why it blocks. */
  method ControlledBlock<M>(rules: seq<Rule<M>>, s: Subject<M>, ctx: Context)
          returns (block: Option<(nat, ControlledReason)>)
    ensures match StrictestFold(rules, s, ctx)
            case None => block.None?
            case Some(k) => block == Some((k, EvaluateControlled(rules[k], ctx).value))
  {
    hide Matching, ControlledIsActive, EvaluateControlled, StrictnessOf;
    var current: Option<(nat, ControlledReason, Strictness)> := None;
    for k := 0 to |rules|
      invariant match StrictestFold(rules[..k], s, ctx)
                case None => current.None?
                case Some(b) =>
                  current == Some((b, EvaluateControlled(rules[b], ctx).value, StrictnessOf(rules[b], s, ctx)))
    {
      assert rules[..k + 1][..k] == rules[..k];
      var rule := rules[k];
      if Matching(rule, ControlledAccess, s) && ControlledIsActive(rule, s, ctx) {
        var why := EvaluateControlled(rule, ctx);
        if why.Some? {
          var strictness := StrictnessOf(rule, s, ctx);
          if current.None? || strictness.StricterThan(current.value.2) {
            current := Some((k, why.value, strictness));
          }
        }
      }
    }
    assert rules[..|rules|] == rules;
    block := if current.None? then None else Some((current.value.0, current.value.1));
  }

  method Evaluate<M>(rules: seq<Rule<M>>, s: Subject<M>, ctx: Context) returns (d: Decision)
    ensures d == Decide(rules, s, ctx)
  {
    hide Matching, RuleIsActive, DetoxFold, StrictestFold, EvaluateControlled;
    var hard := FindFirst(rules, r => Matching(r, Hard, s));
    if hard.Some? {
      return Block(HardBlock(rules[hard.value].id));
    }
    var detox := DetoxBlock(rules, s, ctx);
    if detox.Some? {
      return Block(Detox(detox.value.0, detox.value.1));
    }
    var scheduled := FindFirst(rules, r => Matching(r, ScheduledBlock, s) && RuleIsActive(r, ctx));
    if scheduled.Some? {
      return Block(Scheduled(rules[scheduled.value].id));
    }
    var controlled := ControlledBlock(rules, s, ctx);
    d := if controlled.None? then Allow else Block(Controlled(rules[controlled.value.0].id, controlled.value.1));
  }

  /** A website: `hit` is None when the URL does not parse. */
  function DecideUrl(hit: Option<Pattern -> bool>, config: Config, ctx: Context): Decision {
    match hit
    case None => Block(InvalidUrl)
    case Some(h) => Decide(config.rules, SiteSubject(h), ctx)
  }

  function SiteSubject(hit: Pattern -> bool): Subject<Pattern> {
    Subject(hit, PatternWeight, (x: DetoxSession) => x.siteRuleIds)
  }

  function AppSubject(hit: Matcher -> bool): Subject<Matcher> {
    Subject(hit, m => 0, (x: DetoxSession) => x.appRuleIds)
  }
}
