/** The policy configuration and its validation.

    Website lists and application lists have the same shape up to what they list,
    so one generic `Rule` stands for both. `Url::parse` stays a parameter.
 */
module Config {
  import opened Wrappers
  import opened Calendar
  import Text

  datatype RuleTier = Hard | ScheduledBlock | ControlledAccess

  datatype ListMode = Blocklist | Allowlist

  datatype PatternKind = Domain | ExactUrl | UrlPrefix | UrlContains | PathPrefix

  datatype Pattern = Pattern(kind: PatternKind, value: string, matchSubdomains: bool)

  datatype MatcherKind =
    | ExecutablePath | ExecutableBasename | CommandName | DesktopId | WindowTitleExact | WindowTitleContains

  datatype Matcher = Matcher(kind: MatcherKind, value: string)

  datatype Rule<M> = Rule(
    id: string, name: string, tier: RuleTier, enabled: bool, mode: ListMode,
    members: seq<M>, scheduleIds: seq<string>, allowanceId: Option<string>)

  type UInt32 = n: int | 0 <= n < 0x1_0000_0000

  datatype Allowance = Allowance(id: string, name: Option<string>, dailyMinutes: UInt32)

  datatype StrictMode = StrictMode(
    requireFirefox: bool, requireChrome: bool, killStale: bool, blockUnsupported: bool, graceSeconds: UInt32)

  datatype Config = Config(
    rules: seq<Rule<Pattern>>, appRules: seq<Rule<Matcher>>,
    schedules: seq<Schedule>, allowances: seq<Allowance>, strictMode: StrictMode)

  function RuleIds<M>(rules: seq<Rule<M>>): (ids: seq<string>)
    ensures |ids| == |rules| && forall k | 0 <= k < |rules| :: ids[k] == rules[k].id
  {
    seq(|rules|, k requires 0 <= k < |rules| => rules[k].id)
  }

  function ScheduleIds(schedules: seq<Schedule>): (ids: seq<string>)
    ensures |ids| == |schedules| && forall k | 0 <= k < |schedules| :: ids[k] == schedules[k].id
  {
    seq(|schedules|, k requires 0 <= k < |schedules| => schedules[k].id)
  }

  function AllowanceIds(allowances: seq<Allowance>): (ids: seq<string>)
    ensures |ids| == |allowances| && forall k | 0 <= k < |allowances| :: ids[k] == allowances[k].id
  {
    seq(|allowances|, k requires 0 <= k < |allowances| => allowances[k].id)
  }

  // ----------------------------------------------- what a valid policy promises

  ghost predicate Distinct<T>(xs: seq<T>) {
    forall i, j | 0 <= i < j < |xs| :: xs[i] != xs[j]
  }

  ghost predicate GoodIds(ids: seq<string>) {
    Distinct(ids) && forall id | id in ids :: Text.IsTrimmed(id)
  }

  /** The demands on one rule taken by itself. */
  ghost predicate RuleOk<M>(rule: Rule<M>, memberOk: M -> bool, schedules: set<string>, allowances: set<string>) {
    && Text.Trim(rule.name) != ""
    && rule.members != []
    && (forall m | m in rule.members :: memberOk(m))
    && (forall s | s in rule.scheduleIds :: s in schedules)
    && (rule.mode.Allowlist? ==> !rule.tier.Hard? && rule.enabled)
    && (rule.allowanceId.Some? ==> rule.allowanceId.value in allowances && rule.tier.ControlledAccess?)
  }

  /** No two rules draw on the same allowance. */
  ghost predicate OwnAllowances<M>(rules: seq<Rule<M>>) {
    forall i, j | 0 <= i < j < |rules| && rules[i].allowanceId.Some? :: rules[i].allowanceId != rules[j].allowanceId
  }

  ghost predicate Valid(c: Config, parses: string -> bool) {
    var schedules := set s | s in c.schedules :: s.id;
    var allowances := set a | a in c.allowances :: a.id;
    && GoodIds(RuleIds(c.rules)) && GoodIds(RuleIds(c.appRules))
    && GoodIds(ScheduleIds(c.schedules)) && GoodIds(AllowanceIds(c.allowances))
    && (forall r, a | r in c.rules && a in c.appRules :: r.id != a.id)
    && c.strictMode.graceSeconds > 0
    && (forall s, w | s in c.schedules && w in s.windows :: w.start != w.end)
    && (forall r | r in c.rules :: RuleOk(r, PatternCheck(parses), schedules, allowances))
    && (forall r | r in c.appRules :: RuleOk(r, MatcherOk, schedules, allowances))
    && OwnAllowances(c.rules) && OwnAllowances(c.appRules)
    && (forall r, a | r in c.rules && a in c.appRules && r.allowanceId.Some? :: r.allowanceId != a.allowanceId)
  }

  predicate PatternOk(p: Pattern, parses: string -> bool) {
    Text.Trim(p.value) != "" && Text.Trim(p.value) == p.value
    && match p.kind
       case Domain =>
         && '/' !in p.value
         && p.value[0] != '.' && p.value[|p.value| - 1] != '.' && '*' !in p.value && '.' in p.value
       case ExactUrl => parses(p.value)
       case UrlPrefix => parses(p.value)
       case UrlContains => true
       case PathPrefix => '/' in p.value
  }

  function PatternCheck(parses: string -> bool): Pattern -> bool {
    (p: Pattern) => PatternOk(p, parses)
  }

  predicate MatcherOk(m: Matcher) {
    Text.Trim(m.value) != "" && Text.Trim(m.value) == m.value
    && match m.kind
       case ExecutablePath => m.value[0] == '/'
       case ExecutableBasename => '/' !in m.value
       case CommandName => '/' !in m.value
       case DesktopId => '/' !in m.value
       case WindowTitleExact => true
       case WindowTitleContains => true
  }

  // ------------------------------------------------------------- the validator

  datatype ConfigError =
    | BadIdentifier(id: string) | DuplicateId(id: string) | ZeroGrace | EmptyWindow(scheduleId: string)
    | BadRule(ruleId: string) | SharedId(ruleId: string) | SharedAllowance(allowanceId: string)

  method EnsureUniqueIds(ids: seq<string>) returns (r: Result<(), ConfigError>)
    ensures r.Ok? <==> GoodIds(ids)
  {
    var seen: set<string> := {};
    for k := 0 to |ids|
      invariant forall x :: x in seen <==> x in ids[..k]
      invariant GoodIds(ids[..k])
    {
      var id := ids[k];
      assert ids[..k + 1] == ids[..k] + [id];
      Text.TrimmedIff(id);
      if Text.Trim(id) == "" || Text.Trim(id) != id {
        assert id in ids;
        return Err(BadIdentifier(id));
      }
      if id in seen {
        var j :| 0 <= j < k && ids[..k][j] == id;
        assert ids[j] == ids[k];
        return Err(DuplicateId(id));
      }
      seen := seen + {id};
    }
    assert ids[..|ids|] == ids;
    r := Ok(());
  }

  method ValidateWindows(schedules: seq<Schedule>) returns (r: Result<(), ConfigError>)
    ensures r.Ok? <==> forall s, w | s in schedules && w in s.windows :: w.start != w.end
  {
    for i := 0 to |schedules|
      invariant forall s, w | s in schedules[..i] && w in s.windows :: w.start != w.end
    {
      var schedule := schedules[i];
      assert schedules[..i + 1] == schedules[..i] + [schedule];
      for k := 0 to |schedule.windows|
        invariant forall w | w in schedule.windows[..k] :: w.start != w.end
      {
        assert schedule.windows[..k + 1] == schedule.windows[..k] + [schedule.windows[k]];
        if schedule.windows[k].start == schedule.windows[k].end {
          assert schedule in schedules && schedule.windows[k] in schedule.windows;
          return Err(EmptyWindow(schedule.id));
        }
      }
      assert schedule.windows[..|schedule.windows|] == schedule.windows;
    }
    assert schedules[..|schedules|] == schedules;
    r := Ok(());
  }

  method CheckMembers<M(==)>(members: seq<M>, memberOk: M -> bool) returns (ok: bool)
    ensures ok <==> forall m | m in members :: memberOk(m)
  {
    for k := 0 to |members|
      invariant forall j | 0 <= j < k :: memberOk(members[j])
    {
      if !memberOk(members[k]) {
        assert members[k] in members;
        return false;
      }
    }
    ok := true;
  }

  method CheckScheduleIds(ids: seq<string>, schedules: set<string>) returns (ok: bool)
    ensures ok <==> forall s | s in ids :: s in schedules
  {
    for k := 0 to |ids|
      invariant forall j | 0 <= j < k :: ids[j] in schedules
    {
      if ids[k] !in schedules {
        assert ids[k] in ids;
        return false;
      }
    }
    ok := true;
  }

  /** The checks on one rule. */
  method CheckRule<M(==)>(rule: Rule<M>, memberOk: M -> bool, schedules: set<string>, allowances: set<string>)
    returns (ok: bool)
    ensures ok <==> RuleOk(rule, memberOk, schedules, allowances)
  {
    hide Text.Trim;
    if Text.Trim(rule.name) == "" || rule.members == [] {
      return false;
    }
    ok := CheckMembers(rule.members, memberOk);
    if !ok { return; }
    ok := CheckScheduleIds(rule.scheduleIds, schedules);
    if !ok { return; }
    if rule.mode.Allowlist? && (rule.tier.Hard? || !rule.enabled) {
      return false;
    }
    ok := rule.allowanceId.None? || (rule.allowanceId.value in allowances && rule.tier.ControlledAccess?);
  }

  /** The loop over site rules, and again over application rules: `links` carries
      the allowances already linked from one loop into the next. */
  method ValidateRules<M(==)>(rules: seq<Rule<M>>, memberOk: M -> bool, taken: set<string>, schedules: set<string>,
        allowances: set<string>, links: map<string, string>)
    returns (r: Result<(), ConfigError>, linked: map<string, string>)
    ensures r.Ok? <==>
              && (forall x | x in rules :: RuleOk(x, memberOk, schedules, allowances) && x.id !in taken)
              && OwnAllowances(rules)
              && (forall x | x in rules && x.allowanceId.Some? :: x.allowanceId.value !in links)
    ensures r.Ok? ==> forall a :: a in linked <==> a in links || exists x | x in rules :: x.allowanceId == Some(a)
  {
    hide RuleOk;
    linked := links;
    for k := 0 to |rules|
      invariant forall j | 0 <= j < k ::
                  && RuleOk(rules[j], memberOk, schedules, allowances) && rules[j].id !in taken
                  && (rules[j].allowanceId.Some? ==> rules[j].allowanceId.value !in links)
      invariant forall i, j | 0 <= i < j < k && rules[i].allowanceId.Some? ::
          rules[i].allowanceId != rules[j].allowanceId
      invariant forall a :: a in linked <==> a in links || exists j | 0 <= j < k :: rules[j].allowanceId == Some(a)
    {
      var rule := rules[k];
      assert rule in rules;
      if rule.id in taken {
        return Err(SharedId(rule.id)), linked;
      }
      var good := CheckRule(rule, memberOk, schedules, allowances);
      if !good {
        return Err(BadRule(rule.id)), linked;
      }
      if rule.allowanceId.Some? {
        if rule.allowanceId.value in linked {
          return Err(SharedAllowance(rule.allowanceId.value)), linked;
        }
        linked := linked[rule.allowanceId.value := rule.id];
      }
    }
    forall a ensures a in linked <==> a in links || exists x | x in rules :: x.allowanceId == Some(a) {
      if x :| x in rules && x.allowanceId == Some(a) {
        var j :| 0 <= j < |rules| && rules[j] == x;
      }
    }
    r := Ok(());
  }

  /** Validation accepts exactly the configurations the engine relies on. */
  method Validate(c: Config, parses: string -> bool) returns (r: Result<(), ConfigError>)
    ensures r.Ok? <==> Valid(c, parses)
  {
    hide GoodIds, RuleOk, OwnAllowances;
    r := EnsureUniqueIds(RuleIds(c.rules));
    if r.Err? { return; }
    r := EnsureUniqueIds(RuleIds(c.appRules));
    if r.Err? { return; }
    r := EnsureUniqueIds(ScheduleIds(c.schedules));
    if r.Err? { return; }
    r := EnsureUniqueIds(AllowanceIds(c.allowances));
    if r.Err? { return; }
    var schedules := set s | s in c.schedules :: s.id;
    var ids := set x | x in c.rules :: x.id;
    var allowances := set a | a in c.allowances :: a.id;
    if c.strictMode.graceSeconds == 0 {
      return Err(ZeroGrace);
    }
    r := ValidateWindows(c.schedules);
    if r.Err? { return; }
    var links: map<string, string>;
    r, links := ValidateRules(c.rules, PatternCheck(parses), {}, schedules, allowances, map[]);
    if r.Err? { return; }
    r, links := ValidateRules(c.appRules, MatcherOk, ids, schedules, allowances, links);
  }
}
