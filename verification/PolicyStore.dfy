/** The stored policy: what replacing it writes, what loading it reads back, and
    that a policy survives the trip. */
module PolicyStore {
  import opened Wrappers
  import opened Calendar
  import opened Config
  import opened Tables
  import Text
  import Engine
  import Decisions
  import Unlocks

  // ------------------------------------------------------------ words in columns

  function TierText(tier: RuleTier): string {
    match tier
    case Hard => "hard"
    case ScheduledBlock => "scheduled_block"
    case ControlledAccess => "controlled_access"
  }

  function ReadTier(s: string): Option<RuleTier> {
    if s == "hard" then Some(Hard)
    else if s == "scheduled_block" then Some(ScheduledBlock)
    else if s == "controlled_access" then Some(ControlledAccess)
    else None
  }

  function ModeText(mode: ListMode): string {
    if mode.Blocklist? then "blocklist" else "allowlist"
  }

  function ReadMode(s: string): Option<ListMode> {
    if s == "blocklist" then Some(Blocklist)
    else if s == "allowlist" then Some(Allowlist)
    else None
  }

  function PatternKindText(kind: PatternKind): string {
    match kind
    case Domain => "domain"
    case ExactUrl => "exact_url"
    case UrlPrefix => "url_prefix"
    case UrlContains => "url_contains"
    case PathPrefix => "path_prefix"
  }

  function ReadPatternKind(s: string): Option<PatternKind> {
    if s == "domain" then Some(Domain)
    else if s == "exact_url" then Some(ExactUrl)
    else if s == "url_prefix" then Some(UrlPrefix)
    else if s == "url_contains" then Some(UrlContains)
    else if s == "path_prefix" then Some(PathPrefix)
    else None
  }

  function MatcherKindText(kind: MatcherKind): string {
    match kind
    case ExecutablePath => "executable_path"
    case ExecutableBasename => "executable_basename"
    case CommandName => "command_name"
    case DesktopId => "desktop_id"
    case WindowTitleExact => "window_title_exact"
    case WindowTitleContains => "window_title_contains"
  }

  function ReadMatcherKind(s: string): Option<MatcherKind> {
    if s == "executable_path" then Some(ExecutablePath)
    else if s == "executable_basename" then Some(ExecutableBasename)
    else if s == "command_name" then Some(CommandName)
    else if s == "desktop_id" then Some(DesktopId)
    else if s == "window_title_exact" then Some(WindowTitleExact)
    else if s == "window_title_contains" then Some(WindowTitleContains)
    else None
  }

  function DayText(day: ScheduleDay): string {
    match day
    case Everyday => "everyday"
    case Workdays => "workdays"
    case Weekend => "weekend"
    case Only(Mon) => "mon"
    case Only(Tue) => "tue"
    case Only(Wed) => "wed"
    case Only(Thu) => "thu"
    case Only(Fri) => "fri"
    case Only(Sat) => "sat"
    case Only(Sun) => "sun"
  }

  function ReadDay(s: string): Option<ScheduleDay> {
    if s == "everyday" then Some(Everyday)
    else if s == "workdays" then Some(Workdays)
    else if s == "weekend" then Some(Weekend)
    else if s == "mon" then Some(Only(Mon))
    else if s == "tue" then Some(Only(Tue))
    else if s == "wed" then Some(Only(Wed))
    else if s == "thu" then Some(Only(Thu))
    else if s == "fri" then Some(Only(Fri))
    else if s == "sat" then Some(Only(Sat))
    else if s == "sun" then Some(Only(Sun))
    else None
  }

  function Flag(b: bool): int {
    if b then 1 else 0
  }

  function ReadUInt32(n: int): Option<UInt32> {
    if 0 <= n < 0x1_0000_0000 then Some(n) else None
  }

  // ------------------------------------------------------------------------ rows

  datatype ListRow = ListRow(
    id: string, name: string, tier: string, enabled: int, mode: string, allowanceId: Option<string>)

  datatype PatternCells = PatternCells(kind: string, value: string, matchSubdomains: int)

  datatype MatcherCells = MatcherCells(kind: string, value: string)

  datatype ScheduleRow = ScheduleRow(id: string, name: Option<string>)

  datatype WindowCells = WindowCells(weekday: string, start: string, end: string)

  datatype AllowanceRow = AllowanceRow(id: string, name: Option<string>, dailyMinutes: int)

  datatype StrictRow = StrictRow(
    requireFirefox: int, requireChrome: int, killStale: int, blockUnsupported: int, graceSeconds: int)

  datatype ListTables<E> = ListTables(lists: seq<ListRow>, members: seq<Child<E>>, links: seq<Child<string>>)

  datatype Stored = Stored(
    sites: ListTables<PatternCells>, apps: ListTables<MatcherCells>,
    schedules: seq<ScheduleRow>, windows: seq<Child<WindowCells>>,
    allowances: seq<AllowanceRow>, strict: Option<StrictRow>)

  function RuleId<M>(r: Rule<M>): string {
    r.id
  }

  function ScheduleId(s: Schedule): string {
    s.id
  }

  function AllowanceId(a: Allowance): string {
    a.id
  }

  function ListRowId(r: ListRow): string {
    r.id
  }

  function ScheduleRowId(r: ScheduleRow): string {
    r.id
  }

  function AllowanceRowId(r: AllowanceRow): string {
    r.id
  }

  // --------------------------------------------------------------------- writing

  function WritePattern(p: Pattern): PatternCells {
    PatternCells(PatternKindText(p.kind), p.value, Flag(p.matchSubdomains))
  }

  function WriteMatcher(m: Matcher): MatcherCells {
    MatcherCells(MatcherKindText(m.kind), m.value)
  }

  function WriteWindow(w: Window): WindowCells {
    WindowCells(DayText(w.weekday), PrintTimeOfDay(w.start), PrintTimeOfDay(w.end))
  }

  function WriteRule<M>(r: Rule<M>): ListRow {
    ListRow(r.id, r.name, TierText(r.tier), Flag(r.enabled), ModeText(r.mode), r.allowanceId)
  }

  function WriteSchedule(s: Schedule): ScheduleRow {
    ScheduleRow(s.id, s.name)
  }

  function WriteAllowance(a: Allowance): AllowanceRow {
    AllowanceRow(a.id, a.name, a.dailyMinutes)
  }

  function WriteStrict(s: StrictMode): StrictRow {
    StrictRow(Flag(s.requireFirefox), Flag(s.requireChrome), Flag(s.killStale), Flag(s.blockUnsupported),
        s.graceSeconds)
  }

  function LinksOf<M>(r: Rule<M>): Parent<string> {
    Parent(r.id, r.scheduleIds)
  }

  function MembersOf<M, E>(write: M -> E): Rule<M> -> Parent<E> {
    (r: Rule<M>) => Parent(r.id, MapSeq(r.members, write))
  }

  function WindowsOf(s: Schedule): Parent<WindowCells> {
    Parent(s.id, MapSeq(s.windows, WriteWindow))
  }

  function RuleTables<M, E>(rules: seq<Rule<M>>, write: M -> E): ListTables<E> {
    ListTables(MapSeq(rules, WriteRule), AllChildren(MapSeq(rules, MembersOf(write))),
        AllChildren(MapSeq(rules, LinksOf)))
  }

  function TablesOf(c: Config): Stored {
    Stored(RuleTables(c.rules, WritePattern), RuleTables(c.appRules, WriteMatcher),
           MapSeq(c.schedules, WriteSchedule), AllChildren(MapSeq(c.schedules, WindowsOf)),
           MapSeq(c.allowances, WriteAllowance), Some(WriteStrict(c.strictMode)))
  }

  // --------------------------------------------------------------------- reading

  function ReadPattern(row: PatternCells): Option<Pattern> {
    var kind :- ReadPatternKind(row.kind);
    Some(Pattern(kind, row.value, row.matchSubdomains != 0))
  }

  function ReadMatcher(row: MatcherCells): Option<Matcher> {
    var kind :- ReadMatcherKind(row.kind);
    Some(Matcher(kind, row.value))
  }

  function ReadWindow(row: WindowCells): Option<Window> {
    var weekday :- ReadDay(row.weekday);
    var start :- ParseTimeOfDay(row.start);
    var end :- ParseTimeOfDay(row.end);
    Some(Window(weekday, start, end))
  }

  function ReadRule<M, E>(t: ListTables<E>, read: E -> Option<M>): ListRow -> Option<Rule<M>> {
    (row: ListRow) =>
      var members :- DecodeAll(Select(t.members, row.id), read);
      var tier :- ReadTier(row.tier);
      var mode :- ReadMode(row.mode);
      Some(Rule(row.id, row.name, tier, row.enabled != 0, mode, members, Select(t.links, row.id), row.allowanceId))
  }

  function ReadSchedule(windows: seq<Child<WindowCells>>): ScheduleRow -> Option<Schedule> {
    (row: ScheduleRow) =>
      var own :- DecodeAll(Select(windows, row.id), ReadWindow);
      Some(Schedule(row.id, row.name, own))
  }

  function ReadAllowance(row: AllowanceRow): Option<Allowance> {
    var minutes :- ReadUInt32(row.dailyMinutes);
    Some(Allowance(row.id, row.name, minutes))
  }

  function ReadStrict(row: Option<StrictRow>): Option<StrictMode> {
    match row
    case None => Some(StrictMode(true, true, true, true, 60))
    case Some(s) =>
      var grace :- ReadUInt32(s.graceSeconds);
      Some(StrictMode(s.requireFirefox != 0, s.requireChrome != 0, s.killStale != 0, s.blockUnsupported != 0, grace))
  }

  function Loaded(t: Stored): Option<Config> {
    var allowances :- DecodeAll(SortById(t.allowances, AllowanceRowId), ReadAllowance);
    var schedules :- DecodeAll(SortById(t.schedules, ScheduleRowId), ReadSchedule(t.windows));
    var rules :- DecodeAll(SortById(t.sites.lists, ListRowId), ReadRule(t.sites, ReadPattern));
    var appRules :- DecodeAll(SortById(t.apps.lists, ListRowId), ReadRule(t.apps, ReadMatcher));
    var strict :- ReadStrict(t.strict);
    Some(Config(rules, appRules, schedules, allowances, strict))
  }

  // --------------------------------------------------------------------- the store

  datatype StoreError = Invalid(error: ConfigError) | RepeatedLink | Unreadable

  ghost predicate NoRepeatedLinks<M>(rules: seq<Rule<M>>) {
    forall k | 0 <= k < |rules| :: Distinct(rules[k].scheduleIds)
  }

  function ListedIds(t: Stored): set<string> {
    (set r | r in t.sites.lists :: r.id) + (set r | r in t.apps.lists :: r.id)
  }

  /** The key columns of the link rows. */
  function Keys(rows: seq<Child<string>>): (keys: seq<Child<string>>)
    ensures |keys| == |rows| && forall k | 0 <= k < |rows| :: keys[k] == rows[k].(position := 0)
  {
    seq(|rows|, k requires 0 <= k < |rows| => rows[k].(position := 0))
  }

  lemma {:induction false} EarlierIds<M>(rules: seq<Rule<M>>, i: nat)
    requires i < |rules| && Distinct(RuleIds(rules))
    ensures forall k | 0 <= k < i :: rules[k].id != rules[i].id
  {
    assert forall k | 0 <= k < i :: RuleIds(rules)[k] != RuleIds(rules)[i];
  }

  lemma {:induction false} ParentsOfRows<E>(parents: seq<Parent<E>>)
    ensures forall row | row in AllChildren(parents) :: exists k | 0 <= k < |parents| :: row.parent == parents[k].id
  {
    if parents != [] {
      ParentsOfRows(parents[..|parents| - 1]);
    }
  }

  method InsertMembers<M, E>(rows: seq<Child<E>>, rule: Rule<M>, write: M -> E) returns (all: seq<Child<E>>)
    ensures all == rows + ChildrenOf(MembersOf(write)(rule))
  {
    all := rows;
    for position := 0 to |rule.members|
      invariant all == rows + ChildrenOf(MembersOf(write)(rule))[..position]
    {
      all := all + [Child(rule.id, position, write(rule.members[position]))];
    }
    assert ChildrenOf(MembersOf(write)(rule))[..|rule.members|] == ChildrenOf(MembersOf(write)(rule));
  }

  /** The key of a link row is (list, schedule), so a repeated schedule id fails. */
  method InsertLinks<M>(rows: seq<Child<string>>, rule: Rule<M>) returns (all: Option<seq<Child<string>>>)
    requires forall row | row in rows :: row.parent != rule.id
    ensures all == if Distinct(rule.scheduleIds) then Some(rows + ChildrenOf(LinksOf(rule))) else None
  {
    var links := rows;
    for position := 0 to |rule.scheduleIds|
      invariant |links| == |rows| + position
      invariant forall k | 0 <= k < |rows| :: links[k] == rows[k]
      invariant forall k | 0 <= k < position :: links[|rows| + k] == Child(rule.id, k, rule.scheduleIds[k])
      invariant Distinct(rule.scheduleIds[..position])
    {
      var scheduleId := rule.scheduleIds[position];
      forall k | 0 <= k < |rows| ensures links[k].parent != rule.id {
        assert rows[k] in rows;
      }
      if Child(rule.id, 0, scheduleId) in Keys(links) {
        ghost var k :| 0 <= k < |links| && links[k].parent == rule.id && links[k].payload == scheduleId;
        assert rule.scheduleIds[k - |rows|] == rule.scheduleIds[position];
        return None;
      }
      forall j | 0 <= j < position ensures rule.scheduleIds[j] != scheduleId {
        assert links[|rows| + j].payload == rule.scheduleIds[j];
        assert Keys(links)[|rows| + j] == Child(rule.id, 0, rule.scheduleIds[j]);
      }
      links := links + [Child(rule.id, position, scheduleId)];
    }
    assert rule.scheduleIds[..|rule.scheduleIds|] == rule.scheduleIds;
    assert links == rows + ChildrenOf(LinksOf(rule));
    all := Some(links);
  }

  /** The insert loops over site lists, and again over application rules; list ids
      were found distinct by validation. */
  method StoreRules<M, E>(rules: seq<Rule<M>>, write: M -> E) returns (t: Option<ListTables<E>>)
    requires Distinct(RuleIds(rules))
    ensures t == if NoRepeatedLinks(rules) then Some(RuleTables(rules, write)) else None
  {
    var lists: seq<ListRow> := [];
    var members: seq<Child<E>> := [];
    var links: seq<Child<string>> := [];
    ghost var memberParents, linkParents := MapSeq(rules, MembersOf(write)), MapSeq(rules, LinksOf);
    hide AllChildren, Distinct;
    NoChildren<E>();
    NoChildren<string>();
    for i := 0 to |rules|
      invariant lists == MapSeq(rules, WriteRule)[..i]
      invariant members == AllChildren(memberParents[..i])
      invariant links == AllChildren(linkParents[..i])
      invariant forall k | 0 <= k < i :: Distinct(rules[k].scheduleIds)
    {
      lists := lists + [WriteRule(rules[i])];
      members := InsertMembers(members, rules[i], write);
      ChildrenSnoc(memberParents, i);
      ChildrenSnoc(linkParents, i);
      ParentsOfRows(linkParents[..i]);
      EarlierIds(rules, i);
      var all := InsertLinks(links, rules[i]);
      if all.None? {
        return None;
      }
      links := all.value;
    }
    assert MapSeq(rules, WriteRule)[..|rules|] == MapSeq(rules, WriteRule);
    assert memberParents[..|rules|] == memberParents && linkParents[..|rules|] == linkParents;
    t := Some(ListTables(lists, members, links));
  }

  class Store {
    var tables: Stored

    constructor ()
      ensures tables == Stored(ListTables([], [], []), ListTables([], [], []), [], [], [], None)
    {
      tables := Stored(ListTables([], [], []), ListTables([], [], []), [], [], [], None);
    }

    /** All rows and the revocations, or nothing. */
    method ReplacePolicyConfig(c: Config, parses: string -> bool, unlocks: Unlocks.UnlockTable)
      returns (r: Result<(), StoreError>)
      modifies this, unlocks
      ensures r.Ok? <==> Valid(c, parses) && NoRepeatedLinks(c.rules) && NoRepeatedLinks(c.appRules)
      ensures r.Ok? ==> tables == TablesOf(c)
      ensures r.Ok? ==> unlocks.Now() == Unlocks.RevokeMissing(old(unlocks.Now()), ListedIds(tables))
      ensures r.Err? ==> tables == old(tables) && unlocks.Now() == old(unlocks.Now())
    {
      hide RuleOk, OwnAllowances, PatternOk, MatcherOk, AllChildren, NoRepeatedLinks;
      var valid := Validate(c, parses);
      if valid.Err? {
        return Err(Invalid(valid.error));
      }
      var allowances: seq<AllowanceRow> := [];
      for k := 0 to |c.allowances|
        invariant allowances == MapSeq(c.allowances, WriteAllowance)[..k]
        invariant tables == old(tables) && unlocks.Now() == old(unlocks.Now())
      {
        allowances := allowances + [WriteAllowance(c.allowances[k])];
      }
      var schedules: seq<ScheduleRow> := [];
      for k := 0 to |c.schedules|
        invariant schedules == MapSeq(c.schedules, WriteSchedule)[..k]
        invariant tables == old(tables) && unlocks.Now() == old(unlocks.Now())
      {
        schedules := schedules + [WriteSchedule(c.schedules[k])];
      }
      var windows := InsertChildren(MapSeq(c.schedules, WindowsOf));
      var sites := StoreRules(c.rules, WritePattern);
      if sites.None? {
        return Err(RepeatedLink);
      }
      var apps := StoreRules(c.appRules, WriteMatcher);
      if apps.None? {
        return Err(RepeatedLink);
      }
      tables := Stored(sites.value, apps.value, schedules, windows, allowances, Some(WriteStrict(c.strictMode)));
      unlocks.RevokeMissingTargets(ListedIds(tables));
      r := Ok(());
    }

    method LoadPolicyConfig(parses: string -> bool) returns (r: Result<Config, StoreError>)
      ensures r.Ok? <==> Loaded(tables).Some? && Valid(Loaded(tables).value, parses)
      ensures r.Ok? ==> Some(r.value) == Loaded(tables)
    {
      var allowances := DecodeRows(SortById(tables.allowances, AllowanceRowId), ReadAllowance);
      if allowances.None? { return Err(Unreadable); }
      var schedules := DecodeRows(SortById(tables.schedules, ScheduleRowId), ReadSchedule(tables.windows));
      if schedules.None? { return Err(Unreadable); }
      var rules := DecodeRows(SortById(tables.sites.lists, ListRowId), ReadRule(tables.sites, ReadPattern));
      if rules.None? { return Err(Unreadable); }
      var appRules := DecodeRows(SortById(tables.apps.lists, ListRowId), ReadRule(tables.apps, ReadMatcher));
      if appRules.None? { return Err(Unreadable); }
      var strict := ReadStrict(tables.strict);
      if strict.None? { return Err(Unreadable); }
      var config := Config(rules.value, appRules.value, schedules.value, allowances.value, strict.value);
      var valid := Validate(config, parses);
      r := if valid.Ok? then Ok(config) else Err(Invalid(valid.error));
    }
  }

  // ------------------------------------------------------------- save, then load

  function Sorted(c: Config): Config {
    c.(rules := SortById(c.rules, RuleId), appRules := SortById(c.appRules, RuleId),
       schedules := SortById(c.schedules, ScheduleId), allowances := SortById(c.allowances, AllowanceId))
  }

  lemma {:induction false} RuleBack<M(!new), E(!new)>(rules: seq<Rule<M>>, k: nat, write: M -> E, read: E -> Option<M>)
    requires k < |rules| && Distinct(RuleIds(rules)) && forall m :: read(write(m)) == Some(m)
    ensures ReadRule(RuleTables(rules, write), read)(WriteRule(rules[k])) == Some(rules[k])
  {
    hide AllChildren, Select, DecodeAll;
    forall i, j | 0 <= i < j < |rules| ensures rules[i].id != rules[j].id {
      EarlierIds(rules, j);
    }
    SelectBack(MapSeq(rules, MembersOf(write)), k);
    SelectBack(MapSeq(rules, LinksOf), k);
    DecodeMapped(rules[k].members, write, read);
  }

  lemma {:induction false} RulesBack<M(!new), E(!new)>(rules: seq<Rule<M>>, write: M -> E, read: E -> Option<M>)
    requires Distinct(RuleIds(rules)) && forall m :: read(write(m)) == Some(m)
    ensures var t := RuleTables(rules, write);
            DecodeAll(SortById(t.lists, ListRowId), ReadRule(t, read)) == Some(SortById(rules, RuleId))
  {
    var t := RuleTables(rules, write);
    forall r | r in rules ensures Encodes(WriteRule, ReadRule(t, read), r, ListRowId, RuleId) {
      var k :| 0 <= k < |rules| && rules[k] == r;
      RuleBack(rules, k, write, read);
    }
    hide DecodeAll, SortById;
    SelectAfterInsert(rules, WriteRule, ReadRule(t, read), ListRowId, RuleId);
  }

  lemma {:induction false} WindowBack(w: Window)
    ensures ReadWindow(WriteWindow(w)) == Some(w)
  {
    hide ParseTimeOfDay, PrintTimeOfDay;
    TimeOfDayRoundTrip(w.start);
    TimeOfDayRoundTrip(w.end);
  }

  lemma {:induction false} ScheduleBack(schedules: seq<Schedule>, k: nat)
    requires k < |schedules| && Distinct(ScheduleIds(schedules))
    ensures ReadSchedule(AllChildren(MapSeq(schedules, WindowsOf)))(WriteSchedule(schedules[k])) == Some(schedules[k])
  {
    hide AllChildren, Select, DecodeAll, ReadWindow, WriteWindow;
    var ids := ScheduleIds(schedules);
    assert forall i, j | 0 <= i < j < |schedules| :: ids[i] != ids[j];
    SelectBack(MapSeq(schedules, WindowsOf), k);
    forall w: Window ensures ReadWindow(WriteWindow(w)) == Some(w) {
      WindowBack(w);
    }
    DecodeMapped(schedules[k].windows, WriteWindow, ReadWindow);
  }

  lemma {:induction false} SchedulesBack(schedules: seq<Schedule>)
    requires Distinct(ScheduleIds(schedules))
    ensures DecodeAll(SortById(MapSeq(schedules, WriteSchedule), ScheduleRowId),
                      ReadSchedule(AllChildren(MapSeq(schedules, WindowsOf)))) == Some(SortById(schedules, ScheduleId))
  {
    hide DecodeAll, SortById, AllChildren;
    var read := ReadSchedule(AllChildren(MapSeq(schedules, WindowsOf)));
    forall s | s in schedules ensures Encodes(WriteSchedule, read, s, ScheduleRowId, ScheduleId) {
      var k :| 0 <= k < |schedules| && schedules[k] == s;
      ScheduleBack(schedules, k);
    }
    SelectAfterInsert(schedules, WriteSchedule, read, ScheduleRowId, ScheduleId);
  }

  lemma {:induction false} CellsBack()
    ensures forall p: Pattern :: ReadPattern(WritePattern(p)) == Some(p)
    ensures forall m: Matcher :: ReadMatcher(WriteMatcher(m)) == Some(m)
  {
    forall p: Pattern ensures ReadPattern(WritePattern(p)) == Some(p) {
    }
    forall m: Matcher ensures ReadMatcher(WriteMatcher(m)) == Some(m) {
    }
  }

  /** What was saved loads as the same policy: lists, schedules and allowances in id
      order, everything inside them as it was. */
  lemma {:induction false} SaveThenLoad(c: Config, parses: string -> bool)
    requires Valid(c, parses)
    ensures Loaded(TablesOf(c)) == Some(Sorted(c))
  {
    CellsBack();
    hide DecodeAll, SortById, AllChildren, ReadRule, ReadSchedule, ReadPattern, ReadMatcher, WritePattern, WriteMatcher,
      RuleOk, PatternOk, MatcherOk, OwnAllowances;
    RulesBack(c.rules, WritePattern, ReadPattern);
    RulesBack(c.appRules, WriteMatcher, ReadMatcher);
    SchedulesBack(c.schedules);
    SelectAfterInsert(c.allowances, WriteAllowance, ReadAllowance, AllowanceRowId, AllowanceId);
  }

  // -------------------------------------------------- the loaded policy is as good

  lemma {:induction false} SortedIds<T(!new)>(xs: seq<T>, id: T -> string, ids: seq<string>, sortedIds: seq<string>)
    requires GoodIds(ids) && |ids| == |xs| && forall k | 0 <= k < |xs| :: ids[k] == id(xs[k])
    requires |sortedIds| == |xs| && forall k | 0 <= k < |xs| :: sortedIds[k] == id(SortById(xs, id)[k])
    ensures GoodIds(sortedIds) && InIdOrder(SortById(xs, id), id)
    ensures forall x :: x in SortById(xs, id) <==> x in xs
  {
    assert forall i, j | 0 <= i < j < |xs| :: ids[i] != ids[j];
    SortOrders(xs, id);
    SortMembers(xs, id);
    OrderedIsDistinct(SortById(xs, id), id);
    forall s | s in sortedIds ensures Text.IsTrimmed(s) {
      var k :| 0 <= k < |xs| && sortedIds[k] == s;
      assert SortById(xs, id)[k] in xs;
      var j :| 0 <= j < |xs| && xs[j] == SortById(xs, id)[k];
      assert ids[j] == s;
    }
  }

  lemma {:induction false} SortedAllowances<M(!new)>(rules: seq<Rule<M>>)
    requires OwnAllowances(rules) && InIdOrder(SortById(rules, RuleId), RuleId)
    requires forall x :: x in SortById(rules, RuleId) <==> x in rules
    ensures OwnAllowances(SortById(rules, RuleId))
  {
    hide SortById;
    var sorted := SortById(rules, RuleId);
    OrderedIsDistinct(sorted, RuleId);
    forall i, j | 0 <= i < j < |sorted| && sorted[i].allowanceId.Some?
      ensures sorted[i].allowanceId != sorted[j].allowanceId
    {
      assert sorted[i] in rules && sorted[j] in rules;
      var k :| 0 <= k < |rules| && rules[k] == sorted[i];
      var l :| 0 <= l < |rules| && rules[l] == sorted[j];
      assert RuleId(sorted[i]) != RuleId(sorted[j]);
      assert k != l;
    }
  }

  lemma {:induction false} SortedLinks<M(!new)>(rules: seq<Rule<M>>)
    requires NoRepeatedLinks(rules)
    ensures NoRepeatedLinks(SortById(rules, RuleId))
  {
    hide SortById;
    SortMembers(rules, RuleId);
    var sorted := SortById(rules, RuleId);
    forall k | 0 <= k < |sorted| ensures Distinct(sorted[k].scheduleIds) {
      assert sorted[k] in rules;
      var j :| 0 <= j < |rules| && rules[j] == sorted[k];
    }
  }

  /** The loaded policy passes validation, and is in id order throughout. */
  lemma {:induction false} SortedStaysValid(c: Config, parses: string -> bool)
    requires Valid(c, parses)
    ensures Valid(Sorted(c), parses)
    ensures InIdOrder(Sorted(c).rules, RuleId) && InIdOrder(Sorted(c).appRules, RuleId)
    ensures InIdOrder(Sorted(c).schedules, ScheduleId) && InIdOrder(Sorted(c).allowances, AllowanceId)
  {
    hide SortById, GoodIds, RuleOk, OwnAllowances, InIdOrder;
    var d := Sorted(c);
    SortedIds(c.rules, RuleId, RuleIds(c.rules), RuleIds(d.rules));
    SortedIds(c.appRules, RuleId, RuleIds(c.appRules), RuleIds(d.appRules));
    SortedIds(c.schedules, ScheduleId, ScheduleIds(c.schedules), ScheduleIds(d.schedules));
    SortedIds(c.allowances, AllowanceId, AllowanceIds(c.allowances), AllowanceIds(d.allowances));
    SortedAllowances(c.rules);
    SortedAllowances(c.appRules);
    assert (set s | s in c.schedules :: s.id) == (set s | s in d.schedules :: s.id);
    assert (set a | a in c.allowances :: a.id) == (set a | a in d.allowances :: a.id);
  }

  /** Loading and saving again changes nothing: the second trip is the identity. */
  lemma {:induction false} SecondRoundTrip(c: Config, parses: string -> bool)
    requires Valid(c, parses) && NoRepeatedLinks(c.rules) && NoRepeatedLinks(c.appRules)
    ensures var d := Sorted(c);
            && Valid(d, parses) && NoRepeatedLinks(d.rules) && NoRepeatedLinks(d.appRules)
            && Loaded(TablesOf(d)) == Some(d)
  {
    hide Valid, NoRepeatedLinks, InIdOrder, SortById, Loaded, TablesOf;
    var d := Sorted(c);
    SortedStaysValid(c, parses);
    SortedLinks(c.rules);
    SortedLinks(c.appRules);
    SaveThenLoad(d, parses);
    SortOfOrdered(d.rules, RuleId);
    SortOfOrdered(d.appRules, RuleId);
    SortOfOrdered(d.schedules, ScheduleId);
    SortOfOrdered(d.allowances, AllowanceId);
  }

  function Under(c: Config, ctx: Engine.Context): Engine.Context {
    ctx.(schedules := c.schedules, allowances := c.allowances)
  }

  lemma {:induction false} SameLookupsSorted(c: Config, ctx: Engine.Context, parses: string -> bool)
    requires Valid(c, parses)
    ensures Decisions.SameLookups(Under(c, ctx), Under(Sorted(c), ctx))
  {
    hide SortById, RuleOk, OwnAllowances, Engine.FindSchedule, Engine.FindAllowance;
    SortMembers(c.schedules, ScheduleId);
    SortMembers(c.allowances, AllowanceId);
    var schedules, allowances := ScheduleIds(c.schedules), AllowanceIds(c.allowances);
    forall x, y | x in c.schedules && y in c.schedules && x.id == y.id ensures x == y {
      var i :| 0 <= i < |schedules| && c.schedules[i] == x;
      var j :| 0 <= j < |schedules| && c.schedules[j] == y;
      assert schedules[i] == schedules[j];
    }
    forall x, y | x in c.allowances && y in c.allowances && x.id == y.id ensures x == y {
      var i :| 0 <= i < |allowances| && c.allowances[i] == x;
      var j :| 0 <= j < |allowances| && c.allowances[j] == y;
      assert allowances[i] == allowances[j];
    }
  }

  /** Every URL and every application gets the same outcome and the same block tier
      from the loaded policy as from the saved one. */
  lemma {:induction false} LoadedDecidesAlike(c: Config, parses: string -> bool, ctx: Engine.Context,
        hit: Option<Pattern -> bool>, appHit: Matcher -> bool)
    requires Valid(c, parses)
    ensures var d := Sorted(c);
            && Decisions.KindOf(Engine.DecideUrl(hit, c, Under(c, ctx)))
               == Decisions.KindOf(Engine.DecideUrl(hit, d, Under(d, ctx)))
            && Decisions.KindOf(Engine.Decide(c.appRules, Engine.AppSubject(appHit), Under(c, ctx)))
               == Decisions.KindOf(Engine.Decide(d.appRules, Engine.AppSubject(appHit), Under(d, ctx)))
  {
    hide Valid, SortById, Decisions.SameLookups, Engine.Decide;
    var d := Sorted(c);
    SameLookupsSorted(c, ctx, parses);
    SortMembers(c.rules, RuleId);
    SortMembers(c.appRules, RuleId);
    if hit.Some? {
      Decisions.OrderDoesNotMatter(c.rules, d.rules, Engine.SiteSubject(hit.value), Under(c, ctx), Under(d, ctx));
    }
    Decisions.OrderDoesNotMatter(c.appRules, d.appRules, Engine.AppSubject(appHit), Under(c, ctx), Under(d, ctx));
  }
}
