/** The unlock ledger: quota, reasons, grouped targets and their revocation.

    `grants` is the table unlocks, whose rows are never deleted, so the row with
    id k is at position k. `targets` is the table unlock_rule_targets.
 */
module Unlocks {
  import opened Wrappers
  import Text

  datatype Grant = Grant(target: string, ruleId: string, minutes: nat, reason: string, startedAt: int, expiresAt: int)

  datatype Target = Target(unlockId: nat, ruleId: string, position: nat, revoked: bool)

  datatype Ledger = Ledger(grants: seq<Grant>, targets: seq<Target>)

  datatype Unlock = Unlock(id: nat, grant: Grant, ruleIds: seq<string>)

  /** What a request's target stands for: the stored target and the Tier 3 rules. */
  datatype Resolved = Resolved(target: string, ruleIds: seq<string>)

  /** Why a target stands for no rule that can be unlocked. */
  datatype Refusal =
    | HardBlocked(ruleId: string) | ScheduledBlocked(ruleId: string)
    | InDetox(ruleId: string, sessionId: string, endsAt: int) | UnknownTarget

  type Resolution = r: Resolved | r.ruleIds != [] witness Resolved("", [""])

  /** Unicode letters and lower-casing are library code. */
  datatype Letters = Letters(isLetter: char -> bool, lower: string -> string)

  datatype UnlockError =
    | EmptyTarget | Refused(why: Refusal) | EmptyReason | ReasonTooShort(actual: nat) | ReasonAlreadyUsed
    | UnlockAlreadyActive(ruleId: string) | HourlyQuotaExceeded | WriteFailed

  // ----------------------------------------------------------------- validation

  function LetterCount(s: string, letters: Letters): nat {
    if s == "" then 0 else LetterCount(s[1..], letters) + if letters.isLetter(s[0]) then 1 else 0
  }

  function Normalize(reason: string, letters: Letters): string {
    letters.lower(Text.CleanReason(reason))
  }

  predicate ReasonUsed(grants: seq<Grant>, reason: string, letters: Letters) {
    exists g | g in grants :: Normalize(g.reason, letters) == Normalize(reason, letters)
  }

  /** How many grants started at `since` or later. */
  function CountSince(grants: seq<Grant>, since: int): nat {
    if grants == [] then 0
    else CountSince(grants[..|grants| - 1], since) + if grants[|grants| - 1].startedAt >= since then 1 else 0
  }

  predicate LiveRow(t: Target, unlockId: nat, ruleId: string) {
    t.unlockId == unlockId && t.ruleId == ruleId && !t.revoked
  }

  predicate Live(targets: seq<Target>, unlockId: nat, ruleId: string) {
    exists t | t in targets :: LiveRow(t, unlockId, ruleId)
  }

  predicate Candidate(l: Ledger, k: nat, ruleId: string, now: int)
    requires k < |l.grants|
  {
    Live(l.targets, k, ruleId) && l.grants[k].expiresAt > now
  }

  /** The latest-expiring unexpired grant with a live share for the rule, among the
      first `n`. */
  function LatestLive(l: Ledger, n: nat, ruleId: string, now: int): (r: Option<nat>)
    requires n <= |l.grants|
    ensures r.Some? ==> r.value < n && Candidate(l, r.value, ruleId, now)
    ensures forall k | 0 <= k < n && Candidate(l, k, ruleId, now) ::
              r.Some? && l.grants[k].expiresAt <= l.grants[r.value].expiresAt
  {
    if n == 0 then None
    else
      var before := LatestLive(l, n - 1, ruleId, now);
      if Candidate(l, n - 1, ruleId, now)
         && (before.None? || l.grants[before.value].expiresAt < l.grants[n - 1].expiresAt) then Some(n - 1)
      else before
  }

  /** The rule ids of an unlock in position order: all of them, or the live ones. */
  function RuleIdsOf(targets: seq<Target>, unlockId: nat, liveOnly: bool): seq<string> {
    if targets == [] then []
    else
      var last := targets[|targets| - 1];
      RuleIdsOf(targets[..|targets| - 1], unlockId, liveOnly)
      + if last.unlockId == unlockId && (liveOnly ==> !last.revoked) then [last.ruleId] else []
  }

  function ActiveUnlock(l: Ledger, ruleId: string, now: int): Option<Unlock> {
    match LatestLive(l, |l.grants|, ruleId, now)
    case None => None
    case Some(k) => Some(Unlock(k, l.grants[k], RuleIdsOf(l.targets, k, true)))
  }

  predicate Repeats(ids: seq<string>) {
    exists i, j :: 0 <= i < j < |ids| && ids[i] == ids[j]
  }

  function TargetRows(unlockId: nat, ruleIds: seq<string>): seq<Target> {
    seq(|ruleIds|, k requires 0 <= k < |ruleIds| => Target(unlockId, ruleIds[k], k, false))
  }

  /** One request, with the checks in their order; `resolved` is what the target
      resolves to. A repeated rule id breaks the primary key and rolls back. */
  function Request(l: Ledger, target: string, resolved: Result<Resolution, Refusal>, reason: string, now: int,
        letters: Letters)
    : Result<Ledger, UnlockError>
  {
    var cleaned := Text.CleanReason(reason);
    if Text.Trim(target) == "" then Err(EmptyTarget)
    else if resolved.Err? then Err(Refused(resolved.error))
    else if cleaned == "" then Err(EmptyReason)
    else if LetterCount(cleaned, letters) < 20 then Err(ReasonTooShort(LetterCount(cleaned, letters)))
    else if ReasonUsed(l.grants, cleaned, letters) then Err(ReasonAlreadyUsed)
    else if exists r | r in resolved.value.ruleIds :: ActiveUnlock(l, r, now).Some? then
      Err(UnlockAlreadyActive(FirstActive(l, resolved.value.ruleIds, now)))
    else if CountSince(l.grants, now - 3_600_000_000) >= 1 then Err(HourlyQuotaExceeded)
    else if Repeats(resolved.value.ruleIds) then Err(WriteFailed)
    else
      Ok(Ledger(l.grants + [Grant(resolved.value.target, resolved.value.ruleIds[0], 2, cleaned, now,
                                   now + 120_000_000)],
                l.targets + TargetRows(|l.grants|, resolved.value.ruleIds)))
  }

  function FirstActive(l: Ledger, rules: seq<string>, now: int): string {
    if rules == [] then ""
    else if ActiveUnlock(l, rules[0], now).Some? then rules[0]
    else FirstActive(l, rules[1..], now)
  }

  /** Policy replacement revokes the shares of rules that are no longer listed. */
  function Revoke(t: Target, listed: set<string>): Target {
    if !t.revoked && t.ruleId !in listed then t.(revoked := true) else t
  }

  function RevokeMissing(l: Ledger, listed: set<string>): Ledger {
    l.(targets := seq(|l.targets|, k requires 0 <= k < |l.targets| => Revoke(l.targets[k], listed)))
  }

  predicate HasTarget(targets: seq<Target>, unlockId: nat) {
    exists t | t in targets :: t.unlockId == unlockId
  }

  /** Opening the database gives a target to every grant, of the first `n`, that
      has none. */
  function BackfillRows(l: Ledger, n: nat): (rows: seq<Target>)
    requires n <= |l.grants|
    ensures forall t | t in rows :: t.unlockId < n && !HasTarget(l.targets, t.unlockId)
    ensures forall k | 0 <= k < n && !HasTarget(l.targets, k) :: HasTarget(rows, k)
  {
    if n == 0 then []
    else
      var before := BackfillRows(l, n - 1);
      assert forall k, row | HasTarget(before, k) :: HasTarget(before + [row], k);
      if HasTarget(l.targets, n - 1) then before
      else
        var row := Target(n - 1, l.grants[n - 1].ruleId, 0, false);
        assert row in before + [row];
        before + [row]
  }

  function Backfill(l: Ledger): Ledger {
    l.(targets := l.targets + BackfillRows(l, |l.grants|))
  }

  // ------------------------------------------------------------------- the class

  class UnlockTable {
    var grants: seq<Grant>
    var targets: seq<Target>

    function Now(): Ledger
      reads this
    {
      Ledger(grants, targets)
    }

    constructor (grants: seq<Grant>, targets: seq<Target>)
      ensures Now() == Ledger(grants, targets)
    {
      this.grants, this.targets := grants, targets;
    }

    method CountUnlocksSince(since: int) returns (count: nat)
      ensures count == CountSince(grants, since)
    {
      count := 0;
      for k := 0 to |grants|
        invariant count == CountSince(grants[..k], since)
      {
        assert grants[..k + 1][..k] == grants[..k];
        if grants[k].startedAt >= since {
          count := count + 1;
        }
      }
      assert grants[..|grants|] == grants;
    }

    /** All rows or none. */
    method InsertUnlock(target: string, ruleIds: seq<string>, reason: string, startedAt: int, expiresAt: int)
      returns (r: Result<nat, UnlockError>)
      modifies this
      ensures if ruleIds == [] || Repeats(ruleIds) then r == Err(WriteFailed) && Now() == old(Now())
              else
                && r == Ok(|old(grants)|)
                && grants == old(grants) + [Grant(target, ruleIds[0], 2, reason, startedAt, expiresAt)]
                && targets == old(targets) + TargetRows(|old(grants)|, ruleIds)
    {
      if ruleIds == [] {
        return Err(WriteFailed);
      }
      var rows: seq<Target> := [];
      for k := 0 to |ruleIds|
        invariant |rows| == k
        invariant forall j | 0 <= j < k :: rows[j] == Target(|grants|, ruleIds[j], j, false)
        invariant !Repeats(ruleIds[..k])
      {
        if ruleIds[k] in ruleIds[..k] {
          var j :| 0 <= j < k && ruleIds[j] == ruleIds[k];
          return Err(WriteFailed);
        }
        rows := rows + [Target(|grants|, ruleIds[k], k, false)];
      }
      assert ruleIds[..|ruleIds|] == ruleIds;
      assert rows == TargetRows(|grants|, ruleIds);
      r := Ok(|grants|);
      grants := grants + [Grant(target, ruleIds[0], 2, reason, startedAt, expiresAt)];
      targets := targets + rows;
    }

    method RequestUnlock(target: string, resolved: Result<Resolution, Refusal>, reason: string, now: int,
          letters: Letters)
      returns (r: Result<nat, UnlockError>)
      modifies this
      ensures match Request(old(Now()), target, resolved, reason, now, letters)
              case Ok(after) => r == Ok(|old(grants)|) && Now() == after
              case Err(error) => r == Err(error) && Now() == old(Now())
    {
      hide Text.CleanReason, Text.Trim, ActiveUnlock, LatestLive, CountSince, LetterCount, Normalize;
      if Text.Trim(target) == "" { return Err(EmptyTarget); }
      if resolved.Err? { return Err(Refused(resolved.error)); }
      var rules := resolved.value.ruleIds;
      var cleaned := Text.CleanReason(reason);
      if cleaned == "" { return Err(EmptyReason); }
      var count := LetterCount(cleaned, letters);
      if count < 20 { return Err(ReasonTooShort(count)); }
      for k := 0 to |grants|
        invariant Now() == old(Now())
        invariant !ReasonUsed(grants[..k], cleaned, letters)
      {
        assert grants[..k + 1] == grants[..k] + [grants[k]];
        if Normalize(grants[k].reason, letters) == Normalize(cleaned, letters) {
          assert grants[k] in grants;
          return Err(ReasonAlreadyUsed);
        }
      }
      assert grants[..|grants|] == grants;
      for k := 0 to |rules|
        invariant Now() == old(Now())
        invariant forall j | 0 <= j < k :: ActiveUnlock(Now(), rules[j], now).None?
        invariant FirstActive(Now(), rules, now) == FirstActive(Now(), rules[k..], now)
      {
        var active := ActiveUnlock(Now(), rules[k], now);
        if active.Some? {
          assert rules[k] in rules;
          return Err(UnlockAlreadyActive(rules[k]));
        }
      }
      var recent := CountUnlocksSince(now - 3_600_000_000);
      if recent >= 1 { return Err(HourlyQuotaExceeded); }
      r := InsertUnlock(resolved.value.target, rules, cleaned, now, now + 120_000_000);
    }

    method RevokeMissingTargets(listed: set<string>)
      modifies this
      ensures Now() == RevokeMissing(old(Now()), listed)
    {
      for k := 0 to |targets|
        invariant grants == old(grants) && |targets| == |old(targets)|
        invariant forall j | 0 <= j < k :: targets[j] == Revoke(old(targets)[j], listed)
        invariant forall j | k <= j < |targets| :: targets[j] == old(targets)[j]
      {
        if !targets[k].revoked && targets[k].ruleId !in listed {
          targets := targets[k := targets[k].(revoked := true)];
        }
      }
    }

    method Reopen()
      modifies this
      ensures Now() == Backfill(old(Now()))
    {
      var rows: seq<Target> := [];
      for k := 0 to |grants|
        invariant Now() == old(Now())
        invariant rows == BackfillRows(Now(), k)
      {
        if !HasTarget(targets, k) {
          rows := rows + [Target(k, grants[k].ruleId, 0, false)];
        }
      }
      targets := targets + rows;
    }
  }

  // ------------------------------------------------------------------------ runs

  datatype Step =
    | Ask(target: string, resolved: Result<Resolution, Refusal>, reason: string, now: int)
    | Replace(listed: set<string>)
    | Open

  function After(l: Ledger, step: Step, letters: Letters): Ledger {
    match step
    case Ask(target, resolved, reason, now) =>
      (match Request(l, target, resolved, reason, now, letters)
       case Ok(after) => after
       case Err(_) => l)
    case Replace(listed) => RevokeMissing(l, listed)
    case Open => Backfill(l)
  }

  function Run(l: Ledger, steps: seq<Step>, letters: Letters): Ledger {
    if steps == [] then l
    else After(Run(l, steps[..|steps| - 1], letters), steps[|steps| - 1], letters)
  }

  /** Every grant starts more than an hour after each earlier one, no two share a
      reason, and each lasts two minutes. */
  ghost predicate Spaced(grants: seq<Grant>, letters: Letters) {
    && (forall i, j | 0 <= i < j < |grants| ::
          grants[i].startedAt + 3_600_000_000 < grants[j].startedAt
          && Normalize(grants[i].reason, letters) != Normalize(grants[j].reason, letters))
    && (forall k | 0 <= k < |grants| :: grants[k].expiresAt == grants[k].startedAt + 120_000_000)
  }

  lemma {:induction false} NoneSince(grants: seq<Grant>, since: int)
    requires CountSince(grants, since) == 0
    ensures forall g | g in grants :: g.startedAt < since
  {
    if grants != [] {
      NoneSince(grants[..|grants| - 1], since);
      assert grants == grants[..|grants| - 1] + [grants[|grants| - 1]];
    }
  }

  /** What a request does to the ledger: nothing, or one grant that passed the
      checks, with a row for each of its rules. */
  lemma {:induction false} AskEffect(l: Ledger, step: Step, letters: Letters)
    requires step.Ask?
    ensures var after := After(l, step, letters);
            after == l
            || (|after.grants| > 0 &&
                var g := after.grants[|after.grants| - 1];
                  && after.grants == l.grants + [g]
                  && g.startedAt == step.now && g.expiresAt == step.now + 120_000_000
                  && CountSince(l.grants, step.now - 3_600_000_000) == 0
                  && !ReasonUsed(l.grants, g.reason, letters)
                  && step.resolved.Ok?
                  && after.targets == l.targets + TargetRows(|l.grants|, step.resolved.value.ruleIds))
  {
    hide Text.CleanReason, Text.Trim, ReasonUsed, ActiveUnlock, LetterCount, CountSince, TargetRows, Repeats,
        FirstActive;
  }

  lemma {:induction false} SpacedAppend(grants: seq<Grant>, g: Grant, letters: Letters)
    requires Spaced(grants, letters)
    requires CountSince(grants, g.startedAt - 3_600_000_000) == 0 && !ReasonUsed(grants, g.reason, letters)
    requires g.expiresAt == g.startedAt + 120_000_000
    ensures Spaced(grants + [g], letters)
  {
    hide Normalize, CountSince;
    NoneSince(grants, g.startedAt - 3_600_000_000);
    forall k | 0 <= k < |grants|
      ensures grants[k].startedAt + 3_600_000_000 < g.startedAt
      ensures Normalize(grants[k].reason, letters) != Normalize(g.reason, letters)
    {
      assert grants[k] in grants;
    }
  }

  lemma {:induction false} AfterSpaced(l: Ledger, step: Step, letters: Letters)
    requires Spaced(l.grants, letters)
    ensures Spaced(After(l, step, letters).grants, letters)
    ensures l.grants <= After(l, step, letters).grants
  {
    hide Spaced, TargetRows, CountSince, ReasonUsed, Request, BackfillRows;
    if step.Ask? {
      AskEffect(l, step, letters);
      hide After;
      if After(l, step, letters) != l {
        SpacedAppend(l.grants, After(l, step, letters).grants[|l.grants|], letters);
      }
    }
  }

  /** The quota and the reason check hold over every run of requests, policy
      replacements and reopenings, whatever the clock does between requests.
      Nothing ever removes or changes a grant, so replacing the policy refunds
      nothing. */
  lemma {:induction false} QuotaOverRuns(l: Ledger, steps: seq<Step>, letters: Letters)
    requires Spaced(l.grants, letters)
    ensures Spaced(Run(l, steps, letters).grants, letters)
    ensures l.grants <= Run(l, steps, letters).grants
  {
    if steps != [] {
      QuotaOverRuns(l, steps[..|steps| - 1], letters);
      AfterSpaced(Run(l, steps[..|steps| - 1], letters), steps[|steps| - 1], letters);
    }
  }

  /** At most one grant is running at an instant. The engine's own test, which
      looks at the expiry only, admits at most one exactly when the last grant but
      one has expired: a clock set back behind that point revives both. */
  lemma {:induction false} AtMostOneGrant(grants: seq<Grant>, letters: Letters, now: int)
    requires Spaced(grants, letters)
    ensures forall i, j | 0 <= i < |grants| && 0 <= j < |grants|
              && grants[i].startedAt <= now < grants[i].expiresAt
              && grants[j].startedAt <= now < grants[j].expiresAt :: i == j
    ensures (forall i, j | 0 <= i < j < |grants| :: !(grants[i].expiresAt > now && grants[j].expiresAt > now))
            <==> |grants| < 2 || grants[|grants| - 2].expiresAt <= now
  {
    hide Normalize;
    if |grants| >= 2 {
      var last := |grants| - 1;
      assert grants[last - 1].expiresAt < grants[last].expiresAt;
    }
  }

  lemma {:induction false} AllLetters(s: string, letters: Letters)
    requires forall c | c in s :: letters.isLetter(c)
    ensures LetterCount(s, letters) == |s|
  {
    if s != "" {
      assert forall c | c in s[1..] :: c in s;
      AllLetters(s[1..], letters);
    }
  }

  lemma {:induction false} OneWord(s: string)
    requires Text.IsWord(s)
    ensures Text.CleanReason(s) == s
  {
    Text.SplitJoin([s]);
    assert Text.JoinWords([s]) == s;
  }

  lemma {:induction false} FreshGrant(l: Ledger, target: string, rule: string, reason: string, now: int,
        letters: Letters)
    requires Text.Trim(target) != "" && Text.CleanReason(reason) == reason && LetterCount(reason, letters) >= 20
    requires !ReasonUsed(l.grants, reason, letters) && CountSince(l.grants, now - 3_600_000_000) == 0
    requires ActiveUnlock(l, rule, now).None?
    ensures After(l, Ask(target, Ok(Resolved(target, [rule])), reason, now), letters)
            == Ledger(l.grants + [Grant(target, rule, 2, reason, now, now + 120_000_000)],
                      l.targets + [Target(|l.grants|, rule, 0, false)])
  {
    NoLetters(letters);
    OneRule(|l.grants|, rule);
    hide Text.CleanReason, Text.Trim, LetterCount, ReasonUsed, CountSince, ActiveUnlock, TargetRows, Repeats,
      FirstActive;
    assert reason != "";
    var rules := [rule];
    assert rules[0] == rule && forall r | r in rules :: r == rule;
  }

  lemma {:induction false} NoLetters(letters: Letters)
    ensures LetterCount("", letters) == 0
  {
  }

  lemma {:induction false} OneRule(unlockId: nat, rule: string)
    ensures TargetRows(unlockId, [rule]) == [Target(unlockId, rule, 0, false)] && !Repeats([rule])
  {
  }

  lemma {:induction false} RunTwo(l: Ledger, s: Step, t: Step, letters: Letters)
    ensures Run(l, [s, t], letters) == After(After(l, s, letters), t, letters)
  {
    hide After;
    var steps := [s, t];
    assert steps[..1] == [s] && [s][..0] == [];
    assert Run(l, [s], letters) == After(Run(l, [], letters), s, letters);
  }

  /** Requests for two rules with acceptable, different reasons, two hours apart. */
  lemma {:induction false} TwoRequests(target: string, r: string, q: string, a: string, b: string, letters: Letters)
    requires Text.Trim(target) != "" && r != q
    requires Text.CleanReason(a) == a && LetterCount(a, letters) >= 20
    requires Text.CleanReason(b) == b && LetterCount(b, letters) >= 20 && letters.lower(a) != letters.lower(b)
    ensures var end := Run(Ledger([], []), [Ask(target, Ok(Resolved(target, [r])), a, 0),
                                            Ask(target, Ok(Resolved(target, [q])), b, 7_200_000_000)], letters);
            ActiveUnlock(end, r, 0).Some? && ActiveUnlock(end, q, 0).Some?
  {
    hide *;
    var none := Ledger([], []);
    var first := Ask(target, Ok(Resolved(target, [r])), a, 0);
    var second := Ask(target, Ok(Resolved(target, [q])), b, 7_200_000_000);
    RunTwo(none, first, second, letters);
    NothingYet(a, r, letters);
    FreshGrant(none, target, r, a, 0, letters);
    var one := After(none, first, letters);
    assert one.grants == [Grant(target, r, 2, a, 0, 120_000_000)] && one.targets == [Target(0, r, 0, false)];
    OneGrantLater(one, r, q, b, letters);
    FreshGrant(one, target, q, b, 7_200_000_000, letters);
    BothLive(After(one, second, letters), r, q);
  }

  function Repeated(c: char, n: nat): (s: string)
    ensures |s| == n && forall k | 0 <= k < n :: s[k] == c
  {
    seq(n, k => c)
  }

  /** The failing input, reached by two requests: with the clock back at the first,
      both rules are unlocked at once. */
  lemma {:induction false} ClockSetBackRevives(letters: Letters)
    requires letters.isLetter('a') && letters.isLetter('b')
    requires letters.lower(Repeated('a', 20)) != letters.lower(Repeated('b', 20))
    ensures var end := Run(Ledger([], []),
                           [Ask("t", Ok(Resolved("t", ["r"])), Repeated('a', 20), 0),
                            Ask("t", Ok(Resolved("t", ["q"])), Repeated('b', 20), 7_200_000_000)], letters);
            ActiveUnlock(end, "r", 0).Some? && ActiveUnlock(end, "q", 0).Some?
  {
    assert Text.Trim("t") == "t" by {
      Text.TrimmedIff("t");
    }
    hide Run, ActiveUnlock, Text.CleanReason, LetterCount, Text.Trim, Repeated;
    LongReason(Repeated('a', 20), 'a', letters);
    LongReason(Repeated('b', 20), 'b', letters);
    assert "r"[0] != "q"[0];
    TwoRequests("t", "r", "q", Repeated('a', 20), Repeated('b', 20), letters);
  }

  lemma {:induction false} NothingYet(reason: string, r: string, letters: Letters)
    ensures !ReasonUsed([], reason, letters) && CountSince([], -3_600_000_000) == 0
    ensures ActiveUnlock(Ledger([], []), r, 0).None?
  {
  }

  lemma {:induction false} LongReason(s: string, c: char, letters: Letters)
    requires |s| == 20 && (forall k | 0 <= k < 20 :: s[k] == c) && 'a' <= c <= 'z' && letters.isLetter(c)
    ensures Text.CleanReason(s) == s && LetterCount(s, letters) == 20
  {
    AllLetters(s, letters);
    OneWord(s);
  }

  lemma {:induction false} OneGrantLater(l: Ledger, r: string, q: string, b: string, letters: Letters)
    requires |l.grants| == 1 && l.grants[0].startedAt == 0 && l.targets == [Target(0, r, 0, false)] && r != q
    requires Text.CleanReason(l.grants[0].reason) == l.grants[0].reason && Text.CleanReason(b) == b
    requires letters.lower(l.grants[0].reason) != letters.lower(b)
    ensures !ReasonUsed(l.grants, b, letters) && CountSince(l.grants, 3_600_000_000) == 0
    ensures ActiveUnlock(l, q, 7_200_000_000).None?
  {
    hide Text.CleanReason;
    assert l.grants == [l.grants[0]] && l.grants[..0] == [];
  }

  lemma {:induction false} BothLive(l: Ledger, r: string, q: string)
    requires |l.grants| == 2 && l.grants[0].expiresAt > 0 && l.grants[1].expiresAt > 0
    requires |l.targets| == 2 && l.targets[0] == Target(0, r, 0, false) && l.targets[1] == Target(1, q, 0, false)
    ensures ActiveUnlock(l, r, 0).Some? && ActiveUnlock(l, q, 0).Some?
  {
    assert l.targets[0] in l.targets && l.targets[1] in l.targets;
    assert LiveRow(l.targets[0], 0, r) && LiveRow(l.targets[1], 1, q);
    assert Candidate(l, 0, r, 0) && Candidate(l, 1, q, 0);
  }

  // ------------------------------------------------------------------ revocation

  /** Every grant has a target row, and rows belong to grants. */
  ghost predicate Covered(l: Ledger) {
    && (forall k | 0 <= k < |l.grants| :: HasTarget(l.targets, k))
    && (forall t | t in l.targets :: t.unlockId < |l.grants|)
  }

  lemma {:induction false} NothingToBackfill(l: Ledger, n: nat)
    requires n <= |l.grants| && Covered(l)
    ensures BackfillRows(l, n) == []
  {
    if n > 0 {
      NothingToBackfill(l, n - 1);
    }
  }

  /** Opening any ledger, legacy grants included, leaves no grant without a
      target; opening it again changes nothing. */
  lemma {:induction false} OpenCovers(l: Ledger)
    requires forall t | t in l.targets :: t.unlockId < |l.grants|
    ensures Covered(Backfill(l))
    ensures Covered(l) ==> Backfill(l) == l
  {
    var rows := BackfillRows(l, |l.grants|);
    forall k | 0 <= k < |l.grants| ensures HasTarget(l.targets + rows, k) {
      if HasTarget(l.targets, k) {
        var t :| t in l.targets && t.unlockId == k;
        assert t in l.targets + rows;
      } else {
        assert HasTarget(rows, k);
        var t :| t in rows && t.unlockId == k;
        assert t in l.targets + rows;
      }
    }
    if Covered(l) {
      NothingToBackfill(l, |l.grants|);
      assert l.targets + [] == l.targets;
    }
  }

  lemma {:induction false} RevokedRows(l: Ledger, listed: set<string>)
    ensures var after := RevokeMissing(l, listed).targets;
            && (forall t | t in after :: exists s | s in l.targets :: t == Revoke(s, listed))
            && (forall s | s in l.targets :: Revoke(s, listed) in after)
  {
    var after := RevokeMissing(l, listed).targets;
    forall t | t in after ensures exists s | s in l.targets :: t == Revoke(s, listed) {
      var k :| 0 <= k < |after| && after[k] == t;
      assert l.targets[k] in l.targets;
    }
    forall s | s in l.targets ensures Revoke(s, listed) in after {
      var k :| 0 <= k < |l.targets| && l.targets[k] == s;
      assert after[k] == Revoke(s, listed);
    }
  }

  lemma {:induction false} AskRows(l: Ledger, rules: seq<string>)
    requires rules != []
    ensures forall t | t in TargetRows(|l.grants|, rules) :: t.unlockId == |l.grants|
    ensures HasTarget(TargetRows(|l.grants|, rules), |l.grants|)
  {
    assert TargetRows(|l.grants|, rules)[0] in TargetRows(|l.grants|, rules);
  }

  /** One step keeps every grant covered, and a share that is live afterwards was
      live before and, if the policy was replaced, is still listed. */
  lemma {:induction false} LiveBefore(l: Ledger, step: Step, letters: Letters)
    requires Covered(l)
    ensures Covered(After(l, step, letters)) && |l.grants| <= |After(l, step, letters).grants|
    ensures forall u: nat, r | u < |l.grants| && Live(After(l, step, letters).targets, u, r) ::
              Live(l.targets, u, r) && (step.Replace? ==> r in step.listed)
  {
    match step
    case Ask(target, resolved, reason, now) =>
      AskEffect(l, step, letters);
      hide After, TargetRows, Live;
      if After(l, step, letters) != l {
        AskCovered(l, resolved.value.ruleIds, After(l, step, letters));
      }
    case Replace(listed) =>
      ReplaceCovered(l, listed);
    case Open =>
      OpenCovers(l);
  }

  lemma {:induction false} AskCovered(l: Ledger, rules: seq<string>, after: Ledger)
    requires Covered(l) && rules != []
    requires |after.grants| == |l.grants| + 1 && after.targets == l.targets + TargetRows(|l.grants|, rules)
    ensures Covered(after)
    ensures forall u: nat, r | u < |l.grants| && Live(after.targets, u, r) :: Live(l.targets, u, r)
  {
    hide TargetRows;
    AskRows(l, rules);
    forall k: nat | k < |after.grants| ensures HasTarget(after.targets, k) {
      if k < |l.grants| {
        assert HasTarget(l.targets, k);
        var t :| t in l.targets && t.unlockId == k;
        assert t in after.targets;
      } else {
        var t :| t in TargetRows(|l.grants|, rules) && t.unlockId == k;
        assert t in after.targets;
      }
    }
  }

  lemma {:induction false} ReplaceCovered(l: Ledger, listed: set<string>)
    requires Covered(l)
    ensures Covered(RevokeMissing(l, listed))
    ensures forall u: nat, r | Live(RevokeMissing(l, listed).targets, u, r) :: Live(l.targets, u, r) && r in listed
  {
    RevokedRows(l, listed);
    var after := RevokeMissing(l, listed);
    forall k | 0 <= k < |l.grants| ensures HasTarget(after.targets, k) {
      assert HasTarget(l.targets, k);
      var t :| t in l.targets && t.unlockId == k;
      assert Revoke(t, listed) in after.targets;
    }
    forall u: nat, r | Live(after.targets, u, r) ensures Live(l.targets, u, r) && r in listed {
      var t :| t in after.targets && LiveRow(t, u, r);
      var s :| s in l.targets && t == Revoke(s, listed);
      assert LiveRow(s, u, r);
    }
  }

  lemma {:induction false} CoveredOverRuns(l: Ledger, steps: seq<Step>, letters: Letters)
    requires Covered(l)
    ensures Covered(Run(l, steps, letters)) && |l.grants| <= |Run(l, steps, letters).grants|
  {
    if steps != [] {
      CoveredOverRuns(l, steps[..|steps| - 1], letters);
      LiveBefore(Run(l, steps[..|steps| - 1], letters), steps[|steps| - 1], letters);
    }
  }

  /** Revocation is permanent. If after a run the share of grant `u` for rule `r`
      is live, then it was live at the start and every policy stored during the run
      listed `r`. */
  lemma {:induction false} RevocationIsPermanent(l: Ledger, steps: seq<Step>, letters: Letters, u: nat, r: string)
    requires Covered(l) && u < |l.grants|
    requires Live(Run(l, steps, letters).targets, u, r)
    ensures Live(l.targets, u, r)
    ensures forall k | 0 <= k < |steps| && steps[k].Replace? :: r in steps[k].listed
  {
    hide Covered, After, Live;
    if steps != [] {
      var n := |steps| - 1;
      CoveredOverRuns(l, steps[..n], letters);
      LiveBefore(Run(l, steps[..n], letters), steps[n], letters);
      RevocationIsPermanent(l, steps[..n], letters, u, r);
      forall k | 0 <= k < |steps| && steps[k].Replace? ensures r in steps[k].listed {
        assert k < n ==> steps[..n][k] == steps[k];
      }
    }
  }

  ghost predicate Subsequence(xs: seq<string>, ys: seq<string>) {
    if ys == [] then xs == []
    else
      var n := |ys| - 1;
      Subsequence(xs, ys[..n])
      || (xs != [] && xs[|xs| - 1] == ys[n] && Subsequence(xs[..|xs| - 1], ys[..n]))
  }

  lemma {:induction false} LiveIdsKeepOrder(targets: seq<Target>, u: nat)
    ensures Subsequence(RuleIdsOf(targets, u, true), RuleIdsOf(targets, u, false))
    ensures forall r :: r in RuleIdsOf(targets, u, true) <==> Live(targets, u, r)
  {
    if targets != [] {
      hide Subsequence;
      var n := |targets| - 1;
      var last := targets[n];
      LiveIdsKeepOrder(targets[..n], u);
      assert targets == targets[..n] + [last];
      var live, all := RuleIdsOf(targets[..n], u, true), RuleIdsOf(targets[..n], u, false);
      SubsequenceAppend(live, all, last.ruleId);
      assert live + [] == live && all + [] == all;
      forall r ensures r in RuleIdsOf(targets, u, true) <==> Live(targets[..n], u, r) || LiveRow(last, u, r) {
      }
    }
  }

  lemma {:induction false} SubsequenceAppend(xs: seq<string>, ys: seq<string>, x: string)
    requires Subsequence(xs, ys)
    ensures Subsequence(xs, ys + [x]) && Subsequence(xs + [x], ys + [x])
  {
    assert (ys + [x])[..|ys|] == ys && (xs + [x])[..|xs|] == xs;
  }

  lemma {:induction false} RevokingKeepsAllIds(before: seq<Target>, after: seq<Target>, u: nat, listed: set<string>)
    requires |after| == |before| && forall k | 0 <= k < |before| :: after[k] == Revoke(before[k], listed)
    ensures RuleIdsOf(after, u, false) == RuleIdsOf(before, u, false)
  {
    if before != [] {
      RevokingKeepsAllIds(before[..|before| - 1], after[..|after| - 1], u, listed);
    }
  }

  lemma {:induction false} OtherRowsKeepIds(targets: seq<Target>, rows: seq<Target>, u: nat)
    requires forall t | t in rows :: t.unlockId != u
    ensures RuleIdsOf(targets + rows, u, false) == RuleIdsOf(targets, u, false)
  {
    if rows == [] {
      assert targets + rows == targets;
    } else {
      var n := |rows| - 1;
      assert rows[n] in rows;
      assert forall t | t in rows[..n] :: t in rows;
      OtherRowsKeepIds(targets, rows[..n], u);
      assert (targets + rows)[..|targets + rows| - 1] == targets + rows[..n];
    }
  }

  /** The rules a grant was made for, in order, are never lost from its rows. */
  lemma {:induction false} AllIdsOverRuns(l: Ledger, steps: seq<Step>, letters: Letters, u: nat)
    requires Covered(l) && u < |l.grants|
    ensures RuleIdsOf(Run(l, steps, letters).targets, u, false) == RuleIdsOf(l.targets, u, false)
  {
    if steps != [] {
      var n := |steps| - 1;
      AllIdsOverRuns(l, steps[..n], letters, u);
      CoveredOverRuns(l, steps[..n], letters);
      AllIdsAfter(Run(l, steps[..n], letters), steps[n], letters, u);
    }
  }

  lemma {:induction false} AllIdsAfter(l: Ledger, step: Step, letters: Letters, u: nat)
    requires Covered(l) && u < |l.grants|
    ensures RuleIdsOf(After(l, step, letters).targets, u, false) == RuleIdsOf(l.targets, u, false)
  {
    hide Text.CleanReason, Normalize, ActiveUnlock, LetterCount, RuleIdsOf;
    match step
    case Ask(target, resolved, reason, now) =>
      AskEffect(l, step, letters);
      if After(l, step, letters) != l {
        AskRows(l, resolved.value.ruleIds);
        OtherRowsKeepIds(l.targets, TargetRows(|l.grants|, resolved.value.ruleIds), u);
      }
    case Replace(listed) =>
      RevokingKeepsAllIds(l.targets, RevokeMissing(l, listed).targets, u, listed);
    case Open =>
      OpenCovers(l);
  }

  /** What `active_unlock_for_rule` answers after any run: an unexpired grant whose
      rule ids are non-empty, contain the asked rule, are all live, and keep the
      order in which they were granted. */
  lemma {:induction false} ActiveUnlockAfterRun(l: Ledger, steps: seq<Step>, letters: Letters, r: string, now: int)
    requires Covered(l)
    ensures var end := Run(l, steps, letters);
            ActiveUnlock(end, r, now).Some? ==>
              var unlock := ActiveUnlock(end, r, now).value;
              && unlock.grant.expiresAt > now
              && r in unlock.ruleIds
              && Subsequence(unlock.ruleIds, RuleIdsOf(end.targets, unlock.id, false))
              && (unlock.id < |l.grants| ==>
                    && RuleIdsOf(end.targets, unlock.id, false) == RuleIdsOf(l.targets, unlock.id, false)
                    && (forall x, k | x in unlock.ruleIds && 0 <= k < |steps| && steps[k].Replace? ::
                          x in steps[k].listed))
  {
    hide Run;
    var end := Run(l, steps, letters);
    if ActiveUnlock(end, r, now).Some? {
      var unlock := ActiveUnlock(end, r, now).value;
      LiveIdsKeepOrder(end.targets, unlock.id);
      if unlock.id < |l.grants| {
        AllIdsOverRuns(l, steps, letters, unlock.id);
        forall x | x in unlock.ruleIds
          ensures forall k | 0 <= k < |steps| && steps[k].Replace? :: x in steps[k].listed
        {
          RevocationIsPermanent(l, steps, letters, unlock.id, x);
        }
      }
    }
  }
}
