# BlocKuntu: a Dafny model of its policy engine, ledgers, clock guard and extension protocol

BlocKuntu blocks websites and applications on a Linux desktop. A Rust core decides what is blocked from a policy
(lists in three tiers, schedules, daily allowances, detox sessions, short unlocks) and keeps its ledgers in SQLite; a
daemon guards the clock; a browser extension talks to it over native messaging. This project models that logic in
Dafny and proves what it promises over all inputs, all runs and all interleavings.

## How the model is laid out

| file | models | form |
|---|---|---|
| `Stretches.dfy` | whole seconds per uninterrupted stretch, measured instant by instant | the reference all time accounting is proved against |
| `Calendar.dfy` | dates, weekdays, day groups, times of day, the pointwise `schedule_is_active` | functions |
| `Intervals.dfy` | laying out clipped windows; sort-and-merge with a running interval | loops proved against `Stretches` |
| `Schedules.dfy` | per-date schedule accounting and the stored running totals | loops, class `ActivityTotals` |
| `RuleTime.dfy` | a rule's active seconds, detox sessions included | loops |
| `Config.dfy`, `Text.dfy` | the policy and its validator; trimming, reason cleaning, text order | loops proved against `Valid` |
| `Engine.dfy`, `Decisions.dfy` | URL and application decisions; what they guarantee | loops proved against folds, lemmas |
| `Visits.dfy`, `AppUsage.dfy` | visit rows and allowances; application sessions | classes with a table |
| `Unlocks.dfy`, `UnlockTargets.dfy` | unlock grants, targets, revocation; resolving a target; what a grant opens | class with two tables, loops |
| `Tables.dfy`, `PolicyStore.dfy` | rows and child rows; saving and loading the policy | class with the policy tables |
| `Outbox.dfy` | the notification outbox | class with two tables |
| `Timestamps.dfy` | the stored timestamp text | functions |
| `ClockGuard.dfy` | the clock-integrity latch | class |
| `Rpc.dfy`, `Diagnostics.dfy` | the extension's requests and timers; its diagnostic queue and the daemon's id table | classes, and step relations for interleavings |

Each class method is tied by its `ensures` to a function on values (`After`, `Update`, `Request`, `TablesOf`, ...), and
the run-level theorems are about those functions.

Conventions: an instant is a whole number of microseconds (the database's resolution) and local time is that plus a
fixed offset, in microseconds too. SQL statements are loops over a sequence or map field. URL parsing, lower-casing and
pattern string matching enter as parameters (`hit`, `parses`, `Letters`). Site and application rules differ only in
their members, so one generic `Rule<M>` stands for both; the order in which the validator reports errors is therefore
not modelled, only whether it accepts. Diagnostic events are known by their ids to both sides; the results about what
becomes of an event say so (`Named`): no two queued events share an id.

## What does not hold as one would expect

Each of these is the code's behaviour, proved together with the exact condition under which the expected law holds.

1. **Running schedule totals depend on when they are read.** Every read truncates the stretch in progress to whole
   seconds. The stored total is the single measurement if and only if no read finds that the read before it lost a
   second (`PathIndependence`), and that is decided by the read times: a read at b, in a stretch that began at s and
   goes on until e or the next read, loses a second for each open date exactly when b - s has more of a second left
   over than e - s (`Stretches.CarryExactly`, `LostAtExactly`). So reads on whole seconds lose nothing, reads at 0, 0.5
   and 1 second lose one (`ReadTwiceInASecond`) and reads at 0, 0.5 and 1.7 seconds none (`ReadLaterInASecond`).
2. **Schedule totals count some time twice.** Windows are merged per starting date, so an overnight window that runs
   into a window of the next date is counted twice there (`ScheduleSecondsExact`, `ScheduleSecondsBounds`,
   `OverlapCountedTwice`).
3. **"At most one unexpired unlock" depends on the clock not going back.** The engine's test looks at the expiry only;
   it admits at most one grant if and only if the last grant but one has expired (`AtMostOneGrant`). Two requests two
   hours apart and the clock back at the first unlock both rules at once (`ClockSetBackRevives`).
4. **An unlock does not always open the page.** It covers the one rule that was reported; a page under a second
   blocking Tier 3 list stays blocked, and the hourly quota is then spent (`PageUnderTwoLists`). `GrantOpens` gives the
   condition.
5. **Outbox spacing needs the cooldown to be at most the time to live and at most seven days** (`SpacingExactly`). The
   allowance warnings of `focusd/src/app.rs` ask for a longer cooldown than their time to live.
6. **Diagnostics can leave the queue unrecorded, or be lost from storage.** When a success reply arrives, an event of its
   batch is recorded if and only if it is well formed, because the daemon answers with success even when it rejected
   events (`AnsweredIsRecordedExactly`, `RefusedIsDropped`). A reload drops what it does not find in storage or does not
   take back (`LeavesQueueExactly`, `ReloadLosesUnsaved`). When a reload cannot read storage, the queue starts empty and
   the next write replaces what was stored: a stored event is lost if and only if such a write, without it, lands before
   storage has been read again (`StoredIsLostExactly`, `ReloadForgetsStored`).
7. **Text order of timestamps breaks at year 10000** (`FiveDigitYearsSortFirst`).
8. **The drift limit is per step.** Each accepted sample becomes the new baseline, so over n samples the wall clock may
   move by almost 301·n seconds (`DriftOverRun`, `DriftBoundIsTight`).
9. **A detox end reported under a suspect clock is no commitment under a trusted one.** A suspect clock also reports
   sessions that have not begun; a later trusted evaluation before the session begins does not block
   (`TamperedCommitmentLapses`; `DetoxCommitment` gives the condition). The guard's latch keeps this from happening while
   its state is kept.

## Model

| member | source | states |
|---|---|---|
| Stretches.SecondsWithinCount | focus-core/src/policy.rs:900-918 | truncation per stretch never adds time and loses less than a second per stretch |
| Stretches.WholeSecondsExact | focus-core/src/policy.rs:900-918 | a predicate that changes on whole seconds only is measured exactly between whole seconds |
| Stretches.SplitSeconds | focus-core/src/db.rs:2950-2967 | cutting a range costs exactly the second that two dropped remainders make up, or nothing |
| Calendar.PreviousDate | focus-core/src/config.rs:518-530 | stepping back a date steps back a weekday |
| Calendar.TimeOfDayRoundTrip | focus-core/src/config.rs:560-586 | a printed time of day parses back to itself |
| Calendar.SchedulePointwise | focus-core/src/policy.rs:1307-1324 | the pointwise test holds exactly when a window laid out on today's or yesterday's date covers the instant, overnight and start-equals-end windows included |
| Calendar.ScheduleOnSeconds | focus-core/src/policy.rs:1307-1324 | schedule activity cannot change inside a second |
| Intervals.PushWindows | focus-core/src/policy.rs:852-891 | the pushed intervals are clipped to the range and cover exactly what they covered before plus the date's windows |
| Intervals.MergedSeconds | focus-core/src/policy.rs:900-918 | sort-and-merge over any clipped intervals equals scanning their union instant by instant: nothing missed, nothing counted twice |
| Schedules.ScheduleActiveSecondsBetween | focus-core/src/db.rs:2888-2976 | the nested loops compute the per-date reference measurement |
| Schedules.ScheduleSecondsExact | focus-core/src/db.rs:2897-2975 | between whole seconds: active time plus once more the time lying in windows of two dates |
| Schedules.ScheduleSecondsBounds | focus-core/src/db.rs:2897-2975 | never over twice the active time; on whole seconds never under it, and equal exactly when no instant lies in windows of two dates |
| Schedules.ScheduleSplit | focus-core/src/db.rs:2888-2976 | additive over any split point up to the seconds lost at the cut |
| Schedules.ActivityTotals.Sync | focus-core/src/db.rs:786-856 | the whole new table and the returned totals, for any schedules and any time, earlier ones included |
| Schedules.ReadsAgainstOneMeasurement | focus-core/src/db.rs:786-856 | after any reads in any order the total plus the lost seconds is the single measurement from first to latest read |
| Stretches.CarryExactly | focus-core/src/db.rs:2950-2967 | a cut costs a second if and only if the stretch through it has more of a second behind the cut than in all |
| Schedules.LostAtExactly | focus-core/src/db.rs:2888-2976 | the seconds a read loses: one for each of the two dates whose stretch it cuts so |
| Schedules.PathIndependence | focus-core/src/db.rs:786-856 | after any reads in any order the total is the single measurement if and only if none of the read times cuts a stretch so |
| Schedules.WholeReadsLoseNothing | focus-core/src/db.rs:786-856 | reads on whole seconds lose nothing |
| Schedules.FractionalReadLoses | focus-core/src/db.rs:786-856 | a read inside an active second, between reads on the whole seconds around it, loses at least one second |
| Schedules.ReadTwiceInASecond | focus-core/src/db.rs:786-856 | a concrete schedule and three reads whose total misses a second |
| Schedules.ReadLaterInASecond | focus-core/src/db.rs:786-856 | the same schedule read inside a second and again later, with nothing lost |
| Schedules.OverlapCountedTwice | focus-core/src/db.rs:2897-2975 | a concrete schedule whose overlap is counted twice |
| RuleTime.DetoxIntervals | focus-core/src/db.rs:1620-1665 | the intervals cover exactly the instants a session targeting the rule covers, up to its end or cancellation |
| RuleTime.RuleActiveSecondsBetween | focus-core/src/policy.rs:813-921 | the day loop over windows and detox intervals measures the pointwise activity of the rule |
| RuleTime.RuleSecondsExact | focus-core/src/policy.rs:813-921 | at whole-second resolution of the range and of the sessions that target the rule, the result is the number of seconds at which an attached schedule or a detox session is active |
| RuleTime.RuleSecondsWithinCount | focus-core/src/policy.rs:813-921 | at any resolution it is short by less than a second per stretch and never over |
| RuleTime.AttachedIsSchedulesActive | focus-core/src/policy.rs:1286-1305 | with resolving, unique schedule ids the accounting and the engine agree on when a rule's schedules are active |
| RuleTime.RuleSecondsGrow | focus-core/src/policy.rs:813-921 | a rule's seconds only grow with a later end and with more detox sessions |
| Config.EnsureUniqueIds | focus-core/src/config.rs:607-621 | accepts exactly distinct, trimmed, non-empty ids |
| Config.ValidateWindows | focus-core/src/config.rs:116-126 | accepts exactly when no window starts when it ends |
| Config.CheckRule | focus-core/src/config.rs:134-206 | the checks on one rule, loops over members and schedules included, accept exactly the demands of `RuleOk` |
| Config.ValidateRules | focus-core/src/config.rs:134-206 | accepts exactly the rules that are good one by one, share no id with the other kind and no allowance; the link map names every allowance in use |
| Config.Validate | focus-core/src/config.rs:81-288 | accepts exactly the configurations that satisfy `Valid` |
| Text.CleanReasonIdempotent | focus-core/src/policy.rs:1117-1119 | cleaning a reason twice is cleaning it once |
| Engine.FindFirst | focus-core/src/policy.rs:1031-1053 | finds the first matching rule, or shows there is none |
| Engine.DetoxBlock | focus-core/src/policy.rs:923-975 | the loop keeps the pair the fold describes; its meaning is `Decisions.DetoxReportsLatestEnd` |
| Engine.ControlledBlock | focus-core/src/policy.rs:81-105 | the Tier 3 loop keeps the position the fold describes; its meaning is `Decisions.StrictestIsFirstUnbeaten` |
| Engine.Evaluate | focus-core/src/policy.rs:50-159 | the whole evaluation, for websites and applications |
| Engine.StrictWeakOrder | focus-core/src/policy.rs:21-31 | stricter-than is irreflexive, asymmetric, transitive, and its incomparability is transitive |
| Decisions.DetoxReportsLatestEnd | focus-core/src/policy.rs:923-975 | a session is found exactly when an applying Tier 2 rule is covered, and it has the latest end of all of them |
| Decisions.StrictestIsFirstUnbeaten | focus-core/src/policy.rs:81-105 | the kept rule is beaten by no blocking rule and beats every earlier one |
| Decisions.DecisionKind | focus-core/src/policy.rs:50-106 | outcome and tier depend only on which rules exist, in tier order |
| Decisions.AllowsExactly | focus-core/src/policy.rs:50-106 | allowed if and only if no enabled applying rule is hard, no applying Tier 2 rule is scheduled or in detox, and every applying active Tier 3 rule allows by itself |
| Decisions.OrderDoesNotMatter | focus-core/src/policy.rs:50-106 | reordering rules, schedules or allowances changes neither outcome nor tier |
| Decisions.UnlocksOnlyReachTier3 | focus-core/src/policy.rs:387-411 | other unlocks and usage leave every non-Tier-3 decision identical and keep Tier 3 answers in Tier 3 |
| Decisions.TamperedIsStricter | focus-core/src/policy.rs:50-159 | whatever is blocked under a trusted clock is blocked under a tampered one |
| Decisions.TamperedUrlIsStricter | focus-core/src/policy.rs:50-106 | the same for URLs, unparsable ones included |
| Decisions.DetoxDecisionReportsLatestEnd | focus-core/src/policy.rs:923-975 | a detox block reports the latest end over every covered applying rule |
| Decisions.DetoxCommitment | focus-core/src/policy.rs:923-975 | while the reported session is kept, a later evaluation, whatever else is recorded, is a detox block if and only if the clock is suspect, the time lies within that session, or another session covers; in the first two cases it ends no earlier |
| Decisions.TrustedCommitment | focus-core/src/policy.rs:923-975 | after a detox block under a trusted clock every evaluation before the reported end is a detox block ending no earlier |
| Decisions.TamperedCommitmentLapses | focus-core/src/policy.rs:923-975 | a session reported under a suspect clock before it begins, and a trusted evaluation that allows before its end |
| Visits.VisitTable.InsertVisitStart | focus-core/src/db.rs:2023-2058 | the whole new table: the tab's open visits end, and one open row is added |
| Visits.VisitTable.UpdateVisitHeartbeat | focus-core/src/db.rs:2060-2070 | the whole new table: only the open row with the id moves |
| Visits.VisitTable.EndVisit | focus-core/src/db.rs:2072-2082 | the whole new table: only the open row with the id ends |
| Visits.VisitTable.UsedSecondsForSiteRule | focus-core/src/policy.rs:777-811 | the day's used seconds over all visits, though the query first drops some |
| Visits.UsageNeverDecreases | focus-core/src/policy.rs:777-811 | over any run of visit events within a local day used seconds never decrease |
| Visits.ExhaustedUntilMidnight | focus-core/src/policy.rs:387-463 | once blocked for an exhausted allowance, allowed again before midnight if and only if the rule is unlocked under a trusted clock |
| AppUsage.UsageTable.CloseDuplicates | focus-core/src/db.rs:1958-1974 | the whole new table: all but the newest open session of a rule end where they were last seen |
| AppUsage.UsageTable.OpenRuleIds | focus-core/src/db.rs:1929-1944 | exactly the rules with an open session |
| AppUsage.UsageTable.Sync | focus-core/src/db.rs:1858-1899 | duplicates closed, active sessions touched or opened, the others ended |
| AppUsage.UsageTable.UsedSecondsBetween | focus-core/src/db.rs:1812-1856 | the used seconds of a rule in a period |
| AppUsage.OneOpenSessionEach | focus-core/src/db.rs:1858-1899 | after a sync of any table an active rule has one open session, any other none |
| AppUsage.UsageIsConserved | focus-core/src/db.rs:1858-1899 | after any ordered syncs the sessions cover, in any period, exactly the gaps that follow syncs where the rule was active |
| AppUsage.ReportedSeconds | focus-core/src/db.rs:1812-1856 | reported seconds never exceed the time the sessions cover, and equal it where each session covers whole seconds |
| AppUsage.ReportedUsageIsConserved | focus-core/src/db.rs:1812-1899 | the seconds reported are at most, and for whole sync times, period and reading time exactly, the gaps that follow syncs where the rule was active |
| Unlocks.UnlockTable.CountUnlocksSince | focus-core/src/db.rs:1793-1800 | the number of grants started at or after an instant |
| Unlocks.UnlockTable.InsertUnlock | focus-core/src/db.rs:1726-1761 | grant and target rows, all or none |
| Unlocks.UnlockTable.RequestUnlock | focus-core/src/policy.rs:214-294 | the checks in their order, the grant they lead to, or an unchanged ledger |
| Unlocks.UnlockTable.RevokeMissingTargets | focus-core/src/db.rs:1162-1172 | revokes exactly the live targets of unlisted rules |
| Unlocks.UnlockTable.Reopen | focus-core/src/db.rs:2510-2516 | a target for exactly the grants that have none |
| Unlocks.QuotaOverRuns | focus-core/src/policy.rs:214-294 | in every run, whatever the clock does: grants start more than an hour after each earlier one, share no normalised reason, and are never removed |
| Unlocks.AtMostOneGrant | focus-core/src/db.rs:1763-1791 | one grant runs at an instant; the expiry-only test admits one if and only if the last but one has expired |
| Unlocks.ClockSetBackRevives | focus-core/src/db.rs:1763-1791 | two requests from the empty ledger, two hours apart, after which both rules are unlocked once the clock is back at the first |
| Unlocks.OpenCovers | focus-core/src/db.rs:2510-2516 | after opening every grant has a target, and a covered ledger is left alone |
| Unlocks.RevocationIsPermanent | focus-core/src/db.rs:1162-1172 | a share live after a run was live at its start and listed by every policy stored in it |
| Unlocks.ActiveUnlockAfterRun | focus-core/src/db.rs:1763-1791 | the returned rule ids contain the asked rule, are all live, keep their order, and were listed throughout |
| UnlockTargets.ApplicationLists | focus-core/src/policy.rs:465-483 | the lists of that name, else the list with that id |
| UnlockTargets.StrictestForUnlock | focus-core/src/policy.rs:666-700 | the strictest blocking rule, else the strictest active one, as the two folds say |
| UnlockTargets.ActiveIsFirstUnbeaten | focus-core/src/policy.rs:666-700 | the active one is found exactly when a rule is in force, no rule in force beats it, and it beats every earlier one |
| UnlockTargets.DetoxForUnlockTarget | focus-core/src/policy.rs:601-664 | the detox that refuses the target |
| UnlockTargets.ResolveUnlockRule | focus-core/src/policy.rs:515-599 | the single-rule resolution with its refusals in order |
| UnlockTargets.ResolveUnlockRules | focus-core/src/policy.rs:485-513 | the whole resolution |
| UnlockTargets.RequestUnlock | focus-core/src/policy.rs:214-294 | resolution followed by the ledger request; each refusal is returned as it is and leaves the ledger unchanged |
| UnlockTargets.SessionReportsLatestEnd | focus-core/src/policy.rs:601-664 | the loop over sessions finds one exactly when an active one holds one of the lists, and reports the latest end of those |
| UnlockTargets.RefusedForDetoxExactly | focus-core/src/policy.rs:485-513 | a target is refused for a detox if and only if no list it names is open to an unlock and an active session covers its page or a Tier 2 list it fits; the latest end is reported |
| UnlockTargets.NamedResolvesToGroup | focus-core/src/policy.rs:490-501 | naming application lists resolves if and only if one of the group is open to an unlock, and then to all of those and no other |
| UnlockTargets.ResolvesToTier3 | focus-core/src/policy.rs:485-599 | every resolved id is an enabled Tier 3 rule in force on the target |
| UnlockTargets.ValidPolicyAlwaysWrites | focus-core/src/policy.rs:273-281 | with a valid policy the rows of a grant never collide |
| UnlockTargets.ResolveFollowsDecision | focus-core/src/policy.rs:485-599 | for a URL that names no application list the request is answered from the decision shown: the reported Tier 3 rule, or a refusal naming the reported rule, detox first; an allowed page resolves to the strictest rule in force, or as an application |
| UnlockTargets.AfterGrant | focus-core/src/policy.rs:273-281 | a grant unlocks its rules for two minutes and no other rule |
| UnlockTargets.GrantOpens | focus-core/src/policy.rs:387-411 | after a grant the subject is allowed if and only if no higher tier blocks and every blocking Tier 3 rule is named by the running grant under a trusted clock |
| UnlockTargets.PageUnderTwoLists | focus-core/src/policy.rs:214-294 | a valid policy, a granted request, the page still blocked, and the next request turned down for the hourly quota |
| Tables.DecodeRows | focus-core/src/db.rs:1229-1248 | reads all rows, or fails on the first that does not decode |
| Tables.InsertChildren | focus-core/src/db.rs:1014-1036 | the child rows of every parent in order |
| Tables.SelectBack | focus-core/src/db.rs:1275-1305 | each parent's items come back, its own and no others, in their order |
| PolicyStore.StoreRules | focus-core/src/db.rs:1039-1158 | the three tables of the lists, or failure exactly when a rule repeats a schedule id |
| PolicyStore.Store.ReplacePolicyConfig | focus-core/src/db.rs:939-1173 | succeeds exactly for valid policies without repeated links, writes all tables and revocations, and otherwise changes nothing |
| PolicyStore.Store.LoadPolicyConfig | focus-core/src/db.rs:921-937 | succeeds exactly when the rows decode to a valid policy, and returns it |
| PolicyStore.SaveThenLoad | focus-core/src/db.rs:1223-1481 | a saved valid policy loads with lists, schedules and allowances in id order and everything inside them unchanged |
| PolicyStore.SortedStaysValid | focus-core/src/db.rs:921-937 | the loaded policy passes validation |
| PolicyStore.SecondRoundTrip | focus-core/src/db.rs:921-1173 | saving and loading the loaded policy is the identity |
| PolicyStore.LoadedDecidesAlike | focus-core/src/policy.rs:50-159 | every URL and application gets the same outcome and block tier from the loaded policy |
| Outbox.OutboxTable.EnqueueNotification | focus-core/src/db.rs:431-491 | queues one row unless a row of the key is within its cooldown |
| Outbox.OutboxTable.PendingNotifications | focus-core/src/db.rs:508-577 | the sweep, then the first deliverable rows |
| Outbox.OutboxTable.AcknowledgeNotifications | focus-core/src/db.rs:579-593 | marks exactly the undelivered rows among the ids |
| Outbox.OutboxTable.RecordDeliveryResult | focus-core/src/db.rs:595-690 | delivered, or one more attempt; whether the row exists |
| Outbox.OutboxTable.DiscardDisabled | focus-core/src/db.rs:390-428 | marks exactly the undelivered rows of the disabled kinds |
| Outbox.RowsAreSpaced | focus-core/src/db.rs:431-491 | over every run two rows of a key are at least the cooldown apart, despite deletions |
| Outbox.SpacingExactly | focus-core/src/db.rs:508-577 | that holds for all runs if and only if the cooldown is at most the time to live and seven days |
| Outbox.DeliveredNeverReturns | focus-core/src/db.rs:508-577 | a delivered, discarded or deleted row is never returned again |
| Outbox.FailedWaitsAMinute | focus-core/src/db.rs:595-690 | a failed row is not returned within a minute of its last attempt |
| Timestamps.FormatThenParse | focus-core/src/db.rs:2880-2886 | reading what was written gives the instant truncated to microseconds (section 5.6 of RFC 3339) |
| Timestamps.TextOrderIsTimeOrder | focus-core/src/db.rs:2880-2886 | for years 0 to 9999 text order is time order and equal text is the same microsecond (section 5.1 of RFC 3339) |
| Timestamps.FiveDigitYearsSortFirst | focus-core/src/db.rs:2880-2882 | from year 10000 on the order breaks |
| ClockGuard.Guard.PersistSample | focusd/src/clock_guard.rs:209-228 | the whole new stored state |
| ClockGuard.Guard.UpdateClockIntegrity | focusd/src/clock_guard.rs:109-170 | the whole new stored state and the returned status |
| ClockGuard.LatchNeverReleases | focusd/src/clock_guard.rs:109-170 | once tampered, tampered after every further run |
| ClockGuard.StepTripsAt301Seconds | focusd/src/clock_guard.rs:172-207 | within a boot a step trips if and only if it drifts by 301 seconds or more |
| ClockGuard.DriftOverRun | focusd/src/clock_guard.rs:109-207 | n accepted steps within a boot drift by less than 301·n seconds |
| ClockGuard.DriftBoundIsTight | focusd/src/clock_guard.rs:109-207 | and for every n some accepted run drifts by all but n microseconds of that |
| ClockGuard.WallFallsBackSlowly | focusd/src/clock_guard.rs:172-207 | reboots included, an accepted run falls back by less than 302 seconds per step |
| Rpc.Client.SendRequest | browser-extension-chrome/src/background.ts:196-257 | the whole new state: pending with a timer, or settled at once when connecting or posting fails |
| Rpc.Client.HandleNativeMessage | browser-extension-chrome/src/background.ts:136-194 | the whole new state for any message |
| Rpc.Client.OnTimeout | browser-extension-chrome/src/background.ts:215-230 | the whole new state when a timer fires |
| Rpc.Client.RejectAllPending | browser-extension-chrome/src/background.ts:259-276 | every pending request rejected, every timer of theirs cleared |
| Rpc.SettlesExactlyOnce | browser-extension-chrome/src/background.ts:136-276 | over every interleaving no promise settles twice, and it is unsettled exactly while its timer lives, id wrap included |
| Rpc.QuietMeansSettled | browser-extension-chrome/src/background.ts:196-276 | when no timer is left every call has settled once |
| Rpc.PendingOrSettled | browser-extension-chrome/src/background.ts:136-276 | without an id collision a request is pending with its own timer, or absent and settled once |
| Rpc.UnknownReplyIgnored | browser-extension-chrome/src/background.ts:136-194 | a late or unknown reply changes nothing (section 5 of the JSON-RPC 2.0 Specification) |
| Rpc.ReplySettlesItsRequest | browser-extension-chrome/src/background.ts:136-194 | a reply settles the request with its id and no other |
| Rpc.NoWrapInPractice | browser-extension-chrome/src/background.ts:196-213 | the first nine quadrillion requests cannot collide |
| Diagnostics.DiagnosticTable.RecordDiagnosticEvent | focus-core/src/db.rs:153-203 | recorded if and only if the id is new |
| Diagnostics.DiagnosticTable.RecordDiagnostics | focusd/src/rpc.rs:2380-2426 | refuses an empty batch and one of more than 100; otherwise every event in turn, with the numbers recorded, known and malformed |
| Diagnostics.Extension.LoadDiagnosticQueue | browser-extension-chrome/src/background.ts:828-845 | the newest 200 of the stored events that pass the filter, or nothing when storage cannot be read |
| Diagnostics.Extension.QueueDiagnostic | browser-extension-chrome/src/background.ts:815-826 | appended unless its id is queued, then cut to the newest 200 |
| Diagnostics.Extension.SendNextBatch | browser-extension-chrome/src/background.ts:859-884 | the first 50 of the queue |
| Diagnostics.Extension.OnReply | browser-extension-chrome/src/background.ts:859-884 | a success removes exactly the batch's ids |
| Diagnostics.DiagnosticsAccounted | browser-extension-chrome/src/background.ts:815-884 | in every interleaving: only well-formed queued events recorded, none twice; at most 200 distinct ids queued; no batch of a refused size; every well-formed event queued, recorded, overflowed or lost to a reload |
| Diagnostics.AnsweredIsRecordedExactly | focusd/src/rpc.rs:2380-2426 | at a success reply an event of the batch is recorded if and only if it is well formed |
| Diagnostics.LeavesQueueExactly | browser-extension-chrome/src/background.ts:815-884 | when an event leaves the queue: as the oldest of a full queue, by a reply to its batch, or by a reload that does not read it back; by a reply it is then recorded if and only if it is well formed |
| Diagnostics.StoredIsLostExactly | browser-extension-chrome/src/background.ts:828-857 | in every state of a run a stored event is in storage, recorded or overflowed, if and only if no write without it lands over storage that a reload could not read |
| Diagnostics.StoredIsNeverLost | browser-extension-chrome/src/background.ts:828-857 | so a stored event is not lost while the steps contain no landing after an unread reload |
| Diagnostics.StoredThenGoneIsRecordedOnce | focus-core/src/db.rs:153-203 | under that condition an event that reached storage and left the queue without overflowing stands in the log once if it is well formed and not at all otherwise |
| Diagnostics.ReloadLosesUnsaved | browser-extension-chrome/src/background.ts:828-845 | for every event: queued, then reloaded before its write lands, it is lost unrecorded |
| Diagnostics.ReloadForgetsStored | browser-extension-chrome/src/background.ts:828-845 | for every stored event: after a reload that cannot read it, or does not take it back, the next write that lands removes it unrecorded |
| Diagnostics.RefusedIsDropped | focusd/src/rpc.rs:2380-2426 | for every malformed event: sent and answered with success, it leaves the queue unrecorded |

## Left out

- URL parsing, host and path matching, string lower-casing, TOML and serde: library code, entering as parameters.
- SQLite itself, database errors, `i64` saturation, table-rebuild migrations and PRAGMAs; a failed transaction is modelled only where the code can fail one (a repeated key).
- Instants below a microsecond, leap seconds, and a time-zone change in the middle of a run.
- The rounding of the uptime from a floating-point number: uptime is an exact number of milliseconds.
- Event-log files and retention, which also deletes old diagnostic ids; the runs of `Diagnostics` contain no retention step.
- `policy_defaults`: its row is a constant that loading never reads.
- List modes of legacy files (`normalize_legacy_website_allowlists`) and the emergency-uninstall signature.
- Notification preferences, allowance and lifecycle notification state: plain key-value rows.
- `visit_rule_for_url`, `allowance_statuses` and `metered_app_rule_ids_for_process`: the same strictness folds and sums again.
- Client-side visit bookkeeping, reconnect back-off, the Firefox twin of `background.ts` and both `blocked.ts` pages.
- `policy_recovery.rs`, `chrome_policy.rs`, `cli.rs`, sockets, process scanning and `Testing/`.
- Config.Validate: states which configurations are accepted, not which error comes first.
- RuleTime.RuleSecondsExact: starts, ends and cancellations of sessions that target the rule are on whole seconds; `RuleTime.RuleSecondsWithinCount` bounds the general case.
- Diagnostics.StoredThenGoneIsRecordedOnce: speaks of events that the load filter takes back; for events the extension queued, whose observation time is a string, the daemon's checks imply that filter, but both stay parameters.
- Diagnostics.StoredIsLostExactly: writes to storage land in the order in which they were made.
- Rpc.PendingOrSettled: assumes no id wraps onto a pending request; `Rpc.SettlesExactlyOnce` needs no such assumption.
