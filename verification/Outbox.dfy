/** The notification outbox: deduplication, expiry, delivery and retries. */
module Outbox {
  import opened Wrappers

  datatype Row = Row(id: nat, kind: string, key: string, createdAt: int, expiresAt: int, deliveredAt: Option<int>)

  datatype Attempt = Attempt(count: nat, lastAt: int)

  /** The outbox rows in id order, the delivery attempts by row id, and the next id,
      which is never used again once given out. */
  datatype Box = Box(rows: seq<Row>, attempts: map<nat, Attempt>, nextId: nat)

  // ------------------------------------------------------------------ statements

  /** UPDATE ... SET delivered_at = now WHERE delivered_at IS NULL AND <chosen>. */
  function Mark(r: Row, chosen: bool, now: int): Row {
    if chosen && r.deliveredAt.None? then r.(deliveredAt := Some(now)) else r
  }

  function MarkWhere(rows: seq<Row>, chosen: Row -> bool, now: int): (marked: seq<Row>)
    ensures |marked| == |rows|
    ensures forall k | 0 <= k < |rows| :: marked[k] == Mark(rows[k], chosen(rows[k]), now)
  {
    seq(|rows|, k requires 0 <= k < |rows| => Mark(rows[k], chosen(rows[k]), now))
  }

  predicate Historical(r: Row, before: int) {
    (r.kind == "website_blocked" || r.kind == "application_blocked") && r.createdAt < before
  }

  /** Undelivered and expired, or delivered at least seven days ago. */
  predicate Dropped(r: Row, now: int) {
    match r.deliveredAt
    case None => r.expiresAt <= now
    case Some(delivered) => delivered <= now - 604_800_000_000
  }

  function Surviving(rows: seq<Row>, now: int): (kept: seq<Row>)
    ensures forall r :: r in kept <==> r in rows && !Dropped(r, now)
  {
    if rows == [] then []
    else
      var n := |rows| - 1;
      assert forall r :: r in rows <==> r in rows[..n] || r == rows[n];
      Surviving(rows[..n], now) + if Dropped(rows[n], now) then [] else [rows[n]]
  }

  predicate HasRow(rows: seq<Row>, id: nat) {
    exists r | r in rows :: r.id == id
  }

  /** Deleting a row deletes its attempts with it. */
  function Cascade(attempts: map<nat, Attempt>, rows: seq<Row>): map<nat, Attempt> {
    map id | id in attempts && HasRow(rows, id) :: attempts[id]
  }

  predicate Deliverable(r: Row, attempts: map<nat, Attempt>, now: int) {
    r.deliveredAt.None? && r.expiresAt > now && (r.id !in attempts || attempts[r.id].lastAt <= now - 60_000_000)
  }

  function FirstDeliverable(rows: seq<Row>, attempts: map<nat, Attempt>, now: int, limit: nat): (events: seq<Row>)
    ensures |events| <= limit
    ensures forall r | r in events :: r in rows && Deliverable(r, attempts, now)
  {
    if rows == [] || limit == 0 then []
    else if Deliverable(rows[0], attempts, now) then
      [rows[0]] + FirstDeliverable(rows[1..], attempts, now, limit - 1)
    else FirstDeliverable(rows[1..], attempts, now, limit)
  }

  predicate Cooling(rows: seq<Row>, key: string, since: int) {
    exists r | r in rows :: r.key == key && r.createdAt >= since
  }

  datatype Step =
    | Enqueue(kind: string, key: string, cooldown: int, ttl: int, now: int)
    | Pending(limit: nat, now: int)
    | Acknowledge(ids: set<nat>, now: int)
    | Report(id: nat, delivered: bool, now: int)
    | DiscardHistorical(before: int, now: int)
    | DiscardKinds(kinds: Option<set<string>>, now: int)

  predicate Queues(b: Box, step: Step) {
    step.Enqueue? && !Cooling(b.rows, step.key, step.now - step.cooldown)
  }

  predicate QueuesKey(b: Box, step: Step, key: string) {
    Queues(b, step) && step.key == key
  }

  function Swept(b: Box, now: int): Box {
    var rows := Surviving(MarkWhere(b.rows, (r: Row) => Historical(r, now - 60_000_000), now), now);
    b.(rows := rows, attempts := Cascade(b.attempts, rows))
  }

  function After(b: Box, step: Step): Box {
    match step
    case Enqueue(kind, key, cooldown, ttl, now) =>
      if Queues(b, step) then
        b.(rows := b.rows + [Row(b.nextId, kind, key, now, now + ttl, None)], nextId := b.nextId + 1)
      else b
    case Pending(limit, now) => Swept(b, now)
    case Acknowledge(ids, now) => b.(rows := MarkWhere(b.rows, (r: Row) => r.id in ids, now))
    case Report(id, delivered, now) =>
      if !HasRow(b.rows, id) then b
      else if delivered then b.(rows := MarkWhere(b.rows, (r: Row) => r.id == id, now), attempts := b.attempts - {id})
      else b.(attempts := b.attempts[id := Attempt((if id in b.attempts then b.attempts[id].count else 0) + 1, now)])
    case DiscardHistorical(before, now) => b.(rows := MarkWhere(b.rows, (r: Row) => Historical(r, before), now))
    case DiscardKinds(kinds, now) =>
      b.(rows := MarkWhere(b.rows, (r: Row) => kinds.None? || r.kind in kinds.value, now))
  }

  function Returned(b: Box, step: Step): seq<Row> {
    if step.Pending? then
      var swept := Swept(b, step.now);
      FirstDeliverable(swept.rows, swept.attempts, step.now, step.limit)
    else []
  }

  // ------------------------------------------------------------------- the class

  class OutboxTable {
    var rows: seq<Row>
    var attempts: map<nat, Attempt>
    var nextId: nat

    function Now(): Box
      reads this
    {
      Box(rows, attempts, nextId)
    }

    constructor ()
      ensures Now() == Box([], map[], 1)
    {
      rows, attempts, nextId := [], map[], 1;
    }

    method MarkDelivered(chosen: Row -> bool, now: int)
      modifies this
      ensures Now() == old(Now()).(rows := MarkWhere(old(rows), chosen, now))
    {
      for k := 0 to |rows|
        invariant attempts == old(attempts) && nextId == old(nextId) && |rows| == |old(rows)|
        invariant forall j | 0 <= j < k :: rows[j] == Mark(old(rows)[j], chosen(old(rows)[j]), now)
        invariant forall j | k <= j < |rows| :: rows[j] == old(rows)[j]
      {
        if chosen(rows[k]) && rows[k].deliveredAt.None? {
          rows := rows[k := rows[k].(deliveredAt := Some(now))];
        }
      }
    }

    method EnqueueNotification(kind: string, key: string, now: int, cooldown: int, ttl: int) returns (id: Option<nat>)
      modifies this
      ensures Now() == After(old(Now()), Enqueue(kind, key, cooldown, ttl, now))
      ensures id == if Queues(old(Now()), Enqueue(kind, key, cooldown, ttl, now)) then Some(old(nextId)) else None
    {
      for k := 0 to |rows|
        invariant Now() == old(Now())
        invariant !Cooling(rows[..k], key, now - cooldown)
      {
        assert rows[..k + 1] == rows[..k] + [rows[k]];
        if rows[k].key == key && rows[k].createdAt >= now - cooldown {
          assert rows[k] in rows;
          return None;
        }
      }
      assert rows[..|rows|] == rows;
      id := Some(nextId);
      rows := rows + [Row(nextId, kind, key, now, now + ttl, None)];
      nextId := nextId + 1;
    }

    method DeleteDropped(now: int)
      modifies this
      ensures rows == Surviving(old(rows), now) && attempts == Cascade(old(attempts), rows) && nextId == old(nextId)
    {
      var kept: seq<Row> := [];
      for k := 0 to |rows|
        invariant Now() == old(Now())
        invariant kept == Surviving(rows[..k], now)
      {
        assert rows[..k + 1][..k] == rows[..k];
        if !Dropped(rows[k], now) {
          kept := kept + [rows[k]];
        }
      }
      assert rows[..|rows|] == rows;
      rows := kept;
      attempts := Cascade(attempts, rows);
    }

    method SelectDeliverable(now: int, limit: nat) returns (events: seq<Row>)
      ensures events == FirstDeliverable(rows, attempts, now, limit)
    {
      hide Deliverable;
      events := [];
      var k := 0;
      while k < |rows| && |events| < limit
        invariant k <= |rows| && |events| <= limit
        invariant events + FirstDeliverable(rows[k..], attempts, now, limit - |events|)
                  == FirstDeliverable(rows, attempts, now, limit)
      {
        assert rows[k..][0] == rows[k] && rows[k..][1..] == rows[k + 1..];
        if Deliverable(rows[k], attempts, now) {
          ghost var rest := FirstDeliverable(rows[k + 1..], attempts, now, limit - |events| - 1);
          assert events + ([rows[k]] + rest) == (events + [rows[k]]) + rest;
          events := events + [rows[k]];
        }
        k := k + 1;
      }
    }

    method PendingNotifications(now: int, limit: nat) returns (events: seq<Row>)
      modifies this
      ensures Now() == After(old(Now()), Pending(limit, now))
      ensures events == Returned(old(Now()), Pending(limit, now))
    {
      hide Surviving, Cascade, FirstDeliverable, MarkWhere;
      MarkDelivered((r: Row) => Historical(r, now - 60_000_000), now);
      DeleteDropped(now);
      events := SelectDeliverable(now, limit);
    }

    method AcknowledgeNotifications(ids: set<nat>, now: int)
      modifies this
      ensures Now() == After(old(Now()), Acknowledge(ids, now))
    {
      MarkDelivered((r: Row) => r.id in ids, now);
    }

    method RecordDeliveryResult(id: nat, delivered: bool, now: int) returns (found: bool)
      modifies this
      ensures Now() == After(old(Now()), Report(id, delivered, now))
      ensures found == HasRow(old(rows), id)
    {
      found := HasRow(rows, id);
      if !found {
        return;
      }
      if delivered {
        AcknowledgeNotifications({id}, now);
        assert rows == MarkWhere(old(rows), (r: Row) => r.id == id, now);
        attempts := attempts - {id};
      } else {
        attempts := attempts[id := Attempt((if id in attempts then attempts[id].count else 0) + 1, now)];
      }
    }

    method DiscardDisabled(kinds: Option<set<string>>, now: int)
      modifies this
      ensures Now() == After(old(Now()), DiscardKinds(kinds, now))
    {
      MarkDelivered((r: Row) => kinds.None? || r.kind in kinds.value, now);
    }
  }

  // ------------------------------------------------------------------------ runs

  function Run(b: Box, steps: seq<Step>): Box {
    if steps == [] then b else After(Run(b, steps[..|steps| - 1]), steps[|steps| - 1])
  }

  ghost predicate Ordered(steps: seq<Step>) {
    forall i, j | 0 <= i < j < |steps| :: steps[i].now <= steps[j].now
  }

  lemma {:induction false} MarkedRows(rows: seq<Row>, chosen: Row -> bool, now: int)
    ensures forall r | r in MarkWhere(rows, chosen, now) :: exists s | s in rows :: r == Mark(s, chosen(s), now)
    ensures forall s | s in rows :: Mark(s, chosen(s), now) in MarkWhere(rows, chosen, now)
  {
    var marked := MarkWhere(rows, chosen, now);
    forall r | r in marked ensures exists s | s in rows :: r == Mark(s, chosen(s), now) {
      var k :| 0 <= k < |marked| && marked[k] == r;
      assert rows[k] in rows;
    }
    forall s | s in rows ensures Mark(s, chosen(s), now) in marked {
      var k :| 0 <= k < |rows| && rows[k] == s;
      assert marked[k] == Mark(s, chosen(s), now);
    }
  }

  /** `s` has become `r`: possibly delivered, at `now`, otherwise the same. */
  ghost predicate Became(s: Row, r: Row, now: int) {
    r == s || (s.deliveredAt.None? && r == s.(deliveredAt := Some(now)))
  }

  /** What one step can do to the rows: keep or deliver those that are there, delete
      by the two rules, and queue at most one new row with a new id. */
  lemma {:induction false} StepRows(b: Box, step: Step)
    ensures var after := After(b, step);
            && (forall r | r in after.rows ::
                  (exists s | s in b.rows :: Became(s, r, step.now))
                  || (Queues(b, step) && r == Row(b.nextId, step.kind, step.key, step.now, step.now + step.ttl, None)))
            && (forall s | s in b.rows ::
                  (exists r | r in after.rows :: Became(s, r, step.now))
                  || (exists r :: Became(s, r, step.now) && Dropped(r, step.now)))
  {
    hide Surviving, Queues, Cascade, Dropped;
    match step
    case Enqueue(kind, key, cooldown, ttl, now) =>
      forall s | s in b.rows ensures exists r | r in After(b, step).rows :: Became(s, r, now) {
        assert s in After(b, step).rows && Became(s, s, now);
      }
      forall r | r in b.rows ensures Became(r, r, now) {
      }
    case Pending(limit, now) =>
      SweptRows(b, now);
    case Acknowledge(ids, now) =>
      MarkedBecame(b.rows, (r: Row) => r.id in ids, now);
    case Report(id, delivered, now) =>
      MarkedBecame(b.rows, (r: Row) => r.id == id, now);
      forall r | r in b.rows ensures Became(r, r, now) {
      }
    case DiscardHistorical(before, now) =>
      MarkedBecame(b.rows, (r: Row) => Historical(r, before), now);
    case DiscardKinds(kinds, now) =>
      MarkedBecame(b.rows, (r: Row) => kinds.None? || r.kind in kinds.value, now);
  }

  lemma {:induction false} MarkedBecame(rows: seq<Row>, chosen: Row -> bool, now: int)
    ensures forall r | r in MarkWhere(rows, chosen, now) :: exists s | s in rows :: Became(s, r, now)
    ensures forall s | s in rows :: exists r | r in MarkWhere(rows, chosen, now) :: Became(s, r, now)
  {
    MarkedRows(rows, chosen, now);
    forall r | r in MarkWhere(rows, chosen, now) ensures exists s | s in rows :: Became(s, r, now) {
      var s :| s in rows && r == Mark(s, chosen(s), now);
      assert Became(s, r, now);
    }
    forall s | s in rows ensures exists r | r in MarkWhere(rows, chosen, now) :: Became(s, r, now) {
      assert Became(s, Mark(s, chosen(s), now), now);
    }
  }

  lemma {:induction false} SweptRows(b: Box, now: int)
    ensures forall r | r in Swept(b, now).rows :: exists s | s in b.rows :: Became(s, r, now)
    ensures forall s | s in b.rows ::
              (exists r | r in Swept(b, now).rows :: Became(s, r, now))
              || (exists r :: Became(s, r, now) && Dropped(r, now))
  {
    hide Dropped, Cascade, Became, Historical, MarkWhere;
    var chosen := (r: Row) => Historical(r, now - 60_000_000);
    MarkedBecame(b.rows, chosen, now);
    forall s | s in b.rows
      ensures (exists r | r in Swept(b, now).rows :: Became(s, r, now))
              || (exists r :: Became(s, r, now) && Dropped(r, now))
    {
      var r :| r in MarkWhere(b.rows, chosen, now) && Became(s, r, now);
      if !Dropped(r, now) {
        assert r in Swept(b, now).rows;
      }
    }
  }

  // --------------------------------------------------------------------- spacing

  /** The key is always queued with this cooldown and time to live. */
  ghost predicate FixedFor(steps: seq<Step>, key: string, cooldown: int, ttl: int) {
    forall k | 0 <= k < |steps| && steps[k].Enqueue? && steps[k].key == key ::
      steps[k].cooldown == cooldown && steps[k].ttl == ttl
  }

  /** When rows for the key were queued, in order, deleted ones included. */
  ghost function QueuedTimes(b: Box, steps: seq<Step>, key: string): seq<int> {
    if steps == [] then []
    else
      var n := |steps| - 1;
      QueuedTimes(b, steps[..n], key)
      + if QueuesKey(Run(b, steps[..n]), steps[n], key) then [steps[n].now] else []
  }

  /** Rows of the key live for `ttl` and are delivered no earlier than queued. */
  ghost predicate Timely(rows: seq<Row>, key: string, ttl: int) {
    forall r | r in rows && r.key == key ::
      r.expiresAt == r.createdAt + ttl && (r.deliveredAt.Some? ==> r.createdAt <= r.deliveredAt.value)
  }

  /** A queued time is remembered by a row, or lies at least a cooldown back. */
  ghost predicate Remembered(rows: seq<Row>, key: string, t: int, cooldown: int, clock: int) {
    (exists r | r in rows :: r.key == key && r.createdAt == t) || t + cooldown <= clock
  }

  ghost predicate Spaced(times: seq<int>, gap: int) {
    forall i, j | 0 <= i < j < |times| :: times[i] + gap <= times[j]
  }

  ghost predicate NotAfter(rows: seq<Row>, clock: int) {
    forall r | r in rows :: r.createdAt <= clock
  }

  lemma {:induction false} StepTimely(b: Box, step: Step, key: string, cooldown: int, ttl: int, clock: int)
    requires Timely(b.rows, key, ttl) && NotAfter(b.rows, clock) && clock <= step.now
    requires FixedFor([step], key, cooldown, ttl)
    ensures Timely(After(b, step).rows, key, ttl) && NotAfter(After(b, step).rows, step.now)
  {
    StepRows(b, step);
    hide After, Cooling;
    var rows := After(b, step).rows;
    assert [step][0] == step;
    forall r | r in rows
      ensures r.key == key ==>
                r.expiresAt == r.createdAt + ttl && (r.deliveredAt.Some? ==> r.createdAt <= r.deliveredAt.value)
      ensures r.createdAt <= step.now
    {
      if s :| s in b.rows && Became(s, r, step.now) {
        assert s.createdAt <= clock;
        assert s.key == key ==> s.expiresAt == s.createdAt + ttl;
      }
    }
  }

  lemma {:induction false} StepRemembers(b: Box, step: Step, key: string, cooldown: int, ttl: int, clock: int, t: int)
    requires cooldown <= ttl && cooldown <= 604_800_000_000
    requires Timely(b.rows, key, ttl) && NotAfter(b.rows, clock) && clock <= step.now
    requires Remembered(b.rows, key, t, cooldown, clock)
    ensures Remembered(After(b, step).rows, key, t, cooldown, step.now)
  {
    StepRows(b, step);
    hide After, Queues, Cooling;
    if s :| s in b.rows && s.key == key && s.createdAt == t {
      if r :| r in After(b, step).rows && Became(s, r, step.now) {
        assert r.key == key && r.createdAt == t;
      } else {
        var r :| Became(s, r, step.now) && Dropped(r, step.now);
      }
    }
  }

  /** With a cooldown no longer than the time to live and seven days, two rows
      queued for a key are at least the cooldown apart over every run with a
      nondecreasing clock, whatever is delivered, discarded or deleted between. */
  lemma {:induction false} RowsAreSpaced(b: Box, steps: seq<Step>, key: string, cooldown: int, ttl: int)
    requires b.rows == [] && Ordered(steps) && FixedFor(steps, key, cooldown, ttl)
    requires 0 <= cooldown <= ttl && cooldown <= 604_800_000_000
    ensures Spaced(QueuedTimes(b, steps, key), cooldown)
    ensures var clock := if steps == [] then 0 else steps[|steps| - 1].now;
            var rows := Run(b, steps).rows;
            && Timely(rows, key, ttl) && NotAfter(rows, clock)
            && (forall t | t in QueuedTimes(b, steps, key) :: t <= clock && Remembered(rows, key, t, cooldown, clock))
  {
    hide After, QueuesKey, Timely, NotAfter, Remembered, Cooling;
    if steps == [] {
      EmptyIsTimely(key, ttl);
    } else {
      var n := |steps| - 1;
      var before, step := steps[..n], steps[n];
      RowsAreSpaced(b, before, key, cooldown, ttl);
      var mid := Run(b, before);
      var clock := if before == [] then step.now else before[n - 1].now;
      if before == [] {
        EmptyIsTimely(key, ttl);
        NoRowsNotAfter(clock);
      }
      assert step in steps && FixedFor([step], key, cooldown, ttl);
      StepTimely(mid, step, key, cooldown, ttl, clock);
      var times := QueuedTimes(b, before, key);
      forall t | t in times
        ensures t <= step.now && Remembered(After(mid, step).rows, key, t, cooldown, step.now)
        ensures QueuesKey(mid, step, key) ==> t + cooldown <= step.now
      {
        StepRemembers(mid, step, key, cooldown, ttl, clock, t);
        if QueuesKey(mid, step, key) {
          QueuedApart(mid, step, key, cooldown, ttl, clock, t);
        }
      }
      if QueuesKey(mid, step, key) {
        NewRowRemembered(mid, step, key, cooldown);
        assert forall i | 0 <= i < |times| :: times[i] in times;
      }
    }
  }

  lemma {:induction false} EmptyIsTimely(key: string, ttl: int)
    ensures Timely([], key, ttl) && NotAfter([], 0)
  {
  }

  lemma {:induction false} NoRowsNotAfter(clock: int)
    ensures NotAfter([], clock)
  {
  }

  lemma {:induction false} QueuedApart(b: Box, step: Step, key: string, cooldown: int, ttl: int, clock: int, t: int)
    requires QueuesKey(b, step, key) && FixedFor([step], key, cooldown, ttl) && clock <= step.now
    requires Remembered(b.rows, key, t, cooldown, clock)
    ensures t + cooldown <= step.now
  {
    assert [step][0] == step;
  }

  lemma {:induction false} NewRowRemembered(b: Box, step: Step, key: string, cooldown: int)
    requires QueuesKey(b, step, key)
    ensures Remembered(After(b, step).rows, key, step.now, cooldown, step.now)
  {
    var row := Row(b.nextId, step.kind, step.key, step.now, step.now + step.ttl, None);
    assert row in After(b, step).rows;
  }

  lemma {:induction false} SettledRow(key: string, cooldown: int, ttl: int)
    requires 0 <= ttl
    ensures var sent := ttl >= 604_800_000_000;
            After(After(Box([], map[], 1), Enqueue("schedule_started", key, cooldown, ttl, 0)),
                  Acknowledge(if sent then {1} else {}, 0)).rows
            == [Row(1, "schedule_started", key, 0, ttl, if sent then Some(0) else None)]
  {
    var first := Enqueue("schedule_started", key, cooldown, ttl, 0);
    var queued := After(Box([], map[], 1), first);
    assert queued.rows == [Row(1, "schedule_started", key, 0, ttl, None)];
    assert queued.rows[0].id == 1;
  }

  /** A longer cooldown is not honoured: the row expires unread, or is delivered
      and seven days old, so a read deletes it and the key is queued again. */
  lemma {:induction false} LongCooldownFails(key: string, cooldown: int, ttl: int)
    requires 0 <= ttl && (ttl < cooldown || 604_800_000_000 < cooldown)
    ensures exists steps :: Ordered(steps) && FixedFor(steps, key, cooldown, ttl)
                            && !Spaced(QueuedTimes(Box([], map[], 1), steps, key), cooldown)
  {
    hide Surviving, Run, QueuedTimes, Swept;
    var b := Box([], map[], 1);
    var gap := if ttl < 604_800_000_000 then ttl else 604_800_000_000;
    var first := Enqueue("schedule_started", key, cooldown, ttl, 0);
    var settle := Acknowledge(if ttl < 604_800_000_000 then {} else {1}, 0);
    var read := Pending(0, gap);
    var again := Enqueue("schedule_started", key, cooldown, ttl, gap);
    var settled := After(After(b, first), settle);
    SettledRow(key, cooldown, ttl);
    SweptGone(settled, settled.rows[0], gap);
    FourSteps(b, first, settle, read, again, key);
    var times := QueuedTimes(b, [first, settle, read, again], key);
    assert times[0] + cooldown > times[1];
    assert Ordered([first, settle, read, again]) && FixedFor([first, settle, read, again], key, cooldown, ttl);
  }

  lemma {:induction false} SweptGone(b: Box, row: Row, now: int)
    requires b.rows == [row] && Dropped(row, now) && row.kind == "schedule_started"
    ensures Swept(b, now).rows == []
  {
    assert |row.kind| == 16 && !Historical(row, now - 60_000_000);
    var marked := MarkWhere(b.rows, (r: Row) => Historical(r, now - 60_000_000), now);
    assert b.rows[0] == row && marked[0] == row;
    assert marked == [row] && [row][..0] == [];
    assert Surviving([row], now) == Surviving([], now) == [];
  }

  lemma {:induction false} OneMoreStep(b: Box, steps: seq<Step>, step: Step, key: string)
    ensures Run(b, steps + [step]) == After(Run(b, steps), step)
    ensures QueuedTimes(b, steps + [step], key)
            == QueuedTimes(b, steps, key) + if QueuesKey(Run(b, steps), step, key) then [step.now] else []
  {
    assert (steps + [step])[..|steps|] == steps;
  }

  lemma {:induction false} FourSteps(b: Box, s: Step, t: Step, u: Step, v: Step, key: string)
    requires QueuesKey(b, s, key) && !t.Enqueue? && !u.Enqueue?
    requires QueuesKey(After(After(After(b, s), t), u), v, key)
    ensures QueuedTimes(b, [s, t, u, v], key) == [s.now, v.now]
  {
    OneMoreStep(b, [], s, key);
    OneMoreStep(b, [s], t, key);
    OneMoreStep(b, [s, t], u, key);
    OneMoreStep(b, [s, t, u], v, key);
    hide After;
    assert [] + [s] == [s] && [s] + [t] == [s, t] && [s, t] + [u] == [s, t, u] && [s, t, u] + [v] == [s, t, u, v];
  }

  /** Spacing holds over all runs from an empty outbox if and only if the cooldown
      is no longer than the time to live and seven days. */
  lemma {:induction false} SpacingExactly(key: string, cooldown: int, ttl: int)
    requires 0 <= cooldown && 0 <= ttl
    ensures (forall steps | Ordered(steps) && FixedFor(steps, key, cooldown, ttl) ::
               Spaced(QueuedTimes(Box([], map[], 1), steps, key), cooldown))
            <==> cooldown <= ttl && cooldown <= 604_800_000_000
  {
    hide Ordered, FixedFor, Spaced, QueuedTimes;
    if cooldown <= ttl && cooldown <= 604_800_000_000 {
      forall steps | Ordered(steps) && FixedFor(steps, key, cooldown, ttl)
        ensures Spaced(QueuedTimes(Box([], map[], 1), steps, key), cooldown)
      {
        RowsAreSpaced(Box([], map[], 1), steps, key, cooldown, ttl);
      }
    } else {
      LongCooldownFails(key, cooldown, ttl);
    }
  }

  // -------------------------------------------------------------------- delivery

  /** Ids are used once. */
  ghost predicate Fresh(b: Box) {
    forall r | r in b.rows :: r.id < b.nextId
  }

  lemma {:induction false} StepFresh(b: Box, step: Step)
    requires Fresh(b)
    ensures Fresh(After(b, step)) && b.nextId <= After(b, step).nextId
  {
    StepRows(b, step);
    forall r | r in After(b, step).rows ensures r.id < After(b, step).nextId {
      if s :| s in b.rows && Became(s, r, step.now) {
        assert s.id < b.nextId;
      }
    }
  }

  /** The id has been given out and no undelivered row carries it. */
  ghost predicate Settled(b: Box, id: nat) {
    id < b.nextId && forall r | r in b.rows && r.id == id :: r.deliveredAt.Some?
  }

  lemma {:induction false} SettledForGood(b: Box, steps: seq<Step>, id: nat)
    requires Fresh(b) && Settled(b, id)
    ensures Fresh(Run(b, steps)) && Settled(Run(b, steps), id)
  {
    if steps != [] {
      var n := |steps| - 1;
      SettledForGood(b, steps[..n], id);
      StepFresh(Run(b, steps[..n]), steps[n]);
      StepRows(Run(b, steps[..n]), steps[n]);
    }
  }

  /** A delivered, discarded or deleted notification is never returned again. */
  lemma {:induction false} DeliveredNeverReturns(b: Box, steps: seq<Step>, id: nat, read: Step)
    requires Fresh(b) && Settled(b, id)
    ensures forall r | r in Returned(Run(b, steps), read) :: r.id != id
  {
    hide Run;
    SettledForGood(b, steps, id);
    if read.Pending? {
      SweptRows(Run(b, steps), read.now);
      hide Swept;
      forall r | r in Returned(Run(b, steps), read) ensures r.id != id {
        var s :| s in Run(b, steps).rows && Became(s, r, read.now);
      }
    }
  }

  /** A failure at `t` is still on record, for as long as the row is undelivered. */
  ghost predicate Backoff(b: Box, id: nat, t: int) {
    Settled(b, id) || (id in b.attempts && b.attempts[id].lastAt >= t)
  }

  lemma {:induction false} StepSettled(b: Box, step: Step, id: nat)
    requires Fresh(b) && Settled(b, id)
    ensures Settled(After(b, step), id)
  {
    StepRows(b, step);
    StepFresh(b, step);
    hide After;
  }

  lemma {:induction false} AcceptedSettles(b: Box, id: nat, now: int)
    requires id < b.nextId
    ensures Settled(After(b, Report(id, true, now)), id)
  {
    MarkedRows(b.rows, (r: Row) => r.id == id, now);
    hide MarkWhere;
  }

  lemma {:induction false} DeletedSettles(b: Box, id: nat, now: int)
    requires id < b.nextId && id in b.attempts
    ensures (id in Swept(b, now).attempts && Swept(b, now).attempts[id] == b.attempts[id]) || Settled(Swept(b, now), id)
  {
    hide Surviving, MarkWhere;
  }

  lemma {:induction false} StepBackoff(b: Box, step: Step, id: nat, t: int)
    requires Fresh(b) && id < b.nextId && Backoff(b, id, t) && t <= step.now
    ensures Backoff(After(b, step), id, t)
  {
    if Settled(b, id) {
      StepSettled(b, step, id);
    } else {
      hide Settled, MarkWhere, Swept, Queues;
      if step.Report? && step.delivered && step.id == id {
        AcceptedSettles(b, id, step.now);
      } else if step.Pending? {
        DeletedSettles(b, id, step.now);
      }
    }
  }

  lemma {:induction false} BackoffOverRuns(b: Box, steps: seq<Step>, id: nat, t: int)
    requires Fresh(b) && id < b.nextId && Backoff(b, id, t)
    requires forall k | 0 <= k < |steps| :: t <= steps[k].now
    ensures Fresh(Run(b, steps)) && Backoff(Run(b, steps), id, t) && id < Run(b, steps).nextId
  {
    hide After, Backoff;
    if steps != [] {
      var n := |steps| - 1;
      BackoffOverRuns(b, steps[..n], id, t);
      StepFresh(Run(b, steps[..n]), steps[n]);
      StepBackoff(Run(b, steps[..n]), steps[n], id, t);
    }
  }

  /** After a delivery failure at `t` the row is not returned before a minute has
      passed, over every run with a clock that does not go behind `t`. */
  lemma {:induction false} FailedWaitsAMinute(b: Box, failure: Step, steps: seq<Step>, read: Step)
    requires Fresh(b) && failure.Report? && !failure.delivered && HasRow(b.rows, failure.id)
    requires forall k | 0 <= k < |steps| :: failure.now <= steps[k].now
    requires read.Pending? && failure.now <= read.now < failure.now + 60_000_000
    ensures forall r | r in Returned(Run(After(b, failure), steps), read) :: r.id != failure.id
  {
    var id, t := failure.id, failure.now;
    StepFresh(b, failure);
    BackoffOverRuns(After(b, failure), steps, id, t);
    var end := Run(After(b, failure), steps);
    StepBackoff(end, read, id, t);
    hide Run, Swept, After;
    var swept := Swept(end, read.now);
    assert After(end, read) == swept by {
      PendingSweeps(end, read);
    }
  }

  lemma {:induction false} PendingSweeps(b: Box, read: Step)
    requires read.Pending?
    ensures After(b, read) == Swept(b, read.now)
  {
  }
}
