/** The diagnostic queue of the extension and the daemon table that de-duplicates
    what it sends.

    Batches may be processed late, partly, repeatedly or never; replies may be
    lost; writes to storage land in order, or fail; the extension may be reloaded
    at any moment, and reading its storage may then fail. Both sides tell events
    apart by their id.
 */
module Diagnostics {
  import opened Wrappers

  datatype Event = Event(id: string, body: string)

  /** What the daemon accepts, and what the extension takes back from storage. */
  datatype Checks = Checks(wellFormed: Event -> bool, loadable: Event -> bool)

  function Ids(events: seq<Event>): set<string> {
    set e | e in events :: e.id
  }

  function Items(events: seq<Event>): set<Event> {
    set e | e in events
  }

  ghost predicate DistinctIds(events: seq<Event>) {
    forall i, j | 0 <= i < j < |events| :: events[i].id != events[j].id
  }

  /** No two of the events share an id. */
  ghost predicate Named(events: set<Event>) {
    forall e, f | e in events && f in events && e.id == f.id :: e == f
  }

  function Select(events: seq<Event>, p: Event -> bool): (r: seq<Event>)
    ensures |r| <= |events|
    ensures forall e :: e in r <==> e in events && p(e)
  {
    if events == [] then []
    else
      var n := |events| - 1;
      assert forall e :: e in events <==> e in events[..n] || e == events[n];
      Select(events[..n], p) + if p(events[n]) then [events[n]] else []
  }

  method Filter(events: seq<Event>, p: Event -> bool) returns (r: seq<Event>)
    ensures r == Select(events, p)
  {
    r := [];
    for k := 0 to |events|
      invariant r == Select(events[..k], p)
    {
      assert events[..k + 1][..k] == events[..k];
      if p(events[k]) {
        r := r + [events[k]];
      }
    }
    assert events[..|events|] == events;
  }

  // ------------------------------------------------------------------ the daemon

  /** The diagnostic rows of the event log and the table of their ids. */
  datatype Daemon = Daemon(recorded: seq<Event>, ids: set<string>)

  function Record(d: Daemon, e: Event): Daemon {
    if e.id in d.ids then d else Daemon(d.recorded + [e], d.ids + {e.id})
  }

  /** A batch event by event; a malformed one is skipped, and the reply is still a
      success. */
  function AcceptAll(d: Daemon, events: seq<Event>, wellFormed: Event -> bool): Daemon {
    if events == [] then d
    else
      var n := |events| - 1;
      var before := AcceptAll(d, events[..n], wellFormed);
      if wellFormed(events[n]) then Record(before, events[n]) else before
  }

  function Malformed(wellFormed: Event -> bool): Event -> bool {
    (e: Event) => !wellFormed(e)
  }

  class DiagnosticTable {
    var recorded: seq<Event>
    var ids: set<string>

    function Now(): Daemon
      reads this
    {
      Daemon(recorded, ids)
    }

    constructor ()
      ensures Now() == Daemon([], {})
    {
      recorded, ids := [], {};
    }

    method RecordDiagnosticEvent(e: Event) returns (accepted: bool)
      modifies this
      ensures Now() == Record(old(Now()), e)
      ensures accepted <==> e.id !in old(ids)
    {
      if e.id in ids {
        return false;
      }
      recorded := recorded + [e];
      ids := ids + {e.id};
      accepted := true;
    }

    /** None: the batch is empty or too long. Otherwise how many events were
        recorded, already known, and malformed. */
    method RecordDiagnostics(events: seq<Event>, wellFormed: Event -> bool) returns (counts: Option<(nat, nat, nat)>)
      modifies this
      ensures counts.Some? <==> 1 <= |events| <= 100
      ensures counts.None? ==> Now() == old(Now())
      ensures counts.Some? ==> Now() == AcceptAll(old(Now()), events, wellFormed)
      ensures counts.Some? ==>
                var (accepted, duplicates, rejected) := counts.value;
                && accepted == |recorded| - |old(recorded)|
                && rejected == |Select(events, Malformed(wellFormed))|
                && accepted + duplicates + rejected == |events|
    {
      if events == [] || |events| > 100 {
        return None;
      }
      var accepted, duplicates, rejected := 0, 0, 0;
      for k := 0 to |events|
        invariant Now() == AcceptAll(old(Now()), events[..k], wellFormed)
        invariant accepted == |recorded| - |old(recorded)|
        invariant rejected == |Select(events[..k], Malformed(wellFormed))|
        invariant accepted + duplicates + rejected == k
      {
        assert events[..k + 1][..k] == events[..k];
        if !wellFormed(events[k]) {
          rejected := rejected + 1;
        } else {
          var isNew := RecordDiagnosticEvent(events[k]);
          if isNew {
            accepted := accepted + 1;
          } else {
            duplicates := duplicates + 1;
          }
        }
      }
      assert events[..|events|] == events;
      counts := Some((accepted, duplicates, rejected));
    }
  }

  // --------------------------------------------------------------- the extension

  function Newest(queue: seq<Event>): (r: seq<Event>)
    ensures |r| <= 200
  {
    if |queue| > 200 then queue[|queue| - 200..] else queue
  }

  function Enqueued(queue: seq<Event>, e: Event): seq<Event> {
    if e.id in Ids(queue) then queue else Newest(queue + [e])
  }

  function NotAmong(ids: set<string>): Event -> bool {
    (e: Event) => e.id !in ids
  }

  function Without(queue: seq<Event>, ids: set<string>): seq<Event> {
    Select(queue, NotAmong(ids))
  }

  function Batch(queue: seq<Event>): seq<Event> {
    if |queue| > 50 then queue[..50] else queue
  }

  /** The queue after loading; None when storage could not be read. */
  function Loaded(stored: Option<seq<Event>>, loadable: Event -> bool): (r: seq<Event>)
    ensures |r| <= 200
  {
    if stored.None? then [] else Newest(Select(stored.value, loadable))
  }

  class Extension {
    var queue: seq<Event>
    var inFlight: Option<seq<Event>>
    var writes: seq<seq<Event>>

    constructor ()
      ensures queue == [] && inFlight == None && writes == []
    {
      queue, inFlight, writes := [], None, [];
    }

    /** A failed read leaves the queue empty. */
    method LoadDiagnosticQueue(stored: Option<seq<Event>>, loadable: Event -> bool)
      requires queue == []
      modifies this
      ensures queue == Loaded(stored, loadable) && inFlight == old(inFlight) && writes == old(writes)
    {
      if stored.Some? {
        var kept := Filter(stored.value, loadable);
        queue := if |kept| > 200 then kept[|kept| - 200..] else kept;
      }
    }

    method QueueDiagnostic(e: Event)
      modifies this
      ensures queue == Enqueued(old(queue), e) && inFlight == old(inFlight)
      ensures writes == old(writes) + if e.id in Ids(old(queue)) then [] else [queue]
    {
      for k := 0 to |queue|
        invariant queue == old(queue) && inFlight == old(inFlight) && writes == old(writes)
        invariant e.id !in Ids(queue[..k])
      {
        assert queue[..k + 1] == queue[..k] + [queue[k]];
        if queue[k].id == e.id {
          assert queue[k] in queue;
          return;
        }
      }
      assert queue[..|queue|] == queue;
      queue := queue + [e];
      if |queue| > 200 {
        queue := queue[|queue| - 200..];
      }
      writes := writes + [queue];
    }

    /** One turn of the flush loop: send the oldest fifty and wait. */
    method SendNextBatch() returns (batch: seq<Event>)
      requires inFlight.None? && queue != []
      modifies this
      ensures batch == Batch(queue) && inFlight == Some(batch)
      ensures queue == old(queue) && writes == old(writes)
    {
      batch := if |queue| > 50 then queue[..50] else queue;
      inFlight := Some(batch);
    }

    method OnReply(accepted: bool)
      requires inFlight.Some?
      modifies this
      ensures inFlight == None
      ensures queue == if accepted then Without(old(queue), Ids(old(inFlight).value)) else old(queue)
      ensures writes == old(writes) + if accepted then [queue] else []
    {
      if accepted {
        queue := Filter(queue, NotAmong(Ids(inFlight.value)));
        writes := writes + [queue];
      }
      inFlight := None;
    }
  }

  // ------------------------------------------------------------------ the system

  /** Both sides and what is between them: batches on the wire with whether the
      daemon has been through them, and writes on their way to storage. `unread` says
      that the last reload could not read storage and no write has landed since. The
      last three fields are a history kept for stating properties. */
  datatype World = World(
    queue: seq<Event>, inFlight: Option<nat>, wire: seq<seq<Event>>, completed: set<nat>,
    storage: seq<Event>, unread: bool, writes: seq<seq<Event>>, daemon: Daemon,
    queued: set<Event>, overflowed: set<Event>, lost: set<Event>)

  /** A reload that finds some writes landed is those landings and then the reload,
      which drops the writes that are left. */
  datatype Step =
    | Queue(event: Event)
    | Flush
    | Process(batch: nat, count: nat)
    | Reply
    | NoReply
    | Land
    | FailWrite
    | Reload(read: bool)

  const START := World([], None, [], {}, [], false, [], Daemon([], {}), {}, {}, {})

  predicate Enabled(w: World, step: Step) {
    match step
    case Queue(_) => true
    case Flush => w.inFlight.None? && w.queue != []
    case Process(n, count) => n < |w.wire| && count <= |w.wire[n]|
    case Reply => w.inFlight.Some? && w.inFlight.value < |w.wire| && w.inFlight.value in w.completed
    case NoReply => w.inFlight.Some?
    case Land => w.writes != []
    case FailWrite => w.writes != []
    case Reload(_) => true
  }

  function After(w: World, step: Step, c: Checks): World
    requires Enabled(w, step)
  {
    match step
    case Queue(e) =>
      if e.id in Ids(w.queue) then w
      else
        var queue := Enqueued(w.queue, e);
        w.(queue := queue, writes := w.writes + [queue], queued := w.queued + {e},
           overflowed := w.overflowed + (Items(w.queue) - Items(queue)))
    case Flush => w.(wire := w.wire + [Batch(w.queue)], inFlight := Some(|w.wire|))
    case Process(n, count) =>
      w.(daemon := AcceptAll(w.daemon, w.wire[n][..count], c.wellFormed),
         completed := if count == |w.wire[n]| then w.completed + {n} else w.completed)
    case Reply =>
      var queue := Without(w.queue, Ids(w.wire[w.inFlight.value]));
      w.(queue := queue, inFlight := None, writes := w.writes + [queue])
    case NoReply => w.(inFlight := None)
    case Land => w.(storage := w.writes[0], unread := false, writes := w.writes[1..])
    case FailWrite => w.(writes := w.writes[1..])
    case Reload(read) =>
      var queue := Loaded(if read then Some(w.storage) else None, c.loadable);
      w.(queue := queue, inFlight := None, unread := !read, writes := [],
         lost := w.lost + (Items(w.queue) - Items(queue)))
  }

  /** The state after these steps, if each was possible when taken. */
  ghost function Run(from: World, steps: seq<Step>, c: Checks): Option<World> {
    if steps == [] then Some(from)
    else
      match Run(from, steps[..|steps| - 1], c)
      case None => None
      case Some(mid) =>
        var step := steps[|steps| - 1];
        if Enabled(mid, step) then Some(After(mid, step, c)) else None
  }

  // ------------------------------------------------------------------ invariants

  ghost predicate WellKept(queue: seq<Event>) {
    |queue| <= 200 && DistinctIds(queue)
  }

  /** The id table holds exactly the recorded ids, and no id is recorded twice. */
  ghost predicate OnceOnly(d: Daemon) {
    DistinctIds(d.recorded) && d.ids == Ids(d.recorded)
  }

  /** Storage, the writes under way and the queue, oldest first. */
  ghost function Snapshots(w: World): seq<seq<Event>> {
    [w.storage] + w.writes + [w.queue]
  }

  ghost predicate Shelved(w: World) {
    forall s | s in Snapshots(w) :: WellKept(s) && Items(s) <= w.queued
  }

  ghost predicate Sent(w: World) {
    && (forall batch | batch in w.wire :: 1 <= |batch| <= 50 && Items(batch) <= w.queued)
    && (forall n | n in w.completed :: n < |w.wire|)
    && (w.inFlight.Some? ==> w.inFlight.value < |w.wire|)
  }

  ghost predicate RecordedWell(w: World, c: Checks) {
    && OnceOnly(w.daemon)
    && (forall e | e in w.daemon.recorded :: c.wellFormed(e) && e in w.queued)
    && (forall n, e | n in w.completed && n < |w.wire| && e in w.wire[n] && c.wellFormed(e) :: e.id in w.daemon.ids)
  }

  ghost predicate Base(w: World, c: Checks) {
    Shelved(w) && Sent(w) && RecordedWell(w, c)
  }

  /** Recorded, or fallen to the 200-entry limit. */
  ghost predicate Settled(w: World, e: Event) {
    e.id in w.daemon.ids || e in w.overflowed
  }

  /** Whatever `older` holds that can be loaded and recorded is still in `newer`, or
      settled. */
  ghost predicate Flows(w: World, c: Checks, older: seq<Event>, newer: seq<Event>) {
    forall e | e in older && c.wellFormed(e) && c.loadable(e) :: e in newer || Settled(w, e)
  }

  /** Storage flows into the writes and the queue, unless it could not be read. */
  ghost predicate Chained(w: World, c: Checks) {
    var s := Snapshots(w);
    forall j, k | (if w.unread then 1 else 0) <= j <= k < |s| :: Flows(w, c, s[j], s[k])
  }

  ghost predicate Accounted(w: World, c: Checks) {
    forall e | e in w.queued && c.wellFormed(e) :: e in w.queue || Settled(w, e) || e in w.lost
  }

  /** What holds in addition when ids name events. */
  ghost predicate Inv(w: World, c: Checks) {
    Base(w, c) && Named(w.queued) && Chained(w, c) && Accounted(w, c)
  }

  // --------------------------------------------------------------------- daemon

  lemma {:induction false} RecordOnce(d: Daemon, e: Event)
    requires OnceOnly(d)
    ensures OnceOnly(Record(d, e)) && d.ids <= Record(d, e).ids && e.id in Record(d, e).ids
    ensures forall x | x in Record(d, e).recorded :: x in d.recorded || x == e
  {
    if e.id !in d.ids {
      var longer := d.recorded + [e];
      assert forall x :: x in longer <==> x in d.recorded || x == e;
      forall k | 0 <= k < |d.recorded| ensures d.recorded[k].id != e.id {
        assert d.recorded[k] in d.recorded;
      }
      forall id | id in d.ids + {e.id} ensures id in Ids(longer) {
        if id != e.id {
          var x :| x in d.recorded && x.id == id;
          assert x in longer;
        }
      }
    }
  }

  /** A batch, whole or in part, first time or again: every well-formed event in it
      is recorded, nothing else is, nothing is recorded twice. */
  lemma {:induction false} AcceptAllOnce(d: Daemon, events: seq<Event>, wellFormed: Event -> bool)
    requires OnceOnly(d)
    ensures var after := AcceptAll(d, events, wellFormed);
            && OnceOnly(after) && d.ids <= after.ids
            && (forall e | e in events && wellFormed(e) :: e.id in after.ids)
            && (forall e | e in after.recorded :: e in d.recorded || (e in events && wellFormed(e)))
  {
    hide OnceOnly, Record;
    if events != [] {
      var n := |events| - 1;
      AcceptAllOnce(d, events[..n], wellFormed);
      assert forall e :: e in events <==> e in events[..n] || e == events[n];
      RecordOnce(AcceptAll(d, events[..n], wellFormed), events[n]);
    }
  }

  // ------------------------------------------------------------------- the queue

  lemma {:induction false} SelectDistinct(queue: seq<Event>, p: Event -> bool)
    requires DistinctIds(queue)
    ensures DistinctIds(Select(queue, p))
  {
    if queue != [] {
      var n := |queue| - 1;
      SelectDistinct(queue[..n], p);
      forall e | e in Select(queue[..n], p) ensures e.id != queue[n].id {
        var k :| 0 <= k < n && queue[k] == e;
      }
    }
  }

  lemma {:induction false} SelectKept(queue: seq<Event>, p: Event -> bool)
    requires WellKept(queue)
    ensures WellKept(Select(queue, p)) && Items(Select(queue, p)) <= Items(queue)
  {
    SelectDistinct(queue, p);
  }

  /** Only the oldest event of a full queue gives way to a new one. */
  lemma {:induction false} EnqueuedKept(queue: seq<Event>, e: Event)
    requires WellKept(queue) && e.id !in Ids(queue)
    ensures WellKept(Enqueued(queue, e)) && Items(Enqueued(queue, e)) <= Items(queue) + {e}
    ensures e in Enqueued(queue, e)
    ensures forall x | x in queue :: x !in Enqueued(queue, e) <==> |queue| == 200 && x == queue[0]
  {
    var longer := queue + [e];
    assert forall x :: x in longer <==> x in queue || x == e;
    forall k | 0 <= k < |queue| ensures queue[k].id != e.id {
      assert queue[k] in queue;
    }
    assert longer == [longer[0]] + longer[1..] && longer[|longer| - 1] == e;
    forall x | x in queue && |queue| == 200 ensures x !in longer[1..] <==> x == queue[0] {
      if x in longer[1..] {
        var k :| 1 <= k < |longer| && longer[k] == x;
      }
    }
    if |queue| == 200 {
      assert longer[1..][199] == e;
    }
  }

  // ----------------------------------------------- what every step keeps, any ids

  lemma {:induction false} SnapshotsOf(w: World)
    ensures forall s :: s in Snapshots(w) <==> s == w.storage || s in w.writes || s == w.queue
  {
    forall s | s == w.storage || s in w.writes || s == w.queue ensures s in Snapshots(w) {
      assert Snapshots(w)[0] == w.storage && Snapshots(w)[|w.writes| + 1] == w.queue;
      if s in w.writes {
        var k :| 0 <= k < |w.writes| && w.writes[k] == s;
        assert Snapshots(w)[k + 1] == s;
      }
    }
  }

  lemma {:induction false} StepShelved(w: World, step: Step, c: Checks)
    requires Shelved(w) && Enabled(w, step)
    ensures Shelved(After(w, step, c)) && w.queued <= After(w, step, c).queued
  {
    var v := After(w, step, c);
    SnapshotsOf(w);
    SnapshotsOf(v);
    hide Snapshots, WellKept, AcceptAll, Batch, Enqueued;
    match step
    case Queue(e) =>
      if e.id !in Ids(w.queue) {
        EnqueuedKept(w.queue, e);
        assert forall s :: s in v.writes <==> s in w.writes || s == v.queue;
      }
    case Reply =>
      SelectKept(w.queue, NotAmong(Ids(w.wire[w.inFlight.value])));
      assert forall s :: s in v.writes <==> s in w.writes || s == v.queue;
    case Reload(read) =>
      ReloadKept(w, c.loadable, read);
    case _ =>
  }

  lemma {:induction false} ReloadKept(w: World, loadable: Event -> bool, read: bool)
    requires WellKept(w.storage)
    ensures var queue := Loaded(if read then Some(w.storage) else None, loadable);
            && WellKept(queue) && Items(queue) <= Items(w.storage)
            && forall e :: e in queue <==> read && e in w.storage && loadable(e)
  {
    SelectKept(w.storage, loadable);
  }

  lemma {:induction false} StepSent(w: World, step: Step, c: Checks)
    requires Shelved(w) && Sent(w) && Enabled(w, step)
    ensures Sent(After(w, step, c))
  {
    hide WellKept, AcceptAll, Enqueued, Select;
    var v := After(w, step, c);
    if step.Flush? {
      SnapshotsOf(w);
      hide Snapshots;
      assert Items(Batch(w.queue)) <= Items(w.queue);
    }
  }

  lemma {:induction false} StepRecordedWell(w: World, step: Step, c: Checks)
    requires Sent(w) && RecordedWell(w, c) && Enabled(w, step)
    ensures RecordedWell(After(w, step, c), c)
    ensures w.daemon.ids <= After(w, step, c).daemon.ids
  {
    hide OnceOnly, AcceptAll, Enqueued, Select, Batch, Newest;
    if step.Process? {
      var batch := w.wire[step.batch];
      assert batch in w.wire;
      AcceptAllOnce(w.daemon, batch[..step.count], c.wellFormed);
      assert step.count == |batch| ==> batch[..step.count] == batch;
    }
  }

  lemma {:induction false} StepKeepsBase(w: World, step: Step, c: Checks)
    requires Base(w, c) && Enabled(w, step)
    ensures Base(After(w, step, c), c)
    ensures w.queued <= After(w, step, c).queued && w.daemon.ids <= After(w, step, c).daemon.ids
  {
    hide Shelved, Sent, RecordedWell, After, Enabled;
    StepShelved(w, step, c);
    StepSent(w, step, c);
    StepRecordedWell(w, step, c);
  }

  // ----------------------------------------- what every step keeps when ids name

  /** Adding a newer snapshot that the queue flows into. */
  lemma {:induction false} ChainedAppend(w: World, v: World, c: Checks)
    requires Chained(w, c) && v.unread == w.unread
    requires v.storage == w.storage && v.writes == w.writes + [v.queue]
    requires forall e | Settled(w, e) :: Settled(v, e)
    requires Flows(v, c, w.queue, v.queue)
    ensures Chained(v, c)
  {
    hide Settled;
    var s, t := Snapshots(w), Snapshots(v);
    assert |t| == |s| + 1 && forall k | 0 <= k < |s| - 1 :: t[k] == s[k];
    assert t[|s| - 1] == v.queue && t[|s|] == v.queue && s[|s| - 1] == w.queue;
    forall j, k | (if v.unread then 1 else 0) <= j <= k < |t| ensures Flows(v, c, t[j], t[k]) {
      if j < |s| - 1 {
        assert Flows(w, c, s[j], if k < |s| - 1 then s[k] else w.queue) by {
          assert k < |s| - 1 ==> Flows(w, c, s[j], s[k]);
          assert Flows(w, c, s[j], s[|s| - 1]);
        }
      }
    }
  }

  /** The oldest write lands, or is dropped. */
  lemma {:induction false} ChainedDrop(w: World, v: World, c: Checks, lands: bool)
    requires Chained(w, c) && w.writes != []
    requires v.storage == (if lands then w.writes[0] else w.storage) && v.unread == (!lands && w.unread)
    requires v.writes == w.writes[1..] && v.queue == w.queue
    requires v.daemon == w.daemon && v.overflowed == w.overflowed
    ensures Chained(v, c)
  {
    assert forall e :: Settled(v, e) == Settled(w, e);
    hide Settled;
    var s, t := Snapshots(w), Snapshots(v);
    assert s[0] == w.storage && s[1] == w.writes[0] && t[0] == v.storage;
    assert forall k | 1 <= k < |t| :: t[k] == s[k + 1];
    forall j, k | (if v.unread then 1 else 0) <= j <= k < |t| ensures Flows(v, c, t[j], t[k]) {
      var i := if j == 0 && !lands then 0 else j + 1;
      assert t[j] == s[i];
      if k > 0 {
        assert t[k] == s[k + 1];
        assert Flows(w, c, s[i], s[k + 1]);
      }
    }
  }

  lemma {:induction false} ChainedLonger(w: World, v: World, c: Checks)
    requires Chained(w, c) && Snapshots(v) == Snapshots(w) && v.unread == w.unread
    requires forall e | Settled(w, e) :: Settled(v, e)
    ensures Chained(v, c)
  {
    hide Settled;
    var s := Snapshots(w);
    forall j, k | (if v.unread then 1 else 0) <= j <= k < |s| ensures Flows(v, c, s[j], s[k]) {
      assert Flows(w, c, s[j], s[k]);
    }
  }

  lemma {:induction false} QueueFlows(w: World, e: Event, c: Checks)
    requires Base(w, c) && e.id !in Ids(w.queue)
    ensures var v := After(w, Queue(e), c); Flows(v, c, w.queue, v.queue) && e in v.queue
  {
    SnapshotsOf(w);
    hide Snapshots, Enqueued, WellKept;
    EnqueuedKept(w.queue, e);
  }

  /** What a reply removes has been through the daemon, if ids name events. */
  lemma {:induction false} ReplyFlows(w: World, c: Checks)
    requires Base(w, c) && Named(w.queued) && Enabled(w, Reply)
    ensures var v := After(w, Reply, c);
            && (forall e | e in w.queue :: e !in v.queue <==> e in w.wire[w.inFlight.value])
            && (forall e | e in w.queue && e !in v.queue && c.wellFormed(e) :: Settled(v, e))
  {
    var v := After(w, Reply, c);
    var batch := w.wire[w.inFlight.value];
    SnapshotsOf(w);
    hide Snapshots, OnceOnly, WellKept;
    assert batch in w.wire;
    forall e | e in w.queue ensures e !in v.queue <==> e in batch {
      if e.id in Ids(batch) {
        var f :| f in batch && f.id == e.id;
        assert f in Items(batch) && e in Items(w.queue);
      }
    }
  }

  lemma {:induction false} StepChained(w: World, step: Step, c: Checks)
    requires Base(w, c) && Named(w.queued) && Chained(w, c) && Enabled(w, step)
    ensures Chained(After(w, step, c), c)
  {
    var v := After(w, step, c);
    StepRecordedWell(w, step, c);
    match step
    case Queue(e) =>
      if e.id !in Ids(w.queue) {
        QueueFlows(w, e, c);
        hide Base, Enqueued, Flows, Chained;
        ChainedAppend(w, v, c);
      }
    case Reply =>
      ReplyFlows(w, c);
      hide Base, Without, Chained;
      ChainedAppend(w, v, c);
    case Land => ChainedDrop(w, v, c, true);
    case FailWrite => ChainedDrop(w, v, c, false);
    case Reload(read) =>
      SnapshotsOf(w);
      ReloadKept(w, c.loadable, read);
      hide Base, Loaded, Chained;
      ReloadChained(v, c, w.storage);
    case Flush => ChainedLonger(w, v, c);
    case Process(n, count) => ChainedLonger(w, v, c);
    case NoReply => ChainedLonger(w, v, c);
  }

  lemma {:induction false} ReloadChained(v: World, c: Checks, storage: seq<Event>)
    requires v.storage == storage && v.writes == []
    requires forall e :: e in v.queue <==> !v.unread && e in storage && c.loadable(e)
    ensures Chained(v, c)
  {
    assert Snapshots(v) == [storage, v.queue];
  }

  lemma {:induction false} StepAccounted(w: World, step: Step, c: Checks)
    requires Base(w, c) && Named(w.queued) && Accounted(w, c) && Enabled(w, step)
    ensures Accounted(After(w, step, c), c)
  {
    StepRecordedWell(w, step, c);
    if step.Reply? {
      ReplyFlows(w, c);
    }
    if step.Queue? && step.event.id !in Ids(w.queue) {
      QueueFlows(w, step.event, c);
    }
    hide Base, Enqueued, Loaded, AcceptAll, Select, Batch, Named, Ids;
  }

  lemma {:induction false} StepKeepsInv(w: World, step: Step, c: Checks)
    requires Inv(w, c) && Enabled(w, step) && Named(After(w, step, c).queued)
    ensures Inv(After(w, step, c), c)
  {
    hide Base, Chained, Accounted, After, Enabled;
    StepKeepsBase(w, step, c);
    StepChained(w, step, c);
    StepAccounted(w, step, c);
  }

  // ------------------------------------------------------------------------ runs

  lemma {:induction false} StartInv(c: Checks)
    ensures Inv(START, c)
  {
    assert Snapshots(START) == [[], []];
  }

  lemma {:induction false} RunKeepsBase(from: World, steps: seq<Step>, to: World, c: Checks)
    requires Base(from, c) && Run(from, steps, c) == Some(to)
    ensures Base(to, c) && from.queued <= to.queued && from.daemon.ids <= to.daemon.ids
  {
    hide Base, After, Enabled;
    if steps != [] {
      var n := |steps| - 1;
      var mid := Run(from, steps[..n], c).value;
      RunKeepsBase(from, steps[..n], mid, c);
      StepKeepsBase(mid, steps[n], c);
    }
  }

  lemma {:induction false} RunKeepsInv(from: World, steps: seq<Step>, to: World, c: Checks)
    requires Inv(from, c) && Run(from, steps, c) == Some(to) && Named(to.queued)
    ensures Inv(to, c)
  {
    if steps != [] {
      hide Base, Chained, Accounted, After, Enabled;
      var n := |steps| - 1;
      var mid := Run(from, steps[..n], c).value;
      RunKeepsBase(from, steps[..n], mid, c);
      StepKeepsBase(mid, steps[n], c);
      RunKeepsInv(from, steps[..n], mid, c);
      hide Inv;
      StepKeepsInv(mid, steps[n], c);
    }
  }

  lemma {:induction false} RecordedById(w: World, c: Checks, e: Event)
    requires Base(w, c) && Named(w.queued) && e in w.queued
    ensures e.id in w.daemon.ids <==> e in w.daemon.recorded
    ensures e.id in w.daemon.ids ==> c.wellFormed(e)
  {
    hide Shelved, Sent;
    if e.id in w.daemon.ids {
      var f :| f in w.daemon.recorded && f.id == e.id;
    }
  }

  // ---------------------------------------------------------------- main results

  /** In every reachable state: only well-formed queued events are recorded, none
      twice; the queue holds at most 200 events with distinct ids; no batch is of a
      size the daemon refuses. When ids name events, every well-formed event ever
      queued is still queued, or recorded, or fell to the 200-entry limit, or was lost
      to a reload. */
  lemma {:induction false} DiagnosticsAccounted(steps: seq<Step>, w: World, c: Checks)
    requires Run(START, steps, c) == Some(w)
    ensures DistinctIds(w.daemon.recorded) && forall e | e in w.daemon.recorded :: c.wellFormed(e) && e in w.queued
    ensures |w.queue| <= 200 && DistinctIds(w.queue)
    ensures forall batch | batch in w.wire :: 1 <= |batch| <= 100
    ensures Named(w.queued) ==>
              forall e | e in w.queued && c.wellFormed(e) ::
                e in w.queue || e in w.daemon.recorded || e in w.overflowed || e in w.lost
  {
    StartInv(c);
    RunKeepsBase(START, steps, w, c);
    BaseKeepsQueue(w, c);
    if Named(w.queued) {
      RunKeepsInv(START, steps, w, c);
      hide Base, Chained;
      forall e | e in w.queued && e.id in w.daemon.ids ensures e in w.daemon.recorded {
        RecordedById(w, c, e);
      }
    }
  }

  /** When a success reply arrives, an event of its batch has been recorded if and
      only if it is well formed. */
  lemma {:induction false} AnsweredIsRecordedExactly(steps: seq<Step>, w: World, c: Checks, e: Event)
    requires Run(START, steps, c) == Some(w) && Named(w.queued)
    requires Enabled(w, Reply) && e in w.wire[w.inFlight.value]
    ensures e in w.daemon.recorded <==> c.wellFormed(e)
  {
    StartInv(c);
    RunKeepsBase(START, steps, w, c);
    assert w.wire[w.inFlight.value] in w.wire;
    assert e in Items(w.wire[w.inFlight.value]);
    RecordedById(w, c, e);
  }

  /** The ways out of the queue: the oldest event of a full queue gives way to a new
      one; a reply to the event's batch, and then the event is recorded if and only if
      it is well formed; a reload that cannot read storage, or does not find the event
      there, or does not take it back. */
  lemma {:induction false} LeavesQueueExactly(steps: seq<Step>, w: World, step: Step, c: Checks, e: Event)
    requires Run(START, steps, c) == Some(w) && Named(w.queued) && Enabled(w, step) && e in w.queue
    ensures var v := After(w, step, c);
            && (e !in v.queue <==>
                match step
                case Queue(f) => f.id !in Ids(w.queue) && |w.queue| == 200 && e == w.queue[0]
                case Reply => e in w.wire[w.inFlight.value]
                case Reload(read) => !(read && e in w.storage && c.loadable(e))
                case _ => false)
            && (step.Reply? && e !in v.queue ==> (e in v.daemon.recorded <==> c.wellFormed(e)))
  {
    StartInv(c);
    RunKeepsBase(START, steps, w, c);
    SnapshotsOf(w);
    match step
    case Queue(f) =>
      hide Base, Enqueued;
      assert WellKept(w.queue) by {
        BaseKeepsQueue(w, c);
      }
      if f.id !in Ids(w.queue) {
        EnqueuedKept(w.queue, f);
      }
    case Reply =>
      ReplyFlows(w, c);
      hide Base, Without, Run;
      if e in w.wire[w.inFlight.value] {
        AnsweredIsRecordedExactly(steps, w, c, e);
      }
    case Reload(read) =>
      BaseKeepsQueue(w, c);
      hide Base, Loaded;
      ReloadKept(w, c.loadable, read);
    case _ =>
  }

  lemma {:induction false} BaseKeepsQueue(w: World, c: Checks)
    requires Base(w, c)
    ensures WellKept(w.queue) && WellKept(w.storage)
  {
    SnapshotsOf(w);
    hide WellKept;
  }

  // -------------------------------------------------------------- stored events

  /** Where an event that has been stored can be: storage, recorded, overflowed. */
  ghost predicate Safe(w: World, e: Event) {
    e in w.storage || Settled(w, e)
  }

  /** A write lands over storage that could not be read, and leaves the event out. */
  ghost predicate Forgets(w: World, step: Step, e: Event) {
    step.Land? && w.unread && e in w.storage && !Settled(w, e) && w.writes != [] && e !in w.writes[0]
  }

  lemma {:induction false} StepForgets(w: World, step: Step, c: Checks, e: Event)
    requires Inv(w, c) && Enabled(w, step) && c.wellFormed(e) && c.loadable(e) && Safe(w, e)
    ensures Safe(After(w, step, c), e) <==> !Forgets(w, step, e)
  {
    StepRecordedWell(w, step, c);
    hide Base, Accounted, AcceptAll, Enqueued, Without, Batch, Loaded, Ids, Items;
    if step.Land? && !w.unread {
      assert Snapshots(w)[0] == w.storage && Snapshots(w)[1] == w.writes[0];
      assert Flows(w, c, w.storage, w.writes[0]);
    }
  }

  ghost function At(from: World, steps: seq<Step>, k: nat, c: Checks): World
    requires k <= |steps|
  {
    match Run(from, steps[..k], c)
    case None => from
    case Some(w) => w
  }

  lemma {:induction false} RunsToPrefix(from: World, steps: seq<Step>, k: nat, c: Checks)
    requires k <= |steps| && Run(from, steps, c).Some?
    ensures Run(from, steps[..k], c).Some?
  {
    if k < |steps| {
      assert steps[..|steps| - 1][..k] == steps[..k];
      RunsToPrefix(from, steps[..|steps| - 1], k, c);
    } else {
      assert steps[..k] == steps;
    }
  }

  /** A stored event stays in storage until it is recorded or overflows, in every
      state of a run, if and only if no write that leaves it out lands after a reload
      that could not read storage. */
  lemma {:induction false} StoredIsLostExactly(from: World, steps: seq<Step>, to: World, c: Checks, e: Event)
    requires Inv(from, c) && Run(from, steps, c) == Some(to) && Named(to.queued)
    requires e in from.storage && c.wellFormed(e) && c.loadable(e)
    ensures (forall k | 0 <= k <= |steps| :: Safe(At(from, steps, k, c), e))
            <==> forall k | 0 <= k < |steps| :: !Forgets(At(from, steps, k, c), steps[k], e)
  {
    hide Inv, Safe, Forgets, After, Enabled;
    if steps == [] {
      assert steps[..0] == [];
      assert Safe(from, e) by {
        StoredIsSafe(from, e);
      }
    } else {
      var n := |steps| - 1;
      var mid := Run(from, steps[..n], c).value;
      assert Named(mid.queued) by {
        InvIsBase(from, c);
        RunKeepsBase(from, steps[..n], mid, c);
        StepKeepsBase(mid, steps[n], c);
      }
      StoredIsLostExactly(from, steps[..n], mid, c, e);
      RunKeepsInv(from, steps[..n], mid, c);
      assert forall k | 0 <= k <= n :: steps[..n][..k] == steps[..k];
      assert forall k | 0 <= k <= n :: At(from, steps[..n], k, c) == At(from, steps, k, c);
      assert At(from, steps, n, c) == mid && steps[..n + 1] == steps && At(from, steps, n + 1, c) == to;
      if Safe(mid, e) {
        StepForgets(mid, steps[n], c, e);
      }
    }
  }

  lemma {:induction false} StoredIsSafe(w: World, e: Event)
    requires e in w.storage
    ensures Safe(w, e)
  {
  }

  lemma {:induction false} InvIsBase(w: World, c: Checks)
    requires Inv(w, c)
    ensures Base(w, c)
  {
  }

  /** Whether storage is unread after these steps, from the steps alone: the last of
      the landings and reloads was a reload that could not read it. */
  ghost predicate UnreadAfter(unread: bool, steps: seq<Step>) {
    if steps == [] then unread
    else
      match steps[|steps| - 1]
      case Land => false
      case Reload(read) => !read
      case _ => UnreadAfter(unread, steps[..|steps| - 1])
  }

  ghost predicate NeverOverwritten(unread: bool, steps: seq<Step>) {
    forall k | 0 <= k < |steps| && steps[k].Land? :: !UnreadAfter(unread, steps[..k])
  }

  lemma {:induction false} UnreadIs(from: World, steps: seq<Step>, c: Checks)
    requires Run(from, steps, c).Some?
    ensures Run(from, steps, c).value.unread == UnreadAfter(from.unread, steps)
  {
    if steps != [] {
      UnreadIs(from, steps[..|steps| - 1], c);
    }
  }

  lemma {:induction false} NeverForgotten(from: World, steps: seq<Step>, c: Checks, e: Event)
    requires Run(from, steps, c).Some? && NeverOverwritten(from.unread, steps)
    ensures forall k | 0 <= k < |steps| :: !Forgets(At(from, steps, k, c), steps[k], e)
  {
    forall k | 0 <= k < |steps| && steps[k].Land? ensures !At(from, steps, k, c).unread {
      RunsToPrefix(from, steps, k, c);
      UnreadIs(from, steps[..k], c);
    }
  }

  /** While no write lands over storage that could not be read, a stored event is not
      lost: at the end it is in storage, recorded or overflowed. */
  lemma {:induction false} StoredIsNeverLost(from: World, steps: seq<Step>, to: World, c: Checks, e: Event)
    requires Inv(from, c) && Run(from, steps, c) == Some(to) && Named(to.queued)
    requires NeverOverwritten(from.unread, steps)
    requires e in from.storage && c.wellFormed(e) && c.loadable(e)
    ensures Safe(to, e)
  {
    hide Inv, Run, After, Enabled, NeverOverwritten, Safe, Forgets;
    NeverForgotten(from, steps, c, e);
    StoredIsLostExactly(from, steps, to, c, e);
    assert steps[..|steps|] == steps && At(from, steps, |steps|, c) == to;
  }

  ghost function Occurrences(events: seq<Event>, id: string): nat {
    if events == [] then 0
    else Occurrences(events[..|events| - 1], id) + if events[|events| - 1].id == id then 1 else 0
  }

  lemma {:induction false} DistinctOccursOnce(events: seq<Event>, id: string)
    requires DistinctIds(events)
    ensures Occurrences(events, id) == if id in Ids(events) then 1 else 0
  {
    if events != [] {
      var n := |events| - 1;
      DistinctOccursOnce(events[..n], id);
      assert forall e :: e in events <==> e in events[..n] || e == events[n];
      if id == events[n].id {
        assert events[n] in events;
        forall e | e in events[..n] ensures e.id != id {
          var k :| 0 <= k < n && events[k] == e;
        }
      }
    }
  }

  /** Exactly once. Storage is not overwritten unread: then an event that reached it,
      that the extension takes back from it, and that has left the queue without
      overflowing, stands in the event log once if it is well formed and not at all
      otherwise. */
  lemma {:induction false} StoredThenGoneIsRecordedOnce(from: World, steps: seq<Step>, to: World, c: Checks, e: Event)
    requires Inv(from, c) && Run(from, steps, c) == Some(to) && Named(to.queued)
    requires NeverOverwritten(from.unread, steps) && !UnreadAfter(from.unread, steps)
    requires e in from.storage && c.loadable(e) && e !in to.queue && e !in to.overflowed
    ensures Occurrences(to.daemon.recorded, e.id) == if c.wellFormed(e) then 1 else 0
  {
    hide Run, After, Enabled, NeverOverwritten, UnreadAfter, Accounted;
    RunKeepsInv(from, steps, to, c);
    UnreadIs(from, steps, c);
    assert e in to.queued by {
      StoredWasQueued(from, c, e);
      RunKeepsBase(from, steps, to, c);
    }
    RecordedById(to, c, e);
    if c.wellFormed(e) {
      StoredIsNeverLost(from, steps, to, c, e);
      var s := Snapshots(to);
      assert s[0] == to.storage && s[|s| - 1] == to.queue;
      assert Flows(to, c, s[0], s[|s| - 1]);
    }
    DistinctOccursOnce(to.daemon.recorded, e.id);
  }

  lemma {:induction false} StoredWasQueued(w: World, c: Checks, e: Event)
    requires Base(w, c) && e in w.storage
    ensures e in w.queued
  {
    SnapshotsOf(w);
    hide WellKept;
    assert e in Items(w.storage);
  }

  // ------------------------------------------------------- how events can be lost

  lemma {:induction false} OneMore(steps: seq<Step>, step: Step, mid: World, c: Checks)
    requires Run(START, steps, c) == Some(mid) && Enabled(mid, step)
    ensures Run(START, steps + [step], c) == Some(After(mid, step, c))
  {
    assert (steps + [step])[..|steps|] == steps;
  }

  lemma {:induction false} QueueOne(w: World, e: Event, c: Checks)
    requires w.queue == []
    ensures After(w, Queue(e), c) == w.(queue := [e], writes := w.writes + [[e]], queued := w.queued + {e})
  {
    assert Enqueued([], e) == [e];
    assert Items([]) - Items([e]) == {};
    assert w.overflowed + {} == w.overflowed;
  }

  lemma {:induction false} ReloadOne(w: World, e: Event, read: bool, c: Checks)
    requires w.queue == [e] && (w.storage == [] || (w.storage == [e] && !(read && c.loadable(e))))
    ensures After(w, Reload(read), c)
            == w.(queue := [], inFlight := None, unread := !read, writes := [], lost := w.lost + {e})
  {
    assert Select([], c.loadable) == [];
    assert [e][..0] == [];
    assert w.storage == [e] && read ==> Select([e], c.loadable) == [];
    assert Items([e]) - Items([]) == {e};
  }

  /** A reload before the write lands loses the event. */
  lemma {:induction false} ReloadLosesUnsaved(e: Event, c: Checks)
    ensures var run := Run(START, [Queue(e), Reload(true)], c);
            run.Some? && run.value.queue == [] && run.value.daemon.recorded == [] && run.value.lost == {e}
  {
    OneMore([], Queue(e), START, c);
    QueueOne(START, e, c);
    hide Run;
    assert [] + [Queue(e)] == [Queue(e)] && [Queue(e)] + [Reload(true)] == [Queue(e), Reload(true)];
    var queued := After(START, Queue(e), c);
    OneMore([Queue(e)], Reload(true), queued, c);
    ReloadOne(queued, e, true, c);
  }

  /** A stored event is forgotten when a reload cannot read storage, or reads it but
      does not take the event back, and the next write lands. */
  lemma {:induction false} ReloadForgetsStored(a: Event, b: Event, read: bool, c: Checks)
    requires a.id != b.id && !(read && c.loadable(a))
    ensures var run := Run(START, [Queue(a), Land, Reload(read), Queue(b), Land], c);
            && run.Some? && run.value.storage == [b] && run.value.queue == [b]
            && run.value.daemon.recorded == [] && run.value.overflowed == {}
  {
    var one := [Queue(a)];
    OneMore([], Queue(a), START, c);
    QueueOne(START, a, c);
    hide Run, Select, Enqueued, Loaded;
    assert [] + one == one;
    var w1 := After(START, Queue(a), c);
    assert w1.writes == [[a]] by {
      assert [] + [[a]] == [[a]];
    }
    OneMore(one, Land, w1, c);
    var w2 := After(w1, Land, c);
    assert w2.storage == [a] && w2.writes == [] && w2.queue == [a];
    OneMore(one + [Land], Reload(read), w2, c);
    ReloadOne(w2, a, read, c);
    var w3 := After(w2, Reload(read), c);
    OneMore(one + [Land] + [Reload(read)], Queue(b), w3, c);
    QueueOne(w3, b, c);
    var w4 := After(w3, Queue(b), c);
    assert w4.writes == [[b]] by {
      assert [] + [[b]] == [[b]];
    }
    OneMore(one + [Land] + [Reload(read)] + [Queue(b)], Land, w4, c);
    assert one + [Land] + [Reload(read)] + [Queue(b)] + [Land] == [Queue(a), Land, Reload(read), Queue(b), Land];
  }

  /** A malformed event is answered with success and leaves the queue unrecorded. */
  lemma {:induction false} RefusedIsDropped(e: Event, c: Checks)
    requires !c.wellFormed(e)
    ensures var run := Run(START, [Queue(e), Flush, Process(0, 1), Reply], c);
            run.Some? && run.value.queue == [] && run.value.daemon.recorded == [] && run.value.lost == {}
  {
    var one := [Queue(e)];
    OneMore([], Queue(e), START, c);
    QueueOne(START, e, c);
    hide Run, Enqueued, Loaded, Ids;
    assert [] + one == one;
    var w1 := After(START, Queue(e), c);
    OneMore(one, Flush, w1, c);
    var w2 := After(w1, Flush, c);
    assert w2.wire == [[e]] by {
      assert [] + [[e]] == [[e]];
    }
    assert w2.wire[0] == [e] && [e][..1] == [e] && [e][..0] == [];
    OneMore(one + [Flush], Process(0, 1), w2, c);
    var w3 := After(w2, Process(0, 1), c);
    assert AcceptAll(START.daemon, [e], c.wellFormed) == START.daemon;
    assert w3.completed == {0} && w3.daemon == START.daemon && w3.wire[0] == [e] && w3.queue == [e];
    OneMore(one + [Flush] + [Process(0, 1)], Reply, w3, c);
    assert e.id in Ids([e]) by {
      IdIn(e);
    }
    assert Without([e], Ids([e])) == [];
    assert one + [Flush] + [Process(0, 1)] + [Reply] == [Queue(e), Flush, Process(0, 1), Reply];
  }

  lemma {:induction false} IdIn(e: Event)
    ensures e.id in Ids([e])
  {
  }
}
