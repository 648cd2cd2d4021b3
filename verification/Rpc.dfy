/** The extension's request table: ids, timers and promises under every
    interleaving of sends, replies, timeouts and disconnects.

    Promises are numbered by call. `settled` counts the calls of each promise's
    resolve and reject functions; `resolved` remembers which were resolved.
 */
module Rpc {
  import opened Wrappers

  datatype State = State(
    nextId: int, pending: map<int, nat>, timers: map<nat, int>,
    calls: nat, settled: multiset<nat>, resolved: set<nat>)

  /** A message from the native host: not an object, or an object with or without a
      numeric id and with or without an error object. */
  datatype Message = NotAnObject | Object(id: Option<int>, error: bool)

  datatype Step =
    | Send(connects: bool, posts: bool)
    | Receive(message: Message)
    | Timeout(promise: nat)
    | Disconnect

  const INITIAL := State(1, map[], map[], 0, multiset{}, {})

  function NextId(id: int): int {
    if id + 1 > 9_007_199_254_740_990 then 1 else id + 1
  }

  function Settle(s: State, promise: nat): State {
    s.(settled := s.settled + multiset{promise})
  }

  /** Clear the promise's timer and forget the id. */
  function Release(s: State, id: int, promise: nat): State {
    s.(pending := s.pending - {id}, timers := s.timers - {promise})
  }

  function Held(pending: map<int, nat>): set<nat> {
    set id | id in pending :: pending[id]
  }

  function RejectAll(s: State): State {
    s.(pending := map[], timers := s.timers - Held(s.pending), settled := s.settled + multiset(Held(s.pending)))
  }

  function SendRpc(s: State, connects: bool, posts: bool): State {
    var promise := s.calls;
    var called := s.(calls := s.calls + 1);
    if !connects then Settle(called, promise)
    else
      var id := s.nextId;
      var registered := called.(nextId := NextId(id), timers := s.timers[promise := id],
          pending := s.pending[id := promise]);
      if posts then registered else Settle(Release(registered, id, promise), promise)
  }

  function HandleMessage(s: State, message: Message): State {
    match message
    case NotAnObject => RejectAll(s)
    case Object(Some(id), error) =>
      if id !in s.pending then s
      else
        var promise := s.pending[id];
        var settled := Settle(Release(s, id, promise), promise);
        if error then settled else settled.(resolved := settled.resolved + {promise})
    case Object(None, error) => if error then RejectAll(s) else s
  }

  /** The timer callback deletes its own id, whoever holds it by then. */
  function FireTimer(s: State, promise: nat): State {
    if promise !in s.timers then s
    else Settle(Release(s, s.timers[promise], promise), promise)
  }

  function After(s: State, step: Step): State {
    match step
    case Send(connects, posts) => SendRpc(s, connects, posts)
    case Receive(message) => HandleMessage(s, message)
    case Timeout(promise) => FireTimer(s, promise)
    case Disconnect => RejectAll(s)
  }

  function Run(s: State, steps: seq<Step>): State {
    if steps == [] then s else After(Run(s, steps[..|steps| - 1]), steps[|steps| - 1])
  }

  // ------------------------------------------------------------------- the class

  class Client {
    var nextId: int
    var pending: map<int, nat>
    var timers: map<nat, int>
    var calls: nat
    ghost var settled: multiset<nat>
    ghost var resolved: set<nat>

    ghost function Now(): State
      reads this
    {
      State(nextId, pending, timers, calls, settled, resolved)
    }

    constructor ()
      ensures Now() == INITIAL
    {
      nextId, pending, timers, calls, settled, resolved := 1, map[], map[], 0, multiset{}, {};
    }

    static method AnyOf<T(==)>(ids: set<T>) returns (id: T)
      requires ids != {}
      ensures id in ids
    {
      id :| id in ids;
    }

    method RejectAllPending()
      requires Tracked(Now())
      modifies this
      ensures Now() == RejectAll(old(Now()))
    {
      hide RejectAll, Tracked;
      var ids := pending.Keys;
      while ids != {}
        invariant ids == pending.Keys && Tracked(Now()) && RejectAll(Now()) == RejectAll(old(Now()))
        decreases ids
      {
        var id := AnyOf(ids);
        var promise := pending[id];
        RejectOneThenAll(Now(), id);
        timers := timers - {promise};
        settled := settled + multiset{promise};
        pending := pending - {id};
        ids := ids - {id};
      }
      RejectNone(Now());
    }

    method SendRequest(connects: bool, posts: bool) returns (promise: nat)
      modifies this
      ensures promise == old(calls) && Now() == SendRpc(old(Now()), connects, posts)
    {
      promise := calls;
      calls := calls + 1;
      if !connects {
        settled := settled + multiset{promise};
        return;
      }
      var id := nextId;
      nextId := nextId + 1;
      if nextId > 9_007_199_254_740_990 {
        nextId := 1;
      }
      timers := timers[promise := id];
      pending := pending[id := promise];
      if !posts {
        timers := timers - {promise};
        pending := pending - {id};
        settled := settled + multiset{promise};
      }
    }

    method HandleNativeMessage(message: Message)
      requires Tracked(Now())
      modifies this
      ensures Now() == HandleMessage(old(Now()), message)
    {
      match message
      case NotAnObject =>
        RejectAllPending();
      case Object(Some(id), error) =>
        if id in pending {
          var promise := pending[id];
          pending := pending - {id};
          timers := timers - {promise};
          settled := settled + multiset{promise};
          if !error {
            resolved := resolved + {promise};
          }
        }
      case Object(None, error) =>
        if error {
          RejectAllPending();
        }
    }

    method OnTimeout(promise: nat)
      modifies this
      ensures Now() == FireTimer(old(Now()), promise)
    {
      if promise in timers {
        pending := pending - {timers[promise]};
        timers := timers - {promise};
        settled := settled + multiset{promise};
      }
    }
  }

  // ------------------------------------------------------------------ invariants

  /** A held id belongs to a promise whose own timer carries that id. */
  ghost predicate Tracked(s: State) {
    forall id | id in s.pending :: s.pending[id] in s.timers && s.timers[s.pending[id]] == id
  }

  /** Every promise handed out is unsettled with a live timer, or settled once with
      none. */
  ghost predicate SettledOnce(s: State) {
    && (forall p: nat | p < s.calls :: s.settled[p] == if p in s.timers then 0 else 1)
    && (forall p: nat | p >= s.calls :: s.settled[p] == 0 && p !in s.timers)
  }

  /** The table and the timers agree: a live timer means the request is pending. */
  ghost predicate Matched(s: State) {
    forall p | p in s.timers :: s.timers[p] in s.pending && s.pending[s.timers[p]] == p
  }

  lemma {:induction false} OneHolder(s: State, id: int)
    requires Tracked(s) && id in s.pending
    ensures Held(s.pending) == Held(s.pending - {id}) + {s.pending[id]}
    ensures s.pending[id] !in Held(s.pending - {id})
  {
    forall p | p in Held(s.pending) ensures p in Held(s.pending - {id}) + {s.pending[id]} {
      var k :| k in s.pending && s.pending[k] == p;
      if k != id {
        assert k in s.pending - {id};
      }
    }
    forall p | p in Held(s.pending - {id}) ensures p in Held(s.pending) && p != s.pending[id] {
      var k :| k in s.pending - {id} && (s.pending - {id})[k] == p;
      assert k in s.pending && s.pending[k] == p && s.timers[p] == k;
    }
  }

  /** Rejecting the pending requests one at a time, in any order, rejects them all. */
  lemma {:induction false} RejectOneThenAll(s: State, id: int)
    requires Tracked(s) && id in s.pending
    ensures var one := Settle(Release(s, id, s.pending[id]), s.pending[id]);
            Tracked(one) && RejectAll(one) == RejectAll(s)
  {
    OneHolder(s, id);
    var promise := s.pending[id];
    var rest := Held(s.pending - {id});
    hide Held;
    assert s.timers - {promise} - rest == s.timers - (rest + {promise});
    assert multiset{promise} + multiset(rest) == multiset(rest + {promise});
  }

  lemma {:induction false} RejectNone(s: State)
    requires s.pending.Keys == {}
    ensures RejectAll(s) == s
  {
    assert s.pending == map[] && Held(s.pending) == {};
  }

  lemma {:induction false} RejectAllKeeps(s: State)
    requires Tracked(s) && SettledOnce(s)
    ensures Tracked(RejectAll(s)) && SettledOnce(RejectAll(s))
    ensures Matched(s) ==> RejectAll(s).timers == map[]
  {
    var r, held := RejectAll(s), Held(s.pending);
    assert forall p | p in held :: p in s.timers;
    hide Held;
    forall p: nat ensures r.settled[p] == s.settled[p] + if p in held then 1 else 0 {
      var once: multiset<nat> := multiset(held);
      assert once[p] == if p in held then 1 else 0;
    }
    if Matched(s) {
      MatchedTimersAreHeld(s);
    }
  }

  lemma {:induction false} HeldIntro(pending: map<int, nat>, id: int)
    requires id in pending
    ensures pending[id] in Held(pending)
  {
  }

  lemma {:induction false} MatchedTimersAreHeld(s: State)
    requires Matched(s)
    ensures forall p | p in s.timers :: p in Held(s.pending)
  {
    forall p | p in s.timers ensures p in Held(s.pending) {
      HeldIntro(s.pending, s.timers[p]);
    }
  }

  lemma {:induction false} StepKeeps(s: State, step: Step)
    requires Tracked(s) && SettledOnce(s)
    ensures Tracked(After(s, step)) && SettledOnce(After(s, step))
    ensures Matched(s) && (step.Send? ==> s.nextId !in s.pending) ==> Matched(After(s, step))
  {
    RejectAllKeeps(s);
    match step
    case Send(connects, posts) =>
      SendKeeps(s, connects, posts);
    case Receive(message) =>
      hide RejectAll;
      if message.Object? && message.id.Some? && message.id.value in s.pending {
        ReleaseKeeps(s, message.id.value, s.pending[message.id.value]);
      }
    case Timeout(promise) =>
      hide RejectAll;
      if promise in s.timers {
        ReleaseKeeps(s, s.timers[promise], promise);
      }
    case Disconnect =>
  }

  lemma {:induction false} ReleaseKeeps(s: State, id: int, promise: nat)
    requires Tracked(s) && SettledOnce(s) && promise in s.timers && s.timers[promise] == id
    ensures var r := Settle(Release(s, id, promise), promise);
            Tracked(r) && SettledOnce(r) && (Matched(s) ==> Matched(r))
  {
  }

  lemma {:induction false} SendKeeps(s: State, connects: bool, posts: bool)
    requires Tracked(s) && SettledOnce(s)
    ensures var r := SendRpc(s, connects, posts);
            Tracked(r) && SettledOnce(r) && (Matched(s) && s.nextId !in s.pending ==> Matched(r))
  {
  }

  /** Over every interleaving from the start, id wrap-around included, no promise is
      settled twice, and one is unsettled exactly as long as its timer is live. */
  lemma {:induction false} SettlesExactlyOnce(steps: seq<Step>)
    ensures Tracked(Run(INITIAL, steps)) && SettledOnce(Run(INITIAL, steps))
  {
    if steps != [] {
      var n := |steps| - 1;
      SettlesExactlyOnce(steps[..n]);
      StepKeeps(Run(INITIAL, steps[..n]), steps[n]);
    }
  }

  /** Once every timer has fired or been cleared, every call has settled once. */
  lemma {:induction false} QuietMeansSettled(steps: seq<Step>)
    requires Run(INITIAL, steps).timers == map[]
    ensures forall p: nat | p < Run(INITIAL, steps).calls :: Run(INITIAL, steps).settled[p] == 1
  {
    SettlesExactlyOnce(steps);
  }

  /** No request is given an id that is still pending. */
  ghost predicate NoWrap(steps: seq<Step>) {
    forall k | 0 <= k < |steps| && steps[k].Send? ::
        Run(INITIAL, steps[..k]).nextId !in Run(INITIAL, steps[..k]).pending
  }

  /** Without such a collision each request is in one of two states: pending,
      unsettled and with a live timer for its id; or absent, settled once and with
      no timer. */
  lemma {:induction false} PendingOrSettled(steps: seq<Step>)
    requires NoWrap(steps)
    ensures Matched(Run(INITIAL, steps))
    ensures var s := Run(INITIAL, steps);
            forall p: nat | p < s.calls ::
              if p in s.timers
              then s.timers[p] in s.pending && s.pending[s.timers[p]] == p && s.settled[p] == 0
              else p !in Held(s.pending) && s.settled[p] == 1
  {
    SettlesExactlyOnce(steps);
    if steps != [] {
      var n := |steps| - 1;
      forall k | 0 <= k < n && steps[..n][k].Send?
        ensures Run(INITIAL, steps[..n][..k]).nextId !in Run(INITIAL, steps[..n][..k]).pending
      {
        assert steps[..n][..k] == steps[..k];
      }
      PendingOrSettled(steps[..n]);
      SettlesExactlyOnce(steps[..n]);
      StepKeeps(Run(INITIAL, steps[..n]), steps[n]);
    }
  }

  /** A reply to an id that is not pending, late or unknown, changes nothing. */
  lemma {:induction false} UnknownReplyIgnored(s: State, id: int, error: bool)
    requires id !in s.pending
    ensures After(s, Receive(Object(Some(id), error))) == s
  {
  }

  /** A reply settles the request with its id and no other. */
  lemma {:induction false} ReplySettlesItsRequest(s: State, id: int, error: bool)
    requires Tracked(s) && SettledOnce(s) && id in s.pending
    ensures var r := After(s, Receive(Object(Some(id), error)));
            && r.pending == s.pending - {id}
            && r.settled[s.pending[id]] == s.settled[s.pending[id]] + 1
            && (s.pending[id] in r.resolved <==> !error || s.pending[id] in s.resolved)
            && (forall p: nat | p != s.pending[id] ::
                  r.settled[p] == s.settled[p] && (p in r.timers <==> p in s.timers)
                  && (p in r.resolved <==> p in s.resolved))
  {
  }

  ghost function Sends(steps: seq<Step>): nat {
    if steps == [] then 0
    else Sends(steps[..|steps| - 1]) + if steps[|steps| - 1].Send? then 1 else 0
  }

  ghost predicate IdsBelow(s: State) {
    forall id | id in s.pending :: 1 <= id < s.nextId
  }

  lemma {:induction false} IdsGrow(steps: seq<Step>)
    requires Sends(steps) < 9_007_199_254_740_989
    ensures IdsBelow(Run(INITIAL, steps)) && 1 <= Run(INITIAL, steps).nextId <= Sends(steps) + 1
  {
    if steps != [] {
      var n := |steps| - 1;
      IdsGrow(steps[..n]);
      hide Run;
      assert IdsBelow(After(Run(INITIAL, steps[..n]), steps[n]));
    }
  }

  lemma {:induction false} SendsMonotone(steps: seq<Step>, k: nat)
    requires k <= |steps|
    ensures Sends(steps[..k]) <= Sends(steps)
    decreases |steps|
  {
    if k < |steps| {
      assert steps[..|steps| - 1][..k] == steps[..k];
      SendsMonotone(steps[..|steps| - 1], k);
    } else {
      assert steps[..k] == steps;
    }
  }

  /** The first nine quadrillion requests cannot collide. */
  lemma {:induction false} NoWrapInPractice(steps: seq<Step>)
    requires Sends(steps) < 9_007_199_254_740_989
    ensures NoWrap(steps)
  {
    forall k | 0 <= k < |steps| && steps[k].Send?
      ensures Run(INITIAL, steps[..k]).nextId !in Run(INITIAL, steps[..k]).pending
    {
      SendsMonotone(steps, k);
      IdsGrow(steps[..k]);
    }
  }
}
