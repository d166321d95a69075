/** Requests sent to the relay and the promises that wait for their answers.
  *
  * `pending` maps a request id to the promise registered last under it.  A promise is known by its
  * serial number, so that two requests with the same id stay apart.
  */
module RelayRequests {
  datatype Requests = Requests(
    pending: map<int, nat>,   // request id -> promise
    timers: map<nat, int>,    // armed timeouts: promise -> request id
    ids: seq<int>,            // history: the request id of every promise made
    settled: multiset<nat>    // history: how often each promise was settled
  )

  datatype Event =
    | Request(id: int, sendOk: bool)
    | Response(id: int)
    | Timeout(promise: nat)
    | Closed

  const INIT: Requests := Requests(map[], map[], [], multiset{})

  function Settle(s: Requests, p: nat): Requests {
    s.(timers := s.timers - {p}, settled := s.settled + multiset{p})
  }

  function Send(s: Requests, id: int, sendOk: bool): Requests {
    var p := |s.ids|;
    var s' := s.(pending := s.pending[id := p], timers := s.timers[p := id], ids := s.ids + [id]);
    if sendOk then s' else Settle(s'.(pending := s'.pending - {id}), p)
  }

  function Step(s: Requests, e: Event): Requests {
    match e
    case Request(id, sendOk) => Send(s, id, sendOk)
    case Response(id) =>
      if id !in s.pending then s else Settle(s.(pending := s.pending - {id}), s.pending[id])
    case Timeout(p) =>
      if p !in s.timers then s else Settle(s.(pending := s.pending - {s.timers[p]}), p)
    case Closed =>
      var waiting := set id | id in s.pending :: s.pending[id];
      s.(pending := map[], timers := s.timers - waiting, settled := s.settled + multiset(waiting))
  }

  function Run(s: Requests, events: seq<Event>): Requests
    decreases |events|
  {
    if events == [] then s else Run(Step(s, events[0]), events[1..])
  }

  // Each promise has either been settled once and is forgotten, or not at all, and then it is pending
  // under its id with its timeout armed; nothing else is pending or armed.
  ghost predicate Exact(s: Requests) {
    && (forall p | 0 <= p < |s.ids| ::
          if p in s.timers then s.settled[p] == 0 && s.ids[p] in s.pending && s.pending[s.ids[p]] == p
          else s.settled[p] == 1)
    && (forall p | p in s.timers :: p < |s.ids| && s.timers[p] == s.ids[p])
    && (forall id | id in s.pending :: s.pending[id] in s.timers && s.timers[s.pending[id]] == id)
    && (forall p | p in s.settled :: p < |s.ids|)
  }

  // Whatever ids are used, each entry is a promise made for its id whose timeout is armed.
  ghost predicate Registered(s: Requests) {
    forall id | id in s.pending ::
      s.pending[id] < |s.ids| && s.pending[id] in s.timers && s.timers[s.pending[id]] == id
  }

  lemma {:induction false} RegisteredStep(s: Requests, e: Event)
    requires Registered(s)
    ensures Registered(Step(s, e))
  {
  }

  // The promise was settled once more, it waits no longer, and all others are as they were.
  ghost predicate SettledNow(s: Requests, s': Requests, id: int, p: nat) {
    && s'.settled[p] == s.settled[p] + 1 && p !in s'.timers && id !in s'.pending
    && (forall q | q != p :: s'.settled[q] == s.settled[q] && (q in s'.timers <==> q in s.timers))
    && s'.pending == s.pending - {id}
  }

  // The answer to a waiting request, its timeout and a send that fails each settle its promise; an answer or a timeout
  // of any other changes nothing.
  lemma {:induction false} SettlesOne(s: Requests, id: int)
    requires Registered(s)
    ensures id in s.pending ==>
              SettledNow(s, Step(s, Response(id)), id, s.pending[id]) &&
              Step(s, Timeout(s.pending[id])) == Step(s, Response(id))
    ensures id !in s.pending ==> Step(s, Response(id)) == s
    ensures forall p | p !in s.timers :: Step(s, Timeout(p)) == s
    ensures SettledNow(s, Step(s, Request(id, false)), id, |s.ids|)
    ensures var s' := Step(s, Request(id, true));
      && s'.pending == s.pending[id := |s.ids|] && s'.timers == s.timers[|s.ids| := id]
      && s'.ids == s.ids + [id] && s'.settled == s.settled
  {
  }

  // The request reuses the id of one that still waits.
  predicate Clashes(s: Requests, e: Event) {
    e.Request? && e.id in s.pending
  }

  lemma {:induction false} SendKeeps(s: Requests, id: int, sendOk: bool)
    requires Exact(s) && id !in s.pending
    ensures Exact(Send(s, id, sendOk))
  {
    if sendOk {
      SentKeeps(s, id);
    } else {
      FailedSendKeeps(s, id);
    }
  }

  // The request waits, with its timeout.
  lemma {:induction false} SentKeeps(s: Requests, id: int)
    requires Exact(s) && id !in s.pending
    ensures Exact(Send(s, id, true))
  {
    var p, s' := |s.ids|, Send(s, id, true);
    assert p !in s.timers && p !in s.settled;
    forall q | 0 <= q < |s'.ids|
      ensures if q in s'.timers then s'.settled[q] == 0 && s'.ids[q] in s'.pending && s'.pending[s'.ids[q]] == q
              else s'.settled[q] == 1
    {
      if q < p { assert s'.ids[q] == s.ids[q]; }
    }
    forall other | other in s'.pending ensures s'.pending[other] in s'.timers && s'.timers[s'.pending[other]] == other {
      if other != id { assert s.pending[other] != p; }
    }
  }

  // The request is settled at once.
  lemma {:induction false} FailedSendKeeps(s: Requests, id: int)
    requires Exact(s) && id !in s.pending
    ensures Exact(Send(s, id, false))
  {
    var p, s' := |s.ids|, Send(s, id, false);
    assert p !in s.timers && p !in s.settled;
    assert s'.pending == s.pending && s'.timers == s.timers;
    forall q | 0 <= q < |s'.ids|
      ensures if q in s'.timers then s'.settled[q] == 0 && s'.ids[q] in s'.pending && s'.pending[s'.ids[q]] == q
              else s'.settled[q] == 1
    {
      if q < p { assert s'.ids[q] == s.ids[q]; }
    }
  }

  // Sending again under a waiting id overwrites or deletes the entry of the promise that waits.
  lemma {:induction false} SendClashes(s: Requests, id: int, sendOk: bool)
    requires Exact(s) && id in s.pending
    ensures !Exact(Send(s, id, sendOk))
  {
    var s' := Send(s, id, sendOk);
    var q := s.pending[id];
    assert s'.ids[q] == s.ids[q] == id && q in s'.timers;
  }

  // Every event keeps the account exact but a request under an id that still waits.
  lemma {:induction false} ExactStep(s: Requests, e: Event)
    requires Exact(s)
    ensures Exact(Step(s, e)) <==> !Clashes(s, e)
  {
    match e
    case Request(id, sendOk) => if id in s.pending { SendClashes(s, id, sendOk); } else { SendKeeps(s, id, sendOk); }
    case Response(id) => if id in s.pending { SettleExact(s, id); }
    case Timeout(p) => if p in s.timers { SettleExact(s, s.timers[p]); }
    case Closed => CloseExact(s);
  }

  // Answering or timing out settles the promise registered under the id.
  lemma {:induction false} SettleExact(s: Requests, id: int)
    requires Exact(s) && id in s.pending
    ensures Exact(Settle(s.(pending := s.pending - {id}), s.pending[id]))
  {
  }

  lemma {:induction false} CloseExact(s: Requests)
    requires Exact(s)
    ensures Exact(Step(s, Closed)) && Step(s, Closed).timers == map[]
  {
  }

  ghost predicate DistinctIds(used: seq<int>, events: seq<Event>)
    decreases |events|
  {
    events == [] ||
    ((events[0].Request? ==> events[0].id !in used) &&
     DistinctIds(if events[0].Request? then used + [events[0].id] else used, events[1..]))
  }

  lemma {:induction false} PendingIdsUsed(s: Requests)
    requires Exact(s)
    ensures forall id | id in s.pending :: id in s.ids
  {
  }

  lemma {:induction false} ExactRun(s: Requests, events: seq<Event>)
    requires Exact(s) && DistinctIds(s.ids, events)
    ensures Exact(Run(s, events))
    decreases |events|
  {
    if events != [] {
      var e := events[0];
      PendingIdsUsed(s);
      ExactStep(s, e);
      assert Step(s, e).ids == if e.Request? then s.ids + [e.id] else s.ids;
      ExactRun(Step(s, e), events[1..]);
    }
  }

  // With distinct ids, in any order of responses, timeouts, send failures and closes, no request is
  // settled twice, and those not settled are exactly the pending ones and the ones with a timeout.
  lemma {:induction false} SettledAtMostOnce(events: seq<Event>, p: nat)
    requires DistinctIds([], events) && p < |Run(INIT, events).ids|
    ensures var s := Run(INIT, events);
      && s.settled[p] <= 1
      && (s.settled[p] == 0 <==> p in s.timers)
      && (p in s.timers <==> s.ids[p] in s.pending && s.pending[s.ids[p]] == p)
      && |s.pending| == |s.timers|
  {
    ExactRun(INIT, events);
    Account(Run(INIT, events), p);
  }

  lemma {:induction false} Account(s: Requests, p: nat)
    requires Exact(s) && p < |s.ids|
    ensures s.settled[p] <= 1 && (s.settled[p] == 0 <==> p in s.timers)
    ensures p in s.timers <==> s.ids[p] in s.pending && s.pending[s.ids[p]] == p
    ensures |s.pending| == |s.timers|
  {
    var id := s.ids[p];
    if id in s.pending { assert s.pending[id] in s.timers; }
    Bijection(s.pending, s.timers);
  }

  // A close settles everything: afterwards each request was settled exactly once.
  lemma {:induction false} CloseSettlesAll(events: seq<Event>, p: nat)
    requires DistinctIds([], events) && p < |Run(INIT, events).ids|
    ensures var s := Step(Run(INIT, events), Closed);
      s.settled[p] == 1 && s.pending == map[] && s.timers == map[]
  {
    ExactRun(INIT, events);
    CloseExact(Run(INIT, events));
  }

  // Two maps that are each other's inverse have the same size.
  lemma {:induction false} Bijection(m: map<int, nat>, n: map<nat, int>)
    requires forall id | id in m :: m[id] in n && n[m[id]] == id
    requires forall p | p in n :: n[p] in m && m[n[p]] == p
    ensures |m| == |n|
    decreases |m|
  {
    assert forall p | p in n :: n[p] in m;
    if exists id :: id in m {
      var id :| id in m;
      Bijection(m - {id}, n - {m[id]});
    } else {
      assert forall id :: id !in m;
      assert forall p: nat :: p !in n;
      assert n.Keys == {};
      assert m.Keys == {};
    }
  }

  // A clash: the first request's timeout removes the second's entry, whose answer is then dropped and
  // which a close no longer settles.
  lemma {:induction false} ClashLosesAnswer()
    ensures
      var s := Run(INIT, [Request(1, true), Request(1, true), Timeout(0), Response(1), Closed]);
      s.settled == multiset{0} && s.pending == map[] && 1 in s.timers
  {
  }

  // ---- The extension's variables ----

  class Requester {
    var pending: map<int, nat>
    var timers: map<nat, int>
    ghost var ids: seq<int>
    ghost var settled: multiset<nat>
    var made: nat

    ghost function Abs(): Requests
      reads this
    {
      Requests(pending, timers, ids, settled)
    }

    ghost predicate Valid()
      reads this
    {
      made == |ids| && Registered(Abs())
    }

    constructor ()
      ensures Abs() == INIT && Valid()
    {
      pending, timers, ids, settled, made := map[], map[], [], multiset{}, 0;
    }

    // The resolve and reject of an entry: clear the timeout, settle the promise.
    method SettlePromise(p: nat)
      modifies this`timers, this`settled
      ensures Abs() == Settle(old(Abs()), p)
    {
      timers := timers - {p};
      settled := settled + multiset{p};
    }

    method RequestFromRelay(id: int, sendOk: bool) returns (p: nat)
      requires Valid()
      modifies this
      ensures Abs() == Send(old(Abs()), id, sendOk) && Valid() && p == |old(ids)|
    {
      p := made;
      made := made + 1;
      ids := ids + [id];
      timers := timers[p := id];
      pending := pending[id := p];
      if !sendOk {
        pending := pending - {id};
        SettlePromise(p);
      }
    }

    method OnResponse(id: int)
      requires Valid()
      modifies this
      ensures Abs() == Step(old(Abs()), Response(id)) && Valid()
    {
      if id !in pending { return; }
      var p := pending[id];
      pending := pending - {id};
      SettlePromise(p);
    }

    method OnTimeout(p: nat)
      requires Valid() && p in timers
      modifies this
      ensures Abs() == Step(old(Abs()), Timeout(p)) && Valid()
    {
      pending := pending - {timers[p]};
      SettlePromise(p);
    }

    // onRelayClosed's loop over the pending requests.
    method OnClosed()
      requires Valid()
      modifies this
      ensures Abs() == Step(old(Abs()), Closed) && Valid()
    {
      ghost var start := Abs();
      ghost var gone: set<nat> := {};
      while pending != map[]
        invariant Halfway(start, Abs(), gone)
        invariant made == old(made)
        decreases |pending|
      {
        gone := RejectOne(start, gone);
      }
      HalfwayDone(start, Abs(), gone);
    }

    method RejectOne(ghost start: Requests, ghost gone: set<nat>) returns (ghost more: set<nat>)
      requires Registered(start) && Halfway(start, Abs(), gone) && pending != map[]
      modifies this`pending, this`timers, this`settled
      ensures Halfway(start, Abs(), more) && |pending| < old(|pending|)
    {
      NoEntries(pending);
      var id :| id in pending;
      HalfwayStep(start, Abs(), gone, id);
      var p := pending[id];
      pending := pending - {id};
      SettlePromise(p);
      more := gone + {p};
    }
  }

  // A close part-way through its loop, with the promises of `gone` settled.
  ghost predicate Halfway(s: Requests, now: Requests, gone: set<nat>) {
    && (forall id | id in now.pending :: id in s.pending && now.pending[id] == s.pending[id] && s.pending[id] !in gone)
    && (forall id | id in s.pending && id !in now.pending :: s.pending[id] in gone)
    && (forall p | p in gone :: p in s.timers && s.timers[p] in s.pending && s.pending[s.timers[p]] == p)
    && now.ids == s.ids && now.timers == s.timers - gone && now.settled == s.settled + multiset(gone)
  }

  lemma {:induction false} HalfwayStep(s: Requests, now: Requests, gone: set<nat>, id: int)
    requires Registered(s) && Halfway(s, now, gone) && id in now.pending
    ensures Halfway(s, Settle(now.(pending := now.pending - {id}), now.pending[id]), gone + {now.pending[id]})
  {
    OnlyOne(s, id);
    assert multiset(gone + {now.pending[id]}) == multiset(gone) + multiset{now.pending[id]};
  }

  lemma {:induction false} HalfwayDone(s: Requests, now: Requests, gone: set<nat>)
    requires Registered(s) && Halfway(s, now, gone) && now.pending == map[]
    ensures now == Step(s, Closed)
  {
    var waiting := set id | id in s.pending :: s.pending[id];
    forall p | p in gone ensures p in waiting {
      var id := s.timers[p];
      assert id in s.pending && s.pending[id] == p;
    }
    assert gone == waiting;
  }

  lemma {:induction false} NoEntries(m: map<int, nat>)
    ensures m == map[] <==> forall id :: id !in m
  {
    if forall id :: id !in m { assert m.Keys == {}; }
  }

  lemma {:induction false} OnlyOne(s: Requests, id: int)
    requires Registered(s) && id in s.pending
    ensures forall other | other in s.pending && s.pending[other] == s.pending[id] :: other == id
  {
  }
}
