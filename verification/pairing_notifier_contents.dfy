/** What a command and a tick make of the subscribers and marks, in the terms of their fields. */
module PairingNotifierContents {
  import opened Basics
  import opened Text
  import opened PairingNotifier
  import opened PairingNotifierTheorems

  // ---- Keys ----

  // Without a bar in the recipient and the account, equal keys mean equal addresses.
  lemma {:induction false} KeyInjective(a: Address, b: Address)
    requires '|' !in a.to && '|' !in b.to && '|' !in a.accountId && '|' !in b.accountId && Key(a) == Key(b)
    ensures a == b
  {
    TwoBars(a);
    TwoBars(b);
    hide *;
    var parts := Split(Key(a), '|');
    assert parts[0] == a.to == b.to && parts[1] == a.accountId == b.accountId;
  }

  lemma {:induction false} TwoBars(a: Address)
    requires '|' !in a.to && '|' !in a.accountId
    ensures Split(Key(a), '|') == [a.to, a.accountId] + Split(a.thread, '|')
    ensures a.thread == Key(a)[|a.to| + |a.accountId| + 2..]
  {
    hide Split;
    assert Key(a) == a.to + ['|'] + (a.accountId + ['|'] + a.thread);
    SplitPrefix(a.to, a.accountId + ['|'] + a.thread, '|');
    SplitPrefix(a.accountId, a.thread, '|');
  }

  // The entry is for the chat, account and thread of the command.
  predicate Concerns(x: Subscriber, address: Address) {
    x.address.to + "|" + x.address.accountId + "|" + x.address.thread ==
    address.to + "|" + address.accountId + "|" + address.thread
  }

  // ---- Reading ----

  // Each entry of the file whose recipient is not blank is read with its texts trimmed, in the order of the file, and
  // one whose recipient is blank is left out.
  lemma {:induction false} EntriesRead(first: seq<Subscriber>, x: Subscriber, rest: seq<Subscriber>)
    ensures NormalSubscribers([]) == []
    ensures NormalSubscribers(first + [x] + rest) ==
            NormalSubscribers(first) +
            (if Trim(x.address.to) == "" then []
             else [Subscriber(Address(Trim(x.address.to), Trim(x.address.accountId), x.address.thread), x.once,
                              x.addedAtMs)]) +
            NormalSubscribers(rest)
    decreases |first|
  {
    hide Trim;
    var all := first + [x] + rest;
    if first == [] {
      assert all == [x] + rest && all[1..] == rest;
    } else {
      assert all[0] == first[0] && all[1..] == first[1..] + [x] + rest;
      EntriesRead(first[1..], x, rest);
    }
  }

  // A mark is read when its id is not blank and its time is positive.
  lemma {:induction false} MarksRead(file: NotifyState, id: string)
    ensures var marks := Normalize(file).notified;
      && (id in marks <==> id in file.notified && Trim(id) != "" && file.notified[id] > 0)
      && (id in marks ==> marks[id] == file.notified[id])
  {
    hide NormalSubscribers;
    hide Trim;
  }

  // ---- Commands ----

  lemma {:induction false} FirstConcerned(xs: seq<Subscriber>, address: Address, j: nat)
    requires Distinct(Keys(xs)) && j < |xs|
    ensures Concerns(xs[j], address) <==> j == Find(xs, Key(address))
  {
    var i, ks := Find(xs, Key(address)), Keys(xs);
    if i < |xs| && Concerns(xs[j], address) { assert ks[i] == ks[j]; }
  }

  lemma {:induction false} UnsubscribeReadBack(file: NotifyState, address: Address)
    ensures var xs := Normalize(file).subscribers; var i := Find(xs, Key(address));
      Normalize(Unsubscribe(file, address)).subscribers == if i == |xs| then xs else xs[..i] + xs[i + 1..]
  {
    NormalizedNormal(file.subscribers);
    hide Trim;
    hide NormalMarks;
    hide Find;
    hide Key;
    var xs := Normalize(file).subscribers;
    var i := Find(xs, Key(address));
    if i < |xs| {
      assert AllNormal(xs[..i] + xs[i + 1..]);
      NormalFixed(xs[..i] + xs[i + 1..]);
    }
  }

  // With distinct keys, unsubscribing keeps exactly the entries of other keys, in their order, and all marks.
  lemma {:induction false} UnsubscribeKeeps(file: NotifyState, address: Address)
    requires DistinctKeys(file)
    ensures Normalize(Unsubscribe(file, address)).subscribers ==
            Kept(Normalize(file).subscribers, x => !Concerns(x, address))
    ensures Normalize(Unsubscribe(file, address)).notified == Normalize(file).notified
  {
    var xs := Normalize(file).subscribers;
    assert Distinct(Keys(xs));
    hide *;
    MarksKept(file, address, Subscriber(address, true, 0));
    UnsubscribeReadBack(file, address);
    var i, keep := Find(xs, Key(address)), x => !Concerns(x, address);
    forall j: nat | j < |xs| ensures keep(xs[j]) <==> j != i {
      FirstConcerned(xs, address, j);
    }
    if i < |xs| { KeptBut(xs, i, keep); } else { KeptAll(xs, keep); }
  }

  lemma {:induction false} MarksKept(file: NotifyState, address: Address, next: Subscriber)
    ensures Normalize(Unsubscribe(file, address)).notified == Normalize(file).notified
    ensures Normalize(Subscribe(file, next)).notified == Normalize(file).notified
  {
    hide *;
    UnsubscribeMarks(file, address);
    SubscribeMarks(file, next);
  }

  lemma {:induction false} UnsubscribeMarks(file: NotifyState, address: Address)
    ensures Normalize(Unsubscribe(file, address)).notified == Normalize(file).notified
  {
    CommandKeepsMarks(file, Off(address));
    hide Normalize;
    hide Unsubscribe;
  }

  lemma {:induction false} SubscribeMarks(file: NotifyState, next: Subscriber)
    ensures Normalize(Subscribe(file, next)).notified == Normalize(file).notified
  {
    var e := if next.once then Once(next.address, next.addedAtMs) else On(next.address, next.addedAtMs);
    CommandKeepsMarks(file, e);
    hide Normalize;
    hide Subscribe;
  }

  // The entry of a command, as it is read back.
  function Stored(next: Subscriber): Subscriber {
    Subscriber(Address(Trim(next.address.to), Trim(next.address.accountId), next.address.thread), next.once,
               next.addedAtMs)
  }

  lemma {:induction false} SubscribeReadBack(file: NotifyState, next: Subscriber)
    requires Trim(next.address.to) != ""
    ensures var xs, ys := Normalize(file).subscribers, Normalize(Subscribe(file, next)).subscribers;
      var i := Find(xs, Key(next.address));
      && |ys| == (if i < |xs| then |xs| else i + 1)
      && ys[i] == (if i < |xs| && xs[i].once == next.once then xs[i] else Stored(next))
      && forall j | 0 <= j < |xs| && j != i :: ys[j] == xs[j]
  {
    NormalizedNormal(file.subscribers);
    var xs := Normalize(file).subscribers;
    hide Trim;
    hide NormalMarks;
    hide Find;
    hide Key;
    var i := Find(xs, Key(next.address));
    if Upsert(xs, next) != xs {
      UpsertNormal(xs, next);
    } else {
      assert i < |xs|;
      assert xs[i := next][i] == next;
    }
  }

  // All other entries are in their places; the entry of the command keeps its own time when it has the command's mode
  // already, and is the new one otherwise, or is added at the end.
  ghost predicate SubscribedAs(xs: seq<Subscriber>, ys: seq<Subscriber>, next: Subscriber) {
    && |xs| <= |ys|
    && (forall j | 0 <= j < |xs| && !Concerns(xs[j], next.address) :: ys[j] == xs[j])
    && (forall j | 0 <= j < |xs| && Concerns(xs[j], next.address) ::
          |ys| == |xs| && ys[j] == if xs[j].once == next.once then xs[j] else Stored(next))
    && ((forall j | 0 <= j < |xs| :: !Concerns(xs[j], next.address)) ==> ys == xs + [Stored(next)])
  }

  lemma {:induction false} SubscribedAt(xs: seq<Subscriber>, ys: seq<Subscriber>, next: Subscriber, i: nat)
    requires i <= |xs| && forall j: nat | j < |xs| :: Concerns(xs[j], next.address) <==> j == i
    requires |ys| == if i < |xs| then |xs| else i + 1
    requires ys[i] == if i < |xs| && xs[i].once == next.once then xs[i] else Stored(next)
    requires forall j | 0 <= j < |xs| && j != i :: ys[j] == xs[j]
    ensures SubscribedAs(xs, ys, next)
  {
    hide Concerns;
    hide Stored;
    if i == |xs| { assert ys == xs + [Stored(next)]; }
  }

  // Subscribing while the keys are distinct.
  lemma {:induction false} SubscribeKeeps(file: NotifyState, next: Subscriber)
    requires DistinctKeys(file) && Trim(next.address.to) != ""
    ensures SubscribedAs(Normalize(file).subscribers, Normalize(Subscribe(file, next)).subscribers, next)
    ensures Normalize(Subscribe(file, next)).notified == Normalize(file).notified
  {
    var xs := Normalize(file).subscribers;
    assert Distinct(Keys(xs));
    hide *;
    MarksKept(file, next.address, next);
    SubscribeReadBack(file, next);
    forall j: nat | j < |xs| ensures Concerns(xs[j], next.address) <==> j == Find(xs, Key(next.address)) {
      FirstConcerned(xs, next.address, j);
    }
    SubscribedAt(xs, Normalize(Subscribe(file, next)).subscribers, next, Find(xs, Key(next.address)));
  }

  // ---- Ticks ----

  // The request carries a mark that still counts: not zero, and at most a day old.
  predicate CarriesMark(s: NotifyState, now: int, id: string) {
    id in s.notified && s.notified[id] != 0 && now - s.notified[id] <= 86_400_000
  }

  // A subscriber is to hear of the request: it is persistent, or the request is from its arming on.
  predicate Wants(x: Subscriber, r: Request) {
    x.once ==> r.ts.Some? && r.ts.value >= x.addedAtMs
  }

  lemma {:induction false} NewExactly(s: NotifyState, tick: Tick, i: nat)
    requires i < |tick.pending|
    ensures NewAt(s, tick, i) <==> !CarriesMark(s, tick.now, tick.pending[i].id)
  {
    assert IsPending(tick.pending, tick.pending[i].id);
  }

  // With distinct pending ids, a subscriber hears of a request exactly when that carries no mark, is wanted, and the
  // send arrives.
  lemma {:induction false} HearsExactly(s: NotifyState, tick: Tick, i: nat, j: nat)
    requires DistinctRequests(tick.pending) && i < |tick.pending| && j < |s.subscribers|
    ensures HearsAt(s, tick, i, j) <==>
      && !CarriesMark(s, tick.now, tick.pending[i].id)
      && Wants(s.subscribers[j], tick.pending[i]) && tick.sends(i, j)
  {
    NewExactly(s, tick, i);
    MarkedLater(s.subscribers, tick, i, Pruned(s.notified, tick), i);
    hide VisitFirst;
  }

  // Whatever sends arrive, a subscriber hears of at most one request in a tick exactly when at most one request that
  // carries no mark is wanted by it.
  lemma {:induction false} HeardOnceWhen(s: NotifyState, tick: Tick, j: nat)
    requires DistinctRequests(tick.pending) && j < |s.subscribers|
    ensures (forall sends: (nat, nat) -> bool :: !HeardTwice(s, tick.(sends := sends), j)) <==>
      forall i: nat, k: nat | i < k < |tick.pending| ::
        || CarriesMark(s, tick.now, tick.pending[i].id) || !Wants(s.subscribers[j], tick.pending[i])
        || CarriesMark(s, tick.now, tick.pending[k].id) || !Wants(s.subscribers[j], tick.pending[k])
  {
    HeardOnceExactly(s, tick, j);
    forall i: nat | i < |tick.pending|
      ensures NewAt(s, tick, i) <==> !CarriesMark(s, tick.now, tick.pending[i].id)
      ensures ShouldNotify(s.subscribers[j], tick.pending[i]) <==> Wants(s.subscribers[j], tick.pending[i])
    {
      NewExactly(s, tick, i);
    }
    hide NewAt;
    hide ShouldNotify;
    hide HeardTwice;
    hide CarriesMark;
    hide Wants;
  }

  // A one-shot with the key of the subscriber hears of something in the tick.
  ghost predicate OneShotHeard(s: NotifyState, tick: Tick, x: Subscriber) {
    exists i: nat, j: nat | i < |tick.pending| && j < |s.subscribers| ::
      HearsAt(s, tick, i, j) && s.subscribers[j].once && Concerns(s.subscribers[j], x.address)
  }

  // A tick keeps, in their order, exactly the subscribers whose key is not that of a one-shot that heard of something.
  lemma {:induction false} TickKeeps(s: NotifyState, tick: Tick, heard: Subscriber -> bool)
    requires forall x :: heard(x) <==> OneShotHeard(s, tick, x)
    ensures Ticked(s, tick).subscribers == Kept(s.subscribers, x => !heard(x))
  {
    var fired := VisitAll(s.subscribers, tick, Pruned(s.notified, tick)).fired;
    forall x: Subscriber ensures Key(x.address) in fired <==> heard(x) {
      FiredExact(s, tick, |tick.pending|, Key(x.address));
    }
    hide VisitFirst;
    hide HearsAt;
    hide OneShotHeard;
    UnfiredKept(s.subscribers, fired, heard);
  }

  lemma {:induction false} UnfiredKept(xs: seq<Subscriber>, fired: set<string>, heard: Subscriber -> bool)
    requires forall x: Subscriber :: Key(x.address) in fired <==> heard(x)
    ensures Unfired(xs, fired) == Kept(xs, x => !heard(x))
    decreases |xs|
  {
    hide Key;
    if xs != [] { UnfiredKept(xs[1..], fired, heard); }
  }

  // After a tick a request is marked with the tick's time when it was sent, keeps a mark that is at most a day old
  // while it is pending, and carries no other.
  lemma {:induction false} MarksExactly(s: NotifyState, tick: Tick, id: string)
    requires s.subscribers != [] && tick.now != 0
    ensures var marks := Ticked(s, tick).notified;
      var kept := id in s.notified && IsPending(tick.pending, id) && tick.now - s.notified[id] <= 86_400_000;
      && (Sends(s, tick, id) ==> id in marks && marks[id] == tick.now)
      && (!Sends(s, tick, id) ==> (id in marks <==> kept) && (kept ==> marks[id] == s.notified[id]))
  {
    if Sends(s, tick, id) {
      SendMarks(s, tick, id);
    } else {
      UnsentMark(s, tick, |tick.pending|, id);
    }
  }

  lemma {:induction false} UnsentMark(s: NotifyState, tick: Tick, n: nat, id: string)
    requires n <= |tick.pending| && !Sends(s, tick, id)
    ensures var marks, before := VisitFirst(s.subscribers, tick, n, Pruned(s.notified, tick)).marks,
        Pruned(s.notified, tick);
      (id in marks <==> id in before) && (id in marks ==> marks[id] == before[id])
    decreases n
  {
    if n > 0 {
      UnsentMark(s, tick, n - 1, id);
      assert tick.pending[n - 1].id == id ==> !SendsAt(s, tick, n - 1);
    }
  }

  // A request is sent exactly when some subscriber hears of it.
  lemma {:induction false} SentWhenHeard(s: NotifyState, tick: Tick, i: nat)
    requires i < |tick.pending|
    ensures SendsAt(s, tick, i) <==> exists j: nat :: j < |s.subscribers| && HearsAt(s, tick, i, j)
  {
    hide VisitFirst;
    if SendsAt(s, tick, i) {
      var j :| 0 <= j < |s.subscribers| && Reaches(s.subscribers, tick, i, j);
      assert HearsAt(s, tick, i, j);
    }
  }
}
