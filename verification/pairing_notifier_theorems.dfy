/** What the pairing notifier keeps over any run of ticks and commands. */
module PairingNotifierTheorems {
  import opened Basics
  import opened Text
  import opened PairingNotifier

  // ---- Reading is stable ----

  ghost predicate NormalForm(x: Subscriber) {
    Trim(x.address.to) == x.address.to != "" && Trim(x.address.accountId) == x.address.accountId
  }

  ghost predicate AllNormal(xs: seq<Subscriber>) {
    forall i | 0 <= i < |xs| :: NormalForm(xs[i])
  }

  lemma {:induction false} NormalSubscriberNormal(x: Subscriber)
    requires Trim(x.address.to) != ""
    ensures NormalForm(NormalSubscriber(x))
  {
    TrimTwice(x.address.to);
    TrimTwice(x.address.accountId);
    hide Trim;
  }

  lemma {:induction false} PrependNormal(x: Subscriber, xs: seq<Subscriber>)
    requires NormalForm(x) && AllNormal(xs)
    ensures AllNormal([x] + xs)
  {
  }

  lemma {:induction false} NormalizedNormal(xs: seq<Subscriber>)
    ensures AllNormal(NormalSubscribers(xs))
    decreases |xs|
  {
    hide Trim;
    hide NormalForm;
    if xs != [] {
      NormalizedNormal(xs[1..]);
      if Trim(xs[0].address.to) != "" {
        NormalSubscriberNormal(xs[0]);
        PrependNormal(NormalSubscriber(xs[0]), NormalSubscribers(xs[1..]));
      }
    }
  }

  // Entries whose recipient is not blank are kept, each normalised in place.
  lemma {:induction false} NormalPointwise(xs: seq<Subscriber>)
    requires forall i | 0 <= i < |xs| :: Trim(xs[i].address.to) != ""
    ensures |NormalSubscribers(xs)| == |xs|
    ensures forall i | 0 <= i < |xs| :: NormalSubscribers(xs)[i] == NormalSubscriber(xs[i])
    decreases |xs|
  {
    hide Trim;
    if xs != [] { NormalPointwise(xs[1..]); }
  }

  lemma {:induction false} NormalFixed(xs: seq<Subscriber>)
    requires AllNormal(xs)
    ensures NormalSubscribers(xs) == xs
  {
    NormalPointwise(xs);
  }

  lemma {:induction false} NormalizeIdempotent(file: NotifyState)
    ensures Normalize(Normalize(file)) == Normalize(file)
  {
    hide Trim;
    NormalizedNormal(file.subscribers);
    NormalFixed(NormalSubscribers(file.subscribers));
  }

  // ---- Distinct subscriber keys ----

  ghost predicate DistinctKeys(file: NotifyState) {
    Distinct(Keys(Normalize(file).subscribers))
  }

  // Stored under its trimmed account, the new subscriber has the key of some other entry.
  ghost predicate KeyTaken(xs: seq<Subscriber>, next: Subscriber) {
    exists j | 0 <= j < |xs| ::
      j != Find(xs, Key(next.address)) && Key(xs[j].address) == Key(NormalAddress(next.address))
  }

  // A list with distinct keys whose i-th entry is replaced or appended has distinct keys unless the new key is taken.
  lemma {:induction false} DistinctReplaced(xs: seq<Subscriber>, zs: seq<Subscriber>, i: nat, x: Subscriber)
    requires Distinct(Keys(xs)) && i <= |xs| && |zs| == (if i < |xs| then |xs| else i + 1)
    requires zs[i] == x && forall j | 0 <= j < |xs| && j != i :: zs[j] == xs[j]
    ensures Distinct(Keys(zs)) <==> forall j | 0 <= j < |xs| && j != i :: Key(xs[j].address) != Key(x.address)
  {
    hide Key;
    var ks, ls := Keys(xs), Keys(zs);
    hide Keys;
    assert forall j | 0 <= j < |xs| && j != i :: ls[j] == ks[j];
    if j :| 0 <= j < |xs| && j != i && ks[j] == ls[i] {
      assert !Distinct(ls);
    } else {
      forall a, b | 0 <= a < b < |zs| ensures ls[a] != ls[b] {
        if a != i && b != i { assert ks[a] != ks[b]; }
      }
    }
  }

  lemma {:induction false} UpsertNormal(xs: seq<Subscriber>, next: Subscriber)
    requires AllNormal(xs) && Upsert(xs, next) != xs && Trim(next.address.to) != ""
    ensures var i := Find(xs, Key(next.address)); var zs := NormalSubscribers(Upsert(xs, next));
      && |zs| == (if i < |xs| then |xs| else i + 1) && zs[i] == NormalSubscriber(next)
      && forall j | 0 <= j < |xs| && j != i :: zs[j] == xs[j]
  {
    hide Trim;
    hide Key;
    hide Find;
    var i, ys := Find(xs, Key(next.address)), Upsert(xs, next);
    assert forall j | 0 <= j < |ys| :: ys[j] == if j == i then next else xs[j];
    assert forall j | 0 <= j < |xs| :: NormalForm(xs[j]);
    NormalPointwise(ys);
    hide NormalSubscribers;
  }

  // Subscribing keeps the keys distinct unless it changes the list and the key of the entry it
  // writes, as the file will be read back, is taken.
  lemma {:induction false} SubscribeDistinct(file: NotifyState, next: Subscriber)
    requires DistinctKeys(file) && Trim(next.address.to) == next.address.to != ""
    ensures var xs := Normalize(file).subscribers;
      DistinctKeys(Subscribe(file, next)) <==> Upsert(xs, next) == xs || !KeyTaken(xs, next)
  {
    hide Trim;
    hide NormalSubscribers;
    hide NormalMarks;
    hide Keys;
    hide Key;
    hide Upsert;
    hide Distinct;
    hide Find;
    var xs := Normalize(file).subscribers;
    NormalizedNormal(file.subscribers);
    if Upsert(xs, next) != xs {
      UpsertNormal(xs, next);
      var zs := NormalSubscribers(Upsert(xs, next));
      DistinctReplaced(xs, zs, Find(xs, Key(next.address)), NormalSubscriber(next));
    }
  }

  // An account name without outer blanks never takes another entry's key.
  lemma {:induction false} TrimmedAccountFree(file: NotifyState, next: Subscriber)
    requires DistinctKeys(file) && NormalForm(next)
    ensures !KeyTaken(Normalize(file).subscribers, next)
  {
  }

  // A chat subscribed once under an account and once under the same account with blanks around it is listed twice.
  lemma {:induction false} UntrimmedAccountDuplicates(to: string, account: string, blanks: string, thread: string,
      now: int)
    requires Trim(to) == to != "" && Trim(account) == account && Trim(blanks) == account && blanks != account
    ensures
      var first := Subscribe(NotifyState([], map[]), Subscriber(Address(to, account, thread), false, now));
      var second := Subscribe(first, Subscriber(Address(to, blanks, thread), false, now));
      DistinctKeys(first) && !DistinctKeys(second)
  {
    hide Trim;
    var a := Subscriber(Address(to, account, thread), false, now);
    var b := Subscriber(Address(to, blanks, thread), false, now);
    FirstSubscriber(a);
    OtherKey(to, account, blanks, thread);
    hide Key;
    var first := NotifyState([a], map[]);
    SubscribeDistinct(first, b);
    FirstKeyTaken(a, b);
    hide Subscribe;
  }

  lemma {:induction false} FirstSubscriber(a: Subscriber)
    requires NormalForm(a)
    ensures Subscribe(NotifyState([], map[]), a) == NotifyState([a], map[])
    ensures Normalize(NotifyState([a], map[])) == NotifyState([a], map[]) && DistinctKeys(NotifyState([a], map[]))
  {
    hide Trim;
    hide Key;
    NormalFixed([a]);
    assert Normalize(NotifyState([], map[])) == NotifyState([], map[]);
    assert Upsert([], a) == [a];
    assert NormalMarks(map[]) == map[];
  }

  lemma {:induction false} OtherKey(to: string, account: string, blanks: string, thread: string)
    requires blanks != account
    ensures Key(Address(to, account, thread)) != Key(Address(to, blanks, thread))
  {
    var head, tail := to + "|", "|" + thread;
    assert Key(Address(to, account, thread)) == head + account + tail;
    assert Key(Address(to, blanks, thread)) == head + blanks + tail;
    if |account| == |blanks| {
      assert (head + account + tail)[|head|..|head| + |account|] == account;
      assert (head + blanks + tail)[|head|..|head| + |account|] == blanks;
    }
  }

  // One blank for no account is such a case.
  lemma {:induction false} BlankForNone()
    ensures Trim("") == "" && Trim(" ") == "" && " " != ""
  {
    assert " "[1..] == "";
    assert TrimStart(" ") == TrimStart("");
  }

  lemma {:induction false} FirstKeyTaken(a: Subscriber, b: Subscriber)
    requires Key(a.address) != Key(b.address) && Key(a.address) == Key(NormalAddress(b.address))
    ensures KeyTaken([a], b) && Upsert([a], b) != [a]
  {
    hide Trim;
    hide Key;
    assert Find([a], Key(b.address)) == 1;
    assert Key([a][0].address) == Key(NormalAddress(b.address));
  }

  // What is left of distinct keys without one of them is distinct and free of it.
  lemma {:induction false} DistinctWithout(xs: seq<Subscriber>, i: nat)
    requires Distinct(Keys(xs)) && i < |xs|
    ensures var ys := xs[..i] + xs[i + 1..];
      Distinct(Keys(ys)) && forall j | 0 <= j < |ys| :: Key(ys[j].address) != Key(xs[i].address)
  {
  }

  lemma {:induction false} UnsubscribeDistinct(file: NotifyState, address: Address)
    requires DistinctKeys(file)
    ensures DistinctKeys(Unsubscribe(file, address))
    ensures var xs := Normalize(Unsubscribe(file, address)).subscribers;
      forall j | 0 <= j < |xs| :: Key(xs[j].address) != Key(address)
  {
    NormalizedNormal(file.subscribers);
    hide Trim;
    var xs := Normalize(file).subscribers;
    var i := Find(xs, Key(address));
    if i < |xs| {
      NormalFixed(xs[..i] + xs[i + 1..]);
      DistinctWithout(xs, i);
    }
  }

  // ---- One-shot subscribers ----

  lemma {:induction false} UnfiredExact(xs: seq<Subscriber>, fired: set<string>)
    ensures forall x :: x in Unfired(xs, fired) <==> x in xs && Key(x.address) !in fired
    decreases |xs|
  {
    if xs != [] {
      UnfiredExact(xs[1..], fired);
      assert forall x :: x in xs <==> x == xs[0] || x in xs[1..];
    }
  }

  // The keys that fired are those of the one-shots a request reached.
  lemma {:induction false} FiredExact(s: NotifyState, tick: Tick, n: nat, key: string)
    requires n <= |tick.pending|
    ensures key in VisitFirst(s.subscribers, tick, n, Pruned(s.notified, tick)).fired <==>
      exists i, j | 0 <= i < n && 0 <= j < |s.subscribers| ::
        HearsAt(s, tick, i, j) && s.subscribers[j].once && Key(s.subscribers[j].address) == key
    decreases n
  {
    hide Key;
    if n > 0 {
      FiredExact(s, tick, n - 1, key);
      FiredBy(s, tick, n - 1, key);
      hide HearsAt;
      hide Visit;
    }
  }

  lemma {:induction false} FiredBy(s: NotifyState, tick: Tick, i: nat, key: string)
    requires i < |tick.pending|
    ensures var p := VisitFirst(s.subscribers, tick, i, Pruned(s.notified, tick));
      key in Visit(s.subscribers, tick, i, p).fired - p.fired ==>
        exists j | 0 <= j < |s.subscribers| ::
          HearsAt(s, tick, i, j) && s.subscribers[j].once && Key(s.subscribers[j].address) == key
    ensures var p := VisitFirst(s.subscribers, tick, i, Pruned(s.notified, tick));
      forall j | 0 <= j < |s.subscribers| && HearsAt(s, tick, i, j) && s.subscribers[j].once ::
        Key(s.subscribers[j].address) in Visit(s.subscribers, tick, i, p).fired
    ensures var p := VisitFirst(s.subscribers, tick, i, Pruned(s.notified, tick));
      p.fired <= Visit(s.subscribers, tick, i, p).fired
  {
    hide VisitFirst;
    hide Key;
    forall j | 0 <= j < |s.subscribers| && HearsAt(s, tick, i, j) && s.subscribers[j].once
      ensures Key(s.subscribers[j].address) in Fired(s.subscribers, tick, i, |s.subscribers|)
    {
    }
  }

  // A subscriber leaves exactly when its key is that of a one-shot the tick reached.
  lemma {:induction false} LeavesExactly(s: NotifyState, tick: Tick, x: Subscriber)
    requires x in s.subscribers
    ensures x !in Ticked(s, tick).subscribers <==>
      exists j | 0 <= j < |s.subscribers| ::
        s.subscribers[j].once && Hears(s, tick, j) && Key(s.subscribers[j].address) == Key(x.address)
  {
    var p := VisitAll(s.subscribers, tick, Pruned(s.notified, tick));
    UnfiredExact(s.subscribers, p.fired);
    FiredExact(s, tick, |tick.pending|, Key(x.address));
    if Key(x.address) in p.fired {
      var i, j :| 0 <= i < |tick.pending| && 0 <= j < |s.subscribers| &&
        HearsAt(s, tick, i, j) && s.subscribers[j].once && Key(s.subscribers[j].address) == Key(x.address);
      assert Hears(s, tick, j);
    }
  }

  // With distinct keys a tick removes exactly the one-shots it reached, keeps every persistent
  // subscriber, and adds none.
  lemma {:induction false} TickRemovesExactly(s: NotifyState, tick: Tick, j: nat)
    requires Distinct(Keys(s.subscribers)) && j < |s.subscribers|
    ensures s.subscribers[j] !in Ticked(s, tick).subscribers <==> s.subscribers[j].once && Hears(s, tick, j)
    ensures forall x | x in Ticked(s, tick).subscribers :: x in s.subscribers
  {
    LeavesExactly(s, tick, s.subscribers[j]);
    forall k | 0 <= k < |s.subscribers| && Key(s.subscribers[k].address) == Key(s.subscribers[j].address)
      ensures k == j
    {
      assert Keys(s.subscribers)[k] == Keys(s.subscribers)[j];
    }
    UnfiredExact(s.subscribers, VisitAll(s.subscribers, tick, Pruned(s.notified, tick)).fired);
  }

  ghost predicate DistinctRequests(pending: seq<Request>) {
    forall i, k | 0 <= i < k < |pending| :: pending[i].id != pending[k].id
  }

  ghost predicate HeardTwice(s: NotifyState, tick: Tick, j: nat)
    requires j < |s.subscribers|
  {
    exists i, k | 0 <= i < k < |tick.pending| :: HearsAt(s, tick, i, j) && HearsAt(s, tick, k, j)
  }

  // The loop marks only ids it has visited.
  lemma {:induction false} MarkedLater(xs: seq<Subscriber>, tick: Tick, n: nat, marks: map<string, int>, i: nat)
    requires DistinctRequests(tick.pending) && n <= i < |tick.pending|
    ensures var id := tick.pending[i].id; Marked(VisitFirst(xs, tick, n, marks).marks, id) <==> Marked(marks, id)
    decreases n
  {
    if n > 0 { MarkedLater(xs, tick, n - 1, marks, i); }
  }

  // A pending request that carries no mark when the tick begins to send.
  ghost predicate NewAt(s: NotifyState, tick: Tick, i: nat)
    requires i < |tick.pending|
  {
    !Marked(Pruned(s.notified, tick), tick.pending[i].id)
  }

  // A subscriber, one-shot or not, hears of two requests in one tick exactly when two new ones reach it.
  lemma {:induction false} HeardTwiceExactly(s: NotifyState, tick: Tick, j: nat)
    requires DistinctRequests(tick.pending) && j < |s.subscribers|
    ensures HeardTwice(s, tick, j) <==>
      exists i, k | 0 <= i < k < |tick.pending| ::
        && NewAt(s, tick, i) && Reaches(s.subscribers, tick, i, j)
        && NewAt(s, tick, k) && Reaches(s.subscribers, tick, k, j)
  {
    forall i | 0 <= i < |tick.pending|
      ensures HearsAt(s, tick, i, j) <==> NewAt(s, tick, i) && Reaches(s.subscribers, tick, i, j)
    {
      MarkedLater(s.subscribers, tick, i, Pruned(s.notified, tick), i);
    }
  }

  // Whatever sends arrive, a subscriber hears of at most one request in a tick exactly when at most one new pending
  // request concerns it: for a one-shot, one created after it was armed.
  lemma {:induction false} HeardOnceExactly(s: NotifyState, tick: Tick, j: nat)
    requires DistinctRequests(tick.pending) && j < |s.subscribers|
    ensures (forall sends: (nat, nat) -> bool :: !HeardTwice(s, tick.(sends := sends), j)) <==>
      !exists i, k | 0 <= i < k < |tick.pending| ::
        && NewAt(s, tick, i) && ShouldNotify(s.subscribers[j], tick.pending[i])
        && NewAt(s, tick, k) && ShouldNotify(s.subscribers[j], tick.pending[k])
  {
    var all := tick.(sends := (_, _) => true);
    HeardTwiceExactly(s, all, j);
    forall sends: (nat, nat) -> bool ensures HeardTwice(s, tick.(sends := sends), j) ==> HeardTwice(s, all, j) {
      var some := tick.(sends := sends);
      HeardTwiceExactly(s, some, j);
      assert Pruned(s.notified, some) == Pruned(s.notified, all);
      forall i | 0 <= i < |tick.pending| && Reaches(s.subscribers, some, i, j) && NewAt(s, some, i)
        ensures Reaches(s.subscribers, all, i, j) && NewAt(s, all, i)
      {
      }
    }
    assert Pruned(s.notified, all) == Pruned(s.notified, tick);
    assert forall i | 0 <= i < |tick.pending| :: NewAt(s, all, i) == NewAt(s, tick, i);
  }

  // A one-shot is removed only after the tick: two new requests in one tick both reach it.
  lemma {:induction false} OneShotHearsTwice(added: int, tick: Tick)
    requires tick.pending == [Request("a", Some(added)), Request("b", Some(added))]
    requires tick.sends(0, 0) && tick.sends(1, 0)
    ensures var s := NotifyState([Subscriber(Address("c", "", ""), true, added)], map[]);
      SendsAt(s, tick, 0) && SendsAt(s, tick, 1) && Ticked(s, tick).subscribers == []
  {
    var x := Subscriber(Address("c", "", ""), true, added);
    var s := NotifyState([x], map[]);
    assert Pruned(map[], tick) == map[];
    assert Reaches([x], tick, 0, 0) && Reaches([x], tick, 1, 0);
    var p1 := VisitFirst([x], tick, 1, map[]);
    assert VisitFirst([x], tick, 0, map[]) == Progress(map[], {});
    assert p1.marks == map["a" := tick.now];
    LeavesExactly(s, tick, x);
    assert HearsAt(s, tick, 0, 0);
    assert Hears(s, tick, 0);
    assert Key(x.address) in VisitAll([x], tick, map[]).fired by {
      FiredExact(s, tick, 2, Key(x.address));
    }
    assert [x][1..] == [];
    assert Unfired([x], VisitAll([x], tick, map[]).fired) == [];
  }

  // ---- The seen-set ----

  lemma {:induction false} VisitedPending(xs: seq<Subscriber>, tick: Tick, n: nat, marks: map<string, int>)
    requires n <= |tick.pending| && forall id | id in marks :: IsPending(tick.pending, id)
    ensures forall id | id in VisitFirst(xs, tick, n, marks).marks :: IsPending(tick.pending, id)
    decreases n
  {
    if n > 0 {
      VisitedPending(xs, tick, n - 1, marks);
      assert IsPending(tick.pending, tick.pending[n - 1].id);
    }
  }

  // After a tick every marked request is pending exactly when the file was written or that was so before.
  lemma {:induction false} MarksPending(file: NotifyState, tick: Tick)
    ensures (forall id | id in Normalize(RunTick(file, tick)).notified :: IsPending(tick.pending, id)) <==>
      tick.writes || forall id | id in Normalize(file).notified :: IsPending(tick.pending, id)
  {
    var s := Normalize(file);
    VisitedPending(s.subscribers, tick, |tick.pending|, Pruned(s.notified, tick));
  }

  // A mark that counts survives the rest of the loop unchanged.
  lemma {:induction false} MarkStays(
    xs: seq<Subscriber>, tick: Tick, m: nat, n: nat, marks: map<string, int>, id: string
  )
    requires m <= n <= |tick.pending| && Marked(VisitFirst(xs, tick, m, marks).marks, id)
    ensures Marked(VisitFirst(xs, tick, n, marks).marks, id)
    ensures VisitFirst(xs, tick, n, marks).marks[id] == VisitFirst(xs, tick, m, marks).marks[id]
    decreases n
  {
    if m < n { MarkStays(xs, tick, m, n - 1, marks, id); }
  }

  // A marked request that is still pending is not sent again within 24 hours, and stays marked.
  lemma {:induction false} MarkHolds(s: NotifyState, tick: Tick, id: string)
    requires Marked(s.notified, id) && IsPending(tick.pending, id) && tick.now - s.notified[id] <= MAX_SEEN_AGE
    ensures !Sends(s, tick, id)
    ensures id in Ticked(s, tick).notified && Ticked(s, tick).notified[id] == s.notified[id]
  {
    var marks := Pruned(s.notified, tick);
    forall n | 0 <= n <= |tick.pending|
      ensures Marked(VisitFirst(s.subscribers, tick, n, marks).marks, id) &&
              VisitFirst(s.subscribers, tick, n, marks).marks[id] == s.notified[id]
    {
      MarkStays(s.subscribers, tick, 0, n, marks, id);
    }
  }

  // A request that was sent is marked with the time of the tick.
  lemma {:induction false} SendMarks(s: NotifyState, tick: Tick, id: string)
    requires Sends(s, tick, id) && tick.now != 0
    ensures id in Ticked(s, tick).notified && Ticked(s, tick).notified[id] == tick.now
  {
    var i :| 0 <= i < |tick.pending| && tick.pending[i].id == id && SendsAt(s, tick, i);
    MarkStays(s.subscribers, tick, i + 1, |tick.pending|, Pruned(s.notified, tick), id);
  }

  // ---- Runs ----

  datatype Event =
    | Ticks(tick: Tick)
    | On(address: Address, now: int)
    | Once(address: Address, now: int)
    | Off(address: Address)

  function Step(file: NotifyState, e: Event): NotifyState {
    match e
    case Ticks(tick) => RunTick(file, tick)
    case On(a, now) => Subscribe(file, Subscriber(a, false, now))
    case Once(a, now) => Subscribe(file, Subscriber(a, true, now))
    case Off(a) => Unsubscribe(file, a)
  }

  function Run(file: NotifyState, events: seq<Event>): NotifyState
    decreases |events|
  {
    if events == [] then file else Run(Step(file, events[0]), events[1..])
  }

  // Commands come from chats with a recipient, which is trimmed before a command runs.
  ghost predicate FromChat(e: Event) {
    e.On? || e.Once? ==> Trim(e.address.to) == e.address.to != ""
  }

  // Their account has no outer blanks.
  ghost predicate TrimmedCommand(e: Event) {
    e.On? || e.Once? ==> NormalForm(Subscriber(e.address, e.Once?, e.now))
  }

  // The command writes an entry whose key, as the file is read back, is that of another entry.
  ghost predicate Clashes(file: NotifyState, e: Event) {
    (e.On? || e.Once?) &&
    var xs, next := Normalize(file).subscribers, Subscriber(e.address, e.Once?, e.now);
    Upsert(xs, next) != xs && KeyTaken(xs, next)
  }

  lemma {:induction false} UnfiredDistinct(xs: seq<Subscriber>, fired: set<string>)
    requires Distinct(Keys(xs))
    ensures Distinct(Keys(Unfired(xs, fired)))
    decreases |xs|
  {
    if xs != [] {
      hide Key;
      var ks := Keys(xs);
      assert Keys(xs[1..]) == ks[1..];
      UnfiredDistinct(xs[1..], fired);
      UnfiredExact(xs[1..], fired);
      var rest := Unfired(xs[1..], fired);
      forall j | 0 <= j < |rest| ensures Key(rest[j].address) != Key(xs[0].address) {
        assert rest[j] in xs[1..];
        var k :| 0 <= k < |xs[1..]| && xs[1..][k] == rest[j];
        assert ks[0] != ks[k + 1];
      }
      PrependDistinct(xs[0], rest);
    }
  }

  lemma {:induction false} PrependDistinct(x: Subscriber, xs: seq<Subscriber>)
    requires Distinct(Keys(xs)) && forall j | 0 <= j < |xs| :: Key(xs[j].address) != Key(x.address)
    ensures Distinct(Keys([x] + xs))
  {
    hide Key;
    assert Keys([x] + xs) == [Key(x.address)] + Keys(xs);
  }

  lemma {:induction false} UnfiredNormal(xs: seq<Subscriber>, fired: set<string>)
    requires AllNormal(xs)
    ensures AllNormal(Unfired(xs, fired))
  {
    hide Trim;
    UnfiredExact(xs, fired);
  }

  // A tick leaves on disk, as it is read back, the subscribers it arrives at, or those it began with when the file
  // cannot be written.
  lemma {:induction false} TickSubscribers(file: NotifyState, tick: Tick)
    ensures Normalize(RunTick(file, tick)).subscribers ==
            (if tick.writes then Ticked(Normalize(file), tick) else Normalize(file)).subscribers
  {
    hide Trim;
    hide VisitFirst;
    var s := Normalize(file);
    NormalizedNormal(file.subscribers);
    NormalFixed(s.subscribers);
    var fired := VisitAll(s.subscribers, tick, Pruned(s.notified, tick)).fired;
    UnfiredNormal(s.subscribers, fired);
    NormalFixed(Unfired(s.subscribers, fired));
  }

  lemma {:induction false} TickDistinct(file: NotifyState, tick: Tick)
    requires DistinctKeys(file)
    ensures DistinctKeys(RunTick(file, tick))
  {
    hide Normalize;
    hide VisitFirst;
    hide Keys;
    var s := Normalize(file);
    TickSubscribers(file, tick);
    UnfiredDistinct(s.subscribers, VisitAll(s.subscribers, tick, Pruned(s.notified, tick)).fired);
  }

  // A tick or command keeps the keys distinct unless it is a command that clashes.
  lemma {:induction false} StepDistinct(file: NotifyState, e: Event)
    requires DistinctKeys(file) && FromChat(e)
    ensures DistinctKeys(Step(file, e)) <==> !Clashes(file, e)
  {
    hide DistinctKeys;
    hide KeyTaken;
    hide Normalize;
    hide Trim;
    match e
    case Ticks(tick) => TickDistinct(file, tick);
    case On(a, now) => SubscribeDistinct(file, Subscriber(a, false, now));
    case Once(a, now) => SubscribeDistinct(file, Subscriber(a, true, now));
    case Off(a) => UnsubscribeDistinct(file, a);
  }

  ghost predicate AlwaysDistinct(file: NotifyState, events: seq<Event>)
    decreases |events|
  {
    DistinctKeys(file) && (events != [] ==> AlwaysDistinct(Step(file, events[0]), events[1..]))
  }

  ghost predicate NeverClashes(file: NotifyState, events: seq<Event>)
    decreases |events|
  {
    events == [] || (!Clashes(file, events[0]) && NeverClashes(Step(file, events[0]), events[1..]))
  }

  // Over every run of ticks and commands, the keys are distinct in every state exactly when no command clashes.
  lemma {:induction false} DistinctRun(file: NotifyState, events: seq<Event>)
    requires DistinctKeys(file) && forall i | 0 <= i < |events| :: FromChat(events[i])
    ensures AlwaysDistinct(file, events) <==> NeverClashes(file, events)
    decreases |events|
  {
    hide DistinctKeys;
    hide Clashes;
    hide Step;
    hide FromChat;
    if events != [] {
      StepDistinct(file, events[0]);
      if !Clashes(file, events[0]) { DistinctRun(Step(file, events[0]), events[1..]); }
      else { NotAlways(Step(file, events[0]), events[1..]); }
    }
  }

  lemma {:induction false} NotAlways(file: NotifyState, events: seq<Event>)
    requires !DistinctKeys(file)
    ensures !AlwaysDistinct(file, events)
  {
    hide DistinctKeys;
  }

  // Commands of accounts without outer blanks never clash, so they keep the keys distinct over every run.
  lemma {:induction false} TrimmedDistinctRun(file: NotifyState, events: seq<Event>)
    requires DistinctKeys(file) && forall i | 0 <= i < |events| :: TrimmedCommand(events[i])
    ensures NeverClashes(file, events) && AlwaysDistinct(file, events)
    decreases |events|
  {
    hide DistinctKeys;
    hide KeyTaken;
    hide Normalize;
    hide Step;
    hide Trim;
    if events != [] {
      var e := events[0];
      assert TrimmedCommand(e);
      if e.On? || e.Once? { TrimmedAccountFree(file, Subscriber(e.address, e.Once?, e.now)); }
      StepDistinct(file, e);
      TrimmedDistinctRun(Step(file, e), events[1..]);
    }
  }

  // In every tick of the run the request is pending and less than or exactly 24 hours have passed.
  ghost predicate PendingWithin(events: seq<Event>, id: string, since: int) {
    forall i | 0 <= i < |events| && events[i].Ticks? ::
      IsPending(events[i].tick.pending, id) && events[i].tick.now - since <= MAX_SEEN_AGE
  }

  lemma {:induction false} StepKeepsMark(file: NotifyState, e: Event, id: string)
    requires id in Normalize(file).notified
    requires PendingWithin([e], id, Normalize(file).notified[id])
    ensures id in Normalize(Step(file, e)).notified
    ensures Normalize(Step(file, e)).notified[id] == Normalize(file).notified[id]
  {
    hide Normalize;
    match e
    case Ticks(tick) =>
      assert [e][0] == e;
      TickKeepsMark(file, tick, id);
    case _ => CommandKeepsMarks(file, e);
  }

  lemma {:induction false} TickKeepsMark(file: NotifyState, tick: Tick, id: string)
    requires id in Normalize(file).notified && IsPending(tick.pending, id)
    requires tick.now - Normalize(file).notified[id] <= MAX_SEEN_AGE
    ensures id in Normalize(RunTick(file, tick)).notified
    ensures Normalize(RunTick(file, tick)).notified[id] == Normalize(file).notified[id]
  {
    MarkHolds(Normalize(file), tick, id);
    hide Trim;
    hide NormalSubscribers;
    hide Ticked;
    NormalizeIdempotent(file);
  }

  lemma {:induction false} RunKeepsMark(file: NotifyState, events: seq<Event>, id: string)
    requires id in Normalize(file).notified
    requires PendingWithin(events, id, Normalize(file).notified[id])
    ensures id in Normalize(Run(file, events)).notified
    ensures Normalize(Run(file, events)).notified[id] == Normalize(file).notified[id]
    decreases |events|
  {
    if events != [] {
      assert [events[0]][0] == events[0];
      StepKeepsMark(file, events[0], id);
      RunKeepsMark(Step(file, events[0]), events[1..], id);
    }
  }

  // A request whose mark was written as it was sent, and which pends in all ticks since, is not sent again until more
  // than 24 hours have passed, whatever commands come between and whichever later writes fail.
  lemma {:induction false} NotResentWithinADay(file: NotifyState, first: Tick, between: seq<Event>, again: Tick,
      id: string)
    requires Sends(Normalize(file), first, id) && first.now > 0 && Trim(id) != "" && first.writes
    requires forall i | 0 <= i < |between| && between[i].Ticks? ::
      IsPending(between[i].tick.pending, id) && between[i].tick.now <= again.now
    requires IsPending(again.pending, id)
    requires Sends(Normalize(Run(RunTick(file, first), between)), again, id)
    ensures again.now - first.now > MAX_SEEN_AGE
  {
    var s := Normalize(file);
    SendMarks(s, first, id);
    NormalizeIdempotent(file);
    var after := RunTick(file, first);
    assert Normalize(after).notified[id] == first.now;
    if again.now - first.now <= MAX_SEEN_AGE {
      RunKeepsMark(after, between, id);
      MarkHolds(Normalize(Run(after, between)), again, id);
    }
  }

  // A request without a mark to begin with is marked, if at all, with the time of the tick.
  lemma {:induction false} NewMark(xs: seq<Subscriber>, tick: Tick, n: nat, marks: map<string, int>, id: string)
    requires n <= |tick.pending| && id !in marks
    ensures var after := VisitFirst(xs, tick, n, marks).marks; id in after ==> after[id] == tick.now
    ensures (forall i | 0 <= i < n :: tick.pending[i].id != id) ==> id !in VisitFirst(xs, tick, n, marks).marks
    decreases n
  {
    hide Fired;
    hide Reached;
    if n > 0 { NewMark(xs, tick, n - 1, marks, id); }
  }

  // A request that is sent had no mark left after pruning.
  lemma {:induction false} SentUnmarked(file: NotifyState, tick: Tick, id: string)
    requires Sends(Normalize(file), tick, id)
    ensures id !in Pruned(Normalize(file).notified, tick)
  {
    hide Trim;
    hide NormalSubscribers;
    var s := Normalize(file);
    var i :| 0 <= i < |tick.pending| && tick.pending[i].id == id && SendsAt(s, tick, i);
    var marks := Pruned(s.notified, tick);
    if Marked(marks, id) {
      MarkStays(s.subscribers, tick, 0, i, marks, id);
      assert false;
    }
  }

  // The mark of a sent request is read back exactly when its id is not blank, the clock is positive and the file can
  // be written.
  lemma {:induction false} MarkReadBack(file: NotifyState, tick: Tick, id: string)
    requires Sends(Normalize(file), tick, id)
    ensures var marks := Normalize(RunTick(file, tick)).notified;
      id in marks && tick.now - marks[id] <= MAX_SEEN_AGE <==> Trim(id) != "" && tick.now > 0 && tick.writes
    ensures var marks := Normalize(RunTick(file, tick)).notified;
      Trim(id) != "" && tick.now > 0 && tick.writes ==> marks[id] == tick.now
  {
    var s := Normalize(file);
    SentUnmarked(file, tick, id);
    NewMark(s.subscribers, tick, |tick.pending|, Pruned(s.notified, tick), id);
    if tick.now != 0 { SendMarks(s, tick, id); }
    TickedMark(s, tick, id);
    hide Trim;
    hide NormalSubscribers;
    hide Ticked;
    hide Sends;
    hide Pruned;
    NormalizeIdempotent(file);
  }

  lemma {:induction false} TickedMark(s: NotifyState, tick: Tick, id: string)
    requires id !in Pruned(s.notified, tick)
    ensures id in Ticked(s, tick).notified ==> Ticked(s, tick).notified[id] == tick.now
    ensures id in s.notified && Ticked(s, tick) == s ==> s.notified[id] == tick.now
  {
    NewMark(s.subscribers, tick, |tick.pending|, Pruned(s.notified, tick), id);
    hide VisitFirst;
    hide Unfired;
  }

  lemma {:induction false} CommandKeepsMarks(file: NotifyState, e: Event)
    requires !e.Ticks?
    ensures Normalize(Step(file, e)).notified == Normalize(file).notified
  {
    hide Trim;
    hide NormalSubscribers;
    hide Upsert;
    hide Find;
  }

  lemma {:induction false} CommandsKeepMarks(file: NotifyState, events: seq<Event>)
    requires forall i | 0 <= i < |events| :: !events[i].Ticks?
    ensures Normalize(Run(file, events)).notified == Normalize(file).notified
    decreases |events|
  {
    hide Normalize;
    hide Step;
    if events != [] {
      CommandKeepsMarks(file, events[0]);
      CommandsKeepMarks(Step(file, events[0]), events[1..]);
    }
  }

  // A request without a mark is sent by a tick in which, wherever it stands, it reaches someone.
  lemma {:induction false} UnmarkedSent(s: NotifyState, tick: Tick, id: string, n: nat)
    requires n < |tick.pending| && tick.pending[n].id == id && id !in Pruned(s.notified, tick)
    requires forall i | 0 <= i < |tick.pending| && tick.pending[i].id == id :: Reached(s.subscribers, tick, i)
    ensures Sends(s, tick, id)
    decreases n
  {
    if i :| 0 <= i < n && tick.pending[i].id == id {
      UnmarkedSent(s, tick, id, i);
    } else {
      NewMark(s.subscribers, tick, n, Pruned(s.notified, tick), id);
      assert SendsAt(s, tick, n);
    }
  }

  // At the next tick within 24 hours, whatever commands come between, a request that was sent, still pends and still
  // reaches someone is sent again exactly when the file could not be written, the id is blank or the clock of the first
  // tick is not positive.
  lemma {:induction false} ResentSoonExactly(file: NotifyState, first: Tick, commands: seq<Event>, again: Tick,
      id: string)
    requires Sends(Normalize(file), first, id) && forall i | 0 <= i < |commands| :: !commands[i].Ticks?
    requires again.now - first.now <= MAX_SEEN_AGE && IsPending(again.pending, id)
    requires first.writes || first.now <= again.now
    requires var s := Normalize(Run(RunTick(file, first), commands));
      forall i | 0 <= i < |again.pending| && again.pending[i].id == id :: Reached(s.subscribers, again, i)
    ensures var s := Normalize(Run(RunTick(file, first), commands));
      Sends(s, again, id) <==> !first.writes || Trim(id) == "" || first.now <= 0
  {
    var s := Normalize(Run(RunTick(file, first), commands));
    MarkReadBack(file, first, id);
    CommandsKeepMarks(RunTick(file, first), commands);
    hide Trim;
    hide Normalize;
    hide RunTick;
    hide Run;
    hide Sends;
    if first.writes && Trim(id) != "" && first.now > 0 {
      MarkHolds(s, again, id);
    } else {
      var n :| 0 <= n < |again.pending| && again.pending[n].id == id;
      UnmarkedSent(s, again, id, n);
    }
  }
}
