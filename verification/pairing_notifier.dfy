/** Notifications about pending pairing requests: subscribers, the seen-set, ticks and commands. */
module PairingNotifier {
  import opened Basics
  import opened Text

  // Absent texts are "".  `thread` is the decimal text of an integer thread id.
  datatype Address = Address(to: string, accountId: string, thread: string)

  datatype Subscriber = Subscriber(address: Address, once: bool, addedAtMs: int)

  // The state file: subscribers, and for each marked request the time it was sent.
  datatype NotifyState = NotifyState(subscribers: seq<Subscriber>, notified: map<string, int>)

  // A pending request; `ts` is its creation time when that is a positive number.
  datatype Request = Request(id: string, ts: Option<int>)

  const MAX_SEEN_AGE: int := 24 * 60 * 60 * 1000

  // ---- Reading the file ----

  function NormalAddress(a: Address): Address {
    Address(Trim(a.to), Trim(a.accountId), a.thread)
  }

  function NormalSubscriber(x: Subscriber): Subscriber {
    x.(address := NormalAddress(x.address))
  }

  function NormalSubscribers(xs: seq<Subscriber>): seq<Subscriber> {
    if xs == [] then []
    else
      var rest := NormalSubscribers(xs[1..]);
      if Trim(xs[0].address.to) == "" then rest else [NormalSubscriber(xs[0])] + rest
  }

  function NormalMarks(marks: map<string, int>): map<string, int> {
    map id | id in marks && Trim(id) != "" && marks[id] > 0 :: marks[id]
  }

  // normalizeNotifyState; every command and tick starts with it.
  function Normalize(raw: NotifyState): NotifyState {
    NotifyState(NormalSubscribers(raw.subscribers), NormalMarks(raw.notified))
  }

  // ---- Keys ----

  function Key(a: Address): string { a.to + "|" + a.accountId + "|" + a.thread }

  function Keys(xs: seq<Subscriber>): (keys: seq<string>)
    ensures |keys| == |xs| && forall i | 0 <= i < |xs| :: keys[i] == Key(xs[i].address)
  {
    seq(|xs|, i requires 0 <= i < |xs| => Key(xs[i].address))
  }

  ghost predicate Distinct(keys: seq<string>) {
    forall i, j | 0 <= i < j < |keys| :: keys[i] != keys[j]
  }

  // The first subscriber with a key, or the length.
  function Find(xs: seq<Subscriber>, key: string): (i: nat)
    ensures i <= |xs|
    ensures i < |xs| ==> Key(xs[i].address) == key
    ensures forall j | 0 <= j < i :: Key(xs[j].address) != key
  {
    if xs == [] || Key(xs[0].address) == key then 0 else 1 + Find(xs[1..], key)
  }

  // ---- Commands ----

  // upsertNotifySubscriber.
  function Upsert(xs: seq<Subscriber>, next: Subscriber): seq<Subscriber> {
    var i := Find(xs, Key(next.address));
    if i == |xs| then xs + [next]
    else if xs[i].once == next.once then xs
    else xs[i := next]
  }

  function Subscribe(file: NotifyState, next: Subscriber): NotifyState {
    var s := Normalize(file);
    if Upsert(s.subscribers, next) == s.subscribers then file
    else s.(subscribers := Upsert(s.subscribers, next))
  }

  function Unsubscribe(file: NotifyState, address: Address): NotifyState {
    var s := Normalize(file);
    var i := Find(s.subscribers, Key(address));
    if i == |s.subscribers| then file
    else s.(subscribers := s.subscribers[..i] + s.subscribers[i + 1..])
  }

  // ---- A tick ----

  // A tick's surroundings: the pending requests, the clock, whether the i-th request sent to the j-th subscriber
  // arrives, and whether the file can be written.
  datatype Tick = Tick(pending: seq<Request>, now: int, sends: (nat, nat) -> bool, writes: bool)

  // A one-shot subscriber only hears of requests created after it was armed.
  predicate ShouldNotify(x: Subscriber, r: Request) {
    !x.once || (r.ts.Some? && r.ts.value >= x.addedAtMs)
  }

  predicate IsPending(pending: seq<Request>, id: string) {
    exists i | 0 <= i < |pending| :: pending[i].id == id
  }

  function Pruned(marks: map<string, int>, tick: Tick): map<string, int> {
    map id | id in marks && IsPending(tick.pending, id) && tick.now - marks[id] <= MAX_SEEN_AGE :: marks[id]
  }

  // A mark counts when it is not zero.
  predicate Marked(marks: map<string, int>, id: string) {
    id in marks && marks[id] != 0
  }

  // What the loop over the pending requests has done: marks set, keys of one-shots that were reached.
  datatype Progress = Progress(marks: map<string, int>, fired: set<string>)

  predicate Reaches(xs: seq<Subscriber>, tick: Tick, i: nat, j: nat)
    requires i < |tick.pending| && j < |xs|
  {
    ShouldNotify(xs[j], tick.pending[i]) && tick.sends(i, j)
  }

  predicate Reached(xs: seq<Subscriber>, tick: Tick, i: nat)
    requires i < |tick.pending|
  {
    exists j | 0 <= j < |xs| :: Reaches(xs, tick, i, j)
  }

  // The keys of the one-shots among the first n subscribers that the i-th request reaches.
  function Fired(xs: seq<Subscriber>, tick: Tick, i: nat, n: nat): set<string>
    requires i < |tick.pending| && n <= |xs|
  {
    set j | 0 <= j < n && Reaches(xs, tick, i, j) && xs[j].once :: Key(xs[j].address)
  }

  function Visit(xs: seq<Subscriber>, tick: Tick, i: nat, p: Progress): Progress
    requires i < |tick.pending|
  {
    var id := tick.pending[i].id;
    if Marked(p.marks, id) then p
    else Progress(if Reached(xs, tick, i) then p.marks[id := tick.now] else p.marks,
                  p.fired + Fired(xs, tick, i, |xs|))
  }

  function VisitFirst(xs: seq<Subscriber>, tick: Tick, n: nat, marks: map<string, int>): Progress
    requires n <= |tick.pending|
  {
    if n == 0 then Progress(marks, {}) else Visit(xs, tick, n - 1, VisitFirst(xs, tick, n - 1, marks))
  }

  function VisitAll(xs: seq<Subscriber>, tick: Tick, marks: map<string, int>): Progress {
    VisitFirst(xs, tick, |tick.pending|, marks)
  }

  function Unfired(xs: seq<Subscriber>, fired: set<string>): seq<Subscriber> {
    if xs == [] then []
    else (if Key(xs[0].address) in fired then [] else [xs[0]]) + Unfired(xs[1..], fired)
  }

  // The state a tick arrives at.
  function Ticked(s: NotifyState, tick: Tick): NotifyState {
    var marks := Pruned(s.notified, tick);
    if s.subscribers == [] then s.(notified := marks)
    else
      var p := VisitAll(s.subscribers, tick, marks);
      NotifyState(Unfired(s.subscribers, p.fired), p.marks)
  }

  // The tick has something to write and cannot, which throws.
  predicate TickThrows(file: NotifyState, tick: Tick) {
    !tick.writes && Ticked(Normalize(file), tick) != Normalize(file)
  }

  // The file after a tick, which is rewritten only when something changed.
  function RunTick(file: NotifyState, tick: Tick): NotifyState {
    var s := Normalize(file);
    if Ticked(s, tick) == s || !tick.writes then file else Ticked(s, tick)
  }

  // The i-th pending request is sent by the tick and arrives.
  ghost predicate SendsAt(s: NotifyState, tick: Tick, i: nat)
    requires i < |tick.pending|
  {
    && !Marked(VisitFirst(s.subscribers, tick, i, Pruned(s.notified, tick)).marks, tick.pending[i].id)
    && Reached(s.subscribers, tick, i)
  }

  ghost predicate Sends(s: NotifyState, tick: Tick, id: string) {
    exists i | 0 <= i < |tick.pending| :: tick.pending[i].id == id && SendsAt(s, tick, i)
  }

  // The tick sends the i-th pending request to the j-th subscriber, and it arrives.
  ghost predicate HearsAt(s: NotifyState, tick: Tick, i: nat, j: nat)
    requires i < |tick.pending| && j < |s.subscribers|
  {
    && !Marked(VisitFirst(s.subscribers, tick, i, Pruned(s.notified, tick)).marks, tick.pending[i].id)
    && Reaches(s.subscribers, tick, i, j)
  }

  ghost predicate Hears(s: NotifyState, tick: Tick, j: nat)
    requires j < |s.subscribers|
  {
    exists i | 0 <= i < |tick.pending| :: HearsAt(s, tick, i, j)
  }
}
