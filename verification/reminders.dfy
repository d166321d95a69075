/** Reminder delivery: one poll over the persisted list, and runs of polls. */
module Reminders {
  import opened Basics
  import opened Text
  import opened Arithmetic

  // A stored time: what its text parses to.
  datatype Time = At(ms: int) | Unparsable

  // A record of the file.  `present` is false for the JSON value null, whose fields cannot be read.
  datatype Reminder = Reminder(
    present: bool,
    id: string,
    text: string,
    triggerAt: Time,
    recurring: Option<string>, // a cron text; None when absent or empty
    active: bool,
    created: string,
    channel: string, // "" when absent
    to: string,
    accountId: string,
    threadId: string,
    deliveredAt: Option<int>,
    deliveredOn: Option<string>
  )

  datatype Target = Target(channel: string, to: string, accountId: string, threadId: string)

  // A configured channel entry: a text, an object with these fields, or anything else.
  datatype Entry = Text(text: string) | Fields(channel: string, to: string, accountId: string, threadId: string) | Other

  const MAX_TIME: int := 8_640_000_000_000_000 // the largest time a Date can hold
  const DAY: int := 86_400_000

  // ---- Targets ----

  function ParseTarget(entry: Entry): Option<Target> {
    match entry
    case Text(s) =>
      var parts := Split(s, ':');
      if |parts| < 2 || parts[0] == "" || parts[1] == "" then None
      else Some(Target(parts[0], parts[1], if |parts| > 2 then parts[2] else "", if |parts| > 3 then parts[3] else ""))
    case Fields(channel, to, accountId, threadId) =>
      if channel == "" || to == "" then None else Some(Target(channel, to, accountId, threadId))
    case Other => None
  }

  function ParseTargets(entries: seq<Entry>): seq<Target> {
    if entries == [] then []
    else match ParseTarget(entries[0])
      case None => ParseTargets(entries[1..])
      case Some(t) => [t] + ParseTargets(entries[1..])
  }

  function Key(channel: string, to: string): string { channel + ":" + to }

  function AllowedKeys(entries: seq<Entry>): set<string> {
    set t | t in ParseTargets(entries) :: Key(t.channel, t.to)
  }

  // The reminder's own target, when it has one and the allowlist has its key.
  function ExplicitTarget(r: Reminder, entries: seq<Entry>): Option<Target> {
    if r.channel != "" && r.to != "" && Key(r.channel, r.to) in AllowedKeys(entries)
    then Some(Target(r.channel, r.to, r.accountId, r.threadId)) else None
  }

  function TargetsOf(r: Reminder, entries: seq<Entry>): seq<Target> {
    match ExplicitTarget(r, entries)
    case Some(t) => [t]
    case None => ParseTargets(entries)
  }

  lemma {:induction false} ParsedFromEntry(entries: seq<Entry>, t: Target)
    requires t in ParseTargets(entries)
    ensures exists e :: e in entries && ParseTarget(e) == Some(t)
    decreases |entries|
  {
    if ParseTarget(entries[0]) != Some(t) {
      ParsedFromEntry(entries[1..], t);
      var e :| e in entries[1..] && ParseTarget(e) == Some(t);
      assert e in entries;
    }
  }

  lemma {:induction false} KeyInjective(c: string, t: string, c': string, t': string)
    requires ':' !in c && ':' !in c' && Key(c, t) == Key(c', t')
    ensures c == c' && t == t'
  {
    SplitPrefix(c, t, ':');
    SplitPrefix(c', t', ':');
    assert Key(c, t) == c + [':'] + t && Key(c', t') == c' + [':'] + t';
    assert c == Split(Key(c, t), ':')[0] == c';
    assert t == Key(c, t)[|c| + 1..] && t' == Key(c', t')[|c'| + 1..];
  }

  // Whatever a reminder asks for, each message goes to a configured recipient, given colon-free
  // channel names; without that restriction, to one whose key reads the same.
  lemma {:induction false} SendsToConfigured(r: Reminder, entries: seq<Entry>, t: Target)
    requires t in TargetsOf(r, entries)
    ensures exists e :: e in entries && ParseTarget(e).Some? &&
              Key(ParseTarget(e).value.channel, ParseTarget(e).value.to) == Key(t.channel, t.to) &&
              (':' !in t.channel && ':' !in ParseTarget(e).value.channel ==>
                 ParseTarget(e).value.channel == t.channel && ParseTarget(e).value.to == t.to)
  {
    var u := t;
    if ExplicitTarget(r, entries).Some? {
      u :| u in ParseTargets(entries) && Key(u.channel, u.to) == Key(t.channel, t.to);
    }
    ParsedFromEntry(entries, u);
    if ':' !in t.channel && ':' !in u.channel { KeyInjective(u.channel, u.to, t.channel, t.to); }
  }

  // ---- Recurrence ----

  function CronToMs(expr: string): (ms: int)
    ensures ms == 60_000 || ms == 3_600_000 || ms == DAY
  {
    var fields := Words(expr);
    if |fields| < 5 then DAY
    else if fields[0] == "*" && fields[1] == "*" then 60_000
    else if fields[1] == "*" then 3_600_000
    else DAY
  }

  // The next firing after `now`, in closed form.
  function NextAfter(trigger: int, step: int, now: int): int
    requires step > 0
  {
    if now < trigger + step then trigger + step else trigger + ((now - trigger) / step + 1) * step
  }

  // It is the least trigger + k * step, with k >= 1, later than now.
  lemma {:induction false} NextAfterLeast(trigger: int, step: int, now: int, k: int)
    requires step > 0
    ensures now < NextAfter(trigger, step, now)
    ensures trigger + step <= NextAfter(trigger, step, now)
    ensures (NextAfter(trigger, step, now) - trigger) % step == 0
    ensures 1 <= k && now < trigger + k * step ==> NextAfter(trigger, step, now) <= trigger + k * step
  {
    var q := (now - trigger) / step;
    DivFloor(now - trigger, step);
    DivBound(now - trigger, step, 1);
    DivBound(now - trigger, step, k);
    MulOrder(1, q + 1, step);
    MulOrder(q + 1, k, step);
    MulOrder(1, k, step);
    MultipleMod(q + 1, step);
    MultipleMod(1, step);
  }

  method AdvanceTrigger(trigger: int, step: int, now: int) returns (next: int)
    requires step > 0
    ensures next == NextAfter(trigger, step, now)
  {
    next := trigger + step;
    ghost var k := 1;
    while next <= now
      invariant next == trigger + k * step && k >= 1
      invariant next <= NextAfter(trigger, step, now)
      decreases now - next
    {
      NextIsMultiple(trigger, step, now, k);
      next := next + step;
      k := k + 1;
    }
    NextAfterLeast(trigger, step, now, k);
  }

  lemma {:induction false} NextIsMultiple(trigger: int, step: int, now: int, k: int)
    requires step > 0 && k >= 1 && trigger + k * step <= now
    ensures trigger + (k + 1) * step <= NextAfter(trigger, step, now)
    ensures (k + 1) * step == k * step + step
  {
    MulOrder(1, k, step);
    DivBound(now - trigger, step, k);
    MulOrder(k, (now - trigger) / step, step);
  }

  // None when the new trigger time cannot be rendered.
  function AdvanceRecurring(r: Reminder, now: int): Option<Reminder>
    requires r.recurring.Some?
  {
    if r.triggerAt.Unparsable? then None
    else
      var next := NextAfter(r.triggerAt.ms, CronToMs(r.recurring.value), now);
      if next > MAX_TIME then None
      else Some(r.(triggerAt := At(next), deliveredAt := None, deliveredOn := None))
  }

  // ---- One poll ----

  datatype Fate = Kept | Advanced(reminder: Reminder) | Sent(reminder: Reminder) | Threw(afterSend: bool)

  function DeliveredOn(r: Reminder, entries: seq<Entry>): string {
    match ExplicitTarget(r, entries)
    case Some(t) => t.channel
    case None =>
      if entries != [] && ParseTarget(entries[0]).Some? then ParseTarget(entries[0]).value.channel else "unknown"
  }

  predicate Live(r: Reminder) { r.present && r.active }

  predicate IsDue(r: Reminder, now: int) {
    Live(r) && r.deliveredAt.None? && r.triggerAt.At? && r.triggerAt.ms <= now
  }

  // What a poll does with a reminder; `loads` says whether the configuration can be loaded for its sends, and
  // `delivered` whether a send to one of its targets succeeds.
  function FateOf(r: Reminder, now: int, entries: seq<Entry>, loads: bool, delivered: bool): Fate {
    if !r.present then Threw(false)
    else if !r.active then Kept
    else if r.deliveredAt.Some? then
      if r.recurring.None? then Kept
      else match AdvanceRecurring(r, now)
        case None => Threw(false)
        case Some(next) => Advanced(next)
    else if !IsDue(r, now) || TargetsOf(r, entries) == [] then Kept
    else if !loads then Threw(false)
    else if !delivered then Kept
    else if !(-MAX_TIME <= now <= MAX_TIME) then Threw(true)
    else Sent(r.(deliveredAt := Some(now), deliveredOn := Some(DeliveredOn(r, entries))))
  }

  // A poll's surroundings: the clock, the configured channels, for the i-th reminder whether the configuration
  // loads, for its j-th target whether the send succeeds, and whether the file can be written.
  datatype Tick = Tick(now: int, entries: seq<Entry>, loads: nat -> bool, sends: (nat, nat) -> bool, writes: bool)

  predicate Delivers(r: Reminder, i: nat, tick: Tick) {
    exists j | 0 <= j < |TargetsOf(r, tick.entries)| :: tick.sends(i, j)
  }

  function FateAt(list: seq<Reminder>, i: nat, tick: Tick): Fate
    requires i < |list|
  {
    FateOf(list[i], tick.now, tick.entries, tick.loads(i), Delivers(list[i], i, tick))
  }

  function After(r: Reminder, fate: Fate): Reminder {
    match fate
    case Advanced(x) => x
    case Sent(x) => x
    case _ => r
  }

  // The position of the reminder whose handling throws, or the length of the list.
  function ThrowsAt(list: seq<Reminder>, i: nat, tick: Tick): (k: nat)
    requires i <= |list|
    ensures i <= k <= |list|
    ensures forall j | i <= j < k :: !FateAt(list, j, tick).Threw?
    ensures k < |list| ==> FateAt(list, k, tick).Threw?
    decreases |list| - i
  {
    if i == |list| || FateAt(list, i, tick).Threw? then i else ThrowsAt(list, i + 1, tick)
  }

  predicate Changes(fate: Fate) { fate.Advanced? || fate.Sent? }

  // A poll throws while it handles a reminder, or at the end when it has something to write and cannot.
  predicate PollThrows(list: seq<Reminder>, tick: Tick) {
    || ThrowsAt(list, 0, tick) < |list|
    || (!tick.writes && exists i | 0 <= i < |list| :: Changes(FateAt(list, i, tick)))
  }

  // The list on disk after the poll.
  function Poll(list: seq<Reminder>, tick: Tick): (after: seq<Reminder>)
    ensures |after| == |list|
  {
    if PollThrows(list, tick) then list
    else seq(|list|, i requires 0 <= i < |list| => After(list[i], FateAt(list, i, tick)))
  }

  // The positions of the reminders for which a message went out.
  function SentBy(list: seq<Reminder>, tick: Tick): set<nat> {
    set i | 0 <= i < |list| && i <= ThrowsAt(list, 0, tick) &&
            (FateAt(list, i, tick).Sent? || FateAt(list, i, tick) == Threw(true)) :: i
  }

  // ---- What a poll changes ----

  // A poll keeps length, order, ids and every field but triggerAt, deliveredAt and deliveredOn.
  lemma {:induction false} PollKeeps(list: seq<Reminder>, tick: Tick, i: nat)
    requires i < |list|
    ensures var r, r' := list[i], Poll(list, tick)[i];
      r' == r.(triggerAt := r'.triggerAt, deliveredAt := r'.deliveredAt, deliveredOn := r'.deliveredOn)
  {
  }

  // The record is null, or the reminder has to be advanced from an unparsable trigger time or out of the range of
  // dates, or has a target while the configuration does not load, or its delivery is to be stamped outside that range.
  ghost predicate Unhandled(list: seq<Reminder>, i: nat, tick: Tick)
    requires i < |list|
  {
    var r := list[i];
    || !r.present
    || (r.active && r.deliveredAt.Some? && r.recurring.Some? &&
        (|| r.triggerAt.Unparsable?
         || NextAfter(r.triggerAt.ms, CronToMs(r.recurring.value), tick.now) > 8_640_000_000_000_000))
    || (IsDue(r, tick.now) && TargetsOf(r, tick.entries) != [] && !tick.loads(i))
    || (IsDue(r, tick.now) && Delivers(r, i, tick) &&
        !(-8_640_000_000_000_000 <= tick.now <= 8_640_000_000_000_000))
  }

  // The poll has the reminder's delivery or its advance to write.
  ghost predicate Rewritten(list: seq<Reminder>, i: nat, tick: Tick)
    requires i < |list|
  {
    var r := list[i];
    (Live(r) && r.deliveredAt.Some? && r.recurring.Some?) || (IsDue(r, tick.now) && Delivers(r, i, tick))
  }

  lemma {:induction false} FateOutcome(list: seq<Reminder>, i: nat, tick: Tick)
    requires i < |list|
    ensures FateAt(list, i, tick).Threw? <==> Unhandled(list, i, tick)
    ensures Changes(FateAt(list, i, tick)) <==> Rewritten(list, i, tick) && !Unhandled(list, i, tick)
  {
    hide TargetsOf;
    hide ParseTargets;
  }

  // A poll throws exactly when some reminder makes it, or there is something to write and it cannot be written.
  lemma {:induction false} PollThrowsExactly(list: seq<Reminder>, tick: Tick)
    ensures PollThrows(list, tick) <==> exists i | 0 <= i < |list| ::
      Unhandled(list, i, tick) || (!tick.writes && Rewritten(list, i, tick))
  {
    forall i | 0 <= i < |list| ensures FateAt(list, i, tick).Threw? <==> Unhandled(list, i, tick)
      ensures Changes(FateAt(list, i, tick)) <==> Rewritten(list, i, tick) && !Unhandled(list, i, tick)
    {
      FateOutcome(list, i, tick);
    }
    hide FateAt;
    hide Unhandled;
    hide Rewritten;
    var k := ThrowsAt(list, 0, tick);
    if k < |list| { assert Unhandled(list, k, tick); }
  }

  // A delivered reminder is stamped on disk unless the poll throws, and then nothing is.
  lemma {:induction false} StampKept(list: seq<Reminder>, tick: Tick, i: nat)
    requires i in SentBy(list, tick)
    ensures Poll(list, tick)[i].deliveredAt == Some(tick.now) <==> !PollThrows(list, tick)
    ensures !PollThrows(list, tick) ==>
              var on := Some(DeliveredOn(list[i], tick.entries));
              Poll(list, tick)[i] == list[i].(deliveredAt := Some(tick.now), deliveredOn := on)
    ensures PollThrows(list, tick) ==> Poll(list, tick) == list
    ensures IsDue(list[i], tick.now)
  {
  }

  // A poll that does not throw delivers exactly the due reminders of which some send arrives, leaves those of which
  // none does for the next poll, and moves a stamped recurring reminder on, without a stamp, to be due later.
  lemma {:induction false} PollDelivers(list: seq<Reminder>, tick: Tick, i: nat)
    requires i < |list| && !PollThrows(list, tick)
    ensures i in SentBy(list, tick) <==> IsDue(list[i], tick.now) && Delivers(list[i], i, tick)
    ensures IsDue(list[i], tick.now) && i !in SentBy(list, tick) ==> Poll(list, tick)[i] == list[i]
    ensures Live(list[i]) && list[i].deliveredAt.Some? && list[i].recurring.Some? ==>
              var r := Poll(list, tick)[i];
              r.deliveredAt.None? && r.deliveredOn.None? && r.triggerAt.At? && tick.now < r.triggerAt.ms
  {
    var r := list[i];
    assert !FateAt(list, i, tick).Threw?;
    if Live(r) && r.deliveredAt.Some? && r.recurring.Some? {
      NextAfterLeast(r.triggerAt.ms, CronToMs(r.recurring.value), tick.now, 1);
    }
  }

  // The same surroundings but for which targets of the i-th reminder are reached.
  function Reaching(tick: Tick, i: nat, reached: nat -> bool): Tick {
    tick.(sends := (k: nat, j: nat) => if k == i then reached(j) else tick.sends(k, j))
  }

  predicate SomeTarget(r: Reminder, entries: seq<Entry>, reached: nat -> bool) {
    exists j | 0 <= j < |TargetsOf(r, entries)| :: reached(j)
  }

  // The stamp on disk names the channel of a target that a send of the poll reached.
  ghost predicate StampTrue(list: seq<Reminder>, tick: Tick, i: nat)
    requires i < |list|
  {
    var ts := TargetsOf(list[i], tick.entries);
    exists j | 0 <= j < |ts| :: tick.sends(i, j) && Poll(list, tick)[i].deliveredOn == Some(ts[j].channel)
  }

  // Which of its targets a delivered reminder reaches makes no difference to what a poll does.
  lemma {:induction false} ReachingSame(list: seq<Reminder>, tick: Tick, i: nat, reached: nat -> bool)
    requires i in SentBy(list, tick) && !PollThrows(list, tick) && SomeTarget(list[i], tick.entries, reached)
    ensures var t := Reaching(tick, i, reached);
      i in SentBy(list, t) && !PollThrows(list, t) && Poll(list, t) == Poll(list, tick)
  {
    var t := Reaching(tick, i, reached);
    forall k: nat | k < |list| ensures FateAt(list, k, t) == FateAt(list, k, tick) {
      if k == i {
        var j :| 0 <= j < |TargetsOf(list[i], tick.entries)| && reached(j);
        assert t.sends(i, j);
        assert Delivers(list[i], i, t);
      } else {
        assert forall j: nat :: t.sends(k, j) == tick.sends(k, j);
        assert Delivers(list[k], k, t) == Delivers(list[k], k, tick);
      }
    }
  }

  lemma {:induction false} ReachedStamp(list: seq<Reminder>, tick: Tick, i: nat, reached: nat -> bool)
    requires i in SentBy(list, tick) && !PollThrows(list, tick) && SomeTarget(list[i], tick.entries, reached)
    ensures var ts := TargetsOf(list[i], tick.entries);
      StampTrue(list, Reaching(tick, i, reached), i) <==>
      exists j | 0 <= j < |ts| :: reached(j) && ts[j].channel == DeliveredOn(list[i], tick.entries)
  {
    StampKept(list, tick, i);
    ReachingSame(list, tick, i, reached);
    hide SentBy;
    hide PollThrows;
    hide Poll;
    hide TargetsOf;
    hide DeliveredOn;
  }

  // For a reminder that a poll delivers: the stamp is true whichever of its targets are reached exactly when all of
  // them are on the channel that is stamped, as is the one target of a reminder that names its own.
  lemma {:induction false} StampTrueExactly(list: seq<Reminder>, tick: Tick, i: nat)
    requires i in SentBy(list, tick) && !PollThrows(list, tick)
    ensures var r := list[i];
      (forall reached: nat -> bool | SomeTarget(r, tick.entries, reached) ::
         StampTrue(list, Reaching(tick, i, reached), i)) <==>
      (forall t | t in TargetsOf(r, tick.entries) :: t.channel == DeliveredOn(r, tick.entries))
    ensures ExplicitTarget(list[i], tick.entries).Some? ==>
              forall t | t in TargetsOf(list[i], tick.entries) :: t.channel == DeliveredOn(list[i], tick.entries)
  {
    var r := list[i];
    hide ParseTargets;
    hide PollThrows;
    hide SentBy;
    hide Poll;
    hide AllowedKeys;
    hide FateAt;
    hide ParseTarget;
    var ts := TargetsOf(r, tick.entries);
    StampKept(list, tick, i);
    forall reached: nat -> bool | SomeTarget(r, tick.entries, reached)
      ensures StampTrue(list, Reaching(tick, i, reached), i) <==>
        exists j | 0 <= j < |ts| :: reached(j) && ts[j].channel == DeliveredOn(r, tick.entries)
    {
      ReachedStamp(list, tick, i, reached);
    }
    hide StampTrue;
    if t :| t in ts && t.channel != DeliveredOn(r, tick.entries) {
      var j: nat :| j < |ts| && ts[j] == t;
      var reached := (k: nat) => k == j;
      assert reached(j);
      assert SomeTarget(r, tick.entries, reached) && !StampTrue(list, Reaching(tick, i, reached), i);
    }
  }

  // Polling again in the same surroundings delivers a delivered reminder again exactly when the first poll threw.
  lemma {:induction false} ResentExactly(list: seq<Reminder>, tick: Tick, i: nat)
    requires i in SentBy(list, tick)
    ensures i in SentBy(Poll(list, tick), tick) <==> PollThrows(list, tick)
  {
    StampKept(list, tick, i);
  }

  // ---- A stamp that names a channel no send reached ----

  const PLAIN: Reminder :=
    Reminder(true, "a", "call", At(0), None, true, "", "", "", "", "", None, None)

  // The first of two channels fails and the second is reached: the stamp names the first.
  lemma {:induction false} StampNamesFailed(tick: Tick)
    requires 0 <= tick.now <= MAX_TIME && tick.loads(0) && tick.writes
    requires tick.entries == [Fields("mail", "me", "", ""), Fields("chat", "me", "", "")]
    requires !tick.sends(0, 0) && tick.sends(0, 1)
    ensures SentBy([PLAIN], tick) == {0} && !PollThrows([PLAIN], tick)
    ensures Poll([PLAIN], tick)[0].deliveredOn == Some("mail") && !StampTrue([PLAIN], tick, 0)
  {
    var list := [PLAIN];
    var rest := tick.entries[1..];
    assert rest == [Fields("chat", "me", "", "")] && rest[1..] == [];
    assert ParseTargets(rest) == [Target("chat", "me", "", "")];
    var ts := TargetsOf(PLAIN, tick.entries);
    assert ts == [Target("mail", "me", "", ""), Target("chat", "me", "", "")];
    assert Delivers(PLAIN, 0, tick);
    assert FateAt(list, 0, tick).Sent?;
    assert DeliveredOn(PLAIN, tick.entries) == "mail";
    assert "mail" != "chat" by { assert "mail"[0] != "chat"[0]; }
  }
}
