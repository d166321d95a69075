/** At most once: in how many polls an occurrence, an id with a trigger time, is delivered. */
module ReminderOccurrences {
  import opened Arithmetic
  import opened Basics
  import opened Reminders
  import opened ReminderRuns

  // The i-th record is that occurrence, and the k-th poll, which does not throw, delivers it.
  ghost predicate DeliversAt(list: seq<Reminder>, ticks: seq<Tick>, id: string, at: int, k: nat, i: nat)
    requires k < |ticks|
  {
    && !PollThrows(ListAfter(list, ticks[..k]), ticks[k])
    && i in SentIn(list, ticks, k)
    && ListAfter(list, ticks[..k])[i].id == id && ListAfter(list, ticks[..k])[i].triggerAt == At(at)
  }

  ghost predicate DeliveredIn(list: seq<Reminder>, ticks: seq<Tick>, id: string, at: int, k: nat)
    requires k < |ticks|
  {
    exists i: nat :: DeliversAt(list, ticks, id, at, k, i)
  }

  ghost function Polls(list: seq<Reminder>, ticks: seq<Tick>, id: string, at: int): set<nat> {
    set k: nat | k < |ticks| && DeliveredIn(list, ticks, id, at, k)
  }

  // ---- The records that come to an occurrence ----

  // An active record that waits at the time, or recurs and lies a number of whole steps before it.
  predicate Coming(r: Reminder, at: int) {
    && Live(r) && r.triggerAt.At?
    && (|| (r.deliveredAt.None? && r.triggerAt.ms == at)
        || (r.recurring.Some? && r.triggerAt.ms < at &&
            (at - r.triggerAt.ms) % CronToMs(r.recurring.value) == 0))
  }

  function Comers(list: seq<Reminder>, id: string, at: int): set<nat> {
    set i | 0 <= i < |list| && list[i].id == id && Coming(list[i], at) :: i
  }

  // A poll makes no record come to a time to which it did not come before.
  lemma {:induction false} ComingPoll(list: seq<Reminder>, tick: Tick, i: nat, at: int)
    requires i < |list| && Coming(Poll(list, tick)[i], at)
    ensures Coming(list[i], at)
  {
    hide CronToMs;
    var r, r' := list[i], Poll(list, tick)[i];
    if r.recurring.Some? && r.triggerAt.At? {
      var step := CronToMs(r.recurring.value);
      NextAfterLeast(r.triggerAt.ms, step, tick.now, 1);
      if r'.triggerAt.ms < at && (at - r'.triggerAt.ms) % step == 0 {
        MultipleSum(at - r'.triggerAt.ms, r'.triggerAt.ms - r.triggerAt.ms, step);
      }
    }
  }

  lemma {:induction false} ComingRun(list: seq<Reminder>, ticks: seq<Tick>, i: nat, at: int)
    requires i < |list| && Coming(ListAfter(list, ticks)[i], at)
    ensures Coming(list[i], at)
    decreases |ticks|
  {
    hide Coming;
    if ticks != [] {
      ComingRun(Poll(list, ticks[0]), ticks[1..], i, at);
      ComingPoll(list, ticks[0], i, at);
    }
  }

  lemma {:induction false} DeliveredComes(list: seq<Reminder>, ticks: seq<Tick>, k: nat, i: nat, at: int)
    requires k < |ticks| && i in SentIn(list, ticks, k) && ListAfter(list, ticks[..k])[i].triggerAt == At(at)
    ensures i in Comers(list, ListAfter(list, ticks[..k])[i].id, at)
  {
    StampKept(ListAfter(list, ticks[..k]), ticks[k], i);
    ComingRun(list, ticks[..k], i, at);
    RunFollows(list, ticks[..k], i);
  }

  // ---- A bound for every list ----

  // A record delivers an occurrence in at most one poll that does not throw.
  lemma {:induction false} RecordOnce(
    list: seq<Reminder>, ticks: seq<Tick>, id: string, at: int, j: nat, k: nat, i: nat
  )
    requires j <= k < |ticks| && DeliversAt(list, ticks, id, at, j, i) && DeliversAt(list, ticks, id, at, k, i)
    ensures j == k
  {
    if j < k { LaterDeliveryLaterTrigger(list, ticks, j, k, i); }
  }

  // A set that maps one-to-one into another is no larger.
  lemma {:induction false} OneToOne(from: set<nat>, to: set<nat>, f: map<nat, nat>)
    requires forall x | x in from :: x in f && f[x] in to
    requires forall x, y | x in from && y in from && x != y :: f[x] != f[y]
    ensures |from| <= |to|
    decreases |from|
  {
    if x :| x in from { OneToOne(from - {x}, to - {f[x]}, f); }
  }

  ghost function Deliverer(list: seq<Reminder>, ticks: seq<Tick>, id: string, at: int, k: nat): (i: nat)
    requires k in Polls(list, ticks, id, at)
    ensures DeliversAt(list, ticks, id, at, k, i)
  {
    var i: nat :| DeliversAt(list, ticks, id, at, k, i); i
  }

  // Over any list and any polls with any failures, an occurrence is delivered in at most as many polls that do not
  // throw as there are records that come to it.
  lemma {:induction false} AtMostComers(list: seq<Reminder>, ticks: seq<Tick>, id: string, at: int)
    ensures |Polls(list, ticks, id, at)| <= |Comers(list, id, at)|
  {
    var polls, comers := Polls(list, ticks, id, at), Comers(list, id, at);
    var f: map<nat, nat> := map k | k in polls :: Deliverer(list, ticks, id, at, k);
    forall k | k in polls ensures f[k] in comers {
      DeliveredComes(list, ticks, k, f[k], at);
    }
    hide *;
    forall j, k | j in polls && k in polls && j != k ensures f[j] != f[k] {
      if f[j] == f[k] {
        if j <= k { RecordOnce(list, ticks, id, at, j, k, f[j]); } else { RecordOnce(list, ticks, id, at, k, j, f[j]); }
      }
    }
    OneToOne(polls, comers, f);
  }

  lemma {:induction false} AtMostOneElement(s: set<nat>, x: nat, y: nat)
    requires |s| <= 1 && x in s && y in s
    ensures x == y
  {
    if x != y { OneToOne({x, y}, s, map[x := x, y := y]); }
  }

  // An occurrence to which one record comes is delivered by that record only, and in at most one poll, unless the
  // first poll that delivers it throws.
  lemma {:induction false} AtMostOnce(
    list: seq<Reminder>, ticks: seq<Tick>, id: string, at: int, j: nat, k: nat, i: nat, i': nat
  )
    requires |Comers(list, id, at)| <= 1 && j <= k < |ticks|
    requires i in SentIn(list, ticks, j) && i' in SentIn(list, ticks, k)
    requires ListAfter(list, ticks[..j])[i].id == id && ListAfter(list, ticks[..j])[i].triggerAt == At(at)
    requires ListAfter(list, ticks[..k])[i'].id == id && ListAfter(list, ticks[..k])[i'].triggerAt == At(at)
    ensures i == i' && (j == k || PollThrows(ListAfter(list, ticks[..j]), ticks[j]))
  {
    DeliveredComes(list, ticks, j, i, at);
    DeliveredComes(list, ticks, k, i', at);
    AtMostOneElement(Comers(list, id, at), i, i');
    hide *;
    if j < k && !PollThrows(ListAfter(list, ticks[..j]), ticks[j]) { LaterDeliveryLaterTrigger(list, ticks, j, k, i); }
  }

  // ---- Two records that come to an occurrence deliver it twice ----

  // A poll with one channel, in which nothing fails but the sends of all reminders that are not reached.
  function Calm(now: int, reached: nat -> bool): Tick {
    Tick(now, [Fields("mail", "me", "", "")], _ => true, (i: nat, j: nat) => reached(i), true)
  }

  function Only(i: nat): nat -> bool { k => k == i }

  lemma {:induction false} CalmDelivers(r: Reminder, i: nat, now: int, reached: nat -> bool)
    ensures Delivers(r, i, Calm(now, reached)) <==> reached(i)
  {
    var tick := Calm(now, reached);
    assert ParseTargets(tick.entries) == [Target("mail", "me", "", "")];
    assert TargetsOf(r, tick.entries) != [];
    assert tick.sends(i, 0) == reached(i);
  }

  // A record under the id that is due at the time and not yet delivered.
  predicate Waits(list: seq<Reminder>, i: nat, id: string, at: int) {
    && i < |list| && list[i].id == id && Live(list[i])
    && list[i].deliveredAt.None? && list[i].triggerAt == At(at)
  }

  // Just before the time, a poll moves a stamped record that comes to it on to it, and leaves one that waits for it.
  lemma {:induction false} StampedWaits(list: seq<Reminder>, i: nat, id: string, at: int, reached: nat -> bool)
    requires Advanceable(list) && -MAX_TIME < at <= MAX_TIME - DAY && i in Comers(list, id, at)
    requires list[i].deliveredAt.Some? || list[i].triggerAt == At(at)
    ensures Waits(Poll(list, Calm(at - 1, reached)), i, id, at)
  {
    hide CronToMs;
    var tick := Calm(at - 1, reached);
    AdvanceablePoll(list, tick);
    assert !FateAt(list, i, tick).Threw?;
    hide Calm;
    hide TargetsOf;
    if list[i].recurring.Some? { NextIs(list[i].triggerAt.ms, CronToMs(list[i].recurring.value), at); }
  }

  // Just before the time, a poll that reaches a record that waits for an earlier one stamps it.
  lemma {:induction false} EarlierStamped(list: seq<Reminder>, i: nat, id: string, at: int, reached: nat -> bool)
    requires Advanceable(list) && -MAX_TIME < at <= MAX_TIME - DAY && i in Comers(list, id, at) && reached(i)
    requires list[i].deliveredAt.None? && list[i].triggerAt != At(at)
    ensures Poll(list, Calm(at - 1, reached))[i].deliveredAt.Some?
    ensures i in Comers(Poll(list, Calm(at - 1, reached)), id, at)
  {
    hide CronToMs;
    var tick := Calm(at - 1, reached);
    AdvanceablePoll(list, tick);
    CalmDelivers(list[i], i, at - 1, reached);
    PollDelivers(list, tick, i);
    StampKept(list, tick, i);
  }

  // Just before the time, a poll that reaches all and one that reaches none leave a record that comes to it waiting.
  lemma {:induction false} ComerWaits(list: seq<Reminder>, i: nat, id: string, at: int)
    requires Advanceable(list) && -MAX_TIME < at <= MAX_TIME - DAY && i in Comers(list, id, at)
    ensures Waits(ListAfter(list, [Calm(at - 1, _ => true), Calm(at - 1, _ => false)]), i, id, at)
  {
    var all, none := Calm(at - 1, _ => true), Calm(at - 1, _ => false);
    var after := Poll(list, all);
    assert ListAfter(list, [all, none]) == Poll(after, none) by {
      assert [all, none][1..] == [none] && [none][1..] == [];
      assert ListAfter(after, [none]) == ListAfter(Poll(after, none), []);
    }
    AdvanceablePoll(list, all);
    hide Calm;
    hide Poll;
    if list[i].deliveredAt.Some? || list[i].triggerAt == At(at) {
      StampedWaits(list, i, id, at, _ => true);
    } else {
      EarlierStamped(list, i, id, at, _ => true);
    }
    StampedWaits(after, i, id, at, _ => false);
  }

  lemma {:induction false} NextIs(trigger: int, step: int, at: int)
    requires 0 < step
    ensures trigger < at && (at - trigger) % step == 0 ==> NextAfter(trigger, step, at - 1) == at
  {
    if trigger < at && (at - trigger) % step == 0 {
      var k := (at - trigger) / step;
      DivFloor(at - trigger, step);
      DivBound(at - trigger, step, 1);
      assert at == trigger + k * step;
      NextAfterLeast(trigger, step, at - 1, k);
    }
  }

  // Of two records that wait for the time, a poll then that reaches only the first delivers that one only.
  lemma {:induction false} OnlyOne(list: seq<Reminder>, i: nat, j: nat, id: string, at: int)
    requires Waits(list, i, id, at) && Waits(list, j, id, at) && i != j && !PollThrows(list, Calm(at, Only(i)))
    ensures i in SentBy(list, Calm(at, Only(i))) && Poll(list, Calm(at, Only(i)))[j] == list[j]
  {
    PollDelivers(list, Calm(at, Only(i)), i);
    PollDelivers(list, Calm(at, Only(i)), j);
    CalmDelivers(list[i], i, at, Only(i));
    CalmDelivers(list[j], j, at, Only(i));
  }

  function TwiceRun(at: int, i: nat, j: nat): seq<Tick> {
    [Calm(at - 1, _ => true), Calm(at - 1, _ => false), Calm(at, Only(i)), Calm(at, Only(j))]
  }

  lemma {:induction false} TwoComersTwice(list: seq<Reminder>, id: string, at: int, i: nat, j: nat)
    requires Advanceable(list) && -MAX_TIME < at <= MAX_TIME - DAY
    requires i in Comers(list, id, at) && j in Comers(list, id, at) && i != j
    ensures 2 in Polls(list, TwiceRun(at, i, j), id, at) && 3 in Polls(list, TwiceRun(at, i, j), id, at)
  {
    hide Comers;
    hide Poll;
    hide TargetsOf;
    var ticks := TwiceRun(at, i, j);
    assert ticks[..2] == [Calm(at - 1, _ => true), Calm(at - 1, _ => false)];
    var before := ListAfter(list, ticks[..2]);
    var after := Poll(before, ticks[2]);
    AdvanceableRun(list, ticks[..2]);
    ComerWaits(list, i, id, at);
    ComerWaits(list, j, id, at);
    AdvanceablePoll(before, ticks[2]);
    OnlyOne(before, i, j, id, at);
    ListAfterPoll(list, ticks, 2, 3);
    assert ticks[3..3] == [] && ListAfter(list, ticks[..3]) == after;
    AdvanceablePoll(after, ticks[3]);
    PollDelivers(after, ticks[3], j);
    CalmDelivers(after[j], j, at, Only(j));
    assert DeliversAt(list, ticks, id, at, 2, i);
    assert DeliversAt(list, ticks, id, at, 3, j);
  }

  lemma {:induction false} AdvanceableRun(list: seq<Reminder>, ticks: seq<Tick>)
    requires Advanceable(list) && forall k | 0 <= k < |ticks| :: Sound(ticks[k])
    ensures Advanceable(ListAfter(list, ticks))
    decreases |ticks|
  {
    if ticks != [] {
      AdvanceablePoll(list, ticks[0]);
      AdvanceableRun(Poll(list, ticks[0]), ticks[1..]);
    }
  }

  // An occurrence is delivered in at most one poll, over every run, exactly when at most one record comes to it.
  lemma {:induction false} OnceExactly(list: seq<Reminder>, id: string, at: int)
    requires Advanceable(list) && -MAX_TIME < at <= MAX_TIME - DAY
    ensures (forall ticks :: |Polls(list, ticks, id, at)| <= 1) <==> |Comers(list, id, at)| <= 1
  {
    var comers := Comers(list, id, at);
    forall ticks ensures |Polls(list, ticks, id, at)| <= |comers| {
      AtMostComers(list, ticks, id, at);
    }
    if |comers| > 1 {
      var i :| i in comers;
      assert comers == {i} + (comers - {i});
      var j :| j in comers - {i};
      TwoComersTwice(list, id, at, i, j);
      var polls := Polls(list, TwiceRun(at, i, j), id, at);
      if |polls| <= 1 { AtMostOneElement(polls, 2, 3); }
    }
  }

  // Two records under one id deliver the same occurrence in two polls, neither of which throws.
  lemma {:induction false} TwoRecordsTwice(first: Tick, second: Tick)
    requires 0 <= first.now <= MAX_TIME && 0 <= second.now <= MAX_TIME
    requires first.loads(0) && first.loads(1) && first.writes && second.loads(0) && second.loads(1) && second.writes
    requires first.entries == [Fields("mail", "me", "", "")] == second.entries
    requires first.sends(0, 0) && !first.sends(1, 0) && second.sends(1, 0)
    ensures Polls([PLAIN, PLAIN], [first, second], "a", 0) == {0, 1}
  {
    var list, ticks := [PLAIN, PLAIN], [first, second];
    assert ParseTargets(first.entries) == [Target("mail", "me", "", "")];
    assert Delivers(PLAIN, 0, first) && !Delivers(PLAIN, 1, first) && Delivers(PLAIN, 1, second);
    assert FateAt(list, 0, first).Sent? && FateAt(list, 1, first) == Kept;
    var after := Poll(list, first);
    assert after[1] == PLAIN && after[0].deliveredAt == Some(first.now) && after[0].recurring.None?;
    assert FateAt(after, 0, second) == Kept && FateAt(after, 1, second).Sent?;
    assert ticks[..0] == [] && ticks[..1] == [first] && [first][1..] == [];
    assert ListAfter(list, ticks[..1]) == after;
    assert DeliversAt(list, ticks, "a", 0, 0, 0);
    assert DeliversAt(list, ticks, "a", 0, 1, 1);
  }
}
