/** Runs of polls: what they keep, when none throws, and how often a recurring reminder is delivered. */
module ReminderRuns {
  import opened Arithmetic
  import opened Basics
  import opened Reminders

  function ListAfter(list: seq<Reminder>, ticks: seq<Tick>): (after: seq<Reminder>)
    ensures |after| == |list|
    decreases |ticks|
  {
    if ticks == [] then list else ListAfter(Poll(list, ticks[0]), ticks[1..])
  }

  // The positions of the reminders that the k-th poll sends.
  function SentIn(list: seq<Reminder>, ticks: seq<Tick>, k: nat): set<nat>
    requires k < |ticks|
  {
    SentBy(ListAfter(list, ticks[..k]), ticks[k])
  }

  // The due time of a reminder, counting a delivered occurrence as half a step further.
  function Progress(r: Reminder): int {
    if r.triggerAt.Unparsable? then 0 else 2 * r.triggerAt.ms + (if r.deliveredAt.Some? then 1 else 0)
  }

  ghost predicate Follows(r: Reminder, r': Reminder) {
    && r'.id == r.id && Live(r') == Live(r) && r'.recurring == r.recurring
    && (r.triggerAt.At? <==> r'.triggerAt.At?)
    && Progress(r) <= Progress(r')
  }

  lemma {:induction false} PollFollows(list: seq<Reminder>, tick: Tick, i: nat)
    requires i < |list|
    ensures Follows(list[i], Poll(list, tick)[i])
    ensures i in SentBy(list, tick) && !PollThrows(list, tick) ==>
              list[i].triggerAt.At? && list[i].deliveredAt.None? &&
                Progress(Poll(list, tick)[i]) == 2 * list[i].triggerAt.ms + 1
  {
    hide CronToMs;
  }

  lemma {:induction false} RunFollows(list: seq<Reminder>, ticks: seq<Tick>, i: nat)
    requires i < |list|
    ensures Follows(list[i], ListAfter(list, ticks)[i])
    decreases |ticks|
  {
    hide CronToMs;
    if ticks != [] {
      PollFollows(list, ticks[0], i);
      RunFollows(Poll(list, ticks[0]), ticks[1..], i);
    }
  }

  lemma {:induction false} ListAfterSplit(list: seq<Reminder>, xs: seq<Tick>, ys: seq<Tick>)
    ensures ListAfter(list, xs + ys) == ListAfter(ListAfter(list, xs), ys)
    decreases |xs|
  {
    if xs == [] {
      assert xs + ys == ys;
    } else {
      assert (xs + ys)[0] == xs[0] && (xs + ys)[1..] == xs[1..] + ys;
      ListAfterSplit(Poll(list, xs[0]), xs[1..], ys);
    }
  }

  // The list after k polls, seen from the j-th poll.
  lemma {:induction false} ListAfterPoll(list: seq<Reminder>, ticks: seq<Tick>, j: nat, k: nat)
    requires j < k <= |ticks|
    ensures ListAfter(list, ticks[..k]) == ListAfter(Poll(ListAfter(list, ticks[..j]), ticks[j]), ticks[j + 1..k])
  {
    assert ticks[..k] == ticks[..j] + ticks[j..k];
    ListAfterSplit(list, ticks[..j], ticks[j..k]);
    assert ticks[j..k][1..] == ticks[j + 1..k];
  }

  // Two deliveries of one reminder, the first by a poll that does not throw, are for different occurrences: the
  // later one was due strictly later.
  lemma {:induction false} LaterDeliveryLaterTrigger(list: seq<Reminder>, ticks: seq<Tick>, j: nat, k: nat, i: nat)
    requires j < k < |ticks| && i in SentIn(list, ticks, j) && i in SentIn(list, ticks, k)
    requires !PollThrows(ListAfter(list, ticks[..j]), ticks[j])
    ensures var before, after := ListAfter(list, ticks[..j])[i], ListAfter(list, ticks[..k])[i];
      before.triggerAt.At? && after.triggerAt.At? && before.triggerAt.ms < after.triggerAt.ms
  {
    PollFollows(ListAfter(list, ticks[..j]), ticks[j], i);
    StampKept(ListAfter(list, ticks[..k]), ticks[k], i);
    ListAfterPoll(list, ticks, j, k);
    RunFollows(Poll(ListAfter(list, ticks[..j]), ticks[j]), ticks[j + 1..k], i);
  }

  // ---- Runs in which no poll throws ----

  ghost predicate NeverThrows(list: seq<Reminder>, ticks: seq<Tick>)
    decreases |ticks|
  {
    ticks == [] || (!PollThrows(list, ticks[0]) && NeverThrows(Poll(list, ticks[0]), ticks[1..]))
  }

  // No record is null, and delivered recurring reminders can still be advanced within the range of dates.
  ghost predicate Advanceable(list: seq<Reminder>) {
    forall r | r in list :: r.present &&
      (r.active && r.deliveredAt.Some? && r.recurring.Some? ==> r.triggerAt.At? && r.triggerAt.ms <= MAX_TIME - DAY)
  }

  // The clock is in the range of dates, the configuration loads and the file can be written.
  ghost predicate Sound(tick: Tick) {
    -MAX_TIME <= tick.now <= MAX_TIME - DAY && tick.writes && forall i :: tick.loads(i)
  }

  lemma {:induction false} AdvanceablePoll(list: seq<Reminder>, tick: Tick)
    requires Advanceable(list) && Sound(tick)
    ensures !PollThrows(list, tick) && Advanceable(Poll(list, tick))
  {
    hide CronToMs;
    forall i | 0 <= i < |list| ensures !FateAt(list, i, tick).Threw? {
      var r := list[i];
      assert r in list;
      if r.active && r.deliveredAt.Some? && r.recurring.Some? {
        NextWithinDay(r.triggerAt.ms, CronToMs(r.recurring.value), tick.now);
      }
    }
  }

  lemma {:induction false} NextWithinDay(trigger: int, step: int, now: int)
    requires 0 < step <= DAY && trigger <= MAX_TIME - DAY && now <= MAX_TIME - DAY
    ensures NextAfter(trigger, step, now) <= MAX_TIME
  {
    if trigger + step <= now { DivFloor(now - trigger, step); }
  }

  // While no record is null, times are in the range of dates, with a day to spare, the configuration loads and the
  // file can be written, no poll throws.
  lemma {:induction false} SoundNeverThrows(list: seq<Reminder>, ticks: seq<Tick>)
    requires Advanceable(list) && forall k | 0 <= k < |ticks| :: Sound(ticks[k])
    ensures NeverThrows(list, ticks)
    decreases |ticks|
  {
    if ticks != [] {
      AdvanceablePoll(list, ticks[0]);
      SoundNeverThrows(Poll(list, ticks[0]), ticks[1..]);
    }
  }

  // ---- How often a recurring reminder fires ----

  // The deliveries of the i-th record by polls that do not throw.
  ghost function Deliveries(list: seq<Reminder>, ticks: seq<Tick>, i: nat): nat
    requires i < |list|
    decreases |ticks|
  {
    if ticks == [] then 0
    else Delivery(list, ticks[0], i) + Deliveries(Poll(list, ticks[0]), ticks[1..], i)
  }

  ghost function Delivery(list: seq<Reminder>, tick: Tick, i: nat): nat {
    if i in SentBy(list, tick) && !PollThrows(list, tick) then 1 else 0
  }

  // With `n` deliveries so far, the reminder has moved on by as many steps, but for a last one
  // that is stamped and not yet advanced, and the last delivery was due by `latest`.
  ghost predicate Paced(r: Reminder, t0: int, step: int, n: nat, latest: int) {
    && r.recurring.Some? && CronToMs(r.recurring.value) == step && r.triggerAt.At?
    && t0 + (n - (if r.deliveredAt.Some? then 1 else 0)) * step <= r.triggerAt.ms
    && (n > 0 ==> t0 + (n - 1) * step <= latest)
  }

  lemma {:induction false} PacedPoll(list: seq<Reminder>, tick: Tick, i: nat, t0: int, n: nat, latest: int)
    requires i < |list| && tick.now <= latest
    requires list[i].recurring.Some? && Paced(list[i], t0, CronToMs(list[i].recurring.value), n, latest)
    ensures Poll(list, tick)[i].recurring == list[i].recurring
    ensures Paced(Poll(list, tick)[i], t0, CronToMs(list[i].recurring.value), n + Delivery(list, tick, i), latest)
  {
    hide CronToMs;
    if PollThrows(list, tick) {
      assert Poll(list, tick) == list;
    } else if i in SentBy(list, tick) {
      StampKept(list, tick, i);
    } else {
      PollDelivers(list, tick, i);
      var r := list[i];
      if Live(r) && r.deliveredAt.Some? {
        NextAfterLeast(r.triggerAt.ms, CronToMs(r.recurring.value), tick.now, 1);
      }
    }
  }

  lemma {:induction false} PacedRun(list: seq<Reminder>, ticks: seq<Tick>, i: nat, t0: int, n: nat, latest: int)
    requires i < |list|
    requires forall k | 0 <= k < |ticks| :: ticks[k].now <= latest
    requires list[i].recurring.Some? && Paced(list[i], t0, CronToMs(list[i].recurring.value), n, latest)
    ensures var m := n + Deliveries(list, ticks, i);
      m > 0 ==> t0 + (m - 1) * CronToMs(list[i].recurring.value) <= latest
    decreases |ticks|
  {
    hide Poll;
    hide Delivery;
    if ticks != [] {
      PacedPoll(list, ticks[0], i, t0, n, latest);
      PacedRun(Poll(list, ticks[0]), ticks[1..], i, t0, n + Delivery(list, ticks[0], i), latest);
    }
  }

  // Over any run, a recurring reminder first due at t0 is delivered at most floor((latest - t0) / step) + 1 times by
  // polls that do not throw.
  lemma {:induction false} DeliveriesBounded(list: seq<Reminder>, ticks: seq<Tick>, i: nat, latest: int)
    requires i < |list|
    requires list[i].recurring.Some? && list[i].triggerAt.At? && list[i].deliveredAt.None?
    requires forall k | 0 <= k < |ticks| :: ticks[k].now <= latest
    ensures var t0, step := list[i].triggerAt.ms, CronToMs(list[i].recurring.value);
      Deliveries(list, ticks, i) == 0 || Deliveries(list, ticks, i) <= (latest - t0) / step + 1
  {
    var t0, step := list[i].triggerAt.ms, CronToMs(list[i].recurring.value);
    PacedRun(list, ticks, i, t0, 0, latest);
    DivBound(latest - t0, step, Deliveries(list, ticks, i) - 1);
  }

  // ---- A throw loses stamps ----

  const BROKEN: Reminder :=
    Reminder(true, "b", "daily", Unparsable, Some("daily"), true, "", "", "", "", "", Some(0), Some("x"))

  // A delivered recurring reminder with an unparsable trigger makes every poll throw after sending
  // what precedes it, so the same occurrence goes out on each poll.
  lemma {:induction false} ResentAfterThrow(tick: Tick)
    requires 0 <= tick.now && tick.entries == [Fields("mail", "me", "", "")] && tick.loads(0) && tick.sends(0, 0)
    ensures var list := [PLAIN, BROKEN];
      SentIn(list, [tick, tick], 0) == {0} && SentIn(list, [tick, tick], 1) == {0} &&
      ListAfter(list, [tick]) == list
  {
    var list := [PLAIN, BROKEN];
    assert ParseTargets(tick.entries) == [Target("mail", "me", "", "")];
    assert Delivers(PLAIN, 0, tick);
    assert FateAt(list, 1, tick) == Threw(false);
    assert [tick, tick][..0] == [] && [tick, tick][..1] == [tick];
    if tick.now <= MAX_TIME {
      assert FateAt(list, 0, tick).Sent?;
      assert ThrowsAt(list, 0, tick) == ThrowsAt(list, 1, tick) == 1;
    } else {
      assert FateAt(list, 0, tick) == Threw(true);
      assert ThrowsAt(list, 0, tick) == 0;
    }
    assert ListAfter(list, [tick]) == list by { assert [tick][1..] == []; }
  }
}
