/** What a poll does with each record and to whom it sends, in the terms of the record and of the configured texts. */
module ReminderPolls {
  import opened Arithmetic
  import opened Basics
  import opened Text
  import opened Reminders

  // ---- Configured entries ----

  // The text names these four: channel:to, channel:to:account or channel:to:account:thread, with anything after them.
  ghost predicate Spells(s: string, channel: string, to: string, account: string, thread: string) {
    && channel != "" && to != "" && ':' !in channel && ':' !in to && ':' !in account && ':' !in thread
    && (|| (s == channel + ":" + to && account == "" && thread == "")
        || (s == channel + ":" + to + ":" + account && thread == "")
        || s == channel + ":" + to + ":" + account + ":" + thread
        || exists rest :: s == channel + ":" + to + ":" + account + ":" + thread + ":" + rest)
  }

  lemma {:induction false} SplitTwo(c: string, t: string)
    requires ':' !in c && ':' !in t
    ensures Split(c + ":" + t, ':') == [c, t]
  {
    SplitPrefix(c, t, ':');
    SplitWhole(t, ':');
  }

  lemma {:induction false} SplitMore(c: string, rest: string)
    requires ':' !in c
    ensures Split(c + ":" + rest, ':') == [c] + Split(rest, ':')
  {
    SplitPrefix(c, rest, ':');
  }

  lemma {:induction false} SpellsSplit(s: string, c: string, t: string, a: string, h: string)
    requires Spells(s, c, t, a, h)
    ensures var parts := Split(s, ':');
      && |parts| >= 2 && parts[0] == c && parts[1] == t
      && a == (if |parts| > 2 then parts[2] else "") && h == (if |parts| > 3 then parts[3] else "")
  {
    hide Split;
    if s == c + ":" + t && a == "" && h == "" {
      SplitTwo(c, t);
    } else if s == c + ":" + t + ":" + a && h == "" {
      assert s == c + ":" + (t + ":" + a);
      SplitMore(c, t + ":" + a);
      SplitTwo(t, a);
    } else if s == c + ":" + t + ":" + a + ":" + h {
      assert s == c + ":" + (t + ":" + (a + ":" + h));
      SplitMore(c, t + ":" + (a + ":" + h));
      SplitMore(t, a + ":" + h);
      SplitTwo(a, h);
    } else {
      var rest :| s == c + ":" + t + ":" + a + ":" + h + ":" + rest;
      assert s == c + ":" + (t + ":" + (a + ":" + (h + ":" + rest)));
      SplitMore(c, t + ":" + (a + ":" + (h + ":" + rest)));
      SplitMore(t, a + ":" + (h + ":" + rest));
      SplitMore(a, h + ":" + rest);
      SplitMore(h, rest);
    }
  }

  lemma {:induction false} SplitSpells(s: string)
    requires var parts := Split(s, ':'); |parts| >= 2 && parts[0] != "" && parts[1] != ""
    ensures var parts := Split(s, ':');
      Spells(s, parts[0], parts[1], if |parts| > 2 then parts[2] else "", if |parts| > 3 then parts[3] else "")
  {
    JoinSplit(s, ':');
    var parts := Split(s, ':');
    hide Split;
    JoinMore(parts);
    if |parts| > 2 {
      JoinMore(parts[1..]);
      if |parts| > 3 {
        JoinMore(parts[2..]);
        if |parts| > 4 {
          JoinMore(parts[3..]);
          var rest := Join(parts[4..], ':');
          hide Join;
          assert s == parts[0] + ":" + parts[1] + ":" + parts[2] + ":" + parts[3] + ":" + rest;
        } else {
          hide Join;
          assert s == parts[0] + ":" + parts[1] + ":" + parts[2] + ":" + parts[3];
        }
      } else {
        hide Join;
        assert s == parts[0] + ":" + parts[1] + ":" + parts[2];
      }
    }
  }

  lemma {:induction false} JoinMore(parts: seq<string>)
    requires |parts| >= 2
    ensures Join(parts, ':') == parts[0] + ":" + Join(parts[1..], ':')
    ensures |parts| == 2 ==> Join(parts[1..], ':') == parts[1]
  {
    assert [':'] == ":";
  }

  // A configured text is read as the target that it spells, and as none when it spells none.
  lemma {:induction false} TextTarget(s: string, u: Target)
    ensures ParseTarget(Text(s)) == Some(u) <==> Spells(s, u.channel, u.to, u.accountId, u.threadId)
  {
    var parts := Split(s, ':');
    if Spells(s, u.channel, u.to, u.accountId, u.threadId) {
      SpellsSplit(s, u.channel, u.to, u.accountId, u.threadId);
    } else if |parts| >= 2 && parts[0] != "" && parts[1] != "" {
      SplitSpells(s);
    }
  }

  // An object is read as its own fields when its channel and recipient are not empty, and anything else as no target.
  lemma {:induction false} FieldsTarget(entry: Entry, u: Target)
    requires !entry.Text?
    ensures ParseTarget(entry) == Some(u) <==>
      && entry.Fields? && u.channel != "" && u.to != "" && u.channel == entry.channel && u.to == entry.to
      && u.accountId == entry.accountId && u.threadId == entry.threadId
  {
  }

  // The targets of a list of entries are those of its entries, in their order.
  lemma {:induction false} TargetsInOrder(first: seq<Entry>, entry: Entry, rest: seq<Entry>)
    ensures ParseTargets([]) == []
    ensures var here := match ParseTarget(entry) case None => [] case Some(t) => [t];
      ParseTargets(first + [entry] + rest) == ParseTargets(first) + here + ParseTargets(rest)
    decreases |first|
  {
    hide ParseTarget;
    var all := first + [entry] + rest;
    if first == [] {
      assert all == [entry] + rest;
      assert all[1..] == rest;
    } else {
      assert all[1..] == first[1..] + [entry] + rest;
      TargetsInOrder(first[1..], entry, rest);
    }
  }

  // A configured target has the channel and the recipient that the record names.
  ghost predicate Configured(r: Reminder, entries: seq<Entry>) {
    exists t :: t in ParseTargets(entries) && t.channel == r.channel && t.to == r.to
  }

  // A record that names a configured channel and recipient goes there alone, with its own account and thread, and any
  // other to all configured targets, when no name of a channel has a colon.
  lemma {:induction false} PollTargets(r: Reminder, entries: seq<Entry>)
    requires ':' !in r.channel && forall t | t in ParseTargets(entries) :: ':' !in t.channel
    ensures TargetsOf(r, entries) ==
            if r.channel != "" && r.to != "" && Configured(r, entries)
            then [Target(r.channel, r.to, r.accountId, r.threadId)] else ParseTargets(entries)
  {
    hide ParseTargets;
    if Configured(r, entries) {
      var t :| t in ParseTargets(entries) && t.channel == r.channel && t.to == r.to;
      assert Key(t.channel, t.to) == Key(r.channel, r.to);
    } else if Key(r.channel, r.to) in AllowedKeys(entries) {
      var t :| t in ParseTargets(entries) && Key(t.channel, t.to) == Key(r.channel, r.to);
      KeyInjective(t.channel, t.to, r.channel, r.to);
    }
  }

  // ---- Recurrence ----

  // A cron text with these first two words steps by a minute, an hour or a day, and by a day when it has fewer than
  // five words.
  lemma {:induction false} CronSteps(b0: string, minute: string, b1: string, hour: string, rest: string)
    requires Blank(b0) && Word(minute) && Blank(b1) && b1 != "" && Word(hour) && (rest == "" || IsSpace(rest[0]))
    ensures CronToMs(b0 + minute + (b1 + hour + rest)) == (
      if |Words(rest)| < 3 then 86_400_000
      else if hour != "*" then 86_400_000
      else if minute != "*" then 3_600_000
      else 60_000
    )
  {
    hide *;
    TwoWords(b0, minute, b1, hour, rest);
    CronWords(b0 + minute + (b1 + hour + rest), minute, hour, Words(rest));
  }

  lemma {:induction false} TwoWords(b0: string, first: string, b1: string, second: string, rest: string)
    requires Blank(b0) && Word(first) && Blank(b1) && b1 != "" && Word(second) && (rest == "" || IsSpace(rest[0]))
    ensures Words(b0 + first + (b1 + second + rest)) == [first] + ([second] + Words(rest))
  {
    hide *;
    BlankStart(b1);
    var tail := b1 + second + rest;
    assert tail[0] == b1[0];
    FirstWord(b0, first, tail);
    FirstWord(b1, second, rest);
  }

  lemma {:induction false} BlankStart(b: string)
    requires Blank(b) && b != ""
    ensures IsSpace(b[0])
  {
    assert b[0] in b;
  }

  lemma {:induction false} CronWords(expr: string, minute: string, hour: string, rest: seq<string>)
    requires Words(expr) == [minute] + ([hour] + rest)
    ensures CronToMs(expr) == (
      if |rest| < 3 then 86_400_000
      else if hour != "*" then 86_400_000
      else if minute != "*" then 3_600_000
      else 60_000
    )
  {
    hide Words;
  }

  lemma {:induction false} CronShort(expr: string)
    requires |Words(expr)| < 5
    ensures CronToMs(expr) == 86_400_000
  {
    hide Words;
  }

  // ---- One poll ----

  // The record waits for its time, which has come.
  predicate Waiting(r: Reminder, now: int) {
    r.present && r.active && r.deliveredAt.None? && r.triggerAt.At? && r.triggerAt.ms <= now
  }

  // A send of the poll to one of the record's targets arrives.
  ghost predicate Arrives(list: seq<Reminder>, tick: Tick, i: nat)
    requires i < |list|
  {
    exists j: nat | j < |TargetsOf(list[i], tick.entries)| :: tick.sends(i, j)
  }

  // The record is stamped and recurs.
  predicate Recurs(r: Reminder) {
    r.present && r.active && r.deliveredAt.Some? && r.recurring.Some?
  }

  // The record's time is the least one after the poll that is a whole number of steps, at least one, after the old one.
  ghost predicate MovedOn(r: Reminder, r': Reminder, now: int) {
    && r.recurring.Some? && r.triggerAt.At? && r'.triggerAt.At?
    && r' == r.(triggerAt := r'.triggerAt, deliveredAt := None, deliveredOn := None)
    && now < r'.triggerAt.ms
    && (exists k :: k >= 1 && r'.triggerAt.ms == r.triggerAt.ms + k * CronToMs(r.recurring.value))
    && forall k | k >= 1 && now < r.triggerAt.ms + k * CronToMs(r.recurring.value) ::
         r'.triggerAt.ms <= r.triggerAt.ms + k * CronToMs(r.recurring.value)
  }

  // What a poll that does not throw makes of each record: one that waits and is reached is stamped with the time and a
  // channel, one that recurs is moved on, and every other stays as it is.
  lemma {:induction false} PollExactly(list: seq<Reminder>, tick: Tick, i: nat)
    requires i < |list| && !PollThrows(list, tick)
    ensures var r, r' := list[i], Poll(list, tick)[i];
      && (i in SentBy(list, tick) <==> Waiting(r, tick.now) && Arrives(list, tick, i))
      && (Waiting(r, tick.now) && Arrives(list, tick, i) ==>
            r' == r.(deliveredAt := Some(tick.now), deliveredOn := Some(DeliveredOn(r, tick.entries))))
      && (Recurs(r) ==> MovedOn(r, r', tick.now))
      && (!Recurs(r) && !(Waiting(r, tick.now) && Arrives(list, tick, i)) ==> r' == r)
  {
    hide TargetsOf;
    hide CronToMs;
    var r := list[i];
    assert Delivers(r, i, tick) <==> Arrives(list, tick, i);
    assert !FateAt(list, i, tick).Threw?;
    if Recurs(r) {
      Steps(r.triggerAt.ms, CronToMs(r.recurring.value), tick.now);
    }
  }

  lemma {:induction false} Steps(trigger: int, step: int, now: int)
    requires step > 0
    ensures var next := NextAfter(trigger, step, now);
      && now < next && (exists k :: k >= 1 && next == trigger + k * step)
      && forall k | k >= 1 && now < trigger + k * step :: next <= trigger + k * step
  {
    forall k | k >= 1 && now < trigger + k * step ensures NextAfter(trigger, step, now) <= trigger + k * step {
      NextAfterLeast(trigger, step, now, k);
    }
    NextAfterLeast(trigger, step, now, 1);
    if now >= trigger + step {
      DivBound(now - trigger, step, 1);
      assert NextAfter(trigger, step, now) == trigger + ((now - trigger) / step + 1) * step;
    } else {
      assert trigger + step == trigger + 1 * step;
    }
  }

  // The channel that a stamp names: the record's own when it is allowed, else that of the first entry.
  lemma {:induction false} StampedChannel(r: Reminder, entries: seq<Entry>)
    ensures Key(r.channel, r.to) in AllowedKeys(entries) && r.channel != "" && r.to != "" ==>
              DeliveredOn(r, entries) == r.channel
    ensures Key(r.channel, r.to) !in AllowedKeys(entries) || r.channel == "" || r.to == "" ==>
              DeliveredOn(r, entries) ==
                if entries != [] && ParseTarget(entries[0]).Some? then ParseTarget(entries[0]).value.channel
                else "unknown"
  {
    hide ParseTargets;
  }

  // A poll, also one that throws, sends exactly for the records that wait and are reached while the configuration
  // loads, up to the first one that it cannot handle; that one is still sent when only its stamp fails.
  lemma {:induction false} SendsExactly(list: seq<Reminder>, tick: Tick, i: nat)
    requires i < |list|
    ensures i in SentBy(list, tick) <==>
      && Waiting(list[i], tick.now) && Arrives(list, tick, i) && tick.loads(i)
      && forall j | 0 <= j < i :: !Unhandled(list, j, tick)
  {
    forall j | 0 <= j < |list| ensures FateAt(list, j, tick).Threw? <==> Unhandled(list, j, tick) {
      FateOutcome(list, j, tick);
    }
    hide Unhandled;
    hide TargetsOf;
    assert Delivers(list[i], i, tick) <==> Arrives(list, tick, i);
    SentFate(list, tick, i);
    hide FateAt;
    hide Arrives;
    var k := ThrowsAt(list, 0, tick);
    if k < i { assert Unhandled(list, k, tick); }
  }

  lemma {:induction false} SentFate(list: seq<Reminder>, tick: Tick, i: nat)
    requires i < |list|
    ensures FateAt(list, i, tick).Sent? || FateAt(list, i, tick) == Threw(true) <==>
      Waiting(list[i], tick.now) && Arrives(list, tick, i) && tick.loads(i)
  {
    hide TargetsOf;
    assert Delivers(list[i], i, tick) <==> Arrives(list, tick, i);
  }
}
