/** Session numbers and worker restarts. */
module RelayTabsRestart {
  import opened Basics
  import opened RelayTabs
  import opened RelayTabsEffects
  import opened RelayTabsInvariants
  import opened RelayTabsTheorems
  import opened RelayTabsLimits

  // ---- No shared session, in any run ----

  lemma {:induction false} NoSharedSession(events: seq<Event>)
    ensures Unshared(Run(INIT, events).tables.tabs)
    ensures LocksExact(Run(INIT, events).locks, Run(INIT, events).handlers)
  {
    CoreRun(INIT, events);
  }

  // ---- Every live or persisted session number is below the counter ----

  // `n` names a tab, an index entry, a saved tab, or a tab in a save under way.
  ghost predicate InUse(s: State, n: int) {
    || Main(n) in Sessions(s.tables.tabs)
    || Main(n) in s.tables.index
    || (s.stored.Some? && Main(n) in Sessions(s.stored.value.entries))
    || exists h :: h in s.handlers && s.handlers[h].Saving? && Main(n) in Sessions(s.handlers[h].snapshot.entries)
  }

  // Once the saved state has been read, the saved counter is not above the live one.
  ghost predicate StoredBelow(s: State) {
    !s.phase.Loading? && s.stored.Some? ==> s.stored.value.nextSession <= s.tables.next
  }

  // The worker starts without reading a saved counter that had advanced.
  ghost predicate LosesCounter(s: State, e: Event) {
    e.SnapshotUnreadable? && s.phase.Loading? && s.stored.Some? && 1 < s.stored.value.nextSession
  }

  lemma {:induction false} PhaseKept(s: State, e: Event)
    ensures Step(s, e).phase.Loading? ==> e.Restart? || s.phase.Loading?
    ensures s.phase.Loading? && !Step(s, e).phase.Loading? ==> e.SnapshotRead? || e.SnapshotUnreadable?
  {
  }

  lemma {:induction false} NextGrows(s: State, e: Event)
    requires Core(s)
    ensures EffectOf(s, e).Cleared? <==> e.Restart?
    ensures !e.Restart? ==> s.tables.next <= Step(s, e).tables.next
    ensures e.SnapshotRead? && s.phase.Loading? ==>
              Step(s, e).tables.next == if s.stored.Some? then s.stored.value.nextSession else 1
  {
    StepEffect(s, e);
    GoodTablesApply(EffectOf(s, e), s.tables);
    match e
    case Resumed(h, reply) => if h in s.handlers { match s.handlers[h] case _ => }
    case _ =>
  }

  lemma {:induction false} StoredBelowStep(s: State, e: Event)
    requires Core(s) && StoredBelow(s)
    ensures StoredBelow(Step(s, e)) <==> !LosesCounter(s, e)
  {
    PhaseKept(s, e);
    NextGrows(s, e);
    StoredStep(s, e);
  }

  ghost predicate NeverLosesCounter(s: State, events: seq<Event>)
    decreases |events|
  {
    events == [] || (!LosesCounter(s, events[0]) && NeverLosesCounter(Step(s, events[0]), events[1..]))
  }

  lemma {:induction false} StoredBelowRun(s: State, events: seq<Event>)
    requires Core(s) && StoredBelow(s) && NeverLosesCounter(s, events)
    ensures Core(Run(s, events)) && StoredBelow(Run(s, events))
    decreases |events|
  {
    if events != [] {
      CoreStep(s, events[0]);
      StoredBelowStep(s, events[0]);
      StoredBelowRun(Step(s, events[0]), events[1..]);
    }
  }

  // In every reachable state, whatever was running when a worker died, all session numbers in use
  // are below the one issued next.
  lemma {:induction false} NextSessionUnused(events: seq<Event>, n: int)
    requires NeverLosesCounter(INIT, events) && !Run(INIT, events).phase.Loading?
    requires InUse(Run(INIT, events), n)
    ensures 1 <= n < Run(INIT, events).tables.next
  {
    StoredBelowRun(INIT, events);
    var s := Run(INIT, events);
    if h :| h in s.handlers && s.handlers[h].Saving? && Main(n) in Sessions(s.handlers[h].snapshot.entries) {
      assert GoodHandler(s.handlers[h], s.tables.next);
    }
  }

  // ---- Numbers issued by earlier workers ----

  // The counter that the next worker to start will read.
  function Saved(s: State): int { if s.stored.Some? then s.stored.value.nextSession else 1 }

  // The worker dies with numbers issued past the saved counter, or its successor cannot read that counter.
  ghost predicate LosesNumbers(s: State, e: Event) {
    (e.Restart? && !s.phase.Loading? && Saved(s) < s.tables.next) || LosesCounter(s, e)
  }

  // The counter is one past the largest number issued by this worker or an earlier one; so is what a worker that has
  // not read its state yet will read.
  ghost predicate Tight(s: State) {
    if s.phase.Loading? then s.highest == Saved(s) - 1 else s.highest == s.tables.next - 1 && Saved(s) <= s.tables.next
  }

  lemma {:induction false} HighestStep(s: State, e: Event)
    ensures Step(s, e).highest == if EffectOf(s, e).Entered? then Max(s.tables.next, s.highest) else s.highest
  {
  }

  lemma {:induction false} NextStep(s: State, e: Event)
    requires Core(s) && !s.phase.Loading? && !e.Restart?
    ensures Step(s, e).tables.next == s.tables.next + if EffectOf(s, e).Entered? then 1 else 0
  {
    StepEffect(s, e);
    match e
    case Resumed(h, reply) => if h in s.handlers { match s.handlers[h] case _ => }
    case _ =>
  }

  lemma {:induction false} TightStart(s: State, e: Event)
    requires Core(s) && Tight(s) && s.phase.Loading?
    ensures Tight(Step(s, e)) <==> !LosesNumbers(s, e)
  {
    assert s.handlers == map[];
  }

  // The account of issued numbers is kept by every step but a death with unsaved numbers and an unreadable counter.
  lemma {:induction false} TightStep(s: State, e: Event)
    requires Core(s) && Tight(s)
    ensures Tight(Step(s, e)) <==> !LosesNumbers(s, e)
  {
    if s.phase.Loading? {
      TightStart(s, e);
    } else if !e.Restart? {
      PhaseKept(s, e);
      NextStep(s, e);
      HighestStep(s, e);
      StoredStep(s, e);
    }
  }

  // After such a step the next number to be issued, once the saved state is read, was issued before.
  lemma {:induction false} LostNumberReturns(s: State, e: Event)
    requires Core(s) && Tight(s) && LosesNumbers(s, e)
    ensures var s' := if e.Restart? then Step(Step(s, e), SnapshotRead) else Step(s, e);
      1 <= s'.tables.next <= s.highest
  {
    if e.Restart? {
      CoreStep(s, e);
      NextGrows(Step(s, e), SnapshotRead);
    }
  }

  ghost predicate NeverLosesNumbers(s: State, events: seq<Event>)
    decreases |events|
  {
    events == [] || (!LosesNumbers(s, events[0]) && NeverLosesNumbers(Step(s, events[0]), events[1..]))
  }

  // The session numbers issued over a run, by whichever worker.
  ghost function Issued(s: State, events: seq<Event>): seq<int>
    decreases |events|
  {
    if events == [] then []
    else (if EffectOf(s, events[0]).Entered? then [s.tables.next] else []) + Issued(Step(s, events[0]), events[1..])
  }

  lemma {:induction false} IssuedInOrder(s: State, events: seq<Event>)
    requires Core(s) && Tight(s) && NeverLosesNumbers(s, events)
    ensures forall i | 0 <= i < |Issued(s, events)| :: Issued(s, events)[i] == s.highest + 1 + i
    decreases |events|
  {
    if events != [] {
      CoreStep(s, events[0]);
      TightStep(s, events[0]);
      HighestStep(s, events[0]);
      EnteredByReady(s, events[0]);
      IssuedInOrder(Step(s, events[0]), events[1..]);
    }
  }

  lemma {:induction false} EnteredByReady(s: State, e: Event)
    requires Core(s)
    ensures EffectOf(s, e).Entered? ==> !s.phase.Loading?
  {
  }

  // Over every run of workers that neither die with unsaved numbers nor fail to read their counter, the numbers
  // issued are 1, 2, 3, and so on: none is issued twice.
  lemma {:induction false} NeverIssuedTwice(events: seq<Event>)
    requires NeverLosesNumbers(INIT, events)
    ensures forall i | 0 <= i < |Issued(INIT, events)| :: Issued(INIT, events)[i] == i + 1
  {
    IssuedInOrder(INIT, events);
  }

  // A worker that dies before its first save commits has its session number issued again.
  lemma {:induction false} ReissuedAfterLostSave()
    ensures
      var first := Run(INIT, REACH_SAVING);
      var second := Run(first, [Restart] + REACH_SAVING);
      && HoldsSession(first.tables.tabs, 7, Main(1)) && HoldsSession(second.tables.tabs, 7, Main(1))
      && second.highest == 1
      && LosesNumbers(first, Restart)
  {
    ReachSavingFrom(0);
    var first := Run(INIT, REACH_SAVING);
    var dead := Fresh(None, 1);
    assert Step(first, Restart) == dead;
    assert ([Restart] + REACH_SAVING)[1..] == REACH_SAVING;
    ReachSavingFrom(1);
    RunThrough([first, dead, dead.(phase := Ready)], [Restart, SnapshotRead]);
  }

  const REACH_SAVING: seq<Event> :=
    [SnapshotRead, RelayOpened, ActionClicked(0, 7), Resumed(0, Succeeded), Resumed(0, Target("page"))]

  lemma {:induction false} ReachSavingFrom(highest: int)
    requires 0 <= highest <= 1
    ensures Run(Fresh(None, highest), REACH_SAVING) ==
            ONE_TAB.(locks := {7}, handlers := map[0 := Saving(Snapshot(ONE_TAB.tables.tabs, 2), Unlock(7))])
  {
    var s0 := Fresh(None, highest);
    var s1 := s0.(phase := Ready);
    var s2 := s1.(relayOpen := true);
    var s4 := SevenAttaching(s2);
    assert Step(s0, REACH_SAVING[0]) == s1;
    assert Step(s1, REACH_SAVING[1]) == s2;
    ClickSeven(s2);
    SevenIssued(s2);
    hide Step;
    RunThrough([s0, s1, s2, Step(s2, ActionClicked(0, 7)), s4, Step(s4, Resumed(0, Target("page")))], REACH_SAVING);
  }

  function SevenAttaching(s: State): State {
    s.(tables := EMPTY_TABLES.(tabs := map[7 := Connecting]), locks := {7},
       handlers := map[0 := Attaching(7, false, Toggle)])
  }

  lemma {:induction false} ClickSeven(s: State)
    requires s == Fresh(None, s.highest).(phase := Ready, relayOpen := true)
    ensures Step(Step(s, ActionClicked(0, 7)), Resumed(0, Succeeded)) == SevenAttaching(s)
  {
    var clicked := s.(tables := EMPTY_TABLES.(tabs := map[7 := Connecting]), locks := {7},
      handlers := map[0 := AwaitingRelay(7)]);
    assert Step(s, ActionClicked(0, 7)) == clicked;
  }

  lemma {:induction false} SevenIssued(s: State)
    requires s == Fresh(None, s.highest).(phase := Ready, relayOpen := true) && s.highest <= 1
    ensures Step(SevenAttaching(s), Resumed(0, Target("page"))) ==
            ONE_TAB.(locks := {7}, handlers := map[0 := Saving(Snapshot(ONE_TAB.tables.tabs, 2), Unlock(7))])
  {
    assert Issue(SevenAttaching(s).tables, 7, "page") == ONE_TAB.tables && Max(1, s.highest) == 1;
    assert ConnectedOnly(ONE_TAB.tables.tabs) == ONE_TAB.tables.tabs;
  }

  // ---- Rehydration ----

  function Verdicts(order: seq<TabId>, valid: TabId -> bool): seq<Event> {
    seq(|order|, i requires 0 <= i < |order| => RehydrateVerdict(order[i], valid(order[i])))
  }

  ghost predicate Enumerates(order: seq<TabId>, tabs: set<TabId>) {
    && (forall t :: t in order <==> t in tabs)
    && (forall i, j | 0 <= i < j < |order| :: order[i] != order[j])
  }

  // The tabs once those of `left` that do not answer are gone.
  ghost predicate Keeps(before: map<TabId, Tab>, left: set<TabId>, valid: TabId -> bool, after: map<TabId, Tab>) {
    after == map t | t in before && (t in left ==> valid(t)) :: before[t]
  }

  ghost predicate Agree(a: Tables) {
    Indexed(a) && PointsBack(a)
  }

  lemma {:induction false} VerdictStep(s: State, t: TabId, valid: bool)
    requires Core(s) && Agree(s.tables) && s.phase.Rehydrating? && t in s.phase.left
    ensures var s' := Step(s, RehydrateVerdict(t, valid)); var left := s.phase.left - {t};
      && Core(s') && Agree(s'.tables) && s'.tables.next == s.tables.next
      && s'.phase == (if left == map[] then Ready else Rehydrating(left))
      && s'.tables.tabs == if valid then s.tables.tabs else s.tables.tabs - {t}
  {
    var e, seen := RehydrateVerdict(t, valid), s.phase.left[t];
    CoreStep(s, e);
    assert s.tables.tabs[t] == seen && seen.Connected?;
    assert !HeldElsewhere(s.tables, seen.session, t);
    hide Core;
    hide HeldElsewhere;
    IndexedStep(s, e);
    PointsBackStep(s, e);
    hide Indexed;
    hide PointsBack;
  }

  lemma {:induction false} KeepsOneMore(before: map<TabId, Tab>, left: set<TabId>, t: TabId, valid: TabId -> bool,
      after: map<TabId, Tab>)
    requires t in left && t in before
    requires Keeps(if valid(t) then before else before - {t}, left - {t}, valid, after)
    ensures Keeps(before, left, valid, after)
  {
  }

  // Validation keeps exactly the tabs that answer, with their index entries.
  lemma {:induction false} ValidatingRun(s: State, order: seq<TabId>, valid: TabId -> bool)
    requires Core(s) && Agree(s.tables) && s.phase.Rehydrating?
    requires Enumerates(order, s.phase.left.Keys)
    ensures var s' := Run(s, Verdicts(order, valid));
      && s'.phase.Ready? && Agree(s'.tables) && s'.tables.next == s.tables.next
      && Keeps(s.tables.tabs, s.phase.left.Keys, valid, s'.tables.tabs)
    decreases |order|
  {
    EnumeratesNothing(order, s.phase.left.Keys);
    NoKeys(s.phase.left);
    var t := order[0];
    assert t in order && t in s.phase.left;
    assert Verdicts(order, valid)[1..] == Verdicts(order[1..], valid);
    VerdictStep(s, t, valid(t));
    var s1 := Step(s, RehydrateVerdict(t, valid(t)));
    var left := s.phase.left - {t};
    TailEnumerates(order, s.phase.left.Keys);
    assert left.Keys == s.phase.left.Keys - {t};
    var s' := Run(s1, Verdicts(order[1..], valid));
    if left == map[] {
      EnumeratesNothing(order[1..], left.Keys);
      assert s' == s1;
    } else {
      ValidatingRun(s1, order[1..], valid);
    }
    KeepsOneMore(s.tables.tabs, s.phase.left.Keys, t, valid, s'.tables.tabs);
  }

  lemma {:induction false} NoKeys(m: map<TabId, Tab>)
    ensures m == map[] <==> m.Keys == {}
  {
  }

  lemma {:induction false} EnumeratesNothing(order: seq<TabId>, tabs: set<TabId>)
    requires Enumerates(order, tabs)
    ensures order == [] <==> tabs == {}
  {
    if order != [] {
      assert order[0] in order && order[0] in tabs;
    } else {
      forall t ensures t !in tabs { assert t !in order; }
      assert tabs == {};
    }
  }

  lemma {:induction false} TailEnumerates(order: seq<TabId>, tabs: set<TabId>)
    requires Enumerates(order, tabs) && order != []
    ensures Enumerates(order[1..], tabs - {order[0]})
  {
  }

  lemma {:induction false} ReadsSaved(saved: Snapshot, highest: int)
    requires GoodSnapshot(saved)
    ensures var s := Step(Fresh(Some(saved), highest), SnapshotRead);
      && Core(s) && Agree(s.tables) && s.tables.tabs == saved.entries && s.tables.next == saved.nextSession
      && s.phase == if saved.entries == map[] then Ready else Rehydrating(saved.entries)
  {
    var s := Fresh(Some(saved), highest);
    assert Core(s) && Indexed(s.tables) && PointsBack(s.tables);
    CoreStep(s, SnapshotRead);
    hide Core;
    hide GoodSnapshot;
    IndexedStep(s, SnapshotRead);
    PointsBackStep(s, SnapshotRead);
    hide Indexed;
    hide PointsBack;
    hide IndexOf;
  }

  // A worker that reads a saved state keeps exactly the saved tabs that pass validation, exactly
  // their index entries, and the saved counter.
  lemma {:induction false} RehydrationExact(saved: Snapshot, highest: int, order: seq<TabId>, valid: TabId -> bool)
    requires GoodSnapshot(saved) && Enumerates(order, saved.entries.Keys)
    ensures var s' := Run(Fresh(Some(saved), highest), [SnapshotRead] + Verdicts(order, valid));
      && s'.phase.Ready?
      && s'.tables.tabs == (map t | t in saved.entries && valid(t) :: saved.entries[t])
      && Agree(s'.tables)
      && s'.tables.next == saved.nextSession
  {
    var s := Fresh(Some(saved), highest);
    var s1 := Step(s, SnapshotRead);
    ReadsSaved(saved, highest);
    hide Core;
    hide Agree;
    hide Step;
    hide GoodSnapshot;
    assert ([SnapshotRead] + Verdicts(order, valid))[1..] == Verdicts(order, valid);
    if saved.entries == map[] {
      EnumeratesNothing(order, saved.entries.Keys);
    } else {
      ValidatingRun(s1, order, valid);
    }
  }

  // A worker that dies after its state was saved comes back with the same connected tabs and counter,
  // provided every tab still answers.
  lemma {:induction false} RestartRestores(s: State, h: nat, order: seq<TabId>)
    requires Core(s) && h in s.handlers && s.handlers[h].Saving? && s.handlers[h].snapshot == TakeSnapshot(s.tables)
    requires Enumerates(order, ConnectedOnly(s.tables.tabs).Keys)
    ensures var s' := Run(s, [SaveCommitted(h), Restart, SnapshotRead] + Verdicts(order, t => true));
      && s'.tables.tabs == ConnectedOnly(s.tables.tabs)
      && Agree(s'.tables)
      && s'.tables.next == s.tables.next
  {
    SnapshotGood(s.tables);
    var saved := TakeSnapshot(s.tables);
    var rest := [SnapshotRead] + Verdicts(order, t => true);
    var events := [SaveCommitted(h), Restart, SnapshotRead] + Verdicts(order, t => true);
    assert events[1..] == [Restart] + rest && ([Restart] + rest)[1..] == rest;
    assert Run(s, events) == Run(Fresh(Some(saved), s.highest), rest);
    RehydrationExact(saved, s.highest, order, t => true);
  }
}
