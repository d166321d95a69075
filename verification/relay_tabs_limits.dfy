/** Where the relay's tables go stale: the exact steps, and runs that reach them. */
module RelayTabsLimits {
  import opened Basics
  import opened RelayTabs
  import opened RelayTabsEffects
  import opened RelayTabsInvariants
  import opened RelayTabsTheorems

  // ---- Index entries without a tab ----

  // Each index entry names a tab that holds the session.
  ghost predicate PointsBack(a: Tables) {
    forall k | k in a.index :: HoldsSession(a.tabs, a.index[k], k)
  }

  // The effect deletes or overwrites a connected tab's record and leaves its index entry.
  ghost predicate Strands(x: Effect, a: Tables) {
    match x
    case Dropped(t) => IsConnected(a, t)
    case Entered(t, _) => IsConnected(a, t)
    case Marked(t) => IsConnected(a, t)
    case Moved(added, removed) => added != removed && removed in a.tabs && IsConnected(a, added)
    case Discarded(t, seen) => seen.Connected? && IsConnected(a, t) && a.tabs[t].session != seen.session
    case _ => false
  }

  lemma {:induction false} PointsBackApply(x: Effect, a: Tables)
    requires GoodTables(a) && Indexed(a) && PointsBack(a)
    requires x.Loaded? ==> GoodSnapshot(x.saved)
    ensures PointsBack(Apply(x, a)) <==> !Strands(x, a)
  {
    var after := Apply(x, a);
    if Strands(x, a) {
      var t := if x.Moved? then x.added else x.tab;
      assert a.tabs[t].session in after.index;
    } else {
      forall k | k in after.index ensures HoldsSession(after.tabs, after.index[k], k) {
        if k in a.index { assert HoldsSession(a.tabs, a.index[k], k); }
      }
    }
  }

  // From tables that agree both ways, a step leaves a dangling entry exactly in these cases.
  lemma {:induction false} PointsBackStep(s: State, e: Event)
    requires Core(s) && Indexed(s.tables) && PointsBack(s.tables)
    ensures PointsBack(Step(s, e).tables) <==> !Strands(EffectOf(s, e), s.tables)
  {
    StepEffect(s, e);
    PointsBackApply(EffectOf(s, e), s.tables);
  }

  // ---- Child sessions without a parent ----

  ghost predicate HasChild(a: Tables, tab: TabId) {
    exists c :: c in a.children && a.children[c] == tab
  }

  // Each recorded child session belongs to a connected tab.
  ghost predicate ChildrenLive(a: Tables) {
    forall c | c in a.children :: IsConnected(a, a.children[c])
  }

  ghost predicate Orphans(x: Effect, a: Tables) {
    match x
    case Dropped(t) => HasChild(a, t)
    case Marked(t) => HasChild(a, t)
    case Discarded(t, seen) => seen.Connected? && HasChild(a, t)
    case Moved(added, removed) =>
      added != removed && removed in a.tabs && a.tabs[removed].Connecting? && HasChild(a, added)
    case ChildRecorded(_, t) => !IsConnected(a, t)
    case Loaded(saved) => exists c :: c in a.children && a.children[c] !in saved.entries
    case _ => false
  }

  lemma {:induction false} ChildrenApply(x: Effect, a: Tables)
    requires ChildrenLive(a)
    requires x.Loaded? ==> GoodSnapshot(x.saved)
    ensures ChildrenLive(Apply(x, a)) <==> !Orphans(x, a)
  {
    var after := Apply(x, a);
    if Orphans(x, a) {
      if x.ChildRecorded? {
        assert x.child in after.children;
      } else if x.Loaded? {
        var c :| c in a.children && a.children[c] !in x.saved.entries;
        assert c in after.children;
      } else {
        var c :| c in a.children && a.children[c] == if x.Moved? then x.added else x.tab;
        assert c in after.children && !IsConnected(after, after.children[c]);
      }
    } else {
      forall c | c in after.children ensures IsConnected(after, after.children[c]) {
        if c in a.children { assert IsConnected(a, a.children[c]); }
      }
    }
  }

  // From live children, a step orphans one exactly in these cases.
  lemma {:induction false} ChildrenStep(s: State, e: Event)
    requires Core(s) && ChildrenLive(s.tables)
    ensures ChildrenLive(Step(s, e).tables) <==> !Orphans(EffectOf(s, e), s.tables)
  {
    StepEffect(s, e);
    ChildrenApply(EffectOf(s, e), s.tables);
  }

  // Detach, navigation and close all delete through Forget: no child of the tab is left, and every
  // other child stays where it was.
  lemma {:induction false} ForgottenChildren(s: State, e: Event)
    requires EffectOf(s, e).Forgotten?
    ensures var tab := EffectOf(s, e).tab; var after := Step(s, e).tables;
      && !HasChild(after, tab) && tab !in after.tabs
      && forall c :: c in after.children <==> c in s.tables.children && s.tables.children[c] != tab
  {
  }

  // Closing a tab leaves it childless unless the relay did not track it and it already had children.
  lemma {:induction false} CloseLeavesNoChild(s: State, h: nat, tab: TabId)
    requires Starts(s, h)
    ensures HasChild(Step(s, TabRemoved(h, tab)).tables, tab) <==> tab !in s.tables.tabs && HasChild(s.tables, tab)
  {
  }

  // A replacement moves the children of the removed tab and no others.
  lemma {:induction false} ReplacementMovesChildren(s: State, h: nat, added: TabId, removed: TabId)
    requires Starts(s, h) && removed in s.tables.tabs
    ensures var after := Step(s, TabReplaced(h, added, removed)).tables.children;
      && after.Keys == s.tables.children.Keys
      && (forall c | c in after ::
            after[c] == if s.tables.children[c] == removed then added else s.tables.children[c])
      && (added != removed ==> forall c | c in after :: after[c] != removed)
  {
  }

  // ---- Runs that reach the stale states ----

  // A run passes through the states its steps give.
  lemma {:induction false} RunThrough(states: seq<State>, events: seq<Event>)
    requires |states| == |events| + 1
    requires forall i | 0 <= i < |events| :: states[i + 1] == Step(states[i], events[i])
    ensures Run(states[0], events) == states[|events|]
    decreases |events|
  {
    if events != [] {
      RunThrough(states[1..], events[1..]);
    }
  }

  const TAB_SEVEN: Tab := Connected(Main(1), "page", 1)

  // A worker with one connected tab, number 7, that was attached over an open relay.
  const ONE_TAB: State :=
    State(Ready, Tables(map[7 := TAB_SEVEN], map[Main(1) := 7], map[], 2), {}, {}, true, map[], None, 1)

  const REACH_ONE_TAB: seq<Event> :=
    [SnapshotRead, RelayOpened, ActionClicked(0, 7), Resumed(0, Succeeded), Resumed(0, Target("page")),
      Resumed(0, Succeeded)]

  lemma {:induction false} OneTabReached()
    ensures Run(INIT, REACH_ONE_TAB) == ONE_TAB
  {
  }

  // The worker with the one tab, waiting for the tab to answer a re-announcement.
  function Asking(a: Tables): State { ONE_TAB.(tables := a, handlers := map[0 := Validating(7, TAB_SEVEN)]) }

  lemma {:induction false} AskingReached(a: Tables)
    requires a.tabs == map[7 := TAB_SEVEN]
    ensures var s := ONE_TAB.(tables := a);
      Step(Step(s, ReannounceStarted(0)), Resumed(0, Visit(7))) == Asking(a)
  {
    var s := ONE_TAB.(tables := a);
    assert Step(s, ReannounceStarted(0)) == s.(handlers := map[0 := Announcing]);
  }

  lemma {:induction false} MoveSeven()
    ensures Move(ONE_TAB.tables, 8, 7) ==
            ONE_TAB.tables.(tabs := map[8 := TAB_SEVEN], index := map[Main(1) := 8])
  {
  }

  const MOVED_SEVEN: Tables := ONE_TAB.tables.(tabs := map[8 := TAB_SEVEN], index := map[Main(1) := 8])

  lemma {:induction false} SevenReplaced()
    ensures var s := Step(Asking(ONE_TAB.tables), TabReplaced(1, 8, 7));
      s.tables == MOVED_SEVEN && 0 in s.handlers && s.handlers[0] == Validating(7, TAB_SEVEN)
  {
    MoveSeven();
    hide Move;
    hide TakeSnapshot;
  }

  lemma {:induction false} ReplacedThenFailed()
    ensures var s := Step(Step(Asking(ONE_TAB.tables), TabReplaced(1, 8, 7)), Resumed(0, Failed));
      s.tables.tabs == map[8 := TAB_SEVEN] && s.tables.index == map[]
  {
    SevenReplaced();
    var s := Step(Asking(ONE_TAB.tables), TabReplaced(1, 8, 7));
    hide Replaced;
    assert Step(s, Resumed(0, Failed)).tables == Discard(MOVED_SEVEN, 7, TAB_SEVEN);
    assert Discard(MOVED_SEVEN, 7, TAB_SEVEN) == MOVED_SEVEN.(index := map[]);
  }

  // Replacing a tab while its re-announce validation is awaited loses its index entry.
  lemma {:induction false} ReplacedWhileValidated()
    ensures
      var s := Run(ONE_TAB,
                   [ReannounceStarted(0), Resumed(0, Visit(7)), TabReplaced(1, 8, 7), Resumed(0, Failed)]);
      s.tables.tabs == map[8 := TAB_SEVEN] && s.tables.index == map[] && !Indexed(s.tables)
  {
    var events := [ReannounceStarted(0), Resumed(0, Visit(7)), TabReplaced(1, 8, 7), Resumed(0, Failed)];
    AskingReached(ONE_TAB.tables);
    ReplacedThenFailed();
    FourSteps(ONE_TAB, events);
    hide Step;
    var s := Run(ONE_TAB, events);
    assert 8 in s.tables.tabs;
  }

  lemma {:induction false} FourSteps(s: State, events: seq<Event>)
    requires |events| == 4
    ensures Run(s, events) == Step(Step(Step(Step(s, events[0]), events[1]), events[2]), events[3])
  {
    hide Step;
    var s1 := Step(s, events[0]);
    var s2 := Step(s1, events[1]);
    var s3 := Step(s2, events[2]);
    RunThrough([s, s1, s2, s3, Step(s3, events[3])], events);
  }

  // A tab that stops answering is discarded by the re-announcement without its child sessions.
  lemma {:induction false} OrphanedByReannounce()
    ensures
      var s := Run(
        ONE_TAB,
        [ChildAttached(7, Foreign("frame")), ReannounceStarted(0), Resumed(0, Visit(7)), Resumed(0, Failed)]);
      s.tables.tabs == map[] && s.tables.children == map[Foreign("frame") := 7] && !ChildrenLive(s.tables)
  {
    var events := [ChildAttached(7, Foreign("frame")), ReannounceStarted(0), Resumed(0, Visit(7)), Resumed(0, Failed)];
    var a := ONE_TAB.tables.(children := map[Foreign("frame") := 7]);
    assert Step(ONE_TAB, events[0]) == ONE_TAB.(tables := a);
    AskingReached(a);
    SevenDiscarded(a);
    FourSteps(ONE_TAB, events);
    hide Step;
    var s := Run(ONE_TAB, events);
    assert Foreign("frame") in s.tables.children;
  }

  lemma {:induction false} SevenDiscarded(a: Tables)
    requires a.tabs == map[7 := TAB_SEVEN] && a.index == map[Main(1) := 7]
    ensures Step(Asking(a), Resumed(0, Failed)).tables == a.(tabs := map[], index := map[])
  {
  }

  // A worker whose relay is not open, about to be told the target of the one tab.
  const ATTACHING_SEVEN: State :=
    INIT.(phase := Ready, tables := EMPTY_TABLES.(tabs := map[7 := Connecting]), locks := {7},
          handlers := map[0 := Attaching(7, false, Toggle)])

  lemma {:induction false} AttachingReached()
    ensures Step(Step(Step(INIT, SnapshotRead), ActionClicked(0, 7)), Resumed(0, Succeeded)) == ATTACHING_SEVEN
  {
    assert Step(INIT, SnapshotRead) == INIT.(phase := Ready);
    assert Step(INIT.(phase := Ready), ActionClicked(0, 7)) == ATTACHING_SEVEN.(handlers := map[0 := AwaitingRelay(7)]);
  }

  lemma {:induction false} ThrownAnnouncement()
    ensures var s := Step(Step(ATTACHING_SEVEN, Resumed(0, Target("page"))), Resumed(0, Failed));
      s.tables.tabs == map[] && s.tables.index == map[Main(1) := 7] && s.locks == {}
  {
    assert Step(ATTACHING_SEVEN, Resumed(0, Target("page"))) ==
      ATTACHING_SEVEN.(tables := ONE_TAB.tables, highest := 1, handlers := map[0 := AttachThrew(7, Toggle)]);
  }

  // The announcement throws after both maps were entered; the click's catch deletes only the record.
  lemma {:induction false} DanglingAfterThrownAnnouncement()
    ensures
      var s := Run(INIT, [SnapshotRead, ActionClicked(0, 7), Resumed(0, Succeeded), Resumed(0, Target("page")),
                          Resumed(0, Failed)]);
      s.tables.tabs == map[] && s.tables.index == map[Main(1) := 7] && s.locks == {} && !PointsBack(s.tables)
  {
    var events := [SnapshotRead, ActionClicked(0, 7), Resumed(0, Succeeded), Resumed(0, Target("page")),
      Resumed(0, Failed)];
    AttachingReached();
    ThrownAnnouncement();
    hide Step;
    assert Run(INIT, events) == Run(Step(INIT, SnapshotRead), events[1..]);
    FourSteps(Step(INIT, SnapshotRead), events[1..]);
    var s := Run(INIT, events);
    assert Main(1) in s.tables.index;
  }
}
