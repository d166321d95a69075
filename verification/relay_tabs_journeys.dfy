/** What a tab and the tables look like after a whole operation, in the terms of the tables themselves. */
module RelayTabsJourneys {
  import opened Basics
  import opened RelayTabs
  import opened RelayTabsInvariants
  import opened RelayTabsLimits
  import opened RelayTabsReattach
  import opened RelayTabsMarks

  // A new handler may take the number, and no operation on the tab is under way or awaited.
  predicate Idle(s: State, h: nat, tab: TabId) {
    s.phase.Ready? && h !in s.handlers && tab != 0 && tab !in s.locks && tab !in s.reattachPending
  }

  // The tab is connected under the next session number, and nothing else in the tables is different.
  predicate NewlyConnected(a: Tables, a': Tables, tab: TabId, targetId: string) {
    a' == Tables(a.tabs[tab := Connected(Main(a.next), targetId, a.next)], a.index[Main(a.next) := tab], a.children,
                 a.next + 1)
  }

  // Nothing is left of the connected tab: no record, no index entry of its session, no child of it.
  predicate Gone(a: Tables, a': Tables, tab: TabId)
    requires IsConnected(a, tab)
  {
    && a'.tabs == a.tabs - {tab} && a'.index == a.index - {a.tabs[tab].session} && a'.next == a.next
    && a'.children.Keys <= a.children.Keys
    && forall c | c in a.children ::
         if a.children[c] == tab then c !in a'.children else c in a'.children && a'.children[c] == a.children[c]
  }

  lemma {:induction false} ForgetGone(a: Tables, tab: TabId)
    requires IsConnected(a, tab)
    ensures Gone(a, Forget(a, tab), tab)
  {
  }

  lemma {:induction false} TwoSteps(s: State, a: Event, b: Event)
    ensures Run(s, [a, b]) == Step(Step(s, a), b)
  {
    hide Step;
    RunThrough([s, Step(s, a), Step(Step(s, a), b)], [a, b]);
  }

  lemma {:induction false} ThreeSteps(s: State, a: Event, b: Event, c: Event)
    ensures Run(s, [a, b, c]) == Step(Step(Step(s, a), b), c)
  {
    hide Step;
    var s1 := Step(s, a);
    var s2 := Step(s1, b);
    RunThrough([s, s1, s2, Step(s2, c)], [a, b, c]);
  }

  // ---- The toolbar button ----

  // A click on a tab that is not connected, with an open relay, connects it and leaves no lock and no handler.
  lemma {:induction false} ToggleOn(s: State, h: nat, tab: TabId, targetId: string)
    requires Idle(s, h, tab) && !IsConnected(s.tables, tab) && s.relayOpen && targetId != ""
    ensures var s' := Run(s, [ActionClicked(h, tab), Resumed(h, Succeeded), Resumed(h, Target(targetId)),
        Resumed(h, Succeeded)]);
      NewlyConnected(s.tables, s'.tables, tab, targetId) &&
      s' == s.(tables := s'.tables, highest := Max(s.tables.next, s.highest))
  {
    var events := [ActionClicked(h, tab), Resumed(h, Succeeded), Resumed(h, Target(targetId)), Resumed(h, Succeeded)];
    FourSteps(s, events);
    var locked := s.(tables := s.tables.(tabs := s.tables.tabs[tab := Connecting]), locks := s.locks + {tab});
    ClickConnects(s, h, tab);
    IssuedAndSaved(locked, h, tab, targetId);
    hide Step;
    assert s.tables.tabs[tab := Connecting][tab := Connected(Main(s.tables.next), targetId, s.tables.next)] ==
      s.tables.tabs[tab := Connected(Main(s.tables.next), targetId, s.tables.next)];
    assert s.locks + {tab} - {tab} == s.locks;
  }

  lemma {:induction false} ClickConnects(s: State, h: nat, tab: TabId)
    requires Idle(s, h, tab) && !IsConnected(s.tables, tab)
    ensures Step(Step(s, ActionClicked(h, tab)), Resumed(h, Succeeded)) ==
            Suspend(s.(tables := s.tables.(tabs := s.tables.tabs[tab := Connecting]), locks := s.locks + {tab}), h,
                    Attaching(tab, false, Toggle))
  {
    var locked := s.(tables := s.tables.(tabs := s.tables.tabs[tab := Connecting]), locks := s.locks + {tab});
    assert Step(s, ActionClicked(h, tab)) == Suspend(locked, h, AwaitingRelay(tab));
    assert s.handlers[h := AwaitingRelay(tab)][h := Attaching(tab, false, Toggle)] ==
      s.handlers[h := Attaching(tab, false, Toggle)];
  }

  lemma {:induction false} IssuedAndSaved(s: State, h: nat, tab: TabId, targetId: string)
    requires h !in s.handlers && s.relayOpen && targetId != ""
    ensures var s' := Step(Step(Suspend(s, h, Attaching(tab, false, Toggle)), Resumed(h, Target(targetId))),
        Resumed(h, Succeeded));
      s' == s.(tables := Issue(s.tables, tab, targetId), highest := Max(s.tables.next, s.highest),
               locks := s.locks - {tab})
  {
    hide TakeSnapshot;
    var attaching := Attaching(tab, false, Toggle);
    var issued := s.(tables := Issue(s.tables, tab, targetId), highest := Max(s.tables.next, s.highest));
    var saving := Saving(TakeSnapshot(issued.tables), Unlock(tab));
    assert Step(Suspend(s, h, attaching), Resumed(h, Target(targetId))) == Suspend(issued, h, saving) by {
      assert s.handlers[h := attaching][h := saving] == s.handlers[h := saving];
    }
    assert s.handlers[h := saving] - {h} == s.handlers;
  }

  // A click on a connected tab forgets it and leaves no lock and no handler.
  lemma {:induction false} ToggleOff(s: State, h: nat, tab: TabId, first: Reply, second: Reply)
    requires Idle(s, h, tab) && IsConnected(s.tables, tab)
    ensures var s' := Run(s, [ActionClicked(h, tab), Resumed(h, first), Resumed(h, second)]);
      Gone(s.tables, s'.tables, tab) && s' == s.(tables := s'.tables)
  {
    hide TakeSnapshot;
    ThreeSteps(s, ActionClicked(h, tab), Resumed(h, first), Resumed(h, second));
    ForgetGone(s.tables, tab);
    hide Forget;
    var locked := s.(tables := Forget(s.tables, tab), locks := s.locks + {tab});
    assert Step(s, ActionClicked(h, tab)) == Suspend(locked, h, Detaching(tab, Unlock(tab)));
    var saving := Saving(TakeSnapshot(locked.tables), Unlock(tab));
    assert Step(Suspend(locked, h, Detaching(tab, Unlock(tab))), Resumed(h, first)) == Suspend(locked, h, saving);
    assert s.handlers[h := saving] - {h} == s.handlers;
    assert s.locks + {tab} - {tab} == s.locks;
  }

  // A click that fails before the tab is attached leaves everything as it was, but for a record that was not connected.
  lemma {:induction false} ToggleFails(s: State, h: nat, tab: TabId)
    requires Idle(s, h, tab) && !IsConnected(s.tables, tab)
    ensures Run(s, [ActionClicked(h, tab), Resumed(h, Failed)]) ==
            s.(tables := s.tables.(tabs := s.tables.tabs - {tab}))
    ensures Run(s, [ActionClicked(h, tab), Resumed(h, Succeeded), Resumed(h, Failed)]) ==
            s.(tables := s.tables.(tabs := s.tables.tabs - {tab}))
  {
    TwoSteps(s, ActionClicked(h, tab), Resumed(h, Failed));
    ThreeSteps(s, ActionClicked(h, tab), Resumed(h, Succeeded), Resumed(h, Failed));
    var locked := s.(tables := s.tables.(tabs := s.tables.tabs[tab := Connecting]), locks := s.locks + {tab});
    assert Step(s, ActionClicked(h, tab)) == Suspend(locked, h, AwaitingRelay(tab));
    assert s.tables.tabs[tab := Connecting] - {tab} == s.tables.tabs - {tab};
    assert s.locks + {tab} - {tab} == s.locks;
    assert s.handlers[h := AwaitingRelay(tab)] - {h} == s.handlers;
    assert s.handlers[h := Attaching(tab, false, Toggle)] - {h} == s.handlers;
  }

  // Clicking a tab on and off gives back the tables, but for the session number that was used.
  lemma {:induction false} OnAndOff(s: State, h: nat, tab: TabId, targetId: string)
    requires Idle(s, h, tab) && s.relayOpen && targetId != "" && GoodTables(s.tables)
    requires tab !in s.tables.tabs && forall c | c in s.tables.children :: s.tables.children[c] != tab
    ensures var on := Run(s, [ActionClicked(h, tab), Resumed(h, Succeeded), Resumed(h, Target(targetId)),
        Resumed(h, Succeeded)]);
      var off := Run(on, [ActionClicked(h, tab), Resumed(h, Succeeded), Resumed(h, Succeeded)]);
      off == s.(tables := s.tables.(next := s.tables.next + 1), highest := Max(s.tables.next, s.highest))
  {
    ToggleOn(s, h, tab, targetId);
    var on := Run(s, [ActionClicked(h, tab), Resumed(h, Succeeded), Resumed(h, Target(targetId)),
      Resumed(h, Succeeded)]);
    ToggleOff(on, h, tab, Succeeded, Succeeded);
    var off := Run(on, [ActionClicked(h, tab), Resumed(h, Succeeded), Resumed(h, Succeeded)]);
    hide Run;
    assert Main(s.tables.next) !in s.tables.index;
    assert off.tables.index == s.tables.index;
    assert off.tables.tabs == s.tables.tabs;
    assert off.tables.children == s.tables.children;
  }

  // ---- Navigation ----

  // The detach of a page forgets its tab, marks it and starts the first attempt.
  lemma {:induction false} NavigationStarts(s: State, h: nat, tab: TabId)
    requires s.phase.Ready? && h !in s.handlers && tab != 0
    requires IsConnected(s.tables, tab) && tab !in s.reattachPending
    ensures var s' := Run(s, [DebuggerDetached(h, tab, false), Resumed(h, Succeeded)]);
      Gone(s.tables, s'.tables, tab) &&
      s' == s.(tables := s'.tables, reattachPending := s.reattachPending + {tab},
               handlers := s.handlers[h := Sleeping(tab, 0)])
  {
    TwoSteps(s, DebuggerDetached(h, tab, false), Resumed(h, Succeeded));
    ForgetGone(s.tables, tab);
    hide Forget;
    assert Step(s, DebuggerDetached(h, tab, false)) == Suspend(s, h, LookingUp(tab));
    assert s.handlers[h := LookingUp(tab)][h := Sleeping(tab, 0)] == s.handlers[h := Sleeping(tab, 0)];
  }

  // An attempt that succeeds, whether the relay is open or not, connects the tab under the next session number, takes
  // the mark away and ends the handler.
  lemma {:induction false} AttemptSucceeds(s: State, h: nat, tab: TabId, k: nat, targetId: string, last: Reply)
    requires h in s.handlers && s.handlers[h] == Sleeping(tab, k) && tab in s.reattachPending && targetId != ""
    ensures var s' := Run(s, [Resumed(h, Succeeded), Resumed(h, Succeeded), Resumed(h, Target(targetId)),
        Resumed(h, last)]);
      NewlyConnected(s.tables, s'.tables, tab, targetId) &&
      s' == s.(tables := s'.tables, highest := Max(s.tables.next, s.highest),
               reattachPending := s.reattachPending - {tab}, handlers := s.handlers - {h})
  {
    hide TakeSnapshot;
    var events := [Resumed(h, Succeeded), Resumed(h, Succeeded), Resumed(h, Target(targetId)), Resumed(h, last)];
    FourSteps(s, events);
    var attaching := Attaching(tab, !s.relayOpen, Reattach(k));
    assert Step(s, events[0]) == Suspend(s, h, Probing(tab, k));
    assert Step(Suspend(s, h, Probing(tab, k)), events[1]) == Suspend(s, h, attaching) by {
      assert s.handlers[h := Probing(tab, k)][h := attaching] == s.handlers[h := attaching];
    }
    var issued := s.(tables := Issue(s.tables, tab, targetId), highest := Max(s.tables.next, s.highest));
    var saving := Saving(TakeSnapshot(issued.tables), Settle(tab));
    assert Step(Suspend(s, h, attaching), events[2]) == Suspend(issued, h, saving) by {
      assert s.handlers[h := attaching][h := saving] == s.handlers[h := saving];
    }
    assert s.handlers[h := saving] - {h} == s.handlers - {h};
  }

  // In every reachable state, a failed attempt is followed by the next one after another sleep, and the fifth by none:
  // then the mark goes.
  lemma {:induction false} AttemptFails(events: seq<Event>, h: nat, tab: TabId, k: nat, reply: Reply)
    requires h in Run(INIT, events).handlers
    requires var handler := Run(INIT, events).handlers[h];
      || handler == AttachThrew(tab, Reattach(k))
      || (handler.Attaching? && handler.tab == tab && handler.caller == Reattach(k) &&
          (!reply.Target? || reply.targetId == ""))
    ensures var s, s' := Run(INIT, events), Step(Run(INIT, events), Resumed(h, reply));
      && k <= 4 && s'.tables == s.tables
      && (k < 4 ==> s' == s.(handlers := s.handlers[h := Sleeping(tab, k + 1)]))
      && (k == 4 ==> s' == s.(handlers := s.handlers - {h}, reattachPending := s.reattachPending - {tab}))
  {
    MarksAlways(events);
    var s := Run(INIT, events);
    assert FewAttempts(s.handlers[h]);
    hide Run;
    hide Attached;
  }

  // A tab that was closed meanwhile is not attached again.
  lemma {:induction false} ProbeFails(s: State, h: nat, tab: TabId, k: nat)
    requires h in s.handlers && s.handlers[h] == Probing(tab, k)
    ensures Step(s, Resumed(h, Failed)) ==
            s.(handlers := s.handlers - {h}, reattachPending := s.reattachPending - {tab})
  {
  }

  // A page whose re-attach is under way is not re-attached a second time.
  lemma {:induction false} NavigationTwice(s: State, h: nat, tab: TabId)
    requires s.phase.Ready? && h !in s.handlers && tab in s.reattachPending
    ensures Run(s, [DebuggerDetached(h, tab, false), Resumed(h, Succeeded)]) == s
  {
    TwoSteps(s, DebuggerDetached(h, tab, false), Resumed(h, Succeeded));
    assert s.handlers[h := LookingUp(tab)] - {h} == s.handlers;
  }

  // ---- Other ends of a tab ----

  // A detach by the user, or of a tab that shows no page, forgets the tab and does not mark it.
  lemma {:induction false} DetachForgets(s: State, h: nat, tab: TabId, first: Reply, second: Reply)
    requires s.phase.Ready? && h !in s.handlers && tab != 0 && IsConnected(s.tables, tab)
    ensures var s' := Run(s, [DebuggerDetached(h, tab, true), Resumed(h, first), Resumed(h, second)]);
      Gone(s.tables, s'.tables, tab) && s' == s.(tables := s'.tables)
    ensures var s' := Run(s, [DebuggerDetached(h, tab, false), Resumed(h, Failed), Resumed(h, first),
        Resumed(h, second)]);
      Gone(s.tables, s'.tables, tab) && s' == s.(tables := s'.tables)
  {
    hide TakeSnapshot;
    ThreeSteps(s, DebuggerDetached(h, tab, true), Resumed(h, first), Resumed(h, second));
    FourSteps(s, [DebuggerDetached(h, tab, false), Resumed(h, Failed), Resumed(h, first), Resumed(h, second)]);
    ForgetGone(s.tables, tab);
    hide Forget;
    var gone := s.(tables := Forget(s.tables, tab));
    var detaching, saving := Detaching(tab, Finish), Saving(TakeSnapshot(gone.tables), Finish);
    assert Step(s, DebuggerDetached(h, tab, true)) == Suspend(gone, h, detaching);
    assert Step(s, DebuggerDetached(h, tab, false)) == Suspend(s, h, LookingUp(tab));
    assert Step(Suspend(s, h, LookingUp(tab)), Resumed(h, Failed)) == Suspend(gone, h, detaching) by {
      assert s.handlers[h := LookingUp(tab)][h := detaching] == s.handlers[h := detaching];
    }
    assert Step(Suspend(gone, h, detaching), Resumed(h, first)) == Suspend(gone, h, saving) by {
      assert s.handlers[h := detaching][h := saving] == s.handlers[h := saving];
    }
    assert s.handlers[h := saving] - {h} == s.handlers;
  }

  // Closing a tab forgets it and takes its mark away.
  lemma {:induction false} CloseForgets(s: State, h: nat, tab: TabId, reply: Reply)
    requires s.phase.Ready? && h !in s.handlers
    ensures var s' := Run(s, [TabRemoved(h, tab), Resumed(h, reply)]);
      && (IsConnected(s.tables, tab) ==> Gone(s.tables, s'.tables, tab))
      && (tab !in s.tables.tabs ==> s'.tables == s.tables)
      && s' == s.(tables := s'.tables, reattachPending := s.reattachPending - {tab})
  {
    hide TakeSnapshot;
    TwoSteps(s, TabRemoved(h, tab), Resumed(h, reply));
    if IsConnected(s.tables, tab) { ForgetGone(s.tables, tab); }
    hide Forget;
    var gone := Forget(s.tables, tab);
    assert s.handlers[h := Saving(TakeSnapshot(gone), Finish)] - {h} == s.handlers;
  }

  // A replaced tab hands its record, session and children to the new one, if that has none of its own.
  lemma {:induction false} ReplaceHandsOver(s: State, h: nat, added: TabId, removed: TabId, reply: Reply)
    requires s.phase.Ready? && h !in s.handlers && IsConnected(s.tables, removed) && added !in s.tables.tabs
    ensures var s' := Run(s, [TabReplaced(h, added, removed), Resumed(h, reply)]);
      && s' == s.(tables := s'.tables) && s'.tables.next == s.tables.next
      && s'.tables.tabs == (s.tables.tabs - {removed})[added := s.tables.tabs[removed]]
      && s'.tables.index == s.tables.index[s.tables.tabs[removed].session := added]
      && s'.tables.children.Keys == s.tables.children.Keys
      && forall c | c in s.tables.children ::
           s'.tables.children[c] == if s.tables.children[c] == removed then added else s.tables.children[c]
  {
    hide TakeSnapshot;
    TwoSteps(s, TabReplaced(h, added, removed), Resumed(h, reply));
    var moved := Move(s.tables, added, removed);
    assert s.handlers[h := Saving(TakeSnapshot(moved), Finish)] - {h} == s.handlers;
  }

  // A relay that closes calls off every re-attach that has yet to look at its mark.
  lemma {:induction false} RelayLost(s: State)
    requires s.phase.Ready?
    ensures Step(s, RelayClosed) == s.(relayOpen := false, reattachPending := {})
    ensures forall h, tab, reply | BeforeMark(s, h, tab) && s.handlers[h].Sleeping? ::
      h !in Step(Step(s, RelayClosed), Resumed(h, reply)).handlers
  {
  }

  // ---- Child sessions ----

  // A child session of a connected tab is recorded while it is attached.
  lemma {:induction false} ChildComesAndGoes(s: State, tab: TabId, child: Session)
    requires s.phase.Ready? && tab != 0 && IsConnected(s.tables, tab) && child != Foreign("")
    ensures Step(s, ChildAttached(tab, child)) ==
            s.(tables := s.tables.(children := s.tables.children[child := tab]))
    ensures Step(s, ChildDetached(tab, child)) == s.(tables := s.tables.(children := s.tables.children - {child}))
    ensures child !in s.tables.children ==> Run(s, [ChildAttached(tab, child), ChildDetached(tab, child)]) == s
  {
    TwoSteps(s, ChildAttached(tab, child), ChildDetached(tab, child));
    if child !in s.tables.children { assert s.tables.children[child := tab] - {child} == s.tables.children; }
  }

  // A tab created on request is connected too, and without an answer nothing has changed.
  lemma {:induction false} CreateConnects(s: State, h: nat, tab: TabId, targetId: string, last: Reply)
    requires s.phase.Ready? && h !in s.handlers && tab != 0 && s.relayOpen && targetId != ""
    ensures var s' := Run(s, [TargetCreated(h, tab), Resumed(h, Target(targetId)), Resumed(h, last)]);
      NewlyConnected(s.tables, s'.tables, tab, targetId) &&
      s' == s.(tables := s'.tables, highest := Max(s.tables.next, s.highest))
    ensures Run(s, [TargetCreated(h, tab), Resumed(h, Failed)]) == s
  {
    hide TakeSnapshot;
    TwoSteps(s, TargetCreated(h, tab), Resumed(h, Failed));
    ThreeSteps(s, TargetCreated(h, tab), Resumed(h, Target(targetId)), Resumed(h, last));
    var attaching := Attaching(tab, false, CreateTarget);
    assert Step(s, TargetCreated(h, tab)) == Suspend(s, h, attaching);
    var issued := s.(tables := Issue(s.tables, tab, targetId), highest := Max(s.tables.next, s.highest));
    var saving := Saving(TakeSnapshot(issued.tables), Finish);
    assert Step(Suspend(s, h, attaching), Resumed(h, Target(targetId))) == Suspend(issued, h, saving) by {
      assert s.handlers[h := attaching][h := saving] == s.handlers[h := saving];
    }
    assert s.handlers[h := attaching] - {h} == s.handlers;
    assert s.handlers[h := saving] - {h} == s.handlers;
  }

  // ---- The re-announcement ----

  // The visits of a re-announcement: each tab with whether it answers.
  function Visits(h: nat, tabs: seq<(TabId, bool)>): seq<Event> {
    if tabs == [] then []
    else [Resumed(h, Visit(tabs[0].0)), Resumed(h, if tabs[0].1 then Succeeded else Failed)] + Visits(h, tabs[1..])
  }

  function Silent(tabs: seq<(TabId, bool)>): set<TabId> {
    set k | 0 <= k < |tabs| && !tabs[k].1 :: tabs[k].0
  }

  lemma {:induction false} VisitOne(s: State, h: nat, tab: TabId, answers: bool)
    requires h in s.handlers && s.handlers[h] == Announcing && IsConnected(s.tables, tab)
    ensures var s' := Run(s, [Resumed(h, Visit(tab)), Resumed(h, if answers then Succeeded else Failed)]);
      s' == if answers then s
            else s.(tables := s.tables.(tabs := s.tables.tabs - {tab},
                                        index := s.tables.index - {s.tables.tabs[tab].session}))
  {
    var seen, verdict := s.tables.tabs[tab], Resumed(h, if answers then Succeeded else Failed);
    TwoSteps(s, Resumed(h, Visit(tab)), verdict);
    assert Step(s, Resumed(h, Visit(tab))) == Suspend(s, h, Validating(tab, seen));
    assert s.handlers[h := Validating(tab, seen)][h := Announcing] == s.handlers;
  }

  lemma {:induction false} RunAppend(s: State, first: seq<Event>, second: seq<Event>)
    ensures Run(s, first + second) == Run(Run(s, first), second)
    decreases |first|
  {
    hide Step;
    if first == [] {
      assert first + second == second;
    } else {
      assert (first + second)[1..] == first[1..] + second;
      RunAppend(Step(s, first[0]), first[1..], second);
    }
  }

  // The tables without the silent tabs and the index entries of their sessions.
  predicate WithoutSilent(a: Tables, a': Tables, tabs: seq<(TabId, bool)>) {
    && a' == a.(tabs := a'.tabs, index := a'.index)
    && a'.tabs == a.tabs - Silent(tabs)
    && a'.index == a.index - set t | t in Silent(tabs) && IsConnected(a, t) :: a.tabs[t].session
  }

  // A re-announcement discards exactly the visited tabs that do not answer, each with its index entry.
  lemma {:induction false} AnnouncementDiscards(s: State, h: nat, tabs: seq<(TabId, bool)>)
    requires h in s.handlers && s.handlers[h] == Announcing
    requires forall k | 0 <= k < |tabs| :: IsConnected(s.tables, tabs[k].0)
    requires forall j, k | 0 <= j < k < |tabs| :: tabs[j].0 != tabs[k].0
    ensures var s' := Run(s, Visits(h, tabs)); s' == s.(tables := s'.tables) && WithoutSilent(s.tables, s'.tables, tabs)
    decreases |tabs|
  {
    if tabs != [] {
      var (tab, answers) := tabs[0];
      var visit := [Resumed(h, Visit(tab)), Resumed(h, if answers then Succeeded else Failed)];
      RunAppend(s, visit, Visits(h, tabs[1..]));
      VisitOne(s, h, tab, answers);
      hide Run;
      hide WithoutSilent;
      var s1 := Run(s, visit);
      AnnouncementDiscards(s1, h, tabs[1..]);
      WithoutMore(s.tables, s1.tables, Run(s1, Visits(h, tabs[1..])).tables, tabs);
    } else {
      assert Silent(tabs) == {};
    }
  }

  lemma {:induction false} WithoutMore(a: Tables, a1: Tables, a2: Tables, tabs: seq<(TabId, bool)>)
    requires tabs != [] && IsConnected(a, tabs[0].0) && WithoutSilent(a1, a2, tabs[1..])
    requires forall k | 0 < k < |tabs| :: tabs[k].0 != tabs[0].0
    requires a1 == if tabs[0].1 then a
                   else a.(tabs := a.tabs - {tabs[0].0}, index := a.index - {a.tabs[tabs[0].0].session})
    ensures WithoutSilent(a, a2, tabs)
  {
    SilentFirst(tabs);
    assert tabs[0].0 !in Silent(tabs[1..]);
    hide Silent;
  }

  lemma {:induction false} SilentFirst(tabs: seq<(TabId, bool)>)
    requires tabs != []
    ensures Silent(tabs) == (if tabs[0].1 then {} else {tabs[0].0}) + Silent(tabs[1..])
  {
    var rest := tabs[1..];
    assert forall k | 1 <= k < |tabs| :: tabs[k] == rest[k - 1];
    forall t | t in Silent(tabs) ensures t in (if tabs[0].1 then {} else {tabs[0].0}) + Silent(rest) {
      var k :| 0 <= k < |tabs| && !tabs[k].1 && tabs[k].0 == t;
      if k > 0 { assert rest[k - 1] == tabs[k]; }
    }
    forall t | t in Silent(rest) ensures t in Silent(tabs) {
      var k :| 0 <= k < |rest| && !rest[k].1 && rest[k].0 == t;
      assert tabs[k + 1] == rest[k];
    }
  }

  // ---- What is saved ----

  // The snapshot holds the connected tabs and the counter of the tables.
  ghost predicate Pictures(x: Snapshot, a: Tables) {
    && x.nextSession == a.next
    && (forall t | t in a.tabs :: t in x.entries <==> a.tabs[t].Connected?)
    && (forall t | t in x.entries :: t in a.tabs && x.entries[t] == a.tabs[t])
  }

  // The step changes what a snapshot would hold, or ends a detach or a re-announcement.
  predicate CallsForSave(s: State, e: Event, h: nat) {
    match e
    case TabRemoved(g, t) => g == h && Starts(s, h) && t in s.tables.tabs
    case TabReplaced(g, _, removed) => g == h && Starts(s, h) && removed in s.tables.tabs
    case Resumed(g, reply) =>
      && g == h && h in s.handlers
      && (|| s.handlers[h].Detaching? || (s.handlers[h].Announcing? && !reply.Visit?)
          || (s.handlers[h].Attaching? && reply.Target? && reply.targetId != "" &&
              (s.handlers[h].skipEvent || s.relayOpen)))
    case _ => false
  }

  // After such a step its handler is saving the tables it left, and the commit of that save is what a next worker
  // reads, whatever the tables have become.
  lemma {:induction false} StepSaves(s: State, e: Event, h: nat)
    requires CallsForSave(s, e, h)
    ensures var s' := Step(s, e);
      && h in s'.handlers && s'.handlers[h].Saving? && Pictures(s'.handlers[h].snapshot, s'.tables)
      && Step(s', SaveCommitted(h)) == s'.(stored := Some(s'.handlers[h].snapshot))
  {
    hide Forget;
    hide Move;
  }

  // Only the relay's opening and closing change whether it is open.
  lemma {:induction false} RelayOpenExactly(s: State, e: Event)
    ensures Step(s, e).relayOpen == match e
      case RelayOpened => s.phase.Ready? || s.relayOpen
      case RelayNotOpen => false
      case RelayClosed => s.relayOpen && !s.phase.Ready?
      case Restart => false
      case _ => s.relayOpen
  {
    hide Forget;
    hide Move;
    hide TakeSnapshot;
    hide Restore;
  }

  // ---- What is ignored ----

  // Clicks on no tab or on a tab whose toggle is under way, detaches and replacements of tabs that are not tracked,
  // created tabs without a number, child sessions of tabs that are not connected or without an id of their own, and
  // everything that comes before the saved state has been read back, change nothing.
  predicate Ignored(s: State, e: Event) {
    match e
    case ActionClicked(h, t) => !s.phase.Ready? || h in s.handlers || t == 0 || t in s.locks
    case TargetCreated(h, t) => !s.phase.Ready? || h in s.handlers || t == 0
    case DebuggerDetached(h, t, _) => !s.phase.Ready? || h in s.handlers || t == 0 || t !in s.tables.tabs
    case TabReplaced(h, _, removed) => !s.phase.Ready? || h in s.handlers || removed !in s.tables.tabs
    case ChildAttached(t, c) =>
      !s.phase.Ready? || t == 0 || c == Foreign("") || t !in s.tables.tabs || !s.tables.tabs[t].Connected?
    case ChildDetached(t, c) =>
      !s.phase.Ready? || t == 0 || c == Foreign("") || t !in s.tables.tabs || !s.tables.tabs[t].Connected?
    case TabRemoved(h, _) => !s.phase.Ready? || h in s.handlers
    case ReannounceStarted(h) => !s.phase.Ready? || h in s.handlers
    case _ => false
  }

  lemma {:induction false} IgnoredChangesNothing(s: State, e: Event)
    requires Ignored(s, e)
    ensures Step(s, e) == s
  {
  }
}
