/** When a click that cancels a re-attach stops it. */
module RelayTabsReattach {
  import opened RelayTabs
  import opened RelayTabsEffects
  import opened RelayTabsLimits

  // The handler is re-attaching the tab after a navigation.
  predicate Reattaching(handler: Handler, tab: TabId) {
    match handler
    case Sleeping(t, _) => t == tab
    case Probing(t, _) => t == tab
    case Attaching(t, _, caller) => t == tab && caller.Reattach?
    case AttachThrew(t, caller) => t == tab && caller.Reattach?
    case _ => false
  }

  // It has gone past its last look at the mark before it attaches.
  predicate PastMark(handler: Handler) { handler.Probing? || handler.Attaching? }

  // The step resumes the handler, which enters its tab under a new session.
  predicate Issues(s: State, h: nat, e: Event) {
    e.Resumed? && e.h == h && EffectOf(s, e).Entered?
  }

  // Some step of the run is the handler's and issues a session.
  ghost predicate StillIssues(s: State, h: nat, events: seq<Event>)
    decreases |events|
  {
    events != [] &&
    (Issues(s, h, events[0]) ||
     (h in Step(s, events[0]).handlers && StillIssues(Step(s, events[0]), h, events[1..])))
  }

  // The tab is not marked for a re-attach in any state of the run.
  ghost predicate NeverMarked(s: State, tab: TabId, events: seq<Event>)
    decreases |events|
  {
    tab !in s.reattachPending && (events != [] ==> NeverMarked(Step(s, events[0]), tab, events[1..]))
  }

  // The re-attach has yet to look at the mark.
  predicate BeforeMark(s: State, h: nat, tab: TabId) {
    h in s.handlers && Reattaching(s.handlers[h], tab) && !PastMark(s.handlers[h])
  }

  lemma {:induction false} StaysBeforeMark(s: State, h: nat, tab: TabId, e: Event)
    requires BeforeMark(s, h, tab) && tab !in s.reattachPending
    ensures !Issues(s, h, e) && (h in Step(s, e).handlers ==> BeforeMark(Step(s, e), h, tab))
  {
    if e.Resumed? && e.h != h && e.h in s.handlers { OthersKept(s, e.h, e.reply, h); }
    hide Attached;
    hide Forget;
    hide Move;
    hide TakeSnapshot;
  }

  lemma {:induction false} OthersKept(s: State, g: nat, reply: Reply, h: nat)
    requires g in s.handlers && h in s.handlers && g != h
    ensures h in Resume(s, g, reply).handlers && Resume(s, g, reply).handlers[h] == s.handlers[h]
  {
  }

  // A re-attach that has yet to look at the mark issues nothing while its tab stays unmarked.
  lemma {:induction false} UnmarkedNeverIssues(s: State, h: nat, tab: TabId, events: seq<Event>)
    requires BeforeMark(s, h, tab) && NeverMarked(s, tab, events)
    ensures !StillIssues(s, h, events)
    decreases |events|
  {
    hide Step;
    hide Issues;
    if events != [] {
      StaysBeforeMark(s, h, tab, events[0]);
      if h in Step(s, events[0]).handlers { UnmarkedNeverIssues(Step(s, events[0]), h, tab, events[1..]); }
    }
  }

  lemma {:induction false} AttachingIssues(s: State, h: nat, tab: TabId)
    requires h in s.handlers && Reattaching(s.handlers[h], tab) && s.handlers[h].Attaching?
    requires tab !in s.reattachPending
    ensures NeverMarked(s, tab, [Resumed(h, Target("page"))]) && StillIssues(s, h, [Resumed(h, Target("page"))])
  {
    var e := Resumed(h, Target("page"));
    assert [e][1..] == [];
    assert Step(s, e).reattachPending == s.reattachPending;
    assert NeverMarked(Step(s, e), tab, []);
  }

  lemma {:induction false} PastMarkIssues(s: State, h: nat, tab: TabId)
    requires h in s.handlers && Reattaching(s.handlers[h], tab) && PastMark(s.handlers[h])
    requires tab !in s.reattachPending
    ensures exists events :: NeverMarked(s, tab, events) && StillIssues(s, h, events)
  {
    var last := Resumed(h, Target("page"));
    if s.handlers[h].Attaching? {
      AttachingIssues(s, h, tab);
    } else {
      var e := Resumed(h, Succeeded);
      var s' := Step(s, e);
      assert s'.handlers[h].Attaching? && s'.reattachPending == s.reattachPending;
      AttachingIssues(s', h, tab);
      assert [e, last][1..] == [last];
      assert NeverMarked(s, tab, [e, last]) && StillIssues(s, h, [e, last]);
    }
  }

  // A click on a tab that is marked for a re-attach takes the mark away.  While the tab is not marked again, its
  // re-attach can still issue a session exactly when it had gone past its last look at the mark.
  lemma {:induction false} ClickStopsExactly(s: State, g: nat, h: nat, tab: TabId)
    requires Starts(s, g) && tab != 0 && tab !in s.locks && tab in s.reattachPending
    requires h in s.handlers && Reattaching(s.handlers[h], tab)
    ensures var s' := Step(s, ActionClicked(g, tab));
      && s' == s.(reattachPending := s.reattachPending - {tab})
      && ((exists events :: NeverMarked(s', tab, events) && StillIssues(s', h, events)) <==>
            PastMark(s.handlers[h]))
  {
    var s' := Step(s, ActionClicked(g, tab));
    if PastMark(s.handlers[h]) {
      PastMarkIssues(s', h, tab);
    } else {
      forall events | NeverMarked(s', tab, events) ensures !StillIssues(s', h, events) {
        UnmarkedNeverIssues(s', h, tab, events);
      }
    }
  }

  // ---- A cancelled re-attach that connects the tab ----

  lemma {:induction false} CancelledYetConnected()
    ensures
      var s := Run(ONE_TAB,
        [DebuggerDetached(0, 7, false), Resumed(0, Succeeded), Resumed(0, Succeeded), Resumed(0, Succeeded),
          ActionClicked(1, 7), Resumed(0, Target("page"))]);
      s.reattachPending == {} && s.tables.tabs == map[7 := Connected(Main(2), "page", 2)]
  {
  }
}
