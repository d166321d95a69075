/** The extension's service worker: its module-level maps and sets, and its await-free segments. */
module RelayWorker {
  import opened Basics
  import opened RelayTabs
  import opened RelayTabsInvariants
  import opened RelayRouting

  class Worker {
    var phase: Phase
    var tabs: map<TabId, Tab>
    var tabBySession: map<Session, TabId>
    var childSessionToTab: map<Session, TabId>
    var tabOperationLocks: set<TabId>
    var reattachPending: set<TabId>
    var nextSession: int
    var relayOpen: bool
    var handlers: map<nat, Handler>
    var stored: Option<Snapshot>
    ghost var highest: int

    ghost function Now(): Tables
      reads this
    {
      Tables(tabs, tabBySession, childSessionToTab, nextSession)
    }

    ghost function Abs(): State
      reads this
    {
      State(phase, Now(), tabOperationLocks, reattachPending, relayOpen, handlers, stored, highest)
    }

    ghost predicate Valid()
      reads this
    {
      Core(Abs())
    }

    constructor ()
      ensures Abs() == INIT && Valid()
    {
      phase, tabs, tabBySession, childSessionToTab := Loading, map[], map[], map[];
      tabOperationLocks, reattachPending, nextSession, relayOpen := {}, {}, 1, false;
      handlers, stored, highest := map[], None, 0;
    }

    // ---- Pieces shared by segments ----

    method Suspend(h: nat, handler: Handler)
      modifies this`handlers
      ensures handlers == old(handlers)[h := handler]
    {
      handlers := handlers[h := handler];
    }

    method End(h: nat)
      modifies this`handlers
      ensures handlers == old(handlers) - {h}
    {
      handlers := handlers - {h};
    }

    method DeleteChildrenOf(tab: TabId)
      modifies this`childSessionToTab
      ensures childSessionToTab == WithoutParent(old(childSessionToTab), tab)
    {
      var entries := childSessionToTab;
      var todo := entries.Keys;
      while todo != {}
        invariant todo <= entries.Keys
        invariant childSessionToTab == map c | c in entries && (c in todo || entries[c] != tab) :: entries[c]
        decreases todo
      {
        var c :| c in todo;
        if entries[c] == tab {
          childSessionToTab := childSessionToTab - {c};
        }
        todo := todo - {c};
      }
    }

    method MoveChildren(from: TabId, to: TabId)
      modifies this`childSessionToTab
      ensures childSessionToTab == MoveParent(old(childSessionToTab), from, to)
    {
      var entries := childSessionToTab;
      var todo := entries.Keys;
      while todo != {}
        invariant todo <= entries.Keys
        invariant childSessionToTab ==
                  map c | c in entries :: if c !in todo && entries[c] == from then to else entries[c]
        decreases todo
      {
        var c :| c in todo;
        if entries[c] == from {
          childSessionToTab := childSessionToTab[c := to];
        }
        todo := todo - {c};
      }
    }

    // persistState up to its await.
    method Snapshot() returns (snapshot: Snapshot)
      ensures snapshot == TakeSnapshot(Now())
    {
      var entries: map<TabId, Tab> := map[];
      var current := tabs;
      var todo: set<TabId> := current.Keys;
      while todo != {}
        invariant todo <= current.Keys
        invariant entries == map t | t in tabs && t !in todo && tabs[t].Connected? :: tabs[t]
        decreases todo
      {
        EmptyIff(todo);
        var t :| t in todo;
        if tabs[t].Connected? {
          entries := entries[t := tabs[t]];
        }
        todo := todo - {t};
      }
      snapshot := RelayTabs.Snapshot.Snapshot(entries, nextSession);
    }

    // detachTab up to its await.
    method ForgetTab(tab: TabId)
      modifies this`tabs, this`tabBySession, this`childSessionToTab
      ensures Now() == Forget(old(Now()), tab)
    {
      DeleteChildrenOf(tab);
      if tab in tabs && tabs[tab].Connected? {
        tabBySession := tabBySession - {tabs[tab].session};
      }
      tabs := tabs - {tab};
    }

    // ---- Segments ----

    method OnActionClicked(h: nat, tab: TabId)
      modifies this
      ensures Abs() == Click(old(Abs()), h, tab)
    {
      if tab == 0 || tab in tabOperationLocks { return; }
      if tab in reattachPending {
        reattachPending := reattachPending - {tab};
        return;
      }
      tabOperationLocks := tabOperationLocks + {tab};
      if tab in tabs && tabs[tab].Connected? {
        ForgetTab(tab);
        Suspend(h, Detaching(tab, Unlock(tab)));
      } else {
        tabs := tabs[tab := Connecting];
        Suspend(h, AwaitingRelay(tab));
      }
    }

    // What the caller of attachTab does with an exception.
    method OnAttachFailed(h: nat, tab: TabId, caller: Caller)
      modifies this
      ensures Abs() == AttachFailed(old(Abs()), h, tab, caller)
    {
      match caller
      case Toggle =>
        tabs := tabs - {tab};
        tabOperationLocks := tabOperationLocks - {tab};
        End(h);
      case CreateTarget => End(h);
      case Reattach(k) =>
        if k + 1 < REATTACH_ATTEMPTS {
          Suspend(h, Sleeping(tab, k + 1));
        } else {
          reattachPending := reattachPending - {tab};
          End(h);
        }
    }

    // attachTab from the issue of a session to its save.
    method OnAttached(h: nat, tab: TabId, skipEvent: bool, caller: Caller, targetId: string)
      modifies this
      ensures Abs() == Attached(old(Abs()), h, tab, skipEvent, caller, targetId)
    {
      var sid := nextSession;
      nextSession := nextSession + 1;
      highest := Max(sid, highest);
      tabs := tabs[tab := Connected(Main(sid), targetId, sid)];
      tabBySession := tabBySession[Main(sid) := tab];
      if !skipEvent && !relayOpen {
        Suspend(h, AttachThrew(tab, caller));
      } else {
        var snapshot := Snapshot();
        Suspend(h, Saving(snapshot, AfterAttach(caller, tab)));
      }
    }

    method OnSaved(h: nat, after: After)
      modifies this
      ensures Abs() == Saved(old(Abs()), h, after)
    {
      match after {
        case Finish =>
        case Unlock(t) => tabOperationLocks := tabOperationLocks - {t};
        case Settle(t) => reattachPending := reattachPending - {t};
      }
      End(h);
    }

    method OnTabLookup(h: nat, tab: TabId, isPage: bool)
      modifies this
      ensures Abs() == LookedUp(old(Abs()), h, tab, isPage)
    {
      if !isPage {
        ForgetTab(tab);
        Suspend(h, Detaching(tab, Finish));
      } else if tab in reattachPending {
        End(h);
      } else {
        if tab in tabs && tabs[tab].Connected? {
          tabBySession := tabBySession - {tabs[tab].session};
        }
        tabs := tabs - {tab};
        DeleteChildrenOf(tab);
        reattachPending := reattachPending + {tab};
        Suspend(h, Sleeping(tab, 0));
      }
    }

    method OnValidated(h: nat, tab: TabId, seen: Tab, valid: bool)
      modifies this
      ensures Abs() == Validated(old(Abs()), h, tab, seen, valid)
    {
      if !valid && seen.Connected? {
        tabs := tabs - {tab};
        tabBySession := tabBySession - {seen.session};
      }
      Suspend(h, Announcing);
    }

    method OnAnnounceNext(h: nat, reply: Reply)
      modifies this
      ensures Abs() == AnnounceNext(old(Abs()), h, reply)
    {
      if !reply.Visit? {
        var snapshot := Snapshot();
        Suspend(h, Saving(snapshot, Finish));
      } else if reply.tab in tabs && tabs[reply.tab].Connected? {
        Suspend(h, Validating(reply.tab, tabs[reply.tab]));
      }
    }

    method OnRemoved(h: nat, tab: TabId)
      modifies this
      ensures Abs() == Removed(old(Abs()), h, tab)
    {
      reattachPending := reattachPending - {tab};
      if tab !in tabs { return; }
      if tabs[tab].Connected? {
        tabBySession := tabBySession - {tabs[tab].session};
      }
      tabs := tabs - {tab};
      DeleteChildrenOf(tab);
      var snapshot := Snapshot();
      Suspend(h, Saving(snapshot, Finish));
    }

    method OnReplaced(h: nat, added: TabId, removed: TabId)
      modifies this
      ensures Abs() == Replaced(old(Abs()), h, added, removed)
    {
      if removed !in tabs { return; }
      var tab := tabs[removed];
      tabs := tabs - {removed};
      tabs := tabs[added := tab];
      if tab.Connected? {
        tabBySession := tabBySession[tab.session := added];
      }
      MoveChildren(removed, added);
      var snapshot := Snapshot();
      Suspend(h, Saving(snapshot, Finish));
    }

    method OnDebuggerDetach(h: nat, tab: TabId, byUser: bool)
      modifies this
      ensures Abs() == DebuggerGone(old(Abs()), h, tab, byUser)
    {
      if tab == 0 || tab !in tabs { return; }
      if byUser {
        ForgetTab(tab);
        Suspend(h, Detaching(tab, Finish));
      } else {
        Suspend(h, LookingUp(tab));
      }
    }

    // The optimistic restore of rehydrateState.
    method RestoreEntries(entries: map<TabId, Tab>)
      requires tabs == map[] && tabBySession == map[] && Unshared(entries)
      requires forall t | t in entries :: entries[t].Connected?
      modifies this`tabs, this`tabBySession
      ensures tabs == entries && tabBySession == IndexOf(entries)
    {
      var todo: set<TabId> := entries.Keys;
      while todo != {}
        invariant todo <= entries.Keys
        invariant tabs == map t | t in entries && t !in todo :: entries[t]
        invariant forall t | t in entries && t !in todo ::
                    entries[t].session in tabBySession && tabBySession[entries[t].session] == t
        invariant forall k | k in tabBySession ::
                    tabBySession[k] in entries && tabBySession[k] !in todo && HoldsSession(entries, tabBySession[k], k)
        decreases todo
      {
        EmptyIff(todo);
        var t :| t in todo;
        tabs := tabs[t := entries[t]];
        tabBySession := tabBySession[entries[t].session := t];
        todo := todo - {t};
      }
      IndexIs(entries, tabBySession);
    }

    // rehydrateState up to its first validation.
    method OnSnapshotRead()
      requires Valid() && phase.Loading?
      modifies this
      ensures Abs() == Settled(Rehydrate(old(Abs())))
    {
      if stored.None? {
        phase := Ready;
        return;
      }
      nextSession := if nextSession < stored.value.nextSession then stored.value.nextSession else nextSession;
      RestoreEntries(stored.value.entries);
      phase := if stored.value.entries == map[] then Ready else Rehydrating(stored.value.entries);
    }

    method OnVerdict(tab: TabId, valid: bool)
      requires phase.Rehydrating? && tab in phase.left
      modifies this
      ensures Abs() == Settled(Verdict(old(Abs()), tab, valid))
    {
      var seen := phase.left[tab];
      var left := phase.left - {tab};
      if !valid && seen.Connected? {
        tabs := tabs - {tab};
        tabBySession := tabBySession - {seen.session};
      }
      phase := if left == map[] then Ready else Rehydrating(left);
    }

    method OnResumed(h: nat, reply: Reply)
      requires h in handlers
      modifies this
      ensures Abs() == Resume(old(Abs()), h, reply)
    {
      match handlers[h]
      case AwaitingRelay(t) =>
        if reply.Failed? { OnAttachFailed(h, t, Toggle); } else { Suspend(h, Attaching(t, false, Toggle)); }
      case Attaching(t, skipEvent, caller) =>
        if reply.Target? && reply.targetId != "" { OnAttached(h, t, skipEvent, caller, reply.targetId); }
        else { OnAttachFailed(h, t, caller); }
      case AttachThrew(t, caller) => OnAttachFailed(h, t, caller);
      case Detaching(t, after) =>
        var snapshot := Snapshot();
        Suspend(h, Saving(snapshot, after));
      case Saving(_, after) => OnSaved(h, after);
      case LookingUp(t) => OnTabLookup(h, t, !reply.Failed?);
      case Sleeping(t, k) => if t in reattachPending { Suspend(h, Probing(t, k)); } else { End(h); }
      case Probing(t, k) =>
        if reply.Failed? {
          reattachPending := reattachPending - {t};
          End(h);
        } else {
          Suspend(h, Attaching(t, !relayOpen, Reattach(k)));
        }
      case Announcing => OnAnnounceNext(h, reply);
      case Validating(t, seen) => OnValidated(h, t, seen, !reply.Failed?);
    }

    // A new worker: everything in memory is gone.
    method Die()
      modifies this
      ensures Abs() == Fresh(old(stored), old(highest))
    {
      phase, tabs, tabBySession, childSessionToTab := Loading, map[], map[], map[];
      tabOperationLocks, reattachPending, nextSession, relayOpen := {}, {}, 1, false;
      handlers := map[];
    }

    // ---- One event ----

    // The start of a worker, the relay socket and the storage.
    method OnSystemEvent(e: Event)
      requires Valid()
      requires e.Restart? || e.SnapshotRead? || e.SnapshotUnreadable? || e.RehydrateVerdict? || e.RelayOpened?
            || e.RelayNotOpen? || e.RelayClosed? || e.SaveCommitted?
      modifies this
      ensures Abs() == Step(old(Abs()), e)
    {
      hide Core;
      hide Rehydrate;
      hide Verdict;
      match e
      case Restart => Die();
      case SnapshotRead => if phase.Loading? { OnSnapshotRead(); }
      case SnapshotUnreadable => if phase.Loading? { phase := Ready; }
      case RehydrateVerdict(t, valid) => if phase.Rehydrating? && t in phase.left { OnVerdict(t, valid); }
      case RelayOpened => if phase.Ready? { relayOpen := true; }
      case RelayNotOpen => relayOpen := false;
      case RelayClosed => if phase.Ready? { relayOpen, reattachPending := false, {}; }
      case SaveCommitted(h) => if h in handlers && handlers[h].Saving? { stored := Some(handlers[h].snapshot); }
    }

    // A child session of a tab comes or goes.
    method OnChildEvent(tab: TabId, child: Session, attached: bool)
      modifies this
      ensures Abs() == Step(old(Abs()), if attached then ChildAttached(tab, child) else ChildDetached(tab, child))
    {
      if phase.Ready? && tab != 0 && tab in tabs && tabs[tab].Connected? && child != Foreign("") {
        childSessionToTab := if attached then childSessionToTab[child := tab] else childSessionToTab - {child};
      }
    }

    method Dispatch(e: Event)
      requires Valid()
      modifies this
      ensures Abs() == Step(old(Abs()), e) && Valid()
    {
      CoreStep(Abs(), e);
      hide Core;
      hide Resume;
      hide Click;
      hide Removed;
      hide Replaced;
      hide DebuggerGone;
      match e
      case ActionClicked(h, t) => if phase.Ready? && h !in handlers { OnActionClicked(h, t); }
      case TargetCreated(h, t) =>
        if phase.Ready? && h !in handlers && t != 0 { Suspend(h, Attaching(t, false, CreateTarget)); }
      case DebuggerDetached(h, t, byUser) => if phase.Ready? && h !in handlers { OnDebuggerDetach(h, t, byUser); }
      case ChildAttached(t, c) => OnChildEvent(t, c, true);
      case ChildDetached(t, c) => OnChildEvent(t, c, false);
      case TabRemoved(h, t) => if phase.Ready? && h !in handlers { OnRemoved(h, t); }
      case TabReplaced(h, added, removed) => if phase.Ready? && h !in handlers { OnReplaced(h, added, removed); }
      case ReannounceStarted(h) => if phase.Ready? && h !in handlers { Suspend(h, Announcing); }
      case Resumed(h, reply) => if h in handlers { OnResumed(h, reply); }
      case _ => OnSystemEvent(e);
    }

    // ---- Command routing ----

    method FindTarget(targetId: string) returns (found: Option<TabId>)
      ensures found.Some? ==> HasTarget(Now(), found.value, targetId)
      ensures found.None? ==> forall t :: !HasTarget(Now(), t, targetId)
    {
      var current := tabs;
      var todo: set<TabId> := current.Keys;
      while todo != {}
        invariant todo <= current.Keys
        invariant forall t | t in tabs && t !in todo :: !HasTarget(Now(), t, targetId)
        decreases todo
      {
        EmptyIff(todo);
        var t :| t in todo;
        if tabs[t].Connected? && tabs[t].targetId == targetId { return Some(t); }
        todo := todo - {t};
      }
      return None;
    }

    method FindConnected() returns (found: Option<TabId>)
      ensures found.Some? ==> IsConnected(Now(), found.value)
      ensures found.None? ==> forall t | t in tabs :: !IsConnected(Now(), t)
    {
      var current := tabs;
      var todo: set<TabId> := current.Keys;
      while todo != {}
        invariant todo <= current.Keys
        invariant forall t | t in tabs && t !in todo :: !IsConnected(Now(), t)
        decreases todo
      {
        EmptyIff(todo);
        var t :| t in todo;
        if tabs[t].Connected? { return Some(t); }
        todo := todo - {t};
      }
      return None;
    }

    // handleForwardCdpCommand for a method it forwards as it is.
    method RouteCommand(sessionId: Option<Session>, targetId: string) returns (r: Option<Debuggee>)
      ensures Routed(Now(), sessionId, targetId, r)
    {
      var k := Named(sessionId);
      var tab: TabId := 0;
      if k.Some? {
        if k.value in tabBySession && tabBySession[k.value] != 0 {
          tab := tabBySession[k.value];
        } else if k.value in childSessionToTab {
          tab := childSessionToTab[k.value];
        }
      }
      if tab == 0 && targetId != "" {
        var found := FindTarget(targetId);
        tab := if found.Some? then found.value else 0;
      }
      if tab == 0 {
        var found := FindConnected();
        tab := if found.Some? then found.value else 0;
      }
      if tab == 0 { return None; }
      if k.Some? && tab in tabs && tabs[tab].Connected? && k.value != tabs[tab].session {
        r := Some(Debuggee(tab, k));
      } else {
        r := Some(Debuggee(tab, None));
      }
    }
  }

  lemma {:induction false} EmptyIff(tabs: set<TabId>)
    ensures tabs == {} <==> forall t :: t !in tabs
  {
    if forall t :: t !in tabs { assert tabs == {}; }
  }

  // The index of a snapshot is determined by its entries.
  lemma {:induction false} IndexIs(entries: map<TabId, Tab>, index: map<Session, TabId>)
    requires Unshared(entries)
    requires forall t | t in entries :: entries[t].Connected? &&
               entries[t].session in index && index[entries[t].session] == t
    requires forall k | k in index :: HoldsSession(entries, index[k], k)
    ensures index == IndexOf(entries)
  {
  }
}
