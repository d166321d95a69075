/** Which debugger session a relayed CDP command runs on. */
module RelayRouting {
  import opened Basics
  import opened RelayTabs
  import opened RelayTabsInvariants
  import opened RelayTabsTheorems

  // A debuggee: a tab's own session, or one of its child sessions.
  datatype Debuggee = Debuggee(tab: TabId, session: Option<Session>)

  // getTabBySessionId; tab number 0 counts as absent.
  function TabBySession(a: Tables, k: Session): Option<TabId> {
    if k in a.index && a.index[k] != 0 then Some(a.index[k])
    else if k in a.children && a.children[k] != 0 then Some(a.children[k])
    else None
  }

  function DebuggeeFor(a: Tables, tab: TabId, sessionId: Option<Session>): Debuggee {
    if sessionId.Some? && IsConnected(a, tab) && sessionId.value != a.tabs[tab].session
    then Debuggee(tab, sessionId) else Debuggee(tab, None)
  }

  function Named(sessionId: Option<Session>): Option<Session> {
    if sessionId == Some(Foreign("")) then None else sessionId
  }

  predicate HasTarget(a: Tables, t: TabId, targetId: string) {
    IsConnected(a, t) && a.tabs[t].targetId == targetId
  }

  // The answers a generic command may get: by session, else by target, else any connected tab.  When
  // several tabs qualify the first in insertion order is taken, which the tables do not record.
  ghost predicate Routed(a: Tables, sessionId: Option<Session>, targetId: string, r: Option<Debuggee>) {
    var k := Named(sessionId);
    if k.Some? && TabBySession(a, k.value).Some? then
      r == Some(DebuggeeFor(a, TabBySession(a, k.value).value, k))
    else match r
      case None =>
        && (targetId == "" || forall t | HasTarget(a, t, targetId) :: t == 0 || HasTarget(a, 0, targetId))
        && (forall t | t in a.tabs && IsConnected(a, t) :: t == 0 || IsConnected(a, 0))
      case Some(d) =>
        && d.tab != 0 && IsConnected(a, d.tab) && d == DebuggeeFor(a, d.tab, k)
        && (targetId == "" || HasTarget(a, d.tab, targetId) || HasTarget(a, 0, targetId)
            || forall t :: !HasTarget(a, t, targetId))
  }

  // A command naming a connected tab's main session runs on that tab's own debugger session.
  lemma {:induction false} MainSessionRoutes(events: seq<Event>, t: TabId, k: Session, targetId: string,
      r: Option<Debuggee>)
    requires NoReplacementDuringValidation(INIT, events)
    requires t != 0 && HoldsSession(Run(INIT, events).tables.tabs, t, k)
    requires Routed(Run(INIT, events).tables, Some(k), targetId, r)
    ensures r == Some(Debuggee(t, None))
  {
    IndexAlways(events);
    CoreRun(INIT, events);
  }

  // A command naming a recorded child session runs on the parent tab; with that child session
  // exactly when the parent is still connected, and otherwise on the parent's own session.
  lemma {:induction false} ChildSessionRoutes(events: seq<Event>, c: Session, targetId: string, r: Option<Debuggee>)
    requires var a := Run(INIT, events).tables;
      && c in a.children && a.children[c] != 0 && c.Foreign? && c != Foreign("")
      && Routed(a, Some(c), targetId, r)
    ensures var a := Run(INIT, events).tables;
      && r.Some? && r.value.tab == a.children[c]
      && (r.value.session == Some(c) <==> IsConnected(a, a.children[c]))
      && (r.value.session == None <==> !IsConnected(a, a.children[c]))
  {
    CoreRun(INIT, events);
  }

  // The command names no session, or one that is neither indexed nor recorded as a child.
  predicate NoSession(a: Tables, sessionId: Option<Session>) {
    || sessionId.None? || sessionId == Some(Foreign(""))
    || (sessionId.value !in a.index && sessionId.value !in a.children)
  }

  // Without a session, a command naming the target of a connected tab runs on a tab with that target.
  lemma {:induction false} TargetRoutes(a: Tables, sessionId: Option<Session>, targetId: string, t: TabId,
      r: Option<Debuggee>)
    requires NoSession(a, sessionId) && Routed(a, sessionId, targetId, r) && 0 !in a.tabs
    requires targetId != "" && t in a.tabs && a.tabs[t].Connected? && a.tabs[t].targetId == targetId
    ensures r.Some? && r.value.tab in a.tabs
    ensures a.tabs[r.value.tab].Connected? && a.tabs[r.value.tab].targetId == targetId
    ensures (forall u | u in a.tabs && u != t && a.tabs[u].Connected? :: a.tabs[u].targetId != targetId) ==>
              r.value.tab == t
  {
    assert HasTarget(a, t, targetId);
    assert IsConnected(a, t);
  }

  // Without a session and without a connected tab that has the target, a command runs on a connected tab, and fails
  // exactly when there is none.
  lemma {:induction false} AnyTabRoutes(a: Tables, sessionId: Option<Session>, targetId: string, r: Option<Debuggee>)
    requires NoSession(a, sessionId) && Routed(a, sessionId, targetId, r) && 0 !in a.tabs
    ensures r.Some? <==> exists t :: t in a.tabs && a.tabs[t].Connected?
    ensures r.Some? ==> r.value.tab in a.tabs && a.tabs[r.value.tab].Connected?
    ensures r.Some? && (sessionId.None? || sessionId == Some(Foreign(""))) ==> r.value.session.None?
    ensures r.Some? && sessionId.Some? && sessionId != Some(Foreign("")) ==>
              r.value.session == if sessionId.value == a.tabs[r.value.tab].session then None else sessionId
  {
    if t :| t in a.tabs && a.tabs[t].Connected? { assert IsConnected(a, t); }
  }
}
