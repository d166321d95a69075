/** The tab and session bookkeeping of the browser relay extension, as a state machine.
  *
  * A handler of the extension runs in await-free segments.  Between two segments it is suspended,
  * holding only the locals it captured; the suspended handlers are part of the state, so that
  * `Step` can resume any of them in any order.  What Chrome, the relay socket and the storage
  * answer is carried by the events.
  */
module RelayTabs {
  import opened Basics

  type TabId = int

  // A session id.  `Main(n)` stands for the text "cb-tab-n"; `Foreign` is any other text.
  datatype Session = Main(n: int) | Foreign(id: string)

  datatype Tab =
    | Connecting
    | Connected(session: Session, targetId: string, attachOrder: int)

  datatype Snapshot = Snapshot(entries: map<TabId, Tab>, nextSession: int)

  // What a handler still does once its save has returned.
  datatype After = Finish | Unlock(tab: TabId) | Settle(tab: TabId)

  // Who called attachTab.
  datatype Caller = Toggle | CreateTarget | Reattach(attempt: nat)

  // A suspended handler: the await it is in, with its captured locals.
  datatype Handler =
    | AwaitingRelay(tab: TabId)
    | Attaching(tab: TabId, skipEvent: bool, caller: Caller)
    | AttachThrew(tab: TabId, caller: Caller)
    | Detaching(tab: TabId, after: After)
    | Saving(snapshot: Snapshot, after: After)
    | LookingUp(tab: TabId)
    | Sleeping(tab: TabId, attempt: nat)
    | Probing(tab: TabId, attempt: nat)
    | Announcing
    | Validating(tab: TabId, seen: Tab)

  datatype Phase = Loading | Rehydrating(left: map<TabId, Tab>) | Ready

  // tabs, tabBySession, childSessionToTab and nextSession.
  datatype Tables = Tables(
    tabs: map<TabId, Tab>,
    index: map<Session, TabId>,
    children: map<Session, TabId>,
    next: int
  )

  datatype State = State(
    phase: Phase,
    tables: Tables,
    locks: set<TabId>,
    reattachPending: set<TabId>,
    relayOpen: bool,
    handlers: map<nat, Handler>,
    stored: Option<Snapshot>,
    highest: int // history: the largest session number any worker has issued
  )

  // What an awaited call answers.
  datatype Reply = Failed | Succeeded | Target(targetId: string) | Visit(tab: TabId)

  datatype Event =
    | Restart
    | SnapshotRead
    | SnapshotUnreadable
    | RehydrateVerdict(tab: TabId, valid: bool)
    | ActionClicked(h: nat, tab: TabId)
    | TargetCreated(h: nat, tab: TabId)
    | DebuggerDetached(h: nat, tab: TabId, byUser: bool)
    | ChildAttached(tab: TabId, child: Session)
    | ChildDetached(tab: TabId, child: Session)
    | TabRemoved(h: nat, tab: TabId)
    | TabReplaced(h: nat, added: TabId, removed: TabId)
    | ReannounceStarted(h: nat)
    | RelayOpened
    | RelayNotOpen
    | RelayClosed
    | SaveCommitted(h: nat)
    | Resumed(h: nat, reply: Reply)

  const REATTACH_ATTEMPTS: nat := 5

  const EMPTY_TABLES: Tables := Tables(map[], map[], map[], 1)

  // A worker that has just started; only the storage survives its predecessor.
  function Fresh(stored: Option<Snapshot>, highest: int): State {
    State(Loading, EMPTY_TABLES, {}, {}, false, map[], stored, highest)
  }

  const INIT: State := Fresh(None, 0)

  // ---- Pieces of segments ----

  function Max(a: int, b: int): int { if a < b then b else a }

  function Suspend(s: State, h: nat, handler: Handler): State {
    s.(handlers := s.handlers[h := handler])
  }

  function End(s: State, h: nat): State {
    s.(handlers := s.handlers - {h})
  }

  predicate HoldsSession(tabs: map<TabId, Tab>, t: TabId, session: Session) {
    t in tabs && tabs[t].Connected? && tabs[t].session == session
  }

  function ConnectedOnly(tabs: map<TabId, Tab>): map<TabId, Tab> {
    map t | t in tabs && tabs[t].Connected? :: tabs[t]
  }

  function TakeSnapshot(a: Tables): Snapshot {
    Snapshot(ConnectedOnly(a.tabs), a.next)
  }

  function WithoutParent(children: map<Session, TabId>, tab: TabId): map<Session, TabId> {
    map c | c in children && children[c] != tab :: children[c]
  }

  function MoveParent(children: map<Session, TabId>, from: TabId, to: TabId): map<Session, TabId> {
    map c | c in children :: if children[c] == from then to else children[c]
  }

  // The synchronous part of detachTab; navigation and tab close run the same deletions.
  function Forget(a: Tables, tab: TabId): Tables {
    a.(children := WithoutParent(a.children, tab),
       index := if tab in a.tabs && a.tabs[tab].Connected? then a.index - {a.tabs[tab].session} else a.index,
       tabs := a.tabs - {tab})
  }

  // attachTab once the target is known.
  function Issue(a: Tables, tab: TabId, targetId: string): Tables {
    Tables(a.tabs[tab := Connected(Main(a.next), targetId, a.next)],
           a.index[Main(a.next) := tab],
           a.children,
           a.next + 1)
  }

  // What reannounceAttachedTabs and rehydrateState delete for a tab they had read as `seen`.
  function Discard(a: Tables, tab: TabId, seen: Tab): Tables
    requires seen.Connected?
  {
    a.(tabs := a.tabs - {tab}, index := a.index - {seen.session})
  }

  // The record, the index entry and the children of `removed` go to `added`.
  function Move(a: Tables, added: TabId, removed: TabId): Tables
    requires removed in a.tabs
  {
    var tab := a.tabs[removed];
    a.(tabs := (a.tabs - {removed})[added := tab],
       index := if tab.Connected? then a.index[tab.session := added] else a.index,
       children := MoveParent(a.children, removed, added))
  }

  // A connect attempt that failed deletes the tab's record only.
  function Drop(a: Tables, tab: TabId): Tables {
    a.(tabs := a.tabs - {tab})
  }

  predicate IsConnected(a: Tables, tab: TabId) {
    tab in a.tabs && a.tabs[tab].Connected?
  }

  function AfterAttach(caller: Caller, tab: TabId): After {
    match caller
    case Toggle => Unlock(tab)
    case CreateTarget => Finish
    case Reattach(_) => Settle(tab)
  }

  // ---- Segments ----

  function Click(s: State, h: nat, tab: TabId): State {
    if tab == 0 || tab in s.locks then s
    else if tab in s.reattachPending then s.(reattachPending := s.reattachPending - {tab})
    else if IsConnected(s.tables, tab) then
      Suspend(s.(tables := Forget(s.tables, tab), locks := s.locks + {tab}), h, Detaching(tab, Unlock(tab)))
    else
      Suspend(s.(tables := s.tables.(tabs := s.tables.tabs[tab := Connecting]), locks := s.locks + {tab}), h,
              AwaitingRelay(tab))
  }

  // How attachTab's caller reacts to an exception.
  function AttachFailed(s: State, h: nat, tab: TabId, caller: Caller): State {
    match caller
    case Toggle => End(s.(tables := Drop(s.tables, tab), locks := s.locks - {tab}), h)
    case CreateTarget => End(s, h)
    case Reattach(k) =>
      if k + 1 < REATTACH_ATTEMPTS then Suspend(s, h, Sleeping(tab, k + 1))
      else End(s.(reattachPending := s.reattachPending - {tab}), h)
  }

  // attachTab once the target is known: enter the tab, announce it, which throws when the relay
  // is not open, and save.
  function Attached(s: State, h: nat, tab: TabId, skipEvent: bool, caller: Caller, targetId: string): State {
    var s' := s.(tables := Issue(s.tables, tab, targetId), highest := Max(s.tables.next, s.highest));
    if !skipEvent && !s.relayOpen then Suspend(s', h, AttachThrew(tab, caller))
    else Suspend(s', h, Saving(TakeSnapshot(s'.tables), AfterAttach(caller, tab)))
  }

  function Saved(s: State, h: nat, after: After): State {
    match after
    case Finish => End(s, h)
    case Unlock(t) => End(s.(locks := s.locks - {t}), h)
    case Settle(t) => End(s.(reattachPending := s.reattachPending - {t}), h)
  }

  // onDebuggerDetach after the tab lookup.
  function LookedUp(s: State, h: nat, tab: TabId, isPage: bool): State {
    var gone := s.(tables := Forget(s.tables, tab));
    if !isPage then Suspend(gone, h, Detaching(tab, Finish))
    else if tab in s.reattachPending then End(s, h)
    else Suspend(gone.(reattachPending := s.reattachPending + {tab}), h, Sleeping(tab, 0))
  }

  // reannounceAttachedTabs after a validation.
  function Validated(s: State, h: nat, tab: TabId, seen: Tab, valid: bool): State {
    if valid || !seen.Connected? then Suspend(s, h, Announcing)
    else Suspend(s.(tables := Discard(s.tables, tab, seen)), h, Announcing)
  }

  function AnnounceNext(s: State, h: nat, reply: Reply): State {
    if !reply.Visit? then Suspend(s, h, Saving(TakeSnapshot(s.tables), Finish))
    else if IsConnected(s.tables, reply.tab) then Suspend(s, h, Validating(reply.tab, s.tables.tabs[reply.tab]))
    else s
  }

  function Resume(s: State, h: nat, reply: Reply): State
    requires h in s.handlers
  {
    match s.handlers[h]
    case AwaitingRelay(t) =>
      if reply.Failed? then AttachFailed(s, h, t, Toggle) else Suspend(s, h, Attaching(t, false, Toggle))
    case Attaching(t, skipEvent, caller) =>
      if reply.Target? && reply.targetId != "" then Attached(s, h, t, skipEvent, caller, reply.targetId)
      else AttachFailed(s, h, t, caller)
    case AttachThrew(t, caller) => AttachFailed(s, h, t, caller)
    case Detaching(t, after) => Suspend(s, h, Saving(TakeSnapshot(s.tables), after))
    case Saving(_, after) => Saved(s, h, after)
    case LookingUp(t) => LookedUp(s, h, t, !reply.Failed?)
    case Sleeping(t, k) => if t in s.reattachPending then Suspend(s, h, Probing(t, k)) else End(s, h)
    case Probing(t, k) =>
      if reply.Failed? then End(s.(reattachPending := s.reattachPending - {t}), h)
      else Suspend(s, h, Attaching(t, !s.relayOpen, Reattach(k)))
    case Announcing => AnnounceNext(s, h, reply)
    case Validating(t, seen) => Validated(s, h, t, seen, !reply.Failed?)
  }

  function Removed(s: State, h: nat, tab: TabId): State {
    var s' := s.(reattachPending := s.reattachPending - {tab});
    if tab !in s.tables.tabs then s'
    else
      var gone := Forget(s.tables, tab);
      Suspend(s'.(tables := gone), h, Saving(TakeSnapshot(gone), Finish))
  }

  function Replaced(s: State, h: nat, added: TabId, removed: TabId): State {
    if removed !in s.tables.tabs then s
    else
      var moved := Move(s.tables, added, removed);
      Suspend(s.(tables := moved), h, Saving(TakeSnapshot(moved), Finish))
  }

  function DebuggerGone(s: State, h: nat, tab: TabId, byUser: bool): State {
    if tab == 0 || tab !in s.tables.tabs then s
    else if byUser then Suspend(s.(tables := Forget(s.tables, tab)), h, Detaching(tab, Finish))
    else Suspend(s, h, LookingUp(tab))
  }

  // onDebuggerEvent looks at child sessions of connected tabs only.
  predicate TracksChildren(a: Tables, tab: TabId, child: Session) {
    tab != 0 && IsConnected(a, tab) && child != Foreign("")
  }

  // ---- Worker start ----

  function Sessions(tabs: map<TabId, Tab>): set<Session> {
    set t | t in tabs && tabs[t].Connected? :: tabs[t].session
  }

  ghost function Owner(tabs: map<TabId, Tab>, k: Session): (t: TabId)
    requires k in Sessions(tabs)
    ensures HoldsSession(tabs, t, k)
  {
    var t :| t in tabs && HoldsSession(tabs, t, k); t
  }

  // One index entry per session; when two entries share a session, one of them wins.
  ghost function IndexOf(tabs: map<TabId, Tab>): map<Session, TabId> {
    map k | k in Sessions(tabs) :: Owner(tabs, k)
  }

  ghost function Restore(a: Tables, saved: Snapshot): Tables {
    Tables(saved.entries, IndexOf(saved.entries), a.children, Max(a.next, saved.nextSession))
  }

  // rehydrateState up to its first validation.
  ghost function Rehydrate(s: State): State {
    match s.stored
    case None => s.(phase := Rehydrating(map[]))
    case Some(saved) => s.(phase := Rehydrating(saved.entries), tables := Restore(s.tables, saved))
  }

  function Verdict(s: State, tab: TabId, valid: bool): State
    requires s.phase.Rehydrating? && tab in s.phase.left
  {
    var seen := s.phase.left[tab];
    var s' := s.(phase := Rehydrating(s.phase.left - {tab}));
    if valid || !seen.Connected? then s' else s'.(tables := Discard(s.tables, tab, seen))
  }

  // ---- The state machine ----

  // Handlers run only once rehydration is over; a new handler takes an unused number.
  predicate Starts(s: State, h: nat) {
    s.phase.Ready? && h !in s.handlers
  }

  ghost function Step(s: State, e: Event): State {
    match e
    case Restart => Fresh(s.stored, s.highest)
    case SnapshotRead => if s.phase.Loading? then Settled(Rehydrate(s)) else s
    case SnapshotUnreadable => if s.phase.Loading? then s.(phase := Ready) else s
    case RehydrateVerdict(t, valid) =>
      if s.phase.Rehydrating? && t in s.phase.left then Settled(Verdict(s, t, valid)) else s
    case ActionClicked(h, t) => if Starts(s, h) then Click(s, h, t) else s
    case TargetCreated(h, t) => if Starts(s, h) && t != 0 then Suspend(s, h, Attaching(t, false, CreateTarget)) else s
    case DebuggerDetached(h, t, byUser) => if Starts(s, h) then DebuggerGone(s, h, t, byUser) else s
    case ChildAttached(t, c) =>
      if s.phase.Ready? && TracksChildren(s.tables, t, c) then
        s.(tables := s.tables.(children := s.tables.children[c := t]))
      else s
    case ChildDetached(t, c) =>
      if s.phase.Ready? && TracksChildren(s.tables, t, c) then
        s.(tables := s.tables.(children := s.tables.children - {c}))
      else s
    case TabRemoved(h, t) => if Starts(s, h) then Removed(s, h, t) else s
    case TabReplaced(h, added, removed) => if Starts(s, h) then Replaced(s, h, added, removed) else s
    case ReannounceStarted(h) => if Starts(s, h) then Suspend(s, h, Announcing) else s
    case RelayOpened => if s.phase.Ready? then s.(relayOpen := true) else s
    case RelayNotOpen => s.(relayOpen := false)
    case RelayClosed => if s.phase.Ready? then s.(relayOpen := false, reattachPending := {}) else s
    case SaveCommitted(h) =>
      if h in s.handlers && s.handlers[h].Saving? then s.(stored := Some(s.handlers[h].snapshot)) else s
    case Resumed(h, reply) => if h in s.handlers then Resume(s, h, reply) else s
  }

  // Rehydration ends when no entry is left to validate.
  function Settled(s: State): State {
    if s.phase.Rehydrating? && s.phase.left == map[] then s.(phase := Ready) else s
  }

  ghost function Run(s: State, events: seq<Event>): State
    decreases |events|
  {
    if events == [] then s else Run(Step(s, events[0]), events[1..])
  }
}
