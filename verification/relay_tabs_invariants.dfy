/** The structural invariant that every interleaving of the relay's handlers keeps. */
module RelayTabsInvariants {
  import opened Basics
  import opened RelayTabs
  import opened RelayTabsEffects

  // ---- Tables ----

  ghost predicate Numbered(tabs: map<TabId, Tab>, next: int) {
    forall t | t in tabs && tabs[t].Connected? :: tabs[t].session.Main? && 1 <= tabs[t].session.n < next
  }

  // No two tabs share a session.
  ghost predicate Unshared(tabs: map<TabId, Tab>) {
    forall t, u | t in tabs && u in tabs && tabs[t].Connected? && tabs[u].Connected? &&
                  tabs[t].session == tabs[u].session :: t == u
  }

  ghost predicate IndexNumbered(index: map<Session, TabId>, next: int) {
    forall k | k in index :: k.Main? && 1 <= k.n < next
  }

  ghost predicate GoodTables(a: Tables) {
    1 <= a.next && Numbered(a.tabs, a.next) && Unshared(a.tabs) && IndexNumbered(a.index, a.next)
  }

  ghost predicate GoodSnapshot(x: Snapshot) {
    && 1 <= x.nextSession
    && (forall t | t in x.entries :: x.entries[t].Connected?)
    && Numbered(x.entries, x.nextSession)
    && Unshared(x.entries)
  }

  lemma {:induction false} GoodTablesApply(x: Effect, a: Tables)
    requires GoodTables(a)
    requires x.Loaded? ==> GoodSnapshot(x.saved)
    ensures GoodTables(Apply(x, a))
    ensures !x.Cleared? ==> a.next <= Apply(x, a).next
  {
  }

  // ---- Handlers ----

  ghost predicate GoodHandler(handler: Handler, next: int) {
    match handler
    case Saving(x, _) => GoodSnapshot(x) && x.nextSession <= next
    case Validating(_, seen) => seen.Connected? && seen.session.Main? && 1 <= seen.session.n < next
    case _ => true
  }

  ghost predicate GoodHandlers(handlers: map<nat, Handler>, next: int) {
    forall h | h in handlers :: GoodHandler(handlers[h], next)
  }

  lemma {:induction false} SnapshotGood(a: Tables)
    requires GoodTables(a)
    ensures GoodSnapshot(TakeSnapshot(a)) && TakeSnapshot(a).nextSession == a.next
  {
  }

  lemma {:induction false} HandlersResume(s: State, h: nat, reply: Reply)
    requires GoodTables(s.tables) && h in s.handlers && GoodHandlers(s.handlers, s.tables.next)
    ensures GoodHandlers(Resume(s, h, reply).handlers, Resume(s, h, reply).tables.next)
  {
    ResumeHandlers(s, h, reply);
    var s' := Resume(s, h, reply);
    hide Resume;
    hide GoodTables;
    hide GoodSnapshot;
    if h in s'.handlers { assert s'.handlers == s.handlers[h := s'.handlers[h]]; }
  }

  // A resumed handler goes on as a good handler or ends; the other handlers wait on.
  lemma {:induction false} ResumeHandlers(s: State, h: nat, reply: Reply)
    requires GoodTables(s.tables) && h in s.handlers && GoodHandler(s.handlers[h], s.tables.next)
    ensures var s' := Resume(s, h, reply);
      && s.tables.next <= s'.tables.next
      && (s'.handlers == s.handlers - {h} ||
          (&& h in s'.handlers && s'.handlers == s.handlers[h := s'.handlers[h]]
           && GoodHandler(s'.handlers[h], s'.tables.next)))
  {
    match s.handlers[h]
    case AwaitingRelay(t) => FailedHandler(s, h, t, Toggle);
      hide AttachFailed;
    case AttachThrew(t, caller) => FailedHandler(s, h, t, caller);
      hide AttachFailed;
    case Attaching(t, skip, caller) =>
      if reply.Target? && reply.targetId != "" { AttachedHandler(s, h, t, skip, caller, reply.targetId); }
      FailedHandler(s, h, t, caller);
      hide Attached;
      hide AttachFailed;
    case Detaching(_, _) => SnapshotGood(s.tables);
      hide GoodTables;
      hide GoodSnapshot;
      hide TakeSnapshot;
    case Announcing => AnnouncedHandler(s, h, reply);
      hide AnnounceNext;
    case LookingUp(t) => LookedUpHandler(s, h, t, !reply.Failed?);
      hide LookedUp;
    case _ =>
      hide GoodTables;
      hide TakeSnapshot;
      hide GoodSnapshot;
      hide Attached;
      hide AnnounceNext;
      hide AttachFailed;
      hide LookedUp;
      hide Forget;
  }

  lemma {:induction false} FailedHandler(s: State, h: nat, tab: TabId, caller: Caller)
    requires h in s.handlers
    ensures var s' := AttachFailed(s, h, tab, caller);
      && s'.tables.next == s.tables.next
      && (s'.handlers == s.handlers - {h} ||
          (&& h in s'.handlers && s'.handlers == s.handlers[h := s'.handlers[h]]
           && GoodHandler(s'.handlers[h], s'.tables.next)))
  {
  }

  lemma {:induction false} LookedUpHandler(s: State, h: nat, tab: TabId, isPage: bool)
    requires h in s.handlers
    ensures var s' := LookedUp(s, h, tab, isPage);
      && s'.tables.next == s.tables.next && s'.locks == s.locks
      && (s'.handlers == s.handlers - {h} ||
          (&& h in s'.handlers && s'.handlers == s.handlers[h := s'.handlers[h]]
           && GoodHandler(s'.handlers[h], s'.tables.next)
           && LockOf(s'.handlers[h]) == None))
  {
    hide WithoutParent;
  }

  lemma {:induction false} AttachedHandler(s: State, h: nat, tab: TabId, skip: bool, caller: Caller, targetId: string)
    requires GoodTables(s.tables)
    ensures var s' := Attached(s, h, tab, skip, caller, targetId);
      && s.tables.next <= s'.tables.next && h in s'.handlers && s'.handlers == s.handlers[h := s'.handlers[h]]
      && GoodHandler(s'.handlers[h], s'.tables.next)
  {
    GoodTablesApply(Entered(tab, targetId), s.tables);
    SnapshotGood(Issue(s.tables, tab, targetId));
    hide GoodTables;
    hide GoodSnapshot;
    hide Issue;
  }

  lemma {:induction false} AnnouncedHandler(s: State, h: nat, reply: Reply)
    requires GoodTables(s.tables) && h in s.handlers && GoodHandler(s.handlers[h], s.tables.next)
    ensures var s' := AnnounceNext(s, h, reply);
      && s'.tables == s.tables && h in s'.handlers && s'.handlers == s.handlers[h := s'.handlers[h]]
      && GoodHandler(s'.handlers[h], s'.tables.next)
  {
    SnapshotGood(s.tables);
    hide GoodSnapshot;
    assert s.handlers[h := s.handlers[h]] == s.handlers;
  }

  lemma {:induction false} HandlersStep(s: State, e: Event)
    requires GoodTables(s.tables) && GoodHandlers(s.handlers, s.tables.next)
    ensures s.phase.Ready? || s.handlers == map[] ==> GoodHandlers(Step(s, e).handlers, Step(s, e).tables.next)
  {
    hide Resume;
    hide Move;
    hide GoodTables;
    hide GoodSnapshot;
    hide TakeSnapshot;
    match e
    case Resumed(h, reply) => if h in s.handlers { HandlersResume(s, h, reply); }
    case TabRemoved(h, t) => GoodTablesApply(Forgotten(t), s.tables); SnapshotGood(Forget(s.tables, t));
    case TabReplaced(h, added, removed) =>
      if removed in s.tables.tabs {
        GoodTablesApply(Moved(added, removed), s.tables);
        SnapshotGood(Move(s.tables, added, removed));
      }
    case _ =>
  }

  // ---- Locks ----

  // The tab whose operation lock a handler holds.
  function LockOf(handler: Handler): Option<TabId> {
    match handler
    case AwaitingRelay(t) => Some(t)
    case Attaching(t, _, caller) => if caller.Toggle? then Some(t) else None
    case AttachThrew(t, caller) => if caller.Toggle? then Some(t) else None
    case Detaching(_, after) => if after.Unlock? then Some(after.tab) else None
    case Saving(_, after) => if after.Unlock? then Some(after.tab) else None
    case _ => None
  }

  // A lock is held exactly while its one toggle is under way.
  ghost predicate LocksExact(locks: set<TabId>, handlers: map<nat, Handler>) {
    && (forall h | h in handlers && LockOf(handlers[h]).Some? :: LockOf(handlers[h]).value in locks)
    && (forall t | t in locks :: exists h :: h in handlers && LockOf(handlers[h]) == Some(t))
    && (forall h, g | h in handlers && g in handlers && LockOf(handlers[h]).Some? &&
                      LockOf(handlers[h]) == LockOf(handlers[g]) :: h == g)
  }

  lemma {:induction false} LocksSuspend(locks: set<TabId>, handlers: map<nat, Handler>, h: nat, x: Handler)
    requires LocksExact(locks, handlers)
    requires LockOf(x) == if h in handlers then LockOf(handlers[h]) else None
    ensures LocksExact(locks, handlers[h := x])
  {
    var after := handlers[h := x];
    forall t | t in locks ensures exists g :: g in after && LockOf(after[g]) == Some(t) {
      var g :| g in handlers && LockOf(handlers[g]) == Some(t);
      assert g in after && LockOf(after[g]) == Some(t);
    }
  }

  lemma {:induction false} LocksTake(locks: set<TabId>, handlers: map<nat, Handler>, h: nat, x: Handler)
    requires LocksExact(locks, handlers)
    requires h !in handlers && LockOf(x).Some? && LockOf(x).value !in locks
    ensures LocksExact(locks + {LockOf(x).value}, handlers[h := x])
  {
    var after := handlers[h := x];
    forall t | t in locks + {LockOf(x).value} ensures exists g :: g in after && LockOf(after[g]) == Some(t) {
      if t in locks {
        var g :| g in handlers && LockOf(handlers[g]) == Some(t);
        assert g in after && LockOf(after[g]) == Some(t);
      } else {
        assert h in after && LockOf(after[h]) == Some(t);
      }
    }
  }

  lemma {:induction false} LocksEnd(locks: set<TabId>, handlers: map<nat, Handler>, h: nat)
    requires LocksExact(locks, handlers) && h in handlers
    ensures LocksExact(if LockOf(handlers[h]).Some? then locks - {LockOf(handlers[h]).value} else locks, handlers - {h})
  {
    var mine := LockOf(handlers[h]);
    var after := handlers - {h};
    forall t | t in locks && mine != Some(t) ensures exists g :: g in after && LockOf(after[g]) == Some(t) {
      var g :| g in handlers && LockOf(handlers[g]) == Some(t);
      assert g in after && LockOf(after[g]) == Some(t);
    }
  }

  ghost predicate KeepsLock(s: State, h: nat, s': State)
    requires h in s.handlers
  {
    exists x :: s'.handlers == s.handlers[h := x] && LockOf(x) == LockOf(s.handlers[h]) && s'.locks == s.locks
  }

  ghost predicate ReleasesLock(s: State, h: nat, s': State)
    requires h in s.handlers
  {
    && s'.handlers == s.handlers - {h}
    && s'.locks == if LockOf(s.handlers[h]).Some? then s.locks - {LockOf(s.handlers[h]).value} else s.locks
  }

  // A resumed handler keeps its lock, or ends and releases it.
  lemma {:induction false} ResumeLocks(s: State, h: nat, reply: Reply)
    requires h in s.handlers
    ensures KeepsLock(s, h, Resume(s, h, reply)) || ReleasesLock(s, h, Resume(s, h, reply))
  {
    hide Forget;
    hide Issue;
    hide Discard;
    hide TakeSnapshot;
    match s.handlers[h]
    case AwaitingRelay(t) =>
      if reply.Failed? {
        FailedLocks(s, h, t, Toggle);
      } else {
        KeptLock(s, h, Attaching(t, false, Toggle), Resume(s, h, reply));
      }
    case Attaching(t, skip, caller) =>
      if reply.Target? && reply.targetId != "" {
        AttachedLocks(s, h, t, skip, caller, reply.targetId);
      } else {
        FailedLocks(s, h, t, caller);
      }
    case AttachThrew(t, caller) => FailedLocks(s, h, t, caller);
    case _ => OtherLocks(s, h, reply);
  }

  lemma {:induction false} KeptLock(s: State, h: nat, x: Handler, s': State)
    requires h in s.handlers && LockOf(x) == LockOf(s.handlers[h])
    requires s'.handlers == s.handlers[h := x] && s'.locks == s.locks
    ensures KeepsLock(s, h, s')
  {
  }

  lemma {:induction false} FailedLocks(s: State, h: nat, tab: TabId, caller: Caller)
    requires h in s.handlers && LockOf(s.handlers[h]) == if caller.Toggle? then Some(tab) else None
    ensures var s' := AttachFailed(s, h, tab, caller); KeepsLock(s, h, s') || ReleasesLock(s, h, s')
  {
    if caller.Reattach? && caller.attempt + 1 < REATTACH_ATTEMPTS {
      KeptLock(s, h, Sleeping(tab, caller.attempt + 1), AttachFailed(s, h, tab, caller));
    }
  }

  lemma {:induction false} AttachedLocks(s: State, h: nat, tab: TabId, skip: bool, caller: Caller, targetId: string)
    requires h in s.handlers && LockOf(s.handlers[h]) == if caller.Toggle? then Some(tab) else None
    ensures KeepsLock(s, h, Attached(s, h, tab, skip, caller, targetId))
  {
    hide Issue;
    hide TakeSnapshot;
    var s' := Attached(s, h, tab, skip, caller, targetId);
    KeptLock(s, h, s'.handlers[h], s');
  }

  lemma {:induction false} OtherLocks(s: State, h: nat, reply: Reply)
    requires h in s.handlers
    requires !s.handlers[h].AwaitingRelay? && !s.handlers[h].Attaching? && !s.handlers[h].AttachThrew?
    ensures KeepsLock(s, h, Resume(s, h, reply)) || ReleasesLock(s, h, Resume(s, h, reply))
  {
    hide Forget;
    hide Discard;
    hide TakeSnapshot;
    hide AttachFailed;
    hide Attached;
    if s.handlers[h].LookingUp? { LookedUpHandler(s, h, s.handlers[h].tab, !reply.Failed?); }
    hide LookedUp;
    hide GoodHandler;
    var s' := Resume(s, h, reply);
    if h in s'.handlers { KeptLock(s, h, s'.handlers[h], s'); }
  }

  lemma {:induction false} NoLocks()
    ensures LocksExact({}, map[])
  {
  }

  lemma {:induction false} LocksStep(s: State, e: Event)
    requires LocksExact(s.locks, s.handlers)
    requires s.phase.Ready? || s.handlers == map[]
    ensures LocksExact(Step(s, e).locks, Step(s, e).handlers)
  {
    NoLocks();
    hide LocksExact;
    hide Resume;
    hide Forget;
    hide Move;
    var s' := Step(s, e);
    match e
    case Resumed(h, reply) =>
      if h in s.handlers {
        ResumeLocks(s, h, reply);
        if KeepsLock(s, h, s') {
          var x :| s'.handlers == s.handlers[h := x] && LockOf(x) == LockOf(s.handlers[h]);
          LocksSuspend(s.locks, s.handlers, h, x);
        } else {
          LocksEnd(s.locks, s.handlers, h);
        }
      }
    case ActionClicked(h, t) =>
      if Starts(s, h) && t !in s.locks {
        LocksTake(s.locks, s.handlers, h, Detaching(t, Unlock(t)));
        LocksTake(s.locks, s.handlers, h, AwaitingRelay(t));
      }
    case TargetCreated(h, _) => if h in s'.handlers { LocksSuspend(s.locks, s.handlers, h, s'.handlers[h]); }
    case DebuggerDetached(h, _, _) => if h in s'.handlers { LocksSuspend(s.locks, s.handlers, h, s'.handlers[h]); }
    case TabRemoved(h, _) => if h in s'.handlers { LocksSuspend(s.locks, s.handlers, h, s'.handlers[h]); }
    case TabReplaced(h, _, _) => if h in s'.handlers { LocksSuspend(s.locks, s.handlers, h, s'.handlers[h]); }
    case ReannounceStarted(h) => if h in s'.handlers { LocksSuspend(s.locks, s.handlers, h, s'.handlers[h]); }
    case _ =>
  }

  // ---- Worker start ----

  ghost predicate GoodPhase(s: State) {
    match s.phase
    case Loading => s == Fresh(s.stored, s.highest)
    case Rehydrating(left) =>
      && s.handlers == map[] && s.locks == {} && s.reattachPending == {} && s.tables.children == map[]
      && left != map[]
      && (forall t | t in s.tables.tabs :: s.tables.tabs[t].Connected?)
      && (forall t | t in left :: t in s.tables.tabs && s.tables.tabs[t] == left[t])
    case Ready => true
  }

  // ---- Together ----

  ghost predicate Core(s: State) {
    && GoodPhase(s)
    && GoodTables(s.tables)
    && (s.stored.Some? ==> GoodSnapshot(s.stored.value))
    && GoodHandlers(s.handlers, s.tables.next)
    && LocksExact(s.locks, s.handlers)
  }

  lemma {:induction false} PhaseStep(s: State, e: Event)
    requires GoodPhase(s)
    requires s.stored.Some? ==> GoodSnapshot(s.stored.value)
    ensures GoodPhase(Step(s, e))
  {
  }

  lemma {:induction false} CoreStep(s: State, e: Event)
    requires Core(s)
    ensures Core(Step(s, e))
  {
    PhaseStep(s, e);
    StepEffect(s, e);
    GoodTablesApply(EffectOf(s, e), s.tables);
    HandlersStep(s, e);
    LocksStep(s, e);
    assert Step(s, e).stored.Some? ==> GoodSnapshot(Step(s, e).stored.value) by { StoredStep(s, e); }
  }

  // The storage changes only when a save commits.
  lemma {:induction false} StoredStep(s: State, e: Event)
    requires GoodHandlers(s.handlers, s.tables.next)
    ensures Step(s, e).stored == s.stored || (Step(s, e).stored.Some? && GoodSnapshot(Step(s, e).stored.value) &&
              Step(s, e).stored.value.nextSession <= s.tables.next && Step(s, e).tables == s.tables)
  {
  }

  lemma {:induction false} CoreRun(s: State, events: seq<Event>)
    requires Core(s)
    ensures Core(Run(s, events))
    decreases |events|
  {
    if events != [] {
      CoreStep(s, events[0]);
      CoreRun(Step(s, events[0]), events[1..]);
    }
  }
}
