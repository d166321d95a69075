/** The effect of a step on the relay's tables, apart from which handler caused it. */
module RelayTabsEffects {
  import opened RelayTabs

  datatype Effect =
    | Same
    | Cleared                                   // the worker died
    | Loaded(saved: Snapshot)                   // the saved tabs were read back
    | Entered(tab: TabId, targetId: string)     // attachTab issued a session
    | Marked(tab: TabId)                        // the tab waits for the relay
    | Dropped(tab: TabId)                       // only the tab record was deleted
    | Forgotten(tab: TabId)                     // record, index entry and children were deleted
    | Discarded(tab: TabId, seen: Tab)          // record and the index entry read earlier were deleted
    | Moved(added: TabId, removed: TabId)
    | ChildRecorded(child: Session, tab: TabId)
    | ChildErased(child: Session)

  ghost function Apply(x: Effect, a: Tables): Tables {
    match x
    case Same => a
    case Cleared => EMPTY_TABLES
    case Loaded(saved) => Restore(a, saved)
    case Entered(t, id) => Issue(a, t, id)
    case Marked(t) => a.(tabs := a.tabs[t := Connecting])
    case Dropped(t) => Drop(a, t)
    case Forgotten(t) => Forget(a, t)
    case Discarded(t, seen) => if seen.Connected? then Discard(a, t, seen) else a
    case Moved(added, removed) => if removed in a.tabs then Move(a, added, removed) else a
    case ChildRecorded(c, t) => a.(children := a.children[c := t])
    case ChildErased(c) => a.(children := a.children - {c})
  }

  function FailedAttach(tab: TabId, caller: Caller): Effect {
    if caller.Toggle? then Dropped(tab) else Same
  }

  function ResumeEffect(s: State, handler: Handler, reply: Reply): Effect {
    match handler
    case AwaitingRelay(t) => if reply.Failed? then Dropped(t) else Same
    case Attaching(t, _, caller) =>
      if reply.Target? && reply.targetId != "" then Entered(t, reply.targetId) else FailedAttach(t, caller)
    case AttachThrew(t, caller) => FailedAttach(t, caller)
    case LookingUp(t) => if reply.Failed? || t !in s.reattachPending then Forgotten(t) else Same
    case Validating(t, seen) => if reply.Failed? && seen.Connected? then Discarded(t, seen) else Same
    case _ => Same
  }

  function EffectOf(s: State, e: Event): Effect {
    match e
    case Restart => Cleared
    case SnapshotRead => if s.phase.Loading? && s.stored.Some? then Loaded(s.stored.value) else Same
    case RehydrateVerdict(t, valid) =>
      if s.phase.Rehydrating? && t in s.phase.left && !valid && s.phase.left[t].Connected?
      then Discarded(t, s.phase.left[t]) else Same
    case ActionClicked(h, t) =>
      if !Starts(s, h) || t == 0 || t in s.locks || t in s.reattachPending then Same
      else if IsConnected(s.tables, t) then Forgotten(t)
      else Marked(t)
    case DebuggerDetached(h, t, byUser) =>
      if Starts(s, h) && t != 0 && t in s.tables.tabs && byUser then Forgotten(t) else Same
    case ChildAttached(t, c) => if s.phase.Ready? && TracksChildren(s.tables, t, c) then ChildRecorded(c, t) else Same
    case ChildDetached(t, c) => if s.phase.Ready? && TracksChildren(s.tables, t, c) then ChildErased(c) else Same
    case TabRemoved(h, t) => if Starts(s, h) && t in s.tables.tabs then Forgotten(t) else Same
    case TabReplaced(h, added, removed) =>
      if Starts(s, h) && removed in s.tables.tabs then Moved(added, removed) else Same
    case Resumed(h, reply) => if h in s.handlers then ResumeEffect(s, s.handlers[h], reply) else Same
    case _ => Same
  }

  lemma {:induction false} ResumeEffectExact(s: State, h: nat, reply: Reply)
    requires h in s.handlers
    ensures Resume(s, h, reply).tables == Apply(ResumeEffect(s, s.handlers[h], reply), s.tables)
  {
    hide Issue;
    hide Discard;
    hide Forget;
    hide TakeSnapshot;
  }

  // Every step changes the tables by its effect and in no other way.
  lemma {:induction false} StepEffect(s: State, e: Event)
    ensures Step(s, e).tables == Apply(EffectOf(s, e), s.tables)
  {
    if e.Resumed? && e.h in s.handlers { ResumeEffectExact(s, e.h, e.reply); }
    hide Resume;
    hide ResumeEffect;
    hide Forget;
    hide Move;
    hide TakeSnapshot;
    hide Restore;
  }
}
