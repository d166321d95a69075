/** The relay's promises over every interleaving, with the exact steps at which one is lost. */
module RelayTabsTheorems {
  import opened RelayTabs
  import opened RelayTabsEffects
  import opened RelayTabsInvariants

  // ---- The session index ----

  // Each connected tab is found under its session.
  ghost predicate Indexed(a: Tables) {
    forall t | t in a.tabs && a.tabs[t].Connected? ::
      a.tabs[t].session in a.index && a.index[a.tabs[t].session] == t
  }

  ghost predicate HeldElsewhere(a: Tables, session: Session, tab: TabId) {
    exists t :: t in a.tabs && t != tab && a.tabs[t].Connected? && a.tabs[t].session == session
  }

  // A failed validation deletes a session that meanwhile belongs to another tab.
  ghost predicate SessionMoved(s: State, e: Event) {
    var x := EffectOf(s, e);
    x.Discarded? && x.seen.Connected? && HeldElsewhere(s.tables, x.seen.session, x.tab)
  }

  // Deleting what was read about `tab` loses the entry of the tab that holds that session now.
  lemma {:induction false} IndexedDiscard(a: Tables, tab: TabId, seen: Tab)
    requires Indexed(a) && seen.Connected?
    ensures Indexed(Discard(a, tab, seen)) <==> !HeldElsewhere(a, seen.session, tab)
  {
    var after := Discard(a, tab, seen);
    if t :| t in a.tabs && t != tab && a.tabs[t].Connected? && a.tabs[t].session == seen.session {
      assert t in after.tabs && after.tabs[t].session !in after.index;
    }
  }

  lemma {:induction false} IndexedApply(x: Effect, a: Tables)
    requires GoodTables(a) && Indexed(a)
    requires x.Loaded? ==> GoodSnapshot(x.saved)
    ensures Indexed(Apply(x, a)) <==> !(x.Discarded? && x.seen.Connected? && HeldElsewhere(a, x.seen.session, x.tab))
  {
    if x.Discarded? && x.seen.Connected? {
      IndexedDiscard(a, x.tab, x.seen);
    }
  }

  // Among all steps, only that deletion loses the index.
  lemma {:induction false} IndexedStep(s: State, e: Event)
    requires Core(s) && Indexed(s.tables)
    ensures Indexed(Step(s, e).tables) <==> !SessionMoved(s, e)
  {
    StepEffect(s, e);
    IndexedApply(EffectOf(s, e), s.tables);
  }

  ghost predicate BeingValidated(s: State, tab: TabId) {
    exists g :: g in s.handlers && s.handlers[g].Validating? && s.handlers[g].tab == tab
  }

  // A session under validation is held by the tab being validated or by none.
  ghost predicate ValidationsSettled(handlers: map<nat, Handler>, tabs: map<TabId, Tab>) {
    forall g, t | g in handlers && handlers[g].Validating? && handlers[g].seen.Connected? &&
                  t in tabs && tabs[t].Connected? && tabs[t].session == handlers[g].seen.session :: t == handlers[g].tab
  }

  ghost predicate ReplacesValidated(s: State, e: Event) {
    e.TabReplaced? && BeingValidated(s, e.removed)
  }

  // Steps other than an announce only end validations.
  lemma {:induction false} ValidationsSame(s: State, e: Event, g: nat)
    requires g in Step(s, e).handlers && Step(s, e).handlers[g].Validating?
    ensures (g in s.handlers && s.handlers[g] == Step(s, e).handlers[g])
         || (Step(s, e).tables == s.tables &&
             IsConnected(s.tables, Step(s, e).handlers[g].tab) &&
             Step(s, e).handlers[g].seen == s.tables.tabs[Step(s, e).handlers[g].tab])
  {
    hide Forget;
    hide Move;
    hide TakeSnapshot;
    match e
    case Resumed(h, reply) => if h in s.handlers { ValidationsResumed(s, h, reply, g); }
      hide Resume;
    case _ =>
      hide Resume;
  }

  lemma {:induction false} ValidationsResumed(s: State, h: nat, reply: Reply, g: nat)
    requires h in s.handlers
    ensures var s' := Resume(s, h, reply);
      g in s'.handlers && s'.handlers[g].Validating? ==>
        || (g in s.handlers && s.handlers[g] == s'.handlers[g])
        || (s'.tables == s.tables && IsConnected(s.tables, s'.handlers[g].tab)
            && s'.handlers[g].seen == s.tables.tabs[s'.handlers[g].tab])
  {
    hide Forget;
    hide Issue;
    hide Discard;
    hide TakeSnapshot;
  }

  lemma {:induction false} ValidationKept(s: State, e: Event, g: nat, t: TabId)
    requires GoodTables(s.tables) && GoodHandlers(s.handlers, s.tables.next)
    requires ValidationsSettled(s.handlers, s.tables.tabs) && !ReplacesValidated(s, e)
    requires g in s.handlers && s.handlers[g].Validating? && !EffectOf(s, e).Loaded?
    requires HoldsSession(Apply(EffectOf(s, e), s.tables).tabs, t, s.handlers[g].seen.session)
    ensures t == s.handlers[g].tab
  {
  }

  lemma {:induction false} ValidationsStep(s: State, e: Event)
    requires Core(s) && ValidationsSettled(s.handlers, s.tables.tabs) && !ReplacesValidated(s, e)
    ensures ValidationsSettled(Step(s, e).handlers, Step(s, e).tables.tabs)
  {
    StepEffect(s, e);
    var s' := Step(s, e);
    forall g, t | g in s'.handlers && s'.handlers[g].Validating? && s'.handlers[g].seen.Connected? &&
                  t in s'.tables.tabs && HoldsSession(s'.tables.tabs, t, s'.handlers[g].seen.session)
      ensures t == s'.handlers[g].tab
    {
      ValidationsSame(s, e, g);
      if g in s.handlers && s.handlers[g] == s'.handlers[g] {
        assert !EffectOf(s, e).Loaded? by { NoHandlersWhileLoading(s, e, g); }
        ValidationKept(s, e, g, t);
      }
    }
  }

  lemma {:induction false} NoHandlersWhileLoading(s: State, e: Event, g: nat)
    requires Core(s) && g in s.handlers
    ensures !EffectOf(s, e).Loaded?
  {
  }

  // No tab is replaced while its own re-announce validation is awaited.
  ghost predicate NoReplacementDuringValidation(s: State, events: seq<Event>)
    decreases |events|
  {
    events == [] ||
    (!ReplacesValidated(s, events[0]) && NoReplacementDuringValidation(Step(s, events[0]), events[1..]))
  }

  lemma {:induction false} IndexedRun(s: State, events: seq<Event>)
    requires Core(s) && Indexed(s.tables) && ValidationsSettled(s.handlers, s.tables.tabs)
    requires NoReplacementDuringValidation(s, events)
    ensures Indexed(Run(s, events).tables)
    decreases |events|
  {
    if events != [] {
      CoreStep(s, events[0]);
      ValidationsStep(s, events[0]);
      IndexedStep(s, events[0]);
      assert !SessionMoved(s, events[0]) by { MovedNeedsReplacement(s, events[0]); }
      IndexedRun(Step(s, events[0]), events[1..]);
    }
  }

  lemma {:induction false} MovedNeedsReplacement(s: State, e: Event)
    requires Core(s) && ValidationsSettled(s.handlers, s.tables.tabs)
    ensures !SessionMoved(s, e)
  {
  }

  // In every reachable state each connected tab is found under its session.
  lemma {:induction false} IndexAlways(events: seq<Event>)
    requires NoReplacementDuringValidation(INIT, events)
    ensures Indexed(Run(INIT, events).tables)
  {
    IndexedRun(INIT, events);
  }
}
