/** The mark of a tab that is re-attached after a navigation: who holds it, and how long. */
module RelayTabsMarks {
  import opened RelayTabs
  import opened RelayTabsReattach

  // The handler will take the tab's mark away, unless someone else does before.
  predicate HoldsMark(handler: Handler, tab: TabId) {
    Reattaching(handler, tab) || (handler.Saving? && handler.after == Settle(tab))
  }

  // Each marked tab has a handler that will take the mark away.
  ghost predicate MarksHeld(s: State) {
    forall t | t in s.reattachPending :: exists h :: h in s.handlers && HoldsMark(s.handlers[h], t)
  }

  // No re-attach is past its fifth attempt.
  predicate FewAttempts(handler: Handler) {
    match handler
    case Sleeping(_, k) => k < 5
    case Probing(_, k) => k < 5
    case Attaching(_, _, caller) => caller.Reattach? ==> caller.attempt < 5
    case AttachThrew(_, caller) => caller.Reattach? ==> caller.attempt < 5
    case _ => true
  }

  ghost predicate AllFew(s: State) {
    forall h | h in s.handlers :: FewAttempts(s.handlers[h])
  }

  // The handler keeps the mark of the tab, or the tab is not marked after the step.
  ghost predicate StillHeld(s: State, h: nat, s': State, tab: TabId) {
    tab in s'.reattachPending ==> h in s'.handlers && HoldsMark(s'.handlers[h], tab)
  }

  lemma {:induction false} ResumedHolds(s: State, h: nat, reply: Reply, tab: TabId)
    requires h in s.handlers && HoldsMark(s.handlers[h], tab)
    ensures StillHeld(s, h, Resume(s, h, reply), tab)
  {
  }

  // Only the start of a re-attach marks a tab.
  lemma {:induction false} ResumedMarks(s: State, h: nat, reply: Reply, tab: TabId)
    requires h in s.handlers && tab !in s.reattachPending
    ensures StillHeld(s, h, Resume(s, h, reply), tab)
  {
  }

  // A handler that is not resumed is left as it is, unless the worker dies.
  lemma {:induction false} NotResumed(s: State, h: nat, e: Event)
    requires h in s.handlers && !(e.Resumed? && e.h == h)
    ensures e.Restart? || (h in Step(s, e).handlers && Step(s, e).handlers[h] == s.handlers[h])
  {
    if e.Resumed? && e.h in s.handlers { OthersKept(s, e.h, e.reply, h); }
    hide Resume;
    hide Forget;
    hide Move;
    hide TakeSnapshot;
  }

  lemma {:induction false} OnlyResumedMark(s: State, e: Event)
    requires !e.Resumed?
    ensures Step(s, e).reattachPending <= s.reattachPending
  {
    hide Forget;
    hide Move;
    hide TakeSnapshot;
  }

  lemma {:induction false} MarksStep(s: State, e: Event)
    requires MarksHeld(s)
    ensures MarksHeld(Step(s, e))
  {
    var s' := Step(s, e);
    forall t | t in s'.reattachPending ensures exists h :: h in s'.handlers && HoldsMark(s'.handlers[h], t) {
      if t in s.reattachPending {
        var h :| h in s.handlers && HoldsMark(s.handlers[h], t);
        if e.Resumed? && e.h == h {
          ResumedHolds(s, h, e.reply, t);
        } else {
          NotResumed(s, h, e);
        }
      } else if e.Resumed? && e.h in s.handlers {
        ResumedMarks(s, e.h, e.reply, t);
      } else {
        OnlyResumedMark(s, e);
      }
    }
  }

  lemma {:induction false} FewStep(s: State, e: Event)
    requires AllFew(s)
    ensures AllFew(Step(s, e))
  {
    hide Resume;
    var s' := Step(s, e);
    hide FewAttempts;
    forall h | h in s'.handlers ensures FewAttempts(s'.handlers[h]) {
      if h in s.handlers && !(e.Resumed? && e.h == h) {
        NotResumed(s, h, e);
      } else if h in s.handlers {
        ResumedFew(s, h, e.reply);
      } else {
        StartedFew(s, h, e);
      }
    }
  }

  lemma {:induction false} ResumedFew(s: State, h: nat, reply: Reply)
    requires h in s.handlers && FewAttempts(s.handlers[h]) && h in Resume(s, h, reply).handlers
    ensures FewAttempts(Resume(s, h, reply).handlers[h])
  {
    hide Forget;
    hide Issue;
    hide TakeSnapshot;
  }

  lemma {:induction false} StartedFew(s: State, h: nat, e: Event)
    requires h !in s.handlers && h in Step(s, e).handlers
    ensures FewAttempts(Step(s, e).handlers[h])
  {
    if e.Resumed? && e.h in s.handlers { NoneStarted(s, e.h, e.reply); }
    hide Resume;
    hide Forget;
    hide Move;
    hide TakeSnapshot;
  }

  lemma {:induction false} NoneStarted(s: State, h: nat, reply: Reply)
    requires h in s.handlers
    ensures Resume(s, h, reply).handlers.Keys <= s.handlers.Keys
  {
    hide Forget;
    hide Issue;
    hide TakeSnapshot;
  }

  lemma {:induction false} MarksRun(s: State, events: seq<Event>)
    requires MarksHeld(s) && AllFew(s)
    ensures MarksHeld(Run(s, events)) && AllFew(Run(s, events))
    decreases |events|
  {
    hide Step;
    hide MarksHeld;
    hide AllFew;
    if events != [] {
      MarksStep(s, events[0]);
      FewStep(s, events[0]);
      MarksRun(Step(s, events[0]), events[1..]);
    }
  }

  // In every reachable state a tab is marked only while its re-attach is under way, which has made fewer than five
  // failed attempts.
  lemma {:induction false} MarksAlways(events: seq<Event>)
    ensures MarksHeld(Run(INIT, events)) && AllFew(Run(INIT, events))
  {
    MarksRun(INIT, events);
  }
}
