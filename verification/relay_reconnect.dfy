/** When a lost relay is reconnected: what each failure arms, and what keeps the attempts going. */
module RelayReconnect {
  import opened Basics
  import opened RelayConnection

  // ---- One event ----

  // Of those who await a connect that fails, a keepalive and a startup arm a timer in any case, a timer if the failure
  // can be retried, and a click never.
  lemma {:induction false} FailureContinues(s: Conn, ws: seq<Waiter>, retryable: bool, random: nat -> real)
    ensures var s' := ContinueAll(s, ws, false, retryable, random);
      && s'.sockets == s.sockets && s'.current == s.current && s'.connecting == s.connecting
      && (s'.timer.Some? <==> s.timer.Some? || Keepalive in ws || Startup in ws || (Timer in ws && retryable))
    decreases |ws|
  {
    if ws != [] { FailureContinues(Continue(s, ws[0], false, retryable, random), ws[1..], retryable, random); }
  }

  // After a failed connect a timer is armed exactly when one was, a keepalive or startup awaited the connect, or a
  // timer did and the failure was not the missing token, which is found before a socket is made.
  lemma {:induction false} FailureArmsExactly(s: Conn, retryable: bool, timedOut: bool, random: nat -> real)
    requires s.connecting.Some?
    ensures var s', a := Step(s, ConnectFailed(retryable, timedOut), random), s.connecting.value;
      && s'.connecting.None?
      && (s'.timer.Some? <==>
            || s.timer.Some? || Keepalive in a.waiters || Startup in a.waiters
            || (Timer in a.waiters && (retryable || a.socket.Some?)))
  {
    var a := s.connecting.value;
    if a.socket.None? {
      FailureContinues(s.(connecting := None), a.waiters, retryable, random);
    } else {
      var end := if timedOut then TimedOut else Closed;
      FailureContinues(s.(connecting := None, sockets := s.sockets[a.socket.value := end]), a.waiters, true, random);
    }
  }

  lemma {:induction false} SuccessContinues(s: Conn, ws: seq<Waiter>, retryable: bool, random: nat -> real)
    requires s.attempt == 0
    ensures var s' := ContinueAll(s, ws, true, retryable, random); s' == s.(log := s'.log)
    decreases |ws|
  {
    if ws != [] { SuccessContinues(Continue(s, ws[0], true, retryable, random), ws[1..], retryable, random); }
  }

  // A connect that succeeds leaves the relay open and the back-off at its beginning.
  lemma {:induction false} SuccessResets(s: Conn, random: nat -> real)
    requires DialsCurrent(s) && s.connecting.Some? && s.connecting.value.socket.Some?
    ensures var s' := Step(s, SocketOpened, random);
      IsOpen(s') && s'.connecting.None? && s'.attempt == 0 && s'.timer == s.timer && s'.current == s.current
  {
    var socket := s.connecting.value.socket.value;
    var up := s.(sockets := s.sockets[socket := Opened], connecting := None);
    SuccessContinues(ResetAttempts(up), s.connecting.value.waiters, true, random);
  }

  // The event asks for a connection, on behalf of the waiter.
  predicate Asks(s: Conn, e: Event, w: Waiter) {
    match e
    case TimerFired(id) => w.Timer? && id in s.armed
    case KeepaliveAlarm(tabs) => w.Keepalive? && tabs && !IsOpen(s) && s.connecting.None? && s.timer.None?
    case Clicked => w.Click?
    case StartedWithTabs => w.Startup?
    case _ => false
  }

  // Unless the relay is open, whoever asks awaits the connect under way, or the one this starts.
  lemma {:induction false} AskersAwait(s: Conn, e: Event, w: Waiter, random: nat -> real)
    requires Asks(s, e, w)
    ensures var s' := Step(s, e, random);
      && s'.sockets == s.sockets && s'.current == s.current
      && (IsOpen(s) ==> s'.connecting == s.connecting)
      && (!IsOpen(s) && s.connecting.None? ==> s'.connecting == Some(Attempt(None, [w])))
      && (!IsOpen(s) && s.connecting.Some? ==>
            s'.connecting == Some(Attempt(s.connecting.value.socket, s.connecting.value.waiters + [w])))
      && (e.TimerFired? || e.Clicked? ==> s'.timer.None?) && (e.Clicked? ==> s'.attempt == 0)
      && (e.KeepaliveAlarm? || e.StartedWithTabs? ==> s'.timer == s.timer)
      && (IsOpen(s) && (e.TimerFired? || e.StartedWithTabs?) ==> s'.attempt == 0)
  {
  }

  // A keepalive does nothing when there are no tabs, and nothing while the relay is covered.
  lemma {:induction false} KeepaliveRests(s: Conn, tabsPresent: bool, random: nat -> real)
    ensures Step(s, KeepaliveAlarm(tabsPresent), random) == s <==> !tabsPresent || Covered(s)
  {
  }

  // A keepalive that finds a timer armed by someone else leaves it, and a click leaves everything.
  lemma {:induction false} KeepaliveYields(s: Conn, ws: seq<Waiter>, retryable: bool, random: nat -> real)
    requires s.timer.Some? && Timer !in ws && Startup !in ws
    ensures ContinueAll(s, ws, false, retryable, random) == s
    decreases |ws|
  {
    if ws != [] { KeepaliveYields(s, ws[1..], retryable, random); }
  }

  // A schedule replaces the armed timer, and waits 1000 ms doubled for each attempt since the last reset, up to
  // 30000 ms, and a random part of a second.
  lemma {:induction false} ScheduleExactly(s: Conn, random: nat -> real)
    ensures var s' := Schedule(s, random);
      var wait := if 1000 * Pow2(s.attempt) < 30000 then 1000 * Pow2(s.attempt) else 30000;
      && s'.timer == Some(s.nextTimer) && s'.nextTimer == s.nextTimer + 1 && s'.attempt == s.attempt + 1
      && s'.armed == (if s.timer.Some? then s.armed - {s.timer.value} else s.armed) + {s.nextTimer}
      && s'.log == s.log + [Scheduled(wait as real + 1000.0 * random(s.nextTimer))]
  {
  }

  // A socket that opens although its dial timed out counts as the open relay while it is the current one.
  lemma {:induction false} LateOpens(s: Conn, socket: nat, random: nat -> real)
    requires s.current == Some(socket) && socket in s.sockets && s.sockets[socket].TimedOut?
    ensures var s' := Step(s, SocketOpenedLate(socket), random);
      IsOpen(s') && s' == s.(sockets := s.sockets[socket := OpenedLate])
  {
  }

  // ---- Runs after the loss of the relay ----

  // The step gives up for want of a token, is a click, or opens a socket whose dial had timed out.
  predicate Disturbs(e: Event) {
    (e.ConnectFailed? && !e.retryable) || e.Clicked? || e.SocketOpenedLate?
  }

  // Someone other than a click awaits the connect.
  predicate Awaited(a: Attempt) { Timer in a.waiters || Keepalive in a.waiters || Startup in a.waiters }

  // The current socket is about to end, and has the permanent close handler.
  predicate EndsSoon(s: Conn) { s.current.Some? && s.current.value in s.sockets && s.sockets[s.current.value].Closing? }

  // A timer is armed, or a connect is awaited by someone who will try again, or the relay is up or about to close.
  ghost predicate KeepsTrying(s: Conn) {
    && DialsCurrent(s)
    && (s.current.Some? && s.current.value in s.sockets ==> !s.sockets[s.current.value].OpenedLate?)
    && (IsOpen(s) ==> s.connecting.None?)
    && (|| s.timer.Some?
        || if s.connecting.Some? then Awaited(s.connecting.value) else IsOpen(s) || EndsSoon(s))
  }

  lemma {:induction false} KeepsTryingStep(s: Conn, e: Event, random: nat -> real)
    requires KeepsTrying(s) && !Disturbs(e)
    ensures KeepsTrying(Step(s, e, random))
  {
    DialsStep(s, e, random);
    if s.connecting.Some? {
      var a := s.connecting.value;
      match e
      case ConnectFailed(retryable, timedOut) =>
        FailureArmsExactly(s, retryable, timedOut, random);
        if a.socket.Some? {
          var end := if timedOut then TimedOut else Closed;
          var failed := s.(connecting := None, sockets := s.sockets[a.socket.value := end]);
          FailureContinues(failed, a.waiters, true, random);
        } else {
          FailureContinues(s.(connecting := None), a.waiters, retryable, random);
        }
      case SocketOpened => if a.socket.Some? { SuccessResets(s, random); OpenedNow(s, random); }
      case _ =>
    }
  }

  lemma {:induction false} OpenedNow(s: Conn, random: nat -> real)
    requires DialsCurrent(s) && s.connecting.Some? && s.connecting.value.socket.Some?
    ensures var s' := Step(s, SocketOpened, random);
      s'.current == s.connecting.value.socket && s'.current.value in s'.sockets && s'.sockets[s'.current.value].Opened?
  {
    var socket := s.connecting.value.socket.value;
    var up := s.(sockets := s.sockets[socket := Opened], connecting := None);
    SuccessContinues(ResetAttempts(up), s.connecting.value.waiters, true, random);
  }

  lemma {:induction false} KeepsTryingRun(s: Conn, events: seq<Event>, random: nat -> real)
    requires KeepsTrying(s) && forall e | e in events :: !Disturbs(e)
    ensures KeepsTrying(Run(s, events, random))
    decreases |events|
  {
    hide KeepsTrying;
    hide Step;
    if events != [] {
      KeepsTryingStep(s, events[0], random);
      KeepsTryingRun(Step(s, events[0], random), events[1..], random);
    }
  }

  lemma {:induction false} DialsRun(s: Conn, events: seq<Event>, random: nat -> real)
    requires DialsCurrent(s)
    ensures DialsCurrent(Run(s, events, random))
    decreases |events|
  {
    hide Step;
    hide DialsCurrent;
    if events != [] {
      DialsStep(s, events[0], random);
      DialsRun(Step(s, events[0], random), events[1..], random);
    }
  }

  // Once the end of the current socket has scheduled a reconnect, the relay stays covered, but for the moment between
  // the closing of a socket and its end, until a connect fails for want of a token, a click, or a late opening.
  lemma {:induction false} StaysCovered(before: seq<Event>, socket: nat, after: seq<Event>, random: nat -> real)
    requires var s := Run(INIT, before, random);
      s.current == Some(socket) && socket in s.sockets && Watched(s.sockets[socket])
    requires forall e | e in after :: !Disturbs(e)
    ensures var s := Run(Step(Run(INIT, before, random), SocketClosed(socket), random), after, random);
      Covered(s) || EndsSoon(s)
  {
    var s := Run(INIT, before, random);
    DialsRun(INIT, before, random);
    DialsStep(s, SocketClosed(socket), random);
    CloseSchedulesExactly(s, socket, random);
    KeepsTryingRun(Step(s, SocketClosed(socket), random), after, random);
  }
}
