/** Connecting to the relay and reconnecting with back-off, as a state machine.
  *
  * `relayWs`, `relayConnectPromise`, `reconnectTimer` and `reconnectAttempt` are modelled together with
  * what the event loop holds: the armed timers and the handlers that await the connect promise.  When
  * that promise settles, all who await it run before the next event, in the order they began to wait.
  */
module RelayConnection {
  import opened Basics

  // A socket from creation to its end.  One whose dial timed out may open late, and then it has no close handler.
  datatype Ready = Dialing | Opened | Closing | TimedOut | OpenedLate | Closed

  // Who awaits ensureRelayConnection.
  datatype Waiter = Timer | Keepalive | Click | Startup

  datatype Attempt = Attempt(socket: Option<nat>, waiters: seq<Waiter>)

  datatype Note = Scheduled(delay: real) | Reset

  datatype Conn = Conn(
    sockets: map<nat, Ready>,
    current: Option<nat>,      // relayWs
    connecting: Option<Attempt>, // relayConnectPromise
    timer: Option<nat>,        // reconnectTimer
    armed: set<nat>,           // the timers the event loop holds
    nextTimer: nat,
    attempt: nat,              // reconnectAttempt
    log: seq<Note>             // history: the schedules and resets so far
  )

  datatype Event =
    | TimerFired(id: nat)
    | KeepaliveAlarm(tabsPresent: bool)
    | Clicked
    | StartedWithTabs
    | SocketCreated(socket: nat)
    | ConnectFailed(retryable: bool, timedOut: bool)
    | SocketOpened
    | SocketOpenedLate(socket: nat)
    | SocketClosing(socket: nat)
    | SocketClosed(socket: nat)

  const INIT: Conn := Conn(map[], None, None, None, {}, 0, 0, [])

  // ---- Back-off ----

  function Pow2(k: nat): nat { if k == 0 then 1 else 2 * Pow2(k - 1) }

  function Min(a: int, b: int): int { if a < b then a else b }

  function Max(a: int, b: int): int { if a < b then b else a }

  function Backoff(attempt: int, baseMs: int, maxMs: int): int {
    Min(baseMs * Pow2(Max(0, attempt)), maxMs)
  }

  // reconnectDelayMs with its default options.
  function ReconnectDelay(attempt: int, random: real): real {
    Backoff(attempt, 1000, 30000) as real + 1000.0 * random
  }

  // ---- Pieces ----

  predicate HasOpened(r: Ready) { r.Opened? || r.OpenedLate? }

  predicate IsOpen(s: Conn) {
    s.current.Some? && s.current.value in s.sockets && HasOpened(s.sockets[s.current.value])
  }

  // The socket opened in time and has the permanent close handler.
  predicate Watched(r: Ready) { r.Opened? || r.Closing? }

  function Disarm(s: Conn): Conn {
    if s.timer.None? then s else s.(armed := s.armed - {s.timer.value}, timer := None)
  }

  function Schedule(s: Conn, random: nat -> real): Conn {
    var d := Disarm(s);
    d.(timer := Some(d.nextTimer), armed := d.armed + {d.nextTimer}, nextTimer := d.nextTimer + 1,
       attempt := d.attempt + 1, log := d.log + [Scheduled(ReconnectDelay(d.attempt, random(d.nextTimer)))])
  }

  function ResetAttempts(s: Conn): Conn {
    s.(attempt := 0, log := s.log + [Reset])
  }

  // What a waiter does once ensureRelayConnection returns or throws.
  function Continue(s: Conn, w: Waiter, ok: bool, retryable: bool, random: nat -> real): Conn {
    match w
    case Timer => if ok then ResetAttempts(s) else if retryable then Schedule(s, random) else s
    case Keepalive => if ok || s.timer.Some? then s else Schedule(s, random)
    case Click => s
    case Startup => if ok then ResetAttempts(s) else Schedule(s, random)
  }

  function ContinueAll(s: Conn, ws: seq<Waiter>, ok: bool, retryable: bool, random: nat -> real): Conn
    decreases |ws|
  {
    if ws == [] then s
    else ContinueAll(Continue(s, ws[0], ok, retryable, random), ws[1..], ok, retryable, random)
  }

  // ensureRelayConnection: return at once, join the attempt under way, or start one.
  function Ensure(s: Conn, w: Waiter, random: nat -> real): Conn {
    if IsOpen(s) then Continue(s, w, true, true, random)
    else match s.connecting
      case Some(a) => s.(connecting := Some(a.(waiters := a.waiters + [w])))
      case None => s.(connecting := Some(Attempt(None, [w])))
  }

  function Settle(s: Conn, ok: bool, retryable: bool, random: nat -> real): Conn
    requires s.connecting.Some?
  {
    var done := s.(connecting := None);
    ContinueAll(if ok then ResetAttempts(done) else done, s.connecting.value.waiters, ok, retryable, random)
  }

  function Step(s: Conn, e: Event, random: nat -> real): Conn {
    match e
    case TimerFired(id) =>
      if id !in s.armed then s
      else Ensure(s.(armed := s.armed - {id}, timer := None), Timer, random)
    case KeepaliveAlarm(tabsPresent) =>
      if !tabsPresent || IsOpen(s) || s.connecting.Some? || s.timer.Some? then s else Ensure(s, Keepalive, random)
    case Clicked => Ensure(ResetAttempts(Disarm(s)), Click, random)
    case StartedWithTabs => Ensure(s, Startup, random)
    case SocketCreated(socket) =>
      if s.connecting.Some? && s.connecting.value.socket.None? && socket !in s.sockets then
        s.(sockets := s.sockets[socket := Dialing], current := Some(socket),
           connecting := Some(s.connecting.value.(socket := Some(socket))))
      else s
    case ConnectFailed(retryable, timedOut) =>
      // only the missing token, found before a socket exists, is not retried
      if s.connecting.None? then s
      else
        var socket := s.connecting.value.socket;
        if socket.None? then Settle(s, false, retryable, random)
        else
          var end := if timedOut then TimedOut else Closed;
          Settle(s.(sockets := s.sockets[socket.value := end]), false, true, random)
    case SocketOpened =>
      if s.connecting.Some? && s.connecting.value.socket.Some? then
        Settle(s.(sockets := s.sockets[s.connecting.value.socket.value := Opened]), true, true, random)
      else s
    case SocketOpenedLate(socket) =>
      if socket in s.sockets && s.sockets[socket].TimedOut? then s.(sockets := s.sockets[socket := OpenedLate]) else s
    case SocketClosing(socket) =>
      if socket in s.sockets && s.sockets[socket].Opened? then s.(sockets := s.sockets[socket := Closing]) else s
    case SocketClosed(socket) =>
      if socket !in s.sockets || s.sockets[socket].Dialing? || s.sockets[socket].Closed? then s
      else
        var gone := s.(sockets := s.sockets[socket := Closed]);
        if s.current == Some(socket) && Watched(s.sockets[socket]) then Schedule(gone.(current := None), random)
        else gone
  }

  function Run(s: Conn, events: seq<Event>, random: nat -> real): Conn
    decreases |events|
  {
    if events == [] then s else Run(Step(s, events[0], random), events[1..], random)
  }

  // ---- The reconnect timer ----

  // At most one timer is armed, and reconnectTimer is non-null exactly when one is.
  ghost predicate TimerExact(s: Conn) {
    && s.armed == (if s.timer.Some? then {s.timer.value} else {})
    && (s.timer.Some? ==> s.timer.value < s.nextTimer)
  }

  lemma {:induction false} TimerContinueAll(s: Conn, ws: seq<Waiter>, ok: bool, retryable: bool, random: nat -> real)
    requires TimerExact(s)
    ensures TimerExact(ContinueAll(s, ws, ok, retryable, random))
    decreases |ws|
  {
    if ws != [] {
      TimerContinueAll(Continue(s, ws[0], ok, retryable, random), ws[1..], ok, retryable, random);
    }
  }

  lemma {:induction false} TimerStep(s: Conn, e: Event, random: nat -> real)
    requires TimerExact(s)
    ensures TimerExact(Step(s, e, random))
  {
    if s.connecting.Some? {
      var ws := s.connecting.value.waiters;
      forall x: Conn, ok, retryable | TimerExact(x) ensures TimerExact(ContinueAll(x, ws, ok, retryable, random)) {
        TimerContinueAll(x, ws, ok, retryable, random);
      }
    }
  }

  // ---- Back-off delays ----

  // The number of schedules after the last reset.
  function SinceReset(log: seq<Note>): nat {
    if log == [] || log[|log| - 1].Reset? then 0 else 1 + SinceReset(log[..|log| - 1])
  }

  predicate DelayWithin(delay: real, k: nat) {
    Min(1000 * Pow2(k), 30000) as real <= delay < (Min(1000 * Pow2(k), 30000) + 1000) as real
  }

  // Each schedule that k others precede since the last reset waits its back-off plus under a second.
  ghost predicate DelaysOk(log: seq<Note>) {
    forall i | 0 <= i < |log| && log[i].Scheduled? :: DelayWithin(log[i].delay, SinceReset(log[..i]))
  }

  ghost predicate AttemptExact(s: Conn) {
    s.attempt == SinceReset(s.log) && DelaysOk(s.log)
  }

  // Math.random() draws from [0, 1).
  ghost predicate Draws(random: nat -> real) {
    forall i :: 0.0 <= random(i) < 1.0
  }

  lemma {:induction false} DelaysAppend(log: seq<Note>, x: Note)
    requires DelaysOk(log) && (x.Scheduled? ==> DelayWithin(x.delay, SinceReset(log)))
    ensures DelaysOk(log + [x])
    ensures SinceReset(log + [x]) == if x.Reset? then 0 else SinceReset(log) + 1
  {
    var after := log + [x];
    assert after[..|log|] == log;
    forall i | 0 <= i < |after| && after[i].Scheduled? ensures DelayWithin(after[i].delay, SinceReset(after[..i])) {
      if i < |log| { assert after[..i] == log[..i]; }
    }
  }

  lemma {:induction false} AttemptPieces(s: Conn, random: nat -> real)
    requires AttemptExact(s) && Draws(random)
    ensures AttemptExact(Schedule(s, random)) && AttemptExact(ResetAttempts(s)) && AttemptExact(Disarm(s))
  {
    var d := Disarm(s);
    DelaysAppend(s.log, Reset);
    assert 0.0 <= random(d.nextTimer) < 1.0;
    DelaysAppend(s.log, Scheduled(ReconnectDelay(s.attempt, random(d.nextTimer))));
  }

  lemma {:induction false} AttemptContinueAll(s: Conn, ws: seq<Waiter>, ok: bool, retryable: bool, random: nat -> real)
    requires AttemptExact(s) && Draws(random)
    ensures AttemptExact(ContinueAll(s, ws, ok, retryable, random))
    decreases |ws|
  {
    if ws != [] {
      AttemptPieces(s, random);
      AttemptContinueAll(Continue(s, ws[0], ok, retryable, random), ws[1..], ok, retryable, random);
    }
  }

  lemma {:induction false} AttemptEnsure(s: Conn, w: Waiter, random: nat -> real)
    requires AttemptExact(s) && Draws(random)
    ensures AttemptExact(Ensure(s, w, random))
  {
    AttemptPieces(s, random);
  }

  lemma {:induction false} AttemptSettle(s: Conn, ok: bool, retryable: bool, random: nat -> real)
    requires AttemptExact(s) && Draws(random) && s.connecting.Some?
    ensures AttemptExact(Settle(s, ok, retryable, random))
  {
    var done := s.(connecting := None);
    AttemptPieces(done, random);
    AttemptContinueAll(if ok then ResetAttempts(done) else done, s.connecting.value.waiters, ok, retryable, random);
  }

  lemma {:induction false} AttemptStep(s: Conn, e: Event, random: nat -> real)
    requires AttemptExact(s) && Draws(random)
    ensures AttemptExact(Step(s, e, random))
  {
    match e
    case TimerFired(id) => AttemptEnsure(s.(armed := s.armed - {id}, timer := None), Timer, random);
    case KeepaliveAlarm(_) => AttemptEnsure(s, Keepalive, random);
    case Clicked =>
      AttemptPieces(s, random);
      AttemptPieces(Disarm(s), random);
      AttemptEnsure(ResetAttempts(Disarm(s)), Click, random);
    case StartedWithTabs => AttemptEnsure(s, Startup, random);
    case ConnectFailed(retryable, timedOut) =>
      if s.connecting.Some? {
        var socket := s.connecting.value.socket;
        if socket.None? {
          AttemptSettle(s, false, retryable, random);
        } else {
          var end := if timedOut then TimedOut else Closed;
          AttemptSettle(s.(sockets := s.sockets[socket.value := end]), false, true, random);
        }
      }
    case SocketOpened =>
      if s.connecting.Some? && s.connecting.value.socket.Some? {
        AttemptSettle(s.(sockets := s.sockets[s.connecting.value.socket.value := Opened]), true, true, random);
      }
    case SocketClosed(socket) =>
      AttemptPieces(s.(sockets := s.sockets[socket := Closed], current := None), random);
    case _ =>
  }

  // ---- The keepalive ----

  // The socket being dialled is the current one.
  ghost predicate DialsCurrent(s: Conn) {
    s.connecting.Some? && s.connecting.value.socket.Some? ==>
      var socket := s.connecting.value.socket.value;
      s.current == Some(socket) && socket in s.sockets && s.sockets[socket].Dialing?
  }

  // Something will bring the relay back, or it is up.
  predicate Covered(s: Conn) {
    IsOpen(s) || s.connecting.Some? || s.timer.Some?
  }

  // The step ends a keepalive run that found tabs.
  predicate EndsKeepalive(s: Conn, e: Event) {
    match e
    case KeepaliveAlarm(tabsPresent) => tabsPresent && (IsOpen(s) || s.connecting.Some? || s.timer.Some?)
    case ConnectFailed(_, _) => s.connecting.Some? && Keepalive in s.connecting.value.waiters
    case SocketOpened =>
      s.connecting.Some? && s.connecting.value.socket.Some? && Keepalive in s.connecting.value.waiters
    case _ => false
  }

  // Waiters leave the sockets alone; none of them disarms a timer after a failure; a keepalive arms one.
  lemma {:induction false} ContinueCovers(s: Conn, ws: seq<Waiter>, ok: bool, retryable: bool, random: nat -> real)
    ensures var s' := ContinueAll(s, ws, ok, retryable, random);
      && s'.sockets == s.sockets && s'.current == s.current && s'.connecting == s.connecting
      && (s.timer.Some? ==> s'.timer.Some?)
      && (!ok && Keepalive in ws ==> s'.timer.Some?)
    decreases |ws|
  {
    if ws != [] {
      ContinueCovers(Continue(s, ws[0], ok, retryable, random), ws[1..], ok, retryable, random);
    }
  }

  lemma {:induction false} DialsStep(s: Conn, e: Event, random: nat -> real)
    requires DialsCurrent(s)
    ensures DialsCurrent(Step(s, e, random))
  {
    forall x: Conn, ws, ok, retryable
      ensures ContinueAll(x, ws, ok, retryable, random).connecting == x.connecting
    {
      ContinueCovers(x, ws, ok, retryable, random);
    }
  }

  lemma {:induction false} KeepaliveStep(s: Conn, e: Event, random: nat -> real)
    requires DialsCurrent(s) && EndsKeepalive(s, e)
    ensures Covered(Step(s, e, random))
  {
    if !e.KeepaliveAlarm? {
      var socket := s.connecting.value.socket;
      var done := s.(connecting := None);
      var ws := s.connecting.value.waiters;
      match e
      case ConnectFailed(retryable, timedOut) =>
        if socket.None? {
          ContinueCovers(done, ws, false, retryable, random);
        } else {
          var end := if timedOut then TimedOut else Closed;
          ContinueCovers(done.(sockets := s.sockets[socket.value := end]), ws, false, true, random);
        }
      case SocketOpened =>
        ContinueCovers(ResetAttempts(done.(sockets := s.sockets[socket.value := Opened])), ws, true, true, random);
    }
  }

  // The end of the current socket schedules a reconnect exactly when the socket had opened in time; after a late
  // opening nothing is scheduled, and `relayWs` keeps the dead socket.
  lemma {:induction false} CloseSchedulesExactly(s: Conn, socket: nat, random: nat -> real)
    requires s.current == Some(socket) && socket in s.sockets
    requires !s.sockets[socket].Dialing? && !s.sockets[socket].Closed?
    ensures var s' := Step(s, SocketClosed(socket), random);
      && !IsOpen(s')
      && (Watched(s.sockets[socket]) ==> s'.current.None? && s'.timer == Some(s.nextTimer))
      && (!Watched(s.sockets[socket]) ==> s'.current == Some(socket) && s'.timer == s.timer && s'.armed == s.armed)
  {
  }

  // ---- Every run ----

  lemma {:induction false} ConnectionRun(s: Conn, events: seq<Event>, random: nat -> real)
    requires TimerExact(s) && AttemptExact(s) && DialsCurrent(s) && Draws(random)
    ensures var s' := Run(s, events, random); TimerExact(s') && AttemptExact(s') && DialsCurrent(s')
    decreases |events|
  {
    if events != [] {
      TimerStep(s, events[0], random);
      AttemptStep(s, events[0], random);
      DialsStep(s, events[0], random);
      ConnectionRun(Step(s, events[0], random), events[1..], random);
    }
  }

  lemma {:induction false} ConnectionAlways(events: seq<Event>, random: nat -> real)
    requires Draws(random)
    ensures var s := Run(INIT, events, random); |s.armed| <= 1 && TimerExact(s) && DelaysOk(s.log)
  {
    ConnectionRun(INIT, events, random);
  }

  // At the end of every keepalive run that found tabs, the relay is open, a connect is under way, or a
  // timer is armed.
  lemma {:induction false} KeepaliveAlways(events: seq<Event>, e: Event, random: nat -> real)
    requires Draws(random) && EndsKeepalive(Run(INIT, events, random), e)
    ensures Covered(Step(Run(INIT, events, random), e, random))
  {
    ConnectionRun(INIT, events, random);
    KeepaliveStep(Run(INIT, events, random), e, random);
  }

  lemma {:induction false} Pow2Grows(j: nat, k: nat)
    requires j <= k
    ensures Pow2(j) <= Pow2(k)
    decreases k - j
  {
    if j < k { Pow2Grows(j, k - 1); }
  }

  // The back-off never shrinks, doubles until it reaches the cap, and is the cap from the sixth attempt on.
  lemma {:induction false} BackoffShape(j: nat, k: nat)
    requires j <= k
    ensures Backoff(j, 1000, 30000) <= Backoff(k, 1000, 30000) <= 30000
    ensures k < 5 ==> Backoff(k, 1000, 30000) == 1000 * Pow2(k)
    ensures 5 <= k <==> Backoff(k, 1000, 30000) == 30000
  {
    Pow2Grows(j, k);
    assert Pow2(5) == 32 && Pow2(4) == 16 by { assert Pow2(2) == 4; assert Pow2(3) == 8; }
    if 5 <= k { Pow2Grows(5, k); } else { Pow2Grows(k, 4); }
  }

  // ---- The end of a socket over every run ----

  // The dial of the socket timed out.
  predicate Late(r: Ready) { r.TimedOut? || r.OpenedLate? }

  // Some step of the run is the timeout of the socket's dial.
  predicate TimesOutIn(s: Conn, events: seq<Event>, socket: nat, random: nat -> real)
    decreases |events|
  {
    events != [] &&
    (TimesOut(s, events[0], socket) || TimesOutIn(Step(s, events[0], random), events[1..], socket, random))
  }

  predicate TimesOut(s: Conn, e: Event, socket: nat) {
    e.ConnectFailed? && e.timedOut && s.connecting.Some? && s.connecting.value.socket == Some(socket)
  }

  // A socket that has not ended is late from the timeout of its dial on, and from then only.
  lemma {:induction false} LateStep(s: Conn, e: Event, socket: nat, random: nat -> real)
    requires DialsCurrent(s)
    ensures TimesOut(s, e, socket) ==> socket in s.sockets
    ensures var s' := Step(s, e, random);
      && (socket in s.sockets ==> socket in s'.sockets && (s.sockets[socket].Closed? ==> s'.sockets[socket].Closed?))
      && (socket in s'.sockets && !s'.sockets[socket].Closed? ==>
            (Late(s'.sockets[socket]) <==>
               TimesOut(s, e, socket) || (socket in s.sockets && Late(s.sockets[socket]))))
  {
    forall x: Conn, ws, ok, retryable
      ensures ContinueAll(x, ws, ok, retryable, random).sockets == x.sockets
    {
      ContinueCovers(x, ws, ok, retryable, random);
    }
  }

  lemma {:induction false} LateRun(s: Conn, events: seq<Event>, socket: nat, random: nat -> real)
    requires DialsCurrent(s)
    ensures var s' := Run(s, events, random);
      && (socket in s.sockets ==> socket in s'.sockets && (s.sockets[socket].Closed? ==> s'.sockets[socket].Closed?))
      && (socket in s'.sockets && !s'.sockets[socket].Closed? ==>
            (Late(s'.sockets[socket]) <==>
               TimesOutIn(s, events, socket, random) || (socket in s.sockets && Late(s.sockets[socket]))))
    decreases |events|
  {
    hide TimesOut;
    hide Step;
    hide DialsCurrent;
    if events != [] {
      LateStep(s, events[0], socket, random);
      DialsStep(s, events[0], random);
      LateRun(Step(s, events[0], random), events[1..], socket, random);
    }
  }

  // After the end of the current socket the relay is covered exactly when the dial of the socket had not timed out, or
  // a timer is armed, or a connect is under way.
  lemma {:induction false} CloseCoversExactly(events: seq<Event>, socket: nat, random: nat -> real)
    requires var s := Run(INIT, events, random);
      s.current == Some(socket) && socket in s.sockets && !s.sockets[socket].Dialing? && !s.sockets[socket].Closed?
    ensures var s := Run(INIT, events, random);
      Covered(Step(s, SocketClosed(socket), random)) <==>
      !TimesOutIn(INIT, events, socket, random) || s.timer.Some? || s.connecting.Some?
  {
    LateRun(INIT, events, socket, random);
    CloseSchedulesExactly(Run(INIT, events, random), socket, random);
  }

  // A socket that opens after its dial timed out, on a click, and ends: nothing brings the relay back.
  lemma {:induction false} LateSocketUncovered(random: nat -> real)
    ensures var s := Run(
        INIT, [Clicked, SocketCreated(0), ConnectFailed(true, true), SocketOpenedLate(0), SocketClosed(0)], random);
      s.current == Some(0) && s.timer.None? && s.connecting.None? && !IsOpen(s) && !Covered(s)
  {
    var dialled := Step(Step(INIT, Clicked, random), SocketCreated(0), random);
    assert dialled.connecting == Some(Attempt(Some(0), [Click]));
    var failed := Step(dialled, ConnectFailed(true, true), random);
    assert failed.sockets == map[0 := TimedOut] && failed.connecting.None?;
    var late := Step(failed, SocketOpenedLate(0), random);
    var ended := Step(late, SocketClosed(0), random);
    assert Run(ended, [], random) == ended;
    assert Run(late, [SocketClosed(0)], random) == ended;
    assert Run(failed, [SocketOpenedLate(0), SocketClosed(0)], random) == ended;
    assert Run(dialled, [ConnectFailed(true, true), SocketOpenedLate(0), SocketClosed(0)], random) == ended;
  }
}
