/** The extension's connection variables and the handlers that change them. */
module RelayConnector {
  import opened Basics
  import opened RelayConnection

  class Connector {
    var sockets: map<nat, Ready>
    var relayWs: Option<nat>
    var relayConnectPromise: Option<Attempt>
    var reconnectTimer: Option<nat>
    var armedTimers: set<nat>
    var nextTimer: nat
    var reconnectAttempt: nat
    ghost var log: seq<Note>
    const random: nat -> real // Math.random(), by the timer it is drawn for

    ghost function Abs(): Conn
      reads this
    {
      Conn(sockets, relayWs, relayConnectPromise, reconnectTimer, armedTimers, nextTimer, reconnectAttempt, log)
    }

    constructor (random: nat -> real)
      ensures Abs() == INIT && this.random == random
    {
      sockets, relayWs, relayConnectPromise, reconnectTimer := map[], None, None, None;
      armedTimers, nextTimer, reconnectAttempt, log := {}, 0, 0, [];
      this.random := random;
    }

    // relayWs && relayWs.readyState === WebSocket.OPEN.
    predicate RelayIsOpen()
      reads this
    {
      relayWs.Some? && relayWs.value in sockets && HasOpened(sockets[relayWs.value])
    }

    method ClearTimer()
      modifies this
      ensures Abs() == Disarm(old(Abs()))
    {
      if reconnectTimer.Some? {
        armedTimers := armedTimers - {reconnectTimer.value};
        reconnectTimer := None;
      }
    }

    method ScheduleReconnect()
      modifies this
      ensures Abs() == Schedule(old(Abs()), random)
    {
      ClearTimer();
      var delay := ReconnectDelay(reconnectAttempt, random(nextTimer));
      reconnectAttempt := reconnectAttempt + 1;
      armedTimers := armedTimers + {nextTimer};
      reconnectTimer := Some(nextTimer);
      nextTimer := nextTimer + 1;
      log := log + [Scheduled(delay)];
    }

    method ResetAttempt()
      modifies this
      ensures Abs() == ResetAttempts(old(Abs()))
    {
      reconnectAttempt := 0;
      log := log + [Reset];
    }

    method CancelReconnect()
      modifies this
      ensures Abs() == ResetAttempts(Disarm(old(Abs())))
    {
      ClearTimer();
      ResetAttempt();
    }

    // The code after an await of ensureRelayConnection.
    method AfterEnsure(w: Waiter, ok: bool, retryable: bool)
      modifies this
      ensures Abs() == Continue(old(Abs()), w, ok, retryable, random)
    {
      match w
      case Timer => if ok { ResetAttempt(); } else if retryable { ScheduleReconnect(); }
      case Keepalive => if !ok && reconnectTimer.None? { ScheduleReconnect(); }
      case Click =>
      case Startup => if ok { ResetAttempt(); } else { ScheduleReconnect(); }
    }

    method EnsureRelayConnection(w: Waiter)
      modifies this
      ensures Abs() == Ensure(old(Abs()), w, random)
    {
      if RelayIsOpen() {
        AfterEnsure(w, true, true);
      } else if relayConnectPromise.Some? {
        var a := relayConnectPromise.value;
        relayConnectPromise := Some(a.(waiters := a.waiters + [w]));
      } else {
        relayConnectPromise := Some(Attempt(None, [w]));
      }
    }

    // The connect promise settles: its maker runs on, then everyone who awaits it.
    method OnSettled(ok: bool, retryable: bool)
      requires relayConnectPromise.Some?
      modifies this
      ensures Abs() == Settle(old(Abs()), ok, retryable, random)
    {
      var ws := relayConnectPromise.value.waiters;
      relayConnectPromise := None;
      if ok { ResetAttempt(); }
      ghost var start := Abs();
      var i := 0;
      while i < |ws|
        invariant 0 <= i <= |ws|
        invariant ContinueAll(Abs(), ws[i..], ok, retryable, random) == ContinueAll(start, ws, ok, retryable, random)
      {
        assert ws[i..][1..] == ws[i + 1..];
        AfterEnsure(ws[i], ok, retryable);
        i := i + 1;
      }
    }

    // A socket of the attempt under way is created and becomes the current one.
    method OnSocketCreated(socket: nat)
      modifies this
      ensures Abs() == Step(old(Abs()), SocketCreated(socket), random)
    {
      if relayConnectPromise.Some? && relayConnectPromise.value.socket.None? && socket !in sockets {
        sockets := sockets[socket := Dialing];
        relayWs := Some(socket);
        relayConnectPromise := Some(relayConnectPromise.value.(socket := Some(socket)));
      }
    }

    // The attempt fails, before it has a socket or while it dials.
    method OnConnectFailed(retryable: bool, timedOut: bool)
      modifies this
      ensures Abs() == Step(old(Abs()), ConnectFailed(retryable, timedOut), random)
    {
      if relayConnectPromise.None? { return; }
      var socket := relayConnectPromise.value.socket;
      if socket.None? {
        OnSettled(false, retryable);
      } else {
        sockets := sockets[socket.value := if timedOut then TimedOut else Closed];
        OnSettled(false, true);
      }
    }

    method OnSocketOpened()
      modifies this
      ensures Abs() == Step(old(Abs()), SocketOpened, random)
    {
      if relayConnectPromise.Some? && relayConnectPromise.value.socket.Some? {
        sockets := sockets[relayConnectPromise.value.socket.value := Opened];
        OnSettled(true, true);
      }
    }

    // The close of a socket: onRelayClosed, behind the stale-socket guard, if the permanent handler was bound.
    method OnSocketClosed(socket: nat)
      modifies this
      ensures Abs() == Step(old(Abs()), SocketClosed(socket), random)
    {
      if socket !in sockets || sockets[socket].Dialing? || sockets[socket].Closed? { return; }
      var watched := Watched(sockets[socket]);
      sockets := sockets[socket := Closed];
      if watched && relayWs == Some(socket) {
        relayWs := None;
        ScheduleReconnect();
      }
    }

    method OnTimer(id: nat)
      modifies this
      ensures Abs() == Step(old(Abs()), TimerFired(id), random)
    {
      if id !in armedTimers { return; }
      armedTimers := armedTimers - {id};
      reconnectTimer := None;
      EnsureRelayConnection(Timer);
    }

    method OnKeepalive(tabsPresent: bool)
      modifies this
      ensures Abs() == Step(old(Abs()), KeepaliveAlarm(tabsPresent), random)
    {
      if !tabsPresent { return; }
      if !RelayIsOpen() {
        if relayConnectPromise.None? && reconnectTimer.None? {
          EnsureRelayConnection(Keepalive);
        }
      }
    }

    method OnClicked()
      modifies this
      ensures Abs() == Step(old(Abs()), Clicked, random)
    {
      CancelReconnect();
      EnsureRelayConnection(Click);
    }

    // ---- One event ----

    method Dispatch(e: Event)
      modifies this
      ensures Abs() == Step(old(Abs()), e, random)
    {
      match e
      case TimerFired(id) => OnTimer(id);
      case KeepaliveAlarm(tabsPresent) => OnKeepalive(tabsPresent);
      case Clicked => OnClicked();
      case StartedWithTabs => EnsureRelayConnection(Startup);
      case SocketCreated(socket) => OnSocketCreated(socket);
      case ConnectFailed(retryable, timedOut) => OnConnectFailed(retryable, timedOut);
      case SocketOpened => OnSocketOpened();
      case SocketOpenedLate(socket) =>
        if socket in sockets && sockets[socket].TimedOut? { sockets := sockets[socket := OpenedLate]; }
      case SocketClosing(socket) =>
        if socket in sockets && sockets[socket].Opened? { sockets := sockets[socket := Closing]; }
      case SocketClosed(socket) => OnSocketClosed(socket);
    }
  }
}
