/** The server and session objects, step by step as the callbacks change them. */
module ServerMachine {
  import opened Connection
  import opened Sessions

  class SrnServer {
    const irc: SircSession
    var state: ServerState
    var lastAction: Action
    var interval: nat
    var timer: nat
    var registered: bool
    var ping: nat

    // The reconnect and ping timers of the main loop, and what it has been asked to
    // remove.
    var armed: set<nat>
    var pings: set<nat>
    var nextTimer: nat
    var removals: nat
    var removed: bool

    // The history that the promises are about.
    ghost var connects: nat
    ghost var quit: bool
    ghost var faults: set<Fault>

    ghost function Now(): Conn
      reads this, irc
    {
      Conn(state, lastAction, interval, timer, registered, ping,
           irc.attempts, irc.cancelled, irc.stream, irc.closing,
           armed, pings, nextTimer, connects, quit, removals, removed, faults)
    }

    constructor ()
      ensures Now() == FRESH && fresh(irc)
    {
      irc := new SircSession();
      state, lastAction, interval, timer := Disconnected, Disconnect, RECONN_INTERVAL, 0;
      registered, ping := false, 0;
      armed, pings, nextTimer, removals, removed := {}, {}, 1, 0, false;
      connects, quit, faults := 0, false, {};
    }

    method SircConnect()
      modifies this`connects, this`faults, irc
      ensures Now() == Connection.SircConnect(old(Now()))
    {
      if irc.attempts > 0 || irc.stream {
        faults := faults + {ConnectOverlaps};
      }
      connects := connects + 1;
      irc.cancelled := false;
      irc.attempts := irc.attempts + 1;
    }

    method SircCancelConnect()
      modifies irc
      ensures Now() == Connection.SircCancelConnect(old(Now()))
    {
      if irc.cancelled {
        return;
      }
      irc.cancelled := true;
    }

    method SircDisconnect()
      modifies this`faults, irc
      ensures Now() == Connection.SircDisconnect(old(Now()))
    {
      if !irc.stream {
        faults := faults + {DisconnectWithoutStream};
        return;
      }
      irc.closing := true;
    }

    method AddTimer()
      modifies this`timer, this`armed, this`nextTimer
      ensures Now() == StartTimer(old(Now()))
    {
      timer := nextTimer;
      armed := armed + {nextTimer};
      nextTimer := nextTimer + 1;
    }

    method RemoveTimer()
      modifies this`timer, this`armed
      ensures Now() == StopTimer(old(Now()))
    {
      armed := armed - {timer};
      timer := 0;
    }

    method AddRemoval()
      modifies this`removals, this`faults
      ensures Now() == ScheduleRemoval(old(Now()))
    {
      if irc.attempts > 0 || irc.stream {
        faults := faults + {RemovalWhileBusy};
      }
      if !quit {
        faults := faults + {RemovalWithoutQuit};
      }
      removals := removals + 1;
    }

    // ------------------------------------------------- the state machine

    // What an action comes to in the present state.
    twostate predicate Does(action: Action, ok: bool, next: ServerState, free: bool)
      reads this, irc
    {
      && ok == Accepts(old(state), action)
      && (if ok then next == Target(old(state), action) && free == Removes(old(state), action)
                     && Now() == Perform(old(Now()), CallFor(old(state), action))
          else !free && Now() == old(Now()))
    }

    method InDisconnected(action: Action) returns (ok: bool, next: ServerState, free: bool)
      requires state.Disconnected?
      modifies this`connects, this`faults, irc
      ensures Does(action, ok, next, free)
    {
      ok, next, free := true, state, false;
      match action
      case Reconnect | Connect =>
        SircConnect();
        next := Connecting;
      case Quit =>
        free := true;
        next := Disconnected;
      case _ => ok := false;
    }

    method InConnecting(action: Action) returns (ok: bool, next: ServerState, free: bool)
      requires state.Connecting?
      modifies this`interval, this`timer, this`armed, this`nextTimer, irc
      ensures Does(action, ok, next, free)
    {
      ok, next, free := true, state, false;
      match action
      case ConnectFail =>
        AddTimer();
        next := Reconnecting;
      case ConnectFinish =>
        interval := RECONN_STEP;
        next := Connected;
      case Disconnect =>
        SircCancelConnect();
        next := Disconnecting;
      case Quit =>
        SircCancelConnect();
        next := Quiting;
      case _ => ok := false;
    }

    method InConnected(action: Action) returns (ok: bool, next: ServerState, free: bool)
      requires state.Connected?
      modifies this`timer, this`armed, this`nextTimer, this`faults, irc
      ensures Does(action, ok, next, free)
    {
      ok, next, free := true, state, false;
      match action
      case Disconnect =>
        SircDisconnect();
        next := Disconnecting;
      case Reconnect =>
        SircDisconnect();
        next := Connected;
      case Quit => next := Quiting;
      case DisconnectFinish =>
        AddTimer();
        next := Reconnecting;
      case _ => ok := false;
    }

    method InQuiting(action: Action) returns (ok: bool, next: ServerState, free: bool)
      requires state.Quiting?
      modifies irc
      ensures Does(action, ok, next, free)
    {
      ok, next, free := true, state, false;
      match action
      case ConnectFail | DisconnectFinish =>
        free := true;
        next := Disconnected;
      case Quit =>
        SircCancelConnect();
        next := Quiting;
      case _ => ok := false;
    }

    method InReconnecting(action: Action) returns (ok: bool, next: ServerState, free: bool)
      requires state.Reconnecting?
      modifies this`timer, this`armed, this`connects, this`faults, irc
      ensures Does(action, ok, next, free)
    {
      ok, next, free := true, state, false;
      match action
      case Connect =>
        SircConnect();
        next := Connecting;
      case Disconnect =>
        RemoveTimer();
        next := Disconnected;
      case Quit =>
        RemoveTimer();
        free := true;
        next := Disconnected;
      case _ => ok := false;
    }

    method Effect(action: Action) returns (ok: bool, next: ServerState, free: bool)
      modifies this`interval, this`timer, this`armed, this`nextTimer, this`connects, this`faults, irc
      ensures Does(action, ok, next, free)
    {
      match state
      case Disconnected => ok, next, free := InDisconnected(action);
      case Connecting => ok, next, free := InConnecting(action);
      case Connected => ok, next, free := InConnected(action);
      case Disconnecting =>
        ok, next, free := action.DisconnectFinish?, if action.DisconnectFinish? then Disconnected else state, false;
      case Quiting => ok, next, free := InQuiting(action);
      case Reconnecting => ok, next, free := InReconnecting(action);
    }

    /** The state machine: accepts an action, or leaves everything as it was. */
    method Transform(action: Action) returns (ok: bool)
      modifies this, irc
      ensures ok == Accepts(old(state), action) && Now() == Transformed(old(Now()), action)
    {
      var next, free;
      ok, next, free := Effect(action);
      if ok {
        Settle(next, action);
      }
      if free {
        AddRemoval();
      }
    }

    method Settle(next: ServerState, action: Action)
      modifies this`state, this`lastAction, this`quit
      ensures Now() == Settled(old(Now()), next, action)
    {
      state, lastAction, quit := next, action, quit || action.Quit?;
    }

    // ------------------------------------------------------ the callbacks

    method TakeTimer(id: nat)
      modifies this`armed, this`interval
      ensures Now() == Before(old(Now()), TimerFires(id))
    {
      armed := armed - {id};
      interval := interval + RECONN_STEP;
    }

    method OnReconnectTimeout(id: nat)
      requires id in armed
      modifies this, irc
      ensures Now() == Happens(old(Now()), TimerFires(id))
    {
      TakeTimer(id);
      var _ := Transform(Connect);
    }

    // The timer that fires need not be the one that is known.
    method TakePing(id: nat)
      modifies this`ping, this`pings
      ensures Now() == Before(old(Now()), PingTimesOut(id))
    {
      ping := 0;
      pings := pings - {id};
    }

    method OnPingTimeout(id: nat)
      requires id in pings
      modifies this, irc
      ensures Now() == Happens(old(Now()), PingTimesOut(id))
    {
      TakePing(id);
      var _ := Transform(Reconnect);
    }

    method OnWelcome()
      modifies this`registered, this`ping, this`pings, this`nextTimer
      ensures Now() == Happens(old(Now()), Welcome)
    {
      registered := true;
      ping := nextTimer;
      pings := pings + {nextTimer};
      nextTimer := nextTimer + 1;
    }

    // The main loop was idle.
    method OnIdle()
      modifies this`removed
      ensures Now() == Happens(old(Now()), Removal)
    {
      removed := true;
    }

    method LoseAttempt()
      requires irc.attempts > 0
      modifies irc
      ensures Now() == Before(old(Now()), AttemptFails)
    {
      irc.attempts := irc.attempts - 1;
    }

    method OnConnectFail()
      requires irc.attempts > 0
      modifies this, irc
      ensures Now() == Happens(old(Now()), AttemptFails)
    {
      LoseAttempt();
      var _ := Transform(ConnectFail);
    }

    method TakeStream()
      requires irc.attempts > 0
      modifies irc
      ensures Now() == Before(old(Now()), AttemptSucceeds)
    {
      irc.attempts := irc.attempts - 1;
      irc.stream, irc.closing := true, false;
    }

    method OnConnectFinish()
      requires irc.attempts > 0
      modifies this, irc
      ensures Now() == Happens(old(Now()), AttemptSucceeds)
    {
      TakeStream();
      var ok := Transform(ConnectFinish);
      if ok {
        registered := false;
      }
    }

    method DropStream()
      modifies this`ping, this`pings, irc
      ensures Now() == Before(old(Now()), StreamEnds)
    {
      irc.stream := false;
      if ping != 0 {
        pings := pings - {ping};
        ping := 0;
      }
    }

    method OnDisconnect()
      requires irc.stream
      modifies this, irc
      ensures Now() == Happens(old(Now()), StreamEnds)
    {
      DropStream();
      var ok := Transform(DisconnectFinish);
      if !ok {
        faults := faults + {FinishRefused};
        return;
      }
      registered := false;
    }

    method OnUser(e: Event)
      requires e.UserConnects? || e.UserReconnects? || e.UserDisconnects? || e.UserQuits?
      modifies this, irc
      ensures Now() == Happens(old(Now()), e)
    {
      match e
      case UserConnects => var _ := Transform(Connect);
      case UserReconnects =>
        if state.Reconnecting? {
          return;
        }
        var _ := Transform(Reconnect);
      case UserDisconnects => var _ := Transform(Disconnect);
      case UserQuits => var _ := Transform(Quit);
    }

    // Whether an event may come now.
    method CanHappen(e: Event) returns (can: bool)
      ensures can == Possible(Now(), e)
    {
      if removed {
        return false;
      }
      match e
      case TimerFires(id) => can := id in armed;
      case PingTimesOut(id) => can := id in pings;
      case Welcome | StreamEnds => can := irc.stream;
      case AttemptFails => can := irc.attempts > 0;
      case AttemptSucceeds => can := irc.attempts > 0 && !irc.cancelled;
      case Removal => can := removals > 0;
      case _ => can := true;
    }

    /** One turn of the main loop: the server and its session do what the event
      * brings, and agree afterwards as before. */
    method Handle(e: Event)
      requires Possible(Now(), e) && Agrees(Now())
      modifies this, irc
      ensures Now() == Step(old(Now()), e) && Agrees(Now())
    {
      hide Happens, Agrees;
      StepAgrees(Now(), e);
      match e
      case TimerFires(id) => OnReconnectTimeout(id);
      case PingTimesOut(id) => OnPingTimeout(id);
      case Welcome => OnWelcome();
      case Removal => OnIdle();
      case AttemptFails => OnConnectFail();
      case AttemptSucceeds => OnConnectFinish();
      case StreamEnds => OnDisconnect();
      case _ => OnUser(e);
    }
  }
}
