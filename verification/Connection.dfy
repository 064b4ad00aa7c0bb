/** The connection state machine of a server together with its session: what the
  * user does, timers and network completions interleave freely. */
module Connection {
  const RECONN_INTERVAL := 5000
  const RECONN_STEP := RECONN_INTERVAL

  datatype ServerState = Disconnected | Connecting | Connected | Disconnecting | Quiting | Reconnecting

  datatype Action = Connect | ConnectFail | ConnectFinish | Disconnect | Quit | Reconnect | DisconnectFinish

  // Calls that the source guards against, or that would be made too early.
  datatype Fault =
    | ConnectOverlaps          // sirc_connect during another attempt or on a stream
    | DisconnectWithoutStream  // sirc_disconnect without a stream
    | FinishRefused            // the end of a stream that the state machine refuses
    | RemovalWhileBusy         // removal of a server whose session is not idle
    | RemovalWithoutQuit       // removal of a server the user did not quit

  /** A server, its session, and the timers of the main loop.  `timer` and `ping` are
    * the reconnect timer and the ping timer that the server knows, or 0; `armed` and
    * `pings` are those that will fire.  `connects` counts the calls of sirc_connect, `quit` tells whether a QUIT was
    * ever accepted. */
  datatype Conn = Conn(
    state: ServerState, lastAction: Action, interval: nat, timer: nat, registered: bool, ping: nat,
    attempts: nat, cancelled: bool, stream: bool, closing: bool,
    armed: set<nat>, pings: set<nat>, nextTimer: nat,
    connects: nat, quit: bool, removals: nat, removed: bool, faults: set<Fault>)

  const FRESH := Conn(Disconnected, Disconnect, RECONN_INTERVAL, 0, false, 0,
                      0, false, false, false, {}, {}, 1, 0, false, 0, false, {})

  // ---------------------------------------------------- calls on the session

  function Idle(c: Conn): bool {
    c.attempts == 0 && !c.stream
  }

  function Faulty(c: Conn, fault: Fault, occurs: bool): Conn {
    if occurs then c.(faults := c.faults + {fault}) else c
  }

  function SircConnect(c: Conn): Conn {
    Faulty(c, ConnectOverlaps, !Idle(c)).(attempts := c.attempts + 1, cancelled := false, connects := c.connects + 1)
  }

  function SircCancelConnect(c: Conn): Conn {
    c.(cancelled := true)
  }

  function SircDisconnect(c: Conn): Conn {
    if c.stream then c.(closing := true) else Faulty(c, DisconnectWithoutStream, true)
  }

  function StartTimer(c: Conn): Conn {
    c.(timer := c.nextTimer, armed := c.armed + {c.nextTimer}, nextTimer := c.nextTimer + 1)
  }

  function StopTimer(c: Conn): Conn {
    c.(timer := 0, armed := c.armed - {c.timer})
  }

  function ScheduleRemoval(c: Conn): Conn {
    Faulty(Faulty(c, RemovalWhileBusy, !Idle(c)), RemovalWithoutQuit, !c.quit).(removals := c.removals + 1)
  }

  // ---------------------------------------------------------- the transitions

  // Whether the state machine accepts an action.
  predicate Accepts(state: ServerState, action: Action) {
    match state
    case Disconnected => action.Connect? || action.Reconnect? || action.Quit?
    case Connecting => action.ConnectFail? || action.ConnectFinish? || action.Disconnect? || action.Quit?
    case Connected => action.Disconnect? || action.Reconnect? || action.Quit? || action.DisconnectFinish?
    case Disconnecting => action.DisconnectFinish?
    case Quiting => action.ConnectFail? || action.Quit? || action.DisconnectFinish?
    case Reconnecting => action.Connect? || action.Disconnect? || action.Quit?
  }

  function Target(state: ServerState, action: Action): ServerState
    requires Accepts(state, action)
  {
    match (state, action)
    case (Disconnected, Quit) => Disconnected
    case (Disconnected, _) => Connecting
    case (Connecting, ConnectFail) => Reconnecting
    case (Connecting, ConnectFinish) => Connected
    case (Connecting, Disconnect) => Disconnecting
    case (Connecting, _) => Quiting
    case (Connected, Disconnect) => Disconnecting
    case (Connected, Reconnect) => Connected
    case (Connected, Quit) => Quiting
    case (Connected, _) => Reconnecting
    case (Disconnecting, _) => Disconnected
    case (Quiting, Quit) => Quiting
    case (Quiting, _) => Disconnected
    case (Reconnecting, Connect) => Connecting
    case (Reconnecting, _) => Disconnected
  }

  // What an accepted action does besides changing the state.
  datatype Call = NoCall | CallConnect | CallCancel | CallDisconnect | ArmTimer | DisarmTimer | ResetInterval

  function CallFor(state: ServerState, action: Action): Call
    requires Accepts(state, action)
  {
    match (state, action)
    case (Disconnected, Quit) => NoCall
    case (Disconnected, _) => CallConnect
    case (Connecting, ConnectFail) => ArmTimer
    case (Connecting, ConnectFinish) => ResetInterval
    case (Connecting, _) => CallCancel
    case (Connected, Quit) => NoCall
    case (Connected, DisconnectFinish) => ArmTimer
    case (Connected, _) => CallDisconnect
    case (Disconnecting, _) => NoCall
    case (Quiting, Quit) => CallCancel
    case (Quiting, _) => NoCall
    case (Reconnecting, Connect) => CallConnect
    case (Reconnecting, _) => DisarmTimer
  }

  function Perform(c: Conn, call: Call): Conn {
    match call
    case NoCall => c
    case CallConnect => SircConnect(c)
    case CallCancel => SircCancelConnect(c)
    case CallDisconnect => SircDisconnect(c)
    case ArmTimer => StartTimer(c)
    case DisarmTimer => StopTimer(c)
    case ResetInterval => c.(interval := RECONN_STEP)
  }

  // The server is to go when a QUIT has come to its end.
  predicate Removes(state: ServerState, action: Action) {
    || (state.Disconnected? && action.Quit?) || (state.Reconnecting? && action.Quit?)
    || (state.Quiting? && (action.ConnectFail? || action.DisconnectFinish?))
  }

  function Settled(c: Conn, next: ServerState, action: Action): Conn {
    c.(state := next, lastAction := action, quit := c.quit || action.Quit?)
  }

  function Transformed(c: Conn, action: Action): Conn {
    if !Accepts(c.state, action) then c
    else
      var d := Settled(Perform(c, CallFor(c.state, action)), Target(c.state, action), action);
      if Removes(c.state, action) then ScheduleRemoval(d) else d
  }

  // ------------------------------------------------------------- the events

  datatype Event =
    | UserConnects | UserReconnects | UserDisconnects | UserQuits
    | TimerFires(id: nat) | PingTimesOut(id: nat) | Welcome | Removal
    | AttemptFails | AttemptSucceeds | StreamEnds

  // What an event changes before the state machine hears of it.
  function Before(c: Conn, e: Event): Conn {
    match e
    case TimerFires(id) => c.(armed := c.armed - {id}, interval := c.interval + RECONN_STEP)
    case PingTimesOut(id) => c.(ping := 0, pings := c.pings - {id})
    case AttemptFails => c.(attempts := if c.attempts > 0 then c.attempts - 1 else 0)
    case AttemptSucceeds =>
      c.(attempts := if c.attempts > 0 then c.attempts - 1 else 0, stream := true, closing := false)
    case StreamEnds => c.(stream := false, ping := 0, pings := if c.ping != 0 then c.pings - {c.ping} else c.pings)
    case _ => c
  }

  // An attempt that was cancelled does not succeed.  A server may be welcomed more
  // than once in a connection.  Nothing happens to a server that was removed.
  predicate Possible(c: Conn, e: Event) {
    !c.removed && Pending(c, e)
  }

  predicate Pending(c: Conn, e: Event) {
    match e
    case TimerFires(id) => id in c.armed
    case PingTimesOut(id) => id in c.pings
    case Welcome => c.stream
    case AttemptFails => c.attempts > 0
    case AttemptSucceeds => c.attempts > 0 && !c.cancelled
    case StreamEnds => c.stream
    case Removal => c.removals > 0
    case _ => true
  }

  function Happens(c: Conn, e: Event): Conn {
    var b := Before(c, e);
    match e
    case UserConnects => Transformed(b, Connect)
    case UserReconnects => if c.state.Reconnecting? then b else Transformed(b, Reconnect)
    case UserDisconnects => Transformed(b, Disconnect)
    case UserQuits => Transformed(b, Quit)
    case TimerFires(_) => Transformed(b, Connect)
    case PingTimesOut(_) => Transformed(b, Reconnect)
    case Welcome =>
      b.(registered := true, ping := b.nextTimer, pings := b.pings + {b.nextTimer}, nextTimer := b.nextTimer + 1)
    case Removal => b.(removed := true)
    case AttemptFails => Transformed(b, ConnectFail)
    case AttemptSucceeds =>
      if Accepts(b.state, ConnectFinish) then Transformed(b, ConnectFinish).(registered := false) else b
    case StreamEnds =>
      if Accepts(b.state, DisconnectFinish) then Transformed(b, DisconnectFinish).(registered := false)
      else Faulty(b, FinishRefused, true)
  }

  // Events that are not possible do not happen.
  function Step(c: Conn, e: Event): Conn {
    if Possible(c, e) then Happens(c, e) else c
  }

  function After(c: Conn, es: seq<Event>): Conn {
    if es == [] then c else Step(After(c, es[..|es| - 1]), es[|es| - 1])
  }

  // ------------------------------------------------- session and state agree

  predicate SessionFits(c: Conn) {
    match c.state
    case Disconnected => Idle(c)
    case Reconnecting => Idle(c) && c.timer in c.armed
    case Connecting => c.attempts == 1 && !c.cancelled && !c.stream
    case Connected => c.attempts == 0 && c.stream
    case Disconnecting => (c.attempts == 0 || (c.attempts == 1 && c.cancelled && !c.stream))
    case Quiting => c.quit && (if c.stream then c.attempts == 0 else c.attempts == 1 && c.cancelled)
  }

  // Timers, intervals and removals are in order, and no call was out of place.
  predicate Orderly(c: Conn) {
    && c.nextTimer > 0 && (forall t <- c.armed :: 0 < t < c.nextTimer) && (forall t <- c.pings :: 0 < t < c.nextTimer)
    && c.interval >= RECONN_STEP && (c.removals > 0 ==> c.quit) && c.faults == {}
  }

  predicate Agrees(c: Conn) {
    SessionFits(c) && Orderly(c) && Live(c)
  }

  // Being registered and pinging are over with the stream, and the ping timer that
  // is known will fire.
  predicate Live(c: Conn) {
    (c.registered || c.ping != 0 ==> c.stream) && (c.ping != 0 ==> c.ping in c.pings)
  }

  // What is true when an action comes: completions have left the session.
  predicate Timely(c: Conn, action: Action) {
    match action
    case ConnectFail => c.attempts == 0 && !c.stream && SessionFits(c.(attempts := 1))
    case ConnectFinish => c.state.Connecting? && c.attempts == 0 && c.stream
    case DisconnectFinish => !c.stream && SessionFits(c.(stream := true))
    case Connect => SessionFits(c) || (c.state.Reconnecting? && Idle(c))
    case _ => SessionFits(c)
  }

  // Each action finds the session as the state says, and leaves it so.
  lemma {:induction false} TransformedFits(c: Conn, action: Action)
    requires Orderly(c) && Timely(c, action)
    ensures SessionFits(Transformed(c, action)) && Orderly(Transformed(c, action))
  {
    match c.state
    case Disconnected => FromDisconnected(c, action);
    case Reconnecting => FromReconnecting(c, action);
    case Connecting => FromConnecting(c, action);
    case Connected => FromConnected(c, action);
    case Disconnecting =>
    case Quiting => FromQuiting(c, action);
  }

  lemma {:induction false} FromDisconnected(c: Conn, action: Action)
    requires c.state.Disconnected? && Orderly(c) && Timely(c, action)
    ensures SessionFits(Transformed(c, action)) && Orderly(Transformed(c, action))
  {
  }

  lemma {:induction false} FromReconnecting(c: Conn, action: Action)
    requires c.state.Reconnecting? && Orderly(c) && Timely(c, action)
    ensures SessionFits(Transformed(c, action)) && Orderly(Transformed(c, action))
  {
  }

  lemma {:induction false} FromConnecting(c: Conn, action: Action)
    requires c.state.Connecting? && Orderly(c) && Timely(c, action)
    ensures SessionFits(Transformed(c, action)) && Orderly(Transformed(c, action))
  {
  }

  lemma {:induction false} FromConnected(c: Conn, action: Action)
    requires c.state.Connected? && Orderly(c) && Timely(c, action)
    ensures SessionFits(Transformed(c, action)) && Orderly(Transformed(c, action))
  {
  }

  lemma {:induction false} FromQuiting(c: Conn, action: Action)
    requires c.state.Quiting? && Orderly(c) && Timely(c, action)
    ensures SessionFits(Transformed(c, action)) && Orderly(Transformed(c, action))
  {
  }

  // The state machine leaves the stream and what belongs to it alone.
  predicate SameStream(c: Conn, d: Conn) {
    c.stream == d.stream && c.registered == d.registered && c.ping == d.ping && c.pings == d.pings
  }

  lemma {:induction false} RemovalKeepsStream(c: Conn)
    ensures SameStream(c, ScheduleRemoval(c))
  {
  }

  lemma {:induction false} CallsKeepStream(c: Conn, call: Call)
    ensures SameStream(c, Perform(c, call))
  {
    match call
    case CallConnect => assert SameStream(c, SircConnect(c));
    case CallDisconnect => assert SameStream(c, SircDisconnect(c));
    case _ =>
  }

  lemma {:induction false} TransformedKeepsStream(c: Conn, action: Action)
    ensures SameStream(c, Transformed(c, action))
  {
    if Accepts(c.state, action) {
      var d := Perform(c, CallFor(c.state, action));
      CallsKeepStream(c, CallFor(c.state, action));
      RemovalKeepsStream(Settled(d, Target(c.state, action), action));
    }
  }

  // Only its end takes a stream away.
  lemma {:induction false} StreamAfter(c: Conn, e: Event)
    requires Possible(c, e)
    ensures if e.StreamEnds? then !Step(c, e).stream else c.stream ==> Step(c, e).stream
  {
    hide Transformed;
    var b := Before(c, e);
    match e
    case UserConnects | TimerFires(_) => TransformedKeepsStream(b, Connect);
    case UserReconnects | PingTimesOut(_) => TransformedKeepsStream(b, Reconnect);
    case UserDisconnects => TransformedKeepsStream(b, Disconnect);
    case UserQuits => TransformedKeepsStream(b, Quit);
    case AttemptFails => TransformedKeepsStream(b, ConnectFail);
    case AttemptSucceeds => TransformedKeepsStream(b, ConnectFinish);
    case StreamEnds => TransformedKeepsStream(b, DisconnectFinish);
    case _ =>
  }

  // An action that comes in time.
  lemma {:induction false} ActionAgrees(c: Conn, action: Action)
    requires Orderly(c) && Timely(c, action) && Live(c)
    ensures Agrees(Transformed(c, action))
  {
    TransformedFits(c, action);
    TransformedKeepsStream(c, action);
  }

  lemma {:induction false} UserAgrees(c: Conn, e: Event)
    requires Agrees(c) && (e.UserConnects? || e.UserReconnects? || e.UserDisconnects? || e.UserQuits?)
    ensures Agrees(Happens(c, e))
  {
    ActionAgrees(c, if e.UserConnects? then Connect else if e.UserReconnects? then Reconnect
                    else if e.UserDisconnects? then Disconnect else Quit);
  }

  lemma {:induction false} TimerAgrees(c: Conn, id: nat)
    requires Agrees(c)
    ensures Agrees(Happens(c, TimerFires(id)))
  {
    var b := Before(c, TimerFires(id));
    ActionAgrees(b, Connect);
  }

  lemma {:induction false} PingAgrees(c: Conn, id: nat)
    requires Agrees(c)
    ensures Agrees(Happens(c, PingTimesOut(id)))
  {
    ActionAgrees(Before(c, PingTimesOut(id)), Reconnect);
  }

  lemma {:induction false} FailureAgrees(c: Conn)
    requires Agrees(c) && c.attempts > 0
    ensures Agrees(Happens(c, AttemptFails))
  {
    ActionAgrees(Before(c, AttemptFails), ConnectFail);
  }

  lemma {:induction false} SuccessAgrees(c: Conn)
    requires Agrees(c) && c.attempts > 0 && !c.cancelled
    ensures Agrees(Happens(c, AttemptSucceeds))
  {
    ActionAgrees(Before(c, AttemptSucceeds), ConnectFinish);
  }

  lemma {:induction false} EndAgrees(c: Conn)
    requires Agrees(c) && c.stream
    ensures Agrees(Happens(c, StreamEnds))
  {
    var b := Before(c, StreamEnds);
    TransformedFits(b, DisconnectFinish);
    TransformedKeepsStream(b, DisconnectFinish);
  }

  /** Every event keeps session and state in agreement, whatever else is pending. */
  lemma {:induction false} StepAgrees(c: Conn, e: Event)
    requires Agrees(c)
    ensures Agrees(Step(c, e))
  {
    if Possible(c, e) {
      match e
      case TimerFires(id) => TimerAgrees(c, id);
      case PingTimesOut(id) => PingAgrees(c, id);
      case Welcome | Removal =>
      case AttemptFails => FailureAgrees(c);
      case AttemptSucceeds => SuccessAgrees(c);
      case StreamEnds => EndAgrees(c);
      case _ => UserAgrees(c, e);
    }
  }

  lemma {:induction false} RunAgrees(c: Conn, es: seq<Event>)
    requires Agrees(c)
    ensures Agrees(After(c, es))
  {
    if es != [] {
      RunAgrees(c, es[..|es| - 1]);
      StepAgrees(After(c, es[..|es| - 1]), es[|es| - 1]);
    }
  }

  /** In every run from the start: no attempt overlaps another or a stream, no
    * stream is closed that is not there, the end of a stream is never refused, and a
    * server is asked to go only after a QUIT and with an idle session; a server that
    * is registered has a stream. */
  lemma {:induction false} EveryRunAgrees(es: seq<Event>)
    ensures Agrees(After(FRESH, es)) && After(FRESH, es).faults == {}
    ensures After(FRESH, es).registered ==> After(FRESH, es).stream
  {
    RunAgrees(FRESH, es);
  }

  // ------------------------------------------------- what each event comes to

  // One more attempt is under way.
  function Attempting(c: Conn, action: Action): Conn {
    c.(state := Connecting, lastAction := action, attempts := 1, cancelled := false, connects := c.connects + 1)
  }

  // A new timer will fire, and the server knows it.
  function Waiting(c: Conn, action: Action): Conn {
    c.(state := Reconnecting, lastAction := action, timer := c.nextTimer, armed := c.armed + {c.nextTimer},
       nextTimer := c.nextTimer + 1)
  }

  /** The user's CONNECT starts an attempt when the server is down or waits to
    * reconnect, and does nothing otherwise. */
  lemma {:induction false} ConnectComesTo(c: Conn)
    requires Agrees(c) && !c.removed
    ensures Step(c, UserConnects)
         == if c.state.Disconnected? || c.state.Reconnecting? then Attempting(c, Connect) else c
  {
  }

  /** RECONNECT starts an attempt when the server is down, closes the stream when it is
    * connected, and does nothing otherwise. */
  lemma {:induction false} ReconnectComesTo(c: Conn)
    requires Agrees(c) && !c.removed
    ensures Step(c, UserReconnects)
         == if c.state.Disconnected? then Attempting(c, Reconnect)
            else if c.state.Connected? then c.(closing := true, lastAction := Reconnect)
            else c
  {
  }

  /** DISCONNECT cancels an attempt, closes the stream, or stops the timer. */
  lemma {:induction false} DisconnectComesTo(c: Conn)
    requires Agrees(c) && !c.removed
    ensures Step(c, UserDisconnects)
         == if c.state.Connecting? then c.(state := Disconnecting, lastAction := Disconnect, cancelled := true)
            else if c.state.Connected? then c.(state := Disconnecting, lastAction := Disconnect, closing := true)
            else if c.state.Reconnecting? then
              c.(state := Disconnected, lastAction := Disconnect, timer := 0, armed := c.armed - {c.timer})
            else c
  {
  }

  /** QUIT asks for the removal when the session is idle; otherwise it cancels an attempt,
    * or leaves it to the server to end the stream. */
  lemma {:induction false} QuitComesTo(c: Conn)
    requires Agrees(c) && !c.removed
    ensures Step(c, UserQuits)
         == if c.state.Disconnected? then c.(lastAction := Quit, quit := true, removals := c.removals + 1)
            else if c.state.Connecting? then c.(state := Quiting, lastAction := Quit, quit := true, cancelled := true)
            else if c.state.Connected? then c.(state := Quiting, lastAction := Quit, quit := true)
            else if c.state.Quiting? then c.(lastAction := Quit, cancelled := true)
            else if c.state.Reconnecting? then
              c.(state := Disconnected, lastAction := Quit, quit := true, removals := c.removals + 1,
                 timer := 0, armed := c.armed - {c.timer})
            else c
  {
  }

  /** A failed attempt is followed by waiting to reconnect, or by the removal after a
    * QUIT. */
  lemma {:induction false} FailureComesTo(c: Conn)
    requires Agrees(c) && Possible(c, AttemptFails)
    ensures var b := c.(attempts := 0);
      Step(c, AttemptFails)
      == if c.state.Connecting? then Waiting(b, ConnectFail)
         else if c.state.Quiting? then b.(state := Disconnected, lastAction := ConnectFail, removals := c.removals + 1)
         else b
  {
  }

  /** An attempt that succeeds leaves a stream, and the interval is 5 seconds again. */
  lemma {:induction false} SuccessComesTo(c: Conn)
    requires Agrees(c) && Possible(c, AttemptSucceeds)
    ensures Step(c, AttemptSucceeds)
         == c.(state := Connected, lastAction := ConnectFinish, attempts := 0, stream := true, closing := false,
               registered := false, interval := 5000)
  {
  }

  /** The end of a stream is followed by waiting to reconnect, unless the user asked for it,
    * and by the removal after a QUIT. */
  lemma {:induction false} EndComesTo(c: Conn)
    requires Agrees(c) && Possible(c, StreamEnds)
    ensures var b := c.(stream := false, registered := false, ping := 0,
                        pings := if c.ping != 0 then c.pings - {c.ping} else c.pings);
      Step(c, StreamEnds)
      == if c.state.Connected? then Waiting(b, DisconnectFinish)
         else if c.state.Quiting? then
           b.(state := Disconnected, lastAction := DisconnectFinish, removals := c.removals + 1)
         else b.(state := Disconnected, lastAction := DisconnectFinish)
  {
  }

  /** A reconnect timer that fires adds 5 seconds to the interval, and connects when the
    * server is down or waits. */
  lemma {:induction false} TimerComesTo(c: Conn, id: nat)
    requires Agrees(c) && Possible(c, TimerFires(id))
    ensures var b := c.(armed := c.armed - {id}, interval := c.interval + 5000);
      Step(c, TimerFires(id)) == if c.state.Disconnected? || c.state.Reconnecting? then Attempting(b, Connect) else b
  {
  }

  /** A ping timer that fires closes the stream of a server that is connected, and connects
    * one that is down. */
  lemma {:induction false} PingComesTo(c: Conn, id: nat)
    requires Agrees(c) && Possible(c, PingTimesOut(id))
    ensures var b := c.(ping := 0, pings := c.pings - {id});
      Step(c, PingTimesOut(id))
      == if c.state.Disconnected? then Attempting(b, Reconnect)
         else if c.state.Connected? then b.(closing := true, lastAction := Reconnect)
         else b
  {
  }

  // ------------------------------------------------- what makes it reconnect

  // The program waits, and will connect when its timer fires.
  predicate WillReconnect(c: Conn, connects: nat) {
    && c.state.Reconnecting? && c.timer in c.armed && c.connects == connects
    && Step(c, TimerFires(c.timer)).state.Connecting? && Step(c, TimerFires(c.timer)).connects == connects + 1
  }

  /** A connected server that loses its stream connects again. */
  lemma {:induction false} LostStreamReconnects(c: Conn)
    requires Agrees(c) && c.state.Connected? && !c.removed
    ensures WillReconnect(After(c, [StreamEnds]), c.connects)
  {
    EndComesTo(c);
    AfterMore(c, [], StreamEnds);
    assert [] + [StreamEnds] == [StreamEnds];
    WaitingReconnects(Step(c, StreamEnds));
  }

  lemma {:induction false} WaitingReconnects(c: Conn)
    requires c.state.Reconnecting? && c.timer in c.armed && !c.removed
    ensures WillReconnect(c, c.connects)
  {
  }

  /** So does one whose user asks to reconnect, or whose ping times out: the stream is
    * closed, the server stays connected until it has ended, and then waits. */
  lemma {:induction false} ReconnectReconnects(c: Conn, e: Event)
    requires Agrees(c) && c.state.Connected? && Possible(c, e) && (e.UserReconnects? || e.PingTimesOut?)
    ensures var d := Step(c, e); d.closing && d.stream && d.state.Connected?
    ensures WillReconnect(After(c, [e, StreamEnds]), c.connects)
  {
    var d := Step(c, e);
    if e.UserReconnects? {
      ReconnectComesTo(c);
    } else {
      PingComesTo(c, e.id);
    }
    StepAgrees(c, e);
    LostStreamReconnects(d);
    AfterMore(c, [], e);
    AfterMore(c, [e], StreamEnds);
    AfterMore(d, [], StreamEnds);
    assert [] + [e] == [e] && [e] + [StreamEnds] == [e, StreamEnds] && [] + [StreamEnds] == [StreamEnds];
  }

  /** And a server whose attempt fails while it is connecting. */
  lemma {:induction false} FailedAttemptReconnects(c: Conn)
    requires Agrees(c) && c.state.Connecting? && !c.removed
    ensures WillReconnect(After(c, [AttemptFails]), c.connects)
  {
    FailureComesTo(c);
    AfterMore(c, [], AttemptFails);
    assert [] + [AttemptFails] == [AttemptFails];
    WaitingReconnects(Step(c, AttemptFails));
  }

  /** After a DISCONNECT on a stream the stream is closed, and its end arms no timer. */
  lemma {:induction false} DisconnectEnds(c: Conn)
    requires Agrees(c) && c.state.Connected? && !c.removed
    ensures var d := Step(c, UserDisconnects); d.closing && d.stream && d.state.Disconnecting?
    ensures var d := After(c, [UserDisconnects, StreamEnds]);
      d.state.Disconnected? && d.armed == c.armed && d.connects == c.connects
  {
    var d := Step(c, UserDisconnects);
    DisconnectComesTo(c);
    StepAgrees(c, UserDisconnects);
    EndComesTo(d);
    AfterMore(c, [], UserDisconnects);
    AfterMore(c, [UserDisconnects], StreamEnds);
    assert [] + [UserDisconnects] == [UserDisconnects];
    assert [UserDisconnects] + [StreamEnds] == [UserDisconnects, StreamEnds];
  }

  /** After a QUIT on a stream, its end asks for the removal. */
  lemma {:induction false} QuitEnds(c: Conn)
    requires Agrees(c) && c.state.Connected? && !c.removed
    ensures var d := After(c, [UserQuits, StreamEnds]);
      d.state.Disconnected? && d.removals == c.removals + 1 && d.armed == c.armed && d.connects == c.connects
  {
    var d := Step(c, UserQuits);
    QuitComesTo(c);
    StepAgrees(c, UserQuits);
    EndComesTo(d);
    AfterMore(c, [], UserQuits);
    AfterMore(c, [UserQuits], StreamEnds);
    assert [] + [UserQuits] == [UserQuits];
    assert [UserQuits] + [StreamEnds] == [UserQuits, StreamEnds];
  }

  // --------------------------------------------------- what a run can do

  // The user wants a connection.
  predicate Manual(e: Event) {
    e.UserConnects? || e.UserReconnects?
  }

  predicate Unattended(es: seq<Event>) {
    forall e <- es :: !Manual(e)
  }

  // Nothing is left that could end the disconnecting.
  predicate Stuck(c: Conn) {
    c.state.Disconnecting? && !c.stream
  }

  // The server welcomes the program a second time while its ping timer runs: the
  // first timer is forgotten.
  predicate Repeated(c: Conn, e: Event) {
    e.Welcome? && c.ping != 0
  }

  // No welcome is repeated in a run.
  predicate Single(c: Conn, es: seq<Event>) {
    es == [] || (Single(c, es[..|es| - 1]) && !Repeated(After(c, es[..|es| - 1]), es[|es| - 1]))
  }

  predicate GoingDown(c: Conn) {
    c.state.Disconnected? || c.state.Disconnecting? || c.state.Quiting?
  }

  // No ping timer will fire but the one that is known.
  predicate OwnPing(c: Conn) {
    c.pings == if c.ping != 0 then {c.ping} else {}
  }

  // Down, or on the way down, and nothing will fire that the end of the stream
  // leaves alone.
  predicate Quiet(c: Conn) {
    GoingDown(c) && c.armed == {} && OwnPing(c)
  }

  lemma {:induction false} QuietStep(c: Conn, e: Event)
    requires Agrees(c) && Quiet(c) && !Manual(e) && !Repeated(c, e)
    ensures Quiet(Step(c, e)) && Step(c, e).connects == c.connects
  {
  }

  lemma {:induction false} StuckStep(c: Conn, e: Event)
    requires Agrees(c) && Stuck(c)
    ensures Stuck(Step(c, e)) && Step(c, e).connects == c.connects
  {
  }

  lemma {:induction false} StuckForEver(c: Conn, es: seq<Event>)
    requires Agrees(c) && Stuck(c)
    ensures Stuck(After(c, es)) && After(c, es).connects == c.connects
  {
    if es != [] {
      var fewer := es[..|es| - 1];
      StuckForEver(c, fewer);
      RunAgrees(c, fewer);
      StuckStep(After(c, fewer), es[|es| - 1]);
    }
  }

  lemma {:induction false} QuietForEver(c: Conn, es: seq<Event>)
    requires Agrees(c) && Quiet(c) && Unattended(es) && Single(c, es)
    ensures Quiet(After(c, es)) && After(c, es).connects == c.connects
  {
    if es != [] {
      var fewer := es[..|es| - 1];
      QuietForEver(c, fewer);
      RunAgrees(c, fewer);
      QuietStep(After(c, fewer), es[|es| - 1]);
    }
  }

  ghost predicate GetsOut(c: Conn, es: seq<Event>) {
    !After(c, es).state.Disconnecting?
  }

  /** A server that the user disconnects while it is connecting is stuck. */
  lemma {:induction false} CancelledAttemptIsStuck()
    ensures Stuck(After(FRESH, [UserConnects, UserDisconnects]))
    ensures Stuck(After(FRESH, [UserConnects, UserDisconnects, AttemptFails]))
  {
    AfterThree(FRESH, UserConnects, UserDisconnects, AttemptFails);
    AfterMore(FRESH, [], UserConnects);
    AfterMore(FRESH, [UserConnects], UserDisconnects);
    assert [] + [UserConnects] == [UserConnects];
    assert [UserConnects] + [UserDisconnects] == [UserConnects, UserDisconnects];
  }

  /** A server that is disconnecting gets out of that state if and only if there is
    * a stream to close: when an attempt was cancelled, its failure is refused and no
    * later event, the user's included, is of any help. */
  lemma {:induction false} DisconnectingEndsIff(c: Conn)
    requires Agrees(c) && c.state.Disconnecting? && !c.removed
    ensures (exists es :: GetsOut(c, es)) <==> c.stream
  {
    if c.stream {
      var es := [StreamEnds];
      assert es[..0] == [] && After(c, es[..0]) == c;
      assert GetsOut(c, es);
    } else {
      forall es ensures !GetsOut(c, es) {
        StuckForEver(c, es);
      }
    }
  }

  // The program may connect without another word of the user, of a server that
  // welcomes it once in a connection if `single`.
  ghost predicate ConnectsAgain(c: Conn, single: bool) {
    exists es :: Unasked(c, single, es)
  }

  predicate Unasked(c: Conn, single: bool, es: seq<Event>) {
    Unattended(es) && (single ==> Single(c, es)) && After(c, es).connects != c.connects
  }

  // A timer that survives the user's DISCONNECT or QUIT and the end of the stream.
  predicate Survives(c: Conn) {
    (if c.state.Reconnecting? then c.armed - {c.timer} else c.armed) != {} || c.pings - {c.ping} != {}
  }

  // Such a timer, and a way down on which it will be obeyed.
  predicate LeavesTimer(c: Conn, e: Event) {
    Survives(c) && !(c.state.Connecting? && e.UserDisconnects?)
  }

  predicate Accepted(c: Conn, e: Event) {
    !c.removed && ((e.UserDisconnects? && Accepts(c.state, Disconnect)) || (e.UserQuits? && Accepts(c.state, Quit)))
  }

  /** After an accepted DISCONNECT or QUIT the program may connect again of its own
    * accord if and only if the call leaves an older timer armed.  A server that can
    * still send may make it do so by welcoming it twice. */
  lemma {:induction false} ConnectsAgainIff(c: Conn, e: Event)
    requires Agrees(c) && Accepted(c, e)
    ensures ConnectsAgain(Step(c, e), true) <==> LeavesTimer(c, e)
    ensures ConnectsAgain(Step(c, e), false) <==> LeavesTimer(c, e) || c.stream
  {
    var d := Step(c, e);
    StepAgrees(c, e);
    DownStep(c, e);
    DownStuck(c, e);
    if LeavesTimer(c, e) {
      TimerConnects(d);
    } else if Stuck(d) {
      forall es ensures After(d, es).connects == d.connects {
        StuckForEver(d, es);
      }
    } else {
      forall es | Unattended(es) && Single(d, es) ensures After(d, es).connects == d.connects {
        QuietForEver(d, es);
      }
      if d.stream {
        WelcomesConnect(d);
      } else {
        forall es | Unattended(es) ensures After(d, es).connects == d.connects {
          DarkForEver(d, es);
        }
      }
    }
  }

  // Down, or on the way down, with nothing to fire and nobody to hear from.
  predicate Dark(c: Conn) {
    GoingDown(c) && !c.stream && c.armed == {} && c.pings == {} && (c.attempts > 0 ==> c.cancelled)
  }

  lemma {:induction false} DarkStep(c: Conn, e: Event)
    requires Agrees(c) && Dark(c) && !Manual(e)
    ensures Dark(Step(c, e)) && Step(c, e).connects == c.connects
  {
  }

  lemma {:induction false} DarkForEver(c: Conn, es: seq<Event>)
    requires Agrees(c) && Dark(c) && Unattended(es)
    ensures Dark(After(c, es)) && After(c, es).connects == c.connects
  {
    if es != [] {
      var fewer := es[..|es| - 1];
      DarkForEver(c, fewer);
      RunAgrees(c, fewer);
      DarkStep(After(c, fewer), es[|es| - 1]);
    }
  }

  lemma {:induction false} DownStep(c: Conn, e: Event)
    requires Agrees(c) && Accepted(c, e)
    ensures var d := Step(c, e);
      && GoingDown(d) && SameStream(c, d)
      && d.armed == (if c.state.Reconnecting? then c.armed - {c.timer} else c.armed)
      && !d.removed
  {
    hide Agrees, Transformed, Perform;
    var action := if e.UserDisconnects? then Disconnect else Quit;
    assert Step(c, e) == Transformed(c, action);
    TimersAfter(c, action);
    TimersAfterCall(c, CallFor(c.state, action));
    TransformedKeepsStream(c, action);
  }

  lemma {:induction false} DownStuck(c: Conn, e: Event)
    requires Agrees(c) && Accepted(c, e)
    ensures Stuck(Step(c, e)) <==> c.state.Connecting? && e.UserDisconnects?
  {
  }

  // What ends the session of a server on its way down.
  function Ending(c: Conn): Event {
    if c.stream then StreamEnds else AttemptFails
  }

  lemma {:induction false} EndComes(c: Conn)
    requires Agrees(c) && GoingDown(c) && !c.state.Disconnected? && !Stuck(c) && !c.removed
    ensures var d := Step(c, Ending(c));
      && d.state.Disconnected? && d.armed == c.armed && d.pings == c.pings - (if c.stream then {c.ping} else {})
      && d.connects == c.connects && d.ping == 0 && !d.removed
  {
  }

  // Whatever timer is left connects when the server is down.
  lemma {:induction false} TimerConnects(c: Conn)
    requires Agrees(c) && GoingDown(c) && !Stuck(c) && !c.removed
    requires c.armed != {} || c.pings - {c.ping} != {}
    ensures ConnectsAgain(c, true) && ConnectsAgain(c, false)
  {
    if c.state.Disconnected? {
      LeftConnects(c);
      OneUnasked(c, LeftOver(c));
    } else {
      EndComes(c);
      var d := Step(c, Ending(c));
      LeftConnects(d);
      TwoUnasked(c, Ending(c), LeftOver(d));
    }
  }

  // A timer that is left over fires.
  ghost function LeftOver(c: Conn): (e: Event)
    requires c.armed != {} || c.pings != {}
    ensures if e.TimerFires? then e.id in c.armed else e.PingTimesOut? && e.id in c.pings
  {
    if c.armed != {} then
      var id :| id in c.armed; TimerFires(id)
    else
      var id :| id in c.pings; PingTimesOut(id)
  }

  lemma {:induction false} LeftConnects(c: Conn)
    requires c.state.Disconnected? && (c.armed != {} || c.pings != {}) && !c.removed
    ensures var d := Step(c, LeftOver(c));
      d.connects == c.connects + 1 && d.attempts > 0 && d.removals == c.removals && !d.removed
  {
    hide LeftOver, Step;
    FiringConnects(c, LeftOver(c));
  }

  lemma {:induction false} FiringConnects(c: Conn, e: Event)
    requires c.state.Disconnected? && Possible(c, e) && (e.TimerFires? || e.PingTimesOut?)
    ensures var d := Step(c, e);
      d.connects == c.connects + 1 && d.attempts > 0 && d.removals == c.removals && !d.removed
  {
  }

  lemma {:induction false} OneUnasked(c: Conn, e: Event)
    requires !Manual(e) && !e.Welcome? && Step(c, e).connects != c.connects
    ensures Unasked(c, true, [e]) && Unasked(c, false, [e])
  {
    hide Step;
    AfterMore(c, [], e);
    SingleMore(c, [], e);
    assert [] + [e] == [e];
  }

  lemma {:induction false} TwoUnasked(c: Conn, e: Event, f: Event)
    requires !Manual(e) && !e.Welcome? && !Manual(f) && !f.Welcome?
    requires Step(Step(c, e), f).connects != c.connects
    ensures Unasked(c, true, [e, f]) && Unasked(c, false, [e, f])
  {
    hide Step;
    AfterMore(c, [], e);
    AfterMore(c, [e], f);
    assert [] + [e] == [e] && [e] + [f] == [e, f];
    SingleMore(c, [], e);
    SingleMore(c, [e], f);
  }

  lemma {:induction false} SingleMore(c: Conn, es: seq<Event>, e: Event)
    requires Single(c, es) && !e.Welcome?
    ensures Single(c, es + [e])
  {
    assert (es + [e])[..|es|] == es;
  }

  // Two welcomes on an open stream leave a ping timer that nobody knows.
  lemma {:induction false} WelcomesConnect(c: Conn)
    requires Agrees(c) && GoingDown(c) && c.stream && !c.removed
    ensures ConnectsAgain(c, false)
  {
    var d := Step(Step(c, Welcome), Welcome);
    StepAgrees(c, Welcome);
    StepAgrees(Step(c, Welcome), Welcome);
    assert GoingDown(d) && d.stream && c.nextTimer in d.pings && c.nextTimer != d.ping && d.connects == c.connects;
    EndComes(d);
    var f := Step(d, StreamEnds);
    LeftConnects(f);
    var last := LeftOver(f);
    AfterThree(c, Welcome, Welcome, StreamEnds);
    var es := [Welcome, Welcome, StreamEnds];
    AfterMore(c, es, last);
    assert Unasked(c, false, es + [last]);
  }

  // ------------------------------------------------------------- the removal

  /** When a removal comes the session is idle if and only if the server is down, or
    * waits to reconnect, or is stuck without an attempt. */
  lemma {:induction false} RemovalFindsIdleIff(c: Conn)
    requires Agrees(c) && Possible(c, Removal)
    ensures Idle(c) <==> c.state.Disconnected? || c.state.Reconnecting? || (Stuck(c) && c.attempts == 0)
  {
  }

  // A removal may come, without another word of the user, and find the session busy.
  ghost predicate BusyRemoval(c: Conn) {
    exists es :: Unattended(es) && FindsBusy(After(c, es))
  }

  predicate FindsBusy(c: Conn) {
    Possible(c, Removal) && !Idle(c)
  }

  /** A server whose removal is asked for is down.  Until the main loop is idle and
    * removes it, it can start an attempt unasked if and only if a timer is armed. */
  lemma {:induction false} BusyRemovalIff(c: Conn)
    requires Agrees(c) && c.state.Disconnected? && Possible(c, Removal)
    ensures BusyRemoval(c) <==> c.armed != {} || c.pings != {}
  {
    if c.armed == {} && c.pings == {} {
      forall es | Unattended(es) ensures !FindsBusy(After(c, es)) {
        DownForEver(c, es);
        RunAgrees(c, es);
      }
    } else {
      LeftConnects(c);
      var es := [LeftOver(c)];
      assert es[..0] == [] && After(c, es[..0]) == c;
      assert Unattended(es) && FindsBusy(After(c, es));
    }
  }

  lemma {:induction false} DownForEver(c: Conn, es: seq<Event>)
    requires Agrees(c) && c.state.Disconnected? && Dark(c) && Unattended(es)
    ensures After(c, es).state.Disconnected? && Dark(After(c, es))
  {
    if es != [] {
      var fewer := es[..|es| - 1];
      DownForEver(c, fewer);
      RunAgrees(c, fewer);
      StaysDown(After(c, fewer), es[|es| - 1]);
    }
  }

  lemma {:induction false} StaysDown(c: Conn, e: Event)
    requires Agrees(c) && c.state.Disconnected? && Dark(c) && !Manual(e)
    ensures Step(c, e).state.Disconnected? && Dark(Step(c, e))
  {
    DarkStep(c, e);
  }

  // ------------------------------------------------------------- careful use

  // The user does not ask for a connection while one is being awaited.
  predicate Careful(c: Conn, es: seq<Event>) {
    es == [] ||
    (Careful(c, es[..|es| - 1]) && !(es[|es| - 1].UserConnects? && After(c, es[..|es| - 1]).state.Reconnecting?))
  }

  predicate OwnTimer(c: Conn) {
    c.armed == if c.state.Reconnecting? then {c.timer} else {}
  }

  // What a call does to the timers.
  lemma {:induction false} TimersAfterCall(c: Conn, call: Call)
    ensures var d := Perform(c, call);
      if call.ArmTimer? then d.timer == c.nextTimer && d.armed == c.armed + {c.nextTimer}
      else if call.DisarmTimer? then d.armed == c.armed - {c.timer}
      else d.timer == c.timer && d.armed == c.armed
    ensures Perform(c, call).removed == c.removed
  {
  }

  lemma {:induction false} TimersAfterRemoval(c: Conn)
    ensures var d := ScheduleRemoval(c);
      d.state == c.state && d.timer == c.timer && d.armed == c.armed && d.removed == c.removed
  {
  }

  lemma {:induction false} TimersAfter(c: Conn, action: Action)
    requires Accepts(c.state, action)
    ensures var d := Perform(c, CallFor(c.state, action));
      var t := Transformed(c, action);
      t.state == Target(c.state, action) && t.timer == d.timer && t.armed == d.armed && t.removed == d.removed
  {
    hide Perform, CallFor, Target, ScheduleRemoval;
    TimersAfterRemoval(Settled(Perform(c, CallFor(c.state, action)), Target(c.state, action), action));
  }

  lemma {:induction false} OwnTimerAction(c: Conn, action: Action)
    requires if c.state.Reconnecting? && action.Connect? then c.armed == {} else OwnTimer(c)
    ensures OwnTimer(Transformed(c, action))
  {
    hide Perform;
    if Accepts(c.state, action) {
      hide Transformed;
      TimersAfterCall(c, CallFor(c.state, action));
      TimersAfter(c, action);
    }
  }

  lemma {:induction false} OwnTimerStep(c: Conn, e: Event)
    requires Agrees(c) && OwnTimer(c) && !(e.UserConnects? && c.state.Reconnecting?)
    ensures OwnTimer(Step(c, e))
  {
    if Possible(c, e) {
      var b := Before(c, e);
      match e
      case UserConnects => OwnTimerAction(b, Connect);
      case UserReconnects => OwnTimerAction(b, Reconnect);
      case UserDisconnects => OwnTimerAction(b, Disconnect);
      case UserQuits => OwnTimerAction(b, Quit);
      case TimerFires(_) => OwnTimerAction(b, Connect);
      case PingTimesOut(_) => OwnTimerAction(b, Reconnect);
      case Welcome | Removal =>
      case AttemptFails => OwnTimerAction(b, ConnectFail);
      case AttemptSucceeds => OwnTimerAction(b, ConnectFinish);
      case StreamEnds => OwnTimerAction(b, DisconnectFinish);
    }
  }

  // A server that welcomes once lets no ping timer be forgotten.
  lemma {:induction false} OwnPingStep(c: Conn, e: Event)
    requires Agrees(c) && OwnPing(c) && !Repeated(c, e)
    ensures OwnPing(Step(c, e))
  {
    hide Transformed, SessionFits;
    if Possible(c, e) {
      var b := Before(c, e);
      match e
      case UserConnects | TimerFires(_) => TransformedKeepsStream(b, Connect);
      case UserReconnects | PingTimesOut(_) => TransformedKeepsStream(b, Reconnect);
      case UserDisconnects => TransformedKeepsStream(b, Disconnect);
      case UserQuits => TransformedKeepsStream(b, Quit);
      case AttemptFails => TransformedKeepsStream(b, ConnectFail);
      case AttemptSucceeds => TransformedKeepsStream(b, ConnectFinish);
      case StreamEnds => TransformedKeepsStream(b, DisconnectFinish);
      case _ =>
    }
  }

  /** With careful use, of a server that welcomes once in a connection, a reconnect
    * timer is armed just when the state says so, a ping timer just while it is known,
    * and the user's DISCONNECT and QUIT are final. */
  lemma {:induction false} CarefulUse(c: Conn, es: seq<Event>)
    requires Agrees(c) && OwnTimer(c) && OwnPing(c) && Careful(c, es) && Single(c, es)
    ensures var d := After(c, es);
      OwnTimer(d) && OwnPing(d) && forall e | Accepted(d, e) :: !ConnectsAgain(Step(d, e), true)
  {
    CarefulRun(c, es);
    var d := After(c, es);
    RunAgrees(c, es);
    forall e | Accepted(d, e) ensures !ConnectsAgain(Step(d, e), true) {
      ConnectsAgainIff(d, e);
    }
  }

  lemma {:induction false} CarefulRun(c: Conn, es: seq<Event>)
    requires Agrees(c) && OwnTimer(c) && OwnPing(c) && Careful(c, es) && Single(c, es)
    ensures OwnTimer(After(c, es)) && OwnPing(After(c, es))
  {
    if es != [] {
      var fewer := es[..|es| - 1];
      CarefulRun(c, fewer);
      RunAgrees(c, fewer);
      OwnTimerStep(After(c, fewer), es[|es| - 1]);
      OwnPingStep(After(c, fewer), es[|es| - 1]);
    }
  }

  // Connecting by hand while the program waits to reconnect.
  const HASTY := [UserConnects, AttemptFails, UserConnects, AttemptSucceeds, UserDisconnects, StreamEnds]

  /** A user who connects by hand while the program waits to reconnect, and then
    * disconnects for good, is connected again by the timer that was left. */
  lemma {:induction false} HastyUserIsReconnected()
    ensures var c := After(FRESH, HASTY);
      c.state.Disconnected? && c.armed == {1} && Step(c, TimerFires(1)).state.Connecting?
  {
    hide Step, After;
    var c := HastyStart();
    HastyEnd(c);
    var a, b := HASTY[..3], HASTY[3..];
    AfterThree(FRESH, UserConnects, AttemptFails, UserConnects);
    AfterThree(c, AttemptSucceeds, UserDisconnects, StreamEnds);
    AfterBoth(FRESH, a, b);
    assert a + b == HASTY;
    assert a == [UserConnects, AttemptFails, UserConnects] && b == [AttemptSucceeds, UserDisconnects, StreamEnds];
  }

  lemma {:induction false} HastyStart() returns (c: Conn)
    ensures c == Step(Step(Step(FRESH, UserConnects), AttemptFails), UserConnects)
    ensures c.state.Connecting? && c.armed == {1} && c.attempts == 1 && !c.cancelled && !c.removed
  {
    var c1 := Step(FRESH, UserConnects);
    assert c1.state.Connecting? && c1.armed == {} && c1.nextTimer == 1 && c1.attempts == 1;
    var c2 := Step(c1, AttemptFails);
    assert c2.state.Reconnecting? && c2.armed == {1} && c2.attempts == 0;
    c := Step(c2, UserConnects);
  }

  lemma {:induction false} HastyEnd(c: Conn)
    requires c.state.Connecting? && c.armed == {1} && c.attempts == 1 && !c.cancelled && !c.removed
    ensures var d := Step(Step(Step(c, AttemptSucceeds), UserDisconnects), StreamEnds);
      d.state.Disconnected? && d.armed == {1} && Step(d, TimerFires(1)).state.Connecting?
  {
    var c1 := Step(c, AttemptSucceeds);
    assert c1.state.Connected? && c1.armed == {1} && c1.stream;
    var c2 := Step(c1, UserDisconnects);
    assert c2.state.Disconnecting? && c2.armed == {1} && c2.stream;
  }

  // A server that welcomes the program twice.
  const WELCOMED_TWICE := [UserConnects, AttemptSucceeds, Welcome, Welcome, UserDisconnects, StreamEnds]

  /** A user who disconnects from such a server is connected again by the ping timer
    * that was forgotten, with no reconnect timer armed. */
  lemma {:induction false} SecondWelcomeReconnects()
    ensures var c := After(FRESH, WELCOMED_TWICE);
      c.state.Disconnected? && c.armed == {} && c.pings == {1} && Step(c, PingTimesOut(1)).state.Connecting?
  {
    hide Step, After;
    var c := WelcomedOnce();
    WelcomedAgain(c);
    var a, b := WELCOMED_TWICE[..3], WELCOMED_TWICE[3..];
    AfterThree(FRESH, UserConnects, AttemptSucceeds, Welcome);
    AfterThree(c, Welcome, UserDisconnects, StreamEnds);
    AfterBoth(FRESH, a, b);
    assert a + b == WELCOMED_TWICE;
    assert a == [UserConnects, AttemptSucceeds, Welcome] && b == [Welcome, UserDisconnects, StreamEnds];
  }

  lemma {:induction false} WelcomedOnce() returns (c: Conn)
    ensures c == Step(Step(Step(FRESH, UserConnects), AttemptSucceeds), Welcome)
    ensures c.state.Connected? && c.stream && c.armed == {} && c.pings == {1} && c.ping == 1 && c.nextTimer == 2
    ensures !c.removed
  {
    var c1 := Step(FRESH, UserConnects);
    assert c1.state.Connecting? && c1.armed == {} && c1.pings == {} && c1.nextTimer == 1 && c1.attempts == 1;
    var c2 := Step(c1, AttemptSucceeds);
    assert c2.state.Connected? && c2.armed == {} && c2.pings == {} && c2.nextTimer == 1 && c2.stream;
    c := Step(c2, Welcome);
  }

  lemma {:induction false} WelcomedAgain(c: Conn)
    requires c.state.Connected? && c.stream && c.armed == {} && c.pings == {1} && c.ping == 1 && c.nextTimer == 2
    requires !c.removed
    ensures var d := Step(Step(Step(c, Welcome), UserDisconnects), StreamEnds);
      d.state.Disconnected? && d.armed == {} && d.pings == {1} && Step(d, PingTimesOut(1)).state.Connecting?
  {
    var c1 := Step(c, Welcome);
    assert c1.state.Connected? && c1.armed == {} && c1.pings == {1, 2} && c1.ping == 2 && c1.stream;
    var c2 := Step(c1, UserDisconnects);
    assert c2.state.Disconnecting? && c2.armed == {} && c2.pings == {1, 2} && c2.ping == 2 && c2.stream;
  }

  lemma {:induction false} AfterBoth(c: Conn, a: seq<Event>, b: seq<Event>)
    ensures After(c, a + b) == After(After(c, a), b)
  {
    if b == [] {
      assert a + b == a;
    } else {
      var n := |b| - 1;
      assert (a + b)[..|a + b| - 1] == a + b[..n];
      AfterBoth(c, a, b[..n]);
    }
  }

  lemma {:induction false} AfterThree(c: Conn, e: Event, f: Event, g: Event)
    ensures After(c, [e, f, g]) == Step(Step(Step(c, e), f), g)
  {
    AfterMore(c, [], e);
    AfterMore(c, [e], f);
    AfterMore(c, [e, f], g);
    assert [] + [e] == [e] && [e] + [f] == [e, f] && [e, f] + [g] == [e, f, g];
  }

  lemma {:induction false} AfterMore(c: Conn, es: seq<Event>, e: Event)
    ensures After(c, es + [e]) == Step(After(c, es), e)
  {
    assert (es + [e])[..|es|] == es;
  }
}
