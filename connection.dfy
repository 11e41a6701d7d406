/** What the `connection.update` listener decides to do for one update. */
module Connection {
  import opened Options
  import opened JsString

  datatype ConnState = Connecting | Open | Close

  /** `lastDisconnect.error`, as far as the decision needs it: the status
      code it carries when it is a Boom error. */
  datatype DisconnectError = DisconnectError(boomStatus: Option<int>)

  /** A `connection.update` event: `connection`, `lastDisconnect?.error` and
      `qr`, each possibly absent. */
  datatype Update = Update(
    connection: Option<ConnState>,
    lastError: Option<DisconnectError>,
    qr: Option<Str>)

  /** `DisconnectReason.loggedOut` of the WhatsApp socket library. */
  const LoggedOut: int := 401

  /** Status code that `new Boom(e)` gives an error that is not a Boom
      error, or no error at all. */
  const BoomDefaultStatus: int := 500

  /** Delay before `iniciarBot` is called again after a close. */
  const ReconnectDelayMs: nat := 3000

  /** The effects of one update, in the order they happen. */
  datatype Effect =
    | ShowQr(code: Str)          // render the pairing code for the operator
    | Exit(status: int)          // process.exit
    | Restart(delayMs: nat)      // setTimeout(() => iniciarBot(...), delayMs)
    | StartGroupScheduler        // iniciarAgendamento(sock)
    | FlushPending               // send and maybe clear pendingMessages

  /** `new Boom(lastDisconnect?.error)?.output?.statusCode` */
  function CloseStatus(u: Update): (status: int)
    ensures u.lastError.Some? && u.lastError.value.boomStatus.Some? ==>
              status == u.lastError.value.boomStatus.value
    ensures u.lastError.None? || u.lastError.value.boomStatus.None? ==> status == BoomDefaultStatus
  {
    match u.lastError
    case None => BoomDefaultStatus
    case Some(e) =>
      match e.boomStatus
      case None => BoomDefaultStatus
      case Some(s) => s
  }

  /** Position of an effect in the listener's order; the three effects of
      the middle stage exclude one another. */
  function Stage(e: Effect): nat {
    match e
    case ShowQr(_) => 0
    case Exit(_) => 1
    case Restart(_) => 1
    case StartGroupScheduler => 1
    case FlushPending => 2
  }

  /** The effects of an update. A close with the logged-out status exits
      with status 0 and never restarts; any other close schedules exactly one
      restart, after 3000 ms; an open starts the group scheduler and then,
      unless starting it throws (`schedulerThrows`: `iniciarAgendamento` is
      called without a `try`, so a throw leaves the listener), flushes the
      pending list; no other update does any of these. Effects happen in the
      listener's order, each at most once. */
  function Decide(u: Update, schedulerThrows: bool): (effects: seq<Effect>)
    ensures Exit(0) in effects <==> u.connection == Some(Close) && CloseStatus(u) == LoggedOut
    ensures Restart(ReconnectDelayMs) in effects <==> u.connection == Some(Close) && CloseStatus(u) != LoggedOut
    ensures StartGroupScheduler in effects <==> u.connection == Some(Open)
    ensures FlushPending in effects <==> u.connection == Some(Open) && !schedulerThrows
    ensures forall e :: e in effects && e.Exit? ==> e == Exit(0)
    ensures forall e :: e in effects && e.Restart? ==> e == Restart(ReconnectDelayMs)
    ensures forall c :: ShowQr(c) in effects <==> u.qr == Some(c) && c != []
    ensures forall i, j :: 0 <= i < j < |effects| ==> Stage(effects[i]) < Stage(effects[j])
  {
    var qr := if u.qr.Some? && u.qr.value != [] then [ShowQr(u.qr.value)] else [];
    var rest :=
      if u.connection == Some(Close) then
        (if CloseStatus(u) == LoggedOut then [Exit(0)] else [Restart(ReconnectDelayMs)])
      else if u.connection == Some(Open) then
        (if schedulerThrows then [StartGroupScheduler] else [StartGroupScheduler, FlushPending])
      else [];
    qr + rest
  }

  /** A logged-out close never leads to a reconnect, and an exit is the last
      effect of its update. */
  lemma LoggedOutIsTerminal(u: Update)
    requires u.connection == Some(Close) && CloseStatus(u) == LoggedOut
    ensures forall b: bool, e :: e in Decide(u, b) ==> !e.Restart?
    ensures forall b: bool :: |Decide(u, b)| > 0 && Decide(u, b)[|Decide(u, b)| - 1] == Exit(0)
  {
  }

  /** A close whose error is not a Boom error (or that carries no error)
      reconnects. */
  lemma UnknownCloseReconnects(u: Update)
    requires u.connection == Some(Close)
    requires u.lastError.None? || u.lastError.value.boomStatus.None?
    ensures forall b: bool :: Restart(ReconnectDelayMs) in Decide(u, b)
  {
  }
}
