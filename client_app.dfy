/**
 * The connection lifecycle of the client application (`ClientApp`): it
 * opens the local screen and the network client, registers handlers for
 * their events in the event queue, and reacts to a failed connection, a
 * disconnection, a screen error and a fired restart timer, either by
 * posting `Quit`, by scheduling one restart timer, or by doing nothing.
 */
module ClientApplication {
  import opened Maybe
  import ArgParser

  /** `RETRY_TIME`: the constant delay before a reconnection attempt (a value, no arithmetic on it). */
  const RETRY_TIME: real := 1.0

  /** `nextRestartTimeout`: retries happen at a constant rate. */
  function NextRestartTimeout(): real {
    RETRY_TIME
  }

  /** The event types the client application registers handlers for. */
  datatype EventType = ScreenError | ClientConnected | ClientConnectionFailed | ClientDisconnected | TimerFired

  /**
   * Event targets, each by its identity: a screen, a client object, the
   * target a client's `getEventTarget()` names when that is not the client
   * object itself, or a one-shot timer.
   */
  datatype Target = ScreenTarget(id: nat) | ClientTarget(id: nat) | ClientDelegate(id: nat) | TimerTarget(id: nat)

  /**
   * `client->getEventTarget()` for client `c`. `Client` is not part of this
   * model, so whether that is the client object itself is an input.
   */
  function ClientEventTarget(c: nat, targetIsClient: bool): (t: Target)
    ensures t.id == c
    ensures t == ClientTarget(c) <==> targetIsClient
  {
    if targetIsClient then ClientTarget(c) else ClientDelegate(c)
  }

  /** One `adoptHandler(eventType, target, job)` registration. */
  datatype Registration = Registration(eventType: EventType, target: Target)

  /** The only event the client application posts. */
  datatype Event = Quit

  /** The exit codes `m_bye` is called with. */
  datatype ExitCode = ExitArgs | ExitFailed

  /** What `NetworkAddress` construction and `resolve()` did with the server address. */
  datatype Resolution = Resolved | BadPort | OtherError

  /** The exception `startClient` catches, if any. */
  datatype OpenError = Unavailable(retryTime: real) | OpenFailure | OtherFailure

  /**
   * How the attempt to open the screen and the client goes: both open, the
   * screen fails to open, or the screen opens and then the client fails.
   */
  datatype OpenOutcome = Opened | ScreenFails(error: OpenError) | ClientFails(error: OpenError)

  /** The observable state of the event queue. */
  datatype QueueState = QueueState(handlers: set<Registration>, timers: map<nat, real>, posted: seq<Event>, nextTimer: nat)

  /** Every live timer was handed out before the next one. */
  predicate QueueValid(q: QueueState) {
    forall t :: t in q.timers ==> t < q.nextTimer
  }

  /** A handler's effect on the queue: one `Quit`, one restart timer, or nothing. */
  datatype Reaction = PostQuit | ScheduleRestart(delay: real) | NoReaction

  /** The registration of the restart handler of timer `t`. */
  function TimerHandler(t: nat): Registration {
    Registration(TimerFired, TimerTarget(t))
  }

  /** The queue after a reaction: `addEvent(Quit)`, or `newOneShotTimer` plus its `kTimer` handler. */
  function After(q: QueueState, r: Reaction): (a: QueueState)
    ensures q.posted <= a.posted && q.handlers <= a.handlers
    ensures q.timers.Keys <= a.timers.Keys && q.nextTimer <= a.nextTimer
  {
    match r
    case PostQuit => q.(posted := q.posted + [Quit])
    case ScheduleRestart(d) =>
      QueueState(q.handlers + {TimerHandler(q.nextTimer)}, q.timers[q.nextTimer := d], q.posted, q.nextTimer + 1)
    case NoReaction => q
  }

  /**
   * A reaction posts exactly one `Quit` and nothing else, or adds exactly one
   * new live timer with its handler and posts nothing, or changes nothing.
   */
  lemma ReactionEffects(q: QueueState, r: Reaction)
    requires QueueValid(q)
    ensures QueueValid(After(q, r))
    ensures |After(q, r).posted| == |q.posted| + (if r.PostQuit? then 1 else 0)
    ensures r.PostQuit? ==> After(q, r).posted[|q.posted|] == Quit
    ensures |After(q, r).timers| == |q.timers| + (if r.ScheduleRestart? then 1 else 0)
    ensures r.ScheduleRestart? ==> q.nextTimer !in q.timers && After(q, r).timers[q.nextTimer] == r.delay
    ensures r.ScheduleRestart? ==> After(q, r).handlers == q.handlers + {TimerHandler(q.nextTimer)}
    ensures !r.ScheduleRestart? ==> After(q, r).timers == q.timers && After(q, r).handlers == q.handlers
    ensures r.NoReaction? ==> After(q, r) == q
  {
  }

  /**
   * `handleClientFailed`: a failure that is not to be retried, or any
   * failure of a client that is not restartable, posts `Quit`; a retryable
   * failure schedules a restart after `nextRestartTimeout()` unless the
   * client is suspended.
   */
  function FailedReaction(restartable: bool, retry: bool, suspended: bool): (r: Reaction)
    ensures r.PostQuit? <==> !restartable || !retry
    ensures r.ScheduleRestart? <==> restartable && retry && !suspended
    ensures r.ScheduleRestart? ==> r.delay == RETRY_TIME
  {
    if !restartable || !retry then PostQuit
    else if !suspended then ScheduleRestart(NextRestartTimeout())
    else NoReaction
  }

  /**
   * `handleClientDisconnected`: `Quit` when not restartable, otherwise a
   * restart after `nextRestartTimeout()` unless suspended.
   */
  function DisconnectedReaction(restartable: bool, suspended: bool): (r: Reaction)
    ensures r.PostQuit? <==> !restartable
    ensures r.ScheduleRestart? <==> restartable && !suspended
    ensures r.ScheduleRestart? ==> r.delay == RETRY_TIME
  {
    if !restartable then PostQuit
    else if !suspended then ScheduleRestart(NextRestartTimeout())
    else NoReaction
  }

  /**
   * What `startClient` does after a caught exception: a screen that is
   * unavailable for now is retried after the time the exception names when
   * the client is restartable; nothing else is retried.
   */
  function OpenErrorReaction(e: OpenError, restartable: bool): (r: Reaction)
    ensures r.ScheduleRestart? <==> e.Unavailable? && restartable
    ensures r.ScheduleRestart? ==> r.delay == e.retryTime
    ensures !r.PostQuit?
  {
    match e
    case Unavailable(retryTime) => if restartable then ScheduleRestart(retryTime) else NoReaction
    case OpenFailure => NoReaction
    case OtherFailure => NoReaction
  }

  /** `startClient`'s result after a caught exception: true exactly when a restart was scheduled. */
  function OpenErrorResult(e: OpenError, restartable: bool): (ok: bool)
    ensures ok <==> OpenErrorReaction(e, restartable).ScheduleRestart?
  {
    e.Unavailable? && restartable
  }

  /**
   * The exit decision of `parseArgs`: bad arguments or a request to exit
   * give `ExitArgs`; a server address that cannot be resolved is fatal when
   * the client is not restartable or the port is bad, and tolerated
   * otherwise (it is resolved again at each connection).
   */
  function ParseVerdict(parsed: bool, shouldExit: bool, address: string, restartable: bool, resolution: Resolution): (bye: Option<ExitCode>)
    ensures bye == Some(ExitArgs) <==> !parsed || shouldExit
    ensures bye == Some(ExitFailed) <==>
              parsed && !shouldExit && address != "" && !resolution.Resolved? && (!restartable || resolution.BadPort?)
  {
    if !parsed || shouldExit then Some(ExitArgs)
    else if address == "" then None
    else
      match resolution
      case Resolved => None
      case BadPort => Some(ExitFailed)
      case OtherError => if restartable then None else Some(ExitFailed)
  }

  /** A bad port is fatal even for a restartable client; another resolution error is then tolerated. */
  lemma BadPortAlwaysFatal(address: string, restartable: bool)
    requires address != ""
    ensures ParseVerdict(true, false, address, restartable, BadPort) == Some(ExitFailed)
    ensures restartable ==> ParseVerdict(true, false, address, restartable, OtherError) == None
    ensures !restartable ==> ParseVerdict(true, false, address, restartable, OtherError) == Some(ExitFailed)
  {
  }

  /**
   * FINDING, carried to `parseArgs`: with the run-out check as written,
   * `synergyc --crypto-pass` parses as true with an empty server address, so
   * the application goes on without an exit and without resolving anything;
   * with the corrected check it exits with `kExitArgs`.
   */
  lemma CryptoPassGoesOnAsWritten(args: ArgParser.ClientArgs, toInt: string -> int, resolution: Resolution)
    requires args.base.synergyAddress == "" && !args.base.shouldExit
    ensures ArgParser.Advances(ArgParser.ClientBody(ArgParser.Synergy, ["synergyc", "--crypto-pass"], toInt),
                               ["synergyc", "--crypto-pass"])
    ensures var e := ArgParser.ClientScan(ArgParser.ClientBody(ArgParser.Synergy, ["synergyc", "--crypto-pass"], toInt),
                                          ["synergyc", "--crypto-pass"], 1, args);
            var asWritten := e.AtAddress? || (e.Exhausted? && ArgParser.ExhaustedVerdictAsWritten(e.at, 2, e.args.base));
            ParseVerdict(asWritten, e.args.base.shouldExit, e.args.base.synergyAddress, e.args.base.restartable, resolution) == None &&
            ParseVerdict(e.AtAddress?, e.args.base.shouldExit, e.args.base.synergyAddress, e.args.base.restartable, resolution) == Some(ExitArgs)
  {
    ArgParser.CryptoPassAcceptedAsWritten(args, toInt);
  }

  /**
   * The three client handlers on target `t`: `openClient` registers them on
   * the client's event target, `closeClient` removes them from the client
   * object.
   */
  function ClientHandlers(t: Target): (hs: set<Registration>)
    ensures forall r :: r in hs ==> r.target == t
  {
    {Registration(ClientConnected, t),
     Registration(ClientConnectionFailed, t),
     Registration(ClientDisconnected, t)}
  }

  /** The handler `openClientScreen` registers on the screen's event target. */
  function ScreenHandlers(s: nat): (hs: set<Registration>)
    ensures forall r :: r in hs ==> r.target == ScreenTarget(s)
  {
    {Registration(ScreenError, ScreenTarget(s))}
  }

  lemma ClientHandlersCount(t: Target, c: nat)
    ensures |ClientHandlers(t)| == 3
    ensures |ScreenHandlers(c)| == 1
  {
  }

  /**
   * The handlers that live client and screen objects own: those opening them
   * registered, or, with `targetIsClient` true, those closing them removes.
   */
  function Owned(client: Option<nat>, screen: Option<nat>, targetIsClient: bool): (hs: set<Registration>)
    ensures client.None? && screen.None? <==> hs == {}
  {
    (if client.Some? then ClientHandlers(ClientEventTarget(client.value, targetIsClient)) else {}) +
    (if screen.Some? then ScreenHandlers(screen.value) else {})
  }

  /**
   * Closing a client removes what opening it registered exactly when its
   * event target is the client object; otherwise the three handlers stay.
   */
  lemma CloseMatchesOpen(c: nat, targetIsClient: bool)
    ensures ClientHandlers(ClientEventTarget(c, targetIsClient)) - ClientHandlers(ClientTarget(c)) ==
            (if targetIsClient then {} else ClientHandlers(ClientDelegate(c)))
  {
  }

  /** The queue after `deleteTimer(timer)` and `removeHandler(kTimer, timer)`. */
  function Discarded(q: QueueState, t: nat): (d: QueueState)
    ensures t !in d.timers && TimerHandler(t) !in d.handlers
    ensures d.posted == q.posted && d.nextTimer == q.nextTimer
    ensures QueueValid(q) ==> QueueValid(d)
  {
    q.(handlers := q.handlers - {TimerHandler(t)}, timers := q.timers - {t})
  }

  /** The registrations on screens and clients. */
  function ObjectHandlers(hs: set<Registration>): set<Registration> {
    set r | r in hs && !r.target.TimerTarget?
  }

  /** The registrations on timers. */
  function TimerHandlers(hs: set<Registration>): set<Registration> {
    set r | r in hs && r.target.TimerTarget?
  }

  /** The restart handlers of the given timers. */
  function TimerHandlersOf(timers: set<nat>): set<Registration> {
    set t | t in timers :: TimerHandler(t)
  }

  /** Adding or removing object registrations leaves the timer registrations alone. */
  lemma ObjectHandlersChange(hs: set<Registration>, extra: set<Registration>)
    requires forall r :: r in extra ==> !r.target.TimerTarget?
    ensures ObjectHandlers(hs + extra) == ObjectHandlers(hs) + extra
    ensures ObjectHandlers(hs - extra) == ObjectHandlers(hs) - extra
    ensures TimerHandlers(hs + extra) == TimerHandlers(hs)
    ensures TimerHandlers(hs - extra) == TimerHandlers(hs)
  {
  }

  /** Adding or removing a timer's handler with the timer keeps the two in step. */
  lemma TimerHandlersChange(hs: set<Registration>, timers: set<nat>, t: nat)
    requires TimerHandlers(hs) == TimerHandlersOf(timers)
    ensures TimerHandlers(hs + {TimerHandler(t)}) == TimerHandlersOf(timers + {t})
    ensures TimerHandlers(hs - {TimerHandler(t)}) == TimerHandlersOf(timers - {t})
    ensures ObjectHandlers(hs + {TimerHandler(t)}) == ObjectHandlers(hs)
    ensures ObjectHandlers(hs - {TimerHandler(t)}) == ObjectHandlers(hs)
  {
    assert TimerHandlers(hs + {TimerHandler(t)}) == TimerHandlers(hs) + {TimerHandler(t)};
    assert TimerHandlersOf(timers + {t}) == TimerHandlersOf(timers) + {TimerHandler(t)};
    assert TimerHandlers(hs - {TimerHandler(t)}) == TimerHandlers(hs) - {TimerHandler(t)};
    assert TimerHandlersOf(timers - {t}) == TimerHandlersOf(timers) - {TimerHandler(t)};
  }

  /** The event queue: handler registrations, live one-shot timers and posted events. */
  class EventQueue {
    var handlers: set<Registration>
    var timers: map<nat, real>
    var posted: seq<Event>
    var nextTimer: nat

    function State(): QueueState
      reads this
    {
      QueueState(handlers, timers, posted, nextTimer)
    }

    predicate Valid()
      reads this
    {
      QueueValid(State())
    }

    constructor ()
      ensures State() == QueueState({}, map[], [], 0)
    {
      handlers := {};
      timers := map[];
      posted := [];
      nextTimer := 0;
    }

    /** `adoptHandler(eventType, target, job)`. */
    method AdoptHandler(eventType: EventType, target: Target)
      modifies this
      ensures State() == old(State()).(handlers := old(handlers) + {Registration(eventType, target)})
    {
      handlers := handlers + {Registration(eventType, target)};
    }

    /** `removeHandler(eventType, target)`. */
    method RemoveHandler(eventType: EventType, target: Target)
      modifies this
      ensures State() == old(State()).(handlers := old(handlers) - {Registration(eventType, target)})
    {
      handlers := handlers - {Registration(eventType, target)};
    }

    /** `newOneShotTimer(timeout, nullptr)`: a new live timer. */
    method NewOneShotTimer(timeout: real) returns (timer: nat)
      modifies this
      ensures timer == old(nextTimer)
      ensures State() == old(State()).(timers := old(timers)[timer := timeout], nextTimer := timer + 1)
    {
      timer := nextTimer;
      timers := timers[timer := timeout];
      nextTimer := nextTimer + 1;
    }

    /** `deleteTimer(timer)`. */
    method DeleteTimer(timer: nat)
      modifies this
      ensures State() == old(State()).(timers := old(timers) - {timer})
    {
      timers := timers - {timer};
    }

    /** `addEvent(event)`. */
    method AddEvent(event: Event)
      modifies this
      ensures State() == old(State()).(posted := old(posted) + [event])
    {
      posted := posted + [event];
    }
  }

  /**
   * The client application: its arguments, the client connection and the
   * screen (each absent or live, by identity), the suspended flag and the
   * event queue.
   */
  class ClientApp {
    const events: EventQueue
    /** Whether `Client::getEventTarget()` names the client object itself. */
    const targetIsClient: bool
    var args: ArgParser.ClientArgs
    var client: Option<nat>
    var clientScreen: Option<nat>
    var suspended: bool
    var serverAddress: Option<string>
    /** How often `connect()` was called on the client. */
    var connectRequests: nat
    /** The identity the next screen or client gets. */
    var nextObject: nat
    /** Client handlers that outlived their client, because closing removed them from another target. */
    ghost var leaked: set<Registration>

    /**
     * The client and the screen are open together; the object registrations
     * are exactly the handlers of the live client and screen plus the leaked
     * ones, which exist only when the client's event target is not the
     * client; the timer registrations are exactly those of the live timers.
     */
    ghost predicate Valid()
      reads this, events
    {
      events.Valid() &&
      (client.Some? <==> clientScreen.Some?) &&
      (client.Some? ==> client.value < nextObject) &&
      (clientScreen.Some? ==> clientScreen.value < nextObject) &&
      ObjectHandlers(events.handlers) == Owned(client, clientScreen, targetIsClient) + leaked &&
      (targetIsClient ==> leaked == {}) &&
      (forall r :: r in leaked ==> r.target.ClientDelegate?) &&
      TimerHandlers(events.handlers) == TimerHandlersOf(events.timers.Keys)
    }

    function Restartable(): bool
      reads this
    {
      args.base.restartable
    }

    constructor (queue: EventQueue, initial: ArgParser.ClientArgs, targetIsClient: bool)
      requires queue.Valid() && queue.handlers == {} && queue.timers == map[]
      ensures events == queue && args == initial && this.targetIsClient == targetIsClient
      ensures client == None && clientScreen == None && !suspended && serverAddress == None
      ensures Valid()
    {
      events := queue;
      this.targetIsClient := targetIsClient;
      args := initial;
      client := None;
      clientScreen := None;
      suspended := false;
      serverAddress := None;
      connectRequests := 0;
      nextObject := 0;
      leaked := {};
    }

    /**
     * `parseArgs`: parses the client's command line into `args` and returns
     * the code `m_bye` is called with, if any; when the process goes on with
     * a server address, that address is kept.
     */
    method ParseArgs(argv: seq<string>, hostName: string, pname: string, toInt: string -> int, resolution: Resolution)
      returns (bye: Option<ExitCode>)
      requires 1 <= |argv|
      modifies this
      ensures var e := ArgParser.ClientScan(ArgParser.ClientBody(ArgParser.Synergy, argv, toInt), argv, 1,
                                            old(args).(base := ArgParser.WithCommonArgs(old(args).base, hostName, pname)));
              args == e.args &&
              bye == ParseVerdict(e.AtAddress?, args.base.shouldExit, args.base.synergyAddress, args.base.restartable, resolution)
      ensures bye.None? && args.base.synergyAddress != "" ==> serverAddress == Some(args.base.synergyAddress)
      ensures bye.None? && args.base.synergyAddress == "" ==> serverAddress == old(serverAddress)
      ensures client == old(client) && clientScreen == old(clientScreen) && leaked == old(leaked)
      ensures suspended == old(suspended) && nextObject == old(nextObject) && connectRequests == old(connectRequests)
    {
      var ok, parsed := ArgParser.ParseClientArgs(ArgParser.Synergy, args, argv, hostName, pname, toInt);
      args := parsed;
      bye := ParseVerdict(ok, parsed.base.shouldExit, parsed.base.synergyAddress, parsed.base.restartable, resolution);
      if bye.None? && parsed.base.synergyAddress != "" {
        serverAddress := Some(parsed.base.synergyAddress);
      }
    }

    /** `handleScreenError`: posts `Quit`, in every state. */
    method HandleScreenError()
      requires Valid()
      modifies events
      ensures Valid()
      ensures events.State() == After(old(events.State()), PostQuit)
    {
      events.AddEvent(Quit);
    }

    /** `openClientScreen`: a new screen with its error handler registered. */
    method OpenClientScreen() returns (screen: nat)
      modifies this, events
      ensures screen == old(nextObject) && nextObject == screen + 1
      ensures events.State() == old(events.State()).(handlers := old(events.handlers) + ScreenHandlers(screen))
      ensures args == old(args) && client == old(client) && clientScreen == old(clientScreen) && leaked == old(leaked)
      ensures suspended == old(suspended) && serverAddress == old(serverAddress) && connectRequests == old(connectRequests)
    {
      screen := nextObject;
      nextObject := nextObject + 1;
      events.AdoptHandler(ScreenError, ScreenTarget(screen));
    }

    /** `closeClientScreen`: removes the screen's error handler; nothing for a null screen. */
    method CloseClientScreen(screen: Option<nat>)
      modifies events
      ensures events.State() ==
              old(events.State()).(handlers := old(events.handlers) - (if screen.Some? then ScreenHandlers(screen.value) else {}))
    {
      if screen.Some? {
        events.RemoveHandler(ScreenError, ScreenTarget(screen.value));
      }
    }

    /**
     * `handleClientRestart`: discards the fired timer and its handler, then
     * starts the client again, with `startClient`'s three outcomes on the
     * queue left after the discard.
     */
    method HandleClientRestart(timer: nat, outcome: OpenOutcome)
      requires Valid()
      requires TimerHandler(timer) in events.handlers
      modifies this, events
      ensures Valid()
      ensures timer !in events.timers && TimerHandler(timer) !in events.handlers
      ensures args == old(args) && suspended == old(suspended) && serverAddress == old(serverAddress) && leaked == old(leaked)
      ensures old(clientScreen).Some? ==>
                client == old(client) && clientScreen == old(clientScreen) &&
                connectRequests == old(connectRequests) + 1 &&
                events.State() == Discarded(old(events.State()), timer)
      ensures old(clientScreen).None? && outcome.Opened? ==>
                clientScreen == Some(old(nextObject)) && client == Some(old(nextObject) + 1) &&
                connectRequests == old(connectRequests) + 1 &&
                events.State() == Discarded(old(events.State()), timer).(handlers :=
                                    Discarded(old(events.State()), timer).handlers + ScreenHandlers(old(nextObject)) +
                                    ClientHandlers(ClientEventTarget(old(nextObject) + 1, targetIsClient)))
      ensures old(clientScreen).None? && !outcome.Opened? ==>
                client == None && clientScreen == None && connectRequests == old(connectRequests) &&
                events.State() == After(Discarded(old(events.State()), timer), OpenErrorReaction(outcome.error, Restartable()))
    {
      assert TimerHandler(timer) in TimerHandlers(events.handlers);
      events.DeleteTimer(timer);
      events.RemoveHandler(TimerFired, TimerTarget(timer));
      TimerHandlersChange(old(events.handlers), old(events.timers).Keys, timer);
      assert events.timers.Keys == old(events.timers).Keys - {timer};
      assert events.State() == Discarded(old(events.State()), timer);
      var _ := StartClient(outcome);
    }

    /** `scheduleClientRestart`: one new one-shot timer with its restart handler. */
    method ScheduleClientRestart(retryTime: real)
      requires Valid()
      modifies events
      ensures Valid()
      ensures events.State() == After(old(events.State()), ScheduleRestart(retryTime))
    {
      ghost var q := events.State();
      var timer := events.NewOneShotTimer(retryTime);
      events.AdoptHandler(TimerFired, TimerTarget(timer));
      TimerHandlersChange(q.handlers, q.timers.Keys, timer);
      assert events.timers.Keys == q.timers.Keys + {timer};
      ReactionEffects(q, ScheduleRestart(retryTime));
    }

    /** `handleClientFailed`, with the failure's `m_retry` flag. */
    method HandleClientFailed(retry: bool)
      requires Valid()
      modifies events
      ensures Valid()
      ensures events.State() == After(old(events.State()), FailedReaction(Restartable(), retry, suspended))
    {
      if !args.base.restartable || !retry {
        events.AddEvent(Quit);
      } else if !suspended {
        ScheduleClientRestart(NextRestartTimeout());
      }
    }

    /** `handleClientDisconnected`. */
    method HandleClientDisconnected()
      requires Valid()
      modifies events
      ensures Valid()
      ensures events.State() == After(old(events.State()), DisconnectedReaction(Restartable(), suspended))
    {
      if !args.base.restartable {
        events.AddEvent(Quit);
      } else if !suspended {
        ScheduleClientRestart(NextRestartTimeout());
      }
    }

    /** `openClient`: a new client with its three handlers registered on its event target. */
    method OpenClient() returns (c: nat)
      modifies this, events
      ensures c == old(nextObject) && nextObject == c + 1
      ensures events.State() ==
              old(events.State()).(handlers := old(events.handlers) + ClientHandlers(ClientEventTarget(c, targetIsClient)))
      ensures args == old(args) && client == old(client) && clientScreen == old(clientScreen) && leaked == old(leaked)
      ensures suspended == old(suspended) && serverAddress == old(serverAddress) && connectRequests == old(connectRequests)
    {
      c := nextObject;
      nextObject := nextObject + 1;
      var t := ClientEventTarget(c, targetIsClient);
      events.AdoptHandler(ClientConnected, t);
      events.AdoptHandler(ClientConnectionFailed, t);
      events.AdoptHandler(ClientDisconnected, t);
      assert events.handlers == old(events.handlers) + ClientHandlers(t);
    }

    /** `closeClient`: removes the three client handlers from the client object; nothing for a null client. */
    method CloseClient(c: Option<nat>)
      modifies events
      ensures events.State() ==
              old(events.State()).(handlers := old(events.handlers) - (if c.Some? then ClientHandlers(ClientTarget(c.value)) else {}))
    {
      if c.None? {
        return;
      }
      events.RemoveHandler(ClientConnected, ClientTarget(c.value));
      events.RemoveHandler(ClientConnectionFailed, ClientTarget(c.value));
      events.RemoveHandler(ClientDisconnected, ClientTarget(c.value));
      assert events.handlers == old(events.handlers) - ClientHandlers(ClientTarget(c.value));
    }

    /**
     * `startClient`: opens the screen and the client only when there is no
     * screen yet, then asks the client to connect. A failure closes the
     * screen it opened, leaves both absent, and schedules a restart exactly
     * when the screen is unavailable for now and the client is restartable.
     */
    method StartClient(outcome: OpenOutcome) returns (ok: bool)
      requires Valid()
      modifies this, events
      ensures Valid()
      ensures args == old(args) && suspended == old(suspended) && serverAddress == old(serverAddress) && leaked == old(leaked)
      ensures old(clientScreen).Some? ==>
                ok && client == old(client) && clientScreen == old(clientScreen) &&
                connectRequests == old(connectRequests) + 1 && events.State() == old(events.State())
      ensures old(clientScreen).None? && outcome.Opened? ==>
                ok && clientScreen == Some(old(nextObject)) && client == Some(old(nextObject) + 1) &&
                connectRequests == old(connectRequests) + 1 &&
                events.State() == old(events.State()).(handlers := old(events.handlers) +
                                    ScreenHandlers(old(nextObject)) + ClientHandlers(ClientEventTarget(old(nextObject) + 1, targetIsClient)))
      ensures old(clientScreen).None? && !outcome.Opened? ==>
                ok == OpenErrorResult(outcome.error, Restartable()) &&
                client == None && clientScreen == None && connectRequests == old(connectRequests) &&
                events.State() == After(old(events.State()), OpenErrorReaction(outcome.error, Restartable()))
    {
      if clientScreen == None {
        if !outcome.Opened? {
          ok := FailToOpen(outcome);
          return;
        }
        OpenScreenAndClient();
      }
      connectRequests := connectRequests + 1;
      ok := true;
    }

    /** The `try` block of `startClient` with no screen yet: the screen opens, then the client. */
    method OpenScreenAndClient()
      requires Valid() && clientScreen.None?
      modifies this, events
      ensures Valid()
      ensures args == old(args) && suspended == old(suspended) && serverAddress == old(serverAddress) && leaked == old(leaked)
      ensures clientScreen == Some(old(nextObject)) && client == Some(old(nextObject) + 1) &&
              connectRequests == old(connectRequests) &&
              events.State() == old(events.State()).(handlers := old(events.handlers) +
                                  ScreenHandlers(old(nextObject)) + ClientHandlers(ClientEventTarget(old(nextObject) + 1, targetIsClient)))
    {
      var s := OpenClientScreen();
      var c := OpenClient();
      client := Some(c);
      clientScreen := Some(s);
      ObjectHandlersChange(old(events.handlers), ScreenHandlers(s));
      ObjectHandlersChange(old(events.handlers) + ScreenHandlers(s), ClientHandlers(ClientEventTarget(c, targetIsClient)));
    }

    /**
     * The `catch` blocks of `startClient`: the screen opened in the `try`
     * block, if any, is closed again, and a restart is scheduled exactly when
     * the screen is unavailable for now and the client is restartable.
     */
    method FailToOpen(outcome: OpenOutcome) returns (ok: bool)
      requires Valid() && clientScreen.None? && !outcome.Opened?
      modifies this, events
      ensures Valid()
      ensures args == old(args) && suspended == old(suspended) && serverAddress == old(serverAddress) && leaked == old(leaked)
      ensures ok == OpenErrorResult(outcome.error, Restartable()) &&
              client == None && clientScreen == None && connectRequests == old(connectRequests) &&
              events.State() == After(old(events.State()), OpenErrorReaction(outcome.error, Restartable()))
    {
      // when the screen itself fails to open, `closeClientScreen(nullptr)` does nothing
      if outcome.ClientFails? {
        var s := OpenClientScreen();
        CloseClientScreen(Some(s));
        assert events.handlers == old(events.handlers) by {
          assert ScreenHandlers(s) !! old(events.handlers) by {
            ObjectHandlersChange(old(events.handlers), {});
          }
        }
      }
      if args.base.restartable && outcome.error.Unavailable? {
        ScheduleClientRestart(outcome.error.retryTime);
        return true;
      }
      return false;
    }

    /**
     * `stopClient`: closes the client and the screen and forgets both. What
     * closing removes is the client's handlers on the client object and the
     * screen's handler, so no object handler remains exactly when the
     * client's event target is the client; otherwise the live client's
     * three handlers are leaked. On a stopped client it changes nothing, so
     * stopping twice is stopping once.
     */
    method StopClient()
      requires Valid()
      modifies this, events
      ensures Valid()
      ensures client == None && clientScreen == None
      ensures events.State() ==
              old(events.State()).(handlers := old(events.handlers) - Owned(old(client), old(clientScreen), true))
      ensures leaked == old(leaked) +
              (if targetIsClient || old(client).None? then {} else ClientHandlers(ClientDelegate(old(client).value)))
      ensures ObjectHandlers(events.handlers) == leaked
      ensures targetIsClient ==> ObjectHandlers(events.handlers) == {}
      ensures old(client) == None && old(clientScreen) == None ==> events.State() == old(events.State())
      ensures args == old(args) && suspended == old(suspended) && serverAddress == old(serverAddress)
      ensures nextObject == old(nextObject) && connectRequests == old(connectRequests)
    {
      CloseClient(client);
      CloseClientScreen(clientScreen);
      ghost var cs := if client.Some? then ClientHandlers(ClientTarget(client.value)) else {};
      ghost var ss := if clientScreen.Some? then ScreenHandlers(clientScreen.value) else {};
      ghost var released := Owned(client, clientScreen, true);
      assert old(events.handlers) - cs - ss == old(events.handlers) - released;
      ObjectHandlersChange(old(events.handlers), released);
      ghost var kept := if targetIsClient || client.None? then {} else ClientHandlers(ClientDelegate(client.value));
      if client.Some? {
        CloseMatchesOpen(client.value, targetIsClient);
      }
      assert leaked - released == leaked;
      assert Owned(client, clientScreen, targetIsClient) - released == kept;
      leaked := leaked + kept;
      client := None;
      clientScreen := None;
    }

    /**
     * `startNode`: starts the client, with `startClient`'s three outcomes,
     * and exits with `ExitFailed` when that fails for good.
     */
    method StartNode(outcome: OpenOutcome) returns (bye: Option<ExitCode>)
      requires Valid()
      modifies this, events
      ensures Valid()
      ensures args == old(args) && suspended == old(suspended) && serverAddress == old(serverAddress) && leaked == old(leaked)
      ensures old(clientScreen).Some? ==>
                bye == None && client == old(client) && clientScreen == old(clientScreen) &&
                connectRequests == old(connectRequests) + 1 && events.State() == old(events.State())
      ensures old(clientScreen).None? && outcome.Opened? ==>
                bye == None && clientScreen == Some(old(nextObject)) && client == Some(old(nextObject) + 1) &&
                connectRequests == old(connectRequests) + 1 &&
                events.State() == old(events.State()).(handlers := old(events.handlers) +
                                    ScreenHandlers(old(nextObject)) + ClientHandlers(ClientEventTarget(old(nextObject) + 1, targetIsClient)))
      ensures old(clientScreen).None? && !outcome.Opened? ==>
                (bye == Some(ExitFailed) <==> !OpenErrorResult(outcome.error, old(Restartable()))) &&
                client == None && clientScreen == None && connectRequests == old(connectRequests) &&
                events.State() == After(old(events.State()), OpenErrorReaction(outcome.error, old(Restartable())))
      ensures bye == None || bye == Some(ExitFailed)
    {
      var ok := StartClient(outcome);
      bye := if ok then None else Some(ExitFailed);
    }
  }
}
