/** The supervised M-plane session as a state machine. Its control points are the places where the
    coroutine waits; a step is what the code does from one such place to the next, and takes no time.
    The environment decides how long each wait lasts and how it ends. */
module Supervision {
  import opened Options

  datatype Phase = Disconnected | Connecting | Supervised | Degraded

  datatype Notification = SupervisionNotification | OtherNotification

  /** interval and guard in seconds; their sum is the supervision budget. */
  datatype Config = Config(interval: real, guard: real, pollCap: real, callHome: bool, hasCycleHandlers: bool)
  {
    function Budget(): real {
      interval + guard
    }

    /** What the constructor of the session demands. */
    predicate Valid() {
      0.0 < Budget()
    }

    /** The command session's keepalive period: interval/2, kept under the server's idle reap. */
    function KeepalivePeriod(): real {
      Max(0.05, Min(interval / 2.0, 180.0 - 30.0))
    }
  }

  function Max(a: real, b: real): real {
    if a < b then b else a
  }

  function Min(a: real, b: real): real {
    if b < a then b else a
  }

  datatype Alarm = ConnectionLoss | SupervisionFailure

  /** An O-RU's answer to a watchdog reset: accepted (with the time until its next-update-at, if it says
      one), rejected by an rpc-error, or none at all. */
  datatype Answer = Accepted(nextUpdate: Option<real>) | Rejected | Unanswered

  /** Where the coroutine waits. */
  datatype Wait =
    | LoopHead
    | CommandConnect
    | NotificationConnect
    | HalfPairClose
    | CallHome
    | Subscribe
    | FirstReset
    | CycleHandlers(fed: bool)
    | HandlerReset
    | SecondReset
    | ListenHead
    | Keepalive
    | Poll
    | Take(until: real)
    | RecoveryReset
    | FeedReset
    | Dispatch
    | Teardown
    | Backoff
    | Stopped

  /** What can be observed of a run. */
  datatype Act =
    | Opened(session: nat)
    | Closed(session: nat)
    | CycleStarted
    | AlarmSet(alarm: Alarm)
    | AlarmCleared(alarm: Alarm)
    | ResetAnswered(at: real, accepted: bool)
    | Starved(at: real)
    | Drained(n: Notification)
    | PhaseEntered(phase: Phase)

  /** The acts of a run, the latest outermost. */
  datatype Log = Start | Then(earlier: Log, act: Act)

  datatype State = State(
    wait: Wait,
    phase: Phase,
    supervisedFlag: bool,              // ru_supervised in the shared app state
    command: Option<nat>,
    notification: Option<nat>,
    connectionAlarm: bool,             // the two latches
    supervisionAlarm: bool,
    deadline: real,                    // of the running listen loop
    nextKeepalive: real,
    now: real,
    stopping: bool,
    linkUp: bool,                      // both sessions' transports
    queue: seq<Notification>,          // not yet taken from the notification session
    sessions: nat,                     // ever opened
    log: Log)

  /** What ends a wait. */
  datatype Input =
    | Proceed
    | ConnectOk
    | ConnectFailed
    | CallHomePeer(interleave: bool)
    | Subscribed
    | ResetAnswer(answer: Answer)
    | HandlersStillRunning
    | HandlersDone
    | KeepaliveOk
    | Taken
    | TakeTimedOut
    | Dispatched
    | ClosedDown
    | Woken
    | SessionError                     // an exception the run loop catches
    // not the end of a wait: the world moves
    | Arrival(n: Notification)
    | StopRequested
    | LinkDropped

  datatype Event = Event(at: real, input: Input)

  function Initial(): State {
    State(LoopHead, Disconnected, false, None, None, false, false, 0.0, 0.0, 0.0, false, false, [], 0, Start)
  }

  // ----- Small operations of the session object -----

  function Logged(s: State, act: Act): State {
    s.(log := Then(s.log, act))
  }

  function SetPhase(s: State, phase: Phase): State {
    s.(phase := phase, supervisedFlag := phase == Supervised, log := Then(s.log, PhaseEntered(phase)))
  }

  function FlagConnectionLost(s: State): State {
    if s.connectionAlarm then s else s.(connectionAlarm := true, log := Then(s.log, AlarmSet(ConnectionLoss)))
  }

  function FlagConnectionRestored(s: State): State {
    if s.connectionAlarm then s.(connectionAlarm := false, log := Then(s.log, AlarmCleared(ConnectionLoss))) else s
  }

  function EnterSupervised(s: State): State {
    var t := FlagConnectionRestored(SetPhase(s, Supervised));
    if t.supervisionAlarm then t.(supervisionAlarm := false, log := Then(t.log, AlarmCleared(SupervisionFailure))) else t
  }

  function EnterDegraded(s: State): State {
    if s.phase == Degraded then s
    else
      var t := SetPhase(s, Degraded);
      if t.supervisionAlarm then t else t.(supervisionAlarm := true, log := Then(t.log, AlarmSet(SupervisionFailure)))
  }

  /** Close the held sessions, a shared one once. */
  function CloseSessions(s: State): State {
    var first := if s.command.Some? then Then(s.log, Closed(s.command.value)) else s.log;
    var both := if s.notification.Some? && s.notification != s.command then Then(first, Closed(s.notification.value))
                else first;
    s.(command := None, notification := None, log := both)
  }

  /** The starvation deadline a reset answer yields: the promised next-update-at plus the guard when that
      lies beyond the budget and at most twice as far, else the budget. */
  function DeadlineFrom(cfg: Config, now: real, answer: Answer): real {
    if answer.Accepted? && answer.nextUpdate.Some?
       && cfg.Budget() < answer.nextUpdate.value + cfg.guard <= 2.0 * cfg.Budget()
    then now + (answer.nextUpdate.value + cfg.guard)
    else now + cfg.Budget()
  }

  /** Count an answered reset. */
  function NoteReset(s: State, answer: Answer): State {
    if answer.Unanswered? then s else Logged(s, ResetAnswered(s.now, answer.Accepted?))
  }

  // ----- Larger pieces of the run loop -----

  /** The connect attempt failed. */
  function ConnectionFailed(s: State): State {
    if s.stopping then Finish(s)
    else SetPhase(FlagConnectionLost(s), Disconnected).(wait := Backoff)
  }

  /** The run loop was left. */
  function Finish(s: State): State {
    SetPhase(s, Disconnected).(wait := Stopped)
  }

  /** The try block of a connect cycle was left, by any way. */
  function LeaveCycle(s: State): State {
    SetPhase(s, Disconnected).(wait := Teardown)
  }

  function StartCycle(s: State): State {
    Logged(s, CycleStarted).(wait := Subscribe)
  }

  function StartListening(cfg: Config, s: State, answer: Answer): State {
    s.(wait := ListenHead, deadline := DeadlineFrom(cfg, s.now, answer), nextKeepalive := s.now + cfg.KeepalivePeriod())
  }

  /** The rest of a listen iteration once the keepalive is settled: poll when overdue, else wait. */
  function Await(cfg: Config, s: State): State {
    var remaining := s.deadline - s.now;
    if remaining <= 0.0 then s.(wait := Poll)
    else s.(wait := Take(s.now + Min(remaining, Min(cfg.pollCap, Max(0.01, s.nextKeepalive - s.now)))))
  }

  function ListenIteration(cfg: Config, s: State): State {
    if s.stopping || !s.linkUp then LeaveCycle(s)
    else if s.now >= s.nextKeepalive then s.(wait := Keepalive)
    else Await(cfg, s)
  }

  /** The head of the queue was taken. */
  function HandleNotification(s: State): State
    requires s.queue != []
  {
    var t := Logged(s, Drained(s.queue[0])).(queue := s.queue[1..]);
    if s.queue[0] == SupervisionNotification then t.(wait := FeedReset) else t.(wait := Dispatch)
  }

  /** The states of the listen loop. */
  predicate Listening(w: Wait) {
    w.ListenHead? || w.Keepalive? || w.Poll? || w.Take? || w.RecoveryReset? || w.FeedReset? || w.Dispatch?
  }

  /** The states of a connect cycle in which a caught exception ends the cycle. */
  predicate InCycle(w: Wait) {
    || w.Subscribe? || w.FirstReset? || w.CycleHandlers? || w.HandlerReset? || w.SecondReset? || Listening(w)
  }

  // ----- The step -----

  /** The state after a step, None when the input cannot occur. Time never goes back. */
  function Step(cfg: Config, s: State, e: Event): Option<State> {
    if e.at < s.now then None else Resume(cfg, s.(now := e.at), e.input)
  }

  function Resume(cfg: Config, s: State, input: Input): Option<State> {
    match input
    // the world moves
    case Arrival(n) => if s.notification.Some? then Some(s.(queue := s.queue + [n])) else None
    case StopRequested => Some(s.(stopping := true))
    case LinkDropped => Some(s.(linkUp := false))
    // the coroutine moves
    case SessionError => if InCycle(s.wait) then Some(LeaveCycle(s)) else None
    case Proceed =>
      if s.wait == LoopHead then
        if s.stopping then Some(Finish(s))
        else Some(SetPhase(s, Connecting).(wait := if cfg.callHome then CallHome else CommandConnect))
      else if s.wait == ListenHead then Some(ListenIteration(cfg, s))
      else None
    case ConnectOk =>
      var t := Logged(s, Opened(s.sessions)).(sessions := s.sessions + 1);
      if s.wait == CommandConnect then Some(t.(command := Some(s.sessions), wait := NotificationConnect))
      else if s.wait == NotificationConnect then
        Some(StartCycle(t.(notification := Some(s.sessions), linkUp := true, queue := [])))
      else None
    case ConnectFailed =>
      if s.wait == CommandConnect || s.wait == CallHome then Some(ConnectionFailed(s))
      else if s.wait == NotificationConnect then Some(s.(wait := HalfPairClose))
      else None
    case CallHomePeer(interleave) =>
      if s.wait != CallHome then None
      else
        var t := Logged(s, Opened(s.sessions)).(sessions := s.sessions + 1);
        if interleave then
          Some(StartCycle(t.(command := Some(s.sessions), notification := Some(s.sessions), linkUp := true, queue := [])))
        else Some(ConnectionFailed(Logged(t, Closed(s.sessions))))
    case Subscribed =>
      if s.wait == Subscribe then Some(FlagConnectionRestored(s).(wait := FirstReset)) else None
    case ResetAnswer(answer) => ResumeReset(cfg, s, answer)
    case HandlersStillRunning =>
      if s.wait.CycleHandlers? then Some(if s.wait.fed then s.(wait := HandlerReset) else s) else None
    case HandlersDone =>
      if s.wait.CycleHandlers? then Some(if s.wait.fed then s.(wait := SecondReset) else LeaveCycle(s)) else None
    case KeepaliveOk =>
      if s.wait == Keepalive then Some(Await(cfg, s.(nextKeepalive := s.now + cfg.KeepalivePeriod()))) else None
    case Taken =>
      if s.wait == Poll then
        if s.queue == [] then Some(EnterDegraded(Logged(s, Starved(s.now))).(wait := RecoveryReset))
        else Some(HandleNotification(s))
      else if s.wait.Take? && s.queue != [] then Some(HandleNotification(s))
      else None
    case TakeTimedOut =>
      if s.wait.Take? && s.queue == [] && s.wait.until <= s.now then Some(s.(wait := ListenHead)) else None
    case Dispatched => if s.wait == Dispatch then Some(s.(wait := ListenHead)) else None
    case ClosedDown =>
      if s.wait == HalfPairClose then Some(ConnectionFailed(CloseSessions(s)))
      else if s.wait == Teardown then
        var t := CloseSessions(s);
        if s.stopping then Some(Finish(t)) else Some(FlagConnectionLost(t).(wait := Backoff))
      else None
    case Woken => if s.wait == Backoff then Some(s.(wait := LoopHead)) else None
  }

  /** A watchdog reset came back. */
  function ResumeReset(cfg: Config, s: State, answer: Answer): Option<State> {
    var t := NoteReset(s, answer);
    if s.wait == FirstReset then
      if answer.Unanswered? then Some(LeaveCycle(t))
      else
        var u := if answer.Accepted? then EnterSupervised(t) else t;
        Some(if cfg.hasCycleHandlers then u.(wait := CycleHandlers(true)) else StartListening(cfg, u, answer))
    else if s.wait == HandlerReset then
      Some(t.(wait := CycleHandlers(!answer.Unanswered?)))
    else if s.wait == SecondReset then
      Some(if answer.Unanswered? then LeaveCycle(t) else StartListening(cfg, t, answer))
    else if s.wait == RecoveryReset then
      Some(if answer.Unanswered? then LeaveCycle(t)
           else t.(wait := ListenHead, deadline := DeadlineFrom(cfg, t.now, answer)))
    else if s.wait == FeedReset then
      if answer.Unanswered? then Some(LeaveCycle(t))
      else
        var u := t.(wait := ListenHead, deadline := DeadlineFrom(cfg, t.now, answer));
        Some(if answer.Accepted? then EnterSupervised(u) else u)
    else None
  }

  // ----- Runs -----

  function Run(cfg: Config, s: State, events: seq<Event>): Option<State> {
    if events == [] then Some(s)
    else
      var earlier := Run(cfg, s, events[..|events| - 1]);
      if earlier.None? then None else Step(cfg, earlier.value, events[|events| - 1])
  }

  ghost predicate Reachable(cfg: Config, s: State) {
    exists events :: Run(cfg, Initial(), events) == Some(s)
  }
}
