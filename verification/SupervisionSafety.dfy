/** What holds in every reachable state of the supervised session, told from the log of observable acts
    by an observer that knows nothing of the session's own bookkeeping. */
module SupervisionSafety {
  import opened Options
  import opened Supervision

  // ----- The observer -----

  /** What an observer of the acts concludes. */
  datatype Seen = Seen(
    lossRaised: bool,            // the connection alarm was last set, not cleared
    failureRaised: bool,         // likewise the supervision alarm
    starvedSince: bool,          // a starvation later than any entry into SUPERVISED
    alternating: bool,           // no alarm set while raised or cleared while not
    open: set<nat>,              // sessions opened, not closed
    everOpened: nat,
    managed: bool,               // every session opened once, closed at most once and only while open
    acceptedSince: bool,         // this cycle saw an accepted reset later than any starvation in it
    lastAnswer: Option<real>,    // when a reset was last answered, accepted or not
    patient: bool)               // no starvation sooner than one budget after the last answered reset

  function Nothing(): Seen {
    Seen(false, false, false, true, {}, 0, true, false, None, true)
  }

  function Observe(v: Seen, act: Act, budget: real): Seen {
    match act
    case Opened(id) => v.(open := v.open + {id}, everOpened := v.everOpened + 1, managed := v.managed && id == v.everOpened)
    case Closed(id) => v.(open := v.open - {id}, managed := v.managed && id in v.open)
    case CycleStarted => v.(acceptedSince := false)
    case AlarmSet(ConnectionLoss) => v.(lossRaised := true, alternating := v.alternating && !v.lossRaised)
    case AlarmSet(SupervisionFailure) => v.(failureRaised := true, alternating := v.alternating && !v.failureRaised)
    case AlarmCleared(ConnectionLoss) => v.(lossRaised := false, alternating := v.alternating && v.lossRaised)
    case AlarmCleared(SupervisionFailure) => v.(failureRaised := false, alternating := v.alternating && v.failureRaised)
    case ResetAnswered(at, accepted) => v.(acceptedSince := v.acceptedSince || accepted, lastAnswer := Some(at))
    case Starved(at) =>
      v.(acceptedSince := false, starvedSince := true,
      patient := v.patient && v.lastAnswer.Some? && v.lastAnswer.value + budget <= at)
    case Drained(_) => v
    case PhaseEntered(phase) => if phase == Supervised then v.(starvedSince := false) else v
  }

  function SeenIn(log: Log, budget: real): Seen {
    match log
    case Start => Nothing()
    case Then(earlier, act) => Observe(SeenIn(earlier, budget), act, budget)
  }

  // ----- The invariant -----

  /** Both sessions held and subscribed: the cycle from the first watchdog reset on. */
  predicate UpAndSubscribed(w: Wait) {
    InCycle(w) && !w.Subscribe?
  }

  predicate BetweenCycles(w: Wait) {
    w.LoopHead? || w.Backoff? || w.Stopped?
  }

  predicate HalfConnected(w: Wait) {
    w.NotificationConnect? || w.HalfPairClose?
  }

  function HeldSessions(s: State): set<nat> {
    (if s.command.Some? then {s.command.value} else {}) + (if s.notification.Some? then {s.notification.value} else {})
  }

  /** Which handles are held where: none between cycles, both during one. */
  ghost predicate Handles(cfg: Config, s: State) {
    && (BetweenCycles(s.wait) || s.wait.CommandConnect? || s.wait.CallHome? ==> s.command == None == s.notification)
    && (HalfConnected(s.wait) ==> s.command.Some? && s.notification.None?)
    && (InCycle(s.wait) || s.wait.Teardown? ==>
          s.command.Some? && s.notification.Some? && (s.command == s.notification <==> cfg.callHome))
    && (s.wait.CommandConnect? || HalfConnected(s.wait) ==> !cfg.callHome)
    && (s.wait.CallHome? ==> cfg.callHome)
  }

  /** What each phase implies. */
  ghost predicate Phases(cfg: Config, s: State, v: Seen) {
    && (s.supervisedFlag <==> s.phase == Supervised)
    && (BetweenCycles(s.wait) || s.wait.Teardown? ==> s.phase == Disconnected)
    && (s.wait.Backoff? ==> s.connectionAlarm)
    && (s.wait.Stopped? ==> s.stopping)
    && (s.wait.CommandConnect? || HalfConnected(s.wait) || s.wait.CallHome? || s.wait.Subscribe? ==> s.phase == Connecting)
    && (UpAndSubscribed(s.wait) ==> s.phase != Disconnected && !s.connectionAlarm)
    && (s.phase == Supervised ==> UpAndSubscribed(s.wait) && !s.supervisionAlarm && v.acceptedSince)
    && (s.phase == Degraded ==> Listening(s.wait) && s.supervisionAlarm)
  }

  /** The starvation deadline lies between one and two budgets after the reset it was computed from. */
  ghost predicate Deadlines(cfg: Config, s: State, v: Seen) {
    && (v.lastAnswer.Some? ==> v.lastAnswer.value <= s.now)
    && (Listening(s.wait) ==>
          && v.lastAnswer.Some?
          && v.lastAnswer.value + cfg.Budget() <= s.deadline <= v.lastAnswer.value + 2.0 * cfg.Budget())
    && (s.wait.Poll? ==> s.deadline <= s.now)
    && (s.wait.Take? ==> s.wait.until <= s.deadline && s.wait.until <= s.nextKeepalive + 0.01)
  }

  /** The latches and the handles agree with what the observer saw, and it saw no misstep. */
  ghost predicate Books(s: State, v: Seen) {
    Ledger(s, v) && (v.failureRaised <==> v.starvedSince)
  }

  ghost predicate Ledger(s: State, v: Seen) {
    && v.open == HeldSessions(s) && v.everOpened == s.sessions && (forall id :: id in v.open ==> id < v.everOpened)
    && (v.lossRaised <==> s.connectionAlarm) && (v.failureRaised <==> s.supervisionAlarm)
    && v.alternating && v.managed && v.patient
  }

  ghost predicate Invariant(cfg: Config, s: State) {
    var v := SeenIn(s.log, cfg.Budget());
    Handles(cfg, s) && Phases(cfg, s, v) && Deadlines(cfg, s, v) && Books(s, v)
  }

  // ----- What each operation of the session shows to the observer -----

  /** t is s with nothing changed but the log, and the books still in order. */
  ghost predicate Kept(s: State, t: State, budget: real) {
    var v, w := SeenIn(s.log, budget), SeenIn(t.log, budget);
    && t.(log := Start) == s.(log := Start)
    && Books(t, w) && w.acceptedSince == v.acceptedSince && w.lastAnswer == v.lastAnswer
  }

  lemma SetPhaseKept(s: State, phase: Phase, budget: real)
    requires Books(s, SeenIn(s.log, budget)) && phase != Supervised
    ensures Kept(s.(phase := phase, supervisedFlag := phase == Supervised), SetPhase(s, phase), budget)
  {
  }

  lemma ConnectionLostKept(s: State, budget: real)
    requires Books(s, SeenIn(s.log, budget))
    ensures Books(FlagConnectionLost(s), SeenIn(FlagConnectionLost(s).log, budget))
    ensures SeenIn(FlagConnectionLost(s).log, budget).lastAnswer == SeenIn(s.log, budget).lastAnswer
    ensures FlagConnectionLost(s).(log := Start) == s.(connectionAlarm := true, log := Start)
  {
  }

  lemma ConnectionRestoredKept(s: State, budget: real)
    requires Books(s, SeenIn(s.log, budget))
    ensures var t := FlagConnectionRestored(s);
            && Books(t, SeenIn(t.log, budget))
            && SeenIn(t.log, budget).acceptedSince == SeenIn(s.log, budget).acceptedSince
            && SeenIn(t.log, budget).lastAnswer == SeenIn(s.log, budget).lastAnswer
            && t.(log := Start) == s.(connectionAlarm := false, log := Start)
  {
  }

  lemma EnterSupervisedKept(s: State, budget: real)
    requires Books(s, SeenIn(s.log, budget))
    ensures var t := EnterSupervised(s);
            && Books(t, SeenIn(t.log, budget))
            && SeenIn(t.log, budget).acceptedSince == SeenIn(s.log, budget).acceptedSince
            && SeenIn(t.log, budget).lastAnswer == SeenIn(s.log, budget).lastAnswer
            && t.(log := Start) == s.(phase := Supervised, supervisedFlag := true, connectionAlarm := false,
                                supervisionAlarm := false, log := Start)
  {
    var v, restored := SeenIn(s.log, budget), FlagConnectionRestored(SetPhase(s, Supervised));
    assert SeenIn(SetPhase(s, Supervised).log, budget) == v.(starvedSince := false);
    assert Ledger(restored, SeenIn(restored.log, budget)) && SeenIn(restored.log, budget).failureRaised == v.failureRaised;
  }

  lemma EnterDegradedKept(s: State, budget: real)
    requires Ledger(s, SeenIn(s.log, budget)) && SeenIn(s.log, budget).starvedSince
    requires s.phase == Degraded ==> s.supervisionAlarm && !s.supervisedFlag
    ensures var t := EnterDegraded(s);
            && Books(t, SeenIn(t.log, budget))
            && SeenIn(t.log, budget).lastAnswer == SeenIn(s.log, budget).lastAnswer
            && t.(log := Start) == s.(phase := Degraded, supervisedFlag := false, supervisionAlarm := true, log := Start)
  {
    if s.phase != Degraded {
      assert SeenIn(SetPhase(s, Degraded).log, budget) == SeenIn(s.log, budget);
    }
  }

  lemma CloseOne(log: Log, id: nat, budget: real)
    requires id in SeenIn(log, budget).open
    ensures var v := SeenIn(log, budget); SeenIn(Then(log, Closed(id)), budget) == v.(open := v.open - {id})
  {
  }

  /** Closing the held sessions closes each of them once, a shared one included. */
  lemma CloseSessionsSeen(s: State, budget: real)
    requires Books(s, SeenIn(s.log, budget))
    ensures SeenIn(CloseSessions(s).log, budget) == SeenIn(s.log, budget).(open := {})
  {
    var v := SeenIn(s.log, budget);
    assert v.open == HeldSessions(s);
    if s.command.None? {
      if s.notification.Some? {
        CloseOne(s.log, s.notification.value, budget);
        assert v.open - {s.notification.value} == {};
      }
    } else {
      CloseOne(s.log, s.command.value, budget);
      if s.notification.None? || s.notification == s.command {
        assert v.open - {s.command.value} == {};
      } else {
        CloseOne(Then(s.log, Closed(s.command.value)), s.notification.value, budget);
        assert v.open - {s.command.value} - {s.notification.value} == {};
      }
    }
  }

  lemma CloseSessionsKept(s: State, budget: real)
    requires Books(s, SeenIn(s.log, budget))
    ensures var t := CloseSessions(s);
            && SeenIn(t.log, budget).lastAnswer == SeenIn(s.log, budget).lastAnswer
            && Books(t, SeenIn(t.log, budget))
            && t.(log := Start) == s.(command := None, notification := None, log := Start)
  {
    CloseSessionsSeen(s, budget);
  }

  lemma OpenedSeen(s: State, budget: real)
    requires Books(s, SeenIn(s.log, budget))
    ensures var v, t := SeenIn(s.log, budget), Logged(s, Opened(s.sessions)).(sessions := s.sessions + 1);
            SeenIn(t.log, budget) == v.(open := v.open + {s.sessions}, everOpened := v.everOpened + 1)
  {
  }

  lemma NoteResetKept(s: State, answer: Answer, budget: real)
    requires Books(s, SeenIn(s.log, budget))
    ensures var v, t := SeenIn(s.log, budget), NoteReset(s, answer);
            && Books(t, SeenIn(t.log, budget))
            && t.(log := Start) == s.(log := Start)
            && SeenIn(t.log, budget).acceptedSince == (v.acceptedSince || answer.Accepted?)
            && SeenIn(t.log, budget).lastAnswer == if answer.Unanswered? then v.lastAnswer else Some(s.now)
  {
  }

  // ----- The larger pieces -----

  lemma FinishKeeps(cfg: Config, s: State)
    requires cfg.Valid() && s.stopping && s.command == None == s.notification
    requires Books(s, SeenIn(s.log, cfg.Budget()))
    requires SeenIn(s.log, cfg.Budget()).lastAnswer.Some? ==> SeenIn(s.log, cfg.Budget()).lastAnswer.value <= s.now
    ensures Invariant(cfg, Finish(s))
  {
    SetPhaseKept(s, Disconnected, cfg.Budget());
  }

  lemma ConnectionFailedKeeps(cfg: Config, s: State)
    requires cfg.Valid() && s.command == None == s.notification
    requires Books(s, SeenIn(s.log, cfg.Budget()))
    requires SeenIn(s.log, cfg.Budget()).lastAnswer.Some? ==> SeenIn(s.log, cfg.Budget()).lastAnswer.value <= s.now
    ensures Invariant(cfg, ConnectionFailed(s))
  {
    if s.stopping {
      FinishKeeps(cfg, s);
    } else {
      ConnectionLostKept(s, cfg.Budget());
      SetPhaseKept(FlagConnectionLost(s), Disconnected, cfg.Budget());
    }
  }

  /** Any way out of a cycle keeps the invariant. */
  lemma LeaveCycleKeeps(cfg: Config, s: State)
    requires cfg.Valid() && InCycle(s.wait) && Handles(cfg, s)
    requires Books(s, SeenIn(s.log, cfg.Budget()))
    requires SeenIn(s.log, cfg.Budget()).lastAnswer.Some? ==> SeenIn(s.log, cfg.Budget()).lastAnswer.value <= s.now
    ensures Invariant(cfg, LeaveCycle(s))
  {
    SetPhaseKept(s, Disconnected, cfg.Budget());
  }

  lemma StartCycleKeeps(cfg: Config, s: State)
    requires cfg.Valid() && s.phase == Connecting && !s.supervisedFlag
    requires s.command.Some? && s.notification.Some? && (s.command == s.notification <==> cfg.callHome)
    requires Books(s, SeenIn(s.log, cfg.Budget()))
    requires SeenIn(s.log, cfg.Budget()).lastAnswer.Some? ==> SeenIn(s.log, cfg.Budget()).lastAnswer.value <= s.now
    ensures Invariant(cfg, StartCycle(s))
  {
  }

  lemma AwaitKeeps(cfg: Config, s: State)
    requires cfg.Valid() && Invariant(cfg, s) && (s.wait.ListenHead? || s.wait.Keepalive?) && s.now < s.nextKeepalive
    ensures Invariant(cfg, Await(cfg, s))
  {
  }

  // ----- The steps -----

  /** An accepted reset that enters SUPERVISED, and where the session goes from there. */
  lemma SupervisedKeeps(cfg: Config, s: State)
    requires cfg.Valid() && UpAndSubscribed(s.wait) && Handles(cfg, s)
    requires var v := SeenIn(s.log, cfg.Budget()); Books(s, v) && Deadlines(cfg, s, v) && v.acceptedSince
    ensures Invariant(cfg, EnterSupervised(s))
  {
    EnterSupervisedKept(s, cfg.Budget());
  }

  /** Entering the listen loop with the budget of a reset answered just now. */
  lemma StartListeningKeeps(cfg: Config, s: State, answer: Answer)
    requires cfg.Valid() && Invariant(cfg, s) && UpAndSubscribed(s.wait)
    requires SeenIn(s.log, cfg.Budget()).lastAnswer == Some(s.now)
    ensures Invariant(cfg, StartListening(cfg, s, answer))
  {
  }

  lemma FirstResetAnsweredKeeps(cfg: Config, s: State, answer: Answer)
    requires cfg.Valid() && Invariant(cfg, s) && s.wait.FirstReset? && !answer.Unanswered?
    ensures var t := NoteReset(s, answer);
            var u := if answer.Accepted? then EnterSupervised(t) else t;
            Invariant(cfg, u) && u.wait.FirstReset? && u.now == s.now && SeenIn(u.log, cfg.Budget()).lastAnswer == Some(s.now)
  {
    var t := NoteReset(s, answer);
    NoteResetKept(s, answer, cfg.Budget());
    if answer.Accepted? {
      SupervisedKeeps(cfg, t);
      EnterSupervisedKept(t, cfg.Budget());
    }
  }

  lemma FirstResetKeeps(cfg: Config, s: State, answer: Answer)
    requires cfg.Valid() && Invariant(cfg, s) && s.wait.FirstReset?
    ensures Invariant(cfg, ResumeReset(cfg, s, answer).value)
  {
    var t := NoteReset(s, answer);
    if answer.Unanswered? {
      assert t == s;
      LeaveCycleKeeps(cfg, s);
    } else {
      FirstResetAnsweredKeeps(cfg, s, answer);
      var u := if answer.Accepted? then EnterSupervised(t) else t;
      if !cfg.hasCycleHandlers {
        StartListeningKeeps(cfg, u, answer);
      }
    }
  }

  lemma HandlerResetKeeps(cfg: Config, s: State, answer: Answer)
    requires cfg.Valid() && Invariant(cfg, s) && (s.wait.HandlerReset? || s.wait.SecondReset?)
    ensures Invariant(cfg, ResumeReset(cfg, s, answer).value)
  {
    NoteResetKept(s, answer, cfg.Budget());
    if answer.Unanswered? && s.wait.SecondReset? {
      LeaveCycleKeeps(cfg, NoteReset(s, answer));
    }
  }

  lemma RecoveryResetKeeps(cfg: Config, s: State, answer: Answer)
    requires cfg.Valid() && Invariant(cfg, s) && s.wait.RecoveryReset?
    ensures Invariant(cfg, ResumeReset(cfg, s, answer).value)
  {
    NoteResetKept(s, answer, cfg.Budget());
    if answer.Unanswered? {
      LeaveCycleKeeps(cfg, NoteReset(s, answer));
    }
  }

  lemma FeedResetAnsweredKeeps(cfg: Config, s: State, answer: Answer)
    requires cfg.Valid() && Invariant(cfg, s) && s.wait.FeedReset? && !answer.Unanswered?
    ensures var t := NoteReset(s, answer);
            var u := t.(wait := ListenHead, deadline := DeadlineFrom(cfg, t.now, answer));
            Invariant(cfg, u) && (answer.Accepted? ==> SeenIn(u.log, cfg.Budget()).acceptedSince)
  {
    NoteResetKept(s, answer, cfg.Budget());
  }

  lemma FeedResetKeeps(cfg: Config, s: State, answer: Answer)
    requires cfg.Valid() && Invariant(cfg, s) && s.wait.FeedReset?
    ensures Invariant(cfg, ResumeReset(cfg, s, answer).value)
  {
    var t := NoteReset(s, answer);
    if answer.Unanswered? {
      LeaveCycleKeeps(cfg, t);
    } else {
      FeedResetAnsweredKeeps(cfg, s, answer);
      if answer.Accepted? {
        SupervisedKeeps(cfg, t.(wait := ListenHead, deadline := DeadlineFrom(cfg, t.now, answer)));
      }
    }
  }

  lemma ResetAnswerKeepsInvariant(cfg: Config, s: State, answer: Answer)
    requires cfg.Valid() && Invariant(cfg, s)
    ensures var t := ResumeReset(cfg, s, answer); t.Some? ==> Invariant(cfg, t.value)
  {
    match s.wait
    case FirstReset => FirstResetKeeps(cfg, s, answer);
    case HandlerReset => HandlerResetKeeps(cfg, s, answer);
    case SecondReset => HandlerResetKeeps(cfg, s, answer);
    case RecoveryReset => RecoveryResetKeeps(cfg, s, answer);
    case FeedReset => FeedResetKeeps(cfg, s, answer);
    case _ =>
  }

  lemma SessionErrorKeepsInvariant(cfg: Config, s: State)
    requires cfg.Valid() && Invariant(cfg, s)
    ensures var t := Resume(cfg, s, SessionError); t.Some? ==> Invariant(cfg, t.value)
  {
    if InCycle(s.wait) {
      LeaveCycleKeeps(cfg, s);
    }
  }

  lemma ProceedKeepsInvariant(cfg: Config, s: State)
    requires cfg.Valid() && Invariant(cfg, s)
    ensures var t := Resume(cfg, s, Proceed); t.Some? ==> Invariant(cfg, t.value)
  {
    if s.wait.LoopHead? {
      if s.stopping {
        FinishKeeps(cfg, s);
      } else {
        SetPhaseKept(s, Connecting, cfg.Budget());
      }
    } else if s.wait.ListenHead? {
      if s.stopping || !s.linkUp {
        LeaveCycleKeeps(cfg, s);
      } else if s.now < s.nextKeepalive {
        AwaitKeeps(cfg, s);
      }
    }
  }

  lemma ConnectOkKeepsInvariant(cfg: Config, s: State)
    requires cfg.Valid() && Invariant(cfg, s)
    ensures var t := Resume(cfg, s, ConnectOk); t.Some? ==> Invariant(cfg, t.value)
  {
    if s.wait.CommandConnect? {
      CommandConnectedKeeps(cfg, s);
    } else if s.wait.NotificationConnect? {
      NotificationConnectedKeeps(cfg, s);
    }
  }

  lemma CommandConnectedKeeps(cfg: Config, s: State)
    requires cfg.Valid() && Invariant(cfg, s) && s.wait.CommandConnect?
    ensures var t := Logged(s, Opened(s.sessions)).(sessions := s.sessions + 1);
            Invariant(cfg, t.(command := Some(s.sessions), wait := NotificationConnect))
  {
    OpenedSeen(s, cfg.Budget());
  }

  lemma NotificationConnectedKeeps(cfg: Config, s: State)
    requires cfg.Valid() && Invariant(cfg, s) && s.wait.NotificationConnect?
    ensures var t := Logged(s, Opened(s.sessions)).(sessions := s.sessions + 1);
            Invariant(cfg, StartCycle(t.(notification := Some(s.sessions), linkUp := true, queue := [])))
  {
    OpenedSeen(s, cfg.Budget());
    var t := Logged(s, Opened(s.sessions)).(sessions := s.sessions + 1);
    StartCycleKeeps(cfg, t.(notification := Some(s.sessions), linkUp := true, queue := []));
  }

  lemma ConnectFailedKeepsInvariant(cfg: Config, s: State)
    requires cfg.Valid() && Invariant(cfg, s)
    ensures var t := Resume(cfg, s, ConnectFailed); t.Some? ==> Invariant(cfg, t.value)
  {
    if s.wait.CommandConnect? || s.wait.CallHome? {
      ConnectionFailedKeeps(cfg, s);
    }
  }

  lemma CallHomePeerKeepsInvariant(cfg: Config, s: State, interleave: bool)
    requires cfg.Valid() && Invariant(cfg, s)
    ensures var t := Resume(cfg, s, CallHomePeer(interleave)); t.Some? ==> Invariant(cfg, t.value)
  {
    if s.wait.CallHome? {
      OpenedSeen(s, cfg.Budget());
      var t := Logged(s, Opened(s.sessions)).(sessions := s.sessions + 1);
      if interleave {
        StartCycleKeeps(cfg, t.(command := Some(s.sessions), notification := Some(s.sessions), linkUp := true, queue := []));
      } else {
        ConnectionFailedKeeps(cfg, Logged(t, Closed(s.sessions)));
      }
    }
  }

  lemma SubscribedKeepsInvariant(cfg: Config, s: State)
    requires cfg.Valid() && Invariant(cfg, s)
    ensures var t := Resume(cfg, s, Subscribed); t.Some? ==> Invariant(cfg, t.value)
  {
    ConnectionRestoredKept(s, cfg.Budget());
  }

  lemma HandlersDoneKeepsInvariant(cfg: Config, s: State)
    requires cfg.Valid() && Invariant(cfg, s)
    ensures var t := Resume(cfg, s, HandlersDone); t.Some? ==> Invariant(cfg, t.value)
  {
    if s.wait.CycleHandlers? {
      LeaveCycleKeeps(cfg, s);
    }
  }

  lemma LaterKeepaliveKeeps(cfg: Config, s: State, due: real)
    requires Invariant(cfg, s) && s.wait.Keepalive?
    ensures Invariant(cfg, s.(nextKeepalive := due))
  {
    assert s.(nextKeepalive := due).log == s.log;
  }

  lemma AwaitAfterKeepaliveKeeps(cfg: Config, s: State, due: real)
    requires cfg.Valid() && Invariant(cfg, s) && s.wait.Keepalive? && s.now < due
    ensures Invariant(cfg, Await(cfg, s.(nextKeepalive := due)))
  {
    LaterKeepaliveKeeps(cfg, s, due);
    AwaitKeeps(cfg, s.(nextKeepalive := due));
  }

  lemma KeepaliveOkKeepsInvariant(cfg: Config, s: State)
    requires cfg.Valid() && Invariant(cfg, s)
    ensures var t := Resume(cfg, s, KeepaliveOk); t.Some? ==> Invariant(cfg, t.value)
  {
    if s.wait.Keepalive? {
      AwaitAfterKeepaliveKeeps(cfg, s, s.now + cfg.KeepalivePeriod());
    }
  }

  lemma StarvationKeeps(cfg: Config, s: State)
    requires cfg.Valid() && Invariant(cfg, s) && s.wait.Poll?
    ensures Invariant(cfg, EnterDegraded(Logged(s, Starved(s.now))).(wait := RecoveryReset))
  {
    EnterDegradedKept(Logged(s, Starved(s.now)), cfg.Budget());
  }

  lemma DrainedUnseen(log: Log, n: Notification, budget: real)
    ensures SeenIn(Then(log, Drained(n)), budget) == SeenIn(log, budget)
  {
  }

  lemma HandleNotificationKeeps(cfg: Config, s: State)
    requires cfg.Valid() && Invariant(cfg, s) && (s.wait.Poll? || s.wait.Take?) && s.queue != []
    ensures Invariant(cfg, HandleNotification(s))
  {
    var t, v := HandleNotification(s), SeenIn(s.log, cfg.Budget());
    DrainedUnseen(s.log, s.queue[0], cfg.Budget());
    HandleNotificationFrame(s);
    assert Books(t, v);
    assert Handles(cfg, t) && Phases(cfg, t, v);
    assert Deadlines(cfg, t, v);
  }

  lemma HandleNotificationFrame(s: State)
    requires s.queue != []
    ensures var t := HandleNotification(s);
            && t.(wait := s.wait, queue := s.queue, log := s.log) == s
            && t.log == Then(s.log, Drained(s.queue[0]))
            && t.wait == if s.queue[0] == SupervisionNotification then FeedReset else Dispatch
  {
  }

  lemma TakenKeepsInvariant(cfg: Config, s: State)
    requires cfg.Valid() && Invariant(cfg, s)
    ensures var t := Resume(cfg, s, Taken); t.Some? ==> Invariant(cfg, t.value)
  {
    if s.wait.Poll? && s.queue == [] {
      StarvationKeeps(cfg, s);
    } else if (s.wait.Poll? || s.wait.Take?) && s.queue != [] {
      HandleNotificationKeeps(cfg, s);
    }
  }

  lemma TeardownKeeps(cfg: Config, s: State)
    requires cfg.Valid() && Invariant(cfg, s) && s.wait.Teardown? && !s.stopping
    ensures Invariant(cfg, FlagConnectionLost(CloseSessions(s)).(wait := Backoff))
  {
    CloseSessionsKept(s, cfg.Budget());
    ConnectionLostKept(CloseSessions(s), cfg.Budget());
  }

  lemma ClosedDownKeepsInvariant(cfg: Config, s: State)
    requires cfg.Valid() && Invariant(cfg, s)
    ensures var t := Resume(cfg, s, ClosedDown); t.Some? ==> Invariant(cfg, t.value)
  {
    if s.wait.HalfPairClose? {
      CloseSessionsKept(s, cfg.Budget());
      ConnectionFailedKeeps(cfg, CloseSessions(s));
    } else if s.wait.Teardown? {
      if s.stopping {
        CloseSessionsKept(s, cfg.Budget());
        FinishKeeps(cfg, CloseSessions(s));
      } else {
        TeardownKeeps(cfg, s);
      }
    }
  }

  /** What arrives, a stop request and a dropped link change nothing the invariant speaks of. */
  lemma WorldKeepsInvariant(cfg: Config, s: State, input: Input)
    requires Invariant(cfg, s) && (input.Arrival? || input.StopRequested? || input.LinkDropped?)
    ensures var t := Resume(cfg, s, input); t.Some? ==> Invariant(cfg, t.value)
  {
    var t := Resume(cfg, s, input);
    if t.Some? {
      assert t.value.log == s.log;
    }
  }

  /** Waits that end without any act, outside the listen loop and in it. */
  lemma QuietWaitKeepsInvariant(cfg: Config, s: State, input: Input)
    requires Invariant(cfg, s) && (input.HandlersStillRunning? || input.Woken?)
    ensures var t := Resume(cfg, s, input); t.Some? ==> Invariant(cfg, t.value)
  {
  }

  lemma QuietListenKeepsInvariant(cfg: Config, s: State, input: Input)
    requires Invariant(cfg, s) && (input.TakeTimedOut? || input.Dispatched?)
    ensures var t := Resume(cfg, s, input); t.Some? ==> Invariant(cfg, t.value)
  {
  }

  lemma StepKeepsInvariant(cfg: Config, s: State, e: Event)
    requires cfg.Valid() && Invariant(cfg, s)
    ensures var t := Step(cfg, s, e); t.Some? ==> Invariant(cfg, t.value)
  {
    if s.now <= e.at {
      var t := s.(now := e.at);
      assert Invariant(cfg, t);
      match e.input
      case ResetAnswer(answer) => ResetAnswerKeepsInvariant(cfg, t, answer);
      case SessionError => SessionErrorKeepsInvariant(cfg, t);
      case Proceed => ProceedKeepsInvariant(cfg, t);
      case ConnectOk => ConnectOkKeepsInvariant(cfg, t);
      case ConnectFailed => ConnectFailedKeepsInvariant(cfg, t);
      case CallHomePeer(interleave) => CallHomePeerKeepsInvariant(cfg, t, interleave);
      case Subscribed => SubscribedKeepsInvariant(cfg, t);
      case HandlersDone => HandlersDoneKeepsInvariant(cfg, t);
      case KeepaliveOk => KeepaliveOkKeepsInvariant(cfg, t);
      case Taken => TakenKeepsInvariant(cfg, t);
      case ClosedDown => ClosedDownKeepsInvariant(cfg, t);
      case HandlersStillRunning => QuietWaitKeepsInvariant(cfg, t, e.input);
      case Woken => QuietWaitKeepsInvariant(cfg, t, e.input);
      case TakeTimedOut => QuietListenKeepsInvariant(cfg, t, e.input);
      case Dispatched => QuietListenKeepsInvariant(cfg, t, e.input);
      case _ => WorldKeepsInvariant(cfg, t, e.input);
    }
  }

  lemma {:induction false} RunsKeepInvariant(cfg: Config, events: seq<Event>)
    requires cfg.Valid()
    ensures var t := Run(cfg, Initial(), events); t.Some? ==> Invariant(cfg, t.value)
  {
    if events == [] {
    } else {
      RunsKeepInvariant(cfg, events[..|events| - 1]);
      var earlier := Run(cfg, Initial(), events[..|events| - 1]);
      if earlier.Some? {
        StepKeepsInvariant(cfg, earlier.value, events[|events| - 1]);
      }
    }
  }

  // ----- Main results -----

  /** Every reachable state, whatever the O-RU and the network do. */
  lemma ReachableStatesAreSafe(cfg: Config, s: State)
    requires cfg.Valid() && Reachable(cfg, s)
    ensures s.supervisedFlag <==> s.phase == Supervised
    ensures var v := SeenIn(s.log, cfg.Budget());
            && (s.phase == Supervised ==>
                  s.command.Some? && s.notification.Some? && UpAndSubscribed(s.wait)
                  && !v.lossRaised && !v.failureRaised && v.acceptedSince)
            && (s.phase == Degraded ==> Listening(s.wait) && v.failureRaised && !v.lossRaised)
            && (BetweenCycles(s.wait) ==> s.command == None == s.notification && v.open == {})
            && (s.wait.Backoff? ==> v.lossRaised)
            && (s.wait.Stopped? ==> s.stopping)
            && (v.failureRaised <==> v.starvedSince)
            && v.alternating && v.managed && v.patient
    ensures Listening(s.wait) ==>
              exists answered: real :: SeenIn(s.log, cfg.Budget()).lastAnswer == Some(answered)
                                       && answered + cfg.Budget() <= s.deadline <= answered + 2.0 * cfg.Budget()
    ensures s.wait.Take? ==> s.wait.until <= s.deadline && s.wait.until <= s.nextKeepalive + 0.01
  {
    var events :| Run(cfg, Initial(), events) == Some(s);
    RunsKeepInvariant(cfg, events);
    if Listening(s.wait) {
      var answered := SeenIn(s.log, cfg.Budget()).lastAnswer.value;
      assert answered + cfg.Budget() <= s.deadline;
    }
  }

  // ----- What a step can do to the phase and the deadline -----

  /** Outside the reset answers a step leaves the deadline alone, and a subscribed session's phase too,
      unless it starves or leaves the cycle; it feeds only when a supervision-notification was taken. */
  ghost predicate Undisturbed(s: State, t: State) {
    && t.deadline == s.deadline
    && (UpAndSubscribed(s.wait) ==> t.phase == s.phase || (t.phase == Disconnected && t.wait.Teardown?))
    && (t.wait.FeedReset? ==> (s.wait.FeedReset? && t.log == s.log) || (t.log.Then? && t.log.act == Drained(SupervisionNotification)))
  }

  lemma ConnectInputsUndisturbed(cfg: Config, s: State, input: Input)
    requires input.ConnectOk? || input.ConnectFailed? || input.CallHomePeer? || input.Subscribed?
    ensures var t := Resume(cfg, s, input); t.Some? ==> Undisturbed(s, t.value)
  {
  }

  lemma CloseSessionsFrame(s: State)
    ensures CloseSessions(s).(log := Start) == s.(command := None, notification := None, log := Start)
  {
  }

  lemma ClosedDownUndisturbed(cfg: Config, s: State)
    ensures var t := Resume(cfg, s, ClosedDown); t.Some? ==> Undisturbed(s, t.value)
  {
    if s.wait.HalfPairClose? || s.wait.Teardown? {
      CloseSessionsFrame(s);
      var t := CloseSessions(s);
      assert Resume(cfg, s, ClosedDown).value.deadline == t.deadline;
    }
  }

  lemma ListenInputsUndisturbed(cfg: Config, s: State, input: Input)
    requires input.Proceed? || input.KeepaliveOk? || input.TakeTimedOut? || input.Dispatched? || input.SessionError?
    ensures var t := Resume(cfg, s, input); t.Some? ==> Undisturbed(s, t.value)
  {
  }

  lemma RemainingInputsUndisturbed(cfg: Config, s: State, input: Input)
    requires input.HandlersStillRunning? || input.HandlersDone? || input.Woken? || input.Arrival? || input.StopRequested?
             || input.LinkDropped?
    ensures var t := Resume(cfg, s, input); t.Some? ==> Undisturbed(s, t.value)
  {
  }

  lemma TakenEffect(cfg: Config, s: State)
    ensures var t := Resume(cfg, s, Taken);
            t.Some? ==> if s.wait.Poll? && s.queue == [] then
                          t.value.phase == Degraded && t.value.deadline == s.deadline && t.value.wait.RecoveryReset?
                        else Undisturbed(s, t.value)
  {
    if (s.wait.Poll? || s.wait.Take?) && s.queue != [] {
      NotificationUndisturbed(s);
    }
  }

  lemma NotificationUndisturbed(s: State)
    requires s.queue != []
    ensures Undisturbed(s, HandleNotification(s))
  {
  }

  lemma InputsUndisturbed(cfg: Config, s: State, input: Input)
    requires !input.ResetAnswer? && !(input.Taken? && s.wait.Poll? && s.queue == [])
    ensures var t := Resume(cfg, s, input); t.Some? ==> Undisturbed(s, t.value)
  {
    match input
    case ConnectOk => ConnectInputsUndisturbed(cfg, s, input);
    case ConnectFailed => ConnectInputsUndisturbed(cfg, s, input);
    case CallHomePeer(_) => ConnectInputsUndisturbed(cfg, s, input);
    case Subscribed => ConnectInputsUndisturbed(cfg, s, input);
    case ClosedDown => ClosedDownUndisturbed(cfg, s);
    case Proceed => ListenInputsUndisturbed(cfg, s, input);
    case KeepaliveOk => ListenInputsUndisturbed(cfg, s, input);
    case TakeTimedOut => ListenInputsUndisturbed(cfg, s, input);
    case Dispatched => ListenInputsUndisturbed(cfg, s, input);
    case SessionError => ListenInputsUndisturbed(cfg, s, input);
    case Taken => TakenEffect(cfg, s);
    case _ => RemainingInputsUndisturbed(cfg, s, input);
  }

  lemma EnterSupervisedFrame(s: State)
    ensures EnterSupervised(s).(log := Start)
            == s.(phase := Supervised, supervisedFlag := true, connectionAlarm := false, supervisionAlarm := false, log := Start)
  {
  }

  /** The starvation deadline after an answered reset: a promised next update that comes later than the
      interval, by no more than the interval and the guard, plus the guard; else interval and guard from now. */
  predicate DeadlineAfter(cfg: Config, now: real, answer: Answer, deadline: real) {
    deadline == if answer.Accepted? && answer.nextUpdate.Some?
                   && cfg.interval < answer.nextUpdate.value <= 2.0 * cfg.interval + cfg.guard
                then now + answer.nextUpdate.value + cfg.guard
                else now + cfg.interval + cfg.guard
  }

  lemma DeadlineFromPromise(cfg: Config, now: real, answer: Answer)
    ensures DeadlineAfter(cfg, now, answer, DeadlineFrom(cfg, now, answer))
  {
  }

  /** A reset answer that leads to listening sets the deadline; any other leaves it. */
  ghost predicate DeadlineBy(cfg: Config, s: State, answer: Answer, t: State) {
    && !t.wait.FeedReset?
    && if t.wait.ListenHead? then !answer.Unanswered? && DeadlineAfter(cfg, s.now, answer, t.deadline)
       else t.deadline == s.deadline
  }

  lemma FirstResetDeadline(cfg: Config, s: State, answer: Answer)
    requires s.wait.FirstReset?
    ensures DeadlineBy(cfg, s, answer, ResumeReset(cfg, s, answer).value)
  {
    DeadlineFromPromise(cfg, s.now, answer);
    EnterSupervisedFrame(NoteReset(s, answer));
  }

  lemma FeedResetDeadline(cfg: Config, s: State, answer: Answer)
    requires s.wait.FeedReset?
    ensures DeadlineBy(cfg, s, answer, ResumeReset(cfg, s, answer).value)
  {
    var t := NoteReset(s, answer);
    DeadlineFromPromise(cfg, s.now, answer);
    EnterSupervisedFrame(t.(wait := ListenHead, deadline := DeadlineFrom(cfg, t.now, answer)));
  }

  lemma OtherResetDeadline(cfg: Config, s: State, answer: Answer)
    requires s.wait.HandlerReset? || s.wait.SecondReset? || s.wait.RecoveryReset?
    ensures DeadlineBy(cfg, s, answer, ResumeReset(cfg, s, answer).value)
  {
    DeadlineFromPromise(cfg, s.now, answer);
  }

  /** A reset answer that leads to listening sets the deadline to what it promises; any other leaves it. */
  lemma ResetAnswerDeadline(cfg: Config, s: State, answer: Answer)
    requires ResumeReset(cfg, s, answer).Some?
    ensures var t := ResumeReset(cfg, s, answer).value;
            && !t.wait.FeedReset?
            && if t.wait.ListenHead? then !answer.Unanswered? && DeadlineAfter(cfg, s.now, answer, t.deadline)
               else t.deadline == s.deadline
  {
    match s.wait
    case FirstReset => FirstResetDeadline(cfg, s, answer);
    case FeedReset => FeedResetDeadline(cfg, s, answer);
    case _ => OtherResetDeadline(cfg, s, answer);
  }

  /** A subscribed session's reset answer: once it listens, only one that answers a notification can enter
      SUPERVISED. */
  lemma ResetAnswerPhase(cfg: Config, s: State, answer: Answer)
    requires UpAndSubscribed(s.wait) && ResumeReset(cfg, s, answer).Some?
    ensures var t := ResumeReset(cfg, s, answer).value;
            && t.phase == (if s.wait.HandlerReset? then s.phase
                           else if answer.Unanswered? then Disconnected
                           else if (s.wait.FirstReset? || s.wait.FeedReset?) && answer.Accepted? then Supervised
                           else s.phase)
            && (answer.Unanswered? && !s.wait.HandlerReset? ==> t.wait.Teardown?)
  {
    match s.wait
    case FirstReset => FirstResetPhase(cfg, s, answer);
    case FeedReset => FeedResetPhase(cfg, s, answer);
    case _ =>
  }

  lemma FirstResetPhase(cfg: Config, s: State, answer: Answer)
    requires s.wait.FirstReset?
    ensures var t := ResumeReset(cfg, s, answer).value;
            && t.phase == (if answer.Unanswered? then Disconnected else if answer.Accepted? then Supervised else s.phase)
            && (answer.Unanswered? ==> t.wait.Teardown?)
  {
    EnterSupervisedFrame(NoteReset(s, answer));
  }

  lemma FeedResetPhase(cfg: Config, s: State, answer: Answer)
    requires s.wait.FeedReset?
    ensures var t := ResumeReset(cfg, s, answer).value;
            && t.phase == (if answer.Unanswered? then Disconnected else if answer.Accepted? then Supervised else s.phase)
            && (answer.Unanswered? ==> t.wait.Teardown?)
  {
    var t := NoteReset(s, answer);
    EnterSupervisedFrame(t.(wait := ListenHead, deadline := DeadlineFrom(cfg, t.now, answer)));
  }

  /** The watchdog is fed exactly while the notification just taken was a supervision-notification. */
  predicate FeedsANotification(s: State) {
    s.wait.FeedReset? <==> JustTaken(s.log)
  }

  predicate JustTaken(log: Log) {
    log.Then? && log.act == Drained(SupervisionNotification)
  }

  /** Whatever a step other than a taken notification does, it feeds only if it fed before, and it leaves the
      log as it is only if it leaves the wait for that answer as it is. */
  ghost predicate FeedsAsBefore(s: State, t: State) {
    if t.log == s.log then t.wait.FeedReset? == s.wait.FeedReset? else !t.wait.FeedReset? && !JustTaken(t.log)
  }

  lemma ConnectInputsFeed(cfg: Config, s: State, input: Input)
    requires input.ConnectOk? || input.ConnectFailed? || input.CallHomePeer? || input.Subscribed?
    ensures var t := Resume(cfg, s, input); t.Some? ==> FeedsAsBefore(s, t.value)
  {
  }

  lemma ClosingInputsFeed(cfg: Config, s: State, input: Input)
    requires input.ClosedDown? || input.SessionError? || input.HandlersDone? || input.Proceed?
    ensures var t := Resume(cfg, s, input); t.Some? ==> FeedsAsBefore(s, t.value)
  {
  }

  lemma QuietInputsFeed(cfg: Config, s: State, input: Input)
    requires || input.HandlersStillRunning? || input.Woken? || input.KeepaliveOk? || input.TakeTimedOut?
             || input.Dispatched? || input.Arrival? || input.StopRequested? || input.LinkDropped?
    ensures var t := Resume(cfg, s, input); t.Some? ==> FeedsAsBefore(s, t.value)
  {
  }

  lemma EnterSupervisedUntaken(s: State)
    ensures !JustTaken(EnterSupervised(s).log) && EnterSupervised(s).wait == s.wait
  {
  }

  lemma FirstResetsFeed(cfg: Config, s: State, answer: Answer)
    requires s.wait.FirstReset? && FeedsANotification(s)
    ensures FeedsANotification(ResumeReset(cfg, s, answer).value)
  {
    EnterSupervisedUntaken(NoteReset(s, answer));
  }

  lemma FeedResetsFeed(cfg: Config, s: State, answer: Answer)
    requires s.wait.FeedReset?
    ensures FeedsANotification(ResumeReset(cfg, s, answer).value)
  {
    var t := NoteReset(s, answer);
    EnterSupervisedUntaken(t.(wait := ListenHead, deadline := DeadlineFrom(cfg, t.now, answer)));
  }

  lemma OtherResetsFeed(cfg: Config, s: State, answer: Answer)
    requires s.wait.HandlerReset? || s.wait.SecondReset? || s.wait.RecoveryReset?
    requires FeedsANotification(s)
    ensures FeedsANotification(ResumeReset(cfg, s, answer).value)
  {
  }

  lemma ResetAnswersFeed(cfg: Config, s: State, answer: Answer)
    requires FeedsANotification(s) && ResumeReset(cfg, s, answer).Some?
    ensures FeedsANotification(ResumeReset(cfg, s, answer).value)
  {
    match s.wait
    case FirstReset => FirstResetsFeed(cfg, s, answer);
    case FeedReset => FeedResetsFeed(cfg, s, answer);
    case _ => OtherResetsFeed(cfg, s, answer);
  }

  lemma TakenFeeds(cfg: Config, s: State)
    ensures var t := Resume(cfg, s, Taken); t.Some? ==> FeedsANotification(t.value)
  {
    if s.queue != [] {
      HandleNotificationFrame(s);
    }
  }

  lemma StepFeedsNotifications(cfg: Config, s: State, e: Event)
    requires FeedsANotification(s) && Step(cfg, s, e).Some?
    ensures FeedsANotification(Step(cfg, s, e).value)
  {
    var t := s.(now := e.at);
    match e.input
    case ResetAnswer(answer) => ResetAnswersFeed(cfg, t, answer);
    case Taken => TakenFeeds(cfg, t);
    case ConnectOk => ConnectInputsFeed(cfg, t, e.input);
    case ConnectFailed => ConnectInputsFeed(cfg, t, e.input);
    case CallHomePeer(_) => ConnectInputsFeed(cfg, t, e.input);
    case Subscribed => ConnectInputsFeed(cfg, t, e.input);
    case ClosedDown => ClosingInputsFeed(cfg, t, e.input);
    case SessionError => ClosingInputsFeed(cfg, t, e.input);
    case HandlersDone => ClosingInputsFeed(cfg, t, e.input);
    case Proceed => ClosingInputsFeed(cfg, t, e.input);
    case _ => QuietInputsFeed(cfg, t, e.input);
  }

  /** A supervision-notification at the head of the queue, taken before the deadline or found when overdue,
      leads to the reset that answers it. */
  lemma TakingFeeds(cfg: Config, s: State, e: Event)
    requires (s.wait.Poll? || s.wait.Take?) && s.queue != [] && e.input.Taken? && s.now <= e.at
    ensures Step(cfg, s, e).Some?
    ensures Step(cfg, s, e).value.wait == if s.queue[0] == SupervisionNotification then FeedReset else Dispatch
  {
    HandleNotificationFrame(s.(now := e.at));
  }

  lemma {:induction false} FeedsAnswerNotifications(cfg: Config, events: seq<Event>)
    ensures var t := Run(cfg, Initial(), events); t.Some? ==> FeedsANotification(t.value)
  {
    if events == [] {
    } else {
      FeedsAnswerNotifications(cfg, events[..|events| - 1]);
      var earlier := Run(cfg, Initial(), events[..|events| - 1]);
      if earlier.Some? && Step(cfg, earlier.value, events[|events| - 1]).Some? {
        StepFeedsNotifications(cfg, earlier.value, events[|events| - 1]);
      }
    }
  }

  /** A step of a subscribed session. */
  lemma SubscribedStep(cfg: Config, s: State, e: Event)
    requires UpAndSubscribed(s.wait) && Step(cfg, s, e).Some?
    ensures var t := Step(cfg, s, e).value;
            || t.phase == s.phase
            || (t.phase == Disconnected && t.wait.Teardown?)
            || (t.phase == Supervised && (s.wait.FirstReset? || s.wait.FeedReset?) && e.input.ResetAnswer? && e.input.answer.Accepted?)
            || (t.phase == Degraded && s.wait.Poll? && s.queue == [] && e.input.Taken?)
    ensures s.wait.FeedReset? && e.input.ResetAnswer? && e.input.answer.Accepted? ==> Step(cfg, s, e).value.phase == Supervised
    ensures s.wait.Poll? && s.queue == [] && e.input.Taken? ==> Step(cfg, s, e).value.phase == Degraded
    ensures e.input == ResetAnswer(Rejected) ==> Step(cfg, s, e).value.phase == s.phase
  {
    var t := s.(now := e.at);
    if e.input.ResetAnswer? {
      ResetAnswerPhase(cfg, t, e.input.answer);
    } else if e.input.Taken? {
      TakenEffect(cfg, t);
    } else {
      InputsUndisturbed(cfg, t, e.input);
    }
  }

  lemma ReachablePhases(cfg: Config, s: State)
    requires cfg.Valid() && Reachable(cfg, s)
    ensures FeedsANotification(s)
    ensures s.phase == Supervised ==> UpAndSubscribed(s.wait)
    ensures s.phase == Degraded ==> Listening(s.wait)
  {
    var events :| Run(cfg, Initial(), events) == Some(s);
    RunsKeepInvariant(cfg, events);
    FeedsAnswerNotifications(cfg, events);
  }

  /** DEGRADED becomes SUPERVISED exactly on an accepted reset answering a supervision-notification; the
      only other way out is the end of the cycle. In particular an accepted recovery reset stays. */
  lemma DegradedExits(cfg: Config, s: State, e: Event)
    requires cfg.Valid() && Reachable(cfg, s) && s.phase == Degraded && Step(cfg, s, e).Some?
    ensures var t := Step(cfg, s, e).value;
            && (t.phase == Supervised <==>
                  && s.wait.FeedReset? && s.log.Then? && s.log.act == Drained(SupervisionNotification)
                  && e.input.ResetAnswer? && e.input.answer.Accepted?)
            && (t.phase == Supervised || t.phase == Degraded || (t.phase == Disconnected && t.wait.Teardown?))
  {
    ReachablePhases(cfg, s);
    SubscribedStep(cfg, s, e);
  }

  /** SUPERVISED is left only by starvation or with the cycle: a rejected reset does not leave it. */
  lemma SupervisedExits(cfg: Config, s: State, e: Event)
    requires cfg.Valid() && Reachable(cfg, s) && s.phase == Supervised && Step(cfg, s, e).Some?
    ensures var t := Step(cfg, s, e).value;
            && (t.phase == Degraded <==> s.wait.Poll? && s.queue == [] && e.input.Taken?)
            && (t.phase == Supervised || t.phase == Degraded || (t.phase == Disconnected && t.wait.Teardown?))
            && (e.input == ResetAnswer(Rejected) ==> t.phase == Supervised)
  {
    ReachablePhases(cfg, s);
    SubscribedStep(cfg, s, e);
  }

  /** Only an answered reset moves the starvation deadline: no notification feeds the budget. */
  lemma DeadlineMovesOnAnswersOnly(cfg: Config, s: State, e: Event)
    requires Step(cfg, s, e).Some? && Step(cfg, s, e).value.deadline != s.deadline
    ensures e.input.ResetAnswer? && !e.input.answer.Unanswered?
    ensures DeadlineAfter(cfg, e.at, e.input.answer, Step(cfg, s, e).value.deadline)
  {
    var t := s.(now := e.at);
    if e.input.ResetAnswer? {
      ResetAnswerDeadline(cfg, t, e.input.answer);
    } else if e.input.Taken? {
      TakenEffect(cfg, t);
    } else {
      InputsUndisturbed(cfg, t, e.input);
    }
  }

  // ----- Draining before starving -----

  /** The coroutine's own progress in the listen loop: no arrival, stop, drop, error or watchdog reset. */
  predicate Quiet(e: Event) {
    e.input.Proceed? || e.input.KeepaliveOk? || e.input.Taken? || e.input.TakeTimedOut? || e.input.Dispatched?
  }

  /** Overdue, with unrelated notifications still queued. */
  ghost predicate Draining(s: State) {
    && (s.wait.ListenHead? || s.wait.Keepalive? || s.wait.Poll? || s.wait.Dispatch? || s.wait.Take?)
    && !s.stopping && s.linkUp && s.deadline <= s.now && (s.wait.Take? ==> s.wait.until <= s.now)
    && forall i :: 0 <= i < |s.queue| ==> s.queue[i] == OtherNotification
  }

  /** In every reachable state an overdue wait for a notification has timed out. */
  lemma OverdueTakeIsUp(cfg: Config, s: State)
    requires cfg.Valid() && Reachable(cfg, s) && s.wait.Take? && s.deadline <= s.now
    ensures s.wait.until <= s.now
  {
    var events :| Run(cfg, Initial(), events) == Some(s);
    RunsKeepInvariant(cfg, events);
  }

  ghost predicate StarvedOut(s: State) {
    s.wait.RecoveryReset? && s.phase == Degraded && s.queue == []
  }

  /** A bound on the steps until starvation. */
  function StepsLeft(s: State): nat {
    match s.wait
    case ListenHead => 4 * |s.queue| + 3
    case Keepalive => 4 * |s.queue| + 2
    case Poll => 4 * |s.queue| + 1
    case Dispatch => 4 * |s.queue| + 4
    case Take(_) => 4 * |s.queue| + 4
    case _ => 0
  }

  function DrainedIn(log: Log): nat {
    match log
    case Start => 0
    case Then(earlier, act) => DrainedIn(earlier) + if act.Drained? then 1 else 0
  }

  /** A step on the way: closer to starvation, with no notification lost. */
  ghost predicate DrainsOn(s: State, t: State) {
    && (Draining(t) || StarvedOut(t))
    && StepsLeft(t) < StepsLeft(s)
    && DrainedIn(t.log) + |t.queue| == DrainedIn(s.log) + |s.queue|
  }

  lemma TakenDrains(cfg: Config, s: State)
    requires Draining(s) && s.queue != [] && Resume(cfg, s, Taken).Some?
    ensures DrainsOn(s, Resume(cfg, s, Taken).value)
  {
    HandleNotificationFrame(s);
  }

  lemma TakenStarves(cfg: Config, s: State)
    requires Draining(s) && s.queue == [] && Resume(cfg, s, Taken).Some?
    ensures DrainsOn(s, Resume(cfg, s, Taken).value)
  {
    var overdue := Logged(s, Starved(s.now));
    assert DrainedIn(SetPhase(overdue, Degraded).log) == DrainedIn(overdue.log) == DrainedIn(s.log);
  }

  lemma QuietDrains(cfg: Config, s: State, input: Input)
    requires Draining(s) && !input.Taken? && Quiet(Event(s.now, input)) && Resume(cfg, s, input).Some?
    ensures DrainsOn(s, Resume(cfg, s, input).value)
  {
  }

  lemma DrainStep(cfg: Config, s: State, e: Event)
    requires Draining(s) && Quiet(e) && Step(cfg, s, e).Some?
    ensures DrainsOn(s, Step(cfg, s, e).value)
  {
    var t := s.(now := e.at);
    if !e.input.Taken? {
      QuietDrains(cfg, t, e.input);
    } else if s.queue == [] {
      TakenStarves(cfg, t);
    } else {
      TakenDrains(cfg, t);
    }
  }

  /** What is done next. */
  function NextInput(s: State): Input {
    match s.wait
    case Keepalive => KeepaliveOk
    case Poll => Taken
    case Take(_) => if s.queue == [] then TakeTimedOut else Taken
    case Dispatch => Dispatched
    case _ => Proceed
  }

  /** Something can always be done next. */
  lemma DrainProgress(cfg: Config, s: State)
    requires Draining(s)
    ensures var e := Event(s.now, NextInput(s)); Quiet(e) && Step(cfg, s, e).Some?
  {
  }

  lemma NothingQuietAfterStarving(cfg: Config, s: State, e: Event)
    requires StarvedOut(s) && Quiet(e)
    ensures Step(cfg, s, e).None?
  {
  }

  /** Once overdue, with unrelated notifications queued and nothing else happening, DEGRADED is entered
      after exactly the queued notifications were drained, and within StepsLeft steps. */
  lemma {:induction false} DrainsThenStarves(cfg: Config, s: State, events: seq<Event>)
    requires Draining(s) && (forall i :: 0 <= i < |events| ==> Quiet(events[i])) && Run(cfg, s, events).Some?
    ensures var t := Run(cfg, s, events).value;
            && (Draining(t) || StarvedOut(t))
            && |events| + StepsLeft(t) <= StepsLeft(s)
            && DrainedIn(t.log) + |t.queue| == DrainedIn(s.log) + |s.queue|
            && (StarvedOut(t) ==> DrainedIn(t.log) == DrainedIn(s.log) + |s.queue|)
  {
    if events == [] {
    } else {
      var n := |events| - 1;
      var t := Run(cfg, s, events[..n]).value;
      DrainsThenStarves(cfg, s, events[..n]);
      if StarvedOut(t) {
        NothingQuietAfterStarving(cfg, t, events[n]);
      } else {
        DrainStep(cfg, t, events[n]);
      }
    }
  }

  /** A run of quiet events that ends in starvation, with exactly the queued notifications drained. */
  ghost predicate StarvesBy(cfg: Config, s: State, events: seq<Event>) {
    && (forall i :: 0 <= i < |events| ==> Quiet(events[i]))
    && Run(cfg, s, events).Some?
    && StarvedOut(Run(cfg, s, events).value)
    && DrainedIn(Run(cfg, s, events).value.log) == DrainedIn(s.log) + |s.queue|
  }

  lemma {:induction false} RunFromFirst(cfg: Config, s: State, e: Event, rest: seq<Event>)
    requires Step(cfg, s, e).Some?
    ensures Run(cfg, s, [e] + rest) == Run(cfg, Step(cfg, s, e).value, rest)
  {
    var all := [e] + rest;
    if rest == [] {
      assert all[..0] == [] && all[0] == e;
    } else {
      var earlier, last := rest[..|rest| - 1], rest[|rest| - 1];
      RunFromFirst(cfg, s, e, earlier);
      assert all[..|rest|] == [e] + earlier && all[|rest|] == last;
    }
  }

  /** Starvation is reached: left to itself, an overdue session drains and starves without time passing. */
  lemma {:induction false} StarvationIsReached(cfg: Config, s: State)
    requires Draining(s)
    ensures exists events :: StarvesBy(cfg, s, events)
    decreases StepsLeft(s)
  {
    var e := Event(s.now, NextInput(s));
    DrainProgress(cfg, s);
    DrainStep(cfg, s, e);
    var t := Step(cfg, s, e).value;
    var rest: seq<Event> := [];
    if !StarvedOut(t) {
      StarvationIsReached(cfg, t);
      rest :| StarvesBy(cfg, t, rest);
    }
    RunFromFirst(cfg, s, e, rest);
    assert StarvesBy(cfg, s, [e] + rest);
  }

  /** And it is the only way on: a quiet run that has not starved can be continued, and one that has cannot. */
  lemma QuietRunsEndStarved(cfg: Config, s: State, events: seq<Event>)
    requires Draining(s) && (forall i :: 0 <= i < |events| ==> Quiet(events[i])) && Run(cfg, s, events).Some?
    ensures var t := Run(cfg, s, events).value;
            StarvedOut(t) <==> forall e :: Quiet(e) ==> Step(cfg, t, e).None?
  {
    var t := Run(cfg, s, events).value;
    DrainsThenStarves(cfg, s, events);
    if StarvedOut(t) {
      forall e | Quiet(e) ensures Step(cfg, t, e).None? {
        NothingQuietAfterStarving(cfg, t, e);
      }
    } else {
      DrainProgress(cfg, t);
    }
  }
}
