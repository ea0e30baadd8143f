/** The session object: the supervision machine with its state updated in place. */
module MplaneSession {
  import opened Options
  import opened Supervision
  import S = Supervision
  import opened SupervisionSafety

  class MplaneSession {
    const cfg: Config

    // the object's own fields
    var phase: Phase
    var supervisedFlag: bool
    var command: Option<nat>
    var notification: Option<nat>
    var connectionAlarm: bool
    var supervisionAlarm: bool

    // the suspended coroutine: where it waits, and the locals of the listen loop
    var wait: Wait
    var deadline: real
    var nextKeepalive: real

    // the world around it
    var now: real
    var stopping: bool
    var linkUp: bool
    var queue: seq<Notification>
    var sessions: nat
    var log: Log

    function State(): State
      reads this
    {
      S.State.State(wait, phase, supervisedFlag, command, notification, connectionAlarm, supervisionAlarm, deadline,
                    nextKeepalive, now, stopping, linkUp, queue, sessions, log)
    }

    constructor (cfg: Config)
      requires cfg.Valid()
      ensures this.cfg == cfg && State() == Initial()
    {
      this.cfg := cfg;
      phase, supervisedFlag, command, notification := Disconnected, false, None, None;
      connectionAlarm, supervisionAlarm := false, false;
      wait, deadline, nextKeepalive := LoopHead, 0.0, 0.0;
      now, stopping, linkUp, queue, sessions, log := 0.0, false, false, [], 0, Start;
    }

    method Note(act: Act)
      modifies this`log
      ensures log == Then(old(log), act)
    {
      log := Then(log, act);
    }

    method SetPhase(p: Phase)
      modifies this`phase, this`supervisedFlag, this`log
      ensures State() == S.SetPhase(old(State()), p)
    {
      phase := p;
      supervisedFlag := p == Supervised;
      Note(PhaseEntered(p));
    }

    method FlagConnectionLost()
      modifies this`connectionAlarm, this`log
      ensures State() == S.FlagConnectionLost(old(State()))
    {
      if !connectionAlarm {
        Note(AlarmSet(ConnectionLoss));
        connectionAlarm := true;
      }
    }

    method FlagConnectionRestored()
      modifies this`connectionAlarm, this`log
      ensures State() == S.FlagConnectionRestored(old(State()))
    {
      if connectionAlarm {
        Note(AlarmCleared(ConnectionLoss));
        connectionAlarm := false;
      }
    }

    method EnterSupervised()
      modifies this`phase, this`supervisedFlag, this`connectionAlarm, this`supervisionAlarm, this`log
      ensures State() == S.EnterSupervised(old(State()))
    {
      SetPhase(Supervised);
      FlagConnectionRestored();
      if supervisionAlarm {
        Note(AlarmCleared(SupervisionFailure));
        supervisionAlarm := false;
      }
    }

    method EnterDegraded()
      modifies this`phase, this`supervisedFlag, this`supervisionAlarm, this`log
      ensures State() == S.EnterDegraded(old(State()))
    {
      if phase == Degraded {
        return;
      }
      SetPhase(Degraded);
      if !supervisionAlarm {
        Note(AlarmSet(SupervisionFailure));
        supervisionAlarm := true;
      }
    }

    method CloseSessions()
      modifies this`command, this`notification, this`log
      ensures State() == S.CloseSessions(old(State()))
    {
      if command.Some? {
        Note(Closed(command.value));
      }
      if notification.Some? && notification != command {
        Note(Closed(notification.value));
      }
      command, notification := None, None;
    }

    method Open() returns (id: nat)
      modifies this`sessions, this`log
      ensures id == old(sessions)
      ensures State() == S.Logged(old(State()), Opened(id)).(sessions := id + 1)
    {
      id := sessions;
      Note(Opened(id));
      sessions := sessions + 1;
    }

    method ConnectionFailed()
      modifies this`phase, this`supervisedFlag, this`connectionAlarm, this`wait, this`log
      ensures State() == S.ConnectionFailed(old(State()))
    {
      if stopping {
        SetPhase(Disconnected);
        wait := Stopped;
        return;
      }
      FlagConnectionLost();
      SetPhase(Disconnected);
      wait := Backoff;
    }

    method LeaveCycle()
      modifies this`phase, this`supervisedFlag, this`wait, this`log
      ensures State() == S.LeaveCycle(old(State()))
    {
      SetPhase(Disconnected);
      wait := Teardown;
    }

    method StartCycle(newCommand: Option<nat>, newNotification: nat)
      modifies this`command, this`notification, this`linkUp, this`queue, this`wait, this`log
      ensures State() == S.StartCycle(old(State()).(command := newCommand, notification := Some(newNotification),
                                                   linkUp := true, queue := []))
    {
      command, notification := newCommand, Some(newNotification);
      linkUp, queue := true, [];
      Note(CycleStarted);
      wait := Subscribe;
    }

    method StartListening(answer: Answer)
      modifies this`deadline, this`nextKeepalive, this`wait
      ensures State() == S.StartListening(cfg, old(State()), answer)
    {
      deadline := DeadlineFrom(cfg, now, answer);
      nextKeepalive := now + cfg.KeepalivePeriod();
      wait := ListenHead;
    }

    method Await()
      modifies this`wait
      ensures State() == S.Await(cfg, old(State()))
    {
      var remaining := deadline - now;
      if remaining <= 0.0 {
        wait := Poll;
      } else {
        wait := Take(now + Min(remaining, Min(cfg.pollCap, Max(0.01, nextKeepalive - now))));
      }
    }

    method HandleNotification()
      requires queue != []
      modifies this`queue, this`wait, this`log
      ensures State() == S.HandleNotification(old(State()))
    {
      var taken := queue[0];
      Note(Drained(taken));
      queue := queue[1..];
      wait := if taken == SupervisionNotification then FeedReset else Dispatch;
    }

    /** The first watchdog reset of a cycle was answered. */
    method FirstResetAnswered(answer: Answer)
      requires wait.FirstReset? && !answer.Unanswered?
      modifies this
      ensures Some(State()) == ResumeReset(cfg, old(State()), answer)
    {
      Note(ResetAnswered(now, answer.Accepted?));
      if answer.Accepted? {
        EnterSupervised();
      }
      if cfg.hasCycleHandlers {
        wait := CycleHandlers(true);
      } else {
        StartListening(answer);
      }
    }

    /** The reset answering a supervision-notification was answered. */
    method FeedResetAnswered(answer: Answer)
      requires wait.FeedReset? && !answer.Unanswered?
      modifies this
      ensures Some(State()) == ResumeReset(cfg, old(State()), answer)
    {
      Note(ResetAnswered(now, answer.Accepted?));
      deadline := DeadlineFrom(cfg, now, answer);
      wait := ListenHead;
      if answer.Accepted? {
        EnterSupervised();
      }
    }

    /** A reset sent to recover, or around the cycle handlers, was answered. */
    method OtherResetAnswered(answer: Answer)
      requires (wait.HandlerReset? || wait.SecondReset? || wait.RecoveryReset?) && !answer.Unanswered?
      modifies this
      ensures Some(State()) == ResumeReset(cfg, old(State()), answer)
    {
      Note(ResetAnswered(now, answer.Accepted?));
      if wait.HandlerReset? {
        wait := CycleHandlers(true);
      } else if wait.SecondReset? {
        StartListening(answer);
      } else {
        deadline := DeadlineFrom(cfg, now, answer);
        wait := ListenHead;
      }
    }

    /** A reset stayed unanswered: the session is recycled, except that running handlers are awaited. */
    method ResetUnanswered()
      requires wait.FirstReset? || wait.HandlerReset? || wait.SecondReset? || wait.RecoveryReset? || wait.FeedReset?
      modifies this
      ensures Some(State()) == ResumeReset(cfg, old(State()), Unanswered)
    {
      if wait.HandlerReset? {
        wait := CycleHandlers(false);
      } else {
        LeaveCycle();
      }
    }

    /** A watchdog reset came back; false if none was outstanding. */
    method ResetReturned(answer: Answer) returns (accepted: bool)
      modifies this
      ensures accepted <==> ResumeReset(cfg, old(State()), answer).Some?
      ensures State() == if accepted then ResumeReset(cfg, old(State()), answer).value else old(State())
    {
      accepted := wait.FirstReset? || wait.HandlerReset? || wait.SecondReset? || wait.RecoveryReset? || wait.FeedReset?;
      if !accepted {
        return;
      }
      if answer.Unanswered? {
        ResetUnanswered();
      } else if wait.FirstReset? {
        FirstResetAnswered(answer);
      } else if wait.FeedReset? {
        FeedResetAnswered(answer);
      } else {
        OtherResetAnswered(answer);
      }
    }

    method Proceeded() returns (accepted: bool)
      modifies this
      ensures accepted <==> S.Resume(cfg, old(State()), Proceed).Some?
      ensures State() == if accepted then S.Resume(cfg, old(State()), Proceed).value else old(State())
    {
      accepted := true;
      if wait.LoopHead? {
        if stopping {
          SetPhase(Disconnected);
          wait := Stopped;
        } else {
          SetPhase(Connecting);
          wait := if cfg.callHome then CallHome else CommandConnect;
        }
      } else if wait.ListenHead? {
        if stopping || !linkUp {
          LeaveCycle();
        } else if now >= nextKeepalive {
          wait := Keepalive;
        } else {
          Await();
        }
      } else {
        accepted := false;
      }
    }

    method Connected() returns (accepted: bool)
      modifies this
      ensures accepted <==> S.Resume(cfg, old(State()), ConnectOk).Some?
      ensures State() == if accepted then S.Resume(cfg, old(State()), ConnectOk).value else old(State())
    {
      accepted := wait.CommandConnect? || wait.NotificationConnect?;
      if !accepted {
        return;
      }
      var id := Open();
      if wait.CommandConnect? {
        command := Some(id);
        wait := NotificationConnect;
      } else {
        StartCycle(command, id);
      }
    }

    method ConnectAttemptFailed() returns (accepted: bool)
      modifies this
      ensures accepted <==> S.Resume(cfg, old(State()), ConnectFailed).Some?
      ensures State() == if accepted then S.Resume(cfg, old(State()), ConnectFailed).value else old(State())
    {
      accepted := true;
      if wait.CommandConnect? || wait.CallHome? {
        ConnectionFailed();
      } else if wait.NotificationConnect? {
        wait := HalfPairClose;
      } else {
        accepted := false;
      }
    }

    method CalledHome(interleave: bool) returns (accepted: bool)
      modifies this
      ensures accepted <==> S.Resume(cfg, old(State()), CallHomePeer(interleave)).Some?
      ensures State() == if accepted then S.Resume(cfg, old(State()), CallHomePeer(interleave)).value else old(State())
    {
      accepted := wait.CallHome?;
      if !accepted {
        return;
      }
      var id := Open();
      if interleave {
        StartCycle(Some(id), id);
      } else {
        Note(Closed(id));
        ConnectionFailed();
      }
    }

    /** Overdue with nothing queued. */
    method Starve()
      requires wait.Poll? && queue == []
      modifies this
      ensures State() == S.Resume(cfg, old(State()), Taken).value
    {
      Note(Starved(now));
      EnterDegraded();
      wait := RecoveryReset;
    }

    method NotificationTaken() returns (accepted: bool)
      modifies this
      ensures accepted <==> S.Resume(cfg, old(State()), Taken).Some?
      ensures State() == if accepted then S.Resume(cfg, old(State()), Taken).value else old(State())
    {
      accepted := true;
      if wait.Poll? && queue == [] {
        Starve();
      } else if (wait.Poll? || wait.Take?) && queue != [] {
        HandleNotification();
      } else {
        accepted := false;
      }
    }

    /** The end of a connect cycle, once its sessions are closed. */
    method TornDown()
      requires wait.Teardown?
      modifies this
      ensures Some(State()) == S.Resume(cfg, old(State()), ClosedDown)
    {
      CloseSessions();
      if stopping {
        SetPhase(Disconnected);
        wait := Stopped;
      } else {
        FlagConnectionLost();
        wait := Backoff;
      }
    }

    method SessionsClosed() returns (accepted: bool)
      modifies this
      ensures accepted <==> S.Resume(cfg, old(State()), ClosedDown).Some?
      ensures State() == if accepted then S.Resume(cfg, old(State()), ClosedDown).value else old(State())
    {
      accepted := true;
      if wait.HalfPairClose? {
        CloseSessions();
        ConnectionFailed();
      } else if wait.Teardown? {
        TornDown();
      } else {
        accepted := false;
      }
    }

    method HandlersReturned() returns (accepted: bool)
      modifies this
      ensures accepted <==> S.Resume(cfg, old(State()), HandlersDone).Some?
      ensures State() == if accepted then S.Resume(cfg, old(State()), HandlersDone).value else old(State())
    {
      accepted := wait.CycleHandlers?;
      if accepted && wait.fed {
        wait := SecondReset;
      } else if accepted {
        LeaveCycle();
      }
    }

    method KeptAlive() returns (accepted: bool)
      modifies this
      ensures accepted <==> S.Resume(cfg, old(State()), KeepaliveOk).Some?
      ensures State() == if accepted then S.Resume(cfg, old(State()), KeepaliveOk).value else old(State())
    {
      accepted := wait.Keepalive?;
      if accepted {
        nextKeepalive := now + cfg.KeepalivePeriod();
        Await();
      }
    }

    /** Inputs that move one field or one wait. */
    method PlainInput(input: Input) returns (accepted: bool)
      requires input.Arrival? || input.StopRequested? || input.LinkDropped? || input.Subscribed? || input.HandlersStillRunning?
               || input.TakeTimedOut? || input.Dispatched? || input.Woken?
      modifies this
      ensures accepted <==> S.Resume(cfg, old(State()), input).Some?
      ensures State() == if accepted then S.Resume(cfg, old(State()), input).value else old(State())
    {
      accepted := true;
      match input {
        case Arrival(n) =>
          accepted := notification.Some?;
          if accepted {
            queue := queue + [n];
          }
        case StopRequested => stopping := true;
        case LinkDropped => linkUp := false;
        case Subscribed =>
          accepted := wait.Subscribe?;
          if accepted {
            FlagConnectionRestored();
            wait := FirstReset;
          }
        case HandlersStillRunning =>
          accepted := wait.CycleHandlers?;
          if accepted && wait.fed {
            wait := HandlerReset;
          }
        case TakeTimedOut =>
          accepted := wait.Take? && queue == [] && wait.until <= now;
          if accepted {
            wait := ListenHead;
          }
        case Dispatched =>
          accepted := wait.Dispatch?;
          if accepted {
            wait := ListenHead;
          }
        case Woken =>
          accepted := wait.Backoff?;
          if accepted {
            wait := LoopHead;
          }
      }
    }

    method Failed() returns (accepted: bool)
      modifies this
      ensures accepted <==> S.Resume(cfg, old(State()), SessionError).Some?
      ensures State() == if accepted then S.Resume(cfg, old(State()), SessionError).value else old(State())
    {
      accepted := InCycle(wait);
      if accepted {
        LeaveCycle();
      }
    }

    method Apply(input: Input) returns (accepted: bool)
      modifies this
      ensures accepted <==> S.Resume(cfg, old(State()), input).Some?
      ensures State() == if accepted then S.Resume(cfg, old(State()), input).value else old(State())
    {
      match input {
        case ResetAnswer(answer) => accepted := ResetReturned(answer);
        case SessionError => accepted := Failed();
        case Proceed => accepted := Proceeded();
        case ConnectOk => accepted := Connected();
        case ConnectFailed => accepted := ConnectAttemptFailed();
        case CallHomePeer(interleave) => accepted := CalledHome(interleave);
        case HandlersDone => accepted := HandlersReturned();
        case KeepaliveOk => accepted := KeptAlive();
        case Taken => accepted := NotificationTaken();
        case ClosedDown => accepted := SessionsClosed();
        case _ => accepted := PlainInput(input);
      }
    }

    /** One event; false, with nothing changed, when it cannot occur here. */
    method Resume(e: Event) returns (accepted: bool)
      modifies this
      ensures accepted <==> Step(cfg, old(State()), e).Some?
      ensures State() == if accepted then Step(cfg, old(State()), e).value else old(State())
    {
      if e.at < now {
        return false;
      }
      var before := now;
      now := e.at;
      accepted := Apply(e.input);
      if !accepted {
        now := before;
      }
    }

    /** Any number of events from a new session: the run stops at the first that cannot occur, and its
        state is a reachable, hence safe one. */
    method Drive(events: seq<Event>) returns (done: nat)
      requires cfg.Valid() && State() == Initial()
      modifies this
      ensures done <= |events| && Run(cfg, Initial(), events[..done]) == Some(State())
      ensures Reachable(cfg, State()) && Invariant(cfg, State())
    {
      done := 0;
      while done < |events|
        invariant 0 <= done <= |events| && Run(cfg, Initial(), events[..done]) == Some(State())
      {
        assert events[..done + 1][..done] == events[..done];
        var accepted := Resume(events[done]);
        if !accepted {
          break;
        }
        done := done + 1;
      }
      RunsKeepInvariant(cfg, events[..done]);
    }
  }
}
