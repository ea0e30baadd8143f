/** The notifications of the supervised session: none lost, none taken twice, none out of order. */
module SupervisionQueue {
  import opened Options
  import opened Supervision
  import opened SupervisionSafety
  import opened SupervisionOutages

  // ----- Notifications in order -----

  /** The notifications taken, in order. */
  function TakenIn(log: Log): seq<Notification> {
    match log
    case Start => []
    case Then(earlier, act) => if act.Drained? then TakenIn(earlier) + [act.n] else TakenIn(earlier)
  }

  /** All that has arrived of this session's notifications: those taken, then those waiting. */
  function ArrivedIn(s: State): seq<Notification> {
    TakenIn(s.log) + s.queue
  }

  /** The input starts a connect cycle, with nothing waiting yet. */
  predicate StartsCycle(s: State, input: Input) {
    (input.ConnectOk? && s.wait.NotificationConnect?) || (input == CallHomePeer(true) && s.wait.CallHome?)
  }

  ghost predicate InOrder(s: State, input: Input, t: State) {
    ArrivedIn(t) == if input.Arrival? then ArrivedIn(s) + [input.n]
                    else if StartsCycle(s, input) then TakenIn(s.log)
                    else ArrivedIn(s)
  }

  /** t took what s took, and has waiting what s has. */
  ghost predicate SameQueue(s: State, t: State) {
    TakenIn(t.log) == TakenIn(s.log) && t.queue == s.queue
  }

  lemma LeavingTakesNothing(s: State)
    ensures SameQueue(s, LeaveCycle(s)) && SameQueue(s, Finish(s))
  {
  }

  lemma FlagsTakeNothing(s: State)
    ensures SameQueue(s, FlagConnectionLost(s)) && SameQueue(s, FlagConnectionRestored(s))
  {
  }

  lemma FailureTakesNothing(s: State)
    ensures SameQueue(s, ConnectionFailed(s))
  {
    LeavingTakesNothing(s);
    FlagsTakeNothing(s);
  }

  lemma ClosingTakesNothing(s: State)
    ensures SameQueue(s, CloseSessions(s))
  {
  }

  lemma SupervisionTakesNothing(s: State)
    ensures SameQueue(s, EnterSupervised(s))
  {
    FlagsTakeNothing(SetPhase(s, Supervised));
  }

  lemma StarvationTakesNothing(s: State)
    ensures SameQueue(s, EnterDegraded(s))
  {
    assert TakenIn(SetPhase(s, Degraded).log) == TakenIn(s.log);
  }

  lemma ConnectedInOrder(cfg: Config, s: State, input: Input)
    requires input.ConnectOk? || (input == CallHomePeer(true))
    ensures var t := Resume(cfg, s, input);
            t.Some? ==> if StartsCycle(s, input) then TakenIn(t.value.log) == TakenIn(s.log) && t.value.queue == []
                        else SameQueue(s, t.value)
  {
  }

  lemma NotConnectedInOrder(cfg: Config, s: State, input: Input)
    requires input.ConnectFailed? || input == CallHomePeer(false) || input.Subscribed?
    ensures var t := Resume(cfg, s, input); t.Some? ==> SameQueue(s, t.value)
  {
    FailureTakesNothing(s);
    FlagsTakeNothing(s);
    if input.CallHomePeer? {
      var t := Logged(s, Opened(s.sessions)).(sessions := s.sessions + 1);
      assert SameQueue(s, Logged(t, Closed(s.sessions)));
      FailureTakesNothing(Logged(t, Closed(s.sessions)));
    }
  }

  lemma ClosedDownInOrder(cfg: Config, s: State)
    ensures var t := Resume(cfg, s, ClosedDown); t.Some? ==> SameQueue(s, t.value)
  {
    var t := CloseSessions(s);
    ClosingTakesNothing(s);
    FailureTakesNothing(t);
    LeavingTakesNothing(t);
    FlagsTakeNothing(t);
  }

  lemma ListenInputsInOrder(cfg: Config, s: State, input: Input)
    requires input.KeepaliveOk? || input.TakeTimedOut? || input.Dispatched? || input.SessionError? || input.HandlersDone?
    ensures var t := Resume(cfg, s, input); t.Some? ==> SameQueue(s, t.value)
  {
    LeavingTakesNothing(s);
  }

  lemma ProceedInOrder(cfg: Config, s: State)
    ensures var t := Resume(cfg, s, Proceed); t.Some? ==> SameQueue(s, t.value)
  {
    LeavingTakesNothing(s);
    assert TakenIn(SetPhase(s, Connecting).log) == TakenIn(s.log);
  }

  lemma HeadInOrder(s: State)
    requires s.queue != []
    ensures ArrivedIn(HandleNotification(s)) == ArrivedIn(s)
  {
    HandleNotificationFrame(s);
    assert s.queue == [s.queue[0]] + s.queue[1..];
    assert TakenIn(s.log) + [s.queue[0]] + s.queue[1..] == TakenIn(s.log) + s.queue;
  }

  lemma TakenInOrder(cfg: Config, s: State)
    ensures var t := Resume(cfg, s, Taken); t.Some? ==> ArrivedIn(t.value) == ArrivedIn(s)
  {
    if (s.wait.Poll? || s.wait.Take?) && s.queue != [] {
      HeadInOrder(s);
    } else {
      StarvationTakesNothing(Logged(s, Starved(s.now)));
    }
  }

  lemma FirstResetInOrder(cfg: Config, s: State, answer: Answer)
    requires s.wait.FirstReset?
    ensures SameQueue(s, ResumeReset(cfg, s, answer).value)
  {
    var t := NoteReset(s, answer);
    assert SameQueue(s, t);
    SupervisionTakesNothing(t);
    LeavingTakesNothing(t);
  }

  lemma FeedResetInOrder(cfg: Config, s: State, answer: Answer)
    requires s.wait.FeedReset?
    ensures SameQueue(s, ResumeReset(cfg, s, answer).value)
  {
    var t := NoteReset(s, answer);
    assert SameQueue(s, t);
    SupervisionTakesNothing(t.(wait := ListenHead, deadline := DeadlineFrom(cfg, t.now, answer)));
    LeavingTakesNothing(t);
  }

  lemma OtherResetInOrder(cfg: Config, s: State, answer: Answer)
    requires s.wait.HandlerReset? || s.wait.SecondReset? || s.wait.RecoveryReset?
    ensures SameQueue(s, ResumeReset(cfg, s, answer).value)
  {
    var t := NoteReset(s, answer);
    assert SameQueue(s, t);
    LeavingTakesNothing(t);
  }

  lemma ResetAnswerInOrder(cfg: Config, s: State, answer: Answer)
    requires ResumeReset(cfg, s, answer).Some?
    ensures SameQueue(s, ResumeReset(cfg, s, answer).value)
  {
    ResetAnswerLeads(cfg, s, answer);
    match s.wait
    case FirstReset => FirstResetInOrder(cfg, s, answer);
    case FeedReset => FeedResetInOrder(cfg, s, answer);
    case _ => OtherResetInOrder(cfg, s, answer);
  }

  lemma StepInOrder(cfg: Config, s: State, e: Event)
    requires Step(cfg, s, e).Some?
    ensures InOrder(s, e.input, Step(cfg, s, e).value)
  {
    var t := s.(now := e.at);
    match e.input
    case ResetAnswer(answer) => ResetAnswerInOrder(cfg, t, answer);
    case Taken => TakenInOrder(cfg, t);
    case ClosedDown => ClosedDownInOrder(cfg, t);
    case ConnectOk => ConnectedInOrder(cfg, t, e.input);
    case CallHomePeer(interleave) =>
      if interleave {
        ConnectedInOrder(cfg, t, e.input);
      } else {
        NotConnectedInOrder(cfg, t, e.input);
      }
    case ConnectFailed => NotConnectedInOrder(cfg, t, e.input);
    case Subscribed => NotConnectedInOrder(cfg, t, e.input);
    case Proceed => ProceedInOrder(cfg, t);
    case KeepaliveOk => ListenInputsInOrder(cfg, t, e.input);
    case TakeTimedOut => ListenInputsInOrder(cfg, t, e.input);
    case Dispatched => ListenInputsInOrder(cfg, t, e.input);
    case SessionError => ListenInputsInOrder(cfg, t, e.input);
    case HandlersDone => ListenInputsInOrder(cfg, t, e.input);
    case Arrival(n) => ArrivalInOrder(cfg, t, n);
    case _ =>
  }

  lemma ArrivalInOrder(cfg: Config, s: State, n: Notification)
    ensures var t := Resume(cfg, s, Arrival(n)); t.Some? ==> ArrivedIn(t.value) == ArrivedIn(s) + [n]
  {
    assert TakenIn(s.log) + (s.queue + [n]) == TakenIn(s.log) + s.queue + [n];
  }

  /** What arrives in a run, in order. */
  function Arrivals(events: seq<Event>): seq<Notification> {
    if events == [] then []
    else
      Arrivals(events[..|events| - 1])
      + if events[|events| - 1].input.Arrival? then [events[|events| - 1].input.n] else []
  }

  /** Within a cycle, that is over any run in which no session is opened, notifications are taken in the order they came
      in, each once: those taken and those waiting are those of before and the arrivals. */
  lemma {:induction false} NotificationsInOrder(cfg: Config, s: State, events: seq<Event>)
    requires Run(cfg, s, events).Some?
    requires forall i :: 0 <= i < |events| ==> !events[i].input.ConnectOk? && !events[i].input.CallHomePeer?
    ensures var t := Run(cfg, s, events).value; TakenIn(t.log) + t.queue == TakenIn(s.log) + s.queue + Arrivals(events)
  {
    if events != [] {
      var n := |events| - 1;
      NotificationsInOrder(cfg, s, events[..n]);
      StepInOrder(cfg, Run(cfg, s, events[..n]).value, events[n]);
      Appended(TakenIn(s.log) + s.queue, Arrivals(events[..n]), events[n].input);
    }
  }

  lemma Appended(a: seq<Notification>, b: seq<Notification>, input: Input)
    ensures input.Arrival? ==> a + b + [input.n] == a + (b + [input.n])
    ensures a + b == a + (b + [])
  {
  }
}
