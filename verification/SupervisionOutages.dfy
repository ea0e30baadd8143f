/** Runs of the supervised session: exactly when the connection alarm is raised, what a stop request leads to,
    and how a connect cycle comes to listen. */
module SupervisionOutages {
  import opened Options
  import opened Supervision
  import opened SupervisionSafety

  // ----- What a reset answer leads to -----

  ghost predicate LeadsTo(cfg: Config, s: State, answer: Answer, t: State) {
    && t.stopping == s.stopping
    && t.wait == (if s.wait.HandlerReset? then CycleHandlers(!answer.Unanswered?)
                  else if answer.Unanswered? then Teardown
                  else if s.wait.FirstReset? && cfg.hasCycleHandlers then CycleHandlers(true)
                  else ListenHead)
    && t.nextKeepalive == if t.wait.ListenHead? && (s.wait.FirstReset? || s.wait.SecondReset?)
                          then s.now + cfg.KeepalivePeriod() else s.nextKeepalive
  }

  lemma FirstResetLeads(cfg: Config, s: State, answer: Answer)
    requires s.wait.FirstReset?
    ensures LeadsTo(cfg, s, answer, ResumeReset(cfg, s, answer).value)
  {
    EnterSupervisedFrame(NoteReset(s, answer));
  }

  lemma FeedResetLeads(cfg: Config, s: State, answer: Answer)
    requires s.wait.FeedReset?
    ensures LeadsTo(cfg, s, answer, ResumeReset(cfg, s, answer).value)
  {
    var t := NoteReset(s, answer);
    EnterSupervisedFrame(t.(wait := ListenHead, deadline := DeadlineFrom(cfg, t.now, answer)));
  }

  lemma OtherResetLeads(cfg: Config, s: State, answer: Answer)
    requires s.wait.HandlerReset? || s.wait.SecondReset? || s.wait.RecoveryReset?
    ensures LeadsTo(cfg, s, answer, ResumeReset(cfg, s, answer).value)
  {
  }

  lemma ResetAnswerLeads(cfg: Config, s: State, answer: Answer)
    requires ResumeReset(cfg, s, answer).Some?
    ensures LeadsTo(cfg, s, answer, ResumeReset(cfg, s, answer).value)
    ensures s.wait.FirstReset? || s.wait.HandlerReset? || s.wait.SecondReset? || s.wait.RecoveryReset? || s.wait.FeedReset?
  {
    match s.wait
    case FirstReset => FirstResetLeads(cfg, s, answer);
    case FeedReset => FeedResetLeads(cfg, s, answer);
    case _ => OtherResetLeads(cfg, s, answer);
  }

  // ----- The connection alarm -----

  /** The input ends a connect attempt that yields no pair of sessions. */
  predicate AttemptEnds(s: State, input: Input) {
    || (input.ConnectFailed? && (s.wait.CommandConnect? || s.wait.CallHome?))
    || (input == CallHomePeer(false) && s.wait.CallHome?)
    || (input.ClosedDown? && s.wait.HalfPairClose?)
  }

  /** The input ends a connect cycle, its sessions closed. */
  predicate CycleEnds(s: State, input: Input) {
    input.ClosedDown? && s.wait.Teardown?
  }

  /** The connection is lost: an attempt or a cycle ends, and not because of a stop request. */
  predicate Loses(s: State, input: Input) {
    (AttemptEnds(s, input) || CycleEnds(s, input)) && !s.stopping
  }

  predicate Subscribes(s: State, input: Input) {
    input.Subscribed? && s.wait.Subscribe?
  }

  /** What a step does to the connection alarm. */
  ghost predicate AlarmFollows(s: State, input: Input, t: State) {
    t.connectionAlarm == if Loses(s, input) then true else if Subscribes(s, input) then false else s.connectionAlarm
  }

  lemma ConnectedAlarm(cfg: Config, s: State, input: Input)
    requires input.ConnectOk? || input.CallHomePeer?
    ensures var t := Resume(cfg, s, input); t.Some? ==> AlarmFollows(s, input, t.value)
  {
  }

  lemma NotConnectedAlarm(cfg: Config, s: State, input: Input)
    requires input.ConnectFailed? || input.Subscribed?
    ensures var t := Resume(cfg, s, input); t.Some? ==> AlarmFollows(s, input, t.value)
  {
  }

  lemma ClosedDownAlarm(cfg: Config, s: State)
    ensures var t := Resume(cfg, s, ClosedDown); t.Some? ==> AlarmFollows(s, ClosedDown, t.value)
  {
    CloseSessionsFrame(s);
  }

  lemma ListenInputsAlarm(cfg: Config, s: State, input: Input)
    requires input.Proceed? || input.KeepaliveOk? || input.TakeTimedOut? || input.Dispatched? || input.SessionError?
    ensures var t := Resume(cfg, s, input); t.Some? ==> AlarmFollows(s, input, t.value)
  {
  }

  lemma RemainingInputsAlarm(cfg: Config, s: State, input: Input)
    requires input.HandlersStillRunning? || input.HandlersDone? || input.Woken? || input.Arrival? || input.StopRequested?
             || input.LinkDropped?
    ensures var t := Resume(cfg, s, input); t.Some? ==> AlarmFollows(s, input, t.value)
  {
  }

  lemma TakenAlarm(cfg: Config, s: State)
    ensures var t := Resume(cfg, s, Taken); t.Some? ==> AlarmFollows(s, Taken, t.value)
  {
    if (s.wait.Poll? || s.wait.Take?) && s.queue != [] {
      HandleNotificationFrame(s);
    }
  }

  /** A subscribed session's reset finds the alarm clear and leaves it so. */
  lemma ResetAnswerAlarm(cfg: Config, s: State, answer: Answer)
    requires UpAndSubscribed(s.wait) && !s.connectionAlarm
    ensures var t := ResumeReset(cfg, s, answer); t.Some? ==> !t.value.connectionAlarm
  {
    var t := NoteReset(s, answer);
    if s.wait.FirstReset? {
      EnterSupervisedFrame(t);
    } else if s.wait.FeedReset? {
      EnterSupervisedFrame(t.(wait := ListenHead, deadline := DeadlineFrom(cfg, t.now, answer)));
    }
  }

  lemma StepAlarm(cfg: Config, s: State, e: Event)
    requires cfg.Valid() && Invariant(cfg, s) && Step(cfg, s, e).Some?
    ensures AlarmFollows(s, e.input, Step(cfg, s, e).value)
  {
    var t := s.(now := e.at);
    match e.input
    case ResetAnswer(answer) => ResetAnswerAlarm(cfg, t, answer);
    case Taken => TakenAlarm(cfg, t);
    case ClosedDown => ClosedDownAlarm(cfg, t);
    case ConnectOk => ConnectedAlarm(cfg, t, e.input);
    case ConnectFailed => NotConnectedAlarm(cfg, t, e.input);
    case CallHomePeer(_) => ConnectedAlarm(cfg, t, e.input);
    case Subscribed => NotConnectedAlarm(cfg, t, e.input);
    case Proceed => ListenInputsAlarm(cfg, t, e.input);
    case KeepaliveOk => ListenInputsAlarm(cfg, t, e.input);
    case TakeTimedOut => ListenInputsAlarm(cfg, t, e.input);
    case Dispatched => ListenInputsAlarm(cfg, t, e.input);
    case SessionError => ListenInputsAlarm(cfg, t, e.input);
    case _ => RemainingInputsAlarm(cfg, t, e.input);
  }

  /** The k-th event of a run loses the connection, or completes a subscription. */
  ghost predicate LosesAt(cfg: Config, events: seq<Event>, k: int) {
    0 <= k < |events| && var s := Run(cfg, Initial(), events[..k]); s.Some? && Loses(s.value, events[k].input)
  }

  ghost predicate SubscribesAt(cfg: Config, events: seq<Event>, k: int) {
    0 <= k < |events| && var s := Run(cfg, Initial(), events[..k]); s.Some? && Subscribes(s.value, events[k].input)
  }

  /** Since the k-th event lost the connection, no subscription was completed. */
  ghost predicate LostSince(cfg: Config, events: seq<Event>, k: int) {
    LosesAt(cfg, events, k) && forall j :: k < j < |events| ==> !SubscribesAt(cfg, events, j)
  }

  ghost predicate Lost(cfg: Config, events: seq<Event>) {
    exists k :: LostSince(cfg, events, k)
  }

  lemma EarlierEvents(cfg: Config, events: seq<Event>, k: int)
    requires 0 <= k < |events| - 1
    ensures LosesAt(cfg, events[..|events| - 1], k) == LosesAt(cfg, events, k)
    ensures SubscribesAt(cfg, events[..|events| - 1], k) == SubscribesAt(cfg, events, k)
  {
    assert events[..|events| - 1][..k] == events[..k];
  }

  /** One more event keeps what was lost, unless it completes a subscription. */
  lemma StaysLost(cfg: Config, events: seq<Event>, k: int)
    requires 0 <= k < |events| - 1
    ensures LostSince(cfg, events, k)
            <==> LostSince(cfg, events[..|events| - 1], k) && !SubscribesAt(cfg, events, |events| - 1)
  {
    var n := |events| - 1;
    forall j | 0 <= j < n
      ensures LosesAt(cfg, events[..n], j) == LosesAt(cfg, events, j)
      ensures SubscribesAt(cfg, events[..n], j) == SubscribesAt(cfg, events, j)
    {
      EarlierEvents(cfg, events, j);
    }
  }

  lemma LostStep(cfg: Config, events: seq<Event>)
    requires events != []
    ensures var n := |events| - 1;
            Lost(cfg, events) <==> LosesAt(cfg, events, n) || (!SubscribesAt(cfg, events, n) && Lost(cfg, events[..n]))
  {
    var n := |events| - 1;
    assert LosesAt(cfg, events, n) <==> LostSince(cfg, events, n);
    forall k | 0 <= k < n
      ensures LostSince(cfg, events, k) <==> LostSince(cfg, events[..n], k) && !SubscribesAt(cfg, events, n)
    {
      StaysLost(cfg, events, k);
    }
    if Lost(cfg, events) && !LosesAt(cfg, events, n) {
      var k :| LostSince(cfg, events, k);
      assert LostSince(cfg, events[..n], k);
    }
    if Lost(cfg, events[..n]) && !SubscribesAt(cfg, events, n) {
      var k :| LostSince(cfg, events[..n], k);
      assert LostSince(cfg, events, k);
    }
  }

  /** Over every run, as an observer of the acts sees it: the connection alarm is raised exactly when an attempt
      failed or a cycle ended, in either case without a stop request, since the last completed subscription. */
  lemma {:induction false} LossIsRaisedIff(cfg: Config, events: seq<Event>)
    requires cfg.Valid() && Run(cfg, Initial(), events).Some?
    ensures SeenIn(Run(cfg, Initial(), events).value.log, cfg.Budget()).lossRaised <==> Lost(cfg, events)
  {
    RunsKeepInvariant(cfg, events);
    if events == [] {
    } else {
      var earlier := events[..|events| - 1];
      LossIsRaisedIff(cfg, earlier);
      RunsKeepInvariant(cfg, earlier);
      StepAlarm(cfg, Run(cfg, Initial(), earlier).value, events[|events| - 1]);
      LostStep(cfg, events);
    }
  }

  /** The O-RU out of reach at start-up: every attempt that fails, from the first on, waits with the alarm raised. */
  lemma UnreachableIsRaised(cfg: Config, s: State, e: Event)
    requires cfg.Valid() && Reachable(cfg, s) && Step(cfg, s, e).Some? && AttemptEnds(s, e.input) && !s.stopping
    ensures var t := Step(cfg, s, e).value; t.wait.Backoff? && SeenIn(t.log, cfg.Budget()).lossRaised && t.phase == Disconnected
  {
    var events :| Run(cfg, Initial(), events) == Some(s);
    RunsKeepInvariant(cfg, events);
    StepKeepsInvariant(cfg, s, e);
    AttemptEndsInBackoff(cfg, s.(now := e.at), e.input);
  }

  lemma AttemptEndsInBackoff(cfg: Config, s: State, input: Input)
    requires Resume(cfg, s, input).Some? && AttemptEnds(s, input) && !s.stopping
    ensures var t := Resume(cfg, s, input).value; t.wait.Backoff? && t.phase == Disconnected && t.connectionAlarm
  {
    CloseSessionsFrame(s);
  }

  // ----- A stop request -----

  /** A bound on the waits that can still end once a stop is requested, handlers that keep running aside. */
  function StepsToStop(w: Wait): nat {
    match w
    case Stopped => 0
    case LoopHead => 1
    case Teardown => 1
    case HalfPairClose => 1
    case Backoff => 2
    case ListenHead => 2
    case Dispatch => 3
    case FeedReset => 3
    case RecoveryReset => 3
    case SecondReset => 3
    case Take(_) => 4
    case Poll => 4
    case CycleHandlers(_) => 4
    case Keepalive => 5
    case HandlerReset => 5
    case FirstReset => 5
    case Subscribe => 6
    case NotificationConnect => 7
    case CallHome => 7
    case CommandConnect => 8
  }

  predicate WorldMoves(input: Input) {
    input.Arrival? || input.StopRequested? || input.LinkDropped?
  }

  ghost predicate NearerStop(s: State, t: State) {
    t.stopping && StepsToStop(t.wait) < StepsToStop(s.wait)
  }

  lemma ConnectInputsStop(cfg: Config, s: State, input: Input)
    requires s.stopping
    requires input.ConnectOk? || input.ConnectFailed? || input.CallHomePeer? || input.Subscribed?
    ensures var t := Resume(cfg, s, input); t.Some? ==> NearerStop(s, t.value)
  {
  }

  lemma ClosedDownStops(cfg: Config, s: State)
    requires s.stopping
    ensures var t := Resume(cfg, s, ClosedDown); t.Some? ==> NearerStop(s, t.value)
  {
    CloseSessionsFrame(s);
  }

  lemma ListenInputsStop(cfg: Config, s: State, input: Input)
    requires s.stopping
    requires input.Proceed? || input.KeepaliveOk? || input.TakeTimedOut? || input.Dispatched? || input.SessionError?
    ensures var t := Resume(cfg, s, input); t.Some? ==> NearerStop(s, t.value)
  {
  }

  lemma RemainingInputsStop(cfg: Config, s: State, input: Input)
    requires s.stopping && (input.HandlersDone? || input.Woken?)
    ensures var t := Resume(cfg, s, input); t.Some? ==> NearerStop(s, t.value)
  {
  }

  lemma TakenStops(cfg: Config, s: State)
    requires s.stopping
    ensures var t := Resume(cfg, s, Taken); t.Some? ==> NearerStop(s, t.value)
  {
    if (s.wait.Poll? || s.wait.Take?) && s.queue != [] {
      HandleNotificationFrame(s);
    }
  }

  lemma ResetAnswerStops(cfg: Config, s: State, answer: Answer)
    requires s.stopping
    ensures var t := ResumeReset(cfg, s, answer); t.Some? ==> NearerStop(s, t.value)
  {
    if ResumeReset(cfg, s, answer).Some? {
      ResetAnswerLeads(cfg, s, answer);
    }
  }

  lemma StopStep(cfg: Config, s: State, e: Event)
    requires s.stopping && Step(cfg, s, e).Some? && !e.input.HandlersStillRunning?
    ensures var t := Step(cfg, s, e).value;
            t.stopping && if WorldMoves(e.input) then t.wait == s.wait else StepsToStop(t.wait) < StepsToStop(s.wait)
  {
    var t := s.(now := e.at);
    match e.input
    case ResetAnswer(answer) => ResetAnswerStops(cfg, t, answer);
    case Taken => TakenStops(cfg, t);
    case ClosedDown => ClosedDownStops(cfg, t);
    case ConnectOk => ConnectInputsStop(cfg, t, e.input);
    case ConnectFailed => ConnectInputsStop(cfg, t, e.input);
    case CallHomePeer(_) => ConnectInputsStop(cfg, t, e.input);
    case Subscribed => ConnectInputsStop(cfg, t, e.input);
    case Proceed => ListenInputsStop(cfg, t, e.input);
    case KeepaliveOk => ListenInputsStop(cfg, t, e.input);
    case TakeTimedOut => ListenInputsStop(cfg, t, e.input);
    case Dispatched => ListenInputsStop(cfg, t, e.input);
    case SessionError => ListenInputsStop(cfg, t, e.input);
    case HandlersDone => RemainingInputsStop(cfg, t, e.input);
    case Woken => RemainingInputsStop(cfg, t, e.input);
    case _ =>
  }

  /** The waits that end in a run. */
  function Ended(events: seq<Event>): nat {
    if events == [] then 0
    else Ended(events[..|events| - 1]) + if WorldMoves(events[|events| - 1].input) then 0 else 1
  }

  /** Once a stop is requested, at most eight more waits end, whatever the O-RU does, unless cycle handlers keep
      running. */
  lemma {:induction false} StopEndsRun(cfg: Config, s: State, events: seq<Event>)
    requires s.stopping && Run(cfg, s, events).Some?
    requires forall i :: 0 <= i < |events| ==> !events[i].input.HandlersStillRunning?
    ensures var t := Run(cfg, s, events).value; t.stopping && Ended(events) + StepsToStop(t.wait) <= StepsToStop(s.wait) <= 8
  {
    if events != [] {
      var n := |events| - 1;
      StopEndsRun(cfg, s, events[..n]);
      StopStep(cfg, Run(cfg, s, events[..n]).value, events[n]);
    }
  }

  /** How a wait of the session can end. */
  function SomeEnd(s: State): Input {
    match s.wait
    case LoopHead => Proceed
    case ListenHead => Proceed
    case CommandConnect => ConnectFailed
    case NotificationConnect => ConnectFailed
    case CallHome => ConnectFailed
    case HalfPairClose => ClosedDown
    case Teardown => ClosedDown
    case Subscribe => Subscribed
    case CycleHandlers(_) => HandlersDone
    case Keepalive => KeepaliveOk
    case Poll => Taken
    case Take(_) => if s.queue == [] then TakeTimedOut else Taken
    case Dispatch => Dispatched
    case Backoff => Woken
    case _ => ResetAnswer(Rejected)
  }

  /** Only a stopped session has no wait that can end: every other one moves on, given time. */
  lemma StoppedIff(cfg: Config, s: State)
    ensures s.wait.Stopped?
            <==> forall e: Event :: s.now <= e.at && !WorldMoves(e.input) ==> Step(cfg, s, e).None?
  {
    if !s.wait.Stopped? {
      var e := Event(if s.wait.Take? then Max(s.now, s.wait.until) else s.now, SomeEnd(s));
      assert Step(cfg, s, e).Some?;
    } else {
      forall e: Event | s.now <= e.at && !WorldMoves(e.input) ensures Step(cfg, s, e).None? {
        StoppedIsFinal(cfg, s.(now := e.at), e.input);
      }
    }
  }

  lemma StoppedIsFinal(cfg: Config, s: State, input: Input)
    requires s.wait.Stopped? && !WorldMoves(input)
    ensures Resume(cfg, s, input).None?
  {
  }

  // ----- Coming to listen -----

  /** The listen loop is entered from outside only on an answered reset: the first one of a cycle when there are no
      cycle handlers, else one sent after they returned; and that one is sent only if the reset before them and
      every reset during them was answered. A reset that stayed unanswered ends the cycle once they return. */
  ghost predicate ListensProperly(cfg: Config, s: State, input: Input, t: State) {
    && (t.wait.ListenHead? && !Listening(s.wait) ==>
          && input.ResetAnswer? && !input.answer.Unanswered?
          && (s.wait.SecondReset? || (s.wait.FirstReset? && !cfg.hasCycleHandlers)))
    && (t.wait.SecondReset? && !s.wait.SecondReset? ==> s.wait == CycleHandlers(true) && input.HandlersDone?)
    && (t.wait == CycleHandlers(true) && s.wait != t.wait ==>
          (s.wait.FirstReset? || s.wait.HandlerReset?) && input.ResetAnswer? && !input.answer.Unanswered?)
    && (s.wait == CycleHandlers(false) ==> t.wait == s.wait || t.wait.Teardown?)
  }

  lemma ConnectInputsListen(cfg: Config, s: State, input: Input)
    requires input.ConnectOk? || input.ConnectFailed? || input.CallHomePeer? || input.Subscribed?
    ensures var t := Resume(cfg, s, input); t.Some? ==> ListensProperly(cfg, s, input, t.value)
  {
  }

  lemma ClosedDownListens(cfg: Config, s: State)
    ensures var t := Resume(cfg, s, ClosedDown); t.Some? ==> ListensProperly(cfg, s, ClosedDown, t.value)
  {
    CloseSessionsFrame(s);
  }

  lemma ListenInputsListen(cfg: Config, s: State, input: Input)
    requires input.Proceed? || input.KeepaliveOk? || input.TakeTimedOut? || input.Dispatched? || input.SessionError?
    ensures var t := Resume(cfg, s, input); t.Some? ==> ListensProperly(cfg, s, input, t.value)
  {
  }

  lemma RemainingInputsListen(cfg: Config, s: State, input: Input)
    requires input.HandlersStillRunning? || input.HandlersDone? || input.Woken? || WorldMoves(input)
    ensures var t := Resume(cfg, s, input); t.Some? ==> ListensProperly(cfg, s, input, t.value)
  {
  }

  lemma TakenListens(cfg: Config, s: State)
    ensures var t := Resume(cfg, s, Taken); t.Some? ==> ListensProperly(cfg, s, Taken, t.value)
  {
    if (s.wait.Poll? || s.wait.Take?) && s.queue != [] {
      HandleNotificationFrame(s);
    }
  }

  lemma ResetAnswerListens(cfg: Config, s: State, answer: Answer)
    ensures var t := ResumeReset(cfg, s, answer); t.Some? ==> ListensProperly(cfg, s, ResetAnswer(answer), t.value)
  {
    if ResumeReset(cfg, s, answer).Some? {
      ResetAnswerLeads(cfg, s, answer);
    }
  }

  lemma ListeningIsEntered(cfg: Config, s: State, e: Event)
    requires Step(cfg, s, e).Some?
    ensures ListensProperly(cfg, s, e.input, Step(cfg, s, e).value)
  {
    var t := s.(now := e.at);
    match e.input
    case ResetAnswer(answer) => ResetAnswerListens(cfg, t, answer);
    case Taken => TakenListens(cfg, t);
    case ClosedDown => ClosedDownListens(cfg, t);
    case ConnectOk => ConnectInputsListen(cfg, t, e.input);
    case ConnectFailed => ConnectInputsListen(cfg, t, e.input);
    case CallHomePeer(_) => ConnectInputsListen(cfg, t, e.input);
    case Subscribed => ConnectInputsListen(cfg, t, e.input);
    case Proceed => ListenInputsListen(cfg, t, e.input);
    case KeepaliveOk => ListenInputsListen(cfg, t, e.input);
    case TakeTimedOut => ListenInputsListen(cfg, t, e.input);
    case Dispatched => ListenInputsListen(cfg, t, e.input);
    case SessionError => ListenInputsListen(cfg, t, e.input);
    case _ => RemainingInputsListen(cfg, t, e.input);
  }

  /** The keepalive read on the command session comes due no later than half the interval, between 0.05 and 150
      seconds, after the last one or after listening began. */
  lemma KeepaliveComesDue(cfg: Config, s: State, e: Event)
    requires Step(cfg, s, e).Some? && Step(cfg, s, e).value.nextKeepalive != s.nextKeepalive
    ensures var due := Step(cfg, s, e).value.nextKeepalive;
            && (e.input.KeepaliveOk? || (e.input.ResetAnswer? && Step(cfg, s, e).value.wait.ListenHead? && !Listening(s.wait)))
            && e.at + 0.05 <= due <= e.at + 150.0
            && (0.1 <= cfg.interval <= 300.0 ==> due == e.at + cfg.interval / 2.0)
  {
    KeepaliveMoves(cfg, s.(now := e.at), e.input);
  }

  lemma KeepaliveMoves(cfg: Config, s: State, input: Input)
    requires Resume(cfg, s, input).Some?
    ensures KeepaliveFollows(cfg, s, input, Resume(cfg, s, input).value)
  {
    match input
    case ResetAnswer(answer) => ResetAnswerKeepalive(cfg, s, answer);
    case ClosedDown => CloseSessionsFrame(s);
    case ConnectOk => ConnectInputsKeepalive(cfg, s, input);
    case ConnectFailed => ConnectInputsKeepalive(cfg, s, input);
    case CallHomePeer(_) => ConnectInputsKeepalive(cfg, s, input);
    case Subscribed => ConnectInputsKeepalive(cfg, s, input);
    case Taken => TakenKeepalive(cfg, s);
    case _ =>
  }

  ghost predicate KeepaliveFollows(cfg: Config, s: State, input: Input, t: State) {
    t.nextKeepalive == s.nextKeepalive ||
    (t.nextKeepalive == s.now + cfg.KeepalivePeriod() &&
     (input.KeepaliveOk? || (input.ResetAnswer? && t.wait.ListenHead? && !Listening(s.wait))))
  }

  lemma ConnectInputsKeepalive(cfg: Config, s: State, input: Input)
    requires input.ConnectOk? || input.ConnectFailed? || input.CallHomePeer? || input.Subscribed?
    ensures var t := Resume(cfg, s, input); t.Some? ==> KeepaliveFollows(cfg, s, input, t.value)
  {
  }

  lemma TakenKeepalive(cfg: Config, s: State)
    ensures var t := Resume(cfg, s, Taken); t.Some? ==> KeepaliveFollows(cfg, s, Taken, t.value)
  {
    if (s.wait.Poll? || s.wait.Take?) && s.queue != [] {
      HandleNotificationFrame(s);
    }
  }

  lemma ResetAnswerKeepalive(cfg: Config, s: State, answer: Answer)
    ensures var t := ResumeReset(cfg, s, answer); t.Some? ==> KeepaliveFollows(cfg, s, ResetAnswer(answer), t.value)
  {
    if ResumeReset(cfg, s, answer).Some? {
      ResetAnswerLeads(cfg, s, answer);
    }
  }

  /** The head of the listen loop: a stop request or a dropped session ends the cycle; a due keepalive is read;
      an overdue session looks for a notification without waiting; any other waits for one. */
  lemma ListenHeadLeads(cfg: Config, s: State, e: Event)
    requires s.wait.ListenHead? && s.now <= e.at && e.input.Proceed?
    ensures Step(cfg, s, e).Some?
    ensures var t := Step(cfg, s, e).value;
            && (t.wait.Teardown? <==> s.stopping || !s.linkUp)
            && (t.wait.Keepalive? <==> !s.stopping && s.linkUp && s.nextKeepalive <= e.at)
            && (t.wait.Poll? ==> s.deadline <= e.at < s.nextKeepalive)
            && (t.wait.Take? ==> e.at < s.deadline && e.at < s.nextKeepalive && t.wait.until <= e.at + cfg.pollCap)
            && (t.wait.Teardown? || t.wait.Keepalive? || t.wait.Poll? || t.wait.Take?)
  {
  }

  // ----- Trying again -----

  /** After a backoff the session dials again, or waits for the O-RU to, unless a stop was requested. */
  lemma BackoffEndsInAttempt(cfg: Config, s: State, woken: real, proceeds: real)
    requires s.wait.Backoff? && !s.stopping && s.now <= woken <= proceeds
    ensures var events := [Event(woken, Woken), Event(proceeds, Proceed)];
            && Run(cfg, s, events).Some?
            && var t := Run(cfg, s, events).value;
               t.phase == Connecting && if cfg.callHome then t.wait.CallHome? else t.wait.CommandConnect?
  {
    var events := [Event(woken, Woken), Event(proceeds, Proceed)];
    assert events[..1] == [Event(woken, Woken)] && events[..1][..0] == [];
    assert Run(cfg, s, []) == Some(s);
    assert Run(cfg, s, events[..1]) == Step(cfg, s, events[0]);
  }

  /** Starving again while DEGRADED is noted, and changes nothing else that can be observed. */
  lemma StarvesAgain(cfg: Config, s: State, e: Event)
    requires s.phase == Degraded && s.wait.Poll? && s.queue == [] && s.now <= e.at && e.input.Taken?
    ensures Step(cfg, s, e).Some?
    ensures Step(cfg, s, e).value == s.(now := e.at, log := Then(s.log, Starved(e.at)), wait := RecoveryReset)
  {
  }
}
