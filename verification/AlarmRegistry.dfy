/** The adapter's alarm registry: definitions, alarm states, and one event per state change.

    The transitions are functions on a registry value, one per critical section of the manager's lock;
    the class below applies them in place. Messages (M) and details (D) are opaque but comparable, as
    the registry only ever compares them. */
module AlarmRegistry {
  import opened Options

  datatype Severity = CRITICAL | MAJOR | MINOR | WARNING | INDETERMINATE | CLEARED

  datatype Trend = MoreSevere | NoChange | LessSevere

  datatype Definition = Definition(id: int, name: string, kind: string, defaultSeverity: Severity, defaultTrend: Trend)

  datatype AlarmState<M, D> = AlarmState(definition: Definition, active: bool, severity: Severity, trend: Trend,
                                         message: Option<M>, details: Option<D>)

  datatype Event<M, D> = Event(id: int, becameActive: bool, oldSeverity: Severity, newSeverity: Severity,
                               message: Option<M>, details: Option<D>)

  /** The alarm states by id, and the events built so far, in the order the lock was taken. */
  datatype Registry<M, D> = Registry(states: map<int, AlarmState<M, D>>, log: seq<Event<M, D>>)

  datatype Section<M, D> =
    | RegisterSection(definition: Definition)
    | SetSection(id: int, severity: Option<Severity>, trend: Option<Trend>, message: Option<M>, details: Option<D>)
    | ClearSection(id: int, message: Option<M>, details: Option<D>)

  function EmptyRegistry<M, D>(): Registry<M, D> {
    Registry(map[], [])
  }

  function Fresh<M, D>(definition: Definition): AlarmState<M, D> {
    AlarmState(definition, false, CLEARED, NoChange, None, None)
  }

  /** The alarm after being raised or updated; severity and trend default to the definition's. */
  function Raised<M, D>(s: AlarmState<M, D>, severity: Option<Severity>, trend: Option<Trend>,
                        message: Option<M>, details: Option<D>): AlarmState<M, D> {
    s.(active := true, severity := severity.GetOr(s.definition.defaultSeverity),
    trend := trend.GetOr(s.definition.defaultTrend), message := message, details := details)
  }

  function Cleared<M, D>(s: AlarmState<M, D>, message: Option<M>, details: Option<D>): AlarmState<M, D> {
    s.(active := false, severity := CLEARED,
    trend := if s.severity != CLEARED then LessSevere else NoChange, message := message, details := details)
  }

  /** The event announcing that alarm `id` went from state s to state t. */
  function Announce<M, D>(id: int, s: AlarmState<M, D>, t: AlarmState<M, D>): Event<M, D> {
    Event(id, t.active, s.severity, t.severity, t.message, t.details)
  }

  /** One critical section. A set is a no-op when nothing would change; a clear is a no-op when the alarm
      is already cleared with the same message and details; an unknown id changes nothing (the manager
      raises KeyError), and neither does registering an id twice (ValueError). */
  function Apply<M(==), D(==)>(reg: Registry<M, D>, section: Section<M, D>): Registry<M, D> {
    match section
    case RegisterSection(definition) =>
      if definition.id in reg.states then reg
      else reg.(states := reg.states[definition.id := Fresh(definition)])
    case SetSection(id, severity, trend, message, details) =>
      if id !in reg.states then reg
      else
        var s := reg.states[id];
        var t := Raised(s, severity, trend, message, details);
        if t == s then reg else Registry(reg.states[id := t], reg.log + [Announce(id, s, t)])
    case ClearSection(id, message, details) =>
      if id !in reg.states then reg
      else
        var s := reg.states[id];
        if !s.active && s.severity == CLEARED && s.message == message && s.details == details then reg
        else Registry(reg.states[id := Cleared(s, message, details)],
                      reg.log + [Announce(id, s, Cleared(s, message, details))])
  }

  /** A run of critical sections, in the order the lock was taken. */
  function ApplyAll<M(==), D(==)>(reg: Registry<M, D>, sections: seq<Section<M, D>>): Registry<M, D> {
    if sections == [] then reg else Apply(ApplyAll(reg, sections[..|sections| - 1]), sections[|sections| - 1])
  }

  predicate IsActive<M, D>(reg: Registry<M, D>, id: int) {
    id in reg.states && reg.states[id].active
  }

  // ----- Event sourcing -----

  /** The events of one alarm, in order. */
  function EventsOf<M, D>(log: seq<Event<M, D>>, id: int): seq<Event<M, D>> {
    if log == [] then []
    else
      var earlier := EventsOf(log[..|log| - 1], id);
      if log[|log| - 1].id == id then earlier + [log[|log| - 1]] else earlier
  }

  /** The severity the last event left, CLEARED before any. */
  function FinalSeverity<M, D>(events: seq<Event<M, D>>): Severity {
    if events == [] then CLEARED else events[|events| - 1].newSeverity
  }

  /** Each event takes over the severity the previous one left, starting at CLEARED. */
  predicate Chained<M, D>(events: seq<Event<M, D>>) {
    events != [] ==>
      var earlier := events[..|events| - 1];
      Chained(earlier) && events[|events| - 1].oldSeverity == FinalSeverity(earlier)
  }

  /** The state of an alarm told from its events alone: the last one, or freshly registered. */
  ghost predicate ToldBy<M, D>(s: AlarmState<M, D>, events: seq<Event<M, D>>) {
    if events == [] then s == Fresh(s.definition)
    else
      var last := events[|events| - 1];
      && s.active == last.becameActive
      && s.severity == last.newSeverity
      && s.message == last.message
      && s.details == last.details
  }

  /** One alarm against its events: registered ones are told by them, others have none. */
  ghost predicate SourcedAt<M, D>(reg: Registry<M, D>, id: int) {
    var events := EventsOf(reg.log, id);
    && Chained(events)
    && (if id in reg.states then
          && reg.states[id].definition.id == id
          && (!reg.states[id].active ==> reg.states[id].severity == CLEARED)
          && ToldBy(reg.states[id], events)
        else events == [])
  }

  ghost predicate EventSourced<M(!new), D(!new)>(reg: Registry<M, D>) {
    forall id :: SourcedAt(reg, id)
  }

  lemma AppendedEvent<M, D>(log: seq<Event<M, D>>, e: Event<M, D>, id: int)
    ensures EventsOf(log + [e], id) == if e.id == id then EventsOf(log, id) + [e] else EventsOf(log, id)
  {
    assert (log + [e])[..|log|] == log;
  }

  lemma ChainGrows<M, D>(events: seq<Event<M, D>>, e: Event<M, D>)
    requires Chained(events)
    requires e.oldSeverity == FinalSeverity(events)
    ensures Chained(events + [e])
  {
    assert (events + [e])[..|events|] == events;
  }

  /** A change of one alarm together with its event. */
  lemma ChangeKeepsEventSourcing<M(!new), D(!new)>(reg: Registry<M, D>, id: int, t: AlarmState<M, D>)
    requires EventSourced(reg) && id in reg.states && t.definition == reg.states[id].definition
    requires !t.active ==> t.severity == CLEARED
    ensures EventSourced(Registry(reg.states[id := t], reg.log + [Announce(id, reg.states[id], t)]))
  {
    var e := Announce(id, reg.states[id], t);
    var next := Registry(reg.states[id := t], reg.log + [e]);
    forall i ensures SourcedAt(next, i) {
      assert SourcedAt(reg, i);
      AppendedEvent(reg.log, e, i);
      if i == id {
        ChainGrows(EventsOf(reg.log, id), e);
      }
    }
  }

  lemma SectionKeepsEventSourcing<M(!new), D(!new)>(reg: Registry<M, D>, section: Section<M, D>)
    requires EventSourced(reg)
    ensures EventSourced(Apply(reg, section))
  {
    match section
    case RegisterSection(definition) =>
      forall i ensures SourcedAt(Apply(reg, section), i) {
        assert SourcedAt(reg, i);
      }
    case SetSection(id, severity, trend, message, details) =>
      if id in reg.states {
        assert SourcedAt(reg, id);
        ChangeKeepsEventSourcing(reg, id, Raised(reg.states[id], severity, trend, message, details));
      }
    case ClearSection(id, message, details) =>
      if id in reg.states {
        assert SourcedAt(reg, id);
        ChangeKeepsEventSourcing(reg, id, Cleared(reg.states[id], message, details));
      }
  }

  /** For any interleaving of critical sections on a new registry: the events of each alarm chain from
      CLEARED, its state is told by its last event, and an inactive alarm is CLEARED. */
  lemma {:induction false} RunsAreEventSourced<M(!new), D(!new)>(sections: seq<Section<M, D>>)
    ensures EventSourced(ApplyAll(EmptyRegistry<M, D>(), sections))
  {
    if sections == [] {
    } else {
      RunsAreEventSourced(sections[..|sections| - 1]);
      SectionKeepsEventSourcing(ApplyAll(EmptyRegistry<M, D>(), sections[..|sections| - 1]), sections[|sections| - 1]);
    }
  }

  /** A section that emits nothing leaves every registered alarm as it was, and one that emits an event
      changes the state of that alarm only, and truly. */
  lemma EventIffChange<M, D>(reg: Registry<M, D>, section: Section<M, D>)
    ensures var next := Apply(reg, section);
            && |reg.log| <= |next.log| <= |reg.log| + 1
            && next.log[..|reg.log|] == reg.log
            && (next.log == reg.log ==> forall id :: id in reg.states ==> id in next.states && next.states[id] == reg.states[id])
            && (next.log != reg.log ==>
                  var changed := next.log[|reg.log|].id;
                  && changed in reg.states
                  && next.states.Keys == reg.states.Keys
                  && next.states[changed] != reg.states[changed]
                  && forall id :: id in reg.states && id != changed ==> next.states[id] == reg.states[id])
  {
  }

  /** Setting an alarm leaves it active with what was given, and for a severity or a trend that was not, its definition's;
      it is announced, from the severity it had, unless it was just so. */
  lemma SetTakes<M, D>(reg: Registry<M, D>, id: int, severity: Option<Severity>, trend: Option<Trend>, message: Option<M>,
                       details: Option<D>)
    requires id in reg.states
    ensures var next, before := Apply(reg, SetSection(id, severity, trend, message, details)), reg.states[id];
            && id in next.states
            && var after := next.states[id];
               && after.definition == before.definition && after.active && after.message == message && after.details == details
               && (severity.Some? ==> after.severity == severity.value)
               && (severity.None? ==> after.severity == before.definition.defaultSeverity)
               && (trend.Some? ==> after.trend == trend.value)
               && (trend.None? ==> after.trend == before.definition.defaultTrend)
               && next.log == if after == before then reg.log
                              else reg.log + [Event(id, true, before.severity, after.severity, message, details)]
  {
  }

  /** Clearing an alarm leaves it inactive and CLEARED with the given message and details; it is announced, from the
      severity it had, unless it was cleared with just these. */
  lemma ClearTakes<M, D>(reg: Registry<M, D>, id: int, message: Option<M>, details: Option<D>)
    requires id in reg.states
    ensures var next, before := Apply(reg, ClearSection(id, message, details)), reg.states[id];
            && id in next.states
            && var after := next.states[id];
               && after.definition == before.definition && !after.active && after.severity == CLEARED
               && after.message == message && after.details == details
               && (before.severity != CLEARED ==> after.trend == LessSevere)
               && (!before.active && before.severity == CLEARED && before.message == message && before.details == details
                   ==> after == before && next.log == reg.log)
               && (before.active || before.severity != CLEARED || before.message != message || before.details != details
                   ==> next.log == reg.log + [Event(id, false, before.severity, CLEARED, message, details)]
                       && (before.severity == CLEARED ==> after.trend == NoChange))
  {
  }

  /** An alarm registered anew is clear, without a message; one registered already, or unknown to a set or a clear, is
      left alone. */
  lemma RegisterTakes<M, D>(reg: Registry<M, D>, definition: Definition)
    ensures var next := Apply(reg, RegisterSection(definition));
            && next.log == reg.log && definition.id in next.states
            && (definition.id in reg.states ==> next == reg)
            && (definition.id !in reg.states ==>
                  next.states[definition.id] == AlarmState(definition, false, CLEARED, NoChange, None, None))
  {
  }

  // ----- The manager -----

  /** What a call on the manager comes back with. */
  datatype Outcome = Unchanged | Notified | NotifierFailed | NotRegistered | AlreadyRegistered

  /** The outcome of a section that led from `before` to `after`, when the k-th notification fails iff
      fails(k). */
  function OutcomeOf<M(==), D(==)>(before: Registry<M, D>, after: Registry<M, D>, fails: nat -> bool): Outcome {
    if after.log == before.log then Unchanged
    else if fails(|before.log|) then NotifierFailed
    else Notified
  }

  class AlarmManager<M(==), D(==)> {
    var defs: map<int, Definition>
    var states: map<int, AlarmState<M, D>>
    /** The events handed to the notifier; the k-th call fails (raises) iff notifierFails(k). */
    var emitted: seq<Event<M, D>>
    const notifierFails: nat -> bool

    ghost predicate Valid()
      reads this
    {
      && defs.Keys == states.Keys
      && forall id :: id in defs ==> defs[id] == states[id].definition
    }

    function Reg(): Registry<M, D>
      reads this
    {
      Registry(states, emitted)
    }

    constructor (notifierFails: nat -> bool)
      ensures Valid() && Reg() == EmptyRegistry() && this.notifierFails == notifierFails
    {
      defs, states, emitted := map[], map[], [];
      this.notifierFails := notifierFails;
    }

    method Register(definition: Definition) returns (outcome: Outcome)
      requires Valid()
      modifies this
      ensures Valid() && Reg() == Apply(old(Reg()), RegisterSection(definition))
      ensures outcome == if definition.id in old(states) then AlreadyRegistered else Unchanged
    {
      if definition.id in defs {
        return AlreadyRegistered;
      }
      defs := defs[definition.id := definition];
      states := states[definition.id := Fresh(definition)];
      outcome := Unchanged;
    }

    /** Whether the notifier fails or not, the registry ends up in the same state. */
    method SetAlarm(id: int, severity: Option<Severity>, trend: Option<Trend>, message: Option<M>, details: Option<D>)
      returns (outcome: Outcome)
      requires Valid()
      modifies this
      ensures Valid() && Reg() == Apply(old(Reg()), SetSection(id, severity, trend, message, details))
      ensures outcome == if id in old(states) then OutcomeOf(old(Reg()), Reg(), notifierFails) else NotRegistered
    {
      if id !in states {
        return NotRegistered;
      }
      var state := states[id];
      var oldSeverity := state.severity;
      var newSeverity := severity.GetOr(state.definition.defaultSeverity);
      var newTrend := trend.GetOr(state.definition.defaultTrend);
      var changed := !state.active || oldSeverity != newSeverity || state.trend != newTrend
                     || state.message != message || state.details != details;
      assert changed <==> Raised(state, severity, trend, message, details) != state;
      if !changed {
        return Unchanged;
      }
      states := states[id := AlarmState(state.definition, true, newSeverity, newTrend, message, details)];
      assert Valid() && states[id] == Raised(state, severity, trend, message, details);
      outcome := Emit(Event(id, true, oldSeverity, newSeverity, message, details));
    }

    method ClearAlarm(id: int, message: Option<M>, details: Option<D>) returns (outcome: Outcome)
      requires Valid()
      modifies this
      ensures Valid() && Reg() == Apply(old(Reg()), ClearSection(id, message, details))
      ensures outcome == if id in old(states) then OutcomeOf(old(Reg()), Reg(), notifierFails) else NotRegistered
    {
      if id !in states {
        return NotRegistered;
      }
      var state := states[id];
      if !state.active && state.severity == CLEARED && state.message == message && state.details == details {
        return Unchanged;
      }
      var oldSeverity := state.severity;
      var newTrend := if oldSeverity != CLEARED then LessSevere else NoChange;
      states := states[id := AlarmState(state.definition, false, CLEARED, newTrend, message, details)];
      outcome := Emit(Event(id, false, oldSeverity, CLEARED, message, details));
    }

    method Emit(event: Event<M, D>) returns (outcome: Outcome)
      modifies this`emitted
      ensures emitted == old(emitted) + [event]
      ensures outcome == if notifierFails(|old(emitted)|) then NotifierFailed else Notified
    {
      var k := |emitted|;
      emitted := emitted + [event];
      outcome := if notifierFails(k) then NotifierFailed else Notified;
    }
  }
}
