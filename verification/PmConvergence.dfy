/** Converging on the measurement objects an O-RU supports: the measurement edit is all-or-nothing, so the
    client drops the objects an rpc-error names and retries, and the bridge remembers the outcome. */
module PmConvergence {
  import opened Options

  /** The measurement objects requested, or active, per group the templates write. */
  datatype Groups = Groups(rxWindow: seq<string>, transceiver: seq<string>, tx: seq<string>, epe: seq<string>)

  const NONE := Groups([], [], [], [])

  /** The fronthaul reception-window counters requested when a config does not name any. */
  const DEFAULT_RX_WINDOW: seq<string> :=
    ["RX_ON_TIME", "RX_EARLY", "RX_LATE", "RX_CORRUPT", "RX_DUPL", "RX_TOTAL", "RX_ON_TIME_C", "RX_EARLY_C", "RX_LATE_C"]

  /** A measurement config; a group it does not carry is None. */
  datatype PmConfig = PmConfig(rxWindow: Option<seq<string>>, transceiver: Option<seq<string>>, tx: Option<seq<string>>,
                               epe: Option<seq<string>>)

  /** How one attempt at the measurement edit ends: accepted, skipped for lack of the role, rejected with
      an rpc-error whose text names some objects, or lost with the transport. */
  datatype Response = Accepted | Skipped | RpcError(named: set<string>) | TransportFailure

  /** An O-RU: its response to the k-th attempt at a set of groups. */
  type Oru = (nat, Groups) -> Response

  datatype Outcome = Active(groups: Groups) | Inactive | Raised(response: Response)

  function Keep(objects: seq<string>, kept: set<string>): seq<string> {
    if objects == [] then []
    else
      var earlier, last := Keep(objects[..|objects| - 1], kept), objects[|objects| - 1];
      if last in kept then earlier + [last] else earlier
  }

  function NamesIn(objects: seq<string>): set<string> {
    set o | o in objects
  }

  function Names(g: Groups): set<string> {
    NamesIn(g.rxWindow) + NamesIn(g.transceiver) + NamesIn(g.tx) + NamesIn(g.epe)
  }

  /** The groups restricted to some objects, in order. */
  function Only(g: Groups, kept: set<string>): Groups {
    Groups(Keep(g.rxWindow, kept), Keep(g.transceiver, kept), Keep(g.tx, kept), Keep(g.epe, kept))
  }

  /** What a config asks the O-RU for. */
  function Requested(c: PmConfig): Groups {
    Groups(c.rxWindow.GetOr(DEFAULT_RX_WINDOW), c.transceiver.GetOr([]), c.tx.GetOr([]), c.epe.GetOr([]))
  }

  // ----- Restriction -----

  lemma AppendedName(objects: seq<string>, last: string)
    ensures NamesIn(objects + [last]) == NamesIn(objects) + {last}
  {
  }

  lemma {:induction false} KeepContents(objects: seq<string>, kept: set<string>)
    ensures NamesIn(Keep(objects, kept)) == NamesIn(objects) * kept
    ensures Keep(objects, kept) == [] <==> NamesIn(objects) * kept == {}
  {
    if objects == [] {
    } else {
      var last := objects[|objects| - 1];
      var earlier := objects[..|objects| - 1];
      KeepContents(earlier, kept);
      assert objects == earlier + [last];
      AppendedName(earlier, last);
      AppendedName(Keep(earlier, kept), last);
    }
  }

  lemma {:induction false} KeepTwice(objects: seq<string>, a: set<string>, b: set<string>)
    ensures Keep(Keep(objects, a), b) == Keep(objects, a * b)
  {
    if objects == [] {
    } else {
      var earlier, last := Keep(objects[..|objects| - 1], a), objects[|objects| - 1];
      KeepTwice(objects[..|objects| - 1], a, b);
      if last in a {
        assert (earlier + [last])[..|earlier|] == earlier;
      }
    }
  }

  lemma {:induction false} KeepAll(objects: seq<string>, kept: set<string>)
    requires NamesIn(objects) <= kept
    ensures Keep(objects, kept) == objects
  {
    if objects == [] {
    } else {
      assert objects[|objects| - 1] in NamesIn(objects);
      assert NamesIn(objects[..|objects| - 1]) <= NamesIn(objects);
      KeepAll(objects[..|objects| - 1], kept);
    }
  }

  lemma {:induction false} KeepSame(objects: seq<string>, a: set<string>, b: set<string>)
    requires NamesIn(objects) * a == NamesIn(objects) * b
    ensures Keep(objects, a) == Keep(objects, b)
  {
    if objects == [] {
    } else {
      var earlier, last := objects[..|objects| - 1], objects[|objects| - 1];
      assert NamesIn(objects) == NamesIn(earlier) + {last};
      assert last in a <==> last in NamesIn(objects) * a;
      assert NamesIn(earlier) * a == NamesIn(earlier) * (NamesIn(objects) * a);
      assert NamesIn(earlier) * b == NamesIn(earlier) * (NamesIn(objects) * b);
      KeepSame(earlier, a, b);
    }
  }

  lemma OnlyContents(g: Groups, kept: set<string>)
    ensures Names(Only(g, kept)) == Names(g) * kept
  {
    KeepContents(g.rxWindow, kept);
    KeepContents(g.transceiver, kept);
    KeepContents(g.tx, kept);
    KeepContents(g.epe, kept);
  }

  lemma OnlyTwice(g: Groups, a: set<string>, b: set<string>)
    ensures Only(Only(g, a), b) == Only(g, a * b)
  {
    KeepTwice(g.rxWindow, a, b);
    KeepTwice(g.transceiver, a, b);
    KeepTwice(g.tx, a, b);
    KeepTwice(g.epe, a, b);
  }

  lemma OnlyAll(g: Groups, kept: set<string>)
    requires Names(g) <= kept
    ensures Only(g, kept) == g
  {
    KeepAll(g.rxWindow, kept);
    KeepAll(g.transceiver, kept);
    KeepAll(g.tx, kept);
    KeepAll(g.epe, kept);
  }

  lemma OnlySame(g: Groups, a: set<string>, b: set<string>)
    requires Names(g) * a == Names(g) * b
    ensures Only(g, a) == Only(g, b)
  {
    forall objects | objects in {g.rxWindow, g.transceiver, g.tx, g.epe} ensures Keep(objects, a) == Keep(objects, b) {
      assert NamesIn(objects) * a == NamesIn(objects) * (Names(g) * a);
      assert NamesIn(objects) * b == NamesIn(objects) * (Names(g) * b);
      KeepSame(objects, a, b);
    }
  }

  lemma NoNamesNoGroups(g: Groups)
    ensures Names(g) == {} <==> g == NONE
  {
    if g != NONE {
      var objects :| objects in {g.rxWindow, g.transceiver, g.tx, g.epe} && objects != [];
      assert objects[0] in NamesIn(objects);
    }
  }

  // ----- Support -----

  /** The objects an O-RU supports, group by group. */
  datatype Support = Support(rxWindow: set<string>, transceiver: set<string>, tx: set<string>, epe: set<string>)

  /** The names requested in some group that does not support them. */
  function Unsupported(g: Groups, s: Support): set<string> {
    (NamesIn(g.rxWindow) - s.rxWindow) + (NamesIn(g.transceiver) - s.transceiver)
    + (NamesIn(g.tx) - s.tx) + (NamesIn(g.epe) - s.epe)
  }

  /** The names requested in some group that supports them. */
  function Somewhere(g: Groups, s: Support): set<string> {
    NamesIn(g.rxWindow) * s.rxWindow + NamesIn(g.transceiver) * s.transceiver
    + NamesIn(g.tx) * s.tx + NamesIn(g.epe) * s.epe
  }

  /** The names supported in every group that requests them. */
  function Everywhere(g: Groups, s: Support): set<string> {
    Names(g) - Unsupported(g, s)
  }

  predicate Fits(g: Groups, s: Support) {
    Unsupported(g, s) == {}
  }

  /** What the O-RU could measure of a request: each group's supported objects, in order. */
  function GroupWise(g: Groups, s: Support): Groups {
    Groups(Keep(g.rxWindow, s.rxWindow), Keep(g.transceiver, s.transceiver), Keep(g.tx, s.tx), Keep(g.epe, s.epe))
  }

  function OutcomeOf(g: Groups): Outcome {
    if g == NONE then Inactive else Active(g)
  }

  /** An O-RU that accepts exactly the requests it supports, and whose rpc-error names some of the requested
      objects it does not support in a group that requests them, and no other requested object. */
  ghost predicate Honest(oru: Oru, s: Support) {
    forall k, g :: Names(g) != {} ==> HonestAt(oru, s, k, g)
  }

  ghost predicate HonestAt(oru: Oru, s: Support, k: nat, g: Groups) {
    if Fits(g, s) then oru(k, g) == Accepted
    else oru(k, g).RpcError? && oru(k, g).named * Names(g) != {} && oru(k, g).named * Names(g) <= Unsupported(g, s)
  }

  /** One such O-RU: its rpc-error names all it does not support. */
  function Telling(s: Support): Oru {
    (k: nat, g: Groups) => if Fits(g, s) then Accepted else RpcError(Unsupported(g, s))
  }

  lemma TellingIsHonest(s: Support)
    ensures Honest(Telling(s), s)
  {
    forall k: nat, g: Groups | Names(g) != {} ensures HonestAt(Telling(s), s, k, g) {
      assert Unsupported(g, s) <= Names(g);
      assert Unsupported(g, s) * Names(g) == Unsupported(g, s);
    }
  }

  /** Restricting a request restricts what of it is unsupported. */
  lemma OnlyUnsupported(g: Groups, kept: set<string>, s: Support)
    ensures Unsupported(Only(g, kept), s) == Unsupported(g, s) * kept
  {
    KeepContents(g.rxWindow, kept);
    KeepContents(g.transceiver, kept);
    KeepContents(g.tx, kept);
    KeepContents(g.epe, kept);
  }

  lemma FitsIffEverywhere(g: Groups, s: Support)
    ensures Fits(g, s) <==> Names(g) <= Everywhere(g, s)
    ensures Fits(Only(g, Everywhere(g, s)), s)
  {
    assert Unsupported(g, s) <= Names(g);
    OnlyUnsupported(g, Everywhere(g, s), s);
  }

  // ----- Reject and retry -----

  lemma SmallerWithout(s: set<string>, gone: set<string>)
    requires gone <= s && gone != {}
    ensures |s - gone| < |s|
  {
    assert (s - gone) + gone == s;
    assert |(s - gone) + gone| == |s - gone| + |gone|;
  }

  lemma RejectionShrinks(g: Groups, rejected: set<string>)
    requires rejected <= Names(g) && rejected != {}
    ensures Names(Only(g, Names(g) - rejected)) == Names(g) - rejected
    ensures |Names(Only(g, Names(g) - rejected))| < |Names(g)|
  {
    OnlyContents(g, Names(g) - rejected);
    assert Names(g) * (Names(g) - rejected) == Names(g) - rejected;
    SmallerWithout(Names(g), rejected);
  }

  /** Reject and retry, from the k-th attempt: the outcome, and how many attempts were made in all. */
  function Converge(g: Groups, oru: Oru, k: nat): (Outcome, nat)
    decreases |Names(g)|
  {
    if g == NONE then (Inactive, k)
    else
      match oru(k, g)
      case Accepted => (Active(g), k + 1)
      case Skipped => (Inactive, k + 1)
      case TransportFailure => (Raised(TransportFailure), k + 1)
      case RpcError(named) =>
        var rejected := named * Names(g);
        if rejected == {} then (Raised(RpcError(named)), k + 1)
        else
          RejectionShrinks(g, rejected);
          Converge(Only(g, Names(g) - rejected), oru, k + 1)
  }

  /** The loop: attempt the requested set; drop what an rpc-error names and retry. */
  method ConfigurePerfMeasurement(c: PmConfig, oru: Oru) returns (outcome: Outcome, attempts: nat)
    ensures (outcome, attempts) == Converge(Requested(c), oru, 0)
    ensures attempts <= |Names(Requested(c))|
  {
    AttemptsAreBounded(Requested(c), oru, 0);
    ghost var goal := Converge(Requested(c), oru, 0);
    var groups := Requested(c);
    attempts := 0;
    while groups != NONE
      invariant Converge(groups, oru, attempts) == goal
      decreases |Names(groups)|
    {
      var response := oru(attempts, groups);
      var k := attempts;
      attempts := attempts + 1;
      match response {
        case Accepted => return Active(groups), attempts;
        case Skipped => return Inactive, attempts;
        case TransportFailure => return Raised(response), attempts;
        case RpcError(named) =>
          var rejected := named * Names(groups);
          if rejected == {} {
            return Raised(response), attempts;
          }
          RejectionShrinks(groups, rejected);
          groups := Only(groups, Names(groups) - rejected);
      }
    }
    outcome := Inactive;
  }

  /** At most one attempt per distinct requested object. */
  lemma {:induction false} AttemptsAreBounded(g: Groups, oru: Oru, k: nat)
    ensures Converge(g, oru, k).1 <= k + |Names(g)|
    decreases |Names(g)|
  {
    NoNamesNoGroups(g);
    if g != NONE {
      assert |Names(g)| > 0;
      if oru(k, g).RpcError? && oru(k, g).named * Names(g) != {} {
        var rejected := oru(k, g).named * Names(g);
        RejectionShrinks(g, rejected);
        AttemptsAreBounded(Only(g, Names(g) - rejected), oru, k + 1);
      }
    }
  }

  lemma RejectionKeepsGoal(g: Groups, rejected: set<string>, s: Support)
    requires rejected <= Unsupported(g, s)
    ensures var rest := Only(g, Names(g) - rejected);
            Only(rest, Everywhere(rest, s)) == Only(g, Everywhere(g, s))
  {
    var kept := Names(g) - rejected;
    var rest := Only(g, kept);
    OnlyContents(g, kept);
    OnlyUnsupported(g, kept, s);
    assert Unsupported(g, s) <= Names(g);
    assert Everywhere(rest, s) == Everywhere(g, s);
    OnlyTwice(g, kept, Everywhere(g, s));
    assert kept * Everywhere(g, s) == Everywhere(g, s);
  }

  /** A request that fits is accepted as it is. */
  lemma FittingIsAccepted(g: Groups, oru: Oru, k: nat, s: Support)
    requires Honest(oru, s) && g != NONE && Fits(g, s)
    ensures Converge(g, oru, k).0 == OutcomeOf(Only(g, Everywhere(g, s)))
  {
    NoNamesNoGroups(g);
    assert HonestAt(oru, s, k, g);
    FitsIffEverywhere(g, s);
    OnlyAll(g, Everywhere(g, s));
  }

  /** Any other is rejected, some of what it asks for in vain named. */
  lemma RejectionNames(g: Groups, oru: Oru, k: nat, s: Support)
    requires Honest(oru, s) && g != NONE && !Fits(g, s)
    ensures oru(k, g).RpcError?
    ensures var rejected := oru(k, g).named * Names(g); rejected != {} && rejected <= Unsupported(g, s)
  {
    NoNamesNoGroups(g);
    assert HonestAt(oru, s, k, g);
  }

  /** Against an honest O-RU the outcome is the request narrowed to the names supported in every group that
      requests them, in order. */
  lemma {:induction false} ConvergesOnEverywhere(g: Groups, oru: Oru, k: nat, s: Support)
    requires Honest(oru, s)
    ensures Converge(g, oru, k).0 == OutcomeOf(Only(g, Everywhere(g, s)))
    decreases |Names(g)|
  {
    if g == NONE {
    } else if Fits(g, s) {
      FittingIsAccepted(g, oru, k, s);
    } else {
      RejectionNames(g, oru, k, s);
      var rejected := oru(k, g).named * Names(g);
      RejectionShrinks(g, rejected);
      ConvergesOnEverywhere(Only(g, Names(g) - rejected), oru, k + 1, s);
      RejectionKeepsGoal(g, rejected, s);
    }
  }

  lemma KeepSameIff(objects: seq<string>, a: set<string>, b: set<string>)
    ensures Keep(objects, a) == Keep(objects, b) <==> NamesIn(objects) * a == NamesIn(objects) * b
  {
    KeepContents(objects, a);
    KeepContents(objects, b);
    if NamesIn(objects) * a == NamesIn(objects) * b {
      KeepSame(objects, a, b);
    }
  }

  /** The outcome is exactly what the O-RU supports, group by group and in order, if and only if no requested
      name is supported in one group that requests it and unsupported in another. */
  lemma ConvergesOnSupportedIff(g: Groups, oru: Oru, k: nat, s: Support)
    requires Honest(oru, s)
    ensures Converge(g, oru, k).0 == OutcomeOf(GroupWise(g, s)) <==> Somewhere(g, s) !! Unsupported(g, s)
  {
    ConvergesOnEverywhere(g, oru, k, s);
    var clean := Everywhere(g, s);
    KeepSameIff(g.rxWindow, clean, s.rxWindow);
    KeepSameIff(g.transceiver, clean, s.transceiver);
    KeepSameIff(g.tx, clean, s.tx);
    KeepSameIff(g.epe, clean, s.epe);
    GroupAgreesIff(g, s, g.rxWindow, s.rxWindow);
    GroupAgreesIff(g, s, g.transceiver, s.transceiver);
    GroupAgreesIff(g, s, g.tx, s.tx);
    GroupAgreesIff(g, s, g.epe, s.epe);
  }

  /** One group loses nothing it supports iff none of that is unsupported elsewhere. */
  lemma GroupAgreesIff(g: Groups, s: Support, objects: seq<string>, supported: set<string>)
    requires NamesIn(objects) <= Names(g) && NamesIn(objects) - supported <= Unsupported(g, s)
    ensures NamesIn(objects) * Everywhere(g, s) == NamesIn(objects) * supported
            <==> NamesIn(objects) * supported !! Unsupported(g, s)
  {
    var names := NamesIn(objects);
    if names * supported !! Unsupported(g, s) {
      forall o | o in names ensures o in Everywhere(g, s) <==> o in supported {
        assert o in supported ==> o in names * supported;
        assert o !in supported ==> o in names - supported;
      }
      assert names * Everywhere(g, s) == names * supported;
    } else {
      var o :| o in names * supported && o in Unsupported(g, s);
      assert o !in names * Everywhere(g, s);
    }
  }

  /** A name shared by two groups, supported in one of them: it is dropped from both, and the measurement
      the O-RU could make is lost. */
  lemma SharedNameIsLost(oru: Oru)
    requires Honest(oru, Support({}, {"TEMPERATURE"}, {}, {}))
    ensures var g := Groups([], ["TEMPERATURE"], [], ["TEMPERATURE"]);
            && Converge(g, oru, 0).0 == Inactive
            && GroupWise(g, Support({}, {"TEMPERATURE"}, {}, {})) == Groups([], ["TEMPERATURE"], [], [])
  {
    var g, s := Groups([], ["TEMPERATURE"], [], ["TEMPERATURE"]), Support({}, {"TEMPERATURE"}, {}, {});
    ConvergesOnEverywhere(g, oru, 0, s);
    assert Unsupported(g, s) == {"TEMPERATURE"} && Names(g) == {"TEMPERATURE"};
    assert ["TEMPERATURE"][..0] == [];
    assert Keep(["TEMPERATURE"], Everywhere(g, s)) == [];
  }

  /** The first attempt is accepted exactly when every requested object is supported. */
  predicate AcceptedAtOnce(g: Groups, oru: Oru) {
    g != NONE && oru(0, g) == Accepted
  }

  lemma AcceptedAtOnceIffSupported(g: Groups, oru: Oru, s: Support)
    requires Honest(oru, s) && g != NONE
    ensures AcceptedAtOnce(g, oru) <==> Fits(g, s)
  {
    NoNamesNoGroups(g);
    assert HonestAt(oru, s, 0, g);
  }

  // ----- The bridge: one configuration per connect cycle -----

  /** What the O-RU lists as its measurement capabilities per group, read anew each cycle; None when it lists
      none at all or the read fails. */
  type Capabilities = Option<Groups>

  function Narrowed(requested: Option<seq<string>>, advertised: seq<string>): seq<string> {
    if requested.None? then advertised else Keep(requested.value, NamesIn(advertised))
  }

  /** The config to push, None when the capability lists leave nothing to request. */
  function RequestedConfig(config: PmConfig, capabilities: Capabilities): Option<PmConfig> {
    if capabilities.None? then Some(config)
    else
      var caps := capabilities.value;
      var rx, transceiver := Narrowed(config.rxWindow, caps.rxWindow), Narrowed(config.transceiver, caps.transceiver);
      var tx, epe := Narrowed(config.tx, caps.tx), Narrowed(config.epe, caps.epe);
      if rx == [] && transceiver == [] && tx == [] && epe == [] then None
      else Some(PmConfig(Some(rx), Some(transceiver), Some(tx), Some(epe)))
  }

  function Explicit(c: PmConfig): Groups {
    Groups(c.rxWindow.GetOr([]), c.transceiver.GetOr([]), c.tx.GetOr([]), c.epe.GetOr([]))
  }

  function Exactly(g: Groups): PmConfig {
    PmConfig(Some(g.rxWindow), Some(g.transceiver), Some(g.tx), Some(g.epe))
  }

  /** The bridge's config after a cycle: the groups converged on, unless they are what was named already. */
  function NextConfig(config: PmConfig, pushed: PmConfig, outcome: Outcome): PmConfig {
    if outcome.Active? && outcome.groups != Explicit(pushed) then Exactly(outcome.groups) else config
  }

  /** The groups a cycle requests, NONE when it requests nothing. */
  function RequestedGroups(config: PmConfig, capabilities: Capabilities): Groups {
    var pushed := RequestedConfig(config, capabilities);
    if pushed.None? then NONE else Requested(pushed.value)
  }

  /** The bridge's config after one connect cycle. */
  function Cycle(config: PmConfig, capabilities: Capabilities, oru: Oru): PmConfig {
    var pushed := RequestedConfig(config, capabilities);
    if pushed.None? then config else NextConfig(config, pushed.value, Converge(Requested(pushed.value), oru, 0).0)
  }

  class RuPmBridge {
    var config: PmConfig

    constructor (config: PmConfig)
      ensures this.config == config
    {
      this.config := config;
    }

    /** One connect cycle's configuration, of an O-RU that advertises the module. */
    method Configure(capabilities: Capabilities, oru: Oru) returns (outcome: Option<Outcome>)
      modifies this
      ensures config == Cycle(old(config), capabilities, oru)
      ensures var pushed := RequestedConfig(old(config), capabilities);
              outcome == if pushed.None? then None else Some(Converge(Requested(pushed.value), oru, 0).0)
    {
      var pushed := RequestedConfig(config, capabilities);
      if pushed.None? {
        return None;
      }
      var ended, _ := ConfigurePerfMeasurement(pushed.value, oru);
      outcome := Some(ended);
      if ended.Active? && ended.groups != Explicit(pushed.value) {
        config := Exactly(ended.groups);
      }
    }
  }

  // ----- What a cycle remembers -----

  /** The one case in which a cycle's outcome is not remembered although something was dropped: the config
      names no reception-window counters, the O-RU supports none of the default ones, and everything the
      config does name is supported and none of it a default counter's name. */
  predicate ForgetsRejectedDefaults(pushed: PmConfig, s: Support) {
    && pushed.rxWindow.None?
    && NamesIn(DEFAULT_RX_WINDOW) !! s.rxWindow
    && Fits(Explicit(pushed), s)
    && NamesIn(DEFAULT_RX_WINDOW) !! Names(Explicit(pushed))
  }

  /** When what the cycle converges on is what the pushed config names. */
  predicate Unremembered(pushed: PmConfig, s: Support) {
    if pushed.rxWindow.None? then ForgetsRejectedDefaults(pushed, s) else Fits(Requested(pushed), s)
  }

  lemma KeptAllIffSame(objects: seq<string>, kept: set<string>)
    ensures Keep(objects, kept) == objects <==> NamesIn(objects) <= kept
  {
    KeepContents(objects, kept);
    if NamesIn(objects) <= kept {
      KeepAll(objects, kept);
    }
  }

  /** When the outcome equals what the config named. */
  lemma NotRememberedIff(pushed: PmConfig, s: Support)
    ensures var g := Requested(pushed);
            Only(g, Everywhere(g, s)) == Explicit(pushed) <==> Unremembered(pushed, s)
  {
    var g := Requested(pushed);
    var clean := Everywhere(g, s);
    KeptAllIffSame(g.rxWindow, clean);
    KeptAllIffSame(g.transceiver, clean);
    KeptAllIffSame(g.tx, clean);
    KeptAllIffSame(g.epe, clean);
    KeepContents(g.rxWindow, clean);
    FitsIffEverywhere(g, s);
    if pushed.rxWindow.None? {
      DefaultsForgottenIff(pushed, s);
    }
  }

  /** Nothing of the defaults is kept and all the rest is. */
  lemma DefaultsForgottenIff(pushed: PmConfig, s: Support)
    requires pushed.rxWindow.None?
    ensures var g := Requested(pushed);
            ForgetsRejectedDefaults(pushed, s)
            <==> NamesIn(g.rxWindow) * Everywhere(g, s) == {} && Names(Explicit(pushed)) <= Everywhere(g, s)
  {
    var g, e, defaults := Requested(pushed), Explicit(pushed), NamesIn(DEFAULT_RX_WINDOW);
    assert NamesIn([]) == {};
    assert Unsupported(g, s) == (defaults - s.rxWindow) + Unsupported(e, s);
    assert Names(g) == defaults + Names(e);
    assert Unsupported(e, s) <= Names(e);
    if ForgetsRejectedDefaults(pushed, s) {
      assert defaults - s.rxWindow == defaults;
      assert Everywhere(g, s) == Names(e);
    } else if defaults * Everywhere(g, s) == {} && Names(e) <= Everywhere(g, s) {
      assert Fits(e, s) by {
        assert Unsupported(e, s) !! Everywhere(g, s);
      }
    }
  }

  /** When a cycle leaves the bridge's config alone: nothing it requests is supported wherever requested,
      or the outcome is what was named. */
  predicate Leaves(config: PmConfig, capabilities: Capabilities, s: Support) {
    var pushed := RequestedConfig(config, capabilities);
    pushed.None? || Everywhere(Requested(pushed.value), s) == {} || Unremembered(pushed.value, s)
  }

  /** What a cycle converges on. */
  function Converged(config: PmConfig, capabilities: Capabilities, s: Support): Groups {
    var g := RequestedGroups(config, capabilities);
    Only(g, Everywhere(g, s))
  }

  /** A cycle with an honest O-RU leaves the config alone or replaces it by what it converged on. */
  lemma CycleLeavesOrRemembers(config: PmConfig, capabilities: Capabilities, oru: Oru, s: Support)
    requires Honest(oru, s)
    ensures Cycle(config, capabilities, oru)
            == if Leaves(config, capabilities, s) then config else Exactly(Converged(config, capabilities, s))
  {
    var pushed := RequestedConfig(config, capabilities);
    if pushed.Some? {
      var g := Requested(pushed.value);
      ConvergesOnEverywhere(g, oru, 0, s);
      NotRememberedIff(pushed.value, s);
      OnlyContents(g, Everywhere(g, s));
      NoNamesNoGroups(Only(g, Everywhere(g, s)));
      assert Names(g) * Everywhere(g, s) == Everywhere(g, s);
    }
  }

  // ----- The next cycle, and every later one -----

  /** The groups restricted to what the lists read in a cycle advertise. */
  function Advertised(g: Groups, capabilities: Capabilities): Groups {
    if capabilities.None? then g
    else
      var caps := capabilities.value;
      Groups(Keep(g.rxWindow, NamesIn(caps.rxWindow)), Keep(g.transceiver, NamesIn(caps.transceiver)),
             Keep(g.tx, NamesIn(caps.tx)), Keep(g.epe, NamesIn(caps.epe)))
  }

  /** A config that names every group requests what of it is advertised. */
  lemma ExactRequest(g: Groups, capabilities: Capabilities)
    ensures RequestedGroups(Exactly(g), capabilities) == Advertised(g, capabilities)
  {
  }

  lemma AdvertisedFits(g: Groups, capabilities: Capabilities, s: Support)
    requires Fits(g, s)
    ensures Fits(Advertised(g, capabilities), s)
  {
    if capabilities.Some? {
      KeepContents(g.rxWindow, NamesIn(capabilities.value.rxWindow));
      KeepContents(g.transceiver, NamesIn(capabilities.value.transceiver));
      KeepContents(g.tx, NamesIn(capabilities.value.tx));
      KeepContents(g.epe, NamesIn(capabilities.value.epe));
    }
  }

  /** A remembered config is left alone by every later cycle, whatever lists it reads. */
  lemma RememberedStays(g: Groups, capabilities: Capabilities, s: Support)
    requires Fits(g, s)
    ensures Leaves(Exactly(g), capabilities, s)
    ensures Fits(RequestedGroups(Exactly(g), capabilities), s)
  {
    ExactRequest(g, capabilities);
    AdvertisedFits(g, capabilities, s);
  }

  /** The first attempt is answered by an rpc-error. */
  predicate RejectedAtOnce(g: Groups, oru: Oru) {
    g != NONE && oru(0, g).RpcError?
  }

  lemma RejectedAtOnceIff(g: Groups, oru: Oru, s: Support)
    requires Honest(oru, s)
    ensures RejectedAtOnce(g, oru) <==> !Fits(g, s)
    ensures AcceptedAtOnce(g, oru) <==> g != NONE && Fits(g, s)
  {
    NoNamesNoGroups(g);
    if g != NONE {
      assert HonestAt(oru, s, 0, g);
    } else {
      assert NamesIn([]) == {};
    }
  }

  /** A connect cycle: the lists it reads, None when that read fails, and the O-RU's responses in it. */
  datatype ConnectCycle = ConnectCycle(capabilities: Capabilities, oru: Oru)

  /** The bridge's config after some cycles. */
  function After(config: PmConfig, cycles: seq<ConnectCycle>): PmConfig {
    if cycles == [] then config
    else
      var last := cycles[|cycles| - 1];
      Cycle(After(config, cycles[..|cycles| - 1]), last.capabilities, last.oru)
  }

  ghost predicate AllHonest(cycles: seq<ConnectCycle>, s: Support) {
    forall i :: 0 <= i < |cycles| ==> Honest(cycles[i].oru, s)
  }

  /** None of the cycles would remember its outcome. */
  predicate AllLeave(config: PmConfig, cycles: seq<ConnectCycle>, s: Support) {
    forall i :: 0 <= i < |cycles| ==> Leaves(config, cycles[i].capabilities, s)
  }

  /** The first cycle that would remember its outcome; the number of cycles when none would. */
  function Remembering(config: PmConfig, cycles: seq<ConnectCycle>, s: Support): (k: nat)
    ensures k <= |cycles| && AllLeave(config, cycles[..k], s)
    ensures k < |cycles| ==> !Leaves(config, cycles[k].capabilities, s)
  {
    if cycles == [] then 0
    else
      var n := |cycles| - 1;
      var k := Remembering(config, cycles[..n], s);
      assert cycles[..n][..k] == cycles[..k];
      if k < n then k
      else if Leaves(config, cycles[n].capabilities, s) then n + 1
      else n
  }

  lemma AllLeaveIff(config: PmConfig, cycles: seq<ConnectCycle>, s: Support)
    ensures AllLeave(config, cycles, s) <==> Remembering(config, cycles, s) == |cycles|
  {
    assert cycles[..|cycles|] == cycles;
  }

  /** Over any cycles with unchanged support, whatever lists each reads, the config is replaced at most
      once: by what the first cycle that would remember its outcome converged on. */
  lemma {:induction false} RemembersOnce(config: PmConfig, cycles: seq<ConnectCycle>, s: Support)
    requires AllHonest(cycles, s)
    ensures var k := Remembering(config, cycles, s);
            After(config, cycles)
            == if k == |cycles| then config else Exactly(Converged(config, cycles[k].capabilities, s))
  {
    if cycles != [] {
      var n := |cycles| - 1;
      var earlier, last := cycles[..n], cycles[n];
      var k := Remembering(config, earlier, s);
      RemembersOnce(config, earlier, s);
      if k == n {
        CycleLeavesOrRemembers(config, last.capabilities, last.oru, s);
      } else {
        var g := Converged(config, earlier[k].capabilities, s);
        FitsIffEverywhere(RequestedGroups(config, earlier[k].capabilities), s);
        RememberedStays(g, last.capabilities, s);
        CycleLeavesOrRemembers(Exactly(g), last.capabilities, last.oru, s);
      }
    }
  }

  /** After any cycles, the next one is rejected at first exactly when none of them remembered its outcome
      and the original config, under the lists now read, asks for something unsupported; else it is accepted
      on its first attempt, or requests nothing. */
  lemma LaterCycleIsRejectedIff(config: PmConfig, cycles: seq<ConnectCycle>, later: ConnectCycle, s: Support)
    requires AllHonest(cycles, s) && Honest(later.oru, s)
    ensures var next := RequestedGroups(After(config, cycles), later.capabilities);
            && (RejectedAtOnce(next, later.oru)
                <==> AllLeave(config, cycles, s) && !Fits(RequestedGroups(config, later.capabilities), s))
            && (AcceptedAtOnce(next, later.oru) <==> next != NONE && !RejectedAtOnce(next, later.oru))
  {
    RejectedAtOnceIff(RequestedGroups(After(config, cycles), later.capabilities), later.oru, s);
    RemembersOnce(config, cycles, s);
    AllLeaveIff(config, cycles, s);
    var k := Remembering(config, cycles, s);
    if k < |cycles| {
      FitsIffEverywhere(RequestedGroups(config, cycles[k].capabilities), s);
      RememberedStays(Converged(config, cycles[k].capabilities, s), later.capabilities, s);
    }
  }

  /** One cycle and the next, each reading its own lists. A remembered outcome is requested again as far as
      it is advertised, and accepted at once. Otherwise the next cycle requests what the original config asks
      for under its own lists, and is accepted at once exactly when that is something and supported. */
  lemma NextCycleIff(config: PmConfig, now: Capabilities, later: Capabilities, oru: Oru, again: Oru, s: Support)
    requires Honest(oru, s) && Honest(again, s)
    ensures var next := RequestedGroups(Cycle(config, now, oru), later);
            && next == (if Leaves(config, now, s) then RequestedGroups(config, later)
                        else Advertised(Converged(config, now, s), later))
            && (AcceptedAtOnce(next, again)
                <==> next != NONE && (Leaves(config, now, s) ==> Fits(RequestedGroups(config, later), s)))
  {
    CycleLeavesOrRemembers(config, now, oru, s);
    RejectedAtOnceIff(RequestedGroups(Cycle(config, now, oru), later), again, s);
    if !Leaves(config, now, s) {
      FitsIffEverywhere(RequestedGroups(config, now), s);
      ExactRequest(Converged(config, now, s), later);
      AdvertisedFits(Converged(config, now, s), later, s);
    }
  }

  /** The cycle left objects active, so it converged on some, and leaves the config alone just when it does
      not remember them. */
  lemma ActiveConverged(config: PmConfig, now: Capabilities, oru: Oru, s: Support)
    requires Honest(oru, s) && RequestedConfig(config, now).Some?
    requires Converge(Requested(RequestedConfig(config, now).value), oru, 0).0.Active?
    ensures var pushed := RequestedConfig(config, now).value;
            && Converge(Requested(pushed), oru, 0).0.groups == Converged(config, now, s)
            && Converged(config, now, s) != NONE
            && (Leaves(config, now, s) <==> Unremembered(pushed, s))
  {
    var g := Requested(RequestedConfig(config, now).value);
    ConvergesOnEverywhere(g, oru, 0, s);
    OnlyContents(g, Everywhere(g, s));
    NoNamesNoGroups(Only(g, Everywhere(g, s)));
  }

  /** No lists in either cycle: after a cycle that left objects active, the next one is accepted on its first
      attempt, requesting exactly those, unless the rejected defaults were forgotten; then it is rejected
      again. */
  lemma NextCycleAcceptedAtOnceIff(config: PmConfig, oru: Oru, again: Oru, s: Support)
    requires Honest(oru, s) && Honest(again, s)
    requires Converge(Requested(config), oru, 0).0.Active?
    ensures var outcome := Converge(Requested(config), oru, 0).0;
            var next := NextConfig(config, config, outcome);
            && (AcceptedAtOnce(Requested(next), again) <==> !ForgetsRejectedDefaults(config, s))
            && (!ForgetsRejectedDefaults(config, s) ==> Requested(next) == outcome.groups)
  {
    NextCycleIff(config, None, None, oru, again, s);
    ActiveConverged(config, None, oru, s);
    var g := Requested(config);
    if config.rxWindow.Some? && Fits(g, s) {
      FitsIffEverywhere(g, s);
      OnlyAll(g, Everywhere(g, s));
    } else if ForgetsRejectedDefaults(config, s) {
      assert DEFAULT_RX_WINDOW[0] in NamesIn(g.rxWindow) - s.rxWindow;
    }
  }

  /** Objects that survived a narrowed request survive narrowing again. */
  lemma NarrowedAgain(requested: Option<seq<string>>, advertised: seq<string>, supported: set<string>)
    ensures var pushed := Narrowed(requested, advertised);
            && Narrowed(Some(Keep(pushed, supported)), advertised) == Keep(pushed, supported)
            && NamesIn(pushed) <= NamesIn(advertised)
  {
    var pushed := Narrowed(requested, advertised);
    if requested.Some? {
      KeepContents(requested.value, NamesIn(advertised));
    }
    KeepContents(pushed, supported);
    KeepAll(Keep(pushed, supported), NamesIn(advertised));
  }

  /** The same lists in both cycles: every group is named in the request, so nothing is forgotten, and after
      a cycle that left objects active the next one is accepted on its first attempt. */
  lemma NextCycleWithCapabilities(config: PmConfig, caps: Groups, oru: Oru, again: Oru, s: Support)
    requires Honest(oru, s) && Honest(again, s)
    requires RequestedConfig(config, Some(caps)).Some?
    requires Converge(Requested(RequestedConfig(config, Some(caps)).value), oru, 0).0.Active?
    ensures var pushed := RequestedConfig(config, Some(caps)).value;
            var outcome := Converge(Requested(pushed), oru, 0).0;
            var next := RequestedConfig(NextConfig(config, pushed, outcome), Some(caps));
            next.Some? && Requested(next.value) == outcome.groups && AcceptedAtOnce(Requested(next.value), again)
  {
    NextCycleIff(config, Some(caps), Some(caps), oru, again, s);
    ActiveConverged(config, Some(caps), oru, s);
    var g := RequestedGroups(config, Some(caps));
    var kept := Everywhere(g, s);
    FitsIffEverywhere(g, s);
    if Fits(g, s) {
      OnlyAll(g, kept);
    } else {
      NarrowedAgain(config.rxWindow, caps.rxWindow, kept);
      NarrowedAgain(config.transceiver, caps.transceiver, kept);
      NarrowedAgain(config.tx, caps.tx, kept);
      NarrowedAgain(config.epe, caps.epe, kept);
    }
  }

  /** Lists in one cycle, none in the next: the next is accepted on its first attempt exactly when the first
      dropped some of what the lists let through and kept some, which it remembers, or the config by itself
      asks for something and for supported objects only. */
  lemma NextCycleAfterFailedRead(config: PmConfig, caps: Groups, oru: Oru, again: Oru, s: Support)
    requires Honest(oru, s) && Honest(again, s)
    ensures var g := RequestedGroups(config, Some(caps));
            AcceptedAtOnce(RequestedGroups(Cycle(config, Some(caps), oru), None), again)
            <==> (!Fits(g, s) && Everywhere(g, s) != {}) || (Requested(config) != NONE && Fits(Requested(config), s))
  {
    NextCycleIff(config, Some(caps), None, oru, again, s);
    CycleLeavesOrRemembers(config, Some(caps), oru, s);
    var g := RequestedGroups(config, Some(caps));
    OnlyContents(g, Everywhere(g, s));
    NoNamesNoGroups(Converged(config, Some(caps), s));
    assert Names(g) * Everywhere(g, s) == Everywhere(g, s);
    assert NamesIn([]) == {};
  }

  /** A config whose next cycle is rejected again: it names a single supported transmit counter and nothing
      else, for an O-RU that supports that counter only. */
  lemma ForgottenDefaultsExist(oru: Oru, again: Oru)
    requires Honest(oru, Support({}, {}, {"TX_TOTAL"}, {})) && Honest(again, Support({}, {}, {"TX_TOTAL"}, {}))
    ensures var config := PmConfig(None, None, Some(["TX_TOTAL"]), None);
            var outcome := Converge(Requested(config), oru, 0).0;
            && outcome == Active(Groups([], [], ["TX_TOTAL"], []))
            && !AcceptedAtOnce(Requested(NextConfig(config, config, outcome)), again)
  {
    var config, s := PmConfig(None, None, Some(["TX_TOTAL"]), None), Support({}, {}, {"TX_TOTAL"}, {});
    assert NamesIn(["TX_TOTAL"]) == {"TX_TOTAL"} && NamesIn([]) == {};
    assert forall o :: o in NamesIn(DEFAULT_RX_WINDOW) ==> o != "TX_TOTAL" by {
      assert forall o :: o in DEFAULT_RX_WINDOW ==> o[0] == 'R';
    }
    assert ForgetsRejectedDefaults(config, s);
    NotRememberedIff(config, s);
    ConvergesOnEverywhere(Requested(config), oru, 0, s);
    NextCycleAcceptedAtOnceIff(config, oru, again, s);
  }

  const RX_ON_TIME_ONLY := Groups(["RX_ON_TIME"], [], [], [])

  /** An O-RU that supports RX_ON_TIME only supports that request, not the one for all the defaults. */
  lemma OnTimeFits(s: Support)
    requires s == Support({"RX_ON_TIME"}, {}, {}, {})
    ensures Fits(RX_ON_TIME_ONLY, s) && Only(RX_ON_TIME_ONLY, Everywhere(RX_ON_TIME_ONLY, s)) == RX_ON_TIME_ONLY
    ensures !(NamesIn(DEFAULT_RX_WINDOW) !! s.rxWindow)
    ensures !Fits(Requested(PmConfig(None, None, None, None)), s)
  {
    assert NamesIn(["RX_ON_TIME"]) == {"RX_ON_TIME"} && NamesIn([]) == {};
    FitsIffEverywhere(RX_ON_TIME_ONLY, s);
    OnlyAll(RX_ON_TIME_ONLY, Everywhere(RX_ON_TIME_ONLY, s));
    assert DEFAULT_RX_WINDOW[0] in NamesIn(DEFAULT_RX_WINDOW) * s.rxWindow;
    assert DEFAULT_RX_WINDOW[1] in NamesIn(DEFAULT_RX_WINDOW) - s.rxWindow;
  }

  /** The default config of an O-RU that lists, and supports, one of the default counters: the listed one is
      accepted and so not remembered, and when the next cycle's read fails all the defaults are requested and
      rejected, though no rejected defaults were forgotten. */
  lemma FailedReadIsRejected(oru: Oru, again: Oru, s: Support)
    requires s == Support({"RX_ON_TIME"}, {}, {}, {})
    requires Honest(oru, s) && Honest(again, s)
    ensures var config, listed := PmConfig(None, None, None, None), RX_ON_TIME_ONLY;
            && Converge(RequestedGroups(config, Some(listed)), oru, 0).0 == Active(listed)
            && Cycle(config, Some(listed), oru) == config
            && !ForgetsRejectedDefaults(config, s)
            && !ForgetsRejectedDefaults(RequestedConfig(config, Some(listed)).value, s)
            && RejectedAtOnce(RequestedGroups(Cycle(config, Some(listed), oru), None), again)
  {
    var config := PmConfig(None, None, None, None);
    OnTimeFits(s);
    assert RequestedConfig(config, Some(RX_ON_TIME_ONLY)) == Some(Exactly(RX_ON_TIME_ONLY));
    ConvergesOnEverywhere(RX_ON_TIME_ONLY, oru, 0, s);
    RejectedAtOnceIff(Requested(config), again, s);
  }
}
