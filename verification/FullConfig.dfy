/** The full configuration of an O-RU: an ordered list of edits, each of which may refer to carriers,
    endpoints and TDD patterns that earlier edits pushed. */
module FullConfig {
  import opened Arithmetic
  import opened Options
  import TddPattern

  /** An endpoint: named by the config, or generated from its group's prefix and an index. */
  datatype Group = Tx | Rx | Prach

  datatype Endpoint = Named(name: string) | Generated(group: Group, index: int)

  /** What edits define and refer to. */
  datatype Item = TxCarrier(index: int) | RxCarrier(index: int) | TxEndpoint(tx: Endpoint) | RxEndpoint(rx: Endpoint)
                | Pattern(id: int)

  datatype Link = Link(carrier: Item, endpoint: Item)

  datatype Edit =
    | Interfaces
    | ProcessingElements
    | TxEndpoints(endpoints: seq<Endpoint>)
    | RxEndpoints(endpoints: seq<Endpoint>)
    | TxCarriers(count: nat)
    | RxCarriers(count: nat)
    | TxLinks(links: seq<Link>)
    | RxLinks(links: seq<Link>)
    | UploadPattern(id: int)
    | BindPattern(id: int, tx: nat, rx: nat)
    | Activate(tx: nat, rx: nat)

  /** A group of the endpoint config: explicit names take precedence over the count of its port list. */
  datatype EndpointConfig = EndpointConfig(explicit: Option<seq<string>>, ports: Option<nat>)

  datatype Config = Config(
    tx: EndpointConfig, rx: EndpointConfig, prach: EndpointConfig,
    indexBase: int,
    carriers: Option<int>,                       // nof_carriers of the carrier config
    patternUpload: bool, carrierBinding: bool, patternId: int,
    activeTx: Option<int>, activeRx: Option<int>, // counts of the activation config
    skipActivation: bool)

  /** What the O-RU and the role allow. Whether the O-RU supports TDD patterns is read anew for the upload and
      for the binding, and a failed read counts as no. */
  datatype Gates = Gates(interfacesWritable: bool, uploadSupported: bool, bindSupported: bool)

  const DEFAULT_PORTS := 4

  datatype Plan = Plan(tx: seq<Endpoint>, rx: seq<Endpoint>, prach: seq<Endpoint>)

  /** One group's endpoints; None (an error) when the explicit list is empty. */
  function ResolveGroup(c: EndpointConfig, group: Group, base: int): Option<seq<Endpoint>> {
    if c.explicit.Some? then
      if c.explicit.value == [] then None
      else Some(seq(|c.explicit.value|, i requires 0 <= i < |c.explicit.value| => Named(c.explicit.value[i])))
    else
      var given := c.ports.GetOr(0);
      var count := if given == 0 then DEFAULT_PORTS else given;
      Some(seq(count, i => Generated(group, base + i)))
  }

  function Resolve(c: Config): Option<Plan> {
    var tx, rx, prach := ResolveGroup(c.tx, Tx, c.indexBase), ResolveGroup(c.rx, Rx, c.indexBase),
                         ResolveGroup(c.prach, Prach, c.indexBase);
    if tx.None? || rx.None? || prach.None? then None else Some(Plan(tx.value, rx.value, prach.value))
  }

  /** A carrier count: as configured, else the number of endpoints; zero stands for the default, and a
      negative count for no carrier. */
  function CountOf(configured: Option<int>, planned: nat): nat {
    var count := configured.GetOr(planned);
    if count == 0 then DEFAULT_PORTS else if count < 0 then 0 else count
  }

  /** The other index of an rx pair (index XOR 1). */
  function Partner(index: nat): nat {
    if index % 2 == 0 then index + 1 else index - 1
  }

  /** The carrier a PRACH endpoint is linked to: its partner's, clamped into the existing range. */
  function Crossed(index: nat, rxCount: nat): nat
    requires 0 < rxCount
  {
    if Partner(index) < rxCount then Partner(index) else index % rxCount
  }

  function TxLinksOf(tx: seq<Endpoint>): seq<Link> {
    seq(|tx|, i requires 0 <= i < |tx| => Link(TxCarrier(i), TxEndpoint(tx[i])))
  }

  function RxLinksOf(rx: seq<Endpoint>, prach: seq<Endpoint>): seq<Link>
    requires rx != []
  {
    seq(|rx|, i requires 0 <= i < |rx| => Link(RxCarrier(i), RxEndpoint(rx[i])))
    + seq(|prach|, i requires 0 <= i < |prach| => Link(RxCarrier(Crossed(i, |rx|)), RxEndpoint(prach[i])))
  }

  /** The edits up to the carriers: they define, and refer to nothing. */
  function Foundation(c: Config, gates: Gates, p: Plan): seq<Edit> {
    (if gates.interfacesWritable then [Interfaces] else [])
    + [ProcessingElements, TxEndpoints(p.tx), RxEndpoints(p.rx + p.prach),
       TxCarriers(CountOf(c.carriers, |p.tx|)), RxCarriers(CountOf(c.carriers, |p.rx|))]
  }

  function Optional(included: bool, e: Edit): seq<Edit> {
    if included then [e] else []
  }

  /** The foundation and the links from endpoints to carriers. */
  function Linked(c: Config, gates: Gates, p: Plan): seq<Edit>
    requires p.rx != []
  {
    Foundation(c, gates, p) + [TxLinks(TxLinksOf(p.tx))] + [RxLinks(RxLinksOf(p.rx, p.prach))]
  }

  /** The edits of a full configuration, in order: TDD before activation. */
  function FullPlan(c: Config, gates: Gates, p: Plan): seq<Edit>
    requires p.rx != []
  {
    Linked(c, gates, p)
    + Optional(c.patternUpload && gates.uploadSupported, UploadPattern(c.patternId))
    + Optional(c.carrierBinding && gates.bindSupported, BindPattern(c.patternId, |p.tx|, |p.rx|))
    + Optional(!c.skipActivation, Activate(CountOf(c.activeTx, |p.tx|), CountOf(c.activeRx, |p.rx|)))
  }

  // ----- References -----

  predicate Defines(e: Edit, item: Item) {
    match e
    case TxEndpoints(endpoints) => item.TxEndpoint? && item.tx in endpoints
    case RxEndpoints(endpoints) => item.RxEndpoint? && item.rx in endpoints
    case TxCarriers(count) => item.TxCarrier? && 0 <= item.index < count
    case RxCarriers(count) => item.RxCarrier? && 0 <= item.index < count
    case UploadPattern(id) => item == Pattern(id)
    case _ => false
  }

  predicate RefersTo(e: Edit, item: Item) {
    match e
    case TxLinks(links) => exists l :: l in links && (l.carrier == item || l.endpoint == item)
    case RxLinks(links) => exists l :: l in links && (l.carrier == item || l.endpoint == item)
    case BindPattern(id, tx, rx) =>
      || item == Pattern(id)
      || (item.TxCarrier? && 0 <= item.index < tx)
      || (item.RxCarrier? && 0 <= item.index < rx)
    case Activate(tx, rx) => (item.TxCarrier? && 0 <= item.index < tx) || (item.RxCarrier? && 0 <= item.index < rx)
    case _ => false
  }

  ghost predicate DefinedIn(edits: seq<Edit>, item: Item) {
    exists e :: e in edits && Defines(e, item)
  }

  /** Everything an edit refers to was pushed by the edits before it. */
  ghost predicate Grounded(earlier: seq<Edit>, e: Edit) {
    forall item :: RefersTo(e, item) ==> DefinedIn(earlier, item)
  }

  /** No edit refers to anything that no earlier edit pushed. This holds of every prefix too, which is what
      an O-RU is left with when an edit in the middle fails. */
  ghost predicate NeverDangles(edits: seq<Edit>) {
    edits != [] ==> NeverDangles(edits[..|edits| - 1]) && Grounded(edits[..|edits| - 1], edits[|edits| - 1])
  }

  /** The counts and switches a caller can check beforehand. */
  predicate CountsSuffice(c: Config, gates: Gates, p: Plan) {
    var tx, rx := CountOf(c.carriers, |p.tx|), CountOf(c.carriers, |p.rx|);
    && |p.tx| <= tx && |p.rx| <= rx
    && (c.carrierBinding && gates.bindSupported ==> c.patternUpload && gates.uploadSupported)
    && (!c.skipActivation ==> CountOf(c.activeTx, |p.tx|) <= tx && CountOf(c.activeRx, |p.rx|) <= rx)
  }

  lemma AppendedEdit(edits: seq<Edit>, e: Edit)
    ensures NeverDangles(edits + [e]) <==> NeverDangles(edits) && Grounded(edits, e)
    ensures forall item :: DefinedIn(edits + [e], item) <==> DefinedIn(edits, item) || Defines(e, item)
  {
    assert (edits + [e])[..|edits|] == edits;
    forall item ensures DefinedIn(edits + [e], item) <==> DefinedIn(edits, item) || Defines(e, item) {
      if Defines(e, item) {
        assert e in edits + [e];
      }
      if DefinedIn(edits, item) {
        var d :| d in edits && Defines(d, item);
        assert d in edits + [e];
      }
    }
  }

  lemma AppendedOptional(edits: seq<Edit>, included: bool, e: Edit)
    ensures NeverDangles(edits + Optional(included, e)) <==> NeverDangles(edits) && (included ==> Grounded(edits, e))
    ensures forall item :: DefinedIn(edits + Optional(included, e), item)
                           <==> DefinedIn(edits, item) || (included && Defines(e, item))
  {
    if included {
      AppendedEdit(edits, e);
    } else {
      assert edits + [] == edits;
    }
  }

  /** What the foundation defines: the endpoints, and as many carriers as it counts. */
  predicate Founded(c: Config, p: Plan, item: Item) {
    match item
    case TxCarrier(i) => 0 <= i < CountOf(c.carriers, |p.tx|)
    case RxCarrier(i) => 0 <= i < CountOf(c.carriers, |p.rx|)
    case TxEndpoint(e) => e in p.tx
    case RxEndpoint(e) => e in p.rx + p.prach
    case Pattern(_) => false
  }

  lemma {:induction false} NoReferencesNoDangling(edits: seq<Edit>)
    requires forall e, item :: e in edits ==> !RefersTo(e, item)
    ensures NeverDangles(edits)
  {
    if edits == [] {
    } else {
      assert edits[|edits| - 1] in edits;
      NoReferencesNoDangling(edits[..|edits| - 1]);
    }
  }

  lemma FoundationDefines(c: Config, gates: Gates, p: Plan)
    ensures NeverDangles(Foundation(c, gates, p))
    ensures forall item :: DefinedIn(Foundation(c, gates, p), item) <==> Founded(c, p, item)
  {
    var edits := Foundation(c, gates, p);
    var txCarriers, rxCarriers := TxCarriers(CountOf(c.carriers, |p.tx|)), RxCarriers(CountOf(c.carriers, |p.rx|));
    var members := {ProcessingElements, TxEndpoints(p.tx), RxEndpoints(p.rx + p.prach), txCarriers, rxCarriers};
    var n := |edits|;
    assert edits[n - 1] == rxCarriers && edits[n - 2] == txCarriers && edits[n - 3] == RxEndpoints(p.rx + p.prach)
           && edits[n - 4] == TxEndpoints(p.tx) && edits[n - 5] == ProcessingElements;
    forall e ensures e in edits ==> e in members || e == Interfaces
             ensures e in members ==> e in edits
    {
    }
    NoReferencesNoDangling(edits);
    forall item | Founded(c, p, item) ensures DefinedIn(edits, item) {
      var e := match item case TxCarrier(_) => txCarriers case RxCarrier(_) => rxCarriers
                          case TxEndpoint(_) => TxEndpoints(p.tx) case RxEndpoint(_) => RxEndpoints(p.rx + p.prach);
      assert e in members && Defines(e, item);
    }
  }

  /** The crossed carrier always exists. */
  lemma CrossedInRange(index: nat, rxCount: nat)
    requires 0 < rxCount
    ensures 0 <= Crossed(index, rxCount) < rxCount
  {
  }

  lemma CrossedAt(index: nat, rxCount: nat)
    requires 0 < rxCount && index <= rxCount
    ensures Crossed(index, rxCount)
            == if Partner(index) < rxCount then Partner(index) else if index < rxCount then index else 0
  {
    if index < rxCount {
      DivModUnique(index, rxCount, 0, index);
    } else {
      DivModUnique(index, rxCount, 1, 0);
    }
  }

  ghost predicate SharesCarrier(i: nat, j: nat, rxCount: nat)
    requires 0 < rxCount
  {
    Crossed(i, rxCount) == Crossed(j, rxCount)
  }

  /** PRACH endpoints share no carrier exactly when there are no more of them than rx endpoints. */
  lemma CrossedInjectiveIff(prachCount: nat, rxCount: nat)
    requires 0 < rxCount
    ensures (forall i: nat, j: nat :: i < j < prachCount ==> !SharesCarrier(i, j, rxCount)) <==> prachCount <= rxCount
  {
    if prachCount <= rxCount {
      forall i: nat, j: nat | i < j < prachCount ensures !SharesCarrier(i, j, rxCount) {
        CrossedAt(i, rxCount);
        CrossedAt(j, rxCount);
      }
    } else {
      var i := if rxCount % 2 == 0 then 1 else rxCount - 1;
      CrossedAt(i, rxCount);
      CrossedAt(rxCount, rxCount);
      assert SharesCarrier(i, rxCount, rxCount);
    }
  }

  // ----- When nothing dangles -----

  lemma TxLinksGrounded(c: Config, edits: seq<Edit>, p: Plan)
    requires forall item :: DefinedIn(edits, item) <==> Founded(c, p, item)
    ensures Grounded(edits, TxLinks(TxLinksOf(p.tx))) <==> |p.tx| <= CountOf(c.carriers, |p.tx|)
  {
    var count, links := CountOf(c.carriers, |p.tx|), TxLinksOf(p.tx);
    if count < |p.tx| {
      assert links[count] in links && RefersTo(TxLinks(links), TxCarrier(count));
    }
  }

  lemma RxLinksGrounded(c: Config, edits: seq<Edit>, p: Plan)
    requires p.rx != [] && forall item :: DefinedIn(edits, item) <==> Founded(c, p, item)
    ensures Grounded(edits, RxLinks(RxLinksOf(p.rx, p.prach))) <==> |p.rx| <= CountOf(c.carriers, |p.rx|)
  {
    var count, links := CountOf(c.carriers, |p.rx|), RxLinksOf(p.rx, p.prach);
    if count < |p.rx| {
      assert links[count] in links && RefersTo(RxLinks(links), RxCarrier(count));
    } else {
      forall item | RefersTo(RxLinks(links), item) ensures DefinedIn(edits, item) {
        var l :| l in links && (l.carrier == item || l.endpoint == item);
        var k :| 0 <= k < |links| && links[k] == l;
        if |p.rx| <= k {
          CrossedInRange(k - |p.rx|, |p.rx|);
          assert p.prach[k - |p.rx|] in p.rx + p.prach;
        }
      }
    }
  }

  lemma CountsGrounded(c: Config, edits: seq<Edit>, p: Plan, e: Edit, tx: nat, rx: nat)
    requires forall item: Item :: !item.Pattern? ==> (DefinedIn(edits, item) <==> Founded(c, p, item))
    requires forall item: Item :: !item.Pattern? ==>
                              (RefersTo(e, item) <==> (item.TxCarrier? && 0 <= item.index < tx)
                                                      || (item.RxCarrier? && 0 <= item.index < rx))
    ensures (forall item: Item :: !item.Pattern? && RefersTo(e, item) ==> DefinedIn(edits, item))
            <==> tx <= CountOf(c.carriers, |p.tx|) && rx <= CountOf(c.carriers, |p.rx|)
  {
    var txCount, rxCount := CountOf(c.carriers, |p.tx|), CountOf(c.carriers, |p.rx|);
    if txCount < tx {
      assert RefersTo(e, TxCarrier(txCount)) && !Founded(c, p, TxCarrier(txCount));
    }
    if rxCount < rx {
      assert RefersTo(e, RxCarrier(rxCount)) && !Founded(c, p, RxCarrier(rxCount));
    }
  }

  lemma LinkedGrounded(c: Config, gates: Gates, p: Plan)
    requires p.rx != []
    ensures NeverDangles(Linked(c, gates, p))
            <==> |p.tx| <= CountOf(c.carriers, |p.tx|) && |p.rx| <= CountOf(c.carriers, |p.rx|)
    ensures forall item :: DefinedIn(Linked(c, gates, p), item) <==> Founded(c, p, item)
  {
    var foundation := Foundation(c, gates, p);
    FoundationDefines(c, gates, p);
    AppendedEdit(foundation, TxLinks(TxLinksOf(p.tx)));
    TxLinksGrounded(c, foundation, p);
    AppendedEdit(foundation + [TxLinks(TxLinksOf(p.tx))], RxLinks(RxLinksOf(p.rx, p.prach)));
    RxLinksGrounded(c, foundation + [TxLinks(TxLinksOf(p.tx))], p);
  }

  lemma BindingGrounded(c: Config, edits: seq<Edit>, p: Plan)
    requires forall item: Item :: !item.Pattern? ==> (DefinedIn(edits, item) <==> Founded(c, p, item))
    ensures Grounded(edits, BindPattern(c.patternId, |p.tx|, |p.rx|))
            <==> && |p.tx| <= CountOf(c.carriers, |p.tx|) && |p.rx| <= CountOf(c.carriers, |p.rx|)
                 && DefinedIn(edits, Pattern(c.patternId))
  {
    var binding := BindPattern(c.patternId, |p.tx|, |p.rx|);
    CountsGrounded(c, edits, p, binding, |p.tx|, |p.rx|);
    assert RefersTo(binding, Pattern(c.patternId));
    forall item: Item | item.Pattern? ensures RefersTo(binding, item) <==> item == Pattern(c.patternId) {
    }
  }

  lemma ActivationGrounded(c: Config, edits: seq<Edit>, p: Plan, tx: nat, rx: nat)
    requires forall item: Item :: !item.Pattern? ==> (DefinedIn(edits, item) <==> Founded(c, p, item))
    ensures Grounded(edits, Activate(tx, rx))
            <==> tx <= CountOf(c.carriers, |p.tx|) && rx <= CountOf(c.carriers, |p.rx|)
  {
    CountsGrounded(c, edits, p, Activate(tx, rx), tx, rx);
  }

  function Uploaded(c: Config, gates: Gates, p: Plan): seq<Edit>
    requires p.rx != []
  {
    Linked(c, gates, p) + Optional(c.patternUpload && gates.uploadSupported, UploadPattern(c.patternId))
  }

  function Bound(c: Config, gates: Gates, p: Plan): seq<Edit>
    requires p.rx != []
  {
    Uploaded(c, gates, p)
    + Optional(c.carrierBinding && gates.bindSupported, BindPattern(c.patternId, |p.tx|, |p.rx|))
  }

  lemma UploadedGrounded(c: Config, gates: Gates, p: Plan)
    requires p.rx != []
    ensures NeverDangles(Uploaded(c, gates, p))
            <==> |p.tx| <= CountOf(c.carriers, |p.tx|) && |p.rx| <= CountOf(c.carriers, |p.rx|)
    ensures forall item :: DefinedIn(Uploaded(c, gates, p), item)
                           <==> || Founded(c, p, item)
                                || (c.patternUpload && gates.uploadSupported && item == Pattern(c.patternId))
  {
    LinkedGrounded(c, gates, p);
    AppendedOptional(Linked(c, gates, p), c.patternUpload && gates.uploadSupported, UploadPattern(c.patternId));
  }

  lemma BoundGrounded(c: Config, gates: Gates, p: Plan)
    requires p.rx != []
    ensures NeverDangles(Bound(c, gates, p))
            <==> && |p.tx| <= CountOf(c.carriers, |p.tx|) && |p.rx| <= CountOf(c.carriers, |p.rx|)
                 && (c.carrierBinding && gates.bindSupported ==> c.patternUpload && gates.uploadSupported)
    ensures forall item: Item :: !item.Pattern? ==> (DefinedIn(Bound(c, gates, p), item) <==> Founded(c, p, item))
  {
    UploadedGrounded(c, gates, p);
    BindingGrounded(c, Uploaded(c, gates, p), p);
    AppendedOptional(Uploaded(c, gates, p), c.carrierBinding && gates.bindSupported,
                     BindPattern(c.patternId, |p.tx|, |p.rx|));
  }

  /** The main result: every link, binding and activation names a carrier, endpoint or pattern pushed
      earlier, exactly when the counts suffice and a pattern that is bound was also uploaded. */
  lemma NeverDanglesIffCountsSuffice(c: Config, gates: Gates, p: Plan)
    requires p.rx != []
    ensures NeverDangles(FullPlan(c, gates, p)) <==> CountsSuffice(c, gates, p)
  {
    var tx, rx := CountOf(c.activeTx, |p.tx|), CountOf(c.activeRx, |p.rx|);
    BoundGrounded(c, gates, p);
    ActivationGrounded(c, Bound(c, gates, p), p, tx, rx);
    AppendedOptional(Bound(c, gates, p), !c.skipActivation, Activate(tx, rx));
  }

  /** The upload's read of the O-RU's features fails, the binding's is answered: the binding dangles, with
      the default counts and both steps wanted. */
  lemma LostUploadDangles(c: Config, gates: Gates, p: Plan)
    requires p.rx != [] && c.carrierBinding && gates.bindSupported && !gates.uploadSupported
    ensures var bound := Bound(c, gates, p);
            && BindPattern(c.patternId, |p.tx|, |p.rx|) in bound
            && !DefinedIn(bound, Pattern(c.patternId))
            && !NeverDangles(FullPlan(c, gates, p))
  {
    UploadedGrounded(c, gates, p);
    AppendedOptional(Uploaded(c, gates, p), true, BindPattern(c.patternId, |p.tx|, |p.rx|));
    NeverDanglesIffCountsSuffice(c, gates, p);
  }

  /** With the default counts nothing dangles, provided a pattern that is bound is also uploaded. */
  lemma DefaultCountsSuffice(c: Config, gates: Gates, p: Plan)
    requires Resolve(c) == Some(p)
    requires c.carriers.None? && c.activeTx.None? && c.activeRx.None?
    ensures p.tx != [] && p.rx != []
    ensures NeverDangles(FullPlan(c, gates, p)) <==> (c.carrierBinding && gates.bindSupported ==> c.patternUpload && gates.uploadSupported)
  {
    NeverDanglesIffCountsSuffice(c, gates, p);
  }

  /** The default pattern pushed when the config carries none is one the compiler accepts. */
  lemma DefaultPatternIsAccepted()
    ensures TddPattern.Check(TddPattern.Pattern(30, 10, 7, 6, 4, Some(2))).Ok?
  {
  }

  // ----- The client -----

  class RuConfig {
    const gates: Gates
    /** The edits pushed so far. */
    var pushed: seq<Edit>

    constructor (gates: Gates)
      ensures this.gates == gates && pushed == []
    {
      this.gates := gates;
      pushed := [];
    }

    method Push(e: Edit)
      modifies this
      ensures pushed == old(pushed) + [e]
    {
      pushed := pushed + [e];
    }

    method SetLowLevelRxLinks(rx: seq<Endpoint>, prach: seq<Endpoint>)
      requires rx != []
      modifies this
      ensures pushed == old(pushed) + [RxLinks(RxLinksOf(rx, prach))]
    {
      var links := seq(|rx|, i requires 0 <= i < |rx| => Link(RxCarrier(i), RxEndpoint(rx[i])));
      for index := 0 to |prach|
        invariant links == RxLinksOf(rx, prach[..index])
      {
        var partner := Partner(index);
        var crossed := if partner < |rx| then partner else index % |rx|;
        links := links + [Link(RxCarrier(crossed), RxEndpoint(prach[index]))];
      }
      assert prach[..|prach|] == prach;
      Push(RxLinks(links));
    }

    /** Push the full configuration; false, with nothing pushed, when an explicit endpoint list is empty. */
    method SetFullConfig(c: Config) returns (ok: bool)
      modifies this
      ensures ok <==> Resolve(c).Some?
      ensures pushed == if ok then old(pushed) + FullPlan(c, gates, Resolve(c).value) else old(pushed)
      ensures ok ==> (NeverDangles(pushed[|old(pushed)|..]) <==> CountsSuffice(c, gates, Resolve(c).value))
    {
      var resolved := Resolve(c);
      if resolved.None? {
        return false;
      }
      var p := resolved.value;
      PushLinked(c, p);
      PushOptional(c.patternUpload && gates.uploadSupported, UploadPattern(c.patternId));
      PushOptional(c.carrierBinding && gates.bindSupported, BindPattern(c.patternId, |p.tx|, |p.rx|));
      PushOptional(!c.skipActivation, Activate(CountOf(c.activeTx, |p.tx|), CountOf(c.activeRx, |p.rx|)));
      assert pushed == old(pushed) + FullPlan(c, gates, p);
      NeverDanglesIffCountsSuffice(c, gates, p);
      ok := true;
    }

    method PushOptional(included: bool, e: Edit)
      modifies this
      ensures pushed == old(pushed) + Optional(included, e)
    {
      if included {
        Push(e);
      }
    }

    method PushLinked(c: Config, p: Plan)
      requires p.rx != []
      modifies this
      ensures pushed == old(pushed) + Linked(c, gates, p)
    {
      PushOptional(gates.interfacesWritable, Interfaces);
      Push(ProcessingElements);
      Push(TxEndpoints(p.tx));
      Push(RxEndpoints(p.rx + p.prach));
      Push(TxCarriers(CountOf(c.carriers, |p.tx|)));
      Push(RxCarriers(CountOf(c.carriers, |p.rx|)));
      Push(TxLinks(TxLinksOf(p.tx)));
      SetLowLevelRxLinks(p.rx, p.prach);
      assert pushed == old(pushed) + Linked(c, gates, p);
    }
  }
}
