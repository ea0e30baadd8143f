/** The plan of a full configuration, entry by entry: what is resolved, linked and pushed, and in which order. */
module FullConfigPlan {
  import opened Options
  import opened FullConfig

  // ----- Endpoints and counts -----

  /** A group's explicit names stand as they are, in order; without any, as many names are generated as it has ports, or
      four, numbered from the base. Only an explicit list without a name resolves to nothing. */
  lemma GroupResolves(c: EndpointConfig, group: Group, base: int)
    ensures var endpoints := ResolveGroup(c, group, base);
            && (endpoints == None <==> c.explicit == Some([]))
            && (c.explicit.Some? && c.explicit != Some([]) ==>
                  && |endpoints.value| == |c.explicit.value|
                  && forall i :: 0 <= i < |c.explicit.value| ==> endpoints.value[i] == Named(c.explicit.value[i]))
            && (c.explicit == None ==>
                  && (c.ports == None || c.ports == Some(0) ==> |endpoints.value| == 4)
                  && (c.ports != None && c.ports != Some(0) ==> Some(|endpoints.value|) == c.ports)
                  && forall i :: 0 <= i < |endpoints.value| ==> endpoints.value[i] == Generated(group, base + i))
  {
  }

  /** Each group resolves by itself, the three of them to one plan. */
  lemma PlanResolves(c: Config)
    ensures Resolve(c) == None <==> c.tx.explicit == Some([]) || c.rx.explicit == Some([]) || c.prach.explicit == Some([])
    ensures Resolve(c).Some? ==>
              && Some(Resolve(c).value.tx) == ResolveGroup(c.tx, Tx, c.indexBase)
              && Some(Resolve(c).value.rx) == ResolveGroup(c.rx, Rx, c.indexBase)
              && Some(Resolve(c).value.prach) == ResolveGroup(c.prach, Prach, c.indexBase)
  {
    GroupResolves(c.tx, Tx, c.indexBase);
    GroupResolves(c.rx, Rx, c.indexBase);
    GroupResolves(c.prach, Prach, c.indexBase);
  }

  /** As many carriers as configured, else as endpoints; four for zero of either, none for a negative count. */
  lemma CountsAre(configured: Option<int>, planned: nat)
    ensures configured.Some? && 0 < configured.value ==> CountOf(configured, planned) == configured.value
    ensures configured == None && 0 < planned ==> CountOf(configured, planned) == planned
    ensures configured == Some(0) || (configured == None && planned == 0) ==> CountOf(configured, planned) == 4
    ensures configured.Some? && configured.value < 0 ==> CountOf(configured, planned) == 0
  {
  }

  // ----- Links -----

  /** The other one of the pair 0 and 1, 2 and 3, and so on. */
  predicate Paired(i: int, k: int) {
    k / 2 == i / 2 && k != i
  }

  /** A PRACH endpoint is linked to the carrier paired with its own number, if there are that many rx carriers; one
      without such a carrier wraps around. */
  lemma CrossedIsPaired(index: nat, rxCount: nat)
    requires 0 < rxCount
    ensures (exists k :: 0 <= k < rxCount && Paired(index, k)) ==> Paired(index, Crossed(index, rxCount))
    ensures !(exists k :: 0 <= k < rxCount && Paired(index, k)) ==> Crossed(index, rxCount) == index % rxCount
  {
    assert Paired(index, Partner(index));
  }

  /** Every tx endpoint is linked to the tx carrier of its number, every rx endpoint to the rx carrier of its number, and
      every PRACH endpoint to the crossed one: no endpoint is left out, and none linked twice. */
  lemma LinksAre(p: Plan)
    requires p.rx != []
    ensures var tx, rx := TxLinksOf(p.tx), RxLinksOf(p.rx, p.prach);
            && |tx| == |p.tx| && |rx| == |p.rx| + |p.prach|
            && (forall i :: 0 <= i < |p.tx| ==> tx[i] == Link(TxCarrier(i), TxEndpoint(p.tx[i])))
            && (forall i :: 0 <= i < |p.rx| ==> rx[i] == Link(RxCarrier(i), RxEndpoint(p.rx[i])))
            && (forall i :: 0 <= i < |p.prach| ==>
                              rx[|p.rx| + i] == Link(RxCarrier(Crossed(i, |p.rx|)), RxEndpoint(p.prach[i])))
  {
  }

  // ----- The edits in order -----

  /** The place of an edit in a full configuration: what is referred to before what refers to it, the TDD pattern before
      its binding, and both before the activation. */
  function Stage(e: Edit): nat {
    match e
    case Interfaces => 0
    case ProcessingElements => 1
    case TxEndpoints(_) => 2
    case RxEndpoints(_) => 3
    case TxCarriers(_) => 4
    case RxCarriers(_) => 5
    case TxLinks(_) => 6
    case RxLinks(_) => 7
    case UploadPattern(_) => 8
    case BindPattern(_, _, _) => 9
    case Activate(_, _) => 10
  }

  ghost predicate InStages(edits: seq<Edit>) {
    forall i, j :: 0 <= i < j < |edits| ==> Stage(edits[i]) < Stage(edits[j])
  }

  /** What the plan pushes of each kind of edit, None for nothing. */
  function Planned(c: Config, gates: Gates, p: Plan, stage: nat): Option<Edit>
    requires p.rx != []
  {
    if stage == 0 then if gates.interfacesWritable then Some(Interfaces) else None
    else if stage == 1 then Some(ProcessingElements)
    else if stage == 2 then Some(TxEndpoints(p.tx))
    else if stage == 3 then Some(RxEndpoints(p.rx + p.prach))
    else if stage == 4 then Some(TxCarriers(CountOf(c.carriers, |p.tx|)))
    else if stage == 5 then Some(RxCarriers(CountOf(c.carriers, |p.rx|)))
    else if stage == 6 then Some(TxLinks(TxLinksOf(p.tx)))
    else if stage == 7 then Some(RxLinks(RxLinksOf(p.rx, p.prach)))
    else if stage == 8 then if c.patternUpload && gates.uploadSupported then Some(UploadPattern(c.patternId)) else None
    else if stage == 9 then
      if c.carrierBinding && gates.bindSupported then Some(BindPattern(c.patternId, |p.tx|, |p.rx|)) else None
    else if stage == 10 then
      if c.skipActivation then None else Some(Activate(CountOf(c.activeTx, |p.tx|), CountOf(c.activeRx, |p.rx|)))
    else None
  }

  lemma StagedLast(edits: seq<Edit>, included: bool, e: Edit, stage: nat)
    requires InStages(edits) && (forall d :: d in edits ==> Stage(d) < stage) && Stage(e) == stage
    ensures InStages(edits + Optional(included, e))
    ensures forall d :: d in edits + Optional(included, e) <==> d in edits || (included && d == e)
  {
    var all := edits + Optional(included, e);
    forall i, j | 0 <= i < j < |all| ensures Stage(all[i]) < Stage(all[j]) {
      assert all[i] == edits[i] && edits[i] in edits;
    }
  }

  ghost predicate HoldsBelow(c: Config, gates: Gates, p: Plan, edits: seq<Edit>, limit: nat)
    requires p.rx != []
  {
    && InStages(edits)
    && forall d :: d in edits <==> Stage(d) < limit && Planned(c, gates, p, Stage(d)) == Some(d)
  }

  lemma OneMoreStage(c: Config, gates: Gates, p: Plan, edits: seq<Edit>, included: bool, e: Edit, limit: nat)
    requires p.rx != [] && limit == Stage(e) && HoldsBelow(c, gates, p, edits, limit)
    requires Planned(c, gates, p, limit) == if included then Some(e) else None
    ensures HoldsBelow(c, gates, p, edits + Optional(included, e), limit + 1)
  {
    StagedLast(edits, included, e, Stage(e));
    assert forall d :: Stage(d) == Stage(e) && Planned(c, gates, p, Stage(d)) == Some(d) ==> included && d == e;
  }

  lemma CertainStage(c: Config, gates: Gates, p: Plan, edits: seq<Edit>, e: Edit, limit: nat)
    requires p.rx != [] && limit == Stage(e) && HoldsBelow(c, gates, p, edits, limit) && Planned(c, gates, p, limit) == Some(e)
    ensures HoldsBelow(c, gates, p, edits + [e], limit + 1)
  {
    OneMoreStage(c, gates, p, edits, true, e, limit);
  }

  lemma EndpointsStaged(c: Config, gates: Gates, p: Plan)
    requires p.rx != []
    ensures HoldsBelow(c, gates, p, Optional(gates.interfacesWritable, Interfaces)
                                    + [ProcessingElements] + [TxEndpoints(p.tx)] + [RxEndpoints(p.rx + p.prach)], 4)
  {
    var e0 := Optional(gates.interfacesWritable, Interfaces);
    var e1 := e0 + [ProcessingElements];
    var e2 := e1 + [TxEndpoints(p.tx)];
    OneMoreStage(c, gates, p, [], gates.interfacesWritable, Interfaces, 0);
    assert [] + e0 == e0;
    CertainStage(c, gates, p, e0, ProcessingElements, 1);
    CertainStage(c, gates, p, e1, TxEndpoints(p.tx), 2);
    CertainStage(c, gates, p, e2, RxEndpoints(p.rx + p.prach), 3);
  }

  lemma FoundationStaged(c: Config, gates: Gates, p: Plan)
    requires p.rx != []
    ensures HoldsBelow(c, gates, p, Foundation(c, gates, p), 6)
  {
    var tx, rx := TxCarriers(CountOf(c.carriers, |p.tx|)), RxCarriers(CountOf(c.carriers, |p.rx|));
    var e3 := Optional(gates.interfacesWritable, Interfaces)
              + [ProcessingElements] + [TxEndpoints(p.tx)] + [RxEndpoints(p.rx + p.prach)];
    EndpointsStaged(c, gates, p);
    CertainStage(c, gates, p, e3, tx, 4);
    CertainStage(c, gates, p, e3 + [tx], rx, 5);
    assert Foundation(c, gates, p) == e3 + [tx] + [rx];
  }

  lemma LinkedStaged(c: Config, gates: Gates, p: Plan)
    requires p.rx != []
    ensures HoldsBelow(c, gates, p, Linked(c, gates, p), 8)
  {
    FoundationStaged(c, gates, p);
    var foundation, links := Foundation(c, gates, p), TxLinks(TxLinksOf(p.tx));
    CertainStage(c, gates, p, foundation, links, 6);
    CertainStage(c, gates, p, foundation + [links], RxLinks(RxLinksOf(p.rx, p.prach)), 7);
  }

  lemma UploadedStaged(c: Config, gates: Gates, p: Plan)
    requires p.rx != []
    ensures HoldsBelow(c, gates, p, Uploaded(c, gates, p), 9)
  {
    LinkedStaged(c, gates, p);
    OneMoreStage(c, gates, p, Linked(c, gates, p), c.patternUpload && gates.uploadSupported, UploadPattern(c.patternId), 8);
  }

  lemma BoundStaged(c: Config, gates: Gates, p: Plan)
    requires p.rx != []
    ensures HoldsBelow(c, gates, p, Bound(c, gates, p), 10)
  {
    UploadedStaged(c, gates, p);
    OneMoreStage(c, gates, p, Uploaded(c, gates, p), c.carrierBinding && gates.bindSupported,
                 BindPattern(c.patternId, |p.tx|, |p.rx|), 9);
  }

  lemma PlanStaged(c: Config, gates: Gates, p: Plan)
    requires p.rx != []
    ensures HoldsBelow(c, gates, p, FullPlan(c, gates, p), 11)
  {
    var activation := Activate(CountOf(c.activeTx, |p.tx|), CountOf(c.activeRx, |p.rx|));
    BoundStaged(c, gates, p);
    OneMoreStage(c, gates, p, Bound(c, gates, p), !c.skipActivation, activation, 10);
    assert FullPlan(c, gates, p) == Bound(c, gates, p) + Optional(!c.skipActivation, activation);
  }

  /** The plan is the planned edits, each once, in the order of their stages: in particular a TDD pattern comes before its
      binding, and both before the activation. */
  lemma PlanInOrder(c: Config, gates: Gates, p: Plan)
    requires p.rx != []
    ensures InStages(FullPlan(c, gates, p))
    ensures forall e :: e in FullPlan(c, gates, p) <==> Planned(c, gates, p, Stage(e)) == Some(e)
  {
    var plan, limit := FullPlan(c, gates, p), 11;
    PlanStaged(c, gates, p);
    AllStages(c, gates, p, plan, limit);
  }

  lemma AllStages(c: Config, gates: Gates, p: Plan, edits: seq<Edit>, limit: nat)
    requires p.rx != [] && limit == 11 && HoldsBelow(c, gates, p, edits, limit)
    ensures forall e :: e in edits <==> Planned(c, gates, p, Stage(e)) == Some(e)
  {
  }
}
