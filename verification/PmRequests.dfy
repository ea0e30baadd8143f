/** What a cycle of the measurement bridge asks for, group by group, with and without capability lists. */
module PmRequests {
  import opened Options
  import opened PmConvergence

  // ----- Restriction is in order -----

  /** Restricting keeps each object or drops it by itself, and the order of those kept. */
  lemma {:induction false} KeepSplits(a: seq<string>, b: seq<string>, kept: set<string>)
    ensures Keep(a + b, kept) == Keep(a, kept) + Keep(b, kept)
    decreases |b|
  {
    if b == [] {
      assert a + b == a;
    } else {
      var earlier, last := b[..|b| - 1], b[|b| - 1];
      KeepSplits(a, earlier, kept);
      assert (a + b)[..|a + b| - 1] == a + earlier && (a + b)[|a + b| - 1] == last;
    }
  }

  lemma KeepOne(o: string, kept: set<string>)
    ensures Keep([o], kept) == if o in kept then [o] else []
  {
    assert [o][..0] == [];
  }

  // ----- Without lists -----

  /** Without lists a cycle requests the configured groups as they are, even an empty one; of those not configured, the
      nine reception-window counters and nothing else. */
  lemma RequestWithoutLists(config: PmConfig)
    ensures RequestedConfig(config, None) == Some(config)
    ensures var g := RequestedGroups(config, None);
            && g.rxWindow == config.rxWindow.GetOr(["RX_ON_TIME", "RX_EARLY", "RX_LATE", "RX_CORRUPT", "RX_DUPL", "RX_TOTAL",
                                                    "RX_ON_TIME_C", "RX_EARLY_C", "RX_LATE_C"])
            && g.transceiver == config.transceiver.GetOr([])
            && g.tx == config.tx.GetOr([])
            && g.epe == config.epe.GetOr([])
  {
  }

  // ----- With lists -----

  /** Under a list, a group not configured asks for all that is advertised, in the order of the list; a configured one for
      those of its own objects that are advertised, in its own order. */
  ghost predicate AsksFor(configured: Option<seq<string>>, advertised: seq<string>, requested: seq<string>) {
    if configured == None then requested == advertised
    else
      && (forall o :: o in requested <==> o in configured.value && o in advertised)
      && forall a, b :: a + b == configured.value ==> Parted(a, b, advertised, requested)
  }

  /** However the configured objects are parted, so are the requested. */
  ghost predicate Parted(a: seq<string>, b: seq<string>, advertised: seq<string>, requested: seq<string>) {
    requested == Keep(a, NamesIn(advertised)) + Keep(b, NamesIn(advertised))
  }

  lemma NarrowedAsks(configured: Option<seq<string>>, advertised: seq<string>)
    ensures AsksFor(configured, advertised, Narrowed(configured, advertised))
  {
    if configured.Some? {
      var kept := NamesIn(advertised);
      KeepContents(configured.value, kept);
      forall o
        ensures o in Keep(configured.value, kept) <==> o in configured.value && o in advertised
      {
        assert o in NamesIn(Keep(configured.value, kept)) <==> o in NamesIn(configured.value) * kept;
      }
      forall a, b | a + b == configured.value ensures Parted(a, b, advertised, Narrowed(configured, advertised)) {
        KeepSplits(a, b, kept);
      }
    }
  }

  /** With lists every group is narrowed by its own list; the cycle is skipped exactly when that leaves nothing at all. */
  lemma RequestUnderLists(config: PmConfig, caps: Groups)
    ensures var g, pushed := RequestedGroups(config, Some(caps)), RequestedConfig(config, Some(caps));
            && (pushed == None <==> g == NONE)
            && (pushed.Some? ==> pushed.value == Exactly(g))
            && AsksFor(config.rxWindow, caps.rxWindow, g.rxWindow)
            && AsksFor(config.transceiver, caps.transceiver, g.transceiver)
            && AsksFor(config.tx, caps.tx, g.tx)
            && AsksFor(config.epe, caps.epe, g.epe)
  {
    NarrowedAsks(config.rxWindow, caps.rxWindow);
    NarrowedAsks(config.transceiver, caps.transceiver);
    NarrowedAsks(config.tx, caps.tx);
    NarrowedAsks(config.epe, caps.epe);
  }

  // ----- Whatever the O-RU answers -----

  /** The attempt a run of reject and retry ended with: its number, from the first, and the groups it was made with. */
  ghost predicate EndedWith(oru: Oru, k: nat, g: Groups, outcome: Outcome) {
    match outcome
    case Active(groups) => groups == g && g != NONE && oru(k, g) == Accepted
    case Inactive => g == NONE || oru(k, g) == Skipped
    case Raised(response) => g != NONE && response == oru(k, g) && (response.TransportFailure? || NamesNothing(response, g))
  }

  /** A rejection that names none of the requested objects. */
  predicate NamesNothing(response: Response, g: Groups) {
    response.RpcError? && response.named !! Names(g)
  }

  /** With any O-RU whatever: what is reported active was accepted as a whole on the last attempt, and is the request with
      some objects dropped from every group, in order; what is raised answered the last attempt and named nothing that was
      asked for, or was lost; nothing is active only if all was dropped or the edit was skipped. */
  lemma {:induction false} ConvergeEnds(g: Groups, oru: Oru, k: nat) returns (last: nat, kept: set<string>)
    ensures k <= last
    ensures EndedWith(oru, last, Only(g, kept), Converge(g, oru, k).0)
    ensures Converge(g, oru, k).1 == if Only(g, kept) == NONE then last else last + 1
    decreases |Names(g)|
  {
    OnlyAll(g, Names(g));
    last, kept := k, Names(g);
    if g != NONE && oru(k, g).RpcError? && oru(k, g).named * Names(g) != {} {
      var rejected := oru(k, g).named * Names(g);
      var rest := Names(g) - rejected;
      RejectionShrinks(g, rejected);
      var later: set<string>;
      last, later := ConvergeEnds(Only(g, rest), oru, k + 1);
      kept := rest * later;
      OnlyTwice(g, rest, later);
    }
  }
}
