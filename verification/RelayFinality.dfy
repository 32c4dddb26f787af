/** The assumption that given-up hashes stay dead, as a condition on runs, and why it is needed. */
module RelayFinality {
  import opened Prelude
  import opened RelayRecords
  import opened RelayRuns
  import opened RelaySafety
  import opened RelayVerdicts

  /** Runs on any chains: a broadcast transaction may land at any time, given up or not. */
  ghost predicate PossibleRun(cfg: Config, steps: seq<Step>) {
    steps == [] ||
    (var n := |steps| - 1; PossibleRun(cfg, steps[..n]) && Possible(Exec(cfg, steps[..n]), steps[n]))
  }

  lemma OneMorePossible(cfg: Config, steps: seq<Step>, step: Step)
    requires PossibleRun(cfg, steps) && Possible(Exec(cfg, steps), step)
    ensures PossibleRun(cfg, steps + [step])
    ensures Exec(cfg, steps + [step]) == Apply(cfg, Exec(cfg, steps), step)
  {
    assert (steps + [step])[..|steps|] == steps;
  }

  ghost predicate GivenUpStayDead(s: System) {
    s.landed !! s.dead
  }

  /** No two different transactions of an order have landed. */
  ghost predicate AtMostOne(s: System) {
    forall i, j | 0 <= i < |s.sent| && 0 <= j < |s.sent| && SameOrder(s.sent[i].key, s.sent[j].key) ::
      s.sent[i].txHash in s.landed && s.sent[j].txHash in s.landed ==> s.sent[i].txHash == s.sent[j].txHash
  }

  lemma LogsGrow(cfg: Config, s: System, step: Step)
    requires Possible(s, step)
    ensures var s' := Apply(cfg, s, step); s.landed <= s'.landed && s.dead <= s'.dead
    ensures GivenUpStayDead(Apply(cfg, s, step)) ==> Final(cfg, s, step)
  {
  }

  /** A run respects the chains' finality step by step exactly when no given-up hash has landed by its end. */
  lemma {:induction false} LegalIffGivenUpStayDead(cfg: Config, steps: seq<Step>)
    requires cfg.Valid() && PossibleRun(cfg, steps)
    ensures Legal(cfg, steps) <==> GivenUpStayDead(Exec(cfg, steps))
  {
    if Legal(cfg, steps) {
      RunKeepsInv(cfg, steps);
    }
    if steps != [] {
      var n := |steps| - 1;
      LegalIffGivenUpStayDead(cfg, steps[..n]);
      LogsGrow(cfg, Exec(cfg, steps[..n]), steps[n]);
    }
  }

  /** Of all broadcasts of an order, one at most has landed, even where hashes coincide. */
  ghost predicate AtMostOneBroadcast(s: System) {
    forall i, j | 0 <= i < |s.sent| && 0 <= j < |s.sent| && SameOrder(s.sent[i].key, s.sent[j].key) ::
      s.sent[i].txHash in s.landed && s.sent[j].txHash in s.landed ==> i == j
  }

  /** Whatever the chains did, at most one transaction per order has landed if no given-up hash has. */
  lemma AtMostOneUnlessADeadHashLands(cfg: Config, steps: seq<Step>)
    requires cfg.Valid() && PossibleRun(cfg, steps) && GivenUpStayDead(Exec(cfg, steps))
    ensures AtMostOneBroadcast(Exec(cfg, steps)) && AtMostOne(Exec(cfg, steps))
  {
    LegalIffGivenUpStayDead(cfg, steps);
    var s := Exec(cfg, steps);
    forall i, j | 0 <= i < |s.sent| && 0 <= j < |s.sent| && SameOrder(s.sent[i].key, s.sent[j].key)
                  && s.sent[i].txHash in s.landed && s.sent[j].txHash in s.landed
      ensures i == j
    {
      AtMostOneLands(cfg, steps, i, j);
    }
  }

  const CLAIM := Action("order", "side", "claim")
  const REFUND := Action("order", "side", "refund")

  /** A claim whose hash the chain calls failed. */
  function ClaimGivenUp(): seq<Step> {
    [Submit(0, CLAIM)] + [StageDone(0, Staged("c"))] + [Broadcast(0)] + [BroadcastDone(0, false)] + [PollDone(0, ChainFailed)]
  }

  lemma ClaimIsGivenUp(cfg: Config)
    requires cfg.Valid() && cfg.hasConfirmer
    ensures var s := Exec(cfg, ClaimGivenUp());
            && PossibleRun(cfg, ClaimGivenUp())
            && s.t.records == map[CLAIM := Record(Failed, Some("c"), Some(FailedOnChain), 1)]
            && s.sent == [Sent(CLAIM, "c")] && s.nextOp == 1 && 1 !in s.waiting
  {
    var r1 := [Submit(0, CLAIM)];
    var r2 := r1 + [StageDone(0, Staged("c"))];
    var r3 := r2 + [Broadcast(0)];
    var r4 := r3 + [BroadcastDone(0, false)];
    assert r1 == [] + [Submit(0, CLAIM)];
    OneMorePossible(cfg, [], Submit(0, CLAIM));
    OneMorePossible(cfg, r1, StageDone(0, Staged("c")));
    OneMorePossible(cfg, r2, Broadcast(0));
    OneMorePossible(cfg, r3, BroadcastDone(0, false));
    OneMorePossible(cfg, r4, PollDone(0, ChainFailed));
  }

  /** Then a refund is broadcast. */
  function RefundSent(): seq<Step> {
    ClaimGivenUp() + [Submit(1, REFUND)] + [StageDone(1, Staged("r"))] + [Broadcast(1)]
  }

  lemma RefundIsSent(cfg: Config)
    requires cfg.Valid() && cfg.hasConfirmer
    ensures PossibleRun(cfg, RefundSent()) && Exec(cfg, RefundSent()).sent == [Sent(CLAIM, "c"), Sent(REFUND, "r")]
  {
    var r0 := ClaimGivenUp();
    var r1 := r0 + [Submit(1, REFUND)];
    var r2 := r1 + [StageDone(1, Staged("r"))];
    ClaimIsGivenUp(cfg);
    assert !Blocked(Exec(cfg, r0).t.records, REFUND);
    OneMorePossible(cfg, r0, Submit(1, REFUND));
    OneMorePossible(cfg, r1, StageDone(1, Staged("r")));
    OneMorePossible(cfg, r2, Broadcast(1));
  }

  /** On a chain that revives a hash it called failed, claim and refund both land. */
  lemma RevivedHashLandsTwice(cfg: Config)
    requires cfg.Valid() && cfg.hasConfirmer
    ensures var run := RefundSent() + [Land("c")] + [Land("r")];
            PossibleRun(cfg, run) && !AtMostOne(Exec(cfg, run))
  {
    var r := RefundSent();
    RefundIsSent(cfg);
    var s := Exec(cfg, r);
    assert s.sent[0].txHash == "c" && s.sent[1].txHash == "r";
    OneMorePossible(cfg, r, Land("c"));
    OneMorePossible(cfg, r + [Land("c")], Land("r"));
    var s' := Exec(cfg, r + [Land("c")] + [Land("r")]);
    assert s'.sent[0].txHash in s'.landed && s'.sent[1].txHash in s'.landed && s'.sent[0].txHash != s'.sent[1].txHash;
  }

  /** The runs of a tracker on chains that keep given-up hashes dead, or on chains that may not. */
  ghost predicate Happens(cfg: Config, finalChains: bool, steps: seq<Step>) {
    PossibleRun(cfg, steps) && (finalChains ==> GivenUpStayDead(Exec(cfg, steps)))
  }

  /**
   * At most one transaction per order lands in every run exactly when the chains keep
   * given-up hashes dead, or the tracker has no confirmer and so never gives one up.
   */
  lemma AtMostOneLandsIffGivenUpStayDead(cfg: Config, finalChains: bool)
    requires cfg.Valid()
    ensures (forall steps :: Happens(cfg, finalChains, steps) ==> AtMostOne(Exec(cfg, steps))) <==> finalChains || !cfg.hasConfirmer
  {
    if finalChains || !cfg.hasConfirmer {
      forall steps | Happens(cfg, finalChains, steps)
        ensures AtMostOne(Exec(cfg, steps))
      {
        if !cfg.hasConfirmer {
          NobodyPolls(cfg, steps);
        }
        AtMostOneUnlessADeadHashLands(cfg, steps);
      }
    } else {
      RevivedHashLandsTwice(cfg);
      assert Happens(cfg, finalChains, RefundSent() + [Land("c")] + [Land("r")]);
    }
  }
}
