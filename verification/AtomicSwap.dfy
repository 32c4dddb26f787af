/**
 * A cross-chain swap: a source leg and a destination leg locked under one secret on two
 * simulators, and the argument that both settle or both refund.
 */
module AtomicSwap {
  import opened Prelude
  import opened HtlcSim

  /** The order ids of the two legs, and how long the resolver may take to reuse a revealed secret. */
  datatype Legs = Legs(src: nat, dst: nat, gap: nat)

  /** The two chains and the preimages that successful destination claims of the swap published. */
  datatype World = World(src: Ledger, dst: Ledger, revealed: set<string>)

  datatype Act = OnSource(op: Op) | OnDestination(op: Op) | Wait(seconds: nat)

  predicate Opens(hash: Hash, l: Ledger, id: nat, preimage: string) {
    id in l.orders && ValidPreimage(preimage) && hash(id, preimage) == l.orders[id].hashlock
  }

  predicate Is(l: Ledger, id: nat, status: OrderStatus) {
    id in l.orders && l.orders[id].status == status
  }

  /** Time passes on both chains alike; claims and refunds of any order happen in any order. */
  function Step(hash: Hash, legs: Legs, w: World, act: Act): World {
    match act
    case OnSource(op) => w.(src := Do(hash, w.src, op))
    case OnDestination(op) =>
      var published := op.Claim? && op.id == legs.dst && ClaimOrder(hash, w.dst, op.id, op.preimage).1.Ok?;
      w.(dst := Do(hash, w.dst, op), revealed := if published then w.revealed + {op.preimage} else w.revealed)
    case Wait(seconds) => w.(src := Do(hash, w.src, AdvanceTime(seconds)), dst := Do(hash, w.dst, AdvanceTime(seconds)))
  }

  /**
   * The two things the parties do: nobody opens the source leg with a secret that was not
   * revealed on the destination, and once it was, the resolver lets at most `gap` seconds
   * pass before using it.
   */
  ghost predicate Played(hash: Hash, legs: Legs, w: World, act: Act) {
    match act
    case OnSource(op) =>
      && !op.AdvanceTime?
      && (op.Claim? && op.id == legs.src && Opens(hash, w.src, legs.src, op.preimage) ==> op.preimage in w.revealed)
    case OnDestination(op) => !op.AdvanceTime?
    case Wait(seconds) =>
      Is(w.dst, legs.dst, Claimed) && Is(w.src, legs.src, Funded) ==>
        w.dst.now + seconds <= w.dst.orders[legs.dst].finalisedAt + legs.gap
  }

  /** Both legs locked and nothing revealed. */
  ghost predicate Locked(hash: Hash, legs: Legs, w: World) {
    && Registered(w.src) && Registered(w.dst)
    && Is(w.src, legs.src, Funded) && Is(w.dst, legs.dst, Funded)
    && (forall p :: p in w.revealed ==> !Opens(hash, w.src, legs.src, p))
  }

  /** The destination leg expires, with the gap to spare, before the source leg. */
  predicate Spaced(legs: Legs, w: World)
    requires legs.src in w.src.orders && legs.dst in w.dst.orders
  {
    w.dst.orders[legs.dst].timelock - w.dst.now + legs.gap <= w.src.orders[legs.src].timelock - w.src.now
  }

  ghost predicate Legal(hash: Hash, legs: Legs, w: World, acts: seq<Act>) {
    acts == [] ||
    (var n := |acts| - 1; Legal(hash, legs, w, acts[..n]) && Played(hash, legs, Exec(hash, legs, w, acts[..n]), acts[n]))
  }

  function Exec(hash: Hash, legs: Legs, w: World, acts: seq<Act>): World {
    if acts == [] then w else Step(hash, legs, Exec(hash, legs, w, acts[..|acts| - 1]), acts[|acts| - 1])
  }

  ghost predicate Split(legs: Legs, w: World) {
    || (Is(w.src, legs.src, Claimed) && Is(w.dst, legs.dst, Refunded))
    || (Is(w.src, legs.src, Refunded) && Is(w.dst, legs.dst, Claimed))
  }

  // ---- The invariant --------------------------------------------------------------

  ghost predicate Inv(hash: Hash, legs: Legs, w: World) {
    Registered(w.src) && Registered(w.dst) && InStep(hash, legs, w)
  }

  ghost predicate InStep(hash: Hash, legs: Legs, w: World) {
    && legs.src in w.src.orders && legs.dst in w.dst.orders
    && var s, d := w.src.orders[legs.src], w.dst.orders[legs.dst];
    && Spaced(legs, w)
    && (s.status == Refunded ==> w.src.now > s.timelock && d.status != Claimed)
    && (s.status == Claimed ==> d.status == Claimed)
    && (d.status == Claimed ==> d.finalisedAt <= d.timelock)
    && (d.status == Claimed && s.status == Funded ==> w.dst.now <= d.finalisedAt + legs.gap)
    && (forall p :: p in w.revealed && Opens(hash, w.src, legs.src, p) ==> d.status == Claimed)
  }

  /** An operation leaves the terms of every order alone, and changes the status of the one it names only. */
  lemma OpKeepsTerms(hash: Hash, l: Ledger, op: Op, id: nat)
    requires Registered(l) && id in l.orders
    ensures var l' := Do(hash, l, op);
            && id in l'.orders
            && l'.orders[id].timelock == l.orders[id].timelock && l'.orders[id].hashlock == l.orders[id].hashlock
            && (op.AdvanceTime? || l'.now == l.now)
            && (l'.orders[id] == l.orders[id]
                || (op == Refund(id) && RefundOrder(l, id).1.Ok? && l'.orders[id].status == Refunded)
                || (op.Claim? && op.id == id && ClaimOrder(hash, l, id, op.preimage).1.Ok?
                    && l'.orders[id].status == Claimed && l'.orders[id].finalisedAt == l.now))
  {
  }

  lemma SourceActKeepsStep(hash: Hash, legs: Legs, w: World, op: Op)
    requires Registered(w.src) && InStep(hash, legs, w) && Played(hash, legs, w, OnSource(op))
    ensures InStep(hash, legs, Step(hash, legs, w, OnSource(op)))
  {
    OpKeepsTerms(hash, w.src, op, legs.src);
  }

  lemma DestinationActKeepsStep(hash: Hash, legs: Legs, w: World, op: Op)
    requires Registered(w.dst) && InStep(hash, legs, w) && Played(hash, legs, w, OnDestination(op))
    ensures InStep(hash, legs, Step(hash, legs, w, OnDestination(op)))
  {
    OpKeepsTerms(hash, w.dst, op, legs.dst);
  }

  lemma ActKeepsInv(hash: Hash, legs: Legs, w: World, act: Act)
    requires Inv(hash, legs, w) && Played(hash, legs, w, act)
    ensures Inv(hash, legs, Step(hash, legs, w, act))
  {
    match act
    case OnSource(op) =>
      StepKeepsRegistered(hash, w.src, op);
      SourceActKeepsStep(hash, legs, w, op);
    case OnDestination(op) =>
      StepKeepsRegistered(hash, w.dst, op);
      DestinationActKeepsStep(hash, legs, w, op);
    case Wait(seconds) =>
      StepKeepsRegistered(hash, w.src, AdvanceTime(seconds));
      StepKeepsRegistered(hash, w.dst, AdvanceTime(seconds));
  }

  lemma {:induction false} RunKeepsInv(hash: Hash, legs: Legs, w: World, acts: seq<Act>)
    requires Locked(hash, legs, w) && Spaced(legs, w) && Legal(hash, legs, w, acts)
    ensures Inv(hash, legs, Exec(hash, legs, w, acts))
  {
    if acts != [] {
      var n := |acts| - 1;
      RunKeepsInv(hash, legs, w, acts[..n]);
      ActKeepsInv(hash, legs, Exec(hash, legs, w, acts[..n]), acts[n]);
    }
  }

  // ---- The release check ----------------------------------------------------------

  datatype ReleaseKind = ClaimKind | RefundKind

  datatype Release = Together | OneSided(lockedSource: bool) | Neither

  predicate IsLegReleased(l: Ledger, id: nat, kind: ReleaseKind)
    requires id in l.orders
  {
    && l.orders[id].status == (if kind == ClaimKind then Claimed else Refunded)
    && (if id in l.escrow then l.escrow[id] else 0) == 0
  }

  /** `assertEscrowReleasedTogether`: passes, or names the side still locked. */
  function ReleaseCheck(legs: Legs, w: World, kind: ReleaseKind): Release
    requires legs.src in w.src.orders && legs.dst in w.dst.orders
  {
    var src, dst := IsLegReleased(w.src, legs.src, kind), IsLegReleased(w.dst, legs.dst, kind);
    if src && dst then Together else if !src && !dst then Neither else OneSided(!src)
  }

  /** What the release check passes, and which side it names: the one still locked, when the other was released alone. */
  lemma ReleaseCheckIsExact(legs: Legs, w: World, kind: ReleaseKind)
    requires Registered(w.src) && Registered(w.dst) && legs.src in w.src.orders && legs.dst in w.dst.orders
    ensures var ended := if kind == ClaimKind then Claimed else Refunded;
            && (ReleaseCheck(legs, w, kind) == Together <==> Is(w.src, legs.src, ended) && Is(w.dst, legs.dst, ended))
            && (ReleaseCheck(legs, w, kind) == OneSided(true) <==> !Is(w.src, legs.src, ended) && Is(w.dst, legs.dst, ended))
            && (ReleaseCheck(legs, w, kind) == OneSided(false) <==> Is(w.src, legs.src, ended) && !Is(w.dst, legs.dst, ended))
  {
  }

  /** The legs never part: no run claims one and refunds the other, and once both ended the check passes for one kind. */
  lemma SwapIsAtomic(hash: Hash, legs: Legs, w: World, acts: seq<Act>)
    requires Locked(hash, legs, w) && Spaced(legs, w) && Legal(hash, legs, w, acts)
    ensures !Split(legs, Exec(hash, legs, w, acts))
    ensures var w' := Exec(hash, legs, w, acts);
            && legs.src in w'.src.orders && legs.dst in w'.dst.orders
            && (!Is(w'.src, legs.src, Funded) && !Is(w'.dst, legs.dst, Funded) ==>
                  ReleaseCheck(legs, w', ClaimKind) == Together || ReleaseCheck(legs, w', RefundKind) == Together)
  {
    RunKeepsInv(hash, legs, w, acts);
  }

  /** One preimage opens both legs, whichever order ids it is bound to. */
  ghost predicate OneSecret(hash: Hash, legs: Legs, w: World) {
    forall p :: Opens(hash, w.src, legs.src, p) <==> Opens(hash, w.dst, legs.dst, p)
  }

  /** The destination can still be claimed: its timelock has not passed and some preimage opens it. */
  ghost predicate Claimable(hash: Hash, legs: Legs, l: Ledger) {
    && legs.dst in l.orders && l.now <= l.orders[legs.dst].timelock
    && exists p :: Opens(hash, l, legs.dst, p)
  }

  /** An unclaimable destination stays unclaimed, so that nothing is revealed and the source unclaimed too. */
  ghost predicate Stale(hash: Hash, legs: Legs, w: World) {
    && Registered(w.src) && Registered(w.dst)
    && legs.src in w.src.orders && legs.dst in w.dst.orders
    && !Claimable(hash, legs, w.dst)
    && !Is(w.src, legs.src, Claimed) && !Is(w.dst, legs.dst, Claimed)
    && (forall p :: p in w.revealed ==> !Opens(hash, w.src, legs.src, p))
  }

  lemma UnclaimableRefuses(hash: Hash, legs: Legs, l: Ledger, preimage: string)
    requires legs.dst in l.orders && !Claimable(hash, legs, l)
    ensures !ClaimOrder(hash, l, legs.dst, preimage).1.Ok?
  {
    assert Opens(hash, l, legs.dst, preimage) ==> l.now > l.orders[legs.dst].timelock;
  }

  lemma StaleSourceStaysStale(hash: Hash, legs: Legs, w: World, op: Op)
    requires Stale(hash, legs, w) && Played(hash, legs, w, OnSource(op))
    ensures Stale(hash, legs, Step(hash, legs, w, OnSource(op)))
  {
    StepKeepsRegistered(hash, w.src, op);
    OpKeepsTerms(hash, w.src, op, legs.src);
    var l := Do(hash, w.src, op);
    assert forall p :: Opens(hash, l, legs.src, p) <==> Opens(hash, w.src, legs.src, p);
  }

  lemma StaleDestinationStaysStale(hash: Hash, legs: Legs, w: World, op: Op)
    requires Stale(hash, legs, w) && Played(hash, legs, w, OnDestination(op))
    ensures Stale(hash, legs, Step(hash, legs, w, OnDestination(op)))
  {
    StepKeepsRegistered(hash, w.dst, op);
    OpKeepsTerms(hash, w.dst, op, legs.dst);
    var l := Do(hash, w.dst, op);
    assert forall p :: Opens(hash, l, legs.dst, p) <==> Opens(hash, w.dst, legs.dst, p);
    if op.Claim? {
      UnclaimableRefuses(hash, legs, w.dst, op.preimage);
    }
  }

  lemma StaleWaits(hash: Hash, legs: Legs, w: World, seconds: nat)
    requires Stale(hash, legs, w)
    ensures Stale(hash, legs, Step(hash, legs, w, Wait(seconds)))
  {
    var w' := Step(hash, legs, w, Wait(seconds));
    assert forall p :: Opens(hash, w'.dst, legs.dst, p) <==> Opens(hash, w.dst, legs.dst, p);
    assert forall p :: Opens(hash, w'.src, legs.src, p) <==> Opens(hash, w.src, legs.src, p);
  }

  lemma {:induction false} RunStaysStale(hash: Hash, legs: Legs, w: World, acts: seq<Act>)
    requires Stale(hash, legs, w) && Legal(hash, legs, w, acts)
    ensures Stale(hash, legs, Exec(hash, legs, w, acts))
  {
    if acts != [] {
      var n := |acts| - 1;
      var v := Exec(hash, legs, w, acts[..n]);
      RunStaysStale(hash, legs, w, acts[..n]);
      match acts[n]
      case OnSource(op) => StaleSourceStaysStale(hash, legs, v, op);
      case OnDestination(op) => StaleDestinationStaysStale(hash, legs, v, op);
      case Wait(seconds) => StaleWaits(hash, legs, v, seconds);
    }
  }

  /** The timelock spacing is exactly what atomicity of all runs needs, unless the destination can no longer be claimed at all. */
  lemma SpacingIsNecessary(hash: Hash, legs: Legs, w: World)
    requires Locked(hash, legs, w)
    ensures (forall acts :: Legal(hash, legs, w, acts) ==> !Split(legs, Exec(hash, legs, w, acts))) <==>
            Spaced(legs, w) || !Claimable(hash, legs, w.dst)
  {
    if Spaced(legs, w) || !Claimable(hash, legs, w.dst) {
      forall acts | Legal(hash, legs, w, acts)
        ensures !Split(legs, Exec(hash, legs, w, acts))
      {
        if Spaced(legs, w) {
          SwapIsAtomic(hash, legs, w, acts);
        } else {
          RunStaysStale(hash, legs, w, acts);
        }
      }
    } else {
      var secret :| Opens(hash, w.dst, legs.dst, secret);
      LateClaimSplits(hash, legs, w, secret);
    }
  }

  lemma ExecOneMore(hash: Hash, legs: Legs, w: World, acts: seq<Act>, act: Act)
    ensures Exec(hash, legs, w, acts + [act]) == Step(hash, legs, Exec(hash, legs, w, acts), act)
    ensures Legal(hash, legs, w, acts + [act]) <==> Legal(hash, legs, w, acts) && Played(hash, legs, Exec(hash, legs, w, acts), act)
  {
    assert (acts + [act])[..|acts|] == acts;
  }

  /** The destination is claimed in the last second of its timelock. */
  function LastMomentClaim(legs: Legs, w: World, secret: string): seq<Act>
    requires legs.dst in w.dst.orders && w.dst.now <= w.dst.orders[legs.dst].timelock
  {
    [Wait(w.dst.orders[legs.dst].timelock - w.dst.now)] + [OnDestination(Claim(legs.dst, secret))]
  }

  lemma OneAct(hash: Hash, legs: Legs, w: World, act: Act)
    ensures Exec(hash, legs, w, [act]) == Step(hash, legs, w, act)
    ensures Legal(hash, legs, w, [act]) <==> Played(hash, legs, w, act)
  {
    assert [act][..0] == [];
    assert Exec(hash, legs, w, []) == w;
  }

  lemma WaitingOnly(hash: Hash, legs: Legs, w: World, seconds: nat)
    requires Is(w.src, legs.src, Funded) && Is(w.dst, legs.dst, Funded)
    ensures Legal(hash, legs, w, [Wait(seconds)])
    ensures Exec(hash, legs, w, [Wait(seconds)]) ==
            w.(src := w.src.(now := w.src.now + seconds), dst := w.dst.(now := w.dst.now + seconds))
  {
    OneAct(hash, legs, w, Wait(seconds));
  }

  lemma ClaimedAtTheLastMoment(hash: Hash, legs: Legs, w: World, secret: string)
    requires Locked(hash, legs, w) && Opens(hash, w.dst, legs.dst, secret) && w.dst.now <= w.dst.orders[legs.dst].timelock
    ensures var acts := LastMomentClaim(legs, w, secret);
            var w' := Exec(hash, legs, w, acts);
            && Legal(hash, legs, w, acts)
            && Is(w'.dst, legs.dst, Claimed) && w'.dst.orders[legs.dst].finalisedAt == w'.dst.now
            && w'.src == w.src.(now := w.src.now + w.dst.orders[legs.dst].timelock - w.dst.now)
  {
    var last := w.dst.orders[legs.dst].timelock - w.dst.now;
    WaitingOnly(hash, legs, w, last);
    ExecOneMore(hash, legs, w, [Wait(last)], OnDestination(Claim(legs.dst, secret)));
  }

  /** Without the spacing, a claim at the last moment leaves the resolver too late by the end of its gap. */
  lemma LateClaimSplits(hash: Hash, legs: Legs, w: World, secret: string)
    requires Locked(hash, legs, w) && !Spaced(legs, w) && Opens(hash, w.dst, legs.dst, secret)
    requires w.dst.now <= w.dst.orders[legs.dst].timelock
    ensures exists acts :: Legal(hash, legs, w, acts) && Split(legs, Exec(hash, legs, w, acts))
  {
    var claimed := LastMomentClaim(legs, w, secret);
    var waited := claimed + [Wait(legs.gap)];
    var refunded := waited + [OnSource(Refund(legs.src))];
    ClaimedAtTheLastMoment(hash, legs, w, secret);
    ExecOneMore(hash, legs, w, claimed, Wait(legs.gap));
    ExecOneMore(hash, legs, w, waited, OnSource(Refund(legs.src)));
    assert Split(legs, Exec(hash, legs, w, refunded));
  }

  ghost predicate Finishes(hash: Hash, legs: Legs, w: World, acts: seq<Act>, kind: ReleaseKind) {
    && Legal(hash, legs, w, acts)
    && var end := Exec(hash, legs, w, acts);
       legs.src in end.src.orders && legs.dst in end.dst.orders && ReleaseCheck(legs, end, kind) == Together
  }

  /** From every reachable moment the swap can still be finished: by the resolver's claim if the secret is out, else by two refunds. */
  lemma SwapCanBeFinished(hash: Hash, legs: Legs, w: World, acts: seq<Act>)
    requires Locked(hash, legs, w) && Spaced(legs, w) && OneSecret(hash, legs, w) && Legal(hash, legs, w, acts)
    ensures if Is(Exec(hash, legs, w, acts).dst, legs.dst, Claimed)
            then exists p :: Finishes(hash, legs, w, acts + [OnSource(Claim(legs.src, p))], ClaimKind)
            else exists t: nat ::
                   Finishes(hash, legs, w, acts + [Wait(t)] + [OnDestination(Refund(legs.dst))] + [OnSource(Refund(legs.src))], RefundKind)
  {
    RunKeepsInv(hash, legs, w, acts);
    var v := Exec(hash, legs, w, acts);
    if Is(v.dst, legs.dst, Claimed) {
      ClaimRevealsTheSecret(hash, legs, w, acts);
      var p :| p in v.revealed && Opens(hash, v.src, legs.src, p);
      ResolverFinishes(hash, legs, w, acts, p);
    } else {
      var remaining := v.src.orders[legs.src].timelock - v.src.now + 1;
      RefundsFinish(hash, legs, w, acts, if remaining < 0 then 0 else remaining);
    }
  }

  lemma ResolverClaims(hash: Hash, legs: Legs, v: World, p: string)
    requires Inv(hash, legs, v) && Is(v.dst, legs.dst, Claimed) && p in v.revealed && Opens(hash, v.src, legs.src, p)
    ensures Played(hash, legs, v, OnSource(Claim(legs.src, p)))
    ensures var v' := Step(hash, legs, v, OnSource(Claim(legs.src, p)));
            legs.src in v'.src.orders && legs.dst in v'.dst.orders && ReleaseCheck(legs, v', ClaimKind) == Together
  {
    if v.src.orders[legs.src].status == Funded {
      assert ClaimOrder(hash, v.src, legs.src, p).1.Ok?;
    }
  }

  lemma ResolverFinishes(hash: Hash, legs: Legs, w: World, acts: seq<Act>, p: string)
    requires Legal(hash, legs, w, acts) && Inv(hash, legs, Exec(hash, legs, w, acts))
    requires var v := Exec(hash, legs, w, acts); Is(v.dst, legs.dst, Claimed) && p in v.revealed && Opens(hash, v.src, legs.src, p)
    ensures Finishes(hash, legs, w, acts + [OnSource(Claim(legs.src, p))], ClaimKind)
  {
    ResolverClaims(hash, legs, Exec(hash, legs, w, acts), p);
    ExecOneMore(hash, legs, w, acts, OnSource(Claim(legs.src, p)));
  }

  lemma RefundsFinish(hash: Hash, legs: Legs, w: World, acts: seq<Act>, t: nat)
    requires Legal(hash, legs, w, acts) && Inv(hash, legs, Exec(hash, legs, w, acts))
    requires var v := Exec(hash, legs, w, acts);
             !Is(v.dst, legs.dst, Claimed) && v.src.now + t > v.src.orders[legs.src].timelock
    ensures Finishes(hash, legs, w, acts + [Wait(t)] + [OnDestination(Refund(legs.dst))] + [OnSource(Refund(legs.src))], RefundKind)
  {
    var a1 := acts + [Wait(t)];
    var a2 := a1 + [OnDestination(Refund(legs.dst))];
    ExecOneMore(hash, legs, w, acts, Wait(t));
    ExecOneMore(hash, legs, w, a1, OnDestination(Refund(legs.dst)));
    ExecOneMore(hash, legs, w, a2, OnSource(Refund(legs.src)));
    var w1, w2 := Exec(hash, legs, w, a1), Exec(hash, legs, w, a2);
    assert w1.dst.now > w1.dst.orders[legs.dst].timelock;
    assert Is(w2.dst, legs.dst, Refunded) && w2.src == w1.src;
  }

  lemma {:induction false} ClaimRevealsTheSecret(hash: Hash, legs: Legs, w: World, acts: seq<Act>)
    requires Locked(hash, legs, w) && Spaced(legs, w) && OneSecret(hash, legs, w) && Legal(hash, legs, w, acts)
    ensures var w' := Exec(hash, legs, w, acts);
            && OneSecret(hash, legs, w')
            && (Is(w'.dst, legs.dst, Claimed) ==> exists p :: p in w'.revealed && Opens(hash, w'.src, legs.src, p))
  {
    if acts != [] {
      var n := |acts| - 1;
      var v, w' := Exec(hash, legs, w, acts[..n]), Exec(hash, legs, w, acts);
      ClaimRevealsTheSecret(hash, legs, w, acts[..n]);
      RunKeepsInv(hash, legs, w, acts[..n]);
      match acts[n] {
        case OnSource(op) => OpKeepsTerms(hash, v.src, op, legs.src);
        case OnDestination(op) =>
          OpKeepsTerms(hash, v.dst, op, legs.dst);
          if op.Claim? && op.id == legs.dst && ClaimOrder(hash, v.dst, op.id, op.preimage).1.Ok? {
            assert Opens(hash, v.dst, legs.dst, op.preimage);
            assert op.preimage in w'.revealed && Opens(hash, w'.src, legs.src, op.preimage);
          }
        case Wait(_) =>
      }
      forall p
        ensures Opens(hash, w'.src, legs.src, p) <==> Opens(hash, w'.dst, legs.dst, p)
      {
        assert Opens(hash, v.src, legs.src, p) <==> Opens(hash, w'.src, legs.src, p);
        assert Opens(hash, v.dst, legs.dst, p) <==> Opens(hash, w'.dst, legs.dst, p);
      }
    }
  }
}
