/** The chain adapters: what a lookup is evidence of, and the Ethereum broadcast's retry loop. */
module RelayPort {
  import opened Prelude
  import opened RelayRecords
  import opened RelayRuns
  import RelaySafety
  import RelayVerdicts

  datatype StellarLookup = NoHorizon | HorizonThrew(is404: bool) | OnLedger(successful: Option<bool>)

  datatype TxLookup = TxKnown | TxAbsent | TxThrew(is404: bool)

  datatype EthereumLookup = NoProvider | ReceiptThrew | Receipt(status: Option<int>) | NoReceipt(tx: TxLookup)

  /** What the network said when a stored hash was looked up, by chain. */
  datatype Lookup = Stellar(stellar: StellarLookup) | Ethereum(ethereum: EthereumLookup) | UnknownChain

  function ConfirmStellar(lookup: StellarLookup): ChainState {
    match lookup
    case NoHorizon => ChainPending
    case HorizonThrew(is404) => if is404 then ChainNotFound else ChainPending
    case OnLedger(successful) => if successful == Some(false) then ChainFailed else ChainSucceeded
  }

  function ConfirmEthereum(lookup: EthereumLookup): ChainState {
    match lookup
    case NoProvider => ChainPending
    case ReceiptThrew => ChainPending
    case Receipt(status) => if status == Some(1) || status == None then ChainSucceeded else ChainFailed
    case NoReceipt(TxKnown) => ChainPending
    case NoReceipt(TxAbsent) => ChainNotFound
    case NoReceipt(TxThrew(is404)) => if is404 then ChainNotFound else ChainPending
  }

  function Confirm(lookup: Lookup): ChainState {
    match lookup
    case Stellar(l) => ConfirmStellar(l)
    case Ethereum(l) => ConfirmEthereum(l)
    case UnknownChain => ChainPending
  }

  /** The transaction is on chain and did not take effect. */
  predicate Reverted(lookup: Lookup) {
    match lookup
    case Stellar(OnLedger(Some(successful))) => !successful
    case Ethereum(Receipt(Some(status))) => status != 1
    case _ => false
  }

  /** A node answered, and knows no such transaction. */
  predicate Absent(lookup: Lookup) {
    match lookup
    case Stellar(HorizonThrew(is404)) => is404
    case Ethereum(NoReceipt(TxAbsent)) => true
    case Ethereum(NoReceipt(TxThrew(is404))) => is404
    case _ => false
  }

  lemma LookupsThatGiveUp(cfg: Config, polls: nat, lookup: Lookup)
    ensures GivesUp(cfg, polls, Confirm(lookup)) <==> Reverted(lookup) || (Absent(lookup) && polls >= cfg.maxAttempts)
  {
  }

  lemma PollingPosition(cfg: Config, steps: seq<Step>, op: nat)
    requires cfg.Valid() && Legal(cfg, steps)
    requires op in Exec(cfg, steps).ops && Exec(cfg, steps).ops[op].pc.Polling?
    ensures Exec(cfg, steps).ops[op].pc.polls == |RelayVerdicts.AnswersOf(steps, op)| + 1 <= cfg.maxAttempts
  {
    RelayVerdicts.ReconcileVerdict(cfg, steps, op);
    RunKeepsInv(cfg, steps);
    assert DrivenBy(cfg, Exec(cfg, steps).t, op, Exec(cfg, steps).ops[op]);
  }

  /**
   * Tracker and adapters together: a poll releases the order of a recorded hash exactly when
   * the transaction reverted, or was absent at the last poll of a full budget. Outages,
   * errors and unknown chains never release it.
   */
  lemma OrderIsReleasedOnEvidence(cfg: Config, steps: seq<Step>, op: nat, lookup: Lookup, k: Action)
    requires cfg.Valid() && Legal(cfg, steps)
    requires Enabled(cfg, Exec(cfg, steps), PollDone(op, Confirm(lookup)))
    requires RelaySafety.HoldsOrder(Exec(cfg, steps).t, k)
    ensures var s := Exec(cfg, steps);
            !RelaySafety.HoldsOrder(Apply(cfg, s, PollDone(op, Confirm(lookup))).t, k) <==>
              && s.ops[op].key == k
              && (Reverted(lookup) || (Absent(lookup) && |RelayVerdicts.AnswersOf(steps, op)| + 1 == cfg.maxAttempts))
  {
    RelaySafety.LockIsReleasedOnlyByTheChain(cfg, steps, PollDone(op, Confirm(lookup)), k);
    PollingPosition(cfg, steps, op);
    LookupsThatGiveUp(cfg, Exec(cfg, steps).ops[op].pc.polls, lookup);
  }

  /** The transaction is on chain and took effect. */
  predicate Confirmed(lookup: Lookup) {
    match lookup
    case Stellar(OnLedger(successful)) => successful != Some(false)
    case Ethereum(Receipt(status)) => status == None || status == Some(1)
    case _ => false
  }

  /**
   * A poll settles its record, in memory and in the store, exactly when the network showed
   * the transaction in effect; the operation then answers the recorded hash.
   */
  lemma OrderSettlesOnEvidence(cfg: Config, steps: seq<Step>, op: nat, lookup: Lookup)
    requires cfg.Valid() && Legal(cfg, steps)
    requires Enabled(cfg, Exec(cfg, steps), PollDone(op, Confirm(lookup)))
    ensures var s := Exec(cfg, steps);
            var s' := Apply(cfg, s, PollDone(op, Confirm(lookup)));
            var k := s.ops[op].key;
            && k in s'.t.records && k in s'.t.saved
            && (s'.t.records[k].status == Succeeded <==> Confirmed(lookup))
            && (s'.t.saved[k].status == Succeeded <==> Confirmed(lookup))
            && (s'.ops[op].pc == Settled(Success(s.t.records[k].txHash)) <==> Confirmed(lookup))
  {
    RunKeepsInv(cfg, steps);
    var s := Exec(cfg, steps);
    assert DrivenBy(cfg, s.t, op, s.ops[op]);
  }

  datatype NodeReply = Response | NoResponse | RateLimited | Refused

  /**
   * The broadcast closure of a staged Ethereum transaction. `replies(i)` is the node's reply to
   * the i-th send, `mined` whether waiting for the receipt resolved. Whatever happens, only the
   * payload signed at staging is sent, so the hash on record is the only one that can land.
   */
  method BroadcastEthereum(rawTx: string, maxRetries: int, replies: nat -> NodeReply, mined: bool)
    returns (ok: bool, payloads: seq<string>)
    ensures forall p :: p in payloads ==> p == rawTx
    ensures |payloads| == 0 <==> maxRetries < 0
    ensures maxRetries < 0 ==> !ok
    ensures maxRetries >= 0 ==>
              var last := |payloads| - 1;
              && last <= maxRetries
              && (forall i :: 0 <= i < last ==> replies(i) == RateLimited)
              && (replies(last) == RateLimited ==> last == maxRetries)
              && (ok <==> replies(last) == Response && mined)
  {
    payloads := [];
    var sent := false;
    var attempt := 0;
    while attempt <= maxRetries
      invariant |payloads| == attempt
      invariant attempt <= maxRetries + 1 || attempt == 0
      invariant forall p :: p in payloads ==> p == rawTx
      invariant forall i :: 0 <= i < attempt ==> replies(i) == RateLimited
      invariant maxRetries >= 0 ==> attempt <= maxRetries
      decreases maxRetries - attempt
    {
      payloads := payloads + [rawTx];
      var reply := replies(attempt);
      if reply == Response || reply == NoResponse {
        sent := reply == Response;
        break;
      }
      if attempt >= maxRetries || reply != RateLimited {
        return false, payloads;
      }
      attempt := attempt + 1;
    }
    if !sent {
      return false, payloads;
    }
    ok := mined;
  }
}
