/** What callers are told, over whole runs: every answer is what the record says, on the step's evidence. */
module RelayAnswers {
  import opened Prelude
  import opened RelayRecords
  import opened RelayRuns
  import opened RelaySafety

  /** The outcome is exactly what the record says. */
  predicate Tells(outcome: Outcome, r: Record) {
    && (r.status == Succeeded <==> outcome == Success(r.txHash))
    && (r.status == Pending <==> outcome == ConfirmationTimeout(r.txHash))
    && (r.status == Failed <==> outcome.Terminal? && r.reason == Some(outcome.reason))
    && r.status != InFlight
  }

  /** When an operation's own step settles it. */
  predicate Settling(cfg: Config, pc: Pc, step: Step) {
    match step
    case StageDone(_, result) => result.Threw? || result.txHash == ""
    case BroadcastDone(_, ok) => ok || !cfg.hasConfirmer
    case PollDone(_, answer) =>
      answer == ChainSucceeded || answer == ChainFailed || (pc.Polling? && pc.polls == cfg.maxAttempts)
    case _ => false
  }

  lemma StepTells(cfg: Config, s: System, step: Step, op: nat)
    requires cfg.Valid() && AllCoupled(s.t.records) && Driven(cfg, s) && Enabled(cfg, s, step) && Moves(step, op)
    ensures var s' := Apply(cfg, s, step);
            && op in s.ops && op in s'.ops && s'.ops[op].key == s.ops[op].key && s.ops[op].key in s'.t.records
            && (s'.ops[op].pc.Settled? <==> Settling(cfg, s.ops[op].pc, step))
            && (s'.ops[op].pc.Settled? ==> Tells(s'.ops[op].pc.outcome, s'.t.records[s.ops[op].key]))
  {
    assert DrivenBy(cfg, s.t, op, s.ops[op]) && Coupled(s.t.records[s.ops[op].key]);
  }

  /**
   * An operation settles exactly on a staging error, a resolved broadcast, a decisive answer
   * or a spent budget, and tells its callers exactly what its record then says: the recorded
   * hash of a success, the reason of a failure, or that the recorded hash is unconfirmed.
   */
  lemma OperationsTellTheirRecord(cfg: Config, steps: seq<Step>, step: Step, op: nat)
    requires cfg.Valid() && Legal(cfg, steps) && Enabled(cfg, Exec(cfg, steps), step) && Moves(step, op)
    ensures var s := Exec(cfg, steps);
            var s' := Apply(cfg, s, step);
            && op in s.ops && op in s'.ops && s'.ops[op].key == s.ops[op].key && s.ops[op].key in s'.t.records
            && (s'.ops[op].pc.Settled? <==> Settling(cfg, s.ops[op].pc, step))
            && (s'.ops[op].pc.Settled? ==> Tells(s'.ops[op].pc.outcome, s'.t.records[s.ops[op].key]))
  {
    RunKeepsInv(cfg, steps);
    StepTells(cfg, Exec(cfg, steps), step, op);
  }

  /** The operation's hash has been broadcast. */
  ghost predicate WasSent(s: System, op: nat) {
    op in s.ops && s.ops[op].pc.Broadcasting? ==>
      && s.ops[op].key in s.t.records && s.t.records[s.ops[op].key].txHash.Some?
      && Sent(s.ops[op].key, s.t.records[s.ops[op].key].txHash.value) in s.sent
  }

  lemma OwnStepKeepsWasSent(cfg: Config, s: System, step: Step, op: nat)
    requires AllCoupled(s.t.records) && Driven(cfg, s) && Enabled(cfg, s, step) && Moves(step, op)
    ensures WasSent(Apply(cfg, s, step), op)
  {
    assert DrivenBy(cfg, s.t, op, s.ops[op]) && Coupled(s.t.records[s.ops[op].key]);
    var s' := Apply(cfg, s, step);
    if step.Broadcast? {
      assert s'.sent[|s.sent|] == Sent(s.ops[op].key, HashOf(s, op));
    }
  }

  lemma NewOperationsBroadcastNothing(cfg: Config, s: System, c: nat, key: Action, op: nat)
    requires Driven(cfg, s) && Enabled(cfg, s, Submit(c, key))
    ensures var s' := Apply(cfg, s, Submit(c, key));
            s'.sent == s.sent && (op in s'.ops && s'.ops[op].pc.Broadcasting? ==> op in s.ops && s'.ops[op] == s.ops[op])
  {
  }

  lemma StepKeepsWasSent(cfg: Config, steps: seq<Step>, step: Step, op: nat)
    requires cfg.Valid() && Legal(cfg, steps) && Enabled(cfg, Exec(cfg, steps), step) && WasSent(Exec(cfg, steps), op)
    ensures WasSent(Apply(cfg, Exec(cfg, steps), step), op)
  {
    var s := Exec(cfg, steps);
    RunKeepsInv(cfg, steps);
    if Moves(step, op) {
      OwnStepKeepsWasSent(cfg, s, step, op);
    } else {
      if step.Submit? {
        NewOperationsBroadcastNothing(cfg, s, step.caller, step.key, op);
      } else {
        OthersStand(cfg, s, step, op);
      }
      if op in s.ops && s.ops[op].pc.Broadcasting? {
        BroadcastingHolds(cfg, s, op);
        LockIsReleasedOnlyByTheChain(cfg, steps, step, s.ops[op].key);
      }
    }
  }

  lemma BroadcastingHolds(cfg: Config, s: System, op: nat)
    requires AllCoupled(s.t.records) && Driven(cfg, s) && op in s.ops && s.ops[op].pc.Broadcasting?
    ensures HoldsOrder(s.t, s.ops[op].key)
  {
    assert DrivenBy(cfg, s.t, op, s.ops[op]) && Coupled(s.t.records[s.ops[op].key]);
  }

  lemma {:induction false} BroadcastingWasSent(cfg: Config, steps: seq<Step>, op: nat)
    requires cfg.Valid() && Legal(cfg, steps)
    ensures WasSent(Exec(cfg, steps), op)
  {
    if steps != [] {
      var n := |steps| - 1;
      BroadcastingWasSent(cfg, steps[..n], op);
      StepKeepsWasSent(cfg, steps[..n], steps[n], op);
    }
  }

  /**
   * When a broadcast settles, its callers are told success with the very hash that was
   * broadcast exactly if it resolved; otherwise that hash is polled, or without a confirmer
   * reported unconfirmed.
   */
  lemma ResolvedBroadcastIsReported(cfg: Config, steps: seq<Step>, op: nat, ok: bool) returns (h: string)
    requires cfg.Valid() && Legal(cfg, steps) && Enabled(cfg, Exec(cfg, steps), BroadcastDone(op, ok))
    ensures var s := Exec(cfg, steps);
            var pc := Apply(cfg, s, BroadcastDone(op, ok)).ops[op].pc;
            && Sent(s.ops[op].key, h) in s.sent
            && (pc == Settled(Success(Some(h))) <==> ok)
            && (!ok ==> pc == if cfg.hasConfirmer then Polling(1) else Settled(ConfirmationTimeout(Some(h))))
  {
    var s := Exec(cfg, steps);
    RunKeepsInv(cfg, steps);
    BroadcastingWasSent(cfg, steps, op);
    assert DrivenBy(cfg, s.t, op, s.ops[op]);
    h := s.t.records[s.ops[op].key].txHash.value;
  }

  /** The stager's error is what its callers are told. */
  lemma StagingErrorIsReported(cfg: Config, steps: seq<Step>, op: nat, result: StageResult)
    requires cfg.Valid() && Legal(cfg, steps) && Enabled(cfg, Exec(cfg, steps), StageDone(op, result))
    ensures var pc := Apply(cfg, Exec(cfg, steps), StageDone(op, result)).ops[op].pc;
            && (pc == Settled(Terminal(StagingFailed)) <==> result == Threw(true) || result == Staged(""))
            && (pc == Settled(Terminal(NonRetryable)) <==> result == Threw(false))
            && (pc == Recorded <==> result.Staged? && result.txHash != "")
  {
  }

  // ---- What a submission is told at once ---------------------------------------------

  /** A key that succeeded is answered with its recorded hash, a tombstone with its reason, and nothing else changes. */
  lemma SettledKeysAreAnswered(cfg: Config, steps: seq<Step>, c: nat, key: Action)
    requires cfg.Valid() && Legal(cfg, steps) && Enabled(cfg, Exec(cfg, steps), Submit(c, key))
    requires var s := Exec(cfg, steps); key in s.t.records && !Restageable(s, key)
    ensures var s := Exec(cfg, steps);
            var s' := Apply(cfg, s, Submit(c, key));
            var r := s.t.records[key];
            && (r.status == Succeeded ==> s' == s.(answers := s.answers + [Answer(key, Success(r.txHash), None)]))
            && (r.status == Failed ==> r.reason.Some? && s' == s.(answers := s.answers + [Answer(key, Terminal(r.reason.value), None)]))
  {
    RunKeepsInv(cfg, steps);
    assert Coupled(Exec(cfg, steps).t.records[key]);
  }

  /** Once a submission of a key was answered with success, every later one is, with the same hash; through crashes too. */
  lemma SuccessIsForever(cfg: Config, steps: seq<Step>, i: nat, c: nat)
    requires cfg.Valid() && Legal(cfg, steps) && i < |Exec(cfg, steps).answers|
    requires Exec(cfg, steps).answers[i].outcome.Success?
    requires Enabled(cfg, Exec(cfg, steps), Submit(c, Exec(cfg, steps).answers[i].key))
    ensures var s := Exec(cfg, steps);
            var a := s.answers[i];
            Apply(cfg, s, Submit(c, a.key)) == s.(answers := s.answers + [Answer(a.key, a.outcome, None)])
  {
    RunKeepsInv(cfg, steps);
    var s := Exec(cfg, steps);
    assert Backed(s, s.answers[i].key, s.answers[i].outcome);
    SettledKeysAreAnswered(cfg, steps, c, s.answers[i].key);
  }

  /** A re-stageable key is reserved for the caller if its order is free, and else refused, its own record being dropped. */
  lemma StageableKeysAreReserved(cfg: Config, steps: seq<Step>, c: nat, key: Action)
    requires cfg.Valid() && Legal(cfg, steps) && Enabled(cfg, Exec(cfg, steps), Submit(c, key)) && Restageable(Exec(cfg, steps), key)
    ensures var s := Exec(cfg, steps);
            var s' := Apply(cfg, s, Submit(c, key));
            if OrderIsFree(s.t.records, key) then
              && s'.t.records == s.t.records[key := Record(InFlight, None, None, 0)] && s'.t.saved == s'.t.records
              && s'.ops == s.ops[s.nextOp := Op(key, Staging)] && s'.waiting == s.waiting[c := Waiter(key, s.nextOp)]
              && s'.answers == s.answers
            else
              && s'.t.records == s.t.records - {key} && s'.ops == s.ops && s'.waiting == s.waiting
              && s'.answers == s.answers + [Answer(key, OrderBusy, None)]
  {
    var s := Exec(cfg, steps);
    ReserveShape(cfg, s, c, key);
    FreeIffNotBlocked(s.t, key);
  }

  /** A pending key that nobody drives is attached to: its recorded hash is polled, and nothing is staged or changed. */
  lemma PendingKeysAreAttached(cfg: Config, steps: seq<Step>, c: nat, key: Action)
    requires cfg.Valid() && Legal(cfg, steps) && Enabled(cfg, Exec(cfg, steps), Submit(c, key))
    requires var s := Exec(cfg, steps); key in s.t.records && s.t.records[key].status == Pending && key !in s.t.inflight
    ensures var s := Exec(cfg, steps);
            var s' := Apply(cfg, s, Submit(c, key));
            && s'.t.records == s.t.records && s'.t.saved == s.t.saved && s'.answers == s.answers
            && s'.waiting == s.waiting[c := Waiter(key, s.nextOp)]
            && s.nextOp in s'.ops
            && s'.ops[s.nextOp] == Op(key, if cfg.hasConfirmer then Polling(1) else Settled(ConfirmationTimeout(s.t.records[key].txHash)))
  {
    RunKeepsInv(cfg, steps);
  }

  /** A settled operation gives up its own registration and no other, so that the next caller starts a fresh one. */
  lemma SettledOperationsAreCleared(cfg: Config, steps: seq<Step>, op: nat, k: Action)
    requires cfg.Valid() && Legal(cfg, steps) && Enabled(cfg, Exec(cfg, steps), Clear(op))
    ensures var s := Exec(cfg, steps);
            var s' := Apply(cfg, s, Clear(op));
            && (k in s'.t.inflight <==> k in s.t.inflight && s.t.inflight[k] != op)
            && (k in s'.t.inflight ==> s'.t.inflight[k] == s.t.inflight[k])
            && s'.t.records == s.t.records && s'.t.saved == s.t.saved
  {
    RunKeepsInv(cfg, steps);
  }
}
