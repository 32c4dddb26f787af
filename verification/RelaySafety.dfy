/** What the tracker promises, as theorems about every legal run. */
module RelaySafety {
  import opened Prelude
  import opened RelayRecords
  import opened RelayRuns

  /** At most one transaction per (orderId, side) ever lands, across concurrency, timeouts and restarts. */
  lemma AtMostOneLands(cfg: Config, steps: seq<Step>, i: nat, j: nat)
    requires cfg.Valid() && Legal(cfg, steps)
    requires var s := Exec(cfg, steps);
             i < |s.sent| && j < |s.sent| && SameOrder(s.sent[i].key, s.sent[j].key)
             && s.sent[i].txHash in s.landed && s.sent[j].txHash in s.landed
    ensures i == j
  {
    RunKeepsInv(cfg, steps);
    var s := Exec(cfg, steps);
    assert s.t.records[s.sent[i].key].txHash == Some(s.sent[i].txHash);
    assert s.t.records[s.sent[j].key].txHash == Some(s.sent[j].txHash);
  }

  /** The broadcast closure of a key runs at most once over the whole run, re-staging included. */
  lemma BroadcastsOncePerKey(cfg: Config, steps: seq<Step>, i: nat, j: nat)
    requires cfg.Valid() && Legal(cfg, steps)
    requires var s := Exec(cfg, steps); i < |s.sent| && j < |s.sent| && s.sent[i].key == s.sent[j].key
    ensures i == j
  {
    RunKeepsInv(cfg, steps);
  }

  /** Every hash whose broadcast was invoked is in the store, with a status a restart acts on. */
  lemma HashIsSavedBeforeBroadcast(cfg: Config, steps: seq<Step>, i: nat)
    requires cfg.Valid() && Legal(cfg, steps) && i < |Exec(cfg, steps).sent|
    ensures var s := Exec(cfg, steps);
            && s.sent[i].key in s.t.saved
            && s.t.saved[s.sent[i].key].txHash == Some(s.sent[i].txHash)
            && s.t.saved[s.sent[i].key].status != InFlight
  {
    RunKeepsInv(cfg, steps);
    var s := Exec(cfg, steps);
    var k := s.sent[i].key;
    assert k in NormaliseAll(s.t.records) && NormaliseAll(s.t.saved)[k] == NormaliseAll(s.t.records)[k];
    assert Coupled(s.t.saved[k]);
  }

  lemma HashedRecordsSurvive(records: map<Action, Record>)
    requires AllCoupled(records)
    ensures forall a :: a in records && records[a].txHash.Some? ==> NormaliseAll(records)[a] == records[a]
  {
    assert forall a :: a in records ==> Coupled(records[a]);
  }

  /** A crash at any point restarts from exactly the normalisation of what was in memory. */
  lemma CrashRestoresMemory(cfg: Config, steps: seq<Step>)
    requires cfg.Valid() && Legal(cfg, steps)
    ensures Legal(cfg, steps + [Crash])
    ensures Exec(cfg, steps + [Crash]).t.records == NormaliseAll(Exec(cfg, steps).t.records)
    ensures forall a :: a in Exec(cfg, steps).t.records && Exec(cfg, steps).t.records[a].txHash.Some? ==>
              Exec(cfg, steps + [Crash]).t.records[a] == Exec(cfg, steps).t.records[a]
  {
    RunKeepsInv(cfg, steps);
    OneMoreStep(cfg, steps, Crash);
    HashedRecordsSurvive(Exec(cfg, steps).t.records);
  }

  /** Of two actions on one order, at most one is not failed. */
  lemma OneActionPerOrder(cfg: Config, steps: seq<Step>, a: Action, b: Action)
    requires cfg.Valid() && Legal(cfg, steps)
    requires var r := Exec(cfg, steps).t.records; a in r && b in r && a != b && SameOrder(a, b)
    ensures var r := Exec(cfg, steps).t.records; r[a].status == Failed || r[b].status == Failed
    ensures var r := Exec(cfg, steps).t.records; Coupled(r[a]) && Coupled(r[b])
  {
    RunKeepsInv(cfg, steps);
  }

  /** Any two successes reported for one order name the same action and the same recorded hash. */
  lemma SuccessesAgree(cfg: Config, steps: seq<Step>, i: nat, j: nat)
    requires cfg.Valid() && Legal(cfg, steps)
    requires var s := Exec(cfg, steps);
             i < |s.answers| && j < |s.answers| && SameOrder(s.answers[i].key, s.answers[j].key)
             && s.answers[i].outcome.Success? && s.answers[j].outcome.Success?
    ensures var s := Exec(cfg, steps);
            && s.answers[i].key == s.answers[j].key
            && s.answers[i].outcome == s.answers[j].outcome
            && s.answers[i].outcome.txHash.Some?
  {
    RunKeepsInv(cfg, steps);
    var s := Exec(cfg, steps);
    assert Backed(s, s.answers[i].key, s.answers[i].outcome) && Backed(s, s.answers[j].key, s.answers[j].outcome);
    assert Coupled(s.t.records[s.answers[i].key]);
  }

  predicate Stages(s: System, s': System) {
    s.nextOp in s'.ops && s'.ops[s.nextOp].pc == Staging
  }

  /** Every other action of the order has failed. */
  ghost predicate OrderIsFree(records: map<Action, Record>, a: Action) {
    forall b :: b in records && b != a && SameOrder(b, a) ==> records[b].status == Failed
  }

  lemma FreeIffNotBlocked(t: Tracker, a: Action)
    ensures OrderIsFree(t.records, a) <==> !Blocked(Bare(t, a).records, a)
  {
    if b :| b in t.records && b != a && SameOrder(b, a) && t.records[b].status != Failed {
      assert Blocks(Bare(t, a).records, b, a);
    }
  }

  lemma FreeOrderIsDead(s: System, key: Action)
    requires AllCoupled(s.t.records) && Ledger(s)
    requires Restageable(s, key) && OrderIsFree(s.t.records, key)
    ensures forall i :: 0 <= i < |s.sent| && SameOrder(s.sent[i].key, key) ==>
              s.sent[i].txHash in s.dead && s.sent[i].txHash !in s.landed
  {
    assert key in s.t.records ==> Coupled(s.t.records[key]);
  }

  /**
   * A submission stages a new transaction exactly when its own record is absent or a staging
   * failure and every other action of its order failed; then each hash ever broadcast for
   * the order is dead.
   */
  lemma StagesOnlyAfterEarlierHashesDied(cfg: Config, steps: seq<Step>, c: nat, key: Action)
    requires cfg.Valid() && Legal(cfg, steps) && Enabled(cfg, Exec(cfg, steps), Submit(c, key))
    ensures var s := Exec(cfg, steps);
            Stages(s, Apply(cfg, s, Submit(c, key))) <==> Restageable(s, key) && OrderIsFree(s.t.records, key)
    ensures var s := Exec(cfg, steps);
            Stages(s, Apply(cfg, s, Submit(c, key))) ==>
              forall i :: 0 <= i < |s.sent| && SameOrder(s.sent[i].key, key) ==>
                s.sent[i].txHash in s.dead && s.sent[i].txHash !in s.landed
  {
    RunKeepsInv(cfg, steps);
    var s := Exec(cfg, steps);
    if Restageable(s, key) {
      ReserveShape(cfg, s, c, key);
      FreeIffNotBlocked(s.t, key);
      if OrderIsFree(s.t.records, key) {
        FreeOrderIsDead(s, key);
      }
    }
  }

  /**
   * No caller ever sees "already in flight": every live operation, staging, broadcasting,
   * polling or asleep, is the one that an overlapping caller of its key joins, and a reserved
   * key always has one.
   */
  lemma OverlappingCallersJoin(cfg: Config, steps: seq<Step>, c: nat, key: Action)
    requires cfg.Valid() && Legal(cfg, steps) && Enabled(cfg, Exec(cfg, steps), Submit(c, key))
    ensures forall i :: 0 <= i < |Exec(cfg, steps).answers| ==> Exec(cfg, steps).answers[i].outcome != AlreadyInFlight
    ensures var s := Exec(cfg, steps);
            forall o :: o in s.ops && s.ops[o].Live() && s.ops[o].key == key ==>
              Apply(cfg, s, Submit(c, key)) == s.(waiting := s.waiting[c := Waiter(key, o)])
    ensures var s := Exec(cfg, steps);
            key in s.t.records && s.t.records[key].status == InFlight ==>
              exists o :: o in s.ops && s.ops[o] == Op(key, Staging)
  {
    RunKeepsInv(cfg, steps);
    var s := Exec(cfg, steps);
    assert forall i :: 0 <= i < |s.answers| ==> Backed(s, s.answers[i].key, s.answers[i].outcome);
    LiveOperationsAreJoined(cfg, s, c, key);
  }

  lemma LiveOperationsAreJoined(cfg: Config, s: System, c: nat, key: Action)
    requires Driven(cfg, s) && Enabled(cfg, s, Submit(c, key))
    ensures forall o :: o in s.ops && s.ops[o].Live() && s.ops[o].key == key ==>
              Apply(cfg, s, Submit(c, key)) == s.(waiting := s.waiting[c := Waiter(key, o)])
    ensures key in s.t.records && s.t.records[key].status == InFlight ==>
              exists o :: o in s.ops && s.ops[o] == Op(key, Staging)
  {
    forall o | o in s.ops && s.ops[o].Live() && s.ops[o].key == key
      ensures Apply(cfg, s, Submit(c, key)) == s.(waiting := s.waiting[c := Waiter(key, o)])
    {
      assert DrivenBy(cfg, s.t, o, s.ops[o]);
    }
    if key in s.t.records && s.t.records[key].status == InFlight {
      assert s.ops[s.t.inflight[key]] == Op(key, Staging);
    }
  }

  /** Everyone who awaited an operation was asking for its key and got what it settled with. */
  lemma JoinersGetTheDriversOutcome(cfg: Config, steps: seq<Step>, i: nat)
    requires cfg.Valid() && Legal(cfg, steps)
    requires i < |Exec(cfg, steps).answers| && Exec(cfg, steps).answers[i].via.Some?
    ensures var s := Exec(cfg, steps);
            var answer := s.answers[i];
            answer.via.value in s.ops && s.ops[answer.via.value] == Op(answer.key, Settled(answer.outcome))
  {
    RunKeepsInv(cfg, steps);
  }

  ghost predicate HoldsOrder(t: Tracker, k: Action) {
    k in t.records && t.records[k].txHash.Some? && t.records[k].status != Failed
  }

  lemma SubmitKeepsHeldRecord(cfg: Config, s: System, c: nat, key: Action, k: Action)
    requires Enabled(cfg, s, Submit(c, key)) && HoldsOrder(s.t, k)
    ensures var t := Apply(cfg, s, Submit(c, key)).t; k in t.records && t.records[k] == s.t.records[k]
  {
  }

  lemma LiveStepReleases(cfg: Config, s: System, step: Step, k: Action)
    requires Inv(cfg, s) && Enabled(cfg, s, step) && HoldsOrder(s.t, k)
    requires step.StageDone? || step.BroadcastDone? || step.PollDone? || step.SleepDone?
    ensures var s' := Apply(cfg, s, step);
            && k in s'.t.records && s'.t.records[k].txHash == s.t.records[k].txHash
            && (s'.t.records[k].status == Failed <==>
                  step.PollDone? && s.ops[step.op].key == k && GivesUp(cfg, s.ops[step.op].pc.polls, step.answer))
  {
    assert DrivenBy(cfg, s.t, step.op, s.ops[step.op]) && Coupled(s.t.records[k]);
  }

  lemma CrashKeepsHeldRecord(s: System, k: Action)
    requires AllCoupled(s.t.records) && Durable(s.t) && HoldsOrder(s.t, k)
    ensures var t := Crashed(s).t; k in t.records && t.records[k] == s.t.records[k]
  {
    assert Coupled(s.t.records[k]);
    assert k in NormaliseAll(s.t.records) && NormaliseAll(s.t.saved)[k] == NormaliseAll(s.t.records)[k];
  }

  /** A recorded hash stops holding its order exactly when a poll of its own operation gives it up. */
  lemma LockIsReleasedOnlyByTheChain(cfg: Config, steps: seq<Step>, step: Step, k: Action)
    requires cfg.Valid() && Legal(cfg, steps) && Enabled(cfg, Exec(cfg, steps), step)
    requires HoldsOrder(Exec(cfg, steps).t, k)
    ensures var s := Exec(cfg, steps);
            !HoldsOrder(Apply(cfg, s, step).t, k) <==>
              step.PollDone? && s.ops[step.op].key == k && GivesUp(cfg, s.ops[step.op].pc.polls, step.answer)
    ensures var s := Exec(cfg, steps);
            var s' := Apply(cfg, s, step);
            k in s'.t.records && s'.t.records[k].txHash == s.t.records[k].txHash
  {
    RunKeepsInv(cfg, steps);
    var s := Exec(cfg, steps);
    match step
    case Submit(c, key) => SubmitKeepsHeldRecord(cfg, s, c, key, k);
    case Crash => CrashKeepsHeldRecord(s, k);
    case CrashInRestage(key) =>
      BareKeepsInv(cfg, s, key);
      CrashKeepsHeldRecord(s.(t := Bare(s.t, key)), k);
    case StageDone(_, _) => LiveStepReleases(cfg, s, step, k);
    case BroadcastDone(_, _) => LiveStepReleases(cfg, s, step, k);
    case PollDone(_, _) => LiveStepReleases(cfg, s, step, k);
    case SleepDone(_) => LiveStepReleases(cfg, s, step, k);
    case _ =>
  }

  /** The step is the network's word that the transaction of `k` took effect. */
  predicate Proves(s: System, step: Step, k: Action) {
    && ((step.BroadcastDone? && step.ok) || (step.PollDone? && step.answer == ChainSucceeded))
    && step.op in s.ops && s.ops[step.op].key == k
  }

  predicate HasSucceeded(t: Tracker, k: Action) {
    k in t.records && t.records[k].status == Succeeded
  }

  lemma LiveStepSucceeds(cfg: Config, s: System, step: Step, k: Action)
    requires Driven(cfg, s) && Enabled(cfg, s, step)
    requires step.StageDone? || step.BroadcastDone? || step.PollDone? || step.SleepDone?
    ensures HasSucceeded(Apply(cfg, s, step).t, k) <==> HasSucceeded(s.t, k) || Proves(s, step, k)
  {
    assert DrivenBy(cfg, s.t, step.op, s.ops[step.op]);
  }

  lemma SubmitSucceedsNothing(cfg: Config, s: System, c: nat, key: Action, k: Action)
    requires Enabled(cfg, s, Submit(c, key))
    ensures HasSucceeded(Apply(cfg, s, Submit(c, key)).t, k) <==> HasSucceeded(s.t, k)
  {
  }

  lemma CrashSucceedsNothing(s: System, k: Action)
    requires Durable(s.t)
    ensures HasSucceeded(Crashed(s).t, k) <==> HasSucceeded(s.t, k)
  {
    assert k in NormaliseAll(s.t.saved) <==> k in NormaliseAll(s.t.records);
  }

  /** A key has succeeded after a step exactly when it had before, or its broadcast resolved or a poll confirmed its hash. */
  lemma SuccessNeedsEvidence(cfg: Config, steps: seq<Step>, step: Step, k: Action)
    requires cfg.Valid() && Legal(cfg, steps) && Enabled(cfg, Exec(cfg, steps), step)
    ensures var s := Exec(cfg, steps);
            HasSucceeded(Apply(cfg, s, step).t, k) <==> HasSucceeded(s.t, k) || Proves(s, step, k)
  {
    RunKeepsInv(cfg, steps);
    var s := Exec(cfg, steps);
    match step
    case Submit(c, key) => SubmitSucceedsNothing(cfg, s, c, key, k);
    case Crash => CrashSucceedsNothing(s, k);
    case CrashInRestage(key) => CrashSucceedsNothing(s.(t := Bare(s.t, key)), k);
    case StageDone(_, _) => LiveStepSucceeds(cfg, s, step, k);
    case BroadcastDone(_, _) => LiveStepSucceeds(cfg, s, step, k);
    case PollDone(_, _) => LiveStepSucceeds(cfg, s, step, k);
    case SleepDone(_) => LiveStepSucceeds(cfg, s, step, k);
    case _ =>
  }

  /** The step ends the reservation of `k`: its stager settled, or the process died. */
  predicate EndsReservation(s: System, step: Step, k: Action) {
    step.Crash? || step.CrashInRestage? || (step.StageDone? && step.op in s.ops && s.ops[step.op].key == k)
  }

  /** How a reservation ends: pending with the staged hash, or failed without one, and re-stageable unless the error was final. */
  predicate EndsAs(step: Step, r: Record) {
    match step
    case Crash => r == RESERVED.(status := Failed, reason := Some(StagingFailed))
    case CrashInRestage(_) => r == RESERVED.(status := Failed, reason := Some(StagingFailed))
    case StageDone(_, Staged(h)) =>
      if h != "" then r.status == Pending && r.txHash == Some(h) && r.broadcasts == 1
      else r == RESERVED.(status := Failed, reason := Some(StagingFailed))
    case StageDone(_, Threw(retryable)) =>
      r.status == Failed && r.txHash == None && r.broadcasts == 0 && (r.reason == Some(StagingFailed) <==> retryable)
    case _ => false
  }

  ghost predicate Reserved(t: Tracker, k: Action) {
    k in t.records && t.records[k] == RESERVED
  }

  lemma CrashEndsReservations(s: System, k: Action)
    requires Durable(s.t) && Reserved(s.t, k)
    ensures var t := Crashed(s).t; k in t.records && EndsAs(Crash, t.records[k])
  {
    assert k in NormaliseAll(s.t.records) && NormaliseAll(s.t.saved)[k] == NormaliseAll(s.t.records)[k];
  }

  lemma SubmitKeepsReservation(cfg: Config, s: System, c: nat, key: Action, k: Action)
    requires Driven(cfg, s) && Enabled(cfg, s, Submit(c, key)) && Reserved(s.t, k)
    ensures Reserved(Apply(cfg, s, Submit(c, key)).t, k)
  {
  }

  lemma LiveStepEndsReservation(cfg: Config, s: System, step: Step, k: Action)
    requires Driven(cfg, s) && Enabled(cfg, s, step) && Reserved(s.t, k)
    requires step.StageDone? || step.BroadcastDone? || step.PollDone? || step.SleepDone?
    ensures var t := Apply(cfg, s, step).t;
            k in t.records && if EndsReservation(s, step, k) then EndsAs(step, t.records[k]) else Reserved(t, k)
  {
    assert DrivenBy(cfg, s.t, step.op, s.ops[step.op]);
  }

  /** A reservation ends exactly when its own stager settles or the process dies, and as that says; no other step touches it. */
  lemma StagingDecides(cfg: Config, steps: seq<Step>, step: Step, k: Action)
    requires cfg.Valid() && Legal(cfg, steps) && Enabled(cfg, Exec(cfg, steps), step)
    requires k in Exec(cfg, steps).t.records && Exec(cfg, steps).t.records[k].status == InFlight
    ensures var s := Exec(cfg, steps);
            var t := Apply(cfg, s, step).t;
            k in t.records && if EndsReservation(s, step, k) then EndsAs(step, t.records[k]) else Reserved(t, k)
  {
    RunKeepsInv(cfg, steps);
    var s := Exec(cfg, steps);
    assert Coupled(s.t.records[k]);
    StepEndsReservation(cfg, s, step, k);
  }

  lemma CrashInRestageEndsReservations(cfg: Config, s: System, key: Action, k: Action)
    requires AllCoupled(s.t.records) && Enabled(cfg, s, CrashInRestage(key)) && Reserved(s.t, k)
    ensures var t := Apply(cfg, s, CrashInRestage(key)).t; k in t.records && EndsAs(CrashInRestage(key), t.records[k])
  {
    CrashEndsReservations(s.(t := Bare(s.t, key)), k);
  }

  lemma StepEndsReservation(cfg: Config, s: System, step: Step, k: Action)
    requires AllCoupled(s.t.records) && Driven(cfg, s) && Durable(s.t) && Enabled(cfg, s, step) && Reserved(s.t, k)
    ensures var t := Apply(cfg, s, step).t;
            k in t.records && if EndsReservation(s, step, k) then EndsAs(step, t.records[k]) else Reserved(t, k)
  {
    match step
    case Crash => CrashEndsReservations(s, k);
    case CrashInRestage(key) => CrashInRestageEndsReservations(cfg, s, key, k);
    case Submit(c, key) => SubmitKeepsReservation(cfg, s, c, key, k);
    case StageDone(_, _) => LiveStepEndsReservation(cfg, s, step, k);
    case BroadcastDone(_, _) => LiveStepEndsReservation(cfg, s, step, k);
    case PollDone(_, _) => LiveStepEndsReservation(cfg, s, step, k);
    case SleepDone(_) => LiveStepEndsReservation(cfg, s, step, k);
    case _ =>
  }
}
