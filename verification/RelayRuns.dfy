/**
 * Whole runs of the tracker: any number of concurrent `submit` calls whose blocks
 * interleave freely, chain and RPC answers chosen by the environment, transactions that
 * land at any time after their broadcast, and crashes that restart from the store.
 */
module RelayRuns {
  import opened Prelude
  import opened RelayRecords

  datatype Op = Op(key: Action, pc: Pc) {
    predicate Live() { !pc.Settled? }
  }

  /** A caller suspended on an operation's promise, as its driver or as a joiner. */
  datatype Waiter = Waiter(key: Action, op: nat)

  /** What a caller of `submit` got; `via` is the operation it awaited, if any. */
  datatype Answer = Answer(key: Action, outcome: Outcome, via: Option<nat>)

  datatype Sent = Sent(key: Action, txHash: string)

  /** `ops` keeps settled operations as history; `sent`, `landed`, `dead` and `answers` are the outside world's log. */
  datatype System = System(
    t: Tracker,
    ops: map<nat, Op>,
    nextOp: nat,
    waiting: map<nat, Waiter>,
    sent: seq<Sent>,
    landed: set<string>,
    dead: set<string>,
    answers: seq<Answer>)

  datatype Step =
    | Submit(caller: nat, key: Action)
    | StageDone(op: nat, result: StageResult)
    | Broadcast(op: nat)
    | BroadcastDone(op: nat, ok: bool)
    | PollDone(op: nat, answer: ChainState)
    | SleepDone(op: nat)
    | Clear(op: nat)
    | Deliver(caller: nat)
    | Land(txHash: string)
    | Crash
    | CrashInRestage(key: Action)

  const INIT := System(Tracker(map[], map[], map[], {}), map[], 0, map[], [], {}, {}, [])

  ghost predicate At(s: System, op: nat, pc: Pc) {
    op in s.ops && s.ops[op].pc == pc && s.ops[op].key in s.t.records
  }

  /** Answers by which the tracker gives a hash up: reverted, or still unknown at the last poll. */
  predicate GivesUp(cfg: Config, polls: nat, answer: ChainState) {
    answer == ChainFailed || (answer == ChainNotFound && polls >= cfg.maxAttempts)
  }

  function HashOf(s: System, op: nat): string
    requires op in s.ops && s.ops[op].key in s.t.records
  {
    var h := s.t.records[s.ops[op].key].txHash;
    if h.Some? then h.value else ""
  }

  /** A key whose record is absent, or a failure of the staging itself. */
  ghost predicate Restageable(s: System, key: Action) {
    key !in s.t.records || (s.t.records[key].status == Failed && s.t.records[key].reason == Some(StagingFailed))
  }

  /** The tracker between the two saves of a re-staging. */
  function Bare(t: Tracker, key: Action): Tracker {
    if key in t.records then Persist(t.(records := t.records - {key})) else t
  }

  /** When the environment may take a step. Only a broadcast transaction lands. */
  ghost predicate Possible(s: System, step: Step) {
    match step
    case Submit(c, _) => c !in s.waiting
    case StageDone(op, _) => At(s, op, Staging)
    case Broadcast(op) => At(s, op, Recorded)
    case BroadcastDone(op, _) => At(s, op, Broadcasting)
    case PollDone(op, _) => op in s.ops && s.ops[op].pc.Polling? && s.ops[op].key in s.t.records
    case SleepDone(op) => op in s.ops && s.ops[op].pc.Sleeping?
    case Clear(op) => op in s.ops && s.ops[op].pc.Settled?
    case Deliver(c) => c in s.waiting && s.waiting[c].op in s.ops && s.ops[s.waiting[c].op].pc.Settled?
    case Land(h) => exists i :: 0 <= i < |s.sent| && s.sent[i].txHash == h
    case Crash => true
    case CrashInRestage(key) => key in s.t.records && Restageable(s, key)
  }

  /** The chains are final: a transaction the tracker was told to give up has not landed and never will. */
  ghost predicate Final(cfg: Config, s: System, step: Step)
    requires Possible(s, step)
  {
    match step
    case PollDone(op, answer) => GivesUp(cfg, s.ops[op].pc.polls, answer) ==> HashOf(s, op) !in s.landed
    case Land(h) => h !in s.dead
    case _ => true
  }

  ghost predicate Enabled(cfg: Config, s: System, step: Step) {
    Possible(s, step) && Final(cfg, s, step)
  }

  function Move(s: System, op: nat, t: Tracker, pc: Pc): System
    requires op in s.ops
  {
    s.(t := t, ops := s.ops[op := s.ops[op].(pc := pc)])
  }

  /** The operations that have settled are history; the rest, and the callers, die with the process. */
  function Crashed(s: System): System {
    s.(t := Restart(s.t), ops := map o | o in s.ops && s.ops[o].pc.Settled? :: s.ops[o], waiting := map[])
  }

  ghost function Apply(cfg: Config, s: System, step: Step): System
    requires Possible(s, step)
  {
    match step
    case Submit(c, key) =>
      var (t, reply) := SubmitBlock(s.t, cfg, key, s.nextOp);
      (match reply
       case Answered(outcome) => s.(t := t, answers := s.answers + [Answer(key, outcome, None)])
       case Joins(op) => s.(t := t, waiting := s.waiting[c := Waiter(key, op)])
       case Drives(pc) =>
         s.(t := t, ops := s.ops[s.nextOp := Op(key, pc)], nextOp := s.nextOp + 1,
            waiting := s.waiting[c := Waiter(key, s.nextOp)]))
    case StageDone(op, result) =>
      var (t, pc) := StageBlock(s.t, s.ops[op].key, result);
      Move(s, op, t, pc)
    case Broadcast(op) =>
      Move(s, op, s.t, Broadcasting).(sent := s.sent + [Sent(s.ops[op].key, HashOf(s, op))])
    case BroadcastDone(op, ok) =>
      var (t, pc) := BroadcastBlock(s.t, cfg, s.ops[op].key, ok);
      Move(s, op, t, pc)
    case PollDone(op, answer) =>
      var polls := s.ops[op].pc.polls;
      var (t, pc) := PollBlock(s.t, cfg, s.ops[op].key, polls, answer);
      Move(s, op, t, pc).(dead := if GivesUp(cfg, polls, answer) then s.dead + {HashOf(s, op)} else s.dead)
    case SleepDone(op) => Move(s, op, s.t, Polling(s.ops[op].pc.polls + 1))
    case Clear(op) => s.(t := ClearBlock(s.t, s.ops[op].key, op))
    case Deliver(c) =>
      var w := s.waiting[c];
      s.(waiting := s.waiting - {c}, answers := s.answers + [Answer(w.key, s.ops[w.op].pc.outcome, Some(w.op))])
    case Land(h) => s.(landed := s.landed + {h})
    case Crash => Crashed(s)
    case CrashInRestage(key) => Crashed(s.(t := Bare(s.t, key)))
  }

  /** Runs on chains that keep given-up hashes dead. */
  ghost predicate Legal(cfg: Config, steps: seq<Step>) {
    steps == [] ||
    (var n := |steps| - 1; Legal(cfg, steps[..n]) && Enabled(cfg, Exec(cfg, steps[..n]), steps[n]))
  }

  ghost function Exec(cfg: Config, steps: seq<Step>): System {
    if steps == [] then INIT
    else
      var n := |steps| - 1;
      var s := Exec(cfg, steps[..n]);
      if Possible(s, steps[n]) then Apply(cfg, s, steps[n]) else s
  }

  lemma OneMoreStep(cfg: Config, steps: seq<Step>, step: Step)
    ensures Legal(cfg, steps + [step]) <==> Legal(cfg, steps) && Enabled(cfg, Exec(cfg, steps), step)
    ensures Possible(Exec(cfg, steps), step) ==> Exec(cfg, steps + [step]) == Apply(cfg, Exec(cfg, steps), step)
  {
    assert (steps + [step])[..|steps|] == steps;
  }

  /** The step is one of the operation's own. */
  predicate Moves(step: Step, op: nat) {
    && (step.StageDone? || step.Broadcast? || step.BroadcastDone? || step.PollDone? || step.SleepDone?)
    && step.op == op
  }

  /** A step that is neither a submission nor an operation's own leaves that operation where it is, or kills it. */
  lemma OthersStand(cfg: Config, s: System, step: Step, op: nat)
    requires Possible(s, step) && !Moves(step, op) && !step.Submit?
    ensures var s' := Apply(cfg, s, step);
            s'.nextOp == s.nextOp && (op in s'.ops ==> op in s.ops && s'.ops[op] == s.ops[op])
  {
  }

  // ---- The invariant --------------------------------------------------------------

  /** The coupling between a record's status, hash, reason and broadcast count. */
  ghost predicate Coupled(r: Record) {
    && (r.broadcasts == 1 <==> r.txHash.Some?)
    && (r.txHash.Some? ==> r.HasHash())
    && r.broadcasts <= 1
    && (r.status == InFlight ==> r == RESERVED)
    && (r.status == Pending || r.status == Succeeded ==> r.txHash.Some?)
    && (r.status == Failed ==>
          && r.reason.Some?
          && (r.txHash.None? <==> r.reason.value == StagingFailed || r.reason.value == NonRetryable))
  }

  ghost predicate AllCoupled(records: map<Action, Record>) {
    forall a :: a in records ==> Coupled(records[a])
  }

  /** One live or settled action per order. */
  ghost predicate OrderLocked(records: map<Action, Record>) {
    forall a, b :: a in records && b in records && a != b && SameOrder(a, b) ==>
      records[a].status == Failed || records[b].status == Failed
  }

  /** A crash now would restore exactly what memory is worth. */
  ghost predicate Durable(t: Tracker) {
    NormaliseAll(t.saved) == NormaliseAll(t.records) && AllCoupled(t.saved)
  }

  /** A live operation is the registered driver of its key, and its position fits the record. */
  ghost predicate DrivenBy(cfg: Config, t: Tracker, o: nat, op: Op) {
    && op.key in t.records
    && op.key in t.inflight && t.inflight[op.key] == o
    && t.records[op.key].status == (if op.pc.Staging? then InFlight else Pending)
    && (op.pc.Polling? || op.pc.Sleeping? ==> op.key in t.reconciling && 1 <= op.pc.polls <= cfg.maxAttempts)
    && (op.pc.Sleeping? ==> op.pc.polls < cfg.maxAttempts)
    && (op.pc.Recorded? || op.pc.Broadcasting? ==> op.key !in t.reconciling)
  }

  ghost predicate Driven(cfg: Config, s: System) {
    && (forall o :: o in s.ops ==> o < s.nextOp)
    && (forall o :: o in s.ops && s.ops[o].Live() ==> DrivenBy(cfg, s.t, o, s.ops[o]))
    && (forall k :: k in s.t.inflight ==> s.t.inflight[k] in s.ops && s.ops[s.t.inflight[k]].key == k)
    && (forall k :: k in s.t.records && s.t.records[k].status == InFlight ==>
          k in s.t.inflight && s.t.inflight[k] in s.ops && s.ops[s.t.inflight[k]].pc.Staging?)
    && (forall k :: k in s.t.reconciling ==>
          && k in s.t.inflight && s.t.inflight[k] in s.ops
          && (s.ops[s.t.inflight[k]].pc.Polling? || s.ops[s.t.inflight[k]].pc.Sleeping?))
  }

  /** Every broadcast hash is on its key's record, given-up hashes are dead, and no key broadcast twice. */
  ghost predicate Ledger(s: System) {
    && (forall i :: 0 <= i < |s.sent| ==>
          s.sent[i].key in s.t.records && s.t.records[s.sent[i].key].txHash == Some(s.sent[i].txHash))
    && (forall i, j :: 0 <= i < j < |s.sent| ==> s.sent[i].key != s.sent[j].key)
    && (forall o, i :: o in s.ops && s.ops[o].pc.Recorded? && 0 <= i < |s.sent| ==> s.sent[i].key != s.ops[o].key)
    && (forall a :: a in s.t.records && s.t.records[a].status == Failed && s.t.records[a].txHash.Some? ==>
          s.t.records[a].txHash.value in s.dead)
    && s.landed !! s.dead
    && (forall h :: h in s.landed ==> exists i :: 0 <= i < |s.sent| && s.sent[i].txHash == h)
  }

  ghost predicate Backed(s: System, key: Action, outcome: Outcome) {
    && outcome != AlreadyInFlight
    && (outcome.Success? ==>
          && key in s.t.records
          && s.t.records[key].status == Succeeded
          && s.t.records[key].txHash == outcome.txHash)
  }

  /** Answers repeat what their operation settled with, and a success is always on record. */
  ghost predicate Honest(s: System) {
    && (forall o :: o in s.ops && s.ops[o].pc.Settled? ==> Backed(s, s.ops[o].key, s.ops[o].pc.outcome))
    && (forall c :: c in s.waiting ==> s.waiting[c].op in s.ops && s.ops[s.waiting[c].op].key == s.waiting[c].key)
    && (forall i :: 0 <= i < |s.answers| ==> Backed(s, s.answers[i].key, s.answers[i].outcome))
    && (forall i :: 0 <= i < |s.answers| && s.answers[i].via.Some? ==>
          && s.answers[i].via.value in s.ops
          && s.ops[s.answers[i].via.value] == Op(s.answers[i].key, Settled(s.answers[i].outcome)))
  }

  ghost predicate Inv(cfg: Config, s: System) {
    && AllCoupled(s.t.records)
    && OrderLocked(s.t.records)
    && Durable(s.t)
    && Driven(cfg, s)
    && Ledger(s)
    && Honest(s)
  }

  // ---- Every step keeps the invariant ---------------------------------------------

  /**
   * What a block of a live operation does: it touches its own key only, keeps a recorded
   * hash, leaves a record that fits where the operation now stands, and gives a hash up
   * only if that hash is dead.
   */
  ghost predicate Advances(cfg: Config, s: System, o: nat, t: Tracker, pc: Pc, dead: set<string>) {
    && o in s.ops && s.ops[o].Live()
    && (var k := s.ops[o].key;
        && k in s.t.records && k in t.records
        && t.records == s.t.records[k := t.records[k]]
        && t.inflight == s.t.inflight
        && Durable(t)
        && Coupled(t.records[k])
        && (s.t.records[k].txHash.Some? ==> t.records[k].txHash == s.t.records[k].txHash)
        && (forall x :: x != k ==> (x in t.reconciling <==> x in s.t.reconciling))
        && (k in t.reconciling <==> pc.Polling? || pc.Sleeping?)
        && (if pc.Settled? then Settles(t.records[k], pc.outcome) else DrivenBy(cfg, t, o, Op(k, pc)))
        && (pc.Recorded? ==> s.ops[o].pc.Staging?)
        && (t.records[k].status == Failed && t.records[k].txHash.Some? ==> t.records[k].txHash.value in dead))
    && s.dead <= dead && s.landed !! dead
  }

  ghost predicate Settles(r: Record, outcome: Outcome) {
    && r.status != InFlight
    && outcome != AlreadyInFlight
    && (outcome.Success? ==> r.status == Succeeded && r.txHash == outcome.txHash)
  }

  lemma AdvanceKeepsOrderLock(cfg: Config, s: System, o: nat, t: Tracker, pc: Pc, dead: set<string>)
    requires Inv(cfg, s) && Advances(cfg, s, o, t, pc, dead)
    ensures AllCoupled(t.records) && OrderLocked(t.records)
  {
  }

  lemma AdvanceKeepsDriven(cfg: Config, s: System, o: nat, t: Tracker, pc: Pc, dead: set<string>)
    requires Inv(cfg, s) && Advances(cfg, s, o, t, pc, dead)
    ensures Driven(cfg, Move(s, o, t, pc).(dead := dead))
  {
    var s' := Move(s, o, t, pc).(dead := dead);
    forall p | p in s'.ops && s'.ops[p].Live()
      ensures DrivenBy(cfg, s'.t, p, s'.ops[p])
    {
      if p != o {
        assert DrivenBy(cfg, s.t, p, s.ops[p]);
      }
    }
  }

  lemma AdvanceKeepsLedger(cfg: Config, s: System, o: nat, t: Tracker, pc: Pc, dead: set<string>)
    requires Inv(cfg, s) && Advances(cfg, s, o, t, pc, dead)
    ensures Ledger(Move(s, o, t, pc).(dead := dead))
  {
    var s' := Move(s, o, t, pc).(dead := dead);
    assert s'.sent == s.sent && s'.landed == s.landed;
  }

  lemma AdvanceKeepsHonest(cfg: Config, s: System, o: nat, t: Tracker, pc: Pc, dead: set<string>)
    requires Inv(cfg, s) && Advances(cfg, s, o, t, pc, dead)
    ensures Honest(Move(s, o, t, pc).(dead := dead))
  {
    var s' := Move(s, o, t, pc).(dead := dead);
    assert forall k, outcome :: Backed(s, k, outcome) ==> Backed(s', k, outcome);
  }

  lemma AdvanceKeepsInv(cfg: Config, s: System, o: nat, t: Tracker, pc: Pc, dead: set<string>)
    requires Inv(cfg, s) && Advances(cfg, s, o, t, pc, dead)
    ensures Inv(cfg, Move(s, o, t, pc).(dead := dead))
  {
    AdvanceKeepsOrderLock(cfg, s, o, t, pc, dead);
    AdvanceKeepsDriven(cfg, s, o, t, pc, dead);
    AdvanceKeepsLedger(cfg, s, o, t, pc, dead);
    AdvanceKeepsHonest(cfg, s, o, t, pc, dead);
  }

  lemma StageAdvances(cfg: Config, s: System, o: nat, result: StageResult)
    requires cfg.Valid() && AllCoupled(s.t.records) && Durable(s.t) && Driven(cfg, s) && Ledger(s)
    requires Enabled(cfg, s, StageDone(o, result))
    ensures var (t, pc) := StageBlock(s.t, s.ops[o].key, result); Advances(cfg, s, o, t, pc, s.dead)
  {
    assert DrivenBy(cfg, s.t, o, s.ops[o]);
    assert Coupled(s.t.records[s.ops[o].key]);
  }

  lemma BroadcastDoneAdvances(cfg: Config, s: System, o: nat, ok: bool)
    requires cfg.Valid() && AllCoupled(s.t.records) && Durable(s.t) && Driven(cfg, s) && Ledger(s)
    requires Enabled(cfg, s, BroadcastDone(o, ok))
    ensures var (t, pc) := BroadcastBlock(s.t, cfg, s.ops[o].key, ok); Advances(cfg, s, o, t, pc, s.dead)
  {
    assert DrivenBy(cfg, s.t, o, s.ops[o]);
    assert Coupled(s.t.records[s.ops[o].key]);
  }

  lemma GivingUpAdvances(cfg: Config, s: System, o: nat, answer: ChainState)
    requires cfg.Valid() && AllCoupled(s.t.records) && Durable(s.t) && Driven(cfg, s) && Ledger(s)
    requires Enabled(cfg, s, PollDone(o, answer)) && GivesUp(cfg, s.ops[o].pc.polls, answer)
    ensures var (t, pc) := PollBlock(s.t, cfg, s.ops[o].key, s.ops[o].pc.polls, answer);
            Advances(cfg, s, o, t, pc, Apply(cfg, s, PollDone(o, answer)).dead)
  {
    assert DrivenBy(cfg, s.t, o, s.ops[o]);
    assert Coupled(s.t.records[s.ops[o].key]);
  }

  lemma HoldingOnAdvances(cfg: Config, s: System, o: nat, answer: ChainState)
    requires cfg.Valid() && AllCoupled(s.t.records) && Durable(s.t) && Driven(cfg, s) && Ledger(s)
    requires Enabled(cfg, s, PollDone(o, answer)) && !GivesUp(cfg, s.ops[o].pc.polls, answer)
    ensures var (t, pc) := PollBlock(s.t, cfg, s.ops[o].key, s.ops[o].pc.polls, answer);
            Advances(cfg, s, o, t, pc, Apply(cfg, s, PollDone(o, answer)).dead)
  {
    assert DrivenBy(cfg, s.t, o, s.ops[o]);
    assert Coupled(s.t.records[s.ops[o].key]);
  }

  lemma PollAdvances(cfg: Config, s: System, o: nat, answer: ChainState)
    requires cfg.Valid() && AllCoupled(s.t.records) && Durable(s.t) && Driven(cfg, s) && Ledger(s)
    requires Enabled(cfg, s, PollDone(o, answer))
    ensures var (t, pc) := PollBlock(s.t, cfg, s.ops[o].key, s.ops[o].pc.polls, answer);
            Advances(cfg, s, o, t, pc, Apply(cfg, s, PollDone(o, answer)).dead)
  {
    if GivesUp(cfg, s.ops[o].pc.polls, answer) {
      GivingUpAdvances(cfg, s, o, answer);
    } else {
      HoldingOnAdvances(cfg, s, o, answer);
    }
  }

  lemma SleepAdvances(cfg: Config, s: System, o: nat)
    requires cfg.Valid() && AllCoupled(s.t.records) && Durable(s.t) && Driven(cfg, s) && Ledger(s)
    requires Enabled(cfg, s, SleepDone(o))
    ensures Advances(cfg, s, o, s.t, Polling(s.ops[o].pc.polls + 1), s.dead)
  {
    assert DrivenBy(cfg, s.t, o, s.ops[o]);
    assert s.t.records == s.t.records[s.ops[o].key := s.t.records[s.ops[o].key]];
  }

  /** Settled operations and succeeded records are never touched again. */
  ghost predicate HistoryKept(s: System, s': System) {
    && (forall o :: o in s.ops && s.ops[o].pc.Settled? ==> o in s'.ops && s'.ops[o] == s.ops[o])
    && (forall k :: k in s.t.records && s.t.records[k].status == Succeeded ==>
          k in s'.t.records && s'.t.records[k] == s.t.records[k])
  }

  lemma HistoryKeepsHonest(s: System, s': System)
    requires Honest(s) && HistoryKept(s, s')
    requires forall o :: o in s'.ops && s'.ops[o].pc.Settled? ==>
               (o in s.ops && s.ops[o] == s'.ops[o]) || Backed(s', s'.ops[o].key, s'.ops[o].pc.outcome)
    requires forall c :: c in s'.waiting ==>
               s'.waiting[c].op in s'.ops && s'.ops[s'.waiting[c].op].key == s'.waiting[c].key
    requires s'.answers == s.answers ||
             (&& |s'.answers| == |s.answers| + 1 && s'.answers[..|s.answers|] == s.answers
              && var last := s'.answers[|s.answers|];
                 && Backed(s', last.key, last.outcome)
                 && (last.via.Some? ==> last.via.value in s'.ops && s'.ops[last.via.value] == Op(last.key, Settled(last.outcome))))
    ensures Honest(s')
  {
    assert forall k, outcome :: Backed(s, k, outcome) ==> Backed(s', k, outcome);
    forall i | 0 <= i < |s'.answers|
      ensures Backed(s', s'.answers[i].key, s'.answers[i].outcome)
      ensures s'.answers[i].via.Some? ==>
                && s'.answers[i].via.value in s'.ops
                && s'.ops[s'.answers[i].via.value] == Op(s'.answers[i].key, Settled(s'.answers[i].outcome))
    {
      if i < |s.answers| {
        assert s'.answers[i] == s.answers[i];
        assert Backed(s, s.answers[i].key, s.answers[i].outcome);
      }
    }
  }

  /** The two ways a submission of an unreserved key can go. */
  function Refused(s: System, key: Action): System {
    s.(t := Bare(s.t, key), answers := s.answers + [Answer(key, OrderBusy, None)])
  }

  function Reserved(s: System, c: nat, key: Action): System {
    Driving(s, c, key, Write(s.t, key, RESERVED), Staging)
  }

  function Driving(s: System, c: nat, key: Action, t: Tracker, pc: Pc): System {
    s.(t := t.(inflight := t.inflight[key := s.nextOp]), ops := s.ops[s.nextOp := Op(key, pc)], nextOp := s.nextOp + 1,
       waiting := s.waiting[c := Waiter(key, s.nextOp)])
  }

  lemma ReserveShape(cfg: Config, s: System, c: nat, key: Action)
    requires Enabled(cfg, s, Submit(c, key)) && Restageable(s, key)
    ensures Apply(cfg, s, Submit(c, key)) ==
            if Blocked(Bare(s.t, key).records, key) then Refused(s, key) else Reserved(s, c, key)
  {
    var bare := Bare(s.t, key);
    assert bare.records[key := RESERVED] == s.t.records[key := RESERVED];
  }

  lemma RefusedKeepsDriven(cfg: Config, s: System, key: Action)
    requires Driven(cfg, s) && Restageable(s, key)
    ensures Driven(cfg, Refused(s, key))
  {
    var s' := Refused(s, key);
    forall o | o in s'.ops && s'.ops[o].Live()
      ensures DrivenBy(cfg, s'.t, o, s'.ops[o])
    {
      assert DrivenBy(cfg, s.t, o, s.ops[o]);
    }
  }

  lemma RefusedKeepsLedger(s: System, key: Action)
    requires AllCoupled(s.t.records) && Ledger(s) && Restageable(s, key)
    ensures Ledger(Refused(s, key))
  {
    assert key in s.t.records ==> Coupled(s.t.records[key]);
  }

  lemma RefusedKeepsInv(cfg: Config, s: System, key: Action)
    requires Inv(cfg, s) && Restageable(s, key)
    ensures Inv(cfg, Refused(s, key))
  {
    RefusedKeepsDriven(cfg, s, key);
    RefusedKeepsLedger(s, key);
    HistoryKeepsHonest(s, Refused(s, key));
  }

  lemma ReservedKeepsRecords(s: System, c: nat, key: Action)
    requires AllCoupled(s.t.records) && OrderLocked(s.t.records)
    requires !Blocked(Bare(s.t, key).records, key)
    ensures var t := Reserved(s, c, key).t; AllCoupled(t.records) && OrderLocked(t.records) && Durable(t)
  {
    var t := Reserved(s, c, key).t;
    forall b | b in t.records && b != key && SameOrder(b, key)
      ensures t.records[b].status == Failed
    {
      assert !Blocks(Bare(s.t, key).records, b, key);
    }
  }

  lemma ReservedKeepsDriven(cfg: Config, s: System, c: nat, key: Action)
    requires Driven(cfg, s) && Restageable(s, key)
    ensures Driven(cfg, Reserved(s, c, key))
  {
    var s' := Reserved(s, c, key);
    forall o | o in s'.ops && s'.ops[o].Live()
      ensures DrivenBy(cfg, s'.t, o, s'.ops[o])
    {
      if o in s.ops {
        assert DrivenBy(cfg, s.t, o, s.ops[o]);
      }
    }
  }

  lemma ReservedKeepsLedger(s: System, c: nat, key: Action)
    requires AllCoupled(s.t.records) && Ledger(s) && Restageable(s, key)
    ensures Ledger(Reserved(s, c, key))
  {
    assert key in s.t.records ==> Coupled(s.t.records[key]);
  }

  lemma ReservedKeepsHonest(cfg: Config, s: System, c: nat, key: Action)
    requires Driven(cfg, s) && Honest(s) && Restageable(s, key)
    ensures Honest(Reserved(s, c, key))
  {
    HistoryKeepsHonest(s, Reserved(s, c, key));
  }

  /** A key the tracker already holds: an operation attaches to its recorded hash. */
  lemma AttachKeepsDriven(cfg: Config, s: System, c: nat, key: Action)
    requires cfg.Valid() && Driven(cfg, s)
    requires key in s.t.records && s.t.records[key].status == Pending && key !in s.t.inflight
    ensures var (t, pc) := StartReconcile(s.t, cfg, key); Driven(cfg, Driving(s, c, key, t, pc))
  {
    var (t, pc) := StartReconcile(s.t, cfg, key);
    var s' := Driving(s, c, key, t, pc);
    forall o | o in s'.ops && s'.ops[o].Live()
      ensures DrivenBy(cfg, s'.t, o, s'.ops[o])
    {
      if o in s.ops {
        assert DrivenBy(cfg, s.t, o, s.ops[o]);
      }
    }
  }

  lemma AttachKeepsHonest(cfg: Config, s: System, c: nat, key: Action)
    requires Driven(cfg, s) && Honest(s)
    requires key in s.t.records && s.t.records[key].status == Pending && key !in s.t.inflight
    ensures var (t, pc) := StartReconcile(s.t, cfg, key); Honest(Driving(s, c, key, t, pc))
  {
    var (t, pc) := StartReconcile(s.t, cfg, key);
    HistoryKeepsHonest(s, Driving(s, c, key, t, pc));
  }

  lemma AttachKeepsInv(cfg: Config, s: System, c: nat, key: Action)
    requires cfg.Valid() && Inv(cfg, s)
    requires key in s.t.records && s.t.records[key].status == Pending && key !in s.t.inflight
    ensures var (t, pc) := StartReconcile(s.t, cfg, key); Inv(cfg, Driving(s, c, key, t, pc))
  {
    AttachKeepsDriven(cfg, s, c, key);
    AttachKeepsHonest(cfg, s, c, key);
    var (t, pc) := StartReconcile(s.t, cfg, key);
    LedgerIgnoresOps(s, Driving(s, c, key, t, pc));
  }

  lemma DrivenIgnoresLogs(cfg: Config, s: System, s': System)
    requires Driven(cfg, s) && s'.t == s.t && s'.ops == s.ops && s'.nextOp == s.nextOp
    ensures Driven(cfg, s')
  {
  }

  lemma AnsweredKeepsInv(cfg: Config, s: System, key: Action, outcome: Outcome)
    requires Inv(cfg, s) && Backed(s, key, outcome)
    ensures Inv(cfg, s.(answers := s.answers + [Answer(key, outcome, None)]))
  {
    var s' := s.(answers := s.answers + [Answer(key, outcome, None)]);
    DrivenIgnoresLogs(cfg, s, s');
    LedgerIgnoresOps(s, s');
    HistoryKeepsHonest(s, s');
  }

  lemma JoinKeepsInv(cfg: Config, s: System, c: nat, key: Action)
    requires Inv(cfg, s) && key in s.t.inflight
    ensures Inv(cfg, s.(waiting := s.waiting[c := Waiter(key, s.t.inflight[key])]))
  {
    var s' := s.(waiting := s.waiting[c := Waiter(key, s.t.inflight[key])]);
    DrivenIgnoresLogs(cfg, s, s');
    LedgerIgnoresOps(s, s');
    HistoryKeepsHonest(s, s');
  }

  lemma SubmitKeepsInv(cfg: Config, s: System, c: nat, key: Action)
    requires cfg.Valid() && Inv(cfg, s) && Enabled(cfg, s, Submit(c, key))
    ensures Inv(cfg, Apply(cfg, s, Submit(c, key)))
  {
    if Restageable(s, key) {
      ReserveShape(cfg, s, c, key);
      if Blocked(Bare(s.t, key).records, key) {
        RefusedKeepsInv(cfg, s, key);
      } else {
        ReservedKeepsRecords(s, c, key);
        ReservedKeepsDriven(cfg, s, c, key);
        ReservedKeepsLedger(s, c, key);
        ReservedKeepsHonest(cfg, s, c, key);
      }
    } else if s.t.records[key].status == Succeeded || s.t.records[key].status == Failed {
      var outcome := Apply(cfg, s, Submit(c, key)).answers[|s.answers|].outcome;
      AnsweredKeepsInv(cfg, s, key, outcome);
    } else if key in s.t.inflight {
      JoinKeepsInv(cfg, s, c, key);
    } else {
      AttachKeepsInv(cfg, s, c, key);
    }
  }

  lemma LedgerIgnoresOps(s: System, s': System)
    requires Ledger(s)
    requires s'.t.records == s.t.records && s'.sent == s.sent && s'.landed == s.landed && s'.dead == s.dead
    requires forall o :: o in s'.ops && s'.ops[o].pc.Recorded? ==> o in s.ops && s.ops[o] == s'.ops[o]
    ensures Ledger(s')
  {
  }

  lemma BroadcastKeepsDriven(cfg: Config, s: System, op: nat)
    requires Driven(cfg, s) && Enabled(cfg, s, Broadcast(op))
    ensures Driven(cfg, Apply(cfg, s, Broadcast(op)))
  {
    assert DrivenBy(cfg, s.t, op, s.ops[op]);
  }

  lemma BroadcastKeepsLedger(cfg: Config, s: System, op: nat)
    requires AllCoupled(s.t.records) && Driven(cfg, s) && Ledger(s) && Enabled(cfg, s, Broadcast(op))
    ensures Ledger(Apply(cfg, s, Broadcast(op)))
  {
    var s' := Apply(cfg, s, Broadcast(op));
    assert DrivenBy(cfg, s.t, op, s.ops[op]) && Coupled(s.t.records[s.ops[op].key]);
    forall o, i | o in s'.ops && s'.ops[o].pc.Recorded? && 0 <= i < |s'.sent|
      ensures s'.sent[i].key != s'.ops[o].key
    {
      assert DrivenBy(cfg, s.t, o, s.ops[o]);
    }
    forall h | h in s'.landed
      ensures exists i :: 0 <= i < |s'.sent| && s'.sent[i].txHash == h
    {
      var i :| 0 <= i < |s.sent| && s.sent[i].txHash == h;
      assert s'.sent[i].txHash == h;
    }
  }

  lemma BroadcastKeepsInv(cfg: Config, s: System, op: nat)
    requires Inv(cfg, s) && Enabled(cfg, s, Broadcast(op))
    ensures Inv(cfg, Apply(cfg, s, Broadcast(op)))
  {
    BroadcastKeepsDriven(cfg, s, op);
    BroadcastKeepsLedger(cfg, s, op);
    HistoryKeepsHonest(s, Apply(cfg, s, Broadcast(op)));
  }

  lemma ClearKeepsDriven(cfg: Config, s: System, op: nat)
    requires Driven(cfg, s) && Enabled(cfg, s, Clear(op))
    ensures Driven(cfg, Apply(cfg, s, Clear(op)))
  {
    var s' := Apply(cfg, s, Clear(op));
    forall o | o in s'.ops && s'.ops[o].Live()
      ensures DrivenBy(cfg, s'.t, o, s'.ops[o])
    {
      assert DrivenBy(cfg, s.t, o, s.ops[o]);
    }
  }

  lemma ClearKeepsInv(cfg: Config, s: System, op: nat)
    requires Inv(cfg, s) && Enabled(cfg, s, Clear(op))
    ensures Inv(cfg, Apply(cfg, s, Clear(op)))
  {
    var s' := Apply(cfg, s, Clear(op));
    ClearKeepsDriven(cfg, s, op);
    LedgerIgnoresOps(s, s');
    HistoryKeepsHonest(s, s');
  }

  lemma DeliverKeepsInv(cfg: Config, s: System, c: nat)
    requires Inv(cfg, s) && Enabled(cfg, s, Deliver(c))
    ensures Inv(cfg, Apply(cfg, s, Deliver(c)))
  {
    var s' := Apply(cfg, s, Deliver(c));
    DrivenIgnoresLogs(cfg, s, s');
    LedgerIgnoresOps(s, s');
    HistoryKeepsHonest(s, s');
  }

  lemma LandKeepsInv(cfg: Config, s: System, h: string)
    requires Inv(cfg, s) && Enabled(cfg, s, Land(h))
    ensures Inv(cfg, Apply(cfg, s, Land(h)))
  {
    var s' := Apply(cfg, s, Land(h));
    DrivenIgnoresLogs(cfg, s, s');
    HistoryKeepsHonest(s, s');
  }

  lemma CrashKeepsRecords(s: System)
    requires AllCoupled(s.t.records) && OrderLocked(s.t.records) && Durable(s.t)
    ensures var t := Restart(s.t);
            && t.records == NormaliseAll(s.t.records)
            && AllCoupled(t.records) && OrderLocked(t.records) && Durable(t)
  {
    assert forall a :: a in s.t.records ==> Coupled(s.t.records[a]);
  }

  lemma CrashKeepsLedger(s: System)
    requires AllCoupled(s.t.records) && Durable(s.t) && Ledger(s)
    ensures Ledger(Crashed(s))
  {
    var s' := Crashed(s);
    assert s'.t.records == NormaliseAll(s.t.records);
    assert forall a :: a in s.t.records ==> Coupled(s.t.records[a]) && s'.t.records[a].txHash == s.t.records[a].txHash;
  }

  lemma CrashKeepsDriven(cfg: Config, s: System)
    requires Driven(cfg, s)
    ensures Driven(cfg, Crashed(s))
  {
  }

  lemma CrashKeepsHonest(s: System)
    requires AllCoupled(s.t.records) && Durable(s.t) && Honest(s)
    ensures Honest(Crashed(s))
  {
    var s' := Crashed(s);
    assert s'.t.records == NormaliseAll(s.t.records);
    assert forall a :: a in s.t.records ==> Coupled(s.t.records[a]);
    HistoryKeepsHonest(s, s');
  }

  lemma CrashKeepsInv(cfg: Config, s: System)
    requires Inv(cfg, s)
    ensures Inv(cfg, Crashed(s))
  {
    CrashKeepsRecords(s);
    CrashKeepsDriven(cfg, s);
    CrashKeepsLedger(s);
    CrashKeepsHonest(s);
  }

  lemma BareKeepsInv(cfg: Config, s: System, key: Action)
    requires Inv(cfg, s) && Restageable(s, key)
    ensures Inv(cfg, s.(t := Bare(s.t, key)))
  {
    RefusedKeepsInv(cfg, s, key);
    FewerAnswersKeepInv(cfg, Refused(s, key), s.(t := Bare(s.t, key)));
  }

  /** Nothing but the record of a failed staging is lost by a crash between the saves of its re-staging. */
  lemma CrashInRestageKeepsInv(cfg: Config, s: System, key: Action)
    requires Inv(cfg, s) && Enabled(cfg, s, CrashInRestage(key))
    ensures Inv(cfg, Apply(cfg, s, CrashInRestage(key)))
  {
    assert Apply(cfg, s, CrashInRestage(key)) == Crashed(s.(t := Bare(s.t, key)));
    CrashedBareKeepsInv(cfg, s, s.(t := Bare(s.t, key)), key);
  }

  lemma CrashedBareKeepsInv(cfg: Config, s: System, bare: System, key: Action)
    requires Inv(cfg, s) && Restageable(s, key) && bare == s.(t := Bare(s.t, key))
    ensures Inv(cfg, Crashed(bare))
  {
    BareKeepsInv(cfg, s, key);
    CrashKeepsInv(cfg, bare);
  }

  lemma FewerAnswersKeepInv(cfg: Config, s: System, s': System)
    requires Inv(cfg, s) && s' == s.(answers := s'.answers) && |s'.answers| <= |s.answers|
    requires s'.answers == s.answers[..|s'.answers|]
    ensures Inv(cfg, s')
  {
    DrivenIgnoresLogs(cfg, s, s');
    LedgerIgnoresOps(s, s');
    assert forall k, outcome :: Backed(s, k, outcome) ==> Backed(s', k, outcome);
    assert forall i :: 0 <= i < |s'.answers| ==> s'.answers[i] == s.answers[i];
  }

  lemma StepKeepsInv(cfg: Config, s: System, step: Step)
    requires cfg.Valid() && Inv(cfg, s) && Enabled(cfg, s, step)
    ensures Inv(cfg, Apply(cfg, s, step))
  {
    var s' := Apply(cfg, s, step);
    match step
    case Submit(c, key) => SubmitKeepsInv(cfg, s, c, key);
    case StageDone(o, result) =>
      StageAdvances(cfg, s, o, result);
      AdvanceKeepsInv(cfg, s, o, s'.t, s'.ops[o].pc, s'.dead);
    case Broadcast(o) => BroadcastKeepsInv(cfg, s, o);
    case BroadcastDone(o, ok) =>
      BroadcastDoneAdvances(cfg, s, o, ok);
      AdvanceKeepsInv(cfg, s, o, s'.t, s'.ops[o].pc, s'.dead);
    case PollDone(o, answer) =>
      PollAdvances(cfg, s, o, answer);
      AdvanceKeepsInv(cfg, s, o, s'.t, s'.ops[o].pc, s'.dead);
    case SleepDone(o) =>
      SleepAdvances(cfg, s, o);
      AdvanceKeepsInv(cfg, s, o, s'.t, s'.ops[o].pc, s'.dead);
    case Clear(o) => ClearKeepsInv(cfg, s, o);
    case Deliver(c) => DeliverKeepsInv(cfg, s, c);
    case Land(h) => LandKeepsInv(cfg, s, h);
    case Crash => CrashKeepsInv(cfg, s);
    case CrashInRestage(key) => CrashInRestageKeepsInv(cfg, s, key);
  }

  lemma {:induction false} RunKeepsInv(cfg: Config, steps: seq<Step>)
    requires cfg.Valid() && Legal(cfg, steps)
    ensures Inv(cfg, Exec(cfg, steps))
  {
    if steps != [] {
      var n := |steps| - 1;
      RunKeepsInv(cfg, steps[..n]);
      StepKeepsInv(cfg, Exec(cfg, steps[..n]), steps[n]);
    }
  }
}
