/**
 * The submission tracker's data and its atomic blocks.
 *
 * A block is the code an async method runs between two `await`s. Each block is a
 * function on the tracker's fields; RelayTracker proves the imperative class against
 * these functions and RelayRuns interleaves them.
 */
module RelayRecords {
  import opened Prelude

  /** The identity of a submission. RelayKeys shows that the string keys are faithful to it. */
  datatype Action = Action(orderId: string, side: string, name: string)

  predicate SameOrder(a: Action, b: Action) {
    a.orderId == b.orderId && a.side == b.side
  }

  datatype Status = InFlight | Pending | Succeeded | Failed

  datatype Reason = FailedOnChain | NotFound | NonRetryable | StagingFailed

  datatype Record = Record(status: Status, txHash: Option<string>, reason: Option<Reason>, broadcasts: nat) {
    /** The source tests a hash for truth, so an empty string counts as none. */
    predicate HasHash() { txHash.Some? && txHash.value != "" }
  }

  const RESERVED := Record(InFlight, None, None, 0)

  datatype Config = Config(maxAttempts: nat, hasConfirmer: bool) {
    /** The constructor clamps the budget to at least one attempt. */
    ghost predicate Valid() { maxAttempts >= 1 }
  }

  /** `saved` is what the store holds, as the map of raw records it describes. */
  datatype Tracker = Tracker(
    records: map<Action, Record>,
    saved: map<Action, Record>,
    inflight: map<Action, nat>,
    reconciling: set<Action>)

  /** What a promise returned by `submit` settles with. */
  datatype Outcome =
    | Success(txHash: Option<string>)
    | Terminal(reason: Reason)
    | ConfirmationTimeout(txHash: Option<string>)
    | OrderBusy
    | AlreadyInFlight

  /** Where an operation stands: awaiting its stager, broadcast, k-th poll or the sleep after it, or settled. */
  datatype Pc =
    | Staging
    | Recorded
    | Broadcasting
    | Polling(polls: nat)
    | Sleeping(polls: nat)
    | Settled(outcome: Outcome)

  /** How the synchronous part of `submit` ends: an answer, a promise to join, or a new operation. */
  datatype Reply = Answered(outcome: Outcome) | Joins(op: nat) | Drives(pc: Pc)

  datatype StageResult = Threw(retryable: bool) | Staged(txHash: string)

  datatype ChainState = ChainSucceeded | ChainFailed | ChainPending | ChainNotFound

  ghost predicate Blocks(records: map<Action, Record>, blocking: Action, a: Action) {
    && blocking in records
    && blocking != a
    && SameOrder(blocking, a)
    && records[blocking].status != Failed
  }

  ghost predicate Blocked(records: map<Action, Record>, a: Action) {
    exists b :: Blocks(records, b, a)
  }

  function Write(t: Tracker, a: Action, r: Record): Tracker {
    t.(records := t.records[a := r], saved := t.records[a := r])
  }

  function Persist(t: Tracker): Tracker {
    t.(saved := t.records)
  }

  function Fail(t: Tracker, a: Action, reason: Reason): Tracker
    requires a in t.records
  {
    Write(t, a, t.records[a].(status := Failed, reason := Some(reason)))
  }

  function Settle(t: Tracker, a: Action): (Tracker, Pc)
    requires a in t.records
  {
    (Write(t, a, t.records[a].(status := Succeeded)), Settled(Success(t.records[a].txHash)))
  }

  /** Reserve the key, persist, and start `broadcastOnce` up to its first await. */
  ghost function Reserve(t: Tracker, a: Action, op: nat): (Tracker, Reply) {
    if Blocked(t.records, a) then (t, Answered(OrderBusy))
    else (Write(t, a, RESERVED).(inflight := t.inflight[a := op]), Drives(Staging))
  }

  function StartReconcile(t: Tracker, cfg: Config, a: Action): (Tracker, Pc)
    requires a in t.records
  {
    if !cfg.hasConfirmer then (t, Settled(ConfirmationTimeout(t.records[a].txHash)))
    else if a in t.reconciling then (t, Settled(AlreadyInFlight))
    else (t.(reconciling := t.reconciling + {a}), Polling(1))
  }

  ghost function SubmitBlock(t: Tracker, cfg: Config, a: Action, op: nat): (Tracker, Reply) {
    if a !in t.records then Reserve(t, a, op)
    else
      var r := t.records[a];
      if r.status == Succeeded then (t, Answered(Success(r.txHash)))
      else if r.status == Failed then
        if r.reason == Some(StagingFailed) then Reserve(Persist(t.(records := t.records - {a})), a, op)
        else (t, Answered(Terminal(if r.reason.Some? then r.reason.value else FailedOnChain)))
      else if a in t.inflight then (t, Joins(t.inflight[a]))
      else if r.status == InFlight then (t, Answered(AlreadyInFlight))
      else
        var (t', pc) := StartReconcile(t, cfg, a);
        (t'.(inflight := t'.inflight[a := op]), Drives(pc))
  }

  function StageBlock(t: Tracker, a: Action, result: StageResult): (Tracker, Pc)
    requires a in t.records
  {
    match result
    case Threw(retryable) =>
      var reason := if retryable then StagingFailed else NonRetryable;
      (Fail(t, a, reason), Settled(Terminal(reason)))
    case Staged(txHash) =>
      if txHash == "" then (Fail(t, a, StagingFailed), Settled(Terminal(StagingFailed)))
      else
        var r := t.records[a];
        (Write(t, a, r.(status := Pending, txHash := Some(txHash), broadcasts := r.broadcasts + 1)), Recorded)
  }

  function BroadcastBlock(t: Tracker, cfg: Config, a: Action, ok: bool): (Tracker, Pc)
    requires a in t.records
  {
    if ok then Settle(t, a) else StartReconcile(Persist(t), cfg, a)
  }

  function PollBlock(t: Tracker, cfg: Config, a: Action, polls: nat, answer: ChainState): (Tracker, Pc)
    requires a in t.records
  {
    var done := t.(reconciling := t.reconciling - {a});
    if answer == ChainSucceeded then Settle(done, a)
    else if answer == ChainFailed then (Fail(done, a, FailedOnChain), Settled(Terminal(FailedOnChain)))
    else if polls < cfg.maxAttempts then (Persist(t), Sleeping(polls))
    else if answer == ChainNotFound then (Fail(done, a, NotFound), Settled(Terminal(NotFound)))
    else (Persist(done), Settled(ConfirmationTimeout(t.records[a].txHash)))
  }

  /** The settlement callback of `track`: drop the promise only if it is still this operation's. */
  function ClearBlock(t: Tracker, a: Action, op: nat): Tracker {
    if a in t.inflight && t.inflight[a] == op then t.(inflight := t.inflight - {a}) else t
  }

  /** What a persisted record is worth after a restart. */
  function Normalise(r: Record): Record {
    var status :=
      match r.status
      case InFlight => Failed
      case Pending => if r.HasHash() then Pending else Failed
      case _ => r.status;
    var reason := if status == Failed && (r.reason == Some(StagingFailed) || !r.HasHash()) then Some(StagingFailed) else r.reason;
    r.(status := status, reason := reason)
  }

  function NormaliseAll(records: map<Action, Record>): map<Action, Record> {
    map a | a in records :: Normalise(records[a])
  }

  /** A new process: the constructor's `restore` over what the store holds. */
  function Restart(t: Tracker): Tracker {
    Tracker(NormaliseAll(t.saved), t.saved, map[], {})
  }
}
