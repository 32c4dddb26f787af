/**
 * The tracker's clients for XLM-to-ETH orders: the background refund watchdog, the ETH
 * release handler and its inline refund, all writing what they were told onto order rows.
 */
module RefundWatchdog {
  import opened Prelude
  import opened RelayRecords
  import opened RelayRuns
  import RelaySafety

  const SIDE := "xlm_to_eth"
  const BACK_OFF_MS := 600_000

  /** `xlmReceivedAt` and `created` hold seconds, milliseconds, or a date text (here with its parse). */
  datatype Stamp = Absent | Number(value: int) | Text(parsed: Option<int>)

  datatype Row = Row(
    orderId: Option<string>,
    direction: string,
    status: string,
    stellarAddress: string,
    stellarTxHash: string,
    xlmReceivedAt: Stamp,
    created: Stamp,
    refundTxHash: Option<string>,
    refundedAt: Option<int>,
    ethTxHash: Option<string>,
    watchdogFailedAt: Option<int>)

  function ToMillis(s: Stamp): Option<int> {
    match s
    case Absent => None
    case Number(value) => Some(if value > 1_000_000_000_000 then value else value * 1000)
    case Text(parsed) => parsed
  }

  predicate IsXlmToEthAwaitingEth(row: Row) {
    && row.direction == SIDE
    && row.stellarTxHash != ""
    && (row.refundTxHash == None || row.refundTxHash == Some("")) && (row.refundedAt == None || row.refundedAt == Some(0))
    && row.status != "eth_tx_sent" && row.status != "completed" && row.status != "refunded"
  }

  /** The scan's decision to refund an order, before it asks the tracker. */
  predicate Due(row: Row, now: int, staleAfterMs: int) {
    var startedAt := if ToMillis(row.xlmReceivedAt).Some? then ToMillis(row.xlmReceivedAt) else ToMillis(row.created);
    && IsXlmToEthAwaitingEth(row)
    && !(row.watchdogFailedAt.Some? && row.watchdogFailedAt.value != 0 && now - row.watchdogFailedAt.value < BACK_OFF_MS)
    && startedAt.Some? && startedAt.value != 0
    && now - startedAt.value >= staleAfterMs
    && row.stellarAddress != ""
  }

  function WatchdogRefundAction(id: string, row: Row): Action {
    Action(if row.orderId.Some? && row.orderId.value != "" then row.orderId.value else id, SIDE, "refund")
  }

  function ClaimAction(id: string): Action { Action(id, SIDE, "claim") }

  function RefundAction(id: string): Action { Action(id, SIDE, "refund") }

  /** What the watchdog writes when its `submit` settles. */
  function Conclude(row: Row, outcome: Outcome, at: int): Row {
    match outcome
    case Success(Some(h)) =>
      if h == "" then row.(watchdogFailedAt := Some(at))
      else row.(status := "refunded", refundTxHash := Some(h), refundedAt := Some(at), watchdogFailedAt := None)
    case Success(None) => row.(watchdogFailedAt := Some(at))
    case AlreadyInFlight => row.(watchdogFailedAt := Some(at))
    case _ => row
  }

  /** What the release handler writes, and what its inline refund writes. */
  function ConcludeClaim(row: Row, outcome: Outcome): Row {
    if outcome.Success? then row.(status := "eth_tx_sent", ethTxHash := outcome.txHash) else row
  }

  function ConcludeInlineRefund(row: Row, outcome: Outcome): Row {
    if outcome.Success? then row.(status := "refunded", refundTxHash := outcome.txHash) else row
  }

  // ---- One scan -------------------------------------------------------------------

  /** `blocked` is the tracker's advance answer, `outcome` what `submit` settles with. */
  datatype Visit = Visit(blocked: bool, outcome: Outcome, at: int)

  function AfterVisit(row: Row, now: int, staleAfterMs: int, visit: Visit): Row {
    if Due(row, now, staleAfterMs) && !visit.blocked then Conclude(row, visit.outcome, visit.at) else row
  }

  class WatchdogOrder {
    var row: Row

    constructor (row: Row)
      ensures this.row == row
    {
      this.row := row;
    }
  }

  /** Walk the order map once, updating the orders that were refunded or failed. */
  method Scan(orders: seq<WatchdogOrder>, now: int, staleAfterMs: int, visits: seq<Visit>)
    requires |visits| == |orders|
    requires forall i, j :: 0 <= i < j < |orders| ==> orders[i] != orders[j]
    modifies orders
    ensures forall i :: 0 <= i < |orders| ==> orders[i].row == AfterVisit(old(orders[i].row), now, staleAfterMs, visits[i])
    ensures forall i :: 0 <= i < |orders| && Due(old(orders[i].row), now, staleAfterMs) && !visits[i].blocked ==>
              forall h :: h != "" && visits[i].outcome == Success(Some(h)) ==> Refunded(orders[i].row, h, visits[i].at)
  {
    for i := 0 to |orders|
      invariant forall j :: 0 <= j < i ==> orders[j].row == AfterVisit(old(orders[j].row), now, staleAfterMs, visits[j])
      invariant forall j :: i <= j < |orders| ==> orders[j].row == old(orders[j].row)
    {
      var order := orders[i];
      if !Due(order.row, now, staleAfterMs) || visits[i].blocked {
        continue;
      }
      match visits[i].outcome {
        case Success(Some(h)) =>
          if h != "" {
            order.row := order.row.(status := "refunded", refundTxHash := Some(h), refundedAt := Some(visits[i].at), watchdogFailedAt := None);
          } else {
            order.row := order.row.(watchdogFailedAt := Some(visits[i].at));
          }
        case OrderBusy =>
        case Terminal(_) =>
        case ConfirmationTimeout(_) =>
        case _ => order.row := order.row.(watchdogFailedAt := Some(visits[i].at));
      }
    }
  }

  // ---- What a scan leaves behind ----------------------------------------------------

  predicate Refunded(row: Row, h: string, at: int) {
    row.status == "refunded" && row.refundTxHash == Some(h) && row.refundedAt == Some(at) && row.watchdogFailedAt == None
  }

  /** The answers after which the watchdog notes a failed attempt. */
  predicate NotesFailure(outcome: Outcome) {
    outcome == AlreadyInFlight || outcome == Success(None) || outcome == Success(Some(""))
  }

  /**
   * What one visit does to an order: a refund that was reported is written with its hash and
   * time, an attempt without a hash is noted with its time, and nothing else is ever changed.
   */
  lemma VisitsWriteTheirAnswer(row: Row, now: int, staleAfterMs: int, visit: Visit)
    ensures var row' := AfterVisit(row, now, staleAfterMs, visit);
            var asked := Due(row, now, staleAfterMs) && !visit.blocked;
            && (asked && visit.outcome.Success? && !NotesFailure(visit.outcome) ==>
                  && visit.outcome.txHash.Some? && Refunded(row', visit.outcome.txHash.value, visit.at)
                  && row' == row.(status := row'.status, refundTxHash := row'.refundTxHash, refundedAt := row'.refundedAt, watchdogFailedAt := None))
            && (asked && NotesFailure(visit.outcome) ==> row' == row.(watchdogFailedAt := Some(visit.at)))
            && (!asked || (!visit.outcome.Success? && !NotesFailure(visit.outcome)) ==> row' == row)
  {
  }

  /** An order gets a refund hash in a scan exactly if it was due, not blocked, and answered with that hash. */
  lemma HashesComeFromAnswers(row: Row, now: int, staleAfterMs: int, visit: Visit, h: string)
    requires row.refundTxHash != Some(h)
    ensures AfterVisit(row, now, staleAfterMs, visit).refundTxHash == Some(h) <==>
              Due(row, now, staleAfterMs) && !visit.blocked && visit.outcome == Success(Some(h)) && h != ""
  {
  }

  /** A refunded order is never due again, whoever refunded it, and neither is one whose ETH was released. */
  lemma SettledOrdersAreNeverDue(row: Row, now: int, staleAfterMs: int)
    ensures row.status == "refunded" || row.status == "eth_tx_sent" || row.status == "completed" ==> !Due(row, now, staleAfterMs)
    ensures row.refundTxHash.Some? && row.refundTxHash.value != "" ==> !Due(row, now, staleAfterMs)
  {
  }

  /** What the release handler and its inline refund write when their submission succeeds, after which no scan refunds the order; otherwise nothing. */
  lemma HandlersWriteTheirAnswer(row: Row, outcome: Outcome, now: int, staleAfterMs: int)
    ensures var claimed, refunded := ConcludeClaim(row, outcome), ConcludeInlineRefund(row, outcome);
            if outcome.Success? then
              && claimed.status == "eth_tx_sent" && claimed.ethTxHash == outcome.txHash && claimed.refundTxHash == row.refundTxHash
              && refunded.status == "refunded" && refunded.refundTxHash == outcome.txHash && refunded.ethTxHash == row.ethTxHash
              && !Due(claimed, now, staleAfterMs) && !Due(refunded, now, staleAfterMs)
            else claimed == row && refunded == row
  {
  }

  /** A noted failure keeps an order from being due for ten minutes, and no longer. */
  lemma FailuresBackOffTenMinutes(row: Row, at: int, now: int, staleAfterMs: int)
    requires at != 0
    ensures Due(row.(watchdogFailedAt := Some(at)), now, staleAfterMs) <==>
              Due(row.(watchdogFailedAt := None), now, staleAfterMs) && now >= at + 10 * 60 * 1000
  {
  }

  /** An order that received its XLM and has neither been settled nor noted as failed. */
  predicate Waiting(row: Row) {
    && row.direction == "xlm_to_eth" && row.stellarTxHash != "" && row.stellarAddress != ""
    && row.status !in {"eth_tx_sent", "completed", "refunded"}
    && row.refundTxHash == None && row.refundedAt == None && row.watchdogFailedAt == None
  }

  /** A waiting order is due exactly from the moment on that it has been stale for long enough. */
  lemma WaitingOrdersComeDue(row: Row, receivedMs: int, now: int, staleAfterMs: int)
    requires Waiting(row) && receivedMs > 1_000_000_000_000
    requires row.xlmReceivedAt == Number(receivedMs) || row.xlmReceivedAt == Text(Some(receivedMs))
    ensures Due(row, now, staleAfterMs) <==> now >= receivedMs + staleAfterMs
  {
  }

  /** Seconds and milliseconds of one moment are judged alike, an unreadable receipt like the creation time, and an undated order never. */
  lemma StampsAreJudgedAlike(row: Row, seconds: int, now: int, staleAfterMs: int)
    requires 1_000_000_000 < seconds <= 1_000_000_000_000
    ensures Due(row.(xlmReceivedAt := Number(seconds)), now, staleAfterMs) <==>
            Due(row.(xlmReceivedAt := Number(1000 * seconds)), now, staleAfterMs)
    ensures Due(row.(xlmReceivedAt := Absent), now, staleAfterMs) <==> Due(row.(xlmReceivedAt := row.created), now, staleAfterMs)
    ensures Due(row.(xlmReceivedAt := Text(None)), now, staleAfterMs) <==> Due(row.(xlmReceivedAt := row.created), now, staleAfterMs)
    ensures !Due(row.(xlmReceivedAt := Absent, created := Absent), now, staleAfterMs)
  {
  }

  // ---- Whole runs of the clients ---------------------------------------------------

  /** The tracker's world and the relayer's in-memory order map. */
  datatype World = World(sys: System, rows: map<string, Row>)

  datatype Event =
    | Track(step: Step)
    | OpenOrder(id: string, row: Row)
    | WatchdogWrites(id: string, answer: nat, at: int)
    | HandlerWrites(id: string, answer: nat)
    | InlineRefundWrites(id: string, answer: nat)

  /** Rows are filed under their own order id. */
  predicate Filed(id: string, row: Row) {
    row.orderId == None || row.orderId == Some("") || row.orderId == Some(id)
  }

  ghost predicate Possible(cfg: Config, w: World, e: Event) {
    match e
    case Track(step) => Enabled(cfg, w.sys, step)
    case OpenOrder(id, row) => Filed(id, row) && row.refundTxHash == None && row.ethTxHash == None
    case WatchdogWrites(id, i, _) =>
      id in w.rows && i < |w.sys.answers| && w.sys.answers[i].key == WatchdogRefundAction(id, w.rows[id])
    case HandlerWrites(id, i) => id in w.rows && i < |w.sys.answers| && w.sys.answers[i].key == ClaimAction(id)
    case InlineRefundWrites(id, i) => id in w.rows && i < |w.sys.answers| && w.sys.answers[i].key == RefundAction(id)
  }

  /** A crash loses the order map; every other write updates one row from one tracker answer. */
  ghost function Next(cfg: Config, w: World, e: Event): World
    requires Possible(cfg, w, e)
  {
    match e
    case Track(step) => World(Apply(cfg, w.sys, step), if step.Crash? || step.CrashInRestage? then map[] else w.rows)
    case OpenOrder(id, row) => w.(rows := w.rows[id := row])
    case WatchdogWrites(id, i, at) => w.(rows := w.rows[id := Conclude(w.rows[id], w.sys.answers[i].outcome, at)])
    case HandlerWrites(id, i) => w.(rows := w.rows[id := ConcludeClaim(w.rows[id], w.sys.answers[i].outcome)])
    case InlineRefundWrites(id, i) => w.(rows := w.rows[id := ConcludeInlineRefund(w.rows[id], w.sys.answers[i].outcome)])
  }

  ghost predicate Lawful(cfg: Config, events: seq<Event>) {
    events == [] ||
    (var n := |events| - 1; Lawful(cfg, events[..n]) && Possible(cfg, Run(cfg, events[..n]), events[n]))
  }

  ghost function Run(cfg: Config, events: seq<Event>): World {
    if events == [] then World(INIT, map[])
    else
      var n := |events| - 1;
      var w := Run(cfg, events[..n]);
      if Possible(cfg, w, events[n]) then Next(cfg, w, events[n]) else w
  }

  /** A hash on a row was reported by the tracker for that very order and action. */
  ghost predicate Reported(s: System, a: Action, h: string) {
    Backed(s, a, Success(Some(h)))
  }

  ghost predicate RowsReported(w: World) {
    forall id :: id in w.rows ==>
      && Filed(id, w.rows[id])
      && (w.rows[id].refundTxHash.Some? ==> Reported(w.sys, RefundAction(id), w.rows[id].refundTxHash.value))
      && (w.rows[id].ethTxHash.Some? ==> Reported(w.sys, ClaimAction(id), w.rows[id].ethTxHash.value))
  }

  lemma AnswerIsBacked(cfg: Config, s: System, i: nat)
    requires Inv(cfg, s) && i < |s.answers|
    ensures Backed(s, s.answers[i].key, s.answers[i].outcome)
  {
  }

  lemma LiveStepKeepsReports(cfg: Config, s: System, step: Step, a: Action, h: string)
    requires Driven(cfg, s) && Enabled(cfg, s, step) && Reported(s, a, h)
    requires step.StageDone? || step.BroadcastDone? || step.PollDone? || step.SleepDone?
    ensures Reported(Apply(cfg, s, step), a, h)
  {
    assert DrivenBy(cfg, s.t, step.op, s.ops[step.op]);
  }

  lemma CrashKeepsReports(s: System, a: Action, h: string)
    requires AllCoupled(s.t.records) && Durable(s.t) && Reported(s, a, h)
    ensures Reported(Crashed(s), a, h)
  {
    RelaySafety.CrashKeepsHeldRecord(s, a);
  }

  /** A reported success stays on record through every step, crashes included. */
  lemma StepKeepsReports(cfg: Config, s: System, step: Step, a: Action, h: string)
    requires cfg.Valid() && Inv(cfg, s) && Enabled(cfg, s, step) && Reported(s, a, h)
    ensures Reported(Apply(cfg, s, step), a, h)
  {
    match step
    case Submit(c, key) => RelaySafety.SubmitKeepsHeldRecord(cfg, s, c, key, a);
    case Crash => CrashKeepsReports(s, a, h);
    case CrashInRestage(key) =>
      BareKeepsInv(cfg, s, key);
      CrashKeepsReports(s.(t := Bare(s.t, key)), a, h);
    case StageDone(_, _) => LiveStepKeepsReports(cfg, s, step, a, h);
    case BroadcastDone(_, _) => LiveStepKeepsReports(cfg, s, step, a, h);
    case PollDone(_, _) => LiveStepKeepsReports(cfg, s, step, a, h);
    case SleepDone(_) => LiveStepKeepsReports(cfg, s, step, a, h);
    case _ =>
  }

  lemma TrackKeepsRows(cfg: Config, w: World, step: Step)
    requires cfg.Valid() && Inv(cfg, w.sys) && RowsReported(w) && Enabled(cfg, w.sys, step)
    ensures RowsReported(Next(cfg, w, Track(step)))
  {
    var w' := Next(cfg, w, Track(step));
    forall a, h | Reported(w.sys, a, h)
      ensures Reported(w'.sys, a, h)
    {
      StepKeepsReports(cfg, w.sys, step, a, h);
    }
  }

  lemma WriteKeepsRows(cfg: Config, w: World, e: Event)
    requires Inv(cfg, w.sys) && RowsReported(w) && !e.Track? && Possible(cfg, w, e)
    ensures RowsReported(Next(cfg, w, e))
  {
    if !e.OpenOrder? {
      AnswerIsBacked(cfg, w.sys, e.answer);
    }
  }

  lemma {:induction false} RunKeepsRows(cfg: Config, events: seq<Event>)
    requires cfg.Valid() && Lawful(cfg, events)
    ensures Inv(cfg, Run(cfg, events).sys) && RowsReported(Run(cfg, events))
  {
    if events != [] {
      var n := |events| - 1;
      var w := Run(cfg, events[..n]);
      RunKeepsRows(cfg, events[..n]);
      if events[n].Track? {
        StepKeepsInv(cfg, w.sys, events[n].step);
        TrackKeepsRows(cfg, w, events[n].step);
      } else {
        WriteKeepsRows(cfg, w, events[n]);
      }
    }
  }

  /**
   * A visit of a scan is an event of these runs: a due order that is not blocked is written
   * from the answer that the tracker gave its refund, any other order is left alone.
   */
  lemma VisitsAreEvents(cfg: Config, w: World, id: string, now: int, staleAfterMs: int, visit: Visit, answer: nat)
    requires id in w.rows && answer < |w.sys.answers|
    requires w.sys.answers[answer].key == WatchdogRefundAction(id, w.rows[id]) && w.sys.answers[answer].outcome == visit.outcome
    ensures var row := w.rows[id];
            var write := WatchdogWrites(id, answer, visit.at);
            if Due(row, now, staleAfterMs) && !visit.blocked then
              && Possible(cfg, w, write)
              && Next(cfg, w, write) == w.(rows := w.rows[id := AfterVisit(row, now, staleAfterMs, visit)])
            else AfterVisit(row, now, staleAfterMs, visit) == row
  {
  }

  /**
   * The scan's question to the tracker only spares work: when the order is blocked, `submit`
   * answers at once, and with an outcome that writes nothing.
   */
  lemma BlockedVisitsWriteNothing(cfg: Config, steps: seq<Step>, c: nat, a: Action, row: Row, at: int)
    requires cfg.Valid() && Legal(cfg, steps) && Enabled(cfg, Exec(cfg, steps), Submit(c, a))
    requires Blocked(Exec(cfg, steps).t.records, a)
    ensures var answers := Apply(cfg, Exec(cfg, steps), Submit(c, a)).answers;
            && |answers| == |Exec(cfg, steps).answers| + 1
            && answers[|answers| - 1].key == a
            && Conclude(row, answers[|answers| - 1].outcome, at) == row
  {
    RunKeepsInv(cfg, steps);
    var s := Exec(cfg, steps);
    BlockedKeysHaveFailed(s, a);
    if Restageable(s, a) {
      ReserveShape(cfg, s, c, a);
      RelaySafety.FreeIffNotBlocked(s.t, a);
    }
  }

  lemma BlockedKeysHaveFailed(s: System, a: Action)
    requires OrderLocked(s.t.records) && Blocked(s.t.records, a)
    ensures a in s.t.records ==> s.t.records[a].status == Failed
    ensures !RelaySafety.OrderIsFree(s.t.records, a)
  {
    var b :| Blocks(s.t.records, b, a);
    assert SameOrder(a, b) && !(b != a && SameOrder(b, a) ==> s.t.records[b].status == Failed);
  }

  /** One order cannot have both its claim and its refund reported. */
  lemma ReportsExcludeEachOther(cfg: Config, s: System, id: string, claimed: string, refunded: string)
    requires Inv(cfg, s)
    ensures !(Reported(s, ClaimAction(id), claimed) && Reported(s, RefundAction(id), refunded))
  {
    assert SameOrder(ClaimAction(id), RefundAction(id));
  }

  /**
   * However scans, release requests and inline refunds overlap, no order ends with both an ETH
   * release hash and a refund hash, and either hash is the one the tracker settled.
   */
  lemma NeverReleasedAndRefunded(cfg: Config, events: seq<Event>, id: string)
    requires cfg.Valid() && Lawful(cfg, events) && id in Run(cfg, events).rows
    ensures var row := Run(cfg, events).rows[id]; row.ethTxHash == None || row.refundTxHash == None
    ensures var w := Run(cfg, events);
            w.rows[id].refundTxHash.Some? ==>
              && RefundAction(id) in w.sys.t.records
              && w.sys.t.records[RefundAction(id)].status == Succeeded
              && w.sys.t.records[RefundAction(id)].txHash == w.rows[id].refundTxHash
    ensures var w := Run(cfg, events);
            w.rows[id].ethTxHash.Some? ==>
              && ClaimAction(id) in w.sys.t.records
              && w.sys.t.records[ClaimAction(id)].status == Succeeded
              && w.sys.t.records[ClaimAction(id)].txHash == w.rows[id].ethTxHash
  {
    RunKeepsRows(cfg, events);
    var w := Run(cfg, events);
    var row := w.rows[id];
    if row.ethTxHash.Some? && row.refundTxHash.Some? {
      ReportsExcludeEachOther(cfg, w.sys, id, row.ethTxHash.value, row.refundTxHash.value);
    }
  }

  /** The watchdog's refund competes with the handler's claim for one order lock exactly when the row is filed under its own id. */
  lemma WatchdogSharesTheOrderLock(id: string, row: Row)
    ensures SameOrder(WatchdogRefundAction(id, row), ClaimAction(id)) <==> Filed(id, row)
    ensures WatchdogRefundAction(id, row) == RefundAction(id) <==> Filed(id, row)
  {
  }
}
