/** The block-window event poller driven by the adaptive loop, and the incoming-payment scan. */
module EventPoller {
  import opened Prelude
  import AdaptivePoll

  /** One `queryFilter` call: which binding, and the inclusive block range. */
  datatype Query = Query(binding: nat, from: int, to: int)

  /** What one tick did to the chain: its queries in order, and whether it reached the end. */
  datatype Tick = Tick(from: int, to: int, queries: seq<Query>, completed: bool)

  /** `head` is the RPC's answer for the block number; `answers(b)` whether the query of binding `b` succeeds. */
  datatype Input = Input(head: Option<int>, answers: nat -> bool)

  function Min(a: int, b: int): int { if a < b then a else b }

  /** The queries of the bindings from `b` on, up to and including the first that fails. */
  function QueriesFrom(hasFilter: seq<bool>, answers: nat -> bool, from: int, to: int, b: nat): seq<Query>
    requires b <= |hasFilter|
    decreases |hasFilter| - b
  {
    if b == |hasFilter| then []
    else if !hasFilter[b] then QueriesFrom(hasFilter, answers, from, to, b + 1)
    else [Query(b, from, to)] + if answers(b) then QueriesFrom(hasFilter, answers, from, to, b + 1) else []
  }

  /** A block that is new, there, and in the window. */
  predicate InReach(block: int, last: int, head: int, window: int) {
    last < block <= head && block <= last + window
  }

  predicate AllAnswer(hasFilter: seq<bool>, answers: nat -> bool) {
    forall b :: 0 <= b < |hasFilter| && hasFilter[b] ==> answers(b)
  }

  /** What a tick at a cursor does, if there is a new block to look at. */
  function TickAt(hasFilter: seq<bool>, window: int, cursor: int, input: Input): Option<Tick> {
    if input.head.None? || input.head.value <= cursor then None
    else
      var to := Min(input.head.value, cursor + window);
      Some(Tick(cursor + 1, to, QueriesFrom(hasFilter, input.answers, cursor + 1, to, 0), AllAnswer(hasFilter, input.answers)))
  }

  function CursorAfter(cursor: int, tick: Option<Tick>): int {
    if tick.Some? && tick.value.completed then tick.value.to else cursor
  }

  /** The guard at the head of `tick`: the flag afterwards, and whether the tick goes on. */
  function EnterTick(isPolling: bool): (bool, bool) { (true, !isPolling) }

  /** The poller's variables and the log of its ticks. */
  class ContractEventPoller {
    const hasFilter: seq<bool>
    const window: int
    var lastProcessed: int
    var isPolling: bool
    ghost var ticks: seq<Tick>

    constructor (hasFilter: seq<bool>, window: Option<int>, start: int)
      ensures lastProcessed == start && !isPolling && ticks == []
      ensures this.hasFilter == hasFilter && this.window == if window.Some? then window.value else 500
    {
      this.hasFilter := hasFilter;
      this.window := if window.Some? then window.value else 500;
      lastProcessed, isPolling, ticks := start, false, [];
    }

    /** `tick` up to its first await: the re-entrancy guard. */
    method BeginTick() returns (entered: bool)
      modifies `isPolling
      ensures (isPolling, entered) == EnterTick(old(isPolling))
    {
      if isPolling {
        return false;
      }
      isPolling := true;
      entered := true;
    }

    /** A tick that entered, from its first await to its end. */
    method FinishTick(input: Input) returns (queries: seq<Query>)
      requires isPolling
      modifies this
      ensures !isPolling
      ensures var tick := TickAt(hasFilter, window, old(lastProcessed), input);
              && lastProcessed == CursorAfter(old(lastProcessed), tick)
              && ticks == (if tick.Some? then old(ticks) + [tick.value] else old(ticks))
              && queries == if tick.Some? then tick.value.queries else []
    {
      queries := [];
      if input.head.Some? && input.head.value > lastProcessed {
        var from := lastProcessed + 1;
        var to := if input.head.value < from + window - 1 then input.head.value else from + window - 1;
        var failed := false;
        var b := 0;
        while b < |hasFilter| && !failed
          invariant 0 <= b <= |hasFilter|
          invariant !failed ==>
                      && queries + QueriesFrom(hasFilter, input.answers, from, to, b) == QueriesFrom(hasFilter, input.answers, from, to, 0)
                      && forall i :: 0 <= i < b && hasFilter[i] ==> input.answers(i)
          invariant failed ==>
                      queries == QueriesFrom(hasFilter, input.answers, from, to, 0) && !AllAnswer(hasFilter, input.answers)
        {
          if hasFilter[b] {
            queries := queries + [Query(b, from, to)];
            failed := !input.answers(b);
          }
          b := b + 1;
        }
        assert queries + [] == queries;
        assert failed == !AllAnswer(hasFilter, input.answers);
        ticks := ticks + [Tick(from, to, queries, !failed)];
        if !failed {
          lastProcessed := to;
        }
      }
      isPolling := false;
    }
  }

  // ---- Whole runs -----------------------------------------------------------------

  datatype Poller = Poller(cursor: int, ticks: seq<Tick>)

  function Run(hasFilter: seq<bool>, window: int, start: int, inputs: seq<Input>): Poller {
    if inputs == [] then Poller(start, [])
    else
      var p := Run(hasFilter, window, start, inputs[..|inputs| - 1]);
      var tick := TickAt(hasFilter, window, p.cursor, inputs[|inputs| - 1]);
      Poller(CursorAfter(p.cursor, tick), if tick.Some? then p.ticks + [tick.value] else p.ticks)
  }

  /** Every queried binding and range of a tick, and for a completed one every binding there is. */
  ghost predicate TickIsWhole(hasFilter: seq<bool>, t: Tick) {
    && (forall q :: q in t.queries ==> q.binding < |hasFilter| && hasFilter[q.binding] && q.from == t.from && q.to == t.to)
    && (t.completed ==> forall b :: 0 <= b < |hasFilter| && hasFilter[b] ==> Query(b, t.from, t.to) in t.queries)
    && (forall i, j :: 0 <= i < j < |t.queries| ==> t.queries[i].binding < t.queries[j].binding)
  }

  lemma {:induction false} QueriesAreInOrder(hasFilter: seq<bool>, answers: nat -> bool, from: int, to: int, b: nat)
    requires b <= |hasFilter|
    ensures var qs := QueriesFrom(hasFilter, answers, from, to, b);
            && (forall q :: q in qs ==> b <= q.binding < |hasFilter| && hasFilter[q.binding] && q.from == from && q.to == to)
            && (forall i, j :: 0 <= i < j < |qs| ==> qs[i].binding < qs[j].binding)
    decreases |hasFilter| - b
  {
    if b < |hasFilter| {
      QueriesAreInOrder(hasFilter, answers, from, to, b + 1);
      var rest := QueriesFrom(hasFilter, answers, from, to, b + 1);
      assert forall i :: 0 <= i < |rest| ==> rest[i] in rest && b < rest[i].binding;
    }
  }

  lemma {:induction false} QueriesAreComplete(hasFilter: seq<bool>, answers: nat -> bool, from: int, to: int, b: nat, binding: nat)
    requires b <= binding < |hasFilter| && hasFilter[binding] && AllAnswer(hasFilter, answers)
    ensures Query(binding, from, to) in QueriesFrom(hasFilter, answers, from, to, b)
    decreases |hasFilter| - b
  {
    if b < binding {
      QueriesAreComplete(hasFilter, answers, from, to, b + 1, binding);
    }
  }

  lemma TicksAreWhole(hasFilter: seq<bool>, window: int, cursor: int, input: Input)
    ensures var tick := TickAt(hasFilter, window, cursor, input); tick.Some? ==> TickIsWhole(hasFilter, tick.value)
  {
    var tick := TickAt(hasFilter, window, cursor, input);
    if tick.Some? {
      var t := tick.value;
      QueriesAreInOrder(hasFilter, input.answers, t.from, t.to, 0);
      forall b | 0 <= b < |hasFilter| && hasFilter[b] && t.completed
        ensures Query(b, t.from, t.to) in t.queries
      {
        QueriesAreComplete(hasFilter, input.answers, t.from, t.to, 0, b);
      }
    }
  }

  /** The blocks a run has finished, tick by tick: where tick `i` had to start. */
  function Frontier(start: int, ticks: seq<Tick>): int {
    if ticks == [] then start
    else if ticks[|ticks| - 1].completed then ticks[|ticks| - 1].to
    else Frontier(start, ticks[..|ticks| - 1])
  }

  /** Tick `i` starts right after the finished blocks, stays within one window, and is whole. */
  ghost predicate Placed(hasFilter: seq<bool>, window: int, start: int, ticks: seq<Tick>, i: nat)
    requires i < |ticks|
  {
    && ticks[i].from == Frontier(start, ticks[..i]) + 1
    && ticks[i].from <= ticks[i].to < ticks[i].from + window
    && TickIsWhole(hasFilter, ticks[i])
  }

  lemma AppendKeepsPlaces(hasFilter: seq<bool>, window: int, start: int, ticks: seq<Tick>, t: Tick)
    requires forall i :: 0 <= i < |ticks| ==> Placed(hasFilter, window, start, ticks, i)
    requires t.from == Frontier(start, ticks) + 1 && t.from <= t.to < t.from + window && TickIsWhole(hasFilter, t)
    ensures forall i :: 0 <= i < |ticks| + 1 ==> Placed(hasFilter, window, start, ticks + [t], i)
    ensures Frontier(start, ticks + [t]) == if t.completed then t.to else Frontier(start, ticks)
  {
    assert (ticks + [t])[..|ticks|] == ticks;
    forall i | 0 <= i < |ticks|
      ensures Placed(hasFilter, window, start, ticks + [t], i)
    {
      assert Placed(hasFilter, window, start, ticks, i);
      assert (ticks + [t])[..i] == ticks[..i];
    }
  }

  /**
   * Coverage: each tick starts right after the blocks already finished and stays within one
   * window, a completed tick queried every binding over its whole range, and the cursor is
   * exactly how far completed ticks reach. So completed windows tile (start, cursor].
   */
  lemma {:induction false} PollsCoverEveryBlock(hasFilter: seq<bool>, window: int, start: int, inputs: seq<Input>)
    requires window >= 1
    ensures var p := Run(hasFilter, window, start, inputs);
            && p.cursor == Frontier(start, p.ticks) && start <= p.cursor
            && forall i :: 0 <= i < |p.ticks| ==> Placed(hasFilter, window, start, p.ticks, i)
  {
    if inputs != [] {
      var n := |inputs| - 1;
      PollsCoverEveryBlock(hasFilter, window, start, inputs[..n]);
      var before := Run(hasFilter, window, start, inputs[..n]);
      var tick := TickAt(hasFilter, window, before.cursor, inputs[n]);
      if tick.Some? {
        TicksAreWhole(hasFilter, window, before.cursor, inputs[n]);
        AppendKeepsPlaces(hasFilter, window, start, before.ticks, tick.value);
      }
    }
  }

  /** Later ticks start no earlier, and beyond every block a completed tick covered. */
  lemma {:induction false} FrontierGrows(hasFilter: seq<bool>, window: int, start: int, ticks: seq<Tick>, i: nat, j: nat)
    requires i <= j <= |ticks|
    requires forall k :: 0 <= k < |ticks| ==> Placed(hasFilter, window, start, ticks, k)
    ensures Frontier(start, ticks[..i]) <= Frontier(start, ticks[..j])
    ensures i < j && ticks[i].completed ==> ticks[i].to <= Frontier(start, ticks[..j])
  {
    if i < j {
      FrontierGrows(hasFilter, window, start, ticks, i, j - 1);
      assert Placed(hasFilter, window, start, ticks, j - 1);
      assert ticks[..j][..j - 1] == ticks[..j - 1];
    }
  }

  /** A completed tick looked at the block. */
  predicate Covers(ticks: seq<Tick>, i: nat, block: int) {
    i < |ticks| && ticks[i].completed && ticks[i].from <= block <= ticks[i].to
  }

  lemma {:induction false} FinishedBlocksAreCovered(hasFilter: seq<bool>, window: int, start: int, ticks: seq<Tick>, block: int)
    requires forall i :: 0 <= i < |ticks| ==> Placed(hasFilter, window, start, ticks, i)
    requires start < block <= Frontier(start, ticks)
    ensures exists i: nat :: Covers(ticks, i, block)
  {
    var n := |ticks| - 1;
    assert Placed(hasFilter, window, start, ticks, n);
    if ticks[n].completed && ticks[n].from <= block {
      assert Covers(ticks, n, block);
    } else {
      forall i | 0 <= i < n
        ensures Placed(hasFilter, window, start, ticks[..n], i)
      {
        assert Placed(hasFilter, window, start, ticks, i) && ticks[..n][..i] == ticks[..i];
      }
      FinishedBlocksAreCovered(hasFilter, window, start, ticks[..n], block);
      var i: nat :| Covers(ticks[..n], i, block);
      assert Covers(ticks, i, block);
    }
  }

  lemma CoveredBlocksAreFinished(hasFilter: seq<bool>, window: int, start: int, ticks: seq<Tick>, i: nat, j: nat, block: int)
    requires forall k :: 0 <= k < |ticks| ==> Placed(hasFilter, window, start, ticks, k)
    requires Covers(ticks, i, block)
    ensures start < block <= Frontier(start, ticks)
    ensures i < j ==> !Covers(ticks, j, block)
  {
    assert Placed(hasFilter, window, start, ticks, i) && ticks[..|ticks|] == ticks;
    assert ticks[..0] == [];
    FrontierGrows(hasFilter, window, start, ticks, 0, i);
    FrontierGrows(hasFilter, window, start, ticks, i, |ticks|);
    if i < j < |ticks| {
      assert Placed(hasFilter, window, start, ticks, j);
      FrontierGrows(hasFilter, window, start, ticks, i, j);
    }
  }

  /**
   * A block lies in (start, cursor] exactly when a completed tick looked at it; that is one
   * tick only, and it asked every binding for the block.
   */
  lemma EveryBlockIsCoveredOnce(hasFilter: seq<bool>, window: int, start: int, inputs: seq<Input>, block: int)
    requires window >= 1
    ensures var p := Run(hasFilter, window, start, inputs);
            && (start < block <= p.cursor <==> exists i: nat :: Covers(p.ticks, i, block))
            && (forall i: nat, j: nat :: Covers(p.ticks, i, block) && Covers(p.ticks, j, block) ==> i == j)
            && (forall i: nat :: Covers(p.ticks, i, block) ==>
                  forall b :: 0 <= b < |hasFilter| && hasFilter[b] ==> Query(b, p.ticks[i].from, p.ticks[i].to) in p.ticks[i].queries)
  {
    var p := Run(hasFilter, window, start, inputs);
    PollsCoverEveryBlock(hasFilter, window, start, inputs);
    if start < block <= p.cursor {
      FinishedBlocksAreCovered(hasFilter, window, start, p.ticks, block);
    }
    forall i: nat, j: nat | Covers(p.ticks, i, block) && Covers(p.ticks, j, block)
      ensures i == j && start < block <= p.cursor
    {
      CoveredBlocksAreFinished(hasFilter, window, start, p.ticks, i, j, block);
      CoveredBlocksAreFinished(hasFilter, window, start, p.ticks, j, i, block);
    }
    forall i: nat | Covers(p.ticks, i, block)
      ensures TickIsWhole(hasFilter, p.ticks[i])
    {
      assert Placed(hasFilter, window, start, p.ticks, i);
    }
  }

  /** The cursor never moves back, and moves on over a new block exactly when every query answers. */
  lemma CursorIsMonotone(hasFilter: seq<bool>, window: int, start: int, inputs: seq<Input>, input: Input)
    requires window >= 1
    ensures var p, p' := Run(hasFilter, window, start, inputs), Run(hasFilter, window, start, inputs + [input]);
            && p.cursor <= p'.cursor
            && (p.cursor < p'.cursor <==> input.head.Some? && input.head.value > p.cursor && AllAnswer(hasFilter, input.answers))
  {
    assert (inputs + [input])[..|inputs|] == inputs;
  }

  /**
   * Redelivery is confined to unfinished windows: if two ticks ask for a common block, every
   * completed tick from the earlier one on ended before that block; in particular the earlier
   * one failed. A finished block is never asked for again.
   */
  lemma OnlyUnfinishedWindowsRepeat(hasFilter: seq<bool>, window: int, start: int, inputs: seq<Input>, i: nat, j: nat, block: int)
    requires window >= 1
    requires var ticks := Run(hasFilter, window, start, inputs).ticks;
             i < j < |ticks| && ticks[i].from <= block <= ticks[i].to && ticks[j].from <= block <= ticks[j].to
    ensures var ticks := Run(hasFilter, window, start, inputs).ticks;
            !ticks[i].completed && forall k :: i <= k < j && ticks[k].completed ==> ticks[k].to < block
  {
    PollsCoverEveryBlock(hasFilter, window, start, inputs);
    var ticks := Run(hasFilter, window, start, inputs).ticks;
    assert Placed(hasFilter, window, start, ticks, j);
    forall k | i <= k < j && ticks[k].completed
      ensures ticks[k].to < block
    {
      FrontierGrows(hasFilter, window, start, ticks, k, j);
    }
  }

  /** A tick takes every new block up to the head that its window holds, and there is one exactly when there is a new block. */
  lemma TicksReachTheHead(hasFilter: seq<bool>, window: int, cursor: int, input: Input)
    ensures var tick := TickAt(hasFilter, window, cursor, input);
            && (tick.Some? <==> input.head.Some? && input.head.value > cursor)
            && (tick.Some? ==>
                  && tick.value.from == cursor + 1 && tick.value.to <= input.head.value && tick.value.to <= cursor + window
                  && (forall b :: InReach(b, cursor, input.head.value, window) ==> b <= tick.value.to)
                  && (tick.value.completed <==> forall b :: 0 <= b < |hasFilter| && hasFilter[b] ==> input.answers(b)))
  {
  }

  /** A window of at least one block is exactly what progress over new blocks needs. */
  lemma WindowMustHoldABlock(hasFilter: seq<bool>, window: int)
    ensures (forall cursor, head, answers ::
               head > cursor && AllAnswer(hasFilter, answers) ==>
                 CursorAfter(cursor, TickAt(hasFilter, window, cursor, Input(Some(head), answers))) > cursor)
            <==> window >= 1
  {
    if window < 1 {
      var answers: nat -> bool := b => true;
      assert AllAnswer(hasFilter, answers);
      assert CursorAfter(0, TickAt(hasFilter, window, 0, Input(Some(1), answers))) <= 0;
    }
  }

  // ---- The poller under the adaptive loop -----------------------------------------

  /** The poller's flag over a run of the loop, and whether the last tick that the loop started got past the guard. */
  ghost function GuardAfter(c: AdaptivePoll.Cadence, events: seq<AdaptivePoll.Event>): (bool, bool) {
    if events == [] then (false, false)
    else
      var n := |events| - 1;
      var before := GuardAfter(c, events[..n]);
      if AdaptivePoll.Starts(AdaptivePoll.Exec(c, events[..n]), events[n]) then EnterTick(before.0)
      else if events[n].TickDone? && before.1 then (false, true)
      else before
  }

  /** Over any run of the loop, with ticks suspended as long as they like, each tick that starts gets past the guard. */
  lemma {:induction false} ReentrancyGuardNeverFires(c: AdaptivePoll.Cadence, events: seq<AdaptivePoll.Event>, e: AdaptivePoll.Event)
    requires AdaptivePoll.Legal(c, events)
    ensures var l := AdaptivePoll.Exec(c, events);
            var (isPolling, entered) := GuardAfter(c, events);
            && isPolling == l.running && (l.running ==> entered)
            && (AdaptivePoll.Starts(l, e) ==> EnterTick(isPolling).1)
  {
    if events != [] {
      var n := |events| - 1;
      ReentrancyGuardNeverFires(c, events[..n], events[n]);
    }
  }

  // ---- Incoming payments ----------------------------------------------------------

  /** A block's transaction entries: a bare hash, or a prefetched transaction. */
  datatype Entry = HashOnly | Transaction(hash: string, from: string, to: Option<string>, value: int)

  datatype Payment = Payment(hash: string, from: string, value: int, blockNumber: int)

  /** `Missing` stands for a block the provider returns null for. */
  datatype Block = Missing | Block(entries: seq<Entry>)

  predicate Pays(e: Entry, relayer: string) {
    e.Transaction? && e.to.Some? && e.to.value != "" && ToLower(e.to.value) == ToLower(relayer) && e.value > 0
  }

  function PaymentsOf(entries: seq<Entry>, relayer: string, number: int): seq<Payment> {
    if entries == [] then []
    else
      var n := |entries| - 1;
      PaymentsOf(entries[..n], relayer, number)
      + if Pays(entries[n], relayer) then [Payment(entries[n].hash, entries[n].from, entries[n].value, number)] else []
  }

  function PaymentsIn(chain: int -> Block, relayer: string, after: int, upTo: int): seq<Payment>
    decreases upTo - after
  {
    if upTo <= after then []
    else PaymentsIn(chain, relayer, after, upTo - 1) + if chain(upTo).Block? then PaymentsOf(chain(upTo).entries, relayer, upTo) else []
  }

  /** What the provider answers during one scan: the block number, and whether each `getBlock` resolves. */
  datatype Provider = Provider(head: Option<int>, answers: int -> bool)

  /** The cursor that a scan returns; None is a provider error, which aborts the scan. */
  function ScanTo(provider: Provider, last: int, window: int): Option<int> {
    if provider.head.None? then None
    else if provider.head.value <= last then Some(last)
    else
      var cursor := Min(provider.head.value, last + window);
      if forall n :: last < n <= cursor ==> provider.answers(n) then Some(cursor) else None
  }

  /** The loop over one block's entries. */
  method CollectPayments(entries: seq<Entry>, relayer: string, number: int, before: seq<Payment>) returns (payments: seq<Payment>)
    ensures payments == before + PaymentsOf(entries, relayer, number)
  {
    payments := before;
    for i := 0 to |entries|
      invariant payments == before + PaymentsOf(entries[..i], relayer, number)
    {
      assert entries[..i + 1][..i] == entries[..i];
      if Pays(entries[i], relayer) {
        payments := payments + [Payment(entries[i].hash, entries[i].from, entries[i].value, number)];
      }
    }
    assert entries[..|entries|] == entries;
  }

  method FetchIncomingEthPayments(chain: int -> Block, provider: Provider, relayer: string, last: int, window: int)
    returns (payments: seq<Payment>, cursor: Option<int>)
    ensures cursor == ScanTo(provider, last, window)
    ensures cursor.Some? ==> payments == PaymentsIn(chain, relayer, last, cursor.value)
  {
    if provider.head.None? {
      return [], None;
    }
    var head := provider.head.value;
    if head <= last {
      return [], Some(last);
    }
    var from := last + 1;
    var to := if head < from + window - 1 then head else from + window - 1;
    payments := [];
    var number := from;
    while number <= to
      invariant from <= number && (number <= to + 1 || number == from)
      invariant payments == PaymentsIn(chain, relayer, last, number - 1)
      invariant forall n :: last < n < number ==> provider.answers(n)
    {
      if !provider.answers(number) {
        return [], None;
      }
      if chain(number).Block? {
        payments := CollectPayments(chain(number).entries, relayer, number, payments);
      }
      number := number + 1;
    }
    cursor := Some(to);
  }

  /** The entry is a transaction of this hash, sender and value, at least one wei, to the relayer's address in any letter case. */
  predicate Transfers(entries: seq<Entry>, i: nat, relayer: string, p: Payment)
    requires i < |entries|
  {
    match entries[i]
    case Transaction(hash, from, Some(to), value) =>
      to != "" && SameLetters(to, relayer) && value >= 1 && p == Payment(hash, from, value, p.blockNumber)
    case _ => false
  }

  lemma PaysIsATransfer(entries: seq<Entry>, i: nat, relayer: string, p: Payment)
    requires i < |entries|
    ensures Transfers(entries, i, relayer, p) <==>
            Pays(entries[i], relayer) && entries[i].hash == p.hash && entries[i].from == p.from && entries[i].value == p.value
  {
    if entries[i].Transaction? && entries[i].to.Some? {
      LowerCaseForgetsCase(entries[i].to.value, relayer);
    }
  }

  ghost predicate HoldsTransfer(entries: seq<Entry>, relayer: string, p: Payment) {
    exists i :: 0 <= i < |entries| && Transfers(entries, i, relayer, p)
  }

  lemma OneMoreEntry(entries: seq<Entry>, relayer: string, p: Payment)
    requires entries != []
    ensures var n := |entries| - 1;
            HoldsTransfer(entries, relayer, p) <==> HoldsTransfer(entries[..n], relayer, p) || Transfers(entries, n, relayer, p)
  {
    var n := |entries| - 1;
    assert forall i :: 0 <= i < n ==> Transfers(entries[..n], i, relayer, p) == Transfers(entries, i, relayer, p);
  }

  lemma {:induction false} PaymentsOfABlock(entries: seq<Entry>, relayer: string, number: int, p: Payment)
    ensures p in PaymentsOf(entries, relayer, number) <==> p.blockNumber == number && HoldsTransfer(entries, relayer, p)
  {
    if entries != [] {
      PaymentsOfABlock(entries[..|entries| - 1], relayer, number, p);
      OneMoreEntry(entries, relayer, p);
      PaysIsATransfer(entries, |entries| - 1, relayer, p);
    }
  }

  /** The block of the payment holds a transfer of it. */
  ghost predicate Mined(chain: int -> Block, relayer: string, p: Payment) {
    chain(p.blockNumber).Block? && HoldsTransfer(chain(p.blockNumber).entries, relayer, p)
  }

  lemma PaymentsOfOneMore(chain: int -> Block, relayer: string, number: int, p: Payment)
    ensures (chain(number).Block? && p in PaymentsOf(chain(number).entries, relayer, number)) <==>
            p.blockNumber == number && Mined(chain, relayer, p)
  {
    if chain(number).Block? {
      PaymentsOfABlock(chain(number).entries, relayer, number, p);
    }
  }

  /** A payment is reported for a range exactly when some block in it holds its transfer to the relayer. */
  lemma {:induction false} PaymentsAreTheTransfers(chain: int -> Block, relayer: string, after: int, upTo: int, p: Payment)
    ensures p in PaymentsIn(chain, relayer, after, upTo) <==> after < p.blockNumber <= upTo && Mined(chain, relayer, p)
    decreases upTo - after
  {
    if after < upTo {
      PaymentsAreTheTransfers(chain, relayer, after, upTo - 1, p);
      PaymentsOfOneMore(chain, relayer, upTo, p);
    }
  }

  /** Every block that is both there and in the window answers. */
  ghost predicate Answers(provider: Provider, last: int, window: int)
    requires provider.head.Some?
  {
    forall b :: InReach(b, last, provider.head.value, window) ==> provider.answers(b)
  }

  /**
   * How far a scan reaches: with nothing new it stays, and else to the last block that is
   * both there and in the window; it fails exactly if one of those does not answer.
   */
  lemma ScansReachTheHead(provider: Provider, last: int, window: int)
    ensures var cursor := ScanTo(provider, last, window);
            && (cursor.Some? <==> provider.head.Some? && Answers(provider, last, window))
            && (cursor.Some? && provider.head.value <= last ==> cursor.value == last)
            && (cursor.Some? && provider.head.value > last ==>
                  && cursor.value <= provider.head.value && cursor.value <= last + window
                  && (forall b :: InReach(b, last, provider.head.value, window) ==> b <= cursor.value))
  {
  }

  /** Every transfer mined after the cursor, up to the head and within the window, is reported by the very next scan that is answered. */
  lemma MinedTransfersAreReported(chain: int -> Block, relayer: string, provider: Provider, last: int, window: int, p: Payment)
    requires provider.head.Some? && Answers(provider, last, window)
    requires InReach(p.blockNumber, last, provider.head.value, window) && Mined(chain, relayer, p)
    ensures var cursor := ScanTo(provider, last, window);
            cursor.Some? && p in PaymentsIn(chain, relayer, last, cursor.value)
  {
    ScansReachTheHead(provider, last, window);
    PaymentsAreTheTransfers(chain, relayer, last, ScanTo(provider, last, window).value, p);
  }

  /** Scans make progress over new blocks exactly when the window holds at least one. */
  lemma ScanWindowMustHoldABlock(window: int)
    ensures (forall provider: Provider, last: int ::
               provider.head.Some? && provider.head.value > last && Answers(provider, last, window) ==>
                 ScanTo(provider, last, window).Some? && ScanTo(provider, last, window).value > last)
            <==> window >= 1
  {
    if window < 1 {
      var provider := Provider(Some(1), n => true);
      assert Answers(provider, 0, window);
      assert ScanTo(provider, 0, window).Some? ==> ScanTo(provider, 0, window).value <= 0;
    }
  }

  lemma {:induction false} RangesConcatenate(chain: int -> Block, relayer: string, a: int, b: int, c: int)
    requires a <= b <= c
    ensures PaymentsIn(chain, relayer, a, b) + PaymentsIn(chain, relayer, b, c) == PaymentsIn(chain, relayer, a, c)
    decreases c - b
  {
    if b < c {
      RangesConcatenate(chain, relayer, a, b, c - 1);
    }
  }

  /** Scanning again and again from the last cursor that was returned. */
  function ScanCursor(scans: seq<Provider>, start: int, window: int): int {
    if scans == [] then start
    else
      var last := ScanCursor(scans[..|scans| - 1], start, window);
      var cursor := ScanTo(scans[|scans| - 1], last, window);
      if cursor.Some? then cursor.value else last
  }

  /** The payments that the scans handed over, in order. */
  function ScanPayments(chain: int -> Block, relayer: string, scans: seq<Provider>, start: int, window: int): seq<Payment> {
    if scans == [] then []
    else
      var rest := scans[..|scans| - 1];
      var last := ScanCursor(rest, start, window);
      var cursor := ScanTo(scans[|scans| - 1], last, window);
      ScanPayments(chain, relayer, rest, start, window)
      + if cursor.Some? then PaymentsIn(chain, relayer, last, cursor.value) else []
  }

  /**
   * Over any heads and any provider errors, the chunked scans concatenate to one scan of the
   * whole range: no payment missed, none twice.
   */
  lemma {:induction false} ChunkedScanIsOneScan(chain: int -> Block, relayer: string, scans: seq<Provider>, start: int, window: int)
    requires window >= 1
    ensures start <= ScanCursor(scans, start, window)
    ensures ScanPayments(chain, relayer, scans, start, window) == PaymentsIn(chain, relayer, start, ScanCursor(scans, start, window))
  {
    if scans != [] {
      var rest := scans[..|scans| - 1];
      ChunkedScanIsOneScan(chain, relayer, rest, start, window);
      RangesConcatenate(chain, relayer, start, ScanCursor(rest, start, window), ScanCursor(scans, start, window));
    }
  }
}
