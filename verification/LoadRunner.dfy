/** The load runner: a token bucket shared by workers that drain one queue. */
module LoadRunner {
  import opened Prelude

  // ---- Token bucket ---------------------------------------------------------------

  /** Token counts are reals; times are milliseconds. */
  datatype Bucket = Bucket(tokens: real, lastRefill: int)

  /** What a rate of `perSec` per second earns in `ms`. */
  function Earned(perSec: real, ms: int): real { ms as real / 1000.0 * perSec }

  function Refilled(perSec: real, b: Bucket, now: int): real {
    var tokens := b.tokens + Earned(perSec, now - b.lastRefill);
    if perSec < tokens then perSec else tokens
  }

  /** One turn of the `acquire` loop: refill, then take a token if there is one. */
  function Turn(perSec: real, b: Bucket, now: int): (Bucket, bool) {
    var tokens := Refilled(perSec, b, now);
    if tokens >= 1.0 then (Bucket(tokens - 1.0, now), true) else (Bucket(tokens, now), false)
  }

  /** After sleeping `ms` the bucket's shortfall has been earned. */
  predicate Covers(perSec: real, b: Bucket, ms: int) {
    b.tokens + Earned(perSec, ms) >= 1.0
  }

  class RateLimiter {
    const perSec: real
    var tokens: real
    var lastRefill: int

    ghost function State(): Bucket
      reads this
    {
      Bucket(tokens, lastRefill)
    }

    constructor (perSec: real, now: int)
      ensures State() == Bucket(perSec, now) && this.perSec == perSec
    {
      this.perSec := perSec;
      tokens, lastRefill := perSec, now;
    }

    /** A turn; `waitMs` is how long the caller sleeps before its next one, the least that covers its shortfall. */
    method TakeTurn(now: int) returns (granted: bool, waitMs: int)
      requires perSec > 0.0
      modifies `tokens, `lastRefill
      ensures (State(), granted) == Turn(perSec, old(State()), now)
      ensures !granted ==> Covers(perSec, State(), waitMs) && !Covers(perSec, State(), waitMs - 1)
    {
      var refilled := tokens + Earned(perSec, now - lastRefill);
      tokens := if perSec < refilled then perSec else refilled;
      lastRefill := now;
      if tokens >= 1.0 {
        tokens := tokens - 1.0;
        return true, 0;
      }
      var exact := (1.0 - tokens) / perSec * 1000.0;
      waitMs := -(-exact).Floor;
      CoversMeansLongEnough(perSec, tokens, waitMs);
      CoversMeansLongEnough(perSec, tokens, waitMs - 1);
      granted := false;
    }
  }

  lemma CoversMeansLongEnough(perSec: real, tokens: real, ms: int)
    requires perSec > 0.0
    ensures tokens + Earned(perSec, ms) >= 1.0 <==> ms as real >= (1.0 - tokens) / perSec * 1000.0
  {
    var missing, seconds := (1.0 - tokens) / perSec, ms as real / 1000.0;
    assert missing * perSec == 1.0 - tokens;
    assert seconds >= missing <==> seconds * perSec >= missing * perSec;
  }

  lemma EarnedIsNonNegative(perSec: real, ms: int)
    requires perSec > 0.0 && ms >= 0
    ensures Earned(perSec, ms) >= 0.0
  {
  }

  lemma EarnedAdds(perSec: real, a: int, b: int)
    ensures Earned(perSec, a + b) == Earned(perSec, a) + Earned(perSec, b)
  {
    assert (a + b) as real / 1000.0 == a as real / 1000.0 + b as real / 1000.0;
  }

  ghost predicate Monotone(start: int, times: seq<int>) {
    (forall i, j :: 0 <= i <= j < |times| ==> times[i] <= times[j]) && (times != [] ==> start <= times[0])
  }

  /** The bucket after the first `n` turns, whichever workers took them. */
  function BucketAfter(perSec: real, start: int, times: seq<int>, n: nat): Bucket
    requires n <= |times|
  {
    if n == 0 then Bucket(perSec, start) else Turn(perSec, BucketAfter(perSec, start, times, n - 1), times[n - 1]).0
  }

  /** How many of the turns from `i` up to `j` got a token. */
  function Grants(perSec: real, start: int, times: seq<int>, i: nat, j: nat): nat
    requires i <= j <= |times|
    decreases j
  {
    if i == j then 0
    else
      Grants(perSec, start, times, i, j - 1)
      + if Turn(perSec, BucketAfter(perSec, start, times, j - 1), times[j - 1]).1 then 1 else 0
  }

  /** A turn spends at most what the bucket held and earned, and at most a full bucket. */
  lemma TurnSpends(perSec: real, b: Bucket, now: int)
    requires perSec > 0.0 && b.tokens >= 0.0 && b.lastRefill <= now
    ensures var (b', granted) := Turn(perSec, b, now);
            var spent := if granted then 1.0 else 0.0;
            && b'.lastRefill == now && b'.tokens >= 0.0
            && b'.tokens + spent <= perSec
            && b'.tokens + spent <= b.tokens + Earned(perSec, now - b.lastRefill)
  {
    EarnedIsNonNegative(perSec, now - b.lastRefill);
  }

  lemma {:induction false} BucketNeverOverdrawn(perSec: real, start: int, times: seq<int>, n: nat)
    requires perSec > 0.0 && n <= |times| && Monotone(start, times)
    ensures var b := BucketAfter(perSec, start, times, n);
            b.tokens >= 0.0 && b.lastRefill == if n == 0 then start else times[n - 1]
  {
    if n > 0 {
      BucketNeverOverdrawn(perSec, start, times, n - 1);
      TurnSpends(perSec, BucketAfter(perSec, start, times, n - 1), times[n - 1]);
    }
  }

  lemma {:induction false} TurnsSpendWhatWasEarned(perSec: real, start: int, times: seq<int>, i: nat, j: nat)
    requires perSec > 0.0 && i < j <= |times| && Monotone(start, times)
    ensures BucketAfter(perSec, start, times, j).tokens + Grants(perSec, start, times, i, j) as real
            <= perSec + Earned(perSec, times[j - 1] - times[i])
    decreases j
  {
    var before := BucketAfter(perSec, start, times, j - 1);
    BucketNeverOverdrawn(perSec, start, times, j - 1);
    TurnSpends(perSec, before, times[j - 1]);
    if i == j - 1 {
      assert Grants(perSec, start, times, i, i) == 0;
      EarnedIsNonNegative(perSec, 0);
    } else {
      TurnsSpendWhatWasEarned(perSec, start, times, i, j - 1);
      EarnedAdds(perSec, times[j - 2] - times[i], times[j - 1] - times[j - 2]);
    }
  }

  /**
   * Rate bound: in any interval of a run, however the workers' turns interleave, the tokens
   * granted are at most perSec plus perSec times the interval's length.
   */
  lemma RateIsBounded(perSec: real, start: int, times: seq<int>, i: nat, j: nat, from: int, upTo: int)
    requires perSec > 0.0 && i <= j <= |times| && Monotone(start, times)
    requires from <= upTo && (i < j ==> from <= times[i] && times[j - 1] <= upTo)
    ensures Grants(perSec, start, times, i, j) as real <= perSec + Earned(perSec, upTo - from)
  {
    if i == j {
      EarnedIsNonNegative(perSec, upTo - from);
    } else {
      var length := times[j - 1] - times[i];
      TurnsSpendWhatWasEarned(perSec, start, times, i, j);
      BucketNeverOverdrawn(perSec, start, times, j);
      EarnedAdds(perSec, length, upTo - from - length);
      EarnedIsNonNegative(perSec, upTo - from - length);
    }
  }

  /** A lone caller that sleeps as told gets its token on the next turn exactly when the rate is at least one per second. */
  lemma WaitingPaysOff(perSec: real, b: Bucket, now: int, waitMs: int, later: int)
    requires perSec > 0.0
    requires var (refused, granted) := Turn(perSec, b, now); !granted && Covers(perSec, refused, waitMs)
    requires later >= now + waitMs
    ensures Turn(perSec, Turn(perSec, b, now).0, later).1 <==> perSec >= 1.0
  {
    EarnedIsNonNegative(perSec, later - now - waitMs);
    EarnedAdds(perSec, waitMs, later - now - waitMs);
  }

  /** Turns that grant nothing leave the bucket with all that was earned since, up to a full one. */
  lemma {:induction false} TokensPileUp(perSec: real, start: int, times: seq<int>, i: nat, j: nat)
    requires perSec > 0.0 && i < j <= |times| && Monotone(start, times) && Grants(perSec, start, times, i, j) == 0
    ensures var piled := BucketAfter(perSec, start, times, i + 1).tokens + Earned(perSec, times[j - 1] - times[i]);
            BucketAfter(perSec, start, times, j).tokens >= if perSec < piled then perSec else piled
    decreases j
  {
    BucketNeverOverdrawn(perSec, start, times, j);
    if j == i + 1 {
      assert times[j - 1] == times[i];
    } else {
      var before := BucketAfter(perSec, start, times, j - 1);
      TokensPileUp(perSec, start, times, i, j - 1);
      BucketNeverOverdrawn(perSec, start, times, j - 1);
      EarnedAdds(perSec, times[j - 2] - times[i], times[j - 1] - times[j - 2]);
      EarnedIsNonNegative(perSec, times[j - 1] - times[j - 2]);
    }
  }

  /**
   * However the workers contend, at a rate of at least one per second a refused turn is
   * followed by a grant to somebody by the first turn after the wait it was told.
   */
  lemma SomebodyIsServed(perSec: real, start: int, times: seq<int>, i: nat, j: nat, waitMs: int)
    requires perSec >= 1.0 && i < j < |times| && Monotone(start, times)
    requires Grants(perSec, start, times, i, i + 1) == 0
    requires Covers(perSec, BucketAfter(perSec, start, times, i + 1), waitMs) && times[j] >= times[i] + waitMs
    ensures Grants(perSec, start, times, i, j + 1) >= 1
  {
    if Grants(perSec, start, times, i, j) == 0 {
      var waited := times[j - 1] - times[i];
      TokensPileUp(perSec, start, times, i, j);
      BucketNeverOverdrawn(perSec, start, times, j);
      EarnedAdds(perSec, waited, times[j] - times[j - 1]);
      EarnedIsNonNegative(perSec, times[j] - times[j - 1]);
      EarnedAdds(perSec, waitMs, times[j] - times[i] - waitMs);
      EarnedIsNonNegative(perSec, times[j] - times[i] - waitMs);
    }
  }

  /** A second earns the rate, and a bucket idle for a second is full. */
  lemma ASecondFillsTheBucket(perSec: real, b: Bucket, now: int)
    requires perSec > 0.0 && b.tokens >= 0.0 && now >= b.lastRefill + 1000
    ensures Earned(perSec, 1000) == perSec && Earned(perSec, 0) == 0.0
    ensures Refilled(perSec, b, now) == perSec
  {
    EarnedAdds(perSec, 1000, now - b.lastRefill - 1000);
    EarnedIsNonNegative(perSec, now - b.lastRefill - 1000);
  }

  /** A full bucket grants a burst: of turns at one moment, exactly the first perSec, rounded down. */
  lemma {:induction false} FullBucketGrantsABurst(perSec: real, start: int, times: seq<int>, n: nat)
    requires perSec > 0.0 && n <= |times| && forall i :: 0 <= i < |times| ==> times[i] == start
    ensures n as real <= perSec ==>
              Grants(perSec, start, times, 0, n) == n && BucketAfter(perSec, start, times, n) == Bucket(perSec - n as real, start)
    ensures Grants(perSec, start, times, 0, n) == if n as real <= perSec then n else perSec.Floor
    ensures n as real > perSec ==> BucketAfter(perSec, start, times, n) == Bucket(perSec - perSec.Floor as real, start)
  {
    if n > 0 {
      FullBucketGrantsABurst(perSec, start, times, n - 1);
      assert Earned(perSec, 0) == 0.0;
    }
  }

  // ---- Worker pool ----------------------------------------------------------------

  datatype Order = Order(index: int, orderId: string)

  datatype OrderResult = OrderResult(order: Order, status: string)

  datatype Worker = Idle | Acquiring(order: Order) | Done

  datatype Pool = Pool(queue: seq<Order>, workers: seq<Worker>, results: seq<OrderResult>, completed: nat)

  /** A worker's next block: take from the queue, or finish its order once the limiter let it through. */
  predicate CanMove(p: Pool, w: nat) {
    w < |p.workers| && !p.workers[w].Done?
  }

  function Execute(execute: Order -> string, order: Order): OrderResult { OrderResult(order, execute(order)) }

  function Move(execute: Order -> string, p: Pool, w: nat): Pool
    requires CanMove(p, w)
  {
    match p.workers[w]
    case Acquiring(order) =>
      TakeNext(p.(results := p.results + [Execute(execute, order)], completed := p.completed + 1), w)
    case _ => TakeNext(p, w)
  }

  function TakeNext(p: Pool, w: nat): Pool
    requires w < |p.workers|
  {
    var (rest, worker) := Take(p.queue);
    p.(queue := rest, workers := p.workers[w := worker])
  }

  function Take(queue: seq<Order>): (seq<Order>, Worker) {
    if queue == [] then ([], Done) else (queue[1..], Acquiring(queue[0]))
  }

  function Opened(orders: seq<Order>, concurrency: nat): Pool {
    Pool(orders, seq(concurrency, i => Idle), [], 0)
  }

  ghost predicate Legal(execute: Order -> string, orders: seq<Order>, concurrency: nat, moves: seq<nat>) {
    moves == [] ||
    (var n := |moves| - 1;
     Legal(execute, orders, concurrency, moves[..n]) && CanMove(Exec(execute, orders, concurrency, moves[..n]), moves[n]))
  }

  ghost function Exec(execute: Order -> string, orders: seq<Order>, concurrency: nat, moves: seq<nat>): Pool {
    if moves == [] then Opened(orders, concurrency)
    else
      var p := Exec(execute, orders, concurrency, moves[..|moves| - 1]);
      var w := moves[|moves| - 1];
      if CanMove(p, w) then Move(execute, p, w) else p
  }

  predicate AllDone(p: Pool) {
    forall w :: 0 <= w < |p.workers| ==> p.workers[w].Done?
  }

  /** How often workers hold an order, and how often it was processed. */
  function HeldCount(workers: seq<Worker>, o: Order): nat {
    if workers == [] then 0
    else HeldCount(workers[..|workers| - 1], o) + if workers[|workers| - 1] == Acquiring(o) then 1 else 0
  }

  function ResultCount(results: seq<OrderResult>, o: Order): nat {
    if results == [] then 0
    else (if results[0].order == o then 1 else 0) + ResultCount(results[1..], o)
  }

  function Count(orders: seq<Order>, o: Order): nat {
    if orders == [] then 0 else (if orders[0] == o then 1 else 0) + Count(orders[1..], o)
  }

  lemma {:induction false} HeldUpdate(workers: seq<Worker>, w: nat, worker: Worker, o: Order)
    requires w < |workers|
    ensures HeldCount(workers[w := worker], o) + (if workers[w] == Acquiring(o) then 1 else 0) ==
            HeldCount(workers, o) + (if worker == Acquiring(o) then 1 else 0)
  {
    var n := |workers| - 1;
    if w < n {
      HeldUpdate(workers[..n], w, worker, o);
      assert workers[w := worker][..n] == workers[..n][w := worker];
    } else {
      assert workers[w := worker][..n] == workers[..n];
    }
  }

  lemma {:induction false} NobodyHolds(workers: seq<Worker>, o: Order)
    requires forall w :: 0 <= w < |workers| ==> !workers[w].Acquiring?
    ensures HeldCount(workers, o) == 0
  {
    if workers != [] {
      NobodyHolds(workers[..|workers| - 1], o);
    }
  }

  lemma {:induction false} ResultAppended(results: seq<OrderResult>, r: OrderResult, o: Order)
    ensures ResultCount(results + [r], o) == ResultCount(results, o) + if r.order == o then 1 else 0
  {
    if results != [] {
      assert (results + [r])[1..] == results[1..] + [r];
      ResultAppended(results[1..], r, o);
    } else {
      assert results + [r] == [r];
    }
  }

  /** An order is as often queued, held or processed as it was given. */
  ghost predicate Shared(orders: seq<Order>, p: Pool, o: Order) {
    Count(p.queue, o) + HeldCount(p.workers, o) + ResultCount(p.results, o) == Count(orders, o)
  }

  /** Results are the orders' own, counted, and nobody stops while the queue has orders. */
  ghost predicate Tidy(execute: Order -> string, p: Pool) {
    && p.completed == |p.results|
    && (forall r :: r in p.results ==> r == Execute(execute, r.order))
    && (forall w :: 0 <= w < |p.workers| && p.workers[w].Done? ==> p.queue == [])
  }

  lemma MoveKeepsShared(execute: Order -> string, orders: seq<Order>, p: Pool, w: nat, o: Order)
    requires Shared(orders, p, o) && CanMove(p, w)
    ensures Shared(orders, Move(execute, p, w), o)
  {
    var p' := Move(execute, p, w);
    HeldUpdate(p.workers, w, p'.workers[w], o);
    assert p.workers[w := p'.workers[w]] == p'.workers;
    if p.workers[w].Acquiring? {
      ResultAppended(p.results, Execute(execute, p.workers[w].order), o);
    }
  }

  lemma MoveKeepsTidy(execute: Order -> string, p: Pool, w: nat)
    requires Tidy(execute, p) && CanMove(p, w)
    ensures Tidy(execute, Move(execute, p, w))
  {
    var p' := Move(execute, p, w);
    forall v | 0 <= v < |p'.workers| && p'.workers[v].Done?
      ensures p'.queue == []
    {
      assert v == w || p.workers[v].Done?;
    }
  }

  lemma {:induction false} RunKeepsShared(execute: Order -> string, orders: seq<Order>, concurrency: nat, moves: seq<nat>, o: Order)
    requires Legal(execute, orders, concurrency, moves)
    ensures var p := Exec(execute, orders, concurrency, moves); Shared(orders, p, o) && Tidy(execute, p) && |p.workers| == concurrency
  {
    if moves == [] {
      NobodyHolds(Opened(orders, concurrency).workers, o);
    } else {
      var n := |moves| - 1;
      var p := Exec(execute, orders, concurrency, moves[..n]);
      RunKeepsShared(execute, orders, concurrency, moves[..n], o);
      MoveKeepsShared(execute, orders, p, moves[n], o);
      MoveKeepsTidy(execute, p, moves[n]);
    }
  }

  // ---- The sorted results ---------------------------------------------------------

  function Place(r: OrderResult, sorted: seq<OrderResult>): seq<OrderResult> {
    if sorted == [] || r.order.index <= sorted[0].order.index then [r] + sorted else [sorted[0]] + Place(r, sorted[1..])
  }

  /** `results.sort` by order index, ties in completion order. */
  function ByIndex(results: seq<OrderResult>): seq<OrderResult> {
    if results == [] then [] else Place(results[0], ByIndex(results[1..]))
  }

  ghost predicate Ascending(results: seq<OrderResult>) {
    forall i, j :: 0 <= i < j < |results| ==> results[i].order.index <= results[j].order.index
  }

  lemma {:induction false} PlaceAdds(r: OrderResult, sorted: seq<OrderResult>, o: Order)
    ensures ResultCount(Place(r, sorted), o) == ResultCount(sorted, o) + if r.order == o then 1 else 0
    ensures forall x :: x in Place(r, sorted) <==> x == r || x in sorted
    ensures |Place(r, sorted)| == |sorted| + 1
  {
    if sorted != [] && r.order.index > sorted[0].order.index {
      PlaceAdds(r, sorted[1..], o);
    }
  }

  lemma {:induction false} PlaceSorts(r: OrderResult, sorted: seq<OrderResult>)
    requires Ascending(sorted)
    ensures Ascending(Place(r, sorted))
  {
    if sorted != [] && r.order.index > sorted[0].order.index {
      PlaceSorts(r, sorted[1..]);
      PlaceAdds(r, sorted[1..], r.order);
      var rest := Place(r, sorted[1..]);
      forall i | 0 <= i < |rest|
        ensures sorted[0].order.index <= rest[i].order.index
      {
        assert rest[i] in rest;
      }
    }
  }

  lemma {:induction false} ByIndexSorts(results: seq<OrderResult>, o: Order)
    ensures Ascending(ByIndex(results))
    ensures ResultCount(ByIndex(results), o) == ResultCount(results, o)
    ensures forall x :: x in ByIndex(results) <==> x in results
    ensures |ByIndex(results)| == |results|
  {
    if results != [] {
      ByIndexSorts(results[1..], o);
      PlaceSorts(results[0], ByIndex(results[1..]));
      PlaceAdds(results[0], ByIndex(results[1..]), o);
    }
  }

  /**
   * When the workers are done, the returned results are in index order and hold every order
   * exactly as often as it was given, with its own result; with no worker, none at all.
   */
  lemma EveryOrderIsProcessedOnce(execute: Order -> string, orders: seq<Order>, concurrency: nat, moves: seq<nat>, o: Order)
    requires Legal(execute, orders, concurrency, moves) && AllDone(Exec(execute, orders, concurrency, moves))
    ensures var p := Exec(execute, orders, concurrency, moves);
            var returned := ByIndex(p.results);
            && Ascending(returned) && |returned| == p.completed
            && (forall r :: r in returned ==> r == Execute(execute, r.order))
            && ResultCount(returned, o) == if concurrency >= 1 then Count(orders, o) else 0
  {
    RunKeepsShared(execute, orders, concurrency, moves, o);
    var p := Exec(execute, orders, concurrency, moves);
    ByIndexSorts(p.results, o);
    NobodyHolds(p.workers, o);
    if concurrency >= 1 {
      assert p.workers[0].Done?;
    } else if moves != [] {
      RunKeepsShared(execute, orders, concurrency, moves[..|moves| - 1], o);
    }
  }

  function Working(workers: seq<Worker>): nat {
    if workers == [] then 0
    else Working(workers[..|workers| - 1]) + if workers[|workers| - 1].Done? then 0 else 1
  }

  lemma {:induction false} WorkingUpdate(workers: seq<Worker>, w: nat, worker: Worker)
    requires w < |workers| && !workers[w].Done?
    ensures Working(workers[w := worker]) == Working(workers) - if worker.Done? then 1 else 0
  {
    var n := |workers| - 1;
    if w < n {
      WorkingUpdate(workers[..n], w, worker);
      assert workers[w := worker][..n] == workers[..n][w := worker];
    } else {
      assert workers[w := worker][..n] == workers[..n];
    }
  }

  lemma {:induction false} NobodyWorks(workers: seq<Worker>)
    ensures Working(workers) == 0 <==> forall w :: 0 <= w < |workers| ==> workers[w].Done?
  {
    if workers != [] {
      var n := |workers| - 1;
      NobodyWorks(workers[..n]);
      assert forall w :: 0 <= w < n ==> workers[w] == workers[..n][w];
    }
  }

  lemma {:induction false} AllIdle(workers: seq<Worker>)
    requires forall w :: 0 <= w < |workers| ==> workers[w] == Idle
    ensures Working(workers) == |workers|
  {
    if workers != [] {
      AllIdle(workers[..|workers| - 1]);
    }
  }

  /** Orders leave the queue from the front: what is left is always the end of what was given. */
  lemma {:induction false} OrdersAreTakenInTurn(execute: Order -> string, orders: seq<Order>, concurrency: nat, moves: seq<nat>)
    requires Legal(execute, orders, concurrency, moves)
    ensures var queue := Exec(execute, orders, concurrency, moves).queue;
            |queue| <= |orders| && queue == orders[|orders| - |queue|..]
  {
    if moves != [] {
      OrdersAreTakenInTurn(execute, orders, concurrency, moves[..|moves| - 1]);
    }
  }

  /** A worker that moves takes up the order at the front, having filed its last one with its own result. */
  lemma MovesTakeTheFront(execute: Order -> string, p: Pool, w: nat)
    requires CanMove(p, w)
    ensures var p' := Move(execute, p, w);
            && p'.workers == p.workers[w := if p.queue == [] then Done else Acquiring(p.queue[0])]
            && p'.queue == (if p.queue == [] then [] else p.queue[1..])
            && p'.results == p.results + if p.workers[w].Acquiring?
                                         then [OrderResult(p.workers[w].order, execute(p.workers[w].order))] else []
  {
  }

  /** Every move takes an order off the queue or ends a worker. */
  lemma {:induction false} MovesAreAccounted(execute: Order -> string, orders: seq<Order>, concurrency: nat, moves: seq<nat>)
    requires Legal(execute, orders, concurrency, moves)
    ensures var p := Exec(execute, orders, concurrency, moves);
            |moves| + |p.queue| + Working(p.workers) == |orders| + concurrency
  {
    if moves == [] {
      AllIdle(Opened(orders, concurrency).workers);
    } else {
      var n := |moves| - 1;
      var p := Exec(execute, orders, concurrency, moves[..n]);
      MovesAreAccounted(execute, orders, concurrency, moves[..n]);
      WorkingUpdate(p.workers, moves[n], Take(p.queue).1);
    }
  }

  /**
   * Every run of the pool comes to its end, after exactly |orders| + concurrency moves: until
   * then some worker can move, and then all are done.
   */
  lemma EveryRunEnds(execute: Order -> string, orders: seq<Order>, concurrency: nat, moves: seq<nat>)
    requires Legal(execute, orders, concurrency, moves)
    ensures var p := Exec(execute, orders, concurrency, moves);
            && |moves| <= |orders| + concurrency
            && (concurrency >= 1 ==> (AllDone(p) <==> |moves| == |orders| + concurrency))
            && (AllDone(p) <==> forall w: nat :: !CanMove(p, w))
  {
    var p := Exec(execute, orders, concurrency, moves);
    MovesAreAccounted(execute, orders, concurrency, moves);
    RunKeepsShared(execute, orders, concurrency, moves, Order(0, ""));
    NobodyWorks(p.workers);
    if w :| 0 <= w < |p.workers| && !p.workers[w].Done? {
      assert CanMove(p, w);
    }
    if concurrency >= 1 && AllDone(p) {
      assert p.workers[0].Done?;
    }
  }

  /** The shared variables of `runOrders`, as its workers' blocks change them. */
  class OrderQueue {
    var queue: seq<Order>
    var results: seq<OrderResult>
    var completed: nat

    constructor (orders: seq<Order>)
      ensures queue == orders && results == [] && completed == 0
    {
      queue, results, completed := orders, [], 0;
    }

    /** `queue.shift()`, and the worker's new position. */
    method Shift() returns (worker: Worker)
      modifies `queue
      ensures (queue, worker) == Take(old(queue))
    {
      if queue == [] {
        return Done;
      }
      worker := Acquiring(queue[0]);
      queue := queue[1..];
    }

    /** What a worker does between being let through by the limiter and its next suspension. */
    method FinishAndShift(execute: Order -> string, order: Order) returns (worker: Worker)
      modifies this
      ensures (queue, worker) == Take(old(queue))
      ensures results == old(results) + [Execute(execute, order)] && completed == old(completed) + 1
    {
      results := results + [Execute(execute, order)];
      completed := completed + 1;
      worker := Shift();
    }
  }
}
