/** The HTLC simulators: escrow, balances, and disjoint claim and refund windows. */
module HtlcSim {
  import opened Prelude
  import opened Sums

  datatype OrderStatus = Funded | Claimed | Refunded

  datatype Order = Order(
    hashlock: string,
    timelock: int,
    status: OrderStatus,
    createdAt: int,
    finalisedAt: int,
    amount: nat,
    maker: string,
    recipient: string)

  datatype SimError =
    | InvalidHashlock
    | InvalidTimelock
    | OrderNotFound
    | OrderNotClaimable
    | OrderNotRefundable
    | InvalidPreimage
    | Expired
    | NotExpired
    | ResolverNotAuthorised

  datatype Result<+T> = Ok(value: T) | Err(error: SimError)

  datatype OrderInput = OrderInput(
    hashlock: string,
    timelockSeconds: int,
    sender: Option<string>,
    amount: Option<nat>,
    maker: Option<string>,
    recipient: Option<string>)

  const DEFAULT_ESCROW_AMOUNT := 1_000_000
  const PARTY_FAUCET := 1_000_000_000_000
  const MIN_TIMELOCK := 300
  const MAX_TIMELOCK := 86_400

  /** `hashOrderPreimage`, which binds a preimage to an order id. */
  type Hash = (nat, string) -> string

  datatype Ledger = Ledger(
    orders: map<nat, Order>,
    escrow: map<nat, int>,
    balances: map<string, int>,
    nextId: nat,
    now: int)

  predicate HexDigit(c: char) {
    '0' <= c <= '9' || 'a' <= c <= 'f' || 'A' <= c <= 'F'
  }

  predicate ValidHashlock(s: string) {
    && |s| == 66 && s[..2] == "0x"
    && (forall i :: 2 <= i < 66 ==> HexDigit(s[i]))
    && exists i :: 2 <= i < 66 && s[i] != '0'
  }

  predicate ValidPreimage(s: string) {
    && |s| > 2 && |s| % 2 == 0 && s[..2] == "0x"
    && forall i :: 2 <= i < |s| ==> HexDigit(s[i])
  }

  /** A hash lock is "0x" and 64 hexadecimal digits of either case, not all zero. */
  lemma HashlocksHaveSixtyFourDigits(digits: string)
    ensures ValidHashlock("0x" + digits) <==>
              |digits| == 64 && (forall c :: c in digits ==> HexDigit(c)) && exists c :: c in digits && c != '0'
  {
    var s := "0x" + digits;
    assert forall i :: 0 <= i < |digits| ==> s[i + 2] == digits[i];
    assert forall i :: 2 <= i < |s| ==> s[i] == digits[i - 2];
    if ValidHashlock(s) {
      var i :| 2 <= i < 66 && s[i] != '0';
      assert digits[i - 2] in digits;
    }
    if c :| c in digits && c != '0' {
      var i :| 0 <= i < |digits| && digits[i] == c;
      assert s[i + 2] != '0';
    }
  }

  /** A preimage is "0x" and a positive even number of hexadecimal digits. */
  lemma PreimagesAreWholeBytes(digits: string)
    ensures ValidPreimage("0x" + digits) <==> digits != "" && |digits| % 2 == 0 && forall c :: c in digits ==> HexDigit(c)
  {
    var s := "0x" + digits;
    assert forall i :: 0 <= i < |digits| ==> s[i + 2] == digits[i];
    assert forall i :: 2 <= i < |s| ==> s[i] == digits[i - 2];
  }

  function WithParty(balances: map<string, int>, party: string): map<string, int> {
    if party in balances then balances else balances[party := PARTY_FAUCET]
  }

  function Credit(balances: map<string, int>, party: string, amount: int): map<string, int> {
    var known := WithParty(balances, party);
    known[party := known[party] + amount]
  }

  function OrderOf(l: Ledger, input: OrderInput): Order {
    Order(
      input.hashlock, l.now + input.timelockSeconds, Funded, l.now, 0,
      if input.amount.Some? then input.amount.value else DEFAULT_ESCROW_AMOUNT,
      if input.maker.Some? then input.maker.value else "maker",
      if input.recipient.Some? then input.recipient.value else "recipient")
  }

  function CreateOrder(l: Ledger, authorised: bool, input: OrderInput): (Ledger, Result<nat>) {
    if !ValidHashlock(input.hashlock) then (l, Err(InvalidHashlock))
    else if input.timelockSeconds < MIN_TIMELOCK || input.timelockSeconds > MAX_TIMELOCK then (l, Err(InvalidTimelock))
    else if !authorised then (l, Err(ResolverNotAuthorised))
    else (Enter(l, OrderOf(l, input)), Ok(l.nextId))
  }

  /** The accounts a creation debits: both parties known, nothing moved yet. */
  function Met(l: Ledger, o: Order): map<string, int> {
    WithParty(WithParty(l.balances, o.maker), o.recipient)
  }

  function Enter(l: Ledger, o: Order): Ledger {
    var known := Met(l, o);
    Ledger(
      l.orders[l.nextId := o],
      l.escrow[l.nextId := o.amount],
      known[o.maker := known[o.maker] - o.amount],
      l.nextId + 1,
      l.now)
  }

  /** Set a status and move whatever is locked for the order to `to`. */
  function Finalise(l: Ledger, id: nat, status: OrderStatus, to: string): Ledger
    requires id in l.orders
  {
    l.(orders := l.orders[id := l.orders[id].(status := status, finalisedAt := l.now)],
       escrow := l.escrow[id := 0],
       balances := Credit(l.balances, to, if id in l.escrow then l.escrow[id] else 0))
  }

  function ClaimOrder(hash: Hash, l: Ledger, id: nat, preimage: string): (Ledger, Result<()>) {
    if id !in l.orders then (l, Err(OrderNotFound))
    else
      var o := l.orders[id];
      if o.status != Funded then (l, Err(OrderNotClaimable))
      else if l.now > o.timelock then (l, Err(Expired))
      else if !ValidPreimage(preimage) || hash(id, preimage) != o.hashlock then (l, Err(InvalidPreimage))
      else (Finalise(l, id, Claimed, o.recipient), Ok(()))
  }

  function RefundOrder(l: Ledger, id: nat): (Ledger, Result<()>) {
    if id !in l.orders then (l, Err(OrderNotFound))
    else
      var o := l.orders[id];
      if o.status != Funded then (l, Err(OrderNotRefundable))
      else if l.now <= o.timelock then (l, Err(NotExpired))
      else (Finalise(l, id, Refunded, o.maker), Ok(()))
  }

  // ---- Whole runs -----------------------------------------------------------------

  datatype Op =
    | Create(authorised: bool, input: OrderInput)
    | Claim(id: nat, preimage: string)
    | Refund(id: nat)
    | AdvanceTime(seconds: nat)

  function Do(hash: Hash, l: Ledger, op: Op): Ledger {
    match op
    case Create(authorised, input) => CreateOrder(l, authorised, input).0
    case Claim(id, preimage) => ClaimOrder(hash, l, id, preimage).0
    case Refund(id) => RefundOrder(l, id).0
    case AdvanceTime(seconds) => l.(now := l.now + seconds)
  }

  function Opened(now: int): Ledger { Ledger(map[], map[], map[], 1, now) }

  function Run(hash: Hash, now: int, ops: seq<Op>): Ledger {
    if ops == [] then Opened(now) else Do(hash, Run(hash, now, ops[..|ops| - 1]), ops[|ops| - 1])
  }

  /** What an order means for a party: minus what it locked or lost, plus what it received. */
  function Share(o: Order, party: string): int {
    (if o.maker == party && o.status != Refunded then 0 - o.amount else 0)
    + (if o.recipient == party && o.status == Claimed then o.amount else 0)
  }

  function Locked(o: Order): int { if o.status == Funded then o.amount else 0 }

  function Lockeds(orders: map<nat, Order>): map<nat, int> {
    map id | id in orders :: Locked(orders[id])
  }

  /** A party's shares of the orders below `n`. */
  function Net(orders: map<nat, Order>, party: string, n: nat): int {
    if n == 0 then 0 else Net(orders, party, n - 1) + if n - 1 in orders then Share(orders[n - 1], party) else 0
  }

  ghost predicate Registered(l: Ledger) {
    && l.nextId >= 1
    && (forall id :: id in l.orders <==> 1 <= id < l.nextId)
    && (forall id :: id in l.orders ==> l.orders[id].maker in l.balances && l.orders[id].recipient in l.balances)
    && l.escrow == Lockeds(l.orders)
  }

  ghost predicate Conserved(l: Ledger) {
    Sum(l.balances) + Total(l.escrow, l.nextId) == PARTY_FAUCET * |l.balances|
  }

  ghost predicate Accounted(l: Ledger) {
    forall p :: p in l.balances ==> l.balances[p] == PARTY_FAUCET + Net(l.orders, p, l.nextId)
  }

  ghost predicate Books(l: Ledger) {
    Registered(l) && Conserved(l) && Accounted(l)
  }

  lemma {:induction false} NetOfStranger(orders: map<nat, Order>, party: string, n: nat)
    requires forall id :: id in orders ==> orders[id].maker != party && orders[id].recipient != party
    ensures Net(orders, party, n) == 0
  {
    if n > 0 {
      NetOfStranger(orders, party, n - 1);
    }
  }

  lemma {:induction false} NetUpdate(orders: map<nat, Order>, id: nat, o: Order, party: string, n: nat)
    ensures Net(orders[id := o], party, n) ==
            Net(orders, party, n) + if id < n then Share(o, party) - (if id in orders then Share(orders[id], party) else 0) else 0
  {
    if n > 0 {
      NetUpdate(orders, id, o, party, n - 1);
    }
  }

  /** Meeting a new party opens an account at the faucet balance and moves nothing. */
  lemma PartyKeepsBooks(l: Ledger, party: string)
    requires Books(l)
    ensures Books(l.(balances := WithParty(l.balances, party)))
  {
    if party !in l.balances {
      SumUpdate(l.balances, party, PARTY_FAUCET);
      NetOfStranger(l.orders, party, l.nextId);
    }
  }

  lemma PaymentMovesSum(balances: map<string, int>, party: string, amount: int)
    requires party in balances
    ensures Sum(balances[party := balances[party] + amount]) == Sum(balances) + amount
    ensures |balances[party := balances[party] + amount]| == |balances|
  {
    SumUpdate(balances, party, balances[party] + amount);
    assert balances[party := balances[party] + amount].Keys == balances.Keys;
  }

  lemma LockMovesNothing(known: map<string, int>, maker: string, escrow: map<nat, int>, id: nat, amount: int)
    requires maker in known
    ensures Sum(known[maker := known[maker] - amount]) + Total(escrow[id := amount], id + 1) == Sum(known) + Total(escrow, id)
    ensures |known[maker := known[maker] - amount]| == |known|
  {
    PaymentMovesSum(known, maker, 0 - amount);
    TotalUpdate(escrow, id, amount, id);
  }

  lemma EnterKeepsRegistered(l: Ledger, o: Order)
    requires Registered(l) && o.status == Funded
    ensures Registered(Enter(l, o))
  {
  }

  lemma LockKeepsConserved(l: Ledger, l': Ledger, maker: string, amount: int)
    requires Conserved(l) && maker in l.balances && l'.nextId == l.nextId + 1
    requires l'.balances == l.balances[maker := l.balances[maker] - amount] && l'.escrow == l.escrow[l.nextId := amount]
    ensures Conserved(l')
  {
    LockMovesNothing(l.balances, maker, l.escrow, l.nextId, amount);
  }

  lemma EnterKeepsConserved(l: Ledger, o: Order)
    requires Conserved(l.(balances := Met(l, o)))
    ensures Conserved(Enter(l, o))
  {
    LockKeepsConserved(l.(balances := Met(l, o)), Enter(l, o), o.maker, o.amount);
  }

  lemma EnterKeepsAccounted(l: Ledger, o: Order)
    requires Registered(l) && o.status == Funded && Accounted(l.(balances := Met(l, o)))
    ensures Accounted(Enter(l, o))
  {
    var l' := Enter(l, o);
    forall p | p in l'.balances
      ensures l'.balances[p] == PARTY_FAUCET + Net(l'.orders, p, l'.nextId)
    {
      assert p in Met(l, o);
      NetUpdate(l.orders, l.nextId, o, p, l.nextId);
    }
  }

  lemma MeetingKeepsBooks(l: Ledger, o: Order)
    requires Books(l)
    ensures Books(l.(balances := Met(l, o)))
  {
    PartyKeepsBooks(l, o.maker);
    PartyKeepsBooks(l.(balances := WithParty(l.balances, o.maker)), o.recipient);
  }

  lemma EnterKeepsBooks(l: Ledger, o: Order)
    requires Books(l) && o.status == Funded
    ensures Books(Enter(l, o))
  {
    MeetingKeepsBooks(l, o);
    EnterKeepsRegistered(l, o);
    EnterKeepsConserved(l, o);
    EnterKeepsAccounted(l, o);
  }

  function PartyPaid(o: Order, status: OrderStatus): string {
    if status == Claimed then o.recipient else o.maker
  }

  lemma FinalisePaysOneParty(o: Order, status: OrderStatus, finalisedAt: int, party: string)
    requires o.status == Funded && status != Funded
    ensures Share(o.(status := status, finalisedAt := finalisedAt), party) - Share(o, party) ==
            if party == PartyPaid(o, status) then o.amount else 0
  {
  }

  lemma FinaliseKeepsRegistered(l: Ledger, id: nat, status: OrderStatus)
    requires Registered(l) && id in l.orders && status != Funded
    ensures Registered(Finalise(l, id, status, PartyPaid(l.orders[id], status)))
  {
  }

  lemma FinaliseKeepsConserved(l: Ledger, id: nat, status: OrderStatus)
    requires Registered(l) && Conserved(l) && id in l.orders
    ensures Conserved(Finalise(l, id, status, PartyPaid(l.orders[id], status)))
  {
    PaymentMovesSum(l.balances, PartyPaid(l.orders[id], status), l.escrow[id]);
    TotalUpdate(l.escrow, id, 0, l.nextId);
  }

  lemma FinaliseKeepsAccounted(l: Ledger, id: nat, status: OrderStatus)
    requires Registered(l) && Accounted(l) && id in l.orders && l.orders[id].status == Funded && status != Funded
    ensures Accounted(Finalise(l, id, status, PartyPaid(l.orders[id], status)))
  {
    var o := l.orders[id];
    var paid := PartyPaid(o, status);
    var l' := Finalise(l, id, status, paid);
    assert l'.balances == l.balances[paid := l.balances[paid] + o.amount];
    forall p | p in l'.balances
      ensures l'.balances[p] == PARTY_FAUCET + Net(l'.orders, p, l'.nextId)
    {
      NetUpdate(l.orders, id, l'.orders[id], p, l.nextId);
      FinalisePaysOneParty(o, status, l.now, p);
    }
  }

  lemma FinaliseKeepsBooks(l: Ledger, id: nat, status: OrderStatus)
    requires Books(l) && id in l.orders && l.orders[id].status == Funded && status != Funded
    ensures Books(Finalise(l, id, status, PartyPaid(l.orders[id], status)))
  {
    FinaliseKeepsRegistered(l, id, status);
    FinaliseKeepsConserved(l, id, status);
    FinaliseKeepsAccounted(l, id, status);
  }

  lemma StepKeepsRegistered(hash: Hash, l: Ledger, op: Op)
    requires Registered(l)
    ensures Registered(Do(hash, l, op))
  {
    match op
    case Create(authorised, input) => EnterKeepsRegistered(l, OrderOf(l, input));
    case Claim(id, preimage) =>
      if id in l.orders {
        FinaliseKeepsRegistered(l, id, Claimed);
      }
    case Refund(id) =>
      if id in l.orders {
        FinaliseKeepsRegistered(l, id, Refunded);
      }
    case AdvanceTime(_) =>
  }

  lemma StepKeepsBooks(hash: Hash, l: Ledger, op: Op)
    requires Books(l)
    ensures Books(Do(hash, l, op))
  {
    match op
    case Create(authorised, input) =>
      if CreateOrder(l, authorised, input).1.Ok? {
        EnterKeepsBooks(l, OrderOf(l, input));
      }
    case Claim(id, preimage) =>
      if ClaimOrder(hash, l, id, preimage).1.Ok? {
        FinaliseKeepsBooks(l, id, Claimed);
      }
    case Refund(id) =>
      if RefundOrder(l, id).1.Ok? {
        FinaliseKeepsBooks(l, id, Refunded);
      }
    case AdvanceTime(_) =>
  }

  /**
   * Conservation over every run: balances plus escrow are what the faucet paid out, each
   * escrow holds its order's amount while funded and nothing after, and each balance is the
   * faucet plus the party's share of every order.
   */
  lemma {:induction false} RunKeepsBooks(hash: Hash, now: int, ops: seq<Op>)
    ensures Books(Run(hash, now, ops))
  {
    if ops != [] {
      RunKeepsBooks(hash, now, ops[..|ops| - 1]);
      StepKeepsBooks(hash, Run(hash, now, ops[..|ops| - 1]), ops[|ops| - 1]);
    }
  }

  /** At any moment a funded order is either claimable with a matching preimage or refundable, never both. */
  lemma WindowsAreDisjoint(hash: Hash, l: Ledger, id: nat, preimage: string)
    requires id in l.orders && l.orders[id].status == Funded
    requires ValidPreimage(preimage) && hash(id, preimage) == l.orders[id].hashlock
    ensures ClaimOrder(hash, l, id, preimage).1.Ok? <==> !RefundOrder(l, id).1.Ok?
    ensures ClaimOrder(hash, l, id, preimage).1.Ok? <==> l.now <= l.orders[id].timelock
  {
  }

  // ---- From the input to the payout ---------------------------------------------------

  /** What a party has, or would start with. */
  function BalanceOf(l: Ledger, party: string): int {
    if party in l.balances then l.balances[party] else PARTY_FAUCET
  }

  function MakerOf(input: OrderInput): string { if input.maker.Some? then input.maker.value else "maker" }

  function RecipientOf(input: OrderInput): string { if input.recipient.Some? then input.recipient.value else "recipient" }

  function AmountOf(input: OrderInput): nat { if input.amount.Some? then input.amount.value else 1_000_000 }

  /** The order kept under an id is the one that the input asked for, entered at `createdAt`. */
  predicate Asked(l: Ledger, id: nat, input: OrderInput, createdAt: int) {
    && id in l.orders
    && l.orders[id].hashlock == input.hashlock && l.orders[id].timelock == createdAt + input.timelockSeconds
    && l.orders[id].amount == AmountOf(input)
    && l.orders[id].maker == MakerOf(input) && l.orders[id].recipient == RecipientOf(input)
  }

  predicate Acceptable(input: OrderInput) {
    ValidHashlock(input.hashlock) && 300 <= input.timelockSeconds <= 24 * 60 * 60
  }

  /** A creation is refused exactly for a bad hash lock, a timelock out of bounds or a stranger, in that order, and then changes nothing. */
  lemma CreationIsRefusedExactly(hash: Hash, l: Ledger, authorised: bool, input: OrderInput)
    ensures var r := CreateOrder(l, authorised, input).1;
            && (r == Err(InvalidHashlock) <==> !ValidHashlock(input.hashlock))
            && (r == Err(InvalidTimelock) <==> ValidHashlock(input.hashlock) && !Acceptable(input))
            && (r == Err(ResolverNotAuthorised) <==> Acceptable(input) && !authorised)
            && (r == Ok(l.nextId) <==> Acceptable(input) && authorised)
            && (r.Err? ==> Do(hash, l, Create(authorised, input)) == l)
  {
  }

  /** A successful creation enters the asked order under the next id, funded by the input's maker, and moves nobody else's money. */
  lemma CreationDebitsTheMaker(hash: Hash, l: Ledger, input: OrderInput)
    requires Registered(l) && Acceptable(input)
    ensures var l' := Do(hash, l, Create(true, input));
            && Asked(l', l.nextId, input, l.now) && l'.orders[l.nextId].status == Funded
            && l'.orders[l.nextId].createdAt == l.now && l'.orders[l.nextId].finalisedAt == 0
            && l'.nextId == l.nextId + 1 && l'.now == l.now
            && l'.escrow == l.escrow[l.nextId := AmountOf(input)]
            && (forall id :: id in l.orders ==> id in l'.orders && l'.orders[id] == l.orders[id])
            && (forall p :: BalanceOf(l', p) == BalanceOf(l, p) - if p == MakerOf(input) then AmountOf(input) else 0)
  {
  }

  lemma TermsStay(hash: Hash, l: Ledger, op: Op, id: nat, input: OrderInput, createdAt: int)
    requires Registered(l) && Asked(l, id, input, createdAt)
    ensures Asked(Do(hash, l, op), id, input, createdAt)
  {
  }

  lemma RunIsRegistered(hash: Hash, now: int, ops: seq<Op>)
    ensures Registered(Run(hash, now, ops))
  {
    RunKeepsBooks(hash, now, ops);
  }

  lemma {:induction false} TermsStayOverRuns(hash: Hash, now: int, before: seq<Op>, input: OrderInput, after: seq<Op>)
    requires Acceptable(input)
    ensures var l := Run(hash, now, before);
            Asked(Run(hash, now, before + [Create(true, input)] + after), l.nextId, input, l.now)
  {
    var ops := before + [Create(true, input)] + after;
    RunIsRegistered(hash, now, before);
    if after == [] {
      assert ops == before + [Create(true, input)] && ops[..|before|] == before;
      CreationDebitsTheMaker(hash, Run(hash, now, before), input);
    } else {
      var n := |after| - 1;
      assert ops[..|ops| - 1] == before + [Create(true, input)] + after[..n];
      TermsStayOverRuns(hash, now, before, input, after[..n]);
      RunIsRegistered(hash, now, ops[..|ops| - 1]);
      TermsStay(hash, Run(hash, now, ops[..|ops| - 1]), after[n], Run(hash, now, before).nextId, input, Run(hash, now, before).now);
    }
  }

  /** One party's balance went up by an amount, and nobody else's changed. */
  ghost predicate Pays(l: Ledger, l': Ledger, party: string, amount: int) {
    forall p :: BalanceOf(l', p) == BalanceOf(l, p) + if p == party then amount else 0
  }

  lemma FinalisePays(l: Ledger, id: nat, status: OrderStatus, to: string)
    requires Registered(l) && id in l.orders && l.orders[id].status == Funded
    ensures Pays(l, Finalise(l, id, status, to), to, l.orders[id].amount)
  {
  }

  /**
   * Whatever happens after a creation: while its order is funded, claiming its id with a
   * preimage of the input's hash lock pays the input's recipient the input's amount until
   * `timelockSeconds` after the creation, and refunding it pays the input's maker from then
   * on. At no moment do both work.
   */
  lemma PayoutsFollowTheInput(hash: Hash, now: int, before: seq<Op>, input: OrderInput, after: seq<Op>, preimage: string)
    requires Acceptable(input)
    requires var id := Run(hash, now, before).nextId;
             var l := Run(hash, now, before + [Create(true, input)] + after);
             && id in l.orders && l.orders[id].status == Funded
             && ValidPreimage(preimage) && hash(id, preimage) == input.hashlock
    ensures var created := Run(hash, now, before);
            var l := Run(hash, now, before + [Create(true, input)] + after);
            var claimed, refunded := Do(hash, l, Claim(created.nextId, preimage)), Do(hash, l, Refund(created.nextId));
            if l.now <= created.now + input.timelockSeconds
            then Pays(l, claimed, RecipientOf(input), AmountOf(input)) && claimed.orders[created.nextId].status == Claimed && refunded == l
            else Pays(l, refunded, MakerOf(input), AmountOf(input)) && refunded.orders[created.nextId].status == Refunded && claimed == l
  {
    var created := Run(hash, now, before);
    var l := Run(hash, now, before + [Create(true, input)] + after);
    TermsStayOverRuns(hash, now, before, input, after);
    RunIsRegistered(hash, now, before + [Create(true, input)] + after);
    FinalisePays(l, created.nextId, Claimed, RecipientOf(input));
    FinalisePays(l, created.nextId, Refunded, MakerOf(input));
  }

  /** Only time passing moves the clock, and it moves nothing else. */
  lemma OnlyTimeMovesTheClock(hash: Hash, l: Ledger, op: Op)
    ensures Do(hash, l, op).now == l.now + if op.AdvanceTime? then op.seconds else 0
    ensures op.AdvanceTime? ==> Do(hash, l, op) == l.(now := l.now + op.seconds)
  {
  }

  /** Each refusal of a claim and of a refund, exactly; a refused one changes nothing. */
  lemma PayoutsAreRefusedExactly(hash: Hash, l: Ledger, id: nat, preimage: string)
    ensures var r := ClaimOrder(hash, l, id, preimage);
            && (r.1 == Err(OrderNotFound) <==> id !in l.orders)
            && (r.1 == Err(OrderNotClaimable) <==> id in l.orders && l.orders[id].status != Funded)
            && (r.1 == Err(Expired) <==> id in l.orders && l.orders[id].status == Funded && l.now > l.orders[id].timelock)
            && (r.1 == Err(InvalidPreimage) <==>
                  && id in l.orders && l.orders[id].status == Funded && l.now <= l.orders[id].timelock
                  && !(ValidPreimage(preimage) && hash(id, preimage) == l.orders[id].hashlock))
            && (r.1.Err? ==> r.0 == l)
    ensures var r := RefundOrder(l, id);
            && (r.1 == Err(OrderNotFound) <==> id !in l.orders)
            && (r.1 == Err(OrderNotRefundable) <==> id in l.orders && l.orders[id].status != Funded)
            && (r.1 == Err(NotExpired) <==> id in l.orders && l.orders[id].status == Funded && l.now <= l.orders[id].timelock)
            && (r.1.Err? ==> r.0 == l)
  {
  }

  // ---- The simulator --------------------------------------------------------------

  /** Both chains' simulators run this code; only their names differ. */
  class Sim {
    const hash: Hash
    var orders: map<nat, Order>
    var escrow: map<nat, int>
    var balances: map<string, int>
    var nextId: nat
    var now: int
    var registryEnabled: bool
    var activeResolvers: set<string>

    ghost function State(): Ledger
      reads this
    {
      Ledger(orders, escrow, balances, nextId, now)
    }

    predicate Authorised(sender: Option<string>)
      reads this
    {
      registryEnabled ==> sender.Some? && sender.value != "" && ToLower(sender.value) in activeResolvers
    }

    constructor (hash: Hash, clock: int)
      ensures State() == Opened(clock) && this.hash == hash && !registryEnabled
    {
      this.hash := hash;
      orders, escrow, balances, nextId, now := map[], map[], map[], 1, clock;
      registryEnabled, activeResolvers := false, {};
    }

    method Advance(seconds: nat)
      modifies `now
      ensures State() == Do(hash, old(State()), AdvanceTime(seconds))
    {
      now := now + seconds;
    }

    method Create(input: OrderInput) returns (r: Result<nat>)
      modifies `orders, `escrow, `balances, `nextId
      ensures (State(), r) == CreateOrder(old(State()), Authorised(input.sender), input)
    {
      if !ValidHashlock(input.hashlock) {
        return Err(InvalidHashlock);
      }
      if input.timelockSeconds < MIN_TIMELOCK || input.timelockSeconds > MAX_TIMELOCK {
        return Err(InvalidTimelock);
      }
      if !Authorised(input.sender) {
        return Err(ResolverNotAuthorised);
      }
      var id := nextId;
      nextId := nextId + 1;
      var amount := if input.amount.Some? then input.amount.value else DEFAULT_ESCROW_AMOUNT;
      var maker := if input.maker.Some? then input.maker.value else "maker";
      var recipient := if input.recipient.Some? then input.recipient.value else "recipient";
      EnsureParty(maker);
      EnsureParty(recipient);
      balances := balances[maker := balances[maker] - amount];
      escrow := escrow[id := amount];
      orders := orders[id := Order(input.hashlock, now + input.timelockSeconds, Funded, now, 0, amount, maker, recipient)];
      r := Ok(id);
    }

    method EnsureParty(party: string)
      modifies `balances
      ensures balances == WithParty(old(balances), party)
    {
      if party !in balances {
        balances := balances[party := PARTY_FAUCET];
      }
    }

    method ReleaseEscrow(id: nat, to: string)
      modifies `escrow, `balances
      ensures escrow == old(escrow)[id := 0]
      ensures balances == Credit(old(balances), to, if id in old(escrow) then old(escrow)[id] else 0)
    {
      var locked := if id in escrow then escrow[id] else 0;
      escrow := escrow[id := 0];
      EnsureParty(to);
      balances := balances[to := balances[to] + locked];
    }

    method Claim(id: nat, preimage: string) returns (r: Result<()>)
      modifies `orders, `escrow, `balances
      ensures (State(), r) == ClaimOrder(hash, old(State()), id, preimage)
    {
      if id !in orders {
        return Err(OrderNotFound);
      }
      var o := orders[id];
      if o.status != Funded {
        return Err(OrderNotClaimable);
      }
      if now > o.timelock {
        return Err(Expired);
      }
      if !ValidPreimage(preimage) {
        return Err(InvalidPreimage);
      }
      if hash(id, preimage) != o.hashlock {
        return Err(InvalidPreimage);
      }
      orders := orders[id := o.(status := Claimed, finalisedAt := now)];
      ReleaseEscrow(id, o.recipient);
      r := Ok(());
    }

    method Refund(id: nat) returns (r: Result<()>)
      modifies `orders, `escrow, `balances
      ensures (State(), r) == RefundOrder(old(State()), id)
    {
      if id !in orders {
        return Err(OrderNotFound);
      }
      var o := orders[id];
      if o.status != Funded {
        return Err(OrderNotRefundable);
      }
      if now <= o.timelock {
        return Err(NotExpired);
      }
      orders := orders[id := o.(status := Refunded, finalisedAt := now)];
      ReleaseEscrow(id, o.maker);
      r := Ok(());
    }

    /** Total escrow, summed over the orders in the order they were made: what funded orders hold. */
    method GetEscrowBalance() returns (total: int)
      requires Books(State())
      ensures total == Total(Lockeds(orders), nextId)
      ensures total == PARTY_FAUCET * |balances| - Sum(balances)
    {
      total := 0;
      for id := 1 to nextId
        invariant total == Total(escrow, id)
      {
        total := total + escrow[id];
      }
    }
  }
}
