/**
 * Runs of the tracker over a store whose saves may fail and which drops terminal records:
 * a restart finds any snapshot that was written since the last one, less what was pruned.
 */
module RelayStoreRuns {
  import opened Prelude
  import opened RelayRecords
  import opened RelayRuns
  import RelayRestarts
  import RelayStore

  type Content = map<Action, Record>

  function Only(records: Content, kept: set<Action>): Content {
    map k | k in records && k in kept :: records[k]
  }

  /** The content still has the hash of a broadcast. */
  predicate Holds(content: Content, x: Sent) {
    x.key in content && content[x.key].txHash == Some(x.txHash)
  }

  /** The broadcasts that a content holds, or those it does not. */
  function SentOf(sent: seq<Sent>, content: Content, held: bool): (r: seq<Sent>)
    ensures forall x :: x in r <==> x in sent && (Holds(content, x) <==> held)
  {
    if sent == [] then []
    else
      var n := |sent| - 1;
      SentOf(sent[..n], content, held) + if Holds(content, sent[n]) <==> held then [sent[n]] else []
  }

  /**
   * `past` are the snapshots that the store may hold, `lost` the broadcasts that a restart
   * found no trace of.
   */
  datatype World = World(s: System, past: seq<Content>, lost: seq<Sent>)

  /**
   * An ordinary step, a restart from an old snapshot of which only some keys were kept, or
   * the landing of a broadcast that a restart lost.
   */
  datatype Move = Takes(step: Step) | Restarts(snapshot: nat, kept: set<Action>) | LandsLost(txHash: string)

  const START := World(INIT, [map[]], [])

  /** A new process over some content. The logs keep the broadcasts that have a record. */
  function Reborn(s: System, content: Content): System {
    System(
      Tracker(NormaliseAll(content), content, map[], {}), map[], s.nextOp, map[],
      SentOf(s.sent, content, true), s.landed, s.dead, [])
  }

  function RestartOn(w: World, content: Content): World {
    World(Reborn(w.s, content), [content], w.lost + SentOf(w.s.sent, content, false))
  }

  predicate OnlyTerminalDropped(content: Content, kept: set<Action>) {
    forall k :: k in content && k !in kept ==> content[k].status == Succeeded || content[k].status == Failed
  }

  /** A content that a restart may find. */
  predicate Found(w: World, content: Content, snapshot: nat, kept: set<Action>) {
    snapshot < |w.past| && OnlyTerminalDropped(w.past[snapshot], kept) && content == Only(w.past[snapshot], kept)
  }

  /** The content has the hash of every broadcast that may still land or has landed. */
  ghost predicate Remembers(s: System, content: Content) {
    forall x :: x in s.sent ==> x.txHash in s.dead || Holds(content, x)
  }

  /** Any step but a crash, and restarts whose store remembers. */
  ghost predicate Allowed(cfg: Config, w: World, m: Move) {
    match m
    case Takes(step) => !step.Crash? && !step.CrashInRestage? && Enabled(cfg, w.s, step)
    case Restarts(i, kept) =>
      i < |w.past| && OnlyTerminalDropped(w.past[i], kept) && Remembers(w.s, Only(w.past[i], kept))
    case LandsLost(h) => h !in w.s.dead && exists i :: 0 <= i < |w.lost| && w.lost[i].txHash == h
  }

  ghost function Do(cfg: Config, w: World, m: Move): World
    requires Allowed(cfg, w, m)
  {
    match m
    case Takes(step) =>
      var s := Apply(cfg, w.s, step);
      World(s, w.past + [s.t.saved], w.lost)
    case Restarts(i, kept) => RestartOn(w, Only(w.past[i], kept))
    case LandsLost(h) => w.(s := w.s.(landed := w.s.landed + {h}))
  }

  ghost predicate LegalFrom(cfg: Config, w: World, moves: seq<Move>)
    decreases |moves|
  {
    moves == [] || (Allowed(cfg, w, moves[0]) && LegalFrom(cfg, Do(cfg, w, moves[0]), moves[1..]))
  }

  ghost function ExecFrom(cfg: Config, w: World, moves: seq<Move>): World
    decreases |moves|
  {
    if moves != [] && Allowed(cfg, w, moves[0]) then ExecFrom(cfg, Do(cfg, w, moves[0]), moves[1..]) else w
  }

  lemma FirstMove(cfg: Config, w: World, m: Move, v: World, rest: seq<Move>)
    requires Allowed(cfg, w, m) && v == Do(cfg, w, m) && LegalFrom(cfg, v, rest)
    ensures LegalFrom(cfg, w, [m] + rest) && ExecFrom(cfg, w, [m] + rest) == ExecFrom(cfg, v, rest)
  {
    assert ([m] + rest)[1..] == rest;
  }

  /** Of all broadcasts of an order, one at most has landed. */
  ghost predicate AtMostOneOf(sent: seq<Sent>, landed: set<string>) {
    forall i, j | 0 <= i < |sent| && 0 <= j < |sent| && SameOrder(sent[i].key, sent[j].key) ::
      sent[i].txHash in landed && sent[j].txHash in landed ==> i == j
  }

  /** No two different transactions of an order have landed, counting the broadcasts that were lost. */
  ghost predicate Safe(w: World) {
    var all := w.lost + w.s.sent;
    forall i, j | 0 <= i < |all| && 0 <= j < |all| && SameOrder(all[i].key, all[j].key) ::
      all[i].txHash in w.s.landed && all[j].txHash in w.s.landed ==> all[i].txHash == all[j].txHash
  }

  // ---- The invariant --------------------------------------------------------------

  /** A snapshot of the past: what it says of hashes is still true. */
  ghost predicate Former(s: System, content: Content) {
    && AllCoupled(content) && OrderLocked(NormaliseAll(content))
    && forall k :: k in content && content[k].txHash.Some? ==>
         && k in s.t.records && s.t.records[k].txHash == content[k].txHash
         && (content[k].status == Failed ==> content[k].txHash.value in s.dead)
         && (content[k].status == Succeeded ==> s.t.records[k].status == Succeeded)
  }

  ghost predicate StoreInv(cfg: Config, w: World) {
    && Inv(cfg, w.s)
    && (forall i :: 0 <= i < |w.past| ==> Former(w.s, w.past[i]))
    && (forall x :: x in w.lost ==> x.txHash in w.s.dead)
  }

  lemma SavedIsFormer(cfg: Config, s: System)
    requires AllCoupled(s.t.records) && OrderLocked(s.t.records) && Durable(s.t) && Ledger(s)
    ensures Former(s, s.t.saved)
  {
    CrashKeepsRecords(s);
    forall k | k in s.t.saved && s.t.saved[k].txHash.Some?
      ensures k in s.t.records && Normalise(s.t.saved[k]) == Normalise(s.t.records[k])
      ensures s.t.records[k].txHash == s.t.saved[k].txHash
      ensures s.t.records[k].status == s.t.saved[k].status
    {
      assert k in NormaliseAll(s.t.records) && NormaliseAll(s.t.saved)[k] == NormaliseAll(s.t.records)[k];
      assert Coupled(s.t.records[k]) && Coupled(s.t.saved[k]);
    }
  }

  /** A recorded hash stays recorded through every step, failures stay failures and successes successes. */
  ghost predicate HashesStay(s: System, s': System) {
    && s.dead <= s'.dead
    && forall k :: k in s.t.records && s.t.records[k].txHash.Some? ==>
         && k in s'.t.records && s'.t.records[k].txHash == s.t.records[k].txHash
         && (s.t.records[k].status == Succeeded ==> s'.t.records[k].status == Succeeded)
  }

  lemma AdvanceKeepsHashes(cfg: Config, s: System, o: nat, t: Tracker, pc: Pc, dead: set<string>)
    requires Driven(cfg, s) && Advances(cfg, s, o, t, pc, dead)
    ensures HashesStay(s, RelayRuns.Move(s, o, t, pc).(dead := dead))
  {
    assert DrivenBy(cfg, s.t, o, s.ops[o]);
  }

  lemma StageKeepsHashes(cfg: Config, s: System, o: nat, result: StageResult)
    requires cfg.Valid() && AllCoupled(s.t.records) && Durable(s.t) && Driven(cfg, s) && Ledger(s)
    requires Enabled(cfg, s, StageDone(o, result))
    ensures HashesStay(s, Apply(cfg, s, StageDone(o, result)))
  {
    var s' := Apply(cfg, s, StageDone(o, result));
    StageAdvances(cfg, s, o, result);
    AdvanceKeepsHashes(cfg, s, o, s'.t, s'.ops[o].pc, s'.dead);
  }

  lemma BroadcastDoneKeepsHashes(cfg: Config, s: System, o: nat, ok: bool)
    requires cfg.Valid() && AllCoupled(s.t.records) && Durable(s.t) && Driven(cfg, s) && Ledger(s)
    requires Enabled(cfg, s, BroadcastDone(o, ok))
    ensures HashesStay(s, Apply(cfg, s, BroadcastDone(o, ok)))
  {
    var s' := Apply(cfg, s, BroadcastDone(o, ok));
    BroadcastDoneAdvances(cfg, s, o, ok);
    AdvanceKeepsHashes(cfg, s, o, s'.t, s'.ops[o].pc, s'.dead);
  }

  lemma PollKeepsHashes(cfg: Config, s: System, o: nat, answer: ChainState)
    requires cfg.Valid() && AllCoupled(s.t.records) && Durable(s.t) && Driven(cfg, s) && Ledger(s)
    requires Enabled(cfg, s, PollDone(o, answer))
    ensures HashesStay(s, Apply(cfg, s, PollDone(o, answer)))
  {
    var s' := Apply(cfg, s, PollDone(o, answer));
    PollAdvances(cfg, s, o, answer);
    AdvanceKeepsHashes(cfg, s, o, s'.t, s'.ops[o].pc, s'.dead);
  }

  lemma SubmitKeepsHashes(cfg: Config, s: System, c: nat, key: Action)
    requires AllCoupled(s.t.records) && Enabled(cfg, s, Submit(c, key))
    ensures HashesStay(s, Apply(cfg, s, Submit(c, key)))
  {
    assert key in s.t.records ==> Coupled(s.t.records[key]);
  }

  lemma StepKeepsHashes(cfg: Config, s: System, step: Step)
    requires cfg.Valid() && AllCoupled(s.t.records) && Durable(s.t) && Driven(cfg, s) && Ledger(s) && Enabled(cfg, s, step)
    requires !step.Crash? && !step.CrashInRestage?
    ensures HashesStay(s, Apply(cfg, s, step))
  {
    match step
    case Submit(c, key) => SubmitKeepsHashes(cfg, s, c, key);
    case StageDone(o, result) => StageKeepsHashes(cfg, s, o, result);
    case BroadcastDone(o, ok) => BroadcastDoneKeepsHashes(cfg, s, o, ok);
    case PollDone(o, answer) => PollKeepsHashes(cfg, s, o, answer);
    case _ =>
  }

  lemma FormerStaysFormer(s: System, s': System, content: Content)
    requires Former(s, content) && HashesStay(s, s')
    ensures Former(s', content)
  {
  }

  lemma TakingKeepsStoreInv(cfg: Config, w: World, step: Step)
    requires cfg.Valid() && StoreInv(cfg, w) && Allowed(cfg, w, Takes(step))
    ensures StoreInv(cfg, Do(cfg, w, Takes(step)))
  {
    var s' := Apply(cfg, w.s, step);
    StepKeepsInv(cfg, w.s, step);
    StepKeepsHashes(cfg, w.s, step);
    SavedIsFormer(cfg, s');
    forall i | 0 <= i < |w.past|
      ensures Former(s', w.past[i])
    {
      FormerStaysFormer(w.s, s', w.past[i]);
    }
  }

  ghost predicate EachKeyOnce(sent: seq<Sent>) {
    forall i, j :: 0 <= i < j < |sent| ==> sent[i].key != sent[j].key
  }

  lemma {:induction false} SentOfKeepsKeysApart(sent: seq<Sent>, content: Content, held: bool)
    requires EachKeyOnce(sent)
    ensures EachKeyOnce(SentOf(sent, content, held))
  {
    if sent != [] {
      var n := |sent| - 1;
      var rest := SentOf(sent[..n], content, held);
      SentOfKeepsKeysApart(sent[..n], content, held);
      forall i | 0 <= i < |rest|
        ensures rest[i].key != sent[n].key
      {
        assert rest[i] in rest;
      }
    }
  }

  lemma PrunedIsFormer(s: System, content: Content, kept: set<Action>)
    requires Former(s, content)
    ensures Former(s, Only(content, kept))
  {
  }

  lemma RebornRecords(s: System, content: Content)
    requires Former(s, content)
    ensures var t := Reborn(s, content).t;
            && AllCoupled(t.records) && OrderLocked(t.records) && Durable(t)
            && forall k :: k in content && content[k].txHash.Some? ==> t.records[k] == content[k]
  {
    assert forall k :: k in content ==> Coupled(content[k]);
  }

  lemma RebornLedger(s: System, content: Content)
    requires Ledger(s) && Former(s, content) && Remembers(s, content)
    ensures Ledger(Reborn(s, content))
  {
    var s' := Reborn(s, content);
    RebornRecords(s, content);
    assert EachKeyOnce(s.sent);
    SentOfKeepsKeysApart(s.sent, content, true);
    assert EachKeyOnce(s'.sent);
    forall i | 0 <= i < |s'.sent|
      ensures s'.sent[i].key in s'.t.records && s'.t.records[s'.sent[i].key].txHash == Some(s'.sent[i].txHash)
    {
      assert s'.sent[i] in s'.sent;
    }
    LandedWereHeld(s, content);
  }

  lemma LandedWereHeld(s: System, content: Content)
    requires Ledger(s) && Remembers(s, content)
    ensures var s' := Reborn(s, content);
            forall h :: h in s'.landed ==> exists i :: 0 <= i < |s'.sent| && s'.sent[i].txHash == h
  {
    var s' := Reborn(s, content);
    forall h | h in s'.landed
      ensures exists i :: 0 <= i < |s'.sent| && s'.sent[i].txHash == h
    {
      var i :| 0 <= i < |s.sent| && s.sent[i].txHash == h;
      assert s.sent[i] in s'.sent;
    }
  }

  lemma RebornKeepsInv(cfg: Config, s: System, content: Content)
    requires Inv(cfg, s) && Former(s, content) && Remembers(s, content)
    ensures Inv(cfg, Reborn(s, content)) && Former(Reborn(s, content), content)
  {
    RebornRecords(s, content);
    RebornLedger(s, content);
  }

  lemma RestartKeepsStoreInv(cfg: Config, w: World, i: nat, kept: set<Action>)
    requires StoreInv(cfg, w) && Allowed(cfg, w, Restarts(i, kept))
    ensures StoreInv(cfg, Do(cfg, w, Restarts(i, kept)))
  {
    var content := Only(w.past[i], kept);
    PrunedIsFormer(w.s, w.past[i], kept);
    RebornKeepsInv(cfg, w.s, content);
    assert forall x :: x in SentOf(w.s.sent, content, false) ==> x.txHash in w.s.dead;
  }

  lemma MoveKeepsStoreInv(cfg: Config, w: World, m: Move)
    requires cfg.Valid() && StoreInv(cfg, w) && Allowed(cfg, w, m)
    ensures StoreInv(cfg, Do(cfg, w, m))
  {
    match m
    case Takes(step) => TakingKeepsStoreInv(cfg, w, step);
    case Restarts(i, kept) => RestartKeepsStoreInv(cfg, w, i, kept);
    case LandsLost(h) => LostAreDead(cfg, w, h);
  }

  /** While restarts remember, whatever was lost is dead and stays off the chain. */
  lemma LostAreDead(cfg: Config, w: World, h: string)
    requires StoreInv(cfg, w)
    ensures !Allowed(cfg, w, LandsLost(h))
  {
    assert forall i :: 0 <= i < |w.lost| ==> w.lost[i] in w.lost;
  }

  lemma {:induction false} MovesKeepStoreInv(cfg: Config, w: World, moves: seq<Move>)
    requires cfg.Valid() && StoreInv(cfg, w) && LegalFrom(cfg, w, moves)
    ensures StoreInv(cfg, ExecFrom(cfg, w, moves))
    decreases |moves|
  {
    if moves != [] {
      MoveKeepsStoreInv(cfg, w, moves[0]);
      MovesKeepStoreInv(cfg, Do(cfg, w, moves[0]), moves[1..]);
    }
  }

  lemma StartKeepsStoreInv(cfg: Config)
    requires cfg.Valid()
    ensures StoreInv(cfg, START)
  {
    RunKeepsInv(cfg, []);
  }

  // ---- Safety ----------------------------------------------------------------------

  lemma AtMostOneOfAState(cfg: Config, s: System)
    requires Inv(cfg, s)
    ensures AtMostOneOf(s.sent, s.landed)
  {
    forall i, j | 0 <= i < |s.sent| && 0 <= j < |s.sent| && SameOrder(s.sent[i].key, s.sent[j].key)
                  && s.sent[i].txHash in s.landed && s.sent[j].txHash in s.landed
      ensures i == j
    {
      assert s.t.records[s.sent[i].key].txHash == Some(s.sent[i].txHash);
      assert s.t.records[s.sent[j].key].txHash == Some(s.sent[j].txHash);
    }
  }

  lemma DeadOnesAddNone(dropped: seq<Sent>, sent: seq<Sent>, landed: set<string>)
    requires AtMostOneOf(sent, landed) && forall x :: x in dropped ==> x.txHash !in landed
    ensures AtMostOneOf(dropped + sent, landed)
  {
    var all := dropped + sent;
    assert forall i :: 0 <= i < |dropped| ==> all[i] == dropped[i] && dropped[i] in dropped;
    forall i, j | 0 <= i < |all| && 0 <= j < |all| && SameOrder(all[i].key, all[j].key)
                  && all[i].txHash in landed && all[j].txHash in landed
      ensures i == j
    {
      assert SameOrder(sent[i - |dropped|].key, sent[j - |dropped|].key);
    }
  }

  lemma StoreInvIsSafe(cfg: Config, w: World)
    requires StoreInv(cfg, w)
    ensures Safe(w) && AtMostOneOf(w.lost + w.s.sent, w.s.landed)
  {
    AtMostOneOfAState(cfg, w.s);
    assert w.s.landed !! w.s.dead;
    DeadOnesAddNone(w.lost, w.s.sent, w.s.landed);
  }

  /**
   * Whatever saves fail and whatever is pruned, and however often the process restarts: at
   * most one transaction per order lands, as long as each restart finds the hash of every
   * broadcast that is not dead.
   */
  lemma SafeWhileTheStoreRemembers(cfg: Config, moves: seq<Move>)
    requires cfg.Valid() && LegalFrom(cfg, START, moves)
    ensures var w := ExecFrom(cfg, START, moves); Safe(w) && AtMostOneOf(w.lost + w.s.sent, w.s.landed)
  {
    StartKeepsStoreInv(cfg);
    MovesKeepStoreInv(cfg, START, moves);
    StoreInvIsSafe(cfg, ExecFrom(cfg, START, moves));
  }

  // ---- A store that forgets ----------------------------------------------------------

  lemma {:induction false} FreshHash(hashes: set<string>) returns (h: string)
    ensures h != "" && forall x :: x in hashes ==> |x| < |h|
    decreases |hashes|
  {
    if hashes == {} {
      h := "h";
    } else {
      var x :| x in hashes;
      var rest := FreshHash(hashes - {x});
      h := rest + x;
      forall y | y in hashes
        ensures |y| < |h|
      {
        assert y == x || y in hashes - {x};
      }
    }
  }

  lemma SubmitStages(cfg: Config, w: World, c: nat, k: Action)
    requires c !in w.s.waiting && Restageable(w.s, k) && !Blocked(Bare(w.s.t, k).records, k)
    ensures Allowed(cfg, w, Takes(Submit(c, k))) && Do(cfg, w, Takes(Submit(c, k))).s == Reserved(w.s, c, k)
  {
    ReserveShape(cfg, w.s, c, k);
  }

  /** A staged key is one step from its broadcast. */
  lemma StagedIsRecorded(cfg: Config, w: World, c: nat, k: Action, v: World, h: string)
    requires v.s == Reserved(w.s, c, k) && v.lost == w.lost && h != ""
    ensures var m := Takes(StageDone(w.s.nextOp, Staged(h)));
            && Allowed(cfg, v, m)
            && var v' := Do(cfg, v, m);
               && At(v'.s, w.s.nextOp, Recorded) && v'.s.ops[w.s.nextOp].key == k && HashOf(v'.s, w.s.nextOp) == h
               && v'.lost == w.lost && v'.s.sent == w.s.sent && v'.s.landed == w.s.landed && v'.s.dead == w.s.dead
  {
  }

  ghost predicate Adds(w: World, w': World, k: Action, h: string) {
    && w'.lost == w.lost && w'.s.sent == w.s.sent + [Sent(k, h)] && w'.s.landed == w.s.landed + {h}
  }

  lemma RecordedLands(cfg: Config, v: World, op: nat, k: Action, h: string)
    requires At(v.s, op, Recorded) && v.s.ops[op].key == k && HashOf(v.s, op) == h && h !in v.s.dead
    ensures var moves := [Takes(Broadcast(op))] + ([Takes(Land(h))] + []);
            LegalFrom(cfg, v, moves) && Adds(v, ExecFrom(cfg, v, moves), k, h)
  {
    var v' := Do(cfg, v, Takes(Broadcast(op)));
    assert v'.s.sent[|v.s.sent|].txHash == h;
    FirstMove(cfg, v', Takes(Land(h)), Do(cfg, v', Takes(Land(h))), []);
    FirstMove(cfg, v, Takes(Broadcast(op)), v', [Takes(Land(h))] + []);
  }

  /** A re-stageable key of a free order goes all the way to the chain. */
  lemma FreeKeyLands(cfg: Config, w: World, c: nat, k: Action, h: string) returns (moves: seq<Move>)
    requires c !in w.s.waiting && Restageable(w.s, k) && !Blocked(Bare(w.s.t, k).records, k)
    requires h != "" && h !in w.s.dead
    ensures LegalFrom(cfg, w, moves) && Adds(w, ExecFrom(cfg, w, moves), k, h)
  {
    var op := w.s.nextOp;
    SubmitStages(cfg, w, c, k);
    var v := Do(cfg, w, Takes(Submit(c, k)));
    StagedIsRecorded(cfg, w, c, k, v, h);
    var v' := Do(cfg, v, Takes(StageDone(op, Staged(h))));
    RecordedLands(cfg, v', op, k, h);
    moves := [Takes(Broadcast(op))] + ([Takes(Land(h))] + []);
    FirstMove(cfg, v, Takes(StageDone(op, Staged(h))), v', moves);
    moves := [Takes(StageDone(op, Staged(h)))] + moves;
    FirstMove(cfg, w, Takes(Submit(c, k)), v, moves);
    moves := [Takes(Submit(c, k))] + moves;
  }

  /** A stale pending record is attached to, and given up when its chain says so. */
  lemma StaleRecordIsAttached(cfg: Config, w: World, b: Action)
    requires cfg.hasConfirmer && w.s.waiting == map[] && w.s.t.inflight == map[] && w.s.t.reconciling == {}
    requires b in w.s.t.records && w.s.t.records[b].status == Pending
    ensures Allowed(cfg, w, Takes(Submit(0, b)))
    ensures var v := Do(cfg, w, Takes(Submit(0, b)));
            && v.lost == w.lost && v.s.t.records == w.s.t.records && w.s.nextOp in v.s.ops
            && v.s.ops[w.s.nextOp] == Op(b, Polling(1)) && 1 !in v.s.waiting
            && v.s.sent == w.s.sent && v.s.landed == w.s.landed && v.s.dead == w.s.dead
  {
  }

  lemma DeadRecordIsGivenUp(cfg: Config, v: World, op: nat, b: Action)
    requires op in v.s.ops && v.s.ops[op] == Op(b, Polling(1)) && b in v.s.t.records && v.s.t.records[b].txHash.Some?
    requires v.s.t.records[b].txHash.value in v.s.dead && v.s.landed !! v.s.dead
    ensures Allowed(cfg, v, Takes(PollDone(op, ChainFailed)))
    ensures var v' := Do(cfg, v, Takes(PollDone(op, ChainFailed)));
            && v'.lost == v.lost && v'.s.sent == v.s.sent && v'.s.landed == v.s.landed && v'.s.dead == v.s.dead
            && v'.s.t.records == v.s.t.records[b := v.s.t.records[b].(status := Failed, reason := Some(FailedOnChain))]
            && v'.s.waiting == v.s.waiting
  {
  }

  /** What a restart knows of a forgotten key's order. */
  lemma ForgottenKeyIsRestageable(cfg: Config, w: World, content: Content, i: nat)
    requires StoreInv(cfg, w) && Former(w.s, content)
    requires i < |w.s.sent| && w.s.sent[i].txHash !in w.s.dead && !Holds(content, w.s.sent[i])
    ensures Restageable(Reborn(w.s, content), w.s.sent[i].key)
    ensures var k := w.s.sent[i].key;
            forall b :: b in content && b != k && SameOrder(b, k) && Normalise(content[b]).status != Failed ==>
              && content[b].status == Pending && content[b].txHash.Some? && content[b].txHash.value in w.s.dead
  {
    var k := w.s.sent[i].key;
    assert w.s.t.records[k].txHash == Some(w.s.sent[i].txHash) && w.s.t.records[k].status != Failed;
    assert k in content ==> Coupled(content[k]);
    forall b | b in content && b != k && SameOrder(b, k) && Normalise(content[b]).status != Failed
      ensures content[b].status == Pending && content[b].txHash.Some? && content[b].txHash.value in w.s.dead
    {
      assert Coupled(content[b]);
      assert w.s.t.records[b].status == Failed && Coupled(w.s.t.records[b]);
    }
  }

  lemma TwoOfOneOrder(w: World, i: nat, j: nat)
    requires i < |w.lost| && w.lost[i].txHash in w.s.landed
    requires j < |w.s.sent| && SameOrder(w.lost[i].key, w.s.sent[j].key) && w.s.sent[j].txHash in w.s.landed
    requires w.lost[i].txHash != w.s.sent[j].txHash
    ensures !Safe(w)
  {
    var all := w.lost + w.s.sent;
    assert all[i] == w.lost[i] && all[|w.lost| + j] == w.s.sent[j];
  }

  lemma AddedToALostOne(w: World, w': World, x: Sent, k: Action, h: string)
    requires x in w.lost && x.txHash in w.s.landed && SameOrder(x.key, k) && Adds(w, w', k, h) && h != x.txHash
    ensures !Safe(w')
  {
    var i :| 0 <= i < |w.lost| && w.lost[i] == x;
    assert w'.s.sent[|w.s.sent|] == Sent(k, h);
    TwoOfOneOrder(w', i, |w.s.sent|);
  }

  /** A second transaction, with a hash of its own. */
  lemma LandsAgain(cfg: Config, p: World, c: nat, x: Sent) returns (moves: seq<Move>)
    requires x in p.lost && x.txHash in p.s.landed
    requires c !in p.s.waiting && Restageable(p.s, x.key) && !Blocked(Bare(p.s.t, x.key).records, x.key)
    ensures LegalFrom(cfg, p, moves) && !Safe(ExecFrom(cfg, p, moves))
  {
    var h := FreshHash(p.s.dead + p.s.landed);
    assert h !in p.s.dead + p.s.landed;
    moves := FreeKeyLands(cfg, p, c, x.key, h);
    AddedToALostOne(p, ExecFrom(cfg, p, moves), x, x.key, h);
  }

  /** The order's lock is held by a stale record of a dead hash: it is given up first. */
  lemma LandsAgainBehindAStaleRecord(cfg: Config, p: World, b: Action, x: Sent) returns (moves: seq<Move>)
    requires cfg.hasConfirmer && p.s.waiting == map[] && p.s.t.inflight == map[] && p.s.t.reconciling == {}
    requires OrderLocked(p.s.t.records) && p.s.landed !! p.s.dead && Blocks(p.s.t.records, b, x.key)
    requires p.s.t.records[b].status == Pending && p.s.t.records[b].txHash.Some? && p.s.t.records[b].txHash.value in p.s.dead
    requires x in p.lost && x.txHash in p.s.landed && Restageable(p.s, x.key)
    ensures LegalFrom(cfg, p, moves) && !Safe(ExecFrom(cfg, p, moves))
  {
    var attach, giveUp := Takes(Submit(0, b)), Takes(PollDone(p.s.nextOp, ChainFailed));
    StaleRecordIsAttached(cfg, p, b);
    var v := Do(cfg, p, attach);
    DeadRecordIsGivenUp(cfg, v, p.s.nextOp, b);
    var v' := Do(cfg, v, giveUp);
    NothingElseBlocks(p.s.t.records, v'.s.t, b, x.key);
    moves := LandsAgain(cfg, v', 1, x);
    FirstMove(cfg, v, giveUp, v', moves);
    moves := [giveUp] + moves;
    FirstMove(cfg, p, attach, v, moves);
    moves := [attach] + moves;
  }

  /** The restart after a lost broadcast has landed. */
  lemma LostBroadcastLands(cfg: Config, p: World, x: Sent)
    requires x in p.lost && x.txHash !in p.s.dead
    ensures Allowed(cfg, p, LandsLost(x.txHash))
  {
    var i :| 0 <= i < |p.lost| && p.lost[i] == x;
  }

  lemma AfterTheLoss(cfg: Config, w: World, content: Content, x: Sent, v: World)
    requires StoreInv(cfg, w) && Former(w.s, content) && x.txHash !in w.s.dead
    requires v.s == Reborn(w.s, content).(landed := w.s.landed + {x.txHash})
    ensures v.s.waiting == map[] && v.s.t.inflight == map[] && v.s.t.reconciling == {}
    ensures OrderLocked(v.s.t.records) && v.s.landed !! v.s.dead && v.s.dead == w.s.dead
    ensures v.s.t.records == NormaliseAll(content) && v.s.t == Reborn(w.s, content).t
  {
    RebornRecords(w.s, content);
  }

  /** With the lost one landed, another transaction of its action follows. */
  lemma LostOneIsFollowed(cfg: Config, w: World, content: Content, i: nat, v: World) returns (moves: seq<Move>)
    requires StoreInv(cfg, w) && Former(w.s, content) && (cfg.hasConfirmer || w.s.dead == {})
    requires i < |w.s.sent| && w.s.sent[i].txHash !in w.s.dead && !Holds(content, w.s.sent[i])
    requires w.s.sent[i] in v.lost && v.s == Reborn(w.s, content).(landed := w.s.landed + {w.s.sent[i].txHash})
    ensures LegalFrom(cfg, v, moves) && !Safe(ExecFrom(cfg, v, moves))
  {
    var x := w.s.sent[i];
    AfterTheLoss(cfg, w, content, x, v);
    ForgottenKeyIsRestageable(cfg, w, content, i);
    if b :| Blocks(v.s.t.records, b, x.key) {
      assert v.s.t.records[b] == Normalise(content[b]);
      moves := LandsAgainBehindAStaleRecord(cfg, v, b, x);
    } else {
      assert forall b :: Blocks(Bare(v.s.t, x.key).records, b, x.key) ==> Blocks(v.s.t.records, b, x.key);
      moves := LandsAgain(cfg, v, 0, x);
    }
  }

  /**
   * After a restart that forgot a broadcast which is not dead, that one lands, its own action
   * is sent again, and another transaction of it lands too.
   */
  lemma ForgottenBroadcastLandsTwice(cfg: Config, w: World, content: Content, i: nat) returns (moves: seq<Move>)
    requires StoreInv(cfg, w) && Former(w.s, content) && (cfg.hasConfirmer || w.s.dead == {})
    requires i < |w.s.sent| && w.s.sent[i].txHash !in w.s.dead && !Holds(content, w.s.sent[i])
    ensures var p := RestartOn(w, content);
            LegalFrom(cfg, p, moves) && !Safe(ExecFrom(cfg, p, moves))
  {
    var p, x := RestartOn(w, content), w.s.sent[i];
    assert x in p.lost;
    LostBroadcastLands(cfg, p, x);
    var v := Do(cfg, p, LandsLost(x.txHash));
    moves := LostOneIsFollowed(cfg, w, content, i, v);
    FirstMove(cfg, p, LandsLost(x.txHash), v, moves);
    moves := [LandsLost(x.txHash)] + moves;
  }

  lemma NothingElseBlocks(before: Content, t: Tracker, b: Action, k: Action)
    requires OrderLocked(before) && Blocks(before, b, k)
    requires b in t.records && t.records == before[b := t.records[b]] && t.records[b].status == Failed
    ensures !Blocked(Bare(t, k).records, k)
  {
    assert forall a :: a in before && a != b && SameOrder(a, b) ==> before[a].status == Failed;
    assert forall a :: SameOrder(a, k) ==> SameOrder(a, b);
  }

  /** Without a confirmer nothing is polled and nothing given up. */
  ghost predicate Quiet(s: System) {
    s.dead == {} && forall o :: o in s.ops ==> !s.ops[o].pc.Polling? && !s.ops[o].pc.Sleeping?
  }

  lemma StepStaysQuiet(cfg: Config, s: System, step: Step)
    requires !cfg.hasConfirmer && Quiet(s) && Enabled(cfg, s, step)
    ensures Quiet(Apply(cfg, s, step))
  {
  }

  lemma {:induction false} NobodyGivesUp(cfg: Config, w: World, moves: seq<Move>)
    requires LegalFrom(cfg, w, moves) && Quiet(w.s)
    ensures cfg.hasConfirmer || ExecFrom(cfg, w, moves).s.dead == {}
    decreases |moves|
  {
    if moves != [] && !cfg.hasConfirmer {
      if moves[0].Takes? {
        StepStaysQuiet(cfg, w.s, moves[0].step);
      }
      NobodyGivesUp(cfg, Do(cfg, w, moves[0]), moves[1..]);
    }
  }

  /** However the run goes on, with restarts that remember, no two transactions of an order land. */
  ghost predicate StaysSafe(cfg: Config, w: World) {
    forall moves :: LegalFrom(cfg, w, moves) ==> Safe(ExecFrom(cfg, w, moves))
  }

  lemma ContentDecidesSafety(cfg: Config, w: World, snapshot: nat, kept: set<Action>, content: Content)
    requires cfg.Valid() && StoreInv(cfg, w) && (cfg.hasConfirmer || w.s.dead == {})
    requires Found(w, content, snapshot, kept)
    ensures StaysSafe(cfg, RestartOn(w, content)) <==> Remembers(w.s, content)
  {
    PrunedIsFormer(w.s, w.past[snapshot], kept);
    if Remembers(w.s, content) {
      RememberedStaysSafe(cfg, w, snapshot, kept);
    } else {
      ForgottenDoesNotStaySafe(cfg, w, content);
    }
  }

  /** The last snapshot is the one that all saves succeeding would have left. */
  ghost predicate SavesLast(w: World) {
    w.past != [] && w.past[|w.past| - 1] == w.s.t.saved
  }

  lemma ReachedWorlds(cfg: Config, history: seq<Move>)
    requires cfg.Valid() && LegalFrom(cfg, START, history)
    ensures var w := ExecFrom(cfg, START, history);
            StoreInv(cfg, w) && SavesLast(w) && (cfg.hasConfirmer || w.s.dead == {})
  {
    StartKeepsStoreInv(cfg);
    MovesKeepStoreInv(cfg, START, history);
    LastSnapshotIsSaved(cfg, START, history);
    NobodyGivesUp(cfg, START, history);
  }

  /**
   * After any history of failed saves, pruning and restarts that remembered: what the next
   * restart finds keeps the run safe exactly when it has the hash of every broadcast that is
   * not dead.
   */
  lemma SafeIffTheStoreRemembers(cfg: Config, history: seq<Move>, snapshot: nat, kept: set<Action>, content: Content)
    requires cfg.Valid() && LegalFrom(cfg, START, history)
    requires Found(ExecFrom(cfg, START, history), content, snapshot, kept)
    ensures var w := ExecFrom(cfg, START, history);
            StaysSafe(cfg, RestartOn(w, content)) <==> Remembers(w.s, content)
  {
    ReachedWorlds(cfg, history);
    ContentDecidesSafety(cfg, ExecFrom(cfg, START, history), snapshot, kept, content);
  }

  lemma ForgottenDoesNotStaySafe(cfg: Config, w: World, content: Content)
    requires cfg.Valid() && StoreInv(cfg, w) && Former(w.s, content) && (cfg.hasConfirmer || w.s.dead == {})
    requires !Remembers(w.s, content)
    ensures !StaysSafe(cfg, RestartOn(w, content))
  {
    var x :| x in w.s.sent && x.txHash !in w.s.dead && !Holds(content, x);
    var i :| 0 <= i < |w.s.sent| && w.s.sent[i] == x;
    var moves := ForgottenBroadcastLandsTwice(cfg, w, content, i);
  }

  lemma RememberedStaysSafe(cfg: Config, w: World, snapshot: nat, kept: set<Action>)
    requires cfg.Valid() && StoreInv(cfg, w) && Allowed(cfg, w, Restarts(snapshot, kept))
    ensures StaysSafe(cfg, RestartOn(w, Only(w.past[snapshot], kept)))
  {
    var p := RestartOn(w, Only(w.past[snapshot], kept));
    RestartKeepsStoreInv(cfg, w, snapshot, kept);
    forall moves | LegalFrom(cfg, p, moves)
      ensures Safe(ExecFrom(cfg, p, moves))
    {
      MovesKeepStoreInv(cfg, p, moves);
      StoreInvIsSafe(cfg, ExecFrom(cfg, p, moves));
    }
  }

  // ---- Pruning alone -----------------------------------------------------------------

  lemma SavedAgrees(s: System, k: Action)
    requires AllCoupled(s.t.records) && Durable(s.t)
    ensures k in s.t.saved <==> k in s.t.records
    ensures k in s.t.saved ==> Coupled(s.t.saved[k]) && Coupled(s.t.records[k]) && Normalise(s.t.saved[k]) == Normalise(s.t.records[k])
  {
    assert k in NormaliseAll(s.t.saved) <==> k in NormaliseAll(s.t.records);
    if k in s.t.saved {
      assert NormaliseAll(s.t.saved)[k] == NormaliseAll(s.t.records)[k];
    }
  }

  lemma {:induction false} LastSnapshotIsSaved(cfg: Config, w: World, moves: seq<Move>)
    requires SavesLast(w)
    ensures SavesLast(ExecFrom(cfg, w, moves))
    decreases |moves|
  {
    if moves != [] && Allowed(cfg, w, moves[0]) {
      LastSnapshotIsSaved(cfg, Do(cfg, w, moves[0]), moves[1..]);
    }
  }

  /** The chains' word for a success is true: the transaction was broadcast and is not dead. */
  ghost predicate SuccessesAreReal(s: System) {
    forall k :: k in s.t.records && s.t.records[k].status == Succeeded ==>
      exists x :: x in s.sent && x.key == k && x.txHash !in s.dead
  }

  predicate DropsOnlyFailures(saved: Content, kept: set<Action>) {
    forall k :: k in saved && k !in kept ==> saved[k].status == Failed
  }

  /** Of a written snapshot, pruning forgets exactly the hashes of the dropped keys. */
  lemma PrunedBroadcast(s: System, kept: set<Action>, x: Sent)
    requires AllCoupled(s.t.records) && Durable(s.t) && Ledger(s) && x in s.sent
    ensures x.key in s.t.saved && s.t.saved[x.key].status == s.t.records[x.key].status
    ensures Holds(Only(s.t.saved, kept), x) <==> x.key in kept
    ensures s.t.saved[x.key].status == Failed ==> x.txHash in s.dead
  {
    var i :| 0 <= i < |s.sent| && s.sent[i] == x;
    assert s.t.records[x.key].txHash == Some(x.txHash);
    SavedAgrees(s, x.key);
  }

  /** The broadcasts whose records were dropped are dead. */
  ghost predicate DropsOnlyTheDead(s: System, kept: set<Action>) {
    forall x :: x in s.sent && x.key !in kept ==> x.txHash in s.dead
  }

  lemma PruningRemembersIffOnlyTheDeadAreDropped(cfg: Config, w: World, kept: set<Action>)
    requires StoreInv(cfg, w)
    ensures Remembers(w.s, Only(w.s.t.saved, kept)) <==> DropsOnlyTheDead(w.s, kept)
  {
    forall x | x in w.s.sent
      ensures Holds(Only(w.s.t.saved, kept), x) <==> x.key in kept
    {
      PrunedBroadcast(w.s, kept, x);
    }
  }

  lemma OnlyTheDeadAreDroppedIffNoSuccess(cfg: Config, w: World, kept: set<Action>)
    requires StoreInv(cfg, w) && SuccessesAreReal(w.s) && OnlyTerminalDropped(w.s.t.saved, kept)
    ensures DropsOnlyTheDead(w.s, kept) <==> DropsOnlyFailures(w.s.t.saved, kept)
  {
    forall x | x in w.s.sent && x.key !in kept && DropsOnlyFailures(w.s.t.saved, kept)
      ensures x.txHash in w.s.dead
    {
      PrunedBroadcast(w.s, kept, x);
    }
    forall k | k in w.s.t.saved && k !in kept && DropsOnlyTheDead(w.s, kept)
      ensures w.s.t.saved[k].status == Failed
    {
      SavedAgrees(w.s, k);
    }
  }

  lemma LastSnapshotIsFound(w: World, kept: set<Action>)
    requires SavesLast(w) && OnlyTerminalDropped(w.s.t.saved, kept)
    ensures Found(w, Only(w.s.t.saved, kept), |w.past| - 1, kept)
  {
  }

  lemma PruningDecidesSafety(cfg: Config, w: World, kept: set<Action>, content: Content)
    requires cfg.Valid() && StoreInv(cfg, w) && SavesLast(w) && (cfg.hasConfirmer || w.s.dead == {})
    requires OnlyTerminalDropped(w.s.t.saved, kept) && content == Only(w.s.t.saved, kept)
    ensures StaysSafe(cfg, RestartOn(w, content)) <==> DropsOnlyTheDead(w.s, kept)
  {
    PruningRemembersIffOnlyTheDeadAreDropped(cfg, w, kept);
    LastSnapshotIsFound(w, kept);
    ContentDecidesSafety(cfg, w, |w.past| - 1, kept, content);
  }

  /**
   * A restart from what pruning left of the last snapshot stays safe exactly when every
   * broadcast whose record was dropped is dead.
   */
  lemma PruningIsSafeIffOnlyTheDeadAreDropped(cfg: Config, history: seq<Move>, kept: set<Action>)
    requires cfg.Valid() && LegalFrom(cfg, START, history)
    requires OnlyTerminalDropped(ExecFrom(cfg, START, history).s.t.saved, kept)
    ensures var w := ExecFrom(cfg, START, history);
            StaysSafe(cfg, RestartOn(w, Only(w.s.t.saved, kept))) <==> DropsOnlyTheDead(w.s, kept)
  {
    ReachedWorlds(cfg, history);
    var w := ExecFrom(cfg, START, history);
    PruningDecidesSafety(cfg, w, kept, Only(w.s.t.saved, kept));
  }

  /** Where the chains' word for a success is true, that is exactly when no success was dropped. */
  lemma PruningIsSafeIffNoSuccessIsDropped(cfg: Config, history: seq<Move>, kept: set<Action>)
    requires cfg.Valid() && LegalFrom(cfg, START, history)
    requires var s := ExecFrom(cfg, START, history).s; SuccessesAreReal(s) && OnlyTerminalDropped(s.t.saved, kept)
    ensures var w := ExecFrom(cfg, START, history);
            StaysSafe(cfg, RestartOn(w, Only(w.s.t.saved, kept))) <==> DropsOnlyFailures(w.s.t.saved, kept)
  {
    ReachedWorlds(cfg, history);
    PruningIsSafeIffOnlyTheDeadAreDropped(cfg, history, kept);
    OnlyTheDeadAreDroppedIffNoSuccess(cfg, ExecFrom(cfg, START, history), kept);
  }

  /** Over a pruning store a tombstone is staged again after a restart exactly when it was dropped or has no hash. */
  lemma TombstonesOverAPruningStore(cfg: Config, history: seq<Move>, kept: set<Action>, k: Action)
    requires cfg.Valid() && LegalFrom(cfg, START, history)
    requires RelayRestarts.Tombstone(ExecFrom(cfg, START, history).s.t, k)
    ensures var s := ExecFrom(cfg, START, history).s;
            Restageable(Reborn(s, Only(s.t.saved, kept)), k) <==> k !in kept || s.t.records[k].txHash.None?
  {
    StartKeepsStoreInv(cfg);
    MovesKeepStoreInv(cfg, START, history);
    SavedAgrees(ExecFrom(cfg, START, history).s, k);
  }

  /** What the file store's pruning leaves of the saved records. */
  lemma FileStorePrunes(saved: Content, entries: seq<RelayStore.Persisted>, maxRecords: nat)
    requires RelayStore.DistinctKeys(entries) && RelayStore.Latest(entries) == saved
    ensures var left := RelayStore.Latest(RelayStore.Prune(entries, maxRecords)); left == Only(saved, left.Keys)
  {
    var kept := RelayStore.Prune(entries, maxRecords);
    RelayStore.PrunedIsASubset(entries, maxRecords);
    RelayStore.LatestOfSubset(kept, entries);
    RelayStore.LatestOfDistinctKeys(kept);
  }

  /** Pruning never drops a reserved or pending record. */
  lemma FileStoreDropsOnlyTerminal(saved: Content, entries: seq<RelayStore.Persisted>, maxRecords: nat)
    requires RelayStore.DistinctKeys(entries) && RelayStore.Latest(entries) == saved
    ensures OnlyTerminalDropped(saved, RelayStore.Latest(RelayStore.Prune(entries, maxRecords)).Keys)
  {
    var kept := RelayStore.Prune(entries, maxRecords);
    RelayStore.PrunedIsASubset(entries, maxRecords);
    RelayStore.LatestOfDistinctKeys(kept);
    RelayStore.LatestOfDistinctKeys(entries);
    forall k | k in saved && k !in RelayStore.Latest(kept)
      ensures saved[k].status == Succeeded || saved[k].status == Failed
    {
      var p :| p in entries && p.key == k;
      assert p !in kept;
      DroppedIsTerminal(entries, maxRecords, p);
      assert saved[k] == p.Raw();
    }
  }

  lemma DroppedIsTerminal(entries: seq<RelayStore.Persisted>, maxRecords: nat, p: RelayStore.Persisted)
    requires RelayStore.DistinctKeys(entries) && p in entries && p !in RelayStore.Prune(entries, maxRecords)
    ensures p.Raw().status == Succeeded || p.Raw().status == Failed
  {
    RelayStore.PrunedIsASubset(entries, maxRecords);
    RelayStore.PruneDropsOnlyTerminal(entries, maxRecords);
  }
}
