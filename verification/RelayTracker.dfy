/**
 * The imperative tracker. Each method runs one block of `submit`, `broadcastOnce` or
 * `reconcile` on mutable records and the store, and is proved to take exactly the step
 * that RelayRecords defines and RelayRuns interleaves.
 */
module RelayTracker {
  import opened Prelude
  import opened RelayRecords
  import opened RelayStore

  class SubmissionRecord {
    const key: Action
    var status: Status
    var attempts: nat
    var broadcasts: nat
    var txHash: Option<string>
    var terminalReason: Option<Reason>
    var firstSeenAt: int
    var lastAttemptAt: Option<int>
    var completedAt: Option<int>

    constructor (key: Action, now: int)
      ensures this.key == key && Value() == RESERVED
    {
      this.key := key;
      status, attempts, broadcasts := InFlight, 0, 0;
      txHash, terminalReason := None, None;
      firstSeenAt, lastAttemptAt, completedAt := now, None, None;
    }

    /** What `restore` makes of a persisted entry. */
    constructor Rehydrate(entry: Persisted)
      ensures key == entry.key && Value() == Normalise(entry.Raw())
    {
      key := entry.key;
      var hashed := entry.txHash.Some? && entry.txHash.value != "";
      var worth :=
        if entry.status == Known(Succeeded) then Succeeded
        else if entry.status == Known(Pending) && hashed then Pending
        else Failed;
      status := worth;
      terminalReason :=
        if worth == Failed && (entry.reason == Some(StagingFailed) || !hashed) then Some(StagingFailed) else entry.reason;
      attempts := if entry.attempts.Some? then entry.attempts.value else 0;
      broadcasts := if entry.broadcasts.Some? then entry.broadcasts.value else if hashed then 1 else 0;
      txHash := entry.txHash;
      firstSeenAt, lastAttemptAt, completedAt := entry.firstSeenAt, entry.lastAttemptAt, entry.completedAt;
    }

    function Value(): Record
      reads this
    {
      Record(status, txHash, terminalReason, broadcasts)
    }

    function ToPersisted(): (p: Persisted)
      reads this
      ensures p.key == key && p.Raw() == Value()
    {
      Persisted(key, Known(status), txHash, terminalReason, Some(attempts), Some(broadcasts), firstSeenAt, lastAttemptAt, completedAt)
    }
  }

  ghost predicate Distinct(order: seq<Action>) {
    forall i, j :: 0 <= i < j < |order| ==> order[i] != order[j]
  }

  lemma OthersStay(order: seq<Action>, i: nat)
    requires Distinct(order) && i < |order|
    ensures var rest := order[..i] + order[i + 1..];
            Distinct(rest) && forall k :: k in rest <==> k in order && k != order[i]
  {
    var rest := order[..i] + order[i + 1..];
    assert order == order[..i] + [order[i]] + order[i + 1..];
    assert forall j :: 0 <= j < |rest| ==> rest[j] == order[if j < i then j else j + 1];
    forall k | k in rest
      ensures k in order && k != order[i]
    {
      var j :| 0 <= j < |rest| && rest[j] == k;
    }
  }

  /** One entry for each key describes the map they were taken from. */
  lemma {:induction false} EntriesDescribe(entries: seq<Persisted>, order: seq<Action>, values: map<Action, Record>)
    requires Distinct(order) && |entries| == |order| && forall k :: k in order <==> k in values
    requires forall j :: 0 <= j < |order| ==> order[j] in order && entries[j].key == order[j] && entries[j].Raw() == values[order[j]]
    ensures Latest(entries) == values
  {
    assert DistinctKeys(entries);
    LatestOfDistinctKeys(entries);
    assert forall j :: 0 <= j < |order| ==> entries[j] in entries;
    forall k | k in Latest(entries)
      ensures k in values && Latest(entries)[k] == values[k]
    {
      var p :| p in entries && p.key == k;
      var j :| 0 <= j < |entries| && entries[j] == p;
      assert order[j] == k;
    }
    forall k | k in values
      ensures k in Latest(entries)
    {
      var j :| 0 <= j < |order| && order[j] == k;
      assert entries[j].key == k;
    }
  }

  class RelaySubmissionTracker {
    const cfg: Config
    const store: MemoryRelaySubmissionStore
    var records: map<Action, SubmissionRecord>
    /** The iteration order of `records`. */
    var order: seq<Action>
    var inflight: map<Action, nat>
    var reconciling: set<Action>

    ghost predicate Valid()
      reads `records, `order
    {
      && cfg.Valid()
      && Distinct(order)
      && (forall k :: k in order <==> k in records)
      && (forall k :: k in records ==> records[k].key == k)
    }

    ghost predicate Holds(record: SubmissionRecord)
      reads `records
    {
      record.key in records && records[record.key] == record
    }

    ghost function Values(): map<Action, Record>
      reads `records, records.Values
    {
      map k | k in records :: records[k].Value()
    }

    ghost function State(): Tracker
      reads `records, `inflight, `reconciling, store, records.Values
    {
      Tracker(Values(), Latest(store.entries), inflight, reconciling)
    }

    constructor (maxAttempts: Option<int>, hasConfirmer: bool, store: MemoryRelaySubmissionStore)
      ensures Valid() && this.store == store && fresh(records.Values)
      ensures cfg == Config(if maxAttempts.None? then 3 else if maxAttempts.value < 1 then 1 else maxAttempts.value, hasConfirmer)
      ensures State() == Restart(Tracker(map[], Latest(store.entries), map[], {}))
    {
      var wanted := if maxAttempts.Some? then maxAttempts.value else 3;
      cfg := Config(if wanted < 1 then 1 else wanted, hasConfirmer);
      this.store := store;
      records, order, inflight, reconciling := map[], [], map[], {};
      new;
      Restore();
      assert Overlay(map[], store.entries) == NormaliseAll(Latest(store.entries));
    }

    method Restore()
      requires Valid()
      modifies `records, `order
      ensures Valid() && fresh(records.Values - old(records.Values))
      ensures Values() == Overlay(old(Values()), store.entries)
    {
      var loaded := store.Load();
      ghost var before := Values();
      for i := 0 to |loaded|
        invariant Valid() && fresh(records.Values - old(records.Values))
        invariant Values() == Overlay(before, loaded[..i])
      {
        RestoreEntry(loaded[i]);
        OverlayOneMore(before, loaded, i);
      }
      assert loaded[..|loaded|] == loaded;
    }

    method RestoreEntry(entry: Persisted)
      requires Valid()
      modifies `records, `order
      ensures Valid() && fresh(records.Values - old(records.Values))
      ensures Values() == old(Values())[entry.key := Normalise(entry.Raw())]
    {
      var record := new SubmissionRecord.Rehydrate(entry);
      Put(record);
    }

    /** `records.set`: a new key goes to the end of the iteration order. */
    method Put(record: SubmissionRecord)
      requires Valid()
      modifies `records, `order
      ensures Valid() && records == old(records)[record.key := record]
      ensures Values() == old(Values())[record.key := record.Value()]
    {
      if record.key !in records {
        order := order + [record.key];
      }
      records := records[record.key := record];
    }

    /** `Array.from(records.values()).map(toPersistedSubmission)`, first `n` records. */
    ghost function Snapshot(n: nat): (r: seq<Persisted>)
      requires Valid() && n <= |order|
      reads `records, `order, records.Values
      ensures |r| == n
      ensures forall j :: 0 <= j < n ==> order[j] in records && r[j] == records[order[j]].ToPersisted()
    {
      if n == 0 then [] else Snapshot(n - 1) + [records[order[n - 1]].ToPersisted()]
    }

    lemma WholeSnapshotDescribesRecords()
      requires Valid()
      ensures Latest(Snapshot(|order|)) == Values()
    {
      var entries := Snapshot(|order|);
      assert forall j :: 0 <= j < |order| ==> entries[j].key == order[j] && entries[j].Raw() == Values()[order[j]];
      EntriesDescribe(entries, order, Values());
    }

    method TakeSnapshot() returns (snapshot: seq<Persisted>)
      requires Valid()
      ensures Latest(snapshot) == Values()
    {
      snapshot := [];
      for i := 0 to |order|
        invariant snapshot == Snapshot(i)
      {
        snapshot := snapshot + [records[order[i]].ToPersisted()];
      }
      WholeSnapshotDescribesRecords();
    }

    method Persist()
      requires Valid()
      modifies store
      ensures Latest(store.entries) == Values() == old(Values())
    {
      var snapshot := TakeSnapshot();
      store.Save(snapshot);
    }

    /** Updating one record in place updates the records map at its key only. */
    twostate lemma WroteOneRecord(record: SubmissionRecord)
      requires old(Valid()) && old(Holds(record))
      requires records == old(records)
      requires forall k :: k in records && k != record.key ==> unchanged(records[k])
      ensures Values() == old(Values())[record.key := record.Value()]
    {
    }

    /** The record that refuses `a`, if any; there is one exactly when the order is blocked. */
    method GetBlockingRecord(a: Action) returns (blocking: SubmissionRecord?)
      requires Valid()
      ensures blocking != null ==> Holds(blocking) && Blocks(Values(), blocking.key, a)
      ensures blocking == null ==> !Blocked(Values(), a)
    {
      for i := 0 to |order|
        invariant forall j :: 0 <= j < i ==> !Blocks(Values(), order[j], a)
      {
        var record := records[order[i]];
        if SameOrder(record.key, a) && record.key != a && record.status != Failed {
          return record;
        }
      }
      return null;
    }

    /** The synchronous part of `submit`. `op` names the promise it may create. */
    method Submit(a: Action, op: nat, now: int) returns (reply: Reply)
      requires Valid()
      modifies this, store, records.Values
      ensures Valid() && fresh(records.Values - old(records.Values))
      ensures (State(), reply) == SubmitBlock(old(State()), cfg, a, op)
    {
      if a in records {
        var existing := records[a];
        if existing.status == Succeeded {
          return Answered(Success(existing.txHash));
        }
        if existing.status == Failed {
          if existing.terminalReason == Some(StagingFailed) {
            reply := Restage(a, op, now);
            return;
          }
          return Answered(Terminal(if existing.terminalReason.Some? then existing.terminalReason.value else FailedOnChain));
        }
        if a in inflight {
          return Joins(inflight[a]);
        }
        if existing.status == InFlight {
          return Answered(AlreadyInFlight);
        }
        var pc := Reconcile(existing, now);
        inflight := inflight[a := op];
        return Drives(pc);
      }
      reply := SubmitUnreserved(a, op, now);
    }

    /** A staging failure never reached the network: drop the record and submit again. */
    method Restage(a: Action, op: nat, now: int) returns (reply: Reply)
      requires Valid() && a in records
      modifies this, store
      ensures Valid() && fresh(records.Values - old(records.Values))
      ensures (State(), reply) == Reserve(RelayRecords.Persist(old(State()).(records := old(Values()) - {a})), a, op)
    {
      Remove(a);
      Persist();
      reply := SubmitUnreserved(a, op, now);
    }

    /** `submit` for a key without a record: `assertOrderAvailable`, then reserve and start. */
    method SubmitUnreserved(a: Action, op: nat, now: int) returns (reply: Reply)
      requires Valid() && a !in records
      modifies this, store
      ensures Valid() && fresh(records.Values - old(records.Values))
      ensures (State(), reply) == Reserve(old(State()), a, op)
    {
      var blocking := GetBlockingRecord(a);
      if blocking != null {
        return Answered(OrderBusy);
      }
      reply := Open(a, op, now);
    }

    method PlaceOf(a: Action) returns (i: nat)
      requires a in order
      ensures i < |order| && order[i] == a
    {
      i := 0;
      while order[i] != a
        invariant i < |order| && forall j :: 0 <= j < i ==> order[j] != a
        decreases |order| - i
      {
        i := i + 1;
      }
    }

    /** `records.delete` */
    method Remove(a: Action)
      requires Valid() && a in records
      modifies `records, `order
      ensures Valid() && records == old(records) - {a}
      ensures Values() == old(Values()) - {a}
    {
      var i := PlaceOf(a);
      OthersStay(order, i);
      order := order[..i] + order[i + 1..];
      records := records - {a};
    }

    method Insert(a: Action, now: int) returns (record: SubmissionRecord)
      requires Valid() && a !in records
      modifies `records, `order
      ensures Valid() && Holds(record) && record.key == a && fresh(record) && fresh(records.Values - old(records.Values))
      ensures Values() == old(Values())[a := RESERVED]
    {
      record := new SubmissionRecord(a, now);
      Put(record);
    }

    method CountAttempt(record: SubmissionRecord, now: int)
      requires Valid() && Holds(record)
      modifies record
      ensures Values() == old(Values())
    {
      record.attempts, record.lastAttemptAt := record.attempts + 1, Some(now);
      WroteOneRecord(record);
    }

    /** Reserve the key, persist the reservation, and start `broadcastOnce`. */
    method Open(a: Action, op: nat, now: int) returns (reply: Reply)
      requires Valid() && a !in records
      modifies this, store
      ensures Valid() && fresh(records.Values - old(records.Values))
      ensures State() == Write(old(State()), a, RESERVED).(inflight := old(inflight)[a := op])
      ensures reply == Drives(Staging)
    {
      var record := Insert(a, now);
      Persist();
      CountAttempt(record, now);
      inflight := inflight[a := op];
      reply := Drives(Staging);
    }

    method Fail(record: SubmissionRecord, reason: Reason, now: int)
      requires Valid() && Holds(record)
      modifies record, store
      ensures State() == RelayRecords.Fail(old(State()), record.key, reason)
    {
      record.status, record.completedAt, record.terminalReason := Failed, Some(now), Some(reason);
      WroteOneRecord(record);
      Persist();
    }

    method SettleSuccess(record: SubmissionRecord, now: int) returns (pc: Pc)
      requires Valid() && Holds(record)
      modifies record, store
      ensures (State(), pc) == Settle(old(State()), record.key)
    {
      record.status, record.completedAt := Succeeded, Some(now);
      WroteOneRecord(record);
      Persist();
      pc := Settled(Success(record.txHash));
    }

    /** `broadcastOnce` after its stager: the hash is persisted before the caller may broadcast. */
    method StageSettled(record: SubmissionRecord, result: StageResult, now: int) returns (pc: Pc)
      requires Valid() && Holds(record)
      modifies record, store
      ensures (State(), pc) == StageBlock(old(State()), record.key, result)
      ensures pc.Recorded? ==> Latest(store.entries)[record.key].txHash == Some(result.txHash)
    {
      match result
      case Threw(retryable) =>
        var reason := if retryable then StagingFailed else NonRetryable;
        Fail(record, reason, now);
        pc := Settled(Terminal(reason));
      case Staged(txHash) =>
        if txHash == "" {
          Fail(record, StagingFailed, now);
          return Settled(Terminal(StagingFailed));
        }
        RecordHash(record, txHash);
        pc := Recorded;
    }

    method RecordHash(record: SubmissionRecord, txHash: string)
      requires Valid() && Holds(record)
      modifies record, store
      ensures var r := old(record.Value());
              State() == Write(old(State()), record.key, r.(status := Pending, txHash := Some(txHash), broadcasts := r.broadcasts + 1))
    {
      record.txHash, record.status, record.broadcasts := Some(txHash), Pending, record.broadcasts + 1;
      WroteOneRecord(record);
      Persist();
    }

    /** `broadcastOnce` after its broadcast resolved, threw or timed out. */
    method BroadcastSettled(record: SubmissionRecord, ok: bool, now: int) returns (pc: Pc)
      requires Valid() && Holds(record)
      modifies this`reconciling, record, store
      ensures (State(), pc) == BroadcastBlock(old(State()), cfg, record.key, ok)
    {
      if ok {
        pc := SettleSuccess(record, now);
      } else {
        Persist();
        pc := Reconcile(record, now);
      }
    }

    /** `reconcile` up to its first poll. */
    method Reconcile(record: SubmissionRecord, now: int) returns (pc: Pc)
      requires Valid() && Holds(record)
      modifies this`reconciling, record
      ensures (State(), pc) == StartReconcile(old(State()), cfg, record.key)
    {
      if !cfg.hasConfirmer {
        return Settled(ConfirmationTimeout(record.txHash));
      }
      if record.key in reconciling {
        return Settled(AlreadyInFlight);
      }
      reconciling := reconciling + {record.key};
      CountAttempt(record, now);
      pc := Polling(1);
    }

    /** `reconcile` after its `polls`-th answer. */
    method PollSettled(record: SubmissionRecord, polls: nat, answer: ChainState, now: int) returns (pc: Pc)
      requires Valid() && Holds(record)
      modifies this`reconciling, record, store
      ensures (State(), pc) == PollBlock(old(State()), cfg, record.key, polls, answer)
    {
      if answer == ChainSucceeded {
        pc := SettleSuccess(record, now);
        reconciling := reconciling - {record.key};
        return;
      }
      if answer == ChainFailed {
        Fail(record, FailedOnChain, now);
        reconciling := reconciling - {record.key};
        return Settled(Terminal(FailedOnChain));
      }
      Persist();
      if polls < cfg.maxAttempts {
        return Sleeping(polls);
      }
      pc := BudgetExhausted(record, answer, now);
      reconciling := reconciling - {record.key};
    }

    method BudgetExhausted(record: SubmissionRecord, last: ChainState, now: int) returns (pc: Pc)
      requires Valid() && Holds(record)
      modifies record, store
      ensures (State(), pc) ==
              if last == ChainNotFound then (RelayRecords.Fail(old(State()), record.key, NotFound), Settled(Terminal(NotFound)))
              else (RelayRecords.Persist(old(State())), Settled(ConfirmationTimeout(old(record.txHash))))
    {
      if last == ChainNotFound {
        Fail(record, NotFound, now);
        pc := Settled(Terminal(NotFound));
      } else {
        Persist();
        pc := Settled(ConfirmationTimeout(record.txHash));
      }
    }

    /** The settlement callback of `track`. */
    method ClearInflight(a: Action, op: nat)
      modifies this`inflight
      ensures State() == ClearBlock(old(State()), a, op)
    {
      if a in inflight && inflight[a] == op {
        inflight := inflight - {a};
      }
    }
  }
}
