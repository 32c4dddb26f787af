/** Durability of submission records: the snapshot format, the two stores, and pruning. */
module RelayStore {
  import opened Prelude
  import opened RelayRecords
  import RelayRuns

  datatype PersistedStatus = Known(status: Status) | Unknown

  datatype Persisted = Persisted(
    key: Action,
    status: PersistedStatus,
    txHash: Option<string>,
    reason: Option<Reason>,
    attempts: Option<nat>,
    broadcasts: Option<nat>,
    firstSeenAt: int,
    lastAttemptAt: Option<int>,
    completedAt: Option<int>)
  {
    predicate Live() { status == Known(InFlight) || status == Known(Pending) }

    /** The time pruning orders terminal records by. */
    function Age(): int {
      if completedAt.Some? then completedAt.value
      else if lastAttemptAt.Some? then lastAttemptAt.value
      else firstSeenAt
    }

    /** The record an entry describes before `restore` judges it; an unknown status is worth a failure. */
    function Raw(): Record {
      Record(
        if status.Known? then status.status else Failed,
        txHash,
        reason,
        if broadcasts.Some? then broadcasts.value else if txHash.Some? && txHash.value != "" then 1 else 0)
    }
  }

  /** The records a snapshot describes; a later entry for a key replaces an earlier one. */
  function Latest(entries: seq<Persisted>): map<Action, Record> {
    if entries == [] then map[]
    else
      var last := entries[|entries| - 1];
      Latest(entries[..|entries| - 1])[last.key := last.Raw()]
  }

  /** `restore` over the records a tracker already holds. */
  ghost function Overlay(records: map<Action, Record>, entries: seq<Persisted>): map<Action, Record> {
    records + NormaliseAll(Latest(entries))
  }

  lemma OverlayOneMore(records: map<Action, Record>, entries: seq<Persisted>, i: nat)
    requires i < |entries|
    ensures Overlay(records, entries[..i + 1]) ==
            Overlay(records, entries[..i])[entries[i].key := Normalise(entries[i].Raw())]
  {
    assert entries[..i + 1][..i] == entries[..i];
  }

  ghost predicate DistinctKeys(entries: seq<Persisted>) {
    forall i, j :: 0 <= i < j < |entries| ==> entries[i].key != entries[j].key
  }

  lemma {:induction false} LatestOfDistinctKeys(entries: seq<Persisted>)
    requires DistinctKeys(entries)
    ensures forall k :: k in Latest(entries) <==> exists p :: p in entries && p.key == k
    ensures forall p :: p in entries ==> p.key in Latest(entries) && Latest(entries)[p.key] == p.Raw()
  {
    if entries != [] {
      var n := |entries| - 1;
      LatestOfDistinctKeys(entries[..n]);
      assert entries == entries[..n] + [entries[n]];
    }
  }

  function Select(entries: seq<Persisted>, live: bool): (r: seq<Persisted>)
    ensures forall p :: p in r ==> p in entries && p.Live() == live
  {
    if entries == [] then []
    else (if entries[0].Live() == live then [entries[0]] else []) + Select(entries[1..], live)
  }

  /** Newest first, equal ages in their given order. */
  function Insert(p: Persisted, sorted: seq<Persisted>): seq<Persisted> {
    if sorted == [] || p.Age() >= sorted[0].Age() then [p] + sorted
    else [sorted[0]] + Insert(p, sorted[1..])
  }

  function NewestFirst(entries: seq<Persisted>): seq<Persisted> {
    if entries == [] then [] else Insert(entries[0], NewestFirst(entries[1..]))
  }

  function Prune(entries: seq<Persisted>, maxRecords: nat): seq<Persisted> {
    Select(entries, true) + Kept(entries, maxRecords)
  }

  function Kept(entries: seq<Persisted>, maxRecords: nat): seq<Persisted> {
    var terminal := NewestFirst(Select(entries, false));
    if |terminal| <= maxRecords then terminal else terminal[..maxRecords]
  }

  ghost function Dropped(entries: seq<Persisted>, maxRecords: nat): seq<Persisted> {
    NewestFirst(Select(entries, false))[|Kept(entries, maxRecords)|..]
  }

  ghost predicate Sorted(entries: seq<Persisted>) {
    forall i, j :: 0 <= i < j < |entries| ==> entries[i].Age() >= entries[j].Age()
  }

  // ---- Sorting and selecting ------------------------------------------------------

  lemma {:induction false} InsertAdds(p: Persisted, sorted: seq<Persisted>)
    ensures multiset(Insert(p, sorted)) == multiset(sorted) + multiset{p}
  {
    if sorted != [] && p.Age() < sorted[0].Age() {
      InsertAdds(p, sorted[1..]);
      assert sorted == [sorted[0]] + sorted[1..];
    }
  }

  lemma {:induction false} InsertSorts(p: Persisted, sorted: seq<Persisted>)
    requires Sorted(sorted)
    ensures Sorted(Insert(p, sorted))
  {
    if sorted != [] && p.Age() < sorted[0].Age() {
      var rest := Insert(p, sorted[1..]);
      InsertSorts(p, sorted[1..]);
      InsertAdds(p, sorted[1..]);
      forall i | 0 <= i < |rest|
        ensures sorted[0].Age() >= rest[i].Age()
      {
        assert rest[i] in multiset(rest);
        assert rest[i] == p || rest[i] in sorted[1..];
      }
    }
  }

  lemma {:induction false} NewestFirstSorts(entries: seq<Persisted>)
    ensures Sorted(NewestFirst(entries))
    ensures multiset(NewestFirst(entries)) == multiset(entries)
  {
    if entries != [] {
      NewestFirstSorts(entries[1..]);
      InsertSorts(entries[0], NewestFirst(entries[1..]));
      InsertAdds(entries[0], NewestFirst(entries[1..]));
      assert entries == [entries[0]] + entries[1..];
    }
  }

  lemma {:induction false} NewestFirstOfSorted(entries: seq<Persisted>)
    requires Sorted(entries)
    ensures NewestFirst(entries) == entries
  {
    if entries != [] {
      NewestFirstOfSorted(entries[1..]);
      assert entries == [entries[0]] + entries[1..];
    }
  }

  lemma {:induction false} SelectConcat(a: seq<Persisted>, b: seq<Persisted>, live: bool)
    ensures Select(a + b, live) == Select(a, live) + Select(b, live)
  {
    if a == [] {
      assert a + b == b;
    } else {
      assert (a + b)[1..] == a[1..] + b;
      SelectConcat(a[1..], b, live);
    }
  }

  lemma {:induction false} SelectAllOrNone(entries: seq<Persisted>, live: bool)
    requires forall p :: p in entries ==> p.Live() == live
    ensures Select(entries, live) == entries && Select(entries, !live) == []
  {
    if entries != [] {
      SelectAllOrNone(entries[1..], live);
      assert entries == [entries[0]] + entries[1..];
    }
  }

  lemma {:induction false} SelectPartitions(entries: seq<Persisted>)
    ensures multiset(Select(entries, true)) + multiset(Select(entries, false)) == multiset(entries)
  {
    if entries != [] {
      SelectPartitions(entries[1..]);
      assert entries == [entries[0]] + entries[1..];
    }
  }

  lemma TerminalIsSorted(entries: seq<Persisted>)
    ensures var terminal := NewestFirst(Select(entries, false));
            && Sorted(terminal)
            && multiset(terminal) == multiset(Select(entries, false))
            && (forall p :: p in terminal ==> !p.Live())
  {
    var terminal := NewestFirst(Select(entries, false));
    NewestFirstSorts(Select(entries, false));
    forall p | p in terminal
      ensures !p.Live()
    {
      assert p in multiset(terminal);
    }
  }

  lemma SelectOfParts(live: seq<Persisted>, terminal: seq<Persisted>)
    requires (forall p :: p in live ==> p.Live()) && (forall p :: p in terminal ==> !p.Live())
    ensures Select(live + terminal, true) == live && Select(live + terminal, false) == terminal
  {
    SelectConcat(live, terminal, true);
    SelectConcat(live, terminal, false);
    SelectAllOrNone(live, true);
    SelectAllOrNone(terminal, false);
  }

  lemma KeptIsTerminal(entries: seq<Persisted>, maxRecords: nat)
    ensures var kept := Kept(entries, maxRecords);
            && Sorted(kept) && (forall p :: p in kept ==> !p.Live())
            && Select(Prune(entries, maxRecords), true) == Select(entries, true)
            && Select(Prune(entries, maxRecords), false) == kept
  {
    TerminalIsSorted(entries);
    SelectOfParts(Select(entries, true), Kept(entries, maxRecords));
  }

  // ---- What a save may lose -------------------------------------------------------

  /** Pruning keeps every reserved or pending record, in order. */
  lemma PruneKeepsLive(entries: seq<Persisted>, maxRecords: nat)
    ensures Select(Prune(entries, maxRecords), true) == Select(entries, true)
  {
    KeptIsTerminal(entries, maxRecords);
  }

  lemma TerminalSplits(entries: seq<Persisted>, maxRecords: nat)
    ensures var terminal := NewestFirst(Select(entries, false));
            terminal == Kept(entries, maxRecords) + Dropped(entries, maxRecords) && |terminal| == |Select(entries, false)|
  {
    TerminalIsSorted(entries);
    var terminal := NewestFirst(Select(entries, false));
    assert |terminal| == |multiset(terminal)|;
  }

  /** Nothing but terminal records is dropped, and only beyond a full quota. */
  lemma PruneDropsOnlyTerminal(entries: seq<Persisted>, maxRecords: nat)
    ensures multiset(Prune(entries, maxRecords)) + multiset(Dropped(entries, maxRecords)) == multiset(entries)
    ensures forall d :: d in Dropped(entries, maxRecords) ==> !d.Live()
    ensures Dropped(entries, maxRecords) != [] ==> |Select(Prune(entries, maxRecords), false)| == maxRecords
    ensures Dropped(entries, maxRecords) == [] <==> |Select(entries, false)| <= maxRecords
  {
    TerminalIsSorted(entries);
    SelectPartitions(entries);
    KeptIsTerminal(entries, maxRecords);
    TerminalSplits(entries, maxRecords);
  }

  lemma SortedParts(a: seq<Persisted>, b: seq<Persisted>)
    requires Sorted(a + b)
    ensures forall x, y :: x in a && y in b ==> y.Age() <= x.Age()
  {
    forall x, y | x in a && y in b
      ensures y.Age() <= x.Age()
    {
      var i :| 0 <= i < |a| && a[i] == x;
      var j :| 0 <= j < |b| && b[j] == y;
      assert (a + b)[i] == x && (a + b)[|a| + j] == y;
    }
  }

  /** No dropped record is newer than a terminal record that was kept. */
  lemma PruneDropsTheOldest(entries: seq<Persisted>, maxRecords: nat)
    ensures forall d, k :: d in Dropped(entries, maxRecords) && k in Prune(entries, maxRecords) && !k.Live() ==> d.Age() <= k.Age()
  {
    TerminalIsSorted(entries);
    TerminalSplits(entries, maxRecords);
    SortedParts(Kept(entries, maxRecords), Dropped(entries, maxRecords));
  }

  /** When an entry last changed: its completion, else its last attempt, else its first sight. */
  predicate ChangedAt(p: Persisted, time: int) {
    || p.completedAt == Some(time)
    || (p.completedAt == None && p.lastAttemptAt == Some(time))
    || (p.completedAt == None && p.lastAttemptAt == None && p.firstSeenAt == time)
  }

  /** What is kept are the newest completions: nothing dropped changed after a terminal record that was kept. */
  lemma NewestAreKept(entries: seq<Persisted>, maxRecords: nat, d: Persisted, k: Persisted, dropped: int, kept: int)
    requires d in Dropped(entries, maxRecords) && k in Prune(entries, maxRecords) && !k.Live()
    requires ChangedAt(d, dropped) && ChangedAt(k, kept)
    ensures dropped <= kept
  {
    PruneDropsTheOldest(entries, maxRecords);
  }

  /** What becomes of an entry at a restart, status by status, and its broadcast count when none was written. */
  lemma EntriesAreWorth(p: Persisted)
    ensures var r := Normalise(p.Raw());
            && (r.status == Succeeded <==> p.status == Known(Succeeded))
            && (r.status == Pending <==> p.status == Known(Pending) && p.txHash.Some? && p.txHash.value != "")
            && r.status != InFlight && r.txHash == p.txHash
            && (r.status == Failed && (p.txHash == None || p.txHash == Some("")) ==> r.reason == Some(StagingFailed))
            && (p.broadcasts.Some? ==> r.broadcasts == p.broadcasts.value)
            && (p.broadcasts.None? ==> r.broadcasts == if p.txHash.Some? && p.txHash.value != "" then 1 else 0)
  {
  }

  /** Saving what was loaded changes nothing more. */
  lemma PruneIsFixpoint(entries: seq<Persisted>, maxRecords: nat)
    ensures Prune(Prune(entries, maxRecords), maxRecords) == Prune(entries, maxRecords)
  {
    KeptIsTerminal(entries, maxRecords);
    NewestFirstOfSorted(Kept(entries, maxRecords));
  }

  lemma SameElementsSameKeys(a: seq<Persisted>, b: seq<Persisted>)
    requires DistinctKeys(a) && multiset(a) == multiset(b)
    ensures DistinctKeys(b)
  {
    forall i, j | 0 <= i < j < |b|
      ensures b[i].key != b[j].key
    {
      assert b == b[..i] + [b[i]] + b[i + 1..];
      assert b[i + 1..] == b[i + 1..j] + [b[j]] + b[j + 1..];
      assert multiset(b)[b[i]] >= 1 && multiset(b)[b[j]] >= 1;
      if b[i] == b[j] {
        assert multiset(b)[b[i]] >= 2;
        TwiceMeansTwoPlaces(a, b[i]);
      } else {
        assert b[i] in multiset(a) && b[j] in multiset(a);
      }
    }
  }

  lemma {:induction false} TwiceMeansTwoPlaces(a: seq<Persisted>, p: Persisted)
    requires multiset(a)[p] >= 2
    ensures exists i, j :: 0 <= i < j < |a| && a[i] == p && a[j] == p
  {
    assert a == [a[0]] + a[1..];
    if a[0] == p {
      assert p in multiset(a[1..]);
      var j :| 0 <= j < |a[1..]| && a[1..][j] == p;
      assert a[0] == p && a[j + 1] == p;
    } else {
      TwiceMeansTwoPlaces(a[1..], p);
      var i, j :| 0 <= i < j < |a[1..]| && a[1..][i] == p && a[1..][j] == p;
      assert a[i + 1] == p && a[j + 1] == p;
    }
  }

  lemma KeyDecides(entries: seq<Persisted>, p: Persisted, q: Persisted)
    requires DistinctKeys(entries) && p in entries && q in entries && p.key == q.key
    ensures p == q
  {
  }

  lemma LatestOfSubset(kept: seq<Persisted>, entries: seq<Persisted>)
    requires DistinctKeys(kept) && DistinctKeys(entries)
    requires forall p :: p in kept ==> p in entries
    ensures forall p :: p in kept ==> p.key in Latest(kept) && p.key in Latest(entries) && Latest(kept)[p.key] == Latest(entries)[p.key]
    ensures forall p :: p in entries && p !in kept ==> p.key in Latest(entries) && p.key !in Latest(kept)
  {
    LatestOfDistinctKeys(kept);
    LatestOfDistinctKeys(entries);
    forall p, q | p in entries && p !in kept && q in kept
      ensures q.key != p.key
    {
      if q.key == p.key {
        KeyDecides(entries, p, q);
      }
    }
  }

  lemma LatestOfSameElements(kept: seq<Persisted>, entries: seq<Persisted>)
    requires DistinctKeys(kept) && DistinctKeys(entries)
    requires forall p :: p in kept <==> p in entries
    ensures Latest(kept) == Latest(entries)
  {
    LatestOfDistinctKeys(kept);
    LatestOfDistinctKeys(entries);
    assert Latest(kept).Keys == Latest(entries).Keys;
    forall k | k in Latest(kept)
      ensures Latest(kept)[k] == Latest(entries)[k]
    {
      var p :| p in kept && p.key == k;
    }
  }

  lemma SplitOfDistinctKeys(entries: seq<Persisted>, a: seq<Persisted>, b: seq<Persisted>)
    requires DistinctKeys(entries) && multiset(a) + multiset(b) == multiset(entries)
    ensures DistinctKeys(a)
    ensures forall p :: p in entries <==> p in a || p in b
    ensures forall p :: p in b ==> p !in a
  {
    var all := a + b;
    SameElementsSameKeys(entries, all);
    forall i, j | 0 <= i < |a| && 0 <= j < |b|
      ensures a[i].key != b[j].key
    {
      assert all[i] == a[i] && all[|a| + j] == b[j];
    }
    assert forall i :: 0 <= i < |a| ==> all[i] == a[i];
    forall p
      ensures p in entries <==> p in a || p in b
    {
      assert p in entries <==> p in multiset(entries);
    }
  }

  lemma PrunedIsASubset(entries: seq<Persisted>, maxRecords: nat)
    requires DistinctKeys(entries)
    ensures var kept := Prune(entries, maxRecords);
            && DistinctKeys(kept)
            && (forall p :: p in kept ==> p in entries)
            && (forall p :: p in entries ==> p in kept || p in Dropped(entries, maxRecords))
            && (forall p :: p in Dropped(entries, maxRecords) ==> p in entries && p !in kept)
  {
    PruneDropsOnlyTerminal(entries, maxRecords);
    SplitOfDistinctKeys(entries, Prune(entries, maxRecords), Dropped(entries, maxRecords));
  }

  /**
   * A save followed by a load describes the same records, and so restores the same locks,
   * exactly when the terminal records fit the quota. Live records always survive.
   */
  lemma SaveThenLoadRestoresTheSameRecords(entries: seq<Persisted>, maxRecords: nat)
    requires DistinctKeys(entries)
    ensures Latest(Prune(entries, maxRecords)) == Latest(entries) <==> |Select(entries, false)| <= maxRecords
    ensures forall p :: p in entries && p.Live() ==>
              && p.key in Latest(Prune(entries, maxRecords)) && p.key in Latest(entries)
              && Latest(Prune(entries, maxRecords))[p.key] == Latest(entries)[p.key]
  {
    PruneDropsOnlyTerminal(entries, maxRecords);
    PrunedIsASubset(entries, maxRecords);
    LatestOfSubset(Prune(entries, maxRecords), entries);
    var dropped := Dropped(entries, maxRecords);
    if dropped == [] {
      LatestOfSameElements(Prune(entries, maxRecords), entries);
    } else {
      assert dropped[0] in dropped;
    }
  }

  /** The order locks a restart from these entries finds. */
  ghost predicate LockedAfterLoad(entries: seq<Persisted>, a: Action) {
    Blocked(NormaliseAll(Latest(entries)), a)
  }

  ghost predicate KeepsEveryLock(entries: seq<Persisted>, maxRecords: nat) {
    forall a :: LockedAfterLoad(entries, a) <==> LockedAfterLoad(Prune(entries, maxRecords), a)
  }

  lemma PrunedLocksWereThere(entries: seq<Persisted>, maxRecords: nat, a: Action)
    requires DistinctKeys(entries) && LockedAfterLoad(Prune(entries, maxRecords), a)
    ensures LockedAfterLoad(entries, a)
  {
    var kept := Prune(entries, maxRecords);
    PrunedIsASubset(entries, maxRecords);
    LatestOfSubset(kept, entries);
    LatestOfDistinctKeys(kept);
    var b :| Blocks(NormaliseAll(Latest(kept)), b, a);
    assert Blocks(NormaliseAll(Latest(entries)), b, a);
  }

  lemma LocksSurvive(entries: seq<Persisted>, maxRecords: nat, a: Action)
    requires DistinctKeys(entries) && LockedAfterLoad(entries, a)
    requires forall d :: d in Dropped(entries, maxRecords) ==> d.status != Known(Succeeded)
    ensures LockedAfterLoad(Prune(entries, maxRecords), a)
  {
    var kept := Prune(entries, maxRecords);
    PrunedIsASubset(entries, maxRecords);
    PruneDropsOnlyTerminal(entries, maxRecords);
    LatestOfSubset(kept, entries);
    LatestOfDistinctKeys(entries);
    var b :| Blocks(NormaliseAll(Latest(entries)), b, a);
    var p :| p in entries && p.key == b;
    assert p in kept;
    assert Blocks(NormaliseAll(Latest(kept)), b, a);
  }

  lemma DroppedSuccessUnlocks(entries: seq<Persisted>, maxRecords: nat, d: Persisted, a: Action)
    requires DistinctKeys(entries) && RelayRuns.OrderLocked(NormaliseAll(Latest(entries)))
    requires d in Dropped(entries, maxRecords) && d.status == Known(Succeeded)
    requires a != d.key && SameOrder(a, d.key)
    ensures LockedAfterLoad(entries, a) && !LockedAfterLoad(Prune(entries, maxRecords), a)
    ensures d.key in Latest(entries) && d.key !in Latest(Prune(entries, maxRecords))
  {
    var kept := Prune(entries, maxRecords);
    PrunedIsASubset(entries, maxRecords);
    LatestOfSubset(kept, entries);
    LatestOfDistinctKeys(entries);
    LatestOfDistinctKeys(kept);
    assert Blocks(NormaliseAll(Latest(entries)), d.key, a);
    if b :| Blocks(NormaliseAll(Latest(kept)), b, a) {
      assert b in NormaliseAll(Latest(entries)) && b != d.key && SameOrder(b, d.key);
      assert false;
    }
  }

  /**
   * A save followed by a load keeps every order lock exactly when no settled record is
   * dropped: the quota bounds succeeded records too, and a dropped one unlocks its order.
   */
  lemma LocksSurvivePruningIffNoSuccessIsDropped(entries: seq<Persisted>, maxRecords: nat)
    requires DistinctKeys(entries) && RelayRuns.OrderLocked(NormaliseAll(Latest(entries)))
    ensures KeepsEveryLock(entries, maxRecords) <==>
            forall d :: d in Dropped(entries, maxRecords) ==> d.status != Known(Succeeded)
  {
    if d :| d in Dropped(entries, maxRecords) && d.status == Known(Succeeded) {
      var other := d.key.(name := d.key.name + "'");
      assert |other.name| == |d.key.name| + 1;
      DroppedSuccessUnlocks(entries, maxRecords, d, other);
    } else {
      forall a
        ensures LockedAfterLoad(entries, a) <==> LockedAfterLoad(Prune(entries, maxRecords), a)
      {
        if LockedAfterLoad(entries, a) {
          LocksSurvive(entries, maxRecords, a);
        } else if LockedAfterLoad(Prune(entries, maxRecords), a) {
          PrunedLocksWereThere(entries, maxRecords, a);
        }
      }
    }
  }

  // ---- The stores -----------------------------------------------------------------

  /** In-memory store: a save replaces the entries. */
  class MemoryRelaySubmissionStore {
    var entries: seq<Persisted>

    constructor (initial: seq<Persisted>)
      ensures entries == initial
    {
      entries := initial;
    }

    method Load() returns (loaded: seq<Persisted>)
      ensures loaded == entries
    {
      loaded := entries;
    }

    method Save(snapshot: seq<Persisted>)
      modifies this
      ensures entries == snapshot
    {
      entries := snapshot;
    }
  }

  datatype FileEntry = Entry(submission: Persisted) | Malformed

  /** The JSON file as one atomic cell. A bare array and a `submissions` field read alike. */
  datatype FileContent = Missing | Unreadable | Blank | NotJson | Shapeless | Submissions(entries: seq<FileEntry>)

  function Wrap(entries: seq<Persisted>): FileContent {
    Submissions(seq(|entries|, i requires 0 <= i < |entries| => Entry(entries[i])))
  }

  function WellFormed(entries: seq<FileEntry>): seq<Persisted> {
    if entries == [] then []
    else (if entries[0].Entry? then [entries[0].submission] else []) + WellFormed(entries[1..])
  }

  function ReadFile(file: FileContent): seq<Persisted> {
    if file.Submissions? then WellFormed(file.entries) else []
  }

  lemma {:induction false} ReadBackWhatWasWritten(entries: seq<Persisted>)
    ensures ReadFile(Wrap(entries)) == entries
  {
    if entries != [] {
      ReadBackWhatWasWritten(entries[1..]);
      assert Wrap(entries).entries[1..] == Wrap(entries[1..]).entries;
    }
  }

  /** Of a file's entries exactly the well-formed ones are read, and of any other content nothing. */
  lemma {:induction false} WellFormedEntriesAreRead(entries: seq<FileEntry>, p: Persisted)
    ensures p in ReadFile(Submissions(entries)) <==> Entry(p) in entries
  {
    if entries != [] {
      WellFormedEntriesAreRead(entries[1..], p);
      assert entries == [entries[0]] + entries[1..];
    }
  }

  class FileRelaySubmissionStore {
    const maxRecords: nat
    var file: FileContent

    constructor (requested: Option<int>, file: FileContent)
      ensures maxRecords == (if requested.None? then 500 else if requested.value < 1 then 1 else requested.value)
      ensures this.file == file
    {
      var wanted := if requested.Some? then requested.value else 500;
      maxRecords := if wanted < 1 then 1 else wanted;
      this.file := file;
    }

    method Load() returns (loaded: seq<Persisted>)
      ensures loaded == ReadFile(file)
    {
      if !file.Submissions? {
        return [];
      }
      loaded := [];
      for i := 0 to |file.entries|
        invariant loaded + WellFormed(file.entries[i..]) == WellFormed(file.entries)
      {
        if file.entries[i].Entry? {
          loaded := loaded + [file.entries[i].submission];
        }
      }
    }

    /** Write a temporary file and rename it; on a failed write the old file stays and the error is thrown. */
    method Save(snapshot: seq<Persisted>, diskWorks: bool) returns (saved: bool)
      modifies this
      ensures saved == diskWorks
      ensures ReadFile(file) == if saved then Prune(snapshot, maxRecords) else old(ReadFile(file))
    {
      if diskWorks {
        var kept := Prune(snapshot, maxRecords);
        ReadBackWhatWasWritten(kept);
        file := Wrap(kept);
      }
      saved := diskWorks;
    }
  }
}
