/** The tracker class along whole runs: it carries out any legal run step by step. */
module RelayReplay {
  import opened Prelude
  import opened RelayRecords
  import opened RelayRuns
  import RelayStore
  import RelayTracker

  lemma SubmitStands(cfg: Config, s: System, c: nat, key: Action)
    requires Possible(s, Submit(c, key))
    ensures var (t, reply) := SubmitBlock(s.t, cfg, key, s.nextOp);
            var s' := Apply(cfg, s, Submit(c, key));
            && s'.t == t
            && s'.ops == (if reply.Drives? then s.ops[s.nextOp := Op(key, reply.pc)] else s.ops)
            && s'.nextOp == if reply.Drives? then s.nextOp + 1 else s.nextOp
  {
  }

  /**
   * What drives a tracker: the operations it started and where each stands. `Restart` is a
   * new process, with a new tracker over the same store.
   */
  class Process {
    const cfg: Config
    const store: RelayStore.MemoryRelaySubmissionStore
    var tracker: RelayTracker.RelaySubmissionTracker
    var ops: map<nat, Op>
    var nextOp: nat

    ghost predicate Valid()
      reads this, tracker`records, tracker`order
    {
      cfg.Valid() && tracker.Valid() && tracker.cfg == cfg && tracker.store == store
    }

    /** The process stands where the run does. */
    ghost predicate Follows(s: System)
      reads this, tracker`records, tracker`inflight, tracker`reconciling, store, tracker.records.Values
      requires tracker.store == store
    {
      tracker.State() == s.t && ops == s.ops && nextOp == s.nextOp
    }

    constructor (maxAttempts: nat, hasConfirmer: bool)
      requires maxAttempts >= 1
      ensures Valid() && cfg == Config(maxAttempts, hasConfirmer) && Follows(INIT)
      ensures fresh(store) && fresh(tracker) && fresh(tracker.records.Values)
    {
      var empty := new RelayStore.MemoryRelaySubmissionStore([]);
      cfg, store := Config(maxAttempts, hasConfirmer), empty;
      tracker := new RelayTracker.RelaySubmissionTracker(Some(maxAttempts), hasConfirmer, empty);
      ops, nextOp := map[], 0;
    }

    method Submit(ghost s: System, c: nat, key: Action)
      requires Valid() && Follows(s) && Possible(s, Step.Submit(c, key))
      modifies this, tracker, store, tracker.records.Values
      ensures Valid() && Follows(Apply(cfg, s, Step.Submit(c, key)))
      ensures tracker == old(tracker) && fresh(tracker.records.Values - old(tracker.records.Values))
    {
      SubmitStands(cfg, s, c, key);
      var reply := tracker.Submit(key, nextOp, 0);
      if reply.Drives? {
        ops := ops[nextOp := Op(key, reply.pc)];
        nextOp := nextOp + 1;
      }
    }

    method StageDone(ghost s: System, op: nat, result: StageResult)
      requires Valid() && Follows(s) && Possible(s, Step.StageDone(op, result))
      modifies this, store, tracker.records.Values
      ensures Valid() && Follows(Apply(cfg, s, Step.StageDone(op, result)))
      ensures tracker == old(tracker) && tracker.records == old(tracker.records)
    {
      var pc := tracker.StageSettled(tracker.records[ops[op].key], result, 0);
      ops := ops[op := ops[op].(pc := pc)];
    }

    method BroadcastDone(ghost s: System, op: nat, ok: bool)
      requires Valid() && Follows(s) && Possible(s, Step.BroadcastDone(op, ok))
      modifies this, tracker`reconciling, store, tracker.records.Values
      ensures Valid() && Follows(Apply(cfg, s, Step.BroadcastDone(op, ok)))
      ensures tracker == old(tracker) && tracker.records == old(tracker.records)
    {
      var pc := tracker.BroadcastSettled(tracker.records[ops[op].key], ok, 0);
      ops := ops[op := ops[op].(pc := pc)];
    }

    method PollDone(ghost s: System, op: nat, answer: ChainState)
      requires Valid() && Follows(s) && Possible(s, Step.PollDone(op, answer))
      modifies this, tracker`reconciling, store, tracker.records.Values
      ensures Valid() && Follows(Apply(cfg, s, Step.PollDone(op, answer)))
      ensures tracker == old(tracker) && tracker.records == old(tracker.records)
    {
      var pc := tracker.PollSettled(tracker.records[ops[op].key], ops[op].pc.polls, answer, 0);
      ops := ops[op := ops[op].(pc := pc)];
    }

    /** A crash, and a new process that restores from the store. */
    method Restart()
      requires Valid()
      modifies this
      ensures Valid() && fresh(tracker) && fresh(tracker.records.Values)
      ensures tracker.State() == RelayRecords.Restart(old(tracker.State()))
      ensures ops == (map o | o in old(ops) && old(ops)[o].pc.Settled? :: old(ops)[o]) && nextOp == old(nextOp)
    {
      tracker := new RelayTracker.RelaySubmissionTracker(Some(cfg.maxAttempts), cfg.hasConfirmer, store);
      ops := map o | o in ops && ops[o].pc.Settled? :: ops[o];
    }

    /** One step of a run; `s` is where the run stands before it. */
    method Take(ghost s: System, step: Step)
      requires Valid() && Follows(s) && Possible(s, step)
      modifies this, tracker, store, tracker.records.Values
      ensures Valid() && Follows(Apply(cfg, s, step))
      ensures tracker == old(tracker) || fresh(tracker)
      ensures fresh(tracker.records.Values - old(tracker.records.Values))
    {
      match step
      case Submit(c, key) => Submit(s, c, key);
      case StageDone(op, result) => StageDone(s, op, result);
      case Broadcast(op) => ops := ops[op := ops[op].(pc := Broadcasting)];
      case BroadcastDone(op, ok) => BroadcastDone(s, op, ok);
      case PollDone(op, answer) => PollDone(s, op, answer);
      case SleepDone(op) => ops := ops[op := ops[op].(pc := Polling(ops[op].pc.polls + 1))];
      case Clear(op) => tracker.ClearInflight(ops[op].key, op);
      case Deliver(_) =>
      case Land(_) =>
      case Crash => Restart();
      case CrashInRestage(key) => DieInRestage(s, key);
    }

    /** A crash between the two saves of a re-staging. */
    method DieInRestage(ghost s: System, key: Action)
      requires Valid() && Follows(s) && Possible(s, Step.CrashInRestage(key))
      modifies this, tracker, store
      ensures Valid() && Follows(Apply(cfg, s, Step.CrashInRestage(key)))
      ensures fresh(tracker) && fresh(tracker.records.Values)
    {
      tracker.Remove(key);
      tracker.Persist();
      assert tracker.State() == Bare(s.t, key);
      Restart();
    }
  }

  /** Replaying any legal run on the class ends with the fields and the store that the run says. */
  method Replay(maxAttempts: nat, hasConfirmer: bool, steps: seq<Step>) returns (process: Process)
    requires maxAttempts >= 1 && Legal(Config(maxAttempts, hasConfirmer), steps)
    ensures process.Valid() && process.Follows(Exec(Config(maxAttempts, hasConfirmer), steps))
    ensures fresh(process)
  {
    process := new Process(maxAttempts, hasConfirmer);
    ghost var cfg := process.cfg;
    for i := 0 to |steps|
      invariant process.Valid() && process.cfg == cfg && Legal(cfg, steps[..i])
      invariant process.Follows(Exec(cfg, steps[..i]))
      invariant fresh(process) && fresh(process.store) && fresh(process.tracker) && fresh(process.tracker.records.Values)
    {
      PrefixIsLegal(cfg, steps, i + 1);
      assert steps[..i + 1][..i] == steps[..i];
      process.Take(Exec(cfg, steps[..i]), steps[i]);
    }
    assert steps[..|steps|] == steps;
  }

  lemma {:induction false} PrefixIsLegal(cfg: Config, steps: seq<Step>, i: nat)
    requires Legal(cfg, steps) && i <= |steps|
    ensures Legal(cfg, steps[..i])
  {
    if i < |steps| {
      var n := |steps| - 1;
      PrefixIsLegal(cfg, steps[..n], i);
      assert steps[..n][..i] == steps[..i];
    } else {
      assert steps[..i] == steps;
    }
  }
}
