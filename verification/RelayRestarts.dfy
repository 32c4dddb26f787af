/** What a restart does to failed records, and which of them are tombstones. */
module RelayRestarts {
  import opened Prelude
  import opened RelayRecords
  import opened RelayRuns
  import opened RelaySafety

  /** A failure that the running process never stages again. */
  predicate Tombstone(t: Tracker, k: Action) {
    k in t.records && t.records[k].status == Failed && t.records[k].reason != Some(StagingFailed)
  }

  /**
   * A tombstone is staged again after a restart exactly when it has no hash, which is when
   * its stager's error was final; with a hash it stays what it was.
   */
  lemma TombstonesThatDoNotSurvive(cfg: Config, steps: seq<Step>, k: Action)
    requires cfg.Valid() && Legal(cfg, steps) && Tombstone(Exec(cfg, steps).t, k)
    ensures var s, s' := Exec(cfg, steps), Exec(cfg, steps + [Crash]);
            && (Restageable(s', k) <==> s.t.records[k].reason == Some(NonRetryable))
            && (Restageable(s', k) <==> s.t.records[k].txHash.None?)
            && (!Restageable(s', k) ==> k in s'.t.records && s'.t.records[k] == s.t.records[k])
  {
    RunKeepsInv(cfg, steps);
    CrashRestoresMemory(cfg, steps);
    assert Coupled(Exec(cfg, steps).t.records[k]);
  }

  /** A final staging error, and a second submission. */
  function RefusedTwice(a: Action): seq<Step> {
    [Submit(0, a)] + [StageDone(0, Threw(false))] + [Submit(1, a)]
  }

  lemma RefusedAsTerminal(cfg: Config, a: Action)
    requires cfg.Valid()
    ensures var s := Exec(cfg, RefusedTwice(a));
            && Legal(cfg, RefusedTwice(a))
            && s.answers == [Answer(a, Terminal(NonRetryable), None)] && s.nextOp == 1
            && s.t.saved == map[a := RESERVED.(status := Failed, reason := Some(NonRetryable))]
  {
    var r1 := [Submit(0, a)];
    var r2 := r1 + [StageDone(0, Threw(false))];
    assert r1 == [] + [Submit(0, a)];
    OneMoreStep(cfg, [], Submit(0, a));
    OneMoreStep(cfg, r1, StageDone(0, Threw(false)));
    OneMoreStep(cfg, r2, Submit(1, a));
  }

  /** The submission that was refused as terminal stages a transaction after a crash. */
  lemma FinalStagingErrorIsStagedAgain(cfg: Config, a: Action)
    requires cfg.Valid()
    ensures var run := RefusedTwice(a) + [Crash] + [Submit(2, a)];
            && Legal(cfg, run)
            && Exec(cfg, run).answers == [Answer(a, Terminal(NonRetryable), None)]
            && 1 in Exec(cfg, run).ops && Exec(cfg, run).ops[1] == Op(a, Staging)
  {
    var r := RefusedTwice(a);
    RefusedAsTerminal(cfg, a);
    OneMoreStep(cfg, r, Crash);
    OneMoreStep(cfg, r + [Crash], Submit(2, a));
    assert Exec(cfg, r + [Crash]).t.records == map[a := RESERVED.(status := Failed, reason := Some(StagingFailed))];
  }
}
