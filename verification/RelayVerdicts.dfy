/** How the answers to an operation's polls decide what it settles with, over whole runs. */
module RelayVerdicts {
  import opened Prelude
  import opened RelayRecords
  import opened RelayRuns

  function AnswerOf(step: Step, op: nat): seq<ChainState> {
    if step.PollDone? && step.op == op then [step.answer] else []
  }

  /** What the chain answered to the polls of an operation, in order. */
  function AnswersOf(steps: seq<Step>, op: nat): seq<ChainState> {
    if steps == [] then [] else AnswersOf(steps[..|steps| - 1], op) + AnswerOf(steps[|steps| - 1], op)
  }

  predicate Undecided(answers: seq<ChainState>) {
    forall i :: 0 <= i < |answers| ==> answers[i] == ChainPending || answers[i] == ChainNotFound
  }

  /** The last answer alone decides, and the budget decides how long an undecided one is asked again. */
  predicate Decides(cfg: Config, answers: seq<ChainState>, outcome: Outcome)
    requires answers != []
  {
    match answers[|answers| - 1]
    case ChainSucceeded => outcome.Success?
    case ChainFailed => outcome == Terminal(FailedOnChain)
    case ChainNotFound => |answers| == cfg.maxAttempts && outcome == Terminal(NotFound)
    case ChainPending => |answers| == cfg.maxAttempts && outcome.ConfirmationTimeout?
  }

  ghost predicate Fits(cfg: Config, pc: Pc, answers: seq<ChainState>) {
    match pc
    case Polling(k) => |answers| == k - 1 && Undecided(answers)
    case Sleeping(k) => |answers| == k && Undecided(answers)
    case Settled(outcome) =>
      if answers == [] then outcome != Terminal(NotFound) && outcome != Terminal(FailedOnChain)
      else Undecided(answers[..|answers| - 1]) && Decides(cfg, answers, outcome)
    case _ => answers == []
  }

  ghost predicate VerdictsFit(cfg: Config, s: System, op: nat, answers: seq<ChainState>) {
    && |answers| <= cfg.maxAttempts
    && (op in s.ops ==> Fits(cfg, s.ops[op].pc, answers))
    && (op >= s.nextOp ==> answers == [])
  }

  lemma PollKeepsVerdict(cfg: Config, s: System, op: nat, answer: ChainState, answers: seq<ChainState>)
    requires Driven(cfg, s) && Enabled(cfg, s, PollDone(op, answer)) && VerdictsFit(cfg, s, op, answers)
    ensures VerdictsFit(cfg, Apply(cfg, s, PollDone(op, answer)), op, answers + [answer])
  {
    assert DrivenBy(cfg, s.t, op, s.ops[op]);
    assert (answers + [answer])[..|answers|] == answers;
  }

  lemma StepKeepsVerdict(cfg: Config, s: System, step: Step, op: nat, answers: seq<ChainState>)
    requires Driven(cfg, s) && Enabled(cfg, s, step) && VerdictsFit(cfg, s, op, answers)
    ensures VerdictsFit(cfg, Apply(cfg, s, step), op, answers + AnswerOf(step, op))
  {
    if step.PollDone? && step.op == op {
      PollKeepsVerdict(cfg, s, op, step.answer, answers);
    } else {
      OtherStepKeepsVerdict(cfg, s, step, op, answers);
      assert answers + [] == answers;
    }
  }

  lemma SubmitKeepsVerdict(cfg: Config, s: System, c: nat, key: Action, op: nat, answers: seq<ChainState>)
    requires Enabled(cfg, s, Submit(c, key)) && VerdictsFit(cfg, s, op, answers)
    ensures VerdictsFit(cfg, Apply(cfg, s, Submit(c, key)), op, answers)
  {
  }

  lemma OwnStepKeepsVerdict(cfg: Config, s: System, step: Step, op: nat, answers: seq<ChainState>)
    requires Driven(cfg, s) && Enabled(cfg, s, step) && VerdictsFit(cfg, s, op, answers)
    requires Moves(step, op) && !step.PollDone?
    ensures VerdictsFit(cfg, Apply(cfg, s, step), op, answers)
  {
    assert DrivenBy(cfg, s.t, op, s.ops[op]);
  }

  lemma OtherStepKeepsVerdict(cfg: Config, s: System, step: Step, op: nat, answers: seq<ChainState>)
    requires Driven(cfg, s) && Enabled(cfg, s, step) && VerdictsFit(cfg, s, op, answers)
    requires !(step.PollDone? && step.op == op)
    ensures VerdictsFit(cfg, Apply(cfg, s, step), op, answers)
  {
    if step.Submit? {
      SubmitKeepsVerdict(cfg, s, step.caller, step.key, op, answers);
    } else if Moves(step, op) {
      OwnStepKeepsVerdict(cfg, s, step, op, answers);
    } else {
      OthersStand(cfg, s, step, op);
    }
  }

  /**
   * In every run an operation asks its chain at most maxAttempts times, goes on asking exactly
   * as long as the answers are undecided, and settles as the last one decides.
   */
  lemma {:induction false} ReconcileVerdict(cfg: Config, steps: seq<Step>, op: nat)
    requires cfg.Valid() && Legal(cfg, steps)
    ensures VerdictsFit(cfg, Exec(cfg, steps), op, AnswersOf(steps, op))
  {
    if steps != [] {
      var n := |steps| - 1;
      ReconcileVerdict(cfg, steps[..n], op);
      RunKeepsInv(cfg, steps[..n]);
      StepKeepsVerdict(cfg, Exec(cfg, steps[..n]), steps[n], op, AnswersOf(steps[..n], op));
    }
  }

  ghost predicate GivenUpAsNotFound(cfg: Config, steps: seq<Step>, op: nat) {
    op in Exec(cfg, steps).ops && Exec(cfg, steps).ops[op].pc == Settled(Terminal(NotFound))
  }

  lemma NotFoundIsDecidedLast(cfg: Config, pc: Pc, answers: seq<ChainState>)
    requires cfg.Valid() && Fits(cfg, pc, answers)
    requires (pc.Polling? ==> pc.polls <= cfg.maxAttempts) && (pc.Sleeping? ==> pc.polls < cfg.maxAttempts)
    ensures pc == Settled(Terminal(NotFound)) <==> |answers| == cfg.maxAttempts && answers[|answers| - 1] == ChainNotFound
  {
  }

  /** A hash is given up as not found exactly when the whole budget was polled and the last answer said so, whatever the earlier ones did. */
  lemma NotFoundIffLastAnswer(cfg: Config, steps: seq<Step>, op: nat)
    requires cfg.Valid() && Legal(cfg, steps) && op in Exec(cfg, steps).ops
    ensures var answers := AnswersOf(steps, op);
            GivenUpAsNotFound(cfg, steps, op) <==> |answers| == cfg.maxAttempts && answers[|answers| - 1] == ChainNotFound
  {
    var s := Exec(cfg, steps);
    ReconcileVerdict(cfg, steps, op);
    RunKeepsInv(cfg, steps);
    PositionsAreWithinBudget(cfg, s, op);
    NotFoundIsDecidedLast(cfg, s.ops[op].pc, AnswersOf(steps, op));
  }

  lemma PositionsAreWithinBudget(cfg: Config, s: System, op: nat)
    requires Driven(cfg, s) && op in s.ops
    ensures var pc := s.ops[op].pc;
            (pc.Polling? ==> pc.polls <= cfg.maxAttempts) && (pc.Sleeping? ==> pc.polls < cfg.maxAttempts)
  {
    if s.ops[op].Live() {
      assert DrivenBy(cfg, s.t, op, s.ops[op]);
    }
  }

  // ---- When "never observed" is true ----------------------------------------------

  /** A poll, by whatever operation of the key, that answers anything but "not found". */
  predicate Sights(s: System, step: Step, key: Action) {
    step.PollDone? && step.answer != ChainNotFound && step.op in s.ops && s.ops[step.op].key == key
  }

  /** Some poll of the key's hash, by any of its operations and before or after restarts, sighted it. */
  ghost predicate Sighted(cfg: Config, steps: seq<Step>, key: Action) {
    steps != [] &&
    (var n := |steps| - 1; Sighted(cfg, steps[..n], key) || Sights(Exec(cfg, steps[..n]), steps[n], key))
  }

  lemma SightedOneMore(cfg: Config, steps: seq<Step>, step: Step, key: Action)
    ensures Sighted(cfg, steps + [step], key) <==> Sighted(cfg, steps, key) || Sights(Exec(cfg, steps), step, key)
  {
    assert (steps + [step])[..|steps|] == steps;
  }

  /** A broadcast that timed out, then `k` polls that saw the transaction pending. */
  function SeenPending(a: Action, k: nat): seq<Step> {
    if k == 0 then [Submit(0, a)] + [StageDone(0, Staged("h"))] + [Broadcast(0)] + [BroadcastDone(0, false)]
    else SeenPending(a, k - 1) + [PollDone(0, ChainPending)] + [SleepDone(0)]
  }

  ghost predicate AboutToPoll(s: System, a: Action, k: nat) {
    && 0 in s.ops && s.ops[0] == Op(a, Polling(k)) && s.nextOp == 1
    && a in s.t.records && s.t.records[a].status == Pending
    && a in s.t.inflight && s.t.inflight[a] == 0
    && 1 !in s.waiting && s.landed == {}
  }

  lemma TimedOutBroadcast(cfg: Config, a: Action)
    requires cfg.Valid() && cfg.hasConfirmer
    ensures Legal(cfg, SeenPending(a, 0)) && AboutToPoll(Exec(cfg, SeenPending(a, 0)), a, 1)
  {
    var r1 := [Submit(0, a)];
    var r2 := r1 + [StageDone(0, Staged("h"))];
    var r3 := r2 + [Broadcast(0)];
    assert r1 == [] + [Submit(0, a)];
    OneMoreStep(cfg, [], Submit(0, a));
    OneMoreStep(cfg, r1, StageDone(0, Staged("h")));
    OneMoreStep(cfg, r2, Broadcast(0));
    OneMoreStep(cfg, r3, BroadcastDone(0, false));
  }

  lemma PendingPollSleeps(cfg: Config, steps: seq<Step>, a: Action, k: nat)
    requires Legal(cfg, steps) && AboutToPoll(Exec(cfg, steps), a, k) && k < cfg.maxAttempts
    ensures var slept := steps + [PollDone(0, ChainPending)];
            && Legal(cfg, slept) && Sighted(cfg, slept, a)
            && Exec(cfg, slept) == Move(Exec(cfg, steps), 0, Persist(Exec(cfg, steps).t), Sleeping(k))
  {
    OneMoreStep(cfg, steps, PollDone(0, ChainPending));
    SightedOneMore(cfg, steps, PollDone(0, ChainPending), a);
  }

  lemma SleepEnds(cfg: Config, s: System, slept: System, a: Action, k: nat)
    requires AboutToPoll(s, a, k) && slept == Move(s, 0, Persist(s.t), Sleeping(k))
    ensures Enabled(cfg, slept, SleepDone(0)) && AboutToPoll(Apply(cfg, slept, SleepDone(0)), a, k + 1)
  {
  }

  lemma PendingPollGoesOn(cfg: Config, steps: seq<Step>, a: Action, k: nat)
    requires Legal(cfg, steps) && AboutToPoll(Exec(cfg, steps), a, k) && k < cfg.maxAttempts
    ensures var again := steps + [PollDone(0, ChainPending)] + [SleepDone(0)];
            Legal(cfg, again) && Sighted(cfg, again, a) && AboutToPoll(Exec(cfg, again), a, k + 1)
  {
    var slept := steps + [PollDone(0, ChainPending)];
    PendingPollSleeps(cfg, steps, a, k);
    SleepEnds(cfg, Exec(cfg, steps), Exec(cfg, slept), a, k);
    OneMoreStep(cfg, slept, SleepDone(0));
    SightedOneMore(cfg, slept, SleepDone(0), a);
  }

  lemma {:induction false} PendingPollsGoOn(cfg: Config, a: Action, k: nat)
    requires cfg.Valid() && cfg.hasConfirmer && k < cfg.maxAttempts
    ensures Legal(cfg, SeenPending(a, k)) && AboutToPoll(Exec(cfg, SeenPending(a, k)), a, k + 1)
    ensures k > 0 ==> Sighted(cfg, SeenPending(a, k), a)
  {
    if k == 0 {
      TimedOutBroadcast(cfg, a);
    } else {
      PendingPollsGoOn(cfg, a, k - 1);
      PendingPollGoesOn(cfg, SeenPending(a, k - 1), a, k);
    }
  }

  /** Seen pending by every poll but the last, the hash is still given up as not found. */
  lemma ObservedAndGivenUp(cfg: Config, a: Action)
    requires cfg.Valid() && cfg.hasConfirmer && cfg.maxAttempts >= 2
    ensures var run := SeenPending(a, cfg.maxAttempts - 1) + [PollDone(0, ChainNotFound)];
            && Legal(cfg, run) && GivenUpAsNotFound(cfg, run, 0)
            && Exec(cfg, run).ops[0].key == a && Sighted(cfg, run, a)
  {
    var seen := SeenPending(a, cfg.maxAttempts - 1);
    PendingPollsGoOn(cfg, a, cfg.maxAttempts - 1);
    OneMoreStep(cfg, seen, PollDone(0, ChainNotFound));
    SightedOneMore(cfg, seen, PollDone(0, ChainNotFound), a);
  }

  /** The only poll of one submission sees the transaction pending, the only poll of the next does not find it. */
  function SeenByAnEarlierCall(a: Action): seq<Step> {
    SeenPending(a, 0) + [PollDone(0, ChainPending)] + [Clear(0)] + [Submit(1, a)]
  }

  lemma EarlierCallTimesOut(cfg: Config, a: Action)
    requires cfg.Valid() && cfg.hasConfirmer && cfg.maxAttempts == 1
    ensures var s := Exec(cfg, SeenByAnEarlierCall(a));
            && Legal(cfg, SeenByAnEarlierCall(a)) && Sighted(cfg, SeenByAnEarlierCall(a), a)
            && 1 in s.ops && s.ops[1] == Op(a, Polling(1)) && a in s.t.records && s.landed == {}
  {
    var r0 := SeenPending(a, 0);
    var r1 := r0 + [PollDone(0, ChainPending)];
    var r2 := r1 + [Clear(0)];
    TimedOutBroadcast(cfg, a);
    OneMoreStep(cfg, r0, PollDone(0, ChainPending));
    OneMoreStep(cfg, r1, Clear(0));
    OneMoreStep(cfg, r2, Submit(1, a));
    SightedOneMore(cfg, r0, PollDone(0, ChainPending), a);
    SightedOneMore(cfg, r1, Clear(0), a);
    SightedOneMore(cfg, r2, Submit(1, a), a);
  }

  lemma ObservedByAnEarlierCall(cfg: Config, a: Action)
    requires cfg.Valid() && cfg.hasConfirmer && cfg.maxAttempts == 1
    ensures var run := SeenByAnEarlierCall(a) + [PollDone(1, ChainNotFound)];
            && Legal(cfg, run) && GivenUpAsNotFound(cfg, run, 1)
            && Exec(cfg, run).ops[1].key == a && Sighted(cfg, run, a)
  {
    var seen := SeenByAnEarlierCall(a);
    EarlierCallTimesOut(cfg, a);
    OneMoreStep(cfg, seen, PollDone(1, ChainNotFound));
    SightedOneMore(cfg, seen, PollDone(1, ChainNotFound), a);
  }

  /** No hash given up as not found was ever sighted by a poll. */
  ghost predicate NotFoundMeansNeverObserved(cfg: Config) {
    forall steps, op :: Legal(cfg, steps) && GivenUpAsNotFound(cfg, steps, op) ==>
      !Sighted(cfg, steps, Exec(cfg, steps).ops[op].key)
  }

  /** "Not found" means never observed, in all runs, exactly when there is no confirmer, and so nothing is ever given up. */
  lemma NeverObservedIffNoConfirmer(cfg: Config)
    requires cfg.Valid()
    ensures NotFoundMeansNeverObserved(cfg) <==> !cfg.hasConfirmer
  {
    var a := Action("", "", "");
    if !cfg.hasConfirmer {
      forall steps, op | Legal(cfg, steps) && GivenUpAsNotFound(cfg, steps, op)
        ensures false
      {
        ReconcileVerdict(cfg, steps, op);
        NoAnswers(cfg, steps, op);
      }
    } else if cfg.maxAttempts == 1 {
      ObservedByAnEarlierCall(cfg, a);
      assert GivenUpAsNotFound(cfg, SeenByAnEarlierCall(a) + [PollDone(1, ChainNotFound)], 1);
    } else {
      ObservedAndGivenUp(cfg, a);
      assert GivenUpAsNotFound(cfg, SeenPending(a, cfg.maxAttempts - 1) + [PollDone(0, ChainNotFound)], 0);
    }
  }

  lemma {:induction false} NobodyPolls(cfg: Config, steps: seq<Step>)
    requires !cfg.hasConfirmer
    ensures forall o :: o in Exec(cfg, steps).ops ==> !Exec(cfg, steps).ops[o].pc.Polling? && !Exec(cfg, steps).ops[o].pc.Sleeping?
    ensures Exec(cfg, steps).dead == {}
  {
    if steps != [] {
      NobodyPolls(cfg, steps[..|steps| - 1]);
    }
  }

  lemma {:induction false} NoAnswers(cfg: Config, steps: seq<Step>, op: nat)
    requires !cfg.hasConfirmer && Legal(cfg, steps)
    ensures AnswersOf(steps, op) == []
  {
    if steps != [] {
      NoAnswers(cfg, steps[..|steps| - 1], op);
      NobodyPolls(cfg, steps[..|steps| - 1]);
    }
  }

  // ---- Polls of one operation -------------------------------------------------------

  predicate UnseenByItsPolls(steps: seq<Step>, op: nat) {
    forall i :: 0 <= i < |AnswersOf(steps, op)| ==> AnswersOf(steps, op)[i] == ChainNotFound
  }

  lemma AnswersOneMore(steps: seq<Step>, step: Step, op: nat)
    ensures AnswersOf(steps + [step], op) == AnswersOf(steps, op) + AnswerOf(step, op)
  {
    assert (steps + [step])[..|steps|] == steps;
  }

  lemma PendingPollIsAmongTheAnswers(a: Action, k: nat)
    requires k > 0
    ensures !UnseenByItsPolls(SeenPending(a, k) + [PollDone(0, ChainNotFound)], 0)
  {
    var before := SeenPending(a, k - 1);
    var seen := before + [PollDone(0, ChainPending)];
    AnswersOneMore(before, PollDone(0, ChainPending), 0);
    AnswersOneMore(seen, SleepDone(0), 0);
    AnswersOneMore(SeenPending(a, k), PollDone(0, ChainNotFound), 0);
    assert AnswersOf(SeenPending(a, k) + [PollDone(0, ChainNotFound)], 0)[|AnswersOf(before, 0)|] == ChainPending;
  }

  /** No operation that gave a hash up as not found had seen it in a poll of its own. */
  ghost predicate OwnPollsNeverContradict(cfg: Config) {
    forall steps, op :: Legal(cfg, steps) && GivenUpAsNotFound(cfg, steps, op) ==> UnseenByItsPolls(steps, op)
  }

  /** By the polls of its own operation alone, "not found" means unseen exactly when the budget is a single poll or nothing is polled. */
  lemma OwnPollsNeverContradictIffOnePoll(cfg: Config)
    requires cfg.Valid()
    ensures OwnPollsNeverContradict(cfg) <==> cfg.maxAttempts == 1 || !cfg.hasConfirmer
  {
    if cfg.maxAttempts >= 2 && cfg.hasConfirmer {
      var a := Action("", "", "");
      ObservedAndGivenUp(cfg, a);
      PendingPollIsAmongTheAnswers(a, cfg.maxAttempts - 1);
      assert GivenUpAsNotFound(cfg, SeenPending(a, cfg.maxAttempts - 1) + [PollDone(0, ChainNotFound)], 0);
    } else {
      forall steps, op | Legal(cfg, steps) && GivenUpAsNotFound(cfg, steps, op)
        ensures UnseenByItsPolls(steps, op)
      {
        NotFoundIffLastAnswer(cfg, steps, op);
        if !cfg.hasConfirmer {
          NoAnswers(cfg, steps, op);
        }
      }
    }
  }
}
