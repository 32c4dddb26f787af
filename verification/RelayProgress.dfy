/** Progress of the tracker: no operation is ever stuck, every operation is short, every caller can be answered. */
module RelayProgress {
  import opened Prelude
  import opened RelayRecords
  import opened RelayRuns

  /** How many of its own steps an operation may still take. */
  function Rank(cfg: Config, pc: Pc): int {
    match pc
    case Staging => 2 * cfg.maxAttempts + 2
    case Recorded => 2 * cfg.maxAttempts + 1
    case Broadcasting => 2 * cfg.maxAttempts
    case Polling(k) => 2 * (cfg.maxAttempts - k) + 1
    case Sleeping(k) => 2 * (cfg.maxAttempts - k)
    case Settled(_) => 0
  }

  function MovesOf(steps: seq<Step>, op: nat): nat {
    if steps == [] then 0 else MovesOf(steps[..|steps| - 1], op) + if Moves(steps[|steps| - 1], op) then 1 else 0
  }

  ghost predicate MovesFit(cfg: Config, s: System, op: nat, moves: nat) {
    && moves <= 2 * cfg.maxAttempts + 2
    && (op in s.ops ==> moves + Rank(cfg, s.ops[op].pc) <= 2 * cfg.maxAttempts + 2)
    && (op >= s.nextOp ==> moves == 0)
  }

  lemma MoveLowersRank(cfg: Config, s: System, step: Step, op: nat)
    requires cfg.Valid() && Driven(cfg, s) && Enabled(cfg, s, step) && Moves(step, op)
    ensures var s' := Apply(cfg, s, step);
            && op in s.ops && op in s'.ops && s'.nextOp == s.nextOp
            && 0 <= Rank(cfg, s'.ops[op].pc) < Rank(cfg, s.ops[op].pc)
  {
    assert DrivenBy(cfg, s.t, op, s.ops[op]);
  }

  lemma StepKeepsMovesFit(cfg: Config, s: System, step: Step, op: nat, moves: nat)
    requires cfg.Valid() && Driven(cfg, s) && Enabled(cfg, s, step) && MovesFit(cfg, s, op, moves)
    ensures MovesFit(cfg, Apply(cfg, s, step), op, moves + if Moves(step, op) then 1 else 0)
  {
    if Moves(step, op) {
      MoveLowersRank(cfg, s, step, op);
    } else {
      OthersKeepMovesFit(cfg, s, step, op, moves);
    }
  }

  lemma SubmitKeepsMovesFit(cfg: Config, s: System, c: nat, key: Action, op: nat, moves: nat)
    requires cfg.Valid() && Enabled(cfg, s, Submit(c, key)) && MovesFit(cfg, s, op, moves)
    ensures MovesFit(cfg, Apply(cfg, s, Submit(c, key)), op, moves)
  {
    var (t, reply) := SubmitBlock(s.t, cfg, key, s.nextOp);
    assert reply.Drives? ==> Rank(cfg, reply.pc) <= 2 * cfg.maxAttempts + 2;
  }

  lemma OthersKeepMovesFit(cfg: Config, s: System, step: Step, op: nat, moves: nat)
    requires cfg.Valid() && Enabled(cfg, s, step) && MovesFit(cfg, s, op, moves) && !Moves(step, op)
    ensures MovesFit(cfg, Apply(cfg, s, step), op, moves)
  {
    if step.Submit? {
      SubmitKeepsMovesFit(cfg, s, step.caller, step.key, op, moves);
    } else {
      OthersStand(cfg, s, step, op);
    }
  }

  /** Whatever the environment answers, an operation takes at most 2 * maxAttempts + 2 steps of its own in a run. */
  lemma {:induction false} OperationsAreShort(cfg: Config, steps: seq<Step>, op: nat)
    requires cfg.Valid() && Legal(cfg, steps)
    ensures MovesFit(cfg, Exec(cfg, steps), op, MovesOf(steps, op))
  {
    if steps != [] {
      var n := |steps| - 1;
      OperationsAreShort(cfg, steps[..n], op);
      RunKeepsInv(cfg, steps[..n]);
      StepKeepsMovesFit(cfg, Exec(cfg, steps[..n]), steps[n], op, MovesOf(steps[..n], op));
    }
  }

  /** The step is what an operation at this position waits for. */
  predicate Awaits(pc: Pc, step: Step) {
    match pc
    case Staging => step.StageDone?
    case Recorded => step.Broadcast?
    case Broadcasting => step.BroadcastDone?
    case Polling(_) => step.PollDone?
    case Sleeping(_) => step.SleepDone?
    case Settled(_) => false
  }

  /** An operation can always take the step it waits for, with any result that the chains' finality allows, and no other. */
  lemma NeverStuck(cfg: Config, steps: seq<Step>, op: nat, step: Step)
    requires cfg.Valid() && Legal(cfg, steps) && op in Exec(cfg, steps).ops && Moves(step, op)
    ensures var s := Exec(cfg, steps);
            Enabled(cfg, s, step) <==>
              && Awaits(s.ops[op].pc, step)
              && (step.PollDone? && GivesUp(cfg, s.ops[op].pc.polls, step.answer) ==>
                    && s.ops[op].key in s.t.records && s.t.records[s.ops[op].key].txHash.Some?
                    && s.t.records[s.ops[op].key].txHash.value !in s.landed)
  {
    RunKeepsInv(cfg, steps);
    MovesAreOpen(cfg, Exec(cfg, steps), op, step);
  }

  lemma MovesAreOpen(cfg: Config, s: System, op: nat, step: Step)
    requires AllCoupled(s.t.records) && Driven(cfg, s) && op in s.ops && Moves(step, op)
    ensures Enabled(cfg, s, step) <==>
              && Awaits(s.ops[op].pc, step)
              && (step.PollDone? && GivesUp(cfg, s.ops[op].pc.polls, step.answer) ==>
                    && s.ops[op].key in s.t.records && s.t.records[s.ops[op].key].txHash.Some?
                    && s.t.records[s.ops[op].key].txHash.value !in s.landed)
  {
    if s.ops[op].Live() {
      assert DrivenBy(cfg, s.t, op, s.ops[op]) && Coupled(s.t.records[s.ops[op].key]);
    }
  }

  /** One way on for an operation. */
  function NextStep(pc: Pc, op: nat): Step
    requires !pc.Settled?
  {
    match pc
    case Staging => StageDone(op, Threw(true))
    case Recorded => Broadcast(op)
    case Broadcasting => BroadcastDone(op, true)
    case Polling(_) => PollDone(op, ChainPending)
    case Sleeping(_) => SleepDone(op)
  }

  lemma NextStepIsOpen(cfg: Config, s: System, op: nat)
    requires cfg.Valid() && Driven(cfg, s) && op in s.ops && s.ops[op].Live()
    ensures Enabled(cfg, s, NextStep(s.ops[op].pc, op))
    ensures Apply(cfg, s, NextStep(s.ops[op].pc, op)).waiting == s.waiting
  {
    assert DrivenBy(cfg, s.t, op, s.ops[op]);
  }

  /** A caller is answered for its key, through the operation it waits for. */
  ghost predicate Answered(waiting: map<nat, Waiter>, s': System, c: nat) {
    && c in waiting && c !in s'.waiting
    && s'.answers != [] && s'.answers[|s'.answers| - 1].key == waiting[c].key
    && s'.answers[|s'.answers| - 1].via == Some(waiting[c].op)
  }

  ghost predicate Answers(cfg: Config, steps: seq<Step>, more: seq<Step>, c: nat) {
    Legal(cfg, steps + more) && Answered(Exec(cfg, steps).waiting, Exec(cfg, steps + more), c)
  }

  function RankOf(cfg: Config, s: System, op: nat): int {
    if op in s.ops then Rank(cfg, s.ops[op].pc) else 0
  }

  lemma SettledAnswers(cfg: Config, steps: seq<Step>, c: nat)
    requires Legal(cfg, steps) && Enabled(cfg, Exec(cfg, steps), Deliver(c))
    ensures Answers(cfg, steps, [Deliver(c)], c)
  {
    OneMoreStep(cfg, steps, Deliver(c));
  }

  /** The step that a waiting caller's unsettled operation can take next. */
  lemma WaitingGoesOn(cfg: Config, steps: seq<Step>, c: nat) returns (step: Step)
    requires cfg.Valid() && Legal(cfg, steps) && c in Exec(cfg, steps).waiting
    requires !Enabled(cfg, Exec(cfg, steps), Deliver(c))
    ensures Legal(cfg, steps + [step]) && Exec(cfg, steps + [step]).waiting == Exec(cfg, steps).waiting
    ensures var op := Exec(cfg, steps).waiting[c].op;
            0 <= RankOf(cfg, Exec(cfg, steps + [step]), op) < RankOf(cfg, Exec(cfg, steps), op)
  {
    RunKeepsInv(cfg, steps);
    var s := Exec(cfg, steps);
    var op := s.waiting[c].op;
    step := NextStep(s.ops[op].pc, op);
    NextStepIsOpen(cfg, s, op);
    MoveLowersRank(cfg, s, step, op);
    OneMoreStep(cfg, steps, step);
  }

  lemma AnswersLater(cfg: Config, steps: seq<Step>, step: Step, rest: seq<Step>, c: nat)
    requires Answers(cfg, steps + [step], rest, c) && Exec(cfg, steps + [step]).waiting == Exec(cfg, steps).waiting
    ensures Answers(cfg, steps, [step] + rest, c)
  {
    assert steps + ([step] + rest) == steps + [step] + rest;
  }

  lemma {:induction false} AnswerWithin(cfg: Config, steps: seq<Step>, c: nat) returns (more: seq<Step>)
    requires cfg.Valid() && Legal(cfg, steps) && c in Exec(cfg, steps).waiting
    ensures Answers(cfg, steps, more, c)
    ensures |more| <= RankOf(cfg, Exec(cfg, steps), Exec(cfg, steps).waiting[c].op) + 1
    decreases RankOf(cfg, Exec(cfg, steps), Exec(cfg, steps).waiting[c].op)
  {
    if Enabled(cfg, Exec(cfg, steps), Deliver(c)) {
      more := [Deliver(c)];
      SettledAnswers(cfg, steps, c);
    } else {
      var step := WaitingGoesOn(cfg, steps, c);
      var rest := AnswerWithin(cfg, steps + [step], c);
      more := [step] + rest;
      AnswersLater(cfg, steps, step, rest, c);
    }
  }

  /** From every reachable state every waiting caller has a continuation that answers it, within its operation's bound and the delivery. */
  lemma WaitersCanBeAnswered(cfg: Config, steps: seq<Step>, c: nat) returns (more: seq<Step>)
    requires cfg.Valid() && Legal(cfg, steps) && c in Exec(cfg, steps).waiting
    ensures Answers(cfg, steps, more, c) && |more| <= 2 * cfg.maxAttempts + 3
  {
    OperationsAreShort(cfg, steps, Exec(cfg, steps).waiting[c].op);
    more := AnswerWithin(cfg, steps, c);
  }
}
