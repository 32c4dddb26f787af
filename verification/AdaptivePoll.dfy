/** The two-speed poll loop: one timer or one running tick, never both, and nothing after stop. */
module AdaptivePoll {
  import opened Prelude

  datatype Cadence = Cadence(activeMs: int, idleMs: int)

  /**
   * `pending` is the event loop's timers with their delays; `timer` is the handle kept by the
   * loop, which goes stale once its timer fires.
   */
  datatype Loop = Loop(
    stopped: bool,
    running: bool,
    timer: Option<nat>,
    pending: map<nat, int>,
    nextTimer: nat,
    nextDelay: int)

  datatype Event = Fire(timer: nat, active: bool, attentive: bool) | TickDone | Wake | Stop

  function Schedule(l: Loop, delay: int): Loop {
    if l.stopped then l
    else l.(timer := Some(l.nextTimer), pending := l.pending[l.nextTimer := delay], nextTimer := l.nextTimer + 1)
  }

  function ClearTimer(l: Loop): Loop {
    if l.timer.Some? then l.(pending := l.pending - {l.timer.value}) else l
  }

  /** A timer fires: the loop runs unless stopped or running, and ticks only when active. */
  function AfterFire(c: Cadence, l: Loop, timer: nat, active: bool, attentive: bool): Loop {
    var fired := l.(pending := l.pending - {timer});
    var delay := if active || attentive then c.activeMs else c.idleMs;
    if l.stopped || l.running then fired
    else if active then fired.(running := true, nextDelay := delay)
    else Schedule(fired, delay)
  }

  function After(c: Cadence, l: Loop, e: Event): Loop {
    match e
    case Fire(timer, active, attentive) => AfterFire(c, l, timer, active, attentive)
    case TickDone => Schedule(l.(running := false), l.nextDelay)
    case Wake => if l.stopped || l.running then l else Schedule(ClearTimer(l), 0)
    case Stop => ClearTimer(l.(stopped := true))
  }

  predicate Possible(l: Loop, e: Event) {
    (e.Fire? ==> e.timer in l.pending) && (e.TickDone? ==> l.running)
  }

  const STARTED := Loop(false, false, Some(0), map[0 := 0], 1, 0)

  ghost predicate Legal(c: Cadence, events: seq<Event>) {
    events == [] ||
    (var n := |events| - 1; Legal(c, events[..n]) && Possible(Exec(c, events[..n]), events[n]))
  }

  function Exec(c: Cadence, events: seq<Event>): Loop {
    if events == [] then STARTED else After(c, Exec(c, events[..|events| - 1]), events[|events| - 1])
  }

  /** The event starts a tick. */
  predicate Starts(l: Loop, e: Event) {
    e.Fire? && e.active && !l.stopped && !l.running
  }

  ghost predicate Inv(l: Loop) {
    && (forall t :: t in l.pending ==> t < l.nextTimer)
    && (l.stopped || l.running ==> l.pending == map[])
    && (!l.stopped && !l.running ==> l.timer.Some? && l.pending.Keys == {l.timer.value})
    && (l.timer.Some? ==> l.timer.value < l.nextTimer)
  }

  lemma {:induction false} RunKeepsInv(c: Cadence, events: seq<Event>)
    requires Legal(c, events)
    ensures Inv(Exec(c, events))
  {
    if events != [] {
      RunKeepsInv(c, events[..|events| - 1]);
    }
  }

  /** Until stopped, exactly one of a running tick and a single pending timer; after stop, no timer and no new tick. */
  lemma OneTimerOrOneTick(c: Cadence, events: seq<Event>, e: Event)
    requires Legal(c, events + [e])
    ensures var l := Exec(c, events);
            && (!l.stopped ==> (l.running <==> l.pending == map[]) && |l.pending| <= 1)
            && (l.stopped ==> l.pending == map[] && !e.Fire? && Exec(c, events + [e]).pending == map[])
            && (Starts(l, e) <==> !l.running && Exec(c, events + [e]).running)
  {
    assert (events + [e])[..|events|] == events;
    RunKeepsInv(c, events);
    RunKeepsInv(c, events + [e]);
    var l := Exec(c, events);
    if !l.stopped && !l.running {
      assert l.pending.Keys == {l.timer.value};
      assert |l.pending| == |l.pending.Keys|;
    }
  }

  /** The poll that follows a tick or a skipped check waits the active interval iff something was active or attentive. */
  lemma NextCheckHasTheRightDelay(c: Cadence, events: seq<Event>, timer: nat, active: bool, attentive: bool)
    requires Legal(c, events + [Fire(timer, active, attentive)]) && !Exec(c, events).stopped
    ensures var l' := Exec(c, events + [Fire(timer, active, attentive)]);
            var delay := if active || attentive then c.activeMs else c.idleMs;
            if active then After(c, l', TickDone).pending == map[l'.nextTimer := delay]
            else l'.pending == map[Exec(c, events).nextTimer := delay]
  {
    assert (events + [Fire(timer, active, attentive)])[..|events|] == events;
    RunKeepsInv(c, events);
    RunKeepsInv(c, events + [Fire(timer, active, attentive)]);
    var l := Exec(c, events);
    assert timer in l.pending && l.pending.Keys == {timer};
    assert l.pending - {timer} == map[];
  }

  /** A wake leaves one timer, due at once; it changes nothing while a tick runs or after stop. */
  lemma WakeChecksAtOnce(c: Cadence, events: seq<Event>)
    requires Legal(c, events)
    ensures var l, l' := Exec(c, events), Exec(c, events + [Wake]);
            if l.stopped || l.running then l' == l
            else l'.timer.Some? && l'.pending == map[l'.timer.value := 0]
  {
    assert (events + [Wake])[..|events|] == events;
    RunKeepsInv(c, events);
    var l := Exec(c, events);
    if !l.stopped && !l.running {
      assert l.pending - {l.timer.value} == map[];
    }
  }

  /** A stop ends the loop for good: no timer is pending then or ever after, and no tick starts. */
  lemma {:induction false} StopEndsTheLoop(c: Cadence, before: seq<Event>, after: seq<Event>, e: Event)
    requires Legal(c, before + [Stop] + after)
    ensures var l := Exec(c, before + [Stop] + after); l.stopped && l.pending == map[] && !Starts(l, e)
  {
    var events := before + [Stop] + after;
    RunKeepsInv(c, events);
    if after == [] {
      assert events == before + [Stop] && events[..|before|] == before;
    } else {
      assert events[..|events| - 1] == before + [Stop] + after[..|after| - 1];
      StopEndsTheLoop(c, before, after[..|after| - 1], e);
    }
  }

  /** The closure variables of `startAdaptivePoll`, with the event loop's timers. */
  class AdaptivePoll {
    const cadence: Cadence
    var stopped: bool
    var running: bool
    var timer: Option<nat>
    var pending: map<nat, int>
    var nextTimer: nat
    var nextDelay: int

    ghost function State(): Loop
      reads this
    {
      Loop(stopped, running, timer, pending, nextTimer, nextDelay)
    }

    constructor (cadence: Cadence)
      ensures State() == STARTED && this.cadence == cadence
    {
      this.cadence := cadence;
      stopped, running, timer, pending, nextTimer, nextDelay := false, false, None, map[], 0, 0;
      new;
      ScheduleNext(0);
    }

    method ScheduleNext(delay: int)
      modifies `timer, `pending, `nextTimer
      ensures State() == Schedule(old(State()), delay)
    {
      if stopped {
        return;
      }
      timer := Some(nextTimer);
      pending := pending[nextTimer := delay];
      nextTimer := nextTimer + 1;
    }

    /** A timer fires and `run` goes up to its await, if any. Returns whether `tick` was started. */
    method Fired(fired: nat, active: bool, attentive: bool) returns (ticks: bool)
      requires fired in pending
      modifies this
      ensures State() == After(cadence, old(State()), Fire(fired, active, attentive))
      ensures ticks == Starts(old(State()), Fire(fired, active, attentive))
    {
      pending := pending - {fired};
      if stopped || running {
        return false;
      }
      var delay := if active || attentive then cadence.activeMs else cadence.idleMs;
      if active {
        running, nextDelay := true, delay;
        return true;
      }
      ScheduleNext(delay);
      ticks := false;
    }

    /** The awaited `tick` settled, well or badly. */
    method TickSettled()
      requires running
      modifies this
      ensures State() == After(cadence, old(State()), TickDone)
    {
      running := false;
      ScheduleNext(nextDelay);
    }

    method WakeUp()
      modifies this
      ensures State() == After(cadence, old(State()), Wake)
    {
      if stopped || running {
        return;
      }
      if timer.Some? {
        pending := pending - {timer.value};
      }
      ScheduleNext(0);
    }

    method StopPolling()
      modifies this
      ensures State() == After(cadence, old(State()), Stop)
    {
      stopped := true;
      if timer.Some? {
        pending := pending - {timer.value};
      }
    }
  }
}
