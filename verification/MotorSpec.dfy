/** What a run of the robot leaves behind, read off its steps alone: for each motor whether it is
    idle, its speed, its timer and which of its LEDs are lit. */
module MotorSpec {
  import opened Basics
  import opened StateEngine
  import opened Motors
  import opened EngineDriver
  import opened MotorProduct

  datatype Lit = Neither | LeftPair | RightPair

  function Before(steps: seq<Step>): seq<Step>
    requires steps != []
  {
    steps[..|steps| - 1]
  }

  predicate Calls(a: Step, side: Side) {
    a.Order? && a.side == side
  }

  /** Idle until the first SetSpeed and after every Halt. */
  predicate Idle(steps: seq<Step>, side: Side) {
    if steps == [] then true
    else
      var a := steps[|steps| - 1];
      if Calls(a, side) then a.call.Halt? else Idle(Before(steps), side)
  }

  /** The speed set last; 1 at load. */
  function SpeedOf(steps: seq<Step>, side: Side): int {
    if steps == [] then 1
    else
      var a := steps[|steps| - 1];
      if Calls(a, side) && a.call.Set? then a.call.v else SpeedOf(Before(steps), side)
  }

  /** Timer callbacks of this motor since load. */
  function Ticks(steps: seq<Step>, side: Side): nat {
    if steps == [] then 0
    else Ticks(Before(steps), side) + if steps[|steps| - 1] == Tick(side) then 1 else 0
  }

  /** The timer is armed at load and by a start, and cancelled by a Halt of a moving motor and by the
      emergency stop. */
  predicate ArmedOf(steps: seq<Step>, side: Side) {
    if steps == [] then true
    else
      var a, before := steps[|steps| - 1], Before(steps);
      if a.Stop? then false
      else if !Calls(a, side) then ArmedOf(before, side)
      else if a.call.Set? then Idle(before, side) || ArmedOf(before, side)
      else Idle(before, side) && ArmedOf(before, side)
  }

  /** 2000 ms at load and from a start to the next callback; then 20 ms for each step below 100 of the
      speed at the callback. */
  function PeriodOf(steps: seq<Step>, side: Side): int {
    if steps == [] then 2000
    else
      var a, before := steps[|steps| - 1], Before(steps);
      if a == Tick(side) then 20 * (100 - SpeedOf(before, side))
      else if Calls(a, side) && a.call.Set? && Idle(before, side) then 2000
      else PeriodOf(before, side)
  }

  /** A callback lights the left pair if it is an odd one, the right pair if it is an even one. A Halt
      of a moving motor and the emergency stop darken both. */
  function LitOf(steps: seq<Step>, side: Side): Lit {
    if steps == [] then Neither
    else
      var a, before := steps[|steps| - 1], Before(steps);
      if a.Stop? || (Calls(a, side) && a.call.Halt? && !Idle(before, side)) then Neither
      else if a == Tick(side) then (if Ticks(steps, side) % 2 == 1 then LeftPair else RightPair)
      else LitOf(before, side)
  }

  function HalfOf(steps: seq<Step>, side: Side): Half {
    Half(SpeedOf(steps, side), Ticks(steps, side) % 2 == 1, ArmedOf(steps, side), PeriodOf(steps, side),
         LitOf(steps, side).LeftPair?, LitOf(steps, side).RightPair?)
  }

  ghost predicate Agrees(u: Unit, steps: seq<Step>, side: Side) {
    && u.half == HalfOf(steps, side)
    && (u.machine.current == ST_IDLE <==> Idle(steps, side))
    && u.machine.user.speed == if Idle(steps, side) then 0 else SpeedOf(steps, side)
  }

  lemma AgreesOrder(u: Unit, steps: seq<Step>, side: Side, c: Call)
    requires Sound(u) && Agrees(u, steps, side)
    ensures Agrees(Ordered(side, u, c), steps + [Order(side, c)], side)
  {
    assert Before(steps + [Order(side, c)]) == steps;
    OrderedEffect(side, u, c);
    hide Rests, Handle, ObeyAll, Timeout;
  }

  lemma AgreesTick(u: Unit, steps: seq<Step>, side: Side)
    requires Agrees(u, steps, side)
    ensures Agrees(u.(half := Blink(u.half)), steps + [Tick(side)], side)
  {
    assert Before(steps + [Tick(side)]) == steps;
    TimeoutExact(SpeedOf(steps, side));
    hide Timeout;
  }

  lemma AgreesStop(u: Unit, steps: seq<Step>, side: Side)
    requires Agrees(u, steps, side)
    ensures Agrees(u.(half := Cancel(u.half), stopped := true), steps + [Stop], side)
  {
    assert Before(steps + [Stop]) == steps;
  }

  lemma AgreesOther(u: Unit, steps: seq<Step>, side: Side, a: Step)
    requires Agrees(u, steps, side) && !a.Stop? && a.side != side
    ensures Agrees(u, steps + [a], side)
  {
    assert Before(steps + [a]) == steps;
  }

  lemma AgreesStep(s: System, steps: seq<Step>, side: Side, a: Step)
    requires Sound(s.left) && Sound(s.right) && Possible(s, a) && Agrees(At(s, side), steps, side)
    ensures Agrees(At(Next(s, a), side), steps + [a], side)
  {
    hide Sound, Agrees, Ordered, Blink, Cancel;
    if a.Stop? {
      AgreesStop(At(s, side), steps, side);
    } else if a.side != side {
      AgreesOther(At(s, side), steps, side, a);
    } else if a.Order? {
      AgreesOrder(At(s, side), steps, side, a.call);
    } else {
      AgreesTick(At(s, side), steps, side);
    }
  }

  lemma {:induction false} LegalFront(s: System, steps: seq<Step>)
    requires Legal(s, steps) && steps != []
    ensures Legal(s, Before(steps)) && Possible(After(s, Before(steps)), steps[|steps| - 1])
    ensures After(s, steps) == Next(After(s, Before(steps)), steps[|steps| - 1])
    decreases |steps|
  {
    hide Possible, Next;
    if |steps| > 1 {
      LegalFront(Next(s, steps[0]), steps[1..]);
      assert Before(steps)[1..] == Before(steps[1..]) && Before(steps)[0] == steps[0];
    } else {
      assert Before(steps) == [] && steps[1..] == [];
    }
  }

  lemma AgreesFresh(side: Side)
    ensures Agrees(FRESH, [], side)
  {}

  /** In every run from load, the driver's half of each motor, and its state and speed, are what the
      steps alone say. */
  lemma {:induction false} RunsAsSpecified(steps: seq<Step>, side: Side)
    requires Legal(System(FRESH, FRESH), steps)
    ensures var u := At(After(System(FRESH, FRESH), steps), side);
            && u.half == HalfOf(steps, side)
            && (u.machine.current == ST_IDLE <==> Idle(steps, side))
            && u.machine.user.speed == if Idle(steps, side) then 0 else SpeedOf(steps, side)
    decreases |steps|
  {
    var load := System(FRESH, FRESH);
    if steps == [] {
      AgreesFresh(side);
    } else {
      var before, a := Before(steps), steps[|steps| - 1];
      assert steps == before + [a];
      LegalFront(load, steps);
      RunsAsSpecified(before, side);
      var s := After(load, before);
      assert Agrees(At(s, side), before, side);
      FreshSound();
      SystemRuns(load, before);
      hide Legal, After, Next, Possible, Sound, HalfOf, Idle, SpeedOf;
      AgreesStep(s, before, side, a);
    }
  }

  /** After a callback exactly one LED pair of the motor is lit, the left one if and only if it was the
      motor's odd callback since load, and the period is 20 ms for each step below 100 of its speed. */
  lemma AfterCallback(steps: seq<Step>, side: Side)
    requires Legal(System(FRESH, FRESH), steps + [Tick(side)])
    ensures var h := At(After(System(FRESH, FRESH), steps + [Tick(side)]), side).half;
            && h.leftOn == !h.rightOn && (h.leftOn <==> Ticks(steps + [Tick(side)], side) % 2 == 1)
            && h.period == 20 * (100 - SpeedOf(steps, side))
  {
    RunsAsSpecified(steps + [Tick(side)], side);
    assert Before(steps + [Tick(side)]) == steps;
    hide Legal, After, Next, Possible;
  }

  /** No callback of this motor. */
  predicate Between(steps: seq<Step>, side: Side) {
    forall a | a in steps :: a != Tick(side)
  }

  lemma {:induction false} PeriodKept(steps: seq<Step>, more: seq<Step>, side: Side)
    requires PeriodOf(steps, side) == 2000 && Between(more, side)
    ensures PeriodOf(steps + more, side) == 2000
    decreases |more|
  {
    if more == [] {
      assert steps + more == steps;
    } else {
      var n := |more| - 1;
      assert more[n] in more;
      forall a | a in more[..n] ensures a in more {}
      assert Before(steps + more) == steps + more[..n];
      PeriodKept(steps, more[..n], side);
    }
  }

  /** From a start until the motor's next callback its timer runs with the full 2000 ms. */
  lemma FirstPeriod(steps: seq<Step>, side: Side, v: int, more: seq<Step>)
    requires Idle(steps, side) && Between(more, side)
    requires Legal(System(FRESH, FRESH), steps + [Order(side, Set(v))] + more)
    ensures At(After(System(FRESH, FRESH), steps + [Order(side, Set(v))] + more), side).half.period == MAX_TIMEOUT_MSEC
  {
    var start := steps + [Order(side, Set(v))];
    assert Before(start) == steps;
    PeriodKept(start, more, side);
    RunsAsSpecified(start + more, side);
    hide Legal, After, Next, Possible;
  }
}
