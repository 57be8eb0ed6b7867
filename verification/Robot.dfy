/** The robot in memory: two motor objects and the driver module, step by step the product machine. */
module Robots {
  import opened Basics
  import opened StateEngine
  import opened StateMachines
  import opened Motors
  import opened MotorObjects
  import opened EngineDriver
  import opened MotorProduct
  import MotorSpec

  function Other(side: Side): Side {
    if side.Left? then Right else Left
  }

  class Robot {
    const left: StateMachine<Motor, Payload>
    const right: StateMachine<Motor, Payload>
    const driver: Module
    ghost var sys: System   // the product state, with what happened so far

    /** The objects hold what the product state says. */
    ghost predicate Valid()
      reads this, left, right, driver
    {
      && left != right && left.b == Behave(Left) && right.b == Behave(Right)
      && left.rowsEx == None && right.rowsEx == None
      && sys.left.machine == left.View() && sys.right.machine == right.View()
      && driver.Valid() && driver.View() == Driver(sys.left.half, sys.right.half)
      && Sound(sys.left) && Sound(sys.right)
    }

    constructor ()
      ensures Valid() && sys == System(FRESH, FRESH) && fresh(left) && fresh(right) && fresh(driver)
    {
      left := new StateMachine<Motor, Payload>(Behave(Left), None, Motor(0, []), ST_IDLE);
      right := new StateMachine<Motor, Payload>(Behave(Right), None, Motor(0, []), ST_IDLE);
      driver := new Module();
      sys := System(FRESH, FRESH);
      FreshSound();
    }

    /** The driver calls of a motor, one ioctl after the other. */
    method Send(side: Side, cs: seq<Command>)
      requires driver.Valid()
      modifies driver
      ensures driver.Valid() && driver.View() == With(old(driver.View()), side, ObeyAll(Of(old(driver.View()), side), cs))
      ensures driver.pins - PinsOf(side) == old(driver.pins) - PinsOf(side)
    {
      ghost var d := driver.View();
      for i := 0 to |cs|
        invariant driver.Valid() && driver.pins - PinsOf(side) == old(driver.pins) - PinsOf(side)
        invariant Of(driver.View(), Other(side)) == Of(d, Other(side))
        invariant ObeyAll(Of(driver.View(), side), cs[i..]) == ObeyAll(Of(d, side), cs)
      {
        assert cs[i..][1..] == cs[i + 1..] && cs[i..][0] == cs[i];
        driver.Ioctl(side, cs[i]);
      }
    }

    /** A call of one motor: its state machine runs to completion and its commands reach the driver. */
    method Order(side: Side, c: Call)
      requires Valid() && (c.Set? ==> 1 <= c.v <= 100)
      modifies this, left, right, driver
      ensures Valid() && sys == MotorProduct.Next(old(sys), MotorProduct.Order(side, c))
      ensures driver.pins - PinsOf(side) == old(driver.pins) - PinsOf(side)
    {
      hide Sound, Rests, Handle, ObeyAll;
      SoundRests(At(sys, side));
      OrderedSound(side, At(sys, side), c);
      var sm := if side.Left? then left else right;
      var n := |sm.user.commands|;
      CallMotor(sm, side, c);
      Send(side, sm.user.commands[n..]);
      sys := MotorProduct.Next(sys, MotorProduct.Order(side, c));
    }

    method Tick(side: Side)
      requires Valid() && At(sys, side).half.armed
      modifies this, driver
      ensures Valid() && sys == MotorProduct.Next(old(sys), MotorProduct.Tick(side))
      ensures driver.pins - PinsOf(side) == old(driver.pins) - PinsOf(side)
    {
      TickSound(At(sys, side));
      hide Sound, Blink;
      driver.TimerCallback(side);
      sys := MotorProduct.Next(sys, MotorProduct.Tick(side));
    }

    method Stop()
      requires Valid()
      modifies this, driver
      ensures Valid() && sys == MotorProduct.Next(old(sys), MotorProduct.Stop) && driver.pins == {}
    {
      StopSound(sys.left);
      StopSound(sys.right);
      hide Sound;
      driver.EmergencyStop();
      sys := MotorProduct.Next(sys, MotorProduct.Stop);
    }

    method Do(a: Step)
      requires Valid() && Possible(sys, a)
      modifies this, left, right, driver
      ensures Valid() && sys == MotorProduct.Next(old(sys), a)
      ensures !a.Stop? ==> driver.pins - PinsOf(a.side) == old(driver.pins) - PinsOf(a.side)
    {
      match a
      case Order(side, c) => Order(side, c);
      case Tick(side) => Tick(side);
      case Stop => Stop();
    }

    /** A run of calls and timer callbacks of one motor never changes a pin, the timer or the state
        machine of the other. */
    method OneSide(steps: seq<Step>, side: Side)
      requires Valid() && Legal(sys, steps) && forall a | a in steps :: !a.Stop? && a.side == side
      modifies this, left, right, driver
      ensures Valid() && sys == After(old(sys), steps) && At(sys, Other(side)) == At(old(sys), Other(side))
      ensures driver.pins * PinsOf(Other(side)) == old(driver.pins) * PinsOf(Other(side))
    {
      hide Sound, MotorProduct.Next, Possible;
      SidesIndependent(sys, steps, side);
      for i := 0 to |steps|
        invariant Valid() && Legal(sys, steps[i..]) && After(sys, steps[i..]) == After(old(sys), steps)
        invariant driver.pins - PinsOf(side) == old(driver.pins) - PinsOf(side)
      {
        assert steps[i..][1..] == steps[i + 1..] && steps[i..][0] == steps[i] && steps[i] in steps;
        Do(steps[i]);
      }
      PinsApart(driver.pins, old(driver.pins), side);
    }
  }

  lemma SoundRests(u: Unit)
    requires Sound(u)
    ensures Rests(u.machine) && u.machine.current < ST_MAX_STATES
  {}

  /** The pins of the two motors are different pins. */
  lemma PinsApart(p: set<nat>, q: set<nat>, side: Side)
    requires p - PinsOf(side) == q - PinsOf(side)
    ensures p * PinsOf(Other(side)) == q * PinsOf(Other(side))
  {
    assert PinsOf(Left) !! PinsOf(Right);
    forall x | x in PinsOf(Other(side)) ensures x in p <==> x in q {
      assert x in p - PinsOf(side) <==> x in q - PinsOf(side);
    }
  }

  lemma PairsExclusive(r: Robot)
    requires r.Valid()
    ensures LEFT_1 in r.driver.pins ==> LEFT_3 !in r.driver.pins && LEFT_4 !in r.driver.pins
    ensures RIGHT_1 in r.driver.pins ==> RIGHT_3 !in r.driver.pins && RIGHT_4 !in r.driver.pins
  {
    assert Sound(r.sys.left) && Sound(r.sys.right);
  }

  /** Every run of the robot from load ends as the product machine and as the steps alone say, and a
      motor never has a pin of its left pair and one of its right pair high together. */
  method RobotRuns(steps: seq<Step>) returns (r: Robot)
    requires Legal(System(FRESH, FRESH), steps)
    ensures r.Valid() && r.sys == After(System(FRESH, FRESH), steps)
    ensures r.driver.View() == Driver(MotorSpec.HalfOf(steps, Left), MotorSpec.HalfOf(steps, Right))
    ensures LEFT_1 in r.driver.pins ==> LEFT_3 !in r.driver.pins && LEFT_4 !in r.driver.pins
    ensures RIGHT_1 in r.driver.pins ==> RIGHT_3 !in r.driver.pins && RIGHT_4 !in r.driver.pins
  {
    hide Sound, MotorProduct.Next, Possible, MotorSpec.HalfOf, MotorSpec.Idle, MotorSpec.SpeedOf;
    r := new Robot();
    for i := 0 to |steps|
      invariant fresh(r) && fresh(r.left) && fresh(r.right) && fresh(r.driver)
      invariant r.Valid() && Legal(r.sys, steps[i..]) && After(r.sys, steps[i..]) == After(System(FRESH, FRESH), steps)
    {
      assert steps[i..][1..] == steps[i + 1..] && steps[i..][0] == steps[i];
      r.Do(steps[i]);
    }
    PairsExclusive(r);
    MotorSpec.RunsAsSpecified(steps, Left);
    MotorSpec.RunsAsSpecified(steps, Right);
  }
}
