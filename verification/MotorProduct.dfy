/** Motor machines, driver timers and the emergency stop running together. */
module MotorProduct {
  import opened Basics
  import opened StateEngine
  import opened Motors
  import opened EngineDriver

  /** One motor: its state machine and its half of the driver, with what happened to it so far. */
  datatype Unit = Unit(
    machine: Machine<Motor, Payload>,
    half: Half,
    started: bool,     // SetSpeed has been called at least once
    last: int,         // the latest speed set
    stopped: bool)     // an emergency stop has come since the latest Start

  datatype System = System(left: Unit, right: Unit)

  datatype Step = Order(side: Side, call: Call) | Tick(side: Side) | Stop

  function At(s: System, side: Side): Unit {
    if side.Left? then s.left else s.right
  }

  function Put(s: System, side: Side, u: Unit): System {
    if side.Left? then s.(left := u) else s.(right := u)
  }

  /** The commands that a call added are carried out by the driver. */
  function Ordered(side: Side, u: Unit, c: Call): Unit
    requires u.machine.current < ST_MAX_STATES
  {
    var m := Handle(side, u.machine, c, 2);
    var n := |u.machine.user.commands|;
    var added := if n <= |m.user.commands| then m.user.commands[n..] else [];
    Unit(m, ObeyAll(u.half, added),
         u.started || c.Set?,
         if c.Set? then c.v else u.last,
         if m.current == ST_START && u.machine.current == ST_IDLE then false else u.stopped)
  }

  predicate Possible(s: System, a: Step) {
    match a
    case Order(side, c) => At(s, side).machine.current < ST_MAX_STATES && (c.Set? ==> 1 <= c.v <= 100)
    case Tick(side) => At(s, side).half.armed
    case Stop => true
  }

  function Next(s: System, a: Step): System
    requires Possible(s, a)
  {
    match a
    case Order(side, c) => Put(s, side, Ordered(side, At(s, side), c))
    case Tick(side) => Put(s, side, At(s, side).(half := Blink(At(s, side).half)))
    case Stop => System(s.left.(half := Cancel(s.left.half), stopped := true),
                        s.right.(half := Cancel(s.right.half), stopped := true))
  }

  predicate Dark(h: Half) {
    !h.leftOn && !h.rightOn
  }

  /** What holds of a motor between steps. */
  ghost predicate Sound(u: Unit) {
    var idle := u.machine.current == ST_IDLE;
    && Rests(u.machine)
    && u.machine.user.speed == (if idle then 0 else u.last)
    && (u.started ==> u.half.speed == u.last && 1 <= u.last <= 100)
    && 1 <= u.half.speed <= 100
    && (!idle ==> u.started)
    && (idle && u.started ==> !u.half.armed && Dark(u.half))
    && (!idle ==> (u.half.armed <==> !u.stopped))
    && (!idle && u.stopped ==> Dark(u.half))
    && (u.half.armed ==> 0 <= u.half.period <= MAX_TIMEOUT_MSEC)
    && !(u.half.leftOn && u.half.rightOn)
  }

  /** Net effect of a call on the driver's half. */
  function Effect(h: Half, idle: bool, c: Call): Half {
    match c
    case Set(v) => Obey(h, if idle then StartSpeed(v) else SetSpeed(v))
    case Halt => if idle then h else Cancel(h)
  }

  lemma ObeyOne(h: Half, c: Command)
    ensures ObeyAll(h, [c]) == Obey(h, c)
  {
    assert [c][1..] == [];
  }

  lemma OrderedEffect(side: Side, u: Unit, c: Call)
    requires Rests(u.machine)
    ensures var r := Ordered(side, u, c); var idle := u.machine.current == ST_IDLE;
            && Rests(r.machine) && r.half == Effect(u.half, idle, c)
            && r.machine.current == (if c.Set? then (if idle then ST_START else ST_CHANGE_SPEED) else ST_IDLE)
            && r.machine.user.speed == (if c.Set? then c.v else if idle then u.machine.user.speed else 0)
  {
    HandleRests(side, u.machine, c);
    hide Rests, Handle;
    var was, h := u.machine.user.commands, u.half;
    var now := Outcome(side, u.machine.current, u.machine.user, c).1.commands;
    match c
    case Set(v) =>
      var cmd := if u.machine.current == ST_IDLE then StartSpeed(v) else SetSpeed(v);
      assert now[|was|..] == [cmd];
      ObeyOne(h, cmd);
    case Halt =>
      if u.machine.current == ST_IDLE {
        assert now[|was|..] == [];
      } else if side.Left? {
        assert now[|was|..] == [HaltMotor, HaltMotor] && [HaltMotor, HaltMotor][1..] == [HaltMotor];
        ObeyOne(Cancel(h), HaltMotor);
      } else {
        assert now[|was|..] == [HaltMotor];
        ObeyOne(h, HaltMotor);
      }
  }

  lemma OrderedSound(side: Side, u: Unit, c: Call)
    requires Sound(u) && (c.Set? ==> 1 <= c.v <= 100)
    ensures Sound(Ordered(side, u, c))
  {
    OrderedEffect(side, u, c);
    hide Rests, Handle, ObeyAll;
  }

  lemma TickSound(u: Unit)
    requires Sound(u) && u.half.armed
    ensures Sound(u.(half := Blink(u.half)))
  {
    TimeoutInRange(u.half.speed);
    hide Rests, Timeout;
  }

  lemma StopSound(u: Unit)
    requires Sound(u)
    ensures Sound(u.(half := Cancel(u.half), stopped := true))
  {
    hide Rests;
  }

  predicate Legal(s: System, steps: seq<Step>)
    decreases steps
  {
    steps == [] || (Possible(s, steps[0]) && Legal(Next(s, steps[0]), steps[1..]))
  }

  function After(s: System, steps: seq<Step>): System
    requires Legal(s, steps)
    decreases steps
  {
    if steps == [] then s else After(Next(s, steps[0]), steps[1..])
  }

  const FRESH: Unit :=
    Unit(Machine(ST_IDLE, 0, false, None, Motor(0, []), 0, []),
         Half(1, false, true, MAX_TIMEOUT_MSEC, false, false), false, 0, false)

  lemma FreshSound()
    ensures Sound(FRESH)
  {
    assert Deletions([]) == [] && Lost([]) == 0;
  }

  /** Both motors stay sound through every run of calls, timer callbacks and emergency stops. */
  lemma {:induction false} SystemRuns(s: System, steps: seq<Step>)
    requires Sound(s.left) && Sound(s.right) && Legal(s, steps)
    ensures Sound(After(s, steps).left) && Sound(After(s, steps).right)
    decreases steps
  {
    hide Sound, Ordered;
    if steps != [] {
      match steps[0] {
        case Order(side, c) => OrderedSound(side, At(s, side), c);
        case Tick(side) => TickSound(At(s, side));
        case Stop => StopSound(s.left); StopSound(s.right);
      }
      SystemRuns(Next(s, steps[0]), steps[1..]);
    }
  }

  /** From module load, over every run and for each motor: the speed commanded last is the
      driver's; after the first SetSpeed an idle motor has its timer off and LEDs dark; a moving
      one has its timer armed exactly when no emergency stop came since Start; the period is
      sensible; the two LED pairs are never lit together; and no event data leaks. */
  lemma MotorRuns(steps: seq<Step>, side: Side)
    requires Legal(System(FRESH, FRESH), steps)
    ensures var u := At(After(System(FRESH, FRESH), steps), side); var idle := u.machine.current == ST_IDLE;
            && u.machine.current in {ST_IDLE, ST_START, ST_CHANGE_SPEED} && !u.machine.pending
            && u.machine.user.speed == (if idle then 0 else u.last)
            && (u.started ==> u.half.speed == u.last)
            && (idle && u.started ==> !u.half.armed && Dark(u.half))
            && (!idle ==> (u.half.armed <==> !u.stopped))
            && (u.half.armed ==> 0 <= u.half.period <= MAX_TIMEOUT_MSEC)
            && !(u.half.leftOn && u.half.rightOn)
            && EachDeleted(u.machine) && NoRepeats(Deletions(u.machine.trace))
  {
    FreshSound();
    SystemRuns(System(FRESH, FRESH), steps);
    NothingLeaks(At(After(System(FRESH, FRESH), steps), side).machine);
  }

  /** A run that concerns only one motor, without emergency stops, never touches the other. */
  lemma {:induction false} SidesIndependent(s: System, steps: seq<Step>, side: Side)
    requires Legal(s, steps) && forall a | a in steps :: !a.Stop? && a.side == side
    ensures At(After(s, steps), if side.Left? then Right else Left) == At(s, if side.Left? then Right else Left)
    decreases steps
  {
    if steps != [] {
      assert steps[0] in steps;
      SidesIndependent(Next(s, steps[0]), steps[1..], side);
    }
  }

  /** Before the first SetSpeed an idle motor may blink: the timers are armed at load. */
  lemma IdleBlinksAtFirst()
    ensures var steps := [Tick(Left)];
            && Legal(System(FRESH, FRESH), steps)
            && var u := After(System(FRESH, FRESH), steps).left;
               u.machine.current == ST_IDLE && !u.started && u.half.armed && !Dark(u.half)
  {
    assert [Tick(Left)][1..] == [];
  }

  /** After an emergency stop, setting a speed does not restart the motor; Halt and SetSpeed do. */
  lemma RestartAfterStop(u: Unit, side: Side, v: int, w: int)
    requires Sound(u) && u.machine.current != ST_IDLE && u.stopped && 1 <= v <= 100 && 1 <= w <= 100
    ensures !Ordered(side, u, Set(v)).half.armed
    ensures Sound(Ordered(side, u, Halt)) && Ordered(side, Ordered(side, u, Halt), Set(w)).half.armed
  {
    OrderedSound(side, u, Halt);
    OrderedEffect(side, u, Set(v));
    OrderedEffect(side, u, Halt);
    OrderedEffect(side, Ordered(side, u, Halt), Set(w));
  }
}
