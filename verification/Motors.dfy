/** The two motor state machines on the basic engine. */
module Motors {
  import opened Basics
  import opened StateEngine

  const ST_IDLE: nat := 0
  const ST_STOP: nat := 1
  const ST_START: nat := 2
  const ST_CHANGE_SPEED: nat := 3
  const ST_MAX_STATES: nat := 4
  const CANNOT_HAPPEN: nat := 0xFF

  datatype Payload = NoEventData | MotorData(speed: int)

  /** What a motor asks of the driver. */
  datatype Command = StartSpeed(v: int) | SetSpeed(v: int) | HaltMotor

  /** m_currentSpeed, and the driver calls made so far. */
  datatype Motor = Motor(speed: int, commands: seq<Command>)

  datatype Side = Left | Right

  /** Idle and Stop take any event data, Start and ChangeSpeed only motor data. */
  predicate Accepts(s: nat, p: Payload) {
    s < ST_START || p.MotorData?
  }

  function Say(u: Motor, speed: int, c: Command): Motor {
    Motor(speed, u.commands + [c])
  }

  function Act(side: Side, s: nat, p: Payload, u: Motor): (Motor, seq<Raise<Payload>>) {
    if s == ST_IDLE then
      (if side.Left? then Say(u, 0, HaltMotor) else u, [])
    else if s == ST_STOP then
      (Say(u, 0, HaltMotor), [Raise(ST_IDLE, None)])
    else if p.MotorData? then
      (Say(u, p.speed, if s == ST_START then StartSpeed(p.speed) else SetSpeed(p.speed)), [])
    else (u, [])
  }

  function Behave(side: Side): Behaviour<Motor, Payload> {
    Behaviour(
      ST_MAX_STATES,
      NoEventData,
      Accepts,
      Accepts,
      Accepts,
      (s: nat, p: Payload, u: Motor) => Act(side, s, p, u),
      (s: nat, p: Payload, u: Motor) => (u, true),
      (s: nat, p: Payload, u: Motor) => u,
      (s: nat, u: Motor) => u)
  }

  datatype Call = Set(v: int) | Halt

  /** The transition tables, indexed by the current state. */
  function Transition(c: Call, s: nat): nat
    requires s < ST_MAX_STATES
  {
    match c
    case Set(_) => [ST_START, CANNOT_HAPPEN, ST_CHANGE_SPEED, ST_CHANGE_SPEED][s]
    case Halt => [EVENT_IGNORED, CANNOT_HAPPEN, ST_STOP, ST_STOP][s]
  }

  function DataOf(c: Call): Option<Payload> {
    match c
    case Set(v) => Some(MotorData(v))
    case Halt => None
  }

  /** A call of SetSpeed or Halt, with n rounds of the engine. */
  function Handle(side: Side, m: Machine<Motor, Payload>, c: Call, n: nat): Machine<Motor, Payload>
    requires m.current < ST_MAX_STATES
  {
    Rounds(Behave(side), External(Behave(side), m, Transition(c, m.current), DataOf(c)), n)
  }

  /** The machine rests: nothing pending, in Idle, Start or ChangeSpeed, with every event-data
      object deleted exactly once. */
  ghost predicate Rests(m: Machine<Motor, Payload>) {
    && !m.pending && m.current in {ST_IDLE, ST_START, ST_CHANGE_SPEED}
    && Accounted(m) && OneRaiseEach(m.trace)
  }

  lemma OneRound(side: Side, m: Machine<Motor, Payload>, s: nat, o: Obj<Payload>)
    requires m.data == Some(o) && m.newState == s && s in {ST_IDLE, ST_START, ST_CHANGE_SPEED} && Accepts(s, o.payload)
    ensures !Faulty(Behave(side), m)
    ensures var r := Round(Behave(side), m);
            && !r.pending && r.current == s && r.user == Act(side, s, o.payload, m.user).0
            && r.trace == m.trace + [Action(s, o.id, 0), Delete(o.id)]
  {
    assert m.trace + [Action(s, o.id, 0)] + [Delete(o.id)] == m.trace + [Action(s, o.id, 0), Delete(o.id)];
  }

  lemma StopRound(side: Side, m: Machine<Motor, Payload>, o: Obj<Payload>)
    requires m.data == Some(o) && m.newState == ST_STOP
    ensures !Faulty(Behave(side), m)
    ensures var r := Round(Behave(side), m);
            && r.pending && r.newState == ST_IDLE && r.data == Some(Obj(m.born, NoEventData))
            && r.user == Say(m.user, 0, HaltMotor)
            && r.trace == m.trace + [Action(ST_STOP, o.id, 1), Delete(o.id)]
  {
    var rs := [Raise(ST_IDLE, None)];
    assert Act(side, ST_STOP, o.payload, m.user).1 == rs;
    var b := Behave(side);
    var m1 := Log(Take(m).(current := ST_STOP, user := Say(m.user, 0, HaltMotor)), Action(ST_STOP, o.id, 1));
    assert PostAll(b, m1, rs) == PostNew(b, m1, ST_IDLE, None) by { assert rs[1..] == []; }
    assert m.trace + [Action(ST_STOP, o.id, 1)] + [Delete(o.id)] == m.trace + [Action(ST_STOP, o.id, 1), Delete(o.id)];
  }

  /** What a call does to a machine at rest: the state it ends in, the speed and the commands. */
  function Outcome(side: Side, s: nat, u: Motor, c: Call): (nat, Motor) {
    match c
    case Set(v) => if s == ST_IDLE then (ST_START, Say(u, v, StartSpeed(v))) else (ST_CHANGE_SPEED, Say(u, v, SetSpeed(v)))
    case Halt =>
      if s == ST_IDLE then (s, u)
      else (ST_IDLE, if side.Left? then Say(Say(u, 0, HaltMotor), 0, HaltMotor) else Say(u, 0, HaltMotor))
  }

  lemma SetOutcome(side: Side, m: Machine<Motor, Payload>, v: int)
    requires Rests(m)
    ensures var r := Handle(side, m, Set(v), 2);
            && !r.pending && (r.current, r.user) == Outcome(side, m.current, m.user, Set(v))
            && exists t: seq<Event> :: r.trace == m.trace + t && OneRaiseEach(t)
  {
    var b, s := Behave(side), Transition(Set(v), m.current);
    var x := External(b, m, s, Some(MotorData(v)));
    OneRound(side, x, s, x.data.value);
    assert Rounds(b, x, 2) == Round(b, x);
    assert OneRaiseEach([Action(s, x.data.value.id, 0), Delete(x.data.value.id)]);
  }

  lemma HaltOutcome(side: Side, m: Machine<Motor, Payload>)
    requires Rests(m)
    ensures var r := Handle(side, m, Halt, 2);
            && !r.pending && (r.current, r.user) == Outcome(side, m.current, m.user, Halt)
            && exists t: seq<Event> :: r.trace == m.trace + t && OneRaiseEach(t)
  {
    if m.current == ST_IDLE {
      assert m.trace == m.trace + [];
    } else {
      var b := Behave(side);
      var x := External(b, m, ST_STOP, None);
      StopRound(side, x, x.data.value);
      var y := Round(b, x);
      OneRound(side, y, ST_IDLE, y.data.value);
      assert Rounds(b, x, 2) == Round(b, y);
      var t := [Action(ST_STOP, x.data.value.id, 1), Delete(x.data.value.id)]
               + [Action(ST_IDLE, y.data.value.id, 0), Delete(y.data.value.id)];
      assert Round(b, y).trace == m.trace + t && OneRaiseEach(t);
    }
  }

  /** Every call on a machine at rest ends within two rounds, at rest again, with no assertion
      failing: the CANNOT_HAPPEN entries are never looked up. */
  lemma HandleRests(side: Side, m: Machine<Motor, Payload>, c: Call)
    requires Rests(m)
    ensures var r := Handle(side, m, c, 2);
            Rests(r) && (r.current, r.user) == Outcome(side, m.current, m.user, c)
  {
    var b, s := Behave(side), Transition(c, m.current);
    match c { case Set(v) => SetOutcome(side, m, v); case Halt => HaltOutcome(side, m); }
    ExternalAccounted(b, m, s, DataOf(c));
    RoundsAccounted(b, External(b, m, s, DataOf(c)), 2);
  }
}

/** The motor objects: their calls on a state machine in memory. */
module MotorObjects {
  import opened Basics
  import opened StateEngine
  import opened StateMachines
  import opened Motors

  /** SetSpeed or Halt on a motor at rest: look up the transition, raise the external event. */
  method CallMotor(sm: StateMachine<Motor, Payload>, side: Side, c: Call)
    requires sm.b == Behave(side) && sm.rowsEx == None && Rests(sm.View())
    modifies sm
    ensures sm.View() == Handle(side, old(sm.View()), c, 2) && Rests(sm.View())
    ensures (sm.currentState, sm.user) == Outcome(side, old(sm.currentState), old(sm.user), c)
  {
    HandleRests(side, sm.View(), c);
    sm.ExternalEvent(Transition(c, sm.currentState), DataOf(c), 2);
  }
}
