/** The motor driver `toy_engine_driver`: ioctl, the two blink timers and the emergency stop. */
module EngineDriver {
  import opened Motors

  const MAX_TIMEOUT_MSEC: int := 2000

  /** C division: truncates towards zero. */
  function Quot(a: int, b: int): int
    requires b > 0
  {
    if a >= 0 then a / b else -((-a) / b)
  }

  /** The blink period for a speed. */
  function Timeout(speed: int): int {
    Quot(MAX_TIMEOUT_MSEC * (100 - speed), 100)
  }

  /** 20 ms for each step below 100. */
  lemma TimeoutExact(speed: int)
    ensures Timeout(speed) == 20 * (100 - speed)
  {
    if speed <= 100 {
      assert MAX_TIMEOUT_MSEC * (100 - speed) == 100 * (20 * (100 - speed));
    } else {
      assert -(MAX_TIMEOUT_MSEC * (100 - speed)) == 100 * (20 * (speed - 100));
    }
  }

  /** The period is a sensible delay exactly for speeds from 0 to 100. */
  lemma TimeoutInRange(speed: int)
    ensures 0 <= Timeout(speed) <= MAX_TIMEOUT_MSEC <==> 0 <= speed <= 100
  {
    TimeoutExact(speed);
  }

  /** Driver state of one motor: speed, blink phase, timer, and its two LED pairs. */
  datatype Half = Half(speed: int, toggle: bool, armed: bool, period: int, leftOn: bool, rightOn: bool)

  datatype Driver = Driver(motor1: Half, motor2: Half)

  function Cancel(h: Half): Half {
    h.(armed := false, leftOn := false, rightOn := false)
  }

  /** One branch of toy_ioctl. */
  function Obey(h: Half, c: Command): Half {
    match c
    case StartSpeed(v) => h.(speed := v, armed := true, period := MAX_TIMEOUT_MSEC)
    case SetSpeed(v) => h.(speed := v)
    case HaltMotor => Cancel(h)
  }

  function ObeyAll(h: Half, cs: seq<Command>): Half
    decreases cs
  {
    if cs == [] then h else ObeyAll(Obey(h, cs[0]), cs[1..])
  }

  /** The timer callback. */
  function Blink(h: Half): Half {
    var on := !h.toggle;
    h.(toggle := on, leftOn := on, rightOn := !on, period := Timeout(h.speed))
  }

  function Of(d: Driver, side: Side): Half {
    if side.Left? then d.motor1 else d.motor2
  }

  function With(d: Driver, side: Side, h: Half): Driver {
    if side.Left? then d.(motor1 := h) else d.(motor2 := h)
  }

  /** The emergency-stop interrupt. */
  function Emergency(d: Driver): Driver {
    Driver(Cancel(d.motor1), Cancel(d.motor2))
  }

  // ----- the module

  // GPIO numbers
  const LEFT_1: nat := 17
  const LEFT_2: nat := 27
  const LEFT_3: nat := 22
  const LEFT_4: nat := 5
  const RIGHT_1: nat := 6
  const RIGHT_2: nat := 26
  const RIGHT_3: nat := 23
  const RIGHT_4: nat := 24

  /** The pins of one motor: its left pair and its right pair. */
  function PinsOf(side: Side): set<nat> {
    if side.Left? then {LEFT_1, LEFT_2, LEFT_3, LEFT_4} else {RIGHT_1, RIGHT_2, RIGHT_3, RIGHT_4}
  }

  function Pin(pins: set<nat>, gpio: nat, on: bool): set<nat> {
    if on then pins + {gpio} else pins - {gpio}
  }

  /** The globals of the driver module. */
  class Module {
    var speed1: int
    var speed2: int
    var toggle1: bool
    var toggle2: bool
    var armed1: bool
    var armed2: bool
    var period1: int
    var period2: int
    var pins: set<nat>   // GPIO outputs that are high

    /** The two LEDs of a pair are lit together, and no pin of another device is touched. */
    ghost predicate Valid()
      reads this
    {
      && (LEFT_1 in pins <==> LEFT_2 in pins) && (LEFT_3 in pins <==> LEFT_4 in pins)
      && (RIGHT_1 in pins <==> RIGHT_2 in pins) && (RIGHT_3 in pins <==> RIGHT_4 in pins)
      && pins <= PinsOf(Left) + PinsOf(Right)
    }

    ghost function View(): Driver
      reads this
    {
      Driver(Half(speed1, toggle1, armed1, period1, LEFT_1 in pins, LEFT_3 in pins),
             Half(speed2, toggle2, armed2, period2, RIGHT_1 in pins, RIGHT_3 in pins))
    }

    /** Loading the module arms both timers with the full period. */
    constructor ()
      ensures Valid() && View() == Driver(Half(1, false, true, MAX_TIMEOUT_MSEC, false, false),
                                          Half(1, false, true, MAX_TIMEOUT_MSEC, false, false))
    {
      speed1, speed2, toggle1, toggle2, armed1, armed2 := 1, 1, false, false, true, true;
      period1, period2, pins := MAX_TIMEOUT_MSEC, MAX_TIMEOUT_MSEC, {};
    }

    /** Both LED pairs of one motor, pin by pin. */
    method SetLeds(side: Side, leftOn: bool, rightOn: bool)
      requires Valid()
      modifies `pins
      ensures Valid() && pins - PinsOf(side) == old(pins) - PinsOf(side)
      ensures View() == With(old(View()), side, Of(old(View()), side).(leftOn := leftOn, rightOn := rightOn))
    {
      match side {
        case Left =>
          pins := Pin(Pin(pins, LEFT_1, leftOn), LEFT_2, leftOn);
          pins := Pin(Pin(pins, LEFT_3, rightOn), LEFT_4, rightOn);
        case Right =>
          pins := Pin(Pin(pins, RIGHT_1, leftOn), RIGHT_2, leftOn);
          pins := Pin(Pin(pins, RIGHT_3, rightOn), RIGHT_4, rightOn);
      }
    }

    /** One command changes its own motor's speed, timer and pins, and no pin of the other motor. */
    method Ioctl(side: Side, c: Command)
      requires Valid()
      modifies this
      ensures Valid() && View() == With(old(View()), side, Obey(Of(old(View()), side), c))
      ensures pins - PinsOf(side) == old(pins) - PinsOf(side)
    {
      match (side, c) {
        case (Left, StartSpeed(v)) => speed1, armed1, period1 := v, true, MAX_TIMEOUT_MSEC;
        case (Right, StartSpeed(v)) => speed2, armed2, period2 := v, true, MAX_TIMEOUT_MSEC;
        case (Left, SetSpeed(v)) => speed1 := v;
        case (Right, SetSpeed(v)) => speed2 := v;
        case (Left, HaltMotor) =>
          armed1 := false;
          SetLeds(Left, false, false);
        case (Right, HaltMotor) =>
          armed2 := false;
          SetLeds(Right, false, false);
      }
    }

    method TimerCallback(side: Side)
      requires Valid() && Of(View(), side).armed
      modifies this
      ensures Valid() && View() == With(old(View()), side, Blink(Of(old(View()), side)))
      ensures pins - PinsOf(side) == old(pins) - PinsOf(side)
    {
      if side.Left? {
        toggle1 := !toggle1;
        SetLeds(Left, toggle1, !toggle1);
        period1 := Timeout(speed1);
      } else {
        toggle2 := !toggle2;
        SetLeds(Right, toggle2, !toggle2);
        period2 := Timeout(speed2);
      }
    }

    method EmergencyStop()
      requires Valid()
      modifies this
      ensures Valid() && View() == Emergency(old(View())) && pins == {}
    {
      armed1, armed2 := false, false;
      SetLeds(Left, false, false);
      SetLeds(Right, false, false);
    }
  }
}
