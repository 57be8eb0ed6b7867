/** The button driver: click decoder, LED timers and the LED table machine. */
module Clicks {

  datatype Input = SwOn | SwOff | TOut

  datatype Act = Nop | LeftOn | LeftOff | AllOn | AllOff | Left4On | Left6On | ResetTimer

  datatype Cell = Cell(next: nat, act: Act)

  /** state_machine_table[state][input] */
  function Table(state: nat, input: Input): Cell
    requires state < 7
  {
    var row := [
      [Cell(1, LeftOn), Cell(0, Nop), Cell(0, Nop)],
      [Cell(1, LeftOn), Cell(2, LeftOff), Cell(3, Left6On)],
      [Cell(2, LeftOff), Cell(0, Nop), Cell(4, AllOn)],
      [Cell(3, Left6On), Cell(4, AllOn), Cell(4, AllOn)],
      [Cell(4, AllOn), Cell(5, Left4On), Cell(6, AllOff)],
      [Cell(5, Left4On), Cell(6, AllOff), Cell(0, ResetTimer)],
      [Cell(0, AllOff), Cell(0, ResetTimer), Cell(0, ResetTimer)]
    ][state];
    row[match input case SwOn => 0 case SwOff => 1 case TOut => 2]
  }

  /** Driver globals, with the numbers of presses and of decoded clicks. */
  datatype State = State(
    count: nat,              // click_count
    clickTimer: bool,        // click_timer is pending
    onTimers: set<nat>,      // pending led_on_timers
    offTimers: set<nat>,     // pending led_off_timers
    state: nat,              // the table machine
    leds: set<nat>,          // indices of lit LEDs
    presses: nat,
    singles: nat,
    doubles: nat)

  datatype Step = Press | Expire | LedOn(i: nat) | LedOff(i: nat)

  const ALL: set<nat> := {0, 1, 2, 3, 4, 5, 6, 7}
  const FIRST4: set<nat> := {0, 1, 2, 3}
  const FIRST6: set<nat> := {0, 1, 2, 3, 4, 5}

  /** state_machine(input) */
  function Feed(s: State, input: Input): State
    requires s.state < 7
  {
    var c := Table(s.state, input);
    var s1 := s.(state := c.next);
    match c.act
    case Nop => s1
    case LeftOn => s1.(onTimers := FIRST4)
    case LeftOff => s1.(offTimers := FIRST4)
    case AllOn => s1.(leds := ALL)
    case AllOff => s1.(leds := {})
    case Left4On => s1.(leds := s.leds + FIRST4)
    case Left6On => s1.(leds := s.leds + FIRST6)
    case ResetTimer => s1.(leds := {}, state := 0)
  }

  /** click_timer_callback */
  function Decode(s: State): State
    requires s.state < 7
  {
    var s1 := if s.count == 1 then Feed(s, SwOn).(singles := s.singles + 1)
              else if s.count == 2 then Feed(s, TOut).(doubles := s.doubles + 1)
              else s;
    s1.(count := 0)
  }

  predicate Possible(s: State, a: Step) {
    && s.state < 7
    && match a
       case Press => true
       case Expire => s.clickTimer
       case LedOn(i) => i in s.onTimers
       case LedOff(i) => i in s.offTimers
  }

  function Next(s: State, a: Step): State
    requires Possible(s, a)
  {
    match a
    case Press =>
      var s1 := s.(count := s.count + 1, presses := s.presses + 1);
      if s1.count == 1 then s1.(clickTimer := true)
      else if s1.count == 2 then Decode(s1.(clickTimer := false))
      else s1
    case Expire => Decode(s.(clickTimer := false))
    case LedOn(i) => s.(leds := s.leds + {i}, onTimers := s.onTimers - {i})
    case LedOff(i) => s.(leds := s.leds - {i}, offTimers := s.offTimers - {i})
  }

  /** Every press is part of a single or a double click or still pending; and what is lit fits the
      state of the table machine. */
  ghost predicate Inv(s: State) {
    && s.presses == s.singles + 2 * s.doubles + s.count
    && s.count <= 1 && (s.clickTimer <==> s.count == 1)
    && s.state in {0, 1, 3, 4, 6}
    && s.onTimers <= FIRST4 && s.offTimers == {}
    && s.leds <= ALL
    && (s.state in {0, 1, 6} ==> s.leds <= FIRST4)
    && (s.state == 3 ==> s.leds == FIRST6)
    && (s.state == 4 ==> s.leds == ALL)
  }

  lemma InvStep(s: State, a: Step)
    requires Inv(s) && Possible(s, a)
    ensures Inv(Next(s, a))
  {}

  const INIT := State(0, false, {}, {}, 0, {}, 0, 0, 0)

  /** Every step of the run is possible where it is taken. */
  ghost predicate Legal(s: State, run: seq<Step>)
    decreases |run|
  {
    run == [] || (Possible(s, run[0]) && Legal(Next(s, run[0]), run[1..]))
  }

  ghost function After(s: State, run: seq<Step>): State
    requires Legal(s, run)
    decreases |run|
  {
    if run == [] then s else After(Next(s, run[0]), run[1..])
  }

  lemma {:induction false} InvRun(s: State, run: seq<Step>)
    requires Inv(s) && Legal(s, run)
    ensures Inv(After(s, run))
    decreases |run|
  {
    if run != [] {
      InvStep(s, run[0]);
      InvRun(Next(s, run[0]), run[1..]);
    }
  }

  /** Presses are accounted for, the dead rows of the table are never entered, and the LEDs show
      the state. */
  ghost predicate Explained(s: State) {
    && s.presses == s.singles + 2 * s.doubles + s.count
    && (s.clickTimer <==> s.count == 1)
    && s.state < 7 && s.state != 2 && s.state != 5
    && (s.state == 3 ==> FIRST6 <= s.leds)
    && (s.state == 4 ==> s.leds == ALL)
  }

  /** Every interleaving of presses, click-timer expiries and LED timers from module load. */
  lemma {:induction false} ClickRuns(run: seq<Step>)
    requires Legal(INIT, run)
    ensures Explained(After(INIT, run))
  {
    hide Legal, After, Next;
    InvRun(INIT, run);
  }

  predicate TimersOnly(run: seq<Step>) {
    forall k :: 0 <= k < |run| ==> run[k].LedOn? || run[k].LedOff?
  }

  lemma {:induction false} TimersStayDark(s: State, run: seq<Step>)
    requires s.onTimers == {} && s.leds == {} && Legal(s, run) && TimersOnly(run)
    ensures After(s, run).leds == {}
    decreases |run|
  {
    if run != [] {
      assert run[0].LedOff?;
      TimersStayDark(Next(s, run[0]), run[1..]);
    }
  }

  /** ACTION_ALL_OFF and ACTION_RESET_TIMER cancel no LED timer: wherever the table switches
      everything off, the strip stays dark until the next click exactly when no turn-on timer was
      pending at the time. */
  lemma StaysDark(s: State, input: Input)
    requires s.state < 7 && Table(s.state, input).act in {AllOff, ResetTimer}
    ensures var off := Feed(s, input);
            && off.leds == {}
            && ((forall run :: Legal(off, run) && TimersOnly(run) ==> After(off, run).leds == {})
                <==> s.onTimers == {})
  {
    var off := Feed(s, input);
    if s.onTimers == {} {
      forall run | Legal(off, run) && TimersOnly(run) ensures After(off, run).leds == {} {
        TimersStayDark(off, run);
      }
    } else {
      var i :| i in s.onTimers;
      var run := [LedOn(i)];
      var lit := Next(off, run[0]);
      assert Legal(lit, run[1..]);
      assert Legal(off, run) && TimersOnly(run);
      assert After(off, run) == After(lit, run[1..]) == lit;
      assert i in lit.leds;
    }
  }

  const FIRST_CLICK := Next(Next(INIT, Press), Expire)

  /** A second press completes a double click and feeds T_OUT to the table. */
  function Double(s: State): (r: State)
    requires Inv(s) && s.count == 0
    ensures Inv(r) && r.count == 0
    ensures r.state == Table(s.state, TOut).next && r.onTimers == s.onTimers
    ensures r.doubles == s.doubles + 1
  {
    Next(Next(s, Press), Press)
  }

  lemma TwoSteps(s: State, a: Step, b: Step, rest: seq<Step>)
    requires Possible(s, a) && Possible(Next(s, a), b) && Legal(Next(Next(s, a), b), rest)
    ensures Legal(s, [a, b] + rest)
    ensures After(s, [a, b] + rest) == After(Next(Next(s, a), b), rest)
  {
    hide Next, Possible;
    assert ([a, b] + rest)[1..] == [b] + rest;
    assert ([b] + rest)[1..] == rest;
  }

  lemma DoubleSteps(s: State, rest: seq<Step>)
    requires Inv(s) && s.count == 0 && Legal(Double(s), rest)
    ensures Legal(s, [Press, Press] + rest)
    ensures After(s, [Press, Press] + rest) == After(Double(s), rest)
  {
    hide Legal, After;
    TwoSteps(s, Press, Press, rest);
  }

  lemma FirstClick()
    ensures Inv(FIRST_CLICK) && FIRST_CLICK.count == 0 && FIRST_CLICK.state == 1
    ensures FIRST_CLICK.onTimers == FIRST4
  {}

  lemma FirstSteps(rest: seq<Step>)
    requires Legal(FIRST_CLICK, rest)
    ensures Legal(INIT, [Press, Expire] + rest)
    ensures After(INIT, [Press, Expire] + rest) == After(FIRST_CLICK, rest)
  {
    hide Legal, After;
    TwoSteps(INIT, Press, Expire, rest);
  }

  /** Such a pending timer can be reached: one single click, then three double clicks before the
      fourth LED of the sequence has come on. */
  lemma LateLight()
    ensures exists run ::
              Legal(INIT, run) && After(INIT, run).state == 6 && 3 in After(INIT, run).onTimers
  {
    hide Next, Inv, Possible, Double;
    FirstClick();
    ghost var s1 := FIRST_CLICK;
    ghost var s2 := Double(s1);
    ghost var s3 := Double(s2);
    ghost var s4 := Double(s3);
    assert s4.state == 6 && 3 in s4.onTimers;
    assert Legal(s4, []) && After(s4, []) == s4;
    hide *;
    DoubleSteps(s3, []);
    DoubleSteps(s2, [Press, Press] + []);
    DoubleSteps(s1, [Press, Press] + ([Press, Press] + []));
    FirstSteps([Press, Press] + ([Press, Press] + ([Press, Press] + [])));
  }

  /** led & (1 << i) */
  function Lit(mask: bv8, i: nat): bool
    requires i < 8
  {
    mask & ((1 as bv8) << i) != 0
  }

  lemma Masks(i: nat)
    requires i < 8
    ensures Lit(0xFF, i) && !Lit(0, i)
  {
    assert i == 0 || i == 1 || i == 2 || i == 3 || i == 4 || i == 5 || i == 6 || i == 7;
  }

  /** The module itself. The ghost counters record what the log lines report. */
  class Module {
    var count: nat
    var clickTimer: bool
    var onTimers: set<nat>
    var offTimers: set<nat>
    var state: nat
    var leds: set<nat>
    ghost var presses: nat
    ghost var singles: nat
    ghost var doubles: nat

    ghost function View(): State
      reads this
    {
      State(count, clickTimer, onTimers, offTimers, state, leds, presses, singles, doubles)
    }

    constructor ()
      ensures View() == INIT && Inv(View())
    {
      count, clickTimer, onTimers, offTimers, state, leds := 0, false, {}, {}, 0, {};
      presses, singles, doubles := 0, 0, 0;
    }

    method SetGpio(i: nat, on: bool)
      modifies this`leds
      ensures leds == if on then old(leds) + {i} else old(leds) - {i}
    {
      leds := if on then leds + {i} else leds - {i};
    }

    /** set_bit_led */
    method SetBitLed(mask: bv8)
      requires leds <= ALL
      modifies this`leds
      ensures leds <= ALL
      ensures forall i: nat :: i < 8 ==> (i in leds <==> Lit(mask, i))
    {
      hide Lit;
      var i: nat := 0;
      while i < 8
        invariant i <= 8 && leds <= ALL
        invariant forall j: nat :: j < i ==> (j in leds <==> Lit(mask, j))
      {
        SetGpio(i, Lit(mask, i));
        i := i + 1;
      }
    }

    method LightFirst(n: nat)
      modifies this`leds
      ensures forall i: nat :: i in leds <==> i in old(leds) || i < n
    {
      var i: nat := 0;
      while i < n
        invariant i <= n
        invariant forall j: nat :: j in leds <==> j in old(leds) || j < i
      {
        SetGpio(i, true);
        i := i + 1;
      }
    }

    method StartLedOnSequence()
      requires onTimers <= FIRST4
      modifies this`onTimers
      ensures onTimers == FIRST4
    {
      var i: nat := 0;
      while i < 4
        invariant i <= 4
        invariant onTimers <= FIRST4
        invariant forall j: nat :: j < i ==> j in onTimers
      {
        onTimers := onTimers + {i};
        i := i + 1;
      }
    }

    method StartLedOffSequence()
      requires offTimers <= FIRST4
      modifies this`offTimers
      ensures offTimers == FIRST4
    {
      var i: int := 3;
      while i >= 0
        invariant -1 <= i <= 3
        invariant offTimers <= FIRST4
        invariant forall j: nat :: i < j < 4 ==> j in offTimers
      {
        offTimers := offTimers + {i};
        i := i - 1;
      }
    }

    /** state_machine */
    method StateMachine(input: Input)
      requires state < 7 && onTimers <= FIRST4 && offTimers <= FIRST4 && leds <= ALL
      modifies this`state, this`leds, this`onTimers, this`offTimers
      ensures View() == Feed(old(View()), input)
    {
      hide Lit;
      var c := Table(state, input);
      forall i: nat | i < 8 ensures Lit(0xFF, i) && !Lit(0, i) { Masks(i); }
      state := c.next;
      match c.act {
        case Nop =>
        case LeftOn => StartLedOnSequence();
        case LeftOff => StartLedOffSequence();
        case AllOn => SetBitLed(0xFF);
        case AllOff => SetBitLed(0);
        case Left4On => LightFirst(4);
        case Left6On => LightFirst(6);
        case ResetTimer => SetBitLed(0); state := 0;
      }
    }

    /** click_timer_callback, once the timer is no longer pending */
    method ClickTimerCallback()
      requires state < 7 && onTimers <= FIRST4 && offTimers <= FIRST4 && leds <= ALL
      modifies this
      ensures View() == Decode(old(View()))
    {
      if count == 1 {
        StateMachine(SwOn);
        singles := singles + 1;
      } else if count == 2 {
        StateMachine(TOut);
        doubles := doubles + 1;
      }
      count := 0;
    }

    /** The kernel runs the handler of an expired click timer. */
    method ClickTimerExpires()
      requires Inv(View()) && clickTimer
      modifies this
      ensures View() == Next(old(View()), Expire) && Inv(View())
    {
      InvStep(View(), Expire);
      clickTimer := false;
      ClickTimerCallback();
    }

    /** button_isr */
    method ButtonIsr()
      requires Inv(View())
      modifies this
      ensures View() == Next(old(View()), Press) && Inv(View())
    {
      InvStep(View(), Press);
      count, presses := count + 1, presses + 1;
      if count == 1 {
        clickTimer := true;
      } else if count == 2 {
        clickTimer := false;
        ClickTimerCallback();
      }
    }

    /** led_on_timer_callback */
    method LedOnTimerCallback(i: nat)
      requires Inv(View()) && i in onTimers
      modifies this
      ensures View() == Next(old(View()), LedOn(i)) && Inv(View())
      ensures leds == old(leds) + {i} && onTimers == old(onTimers) - {i}
    {
      InvStep(View(), LedOn(i));
      onTimers := onTimers - {i};
      SetGpio(i, true);
    }

    /** led_off_timer_callback */
    method LedOffTimerCallback(i: nat)
      requires state < 7 && i in offTimers
      modifies this
      ensures View() == Next(old(View()), LedOff(i))
      ensures leds == old(leds) - {i} && offTimers == old(offTimers) - {i}
    {
      offTimers := offTimers - {i};
      SetGpio(i, false);
    }
  }
}
