/** What a run of the button driver shows, read off its steps alone: presses make clicks, clicks make
    cycles, and cycles light the LEDs. */
module ClickSpec {
  import opened Basics
  import opened Clicks

  datatype Click = Single | Double

  function Before(run: seq<Step>): seq<Step>
    requires run != []
  {
    run[..|run| - 1]
  }

  /** Presses of a click that is not decoded yet. */
  function Pending(run: seq<Step>): nat {
    if run == [] then 0
    else
      match run[|run| - 1]
      case Press => if Pending(Before(run)) == 0 then 1 else 0
      case Expire => 0
      case _ => Pending(Before(run))
  }

  /** The click that the last step completes: a second press in time, or the end of the wait. */
  function Completed(before: seq<Step>, a: Step): Option<Click> {
    if Pending(before) == 0 then None
    else match a
      case Press => Some(Double)
      case Expire => Some(Single)
      case _ => None
  }

  function Presses(run: seq<Step>): nat {
    if run == [] then 0 else Presses(Before(run)) + if run[|run| - 1].Press? then 1 else 0
  }

  function Count(run: seq<Step>, k: Click): nat {
    if run == [] then 0
    else Count(Before(run), k) + if Completed(Before(run), run[|run| - 1]) == Some(k) then 1 else 0
  }

  /** A single click starts a cycle; in a cycle, double clicks are counted; after three of them any
      click ends it. */
  function Advance(cycle: Option<nat>, k: Click): Option<nat> {
    match cycle
    case None => if k.Single? then Some(0) else None
    case Some(d) => if d >= 3 then None else if k.Double? then Some(d + 1) else Some(d)
  }

  /** Double clicks of the cycle that is on, if one is. */
  function Cycle(run: seq<Step>): Option<nat> {
    if run == [] then None
    else
      match Completed(Before(run), run[|run| - 1])
      case None => Cycle(Before(run))
      case Some(k) => Advance(Cycle(Before(run)), k)
  }

  /** A cycle goes through the states 1, 3, 4 and 6. */
  function StateOf(cycle: Option<nat>): nat {
    match cycle
    case None => 0
    case Some(d) => if d == 0 then 1 else if d == 1 then 3 else if d == 2 then 4 else 6
  }

  /** The double clicks of a cycle light six LEDs, all, and none; the click that ends it darkens the
      strip; single clicks within it, and clicks outside, change nothing. */
  function LitAfter(leds: set<nat>, cycle: Option<nat>, k: Click): set<nat> {
    match cycle
    case None => leds
    case Some(d) =>
      if d >= 3 then {}
      else if k.Single? then leds
      else if d == 0 then FIRST6 else if d == 1 then ALL else {}
  }

  function LitOf(run: seq<Step>): set<nat> {
    if run == [] then {}
    else
      var a, before := run[|run| - 1], Before(run);
      match Completed(before, a)
      case Some(k) => LitAfter(LitOf(before), Cycle(before), k)
      case None => if a.LedOn? then LitOf(before) + {a.i} else LitOf(before)
  }

  /** The four turn-on timers are armed by a single click that starts a cycle or comes before its first
      double click; each runs out once. */
  function TimersOf(run: seq<Step>): set<nat> {
    if run == [] then {}
    else
      var a, before := run[|run| - 1], Before(run);
      if Completed(before, a) == Some(Single) && (Cycle(before) == None || Cycle(before) == Some(0)) then FIRST4
      else if a.LedOn? then TimersOf(before) - {a.i}
      else TimersOf(before)
  }

  function Expected(run: seq<Step>): State {
    State(Pending(run), Pending(run) == 1, TimersOf(run), {}, StateOf(Cycle(run)), LitOf(run),
          Presses(run), Count(run, Single), Count(run, Double))
  }

  ghost predicate Agrees(s: State, run: seq<Step>) {
    s == Expected(run) && (Cycle(run).Some? ==> Cycle(run).value <= 3)
  }

  lemma Snoc(run: seq<Step>, a: Step)
    ensures Before(run + [a]) == run && (run + [a])[|run + [a]| - 1] == a
  {}

  /** One decoded click, in every phase of a cycle. */
  lemma ClickStep(s: State, cycle: Option<nat>, k: Click)
    requires Inv(s.(count := 0, clickTimer := false, presses := s.singles + 2 * s.doubles))
    requires s.state == StateOf(cycle) && (cycle.Some? ==> cycle.value <= 3)
    ensures var s' := Feed(s, if k.Single? then SwOn else TOut);
            && s'.state == StateOf(Advance(cycle, k)) && s'.leds == LitAfter(s.leds, cycle, k)
            && s'.onTimers == (if k.Single? && (cycle == None || cycle == Some(0)) then FIRST4 else s.onTimers)
            && s' == s.(state := s'.state, leds := s'.leds, onTimers := s'.onTimers)
  {}

  lemma PressStep(s: State, run: seq<Step>)
    requires Inv(s) && Agrees(s, run)
    ensures Possible(s, Press) && Agrees(Next(s, Press), run + [Press])
  {
    hide Feed, Table, StateOf, LitAfter, Advance;
    Snoc(run, Press);
    if s.count == 1 {
      ClickStep(s.(count := 2, clickTimer := false, presses := s.presses + 1), Cycle(run), Double);
      AdvanceBound(Cycle(run), Double);
    }
  }

  lemma ExpireStep(s: State, run: seq<Step>)
    requires Inv(s) && Agrees(s, run) && Possible(s, Expire)
    ensures Agrees(Next(s, Expire), run + [Expire])
  {
    hide Feed, Table, StateOf, LitAfter, Advance;
    Snoc(run, Expire);
    ClickStep(s.(clickTimer := false), Cycle(run), Single);
    AdvanceBound(Cycle(run), Single);
  }

  lemma AdvanceBound(cycle: Option<nat>, k: Click)
    requires cycle.Some? ==> cycle.value <= 3
    ensures Advance(cycle, k).Some? ==> Advance(cycle, k).value <= 3
  {}

  lemma LedStep(s: State, run: seq<Step>, a: Step)
    requires Inv(s) && Agrees(s, run) && Possible(s, a) && (a.LedOn? || a.LedOff?)
    ensures Agrees(Next(s, a), run + [a])
  {
    hide Feed, Table, StateOf, LitAfter, Advance;
    Snoc(run, a);
  }

  lemma AgreesStep(s: State, run: seq<Step>, a: Step)
    requires Inv(s) && Agrees(s, run) && Possible(s, a)
    ensures Agrees(Next(s, a), run + [a])
  {
    hide Inv, Agrees, Next, Possible;
    match a
    case Press => PressStep(s, run);
    case Expire => ExpireStep(s, run);
    case _ => LedStep(s, run, a);
  }

  lemma {:induction false} LegalFront(s: State, run: seq<Step>)
    requires Legal(s, run) && run != []
    ensures Legal(s, Before(run)) && Possible(After(s, Before(run)), run[|run| - 1])
    ensures After(s, run) == Next(After(s, Before(run)), run[|run| - 1])
    decreases |run|
  {
    hide Possible, Next;
    if |run| > 1 {
      LegalFront(Next(s, run[0]), run[1..]);
      assert Before(run)[1..] == Before(run[1..]) && Before(run)[0] == run[0];
    } else {
      assert Before(run) == [] && run[1..] == [];
    }
  }

  lemma Split(run: seq<Step>)
    requires run != []
    ensures run == Before(run) + [run[|run| - 1]] && |Before(run)| < |run|
  {}

  lemma AgreesInit()
    ensures After(INIT, []) == INIT && Agrees(INIT, []) && Inv(INIT)
  {}

  lemma {:induction false} AgreesRun(run: seq<Step>)
    requires Legal(INIT, run)
    ensures Agrees(After(INIT, run), run)
    decreases |run|
  {
    hide *;
    AgreesInit();
    if run != [] {
      Split(run);
      LegalFront(INIT, run);
      AgreesRun(Before(run));
      InvRun(INIT, Before(run));
      AgreesStep(After(INIT, Before(run)), Before(run), run[|run| - 1]);
    }
  }

  /** In every run from load, the state of the table machine, the LEDs, the timers and the counts are
      what the steps alone say. */
  lemma RunsAsSpecified(run: seq<Step>)
    requires Legal(INIT, run)
    ensures After(INIT, run) == Expected(run)
  {
    hide Legal, After, Expected;
    AgreesRun(run);
  }

  // ----- the turn-on sequence

  predicate TurnOns(run: seq<Step>) {
    forall a | a in run :: a.LedOn?
  }

  /** LEDs whose timers ran out. */
  function Expired(run: seq<Step>): set<nat> {
    set a | a in run && a.LedOn? :: a.i
  }

  lemma {:induction false} TurnedOn(s: State, run: seq<Step>)
    requires Legal(s, run) && TurnOns(run)
    ensures After(s, run).leds == s.leds + Expired(run) && After(s, run).onTimers == s.onTimers - Expired(run)
    ensures Expired(run) <= s.onTimers
    decreases |run|
  {
    if run != [] {
      var a, rest := run[0], run[1..];
      assert run == [a] + rest && a in run;
      forall b | b in rest ensures b in run {}
      TurnedOn(Next(s, a), rest);
      assert Expired(run) == {a.i} + Expired(rest);
    }
  }

  /** After a single click in the initial state on a dark strip, each turn-on timer lights its own LED:
      once exactly the timers in a set have run out, in any order, exactly these LEDs are lit. */
  lemma OneByOne(s: State, run: seq<Step>)
    requires s.state == 0 && s.leds == {} && TurnOns(run) && Legal(Feed(s, SwOn), run)
    ensures After(Feed(s, SwOn), run).leds == Expired(run) && Expired(run) <= FIRST4
    ensures After(Feed(s, SwOn), run).onTimers == FIRST4 - Expired(run)
  {
    assert Feed(s, SwOn).leds == {} && Feed(s, SwOn).onTimers == FIRST4;
    TurnedOn(Feed(s, SwOn), run);
    hide Legal, After, Feed;
  }

  /** Every run of the module from load ends in the state that the steps alone say. */
  method ModuleRuns(run: seq<Step>) returns (m: Module)
    requires Legal(INIT, run)
    ensures m.View() == Expected(run)
  {
    hide Next, Possible, Inv, Expected;
    m := new Module();
    for i := 0 to |run|
      invariant fresh(m) && Inv(m.View())
      invariant Legal(m.View(), run[i..]) && After(m.View(), run[i..]) == After(INIT, run)
    {
      assert run[i..][1..] == run[i + 1..] && run[i..][0] == run[i];
      InvStep(m.View(), run[i]);
      Perform(m, run[i]);
    }
    RunsAsSpecified(run);
  }

  method Perform(m: Module, a: Step)
    requires Inv(m.View()) && Possible(m.View(), a)
    modifies m
    ensures m.View() == Next(old(m.View()), a)
  {
    hide Inv;
    match a
    case Press => m.ButtonIsr();
    case Expire => m.ClickTimerExpires();
    case LedOn(i) => m.LedOnTimerCallback(i);
    case LedOff(i) => m.LedOffTimerCallback(i);
  }
}
