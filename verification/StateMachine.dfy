/** The class `StateMachine`: its fields, event methods and engine loops, each proved against the
    round functions of `StateEngine`. */
module StateMachines {
  import opened Basics
  import opened StateEngine

  /** Rounds of whichever engine the machine's map selects. */
  function RunRounds<U, P>(b: Behaviour<U, P>, map': Option<nat -> Row>, m: Machine<U, P>, n: nat): Machine<U, P> {
    match map'
    case None => Rounds(b, m, n)
    case Some(rows) => RoundsEx(b, rows, m, n)
  }

  class StateMachine<U, P> {
    const b: Behaviour<U, P>
    const rowsEx: Option<nat -> Row>   // GetStateMapEx(); None when GetStateMap() is used
    var currentState: nat
    var newState: nat
    var eventGenerated: bool
    var eventData: Option<Obj<P>>
    var user: U
    var born: nat
    ghost var trace: seq<Event>

    constructor (b: Behaviour<U, P>, rowsEx: Option<nat -> Row>, user: U, initialState: nat)
      requires b.maxStates < EVENT_IGNORED
      ensures this.b == b && this.rowsEx == rowsEx && View() == Machine(initialState, 0, false, None, user, 0, [])
      ensures Accounted(View())
    {
      this.b, this.rowsEx, this.user := b, rowsEx, user;
      currentState, newState, eventGenerated, eventData, born, trace := initialState, 0, false, None, 0, [];
    }

    ghost function View(): Machine<U, P>
      reads this
    {
      Machine(currentState, newState, eventGenerated, eventData, user, born, trace)
    }

    method InternalEvent(state: nat, data: Option<P>)
      modifies this
      ensures View() == PostNew(b, old(View()), state, data)
    {
      var payload := match data case None => b.none case Some(p) => p;
      eventData := Some(Obj(born, payload));
      born := born + 1;
      eventGenerated := true;
      newState := state;
    }

    /** The internal events that a state action raises. */
    method RaiseAll(rs: seq<Raise<P>>)
      modifies this
      ensures View() == PostAll(b, old(View()), rs)
    {
      for i := 0 to |rs|
        invariant PostAll(b, View(), rs[i..]) == PostAll(b, old(View()), rs)
      {
        assert rs[i..][1..] == rs[i + 1..] && rs[i..][0] == rs[i];
        InternalEvent(rs[i].state, rs[i].data);
      }
    }

    /** SetCurrentState, the state action, and the delete of its data. */
    method Invoke(o: Obj<P>)
      modifies this
      ensures View() == Execute(b, old(View()), o)
    {
      currentState := newState;
      var (u, rs) := b.act(newState, o.payload, user);
      user := u;
      trace := trace + [Action(newState, o.id, |rs|)];
      RaiseAll(rs);
      trace := trace + [Delete(o.id)];
    }

    method EngineRound()
      requires eventGenerated && !Faulty(b, View())
      modifies this
      ensures View() == Round(b, old(View()))
    {
      var o := eventData.value;
      eventData := None;
      eventGenerated := false;
      Invoke(o);
    }

    /** The guard, if the row has one. */
    method CheckGuard(rows: nat -> Row, o: Obj<P>) returns (pass: bool)
      modifies this
      ensures (View(), pass) == TryGuard(b, rows(old(newState)), old(View()), o)
    {
      pass := true;
      if rows(newState).guard {
        var (u, g) := b.guard(newState, o.payload, user);
        user, pass := u, g;
        trace := trace + [Guard(newState, o.id, g)];
      }
    }

    /** Exit the old state and enter the new one. */
    method Cross(rows: nat -> Row, o: Obj<P>)
      modifies this
      ensures var m := old(View()); View() == Arrive(b, rows(m.newState), Leave(b, rows(m.current), m), o)
    {
      if rows(currentState).exit {
        user := b.exit(currentState, user);
        trace := trace + [Exit(currentState)];
      }
      if rows(newState).entry {
        user := b.entry(newState, o.payload, user);
        trace := trace + [Entry(newState, o.id)];
      }
    }

    method EngineRoundEx(rows: nat -> Row)
      requires eventGenerated && !FaultyEx(b, rows, View())
      modifies this
      ensures View() == RoundEx(b, rows, old(View()))
    {
      var o := eventData.value;
      eventData := None;
      eventGenerated := false;
      var pass := CheckGuard(rows, o);
      if pass {
        if newState != currentState {
          Cross(rows, o);
        }
        Invoke(o);
      } else {
        trace := trace + [Delete(o.id)];
      }
    }

    /** The basic engine. It returns when the rounds come to rest, here after at most n of them. */
    method Engine(ghost n: nat)
      requires !Rounds(b, View(), n).pending
      modifies this
      ensures View() == Rounds(b, old(View()), n)
    {
      ghost var left := n;
      while eventGenerated
        invariant Rounds(b, View(), left) == Rounds(b, old(View()), n)
        decreases left
      {
        EngineRound();
        left := left - 1;
      }
    }

    method EngineEx(rows: nat -> Row, ghost n: nat)
      requires !RoundsEx(b, rows, View(), n).pending
      modifies this
      ensures View() == RoundsEx(b, rows, old(View()), n)
    {
      ghost var left := n;
      while eventGenerated
        invariant RoundsEx(b, rows, View(), left) == RoundsEx(b, rows, old(View()), n)
        decreases left
      {
        EngineRoundEx(rows);
        left := left - 1;
      }
    }

    method ExternalEvent(state: nat, data: Option<P>, ghost n: nat)
      requires !eventGenerated && !RunRounds(b, rowsEx, External(b, View(), state, data), n).pending
      modifies this
      ensures View() == RunRounds(b, rowsEx, External(b, old(View()), state, data), n)
    {
      if state == EVENT_IGNORED {
        if data.Some? {
          born := born + 1;
          trace := trace + [Delete(born - 1)];
        }
      } else {
        InternalEvent(state, data);
        match rowsEx
        case None => Engine(n);
        case Some(rows) => EngineEx(rows, n);
      }
    }
  }
}
