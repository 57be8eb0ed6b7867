/** The table-driven state machine: external and internal events with owned event data, and the
    two run-to-completion engines. */
module StateEngine {
  import opened Basics

  const EVENT_IGNORED: nat := 0xFE

  /** A heap object holding event data; `id` is its allocation number. */
  datatype Obj<+P> = Obj(id: nat, payload: P)

  /** InternalEvent(state, data) called by a state action; None is a NULL data pointer. */
  datatype Raise<+P> = Raise(state: nat, data: Option<P>)

  datatype Event =
    | Guard(state: nat, id: nat, pass: bool)
    | Exit(state: nat)
    | Entry(state: nat, id: nat)
    | Action(state: nat, id: nat, raised: nat)   // a state action and how many events it raised
    | Delete(id: nat)

  /** What the derived class supplies: user code of every state, and the kind of data it takes. */
  datatype Behaviour<!U, !P> = Behaviour(
    maxStates: nat,
    none: P,                                   // NoEventData
    accepts: (nat, P) -> bool,                 // the dynamic_cast to the state action's data type
    guardAccepts: (nat, P) -> bool,            // the same for its guard
    entryAccepts: (nat, P) -> bool,            // and for its entry action
    act: (nat, P, U) -> (U, seq<Raise<P>>),
    guard: (nat, P, U) -> (U, bool),
    entry: (nat, P, U) -> U,
    exit: (nat, U) -> U)

  /** One row of the extended map: which of guard, entry and exit are not NULL. */
  datatype Row = Row(guard: bool, entry: bool, exit: bool)

  datatype Machine<U, P> = Machine(
    current: nat,                // m_currentState
    newState: nat,               // m_newState
    pending: bool,               // m_eventGenerated
    data: Option<Obj<P>>,        // m_pEventData
    user: U,                     // fields of the derived class
    born: nat,              // event-data objects created so far
    trace: seq<Event>)

  /** `InternalEvent`: a NULL pointer is replaced by a new NoEventData. */
  function Post<U, P>(b: Behaviour<U, P>, m: Machine<U, P>, newState: nat, d: Option<Obj<P>>): Machine<U, P> {
    match d
    case None =>
      m.(data := Some(Obj(m.born, b.none)), born := m.born + 1, pending := true, newState := newState)
    case Some(o) => m.(data := d, pending := true, newState := newState)
  }

  /** The internal events of one action, in order. Data is created with `new` just before the call. */
  function PostAll<U, P>(b: Behaviour<U, P>, m: Machine<U, P>, rs: seq<Raise<P>>): Machine<U, P>
    decreases rs
  {
    if rs == [] then m
    else PostAll(b, PostNew(b, m, rs[0].state, rs[0].data), rs[1..])
  }

  function PostNew<U, P>(b: Behaviour<U, P>, m: Machine<U, P>, newState: nat, d: Option<P>): Machine<U, P> {
    match d
    case None => Post(b, m, newState, None)
    case Some(p) => Post(b, m.(born := m.born + 1), newState, Some(Obj(m.born, p)))
  }

  /** An ASSERT of the basic engine or of the action's data-type check would fail. */
  predicate Faulty<U, P>(b: Behaviour<U, P>, m: Machine<U, P>) {
    m.newState >= b.maxStates || m.data.None? || !b.accepts(m.newState, m.data.value.payload)
  }

  function Log<U, P>(m: Machine<U, P>, e: Event): Machine<U, P> {
    m.(trace := m.trace + [e])
  }

  /** Enter the new state, run its action, delete the data. */
  function Execute<U, P>(b: Behaviour<U, P>, m: Machine<U, P>, o: Obj<P>): Machine<U, P> {
    var (u, rs) := b.act(m.newState, o.payload, m.user);
    var m1 := Log(m.(current := m.newState, user := u), Action(m.newState, o.id, |rs|));
    Log(PostAll(b, m1, rs), Delete(o.id))
  }

  /** The event is taken off the machine before anything runs. */
  function Take<U, P>(m: Machine<U, P>): Machine<U, P> {
    m.(data := None, pending := false)
  }

  /** One round of the basic engine. */
  function Round<U, P>(b: Behaviour<U, P>, m: Machine<U, P>): Machine<U, P>
    requires !Faulty(b, m)
  {
    Execute(b, Take(m), m.data.value)
  }

  function TryGuard<U, P>(b: Behaviour<U, P>, row: Row, m: Machine<U, P>, o: Obj<P>): (Machine<U, P>, bool) {
    if row.guard then
      var (u, pass) := b.guard(m.newState, o.payload, m.user);
      (Log(m.(user := u), Guard(m.newState, o.id, pass)), pass)
    else (m, true)
  }

  function Leave<U, P>(b: Behaviour<U, P>, row: Row, m: Machine<U, P>): Machine<U, P> {
    if row.exit then Log(m.(user := b.exit(m.current, m.user)), Exit(m.current)) else m
  }

  function Arrive<U, P>(b: Behaviour<U, P>, row: Row, m: Machine<U, P>, o: Obj<P>): Machine<U, P> {
    if row.entry then Log(m.(user := b.entry(m.newState, o.payload, m.user)), Entry(m.newState, o.id)) else m
  }

  /** An ASSERT of the extended engine would fail. Guard, entry and action check the data for
      themselves, each only if it is reached. */
  predicate FaultyEx<U, P>(b: Behaviour<U, P>, rows: nat -> Row, m: Machine<U, P>) {
    || m.newState >= b.maxStates || m.data.None?
    || var o := m.data.value; var row := rows(m.newState);
       || (row.guard && !b.guardAccepts(m.newState, o.payload))
       || (TryGuard(b, row, Take(m), o).1
           && (!b.accepts(m.newState, o.payload)
               || (m.newState != m.current && row.entry && !b.entryAccepts(m.newState, o.payload))))
  }

  /** One round of the extended engine. */
  function RoundEx<U, P>(b: Behaviour<U, P>, rows: nat -> Row, m: Machine<U, P>): Machine<U, P>
    requires !FaultyEx(b, rows, m)
  {
    var o := m.data.value;
    var (m1, pass) := TryGuard(b, rows(m.newState), Take(m), o);
    if !pass then Log(m1, Delete(o.id))
    else if m1.newState == m1.current then Execute(b, m1, o)
    else Execute(b, Arrive(b, rows(m1.newState), Leave(b, rows(m1.current), m1), o), o)
  }

  /** n rounds of an engine; a machine that is at rest or has hit a fault stays as it is. */
  function Rounds<U, P>(b: Behaviour<U, P>, m: Machine<U, P>, n: nat): Machine<U, P>
    decreases n
  {
    if n == 0 || !m.pending || Faulty(b, m) then m else Rounds(b, Round(b, m), n - 1)
  }

  function RoundsEx<U, P>(b: Behaviour<U, P>, rows: nat -> Row, m: Machine<U, P>, n: nat): Machine<U, P>
    decreases n
  {
    if n == 0 || !m.pending || FaultyEx(b, rows, m) then m else RoundsEx(b, rows, RoundEx(b, rows, m), n - 1)
  }

  // ----- ownership of event data

  /** Ids in the order they were deleted. */
  function Deletions(t: seq<Event>): seq<nat> {
    if t == [] then []
    else Deletions(t[..|t| - 1]) + if t[|t| - 1].Delete? then [t[|t| - 1].id] else []
  }

  /** Events overwritten before they were taken: all but the last one of each action. */
  function Lost(t: seq<Event>): nat {
    if t == [] then 0
    else Lost(t[..|t| - 1]) + if t[|t| - 1].Action? && t[|t| - 1].raised > 1 then t[|t| - 1].raised - 1 else 0
  }

  /** Every object born is deleted, pending or lost; none is deleted twice. */
  ghost predicate Accounted<U, P>(m: Machine<U, P>) {
    && (m.pending <==> m.data.Some?)
    && NoRepeats(Deletions(m.trace)) && (forall i | i in Deletions(m.trace) :: i < m.born)
    && (m.data.Some? ==> m.data.value.id < m.born && m.data.value.id !in Deletions(m.trace))
    && m.born == |Deletions(m.trace)| + Lost(m.trace) + if m.data.Some? then 1 else 0
  }

  lemma LogLast(t: seq<Event>, e: Event)
    ensures Deletions(t + [e]) == Deletions(t) + if e.Delete? then [e.id] else []
    ensures Lost(t + [e]) == Lost(t) + if e.Action? && e.raised > 1 then e.raised - 1 else 0
  {
    assert (t + [e])[..|t|] == t;
  }

  lemma {:induction false} PostAllBirths<U, P>(b: Behaviour<U, P>, m: Machine<U, P>, rs: seq<Raise<P>>)
    requires m.pending <==> m.data.Some?
    ensures var m' := PostAll(b, m, rs);
            && m'.born == m.born + |rs| && m'.trace == m.trace && m'.current == m.current && m'.user == m.user
            && (rs == [] ==> m' == m)
            && (rs != [] ==> m'.pending && m'.data.Some? && m.born <= m'.data.value.id < m'.born)
    decreases rs
  {
    if rs != [] {
      PostAllBirths(b, PostNew(b, m, rs[0].state, rs[0].data), rs[1..]);
    }
  }

  /** Running an action deletes the data it was given and keeps the books. */
  lemma ExecuteAccounted<U, P>(b: Behaviour<U, P>, m: Machine<U, P>, o: Obj<P>)
    requires Accounted(m.(data := Some(o), pending := true)) && m.data.None? && !m.pending
    ensures Accounted(Execute(b, m, o)) && Execute(b, m, o).current == m.newState
  {
    var (u, rs) := b.act(m.newState, o.payload, m.user);
    var m1 := Log(m.(current := m.newState, user := u), Action(m.newState, o.id, |rs|));
    LogLast(m.trace, Action(m.newState, o.id, |rs|));
    PostAllBirths(b, m1, rs);
    LogLast(m1.trace, Delete(o.id));
  }

  lemma RejectAccounted<U, P>(m: Machine<U, P>, o: Obj<P>)
    requires Accounted(m.(data := Some(o), pending := true)) && m.data.None? && !m.pending
    ensures Accounted(Log(m, Delete(o.id)))
  {
    LogLast(m.trace, Delete(o.id));
  }

  lemma LogQuiet<U, P>(m: Machine<U, P>, e: Event)
    requires Accounted(m) && !e.Delete? && !e.Action?
    ensures Accounted(Log(m, e))
  {
    LogLast(m.trace, e);
  }

  lemma RoundExAccounted<U, P>(b: Behaviour<U, P>, rows: nat -> Row, m: Machine<U, P>)
    requires Accounted(m) && m.pending && !FaultyEx(b, rows, m)
    ensures Accounted(RoundEx(b, rows, m))
  {
    hide Deletions, Lost, NoRepeats, Execute;
    var o := m.data.value;
    var full := (x: Machine<U, P>) => x.(data := Some(o), pending := true);
    var (m1, pass) := TryGuard(b, rows(m.newState), Take(m), o);
    if rows(m.newState).guard { LogQuiet(m, Guard(m.newState, o.id, pass)); }
    assert Accounted(full(m1));
    if !pass {
      RejectAccounted(m1, o);
    } else if m1.newState == m1.current {
      ExecuteAccounted(b, m1, o);
    } else {
      var m2 := Leave(b, rows(m1.current), m1);
      LogQuiet(full(m1), Exit(m1.current));
      assert Accounted(full(m2));
      var m3 := Arrive(b, rows(m1.newState), m2, o);
      LogQuiet(full(m2), Entry(m2.newState, o.id));
      ExecuteAccounted(b, m3, o);
    }
  }

  /** A state map without guard, entry and exit. */
  ghost predicate Plain(rows: nat -> Row) {
    forall s: nat :: rows(s) == Row(false, false, false)
  }

  /** On plain rows the two engines do the same, whatever the actions do: same states, actions,
      deletions and user data after any number of rounds. */
  lemma {:induction false} EnginesAgree<U, P>(b: Behaviour<U, P>, rows: nat -> Row, m: Machine<U, P>, n: nat)
    requires Plain(rows)
    ensures RoundsEx(b, rows, m, n) == Rounds(b, m, n)
    decreases n
  {
    if n > 0 && m.pending && !Faulty(b, m) {
      assert rows(m.newState) == Row(false, false, false) && rows(m.current) == Row(false, false, false);
      assert !FaultyEx(b, rows, m) && RoundEx(b, rows, m) == Round(b, m);
      EnginesAgree(b, rows, Round(b, m), n - 1);
    }
  }

  lemma {:induction false} RoundsExAccounted<U, P>(b: Behaviour<U, P>, rows: nat -> Row, m: Machine<U, P>, n: nat)
    requires Accounted(m)
    ensures Accounted(RoundsEx(b, rows, m, n))
    decreases n
  {
    hide Accounted, RoundEx;
    if n > 0 && m.pending && !FaultyEx(b, rows, m) {
      RoundExAccounted(b, rows, m);
      RoundsExAccounted(b, rows, RoundEx(b, rows, m), n - 1);
    }
  }

  lemma RoundsAccounted<U, P>(b: Behaviour<U, P>, m: Machine<U, P>, n: nat)
    requires Accounted(m)
    ensures Accounted(Rounds(b, m, n))
  {
    var rows := (s: nat) => Row(false, false, false);
    EnginesAgree(b, rows, m, n);
    RoundsExAccounted(b, rows, m, n);
  }

  lemma Below(s: seq<nat>, n: nat)
    requires forall i | i in s :: i < n
    ensures n == 0 ==> s == []
  {
    if s != [] { assert s[0] in s; }
  }

  /** Distinct numbers below n: there are n of them exactly when none is missing. */
  lemma {:induction false} AllPresent(s: seq<nat>, n: nat)
    requires NoRepeats(s) && forall i | i in s :: i < n
    ensures |s| <= n
    ensures |s| == n <==> forall i: nat | i < n :: i in s
    decreases n
  {
    Below(s, n);
    if n > 0 {
      if n - 1 in s {
        var k :| 0 <= k < |s| && s[k] == n - 1;
        var r := s[..k] + s[k + 1..];
        forall i | i in r ensures i < n - 1 {
          assert i in s && i != s[k];
        }
        AllPresent(r, n - 1);
        assert forall i: nat | i != n - 1 :: i in s <==> i in r by {
          assert s == s[..k] + [s[k]] + s[k + 1..];
        }
      } else {
        AllPresent(s, n - 1);
      }
    }
  }

  lemma {:induction false} LostNothing(t: seq<Event>)
    ensures Lost(t) == 0 <==> forall e | e in t && e.Action? :: e.raised <= 1
  {
    if t != [] {
      LostNothing(t[..|t| - 1]);
      assert t == t[..|t| - 1] + [t[|t| - 1]];
    }
  }

  /** `ExternalEvent` up to the start of the engine: an ignored event deletes its data, any other
      becomes the pending event. */
  function External<U, P>(b: Behaviour<U, P>, m: Machine<U, P>, newState: nat, d: Option<P>): Machine<U, P> {
    if newState == EVENT_IGNORED then
      (match d
       case None => m
       case Some(p) => Log(m.(born := m.born + 1), Delete(m.born)))
    else PostNew(b, m, newState, d)
  }

  lemma ExternalAccounted<U, P>(b: Behaviour<U, P>, m: Machine<U, P>, newState: nat, d: Option<P>)
    requires Accounted(m) && !m.pending
    ensures Accounted(External(b, m, newState, d))
  {
    LogLast(m.trace, Delete(m.born));
    assert m.born !in Deletions(m.trace);
  }

  /** An ignored event changes nothing but the count of objects; any other becomes the pending event,
      with its own data or a new NoEventData. */
  lemma ExternalPosts<U, P>(b: Behaviour<U, P>, m: Machine<U, P>, newState: nat, d: Option<P>)
    ensures var x := External(b, m, newState, d);
            && x.current == m.current && x.user == m.user
            && (newState == EVENT_IGNORED ==> x.pending == m.pending && x.newState == m.newState && x.data == m.data)
            && (newState != EVENT_IGNORED ==>
                  && x.pending && x.newState == newState && x.data.Some? && x.trace == m.trace
                  && x.data.value.payload == (match d case None => b.none case Some(p) => p))
  {}

  /** When ExternalEvent returns, every event-data object ever created has been deleted exactly
      once, if and only if no action raised more than one internal event; an ignored or
      guard-rejected event changes nothing about that. */
  lemma DeletedExactlyOnce<U, P>(b: Behaviour<U, P>, rows: nat -> Row, m: Machine<U, P>, newState: nat, d: Option<P>, n: nat)
    requires Accounted(m) && !m.pending
    requires !RoundsEx(b, rows, External(b, m, newState, d), n).pending
    ensures var r := RoundsEx(b, rows, External(b, m, newState, d), n);
            && Accounted(r) && r.data.None? && NoRepeats(Deletions(r.trace))
            && (EachDeleted(r) <==> OneRaiseEach(r.trace))
  {
    ExternalAccounted(b, m, newState, d);
    RoundsExAccounted(b, rows, External(b, m, newState, d), n);
    var r := RoundsEx(b, rows, External(b, m, newState, d), n);
    AllPresent(Deletions(r.trace), r.born);
    LostNothing(r.trace);
  }

  /** Every object created has been deleted. */
  ghost predicate EachDeleted<U, P>(m: Machine<U, P>) {
    forall i: nat | i < m.born :: i in Deletions(m.trace)
  }

  /** No action raised more than one internal event. */
  ghost predicate OneRaiseEach(t: seq<Event>) {
    forall e | e in t && e.Action? :: e.raised <= 1
  }

  /** Accounted, at rest and one raise each: nothing leaks and nothing is deleted twice. */
  lemma NothingLeaks<U, P>(m: Machine<U, P>)
    requires Accounted(m) && !m.pending && OneRaiseEach(m.trace)
    ensures EachDeleted(m) && NoRepeats(Deletions(m.trace))
  {
    AllPresent(Deletions(m.trace), m.born);
    LostNothing(m.trace);
  }

  /** A machine at rest stays at rest: further rounds change nothing. */
  lemma {:induction false} RestStays<U, P>(b: Behaviour<U, P>, m: Machine<U, P>, n: nat, k: nat)
    requires !Rounds(b, m, n).pending
    ensures Rounds(b, m, n + k) == Rounds(b, m, n)
    decreases n
  {
    if n > 0 && m.pending && !Faulty(b, m) {
      RestStays(b, Round(b, m), n - 1, k);
    }
  }

  // ----- what a round does to the derived class

  /** Of several internal events the last one stays. */
  lemma {:induction false} LastRaiseStays<U, P>(b: Behaviour<U, P>, m: Machine<U, P>, rs: seq<Raise<P>>)
    requires rs != []
    ensures var m' := PostAll(b, m, rs); var last := rs[|rs| - 1];
            && m'.pending && m'.newState == last.state && m'.data.Some?
            && m'.data.value.payload == (match last.data case None => b.none case Some(p) => p)
    decreases rs
  {
    var m1 := PostNew(b, m, rs[0].state, rs[0].data);
    if |rs| > 1 {
      LastRaiseStays(b, m1, rs[1..]);
    } else {
      assert rs[1..] == [] && PostAll(b, m1, []) == m1;
    }
  }

  /** The user code of a change from one state to another, in order: the exit action of the state
      being left, the entry action of the new one, and the new one's action. */
  function Visit<U, P>(b: Behaviour<U, P>, rows: nat -> Row, from: nat, to: nat, p: P, u: U): (U, seq<Raise<P>>) {
    var left := if from != to && rows(from).exit then b.exit(from, u) else u;
    var entered := if from != to && rows(to).entry then b.entry(to, p, left) else left;
    b.act(to, p, entered)
  }

  /** A round asks the guard of the new state first. If it says no, the machine stays and nothing else
      runs; if it says yes, or there is none, the visit runs, and the last event it raised is pending. */
  lemma RoundOutcome<U, P>(b: Behaviour<U, P>, rows: nat -> Row, m: Machine<U, P>)
    requires !FaultyEx(b, rows, m)
    ensures var r := RoundEx(b, rows, m); var p := m.data.value.payload;
            var (u, yes) := if rows(m.newState).guard then b.guard(m.newState, p, m.user) else (m.user, true);
            if !yes then r.user == u && r.current == m.current && !r.pending && r.data.None?
            else
              var (u', rs) := Visit(b, rows, m.current, m.newState, p, u);
              && r.user == u' && r.current == m.newState && (r.pending <==> rs != [])
              && (rs != [] ==>
                    var last := rs[|rs| - 1];
                    && r.newState == last.state && r.data.Some?
                    && r.data.value.payload == (match last.data case None => b.none case Some(x) => x))
  {
    var o := m.data.value;
    var (m1, pass) := TryGuard(b, rows(m.newState), Take(m), o);
    if pass {
      var m3 := if m1.newState == m1.current then m1
                else Arrive(b, rows(m1.newState), Leave(b, rows(m1.current), m1), o);
      var (u, rs) := b.act(m3.newState, o.payload, m3.user);
      var m4 := Log(m3.(current := m3.newState, user := u), Action(m3.newState, o.id, |rs|));
      PostAllBirths(b, m4, rs);
      if rs != [] { LastRaiseStays(b, m4, rs); }
    }
  }

  // ----- entry and exit discipline

  /** The state after these events: that of the latest action. */
  function Reached(start: nat, t: seq<Event>): nat {
    if t == [] then start
    else if t[|t| - 1].Action? then t[|t| - 1].state
    else Reached(start, t[..|t| - 1])
  }

  /** Exit is for the state being left and leads to a different one, through its entry if it has
      one; entry is for a new state and leads straight to its action; and a change of state always
      passes the old state's exit and the new state's entry. */
  ghost predicate Disciplined(rows: nat -> Row, start: nat, t: seq<Event>) {
    forall i | 0 <= i < |t| :: Orderly(rows, Reached(start, t[..i]), t, i)
  }

  ghost predicate Orderly(rows: nat -> Row, at: nat, t: seq<Event>, i: nat)
    requires i < |t|
  {
    match t[i]
    case Exit(s) =>
      && s == at && i + 1 < |t| && !t[i + 1].Delete? && t[i + 1].state != s
      && (if rows(t[i + 1].state).entry then t[i + 1].Entry? else t[i + 1].Action?)
    case Entry(s, id) =>
      && s != at && i + 1 < |t| && t[i + 1].Action? && t[i + 1].state == s
      && (rows(at).exit ==> i > 0 && t[i - 1] == Exit(at))
    case Action(s, id, n) =>
      && (s != at && rows(s).entry ==> i > 0 && t[i - 1] == Entry(s, id))
      && (s != at && !rows(s).entry && rows(at).exit ==> i > 0 && t[i - 1] == Exit(at))
    case _ => true
  }

  lemma ReachedSnoc(start: nat, t: seq<Event>, e: Event)
    ensures Reached(start, t + [e]) == if e.Action? then e.state else Reached(start, t)
  {
    assert (t + [e])[..|t|] == t;
  }

  /** Each event is orderly if it is so with the events of its own round appended. */
  lemma DisciplinedMore(rows: nat -> Row, start: nat, t: seq<Event>, r: seq<Event>)
    requires Disciplined(rows, start, t)
    requires forall i | |t| <= i < |t + r| :: Orderly(rows, Reached(start, (t + r)[..i]), t + r, i)
    ensures Disciplined(rows, start, t + r)
  {
    forall i | 0 <= i < |t| ensures Orderly(rows, Reached(start, (t + r)[..i]), t + r, i) {
      assert Orderly(rows, Reached(start, t[..i]), t, i);
      assert (t + r)[..i] == t[..i];
    }
  }

  /** The events of one round of the extended engine. */
  function RoundEvents(rows: nat -> Row, from: nat, to: nat, id: nat, pass: bool, n: nat): seq<Event> {
    (if rows(to).guard then [Guard(to, id, pass)] else [])
    + (if !pass then [] else
         (if from != to && rows(from).exit then [Exit(from)] else [])
         + (if from != to && rows(to).entry then [Entry(to, id)] else [])
         + [Action(to, id, n)])
    + [Delete(id)]
  }

  /** A round appends its events, and moves to the new state exactly when the guard passes. */
  lemma RoundExEvents<U, P>(b: Behaviour<U, P>, rows: nat -> Row, m: Machine<U, P>) returns (pass: bool, n: nat)
    requires !FaultyEx(b, rows, m)
    ensures var m' := RoundEx(b, rows, m);
            && m'.trace == m.trace + RoundEvents(rows, m.current, m.newState, m.data.value.id, pass, n)
            && m'.current == if pass then m.newState else m.current
  {
    var o := m.data.value;
    var (m1, p) := TryGuard(b, rows(m.newState), Take(m), o);
    pass, n := p, 0;
    if pass {
      var m3 := if m1.newState == m1.current then m1
                else Arrive(b, rows(m1.newState), Leave(b, rows(m1.current), m1), o);
      var (u, rs) := b.act(m3.newState, o.payload, m3.user);
      n := |rs|;
      PostAllBirths(b, Log(m3.(current := m3.newState, user := u), Action(m3.newState, o.id, n)), rs);
    }
  }

  lemma {:induction false} ReachedQuiet(start: nat, t: seq<Event>, q: seq<Event>)
    requires forall e | e in q :: !e.Action?
    ensures Reached(start, t + q) == Reached(start, t)
    decreases q
  {
    if q == [] {
      assert t + q == t;
    } else {
      ReachedQuiet(start, t, q[..|q| - 1]);
      assert (t + q)[..|t + q| - 1] == t + q[..|q| - 1];
    }
  }

  /** Guard, exit and entry, before the action. */
  function Prelude(rows: nat -> Row, from: nat, to: nat, id: nat, pass: bool): seq<Event> {
    (if rows(to).guard then [Guard(to, id, pass)] else [])
    + (if pass && from != to && rows(from).exit then [Exit(from)] else [])
    + (if pass && from != to && rows(to).entry then [Entry(to, id)] else [])
  }

  lemma RoundShape(rows: nat -> Row, from: nat, to: nat, id: nat, pass: bool, n: nat)
    ensures RoundEvents(rows, from, to, id, pass, n)
            == Prelude(rows, from, to, id, pass) + (if pass then [Action(to, id, n)] else []) + [Delete(id)]
    ensures forall e | e in Prelude(rows, from, to, id, pass) :: !e.Action?
  {}

  /** What stands in a prelude and what follows it. */
  lemma PreludeAt(rows: nat -> Row, from: nat, to: nat, id: nat, pass: bool, j: nat)
    requires j < |Prelude(rows, from, to, id, pass)|
    ensures var p := Prelude(rows, from, to, id, pass);
            && (p[j].Exit? || p[j].Entry? ==> pass && from != to)
            && (p[j].Exit? ==> p[j] == Exit(from))
            && (p[j].Exit? && rows(to).entry ==> j + 1 < |p| && p[j + 1] == Entry(to, id))
            && (p[j].Exit? && !rows(to).entry ==> j + 1 == |p|)
            && (p[j].Entry? ==> p[j] == Entry(to, id) && j + 1 == |p|)
            && (p[j].Entry? && rows(from).exit ==> j > 0 && p[j - 1] == Exit(from))
            && (p[j].Exit? || p[j].Entry? || p[j].Guard?)
  {}

  lemma PreludeEnd(rows: nat -> Row, from: nat, to: nat, id: nat, pass: bool)
    ensures var p := Prelude(rows, from, to, id, pass);
            && (pass && from != to && rows(to).entry ==> p != [] && p[|p| - 1] == Entry(to, id))
            && (pass && from != to && !rows(to).entry && rows(from).exit ==> p != [] && p[|p| - 1] == Exit(from))
  {}

  /** Before its action, a round is still in the old state. */
  lemma PreludeReached(rows: nat -> Row, start: nat, t: seq<Event>, from: nat, to: nat, id: nat, pass: bool, n: nat, i: nat)
    requires |t| <= i <= |t| + |Prelude(rows, from, to, id, pass)|
    ensures i <= |t + RoundEvents(rows, from, to, id, pass, n)|
    ensures Reached(start, (t + RoundEvents(rows, from, to, id, pass, n))[..i]) == Reached(start, t)
  {
    var r, p := RoundEvents(rows, from, to, id, pass, n), Prelude(rows, from, to, id, pass);
    RoundShape(rows, from, to, id, pass, n);
    hide Prelude, RoundEvents, Reached;
    assert (t + r)[..i] == t + p[..i - |t|];
    ReachedQuiet(start, t, p[..i - |t|]);
  }

  lemma PreludeInOrder(rows: nat -> Row, t: seq<Event>, from: nat, to: nat, id: nat, pass: bool, n: nat, i: nat)
    requires |t| <= i < |t| + |Prelude(rows, from, to, id, pass)|
    ensures var r := RoundEvents(rows, from, to, id, pass, n); i < |t + r| && Orderly(rows, from, t + r, i)
  {
    RoundShape(rows, from, to, id, pass, n);
    PreludeAt(rows, from, to, id, pass, i - |t|);
    hide Prelude, RoundEvents;
  }

  lemma ActionInOrder(rows: nat -> Row, t: seq<Event>, from: nat, to: nat, id: nat, pass: bool, n: nat)
    ensures var r := RoundEvents(rows, from, to, id, pass, n);
            var i := |t| + |Prelude(rows, from, to, id, pass)|;
            i < |t + r| && Orderly(rows, from, t + r, i)
  {
    RoundShape(rows, from, to, id, pass, n);
    PreludeEnd(rows, from, to, id, pass);
    hide Prelude, RoundEvents;
  }

  lemma PreludeOrderly(rows: nat -> Row, start: nat, t: seq<Event>, from: nat, to: nat, id: nat, pass: bool, n: nat, i: nat)
    requires from == Reached(start, t)
    requires var r := RoundEvents(rows, from, to, id, pass, n); |t| <= i < |t + r|
    ensures var r := RoundEvents(rows, from, to, id, pass, n); Orderly(rows, Reached(start, (t + r)[..i]), t + r, i)
  {
    var r, p := RoundEvents(rows, from, to, id, pass, n), Prelude(rows, from, to, id, pass);
    RoundShape(rows, from, to, id, pass, n);
    hide Prelude, RoundEvents, Reached;
    if i <= |t| + |p| { PreludeReached(rows, start, t, from, to, id, pass, n, i); }
    if i < |t| + |p| {
      PreludeInOrder(rows, t, from, to, id, pass, n, i);
    } else if i == |t| + |p| {
      ActionInOrder(rows, t, from, to, id, pass, n);
    } else {
      assert (t + r)[i] == Delete(id);
    }
  }

  lemma RoundReached(rows: nat -> Row, start: nat, t: seq<Event>, from: nat, to: nat, id: nat, pass: bool, n: nat)
    ensures Reached(start, t + RoundEvents(rows, from, to, id, pass, n)) == if pass then to else Reached(start, t)
  {
    hide RoundEvents, Prelude, Reached;
    var r, p := RoundEvents(rows, from, to, id, pass, n), Prelude(rows, from, to, id, pass);
    RoundShape(rows, from, to, id, pass, n);
    ReachedQuiet(start, t, p);
    var mid := if pass then [Action(to, id, n)] else [];
    assert t + r == (t + p + mid) + [Delete(id)];
    ReachedSnoc(start, t + p + mid, Delete(id));
    if pass { ReachedSnoc(start, t + p, Action(to, id, n)); } else { assert t + p + mid == t + p; }
  }

  /** The events of a round, appended to an orderly history, obey the discipline. */
  lemma RoundOrderly(rows: nat -> Row, start: nat, t: seq<Event>, to: nat, id: nat, pass: bool, n: nat)
    requires Disciplined(rows, start, t)
    ensures var t' := t + RoundEvents(rows, Reached(start, t), to, id, pass, n);
            && Disciplined(rows, start, t')
            && Reached(start, t') == if pass then to else Reached(start, t)
  {
    hide RoundEvents, Reached, Orderly, Disciplined;
    var from := Reached(start, t);
    var r := RoundEvents(rows, from, to, id, pass, n);
    forall i | |t| <= i < |t + r| ensures Orderly(rows, Reached(start, (t + r)[..i]), t + r, i) {
      PreludeOrderly(rows, start, t, from, to, id, pass, n, i);
    }
    DisciplinedMore(rows, start, t, r);
    RoundReached(rows, start, t, from, to, id, pass, n);
  }

  /** A round keeps the discipline. */
  lemma RoundExOrderly<U, P>(b: Behaviour<U, P>, rows: nat -> Row, m: Machine<U, P>, start: nat)
    requires !FaultyEx(b, rows, m) && Disciplined(rows, start, m.trace) && Reached(start, m.trace) == m.current
    ensures var r := RoundEx(b, rows, m);
            Disciplined(rows, start, r.trace) && Reached(start, r.trace) == r.current
  {
    hide Disciplined, Reached, RoundEvents, RoundEx;
    var pass, k := RoundExEvents(b, rows, m);
    RoundOrderly(rows, start, m.trace, m.newState, m.data.value.id, pass, k);
  }

  lemma {:induction false} EntryExitDiscipline<U, P>(b: Behaviour<U, P>, rows: nat -> Row, m: Machine<U, P>, start: nat, n: nat)
    requires Disciplined(rows, start, m.trace) && Reached(start, m.trace) == m.current
    ensures var r := RoundsEx(b, rows, m, n);
            Disciplined(rows, start, r.trace) && Reached(start, r.trace) == r.current
    decreases n
  {
    hide Disciplined, Reached, RoundEx, FaultyEx;
    if n > 0 && m.pending && !FaultyEx(b, rows, m) {
      RoundExOrderly(b, rows, m, start);
      EntryExitDiscipline(b, rows, RoundEx(b, rows, m), start, n - 1);
    }
  }
}
