/** Moving objects between overlapping ranges: `move_forward_type` and `move_backward_type`. */
module Moves {
  import opened Basics

  /** Storage for one object: raw memory or a constructed value. */
  datatype Slot<T> = Raw | Live(value: T)

  /** The traits that select a branch. */
  datatype Traits = Traits(copy: bool, dtor: bool, move: bool)   // trivial copy, dtor, move

  /** One turn of the element loop: construct or assign at d from s, then destroy s. It is an
      error to read raw memory, or to construct over an object whose destructor matters. */
  function MoveOne<T>(m: seq<Slot<T>>, d: nat, s: nat, t: Traits): Option<seq<Slot<T>>>
    requires d < |m| && s < |m|
  {
    if m[s].Raw? || (!t.copy && !t.dtor && m[d].Live?) then None
    else
      var m1 := m[d := m[s]];
      Some(if t.dtor then m1 else m1[s := Raw])
  }

  /** From the last element down to the first. */
  function Forward<T>(m: seq<Slot<T>>, d: nat, s: nat, n: nat, t: Traits): Option<seq<Slot<T>>>
    requires d + n <= |m| && s + n <= |m|
    decreases n
  {
    if n == 0 then Some(m)
    else match MoveOne(m, d + n - 1, s + n - 1, t)
      case None => None
      case Some(m1) => Forward(m1, d, s, n - 1, t)
  }

  /** From the first element up to the last. */
  function Backward<T>(m: seq<Slot<T>>, d: nat, s: nat, n: nat, t: Traits): Option<seq<Slot<T>>>
    requires d + n <= |m| && s + n <= |m|
    decreases n
  {
    if n == 0 then Some(m)
    else match MoveOne(m, d, s, t)
      case None => None
      case Some(m1) => Backward(m1, d + 1, s + 1, n - 1, t)
  }

  predicate In(i: int, a: int, n: int) {
    a <= i < a + n
  }

  /** memmove: all of the source at once; without a trivial destructor the vacated slots are raw. */
  ghost function Relocated<T>(m: seq<Slot<T>>, d: nat, s: nat, n: nat, dtor: bool): (r: seq<Slot<T>>)
    requires d + n <= |m| && s + n <= |m|
    ensures |r| == |m| && forall i | 0 <= i < |m| :: r[i] == Target(m, d, s, n, dtor, i)
  {
    seq(|m|, i requires 0 <= i < |m| => Target(m, d, s, n, dtor, i))
  }

  function Target<T>(m: seq<Slot<T>>, d: nat, s: nat, n: nat, dtor: bool, i: nat): Slot<T>
    requires d + n <= |m| && s + n <= |m| && i < |m|
  {
    if In(i, d, n) then m[s + i - d] else if In(i, s, n) && !dtor then Raw else m[i]
  }

  lemma RelocateLast<T>(m: seq<Slot<T>>, d: nat, s: nat, n: nat, t: Traits)
    requires 0 < n && d + n <= |m| && s + n <= |m| && (s < d || d + n <= s)
    requires MoveOne(m, d + n - 1, s + n - 1, t).Some?
    ensures var m1 := MoveOne(m, d + n - 1, s + n - 1, t).value;
            |m1| == |m| && Relocated(m1, d, s, n - 1, t.dtor) == Relocated(m, d, s, n, t.dtor)
  {
    hide Relocated;
    var m1 := MoveOne(m, d + n - 1, s + n - 1, t).value;
    forall i | 0 <= i < |m| ensures Target(m1, d, s, n - 1, t.dtor, i) == Target(m, d, s, n, t.dtor, i) {}
  }

  lemma RelocateFirst<T>(m: seq<Slot<T>>, d: nat, s: nat, n: nat, t: Traits)
    requires 0 < n && d + n <= |m| && s + n <= |m| && (d < s || s + n <= d)
    requires MoveOne(m, d, s, t).Some?
    ensures var m1 := MoveOne(m, d, s, t).value;
            |m1| == |m| && Relocated(m1, d + 1, s + 1, n - 1, t.dtor) == Relocated(m, d, s, n, t.dtor)
  {
    hide Relocated;
    var m1 := MoveOne(m, d, s, t).value;
    forall i | 0 <= i < |m| ensures Target(m1, d + 1, s + 1, n - 1, t.dtor, i) == Target(m, d, s, n, t.dtor, i) {}
  }

  /** The source is constructed, and the target outside it is raw. */
  predicate Ready<T>(m: seq<Slot<T>>, d: nat, s: nat, n: nat)
    requires d + n <= |m| && s + n <= |m|
  {
    && (forall i | s <= i < s + n :: m[i].Live?)
    && (forall i | d <= i < d + n && !In(i, s, n) :: m[i].Raw?)
  }

  /** What a constructor may find in the target: raw, or something whose destructor is trivial. */
  predicate Clear<T>(m: seq<Slot<T>>, d: nat, s: nat, n: nat, t: Traits)
    requires d + n <= |m| && s + n <= |m|
  {
    && (forall i | s <= i < s + n :: m[i].Live?)
    && (t.copy || t.dtor || forall i | d <= i < d + n && !In(i, s, n) :: m[i].Raw?)
  }

  lemma {:induction false} ForwardMoves<T>(m: seq<Slot<T>>, d: nat, s: nat, n: nat, t: Traits)
    requires d + n <= |m| && s + n <= |m| && Clear(m, d, s, n, t) && (s < d || d + n <= s)
    ensures Forward(m, d, s, n, t) == Some(Relocated(m, d, s, n, t.dtor))
    decreases n
  {
    if n == 0 {
      assert Relocated(m, d, s, 0, t.dtor) == m;
    } else {
      assert m[s + n - 1].Live? && !In(d + n - 1, s, n);
      hide Relocated;
      RelocateLast(m, d, s, n, t);
      ForwardMoves(MoveOne(m, d + n - 1, s + n - 1, t).value, d, s, n - 1, t);
    }
  }

  lemma {:induction false} BackwardMoves<T>(m: seq<Slot<T>>, d: nat, s: nat, n: nat, t: Traits)
    requires d + n <= |m| && s + n <= |m| && Clear(m, d, s, n, t) && (d < s || s + n <= d)
    ensures Backward(m, d, s, n, t) == Some(Relocated(m, d, s, n, t.dtor))
    decreases n
  {
    if n == 0 {
      assert Relocated(m, d, s, 0, t.dtor) == m;
    } else {
      assert m[s].Live? && !In(d, s, n);
      hide Relocated;
      RelocateFirst(m, d, s, n, t);
      BackwardMoves(MoveOne(m, d, s, t).value, d + 1, s + 1, n - 1, t);
    }
  }

  const OWNING: Traits := Traits(false, false, false)

  /** For a type with a real copy constructor and destructor, move_forward does what memmove would,
      constructing only on raw and destroying only constructed slots, if and only if the target is
      above the source or does not overlap it. */
  lemma ForwardExactly<T>(m: seq<Slot<T>>, d: nat, s: nat, n: nat)
    requires 0 < n && d + n <= |m| && s + n <= |m| && Ready(m, d, s, n)
    ensures Forward(m, d, s, n, OWNING) == Some(Relocated(m, d, s, n, false)) <==> s < d || d + n <= s
  {
    if s < d || d + n <= s {
      ForwardMoves(m, d, s, n, OWNING);
    } else {
      assert In(d + n - 1, s, n);
    }
  }

  lemma BackwardExactly<T>(m: seq<Slot<T>>, d: nat, s: nat, n: nat)
    requires 0 < n && d + n <= |m| && s + n <= |m| && Ready(m, d, s, n)
    ensures Backward(m, d, s, n, OWNING) == Some(Relocated(m, d, s, n, false)) <==> d < s || s + n <= d
  {
    if d < s || s + n <= d {
      BackwardMoves(m, d, s, n, OWNING);
    } else {
      assert In(d, s, n);
    }
  }

  /** Afterwards the target holds the source's values in order, whatever the destructor, and nothing
      outside the two ranges has changed. With a destructor exactly the target is constructed;
      without one the source outside the target keeps its values. */
  lemma RelocatedLive<T>(m: seq<Slot<T>>, d: nat, s: nat, n: nat, dtor: bool)
    requires d + n <= |m| && s + n <= |m|
    ensures var r := Relocated(m, d, s, n, dtor);
            && r[d..d + n] == m[s..s + n]
            && (forall i | 0 <= i < |m| && !In(i, d, n) && !In(i, s, n) :: r[i] == m[i])
            && (!dtor && Ready(m, d, s, n) ==>
                  forall i | 0 <= i < |m| && (In(i, d, n) || In(i, s, n)) :: r[i].Live? <==> In(i, d, n))
            && (dtor ==> forall i | 0 <= i < |m| && In(i, s, n) && !In(i, d, n) :: r[i] == m[i])
  {}

  method MemMove<T>(a: array<Slot<T>>, d: nat, s: nat, n: nat, dtor: bool)
    requires d + n <= a.Length && s + n <= a.Length
    modifies a
    ensures a[..] == Relocated(old(a[..]), d, s, n, dtor)
  {
    forall i | 0 <= i < a.Length {
      a[i] := if In(i, d, n) then a[s + i - d] else if In(i, s, n) && !dtor then Raw else a[i];
    }
  }

  /** The body of the element loops. */
  method MoveElement<T>(a: array<Slot<T>>, d: nat, s: nat, t: Traits)
    requires d < a.Length && s < a.Length && MoveOne(a[..], d, s, t).Some?
    modifies a
    ensures a[..] == MoveOne(old(a[..]), d, s, t).value
  {
    a[d] := a[s];
    if !t.dtor {
      a[s] := Raw;
    }
  }

  lemma ForwardTurn<T>(m: seq<Slot<T>>, d: nat, s: nat, n: nat, t: Traits, goal: seq<Slot<T>>)
    requires 0 < n && d + n <= |m| && s + n <= |m| && Forward(m, d, s, n, t) == Some(goal)
    ensures var r := MoveOne(m, d + n - 1, s + n - 1, t);
            r.Some? && |r.value| == |m| && Forward(r.value, d, s, n - 1, t) == Some(goal)
  {}

  lemma BackwardTurn<T>(m: seq<Slot<T>>, d: nat, s: nat, n: nat, t: Traits, goal: seq<Slot<T>>)
    requires 0 < n && d + n <= |m| && s + n <= |m| && Backward(m, d, s, n, t) == Some(goal)
    ensures var r := MoveOne(m, d, s, t);
            r.Some? && |r.value| == |m| && Backward(r.value, d + 1, s + 1, n - 1, t) == Some(goal)
  {}

  lemma NothingLeft<T>(m: seq<Slot<T>>, d: nat, s: nat, t: Traits)
    requires d <= |m| && s <= |m|
    ensures Forward(m, d, s, 0, t) == Backward(m, d, s, 0, t) == Some(m)
  {}

  /** The element loop of move_forward_type, from the last element down. */
  method ForwardLoop<T>(a: array<Slot<T>>, d: nat, s: nat, n: nat, t: Traits, ghost goal: seq<Slot<T>>)
    requires d + n <= a.Length && s + n <= a.Length && Forward(a[..], d, s, n, t) == Some(goal)
    modifies a
    ensures a[..] == goal
  {
    hide MoveOne, Forward;
    var k: nat := n;
    while k > 0
      invariant k <= n && Forward(a[..], d, s, k, t) == Some(goal)
    {
      ForwardTurn(a[..], d, s, k, t, goal);
      k := k - 1;
      MoveElement(a, d + k, s + k, t);
    }
    NothingLeft(a[..], d, s, t);
  }

  /** The element loop of move_backward_type, from the first element up. */
  method BackwardLoop<T>(a: array<Slot<T>>, d: nat, s: nat, n: nat, t: Traits, ghost goal: seq<Slot<T>>)
    requires d + n <= a.Length && s + n <= a.Length && Backward(a[..], d, s, n, t) == Some(goal)
    modifies a
    ensures a[..] == goal
  {
    hide MoveOne, Backward;
    var to: nat, from: nat, left: nat := d, s, n;
    while left > 0
      invariant to + left <= a.Length && from + left <= a.Length
      invariant Backward(a[..], to, from, left, t) == Some(goal)
    {
      BackwardTurn(a[..], to, from, left, t, goal);
      MoveElement(a, to, from, t);
      to, from, left := to + 1, from + 1, left - 1;
    }
    NothingLeft(a[..], to, from, t);
  }

  method MoveForward<T>(a: array<Slot<T>>, d: nat, s: nat, n: nat, t: Traits)
    requires d + n <= a.Length && s + n <= a.Length && Clear(a[..], d, s, n, t) && (s < d || d + n <= s)
    modifies a
    ensures a[..] == Relocated(old(a[..]), d, s, n, t.dtor)
  {
    hide Relocated, Clear, Forward;
    if (t.dtor && t.copy) || t.move {
      MemMove(a, d, s, n, t.dtor);
    } else {
      ForwardMoves(a[..], d, s, n, t);
      ForwardLoop(a, d, s, n, t, Relocated(a[..], d, s, n, t.dtor));
    }
  }

  method MoveBackward<T>(a: array<Slot<T>>, d: nat, s: nat, n: nat, t: Traits)
    requires d + n <= a.Length && s + n <= a.Length && Clear(a[..], d, s, n, t) && (d < s || s + n <= d)
    modifies a
    ensures a[..] == Relocated(old(a[..]), d, s, n, t.dtor)
  {
    hide Relocated, Clear, Backward;
    if (t.dtor && t.copy) || t.move {
      MemMove(a, d, s, n, t.dtor);
    } else {
      BackwardMoves(a[..], d, s, n, t);
      BackwardLoop(a, d, s, n, t, Relocated(a[..], d, s, n, t.dtor));
    }
  }
}
