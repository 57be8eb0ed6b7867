/** The doubly linked list `List`: a ring of heap nodes closed by a sentinel. */
module RingList {
  import opened Basics

  /** `_Node`. Every access requires that the node has not been deleted. */
  class Node<T(0)> {
    var val: T
    var prev: Node<T>
    var next: Node<T>
    ghost var alive: bool

    constructor (v: T)
      ensures val == v && alive && prev == this && next == this
    {
      val, prev, next, alive := v, this, this, true;
    }

    /** The sentinel: storage for a node whose value is never constructed. */
    constructor Raw()
      ensures alive && prev == this && next == this
    {
      prev, next, alive := this, this, true;
    }

    function Next(): Node<T>
      requires alive
      reads this
    {
      next
    }

    function Prev(): Node<T>
      requires alive
      reads this
    {
      prev
    }

    function Val(): T
      requires alive
      reads this
    {
      val
    }

    method SetNext(n: Node<T>)
      requires alive
      modifies `next
      ensures next == n
    {
      next := n;
    }

    method SetPrev(n: Node<T>)
      requires alive
      modifies `prev
      ensures prev == n
    {
      prev := n;
    }

    method SetVal(v: T)
      requires alive
      modifies `val
      ensures val == v
    {
      val := v;
    }

    method Delete()
      requires alive
      modifies `alive
      ensures !alive
    {
      alive := false;
    }
  }

  /** Around the ring: sentinel, elements, sentinel. */
  ghost function Seat<T(0)>(middle: Node<T>, nodes: seq<Node<T>>, i: nat): Node<T>
    requires i <= |nodes| + 1
  {
    if 1 <= i <= |nodes| then nodes[i - 1] else middle
  }

  ghost predicate Apart<T(0)>(middle: Node<T>, nodes: seq<Node<T>>) {
    middle !in nodes && forall i, j | 0 <= i < j < |nodes| :: nodes[i] != nodes[j]
  }

  ghost predicate Joined<T(0)>(a: Node<T>, b: Node<T>)
    reads a`next, b`prev
  {
    a.next == b && b.prev == a
  }

  /** Only the two ends are the same seat. */
  lemma SeatsDiffer<T(0)>(middle: Node<T>, nodes: seq<Node<T>>, i: nat, j: nat)
    requires Apart(middle, nodes) && i < j <= |nodes| + 1 && (0 < i || j <= |nodes|)
    ensures Seat(middle, nodes, i) != Seat(middle, nodes, j)
  {}

  lemma SeatInserted<T(0)>(middle: Node<T>, nodes: seq<Node<T>>, k: nat, n: Node<T>, i: nat)
    requires k <= |nodes| && i <= |nodes| + 2
    ensures Seat(middle, Put(nodes, k, n), i)
            == if i <= k then Seat(middle, nodes, i) else if i == k + 1 then n else Seat(middle, nodes, i - 1)
  {}

  lemma SeatErased<T(0)>(middle: Node<T>, nodes: seq<Node<T>>, k: nat, i: nat)
    requires k < |nodes| && i <= |nodes|
    ensures Seat(middle, Cut(nodes, k, 1), i)
            == if i <= k then Seat(middle, nodes, i) else Seat(middle, nodes, i + 1)
  {}

  /** s without the d elements from i on. */
  ghost function Cut<A>(s: seq<A>, i: nat, d: nat): seq<A>
    requires i + d <= |s|
  {
    s[..i] + s[i + d..]
  }

  lemma CutStep<A>(s: seq<A>, i: nat, d: nat)
    requires i + d < |s|
    ensures |Cut(s, i, d)| == |s| - d && Cut(s, i, d)[i] == s[i + d]
    ensures Cut(Cut(s, i, d), i, 1) == Cut(s, i, d + 1)
  {}

  lemma CutNone<A>(s: seq<A>, i: nat)
    requires i <= |s|
    ensures Cut(s, i, 0) == s
  {}

  /** s with v put in front of element k. */
  ghost function Put<A>(s: seq<A>, k: nat, v: A): seq<A>
    requires k <= |s|
  {
    s[..k] + [v] + s[k..]
  }

  lemma PutPrefix<A>(s: seq<A>, k: nat, v: A, i: nat)
    requires i <= k <= |s|
    ensures |Put(s, k, v)| == |s| + 1 && Put(s, k, v)[..i] == s[..i]
  {}

  /** Equal up to k, so equal up to i. */
  lemma Prefix<A>(s: seq<A>, s': seq<A>, k: nat, i: nat)
    requires i <= k <= |s| && k <= |s'| && s[..k] == s'[..k]
    ensures s[..i] == s'[..i]
  {
    assert s[..i] == s[..k][..i] && s'[..i] == s'[..k][..i];
  }

  lemma ApartPut<T(0)>(middle: Node<T>, nodes: seq<Node<T>>, k: nat, n: Node<T>)
    requires Apart(middle, nodes) && k <= |nodes| && n != middle && n !in nodes
    ensures |Put(nodes, k, n)| == |nodes| + 1 && Apart(middle, Put(nodes, k, n))
    ensures forall m :: m in Put(nodes, k, n) <==> m == n || m in nodes
  {
    assert nodes == nodes[..k] + nodes[k..];
  }

  lemma ApartCut<T(0)>(middle: Node<T>, nodes: seq<Node<T>>, k: nat)
    requires Apart(middle, nodes) && k < |nodes|
    ensures |Cut(nodes, k, 1)| == |nodes| - 1 && Apart(middle, Cut(nodes, k, 1))
    ensures forall m :: m in Cut(nodes, k, 1) <==> m in nodes && m != nodes[k]
  {
    assert nodes == nodes[..k] + [nodes[k]] + nodes[k + 1..];
  }

  class List<T(0)> {
    const middle: Node<T>             // mpMiddle
    ghost var nodes: seq<Node<T>>     // the elements' nodes, front to back

    ghost function Cells(): set<Node<T>>
      reads `nodes
    {
      {middle} + set n | n in nodes
    }

    ghost predicate Ring()
      reads `nodes, Cells()`next, Cells()`prev
    {
      forall i | 0 <= i <= |nodes| :: Joined(Seat(middle, nodes, i), Seat(middle, nodes, i + 1))
    }

    /** next and prev are inverse and form one cycle through the sentinel; all nodes differ and
        none has been deleted. */
    ghost predicate Valid()
      reads `nodes, Cells()`next, Cells()`prev, Cells()`alive
    {
      Apart(middle, nodes) && (forall n | n in Cells() :: n.alive) && Ring()
    }

    ghost function Contents(): (s: seq<T>)
      reads this, nodes
      ensures |s| == |nodes| && forall i | 0 <= i < |s| :: s[i] == nodes[i].val
    {
      seq(|nodes|, i requires 0 <= i < |nodes| reads this, nodes => nodes[i].val)
    }

    /** The iterator posn stands at element k, or at the end. */
    ghost predicate At(posn: Node<T>, k: nat)
      reads `nodes
    {
      k <= |nodes| && posn == Seat(middle, nodes, k + 1)
    }

    /** What an iterator at k sees: a live node, linked to its neighbours. */
    lemma Here(posn: Node<T>, k: nat)
      requires Valid() && At(posn, k)
      ensures posn in Cells() && posn.alive && Joined(Seat(middle, nodes, k), posn)
      ensures k < |nodes| ==> posn == nodes[k] && Joined(posn, Seat(middle, nodes, k + 2)) && At(posn.next, k + 1)
      ensures k == |nodes| ==> posn == middle && At(posn.next, 0)
      ensures 0 < k ==> At(posn.prev, k - 1)
    {
      assert Joined(Seat(middle, nodes, 0), Seat(middle, nodes, 1));
    }

    constructor ()
      ensures Valid() && nodes == [] && fresh(middle)
    {
      middle := new Node<T>.Raw();
      nodes := [];
    }

    twostate lemma RingInserted(new n: Node<T>, k: nat)
      requires old(Apart(middle, nodes)) && old(Ring()) && k <= |old(nodes)| && n !in old(Cells())
      requires nodes == Put(old(nodes), k, n)
      requires Joined(Seat(middle, old(nodes), k), n) && Joined(n, Seat(middle, old(nodes), k + 1))
      requires forall m | m in old(Cells()) :: m.next == old(m.next) || m == Seat(middle, old(nodes), k)
      requires forall m | m in old(Cells()) :: m.prev == old(m.prev) || m == Seat(middle, old(nodes), k + 1)
      ensures Ring()
    {
      forall i | 0 <= i <= |nodes| ensures Joined(Seat(middle, nodes, i), Seat(middle, nodes, i + 1)) {
        SeatInserted(middle, old(nodes), k, n, i);
        SeatInserted(middle, old(nodes), k, n, i + 1);
        var j := if i <= k then i else i - 1;
        assert old(Joined(Seat(middle, nodes, j), Seat(middle, nodes, j + 1)));
        if j < k { SeatsDiffer(middle, old(nodes), j, k); SeatsDiffer(middle, old(nodes), j + 1, k + 1); }
        if k < j { SeatsDiffer(middle, old(nodes), k, j); SeatsDiffer(middle, old(nodes), k + 1, j + 1); }
      }
    }

    /** The four pointer updates that link n in before posn. */
    method LinkIn(posn: Node<T>, n: Node<T>, ghost k: nat)
      requires Valid() && At(posn, k) && n !in Cells() && n.alive
      modifies n`next, n`prev, Cells()`next, Cells()`prev
      ensures Joined(Seat(middle, nodes, k), n) && Joined(n, posn)
      ensures forall m | m in Cells() :: m.next == old(m.next) || m == Seat(middle, nodes, k)
      ensures forall m | m in Cells() :: m.prev == old(m.prev) || m == posn
    {
      hide Ring;
      Here(posn, k);
      n.SetNext(posn);
      n.SetPrev(posn.Prev());
      posn.Prev().SetNext(n);
      posn.SetPrev(n);
    }

    lemma ContentsPut(was: seq<T>, nodes0: seq<Node<T>>, k: nat, n: Node<T>)
      requires k <= |nodes0| == |was| && (forall i | 0 <= i < |was| :: was[i] == nodes0[i].val)
      requires nodes == Put(nodes0, k, n)
      ensures Contents() == Put(was, k, n.val)
    {}

    lemma ContentsCut(was: seq<T>, nodes0: seq<Node<T>>, k: nat)
      requires k < |nodes0| == |was| && (forall i | 0 <= i < |was| :: was[i] == nodes0[i].val)
      requires nodes == Cut(nodes0, k, 1)
      ensures Contents() == Cut(was, k, 1)
    {}

    /** Insert before posn. */
    method Insert(posn: Node<T>, v: T, ghost k: nat) returns (n: Node<T>)
      requires Valid() && At(posn, k)
      modifies `nodes, Cells()`next, Cells()`prev
      ensures Valid() && fresh(n) && n.val == v && At(posn, k + 1)
      ensures nodes == Put(old(nodes), k, n) && Cells() == old(Cells()) + {n}
      ensures Contents() == Put(old(Contents()), k, v)
    {
      hide Ring, Put, Apart, Seat, Joined, Contents;
      n := new Node<T>(v);
      LinkIn(posn, n, k);
      ApartPut(middle, nodes, k, n);
      SeatInserted(middle, nodes, k, n, k + 2);
      nodes := Put(nodes, k, n);
      RingInserted(n, k);
      ContentsPut(old(Contents()), old(nodes), k, n);
    }

    twostate lemma RingErased(k: nat)
      requires old(Apart(middle, nodes)) && old(Ring()) && k < |old(nodes)|
      requires nodes == Cut(old(nodes), k, 1)
      requires Joined(Seat(middle, old(nodes), k), Seat(middle, old(nodes), k + 2))
      requires forall m | m in Cells() :: m.next == old(m.next) || m == Seat(middle, old(nodes), k)
      requires forall m | m in Cells() :: m.prev == old(m.prev) || m == Seat(middle, old(nodes), k + 2)
      ensures Ring()
    {
      forall i | 0 <= i <= |nodes| ensures Joined(Seat(middle, nodes, i), Seat(middle, nodes, i + 1)) {
        SeatErased(middle, old(nodes), k, i);
        SeatErased(middle, old(nodes), k, i + 1);
        var j := if i < k then i else i + 1;
        assert old(Joined(Seat(middle, nodes, j), Seat(middle, nodes, j + 1)));
        if j < k { SeatsDiffer(middle, old(nodes), j, k); SeatsDiffer(middle, old(nodes), j + 1, k + 2); }
        if k + 1 < j { SeatsDiffer(middle, old(nodes), k, j); SeatsDiffer(middle, old(nodes), k + 2, j + 1); }
      }
    }

    lemma Neighbours(posn: Node<T>, k: nat)
      requires Valid() && At(posn, k) && k < |nodes|
      ensures posn.prev == Seat(middle, nodes, k) && posn.next == Seat(middle, nodes, k + 2)
      ensures posn.alive && posn.prev.alive && posn.next.alive && posn.prev != posn && posn.next != posn
      ensures posn.prev in Cells() && posn.next in Cells() && posn == nodes[k] && posn != middle
    {
      Here(posn, k);
      SeatsDiffer(middle, nodes, k, k + 1);
      SeatsDiffer(middle, nodes, k + 1, k + 2);
    }

    /** Remove the element at posn; the result stands at the next one. */
    method Erase(posn: Node<T>, ghost k: nat) returns (pNext: Node<T>)
      requires Valid() && At(posn, k) && k < |nodes|
      modifies `nodes, Cells()`next, Cells()`prev, posn`alive
      ensures Valid() && At(pNext, k) && pNext == old(posn.next) && !posn.alive && Cells() == old(Cells()) - {posn}
      ensures nodes == Cut(old(nodes), k, 1) && forall n | n in old(nodes) && n !in nodes :: n == posn
      ensures Contents() == Cut(old(Contents()), k, 1)
    {
      hide Ring, Cut, Apart, Contents;
      Neighbours(posn, k);
      pNext := posn.Next();
      var pPrev := posn.Prev();
      pPrev.SetNext(pNext);
      pNext.SetPrev(pPrev);
      posn.Delete();
      ApartCut(middle, nodes, k);
      nodes := Cut(nodes, k, 1);
      SeatErased(middle, old(nodes), k, k + 1);
      RingErased(k);
      ContentsCut(old(Contents()), old(nodes), k);
    }

    method PushFront(v: T)
      requires Valid()
      modifies `nodes, Cells()`next, Cells()`prev
      ensures Valid() && Contents() == [v] + old(Contents())
      ensures Cells() - old(Cells()) == {nodes[0]} && fresh(Cells() - old(Cells()))
    {
      hide Ring;
      Here(middle, |nodes|);
      var _ := Insert(middle.Next(), v, 0);
    }

    /** Walk with ++ from first to last and count. Past the end the ring leads back to the front. */
    method Distance(first: Node<T>, last: Node<T>, ghost i: nat, ghost j: nat) returns (count: nat)
      requires Valid() && At(first, i) && At(last, j)
      ensures count == if i <= j then j - i else |nodes| + 1 - i + j
    {
      hide Ring;
      var it := first;
      ghost var k: nat := i;
      count := 0;
      ghost var todo: nat := if i <= j then j - i else |nodes| + 1 - i + j;
      while it != last
        invariant At(it, k) && todo == (if k <= j then j - k else |nodes| + 1 - k + j)
        invariant count + todo == if i <= j then j - i else |nodes| + 1 - i + j
        decreases todo
      {
        Here(it, k);
        it := it.Next();
        count := count + 1;
        k := if k < |nodes| then k + 1 else 0;
        todo := todo - 1;
      }
      SamePlace(it, last, k, j);
    }

    method Size() returns (n: nat)
      requires Valid()
      ensures n == |Contents()|
    {
      hide Ring;
      Here(middle, |nodes|);
      n := Distance(middle.Next(), middle, 0, |nodes|);
    }

    /** Forward with ++ from begin() and backward with -- from end() meet the same elements. */
    method Walk() returns (forth: seq<T>, back: seq<T>)
      requires Valid()
      ensures forth == Contents() && back == Contents()
    {
      hide Ring, Contents;
      Here(middle, |nodes|);
      forth, back := [], [];
      var it := middle.Next();
      ghost var k: nat := 0;
      while it != middle
        invariant At(it, k) && forth == Contents()[..k]
        decreases |nodes| - k
      {
        Here(it, k);
        forth := forth + [it.Val()];
        it := it.Next();
        k := k + 1;
      }
      it := middle.Prev();
      while it != middle
        invariant k <= |nodes| && it == Seat(middle, nodes, k) && back == Contents()[k..]
        decreases k
      {
        Here(it, k - 1);
        back := [it.Val()] + back;
        it := it.Prev();
        k := k - 1;
      }
    }

    lemma AtEnd()
      ensures At(middle, |nodes|)
    {}

    /** Two iterators are equal exactly when they stand at the same place. */
    lemma SamePlace(p: Node<T>, q: Node<T>, i: nat, j: nat)
      requires Valid() && At(p, i) && At(q, j)
      ensures p == q <==> i == j
    {
      if i < j { SeatsDiffer(middle, nodes, i + 1, j + 1); }
      if j < i { SeatsDiffer(middle, nodes, j + 1, i + 1); }
    }

    /** An iterator behind an erased element stays valid. */
    lemma AtCut(nodes0: seq<Node<T>>, k: nat, p: Node<T>, j: nat)
      requires k < j <= |nodes0| && nodes == Cut(nodes0, k, 1) && p == Seat(middle, nodes0, j + 1)
      ensures At(p, j - 1)
    {
      SeatErased(middle, nodes0, k, j);
    }

    /** Move on, then erase the element left behind. */
    method EraseNext(it: Node<T>, last: Node<T>, ghost i: nat, ghost j: nat) returns (next: Node<T>)
      requires Valid() && At(it, i) && At(last, j) && i < j
      modifies `nodes, Cells()`next, Cells()`prev, it`alive
      ensures Valid() && At(next, i) && At(last, j - 1) && Cells() <= old(Cells())
      ensures it == old(nodes)[i] && !it.alive
      ensures nodes == Cut(old(nodes), i, 1) && Contents() == Cut(old(Contents()), i, 1)
    {
      hide Ring, Cut, Seat, Apart, Contents;
      Here(it, i);
      next := it.Next();
      var _ := Erase(it, i);
      AtCut(old(nodes), i, last, j);
    }

    /** Erase [first, last): each step moves on before it deletes. */
    method EraseRange(first: Node<T>, last: Node<T>, ghost i: nat, ghost j: nat) returns (r: Node<T>)
      requires Valid() && At(first, i) && At(last, j) && i <= j
      modifies `nodes, Cells()`next, Cells()`prev, Cells()`alive
      ensures Valid() && nodes == Cut(old(nodes), i, j - i) && Contents() == Cut(old(Contents()), i, j - i)
      ensures r == last && At(r, i)
      ensures forall l | i <= l < j :: !old(nodes)[l].alive
    {
      hide Valid, Cut, Seat, Contents;
      CutNone(old(nodes), i);
      CutNone(old(Contents()), i);
      var it := first;
      ghost var d: nat := 0;
      while it != last
        invariant Valid() && d <= j - i && nodes == Cut(old(nodes), i, d)
        invariant Contents() == Cut(old(Contents()), i, d)
        invariant At(it, i) && At(last, j - d) && Cells() <= old(Cells())
        invariant forall l | i <= l < i + d :: !old(nodes)[l].alive
        decreases j - i - d
      {
        CutStep(old(nodes), i, d);
        CutStep(old(Contents()), i, d);
        SamePlace(it, last, i, j - d);
        Here(it, i);
        it := EraseNext(it, last, i, j - d);
        d := d + 1;
      }
      SamePlace(it, last, i, j - d);
      r := last;
    }

    /** Delete every element node, reading each link before its node goes; then close the ring. */
    method Clear()
      requires Valid()
      modifies `nodes, Cells()`next, Cells()`prev, Cells()`alive
      ensures Valid() && nodes == [] && forall n | n in old(nodes) :: !n.alive
    {
      var pCurrent := middle.Next();
      ghost var k: nat := 0;
      assert Joined(Seat(middle, nodes, 0), Seat(middle, nodes, 1));
      while pCurrent != middle
        invariant nodes == old(nodes) && Apart(middle, nodes) && middle.alive
        invariant k <= |nodes| && pCurrent == Seat(middle, nodes, k + 1)
        invariant forall i | 0 <= i < k :: !nodes[i].alive
        invariant forall i | k <= i < |nodes| :: nodes[i].alive
        invariant forall i | 0 <= i <= |nodes| :: Joined(Seat(middle, nodes, i), Seat(middle, nodes, i + 1))
        decreases |nodes| - k
      {
        assert Joined(Seat(middle, nodes, k + 1), Seat(middle, nodes, k + 2));
        var pNext := pCurrent.Next();
        pCurrent.Delete();
        pCurrent := pNext;
        k := k + 1;
      }
      middle.SetPrev(middle);
      middle.SetNext(middle);
      nodes := [];
    }

    /** Insert a copy of the element at it, and move on. */
    method InsertNext(posn: Node<T>, ghost k: nat, src: List<T>, it: Node<T>, ghost i: nat) returns (next: Node<T>)
      requires Valid() && At(posn, k) && src != this && src.Valid() && Cells() !! src.Cells()
      requires src.At(it, i) && i < |src.nodes|
      modifies `nodes, Cells()`next, Cells()`prev
      ensures Valid() && At(posn, k + 1) && src.Valid() && src.At(next, i + 1)
      ensures fresh(Cells() - old(Cells())) && Cells() !! src.Cells()
      ensures |nodes| == |old(nodes)| + 1 && nodes[..k] == old(nodes)[..k]
      ensures src.Contents() == old(src.Contents()) && Contents() == Put(old(Contents()), k, src.Contents()[i])
    {
      hide Ring, Put, Seat, Apart, Contents;
      src.Here(it, i);
      var n := Insert(posn, it.Val(), k);
      PutPrefix(old(nodes), k, n, k);
      next := it.Next();
    }

    /** A range insertion from another list after d turns. */
    ghost predicate Filling(posn: Node<T>, k: nat, src: List<T>, it: Node<T>, last: Node<T>, i: nat, j: nat, d: nat,
                            nodes0: seq<Node<T>>, was: seq<T>, t: seq<T>)
      reads this, nodes, src, src.nodes
    {
      && k <= |was| == |nodes0| && i + d <= j <= |t| && |nodes| == |was| + d && nodes[..k] == nodes0[..k]
      && At(posn, k + d) && src.At(it, i + d) && src.At(last, j)
      && src.Contents() == t && Contents() == Spliced(was, t, k, i, d)
    }

    lemma FillOver(posn: Node<T>, k: nat, src: List<T>, it: Node<T>, last: Node<T>, i: nat, j: nat, d: nat,
                   nodes0: seq<Node<T>>, was: seq<T>, t: seq<T>)
      requires src.Valid() && Filling(posn, k, src, it, last, i, j, d, nodes0, was, t)
      ensures it == last <==> i + d == j
    {
      src.SamePlace(it, last, i + d, j);
    }

    method FillNext(posn: Node<T>, ghost k: nat, src: List<T>, it: Node<T>, last: Node<T>, ghost i: nat, ghost j: nat,
                    ghost d: nat, ghost nodes0: seq<Node<T>>, ghost was: seq<T>, ghost t: seq<T>)
        returns (next: Node<T>)
      requires Valid() && src != this && src.Valid() && Cells() !! src.Cells() && it != last
      requires Filling(posn, k, src, it, last, i, j, d, nodes0, was, t)
      modifies `nodes, Cells()`next, Cells()`prev
      ensures Valid() && src.Valid() && Filling(posn, k, src, next, last, i, j, d + 1, nodes0, was, t)
      ensures fresh(Cells() - old(Cells())) && Cells() !! src.Cells()
    {
      hide Valid, Put, Seat, Spliced, Contents;
      FillOver(posn, k, src, it, last, i, j, d, nodes0, was, t);
      SplicedStep(was, t, k, i, d);
      next := InsertNext(posn, k + d, src, it, i + d);
      Prefix(old(nodes), nodes, k + d, k);
    }

    lemma FillStart(posn: Node<T>, k: nat, src: List<T>, it: Node<T>, last: Node<T>, i: nat, j: nat)
      requires At(posn, k) && src.At(it, i) && src.At(last, j) && i <= j
      ensures k <= |nodes| && j <= |src.nodes|
      ensures Filling(posn, k, src, it, last, i, j, 0, nodes, Contents(), src.Contents())
    {
      hide Contents, Seat;
      Spliced0(Contents(), src.Contents(), k, i);
    }

    lemma Filled(posn: Node<T>, k: nat, src: List<T>, it: Node<T>, last: Node<T>, i: nat, j: nat,
                 nodes0: seq<Node<T>>, was: seq<T>, t: seq<T>)
      requires i <= j && Filling(posn, k, src, it, last, i, j, j - i, nodes0, was, t)
      ensures k <= |was| && j <= |t| && src.Contents() == t && Contents() == Spliced(was, t, k, i, j - i)
      ensures k <= |nodes0| && |nodes| == |nodes0| + (j - i) && nodes[..k] == nodes0[..k]
    {}

    /** Insert copies of the elements [first, last) of another list before posn. */
    method InsertRange(posn: Node<T>, ghost k: nat, src: List<T>, first: Node<T>, last: Node<T>, ghost i: nat, ghost j: nat)
      requires Valid() && At(posn, k) && src != this && src.Valid() && Cells() !! src.Cells()
      requires src.At(first, i) && src.At(last, j) && i <= j
      modifies `nodes, Cells()`next, Cells()`prev
      ensures Valid() && fresh(Cells() - old(Cells()))
      ensures Contents() == Spliced(old(Contents()), src.Contents(), k, i, j - i)
      ensures |nodes| == |old(nodes)| + (j - i) && nodes[..k] == old(nodes)[..k]
    {
      hide Valid, Filling, Spliced, Contents, At;
      ghost var nodes0, was, t := nodes, Contents(), src.Contents();
      FillStart(posn, k, src, first, last, i, j);
      var it := first;
      ghost var d: nat := 0;
      while it != last
        invariant Valid() && src.Valid() && i + d <= j && Filling(posn, k, src, it, last, i, j, d, nodes0, was, t)
        invariant fresh(Cells() - old(Cells())) && Cells() !! src.Cells()
        decreases j - i - d
      {
        FillOver(posn, k, src, it, last, i, j, d, nodes0, was, t);
        it := FillNext(posn, k, src, it, last, i, j, d, nodes0, was, t);
        d := d + 1;
      }
      FillOver(posn, k, src, it, last, i, j, d, nodes0, was, t);
      Filled(posn, k, src, it, last, i, j, nodes0, was, t);
    }

    /** Where an iterator stands after an insertion at k. */
    lemma AtPut(nodes0: seq<Node<T>>, k: nat, n: Node<T>, p: Node<T>, j: nat)
      requires k <= |nodes0| && j <= |nodes0| && nodes == Put(nodes0, k, n) && p == Seat(middle, nodes0, j + 1)
      ensures At(p, if j < k then j else j + 1)
    {
      SeatInserted(middle, nodes0, k, n, if j < k then j + 1 else j + 2);
    }

    /** One turn of a range insertion whose range is part of this list: insert a copy of the element
        at it before posn, and move on. */
    method InsertOwnNext(posn: Node<T>, ghost k: nat, it: Node<T>, ghost i: nat, last: Node<T>, ghost j: nat)
        returns (next: Node<T>)
      requires Valid() && At(posn, k) && At(it, i) && i < |nodes| && At(last, j)
      modifies `nodes, Cells()`next, Cells()`prev
      ensures Valid() && At(posn, k + 1) && At(next, if i < k then i + 1 else i + 2)
      ensures At(last, if j < k then j else j + 1) && fresh(Cells() - old(Cells()))
      ensures |nodes| == |old(nodes)| + 1 && Contents() == Put(old(Contents()), k, old(Contents())[i])
    {
      hide Ring, Put, Seat, Apart, Contents;
      Here(it, i);
      var n := Insert(posn, it.Val(), k);
      PutPrefix(old(nodes), k, n, k);
      AtPut(old(nodes), k, n, it, i);
      AtPut(old(nodes), k, n, last, j);
      Here(it, if i < k then i else i + 1);
      next := it.Next();
    }

    /** An own range insertion after d turns: the copies stand before posn, and iterators behind posn
        have moved with the insertions. */
    ghost predicate Copying(posn: Node<T>, k: nat, it: Node<T>, last: Node<T>, i: nat, j: nat, d: nat, was: seq<T>)
      reads this, nodes
    {
      && k <= |was| && i + d <= j <= |was| && |nodes| == |was| + d
      && At(posn, k + d) && At(it, if k <= i then i + 2 * d else i + d) && At(last, if k <= i then j + d else j)
      && Contents() == Spliced(was, was, k, i, d)
    }

    lemma CopyStart(posn: Node<T>, k: nat, it: Node<T>, last: Node<T>, i: nat, j: nat)
      requires At(posn, k) && At(it, i) && At(last, j) && i <= j
      ensures k <= |nodes| && j <= |nodes| && Copying(posn, k, it, last, i, j, 0, Contents())
    {
      hide Contents, Seat;
      Spliced0(Contents(), Contents(), k, i);
    }

    lemma CopyOver(posn: Node<T>, k: nat, it: Node<T>, last: Node<T>, i: nat, j: nat, d: nat, was: seq<T>)
      requires Valid() && Copying(posn, k, it, last, i, j, d, was)
      ensures it == last <==> i + d == j
    {
      SamePlace(it, last, if k <= i then i + 2 * d else i + d, if k <= i then j + d else j);
    }

    method CopyNext(posn: Node<T>, ghost k: nat, it: Node<T>, last: Node<T>, ghost i: nat, ghost j: nat, ghost d: nat,
                    ghost was: seq<T>) returns (next: Node<T>)
      requires Valid() && Copying(posn, k, it, last, i, j, d, was) && it != last && !(i < k <= j)
      modifies `nodes, Cells()`next, Cells()`prev
      ensures Valid() && Copying(posn, k, next, last, i, j, d + 1, was) && fresh(Cells() - old(Cells()))
    {
      hide Valid, Put, Seat, Spliced, Contents;
      CopyOver(posn, k, it, last, i, j, d, was);
      ghost var at: nat := if k <= i then i + 2 * d else i + d;
      SplicedStep(was, was, k, i, d);
      SplicedAt(was, k, i, d, at);
      next := InsertOwnNext(posn, k + d, it, at, last, if k <= i then j + d else j);
    }

    /** Insert copies of the elements [first, last) of this list before posn, where posn does not
        lie behind first and up to last. */
    method InsertOwnRange(posn: Node<T>, ghost k: nat, first: Node<T>, last: Node<T>, ghost i: nat, ghost j: nat)
      requires Valid() && At(posn, k) && At(first, i) && At(last, j) && i <= j
      requires !(i < k <= j)
      modifies `nodes, Cells()`next, Cells()`prev
      ensures Valid() && fresh(Cells() - old(Cells()))
      ensures Contents() == Spliced(old(Contents()), old(Contents()), k, i, j - i)
    {
      hide Valid, Copying, Spliced, Contents, At;
      ghost var was := Contents();
      CopyStart(posn, k, first, last, i, j);
      var it := first;
      ghost var d: nat := 0;
      while it != last
        invariant Valid() && i + d <= j && Copying(posn, k, it, last, i, j, d, was)
        invariant fresh(Cells() - old(Cells()))
        decreases j - i - d
      {
        CopyOver(posn, k, it, last, i, j, d, was);
        it := CopyNext(posn, k, it, last, i, j, d, was);
        d := d + 1;
      }
      CopyOver(posn, k, it, last, i, j, d, was);
      Copied(posn, k, it, last, i, j, was);
    }

    lemma Copied(posn: Node<T>, k: nat, it: Node<T>, last: Node<T>, i: nat, j: nat, was: seq<T>)
      requires i <= j && Copying(posn, k, it, last, i, j, j - i, was)
      ensures k <= |was| && j <= |was| && Contents() == Spliced(was, was, k, i, j - i)
    {}

    /** Where posn does lie behind first and up to last, the loop walks into its own copies: after any
        number of turns it still has not come to last. */
    method OwnRangeNeverEnds(posn: Node<T>, ghost k: nat, first: Node<T>, last: Node<T>, ghost i: nat, ghost j: nat,
                             turns: nat) returns (it: Node<T>)
      requires Valid() && At(posn, k) && At(first, i) && At(last, j) && i < k <= j
      modifies `nodes, Cells()`next, Cells()`prev
      ensures Valid() && it != last && |nodes| == |old(nodes)| + turns
    {
      hide Valid, Put, Seat, Contents;
      it := first;
      SamePlace(it, last, i, j);
      for d := 0 to turns
        invariant Valid() && At(posn, k + d) && At(it, i + d) && At(last, j + d) && it != last
        invariant fresh(Cells() - old(Cells())) && |nodes| == |old(nodes)| + d
      {
        it := InsertOwnNext(posn, k + d, it, i + d, last, j + d);
        SamePlace(it, last, i + d + 1, j + d + 1);
      }
    }

    method PushBack(v: T)
      requires Valid()
      modifies `nodes, Cells()`next, Cells()`prev
      ensures Valid() && Contents() == old(Contents()) + [v] && fresh(Cells() - old(Cells()))
    {
      hide Ring;
      var _ := Insert(middle, v, |nodes|);
    }

    /** Copy a whole list into an empty one. */
    method Fill(src: List<T>)
      requires Valid() && nodes == [] && src != this && src.Valid() && Cells() !! src.Cells()
      modifies `nodes, Cells()`next, Cells()`prev
      ensures Valid() && Contents() == src.Contents() && fresh(Cells() - old(Cells()))
    {
      hide Seat, Spliced, Ring;
      AtEnd();
      src.AtEnd();
      Here(middle, 0);
      src.Here(src.middle, |src.nodes|);
      SplicedWhole(src.Contents());
      InsertRange(middle.Next(), 0, src, src.middle.Next(), src.middle, 0, |src.nodes|);
    }

    /** The copy constructor. */
    constructor Copy(src: List<T>)
      requires src.Valid()
      ensures Valid() && Contents() == src.Contents() && fresh(Cells())
    {
      middle := new Node<T>.Raw();
      nodes := [];
      new;
      Fill(src);
    }

    /** Both lists have an element left: copy its value and move on. */
    method OverwriteNext(right: List<T>, dst: Node<T>, src: Node<T>, ghost k: nat)
        returns (dst': Node<T>, src': Node<T>)
      requires Valid() && right.Valid() && Cells() !! right.Cells() && k < |nodes| && k < |right.nodes|
      requires At(dst, k) && right.At(src, k)
      modifies dst`val
      ensures Valid() && right.Valid() && At(dst', k + 1) && right.At(src', k + 1)
      ensures right.Contents() == old(right.Contents())
      ensures Contents() == old(Contents())[k := right.Contents()[k]]
    {
      hide Ring;
      Here(dst, k);
      right.Here(src, k);
      dst.SetVal(src.Val());
      dst', src' := dst.Next(), src.Next();
    }

    /** The common part of an assignment: overwrite values while both lists have elements. */
    method Overwrite(right: List<T>) returns (dst: Node<T>, src: Node<T>, ghost k: nat)
      requires Valid() && right.Valid() && Cells() !! right.Cells()
      modifies nodes`val
      ensures Valid() && right.Valid() && k <= |nodes| && k <= |right.nodes| && (k == |nodes| || k == |right.nodes|)
      ensures At(dst, k) && right.At(src, k)
      ensures right.Contents() == old(right.Contents())
      ensures Contents() == Mixed(right.Contents(), old(Contents()), k)
    {
      hide Valid, Seat, Mixed, Contents;
      AtEnd();
      right.AtEnd();
      Here(middle, |nodes|);
      right.Here(right.middle, |right.nodes|);
      dst, src, k := middle.Next(), right.middle.Next(), 0;
      MixedNone(right.Contents(), Contents());
      ghost var was, rs := Contents(), right.Contents();
      while src != right.middle && dst != middle
        invariant Valid() && right.Valid()
        invariant k <= |nodes| && k <= |right.nodes| && At(dst, k) && right.At(src, k)
        invariant right.Contents() == rs && Contents() == Mixed(rs, was, k)
        decreases |nodes| - k
      {
        SamePlace(dst, middle, k, |nodes|);
        right.SamePlace(src, right.middle, k, |right.nodes|);
        Here(dst, k);
        MixedStep(rs, was, k);
        dst, src := OverwriteNext(right, dst, src, k);
        k := k + 1;
      }
      SamePlace(dst, middle, k, |nodes|);
      right.SamePlace(src, right.middle, k, |right.nodes|);
    }

    /** Erase everything from dst on. */
    method DropFrom(dst: Node<T>, ghost k: nat)
      requires Valid() && At(dst, k)
      modifies `nodes, Cells()`next, Cells()`prev, Cells()`alive
      ensures Valid() && nodes == old(nodes)[..k] && Contents() == old(Contents())[..k]
      ensures forall l | k <= l < |old(nodes)| :: !old(nodes)[l].alive
    {
      hide Valid;
      var _ := EraseRange(dst, middle, k, |nodes|);
    }

    /** Append copies of the elements of right from src on. */
    method AppendFrom(right: List<T>, src: Node<T>, ghost k: nat)
      requires Valid() && right != this && right.Valid() && Cells() !! right.Cells() && right.At(src, k)
      modifies `nodes, Cells()`next, Cells()`prev
      ensures Valid() && right.Contents() == old(right.Contents())
      ensures |nodes| >= |old(nodes)| && nodes[..|old(nodes)|] == old(nodes)
      ensures Contents() == old(Contents()) + right.Contents()[k..]
    {
      hide Valid;
      InsertRange(middle, |nodes|, right, src, right.middle, k, |right.nodes|);
    }

    /** operator=: reuse the first nodes, then erase the surplus or copy the remainder. */
    method Assign(right: List<T>)
      requires Valid() && right.Valid() && (right == this || Cells() !! right.Cells())
      modifies `nodes, Cells()
      ensures Valid() && Contents() == right.Contents() == old(right.Contents())
      ensures var k := Min(|old(nodes)|, |nodes|); nodes[..k] == old(nodes)[..k]
      ensures forall l | |nodes| <= l < |old(nodes)| :: !old(nodes)[l].alive
    {
      if this == right {
        return;
      }
      hide Valid, Seat, At, Contents;
      var dst, src, k := Overwrite(right);
      right.AtEnd();
      right.SamePlace(src, right.middle, k, |right.nodes|);
      if src == right.middle {
        DropFrom(dst, k);
      } else {
        AppendFrom(right, src, k);
      }
    }
  }

  /** The first k elements of r, then s from there on. */
  ghost function Mixed<A>(r: seq<A>, s: seq<A>, k: nat): seq<A>
    requires k <= |r| && k <= |s|
  {
    r[..k] + s[k..]
  }

  lemma MixedNone<A>(r: seq<A>, s: seq<A>)
    ensures Mixed(r, s, 0) == s
  {}

  lemma MixedStep<A>(r: seq<A>, s: seq<A>, k: nat)
    requires k < |r| && k < |s|
    ensures |Mixed(r, s, k)| == |s| && Mixed(r, s, k)[k := r[k]] == Mixed(r, s, k + 1)
  {}

  /** s with t[i..i + d] put in front of element k. */
  ghost function Spliced<A>(s: seq<A>, t: seq<A>, k: nat, i: nat, d: nat): seq<A>
    requires k <= |s| && i + d <= |t|
  {
    s[..k] + t[i..i + d] + s[k..]
  }

  lemma Spliced0<A>(s: seq<A>, t: seq<A>, k: nat, i: nat)
    requires k <= |s| && i <= |t|
    ensures Spliced(s, t, k, i, 0) == s
  {}

  /** Where the element to be copied next stands. */
  lemma SplicedAt<A>(s: seq<A>, k: nat, i: nat, d: nat, at: nat)
    requires k <= |s| && i + d < |s| && (k <= i || i + d < k) && at == if k <= i then i + 2 * d else i + d
    ensures at < |Spliced(s, s, k, i, d)| && Spliced(s, s, k, i, d)[at] == s[i + d]
  {}

  lemma SplicedWhole<A>(t: seq<A>)
    ensures Spliced([], t, 0, 0, |t|) == t
  {}

  lemma SplicedStep<A>(s: seq<A>, t: seq<A>, k: nat, i: nat, d: nat)
    requires k <= |s| && i + d < |t|
    ensures k + d <= |Spliced(s, t, k, i, d)|
    ensures Put(Spliced(s, t, k, i, d), k + d, t[i + d]) == Spliced(s, t, k, i, d + 1)
  {}
}
