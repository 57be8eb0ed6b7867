/** The list operations of the message queue, on the linked ring: what `send`, `receive` and
    `remove` do to `mList` while they hold the queue mutex. */
module MessageQueue {
  import opened Basics
  import opened RingList
  import opened QueueProtocol
  import QueueSpec

  /** Messages with the given id, in list order. */
  function Matching(list: seq<Msg>, id: int): seq<Msg> {
    if list == [] then []
    else (if list[0].id == id then [list[0]] else []) + Matching(list[1..], id)
  }

  lemma {:induction false} KeepSnoc(list: seq<Msg>, id: int, m: Msg)
    ensures Keep(list + [m], id) == Keep(list, id) + if m.id == id then [] else [m]
    ensures Matching(list + [m], id) == Matching(list, id) + if m.id == id then [m] else []
  {
    if list != [] {
      KeepSnoc(list[1..], id, m);
      assert (list + [m])[1..] == list[1..] + [m];
    } else {
      assert [m][1..] == [] && list + [m] == [m];
    }
  }

  /** Together they lose nothing: each message is kept or reported, as often as it occurred. */
  lemma {:induction false} KeepOrReport(list: seq<Msg>, id: int)
    ensures multiset(Keep(list, id)) + multiset(Matching(list, id)) == multiset(list)
  {
    if list != [] {
      KeepOrReport(list[1..], id);
      assert list == [list[0]] + list[1..];
    }
  }

  /** The part of the list already scanned, filtered, and the part still to come. */
  ghost function Scanned(list: seq<Msg>, id: int, p: nat): seq<Msg>
    requires p <= |list|
  {
    Keep(list[..p], id) + list[p..]
  }

  lemma ScanStep(list: seq<Msg>, id: int, p: nat)
    requires p < |list|
    ensures var k := |Keep(list[..p], id)|; var m := list[p];
            && k < |Scanned(list, id, p)| && Scanned(list, id, p)[k] == m
            && |Keep(list[..p + 1], id)| == (if m.id == id then k else k + 1)
            && Scanned(list, id, p + 1) == (if m.id == id then Cut(Scanned(list, id, p), k, 1) else Scanned(list, id, p))
            && Matching(list[..p + 1], id) == Matching(list[..p], id) + (if m.id == id then [m] else [])
  {
    hide Keep, Matching;
    assert list[..p + 1] == list[..p] + [list[p]];
    KeepSnoc(list[..p], id, list[p]);
    assert list[p..] == [list[p]] + list[p + 1..];
  }

  lemma ScanLength(list: seq<Msg>, id: int, p: nat)
    requires p <= |list|
    ensures |Scanned(list, id, p)| == |Keep(list[..p], id)| + |list| - p
  {}

  lemma ScanEnds(list: seq<Msg>, id: int)
    ensures Scanned(list, id, 0) == list && Keep(list[..0], id) == [] && Matching(list[..0], id) == []
    ensures Scanned(list, id, |list|) == Keep(list, id) && Matching(list[..|list|], id) == Matching(list, id)
  {
    assert list[..|list|] == list;
  }

  method Enqueue(list: List<Msg>, m: Msg)
    requires list.Valid()
    modifies list`nodes, list.Cells()`next, list.Cells()`prev
    ensures list.Valid() && list.Contents() == [m] + old(list.Contents())
    ensures fresh(list.Cells() - old(list.Cells()))
  {
    list.PushFront(m);
  }

  /** `*(--end())`, then erase it. */
  method Dequeue(list: List<Msg>) returns (m: Msg)
    requires list.Valid() && list.Contents() != []
    modifies list`nodes, list.Cells()`next, list.Cells()`prev, list.Cells()`alive
    ensures list.Valid() && old(list.Contents()) == list.Contents() + [m]
    ensures list.Cells() <= old(list.Cells())
  {
    hide List<Msg>.Ring;
    ghost var n := |list.nodes|;
    list.Here(list.middle, n);
    list.Here(list.middle.prev, n - 1);
    var last := list.middle.Prev();
    m := last.Val();
    var _ := list.Erase(last, n - 1);
  }

  /** Where the scan stands: p messages seen, k of them kept, the iterator behind them. */
  ghost predicate At(list: List<Msg>, it: Node<Msg>, was: seq<Msg>, id: int, p: nat)
    reads list, list.nodes
  {
    p <= |was| && list.Contents() == Scanned(was, id, p) && list.At(it, |Keep(was[..p], id)|)
  }

  lemma ScanHere(list: List<Msg>, it: Node<Msg>, was: seq<Msg>, id: int, p: nat)
    requires list.Valid() && At(list, it, was, id, p)
    ensures it in list.Cells()
  {
    list.Here(it, |Keep(was[..p], id)|);
  }

  /** The scan begins at begin(). */
  lemma ScanStart(list: List<Msg>, id: int)
    requires list.Valid()
    ensures list.middle.alive && At(list, list.middle.next, list.Contents(), id, 0)
    ensures Matching(list.Contents()[..0], id) == []
  {
    ScanEnds(list.Contents(), id);
    list.AtEnd();
    list.Here(list.middle, |list.nodes|);
  }

  lemma ScanOver(list: List<Msg>, it: Node<Msg>, was: seq<Msg>, id: int, p: nat)
    requires list.Valid() && At(list, it, was, id, p)
    ensures it == list.middle <==> p == |was|
  {
    list.AtEnd();
    list.SamePlace(it, list.middle, |Keep(was[..p], id)|, |list.nodes|);
    ScanLength(was, id, p);
  }

  /** One round of the loop in `remove`. */
  method ScanOne(list: List<Msg>, it: Node<Msg>, id: int, ghost was: seq<Msg>, ghost p: nat)
      returns (next: Node<Msg>, hit: seq<Msg>)
    requires list.Valid() && At(list, it, was, id, p) && it != list.middle
    modifies list`nodes, list.Cells()`next, list.Cells()`prev, it`alive
    ensures forall n | n in old(list.nodes) && n !in list.nodes :: n == it && !it.alive
    ensures list.Valid() && p < |was| && At(list, next, was, id, p + 1) && list.Cells() <= old(list.Cells())
    ensures Matching(was[..p + 1], id) == Matching(was[..p], id) + hit
  {
    hide List<Msg>.Valid, Seat, Keep, Matching, Scanned, Cut;
    ghost var k := |Keep(was[..p], id)|;
    ScanOver(list, it, was, id, p);
    list.Here(it, k);
    ScanStep(was, id, p);
    var msg := it.Val();
    hit := [];
    if msg.id == id {
      hit := [msg];
      next := list.Erase(it, k);
    } else {
      next := it.Next();
    }
  }

  /** Scan the ring, erasing in place; reports the erased messages. */
  method RemoveAll(list: List<Msg>, id: int) returns (vect: seq<Msg>)
    requires list.Valid()
    modifies list`nodes, list.Cells()`next, list.Cells()`prev, list.Cells()`alive
    ensures list.Valid() && list.Contents() == Keep(old(list.Contents()), id)
    ensures vect == Matching(old(list.Contents()), id) && list.Cells() <= old(list.Cells())
    ensures forall n | n in old(list.nodes) && n !in list.nodes :: !n.alive
  {
    hide List<Msg>.Valid, List<Msg>.Contents, Keep, Matching, Scanned, At;
    ghost var was := list.Contents();
    ScanStart(list, id);
    var it := list.middle.Next();
    vect := [];
    ghost var p: nat := 0;
    while it != list.middle
      invariant list.Valid() && p <= |was| && At(list, it, was, id, p) && list.Cells() <= old(list.Cells())
      invariant vect == Matching(was[..p], id)
      invariant forall n | n in old(list.nodes) && n !in list.nodes :: !n.alive
      decreases |was| - p
    {
      var hit;
      ScanHere(list, it, was, id, p);
      it, hit := ScanOne(list, it, id, was, p);
      vect := vect + hit;
      p := p + 1;
    }
    ScanOver(list, it, was, id, p);
    ScanResult(list, it, was, id, p);
  }

  lemma ScanResult(list: List<Msg>, it: Node<Msg>, was: seq<Msg>, id: int, p: nat)
    requires At(list, it, was, id, p) && p == |was|
    ensures list.Contents() == Keep(was, id) && Matching(was[..p], id) == Matching(was, id)
  {
    ScanEnds(was, id);
  }

  // ----- the queue object under the protocol

  /** The shared fields of a message queue. */
  class Queue {
    const list: List<Msg>   // mList
    var status: seq<int>    // mReplyStatus
    var count: nat          // messages sent so far

    /** The object holds what the protocol state says. */
    ghost predicate Holds(s: State)
      reads this, list, list.Cells()
    {
      list.Valid() && list.Contents() == s.list && status == s.status && count == |s.sent|
    }

    constructor (status: seq<int>)
      ensures fresh(list) && fresh(list.Cells()) && this.status == status && count == 0
      ensures list.Valid() && list.Contents() == []
    {
      this.list := new List<Msg>();
      this.status, this.count := status, 0;
    }

    /** send up to its push */
    method Push(id: int)
      requires list.Valid()
      modifies `count, list, list.Cells()
      ensures list.Valid() && list.Contents() == [Msg(id, old(count))] + old(list.Contents())
      ensures count == old(count) + 1 && fresh(list.Cells() - old(list.Cells()))
    {
      Enqueue(list, Msg(id, count));
      count := count + 1;
    }

    /** The body of receive, once the mutex is held: nothing to take, or the last message. */
    method Take() returns (got: Option<Msg>)
      requires list.Valid()
      modifies list, list.Cells()
      ensures list.Valid() && list.Cells() <= old(list.Cells())
      ensures got.None? ==> old(list.Contents()) == [] && list.Contents() == []
      ensures got.Some? ==> old(list.Contents()) == list.Contents() + [got.value]
    {
      var n := list.Size();
      if n == 0 {
        got := None;
      } else {
        var m := Dequeue(list);
        got := Some(m);
      }
    }

    /** The test at the head of remove. */
    method Worthwhile() returns (goesOn: bool)
      requires list.Valid()
      ensures goesOn <==> list.Contents() != []
    {
      var n := list.Size();
      goesOn := n != 0;
    }

    /** One action of a thread that stands at p. `got` is what receive took, `gone` what remove took
        out, `goesOn` whether remove goes on to scan, and `answer` what send returns. */
    method Do(a: Action, p: Pc, ghost s: State)
        returns (got: Option<Msg>, gone: seq<Msg>, goesOn: bool, answer: Option<int>)
      requires Holds(s) && Enabled(s, a) && p == PcOf(s, a.t)
      modifies this, list, list.Cells()
      ensures Holds(Next(s, a)) && fresh(list.Cells() - old(list.Cells()))
      ensures Next(s, a).received == s.received + (if got.Some? then [got.value] else [])
      ensures got.Some? <==> a.Receive? && s.list != []
      ensures gone == if a.RemoveScan? then Matching(s.list, p.id) else []
      ensures a.RemoveTest? ==> (goesOn <==> s.list != [])
      ensures answer.Some? <==> a.Test? && Next(s, a).done != s.done
      ensures answer.Some? ==> exists d :: Next(s, a).done == s.done + [d] && d.status == answer.value
      ensures a.Test? && answer.None? ==> s.status[p.reply] == WOULD_BLOCK
      ensures !a.Test? ==> Next(s, a).done == s.done
      ensures a.Reply? ==> status == old(status)[a.reply := a.st]
    {
      hide List<Msg>.Valid, List<Msg>.Contents, Keep, Matching, Tags, SignalsReceiver, SignalsSender;
      got, gone, goesOn, answer := None, [], false, None;
      match a {
        case SendPush(t, id, r) => Push(id);
        case SendSignal(t, signal) =>
          if p.reply != NO_REPLY {
            status := status[p.reply := WOULD_BLOCK];
          }
        case Receive(t) => got := Take();
        case Test(t) =>
          if status[p.reply] != WOULD_BLOCK {
            answer := Some(status[p.reply]);
            assert Next(s, a).done == s.done + [Done(p.tag, status[p.reply], s.posts[p.reply])];
          }
        case Reply(t, r, st, signal) => status := status[r := st];
        case RemoveTest(t, id) => goesOn := Worthwhile();
        case RemoveScan(t) => gone := RemoveAll(list, p.id);
        case RemoveDone(t, signal) => status := status[p.id := INVALID_OPERATION];
        case _ =>
      }
    }
  }

  /** The protocol state of a new queue with these reply statuses. */
  function Fresh(status: seq<int>): (s: State)
    ensures Init(s)
  {
    State([], Free, status, map[], [], [], {}, seq(|status|, _ => []), [])
  }

  function ToSeq<T>(o: Option<T>): seq<T> {
    match o case None => [] case Some(v) => [v]
  }

  lemma StatusesMore(done: seq<Done>, done': seq<Done>, answer: Option<int>)
    requires answer.None? ==> done' == done
    requires answer.Some? ==> exists d :: done' == done + [d] && d.status == answer.value
    ensures QueueSpec.Statuses(done') == QueueSpec.Statuses(done) + ToSeq(answer)
  {
    if answer.Some? {
      var d :| done' == done + [d] && d.status == answer.value;
      assert (done + [d])[..|done|] == done;
    }
  }

  /** Every interleaving, on the linked ring: the ring, what the receivers got and what the senders
      returned are what the actions alone say. */
  method QueueOnRing(status: seq<int>, acts: seq<Action>)
      returns (q: Queue, s: State, got: seq<Msg>, answers: seq<int>)
    requires Legal(Fresh(status), acts)
    ensures s == After(Fresh(status), acts) && q.Holds(s)
    ensures s.received + Reverse(q.list.Contents()) == Without(s.sent, s.removed)
    ensures Reverse(q.list.Contents()) == QueueSpec.Queued(|status|, acts)
    ensures got == QueueSpec.Got(|status|, acts) && answers == QueueSpec.Answers(|status|, acts)
  {
    hide Next, Enabled, Fresh, QueueSpec.Statuses;
    q := new Queue(status);
    s, got, answers := Fresh(status), [], [];
    HoldsFresh(q);
    for i := 0 to |acts|
      invariant fresh(q) && fresh(q.list) && fresh(q.list.Cells()) && q.Holds(s)
      invariant Legal(s, acts[i..]) && After(s, acts[i..]) == After(Fresh(status), acts)
      invariant got == s.received && answers == QueueSpec.Statuses(s.done)
    {
      assert acts[i..][1..] == acts[i + 1..] && acts[i..][0] == acts[i];
      var g, _, _, answer := q.Do(acts[i], PcOf(s, acts[i].t), s);
      StatusesMore(s.done, Next(s, acts[i]).done, answer);
      s := Next(s, acts[i]);
      got, answers := got + ToSeq(g), answers + ToSeq(answer);
    }
    QueueRuns(Fresh(status), acts);
    AsSpecified(status, acts);
  }

  lemma AsSpecified(status: seq<int>, acts: seq<Action>)
    requires Legal(Fresh(status), acts)
    ensures var s := After(Fresh(status), acts);
            && Reverse(s.list) == QueueSpec.Queued(|status|, acts) && s.received == QueueSpec.Got(|status|, acts)
            && QueueSpec.Statuses(s.done) == QueueSpec.Answers(|status|, acts)
  {
    assert |Fresh(status).status| == |status|;
    QueueSpec.RunsAsSpecified(Fresh(status), acts);
    hide Legal, After, Next, Enabled;
  }

  lemma HoldsFresh(q: Queue)
    requires q.list.Valid() && q.list.Contents() == [] && q.count == 0
    ensures q.Holds(Fresh(q.status)) && Fresh(q.status).received == []
    ensures QueueSpec.Statuses(Fresh(q.status).done) == []
  {}
}
