/** The blocking message queue as a state machine: one action per critical section, any number
    of threads, any interleaving, spurious wake-ups included. */
module QueueProtocol {

  const WOULD_BLOCK: int := -11
  const INVALID_OPERATION: int := -38
  const NO_REPLY: int := -1

  type Tid = nat

  /** A message; `tag` is its place in the order of sending. */
  datatype Msg = Msg(id: int, tag: nat)

  /** Where a thread stands between two critical sections. */
  datatype Pc =
    | Idle
    | Pushed(reply: int, tag: nat)       // send: holds the queue mutex, message pushed
    | Check(reply: int, tag: nat)        // send: about to test the reply status
    | ReplyAsleep(reply: int, tag: nat)  // send: waits on the reply condition
    | RecvAsleep                         // receive: waits on the queue condition
    | RecvWoken                          // receive: signalled, not yet run
    | Scan(id: int)                      // remove: the queue was not empty
    | RemoveReply(id: int)               // remove: about to release a waiting sender
  {
    /** A synchronous send on this reply id is under way. */
    predicate Sending(r: int) {
      (Pushed? || Check? || ReplyAsleep?) && reply == r && r != NO_REPLY
    }

    /** Past the enqueue of a synchronous send. */
    predicate Waiting() {
      Check? || ReplyAsleep?
    }
  }

  datatype Holder = Free | Held(owner: Tid)

  /** A completed synchronous send of message `tag`: the status returned and the replies made since
      its enqueue, that is, since it wrote WOULD_BLOCK under its reply id: a reply between the push
      and that write is overwritten. */
  datatype Done = Done(tag: nat, status: int, posts: seq<int>)

  datatype State = State(
    list: seq<Msg>,         // mList, front first
    mutex: Holder,          // mQueueMutex, while a send is between its push and its signal
    status: seq<int>,       // mReplyStatus, one per reply id
    pc: map<Tid, Pc>,
    sent: seq<Msg>,
    received: seq<Msg>,
    removed: set<nat>,      // tags of messages taken out by remove
    posts: seq<seq<int>>,   // replies to each id since a sender last wrote WOULD_BLOCK under it
    done: seq<Done>)
  {
    predicate ReplyId(r: int) {
      0 <= r < |status| && |posts| == |status|
    }
  }

  function PcOf(s: State, t: Tid): Pc {
    if t in s.pc then s.pc[t] else Idle
  }

  function Goto(s: State, t: Tid, p: Pc): State {
    s.(pc := s.pc[t := p])
  }

  /** A signal wakes one thread that waits, if any does; `woken` names it. */
  datatype Signal = Nobody | Wake(t: Tid)

  datatype Action =
    | SendPush(t: Tid, id: int, reply: int)
    | SendSignal(t: Tid, signal: Signal)
    | Receive(t: Tid)
    | Test(t: Tid)
    | Reply(t: Tid, reply: int, st: int, signal: Signal)
    | RemoveTest(t: Tid, id: int)
    | RemoveScan(t: Tid)
    | RemoveDone(t: Tid, signal: Signal)
    | Spurious(t: Tid)
    | SendRefused(t: Tid, reply: int)   // BAD_VALUE: a reply is asked for, none are enabled

  predicate SignalsReceiver(s: State, signal: Signal) {
    match signal
    case Nobody => forall u | u in s.pc :: !s.pc[u].RecvAsleep?
    case Wake(u) => PcOf(s, u).RecvAsleep?
  }

  predicate AsleepOn(p: Pc, r: int) {
    p.ReplyAsleep? && p.reply == r
  }

  predicate SignalsSender(s: State, r: int, signal: Signal) {
    match signal
    case Nobody => forall u | u in s.pc :: !AsleepOn(s.pc[u], r)
    case Wake(u) => AsleepOn(PcOf(s, u), r)
  }

  /** The sender that the signal wakes goes back to testing the status. */
  function WakeSender(s: State, signal: Signal): State
    requires signal.Wake? ==> PcOf(s, signal.t).ReplyAsleep?
  {
    match signal
    case Nobody => s
    case Wake(u) => Goto(s, u, Check(PcOf(s, u).reply, PcOf(s, u).tag))
  }

  function WakeReceiver(s: State, signal: Signal): State {
    match signal
    case Nobody => s
    case Wake(u) => Goto(s, u, RecvWoken)
  }

  /** `reply`: store the status and signal. */
  function Post(s: State, r: int, st: int): State
    requires s.ReplyId(r)
  {
    s.(status := s.status[r := st], posts := s.posts[r := s.posts[r] + [st]])
  }

  predicate Enabled(s: State, a: Action) {
    match a
    case SendPush(t, id, r) =>
      && PcOf(s, t).Idle? && s.mutex.Free? && (r == NO_REPLY || s.ReplyId(r))
      && (forall u | u in s.pc :: !s.pc[u].Sending(r))
    case SendSignal(t, signal) =>
      PcOf(s, t).Pushed? && (PcOf(s, t).reply == NO_REPLY || s.ReplyId(PcOf(s, t).reply)) && SignalsReceiver(s, signal)
    case Receive(t) => (PcOf(s, t).Idle? || PcOf(s, t).RecvWoken?) && s.mutex.Free?
    case Test(t) => PcOf(s, t).Check? && s.ReplyId(PcOf(s, t).reply)
    case Reply(t, r, st, signal) => PcOf(s, t).Idle? && s.ReplyId(r) && st != WOULD_BLOCK && SignalsSender(s, r, signal)
    case RemoveTest(t, id) => PcOf(s, t).Idle? && s.mutex.Free? && (|s.status| > 0 ==> s.ReplyId(id))
    case RemoveScan(t) => PcOf(s, t).Scan? && s.mutex.Free?
    case RemoveDone(t, signal) => PcOf(s, t).RemoveReply? && s.ReplyId(PcOf(s, t).id) && SignalsSender(s, PcOf(s, t).id, signal)
    case Spurious(t) => PcOf(s, t).RecvAsleep? || PcOf(s, t).ReplyAsleep?
    case SendRefused(t, r) => PcOf(s, t).Idle? && r != NO_REPLY && |s.status| == 0
  }

  /** Messages of the list that `remove` keeps, and their order. */
  function Keep(list: seq<Msg>, id: int): seq<Msg> {
    if list == [] then []
    else if list[0].id == id then Keep(list[1..], id)
    else [list[0]] + Keep(list[1..], id)
  }

  /** Tags of the messages with this id. */
  function Tags(list: seq<Msg>, id: int): set<nat> {
    set m | m in list && m.id == id :: m.tag
  }

  function Next(s: State, a: Action): State
    requires Enabled(s, a)
  {
    match a
    case SendPush(t, id, r) =>
      var m := Msg(id, |s.sent|);
      Goto(s, t, Pushed(r, m.tag)).(list := [m] + s.list, sent := s.sent + [m], mutex := Held(t))
    case SendSignal(t, signal) =>
      var r, tag := PcOf(s, t).reply, PcOf(s, t).tag;
      var s1 := if r == NO_REPLY then s else s.(status := s.status[r := WOULD_BLOCK], posts := s.posts[r := []]);
      Goto(WakeReceiver(s1, signal), t, if r == NO_REPLY then Idle else Check(r, tag)).(mutex := Free)
    case Receive(t) =>
      if s.list == [] then Goto(s, t, RecvAsleep)
      else
        var n := |s.list| - 1;
        Goto(s, t, Idle).(list := s.list[..n], received := s.received + [s.list[n]])
    case Test(t) =>
      var r, tag := PcOf(s, t).reply, PcOf(s, t).tag;
      if s.status[r] == WOULD_BLOCK then Goto(s, t, ReplyAsleep(r, tag))
      else Goto(s, t, Idle).(done := s.done + [Done(tag, s.status[r], s.posts[r])])
    case Reply(t, r, st, signal) => WakeSender(Post(s, r, st), signal)
    case RemoveTest(t, id) => if s.list == [] then s else Goto(s, t, Scan(id))
    case RemoveScan(t) =>
      var id := PcOf(s, t).id;
      Goto(s, t, if |s.status| > 0 then RemoveReply(id) else Idle)
        .(list := Keep(s.list, id), removed := s.removed + Tags(s.list, id))
    case RemoveDone(t, signal) =>
      Goto(WakeSender(Post(s, PcOf(s, t).id, INVALID_OPERATION), signal), t, Idle)
    case Spurious(t) =>
      if PcOf(s, t).RecvAsleep? then Goto(s, t, RecvWoken) else WakeSender(s, Wake(t))
    case SendRefused(t, r) => s
  }

  // ----- the lists

  function Reverse(list: seq<Msg>): seq<Msg> {
    if list == [] then [] else Reverse(list[1..]) + [list[0]]
  }

  /** Messages of s whose tags are not in x, in order. */
  function Without(s: seq<Msg>, x: set<nat>): seq<Msg> {
    if s == [] then []
    else Without(s[..|s| - 1], x) + if s[|s| - 1].tag in x then [] else [s[|s| - 1]]
  }

  lemma {:induction false} KeepSub(list: seq<Msg>, id: int)
    ensures |Keep(list, id)| <= |list| && forall m :: m in Keep(list, id) <==> m in list && m.id != id
  {
    if list != [] {
      KeepSub(list[1..], id);
    }
  }

  lemma {:induction false} ReverseLast(list: seq<Msg>, m: Msg)
    ensures Reverse(list + [m]) == [m] + Reverse(list)
  {
    if list != [] {
      ReverseLast(list[1..], m);
      assert (list + [m])[1..] == list[1..] + [m];
    } else {
      assert Reverse([]) == [];
    }
  }

  lemma {:induction false} WithoutConcat(s: seq<Msg>, r: seq<Msg>, x: set<nat>)
    ensures Without(s + r, x) == Without(s, x) + Without(r, x)
    decreases r
  {
    if r == [] {
      assert s + r == s;
    } else {
      WithoutConcat(s, r[..|r| - 1], x);
      assert (s + r)[..|s + r| - 1] == s + r[..|r| - 1];
    }
  }

  /** Removing in two steps. */
  lemma {:induction false} WithoutTwice(s: seq<Msg>, x: set<nat>, y: set<nat>)
    ensures Without(Without(s, x), y) == Without(s, x + y)
  {
    if s != [] {
      var rest, m := s[..|s| - 1], s[|s| - 1];
      WithoutTwice(rest, x, y);
      WithoutConcat(Without(rest, x), if m.tag in x then [] else [m], y);
      assert Without([m], y) == if m.tag in y then [] else [m] by { assert [m][..0] == []; }
    }
  }

  lemma {:induction false} WithoutNone(s: seq<Msg>, x: set<nat>)
    requires forall m | m in s :: m.tag !in x
    ensures Without(s, x) == s
  {
    if s != [] {
      var n := |s| - 1;
      assert s[n] in s && s == s[..n] + [s[n]];
      forall m | m in s[..n] ensures m.tag !in x { assert m in s; }
      WithoutNone(s[..n], x);
    }
  }

  /** Reversing after `Keep` is dropping the removed tags from the reversed list. */
  lemma {:induction false} KeepReverse(list: seq<Msg>, id: int, x: set<nat>)
    requires forall m | m in list :: m.tag in x <==> m.id == id
    ensures Reverse(Keep(list, id)) == Without(Reverse(list), x)
  {
    if list != [] {
      var m := list[0];
      KeepReverse(list[1..], id, x);
      WithoutConcat(Reverse(list[1..]), [m], x);
      assert Without([m], x) == if m.tag in x then [] else [m] by { assert [m][..0] == []; }
      if m.id != id { assert ([m] + Keep(list[1..], id))[1..] == Keep(list[1..], id); }
    }
  }

  /** Tags grow along what is left of the sending order. */
  lemma {:induction false} WithoutTags(s: seq<Msg>, x: set<nat>)
    requires forall i | 0 <= i < |s| :: s[i].tag == i
    ensures forall m | m in Without(s, x) :: m in s && m.tag !in x
    ensures forall i, j | 0 <= i < j < |Without(s, x)| :: Without(s, x)[i].tag < Without(s, x)[j].tag
  {
    if s != [] {
      WithoutTags(s[..|s| - 1], x);
    }
  }

  lemma {:induction false} ReverseIn(list: seq<Msg>)
    ensures |Reverse(list)| == |list| && forall m :: m in Reverse(list) <==> m in list
  {
    if list != [] {
      ReverseIn(list[1..]);
    }
  }

  // ----- first in, first out

  /** What was sent and not removed is what was received followed by the list, back to front. */
  ghost predicate Fifo(s: State) {
    s.received + Reverse(s.list) == Without(s.sent, s.removed)
  }

  ghost predicate Tagged(s: State) {
    && (forall i | 0 <= i < |s.sent| :: s.sent[i].tag == i)
    && (forall x | x in s.removed :: x < |s.sent|)
  }

  /** Received and queued messages are different messages. */
  lemma TagsApart(s: State, m: Msg, q: Msg)
    requires Fifo(s) && Tagged(s) && m in s.received && q in s.list
    ensures m.tag != q.tag && q in s.sent && q.tag !in s.removed
  {
    WithoutTags(s.sent, s.removed);
    ReverseIn(s.list);
    var i :| 0 <= i < |s.received| && s.received[i] == m;
    var j :| 0 <= j < |s.list| && Reverse(s.list)[j] == q;
    var all := s.received + Reverse(s.list);
    assert all[i] == m && all[|s.received| + j] == q;
  }

  lemma FifoPush(s: State, m: Msg)
    requires Fifo(s) && Tagged(s) && m.tag == |s.sent|
    ensures s.received + Reverse([m] + s.list) == Without(s.sent + [m], s.removed)
  {
    assert ([m] + s.list)[1..] == s.list;
    assert (s.sent + [m])[..|s.sent|] == s.sent;
  }

  lemma FifoPop(s: State)
    requires Fifo(s) && s.list != []
    ensures var n := |s.list| - 1; s.received + [s.list[n]] + Reverse(s.list[..n]) == Without(s.sent, s.removed)
  {
    var n := |s.list| - 1;
    assert s.list == s.list[..n] + [s.list[n]];
    ReverseLast(s.list[..n], s.list[n]);
  }

  lemma FifoRemove(s: State, id: int)
    requires Fifo(s) && Tagged(s)
    ensures s.received + Reverse(Keep(s.list, id)) == Without(s.sent, s.removed + Tags(s.list, id))
  {
    var x := Tags(s.list, id);
    forall m | m in s.list ensures m.tag in x <==> m.id == id {
      QueuedOnce(s, m);
    }
    KeepReverse(s.list, id, x);
    forall m | m in s.received ensures m.tag !in x {
      if m.tag in x {
        var q :| q in s.list && q.id == id && q.tag == m.tag;
        TagsApart(s, m, q);
      }
    }
    WithoutNone(s.received, x);
    WithoutConcat(s.received, Reverse(s.list), x);
    WithoutTwice(s.sent, s.removed, x);
  }

  /** A tag determines the message. */
  lemma QueuedOnce(s: State, m: Msg)
    requires Fifo(s) && Tagged(s) && m in s.list
    ensures m.tag < |s.sent| && s.sent[m.tag] == m && m.tag !in s.removed
    ensures forall q | q in s.list && q.tag == m.tag :: q == m
  {
    WithoutTags(s.sent, s.removed);
    ReverseIn(s.list);
    forall q | q in s.list ensures q in s.sent && q.tag !in s.removed {
      assert q in s.received + Reverse(s.list);
    }
  }

  lemma TaggedStep(s: State, a: Action)
    requires Fifo(s) && Tagged(s) && Enabled(s, a)
    ensures Tagged(Next(s, a))
  {
    if a.RemoveScan? {
      forall m | m in s.list ensures m.tag < |s.sent| { QueuedOnce(s, m); }
    }
  }

  lemma FifoStep(s: State, a: Action)
    requires Fifo(s) && Tagged(s) && Enabled(s, a)
    ensures Fifo(Next(s, a))
  {
    hide Reverse, Without, Keep, Tagged;
    match a
    case SendPush(t, id, r) => FifoPush(s, Msg(id, |s.sent|));
    case Receive(t) => if s.list != [] { FifoPop(s); }
    case RemoveScan(t) => FifoRemove(s, PcOf(s, t).id);
    case _ =>
  }

  // ----- no lost wake-up

  /** Each thread's place fits the shared state. */
  ghost predicate Placed(s: State, t: Tid, p: Pc) {
    && (p.Pushed? ==> s.mutex == Held(t) && p.tag + 1 == |s.sent| && p.tag !in s.removed)
    && (p.Pushed? ==> p.reply == NO_REPLY || s.ReplyId(p.reply))
    && (p.Waiting() ==> s.ReplyId(p.reply) && p.tag < |s.sent|)
    && (p.RemoveReply? ==> s.ReplyId(p.id))
    && (p.Scan? && |s.status| > 0 ==> s.ReplyId(p.id))
  }

  ghost predicate AllPlaced(s: State) {
    && |s.posts| == |s.status|
    && (forall t | t in s.pc :: Placed(s, t, s.pc[t]))
    && (s.mutex.Held? ==> PcOf(s, s.mutex.owner).Pushed?)
  }

  lemma AllPlacedStep(s: State, a: Action)
    requires AllPlaced(s) && Tagged(s) && Enabled(s, a)
    ensures AllPlaced(Next(s, a))
  {
    hide AllPlaced, Tagged, Next, Enabled;
    if a.SendPush? || a.SendSignal? || a.Test? {
      PlacedSender(s, a);
    } else {
      PlacedOther(s, a);
    }
  }

  lemma PlacedSender(s: State, a: Action)
    requires AllPlaced(s) && Tagged(s) && Enabled(s, a) && (a.SendPush? || a.SendSignal? || a.Test?)
    ensures AllPlaced(Next(s, a))
  {}

  lemma PlacedOther(s: State, a: Action)
    requires AllPlaced(s) && Tagged(s) && Enabled(s, a) && !a.SendPush? && !a.SendSignal? && !a.Test?
    ensures AllPlaced(Next(s, a))
  {
    hide Keep;
  }

  ghost predicate SomeAsleep(s: State) {
    exists t :: t in s.pc && s.pc[t].RecvAsleep?
  }

  /** Receivers that were signalled and have not run yet. */
  ghost function Woken(s: State): set<Tid> {
    set t | t in s.pc && s.pc[t].RecvWoken?
  }

  /** While a receiver sleeps, every queued message has a signalled receiver on its way, except one
      whose sender still holds the mutex and is about to signal. */
  ghost predicate Awake(s: State) {
    SomeAsleep(s) ==> |s.list| <= |Woken(s)| + if s.mutex.Held? then 1 else 0
  }

  lemma AwakePush(s: State, t: Tid, id: int, r: int)
    requires AllPlaced(s) && Awake(s) && Enabled(s, SendPush(t, id, r))
    ensures Awake(Next(s, SendPush(t, id, r)))
  {
    var s' := Next(s, SendPush(t, id, r));
    assert Woken(s') == Woken(s);
    if SomeAsleep(s') {
      var u :| u in s'.pc && s'.pc[u].RecvAsleep?;
      assert u in s.pc && s.pc[u].RecvAsleep?;
    }
  }

  lemma AwakeSignal(s: State, t: Tid, signal: Signal)
    requires AllPlaced(s) && Awake(s) && Enabled(s, SendSignal(t, signal))
    ensures Awake(Next(s, SendSignal(t, signal)))
  {
    var s' := Next(s, SendSignal(t, signal));
    assert Placed(s, t, s.pc[t]);
    match signal
    case Nobody =>
      assert !SomeAsleep(s');
    case Wake(u) =>
      WokenMore(s, s', u);
  }

  lemma WokenMore(s: State, s': State, u: Tid)
    requires u in s.pc && s.pc[u].RecvAsleep? && Awake(s) && s'.list == s.list
    requires u in s'.pc && s'.pc[u].RecvWoken? && s.mutex.Held?
    requires forall v | v in s.pc && s.pc[v].RecvWoken? :: v in s'.pc && s'.pc[v].RecvWoken?
    ensures Awake(s')
  {
    assert Woken(s) + {u} <= Woken(s');
    var more := Woken(s') - (Woken(s) + {u});
    assert Woken(s') == Woken(s) + {u} + more;
  }

  lemma AwakeReceive(s: State, t: Tid)
    requires Awake(s) && Enabled(s, Receive(t))
    ensures Awake(Next(s, Receive(t)))
  {
    var s' := Next(s, Receive(t));
    assert Woken(s') == Woken(s) - {t};
    if s.list != [] && SomeAsleep(s') {
      var u :| u in s'.pc && s'.pc[u].RecvAsleep?;
      assert u in s.pc && s.pc[u].RecvAsleep?;
    }
  }

  lemma AwakeOther(s: State, s': State)
    requires Awake(s) && |s'.list| <= |s.list| && s'.mutex == s.mutex && Woken(s) <= Woken(s')
    requires forall u | u in s'.pc && s'.pc[u].RecvAsleep? :: u in s.pc && s.pc[u].RecvAsleep?
    ensures Awake(s')
  {
    var more := Woken(s') - Woken(s);
    assert Woken(s') == Woken(s) + more;
    if SomeAsleep(s') {
      var u :| u in s'.pc && s'.pc[u].RecvAsleep?;
      assert u in s.pc;
    }
  }

  lemma AwakeStep(s: State, a: Action)
    requires AllPlaced(s) && Awake(s) && Enabled(s, a)
    ensures Awake(Next(s, a))
  {
    hide Awake, AllPlaced, Keep;
    match a
    case SendPush(t, id, r) => AwakePush(s, t, id, r);
    case SendSignal(t, signal) => AwakeSignal(s, t, signal);
    case Receive(t) => AwakeReceive(s, t);
    case RemoveScan(t) =>
      KeepSub(s.list, PcOf(s, t).id);
      AwakeOther(s, Next(s, a));
    case _ => AwakeOther(s, Next(s, a));
  }

  /** In every reachable state: a message waits, a receiver sleeps and no send is in mid-air only
      if some receiver has been signalled and will run. */
  lemma NoLostWakeup(s: State)
    requires Awake(s) && s.list != [] && SomeAsleep(s) && s.mutex.Free?
    ensures exists t :: t in s.pc && s.pc[t].RecvWoken?
  {
    var t :| t in Woken(s);
  }

  // ----- reply handshake

  /** At most one synchronous send per reply id is under way. */
  ghost predicate OneSender(s: State) {
    forall t, u, r | t in s.pc && u in s.pc && s.pc[t].Sending(r) && s.pc[u].Sending(r) :: t == u
  }

  lemma OneSenderStep(s: State, a: Action)
    requires OneSender(s) && AllPlaced(s) && Enabled(s, a)
    ensures OneSender(Next(s, a))
  {
    var s' := Next(s, a);
    forall t, u, r | t in s'.pc && u in s'.pc && s'.pc[t].Sending(r) && s'.pc[u].Sending(r) ensures t == u {
      if !(a.SendPush? && a.reply == r) {
        assert t in s.pc && s.pc[t].Sending(r);
        assert u in s.pc && s.pc[u].Sending(r);
      }
    }
  }

  /** The status word of a waiting sender holds WOULD_BLOCK until the first reply after its
      enqueue, then the latest reply; and the sender sleeps only before the first. */
  ghost predicate Answered(s: State, p: Pc) {
    p.Waiting() && s.ReplyId(p.reply) ==>
      var posts := s.posts[p.reply];
      && s.status[p.reply] == (if posts == [] then WOULD_BLOCK else posts[|posts| - 1])
      && (p.ReplyAsleep? ==> posts == [])
  }

  ghost predicate Handshake(s: State) {
    forall t | t in s.pc :: Answered(s, s.pc[t])
  }

  ghost predicate RealReplies(s: State) {
    forall r, i | 0 <= r < |s.posts| && 0 <= i < |s.posts[r]| :: s.posts[r][i] != WOULD_BLOCK
  }

  lemma RealRepliesStep(s: State, a: Action)
    requires RealReplies(s) && Enabled(s, a)
    ensures RealReplies(Next(s, a))
  {}

  /** A reply wakes the one sender that may sleep on its id. */
  lemma HandshakePost(s: State, r: int, st: int, signal: Signal)
    requires Handshake(s) && OneSender(s) && AllPlaced(s) && s.ReplyId(r) && SignalsSender(s, r, signal)
    ensures Handshake(WakeSender(Post(s, r, st), signal))
  {
    var s1 := Post(s, r, st);
    var s' := WakeSender(s1, signal);
    forall t | t in s'.pc ensures Answered(s', s'.pc[t]) {
      assert t in s.pc && Answered(s, s.pc[t]) && Placed(s, t, s.pc[t]);
      if AsleepOn(s.pc[t], r) && signal.Wake? {
        assert s.pc[t].Sending(r) && PcOf(s, signal.t).Sending(r);
      }
    }
  }

  /** Steps that neither write a status nor move a sender towards sleep. */
  lemma HandshakeQuiet(s: State, s': State)
    requires Handshake(s) && s'.status == s.status && s'.posts == s.posts
    requires forall t | t in s'.pc && s'.pc[t].Waiting() ::
               t in s.pc && s.pc[t].Waiting() && s.pc[t].reply == s'.pc[t].reply && (s'.pc[t].ReplyAsleep? ==> s.pc[t].ReplyAsleep?)
    ensures Handshake(s')
  {
    forall t | t in s'.pc ensures Answered(s', s'.pc[t]) {
      if s'.pc[t].Waiting() { assert Answered(s, s.pc[t]); }
    }
  }

  lemma HandshakeSignal(s: State, t: Tid, signal: Signal)
    requires Handshake(s) && OneSender(s) && AllPlaced(s) && Enabled(s, SendSignal(t, signal))
    ensures Handshake(Next(s, SendSignal(t, signal)))
  {
    var s' := Next(s, SendSignal(t, signal));
    forall u | u in s'.pc ensures Answered(s', s'.pc[u]) {
      if u != t && s'.pc[u].Waiting() {
        assert Answered(s, s.pc[u]) && Placed(s, u, s.pc[u]);
        assert s.pc[u].Sending(s.pc[u].reply);
      }
    }
  }

  lemma HandshakeTest(s: State, t: Tid)
    requires Handshake(s) && RealReplies(s) && Enabled(s, Test(t))
    ensures Handshake(Next(s, Test(t)))
  {
    var s' := Next(s, Test(t));
    forall u | u in s'.pc ensures Answered(s', s'.pc[u]) {
      if u in s.pc { assert Answered(s, s.pc[u]); }
    }
  }

  lemma HandshakeStep(s: State, a: Action)
    requires Handshake(s) && OneSender(s) && AllPlaced(s) && RealReplies(s) && Enabled(s, a)
    ensures Handshake(Next(s, a))
  {
    hide Handshake, OneSender, AllPlaced, RealReplies;
    match a
    case SendSignal(t, signal) => HandshakeSignal(s, t, signal);
    case Test(t) => HandshakeTest(s, t);
    case Reply(t, r, st, signal) => HandshakePost(s, r, st, signal);
    case RemoveDone(t, signal) =>
      var s1 := WakeSender(Post(s, PcOf(s, t).id, INVALID_OPERATION), signal);
      HandshakePost(s, PcOf(s, t).id, INVALID_OPERATION, signal);
      HandshakeQuiet(s1, Goto(s1, t, Idle));
    case _ => HandshakeQuiet(s, Next(s, a));
  }

  /** Every completed synchronous send returned a status, never WOULD_BLOCK, that was written by
      the latest of the replies made after its enqueue. */
  ghost predicate Returned(s: State) {
    forall d | d in s.done ::
      d.status != WOULD_BLOCK && d.posts != [] && d.status == d.posts[|d.posts| - 1]
  }

  lemma ReturnedStep(s: State, a: Action)
    requires Returned(s) && Handshake(s) && RealReplies(s) && Enabled(s, a)
    ensures Returned(Next(s, a))
  {
    if a.Test? {
      assert Answered(s, s.pc[a.t]);
    }
  }

  // ----- remove releases the sender

  /** The message of a waiting sender was taken out by remove, and nothing has answered yet. */
  predicate Orphan(s: State, p: Pc) {
    && p.Waiting() && s.ReplyId(p.reply) && p.tag < |s.sent| && s.sent[p.tag].id == p.reply
    && p.tag in s.removed && s.posts[p.reply] == []
  }

  ghost predicate AboutToRelease(s: State, r: int) {
    exists u :: u in s.pc && s.pc[u] == RemoveReply(r)
  }

  /** A sender whose message was removed is answered already, or a remover is about to answer it,
      provided the message carried the reply id as its own id. */
  ghost predicate Owed(s: State) {
    forall t | t in s.pc && Orphan(s, s.pc[t]) :: AboutToRelease(s, s.pc[t].reply)
  }

  lemma OwedQuiet(s: State, s': State)
    requires Owed(s)
    requires forall t | t in s'.pc && Orphan(s', s'.pc[t]) ::
               t in s.pc && Orphan(s, s.pc[t]) && s.pc[t].reply == s'.pc[t].reply
    requires forall u | u in s.pc && s.pc[u].RemoveReply? :: u in s'.pc && s'.pc[u] == s.pc[u]
    ensures Owed(s')
  {
    forall t | t in s'.pc && Orphan(s', s'.pc[t]) ensures AboutToRelease(s', s'.pc[t].reply) {
      assert AboutToRelease(s, s.pc[t].reply);
      var u :| u in s.pc && s.pc[u] == RemoveReply(s.pc[t].reply);
      assert s'.pc[u] == RemoveReply(s'.pc[t].reply);
    }
  }

  lemma OwedSignal(s: State, t: Tid, signal: Signal)
    requires Owed(s) && OneSender(s) && AllPlaced(s) && Enabled(s, SendSignal(t, signal))
    ensures Owed(Next(s, SendSignal(t, signal)))
  {
    var s' := Next(s, SendSignal(t, signal));
    assert Placed(s, t, s.pc[t]);
    forall u | u in s'.pc && Orphan(s', s'.pc[u])
      ensures u in s.pc && Orphan(s, s.pc[u]) && s.pc[u].reply == s'.pc[u].reply
    {
      if u != t { assert s.pc[u].Sending(s.pc[u].reply); }
    }
    OwedQuiet(s, s');
  }

  lemma OwedScan(s: State, t: Tid)
    requires Owed(s) && Fifo(s) && Tagged(s) && AllPlaced(s) && Enabled(s, RemoveScan(t))
    ensures Owed(Next(s, RemoveScan(t)))
  {
    var id, s' := PcOf(s, t).id, Next(s, RemoveScan(t));
    forall u | u in s'.pc && Orphan(s', s'.pc[u]) ensures AboutToRelease(s', s'.pc[u].reply) {
      if s.pc[u].tag in s.removed {
        assert AboutToRelease(s, s.pc[u].reply);
        var v :| v in s.pc && s.pc[v] == RemoveReply(s.pc[u].reply);
        assert s'.pc[v] == RemoveReply(s'.pc[u].reply);
      } else {
        var m :| m in s.list && m.id == id && m.tag == s.pc[u].tag;
        QueuedOnce(s, m);
        assert s'.pc[t] == RemoveReply(id);
      }
    }
  }

  lemma OwedPost(s: State, r: int, st: int, signal: Signal)
    requires Owed(s) && s.ReplyId(r) && SignalsSender(s, r, signal)
    ensures Owed(WakeSender(Post(s, r, st), signal))
    ensures forall t :: var s' := WakeSender(Post(s, r, st), signal); t in s'.pc && Orphan(s', s'.pc[t]) ==> s'.pc[t].reply != r
  {
    OwedQuiet(s, WakeSender(Post(s, r, st), signal));
  }

  lemma OwedDone(s: State, t: Tid, signal: Signal)
    requires Owed(s) && Enabled(s, RemoveDone(t, signal))
    ensures Owed(Next(s, RemoveDone(t, signal)))
  {
    var id := PcOf(s, t).id;
    var s1 := WakeSender(Post(s, id, INVALID_OPERATION), signal);
    var s' := Next(s, RemoveDone(t, signal));
    OwedPost(s, id, INVALID_OPERATION, signal);
    forall u | u in s'.pc && Orphan(s', s'.pc[u]) ensures AboutToRelease(s', s'.pc[u].reply) {
      assert u in s1.pc && Orphan(s1, s1.pc[u]);
      assert AboutToRelease(s1, s1.pc[u].reply);
      var v :| v in s1.pc && s1.pc[v] == RemoveReply(s1.pc[u].reply);
      assert v != t && s'.pc[v] == RemoveReply(s'.pc[u].reply);
    }
  }

  lemma OwedStep(s: State, a: Action)
    requires Owed(s) && OneSender(s) && AllPlaced(s) && Fifo(s) && Tagged(s) && Enabled(s, a)
    ensures Owed(Next(s, a))
  {
    hide Owed, OneSender, Fifo, AboutToRelease;
    match a
    case SendSignal(t, signal) => OwedSignal(s, t, signal);
    case RemoveScan(t) => OwedScan(s, t);
    case RemoveDone(t, signal) => OwedDone(s, t, signal);
    case Reply(t, r, st, signal) => OwedPost(s, r, st, signal);
    case SendRefused(t, r) =>
    case _ =>
      var s' := Next(s, a);
      forall t | t in s'.pc && Orphan(s', s'.pc[t])
        ensures t in s.pc && Orphan(s, s.pc[t]) && s.pc[t].reply == s'.pc[t].reply
      {
        if t in s.pc { assert Placed(s, t, s.pc[t]); }
      }
      OwedQuiet(s, s');
  }

  // ----- whole runs

  /** A new queue: no thread inside, reply statuses arbitrary. */
  predicate Init(s: State) {
    && s.list == [] && s.mutex.Free? && s.pc == map[]
    && s.sent == [] && s.received == [] && s.removed == {} && s.done == []
    && |s.posts| == |s.status| && forall r | 0 <= r < |s.posts| :: s.posts[r] == []
  }

  ghost predicate Inv(s: State) {
    && Fifo(s) && Tagged(s) && AllPlaced(s) && Awake(s)
    && OneSender(s) && RealReplies(s) && Handshake(s) && Returned(s) && Owed(s)
  }

  /** Every action is enabled where it is taken. */
  predicate Legal(s: State, acts: seq<Action>)
    decreases acts
  {
    acts == [] || (Enabled(s, acts[0]) && Legal(Next(s, acts[0]), acts[1..]))
  }

  function After(s: State, acts: seq<Action>): State
    requires Legal(s, acts)
    decreases acts
  {
    if acts == [] then s else After(Next(s, acts[0]), acts[1..])
  }

  lemma InvInit(s: State)
    requires Init(s)
    ensures Inv(s)
  {
    assert Without([], {}) == [] && Reverse([]) == [];
  }

  lemma InvStep(s: State, a: Action)
    requires Inv(s) && Enabled(s, a)
    ensures Inv(Next(s, a))
  {
    hide Fifo, Tagged, AllPlaced, Awake, OneSender, RealReplies, Handshake, Returned, Owed, Enabled, Next;
    FifoStep(s, a);
    TaggedStep(s, a);
    AllPlacedStep(s, a);
    AwakeStep(s, a);
    OneSenderStep(s, a);
    RealRepliesStep(s, a);
    HandshakeStep(s, a);
    ReturnedStep(s, a);
    OwedStep(s, a);
  }

  /** Every state of every interleaving satisfies all invariants. */
  lemma {:induction false} InvRun(s: State, acts: seq<Action>)
    requires Inv(s) && Legal(s, acts)
    ensures Inv(After(s, acts))
    decreases acts
  {
    hide Inv;
    if acts != [] {
      InvStep(s, acts[0]);
      InvRun(Next(s, acts[0]), acts[1..]);
    }
  }

  /** The queue over any interleaving: first in, first out; no lost wake-up; a synchronous sender
      sleeps only while no reply has come since its enqueue and returns the latest reply; and a
      sender whose message was removed, under its own reply id, is about to be released. */
  lemma QueueRuns(s0: State, acts: seq<Action>)
    requires Init(s0) && Legal(s0, acts)
    ensures var s := After(s0, acts);
            && s.received + Reverse(s.list) == Without(s.sent, s.removed)
            && (SomeAsleep(s) && s.mutex.Free? ==> |s.list| <= |Woken(s)|)
            && (forall t | t in s.pc && s.pc[t].ReplyAsleep? :: s.ReplyId(s.pc[t].reply) && s.posts[s.pc[t].reply] == [])
            && (forall d | d in s.done :: d.status != WOULD_BLOCK && d.posts != [] && d.status == d.posts[|d.posts| - 1])
            && (forall t | t in s.pc && Orphan(s, s.pc[t]) :: AboutToRelease(s, s.pc[t].reply))
  {
    InvInit(s0);
    InvRun(s0, acts);
    var s := After(s0, acts);
    forall t | t in s.pc && s.pc[t].ReplyAsleep? ensures s.ReplyId(s.pc[t].reply) && s.posts[s.pc[t].reply] == [] {
      assert Placed(s, t, s.pc[t]) && Answered(s, s.pc[t]);
    }
  }

  /** Without remove, what was sent is what was received followed by the list, back to front. */
  lemma SentIsReceivedThenQueued(s0: State, acts: seq<Action>)
    requires Init(s0) && Legal(s0, acts) && After(s0, acts).removed == {}
    ensures var s := After(s0, acts); s.sent == s.received + Reverse(s.list)
  {
    QueueRuns(s0, acts);
    WithoutNone(After(s0, acts).sent, {});
  }

  /** A remover's reply reaches a waiting sender, asleep or not, if and only if it waits under the
      removed id: then the sender is awake and finds INVALID_OPERATION, otherwise nothing changes
      for it. */
  lemma RemoveWakes(s: State, t: Tid, u: Tid, signal: Signal)
    requires Inv(s) && t in s.pc && s.pc[t].Waiting() && Enabled(s, RemoveDone(u, signal))
    ensures s.ReplyId(s.pc[t].reply) && t in Next(s, RemoveDone(u, signal)).pc
    ensures var s' := Next(s, RemoveDone(u, signal)); var r := s.pc[t].reply;
            if r == s.pc[u].id then s'.pc[t] == Check(r, s.pc[t].tag) && s'.status[r] == INVALID_OPERATION
            else s'.pc[t] == s.pc[t] && s'.status[r] == s.status[r]
  {
    assert Placed(s, t, s.pc[t]);
    hide Fifo, Tagged, Awake, RealReplies, Handshake, Returned, Owed;
    if s.pc[t].ReplyAsleep? && s.pc[t].reply == s.pc[u].id && signal.Wake? {
      assert s.pc[t].Sending(s.pc[t].reply) && PcOf(s, signal.t).Sending(s.pc[t].reply);
    }
  }

  /** Each message sent is exactly one of received, queued and removed. */
  lemma OnePlace(s: State, m: Msg)
    requires Fifo(s) && Tagged(s) && m in s.sent
    ensures m.tag in s.removed <==> m !in s.received && m !in s.list
    ensures !(m in s.received && m in s.list)
  {
    WithoutIn(s.sent, s.removed);
    ReverseIn(s.list);
    assert m in Without(s.sent, s.removed) <==> m in s.received + Reverse(s.list);
    if m in s.received && m in s.list { TagsApart(s, m, m); }
  }

  lemma {:induction false} WithoutIn(s: seq<Msg>, x: set<nat>)
    ensures forall m :: m in Without(s, x) <==> m in s && m.tag !in x
  {
    if s != [] {
      WithoutIn(s[..|s| - 1], x);
      assert s == s[..|s| - 1] + [s[|s| - 1]];
    }
  }

  /** The state after a remover has scanned the list and answered. */
  function Removed(s: State, u: Tid, signal: Signal): State
    requires Enabled(s, RemoveScan(u)) && Enabled(Next(s, RemoveScan(u)), RemoveDone(u, signal))
  {
    Next(Next(s, RemoveScan(u)), RemoveDone(u, signal))
  }

  /** A waiting sender has its answer: it is awake and its status is set. */
  ghost predicate Released(s: State, t: Tid) {
    && t in s.pc && s.pc[t].Check? && s.ReplyId(s.pc[t].reply)
    && s.status[s.pc[t].reply] != WOULD_BLOCK
  }

  /** A waiting sender has its answer if and only if a reply came since its enqueue. */
  lemma ReleasedByReply(s: State, t: Tid)
    requires Inv(s) && t in s.pc && s.pc[t].Waiting()
    ensures s.ReplyId(s.pc[t].reply) && s.pc[t].tag < |s.sent|
    ensures s.posts[s.pc[t].reply] != [] ==> Released(s, t)
    ensures s.posts[s.pc[t].reply] == [] ==> !Released(s, t) && s.status[s.pc[t].reply] == WOULD_BLOCK
  {
    hide Fifo, Tagged, Awake, OneSender, Returned, Owed;
    assert Placed(s, t, s.pc[t]) && Answered(s, s.pc[t]);
  }

  /** When remove takes out the message of a waiting sender, asleep or not yet, the sender has its
      answer afterwards if and only if it sent the message under its reply id or had been answered
      before. */
  lemma ReleasedExactly(s: State, t: Tid, u: Tid, signal: Signal)
    requires Inv(s) && t in s.pc && s.pc[t].Waiting() && Enabled(s, RemoveScan(u))
    requires Enabled(Next(s, RemoveScan(u)), RemoveDone(u, signal))
    requires exists m :: m in s.list && m.tag == s.pc[t].tag && m.id == s.pc[u].id
    ensures s.ReplyId(s.pc[t].reply) && s.pc[t].tag < |s.sent|
    ensures Released(Removed(s, u, signal), t)
            <==> s.sent[s.pc[t].tag].id == s.pc[t].reply || s.posts[s.pc[t].reply] != []
  {
    var m :| m in s.list && m.tag == s.pc[t].tag && m.id == s.pc[u].id;
    var s1 := Next(s, RemoveScan(u));
    QueuedOnce(s, m);
    InvStep(s, RemoveScan(u));
    assert s1.pc[t] == s.pc[t] && s1.pc[u].id == s.pc[u].id && s1.status == s.status && s1.posts == s.posts;
    hide Inv, Enabled, Next;
    ReleasedByReply(s, t);
    RemoveWakes(s1, t, u, signal);
    SameStatuses(s1, RemoveDone(u, signal));
  }

  /** The reply ids never change. */
  lemma SameStatuses(s: State, a: Action)
    requires Enabled(s, a)
    ensures forall r :: s.ReplyId(r) ==> Next(s, a).ReplyId(r)
  {}

  /** remove answers whoever waits under its id, whether or not it took a message out. Over its scan
      and answer, INVALID_OPERATION tells a sender that its message was removed, now or by an
      earlier remove, if and only if no receiver had taken the message before the scan. */
  lemma InvalidMeansRemoved(s: State, t: Tid, u: Tid, signal: Signal)
    requires Inv(s) && t in s.pc && s.pc[t].Waiting() && Enabled(s, RemoveScan(u))
    requires Enabled(Next(s, RemoveScan(u)), RemoveDone(u, signal))
    requires s.pc[u].id == s.pc[t].reply && s.pc[t].tag < |s.sent| && s.sent[s.pc[t].tag].id == s.pc[t].reply
    ensures var s' := Removed(s, u, signal);
            && s'.pc[t].Check? && s'.status[s.pc[t].reply] == INVALID_OPERATION
            && (s.pc[t].tag in s'.removed <==> s.sent[s.pc[t].tag] !in s.received)
  {
    var m := s.sent[s.pc[t].tag];
    var s1 := Next(s, RemoveScan(u));
    OnePlace(s, m);
    if m.tag in Tags(s.list, s.pc[u].id) {
      var q :| q in s.list && q.tag == m.tag && q.id == s.pc[u].id;
      QueuedOnce(s, q);
    }
    assert m.tag in s1.removed <==> m !in s.received;
    InvStep(s, RemoveScan(u));
    assert s1.pc[t] == s.pc[t] && s1.pc[u].id == s.pc[u].id;
    assert Removed(s, u, signal).removed == s1.removed;
    hide *;
    RemoveWakes(s1, t, u, signal);
  }

  /** At any time: a remover's answer names the truth if and only if the sender's message is neither
      received nor (sent after the scan) still queued. */
  lemma AnswerTrue(s: State, t: Tid, u: Tid, signal: Signal)
    requires Inv(s) && t in s.pc && s.pc[t].Waiting() && Enabled(s, RemoveDone(u, signal))
    requires s.pc[u].id == s.pc[t].reply
    ensures s.pc[t].tag < |s.sent|
    ensures var s' := Next(s, RemoveDone(u, signal)); var m := s.sent[s.pc[t].tag];
            && s'.pc[t].Check? && s'.status[s.pc[t].reply] == INVALID_OPERATION
            && (m.tag in s'.removed <==> m !in s.received && m !in s.list)
  {
    assert Placed(s, t, s.pc[t]);
    OnePlace(s, s.sent[s.pc[t].tag]);
    assert Next(s, RemoveDone(u, signal)).removed == s.removed;
    hide *;
    RemoveWakes(s, t, u, signal);
  }

  ghost predicate Stranded(s: State) {
    && 0 in s.pc && s.pc[0] == ReplyAsleep(0, 0) && 0 in s.removed
    && s.ReplyId(0) && s.posts[0] == [] && !AboutToRelease(s, 0)
  }

  ghost predicate Leads(s: State, acts: seq<Action>, s': State) {
    Legal(s, acts) && After(s, acts) == s'
  }

  lemma LeadsNone(s: State)
    ensures Leads(s, [], s)
  {}

  lemma LeadsCons(s: State, a: Action, s': State, acts: seq<Action>, end: State)
    requires Enabled(s, a) && Next(s, a) == s' && Leads(s', acts, end)
    ensures Leads(s, [a] + acts, end)
  {
    hide Enabled, Next;
    assert ([a] + acts)[1..] == acts;
  }

  const NEW_QUEUE := State([], Free, [0, 0], map[], [], [], {}, [[], []], [])

  /** Thread 0 sends a message with id 1, asks for a reply under id 0, and falls asleep. */
  lemma MismatchedSend() returns (s: State)
    ensures s == State([Msg(1, 0)], Free, [WOULD_BLOCK, 0], map[0 := ReplyAsleep(0, 0)],
                       [Msg(1, 0)], [], {}, [[], []], [])
    ensures Leads(NEW_QUEUE, [SendPush(0, 1, 0)] + ([SendSignal(0, Nobody)] + ([Test(0)] + [])), s)
  {
    hide Leads;
    var s1 := Next(NEW_QUEUE, SendPush(0, 1, 0));
    var s2 := Next(s1, SendSignal(0, Nobody));
    s := Next(s2, Test(0));
    LeadsNone(s);
    LeadsCons(s2, Test(0), s, [], s);
    LeadsCons(s1, SendSignal(0, Nobody), s2, [Test(0)] + [], s);
    LeadsCons(NEW_QUEUE, SendPush(0, 1, 0), s1, [SendSignal(0, Nobody)] + ([Test(0)] + []), s);
  }

  /** Thread 1 then removes every message with id 1. */
  lemma MismatchedRemove(s: State) returns (s': State)
    requires s == State([Msg(1, 0)], Free, [WOULD_BLOCK, 0], map[0 := ReplyAsleep(0, 0)],
                        [Msg(1, 0)], [], {}, [[], []], [])
    ensures Leads(s, [RemoveTest(1, 1)] + ([RemoveScan(1)] + ([RemoveDone(1, Nobody)] + [])), s')
    ensures Stranded(s')
  {
    hide Leads;
    var s1 := Next(s, RemoveTest(1, 1));
    assert s1.list == [Msg(1, 0)] && s.list[0] in s1.list;
    var s2 := Next(s1, RemoveScan(1));
    s' := Next(s2, RemoveDone(1, Nobody));
    LeadsNone(s');
    LeadsCons(s2, RemoveDone(1, Nobody), s', [], s');
    LeadsCons(s1, RemoveScan(1), s2, [RemoveDone(1, Nobody)] + [], s');
    LeadsCons(s, RemoveTest(1, 1), s1, [RemoveScan(1)] + ([RemoveDone(1, Nobody)] + []), s');
  }

  lemma {:induction false} LeadsOn(s: State, a: seq<Action>, s': State, b: seq<Action>, end: State)
    requires Leads(s, a, s') && Leads(s', b, end)
    ensures Leads(s, a + b, end)
    decreases a
  {
    hide Enabled, Next;
    if a == [] {
      assert a + b == b;
    } else {
      LeadsOn(Next(s, a[0]), a[1..], s', b, end);
      assert (a + b)[1..] == a[1..] + b;
    }
  }

  /** A message sent under another id than its reply id is not covered: remove takes it out and
      its sender sleeps on, with nobody about to answer. */
  lemma MismatchedIdSleeps()
    ensures exists s0, acts, s :: Init(s0) && Leads(s0, acts, s) && Stranded(s)
  {
    assert Init(NEW_QUEUE);
    hide *;
    var s := MismatchedSend();
    var s' := MismatchedRemove(s);
    LeadsOn(NEW_QUEUE, [SendPush(0, 1, 0)] + ([SendSignal(0, Nobody)] + ([Test(0)] + [])), s,
            [RemoveTest(1, 1)] + ([RemoveScan(1)] + ([RemoveDone(1, Nobody)] + [])), s');
  }

  /** A send returned INVALID_OPERATION although its message was received and nothing removed. */
  ghost predicate Misled(s: State) {
    && s.removed == {} && Msg(0, 0) in s.received
    && s.done == [Done(0, INVALID_OPERATION, [INVALID_OPERATION])]
  }

  /** Thread 0 sends a message under its reply id 0 and falls asleep; thread 1 receives it. */
  lemma SendAndReceive() returns (s: State, acts: seq<Action>)
    ensures s == State([], Free, [WOULD_BLOCK, 0], map[0 := ReplyAsleep(0, 0), 1 := Idle],
                       [Msg(0, 0)], [Msg(0, 0)], {}, [[], []], [])
    ensures Leads(NEW_QUEUE, acts, s)
  {
    hide Leads;
    var s1 := Next(NEW_QUEUE, SendPush(0, 0, 0));
    var s2 := Next(s1, SendSignal(0, Nobody));
    var s3 := Next(s2, Test(0));
    s := Next(s3, Receive(1));
    LeadsNone(s);
    LeadsCons(s3, Receive(1), s, [], s);
    LeadsCons(s2, Test(0), s3, [Receive(1)] + [], s);
    LeadsCons(s1, SendSignal(0, Nobody), s2, [Test(0)] + ([Receive(1)] + []), s);
    acts := [SendPush(0, 0, 0)] + ([SendSignal(0, Nobody)] + ([Test(0)] + ([Receive(1)] + [])));
    LeadsCons(NEW_QUEUE, SendPush(0, 0, 0), s1, [SendSignal(0, Nobody)] + ([Test(0)] + ([Receive(1)] + [])), s);
  }

  /** Thread 1 sends another message, so that the queue is not empty, and removes id 0. */
  lemma IdleRemove(s: State) returns (s': State, acts: seq<Action>)
    requires s == State([], Free, [WOULD_BLOCK, 0], map[0 := ReplyAsleep(0, 0), 1 := Idle],
                        [Msg(0, 0)], [Msg(0, 0)], {}, [[], []], [])
    ensures s' == State([Msg(1, 1)], Free, [WOULD_BLOCK, 0], map[0 := ReplyAsleep(0, 0), 1 := RemoveReply(0)],
                        [Msg(0, 0), Msg(1, 1)], [Msg(0, 0)], {}, [[], []], [])
    ensures Leads(s, acts, s')
  {
    hide Leads;
    var s1 := Next(s, SendPush(1, 1, NO_REPLY));
    assert s1.list == [Msg(1, 1)] && s1.sent == [Msg(0, 0), Msg(1, 1)];
    var s2 := Next(s1, SendSignal(1, Nobody));
    var s3 := Next(s2, RemoveTest(1, 0));
    s' := Next(s3, RemoveScan(1));
    assert Keep([Msg(1, 1)], 0) == [Msg(1, 1)];
    assert Tags([Msg(1, 1)], 0) == {};
    LeadsNone(s');
    LeadsCons(s3, RemoveScan(1), s', [], s');
    LeadsCons(s2, RemoveTest(1, 0), s3, [RemoveScan(1)] + [], s');
    LeadsCons(s1, SendSignal(1, Nobody), s2, [RemoveTest(1, 0)] + ([RemoveScan(1)] + []), s');
    acts := [SendPush(1, 1, NO_REPLY)] + ([SendSignal(1, Nobody)] + ([RemoveTest(1, 0)] + ([RemoveScan(1)] + [])));
    LeadsCons(s, SendPush(1, 1, NO_REPLY), s1, [SendSignal(1, Nobody)] + ([RemoveTest(1, 0)] + ([RemoveScan(1)] + [])), s');
  }

  /** The remover answers and the sender returns. */
  lemma IdleAnswer(s: State) returns (s': State, acts: seq<Action>)
    requires s == State([Msg(1, 1)], Free, [WOULD_BLOCK, 0], map[0 := ReplyAsleep(0, 0), 1 := RemoveReply(0)],
                        [Msg(0, 0), Msg(1, 1)], [Msg(0, 0)], {}, [[], []], [])
    ensures Leads(s, acts, s') && Misled(s')
  {
    hide Leads;
    var s1 := Next(s, RemoveDone(1, Wake(0)));
    assert s1.posts[0] == [INVALID_OPERATION] && s1.pc[0] == Check(0, 0);
    s' := Next(s1, Test(0));
    assert s'.received[0] == Msg(0, 0);
    LeadsNone(s');
    LeadsCons(s1, Test(0), s', [], s');
    acts := [RemoveDone(1, Wake(0))] + ([Test(0)] + []);
    LeadsCons(s, RemoveDone(1, Wake(0)), s1, [Test(0)] + [], s');
  }

  /** The status can mislead: a run in which send reports INVALID_OPERATION for a message that was
      received. */
  lemma MisledSender()
    ensures exists s0, acts, s :: Init(s0) && Leads(s0, acts, s) && Misled(s)
  {
    assert Init(NEW_QUEUE);
    hide *;
    var s1, a1 := SendAndReceive();
    var s2, a2 := IdleRemove(s1);
    var s3, a3 := IdleAnswer(s2);
    LeadsOn(NEW_QUEUE, a1, s1, a2, s2);
    LeadsOn(NEW_QUEUE, a1 + a2, s2, a3, s3);
  }
}
