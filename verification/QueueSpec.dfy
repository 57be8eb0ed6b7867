/** What a run of the message queue does, read off its actions alone: which messages are queued and
    received, which calls have not returned, and what each synchronous send returns. */
module QueueSpec {
  import opened Basics
  import opened QueueProtocol

  /** A call that a thread has made and that has not returned. */
  datatype Call =
    | NoCall
    | Sending(reply: int)     // send holds the queue mutex
    | Awaiting(reply: int)    // send waits for a reply
    | Receiving               // receive found nothing
    | Removing(id: int)       // remove found something and will scan
    | Answering(id: int)      // remove has scanned and will reply

  function Before(acts: seq<Action>): seq<Action>
    requires acts != []
  {
    acts[..|acts| - 1]
  }

  function Pushes(acts: seq<Action>): nat {
    if acts == [] then 0
    else Pushes(Before(acts)) + if acts[|acts| - 1].SendPush? then 1 else 0
  }

  /** Messages with another id, in order. */
  function Others(q: seq<Msg>, id: int): seq<Msg> {
    if q == [] then []
    else Others(q[..|q| - 1], id) + if q[|q| - 1].id == id then [] else [q[|q| - 1]]
  }

  /** The queue, oldest message first, after `acts` and one more action. n is the number of reply ids. */
  function QueuedAfter(n: nat, acts: seq<Action>, a: Action): seq<Msg>
    decreases |acts| + 1, 0
  {
    var q := Queued(n, acts);
    match a
    case SendPush(t, id, r) => q + [Msg(id, Pushes(acts))]
    case Receive(t) => if q == [] then q else q[1..]
    case RemoveScan(t) =>
      (match CallOf(n, acts, t)
       case Removing(id) => Others(q, id)
       case _ => q)
    case _ => q
  }

  function Queued(n: nat, acts: seq<Action>): seq<Msg>
    decreases |acts|, 1
  {
    if acts == [] then [] else QueuedAfter(n, Before(acts), acts[|acts| - 1])
  }

  /** Messages received, in order: always the oldest one queued. */
  function Got(n: nat, acts: seq<Action>): seq<Msg>
    decreases |acts|, 1
  {
    if acts == [] then []
    else
      var q := Queued(n, Before(acts));
      Got(n, Before(acts)) + if acts[|acts| - 1].Receive? && q != [] then [q[0]] else []
  }

  /** The latest status given under reply id r: by reply with its argument, by a remover that answers
      under r, or reset by a send that begins to wait. */
  function LastReplyAfter(n: nat, acts: seq<Action>, a: Action, r: int): Option<int>
    decreases |acts| + 1, 0
  {
    match a
    case Reply(t, r', st, signal) => if r' == r then Some(st) else LastReply(n, acts, r)
    case RemoveDone(t, signal) =>
      if CallOf(n, acts, t) == Answering(r) then Some(INVALID_OPERATION) else LastReply(n, acts, r)
    case SendSignal(t, signal) =>
      if r != NO_REPLY && CallOf(n, acts, t) == Sending(r) then Some(WOULD_BLOCK) else LastReply(n, acts, r)
    case _ => LastReply(n, acts, r)
  }

  function LastReply(n: nat, acts: seq<Action>, r: int): Option<int>
    decreases |acts|, 1
  {
    if acts == [] then None else LastReplyAfter(n, Before(acts), acts[|acts| - 1], r)
  }

  /** The call of thread t after its own action. */
  function CallAfter(n: nat, acts: seq<Action>, a: Action): Call
    decreases |acts| + 1, 0
  {
    var c := CallOf(n, acts, a.t);
    match a
    case SendPush(t, id, r) => Sending(r)
    case SendSignal(t, signal) =>
      if !c.Sending? then c else if c.reply == NO_REPLY then NoCall else Awaiting(c.reply)
    case Test(t) =>
      if c.Awaiting? && LastReply(n, acts, c.reply) != Some(WOULD_BLOCK) then NoCall else c
    case Receive(t) => if Queued(n, acts) == [] then Receiving else NoCall
    case RemoveTest(t, id) => if Queued(n, acts) == [] then NoCall else Removing(id)
    case RemoveScan(t) => if c.Removing? && n > 0 then Answering(c.id) else NoCall
    case RemoveDone(t, signal) => NoCall
    case _ => c
  }

  function CallOf(n: nat, acts: seq<Action>, t: Tid): Call
    decreases |acts|, 1
  {
    if acts == [] then NoCall
    else if acts[|acts| - 1].t == t then CallAfter(n, Before(acts), acts[|acts| - 1])
    else CallOf(n, Before(acts), t)
  }

  /** What the synchronous sends returned, in the order of returning. */
  function AnswersAfter(n: nat, acts: seq<Action>, a: Action): seq<int>
    decreases |acts| + 1, 0
  {
    var before := Answers(n, acts);
    if !a.Test? then before
    else
      match CallOf(n, acts, a.t)
      case Awaiting(r) =>
        (match LastReply(n, acts, r)
         case Some(v) => if v == WOULD_BLOCK then before else before + [v]
         case None => before)
      case _ => before
  }

  function Answers(n: nat, acts: seq<Action>): seq<int>
    decreases |acts|, 1
  {
    if acts == [] then [] else AnswersAfter(n, Before(acts), acts[|acts| - 1])
  }

  lemma Snoc(n: nat, acts: seq<Action>, a: Action)
    ensures Queued(n, acts + [a]) == QueuedAfter(n, acts, a)
    ensures Got(n, acts + [a]) == Got(n, acts) + if a.Receive? && Queued(n, acts) != [] then [Queued(n, acts)[0]] else []
    ensures Pushes(acts + [a]) == Pushes(acts) + if a.SendPush? then 1 else 0
    ensures Answers(n, acts + [a]) == AnswersAfter(n, acts, a)
  {
    assert Before(acts + [a]) == acts;
    hide QueuedAfter, AnswersAfter;
  }

  lemma SnocCall(n: nat, acts: seq<Action>, a: Action, t: Tid)
    ensures CallOf(n, acts + [a], t) == if a.t == t then CallAfter(n, acts, a) else CallOf(n, acts, t)
  {
    assert Before(acts + [a]) == acts;
    hide CallAfter;
  }

  lemma SnocReply(n: nat, acts: seq<Action>, a: Action, r: int)
    ensures LastReply(n, acts + [a], r) == LastReplyAfter(n, acts, a, r)
  {
    assert Before(acts + [a]) == acts;
    hide LastReplyAfter;
  }

  // ----- the protocol does what the actions say

  /** Where the thread of such a call may stand. */
  predicate Stands(p: Pc, c: Call) {
    match c
    case NoCall => p.Idle?
    case Sending(r) => p.Pushed? && p.reply == r
    case Awaiting(r) => p.Waiting() && p.reply == r
    case Receiving => p.RecvAsleep? || p.RecvWoken?
    case Removing(id) => p == Scan(id)
    case Answering(id) => p == RemoveReply(id)
  }

  function Or(o: Option<int>, d: int): int {
    match o case None => d case Some(v) => v
  }

  function Statuses(done: seq<Done>): seq<int> {
    if done == [] then [] else Statuses(done[..|done| - 1]) + [done[|done| - 1].status]
  }

  ghost predicate Messages(s: State, n: nat, acts: seq<Action>) {
    Reverse(s.list) == Queued(n, acts) && s.received == Got(n, acts) && |s.sent| == Pushes(acts)
  }

  ghost predicate Calls(s: State, n: nat, acts: seq<Action>) {
    forall t: Tid :: Stands(PcOf(s, t), CallOf(n, acts, t))
  }

  ghost predicate Replies(s: State, s0: State, acts: seq<Action>) {
    && |s.status| == |s0.status| == |s.posts|
    && (forall r | 0 <= r < |s0.status| :: s.status[r] == Or(LastReply(|s0.status|, acts, r), s0.status[r]))
    && (forall t: Tid :: Awaited(|s0.status|, acts, CallOf(|s0.status|, acts, t)))
  }

  /** A send that waits has reset the status of its reply id. */
  ghost predicate Awaited(n: nat, acts: seq<Action>, c: Call) {
    (c.Sending? ==> c.reply == NO_REPLY || 0 <= c.reply < n)
    && (c.Awaiting? ==> 0 <= c.reply < n && LastReply(n, acts, c.reply).Some?)
  }

  ghost predicate Agrees(s: State, s0: State, acts: seq<Action>) {
    var n := |s0.status|;
    && Messages(s, n, acts) && Calls(s, n, acts) && Replies(s, s0, acts)
    && Statuses(s.done) == Answers(n, acts)
  }

  lemma {:induction false} KeepIsOthers(list: seq<Msg>, id: int)
    ensures Reverse(Keep(list, id)) == Others(Reverse(list), id)
  {
    if list != [] {
      var m, r := list[0], Reverse(list[1..]);
      KeepIsOthers(list[1..], id);
      assert Reverse(list) == r + [m] && (r + [m])[..|r|] == r;
      if m.id != id { assert ([m] + Keep(list[1..], id))[1..] == Keep(list[1..], id); }
    }
  }

  lemma ReverseFirst(list: seq<Msg>)
    requires list != []
    ensures var n := |list| - 1; Reverse(list) == [list[n]] + Reverse(list[..n])
  {
    var n := |list| - 1;
    assert list == list[..n] + [list[n]];
    ReverseLast(list[..n], list[n]);
  }

  lemma MessagesStep(s: State, n: nat, acts: seq<Action>, a: Action)
    requires Messages(s, n, acts) && Calls(s, n, acts) && Enabled(s, a)
    ensures Messages(Next(s, a), n, acts + [a])
  {
    hide Queued, Got, Pushes, CallOf, LastReply, Keep, Reverse, Tags, SignalsReceiver, SignalsSender;
    Snoc(n, acts, a);
    ReverseIn(s.list);
    assert Stands(PcOf(s, a.t), CallOf(n, acts, a.t));
    match a
    case SendPush(t, id, r) => PushLast(s.list, Msg(id, |s.sent|));
    case Receive(t) => if s.list != [] { ReverseFirst(s.list); }
    case RemoveScan(t) => KeepIsOthers(s.list, PcOf(s, t).id);
    case _ =>
  }

  lemma PushLast(list: seq<Msg>, m: Msg)
    ensures Reverse([m] + list) == Reverse(list) + [m]
  {
    assert ([m] + list)[1..] == list;
  }

  /** The thread that acts stands where its call says. */
  lemma OwnCall(s: State, s0: State, acts: seq<Action>, a: Action)
    requires Messages(s, |s0.status|, acts) && Calls(s, |s0.status|, acts) && Replies(s, s0, acts) && Enabled(s, a)
    ensures Stands(PcOf(Next(s, a), a.t), CallAfter(|s0.status|, acts, a))
  {
    var n := |s0.status|;
    ReverseIn(s.list);
    assert Stands(PcOf(s, a.t), CallOf(n, acts, a.t)) && Awaited(n, acts, CallOf(n, acts, a.t));
    hide Queued, Got, Pushes, LastReply, CallOf, Keep, Reverse, Tags;
  }

  /** Another thread is woken at most. */
  lemma OtherCall(s: State, a: Action, t: Tid, c: Call)
    requires Enabled(s, a) && t != a.t && Stands(PcOf(s, t), c)
    ensures Stands(PcOf(Next(s, a), t), c)
  {
    hide Keep, Tags;
  }

  lemma CallsStep(s: State, s0: State, acts: seq<Action>, a: Action)
    requires Messages(s, |s0.status|, acts) && Calls(s, |s0.status|, acts) && Replies(s, s0, acts) && Enabled(s, a)
    ensures Calls(Next(s, a), |s0.status|, acts + [a])
  {
    hide Messages, Replies, Enabled, Next, Stands, PcOf, CallAfter;
    var n, s' := |s0.status|, Next(s, a);
    forall t: Tid ensures Stands(PcOf(s', t), CallOf(n, acts + [a], t)) {
      SnocCall(n, acts, a, t);
      if t == a.t { OwnCall(s, s0, acts, a); } else { OtherCall(s, a, t, CallOf(n, acts, t)); }
    }
  }

  /** Nobody spins: a test that finds no status, and a receive that finds no message, put the thread to
      sleep. */
  lemma FallsAsleep(s: State, t: Tid)
    ensures Enabled(s, Test(t)) ==>
              (PcOf(Next(s, Test(t)), t).ReplyAsleep? <==> s.status[PcOf(s, t).reply] == WOULD_BLOCK)
    ensures Enabled(s, Receive(t)) ==> (PcOf(Next(s, Receive(t)), t).RecvAsleep? <==> s.list == [])
  {}

  lemma StatusStep(s: State, s0: State, acts: seq<Action>, a: Action, r: int)
    requires Calls(s, |s0.status|, acts) && Replies(s, s0, acts) && Enabled(s, a) && 0 <= r < |s0.status|
    ensures |Next(s, a).status| == |Next(s, a).posts| == |s0.status|
    ensures Next(s, a).status[r] == Or(LastReply(|s0.status|, acts + [a], r), s0.status[r])
  {
    var n := |s0.status|;
    SnocReply(n, acts, a, r);
    assert Stands(PcOf(s, a.t), CallOf(n, acts, a.t));
    hide LastReply, CallOf, Keep, Tags, SignalsReceiver;
  }

  lemma AwaitedStep(s: State, s0: State, acts: seq<Action>, a: Action, t: Tid)
    requires Calls(s, |s0.status|, acts) && Replies(s, s0, acts) && Enabled(s, a)
    ensures Awaited(|s0.status|, acts + [a], CallOf(|s0.status|, acts + [a], t))
  {
    var n := |s0.status|;
    SnocCall(n, acts, a, t);
    assert Awaited(n, acts, CallOf(n, acts, t)) && Stands(PcOf(s, t), CallOf(n, acts, t));
    hide LastReply, CallOf, Keep, Tags, SignalsReceiver, SignalsSender, Queued;
    var c := CallOf(n, acts + [a], t);
    if c.Awaiting? { SnocReply(n, acts, a, c.reply); }
  }

  lemma RepliesStep(s: State, s0: State, acts: seq<Action>, a: Action)
    requires Calls(s, |s0.status|, acts) && Replies(s, s0, acts) && Enabled(s, a)
    ensures Replies(Next(s, a), s0, acts + [a])
  {
    var n := |s0.status|;
    assert |Next(s, a).status| == |Next(s, a).posts| == n by { SameLengths(s, a); }
    hide LastReply, CallOf, Next, Enabled, Awaited;
    forall r | 0 <= r < n ensures Next(s, a).status[r] == Or(LastReply(n, acts + [a], r), s0.status[r]) {
      StatusStep(s, s0, acts, a, r);
    }
    forall t: Tid ensures Awaited(n, acts + [a], CallOf(n, acts + [a], t)) {
      AwaitedStep(s, s0, acts, a, t);
    }
  }

  lemma SameLengths(s: State, a: Action)
    requires Enabled(s, a)
    ensures |Next(s, a).status| == |s.status| && |Next(s, a).posts| == |s.posts|
  {}

  lemma AnswersStep(s: State, s0: State, acts: seq<Action>, a: Action)
    requires Agrees(s, s0, acts) && Enabled(s, a)
    ensures Statuses(Next(s, a).done) == Answers(|s0.status|, acts + [a])
  {
    var n := |s0.status|;
    Snoc(n, acts, a);
    assert Stands(PcOf(s, a.t), CallOf(n, acts, a.t)) && Awaited(n, acts, CallOf(n, acts, a.t));
    hide LastReply, CallOf, Keep, Tags, SignalsReceiver, SignalsSender, Queued, Answers, Messages, Reverse;
    if a.Test? {
      var r := PcOf(s, a.t).reply;
      assert s.status[r] == Or(LastReply(n, acts, r), s0.status[r]);
      assert forall d :: (s.done + [d])[..|s.done|] == s.done;
    }
  }

  lemma AgreesStep(s: State, s0: State, acts: seq<Action>, a: Action)
    requires Agrees(s, s0, acts) && Enabled(s, a)
    ensures Agrees(Next(s, a), s0, acts + [a])
  {
    hide Messages, Calls, Replies, Statuses, Answers, Next, Enabled;
    MessagesStep(s, |s0.status|, acts, a);
    CallsStep(s, s0, acts, a);
    RepliesStep(s, s0, acts, a);
    AnswersStep(s, s0, acts, a);
  }

  lemma {:induction false} LegalFront(s: State, acts: seq<Action>)
    requires Legal(s, acts) && acts != []
    ensures Legal(s, Before(acts)) && Enabled(After(s, Before(acts)), acts[|acts| - 1])
    ensures After(s, acts) == Next(After(s, Before(acts)), acts[|acts| - 1])
    decreases |acts|
  {
    hide Enabled, Next;
    if |acts| > 1 {
      LegalFront(Next(s, acts[0]), acts[1..]);
      assert Before(acts)[1..] == Before(acts[1..]) && Before(acts)[0] == acts[0];
    } else {
      assert Before(acts) == [] && acts[1..] == [];
    }
  }

  lemma AgreesInit(s0: State)
    requires Init(s0)
    ensures After(s0, []) == s0 && Agrees(s0, s0, [])
  {
    assert Reverse([]) == [] && Statuses([]) == [];
  }

  /** Over every run the queue, the messages received, the calls that have not returned, the status
      words and the results of the synchronous sends are what the actions alone say. */
  lemma {:induction false} RunsAsSpecified(s0: State, acts: seq<Action>)
    requires Init(s0) && Legal(s0, acts)
    ensures Agrees(After(s0, acts), s0, acts)
    decreases |acts|
  {
    if acts == [] {
      AgreesInit(s0);
    } else {
      assert acts == Before(acts) + [acts[|acts| - 1]];
      hide *;
      LegalFront(s0, acts);
      RunsAsSpecified(s0, Before(acts));
      AgreesStep(After(s0, Before(acts)), s0, Before(acts), acts[|acts| - 1]);
    }
  }

  /** The status word of a reply id is the status last given to reply under it, or the answer of a
      remover, or WOULD_BLOCK from a send that began to wait since; and the synchronous sends
      returned exactly such values. */
  lemma StatusIsLastReply(s0: State, acts: seq<Action>, r: int)
    requires Init(s0) && Legal(s0, acts) && 0 <= r < |s0.status|
    ensures var s := After(s0, acts); var n := |s0.status|;
            && |s.status| == n && s.status[r] == Or(LastReply(n, acts, r), s0.status[r])
            && Statuses(s.done) == Answers(n, acts)
  {
    RunsAsSpecified(s0, acts);
  }

  // ----- remove on an empty queue

  /** A remove begun on an empty queue returns at once: it writes no status and moves no thread. */
  lemma EmptyRemove(s: State, t: Tid, id: int)
    requires Enabled(s, RemoveTest(t, id))
    ensures var s' := Next(s, RemoveTest(t, id));
            && s'.status == s.status && s'.list == s.list
            && (s'.pc == s.pc <==> s.list == [])
            && (s.list != [] ==> PcOf(s', t) == Scan(id) && forall u | u != t :: PcOf(s', u) == PcOf(s, u))
  {
    if s.list != [] {
      assert PcOf(Next(s, RemoveTest(t, id)), t) == Scan(id);
    }
  }

  /** A remover that scans or answers began when the queue was not empty. */
  lemma {:induction false} BegunOnSomething(n: nat, acts: seq<Action>, u: Tid) returns (i: nat)
    requires CallOf(n, acts, u).Removing? || CallOf(n, acts, u).Answering?
    ensures i < |acts| && acts[i] == RemoveTest(u, CallOf(n, acts, u).id) && Queued(n, acts[..i]) != []
    decreases |acts|
  {
    hide Queued, LastReply;
    var a, before := acts[|acts| - 1], Before(acts);
    if a.t == u && a.RemoveTest? {
      i := |acts| - 1;
    } else {
      i := BegunOnSomething(n, before, u);
      assert acts[..i] == before[..i];
    }
  }

  /** Every answer of a remover in a run goes back to such a beginning by the same thread. */
  lemma AnswersBegun(s0: State, acts: seq<Action>, u: Tid, signal: Signal) returns (i: nat)
    requires Init(s0) && Legal(s0, acts + [RemoveDone(u, signal)])
    ensures i < |acts| && acts[i].RemoveTest? && acts[i].t == u && Queued(|s0.status|, acts[..i]) != []
  {
    var all := acts + [RemoveDone(u, signal)];
    LegalFront(s0, all);
    assert Before(all) == acts;
    RunsAsSpecified(s0, acts);
    var s, n := After(s0, acts), |s0.status|;
    assert Stands(PcOf(s, u), CallOf(n, acts, u)) && PcOf(s, u).RemoveReply?;
    hide *;
    i := BegunOnSomething(n, acts, u);
  }
}
