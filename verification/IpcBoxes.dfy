/**
 What a receiver was handed (kernel/ipc/ep.c).  Every delivery is listed, oldest first, with
 the call and the thread that got its request; what a thread has in its inbox is the request
 last delivered to it.
 */
module IpcBoxes {
  import opened IpcJobs
  import opened IpcState
  import opened Sequences

  type Deliveries = seq<(nat, Tid)>

  /** The call whose request was delivered to t last. */
  function LastTo(d: Deliveries, t: Tid): Option<nat> {
    if d == [] then None
    else if d[|d| - 1].1 == t then Some(d[|d| - 1].0) else LastTo(d[..|d| - 1], t)
  }

  /** A thread holds the request delivered to it last, and the sender it names is the caller. */
  ghost predicate BoxOk(th: Thread, calls: seq<CallRec>, d: Deliveries, t: Tid) {
    match LastTo(d, t)
    case None => th.sender.None?
    case Some(s) => && s < |calls| && th.inbox == calls[s].msg
                    && (th.sender.Some? ==> th.sender.value == calls[s].caller)
  }

  /** Call s was delivered to t. */
  predicate WentTo(calls: seq<CallRec>, s: nat, t: Tid) {
    s < |calls| && TakenBy(calls[s].stage) == Some(t)
  }

  /** The list has exactly the requests that were taken, by whom they were, and the inboxes agree with it. */
  ghost predicate Boxes(threads: Threads, calls: seq<CallRec>, d: Deliveries) {
    && (forall s: nat, t: Tid :: (s, t) in d <==> WentTo(calls, s, t))
    && (forall t :: t in threads ==> BoxOk(threads[t], calls, d, t))
  }

  /** A request taken by t, which got nothing since, is in the inbox of t. */
  lemma InboxIs(threads: Threads, calls: seq<CallRec>, d: Deliveries, i: nat)
    requires Boxes(threads, calls, d) && i < |d| && d[i].1 in threads
    requires forall j :: i < j < |d| ==> d[j].1 != d[i].1
    ensures d[i].0 < |calls| && TakenBy(calls[d[i].0].stage) == Some(d[i].1)
    ensures threads[d[i].1].inbox == calls[d[i].0].msg
    ensures threads[d[i].1].sender.Some? ==> threads[d[i].1].sender.value == calls[d[i].0].caller
  {
    LastIs(d, i);
    assert (d[i].0, d[i].1) in d && WentTo(calls, d[i].0, d[i].1);
    assert BoxOk(threads[d[i].1], calls, d, d[i].1);
  }

  lemma {:induction false} LastIs(d: Deliveries, i: nat)
    requires i < |d| && forall j :: i < j < |d| ==> d[j].1 != d[i].1
    ensures LastTo(d, d[i].1) == Some(d[i].0)
    decreases |d|
  {
    if i < |d| - 1 { LastIs(d[..|d| - 1], i); }
  }

  // ------------------------------------------------------------ what keeps it

  predicate KeepsBox(a: Thread, b: Thread) {
    b.inbox == a.inbox && (b.sender == a.sender || b.sender.None?)
  }

  ghost predicate SameBoxes(threads: Threads, threads': Threads) {
    forall t :: t in threads' ==> t in threads && KeepsBox(threads[t], threads'[t])
  }

  /** The calls went to nobody else, and a new one went to nobody. */
  ghost predicate SameTakers(calls: seq<CallRec>, calls': seq<CallRec>) {
    && |calls| <= |calls'|
    && (forall s :: 0 <= s < |calls| ==>
          && TakenBy(calls'[s].stage) == TakenBy(calls[s].stage)
          && calls'[s].msg == calls[s].msg && calls'[s].caller == calls[s].caller)
    && (forall s :: |calls| <= s < |calls'| ==> TakenBy(calls'[s].stage).None?)
  }

  lemma KeepBoxes(threads: Threads, calls: seq<CallRec>, d: Deliveries, threads': Threads, calls': seq<CallRec>)
    requires Boxes(threads, calls, d) && SameBoxes(threads, threads') && SameTakers(calls, calls')
    ensures Boxes(threads', calls', d)
  {
    forall s: nat, t: Tid ensures WentTo(calls', s, t) <==> WentTo(calls, s, t) {}
    forall t | t in threads' ensures BoxOk(threads'[t], calls', d, t) { assert BoxOk(threads[t], calls, d, t); }
  }

  lemma ThreadBoxes(threads: Threads, calls: seq<CallRec>, d: Deliveries, t: Tid, th: Thread)
    requires Boxes(threads, calls, d) && t in threads && KeepsBox(threads[t], th)
    ensures Boxes(threads[t := th], calls, d)
  {
    KeepBoxes(threads, calls, d, threads[t := th], calls);
  }

  /** One record moves on without changing hands. */
  lemma RecordBoxes(threads: Threads, calls: seq<CallRec>, d: Deliveries, s: nat, c: CallRec)
    requires Boxes(threads, calls, d) && s < |calls| && TakenBy(c.stage) == TakenBy(calls[s].stage)
    requires c.msg == calls[s].msg && c.caller == calls[s].caller
    ensures Boxes(threads, calls[s := c], d)
  {
    KeepBoxes(threads, calls, d, threads, calls[s := c]);
  }

  lemma EndBoxes(threads: Threads, calls: seq<CallRec>, d: Deliveries, cur: map<Tid, nat>, t: Tid, th: Thread,
                 how: Status, waker: Option<nat>)
    requires t in threads
    ensures Boxes(threads, calls, d) && KeepsBox(threads[t], th) ==>
              Boxes(threads[t := th], EndCall(threads[t], calls, cur, t, how, waker), d)
  {
    hide Boxes;
    if Boxes(threads, calls, d) && KeepsBox(threads[t], th) {
      if InRecord(threads[t], calls, cur, t) {
        RecordBoxes(threads, calls, d, cur[t], EndRec(calls[cur[t]], how, waker));
      }
      ThreadBoxes(threads, EndCall(threads[t], calls, cur, t, how, waker), d, t, th);
    }
  }

  lemma MarkBoxes(threads: Threads, calls: seq<CallRec>, d: Deliveries, cur: map<Tid, nat>, picked: map<nat, nat>,
                  t: Tid, j: nat)
    requires Boxes(threads, calls, d)
    ensures Boxes(threads, Marked(threads, calls, cur, picked, t, j), d)
  {
    hide Boxes;
    if j in picked && picked[j] < |calls| {
      RecordBoxes(threads, calls, d, picked[j], Log(calls[picked[j]], Late(j)));
    }
  }

  lemma DropBoxes(threads: Threads, calls: seq<CallRec>, d: Deliveries, cur: map<Tid, nat>, t: Tid)
    requires Boxes(threads, calls, d) && t in threads
    ensures Boxes(threads - {t}, DropCall(threads[t], calls, cur, t), d)
  {
    KeepBoxes(threads, calls, d, threads - {t}, DropCall(threads[t], calls, cur, t));
  }

  lemma ForgetBoxes(threads: Threads, calls: seq<CallRec>, d: Deliveries, w: Option<Tid>)
    requires Boxes(threads, calls, d)
    ensures Boxes(Forgotten(threads, w), calls, d)
  {
    KeepBoxes(threads, calls, d, Forgotten(threads, w), calls);
  }

  /** A new call that nobody has received. */
  lemma QueueBoxes(threads: Threads, calls: seq<CallRec>, d: Deliveries, t: Tid, th: Thread, c: CallRec)
    requires Boxes(threads, calls, d) && t in threads && KeepsBox(threads[t], th) && TakenBy(c.stage).None?
    ensures Boxes(threads[t := th], calls + [c], d)
  {
    KeepBoxes(threads, calls, d, threads[t := th], calls + [c]);
  }

  /** Call s, new or waiting so far, is delivered to t. */
  lemma DeliverBoxes(threads: Threads, calls: seq<CallRec>, d: Deliveries, threads': Threads, calls': seq<CallRec>,
                     s: nat, t: Tid)
    requires Boxes(threads, calls, d) && s < |calls'|
    requires if s < |calls| then TakenBy(calls[s].stage).None? && calls' == calls[s := calls'[s]]
             else calls' == calls + [calls'[s]]
    requires TakenBy(calls'[s].stage) == Some(t)
    requires forall x :: x in threads' && x != t ==> x in threads && KeepsBox(threads[x], threads'[x])
    requires t in threads' ==> threads'[t].inbox == calls'[s].msg && threads'[t].sender == Some(calls'[s].caller)
    requires s < |calls| ==> calls'[s].msg == calls[s].msg && calls'[s].caller == calls[s].caller
    ensures Boxes(threads', calls', d + [(s, t)])
  {
    var d' := d + [(s, t)];
    assert d'[..|d|] == d;
    forall r: nat, x: Tid ensures (r, x) in d' <==> WentTo(calls', r, x) {
      assert (r, x) in d <==> WentTo(calls, r, x);
    }
    forall x | x in threads' ensures BoxOk(threads'[x], calls', d', x) {
      if x != t { assert BoxOk(threads[x], calls, d, x); }
    }
  }
}
