/**
 The IPC calls (kernel/ipc/ep.c), the notification calls (kernel/notif/notif.c) and what
 a kill does to them (kernel/thread/thread.c).

 A method is one step: a section under the IPC lock, or a stretch of code without the lock
 that another CPU sees as a whole.  The operations that take several steps are given step
 by step and once more in one piece, which is what they do when nothing comes in between.
 `me` is the calling thread, which is running; clocks are left to whoever calls the
 timeout callbacks.
 */
module Ipc {
  import opened IpcBoxes
  import opened IpcJobs
  import opened IpcLedger
  import opened IpcState
  import opened IpcWorld
  import opened Sequences

  /** A server handed the request of `caller`: prepare_server_delivery(). */
  function Served(th: Thread, caller: Tid, msg: Msg): Thread {
    Woken(th, th.status).(sender := Some(caller), inbox := msg)
  }

  /** A thread in ep_call: blocked with its request staged in its own buffer. */
  function AsCaller(th: Thread, e: EpId, msg: Msg, link: Link): Thread {
    th.(blocked := true, reason := IpcCall, ep := Some(e), sender := None, buf := msg, status := Ok, link := link)
  }

  /** A thread blocked in ep_recv, in a notification wait, or in both at once. */
  function Waits(th: Thread, e: Option<EpId>, n: Option<NotifId>, mask: Bits): Thread {
    th.(blocked := true, reason := if e.None? then OnNotif else if n.None? then IpcRecv else RecvOrNotif,
    ep := if e.None? then th.ep else e,
    notif := if n.None? then th.notif else n, mask := if n.None? then th.mask else mask,
    link := if e.None? then Unlinked else OnRecv(e.value), status := Ok,
    sender := if e.Some? && n.Some? then None else th.sender)
  }

  /** A waiter handed its bits: a plain waiter keeps the ids it waited with. */
  function Signalled(th: Thread, got: Bits): Thread {
    if th.reason.RecvOrNotif? then Woken(th, th.status).(got := got)
    else Woken(th, th.status).(got := got, ep := th.ep, notif := th.notif)
  }

  /** clear_server_block() and wake_blocked_on_destroy() forget both ids. */
  function Woken(th: Thread, status: Status): Thread {
    th.(blocked := false, reason := NotBlocked, ep := None, notif := None, forgotten := false, link := Unlinked,
    status := status)
  }

  function Replied(th: Thread, reply: Msg): Thread {
    th.(buf := reply, blocked := false, reason := NotBlocked, ep := None)
  }

  /** A client woken by the kill of its server. */
  function Orphaned(th: Thread): Thread {
    Woken(th, ESrch).(notif := th.notif)
  }

  /** What notif_destroy_impl() makes of the thread it found waiting: it leaves a queue only in ep_recv_or_notif. */
  function Unhung(th: Thread): Thread {
    if th.reason.RecvOrNotif? || th.link.Popped? then Woken(th, EInval) else Woken(th, EInval).(link := th.link)
  }

  const NEW_THREAD := Thread(false, NotBlocked, None, None, false, {}, Unlinked, None, 0, 0, {}, Ok)

  predicate Active(eps: Eps, e: EpId) {
    e in eps && eps[e].active
  }

  datatype Outcome = Invalid | GotBits(bits: Bits) | GotMsg | Blocked

  class Kernel {
    var threads: Threads
    var eps: Eps
    var notifs: Notifs
    var jobs: Jobs      // what CPUs in the middle of an unlocked operation hold on their stacks
    var nextJob: nat

    ghost var calls: seq<CallRec>
    ghost var cur: map<Tid, nat>
    ghost var picked: map<nat, nat>
    ghost var signalled: map<Tid, NotifId>
    ghost var books: Ledger
    ghost var delivered: Deliveries

    ghost function W(): World
      reads this
    {
      World(threads, eps, notifs, jobs, nextJob, calls, cur, picked, signalled, books)
    }

    ghost predicate Valid()
      reads this
    {
      Good(W()) && Boxes(threads, calls, delivered)
    }

    predicate Running(t: Tid)
      reads this
    {
      t in threads && !threads[t].blocked
    }

    constructor (tids: set<Tid>)
      ensures Valid() && threads == map t | t in tids :: NEW_THREAD
      ensures eps == map[] && notifs == map[] && jobs == map[] && nextJob == 0 && calls == [] && picked == map[]
      ensures books == Ledger(multiset{}, multiset{}, multiset{}, multiset{}, multiset{}) && delivered == []
    {
      threads := map t | t in tids :: NEW_THREAD;
      eps, notifs, jobs, nextJob := map[], map[], map[], 0;
      calls, cur, picked, signalled := [], map[], map[], map[];
      books := Ledger(multiset{}, multiset{}, multiset{}, multiset{}, multiset{});
      delivered := [];
    }

    /** A thread leaves whatever it is blocked on. */
    method Release(t: Tid, th: Thread, ghost how: Status, ghost waker: Option<nat>, ghost mark: bool)
      requires Good(W()) && MayRelease(W(), t, th, how, waker, mark)
      modifies `threads, `eps, `notifs, `calls, `signalled
      ensures Good(W()) && W() == Released(old(W()), t, th, how, waker, mark) && Progress(old(calls), calls)
      ensures old(Boxes(threads, calls, delivered) && KeepsBox(threads[t], th)) ==> Boxes(threads, calls, delivered)
    {
      hide Good, Boxes, EndCall, LeaveQueue, Unregister, Progress, KeepsBox;
      ReleaseGood(W(), t, th, how, waker, mark);
      EndBoxes(threads, calls, delivered, cur, t, th, how, waker);
      var was := threads[t];
      calls := EndCall(was, calls, cur, t, how, waker);
      signalled := if mark && th.notif.Some? then signalled[t := th.notif.value] else signalled;
      eps := LeaveQueue(eps, was.link, t);
      notifs := Unregister(notifs, was.notif, t);
      threads := threads[t := th];
    }

    // --------------------------------------------------------------- calls

    /** The caller is blocked in its newest call. */
    ghost predicate InCall(t: Tid, e: EpId, msg: Msg, stage: Stage)
      reads this
    {
      && t in threads && threads[t].blocked && threads[t].reason == IpcCall
      && t in cur && cur[t] == |calls| - 1 >= 0 && calls[cur[t]] == NewCall(t, e, msg, stage)
    }

    /** ep_call_impl(), and ep_call_timeout_impl() up to arming the timer. */
    method Call(me: Tid, e: EpId, msg: Msg) returns (rc: Status)
      requires Valid() && Running(me)
      modifies `threads, `eps, `notifs, `calls, `cur, `signalled, `delivered
      ensures Valid() && (rc == Ok <==> Active(old(eps), e)) && (rc != Ok ==> unchanged(this))
      ensures Progress(old(calls), calls)
      ensures rc == Ok ==> && me in threads && threads[me].buf == msg && threads[me].blocked
                           && threads[me].reason == IpcCall && threads[me].ep == Some(e) && threads[me].status == Ok
      ensures rc == Ok && old(eps)[e].recv == [] ==> delivered == old(delivered)
      ensures rc == Ok && old(eps)[e].recv != [] ==>
                var srv := old(eps)[e].recv[0];
                && delivered == old(delivered) + [(|old(calls)|, srv)] && srv in threads
                && threads[srv].inbox == msg && threads[srv].sender == Some(me) && !threads[srv].blocked
                && threads[srv].ep.None? && threads[srv].notif.None?
      ensures rc == Ok ==> |calls| == |old(calls)| + 1 && calls[..|old(calls)|] == old(calls)
      ensures rc == Ok && old(eps)[e].recv == [] ==>
                && InCall(me, e, msg, Queued) && notifs == old(notifs)
                && threads == old(threads)[me := AsCaller(old(threads)[me], e, msg, OnSend(e))]
                && eps == old(eps)[e := old(eps)[e].(send := old(eps)[e].send + [me])]
      ensures rc == Ok && old(eps)[e].recv != [] ==>
                var srv := old(eps)[e].recv[0];
                && InCall(me, e, msg, Taken(srv)) && srv != me && srv in old(threads)
                && threads == old(threads)[srv := Served(old(threads)[srv], me, msg)]
                                          [me := AsCaller(old(threads)[me], e, msg, Unlinked)]
                && eps == old(eps)[e := old(eps)[e].(recv := old(eps)[e].recv[1..])]
                && notifs == Unregister(old(notifs), old(threads)[srv].notif, srv)
    {
      hide Good, Boxes, Progress, Unregister;
      SameProgress(calls);
      if e !in eps || !eps[e].active { return EInval; }
      if eps[e].recv != [] {
        CallServer(me, e, msg);
      } else {
        WaitToSend(me, e, msg);
      }
      rc := Ok;
    }

    /** The fast path: a server is waiting, and the request is handed over at once. */
    method CallServer(me: Tid, e: EpId, msg: Msg)
      requires Valid() && Running(me) && e in eps && eps[e].recv != []
      modifies `threads, `eps, `notifs, `calls, `cur, `signalled, `delivered
      ensures Valid() && Progress(old(calls), calls)
      ensures delivered == old(delivered) + [(|old(calls)|, old(eps)[e].recv[0])]
      ensures var srv := old(eps)[e].recv[0];
              && srv != me && srv in old(threads)
              && threads == old(threads)[srv := Served(old(threads)[srv], me, msg)]
                                        [me := AsCaller(old(threads)[me], e, msg, Unlinked)]
              && eps == old(eps)[e := old(eps)[e].(recv := old(eps)[e].recv[1..])]
              && notifs == Unregister(old(notifs), old(threads)[srv].notif, srv)
              && calls == old(calls) + [NewCall(me, e, msg, Taken(srv))] && cur == old(cur)[me := |old(calls)|]
    {
      hide Good, Boxes, Progress, Unregister, Without;
      var srv, th := eps[e].recv[0], AsCaller(threads[me], e, msg, Unlinked);
      QueueIs(W(), e);
      HandOver(srv, e, me, msg);
      ThreadIs(W(), me);
      HandGood(W(), me, th, e, srv);
      threads := threads[me := th];
      calls, cur := calls + [NewCall(me, e, msg, Taken(srv))], cur[me := |calls|];
      DeliverBoxes(old(threads), old(calls), delivered, threads, calls, |old(calls)|, srv);
      delivered := delivered + [(|old(calls)|, srv)];
    }

    /** ipc_pop_head() on the receive queue and prepare_server_delivery(). */
    method HandOver(srv: Tid, e: EpId, me: Tid, msg: Msg)
      requires Valid() && Running(me) && e in eps && eps[e].recv != [] && srv == eps[e].recv[0]
      modifies `threads, `eps, `notifs, `calls, `signalled
      ensures Good(W()) && Running(me) && srv != me && srv in old(threads) && calls == old(calls)
      ensures srv in threads && threads[srv].inbox == msg && threads[srv].sender == Some(me) && !threads[srv].blocked
      ensures threads == old(threads)[srv := Served(old(threads)[srv], me, msg)]
      ensures eps == old(eps)[e := old(eps)[e].(recv := old(eps)[e].recv[1..])]
      ensures notifs == Unregister(old(notifs), old(threads)[srv].notif, srv)
    {
      hide Good, Boxes, Progress, Unregister, Without;
      QueueIs(W(), e);
      WithoutHead(eps[e].recv);
      Release(srv, Served(threads[srv], me, msg), Ok, None, false);
    }

    /** ipc_enqueue_tail() on the send queue. */
    method WaitToSend(me: Tid, e: EpId, msg: Msg)
      requires Valid() && Running(me) && e in eps && eps[e].recv == []
      modifies `threads, `eps, `calls, `cur
      ensures Valid() && threads == old(threads)[me := AsCaller(old(threads)[me], e, msg, OnSend(e))]
      ensures eps == old(eps)[e := old(eps)[e].(send := old(eps)[e].send + [me])]
      ensures calls == old(calls) + [NewCall(me, e, msg, Queued)] && cur == old(cur)[me := |old(calls)|]
      ensures Progress(old(calls), calls)
    {
      hide Good, Boxes, Progress;
      ThreadIs(W(), me);
      var th := AsCaller(threads[me], e, msg, OnSend(e));
      QueueGood(W(), me, th, e);
      QueueBoxes(threads, calls, delivered, me, th, NewCall(me, e, msg, Queued));
      eps := eps[e := eps[e].(send := eps[e].send + [me])];
      threads := threads[me := th];
      calls, cur := calls + [NewCall(me, e, msg, Queued)], cur[me := |calls|];
    }

    /** The receiver takes the caller at the head of the send queue, whose call is the oldest waiting there. */
    method TakeCaller(me: Tid, e: EpId)
      requires Valid() && Running(me) && e in eps && eps[e].send != []
      modifies `threads, `eps, `calls, `delivered
      ensures Valid() && Running(me) && Took(old(W()), me, e, W()) && Got(old(W()), me, e, W())
      ensures delivered == old(delivered) + [(old(cur)[old(eps)[e].send[0]], me)]
    {
      hide Good, Boxes, Progress;
      ThreadIs(W(), me);
      TakeGood(W(), me, e);
      TakeBoxes(W(), me, e, delivered);
      var caller := eps[e].send[0];
      eps := eps[e := eps[e].(send := eps[e].send[1..])];
      calls := calls[cur[caller] := TakeRec(calls[cur[caller]], me)];
      threads := threads[caller := threads[caller].(link := Unlinked)];
      threads := threads[me := threads[me].(inbox := threads[caller].buf, sender := Some(caller))];
      delivered := delivered + [(cur[caller], me)];
    }

    /** The locked section of ep_reply_recv_impl(), on an endpoint found before the lock was taken. */
    method TakeNext(me: Tid, e: EpId) returns (took: bool)
      requires Valid() && Running(me) && e in eps
      modifies `threads, `eps, `calls, `delivered
      ensures Valid() && Progress(old(calls), calls) && (took <==> old(eps)[e].send != [])
      ensures if took then Took(old(W()), me, e, W()) && Got(old(W()), me, e, W()) else unchanged(this)
      ensures old(delivered) <= delivered
    {
      hide Good, Boxes, Progress;
      SameProgress(calls);
      took := eps[e].send != [];
      if took { TakeCaller(me, e); }
    }

    /** ep_recv_impl() */
    method Recv(me: Tid, e: EpId) returns (rc: Status)
      requires Valid() && Running(me)
      modifies `threads, `eps, `calls, `delivered
      ensures Valid() && (rc == Ok <==> Active(old(eps), e)) && (rc != Ok ==> unchanged(this))
      ensures Progress(old(calls), calls) && old(delivered) <= delivered
      ensures rc == Ok && old(eps)[e].send != [] ==>
                Running(me) && Took(old(W()), me, e, W()) && Got(old(W()), me, e, W())
      ensures rc == Ok && old(eps)[e].send == [] ==>
                && me in threads && threads[me].blocked && threads[me].reason == IpcRecv && threads[me].ep == Some(e)
                && threads[me].link == OnRecv(e) && threads[me].status == Ok
      ensures rc == Ok && old(eps)[e].send == [] ==>
                && threads == old(threads)[me := Waits(old(threads)[me], Some(e), None, {})]
                && eps == old(eps)[e := old(eps)[e].(recv := old(eps)[e].recv + [me])] && calls == old(calls)
    {
      hide Good, Boxes, Progress;
      SameProgress(calls);
      if e !in eps || !eps[e].active { return EInval; }
      if eps[e].send != [] {
        TakeCaller(me, e);
        return Ok;
      }
      ThreadIs(W(), me);
      WaitGood(W(), me, Waits(threads[me], Some(e), None, {}), Some(e), None);
      ThreadBoxes(threads, calls, delivered, me, Waits(threads[me], Some(e), None, {}));
      eps := eps[e := eps[e].(recv := eps[e].recv + [me])];
      threads := threads[me := Waits(threads[me], Some(e), None, {})];
      rc := Ok;
    }

    /**
     ep_reply_impl().  The code does not look whether the call was received: the
     invariants survive exactly when it was.
     */
    method Reply(caller: Tid, reply: Msg) returns (rc: Status)
      requires Valid()
      modifies `threads, `calls
      ensures rc == Ok <==> caller in old(threads) && old(threads)[caller].reason == IpcCall
      ensures rc != Ok ==> unchanged(this)
      ensures rc == Ok ==> && caller in threads && threads[caller].buf == reply && !threads[caller].blocked
                           && threads[caller].reason == NotBlocked && threads[caller].ep.None?
                           && threads[caller].status == old(threads)[caller].status
      ensures rc == Ok ==> && threads == old(threads)[caller := Replied(old(threads)[caller], reply)]
                           && calls == EndCall(old(threads)[caller], old(calls), cur, caller, Ok, None)
      ensures Progress(old(calls), calls)
      ensures rc == Ok ==> (Valid() <==> old(threads)[caller].link == Unlinked)
    {
      hide Good, Boxes, Progress;
      SameProgress(calls);
      if caller !in threads || threads[caller].reason != IpcCall { return EInval; }
      ThreadIs(W(), caller);
      var th := Replied(threads[caller], reply);
      EndProgress(W(), caller, Ok, None);
      EndBoxes(threads, calls, delivered, cur, caller, th, Ok, None);
      if threads[caller].link == Unlinked { ReleaseGood(W(), caller, th, Ok, None, false); }
      calls := EndCall(threads[caller], calls, cur, caller, Ok, None);
      threads := threads[caller := th];
      if th.link.Popped? {
        NotDelivered(W(), cur[caller]);
      } else if th.link != Unlinked {
        StillLinked(W(), caller);
      }
      rc := Ok;
    }

    /** ep_reply_recv_impl() in one piece: the outcome of the reply is not looked at. */
    method ReplyRecv(me: Tid, e: EpId, caller: Option<Tid>, reply: Msg) returns (rc: Status)
      requires Valid() && Running(me)
      requires InCallNow(threads, caller) ==> threads[caller.value].link == Unlinked
      modifies `threads, `eps, `calls, `delivered
      ensures Valid() && Progress(old(calls), calls) && (rc == Ok <==> Active(old(eps), e))
      ensures caller.Some? && caller.value in old(threads) && old(threads)[caller.value].reason == IpcCall ==>
                caller.value in threads && threads[caller.value].buf == reply && !threads[caller.value].blocked
      ensures var mid := AfterReply(old(W()), caller, reply);
              && (rc != Ok ==> W() == mid)
              && (rc == Ok && old(eps)[e].send != [] ==> Took(mid, me, e, W()) && Got(mid, me, e, W()))
              && (rc == Ok && old(eps)[e].send == [] ==>
                    && me in mid.threads && threads == mid.threads[me := Waits(mid.threads[me], Some(e), None, {})]
                    && calls == mid.calls && eps == old(eps)[e := old(eps)[e].(recv := old(eps)[e].recv + [me])])
    {
      hide Good, Boxes, Progress;
      ThreadIs(W(), me);
      if InCallNow(threads, caller) { ThreadIs(W(), caller.value); }
      SameProgress(calls);
      if caller.Some? { var _ := Reply(caller.value, reply); }
      if e !in eps || !eps[e].active { return EInval; }
      ghost var mid := calls;
      var took := TakeNext(me, e);
      if !took { rc := Recv(me, e); }
      ProgressTrans(old(calls), mid, calls);
      rc := Ok;
    }

    /** ep_call_timeout_cb(): the call ends whether it was still queued or already taken. */
    method CallTimeout(t: Tid)
      requires Valid() && t in threads
      modifies `threads, `eps, `notifs, `calls, `signalled
      ensures Valid() && notifs == old(notifs) && Progress(old(calls), calls)
      ensures old(threads[t]).reason != IpcCall ==> unchanged(this)
      ensures old(threads[t]).reason == IpcCall ==>
                && t in threads && threads[t].status == ETimeout && !threads[t].blocked && threads[t].ep.None?
                && t in cur && cur[t] < |old(calls)| == |calls| && Open(old(calls)[cur[t]].stage)
                && calls[cur[t]].stage == Over(ETimeout, TakenBy(old(calls)[cur[t]].stage))
      ensures old(threads[t]).reason == IpcCall ==>
                && threads == old(threads)[t := Woken(old(threads)[t], ETimeout).(notif := old(threads)[t].notif)]
                && eps == LeaveQueue(old(eps), old(threads)[t].link, t)
                && calls == EndCall(old(threads)[t], old(calls), cur, t, ETimeout, None)
    {
      hide Good, Boxes, Progress, LeaveQueue;
      SameProgress(calls);
      ThreadIs(W(), t);
      if !threads[t].blocked || threads[t].reason != IpcCall { return; }
      Release(t, Woken(threads[t], ETimeout).(notif := threads[t].notif), ETimeout, None, false);
    }

    // ------------------------------------------- destroying an endpoint

    /** The first lock section of ep_destroy_impl(): the endpoint goes inactive and its first thread is popped. */
    method DestroyBegin(e: EpId) returns (rc: Status)
      requires Valid()
      modifies `threads, `eps, `jobs, `nextJob, `calls, `picked
      ensures Valid() && Progress(old(calls), calls) && (rc == Ok <==> Active(old(eps), e))
      ensures rc != Ok ==> unchanged(this)
      ensures rc == Ok ==> W() == Popping(old(W()).(eps := old(eps)[e := old(eps)[e].(active := false)]), e)
    {
      hide Good, Boxes, Progress;
      SameProgress(calls);
      if e !in eps || !eps[e].active { return EInval; }
      Deactivate(W(), e);
      eps := eps[e := eps[e].(active := false)];
      var _ := DestroyNext(e);
      rc := Ok;
    }

    /** A later one: the next thread is popped, callers before receivers. */
    method DestroyNext(e: EpId) returns (more: bool)
      requires Valid() && e in eps
      modifies `threads, `eps, `jobs, `nextJob, `calls, `picked
      ensures Valid() && Progress(old(calls), calls) && W() == Popping(old(W()), e)
      ensures more <==> old(eps)[e].send != [] || old(eps)[e].recv != []
      ensures !more ==> unchanged(this)
    {
      hide Good, Boxes, Progress;
      SameProgress(calls);
      PopBoxes(W(), e, delivered);
      if eps[e].send != [] {
        PopSender(e);
        return true;
      }
      if eps[e].recv != [] {
        PopRecvGood(W(), e);
        var c := eps[e].recv[0];
        eps := eps[e := eps[e].(recv := eps[e].recv[1..])];
        threads := threads[c := threads[c].(link := Popped(nextJob))];
        jobs := jobs[nextJob := Waking(c, ByDestroy)];
        nextJob := nextJob + 1;
        return true;
      }
      more := false;
    }

    /** ipc_pop_head() on the send queue. */
    method PopSender(e: EpId)
      requires Good(W()) && e in eps && eps[e].send != []
      modifies `threads, `eps, `jobs, `nextJob, `calls, `picked
      ensures Good(W()) && Progress(old(calls), calls) && W() == PoppingSend(old(W()), e)
    {
      hide Good, Progress;
      PopSendGood(W(), e);
      var c := eps[e].send[0];
      eps := eps[e := eps[e].(send := eps[e].send[1..])];
      threads := threads[c := threads[c].(link := Popped(nextJob))];
      calls := calls[cur[c] := PopRec(calls[cur[c]], nextJob)];
      picked := picked[nextJob := cur[c]];
      jobs := jobs[nextJob := Waking(c, ByDestroy)];
      nextJob := nextJob + 1;
    }

    /** wake_blocked_on_destroy(), after the lock was dropped: it does not look what the thread is doing by now. */
    method DestroyWake(j: nat) returns (stray: bool)
      requires Valid() && j in jobs && jobs[j].Waking? && jobs[j].cause == ByDestroy
      modifies `threads, `eps, `notifs, `jobs, `calls, `picked, `signalled
      ensures Valid() && Progress(old(calls), calls) && jobs == old(jobs) - {j} && picked == old(picked) - {j}
      ensures var t := old(jobs)[j].t;
              && (stray <==> WakesFreed(old(threads), old(jobs), j))
              && calls == AfterWake(old(threads), old(calls), cur, old(picked), t, j, EInval)
              && if t !in old(threads) then threads == old(threads) && eps == old(eps) && notifs == old(notifs)
                 else && threads == old(threads)[t := Woken(old(threads)[t], EInval)]
                      && eps == LeaveQueue(old(eps), old(threads)[t].link, t)
                      && notifs == Unregister(old(notifs), old(threads)[t].notif, t)
                      && threads[t].status == EInval && !threads[t].blocked && threads[t].ep.None?
                      && threads[t].notif.None?
    {
      hide Good, Boxes, Progress, LeaveQueue, Unregister, EndCall, Marked, Unneeded;
      var t := jobs[j].t;
      stray := t !in threads;
      MarkGood(W(), j);
      MarkBoxes(threads, calls, delivered, cur, picked, t, j);
      calls, picked := Marked(threads, calls, cur, picked, t, j), picked - {j};
      if t in threads {
        ghost var mid := calls;
        Release(t, Woken(threads[t], EInval), EInval, Some(j), false);
        ProgressTrans(old(calls), mid, calls);
      }
      WokenJob(W(), j);
      EndJobGood(W(), j, jobs[j]);
      jobs := jobs - {j};
    }

    /**
     The end of ep_destroy_impl().  Whoever found the endpoint before it went inactive may
     have joined a queue since: the invariants survive exactly when nobody has.
     */
    method DestroyFree(e: EpId)
      requires Valid() && e in eps && !eps[e].active
      modifies `eps
      ensures eps == old(eps) - {e}
      ensures Valid() <==> old(eps)[e].send == [] && old(eps)[e].recv == []
    {
      hide Good, Boxes;
      ghost var w := W();
      if eps[e].send == [] && eps[e].recv == [] { NoEp(W(), e); }
      eps := eps - {e};
      if !(w.eps[e].send == [] && w.eps[e].recv == []) { EpWithQueue(w, e, W()); }
    }

    /** One thread popped and woken with nothing in between. */
    method DestroyOne(e: EpId) returns (t: Tid)
      requires Valid() && e in eps && Line(eps[e]) != []
      modifies `threads, `eps, `notifs, `jobs, `nextJob, `calls, `picked, `signalled
      ensures Valid() && Progress(old(calls), calls) && jobs == old(jobs) && picked == old(picked)
      ensures t == Line(old(eps)[e])[0] && t in old(threads)
      ensures threads == old(threads)[t := Woken(old(threads)[t], EInval)]
      ensures e in eps && eps == old(eps)[e := eps[e]] && eps[e].active == old(eps)[e].active
      ensures Line(eps[e]) == Line(old(eps)[e])[1..]
    {
      hide Good, Boxes, Progress, Unregister, EndCall, Marked, PopRec;
      t := if eps[e].send != [] then eps[e].send[0] else eps[e].recv[0];
      HeadIs(W(), e);
      ghost var j := nextJob;
      FreshJob(W());
      var _ := DestroyNext(e);
      ghost var mid := calls;
      var _ := DestroyWake(nextJob - 1);
      ProgressTrans(old(calls), mid, calls);
      assert jobs == old(jobs) && picked == old(picked);
    }

    /** ep_destroy_impl() in one piece: every thread queued there is woken with an error, and no other is touched. */
    method EpDestroy(e: EpId) returns (rc: Status)
      requires Valid()
      modifies `threads, `eps, `notifs, `jobs, `nextJob, `calls, `picked, `signalled
      ensures Valid() && Progress(old(calls), calls) && jobs == old(jobs)
      ensures (rc == Ok <==> Active(old(eps), e)) && (rc != Ok ==> unchanged(this))
      ensures rc == Ok ==> eps.Keys == old(eps).Keys - {e} && WokenSoFar(old(threads), threads, Line(old(eps)[e]))
    {
      hide Good, Boxes, Progress, Woken, WokenSoFar;
      SameProgress(calls);
      if e !in eps || !eps[e].active { return EInval; }
      Deactivate(W(), e);
      ghost var q, i := Line(eps[e]), 0;
      eps := eps[e := eps[e].(active := false)];
      NobodyWoken(threads);
      assert q[..0] == [];
      while eps[e].send != [] || eps[e].recv != []
        invariant Valid() && Progress(old(calls), calls) && jobs == old(jobs) && e in eps && !eps[e].active
        invariant eps.Keys == old(eps).Keys && 0 <= i <= |q| && Line(eps[e]) == q[i..]
        invariant WokenSoFar(old(threads), threads, q[..i])
        decreases |q| - i
      {
        ghost var mid, before := calls, threads;
        var t := DestroyOne(e);
        WokenMore(old(threads), before, threads, q[..i], t);
        ProgressTrans(old(calls), mid, calls);
        assert q[..i + 1] == q[..i] + [t];
        i := i + 1;
      }
      assert q[..i] == q;
      DestroyFree(e);
      rc := Ok;
    }

    // ------------------------------------------------------- notifications

    /** Bits taken straight from the notification under the lock, leaving the others pending. */
    method TakeBits(n: NotifId, mask: Bits) returns (matched: Bits)
      requires Valid() && n in notifs
      modifies `notifs, `books
      ensures Valid() && matched == old(notifs)[n].bits * mask
      ensures books == old(books).(taken := old(books).taken + Tag(n, matched))
      ensures notifs == old(notifs)[n := old(notifs)[n].(bits := old(notifs)[n].bits - matched)]
    {
      hide Good, Boxes, Balance, Tag;
      matched := notifs[n].bits * mask;
      WaiterFree(W(), n);
      ghost var notifs' := notifs[n := notifs[n].(bits := notifs[n].bits - matched)];
      BooksOf(W());
      BalanceMoves(notifs, books, n, {}, matched, notifs');
      NoTag(books.raised, n, {});
      BitsGood(W(), n, notifs[n].bits - matched, books.(taken := books.taken + Tag(n, matched)));
      notifs := notifs[n := notifs[n].(bits := notifs[n].bits - matched)];
      books := books.(taken := books.taken + Tag(n, matched));
    }

    /** The first read of notif_poll_impl(), which takes no lock. */
    method PollRead(n: NotifId, mask: Bits) returns (j: Option<nat>)
      requires Valid()
      modifies `jobs, `nextJob
      ensures Valid() && (j.Some? <==> n in notifs) && (j.None? ==> unchanged(this))
      ensures j.Some? ==> && j.value == old(nextJob) == nextJob - 1
                          && jobs == old(jobs)[j.value := Polled(n, notifs[n].bits * mask)]
    {
      hide Good, Boxes;
      if n !in notifs { return None; }
      AddJobGood(W(), Polled(n, notifs[n].bits * mask));
      j := Some(nextJob);
      jobs := jobs[nextJob := Polled(n, notifs[n].bits * mask)];
      nextJob := nextJob + 1;
    }

    /** The load that clearing the matched bits starts with. */
    method PollLoad(j: nat)
      requires Valid() && j in jobs && jobs[j].Polled?
      modifies `jobs
      ensures var job := old(jobs)[j];
              Valid() && jobs == old(jobs)[j := Loaded(job.n, job.matched, BitsOf(notifs, job.n))]
    {
      hide Good, Boxes, Unneeded;
      var job := Loaded(jobs[j].n, jobs[j].matched, BitsOf(notifs, jobs[j].n));
      PlainJob(W(), j);
      EndJobGood(W(), j, job);
      jobs := jobs[j := job];
    }

    /**
     The store that ends it.  The poll is exact, no bit being counted twice or dropped, if and
     only if the bits are still those it has seen; the invariants survive exactly when the
     store brings back no bit that the waiter sleeps on.
     */
    method PollStore(j: nat) returns (matched: Bits)
      requires Valid() && j in jobs && jobs[j].Loaded?
      modifies `jobs, `notifs, `books
      ensures matched == old(jobs)[j].matched && jobs == old(jobs) - {j}
      ensures var n, loaded := old(jobs)[j].n, old(jobs)[j].bits;
              && books.raised == old(books).raised && books.lost == old(books).lost
              && books.taken == old(books).taken + Tag(n, matched)
              && (n in old(notifs) ==>
                    && notifs == old(notifs)[n := old(notifs)[n].(bits := loaded - matched)]
                    && books.twice == old(books).twice + Tag(n, matched + loaded - old(notifs)[n].bits)
                    && books.dropped == old(books).dropped + Tag(n, old(notifs)[n].bits - matched - loaded))
              && (n !in old(notifs) ==> notifs == old(notifs))
              && (Valid() <==> !Resurrects(old(threads), old(notifs), n, loaded - matched))
              && (books == old(books).(taken := books.taken) <==>
                    if n in old(notifs) then old(notifs)[n].bits == matched + loaded else matched == {})
    {
      hide Good, Boxes, Balance, Tag, Unneeded;
      var n, loaded := jobs[j].n, jobs[j].bits;
      matched := jobs[j].matched;
      PlainJob(W(), j);
      EndJobGood(W(), j, jobs[j]);
      jobs := jobs - {j};
      BooksOf(W());
      if n !in notifs {
        DeadStore(notifs, books, n, matched);
        NoTag(books.twice, n, matched);
        BooksGood(W(), books.(taken := books.taken + Tag(n, matched), twice := books.twice + Tag(n, matched)));
        books := books.(taken := books.taken + Tag(n, matched), twice := books.twice + Tag(n, matched));
        return;
      }
      ghost var w, now := W(), notifs[n].bits;
      WaiterFree(w, n);
      StoreBalance(notifs, books, n, matched, loaded);
      StoreExact(books, n, now, matched, loaded);
      if !Resurrects(threads, notifs, n, loaded - matched) {
        BitsGood(w, n, loaded - matched, Stored(books, n, now, matched, loaded));
      }
      notifs := notifs[n := notifs[n].(bits := loaded - matched)];
      books := Stored(books, n, now, matched, loaded);
      if Resurrects(threads, w.notifs, n, loaded - matched) { BitsBad(W(), n); }
    }

    /** notif_poll_impl() in one piece. */
    method NotifPoll(n: NotifId, mask: Bits) returns (matched: Bits)
      requires Valid()
      modifies `notifs, `jobs, `nextJob, `books
      ensures Valid() && jobs == old(jobs) && (n !in old(notifs) ==> matched == {} && unchanged(this))
      ensures n in old(notifs) ==> && matched == old(notifs)[n].bits * mask
                                   && books == old(books).(taken := old(books).taken + Tag(n, matched))
                                   && notifs == old(notifs)[n := old(notifs)[n].(bits := old(notifs)[n].bits - matched)]
    {
      hide Good, Boxes, Tag;
      var j := PollRead(n, mask);
      if j.None? { return {}; }
      FreshJob(old(W()));
      PollLoad(j.value);
      WaiterFree(W(), n);
      matched := PollStore(j.value);
      assert old(notifs)[n].bits == matched + old(notifs)[n].bits;
      assert jobs == old(jobs);
    }

    /**
     notif_wait_impl(), and notif_wait_timeout_impl() up to arming the timer.  The code does
     not look for an earlier waiter: blocking keeps the invariants exactly if there is none.
     */
    method NotifWait(me: Tid, n: NotifId, mask: Bits) returns (r: Outcome)
      requires Valid() && Running(me)
      modifies `threads, `notifs, `books, `signalled
      ensures (r == Invalid <==> n !in old(notifs)) && (r == Invalid ==> unchanged(this))
      ensures Valid() <==> r == Blocked ==> old(notifs)[n].waiter.None?
      ensures r.GotBits? ==>
                && r.bits == old(notifs)[n].bits * mask != {} && threads == old(threads)
                && books == old(books).(taken := old(books).taken + Tag(n, r.bits))
                && notifs == old(notifs)[n := old(notifs)[n].(bits := old(notifs)[n].bits - r.bits)]
      ensures r != Invalid && !r.GotBits? ==>
                && r == Blocked && old(notifs)[n].bits * mask == {} && books == old(books)
                && me in threads && threads[me].blocked && threads[me].reason == OnNotif && threads[me].mask == mask
                && threads[me].notif == Some(n) && threads[me].status == Ok
                && threads == old(threads)[me := Waits(old(threads)[me], None, Some(n), mask)]
                && notifs == old(notifs)[n := old(notifs)[n].(waiter := Some(me))]
    {
      hide Good, Boxes, Tag;
      if n !in notifs { return Invalid; }
      if notifs[n].bits * mask != {} {
        var matched := TakeBits(n, mask);
        return GotBits(matched);
      }
      ThreadIs(W(), me);
      ghost var w := W();
      if notifs[n].waiter.None? { WaitGood(w, me, Waits(threads[me], None, Some(n), mask), None, Some(n)); }
      ThreadBoxes(threads, calls, delivered, me, Waits(threads[me], None, Some(n), mask));
      threads := threads[me := Waits(threads[me], None, Some(n), mask)];
      notifs := notifs[n := notifs[n].(waiter := Some(me))];
      signalled := signalled - {me};
      if w.notifs[n].waiter.Some? { SecondWaiter(w, n, me, W()); }
      r := Blocked;
    }

    /** ep_recv_or_notif_impl() in one piece. */
    method RecvOrNotif(me: Tid, e: EpId, n: NotifId, mask: Bits) returns (r: Outcome)
      requires Valid() && Running(me)
      modifies `threads, `eps, `notifs, `calls, `books, `signalled, `delivered
      ensures r == Invalid <==> !Active(old(eps), e) || n !in old(notifs)
      ensures r == Invalid ==> unchanged(this)
      ensures Valid() <==> r == Blocked ==> old(notifs)[n].waiter.None?
      ensures Progress(old(calls), calls)
      ensures r != Invalid ==> DidRecvOrNotif(old(W()), me, e, n, mask, W(), r)
    {
      hide Good, Boxes, Progress, DidRecvOrNotif;
      SameProgress(calls);
      if e !in eps || !eps[e].active || n !in notifs { return Invalid; }
      r := RecvOrNotifLocked(me, e, n, mask);
    }

    /**
     Its lock section, on objects found before the lock was taken: pending bits first, then a
     waiting caller, else wait for both.
     */
    method RecvOrNotifLocked(me: Tid, e: EpId, n: NotifId, mask: Bits) returns (r: Outcome)
      requires Valid() && Running(me) && e in eps && n in notifs
      modifies `threads, `eps, `notifs, `calls, `books, `signalled, `delivered
      ensures r != Invalid && DidRecvOrNotif(old(W()), me, e, n, mask, W(), r) && Progress(old(calls), calls)
      ensures old(delivered) <= delivered && (r == GotMsg ==> Got(old(W()), me, e, W()))
      ensures r.GotBits? ==> r.bits == old(notifs)[n].bits * mask != {}
      ensures r == Blocked ==>
                && me in threads && threads[me].blocked && threads[me].reason.RecvOrNotif? && threads[me].mask == mask
                && threads[me].ep == Some(e) && threads[me].notif == Some(n) && threads[me].link == OnRecv(e)
      ensures r == Blocked ==> old(notifs)[n].bits * mask == {}
      ensures Valid() <==> r == Blocked ==> old(notifs)[n].waiter.None?
    {
      hide Good, Boxes, Tag, Progress, Took;
      SameProgress(calls);
      if notifs[n].bits * mask != {} {
        var matched := TakeBits(n, mask);
        return GotBits(matched);
      }
      if eps[e].send != [] {
        TakeCaller(me, e);
        TookProgress(old(W()), me, e, W());
        return GotMsg;
      }
      WaitForBoth(me, e, n, mask);
      r := Blocked;
    }

    /** The end of it: the thread joins the receive queue and becomes the waiter. */
    method WaitForBoth(me: Tid, e: EpId, n: NotifId, mask: Bits)
      requires Valid() && Running(me) && e in eps && n in notifs && eps[e].send == [] && notifs[n].bits * mask == {}
      modifies `threads, `eps, `notifs, `signalled
      ensures W() == Waiting(old(W()), me, Waits(old(threads)[me], Some(e), Some(n), mask), Some(e), Some(n))
      ensures && me in threads && threads[me].blocked && threads[me].reason.RecvOrNotif? && threads[me].mask == mask
              && threads[me].ep == Some(e) && threads[me].notif == Some(n) && threads[me].link == OnRecv(e)
      ensures Valid() <==> old(notifs)[n].waiter.None?
    {
      hide Good, Boxes;
      ThreadIs(W(), me);
      ghost var w := W();
      if notifs[n].waiter.None? { WaitGood(w, me, Waits(threads[me], Some(e), Some(n), mask), Some(e), Some(n)); }
      ThreadBoxes(threads, calls, delivered, me, Waits(threads[me], Some(e), Some(n), mask));
      threads := threads[me := Waits(threads[me], Some(e), Some(n), mask)];
      eps := eps[e := eps[e].(recv := eps[e].recv + [me])];
      notifs := notifs[n := notifs[n].(waiter := Some(me))];
      signalled := signalled - {me};
      if w.notifs[n].waiter.Some? { SecondWaiter(w, n, me, W()); }
    }

    /**
     notif_signal_impl(): the waiter, if one of its bits is now pending, gets all of
     its bits and leaves the notification and, in ep_recv_or_notif, the endpoint.
     */
    method Signal(n: NotifId, bits: Bits) returns (rc: Status)
      requires Valid()
      modifies `threads, `eps, `notifs, `calls, `books, `signalled
      ensures Valid() && (rc == Ok <==> n in old(notifs)) && (rc != Ok ==> unchanged(this)) && calls == old(calls)
      ensures rc == Ok && old(notifs)[n].waiter.Some? ==>
                var w := old(notifs)[n].waiter.value;
                && w in old(threads) && w in threads
                && (threads[w].blocked <==> (old(notifs)[n].bits + bits) * old(threads)[w].mask == {})
      ensures rc == Ok && !Reaches(old(threads), old(notifs), n, bits) ==>
                && notifs == old(notifs)[n := old(notifs)[n].(bits := old(notifs)[n].bits + bits)]
                && threads == old(threads) && eps == old(eps) && signalled == old(signalled)
                && books == old(books).(raised := old(books).raised + Tag(n, bits - old(notifs)[n].bits))
      ensures rc == Ok && Reaches(old(threads), old(notifs), n, bits) ==>
                var w := old(notifs)[n].waiter.value;
                var now := old(notifs)[n].bits + bits; var got := now * old(threads)[w].mask;
                && w in threads && threads[w].got == got && !threads[w].blocked
                && threads[w].status == old(threads)[w].status
                && threads == old(threads)[w := Signalled(old(threads)[w], got)]
                && notifs == old(notifs)[n := NotifObj(now - got, None)]
                && eps == LeaveQueue(old(eps), old(threads)[w].link, w)
                && signalled == (if old(threads)[w].reason == OnNotif then old(signalled)[w := n] else old(signalled))
                && books == old(books).(raised := old(books).raised + Tag(n, bits - old(notifs)[n].bits),
                                        taken := old(books).taken + Tag(n, got))
    {
      hide Good, Boxes, Balance, Tag, LeaveQueue, EndCall, Progress;
      if n !in notifs { return EInval; }
      var now, was := notifs[n].bits + bits, notifs[n].bits;
      ghost var up := bits - was;
      assert was + up == now;
      WaiterFree(W(), n);
      BooksOf(W());
      if notifs[n].waiter.None? || now * threads[notifs[n].waiter.value].mask == {} {
        BalanceMoves(notifs, books, n, up, {}, notifs[n := notifs[n].(bits := now)]);
        NoTag(books.taken, n, {});
        BitsGood(W(), n, now, books.(raised := books.raised + Tag(n, up)));
        notifs := notifs[n := notifs[n].(bits := now)];
        books := books.(raised := books.raised + Tag(n, up));
        return Ok;
      }
      SignalWaiter(n, bits);
      rc := Ok;
    }

    /** The waiter is handed its bits and made ready. */
    method SignalWaiter(n: NotifId, bits: Bits)
      requires Valid() && Reaches(threads, notifs, n, bits)
      modifies `threads, `eps, `notifs, `calls, `books, `signalled
      ensures Valid() && calls == old(calls)
      ensures var w := old(notifs)[n].waiter.value;
              var now := old(notifs)[n].bits + bits; var got := now * old(threads)[w].mask;
              && threads == old(threads)[w := Signalled(old(threads)[w], got)]
              && notifs == old(notifs)[n := NotifObj(now - got, None)]
              && eps == LeaveQueue(old(eps), old(threads)[w].link, w)
              && signalled == (if old(threads)[w].reason == OnNotif then old(signalled)[w := n] else old(signalled))
              && books == old(books).(raised := old(books).raised + Tag(n, bits - old(notifs)[n].bits),
                                      taken := old(books).taken + Tag(n, got))
    {
      hide Good, Boxes, Balance, Tag, LeaveQueue, EndCall, Progress;
      var now, was := notifs[n].bits + bits, notifs[n].bits;
      ghost var up := bits - was;
      assert was + up == now;
      WaiterFree(W(), n);
      var w := notifs[n].waiter.value;
      var got := now * threads[w].mask;
      NotInCall(W(), w);
      Release(w, Signalled(threads[w], got), Ok, None, threads[w].reason == OnNotif);
      BooksOf(W());
      BalanceMoves(notifs, books, n, up, got, notifs[n := notifs[n].(bits := now - got)]);
      ghost var l := books.(raised := books.raised + Tag(n, up), taken := books.taken + Tag(n, got));
      BitsGood(W(), n, now - got, l);
      notifs := notifs[n := notifs[n].(bits := now - got)];
      books := l;
    }

    /** notif_wait_timeout_cb() */
    method NotifTimeout(t: Tid)
      requires Valid() && t in threads
      modifies `threads, `eps, `notifs, `calls, `signalled
      ensures Valid() && eps == old(eps) && calls == old(calls)
      ensures old(threads[t]).reason != OnNotif ==> unchanged(this)
      ensures old(threads[t]).reason == OnNotif ==>
                && t in threads && threads[t].status == ETimeout && !threads[t].blocked && threads[t].notif.None?
                && threads == old(threads)[t := Woken(old(threads)[t], ETimeout).(ep := old(threads)[t].ep)]
                && notifs == Unregister(old(notifs), old(threads)[t].notif, t)
    {
      hide Good, Boxes, Unregister;
      ThreadIs(W(), t);
      if !threads[t].blocked || threads[t].reason != OnNotif { return; }
      Release(t, Woken(threads[t], ETimeout).(ep := threads[t].ep), ETimeout, None, false);
    }

    // ---------------------------------------- destroying a notification

    /** The start of notif_destroy_impl(), which takes no lock: the waiter is read and cleared. */
    method NotifUnhook(n: NotifId) returns (j: Option<nat>)
      requires Valid()
      modifies `threads, `notifs, `jobs, `nextJob
      ensures Valid() && (j.Some? <==> n in old(notifs)) && (j.None? ==> unchanged(this))
      ensures j.Some? ==> && j.value == old(nextJob) == nextJob - 1
                          && threads == Forgotten(old(threads), old(notifs)[n].waiter)
                          && notifs == old(notifs)[n := old(notifs)[n].(waiter := None)]
                          && jobs == old(jobs)[j.value := Unhooked(n, old(notifs)[n].waiter)]
    {
      hide Good, Boxes;
      if n !in notifs { return None; }
      ForgetGood(W(), n);
      var w := notifs[n].waiter;
      ForgetBoxes(threads, calls, delivered, w);
      threads := Forgotten(threads, w);
      notifs := notifs[n := notifs[n].(waiter := None)];
      jobs := jobs[nextJob := Unhooked(n, w)];
      j := Some(nextJob);
      nextJob := nextJob + 1;
    }

    /**
     Then the waiter is made ready, whatever it is doing by now: the invariants survive
     exactly when it is on no queue but in ep_recv_or_notif and waits on no notification again.
     */
    method NotifWake(j: nat) returns (stray: bool)
      requires Valid() && j in jobs && jobs[j].Unhooked?
      modifies `threads, `eps, `notifs, `jobs, `calls, `signalled
      ensures notifs == old(notifs) && jobs == old(jobs)[j := Freeing(old(jobs)[j].n)] && Progress(old(calls), calls)
      ensures stray <==> WakesFreed(old(threads), old(jobs), j)
      ensures var w := old(jobs)[j].waiter;
              if w.None? || w.value !in old(threads) then
                threads == old(threads) && eps == old(eps) && calls == old(calls) && Valid()
              else
                && threads == old(threads)[w.value := Unhung(old(threads)[w.value])]
                && threads[w.value].status == EInval && !threads[w.value].blocked && threads[w.value].notif.None?
                && eps == (if old(threads)[w.value].reason.RecvOrNotif?
                           then LeaveQueue(old(eps), old(threads)[w.value].link, w.value) else old(eps))
                && calls == EndCall(old(threads)[w.value], old(calls), cur, w.value, EInval, Some(j))
                && (Valid() <==> !Elsewhere(old(threads)[w.value]))
    {
      hide Good, Boxes, Progress, LeaveQueue, EndCall, Unneeded;
      SameProgress(calls);
      var n, w := jobs[j].n, jobs[j].waiter;
      stray := w.Some? && w.value !in threads;
      if w.Some? && w.value in threads {
        var t := w.value;
        ThreadIs(W(), t);
        NoPick(W(), j);
        if Elsewhere(threads[t]) {
          WakeElsewhere(j, t);
          return;
        }
        NoQueue(eps, threads[t].link, t);
        Release(t, Woken(threads[t], EInval), EInval, Some(j), false);
      }
      UnhookedJob(W(), j);
      EndJobGood(W(), j, Freeing(n));
      jobs := jobs[j := Freeing(n)];
    }

    /** The same when the thread has gone on to wait elsewhere. */
    method WakeElsewhere(j: nat, t: Tid)
      requires Valid() && j in jobs && jobs[j].Unhooked? && jobs[j].waiter == Some(t) && t in threads
      requires Elsewhere(threads[t])
      modifies `threads, `eps, `jobs, `calls
      ensures !Valid() && jobs == old(jobs)[j := Freeing(old(jobs)[j].n)] && Progress(old(calls), calls)
      ensures threads == old(threads)[t := Unhung(old(threads)[t])]
      ensures eps == (if old(threads)[t].reason.RecvOrNotif?
                      then LeaveQueue(old(eps), old(threads)[t].link, t) else old(eps))
      ensures calls == EndCall(old(threads)[t], old(calls), cur, t, EInval, Some(j))
    {
      hide Good, Boxes, Progress, LeaveQueue;
      ThreadIs(W(), t);
      EndProgress(W(), t, EInval, Some(j));
      var was := threads[t];
      calls := EndCall(was, calls, cur, t, EInval, Some(j));
      if was.reason.RecvOrNotif? { eps := LeaveQueue(eps, was.link, t); }
      threads := threads[t := Unhung(was)];
      jobs := jobs[j := Freeing(jobs[j].n)];
      if OnNotification(was) {
        StillWaiter(W(), t, was.notif.value);
      } else {
        StillLinked(W(), t);
      }
    }

    /** The end of it.  The invariants survive exactly when nobody has begun to wait there since. */
    method NotifFree(j: nat)
      requires Valid() && j in jobs && jobs[j].Freeing?
      modifies `notifs, `jobs, `books
      ensures var n := old(jobs)[j].n;
              && jobs == old(jobs) - {j} && notifs == old(notifs) - {n}
              && books == (if n in old(notifs)
                           then old(books).(lost := old(books).lost + Tag(n, old(notifs)[n].bits)) else old(books))
              && (Valid() <==> n in old(notifs) ==> old(notifs)[n].waiter.None?)
    {
      hide Good, Boxes, Balance, Tag, Unneeded;
      var n := jobs[j].n;
      PlainJob(W(), j);
      EndJobGood(W(), j, jobs[j]);
      jobs := jobs - {j};
      if n !in notifs {
        assert notifs - {n} == notifs;
        return;
      }
      ghost var w := W();
      ghost var l := books.(lost := books.lost + Tag(n, notifs[n].bits));
      if notifs[n].waiter.None? {
        BooksOf(w);
        BalanceMoves(notifs, books, n, {}, notifs[n].bits, notifs - {n});
        NoTag(books.raised, n, {});
        NoObj(w, n, l);
      }
      books := l;
      notifs := notifs - {n};
      if w.notifs[n].waiter.Some? { ObjWithWaiter(w, n, W()); }
    }

    /**
     notif_destroy_impl() in one piece.  Afterwards some thread carries the id of what was
     freed if and only if one other than its waiter did.
     */
    method NotifDestroy(n: NotifId) returns (rc: Status)
      requires Valid()
      modifies `threads, `eps, `notifs, `jobs, `nextJob, `calls, `books, `signalled
      ensures Valid() && (rc == Ok <==> n in old(notifs)) && (rc != Ok ==> unchanged(this))
      ensures calls == old(calls) && jobs == old(jobs)
      ensures rc == Ok ==> && notifs == old(notifs) - {n}
                           && books == old(books).(lost := old(books).lost + Tag(n, old(notifs)[n].bits))
      ensures rc == Ok ==>
                match old(notifs)[n].waiter
                case None => threads == old(threads) && eps == old(eps)
                case Some(w) => && w in old(threads) && threads == old(threads)[w := Woken(old(threads)[w], EInval)]
                                && eps == LeaveQueue(old(eps), old(threads)[w].link, w)
      ensures rc == Ok ==>
                ((exists t: Tid :: Carries(threads, t, n)) <==>
                 exists t: Tid :: Carries(old(threads), t, n) && old(notifs)[n].waiter != Some(t))
    {
      hide Good, Boxes, Tag, LeaveQueue, EndCall, Progress, Carries, Woken;
      if n !in notifs { return EInval; }
      WaiterFree(W(), n);
      FreshJob(W());
      ghost var w, w0 := notifs[n].waiter, W();
      var j := NotifUnhook(n);
      if w.Some? {
        Unhooking(w0, n);
        NotInCall(W(), w.value);
      }
      var _ := NotifWake(j.value);
      NotifFree(j.value);
      assert jobs == old(jobs);
      CarriersLeft(old(threads), threads, w, n);
      rc := Ok;
    }

    // --------------------------------------------------------------- kills

    /**
     thread_kill_local() up to its look at the thread it last received from: the dying thread
     leaves its queue, its notification and its call, and that thread is chosen if it is in any call.
     */
    method KillBegin(t: Tid) returns (rc: Status)
      requires Valid()
      modifies `threads, `eps, `notifs, `jobs, `nextJob, `calls, `picked
      ensures Valid() && Progress(old(calls), calls)
      ensures rc == (if t in old(threads) then Ok else ESrch) && (rc != Ok ==> unchanged(this))
      ensures rc == Ok ==>
                var p := Peer(old(threads), t); var w := Removed(old(W()), t);
                W() == if p.None? || p.value !in w.threads then w else Choosing(w, p.value)
      ensures rc == Ok ==> t !in threads && forall p :: p in old(threads) && p != t ==> p in threads
      ensures rc == Ok ==>
                var p := old(threads)[t].sender;
                if p.Some? && p.value in old(threads) && p.value != t && old(threads)[p.value].reason == IpcCall
                then nextJob == old(nextJob) + 1 && jobs == old(jobs)[old(nextJob) := Waking(p.value, ByKill)]
                else nextJob == old(nextJob) && jobs == old(jobs)
      ensures rc == Ok ==>
                forall j :: WakesFreed(threads, jobs, j) <==>
                  WakesFreed(old(threads), old(jobs), j) || ToWake(old(jobs), j) == Some(t)
      ensures forall j :: WakesFreed(threads, jobs, j) ==> ToWake(jobs, j) == ToWake(old(jobs), j)
    {
      hide Good, Boxes, Progress, LeaveQueue, Unregister, DropCall, Choosing, Peer;
      SameProgress(calls);
      if t !in threads { return ESrch; }
      var p, was := Peer(threads, t), threads[t];
      PeerIs(W(), t);
      RemoveGood(W(), t);
      DropBoxes(threads, calls, delivered, cur, t);
      calls := DropCall(was, calls, cur, t);
      eps := LeaveQueue(eps, was.link, t);
      notifs := Unregister(notifs, was.notif, t);
      threads := threads - {t};
      if p.Some? {
        ghost var mid := calls;
        Choose(p.value);
        ProgressTrans(old(calls), mid, calls);
      }
      rc := Ok;
    }

    method Choose(p: Tid)
      requires Valid() && p in threads && threads[p].reason == IpcCall
      modifies `jobs, `nextJob, `calls, `picked
      ensures Valid() && Progress(old(calls), calls) && W() == Choosing(old(W()), p)
      ensures nextJob == old(nextJob) + 1 && jobs == old(jobs)[old(nextJob) := Waking(p, ByKill)]
      ensures forall j :: WakesFreed(threads, jobs, j) <==> WakesFreed(threads, old(jobs), j)
      ensures forall j :: WakesFreed(threads, jobs, j) ==> ToWake(jobs, j) == ToWake(old(jobs), j)
    {
      hide Good, Boxes, Progress;
      ChooseGood(W(), p);
      NewJob(W());
      RecordBoxes(threads, calls, delivered, cur[p], Log(calls[cur[p]], Picked(nextJob)));
      calls := calls[cur[p] := Log(calls[cur[p]], Picked(nextJob))];
      picked := picked[nextJob := cur[p]];
      jobs := jobs[nextJob := Waking(p, ByKill)];
      nextJob := nextJob + 1;
    }

    /**
     Then the thread chosen is made ready, whatever it is doing by now: the invariants
     survive exactly when it is not waiting on a notification.
     */
    method KillWake(j: nat) returns (stray: bool)
      requires Valid() && j in jobs && jobs[j].Waking? && jobs[j].cause == ByKill
      modifies `threads, `eps, `notifs, `jobs, `calls, `picked, `signalled
      ensures jobs == old(jobs) - {j} && picked == old(picked) - {j} && notifs == old(notifs)
      ensures Progress(old(calls), calls)
      ensures var t := old(jobs)[j].t;
              && (stray <==> WakesFreed(old(threads), old(jobs), j))
              && calls == AfterWake(old(threads), old(calls), cur, old(picked), t, j, ESrch)
              && (Valid() <==> t in old(threads) ==> !OnNotification(old(threads)[t]))
              && if t !in old(threads) then threads == old(threads) && eps == old(eps)
                 else && threads == old(threads)[t := Orphaned(old(threads)[t])]
                      && eps == LeaveQueue(old(eps), old(threads)[t].link, t)
                      && threads[t].status == ESrch && !threads[t].blocked && threads[t].ep.None?
    {
      hide Good, Boxes, Progress, LeaveQueue, EndCall, Marked, Unneeded;
      var t := jobs[j].t;
      stray := t !in threads;
      MarkGood(W(), j);
      MarkBoxes(threads, calls, delivered, cur, picked, t, j);
      calls, picked := Marked(threads, calls, cur, picked, t, j), picked - {j};
      ghost var mid := calls;
      if t in threads {
        ThreadIs(W(), t);
        if OnNotification(threads[t]) {
          WakeWaiter(j, t);
          return;
        }
        Release(t, Orphaned(threads[t]), ESrch, Some(j), false);
        ProgressTrans(old(calls), mid, calls);
      }
      WokenJob(W(), j);
      EndJobGood(W(), j, jobs[j]);
      jobs := jobs - {j};
    }

    /** The same when the thread has gone on to wait on a notification, which keeps it as its waiter. */
    method WakeWaiter(j: nat, t: Tid)
      requires Valid() && j in jobs && t in threads && OnNotification(threads[t])
      modifies `threads, `eps, `jobs
      ensures !Valid() && jobs == old(jobs) - {j} && calls == EndCall(old(threads)[t], calls, cur, t, ESrch, Some(j))
      ensures threads == old(threads)[t := Orphaned(old(threads)[t])]
      ensures eps == LeaveQueue(old(eps), old(threads)[t].link, t)
    {
      hide Good, Boxes, LeaveQueue;
      ThreadIs(W(), t);
      var was := threads[t];
      eps := LeaveQueue(eps, was.link, t);
      threads := threads[t := Orphaned(was)];
      jobs := jobs - {j};
      if was.forgotten {
        StillCarries(W(), t);
      } else {
        StillWaiter(W(), t, was.notif.value);
      }
    }

    /** thread_kill_local(), as far as IPC goes, in one piece. */
    method Kill(t: Tid) returns (rc: Status)
      requires Valid()
      modifies `threads, `eps, `notifs, `jobs, `nextJob, `calls, `picked, `signalled
      ensures Valid() && Progress(old(calls), calls) && jobs == old(jobs) && picked == old(picked)
      ensures rc == (if t in old(threads) then Ok else ESrch) && (rc != Ok ==> unchanged(this))
      ensures rc == Ok ==>
                var p := Peer(old(threads), t);
                && threads == (if p.None? then old(threads)
                               else old(threads)[p.value := Orphaned(old(threads)[p.value])]) - {t}
                && notifs == Unregister(old(notifs), old(threads)[t].notif, t)
                && calls == AfterKill(old(W()), t)
    {
      hide Good, Boxes, Progress, LeaveQueue, Unregister, Removed, Choosing, EndCall, Marked, AfterKill, AfterWake;
      if t !in threads {
        SameProgress(calls);
        return ESrch;
      }
      var p := Peer(threads, t);
      KillSteps(W(), t);
      FreshJob(W());
      rc := KillBegin(t);
      if p.Some? {
        ghost var mid := calls;
        var _ := KillWake(nextJob - 1);
        ProgressTrans(old(calls), mid, calls);
        assert jobs == old(jobs) && picked == old(picked);
      }
    }

    // ---------------------------------------------------------------- runs

    /**
     When a step may be taken: the calling thread runs, a reply goes to a call that was
     received, a wait that blocks finds no other waiter, new ids are new, and the unlocked
     steps do not meet a thread or an object in the state that breaks the invariants.
     */
    predicate Allowed(op: Op)
      reads this
    {
      match op
      case DoCreate(e, n) => e !in eps && n !in notifs
      case DoCall(me, _, _) => Running(me)
      case DoRecv(me, _) => Running(me)
      case DoTakeNext(me, e) => Running(me) && e in eps
      case DoReply(caller, _) => InCallNow(threads, Some(caller)) ==> threads[caller].link == Unlinked
      case DoCallTimeout(t) => t in threads
      case DoDestroyNext(e) => e in eps && !eps[e].active
      case DoDestroyWake(j) => j in jobs && jobs[j].Waking? && jobs[j].cause == ByDestroy
      case DoDestroyFree(e) => e in eps && eps[e] == Endpoint([], [], false)
      case DoPollLoad(j) => j in jobs && jobs[j].Polled?
      case DoPollStore(j) =>
        && j in jobs && jobs[j].Loaded?
        && !Resurrects(threads, notifs, jobs[j].n, jobs[j].bits - jobs[j].matched)
      case DoWait(me, n, mask) => Running(me) && NoOtherWaiter(n, mask)
      case DoRecvOrNotif(me, e, n, mask) => Running(me) && e in eps && n in notifs && NoOtherWaiter(n, mask)
      case DoNotifTimeout(t) => t in threads
      case DoNotifWake(j) =>
        && j in jobs && jobs[j].Unhooked?
        && (jobs[j].waiter.Some? && jobs[j].waiter.value in threads ==> !Elsewhere(threads[jobs[j].waiter.value]))
      case DoNotifFree(j) =>
        j in jobs && jobs[j].Freeing? && (jobs[j].n in notifs ==> notifs[jobs[j].n].waiter.None?)
      case DoKillWake(j) =>
        && j in jobs && jobs[j].Waking? && jobs[j].cause == ByKill
        && (jobs[j].t in threads ==> !OnNotification(threads[jobs[j].t]))
      case _ => true
    }

    predicate NoOtherWaiter(n: NotifId, mask: Bits)
      reads this
    {
      n in notifs ==> notifs[n].waiter.None? || notifs[n].bits * mask != {}
    }

    /**
     Any one step keeps the invariants, and the calls only move on.  A thread that is still to
     be woken goes away only with its own kill.
     */
    method Do(op: Op)
      requires Valid() && Allowed(op)
      modifies this
      ensures Valid() && Progress(old(calls), calls) && old(delivered) <= delivered
      ensures forall j :: WakesFreed(threads, jobs, j) ==>
                && ToWake(jobs, j) == ToWake(old(jobs), j)
                && (WakesFreed(old(threads), old(jobs), j) || op == DoKillBegin(ToWake(jobs, j).value))
    {
      hide Good, Boxes, Progress, EndCall, LeaveQueue, Unregister, DropCall, Removed, Choosing, Popping, AfterWake,
        Took, DidRecvOrNotif, Tag, Taking;
      SameProgress(calls);
      match op
      case DoCreate(e, n) => Create(e, n);
      case DoCall(me, e, msg) => var _ := Call(me, e, msg);
      case DoRecv(me, e) =>
        var rc := Recv(me, e);
        if rc == Ok && old(eps)[e].send != [] { TookThreads(old(W()), me, e, W()); }
      case DoTakeNext(me, e) =>
        var took := TakeNext(me, e);
        if took { TookThreads(old(W()), me, e, W()); }
      case DoReply(caller, reply) => var _ := Reply(caller, reply);
      case DoCallTimeout(t) => CallTimeout(t);
      case DoRecvOrNotif(me, e, n, mask) =>
        var r := RecvOrNotifLocked(me, e, n, mask);
        DidThreads(old(W()), me, e, n, mask, W(), r);
      case _ => DoUnlocked(op);
    }

    /** Waits, signals, notification timeouts, and the steps of whatever does without the lock. */
    method DoUnlocked(op: Op)
      requires Valid() && Allowed(op)
      modifies this
      ensures Valid() && Progress(old(calls), calls) && delivered == old(delivered)
      ensures forall j :: WakesFreed(threads, jobs, j) ==>
                && ToWake(jobs, j) == ToWake(old(jobs), j)
                && (WakesFreed(old(threads), old(jobs), j) || op == DoKillBegin(ToWake(jobs, j).value))
    {
      hide Good, Boxes, Progress, EndCall, LeaveQueue, Unregister, DropCall, Removed, Choosing, Popping, AfterWake, Tag;
      SameProgress(calls);
      match op
      case DoDestroyBegin(e) =>
        var rc := DestroyBegin(e);
        if rc == Ok { PopThreads(old(W()).(eps := old(eps)[e := old(eps)[e].(active := false)]), e); }
      case DoDestroyNext(e) =>
        var _ := DestroyNext(e);
        PopThreads(old(W()), e);
      case DoDestroyWake(j) => var _ := DestroyWake(j);
      case DoDestroyFree(e) => DestroyFree(e);
      case DoKillBegin(t) => var _ := KillBegin(t);
      case DoKillWake(j) => var _ := KillWake(j);
      case DoWait(me, n, mask) => var _ := NotifWait(me, n, mask);
      case DoSignal(n, bits) => var _ := Signal(n, bits);
      case DoNotifTimeout(t) => NotifTimeout(t);
      case _ => DoNotif(op);
    }

    /** The steps of polling and destroying a notification. */
    method DoNotif(op: Op)
      requires Valid() && Allowed(op)
      modifies this
      ensures Valid() && Progress(old(calls), calls) && delivered == old(delivered)
      ensures forall j :: WakesFreed(threads, jobs, j) ==>
                && ToWake(jobs, j) == ToWake(old(jobs), j)
                && WakesFreed(old(threads), old(jobs), j)
    {
      hide Good, Boxes, Progress, EndCall, LeaveQueue, Unregister, Tag;
      SameProgress(calls);
      match op
      case DoPollRead(n, mask) => var _ := PollRead(n, mask);
      case DoPollLoad(j) => PollLoad(j);
      case DoPollStore(j) => var _ := PollStore(j);
      case DoNotifUnhook(n) =>
        if n in notifs { WaiterFree(W(), n); }
        var _ := NotifUnhook(n);
      case DoNotifWake(j) => var _ := NotifWake(j);
      case DoNotifFree(j) => NotifFree(j);
      case _ =>
    }

    /**
     Any interleaving of the steps of any number of CPUs: every request made so far was
     handed to at most one receiver; no caller is woken while its call is open; and a call
     that is over woke its caller exactly once if and only if nothing else hit the caller
     between a destroy or a kill choosing it and waking it.  What a thread holds in its inbox
     is the request delivered to it last.  Bits are accounted for.  A
     wake-up still to come finds its thread's control block given back only if a kill of
     that thread was among the steps, or had been before.
     */
    method Drive(ops: seq<Op>)
      requires Valid()
      modifies this
      ensures Valid() && Progress(old(calls), calls) && Balance(notifs, books)
      ensures old(delivered) <= delivered && Boxes(threads, calls, delivered)
      ensures forall s :: 0 <= s < |calls| ==> Counted(calls[s])
      ensures forall j :: WakesFreed(threads, jobs, j) ==>
                WakesFreed(old(threads), old(jobs), j) || DoKillBegin(ToWake(jobs, j).value) in ops
    {
      hide Good, Boxes, Progress, Counted, Balance, Allowed;
      SameProgress(calls);
      var i := 0;
      while i < |ops|
        invariant 0 <= i <= |ops| && Valid() && Progress(old(calls), calls) && old(delivered) <= delivered
        invariant forall j :: WakesFreed(threads, jobs, j) ==>
                    WakesFreed(old(threads), old(jobs), j) || DoKillBegin(ToWake(jobs, j).value) in ops
      {
        ghost var mid := calls;
        if Allowed(ops[i]) {
          Do(ops[i]);
          ProgressTrans(old(calls), mid, calls);
        }
        i := i + 1;
      }
      BooksOf(W());
      forall s | 0 <= s < |calls| ensures Counted(calls[s]) { EachCounted(W(), s); }
    }

    /** ulmk_ep_init() and ulmk_notif_obj_init() on a new object. */
    method Create(e: EpId, n: NotifId)
      requires Valid() && e !in eps && n !in notifs
      modifies `eps, `notifs
      ensures Valid() && eps == old(eps)[e := Endpoint([], [], true)] && notifs == old(notifs)[n := NotifObj({}, None)]
    {
      hide Good, Boxes;
      NewObjects(W(), e, n);
      eps := eps[e := Endpoint([], [], true)];
      notifs := notifs[n := NotifObj({}, None)];
    }
  }

  /** The steps: a lock section each, or a stretch of unlocked code. */
  datatype Op =
    | DoCreate(e: EpId, n: NotifId)
    | DoCall(me: Tid, e: EpId, msg: Msg)
    | DoRecv(me: Tid, e: EpId)
    | DoTakeNext(me: Tid, e: EpId)
    | DoReply(caller: Tid, reply: Msg)
    | DoCallTimeout(t: Tid)
    | DoDestroyBegin(e: EpId)
    | DoDestroyNext(e: EpId)
    | DoDestroyWake(j: nat)
    | DoDestroyFree(e: EpId)
    | DoPollRead(n: NotifId, mask: Bits)
    | DoPollLoad(j: nat)
    | DoPollStore(j: nat)
    | DoWait(me: Tid, n: NotifId, mask: Bits)
    | DoRecvOrNotif(me: Tid, e: EpId, n: NotifId, mask: Bits)
    | DoSignal(n: NotifId, bits: Bits)
    | DoNotifTimeout(t: Tid)
    | DoNotifUnhook(n: NotifId)
    | DoNotifWake(j: nat)
    | DoNotifFree(j: nat)
    | DoKillBegin(t: Tid)
    | DoKillWake(j: nat)

  /** What the history of a call adds up to. */
  ghost predicate Counted(c: CallRec) {
    && Hands(c.hist) == (if TakenBy(c.stage).Some? then 1 else 0)
    && (Open(c.stage) ==> Wakes(c.hist) == 0)
    && (c.stage.Over? ==> (Wakes(c.hist) == 1 <==> !Hit(c.hist)))
    && (c.stage.Over? && c.stage.how == Ok ==> Hands(c.hist) == 1)
  }

  lemma EachCounted(w: World, s: nat)
    requires Good(w) && s < |w.calls|
    ensures Counted(w.calls[s])
  {
    hide Calls, Histories, JobsOk, Balance, SignalOk, Objects, Hit, Hands, Wakes;
    CountedOnce(w.threads, w.eps, w.calls, w.cur, s);
  }

  // ------------------------------------------------------------ what they do

  /** One rendezvous seen from the receiver: who was taken, what was handed over, and that no older call waited. */
  ghost predicate Took(w: World, me: Tid, e: EpId, w': World) {
    && me in w.threads && e in w.eps && w.eps[e].send != []
    && var c := w.eps[e].send[0];
    && c in w.threads && c != me && w.threads[c].reason == IpcCall && c in w.cur && w.cur[c] < |w.calls|
    && w.calls[w.cur[c]] == CallRec(c, e, w.threads[c].buf, Queued, w.calls[w.cur[c]].hist)
    && w' == Taking(w, me, e) && Progress(w.calls, w'.calls)
    && forall s :: 0 <= s < |w.calls| && w.calls[s].ep == e && w.calls[s].stage == Queued ==> w.cur[c] <= s
  }

  /** What the receiver finds: the request of the oldest caller and who sent it. */
  ghost predicate Got(w: World, me: Tid, e: EpId, w': World) {
    && e in w.eps && w.eps[e].send != []
    && var c := w.eps[e].send[0];
    && c in w.threads && me in w'.threads && c in w'.threads && e in w'.eps
    && w'.threads[me].inbox == w.threads[c].buf && w'.threads[me].sender == Some(c) && !w'.threads[me].blocked
    && w'.threads[c].blocked && w'.threads[c].link == Unlinked && w'.threads[c].buf == w.threads[c].buf
    && w'.eps[e].send == w.eps[e].send[1..] && w'.eps[e].recv == w.eps[e].recv
  }

  /** Taking the oldest caller is one delivery. */
  lemma TakeBoxes(w: World, me: Tid, e: EpId, d: Deliveries)
    requires Good(w) && Boxes(w.threads, w.calls, d) && me in w.threads && Awake(w.threads[me])
    requires e in w.eps && w.eps[e].send != []
    ensures var w' := Taking(w, me, e); var c := w.eps[e].send[0];
            c in w.cur && Boxes(w'.threads, w'.calls, d + [(w.cur[c], me)]) && Got(w, me, e, w')
  {
    hide Good, Boxes;
    TakeGood(w, me, e);
    var w', c := Taking(w, me, e), w.eps[e].send[0];
    ThreadIs(w, c);
    DeliverBoxes(w.threads, w.calls, d, w'.threads, w'.calls, w.cur[c], me);
  }

  lemma PopBoxes(w: World, e: EpId, d: Deliveries)
    requires Good(w) && Boxes(w.threads, w.calls, d) && e in w.eps
    ensures Boxes(Popping(w, e).threads, Popping(w, e).calls, d)
  {
    hide Good, Boxes;
    var j := w.nextJob;
    if w.eps[e].send != [] {
      PopSendGood(w, e);
      var c := w.eps[e].send[0];
      var s := w.cur[c];
      RecordBoxes(w.threads, w.calls, d, s, PopRec(w.calls[s], j));
      ThreadBoxes(w.threads, w.calls[s := PopRec(w.calls[s], j)], d, c, w.threads[c].(link := Popped(j)));
    } else if w.eps[e].recv != [] {
      PopRecvGood(w, e);
      var c := w.eps[e].recv[0];
      ThreadBoxes(w.threads, w.calls, d, c, w.threads[c].(link := Popped(j)));
    }
  }

  lemma TookThreads(w: World, me: Tid, e: EpId, w': World)
    requires Took(w, me, e, w')
    ensures w.threads.Keys <= w'.threads.Keys
  {
    hide Progress;
  }

  lemma DidThreads(w: World, me: Tid, e: EpId, n: NotifId, mask: Bits, w': World, r: Outcome)
    requires e in w.eps && n in w.notifs && me in w.threads && DidRecvOrNotif(w, me, e, n, mask, w', r)
    ensures w.threads.Keys <= w'.threads.Keys
  {
    hide Progress;
  }

  /** A popped thread is there to be woken. */
  lemma PopThreads(w: World, e: EpId)
    requires e in w.eps
    ensures var w' := Popping(w, e);
            forall j :: WakesFreed(w'.threads, w'.jobs, j) ==>
              WakesFreed(w.threads, w.jobs, j) && ToWake(w'.jobs, j) == ToWake(w.jobs, j)
  {
  }

  lemma TookProgress(w: World, me: Tid, e: EpId, w': World)
    requires Took(w, me, e, w')
    ensures Progress(w.calls, w'.calls)
  {
  }

  ghost predicate DidRecvOrNotif(w: World, me: Tid, e: EpId, n: NotifId, mask: Bits, w': World, r: Outcome)
    requires e in w.eps && n in w.notifs && me in w.threads
  {
    var matched := w.notifs[n].bits * mask;
    if matched != {} then
      && r == GotBits(matched)
      && w' == w.(notifs := w.notifs[n := w.notifs[n].(bits := w.notifs[n].bits - matched)],
                  books := w.books.(taken := w.books.taken + Tag(n, matched)))
    else if w.eps[e].send != [] then r == GotMsg && Took(w, me, e, w')
    else r == Blocked && w' == Waiting(w, me, Waits(w.threads[me], Some(e), Some(n), mask), Some(e), Some(n))
  }

  predicate InCallNow(threads: Threads, caller: Option<Tid>) {
    caller.Some? && caller.value in threads && threads[caller.value].reason == IpcCall
  }

  /** After ep_reply_impl(), which does nothing unless the thread is in a call. */
  ghost function AfterReply(w: World, caller: Option<Tid>, reply: Msg): World {
    if InCallNow(w.threads, caller) then
      w.(threads := w.threads[caller.value := Replied(w.threads[caller.value], reply)],
      calls := EndCall(w.threads[caller.value], w.calls, w.cur, caller.value, Ok, None))
    else w
  }

  /** The next thread of a dying endpoint is popped, if there is one. */
  ghost function Popping(w: World, e: EpId): World
    requires e in w.eps
  {
    if w.eps[e].send != [] then PoppingSend(w, e) else if w.eps[e].recv != [] then PoppingRecv(w, e) else w
  }

  /** The threads a destroy finds, callers before receivers; one of the queues is empty. */
  function Line(ep: Endpoint): seq<Tid> {
    ep.send + ep.recv
  }

  /** Exactly the threads of q were made ready, with an error. */
  ghost predicate WokenSoFar(before: Threads, after: Threads, q: seq<Tid>) {
    && after.Keys == before.Keys
    && forall t :: t in before && t in after ==>
         if t in q then !after[t].blocked && after[t].status == EInval else after[t] == before[t]
  }

  function BitsOf(notifs: Notifs, n: NotifId): Bits {
    if n in notifs then notifs[n].bits else {}
  }

  /** The store of a poll sets a bit that the waiter sleeps on. */
  predicate Resurrects(threads: Threads, notifs: Notifs, n: NotifId, bits: Bits) {
    && n in notifs && notifs[n].waiter.Some? && notifs[n].waiter.value in threads
    && bits * threads[notifs[n].waiter.value].mask != {}
  }

  /** The signal reaches a waiter. */
  ghost predicate Reaches(threads: Threads, notifs: Notifs, n: NotifId, bits: Bits) {
    && n in notifs && notifs[n].waiter.Some? && notifs[n].waiter.value in threads
    && (notifs[n].bits + bits) * threads[notifs[n].waiter.value].mask != {}
  }

  /** The thread is queued other than in ep_recv_or_notif, or is the waiter of a notification. */
  predicate Elsewhere(th: Thread) {
    || th.link.OnSend? || (th.link.OnRecv? && !th.reason.RecvOrNotif?)
    || (OnNotification(th) && !th.forgotten)
  }

  predicate Carries(threads: Threads, t: Tid, n: NotifId) {
    t in threads && threads[t].notif == Some(n)
  }

  /** The thread t last received from, if it is blocked in a call now. */
  function Peer(threads: Threads, t: Tid): Option<Tid>
    requires t in threads
  {
    var p := threads[t].sender;
    if p.Some? && p.value in threads && p.value != t && threads[p.value].blocked && threads[p.value].reason == IpcCall
    then p
    else None
  }

  lemma PeerIs(w: World, t: Tid)
    requires Good(w) && t in w.threads
    ensures var p := w.threads[t].sender;
            Peer(w.threads, t) ==
            if p.Some? && p.value in w.threads && p.value != t && w.threads[p.value].reason == IpcCall then p else None
  {
    hide Good;
    var p := w.threads[t].sender;
    if p.Some? && p.value in w.threads { ThreadIs(w, p.value); }
  }

  /** The calls after a kill with nothing in between. */
  ghost function AfterKill(w: World, t: Tid): seq<CallRec>
    requires t in w.threads
  {
    var p, mid, j := Peer(w.threads, t), DropCall(w.threads[t], w.calls, w.cur, t), w.nextJob;
    if p.Some? && p.value in w.cur && w.cur[p.value] < |mid|
    then mid[w.cur[p.value] := EndRec(Log(mid[w.cur[p.value]], Picked(j)), ESrch, Some(j))]
    else mid
  }

  /**
   Of the open calls a kill ends the one the thread made and the one its last client is in,
   whoever received that; any other call the thread has received stays open with no server.
   */
  lemma KillOutcome(w: World, t: Tid, s: nat)
    requires Good(w) && t in w.threads && s < |w.calls|
    ensures |AfterKill(w, t)| == |w.calls|
    ensures AfterKill(w, t)[s].stage ==
            if !Open(w.calls[s].stage) then w.calls[s].stage
            else if w.calls[s].caller == t then Gone(TakenBy(w.calls[s].stage))
            else if Peer(w.threads, t) == Some(w.calls[s].caller) then Over(ESrch, TakenBy(w.calls[s].stage))
            else w.calls[s].stage
  {
    hide JobsOk, Histories, Balance, SignalOk, Objects;
    var p := Peer(w.threads, t);
    assert RecOk(w.calls[s], s, w.threads, w.cur);
    OneCaller(w.threads, w.eps, w.calls, w.cur, t);
    if p.Some? { OneCaller(w.threads, w.eps, w.calls, w.cur, p.value); }
  }

  // ------------------------------------------- ids that outlive their wait

  /** The next call to e looks up the notification its receiver names, and that is not there. */
  predicate LooksUpDead(w: World, e: EpId) {
    && e in w.eps && w.eps[e].recv != [] && w.eps[e].recv[0] in w.threads
    && var n := w.threads[w.eps[e].recv[0]].notif;
    n.Some? && n.value !in w.notifs
  }

  /**
   In every state of every run: such a receiver is in ep_recv and got the id from its last
   wait on a notification, a plain one that a signal ended; or it is in ep_recv_or_notif and
   the destroy of that notification is to wake it.
   */
  lemma DeadLookup(w: World, e: EpId)
    requires Good(w) && LooksUpDead(w, e)
    ensures var t := w.eps[e].recv[0]; var n := w.threads[t].notif.value;
            || (w.threads[t].reason == IpcRecv && t in w.signalled && w.signalled[t] == n)
            || (w.threads[t].reason == RecvOrNotif && exists j :: j in w.jobs && w.jobs[j] == Unhooked(n, Some(t)))
  {
    hide Histories, Balance, Calls, EpOk, Run;
    QueueIs(w, e);
    var t := w.eps[e].recv[0];
    OneThreadJob(w, t);
    CarriesDead(w.threads, w.eps, w.notifs, w.jobs, w.signalled, t);
  }

  // ---------------------------------------------------------------- lemmas

  lemma NewJob(w: World)
    requires Good(w)
    ensures w.nextJob !in w.jobs
  {
  }

  lemma BooksOf(w: World)
    requires Good(w)
    ensures Balance(w.notifs, w.books)
  {
  }

  /** What waking a waiter that was just unhooked does. */
  lemma Unhooking(w: World, n: NotifId)
    requires Good(w) && n in w.notifs && w.notifs[n].waiter.Some?
    ensures var t := w.notifs[n].waiter.value;
            && t in w.threads
            && var th := w.threads[t].(forgotten := true);
            && !Elsewhere(th) && Unhung(th) == Woken(w.threads[t], EInval)
            && (!th.reason.RecvOrNotif? ==> LeaveQueue(w.eps, th.link, t) == w.eps)
  {
    hide JobsOk, Histories, Balance, SignalOk, Calls, EpOk;
    WaiterFree(w, n);
    var t := w.notifs[n].waiter.value;
    assert ThreadOk(w.threads[t], w.eps, w.notifs, t);
  }

  lemma CarriersLeft(before: Threads, after: Threads, w: Option<Tid>, n: NotifId)
    requires w.None? ==> after == before
    requires w.Some? ==> w.value in before && after == before[w.value := Woken(before[w.value], EInval)]
    ensures (exists t: Tid :: Carries(after, t, n)) <==> exists t: Tid :: Carries(before, t, n) && w != Some(t)
  {
    assert forall t: Tid :: Carries(after, t, n) <==> Carries(before, t, n) && w != Some(t);
  }

  lemma NotInCall(w: World, t: Tid)
    requires t in w.threads && OnNotification(w.threads[t])
    ensures forall how, waker :: EndCall(w.threads[t], w.calls, w.cur, t, how, waker) == w.calls
  {
  }

  lemma NoQueue(eps: Eps, link: Link, t: Tid)
    ensures !link.OnSend? && !link.OnRecv? ==> LeaveQueue(eps, link, t) == eps
  {
  }

  lemma NoPick(w: World, j: nat)
    requires Good(w) && j in w.jobs && !w.jobs[j].Waking?
    ensures j !in w.picked
  {
    hide Inv, Histories, Balance, SignalOk, Run;
  }

  lemma FreshJob(w: World)
    requires Good(w)
    ensures w.nextJob !in w.jobs && w.nextJob !in w.picked
  {
    hide Inv, Histories, Balance, SignalOk, Run;
  }

  lemma EndProgress(w: World, t: Tid, how: Status, waker: Option<nat>)
    requires Good(w) && t in w.threads
    ensures Progress(w.calls, EndCall(w.threads[t], w.calls, w.cur, t, how, waker))
  {
    hide JobsOk, Histories, Balance, SignalOk, Objects;
    OneCaller(w.threads, w.eps, w.calls, w.cur, t);
  }

  lemma HeadIs(w: World, e: EpId)
    requires Good(w) && e in w.eps && (w.eps[e].send != [] || w.eps[e].recv != [])
    ensures var t := if w.eps[e].send != [] then w.eps[e].send[0] else w.eps[e].recv[0];
            && t in w.threads && !w.threads[t].link.Popped?
            && (w.eps[e].send != [] ==> w.threads[t].reason == IpcCall && t in w.cur && w.cur[t] < |w.calls|)
            && (w.eps[e].send == [] ==> w.threads[t].reason != IpcCall)
  {
    hide Good, Boxes, PoppingSend, PoppingRecv;
    if w.eps[e].send != [] { PopSendGood(w, e); } else { PopRecvGood(w, e); }
  }

  lemma NobodyWoken(threads: Threads)
    ensures WokenSoFar(threads, threads, [])
  {
  }

  lemma WokenMore(before: Threads, mid: Threads, after: Threads, q: seq<Tid>, t: Tid)
    requires WokenSoFar(before, mid, q) && t in mid && after == mid[t := Woken(mid[t], EInval)]
    ensures WokenSoFar(before, after, q + [t])
  {
  }

  /** What the two steps of a kill come to. */
  lemma KillSteps(w: World, t: Tid)
    requires Good(w) && t in w.threads
    ensures var p, w1 := Peer(w.threads, t), Removed(w, t);
            && w1.threads == w.threads - {t} && w1.jobs == w.jobs && w1.picked == w.picked && w1.nextJob == w.nextJob
            && w1.notifs == Unregister(w.notifs, w.threads[t].notif, t)
            && (p.None? ==> w1.calls == AfterKill(w, t))
            && (p.Some? ==>
                  && p.value in w1.threads && !OnNotification(w.threads[p.value])
                  && var w2 := Choosing(w1, p.value);
                  && w2.threads == w1.threads && w2.notifs == w1.notifs && w2.nextJob == w.nextJob + 1
                  && w2.jobs == w.jobs[w.nextJob := Waking(p.value, ByKill)]
                  && w2.picked == w.picked[w.nextJob := w.cur[p.value]]
                  && AfterWake(w2.threads, w2.calls, w2.cur, w2.picked, p.value, w.nextJob, ESrch) == AfterKill(w, t))
  {
    hide JobsOk, Histories, Balance, SignalOk, Objects, LeaveQueue, Unregister;
    var p := Peer(w.threads, t);
    OneCaller(w.threads, w.eps, w.calls, w.cur, t);
    if p.Some? { OneCaller(w.threads, w.eps, w.calls, w.cur, p.value); }
  }
}
