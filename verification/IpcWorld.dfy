/**
 The whole state of IPC as one value, the invariant that every step keeps, and the steps
 that the operations are made of.
 */
module IpcWorld {
  import opened IpcJobs
  import opened IpcLedger
  import opened IpcState
  import opened Sequences

  datatype World = World(
    threads: Threads,
    eps: Eps,
    notifs: Notifs,
    jobs: Jobs,
    nextJob: nat,
    calls: seq<CallRec>,              // every call so far, oldest first
    cur: map<Tid, nat>,               // the latest call of a thread
    picked: map<nat, nat>,            // the call a waking job has chosen
    signalled: map<Tid, NotifId>,
    books: Ledger)

  ghost predicate Good(w: World) {
    && Inv(w.threads, w.eps, w.notifs, w.calls, w.cur)
    && JobsOk(w.threads, w.jobs, w.nextJob, w.calls, w.picked) && Histories(w.calls)
    && Balance(w.notifs, w.books) && SignalOk(w.threads, w.signalled)
  }

  // ------------------------------------------------------------------- waking

  /** A thread leaves whatever it is blocked on; `mark` says that a signal ended a plain wait. */
  ghost function Released(w: World, t: Tid, th: Thread, how: Status, waker: Option<nat>, mark: bool): World
    requires t in w.threads
  {
    w.(threads := w.threads[t := th],
    eps := LeaveQueue(w.eps, w.threads[t].link, t),
    notifs := Unregister(w.notifs, w.threads[t].notif, t),
    calls := EndCall(w.threads[t], w.calls, w.cur, t, how, waker),
    signalled := if mark && th.notif.Some? then w.signalled[t := th.notif.value] else w.signalled)
  }

  ghost predicate MayRelease(w: World, t: Tid, th: Thread, how: Status, waker: Option<nat>, mark: bool) {
    && t in w.threads && Awake(th)
    && (how == Ok && w.threads[t].reason == IpcCall ==> w.threads[t].link == Unlinked)
    && (waker.Some? ==> waker.value !in w.picked)
    && if mark then th.notif.Some?
       else th.notif.None? || (!OnNotification(w.threads[t]) && th.notif == w.threads[t].notif)
  }

  lemma ReleaseGood(w: World, t: Tid, th: Thread, how: Status, waker: Option<nat>, mark: bool)
    requires Good(w) && MayRelease(w, t, th, how, waker, mark)
    ensures Good(Released(w, t, th, how, waker, mark))
    ensures Progress(w.calls, Released(w, t, th, how, waker, mark).calls)
  {
    hide Objects, Calls, JobsOk, Histories, Balance, EndCall, LeaveQueue, Unregister, Progress;
    Wake(w.threads, w.eps, w.notifs, w.calls, w.cur, t, th, how, waker);
    JobsEnd(w.threads, w.eps, w.jobs, w.nextJob, w.calls, w.cur, w.picked, t, how, waker);
    JobsThread(w.threads, w.jobs, w.nextJob, EndCall(w.threads[t], w.calls, w.cur, t, how, waker), w.picked, t, th);
    UnregisterBits(w.notifs, w.books, w.threads[t].notif, t);
    assert CarriesOk(w.threads[t], w.signalled, t);
  }

  lemma UnregisterBits(notifs: Notifs, l: Ledger, n: Option<NotifId>, t: Tid)
    requires Balance(notifs, l)
    ensures Balance(Unregister(notifs, n, t), l)
  {
    hide Balance;
    BalanceSame(notifs, l, Unregister(notifs, n, t));
  }

  // -------------------------------------------------------------------- calls

  ghost function Queueing(w: World, t: Tid, th: Thread, e: EpId): World
    requires t in w.threads && e in w.eps
  {
    w.(threads := w.threads[t := th], eps := w.eps[e := w.eps[e].(send := w.eps[e].send + [t])],
    calls := w.calls + [NewCall(t, e, th.buf, Queued)], cur := w.cur[t := |w.calls|])
  }

  ghost function Handing(w: World, t: Tid, th: Thread, e: EpId, server: Tid): World
    requires t in w.threads
  {
    w.(threads := w.threads[t := th], calls := w.calls + [NewCall(t, e, th.buf, Taken(server))],
    cur := w.cur[t := |w.calls|])
  }

  lemma NewHist(t: Tid, e: EpId, msg: Msg, server: Tid)
    ensures HistOk(NewCall(t, e, msg, Queued)) && Run(NewCall(t, e, msg, Queued).hist).picks == {}
    ensures HistOk(NewCall(t, e, msg, Taken(server))) && Run(NewCall(t, e, msg, Taken(server)).hist).picks == {}
  {
    assert [] + [Handed(server)] == [Handed(server)];
    RunMore([], Handed(server));
  }

  lemma QueueGood(w: World, t: Tid, th: Thread, e: EpId)
    requires Good(w) && t in w.threads && Awake(w.threads[t]) && e in w.eps && w.eps[e].recv == []
    requires Calling(th, e) && th.link == OnSend(e) && th.notif == w.threads[t].notif
    ensures Good(Queueing(w, t, th, e)) && Progress(w.calls, Queueing(w, t, th, e).calls)
  {
    hide Inv, JobsOk, Histories, Balance, Progress, Run, HistOk;
    BlockSend(w.threads, w.eps, w.notifs, w.calls, w.cur, t, th, e);
    NewHist(t, e, th.buf, 0);
    JobsNewCall(w.threads, w.jobs, w.nextJob, w.calls, w.picked, NewCall(t, e, th.buf, Queued));
    JobsThread(w.threads, w.jobs, w.nextJob, w.calls + [NewCall(t, e, th.buf, Queued)], w.picked, t, th);
    assert CarriesOk(w.threads[t], w.signalled, t);
  }

  lemma HandGood(w: World, t: Tid, th: Thread, e: EpId, server: Tid)
    requires Good(w) && t in w.threads && Awake(w.threads[t]) && e in w.eps
    requires Calling(th, e) && th.link == Unlinked && th.notif == w.threads[t].notif
    ensures Good(Handing(w, t, th, e, server)) && Progress(w.calls, Handing(w, t, th, e, server).calls)
  {
    hide Inv, JobsOk, Histories, Balance, Progress, Run, HistOk;
    BlockTaken(w.threads, w.eps, w.notifs, w.calls, w.cur, t, th, e, server);
    NewHist(t, e, th.buf, server);
    JobsNewCall(w.threads, w.jobs, w.nextJob, w.calls, w.picked, NewCall(t, e, th.buf, Taken(server)));
    JobsThread(w.threads, w.jobs, w.nextJob, w.calls + [NewCall(t, e, th.buf, Taken(server))], w.picked, t, th);
    assert CarriesOk(w.threads[t], w.signalled, t);
  }

  /** The receiver me takes the caller at the head of the send queue of e. */
  ghost function Taking(w: World, me: Tid, e: EpId): World
    requires e in w.eps && w.eps[e].send != [] && me in w.threads
  {
    var c := w.eps[e].send[0];
    if c in w.threads && c in w.cur && w.cur[c] < |w.calls| && c != me then
      w.(threads := w.threads[c := w.threads[c].(link := Unlinked)]
                             [me := w.threads[me].(inbox := w.threads[c].buf, sender := Some(c))],
      eps := w.eps[e := w.eps[e].(send := w.eps[e].send[1..])],
      calls := w.calls[w.cur[c] := TakeRec(w.calls[w.cur[c]], me)])
    else w
  }

  lemma TakeGood(w: World, me: Tid, e: EpId)
    requires Good(w) && e in w.eps && w.eps[e].send != [] && me in w.threads && Awake(w.threads[me])
    ensures var c := w.eps[e].send[0];
            && c in w.threads && c != me && c in w.cur && w.cur[c] < |w.calls| && w.threads[c].reason == IpcCall
            && w.calls[w.cur[c]].stage == Queued && w.calls[w.cur[c]].caller == c && w.calls[w.cur[c]].ep == e
            && w.calls[w.cur[c]].msg == w.threads[c].buf
    ensures forall s :: 0 <= s < |w.calls| && w.calls[s].ep == e && w.calls[s].stage == Queued ==>
              w.cur[w.eps[e].send[0]] <= s
    ensures Good(Taking(w, me, e)) && Progress(w.calls, Taking(w, me, e).calls)
  {
    hide Inv, JobsOk, Histories, Balance, Progress, Run, HistOk;
    TakeHead(w.threads, w.eps, w.notifs, w.calls, w.cur, e, me);
    var c := w.eps[e].send[0];
    var w1 := w.(threads := w.threads[c := w.threads[c].(link := Unlinked)],
                 eps := w.eps[e := w.eps[e].(send := w.eps[e].send[1..])],
                 calls := w.calls[w.cur[c] := TakeRec(w.calls[w.cur[c]], me)]);
    OneHist(w.calls, w.cur[c]);
    HistTake(w.calls[w.cur[c]], me);
    JobsLog(w.threads, w.jobs, w.nextJob, w.calls, w.picked, w.cur[c], TakeRec(w.calls[w.cur[c]], me), Handed(me));
    OneThreadJob(w, c);
    JobsThread(w.threads, w.jobs, w.nextJob, w1.calls, w.picked, c, w1.threads[c]);
    assert CarriesOk(w.threads[c], w.signalled, c) && CarriesOk(w.threads[me], w.signalled, me);
    TouchGood(w1, me, w1.threads[me].(inbox := w1.threads[c].buf, sender := Some(c)));
  }

  lemma OneHist(calls: seq<CallRec>, s: nat)
    requires Histories(calls) && s < |calls|
    ensures HistOk(calls[s])
  {
  }

  lemma OneThreadJob(w: World, t: Tid)
    requires JobsOk(w.threads, w.jobs, w.nextJob, w.calls, w.picked) && t in w.threads
    ensures ThreadJob(w.threads[t], w.jobs, t)
  {
    hide Run;
  }

  lemma TouchGood(w: World, t: Tid, th: Thread)
    requires Good(w) && t in w.threads
    requires th == w.threads[t].(sender := th.sender, inbox := th.inbox, got := th.got, status := th.status)
    ensures Good(w.(threads := w.threads[t := th]))
  {
    hide Inv, JobsOk, Histories, Balance;
    Touch(w.threads, w.eps, w.notifs, w.calls, w.cur, t, th);
    OneThreadJob(w, t);
    JobsThread(w.threads, w.jobs, w.nextJob, w.calls, w.picked, t, th);
    assert CarriesOk(w.threads[t], w.signalled, t);
  }

  // -------------------------------------------------------------------- waits

  ghost function Waiting(w: World, t: Tid, th: Thread, e: Option<EpId>, n: Option<NotifId>): World {
    w.(threads := w.threads[t := th], eps := JoinRecv(w.eps, e, t), notifs := Register(w.notifs, n, t),
    signalled := if n.Some? then w.signalled - {t} else w.signalled)
  }

  lemma WaitGood(w: World, t: Tid, th: Thread, e: Option<EpId>, n: Option<NotifId>)
    requires Good(w) && t in w.threads && Awake(w.threads[t]) && WaitsFor(th, e, n)
    requires n.None? ==> th.notif == w.threads[t].notif
    requires e.Some? ==> e.value in w.eps && w.eps[e.value].send == []
    requires n.Some? ==> && n.value in w.notifs && w.notifs[n.value].waiter.None?
                         && w.notifs[n.value].bits * th.mask == {}
    ensures Good(Waiting(w, t, th, e, n))
  {
    hide Inv, JobsOk, Histories, Balance, JoinRecv;
    BlockWait(w.threads, w.eps, w.notifs, w.calls, w.cur, t, th, e, n);
    JobsThread(w.threads, w.jobs, w.nextJob, w.calls, w.picked, t, th);
    BalanceSame(w.notifs, w.books, Register(w.notifs, n, t));
    assert CarriesOk(w.threads[t], w.signalled, t);
  }

  /** A second waiter displaces the first, which then sleeps on a notification that does not know it. */
  lemma SecondWaiter(w: World, n: NotifId, me: Tid, w': World)
    requires Good(w) && n in w.notifs && w.notifs[n].waiter.Some? && me in w.threads && !w.threads[me].blocked
    requires n in w'.notifs && w'.notifs[n].waiter == Some(me)
    requires forall t :: t in w.threads && t != me ==> t in w'.threads && w'.threads[t] == w.threads[t]
    ensures !Good(w')
  {
    hide JobsOk, Histories, Balance, Calls, SignalOk;
    var t := w.notifs[n].waiter.value;
    assert NotifOk(w.threads, w.notifs, n) && ThreadOk(w.threads[t], w.eps, w.notifs, t);
    assert !ThreadOk(w'.threads[t], w'.eps, w'.notifs, t);
  }

  // ------------------------------------------------------------ notifications

  /** New pending bits that do not concern the waiter, and what the ledger says of them. */
  lemma BitsGood(w: World, n: NotifId, bits: Bits, l: Ledger)
    requires Good(w) && n in w.notifs && Balance(w.notifs[n := w.notifs[n].(bits := bits)], l)
    requires w.notifs[n].waiter.Some? && w.notifs[n].waiter.value in w.threads ==>
               bits * w.threads[w.notifs[n].waiter.value].mask == {}
    ensures Good(w.(notifs := w.notifs[n := w.notifs[n].(bits := bits)], books := l))
  {
    hide Inv, JobsOk, Histories, Balance, SignalOk;
    SetBits(w.threads, w.eps, w.notifs, w.calls, w.cur, n, bits);
  }

  lemma BooksGood(w: World, l: Ledger)
    requires Good(w) && Balance(w.notifs, l)
    ensures Good(w.(books := l))
  {
  }

  /** A pending bit that the waiter sleeps on breaks the invariant. */
  lemma BitsBad(w: World, n: NotifId)
    requires n in w.notifs && w.notifs[n].waiter.Some? && w.notifs[n].waiter.value in w.threads
    requires w.notifs[n].bits * w.threads[w.notifs[n].waiter.value].mask != {}
    ensures !Good(w)
  {
    hide JobsOk, Histories, Balance, Calls, SignalOk, EpOk, ThreadOk;
    assert !NotifOk(w.threads, w.notifs, n);
  }

  /** The waiter is there, blocked, in no call, and with none of its bits pending. */
  lemma WaiterFree(w: World, n: NotifId)
    requires Good(w) && n in w.notifs
    ensures w.notifs[n].waiter.Some? ==>
              var t := w.notifs[n].waiter.value;
              && t in w.threads && w.threads[t].notif == Some(n) && w.threads[t].blocked && !w.threads[t].forgotten
              && OnNotification(w.threads[t]) && w.notifs[n].bits * w.threads[t].mask == {}
  {
    hide JobsOk, Histories, Balance, Calls, SignalOk, EpOk;
    assert NotifOk(w.threads, w.notifs, n);
    if w.notifs[n].waiter.Some? {
      var t := w.notifs[n].waiter.value;
      assert ThreadOk(w.threads[t], w.eps, w.notifs, t);
    }
  }

  // ----------------------------------------------------------------- objects

  lemma NoObj(w: World, n: NotifId, l: Ledger)
    requires Good(w) && n in w.notifs && w.notifs[n].waiter.None? && Balance(w.notifs - {n}, l)
    ensures Good(w.(notifs := w.notifs - {n}, books := l))
  {
    hide JobsOk, Histories, Balance, Calls, SignalOk, EpOk;
    var notifs' := w.notifs - {n};
    forall t | t in w.threads ensures ThreadOk(w.threads[t], w.eps, notifs', t) {
      assert ThreadOk(w.threads[t], w.eps, w.notifs, t);
    }
    forall k | k in notifs' ensures NotifOk(w.threads, notifs', k) { assert NotifOk(w.threads, w.notifs, k); }
  }

  /** A notification freed under its waiter leaves it asleep. */
  lemma ObjWithWaiter(w: World, n: NotifId, w': World)
    requires Good(w) && n in w.notifs && w.notifs[n].waiter.Some? && w'.threads == w.threads && n !in w'.notifs
    ensures !Good(w')
  {
    hide JobsOk, Histories, Balance, Calls, SignalOk, EpOk;
    var t := w.notifs[n].waiter.value;
    assert NotifOk(w.threads, w.notifs, n);
    assert !ThreadOk(w'.threads[t], w'.eps, w'.notifs, t);
  }

  lemma NewObjects(w: World, e: EpId, n: NotifId)
    requires Good(w) && e !in w.eps && n !in w.notifs
    ensures Good(w.(eps := w.eps[e := Endpoint([], [], true)], notifs := w.notifs[n := NotifObj({}, None)]))
  {
    hide JobsOk, Histories, Balance, SignalOk;
    var eps', notifs' := w.eps[e := Endpoint([], [], true)], w.notifs[n := NotifObj({}, None)];
    BalanceNew(w.notifs, w.books, n);
    forall t | t in w.threads ensures ThreadOk(w.threads[t], eps', notifs', t) {
      assert ThreadOk(w.threads[t], w.eps, w.notifs, t);
    }
    forall x | x in eps' ensures EpOk(w.threads, eps', x) && Fifo(eps'[x].send, w.cur) {
      if x != e {
        assert EpOk(w.threads, w.eps, x) && Fifo(w.eps[x].send, w.cur);
      } else {
        forall t | t in w.threads ensures w.threads[t].link != OnSend(e) && w.threads[t].link != OnRecv(e) {
          assert ThreadOk(w.threads[t], w.eps, w.notifs, t);
        }
      }
    }
    forall k | k in notifs' ensures NotifOk(w.threads, notifs', k) {
      if k != n { assert NotifOk(w.threads, w.notifs, k); }
    }
  }

  /** An endpoint with nobody queued can go. */
  lemma NoEp(w: World, e: EpId)
    requires Good(w) && e in w.eps && w.eps[e].send == [] && w.eps[e].recv == []
    ensures Good(w.(eps := w.eps - {e}))
  {
    hide JobsOk, Histories, Balance, SignalOk;
    var eps' := w.eps - {e};
    assert EpOk(w.threads, w.eps, e) && QueueOk(w.eps[e].send, w.threads, OnSend(e));
    assert QueueOk(w.eps[e].recv, w.threads, OnRecv(e));
    forall x | x in eps' ensures EpOk(w.threads, eps', x) && Fifo(eps'[x].send, w.cur) {
      assert EpOk(w.threads, w.eps, x) && Fifo(w.eps[x].send, w.cur);
    }
    forall t | t in w.threads ensures ThreadOk(w.threads[t], eps', w.notifs, t) {
      assert ThreadOk(w.threads[t], w.eps, w.notifs, t);
      assert t !in w.eps[e].send && t !in w.eps[e].recv;
    }
  }

  /** An endpoint freed under a queued thread leaves that linked to nothing. */
  lemma EpWithQueue(w: World, e: EpId, w': World)
    requires Good(w) && e in w.eps && (w.eps[e].send != [] || w.eps[e].recv != [])
    requires w'.threads == w.threads && e !in w'.eps
    ensures !Good(w')
  {
    hide JobsOk, Histories, Balance, Calls, SignalOk;
    assert EpOk(w.threads, w.eps, e);
    HeadLink(w.threads, w.eps, e);
    var t := if w.eps[e].send != [] then w.eps[e].send[0] else w.eps[e].recv[0];
    assert !ThreadOk(w'.threads[t], w'.eps, w'.notifs, t);
  }

  lemma Deactivate(w: World, e: EpId)
    requires Good(w) && e in w.eps
    ensures Good(w.(eps := w.eps[e := w.eps[e].(active := false)]))
  {
    hide JobsOk, Histories, Balance, SignalOk, QueueOk, Fifo;
    var eps' := w.eps[e := w.eps[e].(active := false)];
    forall x | x in eps' ensures EpOk(w.threads, eps', x) && Fifo(eps'[x].send, w.cur) {
      assert EpOk(w.threads, w.eps, x) && Fifo(w.eps[x].send, w.cur);
    }
    forall t | t in w.threads ensures ThreadOk(w.threads[t], eps', w.notifs, t) {
      assert ThreadOk(w.threads[t], w.eps, w.notifs, t);
    }
  }

  // --------------------------------------------------------------------- jobs

  /** The head of the send queue of e is popped. */
  ghost function PoppingSend(w: World, e: EpId): World
    requires e in w.eps && w.eps[e].send != []
  {
    var c := w.eps[e].send[0];
    if c in w.threads && c in w.cur && w.cur[c] < |w.calls| then
      w.(threads := w.threads[c := w.threads[c].(link := Popped(w.nextJob))],
      eps := w.eps[e := w.eps[e].(send := w.eps[e].send[1..])],
      calls := w.calls[w.cur[c] := PopRec(w.calls[w.cur[c]], w.nextJob)],
      jobs := w.jobs[w.nextJob := Waking(c, ByDestroy)], nextJob := w.nextJob + 1,
      picked := w.picked[w.nextJob := w.cur[c]])
    else w
  }

  lemma PopSendGood(w: World, e: EpId)
    requires Good(w) && e in w.eps && w.eps[e].send != []
    ensures var c := w.eps[e].send[0];
            && c in w.threads && c in w.cur && w.cur[c] < |w.calls| && w.calls[w.cur[c]].stage == Queued
            && w.threads[c].reason == IpcCall && w.threads[c].link == OnSend(e)
    ensures Good(PoppingSend(w, e)) && Progress(w.calls, PoppingSend(w, e).calls)
  {
    hide Inv, JobsOk, Histories, Balance, Progress, Run, HistOk;
    PopSendInv(w.threads, w.eps, w.notifs, w.calls, w.cur, e, w.nextJob);
    var c, w' := w.eps[e].send[0], PoppingSend(w, e);
    AddPick(w.threads, w.jobs, w.nextJob, w.calls, w.picked, w.cur[c], w'.calls[w.cur[c]], ByDestroy);
    JobsThread(w.threads, w'.jobs, w'.nextJob, w'.calls, w'.picked, c, w'.threads[c]);
    assert CarriesOk(w.threads[c], w.signalled, c);
  }

  ghost function PoppingRecv(w: World, e: EpId): World
    requires e in w.eps && w.eps[e].recv != []
  {
    var c := w.eps[e].recv[0];
    if c in w.threads then
      w.(threads := w.threads[c := w.threads[c].(link := Popped(w.nextJob))],
      eps := w.eps[e := w.eps[e].(recv := w.eps[e].recv[1..])],
      jobs := w.jobs[w.nextJob := Waking(c, ByDestroy)], nextJob := w.nextJob + 1)
    else w
  }

  lemma PopRecvGood(w: World, e: EpId)
    requires Good(w) && e in w.eps && w.eps[e].recv != []
    ensures w.eps[e].recv[0] in w.threads && w.threads[w.eps[e].recv[0]].reason != IpcCall
    ensures w.threads[w.eps[e].recv[0]].link == OnRecv(e)
    ensures Good(PoppingRecv(w, e))
  {
    hide Inv, JobsOk, Histories, Balance, Run;
    PopRecvInv(w.threads, w.eps, w.notifs, w.calls, w.cur, e, w.nextJob);
    var c, w' := w.eps[e].recv[0], PoppingRecv(w, e);
    AddJob(w.threads, w.jobs, w.nextJob, w.calls, w.picked, Waking(c, ByDestroy));
    OneThreadJob(w.(jobs := w'.jobs, nextJob := w'.nextJob), c);
    JobsThread(w.threads, w'.jobs, w'.nextJob, w.calls, w.picked, c, w'.threads[c]);
    assert CarriesOk(w.threads[c], w.signalled, c);
  }

  /** A killed thread leaves its queue, its notification and its call. */
  ghost function Removed(w: World, t: Tid): World
    requires t in w.threads
  {
    w.(threads := w.threads - {t}, eps := LeaveQueue(w.eps, w.threads[t].link, t),
    notifs := Unregister(w.notifs, w.threads[t].notif, t),
    calls := DropCall(w.threads[t], w.calls, w.cur, t))
  }

  lemma RemoveGood(w: World, t: Tid)
    requires Good(w) && t in w.threads
    ensures Good(Removed(w, t)) && Progress(w.calls, Removed(w, t).calls)
  {
    hide Objects, Calls, JobsOk, Histories, Balance, LeaveQueue, Unregister, DropCall, Progress;
    Remove(w.threads, w.eps, w.notifs, w.calls, w.cur, t);
    JobsDrop(w, t);
    LessThreads(w.threads, w.jobs, w.nextJob, DropCall(w.threads[t], w.calls, w.cur, t), w.picked, t);
    UnregisterBits(w.notifs, w.books, w.threads[t].notif, t);
  }

  lemma JobsDrop(w: World, t: Tid)
    requires Good(w) && t in w.threads
    ensures JobsOk(w.threads, w.jobs, w.nextJob, DropCall(w.threads[t], w.calls, w.cur, t), w.picked)
    ensures Histories(DropCall(w.threads[t], w.calls, w.cur, t))
  {
    hide JobsOk, HistOk, Objects, Balance, SignalOk;
    OneCaller(w.threads, w.eps, w.calls, w.cur, t);
    if InRecord(w.threads[t], w.calls, w.cur, t) {
      HistGone(w.calls[w.cur[t]]);
      JobsLog(w.threads, w.jobs, w.nextJob, w.calls, w.picked, w.cur[t], GoneRec(w.calls[w.cur[t]]), Killed);
    }
  }

  /** A kill chooses the thread p, which is in a call, to be woken. */
  ghost function Choosing(w: World, p: Tid): World
    requires p in w.threads
  {
    if p in w.cur && w.cur[p] < |w.calls| then
      w.(calls := w.calls[w.cur[p] := Log(w.calls[w.cur[p]], Picked(w.nextJob))],
      jobs := w.jobs[w.nextJob := Waking(p, ByKill)], nextJob := w.nextJob + 1,
      picked := w.picked[w.nextJob := w.cur[p]])
    else w
  }

  lemma ChooseGood(w: World, p: Tid)
    requires Good(w) && p in w.threads && w.threads[p].reason == IpcCall
    ensures p in w.cur && w.cur[p] < |w.calls| && Open(w.calls[w.cur[p]].stage) && w.calls[w.cur[p]].caller == p
    ensures Good(Choosing(w, p)) && Progress(w.calls, Choosing(w, p).calls)
  {
    hide JobsOk, Histories, Balance, SignalOk, Progress, Objects, Run;
    OneCaller(w.threads, w.eps, w.calls, w.cur, p);
    LogInv(w.threads, w.eps, w.notifs, w.calls, w.cur, w.cur[p], Picked(w.nextJob));
    var c := Log(w.calls[w.cur[p]], Picked(w.nextJob));
    AddPick(w.threads, w.jobs, w.nextJob, w.calls, w.picked, w.cur[p], c, ByKill);
  }

  lemma AddJobGood(w: World, job: Job)
    requires Good(w)
    ensures Good(w.(jobs := w.jobs[w.nextJob := job], nextJob := w.nextJob + 1))
  {
    hide Inv, JobsOk, Histories, Balance, SignalOk;
    AddJob(w.threads, w.jobs, w.nextJob, w.calls, w.picked, job);
  }

  /** Job j, which has chosen no call any more, is done or goes on as another. */
  lemma EndJobGood(w: World, j: nat, job: Job)
    requires Good(w) && j !in w.picked && Unneeded(w.threads, w.jobs, j)
    ensures Good(w.(jobs := w.jobs - {j})) && Good(w.(jobs := w.jobs[j := job]))
  {
    hide Inv, JobsOk, Histories, Balance, SignalOk, Unneeded;
    EndJob(w.threads, w.jobs, w.nextJob, w.calls, w.picked, j);
    NextJob(w.threads, w.jobs, w.nextJob, w.calls, w.picked, j, job);
  }

  /** A job that is no wake-up is needed by nobody. */
  lemma PlainJob(w: World, j: nat)
    requires Good(w) && j in w.jobs && (w.jobs[j].Polled? || w.jobs[j].Loaded? || w.jobs[j].Freeing?)
    ensures j !in w.picked && Unneeded(w.threads, w.jobs, j)
  {
    hide Inv, Histories, Balance, SignalOk, Run;
    forall t | t in w.threads ensures w.threads[t].link != Popped(j) { assert ThreadJob(w.threads[t], w.jobs, t); }
  }

  /** Once its thread is awake or gone, a waking job is needed by nobody. */
  lemma WokenJob(w: World, j: nat)
    requires Good(w) && j in w.jobs && w.jobs[j].Waking?
    requires w.jobs[j].t in w.threads ==> w.threads[w.jobs[j].t].link == Unlinked
    ensures Unneeded(w.threads, w.jobs, j)
  {
    hide Inv, Histories, Balance, SignalOk, Run;
    forall t | t in w.threads ensures w.threads[t].link != Popped(j) { assert ThreadJob(w.threads[t], w.jobs, t); }
  }

  lemma UnhookedJob(w: World, j: nat)
    requires Good(w) && j in w.jobs && w.jobs[j].Unhooked?
    requires w.jobs[j].waiter.Some? && w.jobs[j].waiter.value in w.threads ==>
               !w.threads[w.jobs[j].waiter.value].forgotten
    ensures j !in w.picked && Unneeded(w.threads, w.jobs, j)
  {
    hide Inv, Histories, Balance, SignalOk, Run;
    forall t | t in w.threads ensures w.threads[t].link != Popped(j) { assert ThreadJob(w.threads[t], w.jobs, t); }
  }

  lemma MarkGood(w: World, j: nat)
    requires Good(w) && j in w.jobs && w.jobs[j].Waking?
    ensures var calls' := Marked(w.threads, w.calls, w.cur, w.picked, w.jobs[j].t, j);
            Good(w.(calls := calls', picked := w.picked - {j})) && Progress(w.calls, calls')
  {
    hide Inv, JobsOk, Histories, Balance, SignalOk, Progress, Marked;
    MarkLate(w.threads, w.eps, w.notifs, w.calls, w.cur, w.jobs, w.nextJob, w.picked, j);
  }

  lemma ForgetGood(w: World, n: NotifId)
    requires Good(w) && n in w.notifs
    ensures Good(w.(threads := Forgotten(w.threads, w.notifs[n].waiter),
                    notifs := w.notifs[n := w.notifs[n].(waiter := None)],
                    jobs := w.jobs[w.nextJob := Unhooked(n, w.notifs[n].waiter)], nextJob := w.nextJob + 1))
  {
    hide Inv, JobsOk, Histories, Balance;
    WaiterFree(w, n);
    ForgetInv(w.threads, w.eps, w.notifs, w.calls, w.cur, n);
    ForgetJobs(w.threads, w.jobs, w.nextJob, w.calls, w.picked, n, w.notifs[n].waiter);
    BalanceSame(w.notifs, w.books, w.notifs[n := w.notifs[n].(waiter := None)]);
    var t := w.notifs[n].waiter;
    assert t.Some? ==> CarriesOk(w.threads[t.value], w.signalled, t.value);
  }

  // ----------------------------------------------------------- broken states

  /** A thread made ready while still on a queue breaks the invariant. */
  lemma StillLinked(w: World, t: Tid)
    requires t in w.threads && w.threads[t].reason == NotBlocked
    requires w.threads[t].link.OnSend? || w.threads[t].link.OnRecv?
    ensures !Good(w)
  {
    hide JobsOk, Histories, Balance, Calls, SignalOk, EpOk, NotifOk;
    assert !ThreadOk(w.threads[t], w.eps, w.notifs, t);
  }

  /** So does one that is still the waiter of a notification. */
  lemma StillWaiter(w: World, t: Tid, n: NotifId)
    requires n in w.notifs && w.notifs[n].waiter == Some(t) && t in w.threads && w.threads[t].reason == NotBlocked
    ensures !Good(w)
  {
    hide JobsOk, Histories, Balance, Calls, SignalOk, EpOk, ThreadOk;
    assert !NotifOk(w.threads, w.notifs, n);
  }

  /** And one that carries an id without having been signalled. */
  lemma StillCarries(w: World, t: Tid)
    requires t in w.threads && w.threads[t].reason == NotBlocked && w.threads[t].notif.Some? && t !in w.signalled
    ensures !Good(w)
  {
    hide JobsOk, Histories, Balance, Inv;
    assert !CarriesOk(w.threads[t], w.signalled, t);
  }

  /** A reply without a delivery. */
  lemma NotDelivered(w: World, s: nat)
    requires s < |w.calls| && w.calls[s].stage == Over(Ok, None)
    ensures !Good(w)
  {
    hide JobsOk, Histories, Balance, Objects, SignalOk, CallerOk, Fifo;
    assert !RecOk(w.calls[s], s, w.threads, w.cur);
  }

  lemma ThreadIs(w: World, t: Tid)
    requires Good(w) && t in w.threads
    ensures ThreadOk(w.threads[t], w.eps, w.notifs, t) && CallerOk(w.threads[t], w.calls, w.cur, t)
    ensures CarriesOk(w.threads[t], w.signalled, t)
    ensures !w.threads[t].blocked ==> Awake(w.threads[t])
    ensures !OnNotification(w.threads[t]) || w.threads[t].forgotten ==>
              Unregister(w.notifs, w.threads[t].notif, t) == w.notifs
  {
    hide JobsOk, Histories, Balance, EpOk, Fifo, RecOk;
    var n := w.threads[t].notif;
    if n.Some? && n.value in w.notifs { assert NotifOk(w.threads, w.notifs, n.value); }
  }

  lemma QueueIs(w: World, e: EpId)
    requires Good(w) && e in w.eps
    ensures w.eps[e].send == [] || w.eps[e].recv == []
    ensures forall t :: t in w.eps[e].send || t in w.eps[e].recv ==> t in w.threads
    ensures w.eps[e].recv != [] ==>
              var srv := w.eps[e].recv[0];
              && srv in w.threads && w.threads[srv].link == OnRecv(e) && w.threads[srv].blocked
              && (w.threads[srv].reason == IpcRecv || w.threads[srv].reason == RecvOrNotif)
  {
    hide JobsOk, Histories, Balance, SignalOk, Calls, NotifOk;
    assert EpOk(w.threads, w.eps, e) && QueueOk(w.eps[e].send, w.threads, OnSend(e));
    assert QueueOk(w.eps[e].recv, w.threads, OnRecv(e));
    HeadLink(w.threads, w.eps, e);
    if w.eps[e].recv != [] { assert ThreadOk(w.threads[w.eps[e].recv[0]], w.eps, w.notifs, w.eps[e].recv[0]); }
  }
}
