/**
 The steps that IPC takes without the lock: what popping, choosing, forgetting and late
 waking keep (kernel/ipc/ep.c, kernel/notif/notif.c, kernel/thread/thread.c).
 */
module IpcJobs {
  import opened IpcState
  import opened Sequences

  // ------------------------------------------------------------------ popping

  /** The head of the send queue is popped for job j; its call is dropped. */
  lemma PopSendInv(threads: Threads, eps: Eps, notifs: Notifs, calls: seq<CallRec>, cur: map<Tid, nat>, e: EpId, j: nat)
    requires Inv(threads, eps, notifs, calls, cur) && e in eps && eps[e].send != []
    ensures var c := eps[e].send[0];
            && c in threads && c in cur && cur[c] < |calls|
            && calls[cur[c]].stage == Queued && calls[cur[c]].caller == c
            && threads[c].reason == IpcCall && threads[c].link == OnSend(e) && !threads[c].forgotten
            && Inv(threads[c := threads[c].(link := Popped(j))], eps[e := eps[e].(send := eps[e].send[1..])], notifs,
                   calls[cur[c] := PopRec(calls[cur[c]], j)], cur)
            && Progress(calls, calls[cur[c] := PopRec(calls[cur[c]], j)])
  {
    hide QueueOk, Fifo, RecOk, NotifOk, Progress, Calls;
    var c := eps[e].send[0];
    assert EpOk(threads, eps, e);
    HeadLink(threads, eps, e);
    assert ThreadOk(threads[c], eps, notifs, c);
    OneCaller(threads, eps, calls, cur, c);
    TakeObjects(threads, eps, notifs, e, Popped(j));
    TakeCalls(threads, eps, notifs, calls, cur, e, Popped(j), PopRec(calls[cur[c]], j));
  }

  lemma OneCaller(threads: Threads, eps: Eps, calls: seq<CallRec>, cur: map<Tid, nat>, t: Tid)
    requires Calls(threads, eps, calls, cur) && t in threads
    ensures CallerOk(threads[t], calls, cur, t)
  {
  }

  /** The head of the receive queue is popped for job j. */
  lemma PopRecvInv(threads: Threads, eps: Eps, notifs: Notifs, calls: seq<CallRec>, cur: map<Tid, nat>, e: EpId, j: nat)
    requires Inv(threads, eps, notifs, calls, cur) && e in eps && eps[e].recv != []
    ensures var c := eps[e].recv[0];
            && c in threads && threads[c].link == OnRecv(e)
            && (threads[c].reason == IpcRecv || threads[c].reason == RecvOrNotif)
            && Inv(threads[c := threads[c].(link := Popped(j))], eps[e := eps[e].(recv := eps[e].recv[1..])], notifs,
                   calls, cur)
  {
    hide QueueOk, Fifo, Without;
    var c := eps[e].recv[0];
    assert EpOk(threads, eps, e);
    HeadLink(threads, eps, e);
    var th' := threads[c].(link := Popped(j));
    var threads', eps' := threads[c := th'], eps[e := eps[e].(recv := eps[e].recv[1..])];
    WithoutHead(eps[e].recv);
    assert ThreadOk(threads[c], eps, notifs, c);
    forall x | x in eps' ensures EpOk(threads', eps', x) {
      assert EpOk(threads, eps, x);
      QueueLeave(eps[x].send, threads, OnSend(x), c, th');
      QueueLeave(eps[x].recv, threads, OnRecv(x), c, th');
    }
    forall x | x in threads' ensures ThreadOk(threads'[x], eps', notifs, x) {
      assert ThreadOk(threads[x], eps, notifs, x);
    }
    forall n | n in notifs ensures NotifOk(threads', notifs, n) { assert NotifOk(threads, notifs, n); }
    forall x | x in threads' ensures CallerOk(threads'[x], calls, cur, x) { OneCaller(threads, eps, calls, cur, x); }
    forall s | 0 <= s < |calls| ensures RecOk(calls[s], s, threads', cur) { assert RecOk(calls[s], s, threads, cur); }
    forall x | x in eps' ensures Fifo(eps'[x].send, cur) { assert Fifo(eps[x].send, cur); }
  }

  // ------------------------------------------------------------------- events

  /** An event that leaves the stage of its call alone. */
  lemma LogInv(threads: Threads, eps: Eps, notifs: Notifs, calls: seq<CallRec>, cur: map<Tid, nat>, s: nat, e: Event)
    requires Inv(threads, eps, notifs, calls, cur) && s < |calls|
    ensures Inv(threads, eps, notifs, calls[s := Log(calls[s], e)], cur)
    ensures Progress(calls, calls[s := Log(calls[s], e)])
  {
    hide Objects, Fifo;
    var calls' := calls[s := Log(calls[s], e)];
    forall x | x in threads ensures CallerOk(threads[x], calls', cur, x) { OneCaller(threads, eps, calls, cur, x); }
    forall r | 0 <= r < |calls'| ensures RecOk(calls'[r], r, threads, cur) { assert RecOk(calls[r], r, threads, cur); }
  }

  // ---------------------------------------------------------------- new jobs

  /** A job that has chosen no call. */
  lemma AddJob(threads: Threads, jobs: Jobs, nextJob: nat, calls: seq<CallRec>, picked: map<nat, nat>, job: Job)
    requires JobsOk(threads, jobs, nextJob, calls, picked)
    ensures JobsOk(threads, jobs[nextJob := job], nextJob + 1, calls, picked)
  {
    hide Run;
    var jobs' := jobs[nextJob := job];
    forall t | t in threads ensures ThreadJob(threads[t], jobs', t) { MoreJobs(threads[t], jobs, nextJob, job, t); }
    forall j | j in picked ensures PickOk(j, jobs', calls, picked[j]) { assert PickOk(j, jobs, calls, picked[j]); }
  }

  lemma MoreJobs(th: Thread, jobs: Jobs, nextJob: nat, job: Job, t: Tid)
    requires ThreadJob(th, jobs, t) && nextJob !in jobs
    ensures ThreadJob(th, jobs[nextJob := job], t)
  {
    if th.forgotten {
      var j :| j in jobs && jobs[j] == Unhooked(th.notif.value, Some(t));
      assert jobs[nextJob := job][j] == jobs[j];
    }
  }

  /** A new job chooses the open call s, whose record becomes c. */
  lemma AddPick(threads: Threads, jobs: Jobs, nextJob: nat, calls: seq<CallRec>, picked: map<nat, nat>,
                s: nat, c: CallRec, cause: Cause)
    requires JobsOk(threads, jobs, nextJob, calls, picked) && Histories(calls) && s < |calls| && Open(calls[s].stage)
    requires c == Log(calls[s], Picked(nextJob)) || (calls[s].stage == Queued && c == PopRec(calls[s], nextJob))
    ensures JobsOk(threads, jobs[nextJob := Waking(calls[s].caller, cause)], nextJob + 1, calls[s := c],
                   picked[nextJob := s])
    ensures Histories(calls[s := c])
  {
    hide Run, ThreadJob, HistOk;
    var jobs' := jobs[nextJob := Waking(calls[s].caller, cause)];
    assert HistOk(calls[s]) && nextJob !in Run(calls[s].hist).picks;
    HistPick(calls[s], nextJob);
    AddJob(threads, jobs, nextJob, calls, picked, Waking(calls[s].caller, cause));
    JobsLog(threads, jobs', nextJob + 1, calls, picked, s, c, Picked(nextJob));
    var picked' := picked[nextJob := s];
    forall j | j in picked' ensures PickOk(j, jobs', calls[s := c], picked'[j]) {
      if j != nextJob { assert PickOk(j, jobs', calls[s := c], picked[j]); }
    }
  }

  // ------------------------------------------------------------ finished jobs

  /** Nobody depends on job j any more. */
  ghost predicate Unneeded(threads: Threads, jobs: Jobs, j: nat) {
    j in jobs && forall t :: t in threads ==>
      && threads[t].link != Popped(j)
      && (jobs[j].Unhooked? && jobs[j].waiter == Some(t) ==> !threads[t].forgotten)
  }

  lemma EndJob(threads: Threads, jobs: Jobs, nextJob: nat, calls: seq<CallRec>, picked: map<nat, nat>, j: nat)
    requires JobsOk(threads, jobs, nextJob, calls, picked) && j !in picked && Unneeded(threads, jobs, j)
    ensures JobsOk(threads, jobs - {j}, nextJob, calls, picked)
  {
    hide Run;
    forall t | t in threads ensures ThreadJob(threads[t], jobs - {j}, t) { FewerJobs(threads, jobs, j, t); }
    forall i | i in picked ensures PickOk(i, jobs - {j}, calls, picked[i]) { assert PickOk(i, jobs, calls, picked[i]); }
  }

  lemma FewerJobs(threads: Threads, jobs: Jobs, j: nat, t: Tid)
    requires t in threads && ThreadJob(threads[t], jobs, t) && Unneeded(threads, jobs, j)
    ensures ThreadJob(threads[t], jobs - {j}, t)
  {
    if threads[t].forgotten {
      var i :| i in jobs && jobs[i] == Unhooked(threads[t].notif.value, Some(t));
      assert i in jobs - {j};
    }
  }

  /** The job goes on as another that nobody depends on. */
  lemma NextJob(threads: Threads, jobs: Jobs, nextJob: nat, calls: seq<CallRec>, picked: map<nat, nat>, j: nat,
                job: Job)
    requires JobsOk(threads, jobs, nextJob, calls, picked) && j !in picked && Unneeded(threads, jobs, j)
    ensures JobsOk(threads, jobs[j := job], nextJob, calls, picked)
  {
    hide Run;
    EndJob(threads, jobs, nextJob, calls, picked, j);
    forall t | t in threads ensures ThreadJob(threads[t], jobs[j := job], t) {
      MoreJobs(threads[t], jobs - {j}, j, job, t);
      assert (jobs - {j})[j := job] == jobs[j := job];
    }
    forall i | i in picked ensures PickOk(i, jobs[j := job], calls, picked[i]) {
      assert PickOk(i, jobs, calls, picked[i]);
    }
  }

  /** The jobs of threads that went away. */
  lemma LessThreads(threads: Threads, jobs: Jobs, nextJob: nat, calls: seq<CallRec>, picked: map<nat, nat>, t: Tid)
    requires JobsOk(threads, jobs, nextJob, calls, picked)
    ensures JobsOk(threads - {t}, jobs, nextJob, calls, picked)
  {
    hide Run, ThreadJob, PickOk;
  }

  // ------------------------------------------------------------- late wake-ups

  /** The caller of the call that job j chose is still in it. */
  ghost predicate StillIn(threads: Threads, calls: seq<CallRec>, cur: map<Tid, nat>, t: Tid, s: nat) {
    t in threads && InRecord(threads[t], calls, cur, t) && cur[t] == s
  }

  /** The calls after job j woke t: the one t is in ends, and the one chosen has a late wake-up if that is another. */
  ghost function AfterWake(threads: Threads, calls: seq<CallRec>, cur: map<Tid, nat>, picked: map<nat, nat>, t: Tid,
                           j: nat, how: Status): seq<CallRec> {
    var marked := Marked(threads, calls, cur, picked, t, j);
    if t in threads then EndCall(threads[t], marked, cur, t, how, Some(j)) else marked
  }

  ghost function Marked(threads: Threads, calls: seq<CallRec>, cur: map<Tid, nat>, picked: map<nat, nat>, t: Tid,
                        j: nat): seq<CallRec> {
    if j in picked && picked[j] < |calls| && !StillIn(threads, calls, cur, t, picked[j])
    then calls[picked[j] := Log(calls[picked[j]], Late(j))]
    else calls
  }

  /** Marking a late wake-up; the chosen call is over because its caller is not in it. */
  lemma MarkLate(threads: Threads, eps: Eps, notifs: Notifs, calls: seq<CallRec>, cur: map<Tid, nat>,
                 jobs: Jobs, nextJob: nat, picked: map<nat, nat>, j: nat)
    requires Inv(threads, eps, notifs, calls, cur) && JobsOk(threads, jobs, nextJob, calls, picked) && Histories(calls)
    requires j in jobs && jobs[j].Waking?
    ensures var calls' := Marked(threads, calls, cur, picked, jobs[j].t, j);
            && Inv(threads, eps, notifs, calls', cur) && Progress(calls, calls')
            && JobsOk(threads, jobs, nextJob, calls', picked - {j}) && Histories(calls')
  {
    hide Run, ThreadJob, HistOk, Objects, Fifo, Progress;
    LessPicks(threads, jobs, nextJob, calls, picked, j);
    SameProgress(calls);
    var t := jobs[j].t;
    if j in picked {
      var s := picked[j];
      assert PickOk(j, jobs, calls, s);
      if !StillIn(threads, calls, cur, t, s) {
        assert RecOk(calls[s], s, threads, cur) && HistOk(calls[s]);
        HistLate(calls[s], j);
        LogInv(threads, eps, notifs, calls, cur, s, Late(j));
        JobsLog(threads, jobs, nextJob, calls, picked - {j}, s, Log(calls[s], Late(j)), Late(j));
      }
    }
  }

  lemma SameProgress(calls: seq<CallRec>)
    ensures Progress(calls, calls)
  {
  }

  lemma LessPicks(threads: Threads, jobs: Jobs, nextJob: nat, calls: seq<CallRec>, picked: map<nat, nat>, j: nat)
    requires JobsOk(threads, jobs, nextJob, calls, picked)
    ensures JobsOk(threads, jobs, nextJob, calls, picked - {j})
  {
    hide Run, ThreadJob, PickOk;
  }

  // --------------------------------------------------------------- forgetting

  function Forgotten(threads: Threads, w: Option<Tid>): Threads {
    if w.Some? && w.value in threads then threads[w.value := threads[w.value].(forgotten := true)] else threads
  }

  /** The waiter is taken off the notification and is to be woken by a job. */
  lemma ForgetInv(threads: Threads, eps: Eps, notifs: Notifs, calls: seq<CallRec>, cur: map<Tid, nat>, n: NotifId)
    requires Inv(threads, eps, notifs, calls, cur) && n in notifs
    ensures notifs[n].waiter.Some? ==> notifs[n].waiter.value in threads
    ensures Inv(Forgotten(threads, notifs[n].waiter), eps, notifs[n := notifs[n].(waiter := None)], calls, cur)
  {
    hide EpOk, Fifo;
    var w := notifs[n].waiter;
    assert NotifOk(threads, notifs, n);
    var threads', notifs' := Forgotten(threads, w), notifs[n := notifs[n].(waiter := None)];
    if w.Some? {
      SameEps(threads, eps, notifs, w.value, threads'[w.value]);
      assert ThreadOk(threads[w.value], eps, notifs, w.value);
    }
    forall x | x in threads' ensures ThreadOk(threads'[x], eps, notifs', x) {
      assert ThreadOk(threads[x], eps, notifs, x);
    }
    forall k | k in notifs' ensures NotifOk(threads', notifs', k) { assert NotifOk(threads, notifs, k); }
    forall x | x in threads' ensures CallerOk(threads'[x], calls, cur, x) { OneCaller(threads, eps, calls, cur, x); }
    forall s | 0 <= s < |calls| ensures RecOk(calls[s], s, threads', cur) { assert RecOk(calls[s], s, threads, cur); }
  }

  lemma ForgetJobs(threads: Threads, jobs: Jobs, nextJob: nat, calls: seq<CallRec>, picked: map<nat, nat>,
                   n: NotifId, w: Option<Tid>)
    requires JobsOk(threads, jobs, nextJob, calls, picked)
    requires w.Some? ==> w.value in threads && threads[w.value].notif == Some(n)
    ensures JobsOk(Forgotten(threads, w), jobs[nextJob := Unhooked(n, w)], nextJob + 1, calls, picked)
  {
    hide Run, PickOk;
    var jobs' := jobs[nextJob := Unhooked(n, w)];
    AddJob(threads, jobs, nextJob, calls, picked, Unhooked(n, w));
    if w.Some? {
      assert jobs'[nextJob] == Unhooked(n, Some(w.value));
      assert ThreadJob(threads[w.value], jobs', w.value);
      JobsThread(threads, jobs', nextJob + 1, calls, picked, w.value, threads[w.value].(forgotten := true));
    }
  }

  // ------------------------------------------------- ids that outlive a wait

  /**
   `signalled` names, for a thread whose last wait on a notification was a plain one ended by
   a signal, that notification: only such a thread carries an id while it does not wait.
   */
  ghost predicate SignalOk(threads: Threads, signalled: map<Tid, NotifId>) {
    forall t :: t in threads ==> CarriesOk(threads[t], signalled, t)
  }

  ghost predicate CarriesOk(th: Thread, signalled: map<Tid, NotifId>, t: Tid) {
    if OnNotification(th) then t !in signalled
    else th.notif.Some? ==> t in signalled && signalled[t] == th.notif.value
  }

  /** Whoever carries the id of a destroyed notification was signalled there, or waits for the destroy to wake it. */
  lemma CarriesDead(threads: Threads, eps: Eps, notifs: Notifs, jobs: Jobs, signalled: map<Tid, NotifId>, t: Tid)
    requires Objects(threads, eps, notifs) && SignalOk(threads, signalled)
    requires t in threads && ThreadJob(threads[t], jobs, t)
    requires threads[t].notif.Some? && threads[t].notif.value !in notifs
    ensures || (t in signalled && signalled[t] == threads[t].notif.value && !OnNotification(threads[t]))
            || (threads[t].forgotten && exists j :: j in jobs && jobs[j] == Unhooked(threads[t].notif.value, Some(t)))
  {
    assert ThreadOk(threads[t], eps, notifs, t) && CarriesOk(threads[t], signalled, t);
  }
}
