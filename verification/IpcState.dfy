/**
 Threads, endpoints and notifications as IPC sees them (kernel/ipc/ep.c,
 kernel/notif/notif.c), and what every step of IPC keeps.

 A section under the IPC lock is one step.  What runs without the lock is cut where
 another CPU can come in between; what it has read is kept in a job until its next step.
 A queue is the sequence of its threads and `link` is what a thread's own list node
 says.  Each call of a thread is recorded, oldest first, with what happened to it.
 */
module IpcState {
  import opened Sequences

  type Tid = nat
  type EpId = nat
  type NotifId = nat
  type Msg = nat
  type Bits = set<nat>

  datatype Reason = NotBlocked | IpcCall | IpcRecv | OnNotif | RecvOrNotif

  /** A popped thread is on no queue; the job that popped it is to wake it. */
  datatype Link = Unlinked | OnSend(ep: EpId) | OnRecv(ep: EpId) | Popped(job: nat)

  datatype Status = Ok | EInval | ETimeout | ESrch

  datatype Thread = Thread(
    blocked: bool,
    reason: Reason,
    ep: Option<EpId>,
    notif: Option<NotifId>,  // may outlive the wait it was set for
    forgotten: bool,         // a destroy took it off its notification and is to wake it
    mask: Bits,
    link: Link,
    sender: Option<Tid>,
    buf: Msg,      // the caller's own message buffer: request, then reply
    inbox: Msg,    // the request last delivered to this thread
    got: Bits,     // the bits last delivered to this thread
    status: Status)

  datatype Endpoint = Endpoint(send: seq<Tid>, recv: seq<Tid>, active: bool)

  datatype NotifObj = NotifObj(bits: Bits, waiter: Option<Tid>)

  type Threads = map<Tid, Thread>
  type Eps = map<EpId, Endpoint>
  type Notifs = map<NotifId, NotifObj>

  datatype Cause = ByDestroy | ByKill

  /** What code without the lock has read and not yet acted on. */
  datatype Job =
    | Waking(t: Tid, cause: Cause)                   // a thread chosen to be woken
    | Polled(n: NotifId, matched: Bits)              // notif_poll_impl() after reading the matching bits
    | Loaded(n: NotifId, matched: Bits, bits: Bits)  // and after loading the bits to clear them in
    | Unhooked(n: NotifId, waiter: Option<Tid>)      // notif_destroy_impl() after clearing the waiter
    | Freeing(n: NotifId)                            // and after waking it

  type Jobs = map<nat, Job>

  /** The thread a job is to wake. */
  function ToWake(jobs: Jobs, j: nat): Option<Tid> {
    if j !in jobs then None
    else match jobs[j]
      case Waking(t, _) => Some(t)
      case Unhooked(_, w) => w
      case _ => None
  }

  /** That thread was killed since: the job will write to a control block that was given back. */
  predicate WakesFreed(threads: Threads, jobs: Jobs, j: nat) {
    ToWake(jobs, j).Some? && ToWake(jobs, j).value !in threads
  }

  /** A call is queued, popped by a destroy, taken by one receiver, over with its caller woken, or gone with it. */
  datatype Stage =
    | Queued
    | Dropped
    | Taken(server: Tid)
    | Over(how: Status, taker: Option<Tid>)
    | Gone(taker: Option<Tid>)

  predicate Open(stage: Stage) {
    stage.Queued? || stage.Dropped? || stage.Taken?
  }

  /** The receiver that got the request, if one did. */
  function TakenBy(stage: Stage): Option<Tid> {
    match stage
    case Queued => None
    case Dropped => None
    case Taken(t) => Some(t)
    case Over(_, taker) => taker
    case Gone(taker) => taker
  }

  /**
   What happened to a call: its request was handed to a receiver; a job chose its caller to
   be woken; the caller was made ready, by a job or not; the caller was killed; a job that
   had chosen the caller woke it, or what was left of it, when the call was over already.
   */
  datatype Event =
    | Handed(to: Tid)
    | Picked(job: nat)
    | Readied(how: Status, waker: Option<nat>)
    | Killed
    | Late(job: nat)

  datatype CallRec = CallRec(caller: Tid, ep: EpId, msg: Msg, stage: Stage, hist: seq<Event>)

  function NewCall(t: Tid, e: EpId, msg: Msg, stage: Stage): CallRec {
    CallRec(t, e, msg, stage, if stage.Taken? then [Handed(stage.server)] else [])
  }

  function Log(c: CallRec, e: Event): CallRec {
    c.(hist := c.hist + [e])
  }

  function TakeRec(c: CallRec, server: Tid): CallRec {
    Log(c, Handed(server)).(stage := Taken(server))
  }

  function PopRec(c: CallRec, job: nat): CallRec {
    Log(c, Picked(job)).(stage := Dropped)
  }

  function EndRec(c: CallRec, how: Status, waker: Option<nat>): CallRec {
    Log(c, Readied(how, waker)).(stage := Over(how, TakenBy(c.stage)))
  }

  function GoneRec(c: CallRec): CallRec {
    Log(c, Killed).(stage := Gone(TakenBy(c.stage)))
  }

  // -------------------------------------------------------------- invariants

  /** The queue holds exactly the threads linked there, once each. */
  ghost predicate QueueOk(q: seq<Tid>, threads: Threads, link: Link) {
    Distinct(q) && forall t :: t in q <==> t in threads && threads[t].link == link
  }

  /** Callers and receivers never wait at an endpoint at the same time. */
  ghost predicate EpOk(threads: Threads, eps: Eps, e: EpId)
    requires e in eps
  {
    && (eps[e].send == [] || eps[e].recv == [])
    && QueueOk(eps[e].send, threads, OnSend(e)) && QueueOk(eps[e].recv, threads, OnRecv(e))
  }

  /** A thread's link agrees with what it is blocked on. */
  ghost predicate ThreadOk(th: Thread, eps: Eps, notifs: Notifs, t: Tid) {
    && (th.blocked <==> th.reason != NotBlocked)
    && (th.link.OnSend? ==> th.reason == IpcCall && th.ep == Some(th.link.ep) && th.link.ep in eps)
    && (th.link.OnRecv? ==> (th.reason == IpcRecv || th.reason == RecvOrNotif)
                            && th.ep == Some(th.link.ep) && th.link.ep in eps)
    && (th.reason == IpcRecv || th.reason == RecvOrNotif ==> th.link.OnRecv? || th.link.Popped?)
    && (th.link.Popped? ==> th.reason == IpcCall || th.reason == IpcRecv || th.reason == RecvOrNotif)
    && (OnNotification(th) ==>
          && th.notif.Some?
          && (th.forgotten || (th.notif.value in notifs && notifs[th.notif.value].waiter == Some(t))))
    && (th.forgotten ==> OnNotification(th))
  }

  predicate OnNotification(th: Thread) {
    th.reason == OnNotif || th.reason == RecvOrNotif
  }

  /** A registered waiter is blocked there with none of its bits pending. */
  ghost predicate NotifOk(threads: Threads, notifs: Notifs, n: NotifId)
    requires n in notifs
  {
    notifs[n].waiter.Some? ==>
      var t := notifs[n].waiter.value;
      && t in threads && OnNotification(threads[t]) && threads[t].notif == Some(n) && !threads[t].forgotten
      && notifs[n].bits * threads[t].mask == {}
  }

  ghost predicate Objects(threads: Threads, eps: Eps, notifs: Notifs) {
    && (forall e :: e in eps ==> EpOk(threads, eps, e))
    && (forall t :: t in threads ==> ThreadOk(threads[t], eps, notifs, t))
    && (forall n :: n in notifs ==> NotifOk(threads, notifs, n))
  }

  /** The call a thread is in, with its request still in the thread's buffer. */
  ghost predicate CallerOk(th: Thread, calls: seq<CallRec>, cur: map<Tid, nat>, t: Tid) {
    th.reason == IpcCall ==>
      && t in cur && cur[t] < |calls| && th.ep == Some(calls[cur[t]].ep)
      && calls[cur[t]].caller == t && calls[cur[t]].msg == th.buf
      && (if th.link.OnSend? then calls[cur[t]].stage == Queued
          else if th.link.Popped? then calls[cur[t]].stage == Dropped
          else calls[cur[t]].stage.Taken?)
  }

  /** An open call has its caller in it; a reply ends only a call that some receiver got. */
  ghost predicate RecOk(r: CallRec, s: nat, threads: Threads, cur: map<Tid, nat>) {
    && (Open(r.stage) ==>
          && r.caller in threads && threads[r.caller].reason == IpcCall
          && r.caller in cur && cur[r.caller] == s)
    && (r.stage.Over? && r.stage.how == Ok ==> r.stage.taker.Some?)
  }

  /** The send queue is in the order of the calls. */
  ghost predicate Fifo(q: seq<Tid>, cur: map<Tid, nat>) {
    && (forall i :: 0 <= i < |q| ==> q[i] in cur)
    && (forall i, j :: 0 <= i < j < |q| ==> cur[q[i]] < cur[q[j]])
  }

  ghost predicate Calls(threads: Threads, eps: Eps, calls: seq<CallRec>, cur: map<Tid, nat>) {
    && (forall t :: t in threads ==> CallerOk(threads[t], calls, cur, t))
    && (forall s :: 0 <= s < |calls| ==> RecOk(calls[s], s, threads, cur))
    && (forall e :: e in eps ==> Fifo(eps[e].send, cur))
  }

  ghost predicate Inv(threads: Threads, eps: Eps, notifs: Notifs, calls: seq<CallRec>, cur: map<Tid, nat>) {
    Objects(threads, eps, notifs) && Calls(threads, eps, calls, cur)
  }

  /** What later steps keep of earlier calls: a call moves from queued to taken to over, each at most once. */
  ghost predicate Progress(before: seq<CallRec>, after: seq<CallRec>) {
    |before| <= |after| && forall s :: 0 <= s < |before| ==> Follows(before[s], after[s])
  }

  ghost predicate Follows(a: CallRec, b: CallRec) {
    && b.caller == a.caller && b.ep == a.ep && b.msg == a.msg
    && (a.stage.Dropped? || a.stage.Taken? ==>
          b.stage == a.stage || (!Open(b.stage) && b.stage.taker == TakenBy(a.stage)))
    && (!Open(a.stage) ==> b.stage == a.stage) && a.hist <= b.hist
  }

  lemma ProgressTrans(a: seq<CallRec>, b: seq<CallRec>, c: seq<CallRec>)
    requires Progress(a, b) && Progress(b, c)
    ensures Progress(a, c)
  {
    forall s | 0 <= s < |a| ensures Follows(a[s], c[s]) { assert Follows(a[s], b[s]) && Follows(b[s], c[s]); }
  }

  // --------------------------------------------------------------- histories

  predicate Ends(e: Event) {
    e.Readied? || e.Killed?
  }

  datatype Summary = Summary(
    ok: bool,
    ended: bool,
    readied: bool,
    taker: Option<Tid>,
    picks: set<nat>,
    lates: set<nat>,
    ender: Option<nat>)

  /** One event: choosing, handing and ending need an open call, a late wake-up one that is over. */
  function Advance(s: Summary, e: Event): Summary {
    match e
    case Handed(t) => s.(ok := s.ok && !s.ended && s.taker.None?, taker := Some(t))
    case Picked(j) => s.(ok := s.ok && !s.ended && j !in s.picks, picks := s.picks + {j})
    case Readied(_, w) => s.(ok := s.ok && !s.ended, ended := true, readied := true, ender := w)
    case Killed => s.(ok := s.ok && !s.ended, ended := true)
    case Late(j) => s.(ok := s.ok && s.ended && j in s.picks && j !in s.lates && s.ender != Some(j),
                       lates := s.lates + {j})
  }

  function Run(h: seq<Event>): Summary {
    if h == [] then Summary(true, false, false, None, {}, {}, None)
    else Advance(Run(h[..|h| - 1]), h[|h| - 1])
  }

  lemma RunMore(h: seq<Event>, e: Event)
    ensures Run(h + [e]) == Advance(Run(h), e)
  {
    assert (h + [e])[..|h|] == h;
  }

  /** The history of a call agrees with what its record says became of it. */
  ghost predicate HistOk(c: CallRec) {
    var r := Run(c.hist);
    && r.ok && (r.ended <==> !Open(c.stage)) && (r.readied <==> c.stage.Over?) && r.taker == TakenBy(c.stage)
  }

  ghost predicate Histories(calls: seq<CallRec>) {
    forall s :: 0 <= s < |calls| ==> HistOk(calls[s])
  }

  /** How often the request was handed over. */
  function Hands(h: seq<Event>): nat {
    if h == [] then 0 else Hands(h[..|h| - 1]) + if h[|h| - 1].Handed? then 1 else 0
  }

  /** How often the caller was made ready on account of this call. */
  function Wakes(h: seq<Event>): nat {
    if h == [] then 0 else Wakes(h[..|h| - 1]) + if h[|h| - 1].Readied? || h[|h| - 1].Late? then 1 else 0
  }

  lemma {:induction false} Counts(h: seq<Event>)
    requires Run(h).ok
    ensures Hands(h) == if Run(h).taker.Some? then 1 else 0
    ensures Wakes(h) == |Run(h).lates| + if Run(h).readied then 1 else 0
    ensures Run(h).lates != {} || Run(h).readied ==> Run(h).ended
    decreases |h|
  {
    if h != [] { Counts(h[..|h| - 1]); }
  }

  /** After its end only late wake-ups happen to a call. */
  lemma {:induction false} AfterEnd(h: seq<Event>, m: nat, i: nat)
    requires Run(h).ok && m < i < |h| && Ends(h[m])
    ensures h[i].Late?
    decreases |h|
  {
    var g := h[..|h| - 1];
    if i == |h| - 1 { EndedBy(g, m); } else { AfterEnd(g, m, i); }
  }

  lemma {:induction false} EndedBy(h: seq<Event>, m: nat)
    requires m < |h| && Ends(h[m])
    ensures Run(h).ended
    decreases |h|
  {
    if m < |h| - 1 { EndedBy(h[..|h| - 1], m); }
  }

  lemma {:induction false} EndIn(h: seq<Event>) returns (m: nat)
    requires Run(h).ended
    ensures m < |h| && Ends(h[m])
    decreases |h|
  {
    if Ends(h[|h| - 1]) { m := |h| - 1; } else { m := EndIn(h[..|h| - 1]); }
  }

  lemma {:induction false} PickIn(h: seq<Event>, j: nat) returns (i: nat)
    requires j in Run(h).picks
    ensures i < |h| && h[i] == Picked(j)
    decreases |h|
  {
    if h[|h| - 1] == Picked(j) { i := |h| - 1; } else { i := PickIn(h[..|h| - 1], j); }
  }

  lemma {:induction false} LateIn(h: seq<Event>, j: nat) returns (k: nat)
    requires j in Run(h).lates
    ensures k < |h| && h[k] == Late(j)
    decreases |h|
  {
    if h[|h| - 1] == Late(j) { k := |h| - 1; } else { k := LateIn(h[..|h| - 1], j); }
  }

  lemma {:induction false} LateCounted(h: seq<Event>, k: nat)
    requires k < |h| && h[k].Late?
    ensures h[k].job in Run(h).lates
    decreases |h|
  {
    if k < |h| - 1 { LateCounted(h[..|h| - 1], k); }
  }

  /** Something else made the caller ready, or killed it, between being chosen and being woken by a job. */
  ghost predicate Hit(h: seq<Event>) {
    exists i, m, k :: 0 <= i < m < k < |h| && h[i].Picked? && Ends(h[m]) && h[k] == Late(h[i].job)
  }

  lemma LateIsHit(h: seq<Event>, j: nat)
    requires Run(h).ok && j in Run(h).lates
    ensures Hit(h)
  {
    var k := LateIn(h, j);
    LateAfter(h, k);
  }

  lemma {:induction false} LateAfter(h: seq<Event>, k: nat)
    requires Run(h).ok && k < |h| && h[k].Late?
    ensures exists i, m :: 0 <= i < m < k && h[i] == Picked(h[k].job) && Ends(h[m])
    decreases |h|
  {
    var g := h[..|h| - 1];
    if k < |h| - 1 {
      LateAfter(g, k);
      var i, m :| 0 <= i < m < k && g[i] == Picked(g[k].job) && Ends(g[m]);
      assert h[i] == g[i] && h[m] == g[m];
    } else {
      var i := PickIn(g, h[k].job);
      var m := EndIn(g);
      if m < i { AfterEnd(g, m, i); }
      assert h[i] == g[i] && h[m] == g[m];
    }
  }

  /**
   A call that is over woke its caller exactly once, if and only if nothing else hit the
   caller between a job's choosing it and that job's waking it.
   */
  lemma OnceIff(c: CallRec)
    requires HistOk(c) && c.stage.Over?
    ensures Wakes(c.hist) == 1 <==> !Hit(c.hist)
    ensures Wakes(c.hist) >= 1
  {
    var r := Run(c.hist);
    Counts(c.hist);
    if j :| j in r.lates {
      LateIsHit(c.hist, j);
    } else {
      assert r.lates == {};
      if Hit(c.hist) {
        var h := c.hist;
        var i, m, k :| 0 <= i < m < k < |h| && h[i].Picked? && Ends(h[m]) && h[k] == Late(h[i].job);
        LateCounted(c.hist, k);
      }
    }
  }

  /** A job whose wake-up ends the call was not hit: nothing else ended the call after it was chosen. */
  lemma InTime(h: seq<Event>, i: nat, k: nat)
    requires Run(h).ok && i < k < |h| && h[i].Picked? && h[k].Readied? && h[k].waker == Some(h[i].job)
    ensures forall m :: i < m < k ==> !Ends(h[m])
  {
    forall m | i < m < k ensures !Ends(h[m]) {
      if Ends(h[m]) { AfterEnd(h, m, k); }
    }
  }

  /**
   Each request is handed to at most one receiver; a call that is not over has not woken
   its caller; a call that got its reply was handed to exactly one receiver.
   */
  lemma CountedOnce(threads: Threads, eps: Eps, calls: seq<CallRec>, cur: map<Tid, nat>, s: nat)
    requires Calls(threads, eps, calls, cur) && Histories(calls) && s < |calls|
    ensures Hands(calls[s].hist) == if TakenBy(calls[s].stage).Some? then 1 else 0
    ensures Open(calls[s].stage) ==> Wakes(calls[s].hist) == 0
    ensures calls[s].stage.Over? ==> (Wakes(calls[s].hist) == 1 <==> !Hit(calls[s].hist))
    ensures calls[s].stage.Over? && calls[s].stage.how == Ok ==> Hands(calls[s].hist) == 1
  {
    assert RecOk(calls[s], s, threads, cur) && HistOk(calls[s]);
    Counts(calls[s].hist);
    if calls[s].stage.Over? { OnceIff(calls[s]); }
  }

  // -------------------------------------------------------------------- jobs

  /** Whoever is popped or taken off its notification has a job that is to wake it. */
  ghost predicate ThreadJob(th: Thread, jobs: Jobs, t: Tid) {
    && (th.link.Popped? ==> th.link.job in jobs && jobs[th.link.job] == Waking(t, ByDestroy))
    && (th.forgotten ==> th.notif.Some? && exists j :: j in jobs && jobs[j] == Unhooked(th.notif.value, Some(t)))
  }

  /** Job j chose call s and has not woken its caller yet. */
  ghost predicate PickOk(j: nat, jobs: Jobs, calls: seq<CallRec>, s: nat) {
    && j in jobs && jobs[j].Waking? && s < |calls| && calls[s].caller == jobs[j].t
    && var r := Run(calls[s].hist); j in r.picks && j !in r.lates && r.ender != Some(j)
  }

  ghost predicate JobsOk(threads: Threads, jobs: Jobs, nextJob: nat, calls: seq<CallRec>, picked: map<nat, nat>) {
    && (forall j :: j in jobs ==> j < nextJob)
    && (forall t :: t in threads ==> ThreadJob(threads[t], jobs, t))
    && (forall j :: j in picked ==> PickOk(j, jobs, calls, picked[j]))
    && (forall s, j :: 0 <= s < |calls| && j in Run(calls[s].hist).picks ==> j < nextJob)
  }

  lemma JobsThread(threads: Threads, jobs: Jobs, nextJob: nat, calls: seq<CallRec>, picked: map<nat, nat>,
                   t: Tid, th': Thread)
    requires JobsOk(threads, jobs, nextJob, calls, picked) && ThreadJob(th', jobs, t)
    ensures JobsOk(threads[t := th'], jobs, nextJob, calls, picked)
  {
    hide ThreadJob, PickOk, Run;
  }

  lemma JobsNewCall(threads: Threads, jobs: Jobs, nextJob: nat, calls: seq<CallRec>, picked: map<nat, nat>, c: CallRec)
    requires JobsOk(threads, jobs, nextJob, calls, picked) && Histories(calls) && HistOk(c) && Run(c.hist).picks == {}
    ensures JobsOk(threads, jobs, nextJob, calls + [c], picked) && Histories(calls + [c])
  {
    hide ThreadJob, Run, HistOk;
    forall j | j in picked ensures PickOk(j, jobs, calls + [c], picked[j]) { assert PickOk(j, jobs, calls, picked[j]); }
  }

  /** The event is not a wake-up by one of these jobs. */
  predicate NotBy(e: Event, picked: map<nat, nat>) {
    && (e.Late? ==> e.job !in picked) && (e.Readied? && e.waker.Some? ==> e.waker.value !in picked)
  }

  /** One more event in the history of call s. */
  lemma JobsLog(threads: Threads, jobs: Jobs, nextJob: nat, calls: seq<CallRec>, picked: map<nat, nat>,
                s: nat, c: CallRec, e: Event)
    requires JobsOk(threads, jobs, nextJob, calls, picked) && Histories(calls) && s < |calls|
    requires c.caller == calls[s].caller && c.hist == calls[s].hist + [e] && HistOk(c)
    requires NotBy(e, picked) && (e.Picked? ==> e.job < nextJob)
    ensures JobsOk(threads, jobs, nextJob, calls[s := c], picked) && Histories(calls[s := c])
  {
    hide ThreadJob, Run, HistOk;
    var calls' := calls[s := c];
    RunMore(calls[s].hist, e);
    forall j | j in picked ensures PickOk(j, jobs, calls', picked[j]) { assert PickOk(j, jobs, calls, picked[j]); }
    forall r, j | 0 <= r < |calls'| && j in Run(calls'[r].hist).picks ensures j < nextJob {
      if r != s { assert j in Run(calls[r].hist).picks; }
    }
  }

  lemma HistTake(c: CallRec, server: Tid)
    requires HistOk(c) && c.stage == Queued
    ensures HistOk(TakeRec(c, server))
  {
    RunMore(c.hist, Handed(server));
  }

  lemma HistEnd(c: CallRec, how: Status, waker: Option<nat>)
    requires HistOk(c) && Open(c.stage)
    ensures HistOk(EndRec(c, how, waker))
  {
    RunMore(c.hist, Readied(how, waker));
  }

  lemma HistGone(c: CallRec)
    requires HistOk(c) && Open(c.stage)
    ensures HistOk(GoneRec(c))
  {
    RunMore(c.hist, Killed);
  }

  lemma HistPick(c: CallRec, j: nat)
    requires HistOk(c) && Open(c.stage) && j !in Run(c.hist).picks
    ensures HistOk(Log(c, Picked(j))) && (c.stage == Queued ==> HistOk(PopRec(c, j)))
    ensures j in Run(c.hist + [Picked(j)]).picks && j !in Run(c.hist + [Picked(j)]).lates
    ensures Run(c.hist + [Picked(j)]).ender != Some(j)
  {
    RunMore(c.hist, Picked(j));
    LatesPicked(c.hist);
    Unended(c.hist);
  }

  lemma {:induction false} LatesPicked(h: seq<Event>)
    requires Run(h).ok
    ensures Run(h).lates <= Run(h).picks
    decreases |h|
  {
    if h != [] { LatesPicked(h[..|h| - 1]); }
  }

  lemma {:induction false} Unended(h: seq<Event>)
    ensures !Run(h).ended ==> Run(h).ender.None?
    decreases |h|
  {
    if h != [] { Unended(h[..|h| - 1]); }
  }

  lemma HistLate(c: CallRec, j: nat)
    requires HistOk(c) && !Open(c.stage)
    requires j in Run(c.hist).picks && j !in Run(c.hist).lates && Run(c.hist).ender != Some(j)
    ensures HistOk(Log(c, Late(j)))
  {
    RunMore(c.hist, Late(j));
  }

  // ------------------------------------------------------------ queue lemmas

  lemma WithoutFifo(s: seq<Tid>, x: Tid, cur: map<Tid, nat>)
    requires Distinct(s) && Fifo(s, cur) && x in s
    ensures Fifo(Without(s, x), cur)
  {
    hide Without, Distinct;
    var i :| 0 <= i < |s| && s[i] == x;
    WithoutAt(s, i);
    var w := s[..i] + s[i + 1..];
    forall j, k | 0 <= j < k < |w| ensures w[j] in cur && w[k] in cur && cur[w[j]] < cur[w[k]] {
      var j', k' := if j < i then j else j + 1, if k < i then k else k + 1;
      assert w[j] == s[j'] && w[k] == s[k'];
    }
    forall j | 0 <= j < |w| ensures w[j] in cur { assert w[j] == s[if j < i then j else j + 1]; }
  }

  // ------------------------------------------------------------------ waking

  predicate Awake(th: Thread) {
    !th.blocked && th.reason == NotBlocked && th.link == Unlinked && !th.forgotten
  }

  function LeaveQueue(eps: Eps, link: Link, t: Tid): Eps {
    match link
    case OnSend(e) => if e in eps then eps[e := eps[e].(send := Without(eps[e].send, t))] else eps
    case OnRecv(e) => if e in eps then eps[e := eps[e].(recv := Without(eps[e].recv, t))] else eps
    case Unlinked => eps
    case Popped(_) => eps
  }

  /** Nobody waits at n any more, if the waiter there is t. */
  function Unregister(notifs: Notifs, n: Option<NotifId>, t: Tid): Notifs {
    if n.Some? && n.value in notifs && notifs[n.value].waiter == Some(t)
    then notifs[n.value := notifs[n.value].(waiter := None)]
    else notifs
  }

  /** An id left over from an earlier wait unregisters nobody, whether or not that notification still exists. */
  lemma StaleIsHarmless(threads: Threads, eps: Eps, notifs: Notifs, t: Tid)
    requires Objects(threads, eps, notifs) && t in threads && !OnNotification(threads[t])
    ensures Unregister(notifs, threads[t].notif, t) == notifs
  {
    var n := threads[t].notif;
    if n.Some? && n.value in notifs { assert NotifOk(threads, notifs, n.value); }
  }

  ghost predicate InRecord(th: Thread, calls: seq<CallRec>, cur: map<Tid, nat>, t: Tid) {
    th.reason == IpcCall && t in cur && cur[t] < |calls|
  }

  /** The call t is in, if any, ends this way. */
  ghost function EndCall(th: Thread, calls: seq<CallRec>, cur: map<Tid, nat>, t: Tid, how: Status,
                         waker: Option<nat>): seq<CallRec> {
    if InRecord(th, calls, cur, t) then calls[cur[t] := EndRec(calls[cur[t]], how, waker)] else calls
  }

  lemma JobsEnd(threads: Threads, eps: Eps, jobs: Jobs, nextJob: nat, calls: seq<CallRec>, cur: map<Tid, nat>,
                picked: map<nat, nat>, t: Tid, how: Status, waker: Option<nat>)
    requires Calls(threads, eps, calls, cur) && t in threads
    requires JobsOk(threads, jobs, nextJob, calls, picked) && Histories(calls)
    requires waker.Some? ==> waker.value !in picked
    ensures JobsOk(threads, jobs, nextJob, EndCall(threads[t], calls, cur, t, how, waker), picked)
    ensures Histories(EndCall(threads[t], calls, cur, t, how, waker))
  {
    hide JobsOk, HistOk;
    assert CallerOk(threads[t], calls, cur, t);
    if InRecord(threads[t], calls, cur, t) {
      HistEnd(calls[cur[t]], how, waker);
      JobsLog(threads, jobs, nextJob, calls, picked, cur[t], EndRec(calls[cur[t]], how, waker), Readied(how, waker));
    }
  }

  lemma QueueLeave(q: seq<Tid>, threads: Threads, link: Link, t: Tid, th': Thread)
    requires QueueOk(q, threads, link) && t in threads && th'.link != link
    ensures QueueOk(if threads[t].link == link then Without(q, t) else q, threads[t := th'], link)
  {
    hide Without, Distinct;
    WithoutIs(q, t);
  }

  lemma QueueJoin(q: seq<Tid>, threads: Threads, link: Link, t: Tid, th': Thread)
    requires QueueOk(q, threads, link) && t in threads && threads[t].link != link && th'.link == link
    ensures QueueOk(q + [t], threads[t := th'], link)
  {
  }

  lemma WakeEp(threads: Threads, eps: Eps, notifs: Notifs, t: Tid, th': Thread, e: EpId)
    requires Objects(threads, eps, notifs) && t in threads && Awake(th') && e in eps
    ensures EpOk(threads[t := th'], LeaveQueue(eps, threads[t].link, t), e)
  {
    hide QueueOk;
    assert EpOk(threads, eps, e);
    QueueLeave(eps[e].send, threads, OnSend(e), t, th');
    QueueLeave(eps[e].recv, threads, OnRecv(e), t, th');
  }

  lemma WakeObjects(threads: Threads, eps: Eps, notifs: Notifs, t: Tid, th': Thread)
    requires Objects(threads, eps, notifs) && t in threads && Awake(th')
    ensures Objects(threads[t := th'], LeaveQueue(eps, threads[t].link, t), Unregister(notifs, threads[t].notif, t))
  {
    hide EpOk, Without;
    var threads', eps' := threads[t := th'], LeaveQueue(eps, threads[t].link, t);
    var notifs' := Unregister(notifs, threads[t].notif, t);
    forall e | e in eps' ensures EpOk(threads', eps', e) { WakeEp(threads, eps, notifs, t, th', e); }
    assert ThreadOk(threads[t], eps, notifs, t);
    forall x | x in threads' ensures ThreadOk(threads'[x], eps', notifs', x) {
      if x != t { assert ThreadOk(threads[x], eps, notifs, x); }
    }
    forall n | n in notifs' ensures NotifOk(threads', notifs', n) { assert NotifOk(threads, notifs, n); }
  }

  lemma WakeCalls(threads: Threads, eps: Eps, notifs: Notifs, calls: seq<CallRec>, cur: map<Tid, nat>,
                  t: Tid, th': Thread, how: Status, waker: Option<nat>)
    requires Inv(threads, eps, notifs, calls, cur) && t in threads && Awake(th')
    requires how == Ok && threads[t].reason == IpcCall ==> threads[t].link == Unlinked
    ensures Calls(threads[t := th'], LeaveQueue(eps, threads[t].link, t),
                  EndCall(threads[t], calls, cur, t, how, waker), cur)
    ensures Progress(calls, EndCall(threads[t], calls, cur, t, how, waker))
  {
    hide EpOk, Fifo, Without;
    var threads', eps' := threads[t := th'], LeaveQueue(eps, threads[t].link, t);
    var calls' := EndCall(threads[t], calls, cur, t, how, waker);
    assert CallerOk(threads[t], calls, cur, t) && ThreadOk(threads[t], eps, notifs, t);
    forall x | x in threads' ensures CallerOk(threads'[x], calls', cur, x) {
      if x != t { assert CallerOk(threads[x], calls, cur, x); }
    }
    forall s | 0 <= s < |calls'| ensures RecOk(calls'[s], s, threads', cur) {
      assert RecOk(calls[s], s, threads, cur);
    }
    forall e | e in eps' ensures Fifo(eps'[e].send, cur) { LeaveFifo(threads, eps, notifs, cur, t, e); }
  }

  lemma LeaveFifo(threads: Threads, eps: Eps, notifs: Notifs, cur: map<Tid, nat>, t: Tid, e: EpId)
    requires Objects(threads, eps, notifs) && t in threads && e in eps && Fifo(eps[e].send, cur)
    ensures Fifo(LeaveQueue(eps, threads[t].link, t)[e].send, cur)
  {
    hide Fifo, Without;
    assert EpOk(threads, eps, e) && QueueOk(eps[e].send, threads, OnSend(e));
    if threads[t].link == OnSend(e) { WithoutFifo(eps[e].send, t, cur); }
  }

  /** Waking a thread takes it out of its queue, its notification and its call, and keeps everything else. */
  lemma Wake(threads: Threads, eps: Eps, notifs: Notifs, calls: seq<CallRec>, cur: map<Tid, nat>,
             t: Tid, th': Thread, how: Status, waker: Option<nat>)
    requires Inv(threads, eps, notifs, calls, cur) && t in threads && Awake(th')
    requires how == Ok && threads[t].reason == IpcCall ==> threads[t].link == Unlinked
    ensures Inv(threads[t := th'], LeaveQueue(eps, threads[t].link, t), Unregister(notifs, threads[t].notif, t),
                EndCall(threads[t], calls, cur, t, how, waker), cur)
    ensures Progress(calls, EndCall(threads[t], calls, cur, t, how, waker))
  {
    WakeObjects(threads, eps, notifs, t, th');
    WakeCalls(threads, eps, notifs, calls, cur, t, th', how, waker);
  }

  // ---------------------------------------------------------------- blocking

  /** Appending t to a queue of e, where t was in none. */
  lemma JoinEps(threads: Threads, eps: Eps, notifs: Notifs, t: Tid, th': Thread, e: EpId, eps': Eps)
    requires Objects(threads, eps, notifs) && t in threads && threads[t].link == Unlinked && e in eps
    requires || (th'.link == OnSend(e) && eps[e].recv == [] && eps' == eps[e := eps[e].(send := eps[e].send + [t])])
             || (th'.link == OnRecv(e) && eps[e].send == [] && eps' == eps[e := eps[e].(recv := eps[e].recv + [t])])
    ensures forall x :: x in eps' ==> EpOk(threads[t := th'], eps', x)
  {
    hide QueueOk;
    forall x | x in eps' ensures EpOk(threads[t := th'], eps', x) {
      assert EpOk(threads, eps, x);
      if th'.link == OnSend(x) {
        QueueJoin(eps[x].send, threads, OnSend(x), t, th');
      } else {
        QueueLeave(eps[x].send, threads, OnSend(x), t, th');
      }
      if th'.link == OnRecv(x) {
        QueueJoin(eps[x].recv, threads, OnRecv(x), t, th');
      } else {
        QueueLeave(eps[x].recv, threads, OnRecv(x), t, th');
      }
    }
  }

  lemma SameEps(threads: Threads, eps: Eps, notifs: Notifs, t: Tid, th': Thread)
    requires Objects(threads, eps, notifs) && t in threads && th'.link == threads[t].link
    ensures forall x :: x in eps ==> EpOk(threads[t := th'], eps, x)
  {
    forall x | x in eps ensures EpOk(threads[t := th'], eps, x) {
      assert EpOk(threads, eps, x);
      assert QueueOk(eps[x].send, threads[t := th'], OnSend(x)) && QueueOk(eps[x].recv, threads[t := th'], OnRecv(x));
    }
  }

  predicate Calling(th: Thread, e: EpId) {
    th.blocked && th.reason == IpcCall && th.ep == Some(e) && !th.forgotten
  }

  lemma SendObjects(threads: Threads, eps: Eps, notifs: Notifs, t: Tid, th': Thread, e: EpId)
    requires Objects(threads, eps, notifs) && t in threads && Awake(threads[t]) && e in eps && eps[e].recv == []
    requires Calling(th', e) && th'.link == OnSend(e)
    ensures Objects(threads[t := th'], eps[e := eps[e].(send := eps[e].send + [t])], notifs)
  {
    hide EpOk;
    var threads', eps' := threads[t := th'], eps[e := eps[e].(send := eps[e].send + [t])];
    JoinEps(threads, eps, notifs, t, th', e, eps');
    forall x | x in threads' ensures ThreadOk(threads'[x], eps', notifs, x) {
      if x != t { assert ThreadOk(threads[x], eps, notifs, x); }
    }
    forall n | n in notifs ensures NotifOk(threads', notifs, n) { assert NotifOk(threads, notifs, n); }
  }

  lemma SendCalls(threads: Threads, eps: Eps, notifs: Notifs, calls: seq<CallRec>, cur: map<Tid, nat>,
                  t: Tid, th': Thread, e: EpId, eps': Eps, stage: Stage)
    requires Inv(threads, eps, notifs, calls, cur) && t in threads && Awake(threads[t]) && e in eps && Calling(th', e)
    requires || (stage == Queued && th'.link == OnSend(e) && eps' == eps[e := eps[e].(send := eps[e].send + [t])])
             || (stage.Taken? && th'.link == Unlinked && eps' == eps)
    ensures Calls(threads[t := th'], eps', calls + [NewCall(t, e, th'.buf, stage)], cur[t := |calls|])
    ensures Progress(calls, calls + [NewCall(t, e, th'.buf, stage)])
  {
    var threads', calls', cur' := threads[t := th'], calls + [NewCall(t, e, th'.buf, stage)], cur[t := |calls|];
    forall x | x in threads' ensures CallerOk(threads'[x], calls', cur', x) {
      if x != t { assert CallerOk(threads[x], calls, cur, x); }
    }
    forall s | 0 <= s < |calls'| ensures RecOk(calls'[s], s, threads', cur') {
      if s < |calls| { assert RecOk(calls[s], s, threads, cur); }
    }
    forall x | x in eps' ensures Fifo(eps'[x].send, cur') { SendFifo(threads, eps, notifs, calls, cur, t, x); }
  }

  /** The newest call goes last. */
  lemma SendFifo(threads: Threads, eps: Eps, notifs: Notifs, calls: seq<CallRec>, cur: map<Tid, nat>, t: Tid, e: EpId)
    requires Inv(threads, eps, notifs, calls, cur) && t in threads && Awake(threads[t]) && e in eps
    ensures Fifo(eps[e].send, cur[t := |calls|]) && Fifo(eps[e].send + [t], cur[t := |calls|])
  {
    var q := eps[e].send;
    assert Fifo(q, cur) && EpOk(threads, eps, e) && QueueOk(q, threads, OnSend(e));
    forall i | 0 <= i < |q| ensures q[i] != t && q[i] in cur && cur[q[i]] < |calls| {
      assert q[i] in q;
      assert ThreadOk(threads[q[i]], eps, notifs, q[i]) && CallerOk(threads[q[i]], calls, cur, q[i]);
    }
  }

  /** A caller finding no receiver goes to the end of the send queue. */
  lemma BlockSend(threads: Threads, eps: Eps, notifs: Notifs, calls: seq<CallRec>, cur: map<Tid, nat>,
                  t: Tid, th': Thread, e: EpId)
    requires Inv(threads, eps, notifs, calls, cur) && t in threads && Awake(threads[t]) && e in eps && eps[e].recv == []
    requires Calling(th', e) && th'.link == OnSend(e)
    ensures Inv(threads[t := th'], eps[e := eps[e].(send := eps[e].send + [t])], notifs,
                calls + [NewCall(t, e, th'.buf, Queued)], cur[t := |calls|])
    ensures Progress(calls, calls + [NewCall(t, e, th'.buf, Queued)])
  {
    SendObjects(threads, eps, notifs, t, th', e);
    SendCalls(threads, eps, notifs, calls, cur, t, th', e, eps[e := eps[e].(send := eps[e].send + [t])], Queued);
  }

  /** A caller whose request was handed over at once waits for the reply in no queue. */
  lemma BlockTaken(threads: Threads, eps: Eps, notifs: Notifs, calls: seq<CallRec>, cur: map<Tid, nat>,
                   t: Tid, th': Thread, e: EpId, server: Tid)
    requires Inv(threads, eps, notifs, calls, cur) && t in threads && Awake(threads[t]) && e in eps
    requires Calling(th', e) && th'.link == Unlinked
    ensures Inv(threads[t := th'], eps, notifs, calls + [NewCall(t, e, th'.buf, Taken(server))], cur[t := |calls|])
    ensures Progress(calls, calls + [NewCall(t, e, th'.buf, Taken(server))])
  {
    hide EpOk;
    var threads' := threads[t := th'];
    SameEps(threads, eps, notifs, t, th');
    forall x | x in threads' ensures ThreadOk(threads'[x], eps, notifs, x) {
      if x != t { assert ThreadOk(threads[x], eps, notifs, x); }
    }
    forall n | n in notifs ensures NotifOk(threads', notifs, n) { assert NotifOk(threads, notifs, n); }
    SendCalls(threads, eps, notifs, calls, cur, t, th', e, eps, Taken(server));
  }

  function Register(notifs: Notifs, n: Option<NotifId>, t: Tid): Notifs {
    if n.Some? && n.value in notifs then notifs[n.value := notifs[n.value].(waiter := Some(t))] else notifs
  }

  /** A receiver's or a waiter's new blocking state. */
  predicate WaitsFor(th: Thread, e: Option<EpId>, n: Option<NotifId>) {
    && th.blocked && (n.Some? ==> th.notif == n) && !th.forgotten
    && th.reason == (if e.None? then OnNotif else if n.None? then IpcRecv else RecvOrNotif)
    && (e.Some? ==> th.ep == e && th.link == OnRecv(e.value)) && (e.None? ==> th.link == Unlinked && n.Some?)
  }

  function JoinRecv(eps: Eps, e: Option<EpId>, t: Tid): Eps {
    if e.Some? && e.value in eps then eps[e.value := eps[e.value].(recv := eps[e.value].recv + [t])] else eps
  }

  lemma WaitObjects(threads: Threads, eps: Eps, notifs: Notifs, t: Tid, th': Thread, e: Option<EpId>,
                    n: Option<NotifId>)
    requires Objects(threads, eps, notifs) && t in threads && Awake(threads[t]) && WaitsFor(th', e, n)
    requires e.Some? ==> e.value in eps && eps[e.value].send == []
    requires n.Some? ==> n.value in notifs && notifs[n.value].waiter.None? && notifs[n.value].bits * th'.mask == {}
    ensures Objects(threads[t := th'], JoinRecv(eps, e, t), Register(notifs, n, t))
  {
    hide EpOk;
    var threads', eps', notifs' := threads[t := th'], JoinRecv(eps, e, t), Register(notifs, n, t);
    if e.Some? {
      JoinEps(threads, eps, notifs, t, th', e.value, eps');
    } else {
      SameEps(threads, eps, notifs, t, th');
    }
    forall x | x in threads' ensures ThreadOk(threads'[x], eps', notifs', x) {
      if x != t { assert ThreadOk(threads[x], eps, notifs, x); }
    }
    forall k | k in notifs' ensures NotifOk(threads', notifs', k) { assert NotifOk(threads, notifs, k); }
  }

  /** Blocking on an endpoint, a notification or both. */
  lemma BlockWait(threads: Threads, eps: Eps, notifs: Notifs, calls: seq<CallRec>, cur: map<Tid, nat>,
                  t: Tid, th': Thread, e: Option<EpId>, n: Option<NotifId>)
    requires Inv(threads, eps, notifs, calls, cur) && t in threads && Awake(threads[t]) && WaitsFor(th', e, n)
    requires e.Some? ==> e.value in eps && eps[e.value].send == []
    requires n.Some? ==> n.value in notifs && notifs[n.value].waiter.None? && notifs[n.value].bits * th'.mask == {}
    ensures Inv(threads[t := th'], JoinRecv(eps, e, t), Register(notifs, n, t), calls, cur)
  {
    WaitObjects(threads, eps, notifs, t, th', e, n);
    var threads', eps' := threads[t := th'], JoinRecv(eps, e, t);
    forall x | x in threads' ensures CallerOk(threads'[x], calls, cur, x) {
      if x != t { assert CallerOk(threads[x], calls, cur, x); }
    }
    forall s | 0 <= s < |calls| ensures RecOk(calls[s], s, threads', cur) { assert RecOk(calls[s], s, threads, cur); }
    forall x | x in eps' ensures Fifo(eps'[x].send, cur) { assert Fifo(eps[x].send, cur); }
  }

  // -------------------------------------------------------------- rendezvous

  /** Taking the caller at the head of the send queue: the oldest call waiting there. */
  lemma TakeHead(threads: Threads, eps: Eps, notifs: Notifs, calls: seq<CallRec>, cur: map<Tid, nat>, e: EpId,
                 server: Tid)
    requires Inv(threads, eps, notifs, calls, cur) && e in eps && eps[e].send != []
    ensures var c := eps[e].send[0];
            && c in threads && threads[c].reason == IpcCall && c in cur && cur[c] < |calls|
            && calls[cur[c]].stage == Queued
            && calls[cur[c]].caller == c && calls[cur[c]].ep == e && calls[cur[c]].msg == threads[c].buf
            && var calls' := calls[cur[c] := TakeRec(calls[cur[c]], server)];
            && Inv(threads[c := threads[c].(link := Unlinked)], eps[e := eps[e].(send := eps[e].send[1..])], notifs,
                   calls', cur)
            && Progress(calls, calls')
    ensures forall s :: 0 <= s < |calls| && calls[s].ep == e && calls[s].stage == Queued ==> cur[eps[e].send[0]] <= s
  {
    var c := eps[e].send[0];
    assert EpOk(threads, eps, e) && QueueOk(eps[e].send, threads, OnSend(e)) && c in eps[e].send;
    assert ThreadOk(threads[c], eps, notifs, c) && CallerOk(threads[c], calls, cur, c);
    TakeObjects(threads, eps, notifs, e, Unlinked);
    TakeCalls(threads, eps, notifs, calls, cur, e, Unlinked, TakeRec(calls[cur[c]], server));
    forall s | 0 <= s < |calls| && calls[s].ep == e && calls[s].stage == Queued ensures cur[c] <= s {
      Oldest(threads, eps, notifs, calls, cur, e, s);
    }
  }

  lemma Oldest(threads: Threads, eps: Eps, notifs: Notifs, calls: seq<CallRec>, cur: map<Tid, nat>, e: EpId, s: nat)
    requires Inv(threads, eps, notifs, calls, cur) && e in eps && s < |calls| && calls[s].ep == e
    requires calls[s].stage == Queued
    ensures eps[e].send != [] && eps[e].send[0] in cur && cur[eps[e].send[0]] <= s
  {
    var x := calls[s].caller;
    assert RecOk(calls[s], s, threads, cur) && CallerOk(threads[x], calls, cur, x);
    assert ThreadOk(threads[x], eps, notifs, x);
    assert EpOk(threads, eps, e) && QueueOk(eps[e].send, threads, OnSend(e)) && Fifo(eps[e].send, cur);
    assert x in eps[e].send;
  }

  lemma TakeObjects(threads: Threads, eps: Eps, notifs: Notifs, e: EpId, link: Link)
    requires Objects(threads, eps, notifs) && e in eps && eps[e].send != [] && eps[e].send[0] in threads
    requires link == Unlinked || link.Popped?
    ensures var c := eps[e].send[0];
            Objects(threads[c := threads[c].(link := link)], eps[e := eps[e].(send := eps[e].send[1..])], notifs)
  {
    hide QueueOk, Without;
    var c := eps[e].send[0];
    var th' := threads[c].(link := link);
    var threads', eps' := threads[c := th'], eps[e := eps[e].(send := eps[e].send[1..])];
    HeadLink(threads, eps, e);
    WithoutHead(eps[e].send);
    assert ThreadOk(threads[c], eps, notifs, c);
    forall x | x in eps' ensures EpOk(threads', eps', x) {
      assert EpOk(threads, eps, x);
      QueueLeave(eps[x].send, threads, OnSend(x), c, th');
      QueueLeave(eps[x].recv, threads, OnRecv(x), c, th');
    }
    forall x | x in threads' ensures ThreadOk(threads'[x], eps', notifs, x) {
      assert ThreadOk(threads[x], eps, notifs, x);
    }
    forall n | n in notifs ensures NotifOk(threads', notifs, n) { assert NotifOk(threads, notifs, n); }
  }

  lemma HeadLink(threads: Threads, eps: Eps, e: EpId)
    requires e in eps && EpOk(threads, eps, e)
    ensures eps[e].send != [] ==> eps[e].send[0] in threads && threads[eps[e].send[0]].link == OnSend(e)
    ensures eps[e].recv != [] ==> eps[e].recv[0] in threads && threads[eps[e].recv[0]].link == OnRecv(e)
  {
    if eps[e].send != [] { assert eps[e].send[0] in eps[e].send; }
    if eps[e].recv != [] { assert eps[e].recv[0] in eps[e].recv; }
  }

  lemma TakeCalls(threads: Threads, eps: Eps, notifs: Notifs, calls: seq<CallRec>, cur: map<Tid, nat>, e: EpId,
                  link: Link, r: CallRec)
    requires Inv(threads, eps, notifs, calls, cur) && e in eps && eps[e].send != []
    requires var c := eps[e].send[0];
             && c in threads && threads[c].link == OnSend(e) && threads[c].reason == IpcCall
             && CallerOk(threads[c], calls, cur, c)
             && r == calls[cur[c]].(stage := r.stage, hist := r.hist) && calls[cur[c]].hist <= r.hist
    requires (link == Unlinked && r.stage.Taken?) || (link.Popped? && r.stage.Dropped?)
    ensures var c := eps[e].send[0]; var calls' := calls[cur[c] := r];
            && Calls(threads[c := threads[c].(link := link)], eps[e := eps[e].(send := eps[e].send[1..])], calls', cur)
            && Progress(calls, calls')
  {
    hide Objects;
    var c := eps[e].send[0];
    var threads', eps' := threads[c := threads[c].(link := link)], eps[e := eps[e].(send := eps[e].send[1..])];
    var calls' := calls[cur[c] := r];
    forall x | x in threads' ensures CallerOk(threads'[x], calls', cur, x) {
      assert CallerOk(threads[x], calls, cur, x);
    }
    forall s | 0 <= s < |calls'| ensures RecOk(calls'[s], s, threads', cur) { assert RecOk(calls[s], s, threads, cur); }
    forall x | x in eps' ensures Fifo(eps'[x].send, cur) { assert Fifo(eps[x].send, cur); }
  }

  /** Fields that say nothing about blocking can change freely, a caller's staged request excepted. */
  lemma Touch(threads: Threads, eps: Eps, notifs: Notifs, calls: seq<CallRec>, cur: map<Tid, nat>, t: Tid, th': Thread)
    requires Inv(threads, eps, notifs, calls, cur) && t in threads
    requires th' == threads[t].(sender := th'.sender, inbox := th'.inbox, got := th'.got, status := th'.status)
    ensures Inv(threads[t := th'], eps, notifs, calls, cur)
  {
    hide EpOk;
    var threads' := threads[t := th'];
    SameEps(threads, eps, notifs, t, th');
    forall x | x in threads' ensures ThreadOk(threads'[x], eps, notifs, x) {
      assert ThreadOk(threads[x], eps, notifs, x);
    }
    forall n | n in notifs ensures NotifOk(threads', notifs, n) { assert NotifOk(threads, notifs, n); }
    forall x | x in threads' ensures CallerOk(threads'[x], calls, cur, x) {
      assert CallerOk(threads[x], calls, cur, x);
    }
    forall s | 0 <= s < |calls| ensures RecOk(calls[s], s, threads', cur) { assert RecOk(calls[s], s, threads, cur); }
  }

  /** New pending bits, as long as they are not the ones the waiter waits for. */
  lemma SetBits(threads: Threads, eps: Eps, notifs: Notifs, calls: seq<CallRec>, cur: map<Tid, nat>, n: NotifId,
                bits: Bits)
    requires Inv(threads, eps, notifs, calls, cur) && n in notifs
    requires notifs[n].waiter.Some? && notifs[n].waiter.value in threads ==>
               bits * threads[notifs[n].waiter.value].mask == {}
    ensures Inv(threads, eps, notifs[n := notifs[n].(bits := bits)], calls, cur)
  {
    var notifs' := notifs[n := notifs[n].(bits := bits)];
    forall x | x in threads ensures ThreadOk(threads[x], eps, notifs', x) {
      assert ThreadOk(threads[x], eps, notifs, x);
    }
    forall k | k in notifs' ensures NotifOk(threads, notifs', k) { assert NotifOk(threads, notifs, k); }
  }

  // ------------------------------------------------------------------- kills

  /** The call a killed thread is in goes with it. */
  ghost function DropCall(th: Thread, calls: seq<CallRec>, cur: map<Tid, nat>, t: Tid): seq<CallRec> {
    if InRecord(th, calls, cur, t)
    then calls[cur[t] := GoneRec(calls[cur[t]])]
    else calls
  }

  lemma KillEp(threads: Threads, eps: Eps, notifs: Notifs, t: Tid, e: EpId)
    requires Objects(threads, eps, notifs) && t in threads && e in eps
    ensures EpOk(threads - {t}, LeaveQueue(eps, threads[t].link, t), e)
  {
    hide Without;
    assert EpOk(threads, eps, e);
    WithoutIs(eps[e].send, t);
    WithoutIs(eps[e].recv, t);
  }

  lemma KillObjects(threads: Threads, eps: Eps, notifs: Notifs, t: Tid)
    requires Objects(threads, eps, notifs) && t in threads
    ensures Objects(threads - {t}, LeaveQueue(eps, threads[t].link, t), Unregister(notifs, threads[t].notif, t))
  {
    hide EpOk, Without;
    var threads', eps' := threads - {t}, LeaveQueue(eps, threads[t].link, t);
    var notifs' := Unregister(notifs, threads[t].notif, t);
    forall e | e in eps' ensures EpOk(threads', eps', e) { KillEp(threads, eps, notifs, t, e); }
    forall x | x in threads' ensures ThreadOk(threads'[x], eps', notifs', x) {
      assert ThreadOk(threads[x], eps, notifs, x);
    }
    forall n | n in notifs' ensures NotifOk(threads', notifs', n) { assert NotifOk(threads, notifs, n); }
  }

  lemma KillCalls(threads: Threads, eps: Eps, notifs: Notifs, calls: seq<CallRec>, cur: map<Tid, nat>, t: Tid)
    requires Inv(threads, eps, notifs, calls, cur) && t in threads
    ensures Calls(threads - {t}, LeaveQueue(eps, threads[t].link, t), DropCall(threads[t], calls, cur, t), cur)
    ensures Progress(calls, DropCall(threads[t], calls, cur, t))
  {
    var threads', eps' := threads - {t}, LeaveQueue(eps, threads[t].link, t);
    var calls' := DropCall(threads[t], calls, cur, t);
    assert CallerOk(threads[t], calls, cur, t);
    forall x | x in threads' ensures CallerOk(threads'[x], calls', cur, x) {
      assert CallerOk(threads[x], calls, cur, x);
    }
    forall s | 0 <= s < |calls'| ensures RecOk(calls'[s], s, threads', cur) {
      assert RecOk(calls[s], s, threads, cur);
    }
    forall e | e in eps' ensures Fifo(eps'[e].send, cur) { LeaveFifo(threads, eps, notifs, cur, t, e); }
  }

  /** A killed thread leaves its queue, its notification and its call. */
  lemma Remove(threads: Threads, eps: Eps, notifs: Notifs, calls: seq<CallRec>, cur: map<Tid, nat>, t: Tid)
    requires Inv(threads, eps, notifs, calls, cur) && t in threads
    ensures Inv(threads - {t}, LeaveQueue(eps, threads[t].link, t), Unregister(notifs, threads[t].notif, t),
                DropCall(threads[t], calls, cur, t), cur)
    ensures Progress(calls, DropCall(threads[t], calls, cur, t))
  {
    KillObjects(threads, eps, notifs, t);
    KillCalls(threads, eps, notifs, calls, cur, t);
  }

  // ------------------------------------------------------------ consequences

  /** A queued thread is blocked on that endpoint, in one queue only, and the other queue there is empty. */
  lemma QueuedOnce(threads: Threads, eps: Eps, notifs: Notifs, t: Tid, e: EpId)
    requires Objects(threads, eps, notifs) && e in eps && (t in eps[e].send || t in eps[e].recv)
    ensures t in threads && threads[t].blocked && threads[t].ep == Some(e)
    ensures t in eps[e].send ==> threads[t].reason == IpcCall && eps[e].recv == []
    ensures t in eps[e].recv ==> (threads[t].reason == IpcRecv || threads[t].reason == RecvOrNotif) && eps[e].send == []
    ensures forall x :: x in eps && x != e ==> t !in eps[x].send && t !in eps[x].recv
  {
    assert EpOk(threads, eps, e) && QueueOk(eps[e].send, threads, OnSend(e));
    assert QueueOk(eps[e].recv, threads, OnRecv(e));
    assert ThreadOk(threads[t], eps, notifs, t);
    forall x | x in eps && x != e ensures t !in eps[x].send && t !in eps[x].recv {
      assert EpOk(threads, eps, x) && QueueOk(eps[x].send, threads, OnSend(x));
      assert QueueOk(eps[x].recv, threads, OnRecv(x));
    }
  }

  /**
   Nobody sleeps through a wakeup: a thread waiting on a notification is its waiter with none
   of its bits pending, or a destroy has taken it off and is to wake it.
   */
  lemma NoLostWakeup(threads: Threads, eps: Eps, notifs: Notifs, jobs: Jobs, t: Tid)
    requires Objects(threads, eps, notifs) && t in threads && ThreadJob(threads[t], jobs, t)
    requires OnNotification(threads[t])
    ensures threads[t].notif.Some?
    ensures if threads[t].forgotten then exists j :: j in jobs && jobs[j] == Unhooked(threads[t].notif.value, Some(t))
            else && threads[t].notif.value in notifs && notifs[threads[t].notif.value].waiter == Some(t)
                 && notifs[threads[t].notif.value].bits * threads[t].mask == {}
  {
    assert ThreadOk(threads[t], eps, notifs, t);
    if !threads[t].forgotten { assert NotifOk(threads, notifs, threads[t].notif.value); }
  }

  /** A call that is not over has its caller blocked in it: queued, popped, or waiting for its one receiver. */
  lemma OpenCall(threads: Threads, eps: Eps, notifs: Notifs, calls: seq<CallRec>, cur: map<Tid, nat>, s: nat)
    requires Inv(threads, eps, notifs, calls, cur) && s < |calls| && Open(calls[s].stage)
    ensures var t := calls[s].caller;
            && t in threads && threads[t].blocked && threads[t].reason == IpcCall && threads[t].buf == calls[s].msg
            && (calls[s].stage == Queued <==> threads[t].link == OnSend(calls[s].ep))
            && (calls[s].stage == Queued ==> calls[s].ep in eps && t in eps[calls[s].ep].send)
            && (calls[s].stage == Dropped <==> threads[t].link.Popped?)
    ensures forall r :: 0 <= r < |calls| && r != s && calls[r].caller == calls[s].caller ==> !Open(calls[r].stage)
  {
    var t := calls[s].caller;
    assert RecOk(calls[s], s, threads, cur) && CallerOk(threads[t], calls, cur, t);
    assert ThreadOk(threads[t], eps, notifs, t);
    if calls[s].stage == Queued {
      assert EpOk(threads, eps, calls[s].ep) && QueueOk(eps[calls[s].ep].send, threads, OnSend(calls[s].ep));
    }
    forall r | 0 <= r < |calls| && r != s && calls[r].caller == t ensures !Open(calls[r].stage) {
      assert RecOk(calls[r], r, threads, cur);
    }
  }
}
