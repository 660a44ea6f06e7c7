/** Runs of the IPC calls that end where one would not expect. */
module IpcRuns {
  import opened Ipc
  import opened IpcBoxes
  import opened IpcJobs
  import opened IpcLedger
  import opened IpcState
  import opened IpcWorld
  import opened Sequences

  const EMPTY := Endpoint([], [], true)

  /** Threads 0 and 1, endpoint 0 and notification 0. */
  method Start() returns (k: Kernel)
    ensures fresh(k) && k.Valid() && k.threads == map[0 := NEW_THREAD, 1 := NEW_THREAD] && k.eps == map[0 := EMPTY]
    ensures k.notifs == map[0 := NotifObj({}, None)] && k.jobs == map[] && k.nextJob == 0 && k.calls == []
    ensures k.picked == map[] && k.books == NO_BOOKS
  {
    hide Good, Boxes;
    k := new Kernel({0, 1});
    k.Create(0, 0);
  }

  const NO_BOOKS := Ledger(multiset{}, multiset{}, multiset{}, multiset{}, multiset{})

  // ------------------------------------------------------------------ replies

  /** A reply to a call nobody has received yet wakes the caller and leaves it on the send queue. */
  method ReplyTooEarly() returns (k: Kernel)
    ensures !k.Valid() && 0 in k.threads && !k.threads[0].blocked && 0 in k.eps && k.eps[0].send == [0]
  {
    hide Good, Boxes, Progress, EndCall;
    k := Start();
    var _ := k.Call(0, 0, 5);
    var _ := k.Reply(0, 7);
  }

  /** Thread 0 is queued at endpoint 0 in its first call. */
  method OneQueued() returns (k: Kernel)
    ensures fresh(k) && k.Valid() && k.eps == map[0 := Endpoint([0], [], true)] && k.jobs == map[] && k.nextJob == 0
    ensures k.threads == map[0 := AsCaller(NEW_THREAD, 0, 5, OnSend(0)), 1 := NEW_THREAD]
    ensures k.calls == [NewCall(0, 0, 5, Queued)] && k.picked == map[] && 0 in k.cur && k.cur[0] == 0
    ensures k.notifs == map[0 := NotifObj({}, None)]
  {
    hide Good, Boxes, Progress;
    k := Start();
    var _ := k.Call(0, 0, 5);
    assert [] + [0] == [0] && k.eps[0] == Endpoint([0], [], true);
    assert k.calls == [k.calls[0]];
  }

  // ---------------------------------------------------------------- destroys

  /** A destroy has popped thread 0. */
  method OnePopped() returns (k: Kernel)
    ensures fresh(k) && k.Valid() && k.eps == map[0 := Endpoint([], [], false)] && k.nextJob == 1
    ensures k.jobs == map[0 := Waking(0, ByDestroy)] && k.picked == map[0 := 0] && 0 in k.cur && k.cur[0] == 0
    ensures k.threads == map[0 := AsCaller(NEW_THREAD, 0, 5, Popped(0)), 1 := NEW_THREAD]
    ensures k.notifs == map[0 := NotifObj({}, None)]
    ensures k.calls == [CallRec(0, 0, 5, Dropped, [Picked(0)])]
  {
    hide Good, Boxes, Progress;
    k := OneQueued();
    var _ := k.DestroyBegin(0);
    assert [0][1..] == [] && k.eps[0] == Endpoint([], [], false);
    assert [] + [Picked(0)] == [Picked(0)] && k.calls[0].hist == [Picked(0)] && k.threads[0].link == Popped(0);
  }

  /** A destroy has popped thread 0, and a timeout has woken it before the destroy does. */
  method PoppedAndTimedOut() returns (k: Kernel)
    ensures fresh(k) && k.Valid() && k.Running(0) && k.Running(1) && k.threads[0].notif.None?
    ensures k.jobs == map[0 := Waking(0, ByDestroy)] && k.picked == map[0 := 0] && 0 in k.cur && k.cur[0] == 0
    ensures k.eps == map[0 := Endpoint([], [], false)] && |k.calls| == 1 && k.nextJob == 1
    ensures k.notifs == map[0 := NotifObj({}, None)]
    ensures k.calls[0].stage == Over(ETimeout, None) && k.calls[0].hist == [Picked(0), Readied(ETimeout, None)]
  {
    hide Good, Boxes, Progress;
    k := OnePopped();
    k.CallTimeout(0);
    assert [Picked(0)] + [Readied(ETimeout, None)] == [Picked(0), Readied(ETimeout, None)];
  }

  /** Then the destroy wakes it a second time. */
  method WokenTwice() returns (k: Kernel)
    ensures k.Valid() && |k.calls| == 1 && k.calls[0].stage == Over(ETimeout, None)
    ensures k.calls[0].hist == [Picked(0), Readied(ETimeout, None), Late(0)] && Wakes(k.calls[0].hist) == 2
  {
    hide Good, Boxes, Progress, Unregister;
    k := PoppedAndTimedOut();
    ThreadIs(k.W(), 0);
    var _ := k.DestroyWake(0);
    assert [Picked(0), Readied(ETimeout, None)] + [Late(0)] == [Picked(0), Readied(ETimeout, None), Late(0)];
    TwoWakes();
  }

  lemma TwoWakes()
    ensures Wakes([Picked(0), Readied(ETimeout, None), Late(0)]) == 2
  {
    var h := [Picked(0), Readied(ETimeout, None), Late(0)];
    assert h[..2][..1][..0] == [] && Wakes(h[..2][..1]) == 0;
    assert Wakes(h[..2]) == 1;
  }

  /** Or thread 0 is killed in the meantime: the destroy writes to its control block all the same. */
  method WokenAfterKill() returns (k: Kernel, stray: bool)
    ensures k.Valid() && stray && 0 !in k.threads
  {
    hide Good, Boxes, Progress, AfterWake, LeaveQueue, Unregister, DropCall;
    k := OnePopped();
    var _ := k.KillBegin(0);
    stray := k.DestroyWake(0);
  }

  /** Or thread 0 has made a call to another endpoint in the meantime. */
  method CalledAgain() returns (k: Kernel)
    ensures fresh(k) && k.Valid() && 0 in k.threads && k.threads[0].reason == IpcCall
    ensures k.jobs == map[0 := Waking(0, ByDestroy)]
    ensures k.picked == map[0 := 0] && 0 in k.cur && k.cur[0] == 1 && |k.calls| == 2
    ensures k.calls[0].hist == [Picked(0), Readied(ETimeout, None)] && k.calls[1] == NewCall(0, 1, 6, Queued)
  {
    hide Good, Boxes, Progress;
    k := PoppedAndTimedOut();
    k.Create(1, 1);
    var _ := k.Call(0, 1, 6);
    assert k.calls[0] == k.calls[..1][0];
  }

  /** Then the destroy ends that call. */
  method DestroyEndsOtherCall() returns (k: Kernel)
    ensures k.Valid() && |k.calls| == 2 && k.calls[1].ep == 1 && k.calls[1].stage == Over(EInval, None)
    ensures k.calls[0].hist == [Picked(0), Readied(ETimeout, None), Late(0)]
  {
    hide Good, Boxes, Progress, Unregister, LeaveQueue;
    k := CalledAgain();
    var _ := k.DestroyWake(0);
    assert [Picked(0), Readied(ETimeout, None)] + [Late(0)] == [Picked(0), Readied(ETimeout, None), Late(0)];
  }

  /** A receiver that had found the endpoint before its destroy joins it just before it is freed. */
  method FreedUnderReceiver() returns (k: Kernel)
    ensures !k.Valid() && k.eps == map[] && 0 in k.threads && k.threads[0].link == OnRecv(0)
  {
    hide Good, Boxes, Progress, Tag;
    k := Start();
    var _ := k.DestroyBegin(0);
    assert k.eps == map[0 := Endpoint([], [], false)];
    var _ := k.RecvOrNotifLocked(0, 0, 0, {3});
    assert [] + [0] == [0] && k.eps[0].recv == [0];
    k.DestroyFree(0);
  }

  // ------------------------------------------------------------ notifications

  /** Two waiters at one notification: the first is forgotten. */
  method WaitTwice() returns (k: Kernel)
    ensures !k.Valid() && 0 in k.threads && k.threads[0].blocked && 0 in k.notifs && k.notifs[0].waiter == Some(1)
  {
    hide Good, Boxes, Tag;
    k := Start();
    var _ := k.NotifWait(0, 0, {3});
    var _ := k.NotifWait(1, 0, {3});
  }

  /** Bit 3 of notification 0 is pending. */
  method OneRaised() returns (k: Kernel)
    ensures fresh(k) && k.Valid() && k.notifs == map[0 := NotifObj({3}, None)] && k.jobs == map[] && k.nextJob == 0
    ensures k.books == NO_BOOKS.(raised := multiset{(0, 3)}) && k.threads == map[0 := NEW_THREAD, 1 := NEW_THREAD]
  {
    hide Good, Boxes;
    k := Start();
    var _ := k.Signal(0, {3});
    assert {} + {3} == {3} && {3} - {} == {3};
    OneTag(3);
  }

  lemma OneTag(b: nat)
    ensures multiset{} + Tag(0, {b}) == multiset{(0, b)}
  {
    assert (set x | x in {b} :: (0, x)) == {(0, b)};
  }

  /** Two polls read a bit before either clears it: it was raised once and is taken twice. */
  method PollTwice() returns (k: Kernel, a: Bits, b: Bits)
    ensures k.Valid() && a == b == {3}
    ensures k.books.raised == multiset{(0, 3)} && k.books.taken == multiset{(0, 3), (0, 3)}
    ensures k.books.twice == multiset{(0, 3)}
  {
    hide Good, Boxes, Tag;
    k := OneRaised();
    var i := k.PollRead(0, {3});
    var j := k.PollRead(0, {3});
    assert {3} * {3} == {3};
    k.PollLoad(i.value);
    k.PollLoad(j.value);
    a := k.PollStore(0);
    assert {3} - {3} == {} && {3} + {3} - {3} == {} && {3} - {3} - {3} == {};
    NoTag(multiset{}, 0, {});
    OneTag(3);
    b := k.PollStore(1);
    assert {3} + {3} - {} == {3};
    assert multiset{(0, 3)} + Tag(0, {3}) == multiset{(0, 3), (0, 3)};
  }

  /** A poll has matched and loaded bit 3. */
  method PollBegun() returns (k: Kernel)
    ensures fresh(k) && k.Valid() && k.notifs == map[0 := NotifObj({3}, None)]
    ensures k.jobs == map[0 := Loaded(0, {3}, {3})]
    ensures k.books == NO_BOOKS.(raised := multiset{(0, 3)})
  {
    hide Good, Boxes, Tag;
    k := OneRaised();
    var j := k.PollRead(0, {3});
    assert {3} * {3} == {3};
    k.PollLoad(j.value);
  }

  /** And then bit 4 is raised. */
  method SignalInPoll() returns (k: Kernel)
    ensures fresh(k) && k.Valid() && k.notifs == map[0 := NotifObj({3, 4}, None)]
    ensures k.jobs == map[0 := Loaded(0, {3}, {3})]
    ensures k.books == NO_BOOKS.(raised := multiset{(0, 3), (0, 4)})
  {
    hide Good, Boxes, Tag;
    k := PollBegun();
    var _ := k.Signal(0, {4});
    assert {3} + {4} == {3, 4} && {4} - {3} == {4};
    OneTag(4);
    assert multiset{(0, 3)} + Tag(0, {4}) == multiset{(0, 3), (0, 4)};
  }

  /** The store of the poll then loses bit 4. */
  method PollDropsSignal() returns (k: Kernel)
    ensures k.Valid() && k.notifs == map[0 := NotifObj({}, None)]
    ensures k.books.raised == multiset{(0, 3), (0, 4)} && k.books.taken == multiset{(0, 3)}
    ensures k.books.dropped == multiset{(0, 4)}
  {
    hide Good, Boxes, Tag;
    k := SignalInPoll();
    OneTag(3);
    OneTag(4);
    var _ := k.PollStore(0);
    assert {3} - {3} == {} && {3, 4} - {3} - {3} == {4};
  }

  /** Thread 0 has waited on notification 0 and got its bits. */
  method PlainWait() returns (k: Kernel)
    ensures fresh(k) && k.Valid() && k.Running(0) && k.threads[0].notif == Some(0)
    ensures k.notifs == map[0 := NotifObj({}, None)] && k.eps == map[0 := EMPTY]
  {
    hide Good, Boxes, Tag;
    k := Start();
    var _ := k.NotifWait(0, 0, {3});
    assert k.threads[0] == Waits(NEW_THREAD, None, Some(0), {3}) && k.notifs[0] == NotifObj({}, Some(0));
    var _ := k.Signal(0, {3});
    assert {} + {3} == {3} && {3} * {3} == {3} && {3} - {3} == {};
  }

  /**
   A server that once waited on a notification keeps its id after the notification is
   destroyed: the next call to it looks that id up.
   */
  method StaleId() returns (k: Kernel)
    ensures k.Valid() && LooksUpDead(k.W(), 0)
  {
    hide Good, Boxes, Tag;
    k := PlainWait();
    var _ := k.NotifDestroy(0);
    var _ := k.Recv(0, 0);
    assert [] + [0] == [0] && k.eps[0].recv == [0];
  }

  /** Thread 0 waits on notification 0 for bit 3. */
  method OneWaiter() returns (k: Kernel)
    ensures fresh(k) && k.Valid() && k.eps == map[0 := EMPTY] && k.notifs == map[0 := NotifObj({}, Some(0))]
    ensures k.threads == map[0 := Waits(NEW_THREAD, None, Some(0), {3}), 1 := NEW_THREAD]
    ensures k.jobs == map[] && k.nextJob == 0 && k.calls == []
  {
    hide Good, Boxes, Tag;
    k := Start();
    var _ := k.NotifWait(0, 0, {3});
  }

  /** A destroy has read the waiter, which then times out. */
  method UnhookedAndTimedOut() returns (k: Kernel)
    ensures fresh(k) && k.Valid() && k.Running(0) && k.eps == map[0 := EMPTY]
    ensures k.jobs == map[0 := Unhooked(0, Some(0))]
  {
    hide Good, Boxes, Tag, Progress;
    k := OneWaiter();
    var _ := k.NotifUnhook(0);
    k.NotifTimeout(0);
  }

  /** The thread is in a call when the destroy makes it ready. */
  method ReadiedOnQueue() returns (k: Kernel)
    ensures !k.Valid() && 0 in k.threads && !k.threads[0].blocked && k.threads[0].link == OnSend(0)
  {
    hide Good, Boxes, Tag, Progress, EndCall;
    k := UnhookedAndTimedOut();
    var _ := k.Call(0, 0, 5);
    var _ := k.NotifWake(0);
  }

  /** A destroy has found no waiter and is about to free the notification. */
  method AboutToFree() returns (k: Kernel)
    ensures fresh(k) && k.Valid() && k.Running(0) && k.jobs == map[0 := Freeing(0)]
    ensures k.notifs == map[0 := NotifObj({}, None)]
  {
    hide Good, Boxes, Progress, EndCall;
    k := Start();
    var _ := k.NotifUnhook(0);
    var _ := k.NotifWake(0);
  }

  /** A thread begins to wait there. */
  method FreedUnderWaiter() returns (k: Kernel)
    ensures !k.Valid() && k.notifs == map[] && 0 in k.threads && k.threads[0].blocked
  {
    hide Good, Boxes, Tag;
    k := AboutToFree();
    var _ := k.NotifWait(0, 0, {3});
    k.NotifFree(0);
  }

  /** A poll that matches nothing has loaded bit 3, which then is taken. */
  method TakenInPoll() returns (k: Kernel)
    ensures fresh(k) && k.Valid() && k.notifs == map[0 := NotifObj({}, None)] && k.jobs == map[0 := Loaded(0, {}, {3})]
    ensures k.Running(0)
  {
    hide Good, Boxes, Tag, Progress;
    k := OneRaised();
    var j := k.PollRead(0, {});
    assert {3} * {} == {} && {3} * {3} == {3} && {3} - {3} == {};
    k.PollLoad(j.value);
    var _ := k.NotifWait(0, 0, {3});
  }

  /** The store of the poll brings the bit back, and the thread waiting for it again sleeps on. */
  method PollHidesBit() returns (k: Kernel)
    ensures !k.Valid() && k.notifs == map[0 := NotifObj({3}, Some(0))] && 0 in k.threads && k.threads[0].mask == {3}
  {
    hide Good, Boxes, Tag, Progress;
    k := TakenInPoll();
    var _ := k.NotifWait(0, 0, {3});
    assert {3} - {} == {3} && {3} * {3} == {3};
    var _ := k.PollStore(0);
  }

  // -------------------------------------------------------------------- kills

  /** Thread 0 waits at endpoint 0. */
  method OneReceiver() returns (k: Kernel)
    ensures fresh(k) && k.Valid() && k.eps == map[0 := Endpoint([], [0], true)]
    ensures k.notifs == map[0 := NotifObj({}, None)] && k.jobs == map[] && k.nextJob == 0 && k.picked == map[]
    ensures k.threads == map[0 := Waits(NEW_THREAD, Some(0), None, {}), 1 := NEW_THREAD] && k.calls == []
  {
    hide Good, Boxes, Progress;
    k := Start();
    var _ := k.Recv(0, 0);
    assert [] + [0] == [0] && k.eps[0] == Endpoint([], [0], true);
  }

  /** Thread 0 has served one call of thread 1. */
  method OneCallServed() returns (k: Kernel)
    ensures fresh(k) && k.Valid() && k.Running(1) && k.Running(0) && k.threads[0].sender == Some(1)
    ensures k.eps == map[0 := EMPTY] && k.notifs == map[0 := NotifObj({}, None)]
    ensures |k.calls| == 1 && k.calls[0].stage == Over(Ok, Some(0))
  {
    hide Good, Boxes, Progress;
    k := OneReceiver();
    var _ := k.Call(1, 0, 5);
    assert [0][1..] == [] && k.eps[0] == EMPTY;
    var _ := k.Reply(1, 7);
  }

  /** Killing a server that has replied already ends the next call of that client, made to another endpoint. */
  method KillEndsOtherCall() returns (k: Kernel)
    ensures k.Valid() && |k.calls| == 2 && k.calls[1].ep == 1 && k.calls[1].stage == Over(ESrch, None)
    ensures k.calls[0].stage == Over(Ok, Some(0))
  {
    hide Good, Boxes, Progress, Unregister, LeaveQueue;
    k := OneCallServed();
    k.Create(1, 1);
    var _ := k.Call(1, 1, 6);
    assert k.calls[1] == NewCall(1, 1, 6, Queued) && k.calls[0] == k.calls[..1][0];
    ThreadIs(k.W(), 0);
    var _ := k.Kill(0);
  }

  /** Thread 0 has received a call of thread 1 and is killed, which chooses thread 1. */
  method ServerKilled() returns (k: Kernel)
    ensures fresh(k) && k.Valid() && 1 in k.threads && k.threads[1].reason == IpcCall && k.threads[1].link == Unlinked
    ensures k.jobs == map[0 := Waking(1, ByKill)] && k.notifs == map[0 := NotifObj({}, None)]
  {
    hide Good, Boxes, Progress;
    k := OneReceiver();
    var _ := k.Call(1, 0, 5);
    var _ := k.KillBegin(0);
  }

  /** Thread 1 times out and waits on a notification when the kill makes it ready. */
  method ReadiedWaiter() returns (k: Kernel)
    ensures !k.Valid() && 1 in k.threads && !k.threads[1].blocked && 0 in k.notifs && k.notifs[0].waiter == Some(1)
  {
    hide Good, Boxes, Progress, Tag, EndCall;
    k := ServerKilled();
    k.CallTimeout(1);
    var _ := k.NotifWait(1, 0, {3});
    var _ := k.KillWake(0);
  }
}
