/**
 The scheduler core of one CPU (kernel/sched/sched.c) over its run queue: what
 runs after a trap or an interrupt.
 */
module Sched {
  import opened RunQueue
  import opened Sequences

  datatype RunState = Ready | Running | Blocked

  type States = map<Tid, RunState>
  type Prios = map<Tid, nat>

  /** A thread is queued exactly when it is ready, at its priority, and runs only as the current one. */
  ghost predicate ThreadOk(on: Prios, state: States, prio: Prios, current: Option<Tid>, t: Tid) {
    && (t in state <==> t in prio) && (t in prio ==> prio[t] < LEVELS)
    && (t in state && state[t] == Running ==> current == Some(t))
    && (t in on <==> t in state && state[t] == Ready)
    && (t in on && t in prio ==> on[t] == prio[t])
  }

  ghost predicate Consistent(on: Prios, state: States, prio: Prios, current: Option<Tid>) {
    forall t :: ThreadOk(on, state, prio, current, t)
  }

  predicate Runs(state: States, current: Option<Tid>) {
    current.Some? && current.value in state && state[current.value] == Running
  }

  /** Any change that concerns one thread. */
  lemma OneThread(on: Prios, state: States, prio: Prios, current: Option<Tid>, x: Tid,
                  on': Prios, state': States, prio': Prios, current': Option<Tid>)
    requires Consistent(on, state, prio, current) && ThreadOk(on', state', prio', current', x)
    requires current' == current || (current' == Some(x) && !Runs(state, current))
    requires forall t :: t != x ==>
               && (t in on <==> t in on') && (t in on ==> on'[t] == on[t])
               && (t in state <==> t in state') && (t in state ==> state'[t] == state[t])
               && (t in prio <==> t in prio') && (t in prio ==> prio'[t] == prio[t])
    ensures Consistent(on', state', prio', current')
  {
    forall t ensures ThreadOk(on', state', prio', current', t) { assert ThreadOk(on, state, prio, current, t); }
  }

  class Cpu {
    const rq: BitmapRq
    const idle: Tid
    var current: Option<Tid>  // none before the CPU starts
    var needsResched: bool
    var state: States
    var prio: Prios

    ghost predicate Valid()
      reads this, rq
    {
      && rq.Valid() && idle in state && state[idle] != Blocked && (current.Some? ==> current.value in state)
      && Consistent(rq.on, state, prio, current)
    }

    /** The current thread runs, is not queued, and no ready thread is more urgent. */
    ghost predicate Settled()
      reads this, rq
    {
      && Valid() && Runs(state, current) && current.value !in rq.on && !needsResched && current.value in prio
      && forall t :: t in state && t in prio && state[t] == Ready ==> prio[current.value] <= prio[t]
    }

    /** A CPU before its start: its idle thread is queued. */
    constructor (idle: Tid, p: nat)
      requires p < LEVELS
      ensures Valid() && fresh(rq) && this.idle == idle && current.None? && needsResched
      ensures state == map[idle := Ready] && prio == map[idle := p]
    {
      rq := new BitmapRq();
      this.idle, current, needsResched := idle, None, true;
      state, prio := map[idle := Ready], map[idle := p];
      new;
      rq.Enqueue(idle, p);
    }

    /** The idle thread is running or queued, so there is always a thread to run. */
    lemma NextExists()
      requires Valid()
      ensures idle in rq.on || (current == Some(idle) && Runs(state, current))
      ensures !Runs(state, current) ==> rq.on != map[]
    {
      assert ThreadOk(rq.on, state, prio, current, idle);
    }

    /** A thread of this CPU is created, blocked until it is made ready. */
    method Create(t: Tid, p: nat)
      requires Valid() && t !in state && p < LEVELS
      modifies `state, `prio
      ensures Valid() && state == old(state)[t := Blocked] && prio == old(prio)[t := p]
    {
      hide Queues, Consistent;
      Known(t);
      OneThread(rq.on, state, prio, current, t, rq.on, state[t := Blocked], prio[t := p], current);
      state, prio := state[t := Blocked], prio[t := p];
    }

    lemma Known(t: Tid)
      requires Valid()
      ensures ThreadOk(rq.on, state, prio, current, t)
    {
    }

    /** ulmk_kern_thread_set_prio(): a ready thread moves to the end of its new level. */
    method SetPrio(t: Tid, p: nat)
      requires Valid() && t in state && p < LEVELS
      modifies `prio, `needsResched, rq
      ensures Valid() && prio == old(prio)[t := p]
      ensures state[t] != Ready ==> unchanged(rq) && unchanged(`needsResched)
      ensures state[t] == Ready ==>
                && rq.on == old(rq.on)[t := p]
                && rq.List() == FifoInsert(Without(old(rq.List()), t), old(rq.on) - {t}, t, p)
      ensures current.Some? ==> current.value in prio
      ensures state[t] == Ready ==>
                needsResched == (old(needsResched) || current.None?
                                 || (t != current.value && p < prio[current.value]))
    {
      hide Queues, Flat, FifoInsert, Without, Consistent;
      Known(t);
      if current.Some? { Known(current.value); }
      if state[t] == Ready {
        OneThread(rq.on, state, prio, current, t, rq.on[t := p], state, prio[t := p], current);
        assert (rq.on - {t})[t := p] == rq.on[t := p];
        rq.Dequeue(t, prio[t]);
        prio := prio[t := p];
        rq.Enqueue(t, p);
        if current.None? || (t != current.value && p < prio[current.value]) { needsResched := true; }
      } else {
        OneThread(rq.on, state, prio, current, t, rq.on, state, prio[t := p], current);
        prio := prio[t := p];
      }
    }

    /** A thread blocks: ulmk_sched_dequeue() took it off the queue, whether it runs or waits there. */
    method Block(t: Tid)
      requires Valid() && t in state && t != idle
      modifies `state, rq
      ensures Valid() && state == old(state)[t := Blocked] && rq.on == old(rq.on) - {t}
      ensures rq.List() == Without(old(rq.List()), t)
    {
      hide Queues, Flat, Without, Consistent;
      Known(t);
      OneThread(rq.on, state, prio, current, t, rq.on - {t}, state[t := Blocked], prio, current);
      rq.Dequeue(t, prio[t]);
      state := state[t := Blocked];
    }

    /** ulmk_sched_enqueue() with sched_mark_preempt_if_higher(), for a thread of this CPU. */
    method Enqueue(t: Tid)
      requires Valid() && t in state
      modifies `state, `needsResched, rq
      ensures Valid() && t in prio && state == old(state)[t := Ready] && rq.on == old(rq.on)[t := prio[t]]
      ensures rq.List() ==
              if t in old(rq.on) then old(rq.List()) else FifoInsert(old(rq.List()), old(rq.on), t, prio[t])
      ensures current.Some? ==> current.value in prio
      ensures needsResched == (old(needsResched) || current.None?
                               || (t != current.value && prio[t] < prio[current.value]))
    {
      hide Queues, Flat, FifoInsert, Consistent;
      Known(t);
      if current.Some? { Known(current.value); }
      OneThread(rq.on, state, prio, current, t, rq.on[t := prio[t]], state[t := Ready], prio, current);
      assert t in rq.on ==> rq.on[t := prio[t]] == rq.on;
      rq.Enqueue(t, prio[t]);
      state := state[t := Ready];
      if current.None? || (t != current.value && prio[t] < prio[current.value]) { needsResched := true; }
    }

    /** ulmk_kern_yield(): the current thread goes behind the others of its priority. */
    method Yield()
      requires Valid()
      modifies `state, `needsResched, rq
      ensures Valid() && (current.None? ==> unchanged(this) && unchanged(rq))
      ensures current.Some? ==>
                var t := current.value;
                && t in prio && state == old(state)[t := Ready] && needsResched && rq.on == old(rq.on)[t := prio[t]]
                && rq.List() == FifoInsert(Without(old(rq.List()), t), old(rq.on) - {t}, t, prio[t])
    {
      hide Queues, Flat, FifoInsert, Without, Consistent;
      if current.None? { return; }
      var t := current.value;
      Known(t);
      OneThread(rq.on, state, prio, current, t, rq.on[t := prio[t]], state[t := Ready], prio, current);
      assert (rq.on - {t})[t := prio[t]] == rq.on[t := prio[t]];
      state := state[t := Ready];
      rq.Dequeue(t, prio[t]);
      rq.Enqueue(t, prio[t]);
      needsResched := true;
    }

    /** ulmk_sched_start(); only the uniprocessor build forgets that a switch was asked for. */
    method Start(smp: bool)
      requires Valid() && current.None?
      modifies `current, `needsResched, `state, rq
      ensures Valid() && Runs(state, current) && state == old(state)[current.value := Running]
      ensures current.value in old(rq.on) && forall t :: t in old(rq.on) ==> old(rq.on)[current.value] <= old(rq.on)[t]
      ensures old(rq.List()) != [] && current.value == old(rq.List())[0] && rq.List() == old(rq.List())[1..]
      ensures (smp ==> needsResched == old(needsResched)) && (!smp ==> Settled())
    {
      hide Queues, Flat, Consistent;
      var asked := needsResched;
      needsResched := false;
      PickAndSwitch();
      if smp { needsResched := asked; }
    }

    /**
     ulmk_sched_resched(), meant for a thread that has just ended.  The code does not look:
     a thread that still runs is forgotten, unless nothing else is ready.
     */
    method Resched()
      requires Valid()
      modifies `current, `needsResched, `state, rq
      ensures Settled() <==> !Runs(old(state), old(current)) || old(rq.on) == map[]
      ensures !needsResched && current.Some? && state == old(state)[current.value := Running]
      ensures old(rq.on) != map[] ==> current.value in old(rq.on)
      ensures if old(rq.on) == map[] then current == Some(idle)
              else |old(rq.List())| > 0 && current.value == old(rq.List())[0]
    {
      hide Queues, Flat, Consistent;
      NextExists();
      ListHead(rq);
      needsResched := false;
      PickAndSwitch();
    }

    /** sched_switch_to() a thread just picked, which is therefore not queued. */
    method SwitchTo(next: Option<Tid>)
      modifies `current, `state
      ensures current == Some(if next.None? then idle else next.value)
      ensures state == old(state)[current.value := Running]
    {
      var to := if next.None? then idle else next.value;
      current := Some(to);
      state := state[to := Running];
    }

    /** Pick the most urgent queued thread and run it. */
    method PickAndSwitch()
      requires Valid() && !needsResched
      modifies `current, `state, rq
      ensures Settled() <==> !Runs(old(state), old(current)) || old(rq.on) == map[]
      ensures current.Some? && current.value in old(state) && state == old(state)[current.value := Running]
      ensures old(rq.on) == map[] ==> current == old(current)
      ensures old(rq.on) != map[] ==> && current.value in old(rq.on)
                                      && forall t :: t in old(rq.on) ==> old(rq.on)[current.value] <= old(rq.on)[t]
      ensures rq.Valid()
      ensures if old(rq.List()) == [] then rq.List() == [] && old(rq.on) == map[]
              else current.value == old(rq.List())[0] && rq.List() == old(rq.List())[1..]
    {
      hide Queues, Flat, Consistent;
      NextExists();
      ghost var on := rq.on;
      var next := rq.PickNext();
      if next.None? {
        Known(idle);
        NothingMoreUrgent(on, state, prio, idle, None);
      } else if Runs(state, current) {
        TwoRunning(on, state, prio, current, next.value);
      } else {
        Picked(on, state, prio, current, next.value);
      }
      SwitchTo(next);
      assert next.None? ==> state == old(state);
    }

    /** The running thread goes to the end of its level. */
    method Requeue()
      requires Valid() && Runs(state, current)
      modifies `state, rq
      ensures Valid() && current.value in prio && state == old(state)[current.value := Ready]
      ensures rq.on == old(rq.on)[current.value := prio[current.value]]
      ensures rq.List() == FifoInsert(old(rq.List()), old(rq.on), current.value, prio[current.value])
    {
      hide Queues, Flat, FifoInsert, Consistent;
      var t := current.value;
      Known(t);
      OneThread(rq.on, state, prio, current, t, rq.on[t := prio[t]], state[t := Ready], prio, current);
      state := state[t := Ready];
      rq.Enqueue(t, prio[t]);
    }

    /**
     ulmk_sched_trap_dispatch().  A running thread is never queued, so it is requeued
     without being dequeued first; the interrupt and the trap paths then do the same.
     */
    method TrapDispatch()
      requires Valid()
      modifies `current, `needsResched, `state, rq
      ensures old(current).None? ==> unchanged(this) && unchanged(rq)
      ensures old(current).Some? ==> Settled() && state.Keys == old(state).Keys && old(current).value in prio
      ensures old(current).Some? ==>
                var was := old(current).value; var now := current.value;
                && (forall t :: t in state && t != now && t != was ==> state[t] == old(state)[t])
                && (old(state)[was] == Blocked ==> now != was && state[was] == Blocked)
                && (old(state)[was] == Running && now != was ==>
                      state[was] == Ready && (prio[now] < prio[was] || old(needsResched)))
      ensures old(current).Some? ==>
                var was := old(current).value; var l := old(rq.List());
                if old(state)[was] == Running then
                  if old(needsResched) || (l != [] && l[0] in prio && prio[l[0]] < prio[was]) then
                    current.value == FifoInsert(l, old(rq.on), was, prio[was])[0]
                    && rq.List() == FifoInsert(l, old(rq.on), was, prio[was])[1..]
                  else current == old(current) && rq.List() == l
                else l != [] && current.value == l[0] && rq.List() == l[1..]
      ensures old(current).Some? && old(needsResched) && old(state)[old(current).value] == Running ==>
                var was := old(current).value;
                (exists t :: t in old(rq.on) && old(rq.on)[t] <= prio[was]) <==> current != old(current)
    {
      hide Queues, Flat, Consistent;
      if current.None? { return; }
      ghost var was := current.value;
      Known(was);
      ListHead(rq);
      InsertHead(rq.List(), rq.on, was, prio[was]);
      var want := needsResched;
      needsResched := false;
      if state[current.value] != Running {
        NextExists();
        PickAndSwitch();
        Known(current.value);
        return;
      }
      if !want {
        var next := rq.PeekNext();
        if next.Some? { Known(next.value); }
        if next.None? || next.value == current.value || prio[next.value] >= prio[current.value] {
          NothingMoreUrgent(rq.on, state, prio, current.value, next);
          return;
        }
      }
      Requeue();
      PickAndSwitch();
      Known(current.value);
    }
  }

  /** The thread picked from the queue becomes the running one, and every other queued thread is no more urgent. */
  lemma Picked(on: Prios, state: States, prio: Prios, current: Option<Tid>, x: Tid)
    requires Consistent(on, state, prio, current) && x in on && !Runs(state, current)
    requires forall t :: t in on ==> on[x] <= on[t]
    ensures Consistent(on - {x}, state[x := Running], prio, Some(x)) && x in prio && x in state
    ensures forall t :: t in state && t in prio && t != x && state[t] == Ready ==> prio[x] <= prio[t]
  {
    assert ThreadOk(on, state, prio, current, x);
    OneThread(on, state, prio, current, x, on - {x}, state[x := Running], prio, Some(x));
    forall t | t in state && t in prio && t != x && state[t] == Ready ensures prio[x] <= prio[t] {
      assert ThreadOk(on, state, prio, current, t);
    }
  }

  /** Picking another thread while one runs leaves two marked as running. */
  lemma TwoRunning(on: Prios, state: States, prio: Prios, current: Option<Tid>, x: Tid)
    requires Consistent(on, state, prio, current) && x in on && Runs(state, current)
    ensures !Consistent(on - {x}, state[x := Running], prio, Some(x)) && x in state
  {
    assert ThreadOk(on, state, prio, current, x) && ThreadOk(on, state, prio, current, current.value);
    assert !ThreadOk(on - {x}, state[x := Running], prio, Some(x), current.value);
  }

  lemma NothingMoreUrgent(on: Prios, state: States, prio: Prios, current: Tid, next: Option<Tid>)
    requires Consistent(on, state, prio, Some(current))
    requires current in state && current in prio && state[current] == Running
    requires next.None? ==> on == map[]
    requires next.Some? ==> && next.value in on && next.value in prio && prio[next.value] >= prio[current]
                            && forall t :: t in on ==> on[next.value] <= on[t]
    ensures current !in on && forall t :: t in state && t in prio && state[t] == Ready ==> prio[current] <= prio[t]
  {
    assert ThreadOk(on, state, prio, Some(current), current);
    forall t | t in state && t in prio && state[t] == Ready ensures prio[current] <= prio[t] {
      assert ThreadOk(on, state, prio, Some(current), t);
      if next.Some? { assert ThreadOk(on, state, prio, Some(current), next.value); }
    }
  }

  /** A reschedule while thread 0 still runs: it stays marked as running beside thread 1. */
  method ReschedForgets() returns (c: Cpu)
    ensures !c.Settled() && 0 in c.state && c.state[0] == Running && c.current == Some(1)
  {
    hide Queues, Flat, FifoInsert, Consistent;
    c := new Cpu(0, 255);
    forall t | t in c.rq.on ensures t == 0 { c.Known(t); }
    c.Start(false);
    c.Create(1, 7);
    c.Enqueue(1);
    forall t | t in c.rq.on ensures t == 1 { c.Known(t); }
    c.Resched();
  }
}
