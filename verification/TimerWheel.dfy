/**
 The timing wheel (kernel/time/timer_wheel.c): arming, cancelling, the tick and
 the draining of the expired list, whose callbacks may arm and cancel timers.

 A list is the sequence of its timers.  `at` is what a timer's own links say:
 the list it is on, or nothing when it is not linked.
 */
module TimerWheel {
  import opened Sequences
  import opened TimerMath

  type Id = nat

  datatype Loc = InBucket(lvl: nat, b: nat) | Due

  /** One arming of a timer and what became of it. */
  datatype Fate = Live | Fired(tick: nat) | Cancelled | Replaced

  datatype Arming = Arming(id: Id, now: nat, delta: nat, fate: Fate)

  datatype Action = Arm(id: Id, delta: nat) | Disarm(id: Id)

  function When(a: Arming): nat { CollectTick(a.now, a.delta) }

  // ------------------------------------------------------------------ lists

  type Buckets = seq<seq<seq<Id>>>

  ghost predicate Shape(buckets: Buckets, pending: seq<set<nat>>) {
    |buckets| == LEVELS && |pending| == LEVELS && forall l :: 0 <= l < LEVELS ==> |buckets[l]| == SIZE
  }

  /** The list is exactly the timers linked there, once each, and its pending bit is set when it has any. */
  ghost predicate SlotOk(list: seq<Id>, bits: set<nat>, at: map<Id, Loc>, l: nat, b: nat) {
    && Distinct(list) && (forall x :: x in list <==> x in at && at[x] == InBucket(l, b))
    && (list != [] ==> b in bits)
  }

  ghost predicate DueOk(due: seq<Id>, at: map<Id, Loc>) {
    Distinct(due) && forall x :: x in due <==> x in at && at[x] == Due
  }

  ghost predicate Lists(buckets: Buckets, pending: seq<set<nat>>, due: seq<Id>, at: map<Id, Loc>) {
    && Shape(buckets, pending) && DueOk(due, at)
    && (forall l, b :: 0 <= l < LEVELS && 0 <= b < SIZE ==> SlotOk(buckets[l][b], pending[l], at, l, b))
    && (forall x :: x in at && at[x].InBucket? ==> at[x].lvl < LEVELS && at[x].b < SIZE)
  }

  function Put(buckets: Buckets, l: nat, b: nat, list: seq<Id>): Buckets
    requires l < |buckets| && b < |buckets[l]|
  {
    buckets[l := buckets[l][b := list]]
  }

  lemma UnlinkBucket(buckets: Buckets, pending: seq<set<nat>>, due: seq<Id>, at: map<Id, Loc>, x: Id, l: nat, b: nat)
    requires Lists(buckets, pending, due, at) && x in at && at[x] == InBucket(l, b)
    ensures Lists(Put(buckets, l, b, Without(buckets[l][b], x)), pending, due, at - {x})
  {
    assert SlotOk(buckets[l][b], pending[l], at, l, b);
    WithoutIs(buckets[l][b], x);
    hide Distinct, Without;
    var buckets', at' := Put(buckets, l, b, Without(buckets[l][b], x)), at - {x};
    forall k, c | 0 <= k < LEVELS && 0 <= c < SIZE ensures SlotOk(buckets'[k][c], pending[k], at', k, c) {
      assert SlotOk(buckets[k][c], pending[k], at, k, c);
    }
  }

  lemma UnlinkDue(buckets: Buckets, pending: seq<set<nat>>, due: seq<Id>, at: map<Id, Loc>, x: Id)
    requires Lists(buckets, pending, due, at) && x in at && at[x] == Due
    ensures Lists(buckets, pending, Without(due, x), at - {x}) && |Without(due, x)| < |due|
  {
    WithoutIs(due, x);
    hide Distinct, Without;
    forall k, c | 0 <= k < LEVELS && 0 <= c < SIZE ensures SlotOk(buckets[k][c], pending[k], at - {x}, k, c) {
      assert SlotOk(buckets[k][c], pending[k], at, k, c);
    }
  }

  lemma LinkBucket(buckets: Buckets, pending: seq<set<nat>>, due: seq<Id>, at: map<Id, Loc>, x: Id, l: nat, b: nat)
    requires Lists(buckets, pending, due, at) && x !in at && l < LEVELS && b < SIZE
    ensures Lists(Put(buckets, l, b, buckets[l][b] + [x]), pending[l := pending[l] + {b}], due, at[x := InBucket(l, b)])
  {
    var buckets', pending' := Put(buckets, l, b, buckets[l][b] + [x]), pending[l := pending[l] + {b}];
    var at' := at[x := InBucket(l, b)];
    forall k, c | 0 <= k < LEVELS && 0 <= c < SIZE ensures SlotOk(buckets'[k][c], pending'[k], at', k, c) {
      assert SlotOk(buckets[k][c], pending[k], at, k, c);
    }
  }

  /** The head of a bucket moves to the end of the expired list. */
  lemma MoveHead(buckets: Buckets, pending: seq<set<nat>>, due: seq<Id>, at: map<Id, Loc>, l: nat, b: nat)
    requires Lists(buckets, pending, due, at) && l < LEVELS && b < SIZE && buckets[l][b] != []
    ensures var x := buckets[l][b][0];
            && x in at && at[x] == InBucket(l, b)
            && Lists(Put(buckets, l, b, buckets[l][b][1..]), pending, due + [x], at[x := Due])
  {
    var x := buckets[l][b][0];
    var buckets', at' := Put(buckets, l, b, buckets[l][b][1..]), at[x := Due];
    assert SlotOk(buckets[l][b], pending[l], at, l, b);
    assert x in buckets[l][b] && buckets[l][b] == [x] + buckets[l][b][1..];
    forall k, c | 0 <= k < LEVELS && 0 <= c < SIZE ensures SlotOk(buckets'[k][c], pending[k], at', k, c) {
      assert SlotOk(buckets[k][c], pending[k], at, k, c);
    }
  }

  lemma ClearBit(buckets: Buckets, pending: seq<set<nat>>, due: seq<Id>, at: map<Id, Loc>, l: nat, b: nat)
    requires Lists(buckets, pending, due, at) && l < LEVELS && b < SIZE && buckets[l][b] == []
    ensures Lists(buckets, pending[l := pending[l] - {b}], due, at)
  {
    var pending' := pending[l := pending[l] - {b}];
    forall k, c | 0 <= k < LEVELS && 0 <= c < SIZE ensures SlotOk(buckets[k][c], pending'[k], at, k, c) {
      assert SlotOk(buckets[k][c], pending[k], at, k, c);
    }
  }

  // ---------------------------------------------------------------- armings

  /** Each linked timer has one live arming and each live arming its linked timer; the log has the fired ones once. */
  ghost predicate Armings(at: map<Id, Loc>, cur: map<Id, nat>, arms: seq<Arming>, log: seq<nat>, clk: nat) {
    && cur.Keys == at.Keys
    && (forall x :: x in at ==> cur[x] < |arms| && arms[cur[x]].id == x && arms[cur[x]].fate == Live)
    && (forall s :: 0 <= s < |arms| ==> ArmingOk(arms[s], s, cur, log, clk))
    && Distinct(log) && (forall s :: s in log ==> s < |arms|)
  }

  ghost predicate ArmingOk(a: Arming, s: nat, cur: map<Id, nat>, log: seq<nat>, clk: nat) {
    && 0 < a.delta <= TIMEOUT_MAX && a.now <= clk
    && (a.fate == Live ==> a.id in cur && cur[a.id] == s)
    && (s in log <==> a.fate.Fired?)
    && (a.fate.Fired? ==> a.fate.tick == When(a) <= clk)
  }

  /** A timer in a bucket is collected at its own tick, and a due one's tick is now. */
  ghost predicate Timed(at: map<Id, Loc>, cur: map<Id, nat>, arms: seq<Arming>, clk: nat, x: Id) {
    x in at && x in cur && cur[x] < |arms| ==>
      match at[x]
      case InBucket(l, b) => l < LEVELS && IsFirst(When(arms[cur[x]]), clk, l, b)
      case Due => When(arms[cur[x]]) == clk
  }

  /** Between the clock's step and the collection of level lvl. */
  ghost predicate MidTimed(at: map<Id, Loc>, cur: map<Id, nat>, arms: seq<Arming>, clk: nat, lvl: nat, x: Id) {
    x in at && x in cur && cur[x] < |arms| && clk > 0 ==>
      match at[x]
      case InBucket(l, b) => l < LEVELS && IsFirst(When(arms[cur[x]]), if l < lvl then clk else clk - 1, l, b)
      case Due => When(arms[cur[x]]) == clk
  }

  lemma Settle(at: map<Id, Loc>, cur: map<Id, nat>, arms: seq<Arming>, log: seq<nat>, clk: nat, x: Id, fate: Fate)
    requires Armings(at, cur, arms, log, clk) && x in at && fate != Live && !fate.Fired?
    ensures Armings(at - {x}, cur - {x}, arms[cur[x] := arms[cur[x]].(fate := fate)], log, clk)
  {
    var s := cur[x];
    var arms', cur' := arms[s := arms[s].(fate := fate)], cur - {x};
    assert ArmingOk(arms[s], s, cur, log, clk);
    forall r | 0 <= r < |arms'| ensures ArmingOk(arms'[r], r, cur', log, clk) {
      assert ArmingOk(arms[r], r, cur, log, clk);
    }
  }

  lemma Fire(at: map<Id, Loc>, cur: map<Id, nat>, arms: seq<Arming>, log: seq<nat>, clk: nat, x: Id)
    requires Armings(at, cur, arms, log, clk) && x in at && When(arms[cur[x]]) == clk
    ensures Armings(at - {x}, cur - {x}, arms[cur[x] := arms[cur[x]].(fate := Fired(clk))], log + [cur[x]], clk)
  {
    var s := cur[x];
    var arms', cur', log' := arms[s := arms[s].(fate := Fired(clk))], cur - {x}, log + [s];
    assert ArmingOk(arms[s], s, cur, log, clk);
    forall r | 0 <= r < |arms'| ensures ArmingOk(arms'[r], r, cur', log', clk) {
      assert ArmingOk(arms[r], r, cur, log, clk);
    }
  }

  lemma NewArming(at: map<Id, Loc>, cur: map<Id, nat>, arms: seq<Arming>, log: seq<nat>, clk: nat, x: Id, loc: Loc,
                  delta: nat)
    requires Armings(at, cur, arms, log, clk) && x !in at && 0 < delta <= TIMEOUT_MAX
    ensures Armings(at[x := loc], cur[x := |arms|], arms + [Arming(x, clk, delta, Live)], log, clk)
  {
    var arms', cur' := arms + [Arming(x, clk, delta, Live)], cur[x := |arms|];
    forall r | 0 <= r < |arms'| ensures ArmingOk(arms'[r], r, cur', log, clk) {
      if r < |arms| { assert ArmingOk(arms[r], r, cur, log, clk); }
    }
  }

  /** What later steps keep of earlier armings: their terms, and their fate once it is settled. */
  ghost predicate Extends(before: seq<Arming>, after: seq<Arming>) {
    |before| <= |after| && forall s :: 0 <= s < |before| ==> Continues(before[s], after[s])
  }

  ghost predicate Continues(a: Arming, b: Arming) {
    b.id == a.id && b.now == a.now && b.delta == a.delta && (a.fate != Live ==> b.fate == a.fate)
  }

  /** The live arming of x, if any, got this fate and every other arming is as before. */
  ghost predicate SettledAs(before: seq<Arming>, after: seq<Arming>, x: Id, fate: Fate) {
    && |before| <= |after|
    && forall s :: 0 <= s < |before| ==>
         after[s] == if before[s].fate == Live && before[s].id == x then before[s].(fate := fate) else before[s]
  }

  lemma ExtendsTrans(a: seq<Arming>, b: seq<Arming>, c: seq<Arming>)
    requires Extends(a, b) && Extends(b, c)
    ensures Extends(a, c)
  {
    forall s | 0 <= s < |a| ensures Continues(a[s], c[s]) { assert Continues(a[s], b[s]) && Continues(b[s], c[s]); }
  }

  // ------------------------------------------------- what callbacks amount to

  /** The live arming of x, if any, gets this fate. */
  function SettleAs(arms: seq<Arming>, x: Id, fate: Fate): seq<Arming> {
    seq(|arms|, s requires 0 <= s < |arms| =>
      if arms[s].fate == Live && arms[s].id == x then arms[s].(fate := fate) else arms[s])
  }

  /** Arming x replaces what it was armed for, and disarming ends it; a delta that is too long does nothing. */
  function Act(arms: seq<Arming>, clk: nat, a: Action): seq<Arming> {
    match a
    case Arm(x, delta) =>
      if delta > TIMEOUT_MAX then arms
      else SettleAs(arms, x, Replaced) + [Arming(x, clk, if delta == 0 then 1 else delta, Live)]
    case Disarm(x) => SettleAs(arms, x, Cancelled)
  }

  function ActAll(arms: seq<Arming>, clk: nat, actions: seq<Action>): seq<Arming> {
    if actions == [] then arms else Act(ActAll(arms, clk, actions[..|actions| - 1]), clk, actions[|actions| - 1])
  }

  /** A collected timer that is armed anew or disarmed is not called any more. */
  function LeaveDue(due: seq<Id>, a: Action): seq<Id> {
    if a.Arm? && a.delta > TIMEOUT_MAX then due else Without(due, a.id)
  }

  function LeaveDueAll(due: seq<Id>, actions: seq<Action>): seq<Id> {
    if actions == [] then due else LeaveDue(LeaveDueAll(due, actions[..|actions| - 1]), actions[|actions| - 1])
  }

  lemma {:induction false} LeaveShorter(due: seq<Id>, actions: seq<Action>)
    ensures |LeaveDueAll(due, actions)| <= |due|
    decreases |actions|
  {
    if actions != [] {
      LeaveShorter(due, actions[..|actions| - 1]);
      WithoutShorter(LeaveDueAll(due, actions[..|actions| - 1]), actions[|actions| - 1].id);
    }
  }

  lemma {:induction false} WithoutShorter(s: seq<Id>, x: Id)
    ensures |Without(s, x)| <= |s|
  {
    if s != [] { WithoutShorter(s[1..], x); }
  }

  function Script(script: seq<seq<Action>>, k: nat): seq<Action> {
    if k < |script| then script[k] else []
  }

  /** The timers called from the k-th callback on, in order. */
  function Calls(due: seq<Id>, script: seq<seq<Action>>, k: nat): seq<Id>
    decreases |due|
  {
    if due == [] then []
    else
      LeaveShorter(due[1..], Script(script, k));
      [due[0]] + Calls(LeaveDueAll(due[1..], Script(script, k)), script, k + 1)
  }

  /** The armings when they have all been called. */
  function Expired(arms: seq<Arming>, due: seq<Id>, clk: nat, script: seq<seq<Action>>, k: nat): seq<Arming>
    decreases |due|
  {
    if due == [] then arms
    else
      LeaveShorter(due[1..], Script(script, k));
      Expired(ActAll(SettleAs(arms, due[0], Fired(clk)), clk, Script(script, k)),
              LeaveDueAll(due[1..], Script(script, k)), clk, script, k + 1)
  }

  /** The timers the armings in the list are of. */
  function IdsOf(arms: seq<Arming>, log: seq<nat>): seq<Id> {
    seq(|log|, i requires 0 <= i < |log| => if log[i] < |arms| then arms[log[i]].id else 0)
  }

  lemma NoIds(arms: seq<Arming>)
    ensures IdsOf(arms, []) == []
  {
  }

  /** One more called: its number is added and what was called before keeps its name. */
  lemma IdsStep(a: seq<Arming>, b: seq<Arming>, c: seq<Arming>, done: seq<nat>, s: nat, x: Id)
    requires Extends(a, c) && Extends(b, c) && |b| >= |a| && (forall r :: r in done ==> r < |a|)
    requires s < |b| && b[s].id == x
    ensures IdsOf(c, done + [s]) == IdsOf(a, done) + [x] && forall r :: r in done + [s] ==> r < |c|
  {
    forall i | 0 <= i < |done| ensures IdsOf(c, done + [s])[i] == IdsOf(a, done)[i] {
      assert done[i] in done && Continues(a[done[i]], c[done[i]]);
    }
    assert Continues(b[s], c[s]);
  }

  lemma OneCall(before: seq<Id>, due: seq<Id>, script: seq<seq<Action>>, k: nat)
    requires due != []
    ensures before + Calls(due, script, k) ==
            before + [due[0]] + Calls(LeaveDueAll(due[1..], Script(script, k)), script, k + 1)
  {
  }

  // ------------------------------------------------------------------ wheel

  class Wheel {
    var buckets: Buckets
    var pending: seq<set<nat>>  // one bit per bucket
    var clk: nat
    var due: seq<Id>            // the tick's list of collected timers
    var at: map<Id, Loc>

    ghost var arms: seq<Arming>    // every arming so far, oldest first
    ghost var cur: map<Id, nat>    // the arming a linked timer is serving
    ghost var log: seq<nat>        // armings whose callback was called, in order

    /** What holds between any two steps, the calls of callbacks included. */
    ghost predicate Ok()
      reads this
    {
      && Lists(buckets, pending, due, at) && Armings(at, cur, arms, log, clk)
      && forall x :: Timed(at, cur, arms, clk, x)
    }

    ghost predicate Valid()
      reads this
    {
      Ok() && due == []
    }

    /** ulmk_timer_init() */
    constructor ()
      ensures Valid() && clk == 0 && arms == [] && log == []
    {
      clk := 0;
      buckets := seq(LEVELS, _ => seq(SIZE, _ => []));
      pending := seq(LEVELS, _ => {});
      due, at := [], map[];
      arms, cur, log := [], map[], [];
      new;
      forall l, b | 0 <= l < LEVELS && 0 <= b < SIZE ensures SlotOk(buckets[l][b], pending[l], at, l, b) {
        assert buckets[l][b] == [];
      }
    }

    /** sys_dlist_remove() and sys_dnode_init() on a linked timer. */
    method Unlink(x: Id, ghost fate: Fate)
      requires Ok() && x in at && fate != Live && !fate.Fired?
      modifies `buckets, `due, `at, `arms, `cur
      ensures Ok() && at == old(at) - {x} && |due| <= |old(due)| && (due == [] || old(due) != [])
      ensures Extends(old(arms), arms) && |arms| == |old(arms)| && SettledAs(old(arms), arms, x, fate)
      ensures arms == SettleAs(old(arms), x, fate) && due == Without(old(due), x)
    {
      hide Distinct, SlotOk, DueOk, IsFirst, ArmingOk;
      OnlyLive(at, cur, arms, log, clk, x);
      Settle(at, cur, arms, log, clk, x, fate);
      match at[x] {
        case InBucket(l, b) =>
          UnlinkBucket(buckets, pending, due, at, x, l, b);
          NotDue(due, at, x);
          buckets := buckets[l := buckets[l][b := Without(buckets[l][b], x)]];
        case Due =>
          UnlinkDue(buckets, pending, due, at, x);
          due := Without(due, x);
      }
      arms := arms[cur[x] := arms[cur[x]].(fate := fate)];
      at, cur := at - {x}, cur - {x};
      forall y ensures Timed(at, cur, arms, clk, y) {
        assert old(Timed(at, cur, arms, clk, y));
      }
    }

    /** ulmk_timer_add() */
    method Add(x: Id, delta: nat, hasCb: bool) returns (ok: bool)
      requires Ok()
      modifies `buckets, `pending, `due, `at, `arms, `cur
      ensures Ok() && |due| <= |old(due)| && Extends(old(arms), arms)
      ensures ok <==> hasCb && delta <= TIMEOUT_MAX
      ensures !ok ==> unchanged(this)
      ensures ok ==>
                && |arms| == |old(arms)| + 1
                && arms[|old(arms)|] == Arming(x, clk, if delta == 0 then 1 else delta, Live)
                     && at.Keys == old(at).Keys + {x} && SettledAs(old(arms), arms, x, Replaced)
      ensures arms == Act(old(arms), clk, Arm(x, delta)) || !hasCb
      ensures hasCb ==> due == LeaveDue(old(due), Arm(x, delta))
    {
      hide Lists, Timed, Armings, IsFirst, Level, CollectTick, Bucket, Extends, SettledAs;
      NothingSettled(arms, x, Replaced);
      if !hasCb { return false; }
      var d := if delta == 0 then 1 else delta;
      if d > TIMEOUT_MAX { return false; }
      OnlyLive(at, cur, arms, log, clk, x);
      Unarmed(arms, due, at, buckets, pending, x, Replaced);
      if x in at { Unlink(x, Replaced); }
      MoreArms(old(arms), arms, x, Replaced, Arming(x, clk, d, Live));
      var lvl := FindLevel(d);
      CollectedAt(clk, d);
      Link(x, d, lvl, Bucket(clk + d, lvl));
      ok := true;
    }

    /** ulmk_timer_cancel() */
    method Cancel(x: Id) returns (removed: bool)
      requires Ok()
      modifies `buckets, `due, `at, `arms, `cur
      ensures Ok() && |due| <= |old(due)| && Extends(old(arms), arms)
      ensures removed <==> x in old(at)
      ensures x !in at && |arms| == |old(arms)| && SettledAs(old(arms), arms, x, Cancelled)
      ensures arms == Act(old(arms), clk, Disarm(x)) && due == LeaveDue(old(due), Disarm(x))
    {
      hide Lists, Timed, Armings, Extends, SettledAs;
      OnlyLive(at, cur, arms, log, clk, x);
      NothingSettled(arms, x, Cancelled);
      Unarmed(arms, due, at, buckets, pending, x, Cancelled);
      removed := x in at;
      if removed { Unlink(x, Cancelled); }
    }

    method Link(x: Id, d: nat, lvl: nat, b: nat)
      requires Ok() && x !in at && 0 < d <= TIMEOUT_MAX && lvl < LEVELS && b < SIZE
      requires IsFirst(CollectTick(clk, d), clk, lvl, b)
      modifies `buckets, `pending, `at, `arms, `cur
      ensures Ok() && at == old(at)[x := InBucket(lvl, b)] && arms == old(arms) + [Arming(x, clk, d, Live)]
    {
      hide SlotOk, DueOk, IsFirst, CollectTick, Distinct, ArmingOk;
      NewArming(at, cur, arms, log, clk, x, InBucket(lvl, b), d);
      LinkBucket(buckets, pending, due, at, x, lvl, b);
      ghost var at', cur', arms' := at[x := InBucket(lvl, b)], cur[x := |arms|], arms + [Arming(x, clk, d, Live)];
      forall y ensures Timed(at', cur', arms', clk, y) {
        assert Timed(at, cur, arms, clk, y);
      }
      buckets := buckets[lvl := buckets[lvl][b := buckets[lvl][b] + [x]]];
      pending := pending[lvl := pending[lvl] + {b}];
      at := at[x := InBucket(lvl, b)];
      arms, cur := arms', cur';
    }

    // --------------------------------------------------------------- tick

    /** Inside a tick, with the levels below lvl collected. */
    ghost predicate Mid(lvl: nat)
      reads this
    {
      && clk > 0 && Lists(buckets, pending, due, at) && Armings(at, cur, arms, log, clk)
      && forall x :: MidTimed(at, cur, arms, clk, lvl, x)
    }

    /** collect_bucket() for a bucket the clock points at. */
    method CollectBucket(l: nat, b: nat)
      requires Mid(l) && l < LEVELS && b < SIZE && Hits(clk, l, b)
      modifies `buckets, `pending, `due, `at
      ensures Mid(l) && |buckets| == LEVELS && |buckets[l]| == SIZE && buckets[l][b] == []
      ensures |pending| == LEVELS && b !in pending[l]
    {
      hide SlotOk, DueOk, IsFirst, Hits, Distinct, ArmingOk;
      while buckets[l][b] != []
        invariant Mid(l) && |buckets| == LEVELS && |buckets[l]| == SIZE
        decreases |buckets[l][b]|
      {
        MoveHead(buckets, pending, due, at, l, b);
        var x := buckets[l][b][0];
        ghost var at0 := at;
        assert MidTimed(at, cur, arms, clk, l, x);
        HitNow(When(arms[cur[x]]), clk, l, b);
        buckets := buckets[l := buckets[l][b := buckets[l][b][1..]]];
        due := due + [x];
        at := at[x := Due];
        forall y ensures MidTimed(at, cur, arms, clk, l, y) { assert MidTimed(at0, cur, arms, clk, l, y); }
      }
      ClearBit(buckets, pending, due, at, l, b);
      pending := pending[l := pending[l] - {b}];
    }

    /** One level of wheel_advance_collect(). */
    method CollectLevel(lvl: nat)
      requires Mid(lvl) && lvl < LEVELS
      modifies `buckets, `pending, `due, `at
      ensures Mid(lvl + 1)
    {
      hide SlotOk, DueOk, IsFirst, Hits, Distinct, Gran, Armings, MidTimed;
      var gran := Gran(lvl);
      if lvl > 0 && clk % gran != 0 {
        NoHit(clk, lvl);
      } else {
        var b := clk / gran % SIZE;
        OneHit(clk, lvl);
        EmptySlot(buckets, pending, due, at, lvl, b);
        if b in pending[lvl] {
          CollectBucket(lvl, b);
        }
        EmptyList(buckets, pending, due, at, lvl, b);
      }
      ghost var next := lvl + 1;
      forall x ensures MidTimed(at, cur, arms, clk, next, x) {
        LevelDone(at, cur, arms, clk, lvl, x);
      }
    }

    /** wheel_advance_collect() */
    method AdvanceCollect()
      requires Valid()
      modifies `clk, `buckets, `pending, `due, `at
      ensures Ok() && clk == old(clk) + 1 && Distinct(due)
      ensures forall x :: x in due <==> IsDue(arms, clk, x)
    {
      hide SlotOk, DueOk, Armings, MidTimed, Timed;
      clk := clk + 1;
      Later(at, cur, arms, log, clk - 1);
      forall x ensures MidTimed(at, cur, arms, clk, 0, x) { Begins(at, cur, arms, clk, x); }
      var lvl := 0;
      while lvl < LEVELS
        invariant 0 <= lvl <= LEVELS && Mid(lvl) && clk == old(clk) + 1
      {
        CollectLevel(lvl);
        lvl := lvl + 1;
      }
      forall x ensures Timed(at, cur, arms, clk, x) {
        AllDone(at, cur, arms, clk, x, buckets, pending, due);
      }
      forall x ensures x in due <==> IsDue(arms, clk, x) {
        DueIff(buckets, pending, due, at, cur, arms, log, clk, x);
      }
      DueOnce(buckets, pending, due, at);
    }

    // ----------------------------------------------------------- callbacks

    /** What a callback does to the wheel: any arming and cancelling, of itself and of others. */
    method RunCallback(actions: seq<Action>)
      requires Ok()
      modifies `buckets, `pending, `due, `at, `arms, `cur
      ensures Ok() && |due| <= |old(due)| && Extends(old(arms), arms)
      ensures arms == ActAll(old(arms), clk, actions) && due == LeaveDueAll(old(due), actions)
    {
      hide Lists, Timed, Armings, Extends, Act, LeaveDue;
      NothingSettled(arms, 0, Cancelled);
      assert actions[..0] == [];
      var i := 0;
      while i < |actions|
        invariant 0 <= i <= |actions| && Ok() && |due| <= |old(due)| && Extends(old(arms), arms)
        invariant arms == ActAll(old(arms), clk, actions[..i]) && due == LeaveDueAll(old(due), actions[..i])
      {
        ghost var arms0 := arms;
        assert actions[..i + 1][..i] == actions[..i];
        match actions[i] {
          case Arm(x, delta) => var _ := Add(x, delta, true);
          case Disarm(x) => var _ := Cancel(x);
        }
        ExtendsTrans(old(arms), arms0, arms);
        i := i + 1;
      }
      assert actions[..|actions|] == actions;
    }

    /** sys_dlist_get() on the expired list: the timer is unlinked and its callback about to be called. */
    method PopDue() returns (x: Id)
      requires Ok() && due != []
      modifies `due, `at, `arms, `cur, `log
      ensures Ok() && x == old(due)[0] && due == old(due)[1..] && x in old(cur) && old(cur[x]) < |old(arms)|
      ensures log == old(log) + [old(cur[x])]
      ensures arms == old(arms)[old(cur[x]) := old(arms)[old(cur[x])].(fate := Fired(clk))] && Extends(old(arms), arms)
      ensures arms == SettleAs(old(arms), x, Fired(clk)) && arms[old(cur[x])].id == x
    {
      hide SlotOk, Distinct, IsFirst, ArmingOk;
      x := due[0];
      OnlyLive(at, cur, arms, log, clk, x);
      DueHead(buckets, pending, due, at);
      assert Timed(at, cur, arms, clk, x);
      Fire(at, cur, arms, log, clk, x);
      due := due[1..];
      log := log + [cur[x]];
      arms := arms[cur[x] := arms[cur[x]].(fate := Fired(clk))];
      at, cur := at - {x}, cur - {x};
      forall y ensures Timed(at, cur, arms, clk, y) { assert old(Timed(at, cur, arms, clk, y)); }
    }

    /** expire_list(); `script[k]` is what the k-th callback does. */
    method ExpireList(script: seq<seq<Action>>)
      requires Ok()
      modifies `buckets, `pending, `due, `at, `arms, `cur, `log
      ensures Valid() && Extends(old(arms), arms) && old(log) <= log
      ensures arms == Expired(old(arms), old(due), clk, script, 0)
      ensures IdsOf(arms, log[|old(log)|..]) == Calls(old(due), script, 0)
    {
      hide Lists, Timed, Armings, Extends, ActAll, LeaveDueAll, SettleAs, IdsOf;
      NothingSettled(arms, 0, Cancelled);
      ghost var done: seq<nat> := [];
      assert IdsOf(arms, done) == [] by { NoIds(arms); }
      var k := 0;
      while due != []
        invariant Ok() && Extends(old(arms), arms) && log == old(log) + done && forall s :: s in done ==> s < |arms|
        invariant Expired(arms, due, clk, script, k) == Expired(old(arms), old(due), clk, script, 0)
        invariant IdsOf(arms, done) + Calls(due, script, k) == Calls(old(due), script, 0)
        decreases |due|
      {
        ghost var arms0, due0 := arms, due;
        var x := PopDue();
        ghost var arms1, s := arms, log[|log| - 1];
        ExtendsTrans(old(arms), arms0, arms);
        RunCallback(Script(script, k));
        ExtendsTrans(old(arms), arms1, arms);
        ExtendsTrans(arms0, arms1, arms);
        IdsStep(arms0, arms1, arms, done, s, x);
        OneCall(IdsOf(arms0, done), due0, script, k);
        done := done + [s];
        k := k + 1;
      }
      assert log[|old(log)|..] == done;
    }

    /**
     ulmk_timer_tick(): the timers armed for this tick are called in some order, each unless
     an earlier callback of the tick has armed it anew or disarmed it, and every callback has
     its effect.
     */
    method Tick(script: seq<seq<Action>>) returns (ghost order: seq<Id>)
      requires Valid()
      modifies `clk, `buckets, `pending, `due, `at, `arms, `cur, `log
      ensures Valid() && clk == old(clk) + 1 && Extends(old(arms), arms) && old(log) <= log
      ensures Distinct(order) && forall x :: x in order <==> IsDue(old(arms), clk, x)
      ensures arms == Expired(old(arms), order, clk, script, 0)
      ensures IdsOf(arms, log[|old(log)|..]) == Calls(order, script, 0)
    {
      hide Lists, Timed, Armings, Extends, Expired, Calls, IsDue, IdsOf;
      AdvanceCollect();
      order := due;
      ExpireList(script);
    }

    /**
     Between calls, an arming is either waiting for its tick, still to come; or its
     callback was called, once, at that tick; or it was cancelled or replaced, and
     its callback never called.
     */
    lemma Fates(s: nat)
      requires Valid() && s < |arms|
      ensures match arms[s].fate
              case Live => When(arms[s]) > clk && arms[s].id in at && s !in log
              case Fired(tick) => tick == When(arms[s]) <= clk && multiset(log)[s] == 1
              case _ => s !in log
    {
      assert ArmingOk(arms[s], s, cur, log, clk);
      if arms[s].fate == Live {
        var x := arms[s].id;
        assert Timed(at, cur, arms, clk, x);
        assert x !in due;
      }
      OnceEach(log, s);
    }
  }

  lemma DueOnce(buckets: Buckets, pending: seq<set<nat>>, due: seq<Id>, at: map<Id, Loc>)
    requires Lists(buckets, pending, due, at)
    ensures Distinct(due)
  {
  }

  /** x is armed for this tick. */
  ghost predicate IsDue(arms: seq<Arming>, clk: nat, x: Id) {
    exists s :: 0 <= s < |arms| && arms[s].fate == Live && arms[s].id == x && When(arms[s]) == clk
  }

  /** The collected timers are those whose tick it is. */
  lemma DueIff(buckets: Buckets, pending: seq<set<nat>>, due: seq<Id>, at: map<Id, Loc>, cur: map<Id, nat>,
               arms: seq<Arming>, log: seq<nat>, clk: nat, x: Id)
    requires Lists(buckets, pending, due, at) && Armings(at, cur, arms, log, clk) && Timed(at, cur, arms, clk, x)
    ensures x in due <==> IsDue(arms, clk, x)
  {
    OnlyLive(at, cur, arms, log, clk, x);
  }

  lemma NotDue(due: seq<Id>, at: map<Id, Loc>, x: Id)
    requires DueOk(due, at) && (x in at ==> at[x] != Due)
    ensures Without(due, x) == due
  {
    WithoutNone(due, x);
  }

  /** Settling a timer that is not armed changes nothing. */
  lemma Unarmed(arms: seq<Arming>, due: seq<Id>, at: map<Id, Loc>, buckets: Buckets, pending: seq<set<nat>>, x: Id,
                fate: Fate)
    requires Lists(buckets, pending, due, at)
    requires forall s :: 0 <= s < |arms| && arms[s].fate == Live && arms[s].id == x ==> x in at
    ensures x !in at ==> SettleAs(arms, x, fate) == arms && Without(due, x) == due
  {
    if x !in at { NotDue(due, at, x); }
  }

  lemma DueHead(buckets: Buckets, pending: seq<set<nat>>, due: seq<Id>, at: map<Id, Loc>)
    requires Lists(buckets, pending, due, at) && due != []
    ensures due[0] in at && at[due[0]] == Due && Lists(buckets, pending, due[1..], at - {due[0]})
  {
    var x := due[0];
    assert due == [x] + due[1..];
    UnlinkDue(buckets, pending, due, at, x);
    assert Without(due, x) == due[1..];
  }

  lemma HitNow(t: nat, clk: nat, l: nat, b: nat)
    requires l < LEVELS && clk > 0 && IsFirst(t, clk - 1, l, b) && Hits(clk, l, b)
    ensures t == clk
  {
  }

  /** Off the level's clock edge no bucket of the level is pointed at. */
  lemma NoHit(clk: nat, l: nat)
    requires l < LEVELS && clk % Gran(l) != 0
    ensures forall b :: !Hits(clk, l, b)
  {
  }

  lemma OneHit(clk: nat, l: nat)
    requires l < LEVELS && (l > 0 ==> clk % Gran(l) == 0)
    ensures clk / Gran(l) % SIZE < SIZE && Hits(clk, l, clk / Gran(l) % SIZE)
    ensures forall b :: Hits(clk, l, b) ==> b == clk / Gran(l) % SIZE
  {
  }

  lemma EmptySlot(buckets: Buckets, pending: seq<set<nat>>, due: seq<Id>, at: map<Id, Loc>, l: nat, b: nat)
    requires Lists(buckets, pending, due, at) && l < LEVELS && b < SIZE
    ensures b !in pending[l] ==> buckets[l][b] == []
  {
    assert SlotOk(buckets[l][b], pending[l], at, l, b);
  }

  lemma EmptyList(buckets: Buckets, pending: seq<set<nat>>, due: seq<Id>, at: map<Id, Loc>, l: nat, b: nat)
    requires Lists(buckets, pending, due, at) && l < LEVELS && b < SIZE && buckets[l][b] == []
    ensures forall x :: x in at ==> at[x] != InBucket(l, b)
  {
    assert SlotOk(buckets[l][b], pending[l], at, l, b);
  }

  lemma Later(at: map<Id, Loc>, cur: map<Id, nat>, arms: seq<Arming>, log: seq<nat>, clk: nat)
    requires Armings(at, cur, arms, log, clk)
    ensures Armings(at, cur, arms, log, clk + 1)
  {
    forall s | 0 <= s < |arms| ensures ArmingOk(arms[s], s, cur, log, clk + 1) {
      assert ArmingOk(arms[s], s, cur, log, clk);
    }
  }

  /** What the clock does not point at waits for its own tick. */
  lemma LevelDone(at: map<Id, Loc>, cur: map<Id, nat>, arms: seq<Arming>, clk: nat, lvl: nat, x: Id)
    requires clk > 0 && lvl < LEVELS && MidTimed(at, cur, arms, clk, lvl, x)
    requires x in at && at[x].InBucket? && at[x].lvl == lvl ==> !Hits(clk, lvl, at[x].b)
    ensures MidTimed(at, cur, arms, clk, lvl + 1, x)
  {
  }

  lemma Begins(at: map<Id, Loc>, cur: map<Id, nat>, arms: seq<Arming>, clk: nat, x: Id)
    requires clk > 0 && Timed(at, cur, arms, clk - 1, x) && DueOk([], at)
    ensures MidTimed(at, cur, arms, clk, 0, x)
  {
    assert x !in [];
  }

  lemma AllDone(at: map<Id, Loc>, cur: map<Id, nat>, arms: seq<Arming>, clk: nat, x: Id,
                buckets: Buckets, pending: seq<set<nat>>, due: seq<Id>)
    requires clk > 0 && MidTimed(at, cur, arms, clk, LEVELS, x) && Lists(buckets, pending, due, at)
    ensures Timed(at, cur, arms, clk, x)
  {
  }

  lemma NothingSettled(arms: seq<Arming>, x: Id, fate: Fate)
    ensures Extends(arms, arms)
    ensures (forall s :: 0 <= s < |arms| ==> !(arms[s].fate == Live && arms[s].id == x)) ==>
              SettledAs(arms, arms, x, fate)
  {
  }

  lemma MoreArms(before: seq<Arming>, after: seq<Arming>, x: Id, fate: Fate, a: Arming)
    requires Extends(before, after) && SettledAs(before, after, x, fate)
    ensures Extends(before, after + [a]) && SettledAs(before, after + [a], x, fate)
  {
    forall s | 0 <= s < |before| ensures Continues(before[s], (after + [a])[s]) {
      assert Continues(before[s], after[s]);
    }
  }

  lemma OnlyLive(at: map<Id, Loc>, cur: map<Id, nat>, arms: seq<Arming>, log: seq<nat>, clk: nat, x: Id)
    requires Armings(at, cur, arms, log, clk)
    ensures forall s :: 0 <= s < |arms| && arms[s].fate == Live && arms[s].id == x ==>
              x in at && x in cur && cur[x] == s
  {
    forall s | 0 <= s < |arms| && arms[s].fate == Live && arms[s].id == x ensures x in at && x in cur && cur[x] == s {
      assert ArmingOk(arms[s], s, cur, log, clk);
    }
  }
}
