/**
 Backing blocks from the records that hold them to the heap: the area records of
 kernel/mem/area.c joined with the drops and settles of kernel/mem/mem.c.

 A block is named by the record of its origin.  A thread holds a block if its set holds a
 record derived from the origin; records of one block cover the same range, so it holds at
 most one.  What AreaOps takes out of the sets is then a drop of Settle: the threads it
 reports are those that lose a block, and the backed origins it retires are the blocks
 nobody holds any more.
 */
module Backing {
  import opened AreaForest
  import opened Sequences
  import AreaOps
  import S = Settle

  // -------------------------------------------------------------- origins

  /** The record that x was derived from in the first place. */
  function Origin(f: Forest, x: Id): Id
    decreases x
  {
    if x in f && f[x].parent.Some? && f[x].parent.value < x then Origin(f, f[x].parent.value) else x
  }

  lemma {:induction false} OriginIs(f: Forest, x: Id)
    requires Linked(f) && Derived(f) && x in f
    ensures var o := Origin(f, x);
            && o in f && f[o].parent.None? && Under(f, x, o) && f[o].base == f[x].base && f[o].size == f[x].size
    decreases x
  {
    assert NodeOk(f, x) && DerivedOk(f, x);
    if f[x].parent.Some? { OriginIs(f, f[x].parent.value); }
  }

  /** Being derived from a record without parent is having it as origin. */
  lemma {:induction false} UnderOrigin(f: Forest, x: Id, o: Id)
    requires Linked(f) && x in f && o in f && f[o].parent.None?
    ensures Under(f, x, o) <==> Origin(f, x) == o
    decreases x
  {
    assert NodeOk(f, x);
    if f[x].parent.Some? { UnderOrigin(f, f[x].parent.value, o); }
  }

  /** What stays keeps its origin. */
  lemma {:induction false} CutOrigin(f: Forest, dropped: set<Id>, gone: set<Id>, x: Id)
    requires Linked(f) && Removable(f, dropped, gone) && x in f && x !in gone
    ensures Origin(Cut(f, dropped, gone), x) == Origin(f, x)
    decreases x
  {
    assert NodeOk(f, x);
    if f[x].parent.Some? { CutOrigin(f, dropped, gone, f[x].parent.value); }
  }

  lemma {:induction false} NewOrigin(f: Forest, id: Id, a: Area, x: Id)
    requires Linked(f) && id !in f && x in f && (forall y :: y in f ==> y < id)
    ensures Origin(AreaOps.WithNew(f, id, a), x) == Origin(f, x)
    decreases x
  {
    assert NodeOk(f, x);
    if f[x].parent.Some? { NewOrigin(f, id, a, f[x].parent.value); }
  }

  // ---------------------------------------------------------------- blocks

  ghost predicate Holds(f: Forest, t: SetId, x: Id) {
    x in f && f[x].holder == Some(t)
  }

  /** The blocks a thread's set covers. */
  ghost function Blocks(f: Forest, t: SetId): set<S.Block> {
    set x | x in f && Holds(f, t, x) :: Origin(f, x)
  }

  /** A set holds one record of a block at most. */
  lemma OneRecord(f: Forest, sets: Sets, t: SetId, x: Id, y: Id)
    requires Linked(f) && Derived(f) && HeldOk(f, sets) && Holds(f, t, x) && Holds(f, t, y)
    requires Origin(f, x) == Origin(f, y)
    ensures x == y
  {
    OriginIs(f, x);
    OriginIs(f, y);
    assert Listed(f, sets, x) && Listed(f, sets, y) && SetOk(f, sets, t) && DerivedOk(f, x);
    var l := ListOf(sets, t);
    var i :| 0 <= i < |l| && l[i] == x;
    var j :| 0 <= j < |l| && l[j] == y;
  }

  /** Who loses which block when the records in d leave their sets. */
  ghost function Lost(f: Forest, d: set<Id>): set<(S.Thread, S.Block)> {
    set x | x in f && x in d && f[x].holder.Some? :: (f[x].holder.value, Origin(f, x))
  }

  lemma LostIff(f: Forest, sets: Sets, d: set<Id>, x: Id)
    requires Linked(f) && Derived(f) && HeldOk(f, sets) && x in f && f[x].holder.Some?
    ensures (f[x].holder.value, Origin(f, x)) in Lost(f, d) <==> x in d
  {
    if (f[x].holder.value, Origin(f, x)) in Lost(f, d) {
      var y :| y in f && y in d && f[y].holder.Some?
               && (f[y].holder.value, Origin(f, y)) == (f[x].holder.value, Origin(f, x));
      OneRecord(f, sets, f[x].holder.value, x, y);
    }
  }

  // ----------------------------------------------------------- agreement

  /** The sets of the records and those of Settle say the same, and so do the lists of retired blocks. */
  ghost predicate Agree(f: Forest, retired: seq<Id>, next: Id, s: S.State) {
    && s.next <= next
    && (forall x :: x in f && f[x].holder.Some? ==> f[x].holder.value < |s.holds|)
    && (forall t :: 0 <= t < |s.holds| ==> s.holds[t] == Blocks(f, t))
    && (forall x :: x in retired ==> S.Given(s, x))
  }

  /** What AreaOps.Areas.Valid() says of the records, all but the 16-bit counts. */
  ghost predicate Forested(f: Forest, sets: Sets, retired: seq<Id>, ever: set<Id>, next: Id) {
    && Linked(f) && AreaOps.Fresh(f, next) && Derived(f) && NoIdleOrphan(f) && HeldOk(f, sets)
    && AreaOps.RetireOk(f, retired, ever, next)
  }

  /** The forest and the sets after the records in d have left their sets. */
  ghost predicate Dropped(f: Forest, sets: Sets, retired: seq<Id>, drops: seq<SetId>, d: set<Id>,
                          f': Forest, sets': Sets, retired': seq<Id>, drops': seq<SetId>) {
    && f' == Cut(f, d, Unneeded(f, d)) && sets' == CutSets(sets, d)
    && AreaOps.RetiredExactly(f, retired, retired', Unneeded(f, d)) && AreaOps.Reported(f, d, drops, drops')
  }

  lemma UnneededGoes(f: Forest, d: set<Id>)
    requires Linked(f)
    ensures Removable(f, d, Unneeded(f, d))
  {
    forall x, k | x in Unneeded(f, d) && k in f[x].kids ensures k in Unneeded(f, d) {
      assert NodeOk(f, x);
      if Needed(f, d, k) {
        var y :| y in f && y !in d && f[y].holder.Some? && Under(f, y, k);
        UnderStep(f, y, k, x);
      }
    }
    forall x | x in Unneeded(f, d) && f[x].holder.Some? ensures x in d { assert Under(f, x, x); }
  }

  /** A record stays in its set exactly if it is not among the dropped. */
  lemma StillHolds(f: Forest, d: set<Id>, t: SetId, x: Id)
    requires Linked(f)
    ensures var g := Cut(f, d, Unneeded(f, d));
            && (Holds(g, t, x) <==> Holds(f, t, x) && x !in d)
            && (Holds(g, t, x) ==> Origin(g, x) == Origin(f, x))
  {
    UnneededGoes(f, d);
    if Holds(f, t, x) && x !in d { assert Under(f, x, x); }
    if x in f && x !in Unneeded(f, d) { CutOrigin(f, d, Unneeded(f, d), x); }
  }

  /** What each thread is left with. */
  lemma HoldsLeft(f: Forest, sets: Sets, d: set<Id>, s: S.State, t: nat)
    requires Linked(f) && Derived(f) && HeldOk(f, sets) && t < |s.holds| && s.holds[t] == Blocks(f, t)
    ensures S.HoldsAfter(s, Lost(f, d))[t] == Blocks(Cut(f, d, Unneeded(f, d)), t)
  {
    hide Linked, Derived, HeldOk, Cut, Unneeded, Origin, Lost;
    var g, left := Cut(f, d, Unneeded(f, d)), S.HoldsAfter(s, Lost(f, d))[t];
    forall b | b in left ensures b in Blocks(g, t) {
      var x :| x in f && Holds(f, t, x) && Origin(f, x) == b;
      LostIff(f, sets, d, x);
      StillHolds(f, d, t, x);
    }
    forall b | b in Blocks(g, t) ensures b in left {
      var x :| x in g && Holds(g, t, x) && Origin(g, x) == b;
      StillHolds(f, d, t, x);
      LostIff(f, sets, d, x);
    }
  }

  /** After the drop somebody holds o exactly if the record is still needed. */
  lemma HeldIsNeeded(f: Forest, sets: Sets, retired: seq<Id>, next: Id, d: set<Id>, s: S.State, o: Id)
    requires Linked(f) && Derived(f) && HeldOk(f, sets) && Agree(f, retired, next, s) && o in f && f[o].parent.None?
    ensures S.Held(S.HoldsAfter(s, Lost(f, d)), o) <==> Needed(f, d, o)
  {
    hide Linked, Derived, HeldOk, Cut, Unneeded, Origin, Lost, Under, S.HoldsAfter;
    var g, h := Cut(f, d, Unneeded(f, d)), S.HoldsAfter(s, Lost(f, d));
    if S.Held(h, o) {
      var t :| 0 <= t < |h| && o in h[t];
      HoldsLeft(f, sets, d, s, t);
      var x :| x in g && Holds(g, t, x) && Origin(g, x) == o;
      StillHolds(f, d, t, x);
      UnderOrigin(f, x, o);
    }
    if Needed(f, d, o) {
      var x :| x in f && x !in d && f[x].holder.Some? && Under(f, x, o);
      var t := f[x].holder.value;
      UnderOrigin(f, x, o);
      StillHolds(f, d, t, x);
      HoldsLeft(f, sets, d, s, t);
      assert o in h[t];
    }
  }

  /** The blocks that Settle retires are the origins that are freed. */
  lemma RetiresOrigins(f: Forest, sets: Sets, retired: seq<Id>, next: Id, d: set<Id>, s: S.State, o: Id)
    requires Linked(f) && Derived(f) && HeldOk(f, sets) && NoIdleOrphan(f) && AreaOps.Fresh(f, next)
    requires Agree(f, retired, next, s)
    ensures o in S.Retires(s, Lost(f, d)) <==> o in f && f[o].parent.None? && o in Unneeded(f, d)
  {
    hide Linked, Derived, HeldOk, NoIdleOrphan, Origin, Under, S.HoldsAfter, S.Held;
    if o in S.Retires(s, Lost(f, d)) {
      var p :| p in Lost(f, d) && !S.Held(S.HoldsAfter(s, Lost(f, d)), p.1) && p.1 == o;
      var x :| x in f && x in d && f[x].holder.Some? && (f[x].holder.value, Origin(f, x)) == p;
      OriginIs(f, x);
      HeldIsNeeded(f, sets, retired, next, d, s, o);
    }
    if o in f && f[o].parent.None? && o in Unneeded(f, d) {
      HeldIsNeeded(f, sets, retired, next, d, s, o);
      EveryRecordServes(f, next, o);
      var y :| y in f && f[y].holder.Some? && Under(f, y, o);
      UnderOrigin(f, y, o);
      assert y in d;
      assert (f[y].holder.value, o) in Lost(f, d);
    }
  }

  /** The threads that lose a block are those that are reported. */
  lemma LosersReported(f: Forest, d: set<Id>, drops: seq<SetId>, drops': seq<SetId>, t: S.Thread)
    requires AreaOps.Reported(f, d, drops, drops')
    ensures (exists p :: p in Lost(f, d) && p.0 == t) <==> t in drops'[|drops|..]
  {
    if t in drops'[|drops|..] {
      var x :| x in d && x in f && f[x].holder == Some(t);
      assert (t, Origin(f, x)) in Lost(f, d);
    }
  }

  // ---------------------------------------------------------------- drops

  /** What ulmk_kern_area_dropped() does for each report of a thread: the CPUs it marks. */
  ghost function Marked(s: S.State, c: S.Cpu, reports: seq<SetId>): set<S.Cpu>
    requires S.Typed(s) && c < |s.core|
  {
    set t | t in reports && t < |s.home| && t != s.core[c].current && s.home[t] != c
            && s.core[s.home[t]].current == t :: s.home[t]
  }

  /**
   Taking records out of their sets, by a revoke or a release of a set, is a drop of Settle:
   it marks the CPUs that the reports mark, flushes this CPU if its thread is reported, puts
   exactly the freed origins on the retired list, and leaves records and sets in agreement.
   */
  lemma DropsAgree(f: Forest, sets: Sets, retired: seq<Id>, drops: seq<SetId>, ever: set<Id>, next: Id, d: set<Id>,
                   f': Forest, sets': Sets, retired': seq<Id>, drops': seq<SetId>, s: S.State, c: S.Cpu)
    requires Forested(f, sets, retired, ever, next) && Agree(f, retired, next, s)
    requires Dropped(f, sets, retired, drops, d, f', sets', retired', drops')
    requires S.Typed(s) && c < |s.core|
    ensures var u := S.Drop(c, Lost(f, d)); var reports := drops'[|drops|..];
            && S.Enabled(s, u) && Agree(f', retired', next, S.Next(s, u))
            && S.MaskFor(s, c, u.lost) == Marked(s, c, reports)
            && (S.LosesCurrent(s, c, u.lost) <==> s.core[c].current in reports)
            && (forall o :: o in S.Retires(s, u.lost) <==> o in f && f[o].parent.None? && o !in f')
  {
    var u, reports := S.Drop(c, Lost(f, d)), drops'[|drops|..];
    DropEnabled(f, retired, next, d, s, c);
    DropLeaves(f, sets, retired, ever, next, d, retired', s, c);
    DropMarks(f, d, drops, drops', s, c);
    forall o ensures o in S.Retires(s, u.lost) <==> o in f && f[o].parent.None? && o !in f' {
      RetiresOrigins(f, sets, retired, next, d, s, o);
    }
  }

  lemma DropEnabled(f: Forest, retired: seq<Id>, next: Id, d: set<Id>, s: S.State, c: S.Cpu)
    requires Agree(f, retired, next, s) && S.Typed(s) && c < |s.core|
    ensures S.Enabled(s, S.Drop(c, Lost(f, d)))
  {
    forall p | p in Lost(f, d) ensures p.0 < |s.holds| && p.1 in s.holds[p.0] {
      var x :| x in f && x in d && f[x].holder.Some? && (f[x].holder.value, Origin(f, x)) == p;
      assert Holds(f, p.0, x);
    }
  }

  lemma DropMarks(f: Forest, d: set<Id>, drops: seq<SetId>, drops': seq<SetId>, s: S.State, c: S.Cpu)
    requires AreaOps.Reported(f, d, drops, drops') && S.Typed(s) && c < |s.core|
    ensures S.MaskFor(s, c, Lost(f, d)) == Marked(s, c, drops'[|drops|..])
    ensures S.LosesCurrent(s, c, Lost(f, d)) <==> s.core[c].current in drops'[|drops|..]
  {
    hide Lost;
    forall t: S.Thread ensures (exists p :: p in Lost(f, d) && p.0 == t) <==> t in drops'[|drops|..] {
      LosersReported(f, d, drops, drops', t);
    }
    LosersReported(f, d, drops, drops', s.core[c].current);
  }

  lemma DropLeaves(f: Forest, sets: Sets, retired: seq<Id>, ever: set<Id>, next: Id, d: set<Id>, retired': seq<Id>,
                   s: S.State, c: S.Cpu)
    requires Forested(f, sets, retired, ever, next) && Agree(f, retired, next, s)
    requires AreaOps.RetiredExactly(f, retired, retired', Unneeded(f, d))
    requires S.Enabled(s, S.Drop(c, Lost(f, d)))
    ensures Agree(Cut(f, d, Unneeded(f, d)), retired', next, S.Next(s, S.Drop(c, Lost(f, d))))
  {
    hide Linked, Derived, HeldOk, NoIdleOrphan, Origin, Under, Lost, S.HoldsAfter, S.Given, S.Retires, S.MaskFor,
      S.LosesCurrent, Blocks, Unneeded, S.Typed;
    var g, u := Cut(f, d, Unneeded(f, d)), S.Drop(c, Lost(f, d));
    forall t | 0 <= t < |s.holds| ensures S.HoldsAfter(s, Lost(f, d))[t] == Blocks(g, t) {
      HoldsLeft(f, sets, d, s, t);
    }
    forall x | x in retired' ensures S.Given(S.Next(s, u), x) {
      if x !in retired {
        BackedOrigin(f, x);
        RetiresOrigins(f, sets, retired, next, d, s, x);
      }
      S.StillGiven(s, u, x);
    }
  }

  lemma BackedOrigin(f: Forest, x: Id)
    requires Derived(f) && x in f && f[x].backed
    ensures f[x].parent.None?
  {
    assert DerivedOk(f, x);
  }

  // --------------------------------------------------------------- inserts

  lemma NewBlocks(f: Forest, id: Id, a: Area, t: SetId)
    requires Linked(f) && AreaOps.Fresh(f, id)
    ensures var g := AreaOps.WithNew(f, id, a);
            Blocks(g, t) == Blocks(f, t) + (if a.holder == Some(t) then {Origin(g, id)} else {})
  {
    hide Linked, Origin;
    var g := AreaOps.WithNew(f, id, a);
    forall x | x in f ensures Origin(g, x) == Origin(f, x) && (Holds(g, t, x) <==> Holds(f, t, x)) {
      NewOrigin(f, id, a, x);
    }
    assert Holds(g, t, id) <==> a.holder == Some(t);
    forall b | b in Blocks(f, t) ensures b in Blocks(g, t) {
      var x :| x in f && Holds(f, t, x) && Origin(f, x) == b;
      assert x in g && Holds(g, t, x);
    }
  }

  /** A new origin in the set of the running thread is a mapping of Settle. */
  lemma MapAgrees(f: Forest, retired: seq<Id>, next: Id, a: Area, s: S.State, c: S.Cpu)
    requires Linked(f) && AreaOps.Fresh(f, next) && Agree(f, retired, next, s) && S.Typed(s) && c < |s.core|
    requires a.parent.None? && a.holder == Some(s.core[c].current)
    ensures var u := S.Map(c, next);
            S.Enabled(s, u) && Agree(AreaOps.WithNew(f, next, a), retired, next + 1, S.Next(s, u))
  {
    hide Linked, S.Given, Blocks;
    var g, u := AreaOps.WithNew(f, next, a), S.Map(c, next);
    assert Origin(g, next) == next;
    forall t | 0 <= t < |s.holds| ensures S.Next(s, u).holds[t] == Blocks(g, t) { NewBlocks(f, next, a, t); }
    forall x | x in retired ensures S.Given(S.Next(s, u), x) { S.StillGiven(s, u, x); }
  }

  /** A record derived from one the running thread holds is a grant of that block. */
  lemma GrantAgrees(f: Forest, retired: seq<Id>, next: Id, a: Area, s: S.State, c: S.Cpu)
    requires Linked(f) && AreaOps.Fresh(f, next) && Agree(f, retired, next, s) && S.Typed(s) && c < |s.core|
    requires a.parent.Some? && Holds(f, s.core[c].current, a.parent.value)
    requires a.holder.Some? && a.holder.value < |s.holds|
    ensures var u := S.Grant(c, Origin(f, a.parent.value), a.holder.value);
            S.Enabled(s, u) && Agree(AreaOps.WithNew(f, next, a), retired, next + 1, S.Next(s, u))
  {
    hide Linked, S.Given;
    var g, u := AreaOps.WithNew(f, next, a), S.Grant(c, Origin(f, a.parent.value), a.holder.value);
    assert Origin(g, next) == Origin(g, a.parent.value);
    NewOrigin(f, next, a, a.parent.value);
    forall t | 0 <= t < |s.holds| ensures S.Next(s, u).holds[t] == Blocks(g, t) { NewBlocks(f, next, a, t); }
    forall x | x in retired ensures S.Given(S.Next(s, u), x) { S.StillGiven(s, u, x); }
  }

  /** The other steps of Settle leave the sets alone. */
  lemma OthersAgree(f: Forest, retired: seq<Id>, next: Id, s: S.State, u: S.Step)
    requires Agree(f, retired, next, s) && S.Enabled(s, u) && !u.Map? && !u.Grant? && !u.Drop?
    ensures Agree(f, retired, next, S.Next(s, u))
  {
    hide S.Given, Blocks, S.LayoutFor;
    forall x | x in retired ensures S.Given(S.Next(s, u), x) { S.StillGiven(s, u, x); }
  }

  // ------------------------------------------------------------------ runs

  /** The records and the state of Settle at one moment. */
  datatype Mem = Mem(f: Forest, sets: Sets, retired: seq<Id>, drops: seq<SetId>, ever: set<Id>, next: Id, s: S.State)

  datatype Step =
    | Insert(cpu: S.Cpu, area: Area)    // ulmk_area_insert() for the thread running on cpu
    | Take(cpu: S.Cpu, d: set<Id>)      // ulmk_area_revoke() or ulmk_area_set_release()
    | Other(step: S.Step)               // a fault, a switch or a part of a settle

  ghost predicate Sound(m: Mem) {
    Forested(m.f, m.sets, m.retired, m.ever, m.next) && Agree(m.f, m.retired, m.next, m.s) && S.Inv(m.s)
  }

  ghost predicate Possible(m: Mem, t: Step) {
    match t
    case Insert(c, a) =>
      && c < |m.s.core| && a.holder.Some?
      && (if a.parent.Some? then Holds(m.f, m.s.core[c].current, a.parent.value) && a.holder.value < |m.s.holds|
          else a.holder.value == m.s.core[c].current)
    case Take(c, d) => c < |m.s.core|
    case Other(u) => S.Enabled(m.s, u) && !u.Map? && !u.Grant? && !u.Drop?
  }

  /** The step of Settle that a step is. */
  ghost function StepOf(m: Mem, t: Step): S.Step {
    match t
    case Insert(c, a) =>
      if a.parent.Some? && a.holder.Some? then S.Grant(c, Origin(m.f, a.parent.value), a.holder.value)
      else S.Map(c, m.next)
    case Take(c, d) => S.Drop(c, Lost(m.f, d))
    case Other(u) => u
  }

  /** What the operations on the records promise of a step, and what Settle makes of it if it is enabled there. */
  ghost predicate Moves(m: Mem, t: Step, m': Mem) {
    && Possible(m, t) && Forested(m'.f, m'.sets, m'.retired, m'.ever, m'.next)
    && (S.Enabled(m.s, StepOf(m, t)) ==> m'.s == S.Next(m.s, StepOf(m, t)))
    && match t
       case Insert(c, a) =>
         && m'.f == AreaOps.WithNew(m.f, m.next, a) && m'.next == m.next + 1
         && m'.retired == m.retired && m'.drops == m.drops
       case Take(c, d) =>
         && Dropped(m.f, m.sets, m.retired, m.drops, d, m'.f, m'.sets, m'.retired, m'.drops)
         && m'.next == m.next && m'.ever == m.ever
       case Other(u) => m' == m.(s := m'.s)
  }

  /** Every step is one that Settle allows, and the two keep saying the same. */
  lemma MovesAgree(m: Mem, t: Step, m': Mem)
    requires Sound(m) && Moves(m, t, m')
    ensures S.Enabled(m.s, StepOf(m, t)) && Sound(m')
  {
    hide Linked, Derived, HeldOk, NoIdleOrphan, AreaOps.RetireOk, Dropped, S.Next, S.Enabled, Agree, Origin, Lost,
      AreaOps.WithNew;
    match t {
      case Insert(c, a) =>
        if a.parent.Some? { GrantAgrees(m.f, m.retired, m.next, a, m.s, c); }
        else { MapAgrees(m.f, m.retired, m.next, a, m.s, c); }
      case Take(c, d) =>
        DropsAgree(m.f, m.sets, m.retired, m.drops, m.ever, m.next, d, m'.f, m'.sets, m'.retired, m'.drops, m.s, c);
      case Other(u) => OthersAgree(m.f, m.retired, m.next, m.s, u);
    }
    S.NextKeepsInv(m.s, StepOf(m, t));
  }

  ghost predicate Run(m: Mem, steps: seq<Step>, m': Mem)
    decreases |steps|
  {
    if steps == [] then m == m' else exists m1 :: Moves(m, steps[0], m1) && Run(m1, steps[1..], m')
  }

  /** No thread maps anything yet; the CPUs run theirs. */
  ghost predicate Starts(m: Mem, current: seq<S.Thread>, home: seq<S.Cpu>, user: seq<bool>) {
    && |home| == |user| && (forall e :: 0 <= e < |current| ==> current[e] < |home| && home[current[e]] == e)
    && (forall t :: 0 <= t < |home| ==> home[t] < |current|)
    && m == Mem(map[], map[], [], [], {}, 0, S.Init(current, home, user))
  }

  lemma StartSound(m: Mem, current: seq<S.Thread>, home: seq<S.Cpu>, user: seq<bool>)
    requires Starts(m, current, home, user)
    ensures Sound(m)
  {
    S.InitInv(current, home, user);
    forall t | 0 <= t < |m.s.holds| ensures m.s.holds[t] == Blocks(m.f, t) { assert Blocks(m.f, t) == {}; }
  }

  /** Every run of inserts, revokes, releases, faults, switches and settles is a run of Settle. */
  lemma {:induction false} RunAgrees(m: Mem, steps: seq<Step>, m': Mem) returns (us: seq<S.Step>)
    requires Sound(m) && Run(m, steps, m')
    ensures Sound(m') && S.Run(m.s, us, m'.s) && |us| == |steps|
    decreases |steps|
  {
    hide Sound, Moves, S.Enabled, S.Next;
    if steps == [] { return []; }
    var m1 :| Moves(m, steps[0], m1) && Run(m1, steps[1..], m');
    MovesAgree(m, steps[0], m1);
    var rest := RunAgrees(m1, steps[1..], m');
    us := [StepOf(m, steps[0])] + rest;
    assert us[1..] == rest;
    NextIs(m, steps[0], m1);
  }

  lemma NextIs(m: Mem, t: Step, m': Mem)
    requires Moves(m, t, m') && S.Enabled(m.s, StepOf(m, t))
    ensures m'.s == S.Next(m.s, StepOf(m, t))
  {
  }

  /**
   A backing block that reached a retired list, a settle or the heap is one that no record in
   any set derives from any more, and the other way round.
   */
  lemma GivenIffUnneeded(m: Mem, b: Id)
    requires Sound(m) && b in m.ever
    ensures S.Given(m.s, b) <==> !Needed(m.f, {}, b)
    ensures S.Given(m.s, b) <==> b in m.retired
  {
    hide Derived, HeldOk, NoIdleOrphan, S.Given, S.CoreOk, S.RangeOk, S.StaleOk, S.Typed;
    AreaOps.BlockLife(m.f, m.retired, m.ever, m.next, b);
    if b in m.f && m.f[b].backed {
      BackedOrigin(m.f, b);
      EveryRecordServes(m.f, m.next, b);
      var y :| y in m.f && m.f[y].holder.Some? && Under(m.f, y, b);
      UnderOrigin(m.f, y, b);
      assert Holds(m.f, m.f[y].holder.value, y);
      assert S.BlockOk(m.s, b) && b in m.s.holds[m.f[y].holder.value];
    }
  }

  // --------------------------------------------------------------- safety

  /** Every CPU that shows b is on the list of CPU c already, or runs a thread that is reported. */
  predicate Covers(s: S.State, c: S.Cpu, reports: seq<SetId>, b: S.Block)
    requires c < |s.core|
  {
    forall e :: 0 <= e < |s.core| && S.Shows(s, e, b) ==> e in s.core[c].mask || s.core[e].current in reports
  }

  lemma CoversIsClean(f: Forest, d: set<Id>, drops: seq<SetId>, drops': seq<SetId>, s: S.State, c: S.Cpu, b: S.Block)
    requires AreaOps.Reported(f, d, drops, drops') && S.Typed(s) && c < |s.core|
    ensures Covers(s, c, drops'[|drops|..], b) <==> S.CleanDrop(s, c, Lost(f, d), b)
  {
    hide Lost;
    forall t: S.Thread ensures (exists p :: p in Lost(f, d) && p.0 == t) <==> t in drops'[|drops|..] {
      LosersReported(f, d, drops, drops', t);
    }
  }

  /**
   After any run: a revoke or release that frees a backed origin lets its block back into the
   heap safely, whatever happens next, if and only if every CPU that shows the block is
   marked already or runs a thread that the operation reports.
   */
  lemma SafeIffReported(m0: Mem, current: seq<S.Thread>, home: seq<S.Cpu>, user: seq<bool>, steps: seq<Step>, m: Mem,
                        c: S.Cpu, d: set<Id>, m': Mem, b: Id)
    requires Starts(m0, current, home, user) && Run(m0, steps, m) && Moves(m, Take(c, d), m')
    requires b in m.f && m.f[b].backed && b !in m'.f
    ensures b in m'.retired && (S.AlwaysSafe(m'.s, b) <==> Covers(m.s, c, m'.drops[|m.drops|..], b))
  {
    hide Sound, Moves, Run, Lost, S.AlwaysSafe, Covers, S.CleanDrop, S.Enabled, S.Run, S.Retires;
    StartSound(m0, current, home, user);
    var us := RunAgrees(m0, steps, m);
    TakeIs(m, c, d, m', b);
    CoversIsClean(m.f, d, m.drops, m'.drops, m.s, c, b);
    S.SafeIffClean(current, home, user, us, m.s, c, Lost(m.f, d), b);
  }

  /** The drop that frees a backed origin puts its block on the retired list. */
  lemma TakeIs(m: Mem, c: S.Cpu, d: set<Id>, m': Mem, b: Id)
    requires Sound(m) && Moves(m, Take(c, d), m')
    ensures S.Typed(m.s) && c < |m.s.core| && AreaOps.Reported(m.f, d, m.drops, m'.drops) && |m.drops| <= |m'.drops|
    ensures var u := S.Drop(c, Lost(m.f, d)); S.Enabled(m.s, u) && m'.s == S.Next(m.s, u)
    ensures b in m.f && m.f[b].backed && b !in m'.f <==> b in m'.retired && b !in m.retired
    ensures b in m.f && m.f[b].backed && b !in m'.f ==> b in S.Retires(m.s, Lost(m.f, d))
  {
    hide Linked, HeldOk, NoIdleOrphan, Lost, S.Enabled, S.Next, Origin, S.Retires, Agree, Unneeded;
    DropsAgree(m.f, m.sets, m.retired, m.drops, m.ever, m.next, d, m'.f, m'.sets, m'.retired, m'.drops, m.s, c);
    if b in m.f && m.f[b].backed { BackedOrigin(m.f, b); }
  }

  /** A run in which every revoke and release passes the test for each backed origin it frees. */
  ghost predicate CleanRun(m: Mem, steps: seq<Step>, m': Mem)
    decreases |steps|
  {
    if steps == [] then m == m'
    else exists m1 :: Moves(m, steps[0], m1) && CleanStep(m, steps[0], m1) && CleanRun(m1, steps[1..], m')
  }

  ghost predicate CleanStep(m: Mem, t: Step, m': Mem) {
    t.Take? && t.cpu < |m.s.core| && |m.drops| <= |m'.drops| ==>
      forall b :: b in m.f && m.f[b].backed && b !in m'.f ==> Covers(m.s, t.cpu, m'.drops[|m.drops|..], b)
  }

  /** Whoever shows a retired block will be flushed before it is freed. */
  ghost predicate AllCovered(m: Mem) {
    forall b :: b in m.retired ==> S.Covered(m.s, b)
  }

  lemma StepCovered(m: Mem, t: Step, m': Mem)
    requires Sound(m) && Moves(m, t, m') && CleanStep(m, t, m') && AllCovered(m)
    ensures AllCovered(m')
  {
    hide Linked, Derived, HeldOk, NoIdleOrphan, S.Covered, S.Next, S.Enabled, Lost, S.Given;
    MovesAgree(m, t, m');
    forall b | b in m'.retired ensures S.Covered(m'.s, b) {
      if b in m.retired {
        assert S.BlockOk(m.s, b);
        S.NextCovered(m.s, StepOf(m, t), b);
      } else {
        NewlyCovered(m, t, m', b);
      }
    }
  }

  lemma NewlyCovered(m: Mem, t: Step, m': Mem, b: Id)
    requires Sound(m) && Moves(m, t, m') && CleanStep(m, t, m') && b in m'.retired && b !in m.retired
    ensures S.Covered(m'.s, b)
  {
    hide Linked, Derived, HeldOk, NoIdleOrphan, S.Covered, S.Next, S.Enabled, Lost, S.Given, S.CleanDrop, S.Clean,
      S.Retires, Covers, Dropped, S.CoreOk, S.RangeOk, S.StaleOk, S.BlockOk;
    TakeIs(m, t.cpu, t.d, m', b);
    CoversIsClean(m.f, t.d, m.drops, m'.drops, m.s, t.cpu, b);
    S.CleanBeforehand(m.s, t.cpu, Lost(m.f, t.d), b);
    S.CleanIsCovered(m.s, t.cpu, Lost(m.f, t.d), b);
  }

  lemma {:induction false} CleanCovered(m: Mem, steps: seq<Step>, m': Mem)
    requires Sound(m) && AllCovered(m) && CleanRun(m, steps, m')
    ensures Sound(m') && AllCovered(m')
    decreases |steps|
  {
    hide Sound, Moves, AllCovered, CleanStep;
    if steps != [] {
      var m1 :| Moves(m, steps[0], m1) && CleanStep(m, steps[0], m1) && CleanRun(m1, steps[1..], m');
      MovesAgree(m, steps[0], m1);
      StepCovered(m, steps[0], m1);
      CleanCovered(m1, steps[1..], m');
    }
  }

  /**
   From the records to the heap, over every such run: a backing block that the heap got back is
   one that no record in any set derives from and that no user thread reaches.
   */
  lemma FreedIsDead(m0: Mem, current: seq<S.Thread>, home: seq<S.Cpu>, user: seq<bool>, steps: seq<Step>, m: Mem)
    requires Starts(m0, current, home, user) && CleanRun(m0, steps, m)
    ensures forall b :: b in m.ever && b in m.s.freed ==> !Needed(m.f, {}, b) && forall e :: !S.Shows(m.s, e, b)
  {
    hide CleanRun, Sound, Starts, S.Shows, Needed;
    StartSound(m0, current, home, user);
    assert AllCovered(m0) by { NothingRetired(m0, current, home, user); }
    CleanCovered(m0, steps, m);
    forall b | b in m.ever && b in m.s.freed ensures !Needed(m.f, {}, b) && forall e :: !S.Shows(m.s, e, b) {
      GivenIffUnneeded(m, b);
      assert S.Covered(m.s, b);
    }
  }

  lemma NothingRetired(m: Mem, current: seq<S.Thread>, home: seq<S.Cpu>, user: seq<bool>)
    requires Starts(m, current, home, user)
    ensures m.retired == []
  {
  }

  // ---------------------------------------------------------- the operations

  ghost function MemOf(a: AreaOps.Areas, s: S.State): Mem
    reads a
  {
    Mem(a.f, a.sets, a.retired, a.drops, a.ever, a.next, s)
  }

  /** Settle after the step. */
  ghost function After(m: Mem, t: Step): S.State {
    if S.Enabled(m.s, StepOf(m, t)) then S.Next(m.s, StepOf(m, t)) else m.s
  }

  /** ulmk_area_revoke() is such a step. */
  method Revoke(a: AreaOps.Areas, x: Id, ghost s: S.State, ghost c: S.Cpu) returns (ghost s': S.State)
    requires a.Valid() && x in a.f && c < |s.core| && Sound(MemOf(a, s))
    modifies a
    ensures a.Valid() && Sound(MemOf(a, s'))
    ensures Moves(old(MemOf(a, s)), Take(c, Subtree(old(a.f), x)), MemOf(a, s'))
  {
    hide Linked, Derived, HeldOk, NoIdleOrphan, AreaOps.CountsOk, AreaOps.RetireOk, Subtree, Cut, CutSets,
      AreaOps.RetiredExactly, AreaOps.Reported, Agree, S.Inv, S.Enabled, S.Next;
    ghost var m, t := MemOf(a, s), Take(c, Subtree(a.f, x));
    a.Revoke(x);
    s' := After(m, t);
    MovesAgree(m, t, MemOf(a, s'));
  }

  /** And so is ulmk_area_set_release(). */
  method Release(a: AreaOps.Areas, t: SetId, ghost s: S.State, ghost c: S.Cpu) returns (ghost s': S.State)
    requires a.Valid() && c < |s.core| && Sound(MemOf(a, s))
    modifies a
    ensures a.Valid() && Sound(MemOf(a, s'))
    ensures Moves(old(MemOf(a, s)), Take(c, AreaOps.Members(ListOf(old(a.sets), t))), MemOf(a, s'))
  {
    hide Linked, Derived, HeldOk, NoIdleOrphan, AreaOps.CountsOk, AreaOps.RetireOk, AreaOps.Members, Cut, CutSets,
      AreaOps.RetiredExactly, AreaOps.Reported, Agree, S.Inv, S.Enabled, S.Next;
    ghost var m, u := MemOf(a, s), Take(c, AreaOps.Members(ListOf(a.sets, t)));
    a.SetRelease(t);
    s' := After(m, u);
    MovesAgree(m, u, MemOf(a, s'));
  }

  /** An insert that succeeds is a step too, for the running thread or for one it grants to. */
  method Add(a: AreaOps.Areas, to: SetId, base: nat, size: nat, perms: set<Perm>, kind: Kind, backed: bool,
             parent: Option<Id>, oom: bool, ghost s: S.State, ghost c: S.Cpu)
    returns (rc: AreaOps.Status, ghost s': S.State)
    requires a.Valid() && base < ADDR_LIMIT && size < ADDR_LIMIT && Sound(MemOf(a, s))
    requires parent.Some? ==> && parent.value in a.f && base == a.f[parent.value].base && size == a.f[parent.value].size
                              && perms <= a.f[parent.value].perms && !backed
    requires Possible(MemOf(a, s), Insert(c, Area(parent, [], Some(to), base, size, perms, kind, backed)))
    modifies a
    ensures a.Valid() && Sound(MemOf(a, s')) && (rc != AreaOps.Ok ==> unchanged(a) && s' == s)
    ensures rc == AreaOps.Ok ==>
              Moves(old(MemOf(a, s)), Insert(c, Area(parent, [], Some(to), base, size, perms, kind, backed)),
                    MemOf(a, s'))
  {
    hide Linked, Derived, HeldOk, NoIdleOrphan, AreaOps.CountsOk, AreaOps.RetireOk, Agree, S.Inv, S.Enabled, S.Next,
      AreaOps.WithNew, AreaOps.InsertedIn, AreaOps.InsertStatus, Origin;
    ghost var m, t := MemOf(a, s), Insert(c, Area(parent, [], Some(to), base, size, perms, kind, backed));
    rc := a.Insert(to, base, size, perms, kind, backed, parent, oom);
    if rc != AreaOps.Ok {
      s' := s;
      return;
    }
    s' := After(m, t);
    MovesAgree(m, t, MemOf(a, s'));
  }
}
