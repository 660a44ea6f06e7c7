/**
 Any sequence of the calls the kernel makes of the MMU back end (arch/riscv/mmu_sv32.c) once
 it is set up: switches, loads on faults and flushes.
 */
module Sv32Runs {
  import opened Sequences
  import opened Sv32
  import opened Sv32Table

  datatype Op =
    | DoSwitch(list: Option<nat>, regions: seq<Region>, kernel: bool)
    | DoLoad(win: Region)
    | DoFlush

  /** A NULL region list has no regions. */
  predicate Possible(op: Op) {
    op.DoSwitch? && op.list.None? ==> op.regions == []
  }

  /** The key of the layout after the calls, when it was `pinned` before. */
  function KeyAfter(ops: seq<Op>, pinned: Option<nat>): Option<nat> {
    if ops == [] then pinned
    else
      var op := ops[|ops| - 1];
      if op.DoSwitch? then (if op.kernel then None else op.list) else KeyAfter(ops[..|ops| - 1], pinned)
  }

  /** A switch to a user thread other than the one the layout is for. */
  predicate Renews(op: Op, key: Option<nat>) {
    op.DoSwitch? && !op.kernel && !(op.list.Some? && key == op.list)
  }

  /** The regions of the last new layout. */
  function Layout(ops: seq<Op>, pinned: Option<nat>): Option<seq<Region>> {
    if ops == [] then None
    else
      var n := |ops| - 1;
      if Renews(ops[n], KeyAfter(ops[..n], pinned)) then Some(ops[n].regions) else Layout(ops[..n], pinned)
  }

  /** The regions any layout has pinned, those of the last one included. */
  function EverPinned(ops: seq<Op>, pinned: Option<nat>, uramLo: Addr, uramHi: Addr): seq<Region> {
    if ops == [] then []
    else
      var n := |ops| - 1;
      EverPinned(ops[..n], pinned, uramLo, uramHi)
      + (if Renews(ops[n], KeyAfter(ops[..n], pinned)) then Accepted(ops[n].regions, uramLo, uramHi) else [])
  }

  /** The pages asked for by loads since the last flush or new layout. */
  function Asked(ops: seq<Op>, pinned: Option<nat>, before: seq<Entry>): seq<Entry> {
    if ops == [] then before
    else
      var n := |ops| - 1;
      if ops[n].DoFlush? || Renews(ops[n], KeyAfter(ops[..n], pinned)) then []
      else if ops[n].DoLoad? then
        Asked(ops[..n], pinned, before) + [Entry(ops[n].win.base / PAGE_SIZE, Allows(ops[n].win.perms))]
      else Asked(ops[..n], pinned, before)
  }

  /** What a page opened with these permissions lets a user do. */
  function Allows(perms: Perms): Rights {
    Perms(perms.read || perms.write, perms.write, perms.exec)
  }

  /** Page p lies in r, which allows q. */
  predicate Grants(r: Region, p: Page, q: Rights) {
    Within(p, PinLo(r), PinHi(r)) && q == Allows(r.perms)
  }

  /** Page p lies in one of the regions. */
  ghost predicate InSome(rs: seq<Region>, p: Page) {
    exists r :: r in rs && Within(p, PinLo(r), PinHi(r))
  }

  ghost predicate PinsFrom(pins: PageMap, acc: seq<Region>) {
    forall p: Page :: p in pins ==> exists r :: r in acc && Grants(r, p, pins[p])
  }

  /** Static pages keep their rights, and go only with a pin over them. */
  ghost predicate StaticKept(fixed0: PageMap, fixed: PageMap, ever: seq<Region>) {
    && (forall p: Page :: p in fixed ==> p in fixed0 && fixed[p] == fixed0[p])
    && (forall p: Page :: p in fixed0 && p !in fixed ==> InSome(ever, p))
  }

  /** What a hart grants beyond its tables: the key of its layout, its static pages, its pins and its loads. */
  datatype View = View(key: Option<nat>, fixed: PageMap, pins: PageMap, loads: seq<Entry>)

  ghost function ViewOf(h: Hart): View
    reads h
  {
    View(h.pinned, h.fixed, h.pins, h.loads)
  }

  /** What the calls can have granted, from v0 on. */
  ghost predicate Follows(ops: seq<Op>, uramLo: Addr, uramHi: Addr, v0: View, v: View) {
    && v.key == KeyAfter(ops, v0.key)
    && (match Layout(ops, v0.key)
        case None => v.pins == v0.pins
        case Some(rs) => PinsFrom(v.pins, Accepted(rs, uramLo, uramHi)))
    && (forall e :: e in v.loads ==> e in Asked(ops, v0.key, v0.loads))
    && StaticKept(v0.fixed, v.fixed, EverPinned(ops, v0.key, uramLo, uramHi))
  }

  lemma ServedPins(pin: seq<Range>, pins: PageMap, acc: seq<Region>, vpn: seq<Option<nat>>, l2static: nat,
                   mega: map<nat, Rights>)
    requires PinsAre(pin, pins, acc, vpn, l2static, mega)
    ensures PinsFrom(pins, acc)
  {
    hide PinLo, PinHi, NoTable;
    forall p: Page | p in pins ensures exists r :: r in acc && Grants(r, p, pins[p]) {
      if |acc| > 1 && p in RangeMap(pin[1].lo, pin[1].hi, RightsOf(acc[1])) {
        assert Serves(pin[1], acc[1], vpn, l2static, mega) && acc[1] in acc && Grants(acc[1], p, pins[p]);
      } else {
        assert |acc| > 0 && p in RangeMap(pin[0].lo, pin[0].hi, RightsOf(acc[0]));
        assert Serves(pin[0], acc[0], vpn, l2static, mega) && acc[0] in acc && Grants(acc[0], p, pins[p]);
      }
    }
  }

  lemma NothingYet(uramLo: Addr, uramHi: Addr, v: View)
    ensures Follows([], uramLo, uramHi, v, v)
  {
  }

  lemma InEither(a: seq<Region>, b: seq<Region>, p: Page)
    requires InSome(a, p) || InSome(b, p)
    ensures InSome(a + b, p)
  {
    hide PinLo, PinHi, Within;
    if InSome(a, p) {
      var r :| r in a && Within(p, PinLo(r), PinHi(r));
      assert r in a + b;
    } else {
      var r :| r in b && Within(p, PinLo(r), PinHi(r));
      assert r in a + b;
    }
  }

  lemma PinnedBy(pins: PageMap, acc: seq<Region>, p: Page)
    requires PinsFrom(pins, acc) && p in pins
    ensures InSome(acc, p)
  {
    hide PinLo, PinHi, Within;
    var r :| r in acc && Grants(r, p, pins[p]);
  }

  lemma LostToPins(fixed0: PageMap, fixed: PageMap, ever: seq<Region>, pins: PageMap, acc: seq<Region>)
    requires StaticKept(fixed0, fixed, ever) && PinsFrom(pins, acc)
    ensures StaticKept(fixed0, fixed - pins.Keys, ever + acc)
  {
    hide InSome, PinsFrom;
    forall p: Page | p in fixed0 && p !in fixed - pins.Keys ensures InSome(ever + acc, p) {
      if p in fixed { PinnedBy(pins, acc, p); }
      InEither(ever, acc, p);
    }
  }

  /** A new layout: its pins only, nothing loaded, and static pages gone only under it. */
  lemma Renewed(ops: seq<Op>, op: Op, uramLo: Addr, uramHi: Addr, v0: View, v: View, v': View)
    requires Follows(ops, uramLo, uramHi, v0, v) && Renews(op, v.key) && v'.key == op.list && v'.loads == []
    requires PinsFrom(v'.pins, Accepted(op.regions, uramLo, uramHi)) && v'.fixed == v.fixed - v'.pins.Keys
    ensures Follows(ops + [op], uramLo, uramHi, v0, v')
  {
    hide Accepted, PinsFrom, StaticKept;
    assert (ops + [op])[..|ops|] == ops;
    var acc, ever := Accepted(op.regions, uramLo, uramHi), EverPinned(ops, v0.key, uramLo, uramHi);
    assert EverPinned(ops + [op], v0.key, uramLo, uramHi) == ever + acc;
    LostToPins(v0.fixed, v.fixed, ever, v'.pins, acc);
  }

  /** Any other call: the pins stay, and what is loaded was loaded or has been asked for. */
  lemma Continued(ops: seq<Op>, op: Op, uramLo: Addr, uramHi: Addr, v0: View, v: View, v': View)
    requires Follows(ops, uramLo, uramHi, v0, v) && !Renews(op, v.key) && v'.pins == v.pins && v'.fixed == v.fixed
    requires v'.key == if op.DoSwitch? then (if op.kernel then None else op.list) else v.key
    requires op.DoFlush? ==> v'.loads == []
    requires forall e :: e in v'.loads ==>
               e in v.loads || (op.DoLoad? && e == Entry(op.win.base / PAGE_SIZE, Allows(op.win.perms)))
    ensures Follows(ops + [op], uramLo, uramHi, v0, v')
  {
    hide Accepted, PinsFrom, StaticKept;
    assert (ops + [op])[..|ops|] == ops;
    var ever := EverPinned(ops, v0.key, uramLo, uramHi);
    assert EverPinned(ops + [op], v0.key, uramLo, uramHi) == ever + [];
    assert ever + [] == ever;
  }

  /** One call. */
  method Do(h: Hart, op: Op, ghost ops: seq<Op>, ghost v0: View)
    requires h.Valid() && h.dirty == {} && h.rt.cleared == {} && Possible(op)
    requires Follows(ops, h.uramLo, h.uramHi, v0, ViewOf(h))
    modifies h
    ensures h.Valid() && h.dirty == {} && h.rt.cleared == {}
    ensures Follows(ops + [op], h.uramLo, h.uramHi, v0, ViewOf(h))
  {
    hide Agree, Coherent, RootsOk, Homes, MegaFixed, Union, PinRanges, Ring, PinsAre, Last, Accepted, Follows, Vpn1,
      Vpn0, Full;
    ghost var v := ViewOf(h);
    match op
    case DoSwitch(list, regions, kernel) =>
      h.Switch(list, regions, kernel);
      if Renews(op, v.key) {
        ServedPins(h.pin, h.pins, Accepted(regions, h.uramLo, h.uramHi), h.vpn, h.l2static, h.mega);
        Renewed(ops, op, h.uramLo, h.uramHi, v0, v, ViewOf(h));
      } else {
        Continued(ops, op, h.uramLo, h.uramHi, v0, v, ViewOf(h));
      }
    case DoLoad(win) =>
      var _ := h.Load(win);
      Continued(ops, op, h.uramLo, h.uramHi, v0, v, ViewOf(h));
    case DoFlush =>
      h.Flush();
      Continued(ops, op, h.uramLo, h.uramHi, v0, v, ViewOf(h));
  }

  /**
   Why a user access may find p with rights q: a static page; a region of the last new
   layout, or a page pinned before if there was none; or a load since the last flush or
   new layout.
   */
  ghost predicate Granted(ops: seq<Op>, uramLo: Addr, uramHi: Addr, v0: View, p: Page, q: Rights) {
    || (p in v0.fixed && v0.fixed[p] == q)
    || (match Layout(ops, v0.key)
        case None => p in v0.pins && v0.pins[p] == q
        case Some(rs) => exists r :: r in Accepted(rs, uramLo, uramHi) && Grants(r, p, q))
    || Entry(p, q) in Asked(ops, v0.key, v0.loads)
  }

  lemma MapGranted(ops: seq<Op>, uramLo: Addr, uramHi: Addr, v0: View, v: View, most: nat, m: PageMap, p: Page)
    requires Follows(ops, uramLo, uramHi, v0, v) && Union(m, v.fixed, v.pins, Last(v.loads, most)) && p in m
    ensures Granted(ops, uramLo, uramHi, v0, p, m[p])
  {
    hide Accepted, PinLo, PinHi, Layout, Asked, EverPinned, KeyAfter, InSome;
    assert UnionAt(m, v.fixed, v.pins, Last(v.loads, most), p);
    if p !in v.fixed && p !in v.pins {
      var e :| e in Last(v.loads, most) && e.page == p;
      assert e == Entry(p, m[p]) && e in v.loads;
    }
  }

  /**
   A user access finds what m says, by a walk or by a cached result; through a root entry the
   TLB has kept it may also fault.
   */
  ghost predicate SeesOnly(h: Hart, m: PageMap)
    requires |h.root| == PTES && forall i :: 0 <= i < |h.l2| ==> |h.l2[i]| == PTES
    reads h
  {
    && (forall p: Page :: Walk(h.T(), h.base, p) == Lookup(m, p))
    && (forall e :: e in h.tlb ==> e.1 == Lookup(m, e.0))
    && (forall p: Page, e :: (Vpn1(p), e) in h.rt.cache ==>
          WalkFrom(e, h.T(), h.base, p) == Lookup(m, p) || WalkFrom(e, h.T(), h.base, p) == Fault)
  }

  lemma OneMap(h: Hart)
    requires h.Valid() && h.dirty == {} && h.rt.cleared == {}
    ensures |h.root| == PTES && (forall i :: 0 <= i < |h.l2| ==> |h.l2[i]| == PTES) && SeesOnly(h, h.m)
  {
    hide Coherent, RootsOk, Homes, MegaFixed, Union, PinRanges, Ring, Last, Walk, WalkFrom, Lookup, Vpn1;
    forall p: Page ensures Walk(h.T(), h.base, p) == Lookup(h.m, p) {
      WalkIs(h.T(), h.n, h.base, h.m, h.mega, p);
    }
    forall e | e in h.tlb ensures e.1 == Lookup(h.m, e.0) { h.NothingStale(e); }
    forall p: Page, e | (Vpn1(p), e) in h.rt.cache
      ensures WalkFrom(e, h.T(), h.base, p) == Lookup(h.m, p) || WalkFrom(e, h.T(), h.base, p) == Fault
    {
      h.SeesThroughCache(p, e);
    }
  }

  /**
   After any switches, loads and flushes the tables, read with or without what the TLB has
   cached, are one map, and every page of it is granted by the calls: nothing is left of the
   pins and loads of an earlier layout, and static pages go only with a pin over them.
   */
  method Drive(h: Hart, ops: seq<Op>)
    requires h.Valid() && h.dirty == {} && h.rt.cleared == {} && forall op :: op in ops ==> Possible(op)
    modifies h
    ensures h.Valid() && h.dirty == {} && h.rt.cleared == {}
    ensures Follows(ops, h.uramLo, h.uramHi, old(ViewOf(h)), ViewOf(h))
    ensures forall p: Page :: p in h.m ==> Granted(ops, h.uramLo, h.uramHi, old(ViewOf(h)), p, h.m[p])
    ensures SeesOnly(h, h.m)
  {
    hide Agree, Coherent, RootsOk, Homes, MegaFixed, Union, PinRanges, Ring, Last, Follows, Granted, SeesOnly;
    ghost var v0 := ViewOf(h);
    NothingYet(h.uramLo, h.uramHi, v0);
    var i := 0;
    assert ops[..0] == [];
    while i < |ops|
      invariant 0 <= i <= |ops| && h.Valid() && h.dirty == {} && h.rt.cleared == {}
      invariant Follows(ops[..i], h.uramLo, h.uramHi, v0, ViewOf(h))
    {
      Do(h, ops[i], ops[..i], v0);
      assert ops[..i + 1] == ops[..i] + [ops[i]];
      i := i + 1;
    }
    assert ops[..|ops|] == ops;
    forall p: Page | p in h.m ensures Granted(ops, h.uramLo, h.uramHi, v0, p, h.m[p]) {
      MapGranted(ops, h.uramLo, h.uramHi, v0, ViewOf(h), h.most, h.m, p);
    }
    OneMap(h);
  }
}
