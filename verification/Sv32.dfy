/**
 The Sv32 back end of one hart (arch/riscv/mmu_sv32.c): a static map built at
 init, the pinned pages of the running thread, and a ring of pages loaded on
 fault.  Each hart has its own tables, so one hart is the whole model.

 The TLB may hold the result of any walk made since the last fence that covers
 the page, faults included.
 */
module Sv32 {
  import opened Sequences
  import opened Sv32Static
  import opened Sv32Table

  const PAGE_SIZE := 0x1000
  const ADDR_LIMIT := 0x1_0000_0000
  const PIN_MAX := 2

  type Addr = a: nat | a < ADDR_LIMIT

  datatype Region = Region(base: Addr, size: Addr, perms: Perms)

  function PageOf(a: Addr): Page { a / PAGE_SIZE }

  /** First page and end page of a pinned region, in 32-bit arithmetic. */
  function PinLo(r: Region): Page { PageOf(r.base) }

  function PinHi(r: Region): Page { PageOf((r.base + r.size + PAGE_SIZE - 1) % ADDR_LIMIT) }

  /** The pages static_map() maps for [lo, hi): those that lie inside. */
  ghost function StaticPages(lo: Addr, hi: Addr, q: Rights): PageMap {
    RangeMap(PageOf((lo + PAGE_SIZE - 1) % ADDR_LIMIT), PageOf(hi), q)
  }

  predicate IsRoot(k: nat) { k < PTES }

  ghost function AllRoots(): set<nat> {
    set k: nat | 0 <= k < PTES && IsRoot(k)
  }

  ghost function AllPages(): set<Page> {
    set p: Page | 0 <= p < PAGES && Within(p, 0, PAGES)
  }

  class Hart {
    const n: nat       // ULMK_ARCH_SV32_L2_NUM
    const most: nat    // ULMK_ARCH_SV32_DYN_MAX
    const base: nat    // page frame of the first level-2 table
    const uramLo: Addr
    const uramHi: Addr

    var root: seq<Pte>
    var l2: seq<seq<Pte>>
    var vpn: seq<Option<nat>>
    var l2pin: set<nat>
    var l2static: nat
    var dyn: seq<Page>
    var dynN: nat
    var dynNext: nat
    var pin: seq<Range>
    var pinned: Option<nat>  // the region list last laid out, by address

    ghost var m: PageMap
    ghost var mega: map<nat, Rights>
    ghost var fixed: PageMap
    ghost var pins: PageMap
    ghost var loads: seq<Entry>  // successful loads since the ring was last dropped
    ghost var tlb: iset<(Page, Outcome)>
    ghost var dirty: set<Page>   // pages whose walk may have changed since they were last fenced
    ghost var rt: RootTlb

    ghost function T(): Tables
      reads this
    {
      Tables(root, l2, vpn)
    }

    ghost predicate Mapped()
      reads this
    {
      Agree(T(), n, base, m, mega) && Coherent(T(), base, tlb, dirty) && RootsOk(rt, root)
    }

    ghost predicate Core()
      reads this
    {
      && Mapped() && Union(m, fixed, pins, Last(loads, most))
      && Homes(vpn, l2static, l2pin, fixed, pins, mega) && MegaFixed(mega, fixed)
    }

    ghost predicate Valid()
      reads this
    {
      && n <= 32 && 0 < most <= 255
      && Core() && Ring(dyn, dynN, dynNext, most, Last(loads, most)) && PinRanges(pin, pins)
    }

    /** A table is there for root entry k or can be had without dropping anything. */
    ghost predicate Room(k: nat)
      requires |root| == PTES && k < PTES && l2static <= |vpn|
      reads this
    {
      Some(k) in vpn || (!root[k].v && !Full(vpn, l2static))
    }

    ghost predicate Bare()
      reads this
    {
      OnlyStatic(m, fixed, pins, loads, l2static, vpn)
    }

    /** ulmk_arch_mpu_init() up to the static map; `cached` is what the TLB held before. */
    constructor (n: nat, most: nat, base: nat, uramLo: Addr, uramHi: Addr, ghost cached: iset<(Page, Outcome)>,
                 ghost roots: iset<(nat, Pte)>)
      requires n <= 32 && 0 < most <= 255 && forall k, e :: (k, e) in roots ==> k < PTES
      ensures Valid() && fixed == map[] && Bare() && pinned.None? && l2static == 0 && loads == []
      ensures pin == [Range(0, 0), Range(0, 0)]
      ensures this.n == n && this.most == most && this.uramLo == uramLo && this.uramHi == uramHi
    {
      this.n, this.most, this.base, this.uramLo, this.uramHi := n, most, base, uramLo, uramHi;
      root := Zeros();
      l2 := seq(n, _ => Zeros());
      vpn := seq(n, _ => None);
      pin := [Range(0, 0), Range(0, 0)];
      pinned := None;
      l2pin, l2static := {}, 0;
      dyn, dynN, dynNext := seq(most, _ => 0), 0, 0;
      m, mega, fixed, pins, loads := map[], map[], map[], map[], [];
      tlb := cached;
      dirty := AllPages();
      rt := RootTlb(roots + Roots(Zeros()), {}, AllRoots());
      new;
      hide Agree, Coherent, RootsOk, Union, Zeros, AllPages;
      EmptyTables(T(), n, base);
      AnyCached(T(), base, tlb);
      assert forall k, e :: (k, e) in rt.cache ==> IsRoot(k);
      JustFixed(fixed);
    }

    // ------------------------------------------------------------- fences

    ghost method SfenceAll()
      requires Agree(T(), n, base, m, mega)
      modifies `tlb, `dirty, `rt
      ensures Mapped() && dirty == {} && rt == RootTlb(Roots(root), {}, {})
    {
      tlb, dirty := Walks(T(), base), {};
      RootsFenced(root);
      rt := RootTlb(Roots(root), {}, {});
    }

    ghost method Sfence(p: Page)
      requires Mapped()
      modifies `tlb, `dirty
      ensures Mapped() && dirty == old(dirty) - {p}
    {
      hide Walk;
      tlb := (iset e | e in tlb && e.0 != p) + Walks(T(), base);
      dirty := dirty - {p};
    }

    // ------------------------------------------------------------- tables

    /** l2_find() */
    method L2Find(k: nat) returns (r: Option<nat>)
      requires |vpn| == n
      ensures r.Some? ==> r.value < n && vpn[r.value] == Some(k)
      ensures r.None? ==> Some(k) !in vpn
    {
      var i := 0;
      while i < n
        invariant 0 <= i <= n && forall j :: 0 <= j < i ==> vpn[j] != Some(k)
      {
        if vpn[i] == Some(k) { return Some(i); }
        i := i + 1;
      }
      r := None;
    }

    /** l2_alloc() */
    method L2Alloc(k: nat) returns (r: Option<nat>)
      requires Mapped() && l2static <= n && k < PTES
      modifies `root, `rt, `l2, `vpn, `tlb
      ensures Mapped()
      ensures r.Some? <==> !old(root[k].v) && !old(Full(vpn, l2static))
      ensures r.None? ==> unchanged(this)
      ensures r.Some? ==> && l2static <= r.value < n && old(vpn[r.value]).None?
                          && vpn == old(vpn)[r.value := Some(k)] && root == old(root)[k := PteTable(base + r.value)]
                          && (forall j :: l2static <= j < r.value ==> old(vpn[j]).Some?)
                          && rt == RootSet(old(rt), root, k)
    {
      hide MegaFixed, SlotOk, Walk, Coherent, Lookup, RootsOk;
      if root[k].v { return None; }
      var i := l2static;
      while i < n
        invariant l2static <= i <= n && forall j :: l2static <= j < i ==> vpn[j].Some?
      {
        if vpn[i].None? {
          var tbl := l2[i];
          var j := 0;
          while j < PTES
            invariant 0 <= j <= PTES && |tbl| == PTES && forall q :: 0 <= q < j ==> tbl[q] == ZERO
          {
            tbl := tbl[j := ZERO];
            j := j + 1;
          }
          assert tbl == Zeros();
          ghost var t := T();
          Alloc(t, n, base, m, mega, i, k);
          assert RootOk(t, n, base, mega, k);
          RootWritten(rt, root, k, PteTable(base + i));
          l2, vpn, root := l2[i := tbl], vpn[i := Some(k)], root[k := PteTable(base + i)];
          assert T() == WithTable(t, base, i, k);
          StaleOnly(t, T(), n, base, m, m, mega, mega, tlb, dirty, dirty);
          tlb := tlb + Walks(T(), base);
          rt := RootSet(rt, root, k);
          return Some(i);
        }
        i := i + 1;
      }
      r := None;
    }

    /** l2_release() */
    method L2Release(i: nat)
      requires Mapped() && i < n && vpn[i].Some?
      requires forall p: Page :: p in m ==> Vpn1(p) != vpn[i].value
      modifies `root, `rt, `vpn, `l2pin, `tlb
      ensures Mapped() && vpn == old(vpn)[i := None] && l2pin == old(l2pin) - {i}
    {
      hide MegaFixed, RootOk, SlotOk, Walk, Coherent, Lookup;
      ghost var t := T();
      ReleaseTable(t, n, base, m, mega, i);
      TableRoot(t, n, base, m, mega, i);
      RootWritten(rt, root, vpn[i].value, ZERO);
      rt := RootCleared(rt, root[vpn[i].value := ZERO], vpn[i].value);
      root, vpn := root[vpn[i].value := ZERO], vpn[i := None];
      l2pin := l2pin - {i};
      assert T() == WithoutTable(t, i);
      StaleOnly(t, T(), n, base, m, m, mega, mega, tlb, dirty, dirty);
      tlb := tlb + Walks(T(), base);
    }

    /** A store to the entry pte_slot() returned. */
    method StoreLeaf(i: nat, p: Page, q: Rights)
      requires Mapped() && i < n && vpn[i] == Some(Vpn1(p))
      modifies `l2, `m, `tlb, `dirty
      ensures Mapped() && m == old(m)[p := q] && dirty == old(dirty) + {p}
    {
      hide MegaFixed, RootOk, SlotOk, Walk, Coherent;
      ghost var t, m0 := T(), m;
      SetSlot(t, n, base, m, m[p := q], mega, i, p);
      l2 := l2[i := l2[i][Vpn0(p) := PteLeaf(p, q)]];
      m := m[p := q];
      StaleOnly(t, T(), n, base, m0, m, mega, mega, tlb, dirty, dirty + {p});
      tlb, dirty := tlb + Walks(T(), base), dirty + {p};
    }

    /** unmap_page() */
    method UnmapPage(p: Page)
      requires Mapped() && Vpn1(p) !in mega
      modifies `l2, `m, `tlb, `dirty
      ensures Mapped() && m == old(m) - {p} && dirty == old(dirty) + {p}
    {
      hide MegaFixed, RootOk, SlotOk, Walk;
      var i := L2Find(Vpn1(p));
      if i.None? {
        HasTable(T(), n, base, m, mega, p);
        dirty := dirty + {p};
        assert m == m - {p};
        return;
      }
      hide Coherent;
      ghost var t, m0 := T(), m;
      SetSlot(t, n, base, m, m - {p}, mega, i.value, p);
      l2 := l2[i.value := l2[i.value][Vpn0(p) := ZERO]];
      m := m - {p};
      StaleOnly(t, T(), n, base, m0, m, mega, mega, tlb, dirty, dirty + {p});
      tlb, dirty := tlb + Walks(T(), base), dirty + {p};
    }

    /** pte_slot() with `alloc` set. */
    method PteSlot(p: Page) returns (r: Option<nat>)
      requires Core()
      modifies `root, `rt, `l2, `vpn, `tlb
      ensures Core()
      ensures r.Some? <==> old(Vpn1(p) < PTES && Room(Vpn1(p)))
      ensures r.Some? ==> r.value < n && vpn[r.value] == Some(Vpn1(p))
      ensures r.None? ==> unchanged(this)
      ensures |vpn| == n && (old(Full(vpn, l2static)) ==> vpn == old(vpn))
      ensures r.Some? && Some(Vpn1(p)) in old(vpn) ==> unchanged(this)
      ensures r.Some? && Some(Vpn1(p)) !in old(vpn) ==>
                rt.added == old(rt).added + {Vpn1(p)} && rt.cleared == old(rt).cleared
    {
      hide MegaFixed, RootOk, SlotOk, Walk, Coherent, Lookup, Union;
      PageParts(p);
      r := L2Find(Vpn1(p));
      if r.None? {
        ghost var t := T();
        r := L2Alloc(Vpn1(p));
        if r.Some? {
          HomesAlloc(t, n, base, m, mega, fixed, pins, Last(loads, most), l2static, l2pin, r.value, Vpn1(p));
        }
      }
    }

    // --------------------------------------------------------- static map

    /** A megapage store of static_map(). */
    method StoreMega(a: Page, q: Rights)
      requires Mapped() && a % PTES == 0 && Granting(q) && !root[Vpn1(a)].v
      modifies `root, `rt, `m, `mega, `tlb, `dirty
      ensures Mapped() && m == old(m) + RangeMap(a, a + PTES, q) && mega == old(mega)[Vpn1(a) := q]
      ensures |root| == PTES
    {
      PageParts(a);
      hide MegaFixed, RootOk, SlotOk, Walk, Coherent, Vpn1, Vpn0;
      ghost var t, m0, mega0 := T(), m, mega;
      MapMega(t, n, base, m, mega, Vpn1(a), q);
      EmptyRoot(t, n, base, m, mega, Vpn1(a));
      RootWritten(rt, root, Vpn1(a), PteLeaf(a, q));
      root := root[Vpn1(a) := PteLeaf(a, q)];
      rt := RootSet(rt, root, Vpn1(a));
      m, mega := m + RangeMap(a, a + PTES, q), mega[Vpn1(a) := q];
      ghost var all := dirty + AllPages();
      forall p: Page ensures p in all { assert Within(p, 0, PAGES); }
      StaleOnly(t, T(), n, base, m0, m, mega0, mega, tlb, dirty, all);
      tlb, dirty := tlb + Walks(T(), base), all;
    }

    ghost predicate Building()
      reads this
    {
      && Mapped() && |root| == PTES && |vpn| == n && Bare()
      && Homes(vpn, l2static, l2pin, fixed, pins, mega) && MegaFixed(mega, fixed)
    }

    /** The table static_map() puts a page in: the next free one when the root entry has none. */
    method StaticSlot(k: nat) returns (r: Option<nat>)
      requires Building() && k < PTES
      modifies `root, `rt, `l2, `vpn, `l2static, `tlb
      ensures Building() && (r.Some? ==> r.value < l2static && vpn[r.value] == Some(k) && k !in mega)
      ensures r.None? ==> unchanged(this) && Some(k) !in vpn && (l2static == n || k in mega)
      ensures r.Some? && Some(k) in old(vpn) ==> vpn == old(vpn) && l2static == old(l2static)
      ensures r.Some? && Some(k) !in old(vpn) ==>
                l2static == old(l2static) + 1 && forall j :: Some(j) in vpn <==> Some(j) in old(vpn) || j == k
    {
      hide MegaFixed, RootOk, SlotOk, Walk, Coherent, Lookup, RootsOk;
      r := L2Find(k);
      if r.Some? { TableNotMega(T(), n, base, m, mega, r.value, k); }
      if r.None? {
        ghost var vpn0 := vpn;
        r := L2Alloc(k);
        if r.None? {
          if root[k].v { TableOrMega(T(), n, base, m, mega, k); }
          return;
        }
        TableNotMega(T(), n, base, m, mega, r.value, k);
        OneMore(vpn0, r.value, k);
        hide Agree;
        assert vpn0[l2static].None?;
        assert vpn[..l2static] == vpn0[..l2static];
        HomesGrow(vpn0, vpn, l2static, l2static + 1, l2pin, fixed, fixed, mega, mega);
        l2static := l2static + 1;
      }
    }

    /** One page of static_map(). */
    method StaticPage(a: Page, q: Rights) returns (ok: bool)
      requires Building()
      modifies `root, `rt, `l2, `vpn, `l2static, `m, `fixed, `tlb, `dirty
      ensures Building() && (ok ==> fixed == old(fixed)[a := q] && Vpn1(a) !in mega)
      ensures !ok ==> unchanged(this) && Some(Vpn1(a)) !in vpn && (l2static == n || Vpn1(a) in mega)
      ensures ok && Some(Vpn1(a)) in old(vpn) ==> vpn == old(vpn) && l2static == old(l2static)
      ensures ok && Some(Vpn1(a)) !in old(vpn) ==>
                && l2static == old(l2static) + 1
                && forall j :: Some(j) in vpn <==> Some(j) in old(vpn) || j == Vpn1(a)
    {
      hide Agree, Walk, Coherent, RootsOk, Lookup, Vpn1, Vpn0, MegaFixed;
      PageParts(a);
      var i := StaticSlot(Vpn1(a));
      if i.None? { return false; }
      assert vpn[..l2static][i.value] == Some(Vpn1(a));
      StoreLeaf(i.value, a, q);
      HomesGrow(vpn, vpn, l2static, l2static, l2pin, fixed, m, mega, mega);
      MegaFixedKept(mega, fixed, m);
      fixed := m;
      ok := true;
    }

    method StaticMega(a: Page, q: Rights)
      requires Building() && a % PTES == 0 && Granting(q) && Vpn1(a) < PTES && !root[Vpn1(a)].v
      modifies `root, `rt, `m, `mega, `fixed, `tlb, `dirty
      ensures Building() && fixed == old(fixed) + RangeMap(a, a + PTES, q) && mega == old(mega)[Vpn1(a) := q]
    {
      hide Agree, Walk, Coherent, RootsOk, Lookup, MegaFixed, Vpn1, Vpn0;
      ghost var mega0 := mega;
      StoreMega(a, q);
      MegaFixedMore(mega0, fixed, m, a, q);
      HomesGrow(vpn, vpn, l2static, l2static, l2pin, fixed, m, mega0, mega);
      fixed := m;
    }

    /**
     The loop of static_map() over whole pages; false stands for its panic, which comes
     exactly when the range was stuck before.
     */
    method StaticRange(first: Page, end: Page, q: Rights) returns (ok: bool)
      requires Building() && Granting(q)
      modifies `root, `rt, `l2, `vpn, `l2static, `m, `mega, `fixed, `tlb, `dirty
      ensures Building() && (ok ==> fixed == old(fixed) + RangeMap(first, end, q))
      ensures old(l2static) <= n && (ok <==> !Stuck(first, end, old(vpn), old(mega), n - old(l2static)))
    {
      hide MegaFixed, Agree, Walk, Coherent, RootsOk, Homes, OnlyStatic, Vpn0, RangeMap, Track, Stuck;
      StaticSizes();
      var a: nat := first;
      RangeNone(fixed, first, a, q);
      RangeNone(fixed, first, if end < first then end else first, q);
      TrackStart(first, end, vpn, l2static, mega);
      while a < end
        invariant first <= a && (a <= end || a == first) && Building()
        invariant fixed == old(fixed) + RangeMap(first, a, q)
        invariant Track(first, a, end, old(vpn), old(l2static), old(mega), vpn, l2static, mega)
        decreases end - a
      {
        PageParts(a);
        StaticSizes();
        RootKinds(T(), n, base, m, mega, Vpn1(a));
        if a % PTES == 0 && end - a >= PTES && !root[Vpn1(a)].v {
          TrackMega(first, a, end, old(vpn), old(l2static), old(mega), vpn, l2static, mega, q);
          StaticMega(a, q);
          RangeMore(old(fixed), first, a, a + PTES, q);
          a := a + PTES;
        } else {
          ghost var vpn1, used := vpn, l2static;
          ok := StaticPage(a, q);
          if !ok {
            TrackStuck(first, a, end, old(vpn), old(l2static), old(mega), vpn, l2static, mega, n);
            return;
          }
          TrackPage(first, a, end, old(vpn), old(l2static), old(mega), vpn1, used, mega, vpn, l2static);
          RangeOne(old(fixed), first, a, q);
          a := a + 1;
        }
      }
      StaticSizes();
      TrackUsed(first, a, end, old(vpn), old(l2static), old(mega), vpn, l2static, mega);
      TrackEnd(first, a, end, old(vpn), old(l2static), old(mega), vpn, l2static, mega, n);
      ok := true;
    }

    lemma StaticSizes()
      requires Building()
      ensures l2static <= n && |vpn| == n && |root| == PTES
    {
    }

    /** static_map() */
    method StaticMap(lo: Addr, hi: Addr, perms: Perms) returns (ok: bool)
      requires Valid() && Bare() && Granting(perms)
      modifies `root, `rt, `l2, `vpn, `l2static, `m, `mega, `fixed, `tlb, `dirty
      ensures ok ==> Valid() && Bare() && fixed == old(fixed) + StaticPages(lo, hi, PermsToPte(perms))
      ensures old(l2static) <= n
      ensures ok <==> !Stuck(PageOf((lo + PAGE_SIZE - 1) % ADDR_LIMIT), PageOf(hi), old(vpn), old(mega),
                             n - old(l2static))
      ensures ok ==> forall p: Page :: Inside(p, lo, hi) ==> Opened(T(), base, p, perms)
    {
      hide MegaFixed, Agree, Walk, Coherent, RootsOk, Union, Homes, Ring, PinRanges, RangeMap, PageOf, Stuck;
      IsBuilding();
      ok := StaticRange(PageOf((lo + PAGE_SIZE - 1) % ADDR_LIMIT), PageOf(hi), PermsToPte(perms));
      if ok {
        JustFixed(fixed);
        var a, b := PageOf((lo + PAGE_SIZE - 1) % ADDR_LIMIT), PageOf(hi);
        InRange(old(fixed), a, b, PermsToPte(perms));
        RangeSeen(a, b, perms);
        forall p: Page | Inside(p, lo, hi) ensures Opened(T(), base, p, perms) { WholePages(lo, hi, p); }
      }
    }

    lemma IsBuilding()
      requires Valid() && Bare()
      ensures Building()
    {
      assert Shape(T(), n);
    }

    /** static_user() and the end of ulmk_arch_mpu_init(). */
    method StaticUser(textLo: Addr, textHi: Addr, periphLo: Addr, periphHi: Addr) returns (ok: bool)
      requires Valid() && Bare() && fixed == map[]
      modifies `root, `rt, `l2, `vpn, `l2static, `m, `mega, `fixed, `tlb, `dirty
      ensures ok ==> Valid() && Bare() && dirty == {} && rt.added == rt.cleared == {}
      ensures ok ==> fixed ==
                       StaticPages(textLo, textHi, Perms(true, false, true))
                       + StaticPages(uramLo, uramHi, Perms(true, true, false))
                       + StaticPages(periphLo, periphHi, Perms(true, true, false))
    {
      hide MegaFixed, Agree, Coherent, RootsOk, Union, Homes, Ring, PinRanges, OnlyStatic, StaticPages, Walk, Last;
      ok := StaticMap(textLo, textHi, Perms(true, false, true));
      if !ok { return; }
      assert map[] + StaticPages(textLo, textHi, Perms(true, false, true))
          == StaticPages(textLo, textHi, Perms(true, false, true));
      ok := StaticMap(uramLo, uramHi, Perms(true, true, false));
      if !ok { return; }
      ok := StaticMap(periphLo, periphHi, Perms(true, true, false));
      if !ok { return; }
      SfenceAll();
    }

    // ------------------------------------------------------- ring and pins

    /** The plain facts the operations start from. */
    lemma Sizes()
      requires Valid()
      ensures |root| == PTES && |vpn| == n && l2static <= n && |pin| == PIN_MAX
      ensures |dyn| == most && |Last(loads, most)| == dynN && dynNext < most
      ensures Last([], most) == [] && Ring(dyn, 0, 0, most, [])
    {
    }

    /** No page of the ring or of a pin lies under a megapage. */
    lemma UnderTable(p: Page)
      requires Core() && p !in fixed
      ensures Vpn1(p) !in mega
    {
    }

    method UnmapRing()
      requires Valid()
      modifies `l2, `m, `tlb, `dirty
      ensures Mapped() && m == old(m) - PagesOf(Last(loads, most))
    {
      hide MegaFixed, Agree, Coherent, RootsOk, Homes, Vpn1, Vpn0;
      RingPages(dyn, dynN, dynNext, most, Last(loads, most));
      forall p | p in dyn[..dynN] ensures Vpn1(p) !in mega {
        assert p in PagesOf(Last(loads, most));
        UnderTable(p);
      }
      hide Union, Ring, PinRanges;
      var i := 0;
      while i < dynN
        invariant 0 <= i <= dynN && Mapped() && m == old(m) - PageSet(dyn[..i])
      {
        UnmapPage(dyn[i]);
        PageSetMore(dyn, i);
        i := i + 1;
      }
      assert PageSet(dyn[..dynN]) == PagesOf(Last(loads, most));
    }

    lemma TableCount()
      requires Core()
      ensures |vpn| == n && l2static <= n
    {
    }

    method ReleaseUnused()
      requires Core() && Last(loads, most) == []
      modifies `root, `rt, `vpn, `l2pin, `tlb
      ensures Core() && l2pin == old(l2pin) && |vpn| == n
      ensures forall i :: 0 <= i < n ==> vpn[i] == if i < l2static || i in l2pin then old(vpn)[i] else None
    {
      hide MegaFixed, Agree, Coherent, RootsOk, Union, Homes, Vpn1;
      TableCount();
      var i := l2static;
      while i < n
        invariant l2static <= i <= n && Core() && l2pin == old(l2pin) && |vpn| == n
        invariant forall j :: 0 <= j < i ==> vpn[j] == if j < l2static || j in l2pin then old(vpn)[j] else None
        invariant forall j :: i <= j < n ==> vpn[j] == old(vpn)[j]
      {
        if vpn[i].Some? && i !in l2pin {
          Unused(T(), n, base, m, mega, fixed, pins, l2static, l2pin, i);
          HomesRelease(vpn, l2static, l2pin, fixed, pins, mega, i);
          L2Release(i);
          assert l2pin == old(l2pin);
        }
        i := i + 1;
      }
    }

    /** dyn_drop() */
    method DynDrop()
      requires Valid()
      modifies `root, `rt, `l2, `vpn, `l2pin, `dynN, `dynNext, `m, `loads, `tlb, `dirty
      ensures Valid() && loads == [] && l2pin == old(l2pin) && |vpn| == n == |old(vpn)|
      ensures forall i :: 0 <= i < n ==> vpn[i] == if i < l2static || i in l2pin then old(vpn)[i] else None
    {
      hide MegaFixed, Agree, Coherent, RootsOk, Homes, Union, PinRanges, Ring, Last;
      Sizes();
      UnmapRing();
      DropAll(old(m), fixed, pins, Last(loads, most));
      dynN, dynNext := 0, 0;
      loads := [];
      ReleaseUnused();
    }

    /** Ready for dyn_push(): the new page is in the tables but not yet in the ring. */
    ghost predicate Pushing(e: Entry)
      reads this
    {
      && 0 < most <= 255 && n <= 32 && Mapped() && PinRanges(pin, pins)
      && Homes(vpn, l2static, l2pin, fixed, pins, mega) && MegaFixed(mega, fixed)
      && Union(m, fixed, pins, Last(loads, most) + [e]) && Ring(dyn, dynN, dynNext, most, Last(loads, most))
    }

    /** dyn_push() for a page already in the tables. */
    method DynPush(p: Page, ghost e: Entry)
      requires Pushing(e) && e.page == p
      modifies `l2, `dyn, `dynN, `dynNext, `m, `loads, `tlb, `dirty
      ensures Valid() && loads == old(loads) + [e] && dirty <= old(dirty)
    {
      hide MegaFixed, Agree, Coherent, RootsOk, Homes, PinRanges, Vpn1, Vpn0, Ring, Union, NextSlot, Last;
      RingSizes(dyn, dynN, dynNext, most, loads, e);
      if dynN < most {
        RingPush(dyn, dynN, dynNext, most, Last(loads, most), e);
        dyn := dyn[dynN := p];
        dynN := dynN + 1;
        loads := loads + [e];
      } else {
        PushFull(p, e);
      }
    }

    method PushFull(p: Page, ghost e: Entry)
      requires Pushing(e) && e.page == p && dynN == most
      modifies `l2, `dyn, `dynNext, `m, `loads, `tlb, `dirty
      ensures Valid() && loads == old(loads) + [e] && dirty <= old(dirty)
    {
      hide MegaFixed, Agree, Coherent, RootsOk, Homes, PinRanges, Vpn1, Vpn0, Ring, Union, NextSlot, Last;
      ghost var recent := Last(loads, most);
      RingSizes(dyn, dynN, dynNext, most, loads, e);
      RingTurn(dyn, dynNext, most, recent, e);
      EvictOldest(dyn[dynNext], recent + [e]);
      dyn := dyn[dynNext := p];
      dynNext := NextSlot(dynNext, most);
      loads := loads + [e];
    }

    method EvictOldest(victim: Page, ghost recent: seq<Entry>)
      requires Mapped() && MegaFixed(mega, fixed) && Union(m, fixed, pins, recent)
      requires recent != [] && recent[0].page == victim
      modifies `l2, `m, `tlb, `dirty
      ensures Mapped() && Union(m, fixed, pins, recent[1..]) && dirty <= old(dirty)
    {
      hide MegaFixed, Agree, Coherent, RootsOk, Vpn1, Vpn0, Union;
      assert recent[0] in recent;
      Evict(m, fixed, pins, recent);
      OldUnderTable(m, mega, fixed, pins, recent, victim);
      UnmapPage(victim);
      Sfence(victim);
    }

    method UnmapRange(lo: nat, hi: nat)
      requires Mapped() && hi <= PAGES && forall p: Page :: Within(p, lo, hi) ==> Vpn1(p) !in mega
      modifies `l2, `m, `tlb, `dirty
      ensures Mapped() && m == old(m) - PageRange(lo, hi)
    {
      hide Agree, Coherent, RootsOk, Vpn1, Vpn0;
      var va := lo;
      while va < hi
        invariant lo <= va && (va <= hi || va == lo) && Mapped() && m == old(m) - PageRange(lo, va)
      {
        assert Within(va, lo, hi);
        UnmapPage(va);
        PageRangeMore(lo, va);
        va := va + 1;
      }
    }

    /** pin_drop() */
    method PinDrop()
      requires Valid()
      modifies `l2, `pin, `l2pin, `m, `pins, `tlb, `dirty
      ensures Valid() && pins == map[] && l2pin == {} && pin == [Range(0, 0), Range(0, 0)]
    {
      hide Agree, Coherent, RootsOk, Homes, MegaFixed, Ring, Union, Vpn1, Vpn0, PageRange, PinRanges;
      Sizes();
      PinsUnderTable(m, mega, fixed, pins, Last(loads, most), pin);
      Unpinned(m, fixed, pins, Last(loads, most), pin, vpn, l2static, mega);
      ghost var pin0 := pin;
      var i := 0;
      while i < PIN_MAX
        invariant 0 <= i <= PIN_MAX && Mapped() && |pin| == PIN_MAX
        invariant forall j :: 0 <= j < PIN_MAX ==> pin[j] == if j < i then Range(0, 0) else pin0[j]
        invariant m == old(m) - (if i > 0 then PageRange(pin0[0].lo, pin0[0].hi) else {})
                             - (if i > 1 then PageRange(pin0[1].lo, pin0[1].hi) else {})
      {
        UnmapRange(pin[i].lo, pin[i].hi);
        pin := pin[i := Range(0, 0)];
        i := i + 1;
      }
      l2pin := {};
      pins := map[];
      assert pin == [Range(0, 0), Range(0, 0)];
    }

    /**
     One step of pin_map()'s loop; false when no table can be had for the page or a static
     megapage covers it.  A static page in a table is overwritten, and is static no more.
     */
    method PinPage(p: Page, q: Rights) returns (ok: bool)
      requires Core() && loads == []
      modifies `root, `rt, `l2, `vpn, `l2pin, `m, `fixed, `pins, `tlb, `dirty
      ensures Core()
      ensures ok ==> m == old(m)[p := q] && pins == old(pins)[p := q] && fixed == old(fixed) - {p}
      ensures !ok ==> unchanged(this) && NoTable(vpn, l2static, mega, p)
      ensures old(Full(vpn, l2static)) ==> vpn == old(vpn)
    {
      hide Agree, Coherent, RootsOk, Homes, MegaFixed, Union, Vpn1, Vpn0, Full, Last;
      NoRoom(T(), n, base, m, mega, p);
      var i := PteSlot(p);
      if i.None? { return false; }
      NoLoads(most);
      PinKeeps(T(), n, base, m, mega, fixed, pins, l2static, l2pin, i.value, p, q);
      StoreLeaf(i.value, p, q);
      if i.value >= l2static { l2pin := l2pin + {i.value}; }
      pins := pins[p := q];
      fixed := fixed - {p};
      ok := true;
    }

    /**
     pin_map(): the pages of the region from the first on, up to one that can have no table.
     The static map loses exactly the pages pinned.
     */
    method PinMap(k: nat, r: Region)
      requires Valid() && loads == [] && k < PIN_MAX && pin[k] == Range(0, 0)
      modifies `root, `rt, `l2, `vpn, `l2pin, `pin, `m, `fixed, `pins, `tlb, `dirty
      ensures Valid() && |pin| == PIN_MAX && pin == old(pin)[k := Range(PinLo(r), pin[k].hi)]
      ensures PinLo(r) <= pin[k].hi && (pin[k].hi <= PinHi(r) || pin[k].hi == PinLo(r))
      ensures pins == old(pins) + RangeMap(PinLo(r), pin[k].hi, PermsToPte(r.perms))
      ensures fixed == old(fixed) - PageRange(PinLo(r), pin[k].hi)
      ensures |vpn| == n && l2static <= n && (pin[k].hi < PinHi(r) ==> NoTable(vpn, l2static, mega, pin[k].hi))
      ensures forall p: Page :: Within(p, r.base / PAGE_SIZE, pin[k].hi) ==> Opened(T(), base, p, r.perms)
      ensures old(Full(vpn, l2static)) ==> vpn == old(vpn)
    {
      hide Agree, Coherent, RootsOk, Homes, MegaFixed, Union, Vpn1, Vpn0, RangeMap, PinLo, PinHi, PinRanges, Ring,
        NoTable, PageRange, Opened;
      Sizes();
      var q := PermsToPte(r.perms);
      var lo, hi := PinLo(r), PinHi(r);
      var va: nat := lo;
      RangeNone(pins, lo, va, q);
      NoPages(fixed, lo);
      while va < hi
        invariant lo <= va && (va <= hi || va == lo) && Core()
        invariant pin == old(pin) && pins == old(pins) + RangeMap(lo, va, q) && fixed == old(fixed) - PageRange(lo, va)
        invariant old(Full(vpn, l2static)) ==> vpn == old(vpn)
      {
        assert Within(va, lo, hi);
        var ok := PinPage(va, q);
        if !ok { break; }
        RangeOne(old(pins), lo, va, q);
        PageRangeMore(lo, va);
        va := va + 1;
      }
      PinSlot(old(pin), old(pins), k, lo, va, q);
      pin := pin[k := Range(lo, va)];
      Sizes();
      InRange(old(pins), lo, va, q);
      RangeSeen(lo, va, r.perms);
      PinLoIs(r);
    }

    // ---------------------------------------------------------- operations

    lemma MegaNoTable()
      requires Valid()
      ensures forall k: nat :: k < PTES && k in mega ==> Some(k) !in vpn
    {
      forall k: nat | k < PTES && k in mega ensures Some(k) !in vpn { assert RootOk(T(), n, base, mega, k); }
    }

    /** The pinning loop of user_layout(). */
    method LayoutPins(regions: seq<Region>)
      requires Valid() && loads == [] && pins == map[] && pin == [Range(0, 0), Range(0, 0)]
      modifies `root, `rt, `l2, `vpn, `l2pin, `pin, `m, `fixed, `pins, `tlb, `dirty
      ensures Valid() && PinsAre(pin, pins, Accepted(regions, uramLo, uramHi), vpn, l2static, mega)
      ensures fixed == old(fixed) - pins.Keys
    {
      hide Agree, Coherent, RootsOk, Homes, MegaFixed, Union, RangeMap, PinLo, PinHi, PinRanges, Ring, PinsAre, Last,
        Full, Pinnable, Mapped, Core, PageRange, Accepted;
      NoPins(vpn, l2static, mega);
      var k, i := 0, 0;
      assert regions[..0] == [];
      NoneAccepted(uramLo, uramHi);
      while i < |regions| && k < PIN_MAX
        invariant 0 <= i <= |regions| && Valid() && |pin| == PIN_MAX
        invariant k == |Accepted(regions[..i], uramLo, uramHi)| && fixed == old(fixed) - pins.Keys
        invariant PinsAre(pin, pins, Accepted(regions[..i], uramLo, uramHi), vpn, l2static, mega)
      {
        ghost var acc := Accepted(regions[..i], uramLo, uramHi);
        assert regions[..i + 1] == regions[..i] + [regions[i]];
        AcceptedMore(regions[..i], regions[i], uramLo, uramHi);
        if Pinnable(regions[i], uramLo, uramHi) {
          EmptySlot(pin, pins, acc, vpn, l2static, mega);
          ghost var pin0, pins0, vpn0 := pin, pins, vpn;
          PinMap(k, regions[i]);
          MegaNoTable();
          PinsMore(pin0, pins0, acc, vpn0, l2static, mega, regions[i], pin, pins, vpn);
          Covered(old(fixed), pins0, pin[k].lo, pin[k].hi, RightsOf(regions[i]));
          k := k + 1;
        }
        i := i + 1;
      }
      AcceptedEnough(regions, i, uramLo, uramHi);
    }

    /** user_layout() */
    method UserLayout(regions: seq<Region>)
      requires Valid()
      modifies `root, `rt, `l2, `vpn, `l2pin, `dynN, `dynNext, `pin, `m, `fixed, `pins, `loads, `tlb, `dirty
      ensures Valid() && loads == [] && dirty == {} && fixed == old(fixed) - pins.Keys
      ensures rt.added == rt.cleared == {}
      ensures PinsAre(pin, pins, Accepted(regions, uramLo, uramHi), vpn, l2static, mega)
    {
      hide Agree, Coherent, RootsOk, Homes, MegaFixed, Union, PinRanges, Ring, PinsAre, Last, Accepted;
      PinDrop();
      DynDrop();
      LayoutPins(regions);
      SfenceAll();
    }

    /** ulmk_arch_mpu_switch(); `list` is the address of the region list, None for NULL. */
    method Switch(list: Option<nat>, regions: seq<Region>, kernel: bool)
      requires Valid() && dirty == {} && rt.cleared == {} && (list.None? ==> regions == [])
      modifies `root, `rt, `l2, `vpn, `l2pin, `dynN, `dynNext, `pin, `pinned, `m, `fixed, `pins, `loads, `tlb, `dirty
      ensures Valid() && dirty == {} && rt.cleared == {}
      ensures pinned == if kernel then None else list
      ensures var kept := kernel || (list.Some? && old(pinned) == list);
              if kept then && T() == old(T()) && m == old(m) && fixed == old(fixed)
                           && pins == old(pins) && loads == old(loads)
              else && loads == [] && PinsAre(pin, pins, Accepted(regions, uramLo, uramHi), vpn, l2static, mega)
                   && fixed == old(fixed) - pins.Keys
    {
      hide Agree, Coherent, RootsOk, Homes, MegaFixed, Union, PinRanges, Ring, PinsAre, Last, Accepted;
      if kernel {
        pinned := None;
        return;
      }
      if pinned == list && list.Some? { return; }
      UserLayout(regions);
      pinned := list;
    }

    /** ulmk_arch_mpu_flush() */
    method Flush()
      requires Valid()
      modifies `root, `rt, `l2, `vpn, `l2pin, `dynN, `dynNext, `m, `loads, `tlb, `dirty
      ensures Valid() && dirty == {} && loads == [] && rt.added == rt.cleared == {}
    {
      hide Agree, Coherent, RootsOk, Homes, MegaFixed, Union, PinRanges, Ring, Last;
      DynDrop();
      SfenceAll();
    }

    /** The slot for a load, dropping the ring when the tables are out. */
    method LoadSlot(p: Page) returns (i: Option<nat>)
      requires Valid() && dirty == {} && rt.cleared == {} && Vpn1(p) !in mega
      modifies `root, `rt, `l2, `vpn, `l2pin, `dynN, `dynNext, `m, `loads, `tlb, `dirty
      ensures Valid() && dirty == {} && rt.cleared == {}
      ensures loads == if old(Vpn1(p) < PTES && Room(Vpn1(p))) then old(loads) else []
      ensures rt.added == (if old(Vpn1(p) < PTES && Room(Vpn1(p))) then old(rt).added else {})
                         + (if i.Some? && Some(Vpn1(p)) !in old(vpn) then {Vpn1(p)} else {})
      ensures i.Some? <==> old(Vpn1(p) < PTES && (Room(Vpn1(p)) || exists j :: l2static <= j < n && j !in l2pin))
      ensures i.Some? ==> i.value < n && vpn[i.value] == Some(Vpn1(p))
    {
      hide Agree, Coherent, RootsOk, Homes, MegaFixed, Union, PinRanges, Ring, Last, Vpn1, Vpn0;
      Sizes();
      PageParts(p);
      i := PteSlot(p);
      if i.None? {
        Invalid(T(), n, base, m, mega, Vpn1(p));
        i := SlotAfterDrop(p);
      }
    }

    /** The second attempt, from the pinned set. */
    method SlotAfterDrop(p: Page) returns (i: Option<nat>)
      requires Valid() && Vpn1(p) !in mega && Vpn1(p) < PTES && |vpn| == n && Some(Vpn1(p)) !in vpn
      modifies `root, `rt, `l2, `vpn, `l2pin, `dynN, `dynNext, `m, `loads, `tlb, `dirty
      ensures Valid() && dirty == {} && loads == [] && rt.cleared == {}
      ensures rt.added == if i.Some? then {Vpn1(p)} else {}
      ensures (i.Some? <==> !old(Full(vpn, l2static)) || exists j :: l2static <= j < n && j !in old(l2pin))
      ensures i.Some? ==> i.value < n && vpn[i.value] == Some(Vpn1(p))
    {
      hide Agree, Coherent, RootsOk, Homes, MegaFixed, Union, PinRanges, Ring, Last, Vpn1, Vpn0;
      DynDrop();
      SfenceAll();
      Sizes();
      assert Some(Vpn1(p)) !in vpn;
      Invalid(T(), n, base, m, mega, Vpn1(p));
      i := PteSlot(p);
    }

    /**
     ulmk_arch_mpu_load().  The page is mapped unless it is already, and static and
     pinned pages stay whatever happens; the ring loses its oldest page when it is
     full, and all of them when the page needs a table and none is free.
     */
    method Load(win: Region) returns (ok: bool)
      requires Valid() && dirty == {} && rt.cleared == {}
      modifies `root, `rt, `l2, `vpn, `l2pin, `dyn, `dynN, `dynNext, `m, `loads, `tlb, `dirty
      ensures Valid() && dirty == {} && rt.cleared == {}
      ensures !Loadable(win, mega) ==> !ok && unchanged(this)
      ensures Loadable(win, mega) ==>
                var p := PageOf(win.base); var room := old(Vpn1(p) < PTES && Room(Vpn1(p)));
                var kept := if room then old(loads) else [];
                && loads == kept + (if ok then [Entry(p, RightsOf(win))] else [])
                && (ok <==> && p !in fixed && p !in pins && (forall e :: e in Last(kept, most) ==> e.page != p)
                            && (room || exists j :: l2static <= j < n && j !in old(l2pin)))
                && (ok ==> rt.added == (if room then old(rt).added else {})
                                      + (if Some(Vpn1(p)) in old(vpn) then {} else {Vpn1(p)}))
      ensures ok ==> win.base % PAGE_SIZE == 0 && win.size == PAGE_SIZE
      ensures ok ==> Opened(T(), base, win.base / PAGE_SIZE, win.perms)
    {
      hide Agree, Coherent, RootsOk, Homes, MegaFixed, Union, PinRanges, Ring, Last, Vpn1, Vpn0, PageOf, Opened, Walk;
      var q := PermsToPte(win.perms);
      if !Granting(q) || win.size != PAGE_SIZE || win.base % PAGE_SIZE != 0 { return false; }
      var p := PageOf(win.base);
      PageParts(p);
      Sizes();
      RootLeaf(T(), n, base, m, mega, Vpn1(p));
      var e := root[Vpn1(p)];
      if e.r || e.w || e.x { return false; }
      var i := LoadSlot(p);
      if i.None? { return false; }
      SlotValid(T(), n, base, m, mega, i.value, p);
      InUnion(m, fixed, pins, Last(loads, most), p);
      if l2[i.value][Vpn0(p)].v { return false; }
      StoreLoaded(i.value, p, win.perms);
      PageIs(win.base);
      ok := true;
    }

    /** The page loaded last is what a walk finds. */
    lemma LoadedSeen(p: Page, perms: Perms)
      requires Valid() && loads != [] && loads[|loads| - 1] == Entry(p, PermsToPte(perms)) && Granting(perms)
      ensures Opened(T(), base, p, perms)
    {
      hide Coherent, RootsOk, Homes, MegaFixed, Union, PinRanges, Ring, Last, Walk, SlotOk, RootOk;
      NewestIsIn(loads, most);
      Sees(p);
    }

    /** Pages that are pinned or static with these rights are what a walk finds. */
    lemma RangeSeen(lo: nat, hi: nat, perms: Perms)
      requires Valid()
      requires || (forall p: Page :: Within(p, lo, hi) ==> p in pins && pins[p] == PermsToPte(perms))
               || (forall p: Page :: Within(p, lo, hi) ==> p in fixed && fixed[p] == PermsToPte(perms))
      ensures forall p: Page :: Within(p, lo, hi) ==> Opened(T(), base, p, perms)
    {
      hide Coherent, RootsOk, Homes, MegaFixed, Union, PinRanges, Ring, Last, Walk, SlotOk, RootOk;
      forall p: Page | Within(p, lo, hi) ensures Opened(T(), base, p, perms) { Sees(p); }
    }

    method StoreLoaded(i: nat, p: Page, perms: Perms)
      requires Valid() && dirty == {} && p !in m && i < n && |vpn| == n && vpn[i] == Some(Vpn1(p)) && Granting(perms)
      modifies `l2, `dyn, `dynN, `dynNext, `m, `loads, `tlb, `dirty
      ensures Valid() && dirty == {} && loads == old(loads) + [Entry(p, PermsToPte(perms))]
      ensures Opened(T(), base, p, perms)
    {
      hide Agree, Coherent, RootsOk, Homes, MegaFixed, Union, PinRanges, Ring, Last, Vpn1, Vpn0, Opened;
      var q := PermsToPte(perms);
      Sv32Table.Load(m, fixed, pins, Last(loads, most), Entry(p, q));
      StoreLeaf(i, p, q);
      DynPush(p, Entry(p, q));
      Sfence(p);
      LoadedSeen(p, perms);
    }

    /** A U-mode access sees the static pages, the pinned ones and the last `most` loaded, each at its own address. */
    lemma Sees(p: Page)
      requires Valid()
      ensures p in fixed ==> Walk(T(), base, p) == Lookup(fixed, p)
      ensures p in pins ==> Walk(T(), base, p) == Lookup(pins, p)
      ensures forall e :: e in Last(loads, most) && e.page == p && Granting(e.rights) ==>
                Walk(T(), base, p) == Hit(p, e.rights)
      ensures p !in fixed && p !in pins && (forall e :: e in Last(loads, most) ==> e.page != p) ==>
                Walk(T(), base, p) == Fault
      ensures Walk(T(), base, p).Hit? ==>
                Walk(T(), base, p).page == p && (Walk(T(), base, p).rights.write ==> Walk(T(), base, p).rights.read)
    {
      WalkIsUnion(T(), n, base, m, mega, fixed, pins, Last(loads, most), p);
    }

    lemma NothingSeen(p: Page)
      requires Valid() && fixed == map[] && pins == map[] && loads == []
      ensures Walk(T(), base, p) == Fault
    {
      hide Agree, Coherent, RootsOk, Homes, MegaFixed, Union, Ring, PinRanges, Walk;
      Sees(p);
    }

    /**
     Through a root entry the TLB may have kept, an access sees what the tables say, or it
     faults and a table was put under that entry since the last fence of everything.
     */
    lemma SeesThroughCache(p: Page, e: Pte)
      requires Valid() && rt.cleared == {} && (Vpn1(p), e) in rt.cache
      ensures || WalkFrom(e, T(), base, p) == Walk(T(), base, p)
              || (WalkFrom(e, T(), base, p) == Fault && Vpn1(p) in rt.added)
    {
      hide Union, Homes, MegaFixed, Ring, PinRanges, Coherent, WalkFrom, RootsOk;
      ThroughCache(rt, T(), base, p, e);
    }

    /** A root entry may be stale exactly if one was set since the last fence of everything. */
    lemma StaleRoots()
      requires Valid() && rt.cleared == {}
      ensures MayBeStale(rt, root) <==> rt.added != {}
    {
      hide RootsOk, MayBeStale;
      StaleIff(rt, root);
    }

    /** After any operation every cached translation is what the tables say, and that is the simple map. */
    lemma NothingStale(e: (Page, Outcome))
      requires Valid() && dirty == {} && e in tlb
      ensures e.1 == Lookup(m, e.0)
    {
      WalkIs(T(), n, base, m, mega, e.0);
    }
  }

  /** A ring page does not lie under a megapage. */
  lemma OldUnderTable(m: PageMap, mega: map<nat, Rights>, fixed: PageMap, pins: PageMap, recent: seq<Entry>, p: Page)
    requires Union(m, fixed, pins, recent) && MegaFixed(mega, fixed) && p in PagesOf(recent)
    ensures Vpn1(p) !in mega
  {
  }

  lemma PinsUnderTable(m: PageMap, mega: map<nat, Rights>, fixed: PageMap, pins: PageMap, recent: seq<Entry>,
                       pin: seq<Range>)
    requires Union(m, fixed, pins, recent) && MegaFixed(mega, fixed) && PinRanges(pin, pins)
    ensures pin[0].hi <= PAGES && pin[1].hi <= PAGES
    ensures forall p: Page :: Within(p, pin[0].lo, pin[0].hi) || Within(p, pin[1].lo, pin[1].hi) ==> Vpn1(p) !in mega
  {
    forall p: Page | p in pins ensures Vpn1(p) !in mega { assert UnionAt(m, fixed, pins, recent, p); }
  }

  /** With the pages of both pin slots unmapped, no page is pinned. */
  lemma Unpinned(m: PageMap, fixed: PageMap, pins: PageMap, recent: seq<Entry>, pin: seq<Range>,
                 vpn: seq<Option<nat>>, l2static: nat, mega: map<nat, Rights>)
    requires Union(m, fixed, pins, recent) && PinRanges(pin, pins)
    requires exists l2pin :: Homes(vpn, l2static, l2pin, fixed, pins, mega)
    ensures Union(m - PageRange(pin[0].lo, pin[0].hi) - PageRange(pin[1].lo, pin[1].hi), fixed, map[], recent)
    ensures Homes(vpn, l2static, {}, fixed, map[], mega) && PinRanges([Range(0, 0), Range(0, 0)], map[])
  {
    Unpin(m, fixed, pins, recent);
    assert pins.Keys == PageRange(pin[0].lo, pin[0].hi) + PageRange(pin[1].lo, pin[1].hi);
    assert m - PageRange(pin[0].lo, pin[0].hi) - PageRange(pin[1].lo, pin[1].hi) == m - pins.Keys;
  }

  /** No table can be had for p: it has none, and none is free or a static megapage is in the way. */
  ghost predicate NoTable(vpn: seq<Option<nat>>, l2static: nat, mega: map<nat, Rights>, p: nat) {
    p < PAGES && Some(Vpn1(p)) !in vpn && (Full(vpn, l2static) || Vpn1(p) in mega)
  }

  lemma NoRoom(t: Tables, n: nat, base: nat, m: PageMap, mega: map<nat, Rights>, p: Page)
    requires Agree(t, n, base, m, mega)
    ensures Vpn1(p) < PTES && (t.root[Vpn1(p)].v ==> Some(Vpn1(p)) in t.vpn || Vpn1(p) in mega)
  {
    PageParts(p);
    assert RootOk(t, n, base, mega, Vpn1(p));
  }

  lemma NotMega(t: Tables, n: nat, base: nat, m: PageMap, mega: map<nat, Rights>, i: nat, p: Page)
    requires Agree(t, n, base, m, mega) && i < n && t.vpn[i] == Some(Vpn1(p))
    ensures Vpn1(p) !in mega
  {
    PageParts(p);
    assert RootOk(t, n, base, mega, Vpn1(p));
  }

  lemma MegaFixedLess(mega: map<nat, Rights>, fixed: PageMap, p: Page)
    requires MegaFixed(mega, fixed) && Vpn1(p) !in mega
    ensures MegaFixed(mega, fixed - {p})
  {
  }

  /** What pinning a page through table i keeps. */
  lemma PinKeeps(t: Tables, n: nat, base: nat, m: PageMap, mega: map<nat, Rights>, fixed: PageMap, pins: PageMap,
                 l2static: nat, l2pin: set<nat>, i: nat, p: Page, q: Rights)
    requires Agree(t, n, base, m, mega) && Union(m, fixed, pins, []) && MegaFixed(mega, fixed)
    requires Homes(t.vpn, l2static, l2pin, fixed, pins, mega) && i < n && t.vpn[i] == Some(Vpn1(p))
    ensures Union(m[p := q], fixed - {p}, pins[p := q], []) && MegaFixed(mega, fixed - {p})
    ensures Homes(t.vpn, l2static, if i >= l2static then l2pin + {i} else l2pin, fixed - {p}, pins[p := q], mega)
  {
    hide Agree, Union, Homes, MegaFixed, Vpn1;
    OnlyTable(t, n, base, m, mega, i);
    NotMega(t, n, base, m, mega, i, p);
    Pin(m, fixed, pins, p, q);
    HomesPin(t.vpn, l2static, l2pin, if i >= l2static then l2pin + {i} else l2pin, fixed, pins, mega, i, p, q);
    MegaFixedLess(mega, fixed, p);
  }

  lemma NoLoads(most: nat)
    ensures Last([], most) == []
  {
  }

  lemma NoPages(fixed: PageMap, lo: nat)
    ensures fixed - PageRange(lo, lo) == fixed
  {
  }

  lemma Covered(fixed: PageMap, pins: PageMap, lo: nat, hi: nat, q: Rights)
    ensures fixed - pins.Keys - PageRange(lo, hi) == fixed - (pins + RangeMap(lo, hi, q)).Keys
  {
    assert forall p: Page :: p in RangeMap(lo, hi, q) <==> Within(p, lo, hi);
  }

  lemma OnlyTable(t: Tables, n: nat, base: nat, m: PageMap, mega: map<nat, Rights>, i: nat)
    requires Agree(t, n, base, m, mega) && i < n && t.vpn[i].Some?
    ensures |t.vpn| == n && forall j :: 0 <= j < n && t.vpn[j] == t.vpn[i] ==> j == i
  {
    forall j | 0 <= j < n && t.vpn[j] == t.vpn[i] ensures j == i { OneTable(t, n, base, m, mega, j, i); }
  }

  lemma PinSlot(pin: seq<Range>, pins: PageMap, k: nat, lo: nat, hi: nat, q: Rights)
    requires PinRanges(pin, pins) && k < PIN_MAX && pin[k] == Range(0, 0) && hi <= PAGES
    ensures PinRanges(pin[k := Range(lo, hi)], pins + RangeMap(lo, hi, q))
  {
    var pin', pins' := pin[k := Range(lo, hi)], pins + RangeMap(lo, hi, q);
    forall p: Page ensures p in pins' <==> Within(p, pin'[0].lo, pin'[0].hi) || Within(p, pin'[1].lo, pin'[1].hi) {
      assert p in RangeMap(lo, hi, q) <==> Within(p, lo, hi);
    }
  }

  /** A region user_layout() maps: not empty and not inside the static user RAM (covered_by_uram()). */
  predicate Pinnable(r: Region, uramLo: Addr, uramHi: Addr) {
    r.size != 0 && !(r.base >= uramLo && (r.base + r.size) % ADDR_LIMIT <= uramHi)
  }

  /** The regions that get a pin slot: the first two pinnable ones. */
  function Accepted(rs: seq<Region>, uramLo: Addr, uramHi: Addr): seq<Region> {
    if rs == [] then []
    else
      var acc := Accepted(rs[..|rs| - 1], uramLo, uramHi);
      if |acc| < PIN_MAX && Pinnable(rs[|rs| - 1], uramLo, uramHi) then acc + [rs[|rs| - 1]] else acc
  }

  lemma NoneAccepted(uramLo: Addr, uramHi: Addr)
    ensures Accepted([], uramLo, uramHi) == []
  {
  }

  lemma AcceptedMore(rs: seq<Region>, r: Region, uramLo: Addr, uramHi: Addr)
    ensures Accepted(rs + [r], uramLo, uramHi) ==
            var acc := Accepted(rs, uramLo, uramHi);
            if |acc| < PIN_MAX && Pinnable(r, uramLo, uramHi) then acc + [r] else acc
  {
    assert (rs + [r])[..|rs|] == rs;
  }

  lemma {:induction false} AcceptedEnough(rs: seq<Region>, i: nat, uramLo: Addr, uramHi: Addr)
    requires i <= |rs| && (i == |rs| || |Accepted(rs[..i], uramLo, uramHi)| >= PIN_MAX)
    ensures Accepted(rs[..i], uramLo, uramHi) == Accepted(rs, uramLo, uramHi)
    decreases |rs| - i
  {
    if i == |rs| {
      assert rs[..i] == rs;
    } else {
      assert rs[..i + 1] == rs[..i] + [rs[i]];
      AcceptedMore(rs[..i], rs[i], uramLo, uramHi);
      AcceptedEnough(rs, i + 1, uramLo, uramHi);
    }
  }

  function RightsOf(r: Region): Rights { PermsToPte(r.perms) }

  /** Slot j serves region r from its first page on, and to its last unless a page can have no table. */
  ghost predicate Serves(s: Range, r: Region, vpn: seq<Option<nat>>, l2static: nat, mega: map<nat, Rights>) {
    && s.lo == PinLo(r) <= s.hi && (s.hi <= PinHi(r) || s.hi == PinLo(r))
    && (s.hi < PinHi(r) ==> NoTable(vpn, l2static, mega, s.hi))
  }

  /** The pin slots and the pinned pages are those of the accepted regions. */
  ghost predicate PinsAre(pin: seq<Range>, pins: PageMap, acc: seq<Region>, vpn: seq<Option<nat>>, l2static: nat,
                          mega: map<nat, Rights>) {
    && |pin| == PIN_MAX && |acc| <= PIN_MAX
    && (forall j :: 0 <= j < |acc| ==> Serves(pin[j], acc[j], vpn, l2static, mega))
    && (forall j :: |acc| <= j < PIN_MAX ==> pin[j] == Range(0, 0))
    && pins == (if |acc| > 0 then RangeMap(pin[0].lo, pin[0].hi, RightsOf(acc[0])) else map[])
               + (if |acc| > 1 then RangeMap(pin[1].lo, pin[1].hi, RightsOf(acc[1])) else map[])
  }

  lemma NoPins(vpn: seq<Option<nat>>, l2static: nat, mega: map<nat, Rights>)
    ensures PinsAre([Range(0, 0), Range(0, 0)], map[], [], vpn, l2static, mega)
  {
  }

  lemma EmptySlot(pin: seq<Range>, pins: PageMap, acc: seq<Region>, vpn: seq<Option<nat>>, l2static: nat,
                  mega: map<nat, Rights>)
    requires PinsAre(pin, pins, acc, vpn, l2static, mega) && |acc| < PIN_MAX
    ensures pin[|acc|] == Range(0, 0)
  {
  }

  lemma PinsMore(pin: seq<Range>, pins: PageMap, acc: seq<Region>, vpn: seq<Option<nat>>, l2static: nat,
                 mega: map<nat, Rights>, r: Region,
                 pin': seq<Range>, pins': PageMap, vpn': seq<Option<nat>>)
    requires PinsAre(pin, pins, acc, vpn, l2static, mega) && |acc| < PIN_MAX && |pin'| == PIN_MAX
    requires pin' == pin[|acc| := pin'[|acc|]] && Serves(pin'[|acc|], r, vpn', l2static, mega)
    requires pins' == pins + RangeMap(pin'[|acc|].lo, pin'[|acc|].hi, RightsOf(r))
    requires (Full(vpn, l2static) ==> vpn' == vpn) && (forall k: nat :: k < PTES && k in mega ==> Some(k) !in vpn')
    ensures PinsAre(pin', pins', acc + [r], vpn', l2static, mega)
  {
    hide RangeMap, PinLo, PinHi, Full;
    forall j | 0 <= j < |acc| ensures Serves(pin'[j], (acc + [r])[j], vpn', l2static, mega) {
      assert Serves(pin[j], acc[j], vpn, l2static, mega);
    }
  }

  /** A window ulmk_arch_mpu_load() does not refuse outright. */
  ghost predicate Loadable(win: Region, mega: map<nat, Rights>) {
    Granting(win.perms) && win.size == PAGE_SIZE && win.base % PAGE_SIZE == 0 && Vpn1(PageOf(win.base)) !in mega
  }

  /** What a user access to page p finds is what perms ask for; a writable page is readable too. */
  ghost predicate Opened(t: Tables, base: nat, p: Page, perms: Perms) {
    && |t.root| == PTES && (forall i :: 0 <= i < |t.l2| ==> |t.l2[i]| == PTES)
    && Walk(t, base, p) == if perms.read || perms.write || perms.exec
                           then Hit(p, Perms(perms.read || perms.write, perms.write, perms.exec)) else Fault
  }

  lemma PageIs(a: Addr)
    ensures PageOf(a) == a / PAGE_SIZE
  {
  }

  lemma PinLoIs(r: Region)
    ensures PinLo(r) == r.base / PAGE_SIZE
  {
  }

  lemma InRange(f: PageMap, lo: nat, hi: nat, q: Rights)
    ensures forall p: Page :: Within(p, lo, hi) ==> p in f + RangeMap(lo, hi, q) && (f + RangeMap(lo, hi, q))[p] == q
  {
  }

  /** All of page p is in [lo, hi). */
  predicate Inside(p: Page, lo: Addr, hi: Addr) { lo <= p * PAGE_SIZE && (p + 1) * PAGE_SIZE <= hi }

  /** The static pages of [lo, hi) are those inside it; unless the rounding of lo wraps there are no others. */
  lemma WholePages(lo: Addr, hi: Addr, p: Page)
    ensures Inside(p, lo, hi) ==> Within(p, PageOf((lo + PAGE_SIZE - 1) % ADDR_LIMIT), PageOf(hi))
    ensures lo + PAGE_SIZE <= ADDR_LIMIT && Within(p, PageOf((lo + PAGE_SIZE - 1) % ADDR_LIMIT), PageOf(hi)) ==>
              Inside(p, lo, hi)
  {
  }

  predicate InRegion(r: Region, a: nat) { r.base <= a < r.base + r.size }

  /** The pages of a pinned region are those that share a byte with it, unless its rounded end wraps. */
  lemma TouchedPages(r: Region, p: Page)
    requires r.size > 0 && r.base + r.size + PAGE_SIZE <= ADDR_LIMIT
    ensures Within(p, PinLo(r), PinHi(r)) <==> exists a: nat :: InRegion(r, a) && a / PAGE_SIZE == p
  {
    var first := if r.base < p * PAGE_SIZE then p * PAGE_SIZE else r.base;
    if Within(p, PinLo(r), PinHi(r)) { assert InRegion(r, first) && first / PAGE_SIZE == p; }
  }

  /** A region is pinned unless it is empty or every byte of it is static user RAM; its end must not wrap. */
  lemma PinnableIff(r: Region, uramLo: Addr, uramHi: Addr)
    requires r.base + r.size < ADDR_LIMIT
    ensures Pinnable(r, uramLo, uramHi) <==> exists a: nat :: InRegion(r, a) && !(uramLo <= a < uramHi)
  {
    if Pinnable(r, uramLo, uramHi) {
      assert InRegion(r, r.base) && InRegion(r, r.base + r.size - 1);
    }
  }

  /** The accepted regions are the first two pinnable ones, in order. */
  lemma {:induction false} FirstTwo(rs: seq<Region>, uramLo: Addr, uramHi: Addr) returns (at: seq<nat>)
    ensures |at| == |Accepted(rs, uramLo, uramHi)| <= 2
    ensures forall k :: 0 <= k < |at| ==> at[k] < |rs| && Accepted(rs, uramLo, uramHi)[k] == rs[at[k]]
    ensures |at| == 2 ==> at[0] < at[1]
    ensures forall i :: 0 <= i < |rs| ==>
              (i in at <==> Pinnable(rs[i], uramLo, uramHi) && !(|at| == 2 && at[1] < i))
    decreases |rs|
  {
    hide Pinnable;
    if rs == [] { return []; }
    var n := |rs| - 1;
    var front := FirstTwo(rs[..n], uramLo, uramHi);
    if |front| < 2 && Pinnable(rs[n], uramLo, uramHi) { at := front + [n]; } else { at := front; }
    forall i | 0 <= i < |rs| ensures i in at <==> Pinnable(rs[i], uramLo, uramHi) && !(|at| == 2 && at[1] < i) {
      if i < n { assert rs[..n][i] == rs[i]; }
    }
  }

  lemma TableNotMega(t: Tables, n: nat, base: nat, m: PageMap, mega: map<nat, Rights>, i: nat, k: nat)
    requires Agree(t, n, base, m, mega) && i < n && t.vpn[i] == Some(k) && k < PTES
    ensures k !in mega
  {
    assert RootOk(t, n, base, mega, k);
  }

  lemma OneMore(vpn: seq<Option<nat>>, i: nat, k: nat)
    requires i < |vpn| && vpn[i].None?
    ensures forall j :: Some(j) in vpn[i := Some(k)] <==> Some(j) in vpn || j == k
  {
    var vpn' := vpn[i := Some(k)];
    forall j ensures Some(j) in vpn' <==> Some(j) in vpn || j == k {
      if Some(j) in vpn {
        var x :| 0 <= x < |vpn| && vpn[x] == Some(j);
        assert vpn'[x] == Some(j);
      }
      assert vpn'[i] == Some(k);
    }
  }

  /** A root entry is empty, or leads to a table, or is a megapage. */
  lemma RootKinds(t: Tables, n: nat, base: nat, m: PageMap, mega: map<nat, Rights>, k: nat)
    requires Agree(t, n, base, m, mega) && k < PTES
    ensures t.root[k].v <==> Some(k) in t.vpn || k in mega
  {
    assert RootOk(t, n, base, mega, k);
    if Some(k) in t.vpn {
      var i :| 0 <= i < |t.vpn| && t.vpn[i] == Some(k);
    }
  }

  lemma TrackUsed(first: nat, a: nat, end: nat, vpn0: seq<Option<nat>>, used0: nat, mega0: map<nat, Rights>,
                  vpn: seq<Option<nat>>, used: nat, mega: map<nat, Rights>)
    requires Track(first, a, end, vpn0, used0, mega0, vpn, used, mega)
    ensures used0 <= used
  {
  }

  lemma TableRoot(t: Tables, n: nat, base: nat, m: PageMap, mega: map<nat, Rights>, i: nat)
    requires Agree(t, n, base, m, mega) && i < n && t.vpn[i].Some?
    ensures t.vpn[i].value < |t.root|
  {
  }

  lemma EmptyRoot(t: Tables, n: nat, base: nat, m: PageMap, mega: map<nat, Rights>, k: nat)
    requires Agree(t, n, base, m, mega) && k < PTES && !t.root[k].v
    ensures t.root[k] == ZERO
  {
    assert RootOk(t, n, base, mega, k);
  }

  lemma RootLeaf(t: Tables, n: nat, base: nat, m: PageMap, mega: map<nat, Rights>, k: nat)
    requires Agree(t, n, base, m, mega) && k < PTES
    ensures t.root[k].r || t.root[k].w || t.root[k].x <==> k in mega
  {
    assert RootOk(t, n, base, mega, k);
  }

  lemma TableOrMega(t: Tables, n: nat, base: nat, m: PageMap, mega: map<nat, Rights>, k: nat)
    requires Agree(t, n, base, m, mega) && k < PTES && t.root[k].v && Some(k) !in t.vpn
    ensures k in mega
  {
    assert RootOk(t, n, base, mega, k);
  }

  lemma Invalid(t: Tables, n: nat, base: nat, m: PageMap, mega: map<nat, Rights>, k: nat)
    requires Agree(t, n, base, m, mega) && k < PTES && k !in mega && Some(k) !in t.vpn
    ensures !t.root[k].v
  {
    assert RootOk(t, n, base, mega, k);
  }

  lemma SlotValid(t: Tables, n: nat, base: nat, m: PageMap, mega: map<nat, Rights>, i: nat, p: Page)
    requires Agree(t, n, base, m, mega) && i < n && t.vpn[i] == Some(Vpn1(p))
    ensures Vpn0(p) < PTES && |t.vpn| == n == |t.l2| && |t.l2[i]| == PTES && (t.l2[i][Vpn0(p)].v <==> p in m)
  {
    PageParts(p);
    assert SlotOk(t, n, m, mega, p);
  }

  lemma InUnion(m: PageMap, fixed: PageMap, pins: PageMap, recent: seq<Entry>, p: Page)
    requires Union(m, fixed, pins, recent)
    ensures p in m <==> p in fixed || p in pins || exists e :: e in recent && e.page == p
  {
    assert UnionAt(m, fixed, pins, recent, p);
  }

  lemma EmptyTables(t: Tables, n: nat, base: nat)
    requires t == Tables(Zeros(), seq(n, _ => Zeros()), seq(n, _ => None))
    ensures Agree(t, n, base, map[], map[])
  {
    forall k: nat | k < PTES ensures RootOk(t, n, base, map[], k) {}
    forall p: Page ensures SlotOk(t, n, map[], map[], p) {}
  }

  lemma AnyCached(t: Tables, base: nat, tlb: iset<(Page, Outcome)>)
    requires |t.root| == PTES && forall i :: 0 <= i < |t.l2| ==> |t.l2[i]| == PTES
    ensures Coherent(t, base, tlb, AllPages())
  {
    forall e | e in tlb ensures e.0 in AllPages() { assert Within(e.0, 0, PAGES); }
  }

  /**
   If the TLB kept the invalid root entry, the access faults again; the second load of the
   same window is refused, as it is for a real violation.
   */
  method FaultsAgain(h: Hart, win: Region) returns (first: bool, second: bool)
    requires h.Valid() && h.dirty == {} && h.rt.cleared == {}
    modifies h
    ensures h.Valid() && !(first && second)
  {
    hide Agree, Coherent, RootsOk, Homes, MegaFixed, Union, PinRanges, Ring, Vpn1, Vpn0, PageOf, Full, Last;
    first := h.Load(win);
    if first {
      NewestIsIn(h.loads, h.most);
      LoadedHasRoom(h, PageOf(win.base));
    }
    second := h.Load(win);
  }

  lemma LoadedHasRoom(h: Hart, p: Page)
    requires h.Valid() && Vpn1(p) !in h.mega && exists e :: e in Last(h.loads, h.most) && e.page == p
    ensures Vpn1(p) < PTES && |h.root| == PTES && h.l2static <= |h.vpn| && h.Room(Vpn1(p))
  {
    hide Coherent, RootsOk, MegaFixed, PinRanges, Ring, Last, Vpn1, Vpn0, SlotOk, RootOk;
    h.Sizes();
    PageParts(p);
    InUnion(h.m, h.fixed, h.pins, Last(h.loads, h.most), p);
    if Some(Vpn1(p)) !in h.vpn { HasTable(h.T(), h.n, h.base, h.m, h.mega, p); }
  }

  lemma NewestIsIn(s: seq<Entry>, most: nat)
    requires s != [] && most > 0
    ensures s[|s| - 1] in Last(s, most)
  {
    var l := Last(s, most);
    assert l[|l| - 1] == s[|s| - 1];
  }

  lemma OnePageFits(vpn: seq<Option<nat>>, mega: map<nat, Rights>)
    requires MegaFixed(mega, map[])
    ensures !Stuck(1, 2, vpn, mega, 2)
  {
    hide MegaFixed;
    var news := News(1, 2, 2, vpn, mega);
    forall k | k in news ensures k == 0 {}
    Subsets(news, {0});
    NoMega(mega);
  }

  lemma NoMega(mega: map<nat, Rights>)
    requires MegaFixed(mega, map[])
    ensures forall p: Page :: Vpn1(p) !in mega
  {
    hide Vpn1;
  }

  /** The only static page is under a table, so a pin of it does not stop before it. */
  lemma OnePagePinned(h: Hart, hi: nat)
    requires h.Valid() && h.fixed.Keys == {1} - PageRange(1, hi) && 1 <= hi <= 2
    requires hi < 2 ==> NoTable(h.vpn, h.l2static, h.mega, hi)
    ensures hi == 2
  {
    hide Agree, Coherent, RootsOk, Union, Ring, Last, PinRanges, Full;
    if hi == 1 { InStatic(h.vpn, h.l2static, h.l2pin, h.fixed, h.pins, h.mega); }
  }

  lemma InStatic(vpn: seq<Option<nat>>, l2static: nat, l2pin: set<nat>, fixed: PageMap, pins: PageMap,
                 mega: map<nat, Rights>)
    requires Homes(vpn, l2static, l2pin, fixed, pins, mega) && MegaFixed(mega, fixed) && fixed.Keys == {1}
    ensures Some(Vpn1(1)) in vpn
  {
    var zero: Page := 0;
    assert zero !in fixed && Vpn1(zero) == Vpn1(1);
  }

  /** A hart whose static map is page 1. */
  method OneStatic() returns (h: Hart)
    ensures fresh(h) && h.Valid() && h.fixed.Keys == {1} && h.loads == [] && h.pin == [Range(0, 0), Range(0, 0)]
  {
    hide Agree, Coherent, RootsOk, Homes, MegaFixed, Union, Ring, Full, PinRanges, Stuck, Walk;
    h := new Hart(2, 1, 0, 0, 0, iset{}, iset{});
    OnePageFits(h.vpn, h.mega);
    var ok := h.StaticMap(0x1000, 0x2000, Perms(true, true, false));
    OneInside(Perms(true, true, false));
  }

  lemma OneInside(q: Rights)
    ensures (map[] + StaticPages(0x1000, 0x2000, q)).Keys == {1}
  {
    var one: Page := 1;
    assert Within(one, 1, 2);
  }

  /**
   A page of the static map is pinned for reading only, as user_layout() pins a region that
   is not inside the user RAM, and unpinned again: an access to it faults from then on.
   */
  method PinOverStatic() returns (h: Hart)
    ensures h.Valid() && h.fixed == map[] && Walk(h.T(), h.base, 1) == Fault
  {
    hide Agree, Coherent, RootsOk, Homes, MegaFixed, Union, Ring, Full, PinRanges, NoTable, Walk, Last, RangeMap;
    h := OneStatic();
    h.PinMap(0, Region(0x1000, 0x1000, Perms(true, false, false)));
    OnePagePinned(h, h.pin[0].hi);
    assert 1 in PageRange(1, 2);
    h.PinDrop();
    h.NothingSeen(1);
  }
}
