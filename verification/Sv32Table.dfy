/**
 The page tables of one hart and the walk the hardware does over them
 (arch/riscv/mmu_sv32.c).  A page-aligned address is its page number; the
 level-2 tables of a hart are consecutive page frames, the first being `base`.
 */
module Sv32Table {
  import opened Sequences

  const PTES := 1024
  const PAGES := 0x10_0000

  type Page = p: nat | p < PAGES

  datatype Perms = Perms(read: bool, write: bool, exec: bool)

  datatype Pte = Pte(ppn: nat, v: bool, r: bool, w: bool, x: bool, u: bool, a: bool, d: bool)

  /** What an entry grants: a writable page is readable. */
  type Rights = q: Perms | q.write ==> q.read witness Perms(false, false, false)

  const ZERO := Pte(0, false, false, false, false, false, false, false)

  function Vpn1(p: Page): nat { p / PTES }

  function Vpn0(p: Page): nat { p % PTES }

  lemma PageParts(p: Page)
    ensures Vpn1(p) < PTES && Vpn0(p) < PTES && p == Vpn1(p) * PTES + Vpn0(p)
  {
  }

  /** perms_to_pte() */
  function PermsToPte(q: Perms): Rights {
    Perms(q.read || q.write, q.write, q.exec)
  }

  predicate Granting(q: Perms) { q.read || q.write || q.exec }

  /** pte_leaf() */
  function PteLeaf(ppn: nat, q: Rights): Pte {
    Pte(ppn, true, q.read, q.write, q.exec, true, true, true)
  }

  /** pte_table() */
  function PteTable(ppn: nat): Pte {
    Pte(ppn, true, false, false, false, false, false, false)
  }

  datatype Tables = Tables(root: seq<Pte>, l2: seq<seq<Pte>>, vpn: seq<Option<nat>>)

  // ---------------------------------------------------------------- the walk

  datatype Outcome = Fault | Wild | Hit(page: nat, rights: Perms)

  /** Steps 5 to 8 of the translation process for a U-mode access that found a leaf. */
  function Finish(e: Pte, page: nat): Outcome {
    if !e.u || !e.a then Fault else Hit(page, Perms(e.r, e.w && e.d, e.x))
  }

  predicate Reserved(e: Pte) { !e.v || (!e.r && e.w) }

  predicate IsLeaf(e: Pte) { e.r || e.x }

  /**
   The two-level translation of section 4.3.2 of the RISC-V Privileged
   Architecture, version 20211203.  A pointer that is not to one of the hart's
   level-2 tables would make the walker read unrelated memory: Wild.
   */
  function Walk(t: Tables, base: nat, p: Page): Outcome
    requires |t.root| == PTES && forall i :: 0 <= i < |t.l2| ==> |t.l2[i]| == PTES
  {
    WalkFrom(t.root[Vpn1(p)], t, base, p)
  }

  /** The translation once the root entry e was read, from memory or from a cache. */
  function WalkFrom(e: Pte, t: Tables, base: nat, p: Page): Outcome
    requires forall i :: 0 <= i < |t.l2| ==> |t.l2[i]| == PTES
  {
    if Reserved(e) then Fault
    else if IsLeaf(e) then (if e.ppn % PTES != 0 then Fault else Finish(e, e.ppn + Vpn0(p)))
    else if !(base <= e.ppn < base + |t.l2|) then Wild
    else
      var f := t.l2[e.ppn - base][Vpn0(p)];
      if Reserved(f) then Fault else if IsLeaf(f) then Finish(f, f.ppn) else Fault
  }

  // ---------------------------------------------------------- the simple map

  type PageMap = map<Page, Rights>

  /** What a U-mode access to p finds in the simple map: the page itself or a fault. */
  function Lookup(m: PageMap, p: Page): Outcome {
    if p in m && Granting(m[p]) then Hit(p, m[p]) else Fault
  }

  function Slot(m: PageMap, p: Page): Pte {
    if p in m then PteLeaf(p, m[p]) else ZERO
  }

  ghost predicate Shape(t: Tables, n: nat) {
    && |t.root| == PTES && |t.l2| == n && |t.vpn| == n
    && (forall i :: 0 <= i < n ==> |t.l2[i]| == PTES)
    && (forall i :: 0 <= i < n && t.vpn[i].Some? ==> t.vpn[i].value < PTES)
  }

  /** Root entry k: a megapage, a pointer to the one table that claims it, or nothing. */
  ghost predicate RootOk(t: Tables, n: nat, base: nat, mega: map<nat, Rights>, k: nat)
    requires Shape(t, n) && k < PTES
  {
    && (forall i :: 0 <= i < n && t.vpn[i] == Some(k) ==> t.root[k] == PteTable(base + i))
    && (k in mega ==> t.root[k] == PteLeaf(k * PTES, mega[k]) && Granting(mega[k]) && Some(k) !in t.vpn)
    && (k !in mega && Some(k) !in t.vpn ==> t.root[k] == ZERO)
  }

  ghost predicate SlotOk(t: Tables, n: nat, m: PageMap, mega: map<nat, Rights>, p: Page)
    requires Shape(t, n)
  {
    && (Vpn1(p) in mega ==> p in m && m[p] == mega[Vpn1(p)])
    && (p in m && Vpn1(p) !in mega ==> Some(Vpn1(p)) in t.vpn)
    && (forall i :: 0 <= i < n && t.vpn[i] == Some(Vpn1(p)) ==> t.l2[i][Vpn0(p)] == Slot(m, p))
  }

  /** The tables hold exactly the simple map m. */
  ghost predicate Agree(t: Tables, n: nat, base: nat, m: PageMap, mega: map<nat, Rights>) {
    && Shape(t, n)
    && (forall k: nat :: k < PTES ==> RootOk(t, n, base, mega, k))
    && (forall p: Page :: SlotOk(t, n, m, mega, p))
  }

  /** Walking the tables gives what the simple map says, for every page. */
  lemma WalkIs(t: Tables, n: nat, base: nat, m: PageMap, mega: map<nat, Rights>, p: Page)
    requires Agree(t, n, base, m, mega)
    ensures Walk(t, base, p) == Lookup(m, p)
  {
    PageParts(p);
    assert RootOk(t, n, base, mega, Vpn1(p)) && SlotOk(t, n, m, mega, p);
    if Vpn1(p) in mega {
      assert (Vpn1(p) * PTES) % PTES == 0;
    } else if Some(Vpn1(p)) in t.vpn {
      var i :| 0 <= i < n && t.vpn[i] == Some(Vpn1(p));
      assert t.l2[i][Vpn0(p)] == Slot(m, p);
    }
  }

  /** No two tables serve the same root entry. */
  lemma OneTable(t: Tables, n: nat, base: nat, m: PageMap, mega: map<nat, Rights>, i: nat, j: nat)
    requires Agree(t, n, base, m, mega) && i < n && j < n && t.vpn[i].Some? && t.vpn[i] == t.vpn[j]
    ensures i == j
  {
    assert RootOk(t, n, base, mega, t.vpn[i].value);
    assert PteTable(base + i) == PteTable(base + j);
  }

  // ----------------------------------------------------------------- updates

  function WithSlot(t: Tables, i: nat, j: nat, e: Pte): Tables
    requires i < |t.l2| && j < |t.l2[i]|
  {
    t.(l2 := t.l2[i := t.l2[i][j := e]])
  }

  lemma SetSlot(t: Tables, n: nat, base: nat, m: PageMap, m': PageMap, mega: map<nat, Rights>, i: nat, p: Page)
    requires Agree(t, n, base, m, mega) && i < n && t.vpn[i] == Some(Vpn1(p))
    requires forall q: Page :: q != p ==> (q in m <==> q in m') && (q in m ==> m'[q] == m[q])
    ensures Vpn0(p) < PTES && Agree(WithSlot(t, i, Vpn0(p), Slot(m', p)), n, base, m', mega)
  {
    PageParts(p);
    var t' := WithSlot(t, i, Vpn0(p), Slot(m', p));
    assert RootOk(t, n, base, mega, Vpn1(p));
    forall k: nat | k < PTES ensures RootOk(t', n, base, mega, k) { assert RootOk(t, n, base, mega, k); }
    forall q: Page ensures SlotOk(t', n, m', mega, q) { SetSlotAt(t, n, base, m, m', mega, i, p, q); }
  }

  lemma SetSlotAt(t: Tables, n: nat, base: nat, m: PageMap, m': PageMap, mega: map<nat, Rights>, i: nat, p: Page,
                  q: Page)
    requires Agree(t, n, base, m, mega) && i < n && t.vpn[i] == Some(Vpn1(p)) && Vpn0(p) < PTES
    requires q != p ==> (q in m <==> q in m') && (q in m ==> m'[q] == m[q])
    ensures Shape(WithSlot(t, i, Vpn0(p), Slot(m', p)), n)
    ensures SlotOk(WithSlot(t, i, Vpn0(p), Slot(m', p)), n, m', mega, q)
  {
    PageParts(p);
    PageParts(q);
    assert RootOk(t, n, base, mega, Vpn1(p));
    assert SlotOk(t, n, m, mega, q);
    hide Vpn1, Vpn0, Agree, RootOk;
    forall k | 0 <= k < n && t.vpn[k] == Some(Vpn1(q))
      ensures WithSlot(t, i, Vpn0(p), Slot(m', p)).l2[k][Vpn0(q)] == Slot(m', q)
    {
      if q == p {
        OneTable(t, n, base, m, mega, i, k);
      }
    }
  }

  function Zeros(): seq<Pte> { seq(PTES, _ => ZERO) }

  /** l2_alloc() links an empty table under a root entry that held nothing. */
  function WithTable(t: Tables, base: nat, i: nat, k: nat): Tables
    requires k < |t.root| && i < |t.l2| && i < |t.vpn|
  {
    Tables(t.root[k := PteTable(base + i)], t.l2[i := Zeros()], t.vpn[i := Some(k)])
  }

  lemma EmptyEntry(t: Tables, n: nat, base: nat, m: PageMap, mega: map<nat, Rights>, k: nat)
    requires Agree(t, n, base, m, mega) && k < PTES && !t.root[k].v
    ensures k !in mega && Some(k) !in t.vpn && forall p: Page :: p in m ==> Vpn1(p) != k
  {
    assert RootOk(t, n, base, mega, k);
    forall i | 0 <= i < n ensures t.vpn[i] != Some(k) {}
    forall p: Page | p in m ensures Vpn1(p) != k { assert SlotOk(t, n, m, mega, p); }
  }

  lemma Alloc(t: Tables, n: nat, base: nat, m: PageMap, mega: map<nat, Rights>, i: nat, k: nat)
    requires Agree(t, n, base, m, mega) && k < PTES && !t.root[k].v && i < n && t.vpn[i].None?
    ensures Agree(WithTable(t, base, i, k), n, base, m, mega)
  {
    EmptyEntry(t, n, base, m, mega, k);
    var t' := WithTable(t, base, i, k);
    assert t'.vpn[i] == Some(k);
    forall j: nat | j < PTES ensures RootOk(t', n, base, mega, j) {
      assert RootOk(t, n, base, mega, j);
      if j != k && Some(j) in t.vpn {
        var w :| 0 <= w < n && t.vpn[w] == Some(j);
        assert t'.vpn[w] == Some(j);
      }
    }
    forall p: Page ensures SlotOk(t', n, m, mega, p) {
      assert SlotOk(t, n, m, mega, p);
      PageParts(p);
      if p in m && Vpn1(p) !in mega {
        var w :| 0 <= w < n && t.vpn[w] == Some(Vpn1(p));
        assert t'.vpn[w] == t.vpn[w];
      }
    }
  }

  /** l2_release() */
  function WithoutTable(t: Tables, i: nat): Tables
    requires i < |t.vpn| && t.vpn[i].Some? && t.vpn[i].value < |t.root|
  {
    t.(root := t.root[t.vpn[i].value := ZERO], vpn := t.vpn[i := None])
  }

  lemma ReleaseTable(t: Tables, n: nat, base: nat, m: PageMap, mega: map<nat, Rights>, i: nat)
    requires Agree(t, n, base, m, mega) && i < n && t.vpn[i].Some?
    requires forall p: Page :: p in m ==> Vpn1(p) != t.vpn[i].value
    ensures Agree(WithoutTable(t, i), n, base, m, mega)
  {
    var k := t.vpn[i].value;
    var t' := WithoutTable(t, i);
    assert RootOk(t, n, base, mega, k);
    forall j | 0 <= j < n && j != i ensures t.vpn[j] != Some(k) {
      if t.vpn[j] == Some(k) { OneTable(t, n, base, m, mega, i, j); }
    }
    forall j: nat | j < PTES ensures RootOk(t', n, base, mega, j) {
      assert RootOk(t, n, base, mega, j);
      if j != k && Some(j) in t.vpn {
        var w :| 0 <= w < n && t.vpn[w] == Some(j);
        assert t'.vpn[w] == Some(j);
      }
    }
    forall p: Page ensures SlotOk(t', n, m, mega, p) {
      assert SlotOk(t, n, m, mega, p);
      if p in m && Vpn1(p) !in mega {
        var w :| 0 <= w < n && t.vpn[w] == Some(Vpn1(p));
        assert t'.vpn[w] == t.vpn[w];
      }
    }
  }

  predicate Within(p: Page, lo: nat, hi: nat) { lo <= p < hi }

  /** The pages from lo up to hi, all with the same rights. */
  function RangeMap(lo: nat, hi: nat, q: Rights): PageMap {
    map p: Page | lo <= p < hi && Within(p, lo, hi) :: q
  }

  lemma MegaVpn(k: nat, p: Page)
    requires k < PTES
    ensures k * PTES <= p < (k + 1) * PTES <==> Vpn1(p) == k
  {
    PageParts(p);
  }

  function WithMega(t: Tables, k: nat, q: Rights): Tables
    requires k < |t.root|
  {
    t.(root := t.root[k := PteLeaf(k * PTES, q)])
  }

  lemma MapMega(t: Tables, n: nat, base: nat, m: PageMap, mega: map<nat, Rights>, k: nat, q: Rights)
    requires Agree(t, n, base, m, mega) && k < PTES && !t.root[k].v && Granting(q)
    ensures Agree(WithMega(t, k, q), n, base, m + RangeMap(k * PTES, (k + 1) * PTES, q), mega[k := q])
  {
    EmptyEntry(t, n, base, m, mega, k);
    var t', m', mega' := WithMega(t, k, q), m + RangeMap(k * PTES, (k + 1) * PTES, q), mega[k := q];
    forall j: nat | j < PTES ensures RootOk(t', n, base, mega', j) { assert RootOk(t, n, base, mega, j); }
    forall p: Page ensures SlotOk(t', n, m', mega', p) {
      assert SlotOk(t, n, m, mega, p);
      MegaVpn(k, p);
    }
  }

  // --------------------------------------------------------------- the TLB

  /** Every result a walk of the tables can give now: what the hart may cache at this moment. */
  ghost function Walks(t: Tables, base: nat): iset<(Page, Outcome)>
    requires |t.root| == PTES && forall i :: 0 <= i < |t.l2| ==> |t.l2[i]| == PTES
  {
    iset e: (Page, Outcome) | e.1 == Walk(t, base, e.0)
  }

  /** Outside `dirty`, the TLB holds nothing but what a walk would give now. */
  ghost predicate Coherent(t: Tables, base: nat, tlb: iset<(Page, Outcome)>, dirty: set<Page>)
    requires |t.root| == PTES && forall i :: 0 <= i < |t.l2| ==> |t.l2[i]| == PTES
  {
    forall e :: e in tlb && e.0 !in dirty ==> e.1 == Walk(t, base, e.0)
  }

  /**
   A TLB that keeps root entries on their own: what it may hold, the entries that were set
   and those that were cleared since the last fence of everything.  A fence of one address
   does not reach them.
   */
  datatype RootTlb = RootTlb(cache: iset<(nat, Pte)>, added: set<nat>, cleared: set<nat>)

  ghost function Roots(root: seq<Pte>): iset<(nat, Pte)> {
    iset k: nat | k < |root| :: (k, root[k])
  }

  /**
   A stale root entry was set since and reads as invalid, or was cleared since; and every
   entry set since may still be held as it was.
   */
  ghost predicate RootsOk(rt: RootTlb, root: seq<Pte>) {
    && (forall k, e :: (k, e) in rt.cache ==>
          k < |root| && (e == root[k] || (k in rt.added && e == ZERO) || k in rt.cleared))
    && (forall k: nat :: k < |root| ==> (k, root[k]) in rt.cache)
    && (forall k :: k in rt.added ==> k < |root| && (k, ZERO) in rt.cache && (k in rt.cleared || root[k] != ZERO))
  }

  /** Some root entry may be held that is not the one in memory. */
  ghost predicate MayBeStale(rt: RootTlb, root: seq<Pte>) {
    exists k: nat, e :: k < |root| && (k, e) in rt.cache && e != root[k]
  }

  /** That is so exactly if an entry was set since the last fence of everything. */
  lemma StaleIff(rt: RootTlb, root: seq<Pte>)
    requires RootsOk(rt, root) && rt.cleared == {}
    ensures MayBeStale(rt, root) <==> rt.added != {}
  {
    if k :| k in rt.added { assert (k, ZERO) in rt.cache && ZERO != root[k]; }
  }

  ghost function RootSet(rt: RootTlb, root: seq<Pte>, k: nat): RootTlb {
    RootTlb(rt.cache + Roots(root), rt.added + {k}, rt.cleared)
  }

  ghost function RootCleared(rt: RootTlb, root: seq<Pte>, k: nat): RootTlb {
    RootTlb(rt.cache + Roots(root), rt.added, rt.cleared + {k})
  }

  lemma RootWritten(rt: RootTlb, root: seq<Pte>, k: nat, e: Pte)
    requires RootsOk(rt, root) && k < |root|
    ensures root[k] == ZERO && e != ZERO ==> RootsOk(RootSet(rt, root[k := e], k), root[k := e])
    ensures RootsOk(RootCleared(rt, root[k := e], k), root[k := e])
  {
  }

  lemma RootsFenced(root: seq<Pte>)
    ensures RootsOk(RootTlb(Roots(root), {}, {}), root)
  {
  }

  /** Through a stale entry that was set since, a walk faults; it never grants what the tables do not. */
  lemma ThroughCache(rt: RootTlb, t: Tables, base: nat, p: Page, e: Pte)
    requires |t.root| == PTES && forall i :: 0 <= i < |t.l2| ==> |t.l2[i]| == PTES
    requires RootsOk(rt, t.root) && rt.cleared == {} && (Vpn1(p), e) in rt.cache
    ensures || WalkFrom(e, t, base, p) == Walk(t, base, p)
            || (WalkFrom(e, t, base, p) == Fault && Vpn1(p) in rt.added)
  {
  }

  /** A table update makes stale only what it changes in the simple map. */
  lemma StaleOnly(t: Tables, t': Tables, n: nat, base: nat, m: PageMap, m': PageMap, mega: map<nat, Rights>,
                  mega': map<nat, Rights>, tlb: iset<(Page, Outcome)>, dirty: set<Page>, dirty': set<Page>)
    requires Agree(t, n, base, m, mega) && Agree(t', n, base, m', mega') && Coherent(t, base, tlb, dirty)
    requires dirty <= dirty' && forall p: Page :: p !in dirty' ==> Lookup(m, p) == Lookup(m', p)
    ensures Coherent(t', base, tlb + Walks(t', base), dirty')
  {
    assert Shape(t', n);
    hide Agree, Walk, Lookup;
    forall e | e in tlb && e.0 !in dirty' ensures e.1 == Walk(t', base, e.0) {
      WalkIs(t, n, base, m, mega, e.0);
      WalkIs(t', n, base, m', mega', e.0);
    }
  }

  // ------------------------------------------------- the three kinds of page

  datatype Entry = Entry(page: Page, rights: Rights)

  /** The last `most` elements. */
  function Last(s: seq<Entry>, most: nat): seq<Entry> {
    if |s| <= most then s else s[|s| - most..]
  }

  ghost predicate UnionAt(m: PageMap, fixed: PageMap, pins: PageMap, recent: seq<Entry>, p: Page) {
    && (p in fixed ==> p in m && m[p] == fixed[p] && p !in pins)
    && (p in pins ==> p in m && m[p] == pins[p])
    && (p in m ==> p in fixed || p in pins || exists e :: e in recent && e.page == p)
  }

  /** m is static, pinned and recently loaded pages together, and these do not overlap. */
  ghost predicate Union(m: PageMap, fixed: PageMap, pins: PageMap, recent: seq<Entry>) {
    && (forall p: Page :: UnionAt(m, fixed, pins, recent, p))
    && (forall e :: e in recent ==> e.page in m && m[e.page] == e.rights && e.page !in fixed && e.page !in pins)
    && (forall i, j :: 0 <= i < j < |recent| ==> recent[i].page != recent[j].page)
  }

  /** Tables below `l2static` carry the static map; a dynamic table with a pinned page is marked. */
  ghost predicate Homes(vpn: seq<Option<nat>>, l2static: nat, l2pin: set<nat>, fixed: PageMap, pins: PageMap,
                        mega: map<nat, Rights>) {
    && l2static <= |vpn| && (forall i :: 0 <= i < l2static ==> vpn[i].Some?)
    && (forall p: Page :: p in fixed ==> Vpn1(p) in mega || Some(Vpn1(p)) in vpn[..l2static])
    && (forall p: Page, i :: p in pins && l2static <= i < |vpn| && vpn[i] == Some(Vpn1(p)) ==> i in l2pin)
  }

  /** No dynamic table is free. */
  ghost predicate Full(vpn: seq<Option<nat>>, l2static: nat) {
    forall i :: l2static <= i < |vpn| ==> vpn[i].Some?
  }

  /** Megapages are part of the static map. */
  ghost predicate MegaFixed(mega: map<nat, Rights>, fixed: PageMap) {
    forall p: Page :: Vpn1(p) in mega ==> p in fixed
  }

  lemma MegaFixedMore(mega: map<nat, Rights>, fixed: PageMap, fixed': PageMap, a: Page, q: Rights)
    requires MegaFixed(mega, fixed) && fixed.Keys <= fixed'.Keys && a % PTES == 0
    requires forall p: Page :: Within(p, a, a + PTES) ==> p in fixed'
    ensures MegaFixed(mega[Vpn1(a) := q], fixed') && MegaFixed(mega, fixed')
    ensures forall p: Page :: Within(p, a, a + PTES) ==> Vpn1(p) == Vpn1(a)
  {
    PageParts(a);
    forall p: Page ensures Within(p, a, a + PTES) <==> Vpn1(p) == Vpn1(a) { MegaVpn(Vpn1(a), p); }
  }

  lemma MegaFixedKept(mega: map<nat, Rights>, fixed: PageMap, fixed': PageMap)
    requires MegaFixed(mega, fixed) && fixed.Keys <= fixed'.Keys
    ensures MegaFixed(mega, fixed')
  {
  }

  /** The ring, oldest entry first. */
  ghost predicate Ring(dyn: seq<Page>, dynN: nat, dynNext: nat, most: nat, recent: seq<Entry>) {
    && |dyn| == most && dynN <= most && dynNext < most && (dynN < most ==> dynNext == 0) && |recent| == dynN
    && (forall k :: 0 <= k < dynN - dynNext ==> recent[k].page == dyn[dynNext + k])
    && (forall k :: dynN - dynNext <= k < dynN ==> recent[k].page == dyn[k - (dynN - dynNext)])
  }

  datatype Range = Range(lo: nat, hi: nat)

  ghost predicate PinRanges(pin: seq<Range>, pins: PageMap) {
    && |pin| == 2 && pin[0].hi <= PAGES && pin[1].hi <= PAGES
    && forall p: Page :: p in pins <==> Within(p, pin[0].lo, pin[0].hi) || Within(p, pin[1].lo, pin[1].hi)
  }

  /** The walk sees the static pages, the pinned pages and the last loaded ones, and nothing else. */
  lemma WalkIsUnion(t: Tables, n: nat, base: nat, m: PageMap, mega: map<nat, Rights>,
                    fixed: PageMap, pins: PageMap, recent: seq<Entry>, p: Page)
    requires Agree(t, n, base, m, mega) && Union(m, fixed, pins, recent)
    ensures p in fixed ==> Walk(t, base, p) == Lookup(fixed, p)
    ensures p in pins ==> Walk(t, base, p) == Lookup(pins, p)
    ensures forall e :: e in recent && e.page == p ==>
              Walk(t, base, p) == (if Granting(e.rights) then Hit(p, e.rights) else Fault)
    ensures p !in fixed && p !in pins && (forall e :: e in recent ==> e.page != p) ==> Walk(t, base, p) == Fault
    ensures Walk(t, base, p).Hit? ==>
              Walk(t, base, p).page == p && (Walk(t, base, p).rights.write ==> Walk(t, base, p).rights.read)
  {
    WalkIs(t, n, base, m, mega, p);
    hide Agree, Walk;
    assert UnionAt(m, fixed, pins, recent, p);
  }

  lemma Load(m: PageMap, fixed: PageMap, pins: PageMap, recent: seq<Entry>, e: Entry)
    requires Union(m, fixed, pins, recent) && e.page !in m
    ensures Union(m[e.page := e.rights], fixed, pins, recent + [e])
  {
    var m', s := m[e.page := e.rights], recent + [e];
    forall p: Page ensures UnionAt(m', fixed, pins, s, p) {
      assert UnionAt(m, fixed, pins, recent, p);
      assert e in s;
      if p in m && p !in fixed && p !in pins {
        var x :| x in recent && x.page == p;
        assert x in s;
      }
    }
    forall x | x in s ensures x.page in m' && m'[x.page] == x.rights && x.page !in fixed && x.page !in pins {
      assert UnionAt(m, fixed, pins, recent, x.page);
    }
    forall i, j | 0 <= i < j < |s| ensures s[i].page != s[j].page { assert s[i] in recent; }
  }

  lemma Evict(m: PageMap, fixed: PageMap, pins: PageMap, recent: seq<Entry>)
    requires Union(m, fixed, pins, recent) && recent != []
    ensures Union(m - {recent[0].page}, fixed, pins, recent[1..])
  {
    var m', s := m - {recent[0].page}, recent[1..];
    assert recent[0] in recent;
    forall p: Page ensures UnionAt(m', fixed, pins, s, p) {
      assert UnionAt(m, fixed, pins, recent, p);
      if p in m' && p !in fixed && p !in pins {
        var x :| x in recent && x.page == p;
        assert x in s;
      }
    }
  }

  /** The pages of a run of entries. */
  function PagesOf(s: seq<Entry>): set<Page> {
    set e | e in s :: e.page
  }

  lemma DropAll(m: PageMap, fixed: PageMap, pins: PageMap, recent: seq<Entry>)
    requires Union(m, fixed, pins, recent)
    ensures Union(m - PagesOf(recent), fixed, pins, [])
  {
    forall p: Page ensures UnionAt(m - PagesOf(recent), fixed, pins, [], p) {
      assert UnionAt(m, fixed, pins, recent, p);
    }
  }

  lemma Unpin(m: PageMap, fixed: PageMap, pins: PageMap, recent: seq<Entry>)
    requires Union(m, fixed, pins, recent)
    ensures Union(m - pins.Keys, fixed, map[], recent)
  {
    forall p: Page ensures UnionAt(m - pins.Keys, fixed, map[], recent, p) {
      assert UnionAt(m, fixed, pins, recent, p);
    }
  }

  lemma Pin(m: PageMap, fixed: PageMap, pins: PageMap, p: Page, q: Rights)
    requires Union(m, fixed, pins, [])
    ensures Union(m[p := q], fixed - {p}, pins[p := q], [])
  {
    var m', pins' := m[p := q], pins[p := q];
    forall x: Page ensures UnionAt(m', fixed - {p}, pins', [], x) { assert UnionAt(m, fixed, pins, [], x); }
  }

  lemma RingPush(dyn: seq<Page>, dynN: nat, dynNext: nat, most: nat, recent: seq<Entry>, e: Entry)
    requires Ring(dyn, dynN, dynNext, most, recent) && dynN < most
    ensures Ring(dyn[dynN := e.page], dynN + 1, dynNext, most, recent + [e])
  {
  }

  function NextSlot(i: nat, most: nat): nat
    requires most > 0
  {
    (i + 1) % most
  }

  lemma NextSlotIs(i: nat, most: nat)
    requires i < most
    ensures NextSlot(i, most) == if i + 1 < most then i + 1 else 0
  {
  }

  lemma RingTurn(dyn: seq<Page>, dynNext: nat, most: nat, recent: seq<Entry>, e: Entry)
    requires Ring(dyn, most, dynNext, most, recent)
    ensures recent[0].page == dyn[dynNext]
    ensures Ring(dyn[dynNext := e.page], most, NextSlot(dynNext, most), most, recent[1..] + [e])
  {
    NextSlotIs(dynNext, most);
    hide NextSlot;
  }

  /** The ring's slots are the recent pages, in some order. */
  lemma RingPages(dyn: seq<Page>, dynN: nat, dynNext: nat, most: nat, recent: seq<Entry>)
    requires Ring(dyn, dynN, dynNext, most, recent)
    ensures forall p: Page :: p in dyn[..dynN] <==> p in PagesOf(recent)
  {
    forall k | 0 <= k < dynN ensures dyn[k] in PagesOf(recent) {
      var j := if k < dynNext then k + (dynN - dynNext) else k - dynNext;
      assert recent[j].page == dyn[k];
    }
    forall e | e in recent ensures e.page in dyn[..dynN] {
      var j :| 0 <= j < dynN && recent[j] == e;
      var k := if j < dynN - dynNext then dynNext + j else j - (dynN - dynNext);
      assert dyn[..dynN][k] == e.page;
    }
  }

  /** Once the ring is empty, an unmarked dynamic table holds no page. */
  lemma Unused(t: Tables, n: nat, base: nat, m: PageMap, mega: map<nat, Rights>, fixed: PageMap, pins: PageMap,
               l2static: nat, l2pin: set<nat>, i: nat)
    requires Agree(t, n, base, m, mega) && Union(m, fixed, pins, []) && Homes(t.vpn, l2static, l2pin, fixed, pins, mega)
    requires l2static <= i < n && t.vpn[i].Some? && i !in l2pin
    ensures forall p: Page :: p in m ==> Vpn1(p) != t.vpn[i].value
  {
    forall p: Page | p in m ensures Vpn1(p) != t.vpn[i].value {
      assert UnionAt(m, fixed, pins, [], p);
      if p in fixed { FixedHome(t, n, base, m, mega, fixed, pins, l2static, l2pin, i, p); }
    }
  }

  lemma FixedHome(t: Tables, n: nat, base: nat, m: PageMap, mega: map<nat, Rights>, fixed: PageMap, pins: PageMap,
                  l2static: nat, l2pin: set<nat>, i: nat, p: Page)
    requires Agree(t, n, base, m, mega) && Homes(t.vpn, l2static, l2pin, fixed, pins, mega)
    requires l2static <= i < n && p in fixed
    ensures t.vpn[i] != Some(Vpn1(p))
  {
    if Vpn1(p) in mega {
      assert RootOk(t, n, base, mega, Vpn1(p));
    } else {
      var j :| 0 <= j < l2static && t.vpn[j] == Some(Vpn1(p));
      if t.vpn[i] == t.vpn[j] { OneTable(t, n, base, m, mega, i, j); }
    }
  }

  lemma HomesRelease(vpn: seq<Option<nat>>, l2static: nat, l2pin: set<nat>, fixed: PageMap, pins: PageMap,
                     mega: map<nat, Rights>, i: nat)
    requires Homes(vpn, l2static, l2pin, fixed, pins, mega) && l2static <= i < |vpn| && i !in l2pin
    ensures Homes(vpn[i := None], l2static, l2pin, fixed, pins, mega)
  {
    assert vpn[i := None][..l2static] == vpn[..l2static];
  }

  lemma HomesAlloc(t: Tables, n: nat, base: nat, m: PageMap, mega: map<nat, Rights>, fixed: PageMap, pins: PageMap,
                   recent: seq<Entry>, l2static: nat, l2pin: set<nat>, i: nat, k: nat)
    requires Agree(t, n, base, m, mega) && Union(m, fixed, pins, recent)
    requires Homes(t.vpn, l2static, l2pin, fixed, pins, mega)
    requires l2static <= i < n && t.vpn[i].None? && k < PTES && !t.root[k].v
    ensures Homes(t.vpn[i := Some(k)], l2static, l2pin, fixed, pins, mega)
  {
    EmptyEntry(t, n, base, m, mega, k);
    assert t.vpn[i := Some(k)][..l2static] == t.vpn[..l2static];
    forall p: Page | p in pins ensures Vpn1(p) != k { assert UnionAt(m, fixed, pins, recent, p); }
  }

  lemma HomesPin(vpn: seq<Option<nat>>, l2static: nat, l2pin: set<nat>, l2pin': set<nat>, fixed: PageMap, pins: PageMap,
                 mega: map<nat, Rights>, i: nat, p: Page, q: Rights)
    requires Homes(vpn, l2static, l2pin, fixed, pins, mega) && i < |vpn| && vpn[i] == Some(Vpn1(p))
    requires forall j :: 0 <= j < |vpn| && vpn[j] == vpn[i] ==> j == i
    requires l2pin' == (if i >= l2static then l2pin + {i} else l2pin)
    ensures Homes(vpn, l2static, l2pin', fixed - {p}, pins[p := q], mega)
  {
  }

  /** A page that is mapped outside the megapages has a table. */
  lemma HasTable(t: Tables, n: nat, base: nat, m: PageMap, mega: map<nat, Rights>, p: Page)
    requires Agree(t, n, base, m, mega) && Vpn1(p) !in mega && Some(Vpn1(p)) !in t.vpn
    ensures p !in m
  {
    assert SlotOk(t, n, m, mega, p);
  }

  lemma LastMore(s: seq<Entry>, most: nat, e: Entry)
    requires most > 0
    ensures Last(s + [e], most) == if |s| < most then s + [e] else Last(s, most)[1..] + [e]
  {
  }

  /** While the static map is being built, new static pages have a megapage or a static table. */
  lemma HomesGrow(vpn: seq<Option<nat>>, vpn': seq<Option<nat>>, l2static: nat, l2static': nat, l2pin: set<nat>,
                  fixed: PageMap, fixed': PageMap, mega: map<nat, Rights>, mega': map<nat, Rights>)
    requires Homes(vpn, l2static, l2pin, fixed, map[], mega)
    requires l2static <= l2static' <= |vpn'| && vpn'[..l2static] == vpn[..l2static]
    requires forall i :: l2static <= i < l2static' ==> vpn'[i].Some?
    requires mega.Keys <= mega'.Keys
    requires forall p: Page :: p in fixed' && p !in fixed ==> Vpn1(p) in mega' || Some(Vpn1(p)) in vpn'[..l2static']
    ensures Homes(vpn', l2static', l2pin, fixed', map[], mega')
  {
    forall i | 0 <= i < l2static' ensures vpn'[i].Some? {
      if i < l2static { assert vpn'[i] == vpn'[..l2static][i] == vpn[i]; }
    }
    assert vpn'[..l2static'] == vpn[..l2static] + vpn'[l2static..l2static'];
  }

  lemma JustFixed(fixed: PageMap)
    ensures Union(fixed, fixed, map[], [])
  {
    forall p: Page ensures UnionAt(fixed, fixed, map[], [], p) {}
  }

  lemma RangeMore(f: PageMap, lo: nat, a: nat, b: nat, q: Rights)
    requires lo <= a <= b
    ensures f + RangeMap(lo, a, q) + RangeMap(a, b, q) == f + RangeMap(lo, b, q)
  {
  }

  lemma RangeOne(f: PageMap, lo: nat, a: Page, q: Rights)
    requires lo <= a
    ensures (f + RangeMap(lo, a, q))[a := q] == f + RangeMap(lo, a + 1, q)
  {
  }

  lemma RangeNone(f: PageMap, lo: nat, hi: nat, q: Rights)
    requires hi <= lo
    ensures f + RangeMap(lo, hi, q) == f
  {
  }

  /** Nothing but the static map, and no table beyond its own. */
  ghost predicate OnlyStatic(m: PageMap, fixed: PageMap, pins: PageMap, loads: seq<Entry>, l2static: nat,
                             vpn: seq<Option<nat>>) {
    m == fixed && pins == map[] && loads == [] && forall i :: l2static <= i < |vpn| ==> vpn[i].None?
  }

  function PageRange(lo: nat, hi: nat): set<Page> {
    set p: Page | lo <= p < hi && Within(p, lo, hi)
  }

  function PageSet(s: seq<Page>): set<Page> {
    set p | p in s
  }

  lemma PageSetMore(s: seq<Page>, i: nat)
    requires i < |s|
    ensures PageSet(s[..i + 1]) == PageSet(s[..i]) + {s[i]}
  {
    assert s[..i + 1] == s[..i] + [s[i]];
  }

  lemma PageRangeMore(lo: nat, a: Page)
    requires lo <= a
    ensures PageRange(lo, a + 1) == PageRange(lo, a) + {a}
  {
  }

  lemma RingSizes(dyn: seq<Page>, dynN: nat, dynNext: nat, most: nat, loads: seq<Entry>, e: Entry)
    requires Ring(dyn, dynN, dynNext, most, Last(loads, most)) && most > 0
    ensures |dyn| == most && dynN <= most && dynNext < most && |Last(loads, most)| == dynN
    ensures dynN < most ==> Last(loads + [e], most) == Last(loads, most) + [e]
    ensures dynN == most ==> Last(loads + [e], most) == (Last(loads, most) + [e])[1..] == Last(loads, most)[1..] + [e]
  {
    LastMore(loads, most, e);
  }
}
