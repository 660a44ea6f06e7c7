/**
 Protection windows: the window of an address inside an area (kernel/mem/area.c,
 ulmk_area_window), its NAPOT entry, and the slots a thread's windows are faulted into
 (kernel/mem/mem.c, arch/riscv/mpu_pmp.c).
 */
module Windows {
  import opened Powers
  import opened Sequences

  const ADDR_LIMIT := 0x1_0000_0000

  /** The naturally aligned block [base, base + 2^exp). */
  datatype Window = Window(base: nat, exp: nat)

  predicate Holds(w: Window, a: nat) {
    w.base <= a < w.base + Pow2(w.exp)
  }

  /** The block of size 2^k around addr lies inside the area. */
  predicate Fits(lo: nat, size: nat, addr: nat, k: nat) {
    lo <= Down(addr, k) && Down(addr, k) + Pow2(k) <= lo + size
  }

  lemma FitsLess(lo: nat, size: nat, addr: nat, j: nat, k: nat)
    requires j <= k && Fits(lo, size, addr, k)
    ensures Fits(lo, size, addr, j)
  {
    DownInside(addr, j, k);
  }

  /** ulmk_area_window() with power-of-two windows; `min` is the exponent of the smallest. */
  method AreaWindow(lo: nat, size: nat, addr: nat, min: nat) returns (r: Option<Window>)
    requires size < ADDR_LIMIT && min <= 31
    ensures r.None? <==> !(lo <= addr < lo + size && Fits(lo, size, addr, min))
    ensures r.Some? ==> r.value.exp >= min && IsWindow(lo, size, addr, r.value)
  {
    hide Down, Pow2;
    if addr < lo || addr - lo >= size { return None; }
    var k := min;
    var b := Down(addr, k);
    if size < Pow2(k) || b < lo || b - lo > size - Pow2(k) { return None; }
    while k < 31
      invariant min <= k <= 31 && b == Down(addr, k) && Fits(lo, size, addr, k)
    {
      var nb := Down(addr, k + 1);
      if size < Pow2(k + 1) || nb < lo || nb - lo > size - Pow2(k + 1) {
        NoLarger(lo, size, addr, k);
        return Some(Window(b, k));
      }
      k := k + 1;
      b := nb;
    }
    TooLarge(size);
    NoLarger(lo, size, addr, k);
    r := Some(Window(b, k));
  }

  lemma NoLarger(lo: nat, size: nat, addr: nat, k: nat)
    requires !Fits(lo, size, addr, k + 1)
    ensures forall j :: j > k ==> !Fits(lo, size, addr, j)
  {
    forall j | j > k ensures !Fits(lo, size, addr, j) {
      if Fits(lo, size, addr, j) { FitsLess(lo, size, addr, k + 1, j); }
    }
  }

  lemma TooLarge(size: nat)
    requires size < ADDR_LIMIT
    ensures size < Pow2(32)
  {
    assert Pow2(10) == 1024;
    assert Pow2(20) == 1024 * 1024;
    assert Pow2(30) == 1024 * 1024 * 1024;
  }

  /** w is the window of addr in the area: what a successful AreaWindow returns. */
  ghost predicate IsWindow(lo: nat, size: nat, addr: nat, w: Window) {
    && lo <= addr < lo + size && w.base == Down(addr, w.exp) && Fits(lo, size, addr, w.exp)
    && forall k :: k > w.exp ==> !Fits(lo, size, addr, k)
  }

  /** Any naturally aligned power-of-two block that holds addr and stays inside the area lies inside the window. */
  lemma Largest(lo: nat, size: nat, addr: nat, w: Window, m: nat, k: nat)
    requires IsWindow(lo, size, addr, w)
    requires Multiple(m, k) && m <= addr < m + Pow2(k) && lo <= m && m + Pow2(k) <= lo + size
    ensures k <= w.exp && w.base <= m && m + Pow2(k) <= w.base + Pow2(w.exp)
  {
    DownUnique(addr, m, k);
    assert Fits(lo, size, addr, k);
    DownInside(addr, k, w.exp);
  }

  /** The windows of two addresses of one area are the same or do not meet. */
  lemma SameOrApart(lo: nat, size: nat, a: nat, v: Window, b: nat, w: Window)
    requires IsWindow(lo, size, a, v) && IsWindow(lo, size, b, w)
    ensures v == w || forall x :: !(Holds(v, x) && Holds(w, x))
  {
    if exists x :: Holds(v, x) && Holds(w, x) {
      var x :| Holds(v, x) && Holds(w, x);
      Meet(lo, size, a, v, b, w, x);
      Meet(lo, size, b, w, a, v, x);
    }
  }

  lemma Meet(lo: nat, size: nat, a: nat, v: Window, b: nat, w: Window, x: nat)
    requires IsWindow(lo, size, a, v) && IsWindow(lo, size, b, w) && Holds(v, x) && Holds(w, x)
    ensures v.exp >= w.exp && (v.exp == w.exp ==> v == w)
  {
    hide Down, Pow2, Multiple;
    Aligned(a, v);
    Aligned(b, w);
    DownUnique(x, v.base, v.exp);
    DownUnique(x, w.base, w.exp);
    if v.exp < w.exp { WouldFit(lo, size, a, v, b, w, x); }
  }

  lemma WouldFit(lo: nat, size: nat, a: nat, v: Window, b: nat, w: Window, x: nat)
    requires v.base == Down(a, v.exp) == Down(x, v.exp) && w.base == Down(b, w.exp) == Down(x, w.exp) && v.exp < w.exp
    requires Fits(lo, size, b, w.exp)
    ensures Fits(lo, size, a, w.exp)
  {
    DownInside(x, v.exp, w.exp);
    DownIs(a, v.exp);
    DownIs(b, w.exp);
    DownUnique(a, w.base, w.exp);
  }

  lemma Aligned(a: nat, v: Window)
    requires v.base == Down(a, v.exp)
    ensures Multiple(v.base, v.exp)
  {
    DownIs(a, v.exp);
  }

  // ------------------------------------------------- windows of any length

  /** lo rounded up to a multiple of 2^k in 32-bit arithmetic. */
  function RoundedUp(lo: nat, k: nat): nat {
    Down((lo + Pow2(k) - 1) % ADDR_LIMIT, k)
  }

  /** The granule of an address lies inside the area exactly between the two rounded ends. */
  lemma GranuleInside(lo: nat, size: nat, x: nat, k: nat)
    requires lo + size < ADDR_LIMIT && lo <= x < lo + size && k <= 31
    ensures Fits(lo, size, x, k) <==> RoundedUp(lo, k) <= x < Down(lo + size, k)
    ensures Fits(lo, size, x, k) ==> lo <= RoundedUp(lo, k)
  {
    hide Down, Pow2, Multiple, RoundedUp;
    EndOfGranule(x, lo + size, k);
    RoundedUpIs(lo, k);
    StartOfGranule(lo, x, k);
    if lo + Pow2(k) - 1 >= ADDR_LIMIT { NothingAbove(lo, lo + size, k); }
  }

  lemma EndOfGranule(x: nat, end: nat, k: nat)
    ensures Down(x, k) + Pow2(k) <= end <==> x < Down(end, k)
  {
    hide Down, Pow2, Multiple;
    DownIs(x, k);
    DownIs(end, k);
    DownOrder(Down(end, k), x, k);
    PowerMultiple(k, k);
    MultipleSum(Down(x, k), Pow2(k), k);
    DownOrder(Down(x, k) + Pow2(k), end, k);
  }

  lemma StartOfGranule(lo: nat, x: nat, k: nat)
    ensures lo <= Down(x, k) <==> Down(lo + Pow2(k) - 1, k) <= x
    ensures lo <= Down(lo + Pow2(k) - 1, k)
  {
    hide Down, Pow2, Multiple;
    var up := lo + Pow2(k) - 1;
    DownIs(x, k);
    DownIs(up, k);
    DownOrder(Down(x, k), up, k);
    DownOrder(Down(up, k), x, k);
  }

  lemma RoundedUpIs(lo: nat, k: nat)
    requires lo < ADDR_LIMIT && k <= 31
    ensures lo + Pow2(k) - 1 < ADDR_LIMIT ==> RoundedUp(lo, k) == Down(lo + Pow2(k) - 1, k)
  {
    hide Down, Pow2;
  }

  /** Where rounding up wraps, no granule ends below the top. */
  lemma NothingAbove(lo: nat, end: nat, k: nat)
    requires lo <= end < ADDR_LIMIT <= lo + Pow2(k) - 1 && k <= 31
    ensures Down(end, k) <= lo
  {
    hide Down, Pow2, Multiple;
    TopIsAligned(k);
    DownIs(end, k);
    DownOrder(ADDR_LIMIT, end, k);
  }

  lemma TopIsAligned(k: nat)
    requires k <= 31
    ensures Multiple(ADDR_LIMIT, k) && Pow2(k) <= 0x8000_0000 && Pow2(32) == ADDR_LIMIT
  {
    assert Pow2(10) == 1024;
    assert Pow2(20) == 1024 * 1024;
    assert Pow2(30) == 1024 * 1024 * 1024;
    Pow2Monotone(k, 31);
    PowerMultiple(32, k);
  }

  /**
   ulmk_area_window() of the back ends whose windows may have any length in granules of
   2^min; `max` is the most one fault may load, if there is a limit.
   */
  method AreaStretch(lo: nat, size: nat, addr: nat, min: nat, max: Option<nat>) returns (r: Option<(nat, nat)>)
    requires lo + size < ADDR_LIMIT && min <= 31
    requires max.Some? ==> max.value > 0 && Multiple(max.value, min)
    ensures r.None? <==> !(lo <= addr < lo + size && Fits(lo, size, addr, min))
    ensures r.Some? ==> && lo <= r.value.0 <= addr < r.value.1 <= lo + size
                        && Multiple(r.value.0, min) && Multiple(r.value.1, min)
    ensures r.Some? ==> forall x :: lo <= x < lo + size && Fits(lo, size, x, min) ==>
              && (r.value.0 <= x || (max.Some? && r.value.0 == Down(addr, min)))
              && (x < r.value.1 || (max.Some? && r.value.1 == Down(addr, min) + max.value))
    ensures r.Some? && max.Some? ==> r.value.1 - r.value.0 <= max.value
  {
    hide Down, Pow2, Multiple, Fits, RoundedUp;
    if addr < lo || addr - lo >= size { return None; }
    GranuleInside(lo, size, addr, min);
    var b, e := RoundedUp(lo, min), Down(lo + size, min);
    if addr < b || addr >= e { return None; }
    StretchEnds(lo, size, addr, min);
    forall x | lo <= x < lo + size && Fits(lo, size, x, min) ensures b <= x < e { GranuleInside(lo, size, x, min); }
    if max.Some? && e - b > max.value {
      b := Down(addr, min);
      if e - b > max.value {
        MultipleSum(b, max.value, min);
        LongEnough(addr, max.value, min);
        e := b + max.value;
      }
    }
    r := Some((b, e));
  }

  lemma StretchEnds(lo: nat, size: nat, addr: nat, k: nat)
    requires lo + size < ADDR_LIMIT && k <= 31 && RoundedUp(lo, k) <= addr < Down(lo + size, k)
    ensures Multiple(RoundedUp(lo, k), k) && Multiple(Down(lo + size, k), k) && Multiple(Down(addr, k), k)
    ensures Down(lo + size, k) <= lo + size && RoundedUp(lo, k) <= Down(addr, k) <= addr
  {
    hide Down, Pow2, Multiple;
    DownIs((lo + Pow2(k) - 1) % ADDR_LIMIT, k);
    DownIs(lo + size, k);
    DownIs(addr, k);
    DownOrder(RoundedUp(lo, k), addr, k);
  }

  lemma LongEnough(addr: nat, max: nat, k: nat)
    requires max > 0 && Multiple(max, k)
    ensures addr < Down(addr, k) + max
  {
    hide Down, Pow2, Multiple;
    DownIs(addr, k);
    MultipleSum(Down(addr, k), max, k);
    DownOrder(Down(addr, k) + max, addr, k);
  }

  // ------------------------------------------------------------------- NAPOT

  /** Number of low bits that are one. */
  function TrailingOnes(n: nat): nat {
    if n % 2 == 1 then 1 + TrailingOnes(n / 2) else 0
  }

  /**
   Whether an entry in NAPOT mode matches address a (section 3.7.1 of the RISC-V
   Privileged Architecture, version 20211203): the trailing ones and the zero above
   them are don't-care bits of a / 4.
   */
  predicate Matches(entry: nat, a: nat) {
    Down(a / 4, TrailingOnes(entry) + 1) == Down(entry, TrailingOnes(entry) + 1)
  }

  /** napot_encode(); the two parts of the entry have no bit in common, so their union is their sum. */
  method NapotEncode(base: nat, size: nat) returns (r: Option<nat>)
    ensures r.Some? <==> size >= 8 && IsPow2(size) && Multiple(base, Log2(size))
    ensures r.Some? ==> forall a: nat :: Matches(r.value, a) <==> base <= a < base + size
    ensures r.Some? ==> TrailingOnes(r.value) + 3 == Log2(size) && Down(r.value, Log2(size) - 2) * 4 == base
    ensures r.Some? ==>
              EntryOk(r.value, Window(base, Log2(size))) && Log2(size) >= 3 && r.value == Entry(base, Log2(size))
  {
    hide Matches, TrailingOnes, Down, Multiple, Pow2, IsPow2, Log2;
    if size < 8 || !IsPow2(size) { return None; }
    ghost var k := Log2(size);
    EightIsLow(size);
    if Down(base, Log2(size)) != base {
      NotMultiple(base, k);
      return None;
    }
    DownIs(base, k);
    EntryExact(base, k);
    assert EntryOk(base / 4 + (size / 8 - 1), Window(base, k));
    r := Some(base / 4 + (size / 8 - 1));
    forall a: nat ensures Matches(r.value, a) <==> base <= a < base + size { EntryMatches(base, k, a); }
  }

  lemma NotMultiple(base: nat, k: nat)
    requires Down(base, k) != base
    ensures !Multiple(base, k)
  {
    if Multiple(base, k) { DownUnique(base, base, k); }
  }

  lemma EightIsLow(size: nat)
    requires size >= 8 && IsPow2(size)
    ensures Log2(size) >= 3 && size / 8 == Pow2(Log2(size) - 3)
  {
    assert IsPow2(size / 2) && IsPow2(size / 4) && IsPow2(size / 8);
    assert Log2(size) == 3 + Log2(size / 8);
  }

  /** The entry of the block [base, base + 2^k). */
  function Entry(base: nat, k: nat): nat
    requires k >= 3
  {
    base / 4 + (Pow2(k - 3) - 1)
  }

  lemma {:induction false} OnesOnTop(m: nat, j: nat)
    requires Multiple(m, j + 1)
    ensures TrailingOnes(m + Pow2(j) - 1) == j && Down(m + Pow2(j) - 1, j + 1) == m
    decreases j
  {
    if j == 0 {
    } else {
      OnesOnTop(m / 2, j - 1);
      assert (m + Pow2(j) - 1) % 2 == 1;
      assert (m + Pow2(j) - 1) / 2 == m / 2 + Pow2(j - 1) - 1;
    }
  }

  lemma EntryExact(base: nat, k: nat)
    requires k >= 3 && Multiple(base, k)
    ensures base % 4 == 0 && Multiple(base / 4, k - 2)
    ensures TrailingOnes(Entry(base, k)) == k - 3 && Down(Entry(base, k), k - 2) == base / 4
  {
    assert Multiple(base / 2, k - 1) && Multiple(base / 2 / 2, k - 2);
    OnesOnTop(base / 4, k - 3);
  }

  /** The entry grants exactly the block it encodes. */
  lemma EntryMatches(base: nat, k: nat, a: nat)
    requires k >= 3 && Multiple(base, k)
    ensures Matches(Entry(base, k), a) <==> base <= a < base + Pow2(k)
  {
    EntryExact(base, k);
    DownIs(a / 4, k - 2);
    assert Pow2(k) == 4 * Pow2(k - 2);
    if base <= a < base + Pow2(k) { DownUnique(a / 4, base / 4, k - 2); }
  }

  // ------------------------------------------------------- the dynamic slots

  datatype Access = Read | Write | Execute

  /** What the slots need of an area record: its range and its rights. */
  datatype Area = Area(lo: nat, size: nat, perms: set<Access>)

  predicate Covers(a: Area, x: nat) {
    a.lo <= x < a.lo + a.size
  }

  ghost predicate Apart(v: Window, w: Window) {
    forall x :: !(Holds(v, x) && Holds(w, x))
  }

  predicate SeparateAreas(a: Area, b: Area) {
    a.lo + a.size <= b.lo || b.lo + b.size <= a.lo
  }

  /** Windows a thread faults in, from one area or from two that do not overlap, are the same or apart. */
  lemma ThreadWindows(lo: nat, size: nat, a: nat, v: Window, lo': nat, size': nat, b: nat, w: Window)
    requires IsWindow(lo, size, a, v) && IsWindow(lo', size', b, w)
    requires (lo == lo' && size == size') || lo + size <= lo' || lo' + size' <= lo
    ensures v == w || Apart(v, w)
  {
    if lo == lo' && size == size' { SameOrApart(lo, size, a, v, b, w); }
  }

  /** An entry that is on holds the code of its window. */
  ghost predicate EntryOk(addr: nat, w: Window) {
    w.exp >= 3 && Multiple(w.base, w.exp) && addr == Entry(w.base, w.exp)
  }

  /** Each live entry encodes its own window; an entry that is off reads as zero. */
  ghost predicate Slots(dyn: seq<nat>, addr: map<nat, nat>, on: set<nat>, win: map<nat, Window>) {
    && (forall s :: s in dyn ==> s in addr && (s !in on ==> addr[s] == 0))
    && (forall s :: s in on ==> s in dyn && s in addr && s in win && EntryOk(addr[s], win[s]))
    && (forall s, r :: s in on && r in on && s != r && s in win && r in win ==> win[s] != win[r])
  }

  /** The area set of a thread: sorted and without overlap (AreaOps.Areas.Insert). */
  ghost predicate AreaSet(areas: seq<Area>) {
    && (forall i :: 0 <= i < |areas| ==> 0 < areas[i].size < ADDR_LIMIT)
    && (forall i, j :: 0 <= i < j < |areas| ==> areas[i].lo + areas[i].size <= areas[j].lo)
  }

  /** w was faulted in through area a, one of the thread's or one that left its set since the last flush. */
  ghost predicate LoadedFrom(areas: seq<Area>, left: set<Area>, a: Area, w: Window, perms: set<Access>) {
    && (a in areas || a in left) && a.perms == perms
    && exists x :: IsWindow(a.lo, a.size, x, w)
  }

  ghost predicate FromAreas(areas: seq<Area>, left: set<Area>, on: set<nat>, win: map<nat, Window>,
                            perms: map<nat, set<Access>>) {
    forall s :: s in on && s in win ==> s in perms && exists a :: LoadedFrom(areas, left, a, win[s], perms[s])
  }

  ghost predicate IsLive(on: set<nat>, win: map<nat, Window>, w: Window) {
    exists s :: s in on && s in win && win[s] == w
  }

  /** The dynamic entries of one hart (arch/riscv/mpu_pmp.c) and the areas of the thread it runs. */
  class PmpSlots {
    const dyn: seq<nat>  // the slots of the dynamic set, lowest first
    var addr: map<nat, nat>
    var perms: map<nat, set<Access>>
    var on: set<nat>
    var next: nat
    var areas: seq<Area>
    ghost var win: map<nat, Window>
    ghost var left: set<Area>  // areas another CPU took away, the flush still to come

    ghost predicate Coded()
      reads this
    {
      Distinct(dyn) && Slots(dyn, addr, on, win)
    }

    ghost predicate Valid()
      reads this
    {
      Coded() && AreaSet(areas) && FromAreas(areas, left, on, win, perms)
    }

    /** pmp_user_layout() leaves these slots off. */
    constructor (dyn: seq<nat>, areas: seq<Area>)
      requires Distinct(dyn) && AreaSet(areas)
      ensures Valid() && on == {} && left == {} && this.dyn == dyn && this.areas == areas
    {
      this.dyn, this.areas := dyn, areas;
      addr, on, next := map s | s in dyn :: 0, {}, 0;
      perms, win, left := map[], map[], {};
    }

    /** ulmk_arch_mpu_flush() */
    method Flush()
      requires Valid()
      modifies this
      ensures Valid() && on == {} && left == {} && areas == old(areas) && next == old(next)
      ensures forall s :: s in dyn ==> s in addr && addr[s] == 0
    {
      var i := 0;
      while i < |dyn|
        invariant 0 <= i <= |dyn| && Valid() && on <= old(on) && areas == old(areas) && next == old(next)
        invariant forall j :: 0 <= j < i ==> dyn[j] !in on
      {
        addr, on := addr[dyn[i] := 0], on - {dyn[i]};
        i := i + 1;
      }
      assert forall s :: s in on ==> s !in dyn;
      left := {};
    }

    /** An area joins the set of the running thread. */
    method Enter(i: nat, a: Area)
      requires Valid() && i <= |areas| && AreaSet(areas[..i] + [a] + areas[i..])
      modifies this
      ensures Valid() && areas == old(areas[..i] + [a] + areas[i..])
      ensures on == old(on) && win == old(win) && perms == old(perms) && addr == old(addr) && left == old(left)
    {
      StillFrom(areas, areas[..i] + [a] + areas[i..], left, left, on, win, perms);
      areas := areas[..i] + [a] + areas[i..];
    }

    /**
     An area leaves the set (ulmk_kern_area_dropped): on the CPU that runs the thread
     the windows go at once, from another CPU the flush comes later.
     */
    method Leave(i: nat, here: bool)
      requires Valid() && i < |areas|
      modifies this
      ensures Valid() && areas == old(areas[..i] + areas[i + 1..])
      ensures here ==> on == {} && left == {}
      ensures !here ==> on == old(on) && win == old(win) && addr == old(addr) && left == old(left + {areas[i]})
    {
      hide Slots, FromAreas, LoadedFrom, Distinct;
      LeaveSet(areas, i);
      StillFrom(areas, areas[..i] + areas[i + 1..], left, left + {areas[i]}, on, win, perms);
      left := left + {areas[i]};
      areas := areas[..i] + areas[i + 1..];
      if here { Flush(); }
    }

    /** Whether a dynamic entry already has this code. */
    method Present(code: nat) returns (yes: bool)
      requires Coded()
      ensures yes <==> HasCode(dyn, addr, code)
    {
      var i := 0;
      while i < |dyn|
        invariant 0 <= i <= |dyn| && forall j :: 0 <= j < i ==> addr[dyn[j]] != code
      {
        if addr[dyn[i]] == code { return true; }
        i := i + 1;
      }
      yes := false;
    }

    /** The slot whose turn it is. */
    method TakeTurn() returns (slot: nat)
      requires dyn != []
      modifies `next
      ensures slot in dyn && slot == dyn[old(next) % |dyn|] && next == (old(next) + 1) % |dyn|
    {
      slot := dyn[next % |dyn|];
      next := (next + 1) % |dyn|;
    }

    /**
     ulmk_arch_mpu_load() of any region.  A window that is live already is refused; so is
     [0, 8) while a slot is off, because both read as zero.
     */
    method Load(base: nat, size: nat, rights: set<Access>) returns (ok: bool)
      requires Coded()
      modifies this
      ensures Coded() && areas == old(areas) && left == old(left) && (!ok ==> unchanged(this))
      ensures ok <==> && size >= 8 && IsPow2(size) && Multiple(base, Log2(size)) && dyn != []
                      && !IsLive(old(on), old(win), Window(base, Log2(size)))
                      && !(base == 0 && size == 8 && exists s :: s in dyn && s !in old(on))
      ensures ok ==> && IsPow2(size) && dyn != []
                     && var s := dyn[old(next) % |dyn|];
                     && on == old(on) + {s} && win == old(win)[s := Window(base, Log2(size))]
                     && perms == old(perms)[s := rights] && next == (old(next) + 1) % |dyn| && s in addr
                     && addr == old(addr)[s := addr[s]]
                     && forall a: nat :: Matches(addr[s], a) <==> base <= a < base + size
    {
      hide Slots, Distinct, IsLive, HasCode, EntryOk, Entry, Matches, TrailingOnes, Down, Multiple, Pow2, IsPow2, Log2;
      var code := NapotEncode(base, size);
      if code.None? || dyn == [] { return false; }
      ghost var w := Window(base, Log2(size));
      var live := Present(code.value);
      CodeIsLive(dyn, addr, on, win, w, code.value);
      FirstEight(base, size);
      if live { return false; }
      var slot := TakeTurn();
      Store(dyn, addr, on, win, w, code.value, slot);
      addr := addr[slot := code.value];
      perms := perms[slot := rights];
      on := on + {slot};
      win := win[slot := w];
      ok := true;
    }

    /** ulmk_area_find(): the areas are in address order. */
    method FindArea(x: nat) returns (r: Option<Area>)
      requires AreaSet(areas)
      ensures r.Some? ==> r.value in areas && Covers(r.value, x)
      ensures r.None? ==> forall a :: a in areas ==> !Covers(a, x)
    {
      var i := 0;
      while i < |areas| && areas[i].lo <= x
        invariant 0 <= i <= |areas| && forall j :: 0 <= j < i ==> !Covers(areas[j], x)
      {
        if x - areas[i].lo < areas[i].size { return Some(areas[i]); }
        i := i + 1;
      }
      forall a | a in areas ensures !Covers(a, x) {
        var j :| 0 <= j < |areas| && areas[j] == a;
        if i < j { assert areas[i].lo + areas[i].size <= areas[j].lo; }
      }
      r := None;
    }

    /** ulmk_kern_mem_fault() of the running thread: its window of the area around x is loaded. */
    method Fault(x: nat, access: set<Access>, user: bool) returns (ok: bool)
      requires Valid()
      modifies this
      ensures Valid() && areas == old(areas) && left == old(left) && (!ok ==> unchanged(this))
      ensures ok <==> user && dyn != [] && exists a, w :: MayLoad(old(areas), a, access, x, w)
                                                       && !IsLive(old(on), old(win), w)
                                                       && !(w == Window(0, 3) && exists s :: s in dyn && s !in old(on))
      ensures ok ==> && dyn != []
                     && var s := dyn[old(next) % |dyn|];
                     && on == old(on) + {s} && s in addr && s in perms && s in win
                     && next == (old(next) + 1) % |dyn| && addr == old(addr)[s := addr[s]]
                     && win == old(win)[s := win[s]] && perms == old(perms)[s := perms[s]]
                     && Matches(addr[s], x) && access <= perms[s]
                     && exists a :: MayLoad(areas, a, access, x, win[s]) && perms[s] == a.perms
    {
      hide Slots, AreaSet, FromAreas, Distinct, IsLive, IsWindow, MayLoad, LoadedFrom, IsPow2, Log2, Pow2, Multiple,
        Down, Matches;
      if !user { return false; }
      var found := FindArea(x);
      if found.None? { NoArea(areas, access, x); return false; }
      var a := found.value;
      SizeOf(areas, a);
      var w := AreaWindow(a.lo, a.size, x, 3);
      OnlyWindow(areas, a, access, x, w);
      if !(access <= a.perms) || w.None? { return false; }
      WindowSize(a, w.value, x);
      assert MayLoad(areas, a, access, x, w.value) && Window(w.value.base, Log2(Pow2(w.value.exp))) == w.value;
      ok := Load(w.value.base, Pow2(w.value.exp), a.perms);
      if ok { NowFrom(areas, left, old(on), old(win), old(perms), dyn[old(next) % |dyn|], a, w.value, x); }
    }
  }

  ghost predicate HasCode(dyn: seq<nat>, addr: map<nat, nat>, code: nat) {
    exists s :: s in dyn && s in addr && addr[s] == code
  }

  /** The area around x allows the access, and w is its window of x. */
  ghost predicate MayLoad(areas: seq<Area>, a: Area, access: set<Access>, x: nat, w: Window) {
    a in areas && Covers(a, x) && access <= a.perms && w.exp >= 3 && IsWindow(a.lo, a.size, x, w)
  }

  lemma StillFrom(areas: seq<Area>, areas': seq<Area>, left: set<Area>, left': set<Area>, on: set<nat>,
                  win: map<nat, Window>, perms: map<nat, set<Access>>)
    requires FromAreas(areas, left, on, win, perms)
    requires forall a :: a in areas || a in left ==> a in areas' || a in left'
    ensures FromAreas(areas', left', on, win, perms)
  {
    hide IsWindow;
    forall s | s in on && s in win ensures exists a :: LoadedFrom(areas', left', a, win[s], perms[s]) {
      var a :| LoadedFrom(areas, left, a, win[s], perms[s]);
      assert LoadedFrom(areas', left', a, win[s], perms[s]);
    }
  }

  lemma LeaveSet(areas: seq<Area>, i: nat)
    requires AreaSet(areas) && i < |areas|
    ensures AreaSet(areas[..i] + areas[i + 1..])
    ensures forall a :: a in areas ==> a == areas[i] || a in areas[..i] + areas[i + 1..]
  {
    assert areas == areas[..i] + [areas[i]] + areas[i + 1..];
  }

  /** Different windows have different codes. */
  lemma CodeOfOne(code: nat, v: Window, w: Window)
    requires EntryOk(code, v) && EntryOk(code, w)
    ensures v == w
  {
    hide Entry, TrailingOnes, Down, Multiple;
    EntryExact(v.base, v.exp);
    EntryExact(w.base, w.exp);
  }

  /** A window is recognised by its code; zero also stands for an entry that is off. */
  lemma CodeIsLive(dyn: seq<nat>, addr: map<nat, nat>, on: set<nat>, win: map<nat, Window>, w: Window, code: nat)
    requires Slots(dyn, addr, on, win) && EntryOk(code, w)
    ensures HasCode(dyn, addr, code) <==> IsLive(on, win, w) || (code == 0 && exists s :: s in dyn && s !in on)
  {
    hide EntryOk;
    if IsLive(on, win, w) {
      var s :| s in on && s in win && win[s] == w;
      assert EntryOk(addr[s], win[s]) && addr[s] == code by { SameEntry(addr[s], code, w); }
    }
    if HasCode(dyn, addr, code) {
      var s :| s in dyn && s in addr && addr[s] == code;
      if s in on { CodeOfOne(code, win[s], w); }
    }
    if s :| s in dyn && s !in on { assert addr[s] == 0; }
  }

  lemma SameEntry(a: nat, b: nat, w: Window)
    ensures EntryOk(a, w) && EntryOk(b, w) ==> a == b
  {
  }

  lemma FirstEight(base: nat, size: nat)
    requires size >= 8 && IsPow2(size) && Multiple(base, Log2(size))
    ensures Log2(size) >= 3 && (Entry(base, Log2(size)) == 0 <==> base == 0 && size == 8)
  {
    EightIsLow(size);
    EntryExact(base, Log2(size));
    if base == 0 && size == 8 { assert Log2(8) == 3; }
  }

  lemma Store(dyn: seq<nat>, addr: map<nat, nat>, on: set<nat>, win: map<nat, Window>, w: Window, code: nat, slot: nat)
    requires Slots(dyn, addr, on, win) && EntryOk(code, w) && !IsLive(on, win, w) && slot in dyn
    ensures Slots(dyn, addr[slot := code], on + {slot}, win[slot := w])
  {
    hide EntryOk;
  }

  lemma SizeOf(areas: seq<Area>, a: Area)
    requires AreaSet(areas) && a in areas
    ensures a.size < ADDR_LIMIT
  {
  }

  lemma NoArea(areas: seq<Area>, access: set<Access>, x: nat)
    requires forall a :: a in areas ==> !Covers(a, x)
    ensures forall a, w :: !MayLoad(areas, a, access, x, w)
  {
  }

  lemma SameWindow(lo: nat, size: nat, x: nat, v: Window, w: Window)
    requires IsWindow(lo, size, x, v) && IsWindow(lo, size, x, w)
    ensures v == w
  {
    hide Fits, Down;
  }

  /** The area around x and its window of x are unique. */
  lemma OnlyWindow(areas: seq<Area>, a: Area, access: set<Access>, x: nat, r: Option<Window>)
    requires AreaSet(areas) && a in areas && Covers(a, x)
    requires r.None? <==> !Fits(a.lo, a.size, x, 3)
    requires r.Some? ==> r.value.exp >= 3 && IsWindow(a.lo, a.size, x, r.value)
    ensures forall b, v :: MayLoad(areas, b, access, x, v) <==>
                             b == a && access <= a.perms && r == Some(v)
  {
    hide Fits, Down, Pow2, IsWindow;
    forall b, v | MayLoad(areas, b, access, x, v) ensures b == a && r == Some(v) {
      OneArea(areas, a, b, x);
      SmallFits(a, x, v);
      SameWindow(a.lo, a.size, x, v, r.value);
    }
  }

  lemma OneArea(areas: seq<Area>, a: Area, b: Area, x: nat)
    requires AreaSet(areas) && a in areas && b in areas && Covers(a, x) && Covers(b, x)
    ensures a == b
  {
    var i :| 0 <= i < |areas| && areas[i] == a;
    var j :| 0 <= j < |areas| && areas[j] == b;
  }

  lemma SmallFits(a: Area, x: nat, v: Window)
    requires IsWindow(a.lo, a.size, x, v) && v.exp >= 3
    ensures Fits(a.lo, a.size, x, 3)
  {
    FitsLess(a.lo, a.size, x, 3, v.exp);
  }

  lemma {:induction false} PowerIs(k: nat)
    ensures IsPow2(Pow2(k)) && Log2(Pow2(k)) == k
  {
    hide IsPow2, Log2;
    if k == 0 {
      OneIsPower();
    } else {
      PowerIs(k - 1);
      Doubled(Pow2(k - 1));
    }
  }

  lemma OneIsPower()
    ensures IsPow2(1) && Log2(1) == 0
  {
  }

  lemma Doubled(n: nat)
    requires IsPow2(n)
    ensures IsPow2(2 * n) && Log2(2 * n) == Log2(n) + 1
  {
    assert 2 * n / 2 == n;
  }

  lemma WindowSize(a: Area, w: Window, x: nat)
    requires w.exp >= 3 && IsWindow(a.lo, a.size, x, w)
    ensures Pow2(w.exp) >= 8 && IsPow2(Pow2(w.exp)) && Log2(Pow2(w.exp)) == w.exp
    ensures Multiple(w.base, w.exp) && Holds(w, x) && (Pow2(w.exp) == 8 <==> w.exp == 3)
  {
    hide Down, Multiple, Fits;
    DownIs(x, w.exp);
    PowerIs(w.exp);
    assert Pow2(3) == 8;
    if w.exp > 3 { Pow2Monotone(4, w.exp); }
  }

  lemma NowFrom(areas: seq<Area>, left: set<Area>, on: set<nat>, win: map<nat, Window>, perms: map<nat, set<Access>>,
                slot: nat, a: Area, w: Window, x: nat)
    requires FromAreas(areas, left, on, win, perms) && a in areas && IsWindow(a.lo, a.size, x, w)
    ensures FromAreas(areas, left, on + {slot}, win[slot := w], perms[slot := a.perms])
  {
    hide IsWindow;
    var on', win', perms' := on + {slot}, win[slot := w], perms[slot := a.perms];
    forall s | s in on' && s in win' ensures s in perms' && exists b :: LoadedFrom(areas, left, b, win'[s], perms'[s]) {
      if s == slot { assert LoadedFrom(areas, left, a, win'[s], perms'[s]); }
    }
  }

  // ---------------------------------------------------- what the slots grant

  /** A live entry matches addresses of one area only, with that area's rights. */
  lemma GrantsWithinAnArea(h: PmpSlots, s: nat, x: nat)
    requires h.Valid() && s in h.on && Matches(h.addr[s], x)
    ensures s in h.perms
    ensures exists a :: (a in h.areas || a in h.left) && Covers(a, x) && h.perms[s] == a.perms
  {
    hide Down, Pow2, Multiple, Matches, Entry;
    var w := h.win[s];
    assert EntryOk(h.addr[s], w);
    EntryMatches(w.base, w.exp, x);
    var a :| LoadedFrom(h.areas, h.left, a, w, h.perms[s]);
  }

  /** The areas of a set do not overlap. */
  lemma SetHasNoOverlap(areas: seq<Area>, a: Area, b: Area)
    requires AreaSet(areas) && a in areas && b in areas && a != b
    ensures SeparateAreas(a, b)
  {
    var i :| 0 <= i < |areas| && areas[i] == a;
    var j :| 0 <= j < |areas| && areas[j] == b;
    if i < j { assert areas[i].lo + areas[i].size <= areas[j].lo; }
    if j < i { assert areas[j].lo + areas[j].size <= areas[i].lo; }
  }

  /** Both windows were loaded from areas that overlap, one of which another CPU took away. */
  ghost predicate FromOverlap(h: PmpSlots, s: nat, r: nat)
    requires h.Valid() && s in h.on && r in h.on
    reads h
  {
    exists a, b :: && LoadedFrom(h.areas, h.left, a, h.win[s], h.perms[s])
                   && LoadedFrom(h.areas, h.left, b, h.win[r], h.perms[r])
                   && !SeparateAreas(a, b) && (a in h.left || b in h.left)
  }

  /** Two live windows are disjoint, or come from overlapping areas and the flush is still to come. */
  lemma LiveApart(h: PmpSlots, s: nat, r: nat)
    requires h.Valid() && s in h.on && r in h.on && s != r
    ensures Apart(h.win[s], h.win[r]) || FromOverlap(h, s, r)
    ensures h.left == {} ==> Apart(h.win[s], h.win[r])
  {
    hide IsWindow, EntryOk, Apart, AreaSet;
    var a :| LoadedFrom(h.areas, h.left, a, h.win[s], h.perms[s]);
    var b :| LoadedFrom(h.areas, h.left, b, h.win[r], h.perms[r]);
    var x :| IsWindow(a.lo, a.size, x, h.win[s]);
    var y :| IsWindow(b.lo, b.size, y, h.win[r]);
    if a in h.areas && b in h.areas && a != b { SetHasNoOverlap(h.areas, a, b); }
    if a == b || SeparateAreas(a, b) { ThreadWindows(a.lo, a.size, x, h.win[s], b.lo, b.size, y, h.win[r]); }
  }

  /** With no flush to come, an allowed access faults on a live window exactly if some entry already matches it. */
  lemma LiveIffMatched(h: PmpSlots, a: Area, access: set<Access>, x: nat, w: Window)
    requires h.Valid() && h.left == {} && MayLoad(h.areas, a, access, x, w)
    ensures IsLive(h.on, h.win, w) <==> exists s :: s in h.on && Matches(h.addr[s], x)
  {
    hide Down, Pow2, Multiple, Matches, Entry, IsWindow, Fits;
    forall s | s in h.on ensures Matches(h.addr[s], x) <==> h.win[s] == w {
      var v := h.win[s];
      assert EntryOk(h.addr[s], v);
      EntryMatches(v.base, v.exp, x);
      var b :| LoadedFrom(h.areas, h.left, b, v, h.perms[s]);
      var y :| IsWindow(b.lo, b.size, y, v);
      HoldsOwn(a, x, w);
      if Holds(v, x) {
        HoldsWithin(b, y, v, x);
        OneArea(h.areas, a, b, x);
        SameOrApart(a.lo, a.size, x, w, y, v);
      }
    }
  }

  lemma HoldsOwn(a: Area, x: nat, w: Window)
    requires IsWindow(a.lo, a.size, x, w)
    ensures Holds(w, x)
  {
    hide Pow2, Multiple, Fits;
    DownIs(x, w.exp);
  }

  lemma HoldsWithin(a: Area, y: nat, w: Window, x: nat)
    requires IsWindow(a.lo, a.size, y, w) && Holds(w, x)
    ensures Covers(a, x)
  {
    hide Pow2, Multiple, Down;
  }

  /** The window [0, 8) of an area that allows the access is refused: an empty slot looks the same. */
  method ZeroWindow() returns (h: PmpSlots, ok: bool)
    ensures !ok && h.on == {} && h.areas == [Area(0, 8, {Read})]
    ensures MayLoad(h.areas, Area(0, 8, {Read}), {Read}, 0, Window(0, 3))
  {
    hide Slots, FromAreas, LoadedFrom, IsLive;
    h := new PmpSlots([0], [Area(0, 8, {Read})]);
    ok := h.Fault(0, {Read}, true);
    ZeroFits();
    forall a, w | MayLoad(h.areas, a, {Read}, 0, w) ensures w == Window(0, 3) { SameWindow(0, 8, 0, w, Window(0, 3)); }
  }

  lemma ZeroFits()
    ensures IsWindow(0, 8, 0, Window(0, 3))
  {
    assert Down(0, 3) == 0 && Pow2(3) == 8;
    forall k | k > 3 ensures !Fits(0, 8, 0, k) { Pow2Monotone(4, k); }
  }
}
