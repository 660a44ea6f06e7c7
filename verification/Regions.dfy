/**
 PMSAv7 regions (arch/arm/mpu_v7m.c): the smallest covering region and the exact
 encoding of a range with a subregion-disable mask (section B3.5 of the ARMv7-M
 Architecture Reference Manual).  Addresses are 32 bits wide.
 */
module Regions {
  import opened Powers
  import opened Sequences

  const ADDR_LIMIT := 0x1_0000_0000
  const HALF := 0x8000_0000

  /** A region of 2^exp bytes at a multiple of its size, with the set of its disabled subregions. */
  datatype Region = Region(base: nat, exp: nat, disabled: set<nat>)

  /** What the architecture accepts: 32 bytes to 4 GiB, and subregions only from 256 bytes on. */
  ghost predicate Legal(r: Region) {
    && 5 <= r.exp <= 32 && Multiple(r.base, r.exp) && r.base + Pow2(r.exp) <= ADDR_LIMIT
    && (r.exp < 8 ==> r.disabled == {}) && forall k :: k in r.disabled ==> k < 8
  }

  /** The addresses a region grants: those whose eighth is not disabled. */
  predicate Grants(r: Region, a: nat)
    requires r.exp >= 3
  {
    r.base <= a < r.base + Pow2(r.exp) && Shr(a - r.base, r.exp - 3) !in r.disabled
  }

  ghost predicate Exactly(r: Region, lo: nat, hi: nat)
    requires r.exp >= 3
  {
    forall a: nat :: Grants(r, a) <==> lo <= a < hi
  }

  predicate Covers(lo: nat, hi: nat, l: nat) {
    Down(lo, l) + Pow2(l) >= hi
  }

  // ------------------------------------------------------------ the encoding

  predicate Outside(k: nat, first: nat, last: nat) { !(first <= k < last) }

  /** What region_exact() programs for [lo, hi) with a cover of 2^l bytes, or None when it refuses. */
  function Encode(lo: nat, hi: nat, l: nat): Option<Region>
    requires lo < hi
  {
    var base := Base(lo, l);
    if base == lo && hi - lo == Pow2(l) then Some(Region(base, l, {}))
    else if l < 8 then None
    else if !Multiple(lo - base, l - 3) || !Multiple(hi - base, l - 3) then None
    else Some(Region(base, l, Mask(Shr(lo - base, l - 3), Shr(hi - base, l - 3))))
  }

  /** The subregions outside [first, last). */
  function Mask(first: nat, last: nat): set<nat> {
    set k: nat | k < 8 && Outside(k, first, last)
  }

  function Base(lo: nat, l: nat): (b: nat)
    ensures b == Down(lo, l) <= lo
  {
    DownIs(lo, l);
    Down(lo, l)
  }

  lemma EighthsBelow(x: nat, l: nat)
    requires l >= 3 && x < Pow2(l)
    ensures Shr(x, l - 3) < 8
  {
    PowerMultiple(l, l - 3);
    ShrOrder(x, Pow2(l), l - 3);
    ShrPow2(3, l - 3);
    assert Pow2(3) == 8;
  }

  /** Inside the cover, the enabled eighths are those of [lo, hi). */
  lemma MaskExact(base: nat, l: nat, lo: nat, hi: nat, a: nat)
    requires l >= 3 && base <= lo < hi && base <= a < base + Pow2(l)
    requires Multiple(lo - base, l - 3) && Multiple(hi - base, l - 3)
    ensures Shr(a - base, l - 3) !in Mask(Shr(lo - base, l - 3), Shr(hi - base, l - 3)) <==> lo <= a < hi
  {
    hide Shr, Multiple, Pow2;
    EighthsBelow(a - base, l);
    ShrOrder(a - base, lo - base, l - 3);
    ShrOrder(a - base, hi - base, l - 3);
  }

  /** An encoding over a region that really covers the range grants the range and nothing else. */
  lemma EncodeExact(lo: nat, hi: nat, l: nat)
    requires lo < hi < ADDR_LIMIT && 5 <= l <= 32 && Encode(lo, hi, l).Some? && Covers(lo, hi, l)
    ensures var r := Encode(lo, hi, l).value; Legal(r) && Exactly(r, lo, hi)
  {
    hide Shr, Multiple, Pow2, Down, Mask;
    var r := Encode(lo, hi, l).value;
    CoverInRange(lo, l);
    DownIs(lo, l);
    MaskSmall(Shr(lo - r.base, l - 3), Shr(hi - r.base, l - 3));
    forall a: nat ensures Grants(r, a) <==> lo <= a < hi {
      if !(r.base == lo && hi - lo == Pow2(l)) && r.base <= a < r.base + Pow2(l) { MaskExact(r.base, l, lo, hi, a); }
    }
  }

  lemma MaskSmall(first: nat, last: nat)
    ensures forall k :: k in Mask(first, last) ==> k < 8
  {
  }

  lemma Widths()
    ensures Pow2(31) == HALF && Pow2(32) == ADDR_LIMIT
  {
    assert Pow2(10) == 1024;
    assert Pow2(20) == 1024 * 1024;
    assert Pow2(30) == 1024 * 1024 * 1024;
  }

  lemma CoverInRange(lo: nat, l: nat)
    requires lo < ADDR_LIMIT && l <= 32
    ensures Down(lo, l) + Pow2(l) <= ADDR_LIMIT
  {
    hide Pow2, Down, Multiple;
    Widths();
    DownInside(lo, l, 32);
    ZeroMultiple(32);
    DownUnique(lo, 0, 32);
  }

  // -------------------------------------------- when no encoding is possible

  /** A region that grants exactly [lo, hi) starts and ends its grants on its own eighths. */
  lemma GrantsOnEighths(r: Region, lo: nat, hi: nat)
    requires Legal(r) && lo < hi && Exactly(r, lo, hi)
    ensures r.base <= lo && hi <= r.base + Pow2(r.exp)
    ensures Multiple(lo - r.base, r.exp - 3) && Multiple(hi - r.base, r.exp - 3)
  {
    hide Shr, Multiple, Pow2, Down;
    assert Grants(r, lo) && Grants(r, hi - 1);
    FirstOnEighth(r, lo, hi);
    assert !Grants(r, hi);
    if !Multiple(hi - r.base, r.exp - 3) { LastOnEighth(r, hi); }
  }

  lemma FirstOnEighth(r: Region, lo: nat, hi: nat)
    requires r.exp >= 3 && lo < hi && Exactly(r, lo, hi) && r.base <= lo < r.base + Pow2(r.exp)
    ensures Multiple(lo - r.base, r.exp - 3)
  {
    hide Shr, Multiple, Pow2, Down;
    var x, k := lo - r.base, r.exp - 3;
    DownIs(x, k);
    ShrDown(x, k);
    assert Grants(r, lo);
    assert Grants(r, r.base + Down(x, k));
  }

  /** Off its eighths, the region grants the address after any it grants. */
  lemma LastOnEighth(r: Region, hi: nat)
    requires r.exp >= 3 && hi > r.base && Grants(r, hi - 1) && !Multiple(hi - r.base, r.exp - 3)
    ensures Grants(r, hi)
  {
    hide Shr, Multiple, Pow2;
    PowerMultiple(r.exp, r.exp - 3);
    ShrPred(hi - r.base, r.exp - 3);
    assert hi - r.base != Pow2(r.exp);
  }

  /** l is the smallest level, from 32 bytes up, whose block around lo reaches hi. */
  ghost predicate SmallestCover(lo: nat, hi: nat, l: nat) {
    5 <= l <= 32 && Covers(lo, hi, l) && forall j :: 5 <= j < l ==> !Covers(lo, hi, j)
  }

  /** If the smallest cover has subregions and any region grants exactly the range, then so does the encoding. */
  lemma EncodableOnlyIf(lo: nat, hi: nat, l: nat, r: Region)
    requires lo < hi < ADDR_LIMIT && SmallestCover(lo, hi, l) && l >= 8 && Legal(r) && Exactly(r, lo, hi)
    ensures Encode(lo, hi, l).Some?
  {
    hide Shr, Multiple, Pow2, Down;
    GrantsOnEighths(r, lo, hi);
    DownUnique(lo, r.base, r.exp);
    assert Covers(lo, hi, r.exp);
    Eighths(lo, lo, l, r);
    Eighths(lo, hi, l, r);
  }

  lemma Eighths(lo: nat, x: nat, l: nat, r: Region)
    requires 8 <= l <= r.exp && r.base <= lo <= x && Multiple(r.base, r.exp) && Multiple(x - r.base, r.exp - 3)
    ensures Base(lo, l) <= x && Multiple(x - Base(lo, l), l - 3)
  {
    hide Multiple, Pow2, Down;
    MultipleLess(r.base, r.exp - 3, r.exp);
    MultipleSum(x - r.base, r.base, r.exp - 3);
    MultipleLess(x, l - 3, r.exp - 3);
    DownIs(lo, l);
    MultipleLess(Base(lo, l), l - 3, l);
    MultipleSum(x, Base(lo, l), l - 3);
  }

  /** With a smallest cover of 256 bytes or more, some region grants exactly [lo, hi) if and only if it is encoded. */
  lemma EncodableIff(lo: nat, hi: nat, l: nat)
    requires lo < hi < ADDR_LIMIT && SmallestCover(lo, hi, l) && l >= 8
    ensures (exists r :: Legal(r) && Exactly(r, lo, hi)) <==> Encode(lo, hi, l).Some?
  {
    hide Shr, Multiple, Pow2, Down, Encode;
    if Encode(lo, hi, l).Some? { EncodeExact(lo, hi, l); }
    forall r | Legal(r) && Exactly(r, lo, hi) ensures Encode(lo, hi, l).Some? { EncodableOnlyIf(lo, hi, l, r); }
  }

  lemma EncodeIff(lo: nat, hi: nat, l: nat)
    requires lo < hi && l >= 8
    ensures Encode(lo, hi, l).Some? <==> Multiple(lo, l - 3) && Multiple(hi, l - 3)
  {
    hide Multiple, Pow2, Down, Shr;
    var b := Base(lo, l);
    DownIs(lo, l);
    MultipleLess(b, l - 3, l);
    Shifted(lo, b, l - 3);
    Shifted(hi, b, l - 3);
    if b == lo && hi - lo == Pow2(l) {
      PowerMultiple(l, l - 3);
      MultipleSum(lo, Pow2(l), l - 3);
    }
  }

  lemma Shifted(x: nat, b: nat, k: nat)
    requires b <= x && Multiple(b, k)
    ensures Multiple(x - b, k) <==> Multiple(x, k)
  {
    if Multiple(x - b, k) { MultipleSum(x - b, b, k); }
    if Multiple(x, k) { MultipleSum(x, b, k); }
  }

  /** The finest boundary a region over a smallest cover of 2^c bytes can draw: 32 bytes, or an eighth of it. */
  function Grain(c: nat): nat
    requires c >= 5
  {
    if c < 8 then 5 else c - 3
  }

  lemma SmallEncodable(lo: nat, hi: nat, c: nat)
    requires lo < hi < ADDR_LIMIT && SmallestCover(lo, hi, c) && c < 8 && Multiple(lo, 5) && Multiple(hi, 5)
    ensures Encode(lo, hi, 8).Some? && Covers(lo, hi, 8)
  {
    hide Shr, Multiple, Pow2, Down, Encode;
    EncodeIff(lo, hi, 8);
    DownInside(lo, c, 8);
  }

  lemma OnGrain(r: Region, lo: nat, hi: nat)
    requires Legal(r) && lo < hi && Exactly(r, lo, hi)
    ensures Multiple(lo, 5) && Multiple(hi, 5)
  {
    hide Shr, Multiple, Pow2, Down;
    GrantsOnEighths(r, lo, hi);
    if r.exp >= 8 {
      MultipleLess(r.base, 5, r.exp);
      MultipleLess(lo - r.base, 5, r.exp - 3);
      MultipleLess(hi - r.base, 5, r.exp - 3);
      MultipleSum(lo - r.base, r.base, 5);
      MultipleSum(hi - r.base, r.base, 5);
    } else {
      WholeRegion(r, lo, hi);
      MultipleLess(r.base, 5, r.exp);
      PowerMultiple(r.exp, 5);
      MultipleSum(r.base, Pow2(r.exp), 5);
    }
  }

  lemma WholeRegion(r: Region, lo: nat, hi: nat)
    requires r.exp >= 3 && r.disabled == {} && lo < hi && Exactly(r, lo, hi)
    ensures lo == r.base && hi == r.base + Pow2(r.exp)
  {
    hide Shr, Pow2;
    assert Grants(r, r.base) && Grants(r, r.base + Pow2(r.exp) - 1);
    assert Grants(r, lo) && Grants(r, hi - 1);
  }

  /** Some region grants exactly [lo, hi) if and only if both ends lie on the grain of the smallest cover. */
  lemma EncodableAligned(lo: nat, hi: nat, c: nat)
    requires lo < hi < ADDR_LIMIT && SmallestCover(lo, hi, c)
    ensures (exists r :: Legal(r) && Exactly(r, lo, hi)) <==> Multiple(lo, Grain(c)) && Multiple(hi, Grain(c))
  {
    hide Shr, Multiple, Pow2, Down, Encode, Exactly, Covers;
    if c >= 8 {
      EncodableIff(lo, hi, c);
      EncodeIff(lo, hi, c);
    } else {
      forall r | Legal(r) && Exactly(r, lo, hi) ensures Multiple(lo, 5) && Multiple(hi, 5) { OnGrain(r, lo, hi); }
      if Multiple(lo, 5) && Multiple(hi, 5) {
        SmallEncodable(lo, hi, c);
        EncodeExact(lo, hi, 8);
      }
    }
  }

  // ------------------------------------------------------------- region_exact

  /** The loop test of log2_cover(), whose sum is taken modulo 2^32. */
  predicate Stops(lo: nat, hi: nat, l: nat) {
    (Down(lo, l) + Pow2(l)) % ADDR_LIMIT >= hi || l >= 31
  }

  /** log2_cover() for [lo, hi). */
  method Log2Cover(lo: nat, hi: nat) returns (l: nat)
    requires lo < hi < ADDR_LIMIT
    ensures 5 <= l <= 31 && Stops(lo, hi, l) && forall j :: 5 <= j < l ==> !Stops(lo, hi, j)
  {
    l := 5;
    while !Stops(lo, hi, l)
      invariant 5 <= l <= 31 && forall j :: 5 <= j < l ==> !Stops(lo, hi, j)
      decreases 31 - l
    {
      l := l + 1;
    }
  }

  /** The smallest cover does not reach the top of the address space. */
  ghost predicate BelowTop(lo: nat, hi: nat, l: nat) {
    SmallestCover(lo, hi, l) && Down(lo, l) + Pow2(l) < ADDR_LIMIT
  }

  /** Below the top no sum wraps and log2_cover() finds the smallest cover. */
  lemma CoverIs(lo: nat, hi: nat, l: nat, c: nat)
    requires lo < hi < ADDR_LIMIT && BelowTop(lo, hi, c)
    requires 5 <= l <= 31 && Stops(lo, hi, l) && forall j :: 5 <= j < l ==> !Stops(lo, hi, j)
    ensures l == c
  {
    hide Pow2, Down;
    Widths();
    assert c != 32 by { TopIsCovered(lo); }
    assert Stops(lo, hi, c);
    if l < c { StopIsCover(lo, hi, l, c); }
  }

  lemma TopIsCovered(lo: nat)
    requires lo < ADDR_LIMIT
    ensures Down(lo, 32) + Pow2(32) == ADDR_LIMIT
  {
    hide Pow2, Down, Multiple;
    Widths();
    ZeroMultiple(32);
    DownUnique(lo, 0, 32);
  }

  lemma NoWrap(lo: nat, l: nat, c: nat)
    requires l <= c && Down(lo, c) + Pow2(c) < ADDR_LIMIT
    ensures (Down(lo, l) + Pow2(l)) % ADDR_LIMIT == Down(lo, l) + Pow2(l)
  {
    DownInside(lo, l, c);
  }

  lemma StopIsCover(lo: nat, hi: nat, l: nat, c: nat)
    requires l <= c <= 31 && l < 31 && Down(lo, c) + Pow2(c) < ADDR_LIMIT && Stops(lo, hi, l)
    ensures Covers(lo, hi, l)
  {
    NoWrap(lo, l, c);
  }

  /** The cover found really covers, unless the range crosses the middle of the address space. */
  lemma CoversUnlessCrossing(lo: nat, hi: nat, l: nat)
    requires lo < hi < ADDR_LIMIT && 5 <= l <= 31 && Stops(lo, hi, l)
    ensures !(lo < HALF < hi) ==> Covers(lo, hi, l)
    ensures l == 31 && lo < HALF < hi ==> !Covers(lo, hi, l)
  {
    hide Pow2, Down, Multiple;
    Widths();
    CoverInRange(lo, l);
    if l == 31 { Halves(lo); }
  }

  lemma Halves(lo: nat)
    requires lo < ADDR_LIMIT
    ensures Down(lo, 31) == if lo < HALF then 0 else HALF
  {
    hide Pow2, Down, Multiple;
    Widths();
    ZeroMultiple(31);
    PowerMultiple(31, 31);
    if lo < HALF { DownUnique(lo, 0, 31); } else { DownUnique(lo, HALF, 31); }
  }

  /**
   region_exact().  What it programs grants exactly [lo, hi) if and only if the range
   does not cross the middle of the address space.  When the smallest cover stays below
   the top and has subregions, it refuses only what no region can grant; under 256 bytes
   it takes whole blocks only, although a larger region could grant any multiples of 32.
   */
  method RegionExact(lo: nat, hi: nat) returns (r: Option<Region>)
    requires lo < hi < ADDR_LIMIT
    ensures r.Some? ==> r.value.exp >= 3 && (Exactly(r.value, lo, hi) <==> !(lo < HALF < hi))
    ensures r.Some? && !(lo < HALF < hi) ==> Legal(r.value)
    ensures forall l :: BelowTop(lo, hi, l) && l >= 8 ==>
              (r.Some? <==> exists x :: Legal(x) && Exactly(x, lo, hi))
    ensures forall l :: BelowTop(lo, hi, l) && l < 8 ==>
              && (r.Some? <==> lo == Down(lo, l) && hi - lo == Pow2(l))
              && ((exists x :: Legal(x) && Exactly(x, lo, hi)) <==> Multiple(lo, 5) && Multiple(hi, 5))
  {
    hide Shr, Multiple, Pow2, Down, Encode, Exactly, Stops, SmallestCover, Covers;
    var l := Log2Cover(lo, hi);
    r := Encode(lo, hi, l);
    CoversUnlessCrossing(lo, hi, l);
    if r.Some? {
      EncodeLevel(lo, hi, l);
      if lo < HALF < hi { CrossingShort(lo, hi, l); } else { EncodeExact(lo, hi, l); }
    }
    forall c | BelowTop(lo, hi, c) && c >= 8 ensures r.Some? <==> exists x :: Legal(x) && Exactly(x, lo, hi) {
      CoverIs(lo, hi, l, c);
      EncodableIff(lo, hi, l);
    }
    forall c | BelowTop(lo, hi, c) && c < 8
      ensures && (r.Some? <==> lo == Down(lo, c) && hi - lo == Pow2(c))
              && ((exists x :: Legal(x) && Exactly(x, lo, hi)) <==> Multiple(lo, 5) && Multiple(hi, 5))
    {
      CoverIs(lo, hi, l, c);
      EncodeSmall(lo, hi, c);
      IsSmallest(lo, hi, c);
      EncodableAligned(lo, hi, c);
    }
  }

  lemma EncodeSmall(lo: nat, hi: nat, l: nat)
    requires lo < hi && l < 8
    ensures Encode(lo, hi, l).Some? <==> lo == Down(lo, l) && hi - lo == Pow2(l)
  {
  }

  lemma IsSmallest(lo: nat, hi: nat, c: nat)
    requires BelowTop(lo, hi, c)
    ensures 5 <= c && SmallestCover(lo, hi, c)
  {
  }

  lemma EncodeLevel(lo: nat, hi: nat, l: nat)
    requires lo < hi && Encode(lo, hi, l).Some?
    ensures Encode(lo, hi, l).value.exp == l && Encode(lo, hi, l).value.base == Down(lo, l)
  {
  }

  /** Across the middle the programmed region ends before hi. */
  lemma CrossingShort(lo: nat, hi: nat, l: nat)
    requires lo < HALF < hi < ADDR_LIMIT && 5 <= l <= 31 && Encode(lo, hi, l).Some?
    ensures !Exactly(Encode(lo, hi, l).value, lo, hi)
  {
    hide Shr, Multiple, Pow2, Down, Encode;
    EncodeLevel(lo, hi, l);
    DownInside(lo, l, 31);
    Halves(lo);
    Widths();
    assert !Grants(Encode(lo, hi, l).value, hi - 1);
  }

  // ----------------------------------------------- where the code falls short

  /**
   A smallest cover that ends at the top of the address space is missed, the sum
   there being 0 in 32 bits: the range is encoded over 2 GiB instead, and the answer
   is right if and only if it is aligned for that or not even for its own cover.
   */
  lemma TopIff(lo: nat, hi: nat, l: nat, c: nat)
    requires lo < hi < ADDR_LIMIT && SmallestCover(lo, hi, c) && c <= 31 && Down(lo, c) + Pow2(c) == ADDR_LIMIT
    requires 5 <= l <= 31 && Stops(lo, hi, l) && forall j :: 5 <= j < l ==> !Stops(lo, hi, j)
    ensures l == 31
    ensures (Encode(lo, hi, l).Some? <==> exists x :: Legal(x) && Exactly(x, lo, hi)) <==>
            (Multiple(lo, 28) && Multiple(hi, 28)) || !(Multiple(lo, Grain(c)) && Multiple(hi, Grain(c)))
  {
    hide Shr, Multiple, Pow2, Down, Encode, Exactly;
    if l < 31 { NeverStops(lo, hi, l, c); }
    EncodeIff(lo, hi, 31);
    EncodableAligned(lo, hi, c);
    if Multiple(lo, 28) && Multiple(hi, 28) {
      MultipleLess(lo, Grain(c), 28);
      MultipleLess(hi, Grain(c), 28);
    }
  }

  /** Across the middle a refusal is right: only a 4 GiB region could cover the range. */
  lemma CrossingRefusal(lo: nat, hi: nat)
    requires lo < HALF < hi < ADDR_LIMIT && Encode(lo, hi, 31).None?
    ensures !exists x :: Legal(x) && Exactly(x, lo, hi)
  {
    hide Shr, Multiple, Pow2, Down, Encode, Exactly;
    forall l | 5 <= l < 32 ensures !Covers(lo, hi, l) {
      DownInside(lo, l, 31);
      Halves(lo);
      Widths();
    }
    TopIsCovered(lo);
    EncodeIff(lo, hi, 31);
    EncodeIff(lo, hi, 32);
    EncodableIff(lo, hi, 32);
    if Multiple(lo, 29) && Multiple(hi, 29) {
      MultipleLess(lo, 28, 29);
      MultipleLess(hi, 28, 29);
    }
  }

  lemma NeverStops(lo: nat, hi: nat, l: nat, c: nat)
    requires lo < hi < ADDR_LIMIT && SmallestCover(lo, hi, c) && c <= 31 && Down(lo, c) + Pow2(c) == ADDR_LIMIT
    requires 5 <= l < 31
    ensures !Stops(lo, hi, l)
  {
    hide Pow2, Down;
    CoverInRange(lo, l);
    if l < c {
      DownInside(lo, l, c);
      assert !Covers(lo, hi, l);
    } else {
      DownInside(lo, c, l);
    }
  }

  /** [0xFFFFFF00, 0xFFFFFFE0) is refused although one 256-byte region grants exactly that. */
  lemma TopExample()
    ensures SmallestCover(0xFFFF_FF00, 0xFFFF_FFE0, 8) && Encode(0xFFFF_FF00, 0xFFFF_FFE0, 8).Some?
    ensures Encode(0xFFFF_FF00, 0xFFFF_FFE0, 31).None?
    ensures forall l :: 5 <= l < 31 ==> !Stops(0xFFFF_FF00, 0xFFFF_FFE0, l)
  {
    var lo, hi := 0xFFFF_FF00, 0xFFFF_FFE0;
    TopFacts();
    hide Shr, Multiple, Pow2, Down, Encode;
    EncodeIff(lo, hi, 8);
    EncodeIff(lo, hi, 31);
    forall l | 5 <= l < 31 ensures !Stops(lo, hi, l) { NeverStops(lo, hi, l, 8); }
  }

  lemma TopFacts()
    ensures Pow2(5) == 32 && Pow2(6) == 64 && Pow2(7) == 128 && Pow2(8) == 256
    ensures forall k :: 5 <= k <= 8 ==> Down(0xFFFF_FF00, k) == 0xFFFF_FF00
    ensures Multiple(0xFFFF_FF00, 5) && Multiple(0xFFFF_FFE0, 5) && !Multiple(0xFFFF_FFE0, 28)
  {
    assert Multiple(0xFFFF_FF00, 8);
    forall k | 5 <= k <= 8 ensures Down(0xFFFF_FF00, k) == 0xFFFF_FF00 {
      MultipleLess(0xFFFF_FF00, k, 8);
      DownUnique(0xFFFF_FF00, 0xFFFF_FF00, k);
    }
    if Multiple(0xFFFF_FFE0, 28) { MultipleLess(0xFFFF_FFE0, 6, 28); }
    assert !Multiple(0xFFFF_FFE0, 6);
  }

  /** [0x20, 0x60) is refused although a 256-byte region at 0 with two of its eighths on grants exactly that. */
  lemma SmallExample()
    ensures BelowTop(0x20, 0x60, 7) && Encode(0x20, 0x60, 7).None?
    ensures exists x :: Legal(x) && Exactly(x, 0x20, 0x60)
  {
    hide Exactly, Legal;
    assert Pow2(5) == 32 && Pow2(6) == 64 && Pow2(7) == 128;
    assert Down(0x20, 5) == 0x20 && Down(0x20, 6) == 0 && Down(0x20, 7) == 0;
    assert SmallestCover(0x20, 0x60, 7);
    assert Multiple(0x20, 5) && Multiple(0x60, 5);
    EncodableAligned(0x20, 0x60, 7);
  }

  /** Across the middle: [0x70000000, 0x90000000) is accepted, but its upper half is not granted. */
  lemma CrossingExample()
    ensures Encode(0x7000_0000, 0x9000_0000, 31).Some?
    ensures Stops(0x7000_0000, 0x9000_0000, 31) && forall l :: 5 <= l < 31 ==> !Stops(0x7000_0000, 0x9000_0000, l)
    ensures !Exactly(Encode(0x7000_0000, 0x9000_0000, 31).value, 0x7000_0000, 0x9000_0000)
  {
    hide Pow2, Down, Multiple, Shr, Encode;
    var lo, hi := 0x7000_0000, 0x9000_0000;
    Halves(lo);
    Widths();
    Nibbles();
    EncodeIff(lo, hi, 31);
    forall l | 5 <= l < 31 ensures !Stops(lo, hi, l) { DownInside(lo, l, 31); }
    CrossingShort(lo, hi, 31);
  }

  lemma Nibbles()
    ensures Multiple(0x7000_0000, 28) && Multiple(0x9000_0000, 28)
  {
    hide Multiple, Pow2;
    PowerMultiple(28, 28);
    PowerMultiple(29, 28);
    PowerMultiple(30, 28);
    PowerMultiple(31, 28);
    NibblePowers();
    MultipleSum(Pow2(28), Pow2(29), 28);
    MultipleSum(Pow2(28) + Pow2(29), Pow2(30), 28);
    MultipleSum(Pow2(31), Pow2(28), 28);
  }

  lemma NibblePowers()
    ensures Pow2(28) == 0x1000_0000 && Pow2(29) == 0x2000_0000 && Pow2(30) == 0x4000_0000 && Pow2(31) == 0x8000_0000
  {
    assert Pow2(10) == 1024;
    assert Pow2(20) == 1024 * 1024;
  }
}
