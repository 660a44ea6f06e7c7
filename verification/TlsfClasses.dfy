/**
 Size classes of the TLSF heap (kernel/mem/tlsf.c): a first level per power of
 two and four second-level classes inside each.  mapping_insert() rounds a size
 down to its class, mapping_search() rounds a request up, so that every block of
 the class found (or of a higher one) is large enough.
 */
module TlsfClasses {
  import opened Powers

  const SL_COUNT := 4
  const FL_BASE := 6
  const FL_COUNT := 24

  /** Pools stay below this size (kernel/mem/tlsf.c:26). */
  const POOL_LIMIT := 0x2000_0000

  /** Above this the 32-bit rounding of mapping_search() would wrap. */
  const REQUEST_LIMIT := 0xE000_0000

  const WORD_LIMIT := 0x1_0000_0000

  /** FLS: position of the highest set bit. */
  function Fls(x: nat): (f: nat)
    requires x > 0
    ensures Pow2(f) <= x < 2 * Pow2(f)
  {
    if x == 1 then 0 else Fls(x / 2) + 1
  }

  lemma FlsUnique(x: nat, f: nat)
    requires Pow2(f) <= x < 2 * Pow2(f)
    ensures Fls(x) == f
  {
    if Fls(x) < f { Pow2Monotone(Fls(x), f); }
    if f < Fls(x) { Pow2Monotone(f, Fls(x)); }
  }

  datatype Class = Class(fl: nat, sl: nat) {
    function Rank(): nat { SL_COUNT * fl + sl }
  }

  function Cap(f: nat): nat {
    if f < FL_BASE then 0 else if f - FL_BASE >= FL_COUNT then FL_COUNT - 1 else f - FL_BASE
  }

  function MappingInsert(size: nat): Class
    requires size >= 64
  {
    var f := Fls(size);
    FlsAtLeast(size);
    Class(Cap(f), (size / Pow2(f - 2)) % SL_COUNT)
  }

  /** x & ~(g - 1) with g a power of two. */
  function Floor(x: nat, g: nat): nat
    requires g > 0
  {
    x / g * g
  }

  /** (size + round) & ~round with round = g - 1. */
  function RoundUp(size: nat, g: nat): nat
    requires g > 0
  {
    Floor(size + g - 1, g)
  }

  /** The request rounded up to a class boundary. */
  function SearchSize(size: nat): (r: nat)
    requires 64 <= size <= REQUEST_LIMIT
    ensures r >= size
  {
    FlsAtLeast(size);
    RoundUpBounds(size, Pow2(Fls(size) - 2));
    RoundUp(size, Pow2(Fls(size) - 2))
  }

  /** mapping_search(): past the rounding it files the size as mapping_insert() does. */
  function MappingSearch(size: nat): Class
    requires 64 <= size <= REQUEST_LIMIT
  {
    MappingInsert(SearchSize(size))
  }

  lemma FlsAtLeast(size: nat)
    requires size >= 64
    ensures Fls(size) >= 6
  {
    assert Pow2(6) == 64;
    if Fls(size) < 6 { Pow2Monotone(Fls(size), 6); }
  }

  lemma RoundUpBounds(size: nat, g: nat)
    requires g > 0
    ensures size <= RoundUp(size, g) < size + g && RoundUp(size, g) % g == 0
  {
    var q := (size + g - 1) / g;
    assert size + g - 1 == q * g + (size + g - 1) % g;
    MultipleMod(q, g);
  }

  /** Quotient of a size by a quarter of its power of two. */
  lemma Quarter(size: nat, g: nat)
    requires g > 0 && 4 * g <= size < 8 * g
    ensures 4 <= size / g < 8 && size / g * g <= size < size / g * g + g
    ensures 4 + (size / g) % 4 == size / g
  {
    var q := size / g;
    assert size == q * g + size % g;
    if q < 4 { MulMonotone(q + 1, 4, g); }
    if q >= 8 { MulMonotone(8, q, g); }
  }

  /** The request as ulmk_heap_alloc() rounds it, in 32 bits. */
  function Request32(size: nat): nat {
    Floor((size + 63) % WORD_LIMIT, 64)
  }

  /** The size whose class mapping_search() takes the logarithm of, in 32 bits. */
  function Search32(size: nat): nat {
    if size < 64 then size else
    FlsAtLeast(size);
    var g := Pow2(Fls(size) - 2);
    Floor((size + g - 1) % WORD_LIMIT, g)
  }

  lemma TopQuarter(size: nat)
    requires REQUEST_LIMIT < size < WORD_LIMIT
    ensures Search32(size) == 0
  {
    hide Fls, Pow2;
    TopPowers();
    FlsUnique(size, 31);
    FlsAtLeast(size);
    DivUnique(size + 0x2000_0000 - 1 - WORD_LIMIT, 0x2000_0000, 0, size + 0x2000_0000 - 1 - WORD_LIMIT);
  }

  lemma TopPowers()
    ensures Pow2(29) == 0x2000_0000 && Pow2(31) == 0x8000_0000
  {
    assert Pow2(10) == 1024;
    assert Pow2(20) == 1024 * 1024;
  }

  lemma NoWrapBelow(size: nat)
    requires 64 <= size <= REQUEST_LIMIT
    ensures Search32(size) == SearchSize(size) >= size
  {
    hide Pow2, Fls, Floor;
    FlsAtLeast(size);
    var f := Fls(size);
    TopPowers();
    if f >= 31 { Pow2Monotone(31, f); }
    Pow2Monotone(f - 2, 29);
    assert (size + Pow2(f - 2) - 1) % WORD_LIMIT == size + Pow2(f - 2) - 1;
  }

  /**
   A search for n bytes, n reduced to 32 bits, is defined (the logarithm of zero is not)
   and looks for no less than n, exactly if n is at most REQUEST_LIMIT.
   */
  lemma SearchDefined(n: nat)
    requires n >= 64
    ensures Search32(n % WORD_LIMIT) != 0 && n % WORD_LIMIT >= n <==> n <= REQUEST_LIMIT
  {
    hide Search32, SearchSize, Floor, RoundUp, Fls, Pow2;
    if n <= REQUEST_LIMIT {
      NoWrapBelow(n);
    } else if n < WORD_LIMIT {
      TopQuarter(n);
    }
  }

  /** So for a request of ulmk_heap_alloc(): beyond REQUEST_LIMIT what it searches for is zero. */
  lemma RequestDefined(size: nat)
    requires 0 < size < WORD_LIMIT
    ensures Request32(size) == (if size <= WORD_LIMIT - 64 then RoundUp(size, 64) else 0)
    ensures Search32(Request32(size)) != 0 <==> size <= REQUEST_LIMIT
  {
    hide Search32, SearchSize, Fls, Pow2;
    if size <= WORD_LIMIT - 64 {
      RoundUpBounds(size, 64);
      SearchDefined(RoundUp(size, 64));
    } else {
      ZeroSearch();
    }
  }

  /** The first request beyond: what is searched for is zero. */
  lemma RequestExample()
    ensures Request32(0xE000_0001) == 0xE000_0040 && Search32(0xE000_0040) == 0
  {
    TopQuarter(0xE000_0040);
  }

  lemma ZeroSearch()
    ensures Search32(0) == 0
  {
  }

  lemma PoolLimitIsPow2()
    ensures Pow2(29) == POOL_LIMIT
  {
    assert Pow2(10) == 1024;
    assert Pow2(20) == 1024 * 1024;
  }

  /** Smallest size of a class. */
  function ClassLo(c: Class): nat {
    (4 + c.sl) * Pow2(c.fl + 4)
  }

  lemma LoOrder(i: nat, p: nat, j: nat, q: nat)
    requires i < 4 && j < 4 && (2 * p <= q || (p == q && i < j))
    ensures (4 + i) * p + p <= (4 + j) * q
  {
    MulMonotone(4, 4 + j, q);
    MulMonotone(5 + i, 8, p);
    if p == q && i < j { MulMonotone(5 + i, 4 + j, p); }
  }

  /** Classes in rank order cover increasing, non-overlapping ranges of sizes. */
  lemma ClassOrder(a: Class, b: Class)
    requires a.sl < SL_COUNT && b.sl < SL_COUNT && a.Rank() < b.Rank()
    ensures ClassLo(a) + Pow2(a.fl + 4) <= ClassLo(b)
  {
    Pow2Monotone(a.fl + 4, b.fl + 4);
    LoOrder(a.sl, Pow2(a.fl + 4), b.sl, Pow2(b.fl + 4));
  }

  /** The class a size is filed under really contains it. */
  lemma InsertClass(size: nat)
    requires 64 <= size < POOL_LIMIT
    ensures var c := MappingInsert(size);
            && c.sl < SL_COUNT && c.fl < FL_COUNT - 1
            && ClassLo(c) <= size < ClassLo(c) + Pow2(c.fl + 4)
  {
    var f := Fls(size);
    FlsAtLeast(size);
    PoolLimitIsPow2();
    if f >= 29 { Pow2Monotone(29, f); }
    var g := Pow2(f - 2);
    assert Pow2(f) == 2 * Pow2(f - 1) == 4 * g;
    Quarter(size, g);
    var c := MappingInsert(size);
    assert c.fl == f - 6 && c.sl == (size / g) % 4;
    assert ClassLo(c) == size / g * g;
  }

  /** Rounding up to a quarter of the power of two reaches at most the next power of two. */
  lemma RoundedQuarter(size: nat, g: nat) returns (q: nat)
    requires g > 0 && 4 * g <= size < 8 * g
    ensures RoundUp(size, g) == q * g && 4 <= q <= 8 && size <= q * g < size + g
  {
    RoundUpBounds(size, g);
    q := (size + g - 1) / g;
    assert RoundUp(size, g) == q * g;
    if q < 4 { MulMonotone(q, 3, g); }
    if q > 8 { MulMonotone(9, q, g); }
  }

  /** r is p times 4, 5, 6 or 7. */
  predicate IsBoundary(r: nat, p: nat) {
    p > 0 && r == (4 + (r / p) % 4) * p
  }

  lemma BoundaryOf(q: nat, p: nat)
    requires p > 0 && 4 <= q < 8
    ensures IsBoundary(q * p, p)
  {
    MultipleMod(q, p);
    assert 4 + q % 4 == q;
  }

  lemma QuarterPowers(f: nat)
    requires f >= 6
    ensures Pow2(f - 2) >= 16 && Pow2(f - 1) == 2 * Pow2(f - 2) && Pow2(f) == 4 * Pow2(f - 2)
    ensures Pow2(f + 1) == 8 * Pow2(f - 2)
  {
    Pow2Monotone(4, f - 2);
    assert Pow2(4) == 16;
    assert Pow2(f) == 2 * Pow2(f - 1);
  }

  lemma RoundedFls(r: nat, f: nat, q: nat)
    requires f >= 6 && 4 <= q <= 8 && r == q * Pow2(f - 2)
    ensures r >= 64 && Fls(r) >= 6 && IsBoundary(r, Pow2(Fls(r) - 2))
  {
    hide Fls, Pow2, IsBoundary;
    QuarterPowers(f);
    var g := Pow2(f - 2);
    MulMonotone(4, q, g);
    if q == 8 {
      FlsUnique(r, f + 1);
      BoundaryOf(4, 2 * g);
    } else {
      MulMonotone(q, 7, g);
      FlsUnique(r, f);
      BoundaryOf(q, g);
    }
  }

  /** The rounded request is a class boundary less than a quarter above the request. */
  lemma SearchRounded(size: nat)
    requires 64 <= size <= REQUEST_LIMIT
    ensures var r := SearchSize(size);
            4 * r < 5 * size && Fls(r) >= 6 && IsBoundary(r, Pow2(Fls(r) - 2))
  {
    hide RoundUp, Fls, Pow2, IsBoundary;
    FlsAtLeast(size);
    var f := Fls(size);
    QuarterPowers(f);
    var q := RoundedQuarter(size, Pow2(f - 2));
    RoundedFls(q * Pow2(f - 2), f, q);
  }

  lemma BoundaryClass(r: nat)
    requires r >= 64 && 6 <= Fls(r) < 29 && IsBoundary(r, Pow2(Fls(r) - 2))
    ensures ClassLo(MappingInsert(r)) == r && MappingInsert(r).fl < FL_COUNT - 1
  {
    hide Fls, Pow2;
    assert MappingInsert(r).fl + 4 == Fls(r) - 2;
  }

  lemma ClassRange(r: nat)
    requires r >= 64
    ensures MappingInsert(r).sl < SL_COUNT && MappingInsert(r).fl < FL_COUNT
    ensures Fls(r) >= 29 ==> MappingInsert(r).fl == FL_COUNT - 1
  {
    hide Fls, Pow2;
    FlsAtLeast(r);
  }

  lemma BeyondPool(r: nat)
    requires r > 0 && Fls(r) >= 29
    ensures r >= POOL_LIMIT
  {
    hide Fls;
    PoolLimitIsPow2();
    Pow2Monotone(29, Fls(r));
  }

  /**
   A request is searched from a class whose smallest size is at least the request
   and less than a quarter above it.
   */
  lemma SearchClass(size: nat)
    requires 64 <= size <= REQUEST_LIMIT
    ensures var c := MappingSearch(size);
            && c.sl < SL_COUNT && c.fl < FL_COUNT
            && (c.fl < FL_COUNT - 1 ==> size <= ClassLo(c) && 4 * ClassLo(c) < 5 * size)
            && (c.fl == FL_COUNT - 1 ==> 4 * POOL_LIMIT < 5 * size)
  {
    hide SearchSize, ClassLo, Fls, Pow2, MappingInsert, IsBoundary;
    var r := SearchSize(size);
    SearchRounded(size);
    ClassRange(r);
    if Fls(r) >= 29 { BeyondPool(r); } else { BoundaryClass(r); }
  }
}
