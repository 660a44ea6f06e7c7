/**
 One word of the run queue's bitmap (kernel/sched/bitmap_rt.c): setting and
 clearing a bit, and finding the lowest one with the isolate-and-count trick.
 */
module Bitmap32 {

  type Word = bv32

  /** 1u << k */
  function Bit(k: nat): Word
    requires k < 32
  {
    if k == 0 then 0x1
    else if k == 1 then 0x2
    else if k == 2 then 0x4
    else if k == 3 then 0x8
    else if k == 4 then 0x10
    else if k == 5 then 0x20
    else if k == 6 then 0x40
    else if k == 7 then 0x80
    else if k == 8 then 0x100
    else if k == 9 then 0x200
    else if k == 10 then 0x400
    else if k == 11 then 0x800
    else if k == 12 then 0x1000
    else if k == 13 then 0x2000
    else if k == 14 then 0x4000
    else if k == 15 then 0x8000
    else if k == 16 then 0x10000
    else if k == 17 then 0x20000
    else if k == 18 then 0x40000
    else if k == 19 then 0x80000
    else if k == 20 then 0x100000
    else if k == 21 then 0x200000
    else if k == 22 then 0x400000
    else if k == 23 then 0x800000
    else if k == 24 then 0x1000000
    else if k == 25 then 0x2000000
    else if k == 26 then 0x4000000
    else if k == 27 then 0x8000000
    else if k == 28 then 0x10000000
    else if k == 29 then 0x20000000
    else if k == 30 then 0x40000000
    else 0x80000000
  }

  /** Number of leading zeros: ulmk_arch_cpu_clz(). */
  function Clz(x: Word): (n: nat)
    ensures n <= 32
  {
    if x >= 0x80000000 then 0
    else if x >= 0x40000000 then 1
    else if x >= 0x20000000 then 2
    else if x >= 0x10000000 then 3
    else if x >= 0x8000000 then 4
    else if x >= 0x4000000 then 5
    else if x >= 0x2000000 then 6
    else if x >= 0x1000000 then 7
    else if x >= 0x800000 then 8
    else if x >= 0x400000 then 9
    else if x >= 0x200000 then 10
    else if x >= 0x100000 then 11
    else if x >= 0x80000 then 12
    else if x >= 0x40000 then 13
    else if x >= 0x20000 then 14
    else if x >= 0x10000 then 15
    else if x >= 0x8000 then 16
    else if x >= 0x4000 then 17
    else if x >= 0x2000 then 18
    else if x >= 0x1000 then 19
    else if x >= 0x800 then 20
    else if x >= 0x400 then 21
    else if x >= 0x200 then 22
    else if x >= 0x100 then 23
    else if x >= 0x80 then 24
    else if x >= 0x40 then 25
    else if x >= 0x20 then 26
    else if x >= 0x10 then 27
    else if x >= 0x8 then 28
    else if x >= 0x4 then 29
    else if x >= 0x2 then 30
    else if x >= 0x1 then 31
    else 32
  }

  predicate Single(x: Word) {
    x != 0 && x & (x - 1) == 0
  }

  predicate Has(w: Word, x: Word) { Both(w, x) != 0 }

  function Marked(w: Word, x: Word): Word { w | x }

  function Cleared(w: Word, x: Word): Word { w & !x }

  /** w & -w */
  function LowBit(w: Word): Word { w & (0 - w) }

  predicate IsSet(w: Word, k: nat)
    requires k < 32
  {
    Has(w, Bit(k))
  }

  // ------------------------------------------------------- facts about words

  predicate Apart(x: Word, y: Word) { x & y == 0 }

  lemma OrderedApart(x: Word, y: Word)
    requires Single(x) && Single(y) && x < y
    ensures Apart(x, y) && Apart(y, x)
  {
  }

  function Both(w: Word, x: Word): Word { w & x }

  lemma WithApart(w: Word, x: Word, y: Word)
    requires Apart(x, y)
    ensures Both(Marked(w, x), y) == Both(w, y)
  {
  }

  lemma WithoutApart(w: Word, x: Word, y: Word)
    requires Apart(x, y)
    ensures Both(Cleared(w, x), y) == Both(w, y)
  {
  }

  lemma WithSame(w: Word, x: Word)
    ensures Both(Marked(w, x), x) == x && Both(Cleared(w, x), x) == 0
  {
    assert (w | x) & x == x;
    assert (w & !x) & x == 0;
  }

  lemma LowBitIs(w: Word)
    requires w != 0
    ensures Single(LowBit(w)) && Has(w, LowBit(w))
  {
  }

  lemma LowBitLeast(w: Word, y: Word)
    requires w != 0 && Single(y) && y < LowBit(w)
    ensures !Has(w, y)
  {
  }

  // ------------------------------------------------------- bits by position

  lemma BitIsSingle(k: nat)
    requires k < 32
    ensures Single(Bit(k))
  {
  }

  lemma BitOrder(j: nat, k: nat)
    requires j < k < 32
    ensures Bit(j) < Bit(k)
  {
  }

  lemma Position0(x: Word) returns (k: nat)
    requires Single(x) && x < 0x100
    ensures k < 32 && Bit(k) == x
  {
    if x == 0x1 { k := 0; }
    else if x == 0x2 { k := 1; }
    else if x == 0x4 { k := 2; }
    else if x == 0x8 { k := 3; }
    else if x == 0x10 { k := 4; }
    else if x == 0x20 { k := 5; }
    else if x == 0x40 { k := 6; }
    else { k := 7; }
  }

  lemma Position1(x: Word) returns (k: nat)
    requires Single(x) && x >= 0x100 && x < 0x10000
    ensures k < 32 && Bit(k) == x
  {
    if x == 0x100 { k := 8; }
    else if x == 0x200 { k := 9; }
    else if x == 0x400 { k := 10; }
    else if x == 0x800 { k := 11; }
    else if x == 0x1000 { k := 12; }
    else if x == 0x2000 { k := 13; }
    else if x == 0x4000 { k := 14; }
    else { k := 15; }
  }

  lemma Position2(x: Word) returns (k: nat)
    requires Single(x) && x >= 0x10000 && x < 0x1000000
    ensures k < 32 && Bit(k) == x
  {
    if x == 0x10000 { k := 16; }
    else if x == 0x20000 { k := 17; }
    else if x == 0x40000 { k := 18; }
    else if x == 0x80000 { k := 19; }
    else if x == 0x100000 { k := 20; }
    else if x == 0x200000 { k := 21; }
    else if x == 0x400000 { k := 22; }
    else { k := 23; }
  }

  lemma Position3(x: Word) returns (k: nat)
    requires Single(x) && x >= 0x1000000
    ensures k < 32 && Bit(k) == x
  {
    if x == 0x1000000 { k := 24; }
    else if x == 0x2000000 { k := 25; }
    else if x == 0x4000000 { k := 26; }
    else if x == 0x8000000 { k := 27; }
    else if x == 0x10000000 { k := 28; }
    else if x == 0x20000000 { k := 29; }
    else if x == 0x40000000 { k := 30; }
    else { k := 31; }
  }

  lemma Position(x: Word) returns (k: nat)
    requires Single(x)
    ensures k < 32 && Bit(k) == x
  {
    hide Bit, Single;
    if x < 0x100 {
      k := Position0(x);
    } else if x < 0x10000 {
      k := Position1(x);
    } else if x < 0x1000000 {
      k := Position2(x);
    } else {
      k := Position3(x);
    }
  }

  lemma ClzOfBit(k: nat)
    requires k < 32
    ensures Clz(Bit(k)) == 31 - k
  {
  }

  /** For a word with one bit, the leading zeros give its position. */
  lemma ClzOfSingle(x: Word)
    requires Single(x)
    ensures Clz(x) <= 31 && Bit(31 - Clz(x)) == x
  {
    hide Clz, Bit, Single;
    var k := Position(x);
    ClzOfBit(k);
  }

  lemma BitsApart(j: nat, k: nat)
    requires j < 32 && k < 32 && j != k
    ensures Apart(Bit(j), Bit(k))
  {
    hide Bit, Single, Apart;
    BitIsSingle(j);
    BitIsSingle(k);
    if j < k {
      BitOrder(j, k);
      OrderedApart(Bit(j), Bit(k));
    } else {
      BitOrder(k, j);
      OrderedApart(Bit(k), Bit(j));
    }
  }

  lemma BitNotZero(k: nat)
    requires k < 32
    ensures Bit(k) != 0
  {
  }

  /** bitmap_set() on one word. */
  lemma SetBit(w: Word, k: nat, j: nat)
    requires k < 32 && j < 32
    ensures IsSet(Marked(w, Bit(k)), j) <==> j == k || IsSet(w, j)
  {
    hide Bit, Single, Both, Marked, Apart;
    BitNotZero(k);
    if j == k {
      WithSame(w, Bit(k));
    } else {
      BitsApart(k, j);
      WithApart(w, Bit(k), Bit(j));
    }
  }

  /** bitmap_clear() on one word. */
  lemma ClearBit(w: Word, k: nat, j: nat)
    requires k < 32 && j < 32
    ensures IsSet(Cleared(w, Bit(k)), j) <==> j != k && IsSet(w, j)
  {
    hide Bit, Single, Both, Cleared, Apart;
    if j == k {
      WithSame(w, Bit(k));
    } else {
      BitsApart(k, j);
      WithoutApart(w, Bit(k), Bit(j));
    }
  }

  /** 31 - clz(w & -w) */
  function Lowest(w: Word): int {
    31 - Clz(LowBit(w))
  }

  /** The trick finds the lowest set bit. */
  lemma LowestIs(w: Word)
    requires w != 0
    ensures 0 <= Lowest(w) < 32 && IsSet(w, Lowest(w)) && forall j :: 0 <= j < Lowest(w) ==> !IsSet(w, j)
  {
    hide Bit, Clz, Single, Has, LowBit;
    LowBitIs(w);
    ClzOfSingle(LowBit(w));
    var k := Lowest(w);
    forall j | 0 <= j < k ensures !IsSet(w, j) {
      BitIsSingle(j);
      BitOrder(j, k);
      LowBitLeast(w, Bit(j));
    }
  }
}
