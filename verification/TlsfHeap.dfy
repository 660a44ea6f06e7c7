/**
 The TLSF heap (kernel/mem/tlsf.c).

 `hdr` is the pool's memory as far as the allocator reads it: the block headers
 by address.  A bitmap word is the set of its set bits, and a segregated free
 list is the sequence of its blocks from the head; an address of None is NULL.
 The ghost field `l` is the physical layout the headers describe.
 */
module TlsfHeap {
  import opened Powers
  import opened Sequences
  import opened TlsfClasses
  import opened TlsfLayout

  datatype Hdr = Hdr(prev: Option<nat>, size: nat, free: bool)

  /** Addresses of the free blocks of one size class. */
  ghost function Filed(free: set<Blk>, c: Class): set<nat> {
    set b | b in free && b.size >= HDR && MappingInsert(b.size) == c :: b.addr
  }

  ghost function Members(s: seq<nat>): set<nat> {
    set x | x in s
  }

  lemma WithoutMembers(s: seq<nat>, a: nat)
    requires Distinct(s)
    ensures Distinct(Without(s, a)) && Members(Without(s, a)) == Members(s) - {a}
  {
    WithoutIs(s, a);
  }

  /** The two bitmap levels and the free lists, as far as they must agree with the layout. */
  ghost predicate ListsOk(lists: map<Class, seq<nat>>, free: set<Blk>) {
    forall c :: Distinct(ListIn(lists, c)) && Members(ListIn(lists, c)) == Filed(free, c)
  }

  function ListIn(lists: map<Class, seq<nat>>, c: Class): seq<nat> {
    if c in lists then lists[c] else []
  }

  ghost predicate BitsOk(fl: set<nat>, sl: seq<set<nat>>, lists: map<Class, seq<nat>>) {
    && |sl| == FL_COUNT
    && (forall f, s :: 0 <= f < FL_COUNT ==> (s in sl[f] <==> 0 <= s < SL_COUNT && ListIn(lists, Class(f, s)) != []))
    && (forall f :: f in fl <==> 0 <= f < FL_COUNT && sl[f] != {})
  }

  ghost predicate HeaderAt(hdr: map<nat, Hdr>, l: Layout, i: nat)
    requires i < |l|
  {
    && l[i].addr in hdr
    && hdr[l[i].addr] == Hdr(if i == 0 then None else Some(l[i - 1].addr), l[i].size, l[i].free)
  }

  /** The headers at the layout's addresses, and the sentinel after the last one. */
  ghost predicate HeadersOk(hdr: map<nat, Hdr>, l: Layout, hi: nat) {
    && (forall i :: 0 <= i < |l| ==> HeaderAt(hdr, l, i))
    && hi in hdr && (l != [] ==> hdr[hi] == Hdr(Some(l[|l| - 1].addr), 0, false))
  }

  lemma FiledAfterInsert(free: set<Blk>, b: Blk, c: Class)
    requires b.size >= HDR
    ensures Filed(free + {b}, c) == Filed(free, c) + (if MappingInsert(b.size) == c then {b.addr} else {})
  {
  }

  lemma FiledAfterRemove(free: set<Blk>, b: Blk, c: Class)
    requires b in free && b.size >= HDR && forall x :: x in free && x.addr == b.addr ==> x == b
    ensures Filed(free - {b}, c) == Filed(free, c) - (if MappingInsert(b.size) == c then {b.addr} else {})
  {
    if MappingInsert(b.size) != c { assert b.addr !in Filed(free, c); }
  }

  lemma InsertListsOk(lists: map<Class, seq<nat>>, free: set<Blk>, b: Blk)
    requires ListsOk(lists, free) && b.size >= HDR && forall x :: x in free ==> x.addr != b.addr
    ensures var c := MappingInsert(b.size); ListsOk(lists[c := [b.addr] + ListIn(lists, c)], free + {b})
  {
    var k := MappingInsert(b.size);
    var lists' := lists[k := [b.addr] + ListIn(lists, k)];
    forall c ensures Distinct(ListIn(lists', c)) && Members(ListIn(lists', c)) == Filed(free + {b}, c) {
      FiledAfterInsert(free, b, c);
      assert b.addr !in Members(ListIn(lists, c));
    }
  }

  lemma RemoveListsOk(lists: map<Class, seq<nat>>, free: set<Blk>, b: Blk)
    requires ListsOk(lists, free) && b in free && b.size >= HDR
    requires forall x :: x in free && x.addr == b.addr ==> x == b
    ensures var c := MappingInsert(b.size); ListsOk(lists[c := Without(ListIn(lists, c), b.addr)], free - {b})
  {
    var k := MappingInsert(b.size);
    var lists' := lists[k := Without(ListIn(lists, k), b.addr)];
    forall c ensures Distinct(ListIn(lists', c)) && Members(ListIn(lists', c)) == Filed(free - {b}, c) {
      FiledAfterRemove(free, b, c);
      WithoutMembers(ListIn(lists, c), b.addr);
    }
  }

  lemma InsertBitsOk(fl: set<nat>, sl: seq<set<nat>>, lists: map<Class, seq<nat>>, c: Class, s: seq<nat>)
    requires BitsOk(fl, sl, lists) && c.fl < FL_COUNT && c.sl < SL_COUNT && s != []
    ensures BitsOk(fl + {c.fl}, sl[c.fl := sl[c.fl] + {c.sl}], lists[c := s])
  {
  }

  /** remove_free() clears a second-level bit with the last block, and a first-level bit with the last of those. */
  function ClearedSl(sl: seq<set<nat>>, c: Class, s: seq<nat>): seq<set<nat>>
    requires c.fl < |sl|
  {
    if s == [] then sl[c.fl := sl[c.fl] - {c.sl}] else sl
  }

  function ClearedFl(fl: set<nat>, sl: seq<set<nat>>, c: Class, s: seq<nat>): set<nat>
    requires c.fl < |sl|
  {
    if s == [] && ClearedSl(sl, c, s)[c.fl] == {} then fl - {c.fl} else fl
  }

  lemma RemoveBitsOk(fl: set<nat>, sl: seq<set<nat>>, lists: map<Class, seq<nat>>, c: Class, s: seq<nat>)
    requires BitsOk(fl, sl, lists) && c.fl < FL_COUNT && c.sl < SL_COUNT && ListIn(lists, c) != []
    ensures BitsOk(ClearedFl(fl, sl, c, s), ClearedSl(sl, c, s), lists[c := s])
  {
    assert c == Class(c.fl, c.sl);
  }

  lemma MarkHeadersOk(hdr: map<nat, Hdr>, l: Layout, lo: nat, hi: nat, i: nat, free: bool)
    requires Tiled(l, lo, hi) && HeadersOk(hdr, l, hi) && i < |l|
    ensures l[i].addr in hdr && HeadersOk(hdr[l[i].addr := hdr[l[i].addr].(free := free)], Mark(l, i, free), hi)
  {
    assert HeaderAt(hdr, l, i);
    var hdr' := hdr[l[i].addr := hdr[l[i].addr].(free := free)];
    var l' := Mark(l, i, free);
    AddrsDistinct(l, lo, hi);
    forall k | 0 <= k < |l'| ensures HeaderAt(hdr', l', k) { assert HeaderAt(hdr, l, k); }
  }

  lemma SizeInPool(l: Layout, lo: nat, hi: nat, i: nat)
    requires Tiled(l, lo, hi) && i < |l|
    ensures l[i].addr + HDR + l[i].size <= hi && lo <= l[i].addr && l[i].size < hi - lo
    ensures l[i].addr % HDR == 0
  {
    EndsInside(l, lo, hi, i);
    StartsInside(l, lo, hi, i);
  }

  lemma AddrsDistinct(l: Layout, lo: nat, hi: nat)
    requires Tiled(l, lo, hi)
    ensures forall i, j :: 0 <= i < j < |l| ==> l[i].addr < l[j].addr
    ensures forall i :: 0 <= i < |l| ==> l[i].addr < hi
  {
    forall i, j | 0 <= i < j < |l| ensures l[i].addr < l[j].addr { Apart(l, lo, hi, i, j); }
    forall i | 0 <= i < |l| ensures l[i].addr < hi { EndsInside(l, lo, hi, i); }
  }

  /** Everything but the absence of free neighbours, which single steps break and restore. */
  ghost predicate CoreOf(hdr: map<nat, Hdr>, fl: set<nat>, sl: seq<set<nat>>, lists: map<Class, seq<nat>>,
                         bytes: int, l: Layout, lo: nat, hi: nat)
  {
    && (l == [] || Tiled(l, lo, hi)) && lo <= hi && hi - lo < POOL_LIMIT
    && HeadersOk(hdr, l, hi)
    && ListsOk(lists, Blocks(l, true))
    && BitsOk(fl, sl, lists)
    && bytes == FreeSum(l)
  }

  lemma InsertCore(hdr: map<nat, Hdr>, fl: set<nat>, sl: seq<set<nat>>, lists: map<Class, seq<nat>>,
                   bytes: int, l: Layout, lo: nat, hi: nat, i: nat)
    requires CoreOf(hdr, fl, sl, lists, bytes, l, lo, hi) && i < |l| && !l[i].free
    ensures l[i].addr in hdr && hdr[l[i].addr].size == l[i].size >= HDR
    ensures var a := l[i].addr; var c := MappingInsert(l[i].size);
            && c.fl < |sl|
            && CoreOf(hdr[a := hdr[a].(free := true)], fl + {c.fl}, sl[c.fl := sl[c.fl] + {c.sl}],
                      lists[c := [a] + ListIn(lists, c)], bytes + l[i].size, Mark(l, i, true), lo, hi)
  {
    var c := MappingInsert(l[i].size);
    MarkTiled(l, lo, hi, i, true);
    MarkFree(l, lo, hi, i);
    MarkFreeSum(l, i, true);
    MarkHeadersOk(hdr, l, lo, hi, i, true);
    SizeInPool(l, lo, hi, i);
    InsertClass(l[i].size);
    InsertListsOk(lists, Blocks(l, true), l[i].(free := true));
    assert HeaderAt(hdr, l, i);
    InsertBitsOk(fl, sl, lists, c, [l[i].addr] + ListIn(lists, c));
  }

  lemma RemoveCore(hdr: map<nat, Hdr>, fl: set<nat>, sl: seq<set<nat>>, lists: map<Class, seq<nat>>,
                   bytes: int, l: Layout, lo: nat, hi: nat, i: nat)
    requires CoreOf(hdr, fl, sl, lists, bytes, l, lo, hi) && i < |l| && l[i].free
    ensures l[i].addr in hdr && hdr[l[i].addr].size == l[i].size >= HDR
    ensures var a := l[i].addr; var c := MappingInsert(l[i].size); var rest := Without(ListIn(lists, c), a);
            && c.fl < |sl|
            && CoreOf(hdr[a := hdr[a].(free := false)], ClearedFl(fl, sl, c, rest), ClearedSl(sl, c, rest),
                      lists[c := rest], bytes - l[i].size, Mark(l, i, false), lo, hi)
  {
    var c := MappingInsert(l[i].size);
    MarkTiled(l, lo, hi, i, false);
    MarkFree(l, lo, hi, i);
    MarkFreeSum(l, i, false);
    MarkHeadersOk(hdr, l, lo, hi, i, false);
    SizeInPool(l, lo, hi, i);
    InsertClass(l[i].size);
    assert l[i] in Blocks(l, true);
    RemoveListsOk(lists, Blocks(l, true), l[i]);
    assert HeaderAt(hdr, l, i);
    assert l[i].addr in Filed(Blocks(l, true), c) && l[i].addr in Members(ListIn(lists, c));
    RemoveBitsOk(fl, sl, lists, c, Without(ListIn(lists, c), l[i].addr));
  }

  /** A used block cut in two used blocks: three headers are written. */
  lemma CutCore(hdr: map<nat, Hdr>, fl: set<nat>, sl: seq<set<nat>>, lists: map<Class, seq<nat>>,
                bytes: int, l: Layout, lo: nat, hi: nat, i: nat, p: nat)
    requires CoreOf(hdr, fl, sl, lists, bytes, l, lo, hi) && i < |l| && !l[i].free
    requires p % HDR == 0 && HDR <= p && p + 2 * HDR <= l[i].size
    ensures l[i].addr in hdr && l[i].End() in hdr
    ensures CoreOf(CutHeaders(hdr, l[i], p), fl, sl, lists, bytes, Split(l, i, p, false, false), lo, hi)
  {
    SplitTiled(l, lo, hi, i, p, false, false);
    CutUsedKeepsFree(l, i, p);
    SplitFreeSum(l, i, p, false, false);
    CutHeadersOk(hdr, l, lo, hi, i, p);
  }

  function CutHeaders(hdr: map<nat, Hdr>, b: Blk, p: nat): map<nat, Hdr>
    requires b.addr in hdr && b.End() in hdr && p + HDR <= b.size
  {
    var rem := b.addr + HDR + p;
    var next := b.End();
    hdr[rem := Hdr(Some(b.addr), b.size - p - HDR, false)][next := hdr[next].(prev := Some(rem))]
       [b.addr := hdr[b.addr].(size := p)]
  }

  lemma CutHeadersOk(hdr: map<nat, Hdr>, l: Layout, lo: nat, hi: nat, i: nat, p: nat)
    requires Tiled(l, lo, hi) && HeadersOk(hdr, l, hi) && i < |l| && !l[i].free
    requires HDR <= p && p + 2 * HDR <= l[i].size
    ensures l[i].addr in hdr && l[i].End() in hdr
    ensures HeadersOk(CutHeaders(hdr, l[i], p), Split(l, i, p, false, false), hi)
  {
    assert HeaderAt(hdr, l, i);
    if i + 1 < |l| { assert HeaderAt(hdr, l, i + 1); }
    var l' := Split(l, i, p, false, false);
    var hdr' := CutHeaders(hdr, l[i], p);
    forall k | 0 <= k < |l'| ensures HeaderAt(hdr', l', k) {
      CutHeaderAt(hdr, l, lo, hi, i, p, k);
    }
    if i == |l| - 1 { EndsInside(l, lo, hi, i); } else { Apart(l, lo, hi, i, |l| - 1); }
    assert l'[|l'| - 1] == if i == |l| - 1 then l'[i + 1] else l[|l| - 1];
  }

  lemma CutHeaderAt(hdr: map<nat, Hdr>, l: Layout, lo: nat, hi: nat, i: nat, p: nat, k: nat)
    requires Tiled(l, lo, hi) && HeadersOk(hdr, l, hi) && i < |l| && !l[i].free
    requires HDR <= p && p + 2 * HDR <= l[i].size && k <= |l|
    requires l[i].addr in hdr && l[i].End() in hdr
    ensures HeaderAt(CutHeaders(hdr, l[i], p), Split(l, i, p, false, false), k)
  {
    if k < i {
      assert HeaderAt(hdr, l, k);
      Apart(l, lo, hi, k, i);
    } else if k <= i + 1 {
      assert HeaderAt(hdr, l, i);
    } else {
      CutHeaderAfter(hdr, l, lo, hi, i, p, k);
    }
  }

  lemma CutHeaderAfter(hdr: map<nat, Hdr>, l: Layout, lo: nat, hi: nat, i: nat, p: nat, k: nat)
    requires Tiled(l, lo, hi) && HeadersOk(hdr, l, hi)
    requires HDR <= p && i + 1 < k <= |l| && p + 2 * HDR <= l[i].size
    requires l[i].addr in hdr && l[i].End() in hdr
    ensures HeaderAt(CutHeaders(hdr, l[i], p), Split(l, i, p, false, false), k)
  {
    var l' := Split(l, i, p, false, false);
    assert HeaderAt(hdr, l, k - 1);
    Apart(l, lo, hi, i, k - 1);
    assert l'[k] == l[k - 1];
    if k > i + 2 {
      assert l'[k - 1] == l[k - 2];
      Apart(l, lo, hi, i + 1, k - 1);
    }
  }

  /** Two used neighbours become one: two headers are written. */
  function MergeHeaders(hdr: map<nat, Hdr>, b: Blk, n: Blk): map<nat, Hdr>
    requires b.addr in hdr && n.End() in hdr
  {
    hdr[b.addr := hdr[b.addr].(size := b.size + HDR + n.size)][n.End() := hdr[n.End()].(prev := Some(b.addr))]
  }

  lemma MergeHeaderAt(hdr: map<nat, Hdr>, l: Layout, lo: nat, hi: nat, i: nat, k: nat)
    requires Tiled(l, lo, hi) && HeadersOk(hdr, l, hi) && i + 1 < |l| && k < |l| - 1
    requires l[i].addr in hdr && l[i + 1].End() in hdr
    ensures HeaderAt(MergeHeaders(hdr, l[i], l[i + 1]), Merge(l, i), k)
  {
    var l' := Merge(l, i);
    Apart(l, lo, hi, i, i + 1);
    if k < i {
      assert HeaderAt(hdr, l, k);
      Apart(l, lo, hi, k, i);
      Apart(l, lo, hi, k, i + 1);
    } else if k == i {
      assert HeaderAt(hdr, l, i);
    } else {
      assert HeaderAt(hdr, l, k + 1);
      assert l'[k] == l[k + 1];
      Apart(l, lo, hi, i, k + 1);
      if k > i + 1 {
        assert l'[k - 1] == l[k];
        Apart(l, lo, hi, i + 2, k + 1);
      }
    }
  }

  lemma MergeCore(hdr: map<nat, Hdr>, fl: set<nat>, sl: seq<set<nat>>, lists: map<Class, seq<nat>>,
                  bytes: int, l: Layout, lo: nat, hi: nat, i: nat)
    requires CoreOf(hdr, fl, sl, lists, bytes, l, lo, hi) && i + 1 < |l| && !l[i].free && !l[i + 1].free
    ensures l[i].addr in hdr && l[i + 1].End() in hdr
    ensures CoreOf(MergeHeaders(hdr, l[i], l[i + 1]), fl, sl, lists, bytes, Merge(l, i), lo, hi)
  {
    MergeTiled(l, lo, hi, i);
    MergeUsedKeepsFree(l, i);
    MergeFreeSum(l, i);
    MergeHeadersOk(hdr, l, lo, hi, i);
  }

  lemma MergeHeadersOk(hdr: map<nat, Hdr>, l: Layout, lo: nat, hi: nat, i: nat)
    requires Tiled(l, lo, hi) && HeadersOk(hdr, l, hi) && i + 1 < |l|
    ensures l[i].addr in hdr && l[i + 1].End() in hdr
    ensures HeadersOk(MergeHeaders(hdr, l[i], l[i + 1]), Merge(l, i), hi)
  {
    assert HeaderAt(hdr, l, i);
    if i + 2 < |l| { assert HeaderAt(hdr, l, i + 2); }
    var l' := Merge(l, i);
    var hdr' := MergeHeaders(hdr, l[i], l[i + 1]);
    forall k | 0 <= k < |l'| ensures HeaderAt(hdr', l', k) { MergeHeaderAt(hdr, l, lo, hi, i, k); }
    Apart(l, lo, hi, i, |l| - 1);
    if i + 2 < |l| {
      Apart(l, lo, hi, i + 1, |l| - 1);
      assert l'[|l'| - 1] == l[|l| - 1];
    }
  }

  lemma HigherClassFits(have: nat, size: nat)
    requires 64 <= size <= REQUEST_LIMIT && HDR <= have < POOL_LIMIT
    requires MappingInsert(have).Rank() >= MappingSearch(size).Rank()
    ensures have >= size
  {
    var k := MappingInsert(have);
    var want := MappingSearch(size);
    SearchClass(size);
    InsertClass(have);
    if k.Rank() > want.Rank() { ClassOrder(want, k); } else { assert k == want; }
  }

  /** A block filed in class k, from the searched class upwards, is large enough. */
  lemma FoundFits(free: set<Blk>, k: Class, want: Class, size: nat, a: nat) returns (b: Blk)
    requires 64 <= size <= REQUEST_LIMIT && want == MappingSearch(size)
    requires forall x :: x in free ==> x.size < POOL_LIMIT
    requires a in Filed(free, k) && k.Rank() >= want.Rank()
    ensures b in free && b.addr == a && b.size >= size && MappingInsert(b.size) == k
  {
    b :| b in free && b.size >= HDR && MappingInsert(b.size) == k && b.addr == a;
    HigherClassFits(b.size, size);
  }

  /** A block filed below the searched class is less than a quarter larger than the request. */
  lemma MissedIsSmall(b: Blk, size: nat)
    requires 64 <= size <= REQUEST_LIMIT && HDR <= b.size < POOL_LIMIT
    requires MappingInsert(b.size).Rank() < MappingSearch(size).Rank()
    ensures 4 * b.size < 5 * size
  {
    var want := MappingSearch(size);
    SearchClass(size);
    InsertClass(b.size);
    if want.fl < FL_COUNT - 1 { ClassOrder(MappingInsert(b.size), want); }
  }

  ghost predicate InPool(l: Layout, lo: nat, hi: nat) {
    forall b :: b in Blocks(l, true) ==> HDR <= b.size < POOL_LIMIT
  }

  lemma PoolBlocks(l: Layout, lo: nat, hi: nat)
    requires (l == [] || Tiled(l, lo, hi)) && lo <= hi && hi - lo < POOL_LIMIT
    ensures InPool(l, lo, hi)
  {
    forall b | b in Blocks(l, true) ensures HDR <= b.size < POOL_LIMIT {
      var i :| 0 <= i < |l| && l[i] == b;
      SizeInPool(l, lo, hi, i);
    }
  }

  /** The bits show every non-empty class. */
  lemma FiledShows(fl: set<nat>, sl: seq<set<nat>>, lists: map<Class, seq<nat>>, free: set<Blk>, b: Blk)
    requires BitsOk(fl, sl, lists) && ListsOk(lists, free) && b in free && HDR <= b.size < POOL_LIMIT
    ensures var c := MappingInsert(b.size); c.fl in fl && c.fl < |sl| && c.sl in sl[c.fl] && c.sl < SL_COUNT
  {
    var c := MappingInsert(b.size);
    InsertClass(b.size);
    assert b.addr in Filed(free, c) && b.addr in Members(ListIn(lists, c));
    assert c == Class(c.fl, c.sl);
  }

  /** __builtin_ctz on a non-zero word. */
  method Ctz(word: set<nat>) returns (k: nat)
    requires word != {} && forall b :: b in word ==> b < 32
    ensures k in word && forall b :: b in word ==> k <= b
  {
    k := 0;
    while k !in word
      invariant forall b :: b in word ==> k <= b
      decreases 32 - k
    {
      k := k + 1;
    }
  }

  /** The bits of a word from n on. */
  function AtLeast(word: set<nat>, n: nat): (r: set<nat>)
    ensures forall x :: x in r <==> x in word && x >= n
  {
    set x | x in word && x >= n
  }

  /** Class k is the first marked one from `want` upwards. */
  ghost predicate FirstFrom(sl: seq<set<nat>>, want: Class, k: Class)
    requires |sl| == FL_COUNT
  {
    forall f, s :: 0 <= f < FL_COUNT && s in sl[f] ==>
      Class(f, s).Rank() < want.Rank() || k.Rank() <= Class(f, s).Rank()
  }

  lemma Bits(fl: set<nat>, sl: seq<set<nat>>, lists: map<Class, seq<nat>>)
    requires BitsOk(fl, sl, lists)
    ensures |sl| == FL_COUNT && (forall f :: f in fl ==> f < FL_COUNT && sl[f] != {})
    ensures forall f, s :: 0 <= f < FL_COUNT && s in sl[f] ==>
              f in fl && s < SL_COUNT && ListIn(lists, Class(f, s)) != []
  {
  }

  lemma FirstHere(fl: set<nat>, sl: seq<set<nat>>, lists: map<Class, seq<nat>>, want: Class, s: nat)
    requires BitsOk(fl, sl, lists) && want.fl < FL_COUNT && want.sl < SL_COUNT && s in AtLeast(sl[want.fl], want.sl)
    requires forall x :: x in AtLeast(sl[want.fl], want.sl) ==> s <= x
    ensures FirstFrom(sl, want, Class(want.fl, s))
  {
    hide ListIn;
    forall f, x | 0 <= f < FL_COUNT && x in sl[f] && Class(f, x).Rank() >= want.Rank()
      ensures Class(want.fl, s).Rank() <= Class(f, x).Rank()
    {
      assert x < SL_COUNT && s < SL_COUNT;
    }
  }

  lemma FirstAbove(fl: set<nat>, sl: seq<set<nat>>, lists: map<Class, seq<nat>>, want: Class, f: nat, s: nat)
    requires BitsOk(fl, sl, lists) && want.fl < FL_COUNT && want.sl < SL_COUNT && AtLeast(sl[want.fl], want.sl) == {}
    requires f in fl && f > want.fl && forall g :: g in fl && g > want.fl ==> f <= g
    requires s in sl[f] && forall x :: x in sl[f] ==> s <= x
    ensures FirstFrom(sl, want, Class(f, s)) && Class(f, s).Rank() >= want.Rank()
  {
    hide ListIn;
    assert s < SL_COUNT;
    forall g, x | 0 <= g < FL_COUNT && x in sl[g] && Class(g, x).Rank() >= want.Rank()
      ensures Class(f, s).Rank() <= Class(g, x).Rank()
    {
      assert g in fl && x < SL_COUNT && x !in AtLeast(sl[want.fl], want.sl);
    }
  }

  lemma NoneFrom(fl: set<nat>, sl: seq<set<nat>>, lists: map<Class, seq<nat>>, want: Class)
    requires BitsOk(fl, sl, lists) && want.fl < FL_COUNT && want.sl < SL_COUNT
    requires AtLeast(sl[want.fl], want.sl) == {} && AtLeast(fl, want.fl + 1) == {}
    ensures forall f, s :: 0 <= f < FL_COUNT && s in sl[f] ==> Class(f, s).Rank() < want.Rank()
  {
    hide ListIn;
    forall f, s | 0 <= f < FL_COUNT && s in sl[f] ensures Class(f, s).Rank() < want.Rank() {
      assert f in fl && f !in AtLeast(fl, want.fl + 1) && s !in AtLeast(sl[want.fl], want.sl);
    }
  }

  /** The bitmap search: the first non-empty class from `want` upwards. */
  method FindClass(fl: set<nat>, sl: seq<set<nat>>, ghost lists: map<Class, seq<nat>>, want: Class)
    returns (k: Option<Class>)
    requires BitsOk(fl, sl, lists) && want.fl < FL_COUNT && want.sl < SL_COUNT
    ensures k.Some? ==> k.value.sl < SL_COUNT && k.value.Rank() >= want.Rank() && ListIn(lists, k.value) != []
    ensures k.Some? ==> FirstFrom(sl, want, k.value)
    ensures k.None? ==> forall f, s :: 0 <= f < FL_COUNT && s in sl[f] ==> Class(f, s).Rank() < want.Rank()
  {
    hide BitsOk, ListIn, FirstFrom;
    Bits(fl, sl, lists);
    var word := AtLeast(sl[want.fl], want.sl);
    if word != {} {
      var s := Ctz(word);
      FirstHere(fl, sl, lists, want, s);
      return Some(Class(want.fl, s));
    }
    var flWord := if want.fl + 1 < FL_COUNT then AtLeast(fl, want.fl + 1) else {};
    assert flWord == AtLeast(fl, want.fl + 1);
    if flWord != {} {
      var f := Ctz(flWord);
      var s := Ctz(sl[f]);
      FirstAbove(fl, sl, lists, want, f, s);
      return Some(Class(f, s));
    }
    NoneFrom(fl, sl, lists, want);
    k := None;
  }

  /** Any free block that holds 5/4 of the request is in the class of block i or a higher one. */
  ghost predicate GoodFit(l: Layout, i: nat, size: nat)
    requires i < |l|
  {
    l[i].size >= HDR && forall b :: b in Blocks(l, true) && b.size >= HDR ==>
      4 * b.size < 5 * size || MappingInsert(l[i].size).Rank() <= MappingInsert(b.size).Rank()
  }

  lemma EmptyPool(a: nat)
    ensures CoreOf(map[a := Hdr(None, 0, false)], {}, seq(FL_COUNT, _ => {}), map[], 0, [], a, a)
  {
  }

  /** The pool before its one block is filed. */
  lemma OneBlock(a: nat, size: nat, hdr: map<nat, Hdr>)
    requires a % HDR == 0 && size >= HDR && size + HDR < POOL_LIMIT
    requires hdr == map[a := Hdr(None, size, false), a + HDR + size := Hdr(Some(a), 0, false)]
    ensures CoreOf(hdr, {}, seq(FL_COUNT, _ => {}), map[], 0, [Blk(a, size, false)], a, a + HDR + size)
  {
    var l := [Blk(a, size, false)];
    assert l[0] == Blk(a, size, false);
    assert FreeSum(l[..0]) == 0;
  }

  class Heap {
    var hdr: map<nat, Hdr>
    var flMap: set<nat>
    var slMap: seq<set<nat>>
    var lists: map<Class, seq<nat>>
    var freeBytes: int
    ghost var lo: nat
    ghost var hi: nat
    ghost var l: Layout

    ghost predicate Core()
      reads this
    {
      CoreOf(hdr, flMap, slMap, lists, freeBytes, l, lo, hi)
    }

    ghost predicate Valid()
      reads this
    {
      Core() && Coalesced(l)
    }

    /**
     ulmk_heap_init(): one free block over the aligned pool, or an empty heap when there
     is no pool or it cannot hold a block.
     */
    constructor (base: nat, size: nat)
      requires 0 < size < WORD_LIMIT - base ==> RoundUp(base, HDR) <= base + size < RoundUp(base, HDR) + POOL_LIMIT
      ensures Valid() && lo == RoundUp(base, HDR)
      ensures l == if 0 < size < WORD_LIMIT - base && base + size - lo >= 3 * HDR
                   then [Blk(lo, base + size - lo - 2 * HDR, true)] else []
    {
      var aligned := RoundUp(base, HDR);
      RoundUpBounds(base, HDR);
      lo, hi := aligned, aligned;
      flMap, slMap, lists, freeBytes, l := {}, seq(FL_COUNT, _ => {}), map[], 0, [];
      hdr := map[aligned := Hdr(None, 0, false)];
      new;
      hide CoreOf, RoundUp, MappingInsert, ListIn, FreeSum;
      EmptyPool(aligned);
      if 0 < size < WORD_LIMIT - base && base + size - aligned >= 3 * HDR {
        var total := base + size - aligned;
        var sentinel := aligned + HDR + (total - 2 * HDR);
        hdr := map[aligned := Hdr(None, total - 2 * HDR, false), sentinel := Hdr(Some(aligned), 0, false)];
        hi := sentinel;
        l := [Blk(aligned, total - 2 * HDR, false)];
        OneBlock(aligned, total - 2 * HDR, hdr);
        InsertFree(aligned, 0);
      }
    }

    /** insert_free() */
    method InsertFree(a: nat, ghost i: nat)
      requires Core() && i < |l| && l[i].addr == a && !l[i].free
      modifies this
      ensures Core() && l == Mark(old(l), i, true) && lo == old(lo) && hi == old(hi)
      ensures freeBytes == old(freeBytes) + old(l[i]).size
      ensures var c := MappingInsert(old(l[i]).size); lists == old(lists)[c := [a] + ListIn(old(lists), c)]
    {
      InsertCore(hdr, flMap, slMap, lists, freeBytes, l, lo, hi, i);
      var h := hdr[a];
      var c := MappingInsert(h.size);
      lists := lists[c := [a] + ListIn(lists, c)];
      flMap := flMap + {c.fl};
      slMap := slMap[c.fl := slMap[c.fl] + {c.sl}];
      hdr := hdr[a := h.(free := true)];
      freeBytes := freeBytes + h.size;
      l := Mark(l, i, true);
    }

    /** remove_free() */
    method RemoveFree(a: nat, ghost i: nat)
      requires Core() && i < |l| && l[i].addr == a && l[i].free
      modifies this
      ensures Core() && l == Mark(old(l), i, false) && lo == old(lo) && hi == old(hi)
      ensures freeBytes == old(freeBytes) - old(l[i]).size
      ensures var c := MappingInsert(old(l[i]).size); lists == old(lists)[c := Without(ListIn(old(lists), c), a)]
    {
      RemoveCore(hdr, flMap, slMap, lists, freeBytes, l, lo, hi, i);
      var h := hdr[a];
      var c := MappingInsert(h.size);
      var rest := Without(ListIn(lists, c), a);
      lists := lists[c := rest];
      if rest == [] {
        slMap := slMap[c.fl := slMap[c.fl] - {c.sl}];
        if slMap[c.fl] == {} {
          flMap := flMap - {c.fl};
        }
      }
      hdr := hdr[a := h.(free := false)];
      freeBytes := freeBytes - h.size;
      l := Mark(l, i, false);
    }

    /** Write the header of the rest of a block, relink its successor and shorten the block. */
    method Cut(a: nat, p: nat, ghost i: nat) returns (rem: nat)
      requires Core() && i < |l| && l[i].addr == a && !l[i].free
      requires p % HDR == 0 && HDR <= p && p + 2 * HDR <= l[i].size
      modifies this
      ensures Core() && l == Split(old(l), i, p, false, false) && lo == old(lo) && hi == old(hi)
      ensures rem == a + HDR + p && freeBytes == old(freeBytes) && lists == old(lists)
    {
      CutCore(hdr, flMap, slMap, lists, freeBytes, l, lo, hi, i, p);
      assert HeaderAt(hdr, l, i);
      var size := hdr[a].size;
      rem := a + HDR + p;
      hdr := hdr[rem := Hdr(Some(a), size - p - HDR, false)];
      var next := rem + HDR + hdr[rem].size;
      hdr := hdr[next := hdr[next].(prev := Some(rem))];
      hdr := hdr[a := hdr[a].(size := p)];
      l := Split(l, i, p, false, false);
    }

    /** Extend a block over its successor and relink the block after that. */
    method Absorb(a: nat, n: nat, ghost i: nat)
      requires Core() && i + 1 < |l| && l[i].addr == a && l[i + 1].addr == n && !l[i].free && !l[i + 1].free
      modifies this
      ensures Core() && l == Merge(old(l), i) && lo == old(lo) && hi == old(hi)
      ensures freeBytes == old(freeBytes) && lists == old(lists)
    {
      MergeCore(hdr, flMap, slMap, lists, freeBytes, l, lo, hi, i);
      assert HeaderAt(hdr, l, i) && HeaderAt(hdr, l, i + 1);
      Apart(l, lo, hi, i, i + 1);
      var after := n + HDR + hdr[n].size;
      hdr := hdr[a := hdr[a].(size := hdr[a].size + HDR + hdr[n].size)];
      hdr := hdr[after := hdr[after].(prev := Some(a))];
      l := Merge(l, i);
    }

    /**
     find_free_block(): sound (what it returns is free and large enough), tight (NULL only
     if every free block is smaller than 5/4 of the request) and a good fit (any other
     free block is smaller than 5/4 of the request or in no lower class); of its class it
     is the block that was freed last.
     */
    method FindFreeBlock(size: nat) returns (r: Option<nat>, ghost i: nat)
      requires Core() && HDR <= size <= REQUEST_LIMIT
      ensures r.Some? ==> i < |l| && l[i].addr == r.value && l[i].free && l[i].size >= size
      ensures r.Some? ==> ListIn(lists, MappingInsert(l[i].size)) != []
                          && ListIn(lists, MappingInsert(l[i].size))[0] == r.value
      ensures r.Some? ==> GoodFit(l, i, size)
      ensures r.None? ==> forall b :: b in Blocks(l, true) ==> 4 * b.size < 5 * size
    {
      SearchClass(size);
      PoolBlocks(l, lo, hi);
      var k := FindClass(flMap, slMap, lists, MappingSearch(size));
      if k.Some? {
        r := Some(ListIn(lists, k.value)[0]);
        i := Head(k.value, MappingSearch(size), size);
        forall b | b in Blocks(l, true) && 4 * b.size >= 5 * size
          ensures k.value.Rank() <= MappingInsert(b.size).Rank()
        {
          FiledShows(flMap, slMap, lists, Blocks(l, true), b);
          if MappingInsert(b.size).Rank() < MappingSearch(size).Rank() { MissedIsSmall(b, size); }
        }
      } else {
        r, i := None, 0;
        forall b | b in Blocks(l, true) ensures 4 * b.size < 5 * size {
          FiledShows(flMap, slMap, lists, Blocks(l, true), b);
          MissedIsSmall(b, size);
        }
      }
    }

    lemma Head(k: Class, want: Class, size: nat) returns (i: nat)
      requires Core() && InPool(l, lo, hi) && HDR <= size <= REQUEST_LIMIT && want == MappingSearch(size)
      requires k.sl < SL_COUNT && k.Rank() >= want.Rank() && ListIn(lists, k) != []
      ensures i < |l| && l[i].addr == ListIn(lists, k)[0] && l[i].free && l[i].size >= size
      ensures MappingInsert(l[i].size) == k
    {
      assert ListIn(lists, k)[0] in Members(ListIn(lists, k));
      var b := FoundFits(Blocks(l, true), k, want, size, ListIn(lists, k)[0]);
      i :| 0 <= i < |l| && l[i] == b;
    }

    lemma SizeIs(j: nat)
      requires Core() && j < |l|
      ensures l[j].addr in hdr && hdr[l[j].addr].size == l[j].size
    {
      assert HeaderAt(hdr, l, j);
    }

    /** Split the tail off block a, which is out of the free lists, if it can hold a free block. */
    method TrimTail(a: nat, rounded: nat, ghost j: nat)
      requires Core() && j < |l| && l[j].addr == a && !l[j].free
      requires rounded % HDR == 0 && HDR <= rounded <= l[j].size
      modifies this
      ensures Core() && l == Trim(old(l), j, rounded) && lo == old(lo) && hi == old(hi)
      ensures j < |l| && l[j].addr == a && !l[j].free && rounded <= l[j].size < rounded + 2 * HDR
      ensures freeBytes == old(freeBytes) + (if l[j] == old(l[j]) then 0 else old(l[j]).size - l[j].size - HDR)
    {
      hide HeadersOk, ListsOk, BitsOk, Tiled, Blocks, MappingInsert, ListIn, FreeSum;
      SizeIs(j);
      if hdr[a].size >= rounded + 2 * HDR {
        var rem := Cut(a, rounded, j);
        InsertFree(rem, j + 1);
        SplitThenMark(old(l), j, rounded);
      }
    }

    /**
     ulmk_heap_alloc(): takes a free block of at least the rounded size, or changes
     nothing when none of 5/4 of it exists.
     */
    method Alloc(size: nat) returns (ptr: Option<nat>, ghost i: nat)
      requires Valid() && size <= REQUEST_LIMIT
      modifies this
      ensures Valid() && lo == old(lo) && hi == old(hi)
      ensures size == 0 ==> ptr.None?
      ensures ptr.None? ==> l == old(l)
      ensures ptr.None? && size > 0 ==> forall b :: b in Blocks(l, true) ==> 4 * b.size < 5 * RoundUp(size, HDR)
      ensures ptr.Some? ==> && size > 0 && CanTake(old(l), i, 0, RoundUp(size, HDR))
                            && l == Take(old(l), i, 0, RoundUp(size, HDR)) && ptr.value == old(l[i].Payload())
                            && GoodFit(old(l), i, RoundUp(size, HDR))
      ensures ptr.Some? ==> exists b: Blk :: && IsNew(old(l), l, b) && b.addr + HDR == ptr.value
                                             && size <= b.size < size + 3 * HDR
                                             && b.size < RoundUp(size, HDR) + 2 * HDR
                                             && old(freeBytes) - b.size - 2 * HDR <= freeBytes < old(freeBytes)
    {
      hide HeadersOk, ListsOk, BitsOk, Tiled, Coalesced, GoodFit, MappingInsert, UsedBlocks;
      i := 0;
      if size == 0 { return None, 0; }
      RoundUpBounds(size, HDR);
      var rounded := RoundUp(size, HDR);
      var r;
      r, i := FindFreeBlock(rounded);
      if r.None? { return None, 0; }
      TakeCoalesced(l, i, 0, rounded);
      TakeUsed(l, lo, hi, i, 0, rounded);
      TakeFreeSum(l, i, 0, rounded);
      RemoveFree(r.value, i);
      TrimTail(r.value, rounded, i);
      assert IsNew(old(l), l, l[i]);
      ptr := Some(r.value + HDR);
    }

    method JoinForward(blk: nat, ghost i: nat)
      requires Core() && i < |l| && l[i].addr == blk && !l[i].free
      modifies this
      ensures Core() && l == JoinNext(old(l), i) && lo == old(lo) && hi == old(hi)
    {
      hide ListsOk, BitsOk;
      var nxt := NextOf(blk, i);
      if hdr[nxt].size > 0 && hdr[nxt].free {
        RemoveFree(nxt, i + 1);
        Absorb(blk, nxt, i);
        MarkThenMerge(old(l), i, i + 1);
      }
    }

    method JoinBackward(blk: nat, ghost i: nat)
      requires Core() && i < |l| && l[i].addr == blk && !l[i].free
      modifies this
      ensures Core() && lo == old(lo) && hi == old(hi)
      ensures l == if i > 0 && old(l[i - 1].free) then Merge(old(l), i - 1) else Mark(old(l), i, true)
    {
      hide ListsOk, BitsOk;
      assert HeaderAt(hdr, l, i);
      var prv := hdr[blk].prev;
      if prv.Some? && IsFree(prv.value, i - 1) {
        RemoveFree(prv.value, i - 1);
        Absorb(prv.value, blk, i - 1);
        InsertFree(prv.value, i - 1);
        MarkThenMerge(old(l), i - 1, i - 1);
      } else {
        InsertFree(blk, i);
      }
    }

    /** ulmk_heap_free(): the block joins its free neighbours. */
    method Free(ptr: Option<nat>, ghost i: nat)
      requires Valid()
      requires ptr.Some? ==> i < |l| && l[i].Payload() == ptr.value && !l[i].free
      modifies this
      ensures Valid() && lo == old(lo) && hi == old(hi)
      ensures l == if ptr.None? then old(l) else Release(old(l), i)
      ensures ptr.Some? ==> UsedBlocks(l) == UsedBlocks(old(l)) - {old(l)[i]}
      ensures ptr.Some? ==> freeBytes >= old(freeBytes) + old(l)[i].size
    {
      hide HeadersOk, ListsOk, BitsOk, Coalesced, Tiled;
      if ptr.None? { return; }
      ReleaseOk(l, lo, hi, i);
      ReleaseUsed(l, lo, hi, i);
      ReleaseFreeSum(l, i);
      JoinNextOk(l, lo, hi, i);
      JoinForward(ptr.value - HDR, i);
      assert l == JoinNext(old(l), i) && l[i].addr == ptr.value - HDR;
      JoinBackward(ptr.value - HDR, i);
    }

    /**
     ulmk_heap_aligned_alloc(): as Alloc, with the payload at a multiple of the
     alignment; the lead in front of it stays behind as a free block.
     */
    method AlignedAlloc(align: nat, size: nat) returns (ptr: Option<nat>, ghost i: nat)
      requires Valid() && (0 < size && align <= HDR ==> size <= REQUEST_LIMIT)
      requires 0 < size && align > HDR && IsPow2(align) ==> RoundUp(size, HDR) + align + HDR <= REQUEST_LIMIT
      modifies this
      ensures Valid() && lo == old(lo) && hi == old(hi)
      ensures ptr.None? ==> l == old(l)
      ensures ptr.None? && size > 0 && align > HDR && IsPow2(align) ==>
                forall b :: b in Blocks(l, true) ==> 4 * b.size < 5 * (RoundUp(size, HDR) + align + HDR)
      ensures ptr.None? && size > 0 && align <= HDR ==>
                forall b :: b in Blocks(l, true) ==> 4 * b.size < 5 * RoundUp(size, HDR)
      ensures size == 0 || (align > HDR && !IsPow2(align)) ==> ptr.None?
      ensures ptr.Some? ==> i < |old(l)| && ptr.value >= old(l[i].Payload())
                            && var lead := ptr.value - old(l[i].Payload());
                            && CanTake(old(l), i, lead, RoundUp(size, HDR))
                            && l == Take(old(l), i, lead, RoundUp(size, HDR))
      ensures ptr.Some? ==> exists b: Blk :: && IsNew(old(l), l, b) && b.addr + HDR == ptr.value
                                             && size <= b.size < size + 3 * HDR
                                             && b.size < RoundUp(size, HDR) + 2 * HDR
                                             && old(freeBytes) - b.size - 2 * HDR <= freeBytes < old(freeBytes)
      ensures ptr.Some? && align > HDR ==> IsPow2(align) && ptr.value % align == 0
      ensures ptr.Some? && align > HDR ==> && FirstFit(old(l[i].Payload()), align, ptr.value)
                                           && GoodFit(old(l), i, RoundUp(size, HDR) + align + HDR)
      ensures ptr.Some? && align <= HDR ==> ptr.value == old(l[i].Payload()) && GoodFit(old(l), i, RoundUp(size, HDR))
    {
      hide CoreOf, GoodFit, FirstFit;
      i := 0;
      RoundUpBounds(size, HDR);
      if size == 0 { return None, 0; }
      if align <= HDR {
        ptr, i := Alloc(size);
        return;
      }
      if !IsPow2(align) { return None, 0; }
      ptr, i := CarveAligned(align, RoundUp(size, HDR));
    }

    method CarveAligned(align: nat, rounded: nat) returns (ptr: Option<nat>, ghost i: nat)
      requires Valid() && rounded + align + HDR <= REQUEST_LIMIT && rounded >= HDR && rounded % HDR == 0
      requires align > HDR && IsPow2(align)
      modifies this
      ensures Valid() && lo == old(lo) && hi == old(hi)
      ensures ptr.None? ==> l == old(l)
                            && forall b :: b in Blocks(l, true) ==> 4 * b.size < 5 * (rounded + align + HDR)
      ensures ptr.Some? ==> i < |old(l)| && ptr.value >= old(l[i].Payload()) && AlignedTo(ptr.value, align)
                            && var lead := ptr.value - old(l[i].Payload());
                            CanTake(old(l), i, lead, rounded) && l == Take(old(l), i, lead, rounded)
      ensures ptr.Some? ==> FirstFit(old(l[i].Payload()), align, ptr.value) && GoodFit(old(l), i, rounded + align + HDR)
      ensures ptr.Some? ==> exists b: Blk :: && IsNew(old(l), l, b) && b.addr + HDR == ptr.value
                                             && rounded <= b.size < rounded + 2 * HDR
                                             && old(freeBytes) - b.size - 2 * HDR <= freeBytes < old(freeBytes)
    {
      hide HeadersOk, ListsOk, BitsOk, IsPow2, AlignedTo, Tiled, Coalesced, CutLead, Trim, GoodFit, FirstFit;
      var r;
      r, i := FindFreeBlock(rounded + align + HDR);
      if r.None? { return None, i; }
      SizeInPool(l, lo, hi, i);
      var lead := LeadFor(r.value, align);
      TakeCoalesced(l, i, lead, rounded);
      TakeUsed(l, lo, hi, i, lead, rounded);
      TakeFreeSum(l, i, lead, rounded);
      CutLeadUsed(l, i, lead);
      TakeLead(r.value, lead, i);
      TrimTail(r.value + lead, rounded, TakenIndex(i, lead));
      assert IsNew(old(l), l, l[TakenIndex(i, lead)]);
      ptr := Some(r.value + HDR + lead);
    }

    /** Take block a out of the free lists and leave its first `lead` bytes behind as a free block. */
    method TakeLead(a: nat, lead: nat, ghost i: nat)
      requires Core() && i < |l| && l[i].addr == a && l[i].free
      requires lead % HDR == 0 && (lead == 0 || 2 * HDR <= lead <= l[i].size - HDR)
      modifies this
      ensures Core() && l == CutLead(old(l), i, lead) && lo == old(lo) && hi == old(hi)
    {
      hide HeadersOk, ListsOk, BitsOk, Tiled, Blocks, MappingInsert, ListIn, FreeSum;
      RemoveFree(a, i);
      if lead != 0 {
        var nb := Cut(a, lead - HDR, i);
        InsertFree(a, i);
        CutLeadSteps(old(l), i, lead);
      }
    }

    function IsFree(a: nat, ghost k: int): (f: bool)
      requires Core() && 0 <= k < |l| && l[k].addr == a
      reads this
      ensures f == l[k].free
    {
      assert HeaderAt(hdr, l, k);
      hdr[a].free
    }

    /** blk_next(): the header after block i, which is the sentinel for the last one. */
    function NextOf(a: nat, ghost i: nat): (n: nat)
      requires Core() && i < |l| && l[i].addr == a
      reads this
      ensures n in hdr
      ensures if i + 1 < |l| then n == l[i + 1].addr && hdr[n].size == l[i + 1].size && hdr[n].free == l[i + 1].free
              else n == hi && hdr[n].size == 0
    {
      assert HeaderAt(hdr, l, i);
      assert i + 1 < |l| ==> HeaderAt(hdr, l, i + 1);
      a + HDR + hdr[a].size
    }
  }

  /** The number of bytes ulmk_heap_init() finds between the aligned start and the end, in 32 bits. */
  function PoolBytes(base: nat, size: nat): nat {
    (base + size + WORD_LIMIT - RoundUp(base, HDR)) % WORD_LIMIT
  }

  /** What is initialised stays inside the pool exactly if the pool does not end before its aligned start. */
  lemma PoolInside(base: nat, size: nat)
    requires 0 < size < WORD_LIMIT - base
    ensures PoolBytes(base, size) < 3 * HDR || RoundUp(base, HDR) + PoolBytes(base, size) <= base + size
            <==> RoundUp(base, HDR) <= base + size
  {
    hide RoundUp;
    RoundUpBounds(base, HDR);
  }

  /** A pool of two bytes at address 1: its first block would reach almost to the end of memory. */
  lemma PoolExample()
    ensures RoundUp(1, HDR) == 64 && PoolBytes(1, 2) == 0xFFFF_FFC3
    ensures RoundUp(1, HDR) + PoolBytes(1, 2) > 1 + 2
  {
  }

  lemma {:induction false} Pow2Multiple(n: nat)
    requires IsPow2(n) && n > HDR
    ensures n % (2 * HDR) == 0 && n >= 2 * HDR
  {
    if n > 2 * HDR { Pow2Multiple(n / 2); } else { Pow2Small(n); }
  }

  lemma Pow2Small(n: nat)
    requires IsPow2(n) && 64 < n <= 128
    ensures n == 128
  {
    assert IsPow2(n / 2) && IsPow2(n / 4) && IsPow2(n / 8);
    assert IsPow2(n / 16) && IsPow2(n / 32) && IsPow2(n / 64);
  }

  predicate AlignedTo(p: nat, align: nat) {
    align > 0 && p % align == 0
  }

  lemma MultipleAligned(q: nat, g: nat)
    requires g > 0 && g % HDR == 0
    ensures AlignedTo(q * g, g) && (q * g) % HDR == 0
  {
    var h := g / HDR;
    assert q * g == (q * h) * HDR;
    MultipleMod(q * h, HDR);
    MultipleMod(q, g);
  }

  method RoundToGranule(x: nat, g: nat) returns (a: nat)
    requires g > 0 && g % HDR == 0
    ensures AlignedTo(a, g) && AlignedTo(a + g, g) && a % HDR == 0 && x <= a < x + g
  {
    RoundUpBounds(x, g);
    ghost var q := (x + g - 1) / g;
    a := RoundUp(x, g);
    assert a == q * g && a + g == (q + 1) * g;
    MultipleAligned(q, g);
    MultipleAligned(q + 1, g);
  }

  lemma HdrMultiples(a: nat, b: nat, c: nat)
    requires a % HDR == 0 && b % HDR == 0 && c % HDR == 0
    ensures (a - c) % HDR == 0 && (a + b - c) % HDR == 0
    ensures a > c ==> a - c >= HDR
    ensures a - c < 2 * HDR ==> a - c <= HDR
  {
  }

  /** Multiples of g are at least g apart. */
  lemma AlignedGap(p: nat, q: nat, g: nat)
    requires AlignedTo(p, g) && AlignedTo(q, g) && p < q
    ensures q - p >= g
  {
    var a, b := p / g, q / g;
    assert p == a * g && q == b * g;
    if b <= a {
      MulMonotone(b, a, g);
      assert false;
    }
    MulMonotone(a + 1, b, g);
    assert (a + 1) * g == a * g + g;
  }

  /** No aligned place between is the payload itself or leaves room for a block in front of it. */
  ghost predicate FirstFit(payload: nat, align: nat, a: nat) {
    forall p :: payload <= p < a && AlignedTo(p, align) ==> payload < p < payload + 2 * HDR
  }

  /** The aligned payload address, moved on when the lead could not hold a block. */
  method AlignUp(payload: nat, align: nat) returns (a: nat)
    requires align >= 2 * HDR && align % HDR == 0 && payload % HDR == 0
    ensures payload <= a <= payload + align + HDR && AlignedTo(a, align) && (a - payload) % HDR == 0
    ensures (a == payload || a - payload >= 2 * HDR) && FirstFit(payload, align, a)
  {
    hide AlignedTo;
    a := RoundToGranule(payload, align);
    HdrMultiples(a, align, payload);
    forall p | payload <= p < a + align && AlignedTo(p, align) ensures p == a {
      if p < a { AlignedGap(p, a, align); }
      if a < p { AlignedGap(a, p, align); }
    }
    if a != payload && a - payload < 2 * HDR {
      a := a + align;
    }
  }

  /** How far into block a the aligned payload starts. */
  method LeadFor(a: nat, align: nat) returns (lead: nat)
    requires a % HDR == 0 && align > HDR && IsPow2(align)
    ensures AlignedTo(a + HDR + lead, align) && lead <= align + HDR && lead % HDR == 0 && (lead == 0 || lead >= 2 * HDR)
    ensures FirstFit(a + HDR, align, a + HDR + lead)
  {
    hide IsPow2, AlignedTo, FirstFit;
    Pow2Multiple(align);
    var aligned := AlignUp(a + HDR, align);
    lead := aligned - (a + HDR);
  }

  lemma CutLeadSteps(l: Layout, i: nat, lead: nat)
    requires i < |l| && l[i].free && HDR <= lead <= l[i].size
    ensures Mark(Split(Mark(l, i, false), i, lead - HDR, false, false), i, true) == CutLead(l, i, lead)
  {
  }

  lemma SplitThenMark(l: Layout, j: nat, p: nat)
    requires j < |l| && p + HDR <= l[j].size
    ensures Mark(Split(l, j, p, false, false), j + 1, true) == Split(l, j, p, false, true)
  {
  }

  lemma MarkThenMerge(l: Layout, i: nat, k: nat)
    requires i + 1 < |l| && i <= k <= i + 1
    ensures k == i + 1 ==> Merge(Mark(l, k, false), i) == Merge(l, i)
    ensures k == i && l[i].free ==> Mark(Merge(Mark(l, i, false), i), i, true) == Merge(l, i)
  {
  }
}
