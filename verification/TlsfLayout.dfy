/**
 Physical block layout of the TLSF heap (kernel/mem/tlsf.c), as a value: the
 blocks between the start of the pool and the sentinel, in address order.
 Taking a block splits it, releasing one joins it with its free neighbours.
 */
module TlsfLayout {

  const HDR := 64

  datatype Blk = Blk(addr: nat, size: nat, free: bool) {
    function End(): nat { addr + HDR + size }
    function Payload(): nat { addr + HDR }
  }

  type Layout = seq<Blk>

  /** The blocks fill [lo, hi) without gap or overlap; headers are aligned, payloads hold at least HDR bytes. */
  ghost predicate Tiled(l: Layout, lo: nat, hi: nat) {
    && l != [] && l[0].addr == lo && l[|l| - 1].End() == hi
    && (forall i :: 0 <= i < |l| ==> l[i].size >= HDR && l[i].addr % HDR == 0)
    && (forall i :: 0 <= i < |l| - 1 ==> l[i + 1].addr == l[i].End())
  }

  /** No two neighbours are both free. */
  ghost predicate Coalesced(l: Layout) {
    forall i :: 0 <= i < |l| - 1 ==> !(l[i].free && l[i + 1].free)
  }

  ghost predicate Ok(l: Layout, lo: nat, hi: nat) {
    Tiled(l, lo, hi) && Coalesced(l)
  }

  function FreeSum(l: Layout): nat {
    if l == [] then 0 else FreeSum(l[..|l| - 1]) + (if l[|l| - 1].free then l[|l| - 1].size else 0)
  }

  function UsedSum(l: Layout): nat {
    if l == [] then 0 else UsedSum(l[..|l| - 1]) + (if l[|l| - 1].free then 0 else l[|l| - 1].size)
  }

  // ----------------------------------------------------------- operations

  function Mark(l: Layout, i: nat, free: bool): Layout
    requires i < |l|
  {
    l[i := l[i].(free := free)]
  }

  /** Block i cut after a payload of p bytes; the rest becomes a block of its own. */
  function Split(l: Layout, i: nat, p: nat, first: bool, second: bool): Layout
    requires i < |l| && p + HDR <= l[i].size
  {
    var b := l[i];
    l[..i] + [Blk(b.addr, p, first), Blk(b.addr + HDR + p, b.size - p - HDR, second)] + l[i + 1..]
  }

  /** Block i extended over the next one. */
  function Merge(l: Layout, i: nat): Layout
    requires i + 1 < |l|
  {
    l[..i] + [Blk(l[i].addr, l[i].size + HDR + l[i + 1].size, l[i].free)] + l[i + 2..]
  }

  /** Block j, already out of the free lists, cut to r bytes if the tail can hold a free block. */
  function Trim(l: Layout, j: nat, r: nat): Layout
    requires j < |l|
  {
    if l[j].size >= r + 2 * HDR then Split(l, j, r, false, true) else l
  }

  /** The lead in front of an aligned payload, cut off as a free block. */
  function CutLead(l: Layout, i: nat, lead: nat): Layout
    requires i < |l| && (lead == 0 || HDR <= lead <= l[i].size)
  {
    if lead == 0 then Mark(l, i, false) else Split(l, i, lead - HDR, true, false)
  }

  function TakenIndex(i: nat, lead: nat): nat {
    if lead == 0 then i else i + 1
  }

  /** Block i taken for a payload of r bytes that starts `lead` bytes into it; the lead stays free. */
  function Take(l: Layout, i: nat, lead: nat, r: nat): Layout
    requires i < |l| && (lead == 0 || HDR <= lead <= l[i].size)
  {
    Trim(CutLead(l, i, lead), TakenIndex(i, lead), r)
  }

  /** Block i joined with the next block if that is free. */
  function JoinNext(l: Layout, i: nat): Layout
    requires i < |l|
  {
    if i + 1 < |l| && l[i + 1].free then Merge(l, i) else l
  }

  /** Block i released: joined with the next block, then with the previous one, if they are free. */
  function Release(l: Layout, i: nat): Layout
    requires i < |l|
  {
    var m := JoinNext(l, i);
    if i > 0 && m[i - 1].free then Merge(m, i - 1) else Mark(m, i, true)
  }

  // ------------------------------------------------------------ invariant

  lemma MarkTiled(l: Layout, lo: nat, hi: nat, i: nat, free: bool)
    requires Tiled(l, lo, hi) && i < |l|
    ensures Tiled(Mark(l, i, free), lo, hi)
  {
  }

  lemma SplitTiled(l: Layout, lo: nat, hi: nat, i: nat, p: nat, first: bool, second: bool)
    requires Tiled(l, lo, hi) && i < |l| && p % HDR == 0 && HDR <= p && p + 2 * HDR <= l[i].size
    ensures Tiled(Split(l, i, p, first, second), lo, hi)
  {
    var m := Split(l, i, p, first, second);
    assert l[i].addr % HDR == 0;
    forall k | 0 <= k < |m| ensures m[k].size >= HDR && m[k].addr % HDR == 0 {
      if k > i + 1 { assert m[k] == l[k - 1]; }
    }
    forall k | 0 <= k < |m| - 1 ensures m[k + 1].addr == m[k].End() {
      if k > i + 1 { assert m[k] == l[k - 1] && m[k + 1] == l[k]; }
      if k == i + 1 { assert m[k + 1] == l[k]; }
    }
  }

  lemma MergeTiled(l: Layout, lo: nat, hi: nat, i: nat)
    requires Tiled(l, lo, hi) && i + 1 < |l|
    ensures Tiled(Merge(l, i), lo, hi)
  {
    var m := Merge(l, i);
    forall k | 0 <= k < |m| ensures m[k].size >= HDR && m[k].addr % HDR == 0 {
      if k > i { assert m[k] == l[k + 1]; }
    }
    forall k | 0 <= k < |m| - 1 ensures m[k + 1].addr == m[k].End() {
      if k > i { assert m[k] == l[k + 1] && m[k + 1] == l[k + 2]; }
      if k == i { assert m[k + 1] == l[k + 2]; }
    }
  }

  lemma MergeUndoesSplit(l: Layout, i: nat, p: nat, first: bool, second: bool)
    requires i < |l| && p + HDR <= l[i].size
    ensures Merge(Split(l, i, p, first, second), i) == Mark(l, i, first)
  {
    var m := Split(l, i, p, first, second);
    assert m[..i] == l[..i] && m[i + 2..] == l[i + 1..];
    assert Mark(l, i, first) == l[..i] + [l[i].(free := first)] + l[i + 1..];
  }

  ghost predicate CanTake(l: Layout, i: nat, lead: nat, r: nat) {
    && i < |l| && l[i].free && r >= HDR && r % HDR == 0 && lead % HDR == 0
    && (lead == 0 || lead >= 2 * HDR) && l[i].size >= lead + r
  }

  lemma TakeTiled(l: Layout, lo: nat, hi: nat, i: nat, lead: nat, r: nat)
    requires Tiled(l, lo, hi) && CanTake(l, i, lead, r)
    ensures Tiled(Take(l, i, lead, r), lo, hi)
  {
    hide Tiled;
    if lead == 0 { MarkTiled(l, lo, hi, i, false); } else { SplitTiled(l, lo, hi, i, lead - HDR, true, false); }
    var m := CutLead(l, i, lead);
    var j := TakenIndex(i, lead);
    if m[j].size >= r + 2 * HDR { SplitTiled(m, lo, hi, j, r, false, true); }
  }

  lemma SplitCoalesced(l: Layout, i: nat, p: nat, first: bool, second: bool)
    requires Coalesced(l) && i < |l| && p + HDR <= l[i].size && !(first && second)
    requires first ==> i == 0 || !l[i - 1].free
    requires second ==> i == |l| - 1 || !l[i + 1].free
    ensures Coalesced(Split(l, i, p, first, second))
  {
    var m := Split(l, i, p, first, second);
    forall k | 0 <= k < |m| - 1 ensures !(m[k].free && m[k + 1].free) {
      if k > i + 1 { assert m[k] == l[k - 1] && m[k + 1] == l[k]; }
      if k == i + 1 { assert m[k + 1] == l[k]; }
    }
  }

  lemma TakeCoalesced(l: Layout, i: nat, lead: nat, r: nat)
    requires Coalesced(l) && CanTake(l, i, lead, r)
    ensures Coalesced(Take(l, i, lead, r))
  {
    var m := CutLead(l, i, lead);
    var j := TakenIndex(i, lead);
    if lead > 0 { SplitCoalesced(l, i, lead - HDR, true, false); }
    assert i + 1 < |l| ==> m[j + 1] == l[i + 1];
    if m[j].size >= r + 2 * HDR { SplitCoalesced(m, j, r, false, true); }
  }

  lemma MergeCoalesced(l: Layout, i: nat)
    requires Coalesced(l) && i + 1 < |l| && (l[i].free ==> i + 2 < |l| ==> !l[i + 2].free)
    ensures Coalesced(Merge(l, i))
  {
    var m := Merge(l, i);
    forall k | 0 <= k < |m| - 1 ensures !(m[k].free && m[k + 1].free) {
      if k > i { assert m[k] == l[k + 1] && m[k + 1] == l[k + 2]; }
      if k == i { assert m[k + 1] == l[k + 2]; }
    }
  }

  lemma JoinNextOk(l: Layout, lo: nat, hi: nat, i: nat)
    requires Ok(l, lo, hi) && i < |l| && !l[i].free
    ensures var m := JoinNext(l, i);
            && Ok(m, lo, hi) && i < |m| && !m[i].free && (i + 1 < |m| ==> !m[i + 1].free) && m[..i] == l[..i]
  {
    if i + 1 < |l| && l[i + 1].free {
      MergeTiled(l, lo, hi, i);
      MergeCoalesced(l, i);
      var m := Merge(l, i);
      assert i + 1 < |m| ==> m[i + 1] == l[i + 2];
    }
  }

  lemma MarkCoalesced(l: Layout, i: nat)
    requires Coalesced(l) && i < |l| && (i + 1 < |l| ==> !l[i + 1].free) && (i > 0 ==> !l[i - 1].free)
    ensures Coalesced(Mark(l, i, true))
  {
  }

  lemma ReleaseOk(l: Layout, lo: nat, hi: nat, i: nat)
    requires Ok(l, lo, hi) && i < |l| && !l[i].free
    ensures Ok(Release(l, i), lo, hi)
  {
    var m := JoinNext(l, i);
    JoinNextOk(l, lo, hi, i);
    if i > 0 && m[i - 1].free {
      MergeTiled(m, lo, hi, i - 1);
      MergeCoalesced(m, i - 1);
    } else {
      MarkTiled(m, lo, hi, i, true);
      MarkCoalesced(m, i);
    }
  }

  lemma JoinNextUndoesTrim(l: Layout, j: nat, r: nat)
    requires j < |l| && !l[j].free && (j + 1 < |l| ==> !l[j + 1].free)
    ensures j < |Trim(l, j, r)| && JoinNext(Trim(l, j, r), j) == l
  {
    if l[j].size >= r + 2 * HDR {
      MergeUndoesSplit(l, j, r, false, true);
      assert Trim(l, j, r)[j + 1].free;
    }
  }

  lemma CutLeadShape(l: Layout, i: nat, lead: nat)
    requires i < |l| && l[i].free && Coalesced(l) && (lead == 0 || HDR <= lead <= l[i].size)
    ensures var m := CutLead(l, i, lead); var j := TakenIndex(i, lead);
            && j < |m| && !m[j].free && (j + 1 < |m| ==> !m[j + 1].free)
            && (if lead > 0 then m[i].free && Merge(m, i) == l
                else (i > 0 ==> !m[i - 1].free) && Mark(m, i, true) == l)
  {
    var m := CutLead(l, i, lead);
    var j := TakenIndex(i, lead);
    assert i + 1 < |l| ==> m[j + 1] == l[i + 1];
    if lead > 0 { MergeUndoesSplit(l, i, lead - HDR, true, false); }
  }

  /**
   Taking a free block, plainly or at an offset, and releasing it again gives
   back exactly the layout before.
   */
  lemma ReleaseUndoesTake(l: Layout, lo: nat, hi: nat, i: nat, lead: nat, r: nat)
    requires Ok(l, lo, hi) && CanTake(l, i, lead, r)
    ensures TakenIndex(i, lead) < |Take(l, i, lead, r)|
    ensures Release(Take(l, i, lead, r), TakenIndex(i, lead)) == l
  {
    CutLeadShape(l, i, lead);
    JoinNextUndoesTrim(CutLead(l, i, lead), TakenIndex(i, lead), r);
  }

  /** Blocks further on start after earlier ones end: used payloads never overlap. */
  lemma {:induction false} Apart(l: Layout, lo: nat, hi: nat, i: nat, j: nat)
    requires Tiled(l, lo, hi) && i < j < |l|
    ensures l[i].End() <= l[j].addr && l[j].End() <= hi && lo <= l[i].addr
    decreases j
  {
    if i < j - 1 { Apart(l, lo, hi, i, j - 1); }
    EndsInside(l, lo, hi, j);
    StartsInside(l, lo, hi, i);
  }

  lemma {:induction false} EndsInside(l: Layout, lo: nat, hi: nat, j: nat)
    requires Tiled(l, lo, hi) && j < |l|
    ensures l[j].End() <= hi
    decreases |l| - j
  {
    if j < |l| - 1 { EndsInside(l, lo, hi, j + 1); }
  }

  lemma {:induction false} StartsInside(l: Layout, lo: nat, hi: nat, i: nat)
    requires Tiled(l, lo, hi) && i < |l|
    ensures lo <= l[i].addr
  {
    if i > 0 { StartsInside(l, lo, hi, i - 1); }
  }

  // -------------------------------------------------- what releases lead to

  lemma {:induction false} SumsAppend(l: Layout, b: Blk)
    ensures FreeSum(l + [b]) == FreeSum(l) + (if b.free then b.size else 0)
    ensures UsedSum(l + [b]) == UsedSum(l) + (if b.free then 0 else b.size)
  {
    assert (l + [b])[..|l|] == l;
  }

  /** Every byte of the pool is header, free or in use. */
  lemma {:induction false} Conservation(l: Layout, lo: nat, hi: nat)
    requires Tiled(l, lo, hi)
    ensures FreeSum(l) + UsedSum(l) + HDR * |l| == hi - lo
    decreases |l|
  {
    var n := |l| - 1;
    var last := l[n];
    var front := l[..n];
    assert l == front + [last];
    SumsAppend(front, last);
    if n > 0 {
      assert front[n - 1] == l[n - 1];
      Conservation(front, lo, last.addr);
    } else {
      assert front == [];
    }
  }

  lemma SomeUsed(l: Layout)
    requires Coalesced(l) && |l| > 1
    ensures exists i :: 0 <= i < |l| && !l[i].free
  {
    assert !(l[0].free && l[0 + 1].free);
  }

  /** A fully free pool is one block: the state heap_init() builds. */
  lemma AllFreeIsOne(l: Layout, lo: nat, hi: nat)
    requires Ok(l, lo, hi) && forall i :: 0 <= i < |l| ==> l[i].free
    ensures lo + HDR <= hi && l == [Blk(lo, hi - lo - HDR, true)]
  {
    if |l| > 1 { SomeUsed(l); }
  }

  /** The blocks that are free, or that are in use. */
  ghost function Blocks(l: Layout, free: bool): set<Blk> {
    set i | 0 <= i < |l| && l[i].free == free :: l[i]
  }

  ghost function UsedBlocks(l: Layout): set<Blk> {
    Blocks(l, false)
  }

  lemma BlocksConcat(a: Layout, b: Layout, free: bool)
    ensures Blocks(a + b, free) == Blocks(a, free) + Blocks(b, free)
  {
    var s := a + b;
    forall x | x in Blocks(a, free) ensures x in Blocks(s, free) {
      var k :| 0 <= k < |a| && a[k].free == free && a[k] == x;
      assert s[k] == x;
    }
    forall x | x in Blocks(b, free) ensures x in Blocks(s, free) {
      var k :| 0 <= k < |b| && b[k].free == free && b[k] == x;
      assert s[|a| + k] == x;
    }
  }

  lemma BlocksOne(b: Blk, free: bool)
    ensures Blocks([b], free) == if b.free == free then {b} else {}
  {
    assert [b][0] == b;
  }

  /** The blocks around position i. */
  lemma BlocksAround(l: Layout, i: nat, free: bool)
    requires i < |l|
    ensures Blocks(l, free) ==
            Blocks(l[..i], free) + (if l[i].free == free then {l[i]} else {}) + Blocks(l[i + 1..], free)
  {
    assert l == l[..i] + [l[i]] + l[i + 1..];
    BlocksConcat(l[..i] + [l[i]], l[i + 1..], free);
    BlocksConcat(l[..i], [l[i]], free);
    BlocksOne(l[i], free);
  }

  /** No block but the i-th starts inside the i-th. */
  lemma OthersDiffer(l: Layout, lo: nat, hi: nat, i: nat, b: Blk, free: bool)
    requires Tiled(l, lo, hi) && i < |l| && l[i].addr <= b.addr < l[i].End()
    ensures b !in Blocks(l[..i], free) && b !in Blocks(l[i + 1..], free)
  {
    forall k | 0 <= k < |l| && k != i ensures l[k] != b {
      if k < i { Apart(l, lo, hi, k, i); } else { Apart(l, lo, hi, i, k); }
    }
  }

  lemma JoinNextUsed(l: Layout, i: nat)
    requires i < |l| && !l[i].free
    ensures var m := JoinNext(l, i);
            i < |m| && !m[i].free && m[..i] == l[..i] && UsedBlocks(m[i + 1..]) == UsedBlocks(l[i + 1..])
  {
    var m := JoinNext(l, i);
    if i + 1 < |l| && l[i + 1].free {
      assert m[i + 1..] == l[i + 2..];
      assert l[i + 1..] == [l[i + 1]] + l[i + 2..];
      BlocksConcat([l[i + 1]], l[i + 2..], false);
      BlocksOne(l[i + 1], false);
    }
  }

  lemma FinishReleaseUsed(m: Layout, i: nat)
    requires i < |m|
    ensures var r := if i > 0 && m[i - 1].free then Merge(m, i - 1) else Mark(m, i, true);
            UsedBlocks(r) == UsedBlocks(m[..i]) + UsedBlocks(m[i + 1..])
  {
    if i > 0 && m[i - 1].free {
      var r := Merge(m, i - 1);
      BlocksAround(r, i - 1, false);
      BlocksOne(r[i - 1], false);
      assert r[..i - 1] == m[..i - 1] && r[i..] == m[i + 1..];
      assert m[..i] == m[..i - 1] + [m[i - 1]];
      BlocksConcat(m[..i - 1], [m[i - 1]], false);
      BlocksOne(m[i - 1], false);
    } else {
      var r := Mark(m, i, true);
      BlocksAround(r, i, false);
      BlocksOne(r[i], false);
      assert r[..i] == m[..i] && r[i + 1..] == m[i + 1..];
    }
  }

  /** Releasing block i leaves every other used block as it was. */
  lemma ReleaseUsed(l: Layout, lo: nat, hi: nat, i: nat)
    requires Tiled(l, lo, hi) && i < |l| && !l[i].free
    ensures UsedBlocks(Release(l, i)) == UsedBlocks(l) - {l[i]}
  {
    JoinNextUsed(l, i);
    FinishReleaseUsed(JoinNext(l, i), i);
    BlocksAround(l, i, false);
    BlocksOne(l[i], false);
    OthersDiffer(l, lo, hi, i, l[i], false);
  }

  lemma SplitUsed(l: Layout, i: nat, p: nat, first: bool, second: bool)
    requires i < |l| && p + HDR <= l[i].size
    ensures var m := Split(l, i, p, first, second);
            UsedBlocks(m) == UsedBlocks(l[..i]) + UsedBlocks([m[i]]) + UsedBlocks([m[i + 1]]) + UsedBlocks(l[i + 1..])
  {
    var m := Split(l, i, p, first, second);
    BlocksAround(m, i, false);
    assert m[..i] == l[..i];
    assert m[i + 1..] == [m[i + 1]] + l[i + 1..];
    BlocksConcat([m[i + 1]], l[i + 1..], false);
  }

  lemma TrimUsed(l: Layout, j: nat, r: nat)
    requires j < |l| && !l[j].free
    ensures var m := Trim(l, j, r);
            && j < |m| && !m[j].free && m[j].addr == l[j].addr && (l[j].size >= r ==> r <= m[j].size < r + 2 * HDR)
            && UsedBlocks(m) == UsedBlocks(l[..j]) + {m[j]} + UsedBlocks(l[j + 1..])
  {
    var m := Trim(l, j, r);
    if l[j].size >= r + 2 * HDR {
      SplitUsed(l, j, r, false, true);
      BlocksOne(m[j + 1], false);
    } else {
      BlocksAround(l, j, false);
    }
    BlocksOne(m[j], false);
  }

  lemma CutLeadUsed(l: Layout, i: nat, lead: nat)
    requires i < |l| && l[i].free && (lead == 0 || HDR <= lead <= l[i].size)
    ensures var m := CutLead(l, i, lead); var j := TakenIndex(i, lead);
            && j < |m| && !m[j].free && m[j].addr == l[i].addr + lead && m[j].size == l[i].size - lead
            && UsedBlocks(m[..j]) == UsedBlocks(l[..i]) && m[j + 1..] == l[i + 1..]
  {
    var m := CutLead(l, i, lead);
    if lead > 0 {
      assert m[..i + 1] == l[..i] + [m[i]];
      BlocksConcat(l[..i], [m[i]], false);
      BlocksOne(m[i], false);
    }
  }

  /** b is in use since, and nothing else changed hands. */
  ghost predicate IsNew(before: Layout, after: Layout, b: Blk) {
    UsedBlocks(after) == UsedBlocks(before) + {b} && b !in UsedBlocks(before)
  }

  /**
   Taking a block adds one used block, where asked and large enough but without room for
   another, and leaves the others as they were.
   */
  lemma TakeUsed(l: Layout, lo: nat, hi: nat, i: nat, lead: nat, r: nat)
    requires Tiled(l, lo, hi) && CanTake(l, i, lead, r)
    ensures var m := Take(l, i, lead, r); var j := TakenIndex(i, lead);
            && j < |m| && !m[j].free && m[j].addr == l[i].addr + lead && r <= m[j].size < r + 2 * HDR
            && IsNew(l, m, m[j])
  {
    CutLeadUsed(l, i, lead);
    TrimUsed(CutLead(l, i, lead), TakenIndex(i, lead), r);
    BlocksAround(l, i, false);
    BlocksOne(l[i], false);
    OthersDiffer(l, lo, hi, i, Take(l, i, lead, r)[TakenIndex(i, lead)], false);
  }

  // ------------------------------------------------- the free blocks

  lemma MarkFree(l: Layout, lo: nat, hi: nat, i: nat)
    requires Tiled(l, lo, hi) && i < |l|
    ensures !l[i].free ==> Blocks(Mark(l, i, true), true) == Blocks(l, true) + {l[i].(free := true)}
    ensures l[i].free ==> Blocks(Mark(l, i, false), true) == Blocks(l, true) - {l[i]}
    ensures !l[i].free ==> forall b :: b in Blocks(l, true) ==> b.addr != l[i].addr
    ensures l[i].free ==> forall b :: b in Blocks(l, true) && b.addr == l[i].addr ==> b == l[i]
  {
    var m := Mark(l, i, !l[i].free);
    assert m[..i] == l[..i] && m[i + 1..] == l[i + 1..];
    BlocksAround(l, i, true);
    BlocksAround(m, i, true);
    OthersDiffer(l, lo, hi, i, l[i], true);
    forall b | b in Blocks(l, true) && b.addr == l[i].addr ensures b == l[i] {
      OthersDiffer(l, lo, hi, i, b, true);
    }
  }

  lemma CutUsedKeepsFree(l: Layout, i: nat, p: nat)
    requires i < |l| && p + HDR <= l[i].size && !l[i].free
    ensures Blocks(Split(l, i, p, false, false), true) == Blocks(l, true)
  {
    var m := Split(l, i, p, false, false);
    BlocksAround(l, i, true);
    BlocksAround(m, i, true);
    assert m[..i] == l[..i];
    assert m[i + 1..] == [m[i + 1]] + l[i + 1..];
    BlocksConcat([m[i + 1]], l[i + 1..], true);
    BlocksOne(m[i + 1], true);
  }

  lemma MergeUsedKeepsFree(l: Layout, i: nat)
    requires i + 1 < |l| && !l[i].free && !l[i + 1].free
    ensures Blocks(Merge(l, i), true) == Blocks(l, true)
  {
    var m := Merge(l, i);
    BlocksAround(l, i, true);
    BlocksAround(m, i, true);
    assert m[..i] == l[..i] && m[i + 1..] == l[i + 2..];
    assert l[i + 1..] == [l[i + 1]] + l[i + 2..];
    BlocksConcat([l[i + 1]], l[i + 2..], true);
    BlocksOne(l[i + 1], true);
  }

  lemma {:induction false} FreeSumConcat(a: Layout, b: Layout)
    ensures FreeSum(a + b) == FreeSum(a) + FreeSum(b)
    decreases |b|
  {
    if b == [] {
      assert a + b == a;
    } else {
      var n := |b| - 1;
      assert a + b == (a + b[..n]) + [b[n]];
      SumsAppend(a + b[..n], b[n]);
      FreeSumConcat(a, b[..n]);
    }
  }

  function FreeSize(b: Blk): nat {
    if b.free then b.size else 0
  }

  lemma FreeSumAround(l: Layout, i: nat)
    requires i < |l|
    ensures FreeSum(l) == FreeSum(l[..i]) + FreeSize(l[i]) + FreeSum(l[i + 1..])
  {
    assert l == l[..i] + [l[i]] + l[i + 1..];
    FreeSumConcat(l[..i] + [l[i]], l[i + 1..]);
    SumsAppend(l[..i], l[i]);
  }

  lemma MarkFreeSum(l: Layout, i: nat, free: bool)
    requires i < |l|
    ensures FreeSum(Mark(l, i, free)) == FreeSum(l) - FreeSize(l[i]) + (if free then l[i].size else 0)
  {
    var m := Mark(l, i, free);
    FreeSumAround(l, i);
    FreeSumAround(m, i);
    assert m[..i] == l[..i] && m[i + 1..] == l[i + 1..];
  }

  lemma OneFreeSum(b: Blk, l: Layout)
    ensures FreeSum([b] + l) == FreeSize(b) + FreeSum(l)
  {
    FreeSumConcat([b], l);
    assert FreeSum([b][..0]) == 0;
  }

  lemma FreeSumPair(a: Layout, x: Blk, y: Blk, b: Layout)
    ensures FreeSum(a + [x, y] + b) == FreeSum(a) + FreeSize(x) + FreeSize(y) + FreeSum(b)
  {
    hide FreeSum;
    assert a + [x, y] + b == a + ([x] + ([y] + b));
    FreeSumConcat(a, [x] + ([y] + b));
    OneFreeSum(x, [y] + b);
    OneFreeSum(y, b);
  }

  lemma SplitFreeSum(l: Layout, i: nat, p: nat, first: bool, second: bool)
    requires i < |l| && p + HDR <= l[i].size
    ensures FreeSum(Split(l, i, p, first, second)) ==
            FreeSum(l) - FreeSize(l[i]) + (if first then p else 0) + (if second then l[i].size - p - HDR else 0)
  {
    hide FreeSum;
    var b := l[i];
    FreeSumAround(l, i);
    FreeSumPair(l[..i], Blk(b.addr, p, first), Blk(b.addr + HDR + p, b.size - p - HDR, second), l[i + 1..]);
  }

  /** What a taken block costs: its own bytes and the headers of the blocks that were split off. */
  lemma TakeFreeSum(l: Layout, i: nat, lead: nat, r: nat)
    requires CanTake(l, i, lead, r)
    ensures var m := Take(l, i, lead, r); var j := TakenIndex(i, lead);
            && j < |m| && |l| <= |m| <= |l| + 2
            && FreeSum(m) == FreeSum(l) - m[j].size - HDR * (|m| - |l|)
  {
    var n, j := CutLead(l, i, lead), TakenIndex(i, lead);
    if lead == 0 { MarkFreeSum(l, i, false); } else { SplitFreeSum(l, i, lead - HDR, true, false); }
    if n[j].size >= r + 2 * HDR { SplitFreeSum(n, j, r, false, true); }
  }

  lemma MergeFreeSum(l: Layout, i: nat)
    requires i + 1 < |l|
    ensures FreeSum(Merge(l, i)) == FreeSum(l) - FreeSize(l[i]) - FreeSize(l[i + 1]) + FreeSize(Merge(l, i)[i])
  {
    hide FreeSum;
    var m := Merge(l, i);
    FreeSumAround(l, i);
    FreeSumAround(m, i);
    assert m[..i] == l[..i] && m[i + 1..] == l[i + 2..];
    assert l[i + 1..] == [l[i + 1]] + l[i + 2..];
    OneFreeSum(l[i + 1], l[i + 2..]);
  }

  /** What a release gives back: the block's bytes and the headers of the blocks joined away. */
  lemma ReleaseFreeSum(l: Layout, i: nat)
    requires i < |l| && !l[i].free
    ensures FreeSum(Release(l, i)) == FreeSum(l) + l[i].size + HDR * (|l| - |Release(l, i)|)
  {
    var m := JoinNext(l, i);
    if i + 1 < |l| && l[i + 1].free { MergeFreeSum(l, i); }
    if i > 0 && m[i - 1].free { MergeFreeSum(m, i - 1); } else { MarkFreeSum(m, i, true); }
  }

  lemma TailMembers(order: seq<Blk>, s: set<Blk>)
    requires order != [] && (forall b :: b in order <==> b in s)
    requires forall i, j :: 0 <= i < j < |order| ==> order[i] != order[j]
    ensures forall b :: b in order[1..] <==> b in s - {order[0]}
  {
    assert order == [order[0]] + order[1..];
  }

  /** `order` releases blocks of l one after the other and ends in `last`. */
  ghost predicate Releases(l: Layout, order: seq<Blk>, last: Layout)
    decreases |order|
  {
    if order == [] then l == last
    else exists i :: 0 <= i < |l| && l[i] == order[0] && !l[i].free && Releases(Release(l, i), order[1..], last)
  }

  /**
   Releasing all used blocks, in whatever order, is always possible and always
   ends with the single free block the pool started as.
   */
  lemma {:induction false} ReleaseAllAnyOrder(l: Layout, lo: nat, hi: nat, order: seq<Blk>)
    requires Ok(l, lo, hi)
    requires forall b :: b in order <==> b in UsedBlocks(l)
    requires forall i, j :: 0 <= i < j < |order| ==> order[i] != order[j]
    ensures lo + HDR <= hi && Releases(l, order, [Blk(lo, hi - lo - HDR, true)])
    decreases |order|
  {
    hide Tiled, Coalesced, Release;
    if order == [] {
      assert UsedBlocks(l) == {};
      assert forall i :: 0 <= i < |l| && !l[i].free ==> l[i] in UsedBlocks(l);
      AllFreeIsOne(l, lo, hi);
    } else {
      assert order[0] in UsedBlocks(l);
      var i :| 0 <= i < |l| && !l[i].free && l[i] == order[0];
      ReleaseOk(l, lo, hi, i);
      ReleaseUsed(l, lo, hi, i);
      TailMembers(order, UsedBlocks(l));
      ReleaseAllAnyOrder(Release(l, i), lo, hi, order[1..]);
    }
  }
}
