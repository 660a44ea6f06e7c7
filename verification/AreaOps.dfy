/**
 The operations on areas (kernel/mem/area.c) and the memory calls built on them
 (kernel/mem/mem.c).  Every operation runs under the area lock, so each is one
 step.  An allocation that fails is a parameter.
 */
module AreaOps {
  import opened AreaForest
  import opened Sequences
  import Powers

  datatype Status = Ok | EInval | ENoMem | EPerm | ESrch

  datatype MapFlag = MapPeriph | MapShared | MapAnon

  const COUNT_LIMIT := 0x1_0000  // the set's record count is a uint16_t

  function CountIn(count: map<SetId, nat>, s: SetId): nat {
    if s in count then count[s] else 0
  }

  ghost predicate CountsOk(sets: Sets, count: map<SetId, nat>) {
    forall s: SetId :: CountIn(count, s) == |ListOf(sets, s)| % COUNT_LIMIT
  }

  /** Each backing record that ever existed is either alive or was retired once. */
  ghost predicate RetireOk(f: Forest, retired: seq<Id>, ever: set<Id>, next: Id) {
    && Distinct(retired)
    && (forall x :: x in ever <==> (x in f && f[x].backed) || x in retired)
    && (forall x :: x in retired ==> x !in f && x < next)
  }

  ghost predicate Fresh(f: Forest, next: Id) {
    forall x :: x in f ==> x < next
  }

  /** In the middle of dropping: `dropped` records are out of their sets, `gone` records are freed. */
  ghost predicate Mid(f: Forest, sets: Sets, f0: Forest, sets0: Sets, dropped: set<Id>, gone: set<Id>) {
    && Linked(f0) && HeldOk(f0, sets0)
    && Removable(f0, dropped, gone)
    && f == Cut(f0, dropped, gone) && sets == CutSets(sets0, dropped)
  }

  /** The sets reported since drops0 are exactly those that lost one of the dropped records. */
  ghost predicate Reported(f0: Forest, dropped: set<Id>, drops0: seq<SetId>, drops: seq<SetId>) {
    && drops0 <= drops
    && (forall x :: x in dropped && x in f0 && f0[x].holder.Some? ==> f0[x].holder.value in drops[|drops0|..])
    && (forall s :: s in drops[|drops0|..] ==> exists x :: x in dropped && x in f0 && f0[x].holder == Some(s))
  }

  lemma NothingDropped(f: Forest, drops: seq<SetId>)
    ensures Reported(f, {}, drops, drops)
  {
  }

  lemma ReportMore(f0: Forest, sets0: Sets, f: Forest, sets: Sets, dropped: set<Id>, gone: set<Id>, drops0: seq<SetId>,
                   drops: seq<SetId>, x: Id)
    requires Mid(f, sets, f0, sets0, dropped, gone) && x in f && (x in dropped ==> x in gone)
    requires Reported(f0, dropped, drops0, drops)
    ensures x in f0 && f[x].holder == f0[x].holder
    ensures Reported(f0, dropped + {x}, drops0, drops + (if f[x].holder.Some? then [f[x].holder.value] else []))
  {
    var more := if f[x].holder.Some? then [f[x].holder.value] else [];
    assert (drops + more)[|drops0|..] == drops[|drops0|..] + more;
  }

  class Areas {
    var f: Forest
    var sets: Sets
    var count: map<SetId, nat>
    var next: Id
    var retired: seq<Id>     // records handed to ulmk_kern_area_retire, oldest first
    var drops: seq<SetId>    // calls of ulmk_kern_area_dropped, oldest first
    ghost var ever: set<Id>  // every backing record created so far

    ghost predicate Valid()
      reads this
    {
      && Linked(f) && Fresh(f, next) && Derived(f) && NoIdleOrphan(f) && HeldOk(f, sets)
      && CountsOk(sets, count) && RetireOk(f, retired, ever, next)
    }

    constructor ()
      ensures Valid() && f == map[] && sets == map[] && retired == []
    {
      f, sets, count, next, retired, drops, ever := map[], map[], map[], 0, [], [], {};
    }

    /** set_unlink() */
    method SetUnlink(a: Id)
      requires a in f && HeldOk(f, sets) && CountsOk(sets, count)
      modifies `f, `sets, `count, `drops
      ensures f == old(f)[a := old(f)[a].(holder := None)]
      ensures sets == CutSets(old(sets), {a}) && CountsOk(sets, count)
      ensures drops == old(drops) + (if old(f)[a].holder.Some? then [old(f)[a].holder.value] else [])
      ensures RetireOk(old(f), retired, ever, next) ==> RetireOk(f, retired, ever, next)
    {
      hide CountsOk, CutSets, Keep, Sorted;
      var h := f[a].holder;
      if h.None? {
        UnlistedKept(f, sets, a);
        return;
      }
      var s := h.value;
      assert Listed(f, sets, a) && SetOk(f, sets, s);
      var l := ListOf(sets, s);
      var i := FindIn(l, a);
      KeepOne(l, i);
      OthersKept(f, sets, s, a);
      CountAfter(sets, count, s, l[..i] + l[i + 1..]);
      sets := sets[s := l[..i] + l[i + 1..]];
      count := count[s := (CountIn(count, s) + COUNT_LIMIT - 1) % COUNT_LIMIT];
      f := f[a := f[a].(holder := None)];
      drops := drops + [s];
    }

    /** parent_unlink() and the freeing of a record that is in no set and has no children. */
    method FreeLeaf(c: Id)
      requires c in f && Linked(f) && RetireOk(f, retired, ever, next) && Fresh(f, next)
      modifies `f, `retired
      ensures f == WithoutLeaf(old(f), c)
      ensures RetireOk(f, retired, ever, next)
      ensures retired == old(retired) + (if old(f)[c].backed then [c] else [])
    {
      hide Keep, NodeOk, RetireOk, Fresh, WithoutLeaf;
      var p := f[c].parent;
      ghost var f0 := f;
      LeafGone(f, c, retired, ever, next);
      assert retired + [] == retired;
      if p.Some? {
        ChildOf(f, c);
        var i := FindIn(f[p.value].kids, c);
        f := f[p.value := f[p.value].(kids := f[p.value].kids[..i] + f[p.value].kids[i + 1..])];
        UnchainedIs(f0, c, i);
      } else {
        RootGone(f, c);
      }
      if f[c].backed {
        retired := retired + [c];
      }
      f := f - {c};
    }

    /** release_up(): free a, then every ancestor that was only kept for what is now gone. */
    method ReleaseUp(a: Id, ghost f0: Forest, ghost sets0: Sets, ghost dropped: set<Id>, ghost gone0: set<Id>)
      returns (ghost gone: set<Id>)
      requires Mid(f, sets, f0, sets0, dropped, gone0) && Fresh(f, next) && RetireOk(f, retired, ever, next)
      requires a in f && f[a].holder.None? && f[a].kids == [] && OnlyIdle(f, a)
      modifies `f, `retired
      ensures Mid(f, sets, f0, sets0, dropped, gone) && gone0 <= gone && NoIdleOrphan(f)
      ensures Fresh(f, next) && RetireOk(f, retired, ever, next) && old(retired) <= retired
    {
      hide Keep, Removable, HeldOk, Linked, Cut, CutSets, RetireOk, NodeOk;
      gone := gone0;
      var c, more := a, true;
      while more
        invariant Mid(f, sets, f0, sets0, dropped, gone) && gone0 <= gone
        invariant Fresh(f, next) && RetireOk(f, retired, ever, next) && old(retired) <= retired
        invariant if more then c in f && f[c].holder.None? && f[c].kids == [] && OnlyIdle(f, c) else NoIdleOrphan(f)
        decreases if more then |f| + 1 else 0
      {
        FreeLeafMid(f, sets, f0, sets0, dropped, gone, c);
        var p := f[c].parent;
        ghost var g := f;
        FreeLeaf(c);
        gone := gone + {c};
        WithoutLeafShape(g, c);
        if p.None? || f[p.value].holder.Some? || f[p.value].kids != [] {
          more := false;
        } else {
          c := p.value;
        }
      }
    }

    /** Free a childless record that is the first of its parent's chain. */
    method FreeFirstChild(n: Id, p: Id)
      requires n in f && Linked(f) && RetireOk(f, retired, ever, next) && Derived(f)
      requires f[n].parent == Some(p) && p in f && f[p].kids != [] && f[p].kids[0] == n
      modifies `f
      ensures f == WithoutLeaf(old(f), n) && RetireOk(f, retired, ever, next)
    {
      hide Keep;
      assert NodeOk(f, n) && NodeOk(f, p);
      assert f[p].kids[0] == n;
      KeepOne(f[p].kids, 0);
      assert f[p].kids[..0] + f[p].kids[1..] == f[p].kids[1..];
      f := f[p := f[p].(kids := f[p].kids[1..])];
      f := f - {n};
      assert f == WithoutLeaf(old(f), n);
    }

    /** The post-order loop of ulmk_area_revoke(): everything derived from a goes, leaves first. */
    method DropBelow(a: Id) returns (ghost gone: set<Id>)
      requires Valid() && a in f
      modifies `f, `sets, `count, `drops
      ensures Mid(f, sets, old(f), old(sets), gone, gone) && gone + {a} == Subtree(old(f), a) && HeldOk(f, sets)
      ensures a in f && f[a].kids == [] && OnlyIdle(f, a) && a !in gone
      ensures Fresh(f, next) && CountsOk(sets, count) && RetireOk(f, retired, ever, next)
      ensures Reported(old(f), gone, old(drops), drops)
    {
      hide Keep, Removable, HeldOk, Linked, Cut, CutSets, RetireOk, NodeOk, CountsOk, Derived, Subtree, WithoutLeaf,
        Reported;
      ghost var f0, sets0 := f, sets;
      gone := {};
      NothingDropped(f, drops);
      StartMid(f, sets);
      var n := a;
      while f[n].kids != [] || n != a
        invariant Mid(f, sets, f0, sets0, gone, gone) && Linked(f) && HeldOk(f, sets) && Derived(f)
        invariant a in f && n in f && FirstChain(f, n, a) && Under(f0, n, a) && OnlyIdle(f, n)
        invariant gone <= Subtree(f0, a) - {a} && Reported(f0, gone, old(drops), drops)
        invariant Fresh(f, next) && CountsOk(sets, count) && RetireOk(f, retired, ever, next)
        decreases |f|, next - n
      {
        if f[n].kids != [] {
          FirstKid(f, f0, n, a, gone);
          n := f[n].kids[0];
        } else {
          var p := f[n].parent.value;
          UnheldLeaf(f, n, a, p);
          FreedLeaf(f, n, a, p);
          DropLeaf(f, sets, f0, sets0, gone, n, a, p);
          ReportMore(f0, sets0, f, sets, gone, gone, old(drops), drops, n);
          SetUnlink(n);
          WithoutLeafShape(f, n);
          FreeFirstChild(n, p);
          gone := gone + {n};
          n := p;
        }
      }
      WholeSubtree(f0, gone, a);
    }

    /**
     ulmk_area_revoke(): the records derived from a leave their sets, and exactly the
     records that nothing held derives from any more are freed.
     */
    method Revoke(a: Id)
      requires Valid() && a in f
      modifies this
      ensures Valid() && next == old(next) && ever == old(ever) && old(retired) <= retired
      ensures var d := Subtree(old(f), a);
              && f == Cut(old(f), d, Unneeded(old(f), d)) && sets == CutSets(old(sets), d)
              && RetiredExactly(old(f), old(retired), retired, Unneeded(old(f), d))
              && Reported(old(f), d, old(drops), drops)
    {
      hide Keep, Removable, HeldOk, Linked, Cut, CutSets, RetireOk, NodeOk, CountsOk, Derived, Subtree, Reported;
      ghost var f0, sets0 := f, sets;
      ghost var gone := DropBelow(a);
      UnlinkMid(f, sets, f0, sets0, gone, gone, a);
      ReportMore(f0, sets0, f, sets, gone, gone, old(drops), drops, a);
      SetUnlink(a);
      gone := ReleaseUp(a, f0, sets0, gone + {a}, gone);
      EndMid(f, sets, f0, sets0, Subtree(f0, a), gone, next);
      RetiredIs(f0, old(retired), f, retired, ever, next, Subtree(f0, a), gone);
    }

    /**
     ulmk_area_set_release(): the set empties; what was derived from its records
     stays, and with it the records it needs, now orphaned.
     */
    method SetRelease(s: SetId)
      requires Valid()
      modifies this
      ensures Valid() && next == old(next) && ever == old(ever) && old(retired) <= retired
      ensures var d := Members(ListOf(old(sets), s));
              && f == Cut(old(f), d, Unneeded(old(f), d)) && sets == CutSets(old(sets), d)
              && RetiredExactly(old(f), old(retired), retired, Unneeded(old(f), d))
              && Reported(old(f), d, old(drops), drops)
    {
      hide Keep, Removable, HeldOk, Linked, Cut, CutSets, RetireOk, NodeOk, CountsOk, Derived, Reported;
      ghost var f0, sets0, dropped, gone := f, sets, {}, {};
      NothingDropped(f, drops);
      StartMid(f, sets);
      while ListOf(sets, s) != []
        invariant Mid(f, sets, f0, sets0, dropped, gone) && HeldOk(f, sets) && NoIdleOrphan(f)
        invariant dropped <= Members(ListOf(sets0, s)) && Reported(f0, dropped, old(drops), drops)
        invariant Fresh(f, next) && CountsOk(sets, count) && RetireOk(f, retired, ever, next)
        invariant next == old(next) && ever == old(ever) && old(retired) <= retired
        decreases |ListOf(sets, s)|
      {
        var a := ListOf(sets, s)[0];
        HeadOf(f, sets, f0, sets0, dropped, gone, s);
        UnlinkMid(f, sets, f0, sets0, dropped, gone, a);
        ReportMore(f0, sets0, f, sets, dropped, gone, old(drops), drops, a);
        SetUnlink(a);
        dropped := dropped + {a};
        if f[a].kids == [] {
          gone := ReleaseUp(a, f0, sets0, dropped, gone);
        }
        CutHeld(f0, sets0, dropped, gone);
      }
      AllDropped(sets0, dropped, s);
      EndMid(f, sets, f0, sets0, dropped, gone, next);
      RetiredIs(f0, old(retired), f, retired, ever, next, dropped, gone);
    }

    /** The scan of ulmk_area_insert(): where the new record goes in list order. */
    method FindSlot(s: SetId, base: nat, size: nat) returns (taken: bool, i: nat)
      requires Valid() && size > 0
      ensures taken <==> Taken(f, ListOf(sets, s), base, size)
      ensures !taken ==>
                && i <= |ListOf(sets, s)|
                && (forall j :: 0 <= j < i && ListOf(sets, s)[j] in f ==>
                      f[ListOf(sets, s)[j]].base + f[ListOf(sets, s)[j]].size <= base)
                && (forall j :: i <= j < |ListOf(sets, s)| && ListOf(sets, s)[j] in f ==>
                      base + size <= f[ListOf(sets, s)[j]].base)
    {
      hide Linked, Derived, CountsOk, RetireOk, Keep, NoIdleOrphan;
      var l := ListOf(sets, s);
      SetIs(f, sets, s);
      hide HeldOk;
      i := 0;
      while i < |l| && f[l[i]].base < base
        invariant 0 <= i <= |l|
        invariant forall j :: 0 <= j < i ==> !Overlaps(f[l[j]], base, size) && f[l[j]].base < base
      {
        if Overlaps(f[l[i]], base, size) {
          assert l[i] in l;
          return true, i;
        }
        i := i + 1;
      }
      if i < |l| && Overlaps(f[l[i]], base, size) {
        assert l[i] in l;
        return true, i;
      }
      NotTaken(f, l, base, size, i);
      taken := false;
    }

    /** ulmk_area_insert() */
    method Insert(s: SetId, base: nat, size: nat, perms: set<Perm>, kind: Kind, backed: bool, parent: Option<Id>,
                  oom: bool)
      returns (rc: Status)
      requires Valid() && base < ADDR_LIMIT && size < ADDR_LIMIT
      requires parent.Some? ==> && parent.value in f && base == f[parent.value].base && size == f[parent.value].size
                                && perms <= f[parent.value].perms && !backed
      modifies this
      ensures Valid()
      ensures rc == InsertStatus(old(f), old(ListOf(sets, s)), base, size, oom)
      ensures rc != Ok ==> unchanged(this)
      ensures rc == Ok ==>
                && next == old(next) + 1 && retired == old(retired) && drops == old(drops)
                && f == WithNew(old(f), old(next), Area(parent, [], Some(s), base, size, perms, kind, backed))
                && InsertedIn(old(sets), sets, s, old(next))
      ensures rc == Ok ==>
                && f.Keys == old(f).Keys + {old(next)} && old(next) !in old(f)
                && f[old(next)] == Area(parent, [], Some(s), base, size, perms, kind, backed)
                && (forall x :: x in old(f) ==>
                      f[x] == if parent == Some(x) then old(f)[x].(kids := [old(next)] + old(f)[x].kids) else old(f)[x])
      ensures rc == Ok ==>
                && (forall x :: x in ListOf(sets, s) <==> x in old(ListOf(sets, s)) || x == old(next))
                && (forall t :: t != s ==> ListOf(sets, t) == old(ListOf(sets, t)))
      ensures rc == EInval || rc == ENoMem || rc == Ok
      ensures rc == EInval <==>
                || size == 0 || base + size >= ADDR_LIMIT
                || exists x, b: nat :: && x in old(ListOf(sets, s)) && x in old(f) && Covers(old(f)[x], b)
                                       && base <= b < base + size
      ensures rc == ENoMem ==> oom
      ensures rc == Ok ==> !oom
    {
      hide Linked, Derived, HeldOk, CountsOk, RetireOk, Keep, NoIdleOrphan;
      if size == 0 || base + size >= ADDR_LIMIT { return EInval; }
      SizesOf(f, sets, s);
      SharedByte(f, ListOf(sets, s), base, size);
      var taken, i := FindSlot(s, base, size);
      if taken { return EInval; }
      if oom { return ENoMem; }
      var a := Area(parent, [], Some(s), base, size, perms, kind, backed);
      NewRecord(f, sets, count, retired, ever, next, s, a, i);
      InsertedMembers(ListOf(sets, s), i, next);
      f := f[next := a];
      if parent.Some? {
        f := f[parent.value := f[parent.value].(kids := [next] + f[parent.value].kids)];
      }
      sets := sets[s := ListOf(sets, s)[..i] + [next] + ListOf(sets, s)[i..]];
      count := count[s := (CountIn(count, s) + 1) % COUNT_LIMIT];
      if backed { ever := ever + {next}; }
      next := next + 1;
      rc := Ok;
    }

    /** ulmk_area_find_base() */
    method FindBase(s: SetId, base: nat) returns (r: Option<Id>)
      requires Valid()
      ensures r.Some? ==> r.value in ListOf(sets, s) && r.value in f && f[r.value].base == base
      ensures forall x :: x in ListOf(sets, s) && x in f && f[x].base == base ==> r == Some(x)
    {
      SetIs(f, sets, s);
      var l := ListOf(sets, s);
      var i := 0;
      while i < |l| && f[l[i]].base <= base
        invariant 0 <= i <= |l| && forall j :: 0 <= j < i ==> f[l[j]].base != base
      {
        if f[l[i]].base == base {
          SameBase(f, l, i, base);
          return Some(l[i]);
        }
        i := i + 1;
      }
      return None;
    }

    /** ulmk_area_find(): at most one record of a set covers an address. */
    method Find(s: SetId, addr: nat) returns (r: Option<Id>)
      requires Valid()
      ensures r.Some? ==> r.value in ListOf(sets, s) && r.value in f && Covers(f[r.value], addr)
      ensures forall x :: x in ListOf(sets, s) && x in f && Covers(f[x], addr) ==> r == Some(x)
    {
      SetIs(f, sets, s);
      var l := ListOf(sets, s);
      var i := 0;
      while i < |l| && f[l[i]].base <= addr
        invariant 0 <= i <= |l| && forall j :: 0 <= j < i ==> !Covers(f[l[j]], addr)
      {
        if addr - f[l[i]].base < f[l[i]].size {
          CoversOne(f, l, i, addr);
          return Some(l[i]);
        }
        i := i + 1;
      }
      return None;
    }

    /**
     ulmk_kern_mem_map(): a new origin.  An ANON mapping is backed by a heap block of the
     rounded size, at `block` if the heap had one; the block ends up owned by the new
     record or given back.  Records are aligned to `align`, a power of two.
     */
    method MemMap(cur: SetId, hint: nat, size: nat, perms: set<Perm>, flags: set<MapFlag>, align: nat,
                  block: Option<nat>, oom: bool)
      returns (rc: Status, base: nat, givenBack: bool)
      requires Valid() && hint < ADDR_LIMIT && size < ADDR_LIMIT && align > 0
      requires block.Some? ==> block.value < ADDR_LIMIT
      modifies this
      ensures Valid() && (rc != Ok ==> unchanged(this))
      ensures size == 0 || flags == {} ==> rc == EInval && !givenBack
      ensures size != 0 && flags != {} && !IsAnon(flags) ==>
                && !givenBack && base == hint
                && rc == (if hint == 0 then EInval else InsertStatus(old(f), old(ListOf(sets, cur)), hint, size, oom))
      ensures size != 0 && IsAnon(flags) ==>
                if block.None? then rc == ENoMem && !givenBack
                else && rc == InsertStatus(old(f), old(ListOf(sets, cur)), block.value, RoundedSize(size, align), oom)
                     && (givenBack <==> rc != Ok) && base == block.value
      ensures rc == Ok ==>
                var len := if IsAnon(flags) then RoundedSize(size, align) else size;
                var a := Area(None, [], Some(cur), base, len, perms, KindOf(flags), IsAnon(flags));
                f == WithNew(old(f), old(next), a) && InsertedIn(old(sets), sets, cur, old(next))
      ensures rc == Ok ==>
                && old(next) in f && old(next) !in old(f) && old(next) in ListOf(sets, cur)
                && var g := f[old(next)];
                && g.parent.None? && g.holder == Some(cur) && g.kids == [] && g.base == base && g.perms == perms
                && (MapPeriph in flags ==> g.kind == Periph && !g.backed && g.size == size && g.base == hint)
                && (MapPeriph !in flags && MapShared in flags ==>
                      g.kind == Shared && !g.backed && g.size == size && g.base == hint)
                && (flags == {MapAnon} ==>
                      && g.kind == HeapKind && g.backed && block == Some(g.base)
                      && (size + align <= ADDR_LIMIT ==> g.size % align == 0 && size <= g.size < size + align))
    {
      rc, base, givenBack := EInval, hint, false;
      if size == 0 || flags == {} { return; }
      var len := size;
      if IsAnon(flags) {
        len := RoundedSize(size, align);
        if block.None? { return ENoMem, hint, false; }
        base := block.value;
      } else if hint == 0 {
        return;
      }
      RoundedSmall(size, align);
      OnlyAnon(flags);
      rc := Insert(cur, base, len, perms, KindOf(flags), IsAnon(flags), None, oom);
      givenBack := rc != Ok && IsAnon(flags);
    }

    /** ulmk_kern_mem_unmap() up to its settle. */
    method MemUnmap(cur: SetId, addr: nat) returns (rc: Status)
      requires Valid()
      modifies this
      ensures Valid() && (rc != Ok ==> rc == EInval && unchanged(this))
      ensures rc == Ok <==> addr != 0 && !NoneAt(old(f), old(ListOf(sets, cur)), addr)
      ensures forall x :: rc == Ok && IsAt(old(f), old(ListOf(sets, cur)), addr, x) ==>
                Revoked(old(f), old(sets), old(retired), old(drops), x, f, sets, retired, drops)
    {
      hide Linked, Derived, HeldOk, CountsOk, RetireOk, NoIdleOrphan, Cut, CutSets, Subtree, RetiredExactly, Reported;
      if addr == 0 { return EInval; }
      var a := FindBase(cur, addr);
      if a.None? { return EInval; }
      assert IsAt(f, ListOf(sets, cur), addr, a.value);
      Revoke(a.value);
      rc := Ok;
    }

    /**
     ulmk_kern_mem_grant(): the alias keeps the range, narrows the permissions and never
     owns the block.  `target` is the set of the thread named, if there is one.
     */
    method MemGrant(cur: SetId, addr: nat, target: Option<SetId>, perms: set<Perm>, oom: bool) returns (rc: Status)
      requires Valid()
      modifies this
      ensures Valid() && (rc != Ok ==> unchanged(this))
      ensures addr == 0 ==> rc == EInval
      ensures addr != 0 && target.None? ==> rc == ESrch
      ensures addr != 0 && target.Some? && NoneAt(old(f), old(ListOf(sets, cur)), addr) ==> rc == EPerm
      ensures forall a :: addr != 0 && target.Some? && IsAt(old(f), old(ListOf(sets, cur)), addr, a) ==>
                && rc == InsertStatus(old(f), old(ListOf(sets, target.value)), addr, old(f)[a].size, oom)
                && (rc == Ok ==> && f == WithNew(old(f), old(next), Alias(old(f), a, target.value, perms))
                                 && InsertedIn(old(sets), sets, target.value, old(next)))
      ensures forall a :: rc == Ok && IsAt(old(f), old(ListOf(sets, cur)), addr, a) ==>
                && old(next) in f && old(next) !in old(f) && target.Some? && old(next) in ListOf(sets, target.value)
                && var g := f[old(next)]; var o := old(f)[a];
                && g.parent == Some(a) && g.holder == target && g.kids == [] && !g.backed
                && g.base == o.base && g.size == o.size
                && (forall p :: p in g.perms <==> p in perms && p in o.perms)
                && g.kind == if o.kind == HeapKind then Granted else o.kind
    {
      hide WithNew, InsertedIn, InsertStatus;
      if addr == 0 { return EInval; }
      if target.None? { return ESrch; }
      var a := FindBase(cur, addr);
      if a.None? { return EPerm; }
      var r := Alias(f, a.value, target.value, perms);
      assert IsAt(f, ListOf(sets, cur), addr, a.value);
      rc := Insert(target.value, r.base, r.size, r.perms, r.kind, false, a, oom);
    }

    /**
     ulmk_kern_mem_revoke() up to its settle: nothing changes unless the target's
     record was derived from the caller's.
     */
    method MemRevoke(cur: SetId, addr: nat, target: Option<SetId>) returns (rc: Status)
      requires Valid()
      modifies this
      ensures Valid() && (rc != Ok ==> unchanged(this))
      ensures addr == 0 ==> rc == EInval
      ensures addr != 0 && target.None? ==> rc == ESrch
      ensures addr != 0 && target.Some? && NoneAt(old(f), old(ListOf(sets, cur)), addr) ==> rc == EPerm
      ensures addr != 0 && target.Some? && NoneAt(old(f), old(ListOf(sets, target.value)), addr) ==>
                !NoneAt(old(f), old(ListOf(sets, cur)), addr) ==> rc == EInval
      ensures forall a, t :: addr != 0 && target.Some? && AreAt(old(f), old(sets), cur, target.value, addr, a, t) ==>
                && rc == (if t != a && Under(old(f), t, a) then Ok else EPerm)
                && (rc == Ok ==> Revoked(old(f), old(sets), old(retired), old(drops), t, f, sets, retired, drops))
    {
      hide Derived, HeldOk, CountsOk, RetireOk, NoIdleOrphan, Cut, CutSets, Subtree, RetiredExactly, Reported, Linked;
      if addr == 0 { return EInval; }
      if target.None? { return ESrch; }
      var a := FindBase(cur, addr);
      var t := FindBase(target.value, addr);
      if a.None? { return EPerm; }
      assert IsAt(f, ListOf(sets, cur), addr, a.value);
      if t.None? { return EInval; }
      assert IsAt(f, ListOf(sets, target.value), addr, t.value);
      var found := IsBelow(t.value, a.value);
      if !found { return EPerm; }
      Revoke(t.value);
      rc := Ok;
    }

    /** The walk up the parents in ulmk_kern_mem_revoke(). */
    method IsBelow(t: Id, a: Id) returns (yes: bool)
      requires Linked(f) && t in f
      ensures yes <==> t != a && Under(f, t, a)
    {
      var p := f[t].parent;
      assert NodeOk(f, t);
      if p.Some? && Under(f, p.value, a) { UnderOlder(f, p.value, a); }
      while p.Some? && p.value != a
        invariant p.Some? ==> p.value in f && p.value < t && (t != a && Under(f, t, a) <==> Under(f, p.value, a))
        invariant p.None? ==> !(t != a && Under(f, t, a))
        decreases if p.Some? then p.value + 1 else 0
      {
        assert NodeOk(f, p.value);
        p := f[p.value].parent;
      }
      yes := p.Some?;
    }

    /** One round of ulmk_area_inherit(). */
    method CopyNext(dst: SetId, src: SetId, i: nat, oom: bool) returns (rc: Status)
      requires Valid() && dst != src && i < |ListOf(sets, src)| && forall x :: x in ListOf(sets, src) ==> x in f
      modifies this
      ensures Valid() && ListOf(sets, src) == old(ListOf(sets, src)) && (forall x :: x in ListOf(sets, src) ==> x in f)
      ensures retired == old(retired) && drops == old(drops) && (rc != Ok ==> unchanged(this))
      ensures rc == EInval <==> old(var x := ListOf(sets, src)[i]; Taken(f, ListOf(sets, dst), f[x].base, f[x].size))
      ensures rc == EInval || rc == (if oom then ENoMem else Ok)
      ensures rc == Ok ==>
                && next == old(next) + 1 && InsertedIn(old(sets), sets, dst, old(next))
                && f == WithNew(old(f), old(next), CopyOf(old(f), old(ListOf(sets, src))[i], dst))
      ensures rc == Ok && old(InheritedTo(f, ListOf(sets, dst), ListOf(sets, src), i)) ==>
                InheritedTo(f, ListOf(sets, dst), ListOf(sets, src), i + 1)
      ensures old(AllFree(f, ListOf(sets, dst), ListOf(sets, src), i)) ==>
                && rc == (if oom then ENoMem else Ok)
                && (rc == Ok ==> AllFree(f, ListOf(sets, dst), ListOf(sets, src), i + 1))
    {
      hide Linked, Derived, CountsOk, RetireOk, Keep, NoIdleOrphan, Inherited, Taken, WithNew, InsertedIn, Fresh,
        AllFree, InheritedTo;
      var x := ListOf(sets, src)[i];
      ghost var f0, sets0, n := f, sets, next;
      SetIs(f, sets, src);
      SmallRange(f, x);
      FreeAt(f, ListOf(sets, dst), ListOf(sets, src), i);
      var a := f[x];
      rc := Insert(dst, a.base, a.size, a.perms, a.kind, false, Some(x), oom);
      if rc == Ok {
        SourceKept(f0, sets0, sets, n, dst, src, i);
        if InheritedTo(f0, ListOf(sets0, dst), ListOf(sets0, src), i) {
          StillInherited(f0, sets0, sets, n, dst, src, i);
        }
        StillFree(f0, sets0, sets, n, dst, src, i);
      }
    }

    /**
     ulmk_area_inherit(): each record of src gets a derived record in dst, until one
     cannot be inserted; the copies made before that stay.  `oom` says which allocations fail.
     */
    method Inherit(dst: SetId, src: SetId, oom: set<nat>) returns (rc: Status, ghost done: nat)
      requires Valid() && dst != src
      modifies this
      ensures Valid() && retired == old(retired) && drops == old(drops) && next == old(next) + done
      ensures done <= |old(ListOf(sets, src))| && (rc == Ok <==> done == |old(ListOf(sets, src))|)
      ensures f == AfterCopies(old(f), old(next), old(ListOf(sets, src)), dst, done)
      ensures OnlyGrew(old(sets), sets, dst, old(next), next)
      ensures rc == Ok ==> forall x :: x in ListOf(sets, src) ==> Inherited(f, ListOf(sets, dst), x)
      ensures rc == Ok || rc == EInval || (rc == ENoMem && done in oom)
      ensures old(AllFree(f, ListOf(sets, dst), ListOf(sets, src), 0)) ==>
                rc == if exists k :: 0 <= k < |old(ListOf(sets, src))| && k in oom then ENoMem else Ok
    {
      hide Linked, Derived, CountsOk, RetireOk, NoIdleOrphan, HeldOk, Inherited, SetOk, WithNew, InsertedIn, Fresh,
        AllFree, InheritedTo, AfterCopies, OnlyGrew;
      var l := ListOf(sets, src);
      SetIs(f, sets, src);
      NothingCopied(f, next, l, dst, sets);
      var i := 0;
      done := 0;
      while i < |l|
        invariant 0 <= i == done <= |l| && Valid() && ListOf(sets, src) == l
        invariant retired == old(retired) && drops == old(drops) && next == old(next) + i
        invariant f == AfterCopies(old(f), old(next), l, dst, i) && OnlyGrew(old(sets), sets, dst, old(next), next)
        invariant forall x :: x in l ==> x in f
        invariant InheritedTo(f, ListOf(sets, dst), l, i) && forall k :: 0 <= k < i ==> k !in oom
        invariant old(AllFree(f, ListOf(sets, dst), ListOf(sets, src), 0)) ==> AllFree(f, ListOf(sets, dst), l, i)
      {
        ghost var f0, sets0, n := f, sets, next;
        rc := CopyNext(dst, src, i, i in oom);
        if rc != Ok { return; }
        OneMoreCopy(old(f), old(next), l, dst, i, f0);
        GrewOne(old(sets), sets0, sets, dst, old(next), n);
        i := i + 1;
        done := i;
      }
      AllInherited(f, ListOf(sets, dst), l);
      rc := Ok;
    }
  }

  /** The record of dst that a copy of x makes. */
  ghost function CopyOf(f: Forest, x: Id, dst: SetId): Area
    requires x in f
  {
    Area(Some(x), [], Some(dst), f[x].base, f[x].size, f[x].perms, f[x].kind, false)
  }

  /** The forest after the first k records of l were copied to dst, the copies numbered from n on. */
  ghost function AfterCopies(f: Forest, n: Id, l: seq<Id>, dst: SetId, k: nat): Forest
    requires k <= |l|
    decreases k
  {
    if k == 0 then f
    else
      var g := AfterCopies(f, n, l, dst, k - 1);
      if l[k - 1] in g then WithNew(g, n + k - 1, CopyOf(g, l[k - 1], dst)) else g
  }

  lemma OneMoreCopy(f: Forest, n: Id, l: seq<Id>, dst: SetId, i: nat, g: Forest)
    requires i < |l| && g == AfterCopies(f, n, l, dst, i) && l[i] in g
    ensures AfterCopies(f, n, l, dst, i + 1) == WithNew(g, n + i, CopyOf(g, l[i], dst))
  {
  }

  /** The older records gain children at most, and only the copied ones do; each copy is a leaf under its original. */
  ghost predicate CopiesIn(f: Forest, g: Forest, n: Id, l: seq<Id>, dst: SetId, k: nat)
    requires k <= |l|
  {
    && (forall x :: x in g <==> x in f || n <= x < n + k)
    && (forall x :: x in f && x in g ==> g[x] == f[x].(kids := g[x].kids) && (x !in l[..k] ==> g[x] == f[x]))
    && (forall x :: n <= x < n + k && x in g && l[x - n] in f ==> g[x] == CopyOf(f, l[x - n], dst))
  }

  lemma CopiesStep(f: Forest, g: Forest, n: Id, l: seq<Id>, dst: SetId, k: nat)
    requires Fresh(f, n) && k < |l| && l[k] in f && CopiesIn(f, g, n, l, dst, k)
    ensures l[k] in g && CopiesIn(f, WithNew(g, n + k, CopyOf(g, l[k], dst)), n, l, dst, k + 1)
  {
    var y := l[k];
    assert CopyOf(g, y, dst) == CopyOf(f, y, dst);
    var h := WithNew(g, n + k, CopyOf(g, y, dst));
    assert l[..k + 1] == l[..k] + [y];
    forall x | x in f && x in h ensures h[x] == f[x].(kids := h[x].kids) && (x !in l[..k + 1] ==> h[x] == f[x]) {
      assert x < n;
    }
  }

  lemma {:induction false} CopiesAre(f: Forest, n: Id, l: seq<Id>, dst: SetId, k: nat)
    requires Fresh(f, n) && k <= |l| && forall x :: x in l ==> x in f
    ensures CopiesIn(f, AfterCopies(f, n, l, dst, k), n, l, dst, k)
    decreases k
  {
    hide CopiesIn, WithNew, AfterCopies, Fresh;
    if k == 0 {
      NoCopies(f, n, l, dst);
    } else {
      var g := AfterCopies(f, n, l, dst, k - 1);
      CopiesAre(f, n, l, dst, k - 1);
      assert l[k - 1] in l;
      CopiesStep(f, g, n, l, dst, k - 1);
      OneMoreCopy(f, n, l, dst, k - 1, g);
    }
  }

  lemma NoCopies(f: Forest, n: Id, l: seq<Id>, dst: SetId)
    ensures CopiesIn(f, AfterCopies(f, n, l, dst, 0), n, l, dst, 0)
  {
  }

  /** Only dst changed, and it gained exactly the records numbered from n to m. */
  ghost predicate OnlyGrew(before: Sets, after: Sets, dst: SetId, n: Id, m: Id) {
    && (forall s :: s != dst ==> ListOf(after, s) == ListOf(before, s))
    && (forall y :: y in ListOf(after, dst) <==> y in ListOf(before, dst) || n <= y < m)
  }

  lemma NothingCopied(f: Forest, n: Id, l: seq<Id>, dst: SetId, sets: Sets)
    ensures AfterCopies(f, n, l, dst, 0) == f && OnlyGrew(sets, sets, dst, n, n)
    ensures InheritedTo(f, ListOf(sets, dst), l, 0)
  {
  }

  lemma GrewOne(before: Sets, mid: Sets, after: Sets, dst: SetId, n: Id, m: Id)
    requires OnlyGrew(before, mid, dst, n, m) && InsertedIn(mid, after, dst, m) && n <= m
    ensures OnlyGrew(before, after, dst, n, m + 1)
  {
    var d := ListOf(mid, dst);
    var i :| 0 <= i <= |d| && after == mid[dst := d[..i] + [m] + d[i..]];
    InsertedMembers(d, i, m);
  }

  /** y was derived from x with the same range, rights and kind. */
  ghost predicate Copied(f: Forest, y: Id, x: Id) {
    && y in f && x in f && f[y].parent == Some(x)
    && f[y].base == f[x].base && f[y].size == f[x].size && f[y].perms == f[x].perms && f[y].kind == f[x].kind
  }

  ghost predicate Inherited(f: Forest, l: seq<Id>, x: Id) {
    exists y :: y in l && Copied(f, y, x)
  }

  lemma SmallRange(f: Forest, x: Id)
    requires Derived(f) && x in f
    ensures f[x].base < ADDR_LIMIT && f[x].size < ADDR_LIMIT
  {
    assert DerivedOk(f, x);
  }

  ghost predicate InheritedTo(f: Forest, d: seq<Id>, l: seq<Id>, i: nat) {
    i <= |l| && forall x :: x in l[..i] ==> Inherited(f, d, x)
  }

  lemma AllInherited(f: Forest, d: seq<Id>, l: seq<Id>)
    requires InheritedTo(f, d, l, |l|)
    ensures forall x :: x in l ==> Inherited(f, d, x)
  {
    assert l[..|l|] == l;
  }

  lemma SourceKept(f: Forest, sets: Sets, sets': Sets, n: Id, dst: SetId, src: SetId, i: nat)
    requires dst != src && i < |ListOf(sets, src)| && (forall x :: x in ListOf(sets, src) ==> x in f)
    requires InsertedIn(sets, sets', dst, n)
    ensures ListOf(sets', src) == ListOf(sets, src)
    ensures forall x :: x in ListOf(sets, src) ==> x in WithNew(f, n, CopyOf(f, ListOf(sets, src)[i], dst))
  {
  }

  lemma StillInherited(f: Forest, sets: Sets, sets': Sets, n: Id, dst: SetId, src: SetId, i: nat)
    requires dst != src && i < |ListOf(sets, src)| && (forall x :: x in ListOf(sets, src) ==> x in f) && Fresh(f, n)
    requires InheritedTo(f, ListOf(sets, dst), ListOf(sets, src), i) && InsertedIn(sets, sets', dst, n)
    ensures var x := ListOf(sets, src)[i];
            var g := WithNew(f, n, CopyOf(f, x, dst));
            && ListOf(sets', src) == ListOf(sets, src) && (forall x :: x in ListOf(sets, src) ==> x in g)
            && InheritedTo(g, ListOf(sets', dst), ListOf(sets, src), i + 1)
  {
    var d, d', l := ListOf(sets, dst), ListOf(sets', dst), ListOf(sets, src);
    var z := l[i];
    var g := WithNew(f, n, CopyOf(f, z, dst));
    var k :| 0 <= k <= |d| && sets' == sets[dst := d[..k] + [n] + d[k..]];
    InsertedMembers(d, k, n);
    forall x | x in l[..i + 1] ensures Inherited(g, d', x) {
      if x in l[..i] {
        var y :| y in d && Copied(f, y, x);
        assert y in d' && Copied(g, y, x);
      } else {
        assert n in d' && Copied(g, n, x);
      }
    }
  }

  /** From the i-th on, the ranges of l are free in the list d. */
  ghost predicate AllFree(f: Forest, d: seq<Id>, l: seq<Id>, i: nat) {
    forall j :: i <= j < |l| && l[j] in f ==> !Taken(f, d, f[l[j]].base, f[l[j]].size)
  }

  lemma FreeAt(f: Forest, d: seq<Id>, l: seq<Id>, i: nat)
    requires i < |l| && l[i] in f && Derived(f)
    ensures f[l[i]].size > 0 && f[l[i]].base + f[l[i]].size < ADDR_LIMIT
    ensures AllFree(f, d, l, i) ==> !Taken(f, d, f[l[i]].base, f[l[i]].size)
  {
    assert DerivedOk(f, l[i]);
  }

  /** A copy of one record does not get in the way of the others, which it does not overlap. */
  lemma StillFree(f: Forest, sets: Sets, sets': Sets, n: Id, dst: SetId, src: SetId, i: nat)
    requires dst != src && i < |ListOf(sets, src)| && SetOk(f, sets, src) && Fresh(f, n)
    requires InsertedIn(sets, sets', dst, n)
    ensures var x := ListOf(sets, src)[i];
            var g := WithNew(f, n, CopyOf(f, x, dst));
            AllFree(f, ListOf(sets, dst), ListOf(sets, src), i) ==>
              AllFree(g, ListOf(sets', dst), ListOf(sets, src), i + 1)
  {
    hide Taken, Distinct, WithNew;
    var d, d', l := ListOf(sets, dst), ListOf(sets', dst), ListOf(sets, src);
    var a := CopyOf(f, l[i], dst);
    var k :| 0 <= k <= |d| && sets' == sets[dst := d[..k] + [n] + d[k..]];
    InsertedMembers(d, k, n);
    if AllFree(f, d, l, i) {
      forall j | i < j < |l|
        ensures l[j] in WithNew(f, n, a)
        ensures !Taken(WithNew(f, n, a), d', WithNew(f, n, a)[l[j]].base, WithNew(f, n, a)[l[j]].size)
      {
        assert l[j] in l && l[i] in l;
        FreeBeside(f, d, d', n, a, l[j]);
      }
    }
  }

  lemma FreeBeside(f: Forest, d: seq<Id>, d': seq<Id>, n: Id, a: Area, y: Id)
    requires Fresh(f, n) && y in f && !Taken(f, d, f[y].base, f[y].size) && a.base + a.size <= f[y].base
    requires forall x :: x in d' <==> x in d || x == n
    ensures y in WithNew(f, n, a) && !Taken(WithNew(f, n, a), d', WithNew(f, n, a)[y].base, WithNew(f, n, a)[y].size)
  {
    var g := WithNew(f, n, a);
    forall x | x in d' && x in g ensures !Overlaps(g[x], g[y].base, g[y].size) {
      if x != n { assert x in d && x in f; }
    }
  }

  /** The record a grant of x makes. */
  function Alias(f: Forest, x: Id, target: SetId, perms: set<Perm>): Area
    requires x in f
  {
    var a := f[x];
    var kind := if a.kind == HeapKind then Granted else a.kind;
    Area(Some(x), [], Some(target), a.base, a.size, perms * a.perms, kind, false)
  }

  /** x is the record of the list that starts at addr. */
  ghost predicate IsAt(f: Forest, l: seq<Id>, addr: nat, x: Id) {
    x in l && x in f && f[x].base == addr
  }

  /** a and t are the caller's and the target's records at addr. */
  ghost predicate AreAt(f: Forest, sets: Sets, cur: SetId, target: SetId, addr: nat, a: Id, t: Id) {
    IsAt(f, ListOf(sets, cur), addr, a) && IsAt(f, ListOf(sets, target), addr, t)
  }

  ghost predicate NoneAt(f: Forest, l: seq<Id>, addr: nat) {
    forall x :: !IsAt(f, l, addr, x)
  }

  /** Everything a revoke of x changes. */
  ghost predicate Revoked(f0: Forest, sets0: Sets, retired0: seq<Id>, drops0: seq<SetId>, x: Id,
                          f: Forest, sets: Sets, retired: seq<Id>, drops: seq<SetId>) {
    && x in f0
    && var d := Subtree(f0, x);
    && f == Cut(f0, d, Unneeded(f0, d)) && sets == CutSets(sets0, d)
    && RetiredExactly(f0, retired0, retired, Unneeded(f0, d)) && Reported(f0, d, drops0, drops)
  }

  predicate IsAnon(flags: set<MapFlag>) {
    MapAnon in flags && MapPeriph !in flags && MapShared !in flags
  }

  function KindOf(flags: set<MapFlag>): Kind {
    if MapPeriph in flags then Periph else if MapShared in flags then Shared else HeapKind
  }

  /** The size rounded up to the alignment in 32 bits; the last sizes wrap to zero. */
  function RoundedSize(size: nat, align: nat): nat
    requires align > 0
  {
    var x := (size + align - 1) % ADDR_LIMIT;
    x - x % align
  }

  lemma RoundedSmall(size: nat, align: nat)
    requires align > 0
    ensures RoundedSize(size, align) < ADDR_LIMIT
    ensures size + align <= ADDR_LIMIT ==>
              RoundedSize(size, align) % align == 0 && size <= RoundedSize(size, align) < size + align
  {
    var x := size + align - 1;
    assert x == (x / align) * align + x % align;
    assert ((x / align) * align) % align == 0 by { Powers.MultipleMod(x / align, align); }
  }

  lemma OnlyAnon(flags: set<MapFlag>)
    requires flags != {}
    ensures IsAnon(flags) <==> flags == {MapAnon}
    ensures IsAnon(flags) ==> MapPeriph !in flags && MapShared !in flags
  {
    if IsAnon(flags) {
      forall x ensures x in flags <==> x == MapAnon {
        match x { case MapPeriph => case MapShared => case MapAnon => }
      }
    }
  }

  predicate Covers(a: Area, addr: nat) {
    a.base <= addr < a.base + a.size
  }

  lemma CoversOne(f: Forest, l: seq<Id>, i: nat, addr: nat)
    requires Sorted(f, l) && (forall x :: x in l ==> x in f) && i < |l| && Covers(f[l[i]], addr)
    ensures forall x :: x in l && Covers(f[x], addr) ==> x == l[i]
  {
    forall j | 0 <= j < |l| && Covers(f[l[j]], addr) ensures j == i {}
  }

  lemma SameBase(f: Forest, l: seq<Id>, i: nat, base: nat)
    requires Sorted(f, l) && (forall x :: x in l ==> x in f && f[x].size > 0) && i < |l| && f[l[i]].base == base
    ensures forall x :: x in l && f[x].base == base ==> x == l[i]
  {
    forall j | 0 <= j < |l| && f[l[j]].base == base ensures j == i {}
  }

  lemma {:induction false} UnderOlder(f: Forest, x: Id, a: Id)
    requires Under(f, x, a)
    ensures a <= x
    decreases x
  {
    if x != a { UnderOlder(f, f[x].parent.value, a); }
  }

  predicate Overlaps(a: Area, base: nat, size: nat) {
    a.base < base + size && base < a.base + a.size
  }

  ghost predicate Taken(f: Forest, l: seq<Id>, base: nat, size: nat) {
    exists x :: x in l && x in f && Overlaps(f[x], base, size)
  }

  /** A range is taken exactly if a record of the list covers one of its bytes. */
  lemma SharedByte(f: Forest, l: seq<Id>, base: nat, size: nat)
    requires size > 0 && forall x :: x in l && x in f ==> f[x].size > 0
    ensures Taken(f, l, base, size) <==>
            exists x, b: nat :: x in l && x in f && Covers(f[x], b) && base <= b < base + size
  {
    if Taken(f, l, base, size) {
      var x :| x in l && x in f && Overlaps(f[x], base, size);
      var b := if base < f[x].base then f[x].base else base;
      assert Covers(f[x], b) && base <= b < base + size;
    }
  }

  lemma SizesOf(f: Forest, sets: Sets, s: SetId)
    requires HeldOk(f, sets) && Derived(f)
    ensures forall x :: x in ListOf(sets, s) && x in f ==> f[x].size > 0
  {
    SetIs(f, sets, s);
  }

  /** What ulmk_area_insert() answers: a bad or overlapping range before a failed allocation. */
  ghost function InsertStatus(f: Forest, l: seq<Id>, base: nat, size: nat, oom: bool): Status {
    if size == 0 || base + size >= ADDR_LIMIT || Taken(f, l, base, size) then EInval else if oom then ENoMem else Ok
  }

  ghost predicate InsertedIn(before: Sets, after: Sets, s: SetId, x: Id) {
    exists i :: 0 <= i <= |ListOf(before, s)| &&
      after == before[s := ListOf(before, s)[..i] + [x] + ListOf(before, s)[i..]]
  }

  /** A new record, first in its parent's chain. */
  ghost function WithNew(f: Forest, id: Id, a: Area): Forest {
    var g := f[id := a];
    if a.parent.Some? && a.parent.value in g
    then g[a.parent.value := g[a.parent.value].(kids := [id] + g[a.parent.value].kids)] else g
  }

  lemma SetIs(f: Forest, sets: Sets, s: SetId)
    requires HeldOk(f, sets) && Derived(f)
    ensures SetOk(f, sets, s) && forall x :: x in ListOf(sets, s) ==> x in f && f[x].size > 0
  {
    assert SetOk(f, sets, s);
  }

  lemma NotTaken(f: Forest, l: seq<Id>, base: nat, size: nat, i: nat)
    requires Sorted(f, l) && (forall x :: x in l ==> x in f) && i <= |l| && size > 0
    requires forall x :: x in l ==> f[x].size > 0
    requires forall j :: 0 <= j < i ==> !Overlaps(f[l[j]], base, size) && f[l[j]].base < base
    requires i < |l| ==> f[l[i]].base >= base && !Overlaps(f[l[i]], base, size)
    ensures !Taken(f, l, base, size)
    ensures forall j :: 0 <= j < i ==> f[l[j]].base + f[l[j]].size <= base
    ensures forall j :: i <= j < |l| ==> base + size <= f[l[j]].base
  {
    forall j | i <= j < |l| ensures base + size <= f[l[j]].base {
      if j > i { assert f[l[i]].base + f[l[i]].size <= f[l[j]].base; }
    }
  }

  lemma NewNode(f: Forest, next: Id, a: Area, x: Id)
    requires Linked(f) && Fresh(f, next) && a.kids == [] && (a.parent.Some? ==> a.parent.value in f)
    requires x in f || x == next
    ensures NodeOk(WithNew(f, next, a), x)
  {
    if x in f { assert NodeOk(f, x); }
    if a.parent.Some? { assert NodeOk(f, a.parent.value); }
    var g := WithNew(f, next, a);
    if a.parent == Some(x) {
      assert forall k :: k in f[x].kids ==> k in f && k != next;
    }
  }

  lemma InsertAt(f: Forest, l: seq<Id>, i: nat, x: Id, base: nat, size: nat, g: Forest)
    requires Distinct(l) && Sorted(f, l) && (forall y :: y in l ==> y in f) && i <= |l| && x !in f
    requires forall j :: 0 <= j < i ==> f[l[j]].base + f[l[j]].size <= base
    requires forall j :: i <= j < |l| ==> base + size <= f[l[j]].base
    requires x in g && g[x].base == base && g[x].size == size
    requires forall y :: y in f ==> y in g && g[y].base == f[y].base && g[y].size == f[y].size
    ensures Distinct(l[..i] + [x] + l[i..]) && Sorted(g, l[..i] + [x] + l[i..])
  {
    var m := l[..i] + [x] + l[i..];
    forall j, k | 0 <= j < k < |m| ensures m[j] != m[k] && g[m[j]].base + g[m[j]].size <= g[m[k]].base {
      var j' := if j < i then j else j - 1;
      var k' := if k < i then k else k - 1;
      if j != i { assert m[j] == l[j']; }
      if k != i { assert m[k] == l[k']; }
    }
  }

  lemma InsertedMembers(l: seq<Id>, i: nat, x: Id)
    requires i <= |l|
    ensures forall y :: y in l[..i] + [x] + l[i..] <==> y in l || y == x
  {
    assert l == l[..i] + l[i..];
  }

  lemma NewSetOk(f: Forest, sets: Sets, next: Id, s: SetId, a: Area, i: nat)
    requires SetOk(f, sets, s) && Fresh(f, next) && a.holder == Some(s) && i <= |ListOf(sets, s)|
    requires forall j :: 0 <= j < i && ListOf(sets, s)[j] in f ==>
               f[ListOf(sets, s)[j]].base + f[ListOf(sets, s)[j]].size <= a.base
    requires forall j :: i <= j < |ListOf(sets, s)| && ListOf(sets, s)[j] in f ==>
               a.base + a.size <= f[ListOf(sets, s)[j]].base
    ensures SetOk(WithNew(f, next, a), sets[s := ListOf(sets, s)[..i] + [next] + ListOf(sets, s)[i..]], s)
  {
    var l := ListOf(sets, s);
    InsertAt(f, l, i, next, a.base, a.size, WithNew(f, next, a));
    InsertedMembers(l, i, next);
    hide Distinct, Sorted;
  }

  lemma OldSetOk(f: Forest, sets: Sets, sets': Sets, next: Id, a: Area, r: SetId)
    requires SetOk(f, sets, r) && Fresh(f, next) && ListOf(sets', r) == ListOf(sets, r)
    ensures SetOk(WithNew(f, next, a), sets', r)
  {
    hide Distinct, ListOf;
  }

  lemma NewHeld(f: Forest, sets: Sets, next: Id, s: SetId, a: Area, i: nat)
    requires HeldOk(f, sets) && Fresh(f, next) && a.holder == Some(s) && i <= |ListOf(sets, s)|
    requires forall j :: 0 <= j < i && ListOf(sets, s)[j] in f ==>
               f[ListOf(sets, s)[j]].base + f[ListOf(sets, s)[j]].size <= a.base
    requires forall j :: i <= j < |ListOf(sets, s)| && ListOf(sets, s)[j] in f ==>
               a.base + a.size <= f[ListOf(sets, s)[j]].base
    ensures HeldOk(WithNew(f, next, a), sets[s := ListOf(sets, s)[..i] + [next] + ListOf(sets, s)[i..]])
  {
    var m := ListOf(sets, s)[..i] + [next] + ListOf(sets, s)[i..];
    var g, sets' := WithNew(f, next, a), sets[s := m];
    assert SetOk(f, sets, s);
    NewSetOk(f, sets, next, s, a, i);
    InsertedMembers(ListOf(sets, s), i, next);
    hide SetOk;
    forall r: SetId ensures SetOk(g, sets', r) {
      assert SetOk(f, sets, r);
      if r != s { OldSetOk(f, sets, sets', next, a, r); }
    }
    forall x | x in g ensures Listed(g, sets', x) {
      if x in f { assert Listed(f, sets, x); }
    }
  }

  lemma NewRecord(f: Forest, sets: Sets, count: map<SetId, nat>, retired: seq<Id>, ever: set<Id>, next: Id,
                  s: SetId, a: Area, i: nat)
    requires Linked(f) && Fresh(f, next) && Derived(f) && NoIdleOrphan(f) && HeldOk(f, sets)
    requires CountsOk(sets, count) && RetireOk(f, retired, ever, next)
    requires a.kids == [] && a.holder == Some(s) && a.size > 0 && a.base + a.size < ADDR_LIMIT
    requires a.parent.Some? ==> && a.parent.value in f && a.base == f[a.parent.value].base && !a.backed
                                && a.size == f[a.parent.value].size && a.perms <= f[a.parent.value].perms
    requires i <= |ListOf(sets, s)|
    requires forall j :: 0 <= j < i && ListOf(sets, s)[j] in f ==>
               f[ListOf(sets, s)[j]].base + f[ListOf(sets, s)[j]].size <= a.base
    requires forall j :: i <= j < |ListOf(sets, s)| && ListOf(sets, s)[j] in f ==>
               a.base + a.size <= f[ListOf(sets, s)[j]].base
    ensures var g := WithNew(f, next, a); var m := ListOf(sets, s)[..i] + [next] + ListOf(sets, s)[i..];
            && Linked(g) && Fresh(g, next + 1) && Derived(g) && NoIdleOrphan(g) && HeldOk(g, sets[s := m])
            && CountsOk(sets[s := m], count[s := (CountIn(count, s) + 1) % COUNT_LIMIT])
            && RetireOk(g, retired, if a.backed then ever + {next} else ever, next + 1)
  {
    hide Keep, HeldOk, Linked, NodeOk, CountsOk, Derived, RetireOk;
    NewLinked(f, next, a);
    NewDerived(f, next, a);
    NewRetire(f, retired, ever, next, a);
    NewHeld(f, sets, next, s, a, i);
    CountMore(sets, count, s, ListOf(sets, s)[..i] + [next] + ListOf(sets, s)[i..]);
  }

  lemma NewDerived(f: Forest, next: Id, a: Area)
    requires Linked(f) && Fresh(f, next) && Derived(f) && a.size > 0 && a.base + a.size < ADDR_LIMIT
    requires a.parent.Some? ==> && a.parent.value in f && a.base == f[a.parent.value].base && !a.backed
                                && a.size == f[a.parent.value].size && a.perms <= f[a.parent.value].perms
    ensures Derived(WithNew(f, next, a))
  {
    var g := WithNew(f, next, a);
    forall x | x in g ensures DerivedOk(g, x) {
      if x in f { assert DerivedOk(f, x) && NodeOk(f, x); }
    }
  }

  lemma NewRetire(f: Forest, retired: seq<Id>, ever: set<Id>, next: Id, a: Area)
    requires Fresh(f, next) && RetireOk(f, retired, ever, next)
    ensures RetireOk(WithNew(f, next, a), retired, if a.backed then ever + {next} else ever, next + 1)
  {
  }

  lemma NewLinked(f: Forest, next: Id, a: Area)
    requires Linked(f) && Fresh(f, next) && a.kids == [] && (a.parent.Some? ==> a.parent.value in f)
    ensures Linked(WithNew(f, next, a))
  {
    hide NodeOk;
    forall x | x in WithNew(f, next, a) ensures NodeOk(WithNew(f, next, a), x) { NewNode(f, next, a, x); }
  }

  lemma CountMore(sets: Sets, count: map<SetId, nat>, s: SetId, l: seq<Id>)
    requires CountsOk(sets, count) && |l| == |ListOf(sets, s)| + 1
    ensures CountsOk(sets[s := l], count[s := (CountIn(count, s) + 1) % COUNT_LIMIT])
  {
    var count' := count[s := (CountIn(count, s) + 1) % COUNT_LIMIT];
    forall r: SetId ensures CountIn(count', r) == |ListOf(sets[s := l], r)| % COUNT_LIMIT {
      assert CountIn(count, r) == |ListOf(sets, r)| % COUNT_LIMIT;
    }
  }

  /** The backing records among the freed ones were retired, and no others. */
  ghost predicate RetiredExactly(f0: Forest, retired0: seq<Id>, retired: seq<Id>, gone: set<Id>) {
    forall x :: x in retired <==> x in retired0 || (x in gone && x in f0 && f0[x].backed)
  }

  lemma RetiredIs(f0: Forest, retired0: seq<Id>, f: Forest, retired: seq<Id>, ever: set<Id>, next: Id,
                  dropped: set<Id>, gone: set<Id>)
    requires RetireOk(f0, retired0, ever, next) && RetireOk(f, retired, ever, next) && f == Cut(f0, dropped, gone)
    ensures RetiredExactly(f0, retired0, retired, gone)
  {
    hide Keep;
    assert forall x :: x in f ==> f[x].backed == f0[x].backed;
  }

  ghost function Members(l: seq<Id>): set<Id> {
    set x | x in l
  }

  lemma HeadOf(f: Forest, sets: Sets, f0: Forest, sets0: Sets, dropped: set<Id>, gone: set<Id>, s: SetId)
    requires Mid(f, sets, f0, sets0, dropped, gone) && HeldOk(f, sets) && ListOf(sets, s) != []
    ensures var a := ListOf(sets, s)[0];
            && a in f && a !in dropped && a in Members(ListOf(sets0, s))
            && |ListOf(CutSets(sets, {a}), s)| < |ListOf(sets, s)|
  {
    var l := ListOf(sets, s);
    assert SetOk(f, sets, s) && l[0] in l;
    KeepIn(ListOf(sets0, s), dropped);
    KeepOne(l, 0);
  }

  lemma AllDropped(sets0: Sets, dropped: set<Id>, s: SetId)
    requires ListOf(CutSets(sets0, dropped), s) == [] && dropped <= Members(ListOf(sets0, s))
    ensures dropped == Members(ListOf(sets0, s))
  {
    KeepIn(ListOf(sets0, s), dropped);
  }

  /** Each record on the way from a down to n is the first child of the one above. */
  ghost predicate FirstChain(f: Forest, n: Id, a: Id)
    decreases n
  {
    n == a || (n in f && f[n].parent.Some? && f[n].parent.value < n && f[n].parent.value in f
               && f[f[n].parent.value].kids != [] && f[f[n].parent.value].kids[0] == n
               && FirstChain(f, f[n].parent.value, a))
  }

  lemma StartMid(f: Forest, sets: Sets)
    requires Linked(f) && HeldOk(f, sets)
    ensures Mid(f, sets, f, sets, {}, {})
  {
    hide Keep, HeldOk, Linked;
    forall x | x in f ensures Keep(f[x].kids, {}) == f[x].kids { KeepNone(f[x].kids, {}); }
    forall s | s in sets ensures Keep(sets[s], {}) == sets[s] { KeepNone(sets[s], {}); }
  }

  lemma UnlinkMid(f: Forest, sets: Sets, f0: Forest, sets0: Sets, dropped: set<Id>, gone: set<Id>, n: Id)
    requires Mid(f, sets, f0, sets0, dropped, gone) && n in f
    ensures Mid(f[n := f[n].(holder := None)], CutSets(sets, {n}), f0, sets0, dropped + {n}, gone)
  {
    CutUnheld(f0, dropped, gone, n);
    CutSetsMore(sets0, dropped, n);
  }

  lemma FirstKid(f: Forest, f0: Forest, n: Id, a: Id, gone: set<Id>)
    requires f == Cut(f0, gone, gone) && Linked(f) && Linked(f0) && n in f && f[n].kids != []
    requires FirstChain(f, n, a) && Under(f0, n, a) && OnlyIdle(f, n)
    ensures var k := f[n].kids[0]; k in f && n < k && FirstChain(f, k, a) && Under(f0, k, a) && OnlyIdle(f, k)
  {
    var k := f[n].kids[0];
    assert k in f[n].kids && NodeOk(f, n) && NodeOk(f, k);
  }

  /** n out of its set. */
  lemma UnheldLeaf(f: Forest, n: Id, a: Id, p: Id)
    requires Linked(f) && Derived(f) && n in f && n != a && FirstChain(f, n, a) && OnlyIdle(f, n)
    requires f[n].parent == Some(p)
    ensures var g := f[n := f[n].(holder := None)];
            && Derived(g) && OnlyIdle(g, n) && p in g && p < n && g[p].kids != [] && g[p].kids[0] == n
  {
    assert NodeOk(f, n);
  }

  /** n freed. */
  lemma FreedLeaf(f: Forest, n: Id, a: Id, p: Id)
    requires Linked(f) && Derived(f) && a in f && n in f && n != a && FirstChain(f, n, a) && f[n].parent == Some(p)
    ensures var h := WithoutLeaf(f[n := f[n].(holder := None)], n);
            Derived(h) && FirstChain(h, p, a) && a in h && p in h
  {
    hide Keep;
    assert NodeOk(f, n);
    var h := WithoutLeaf(f[n := f[n].(holder := None)], n);
    ChainFrame(f, h, p, a);
  }

  /** Everything the loop needs to drop the childless record n below a. */
  lemma DropLeaf(f: Forest, sets: Sets, f0: Forest, sets0: Sets, gone: set<Id>, n: Id, a: Id, p: Id)
    requires Mid(f, sets, f0, sets0, gone, gone) && Linked(f) && n in f && n != a && f[n].kids == []
    requires Under(f0, n, a) && f[n].parent == Some(p)
    ensures var g := f[n := f[n].(holder := None)]; var h := WithoutLeaf(g, n);
            && Linked(g)
            && Mid(h, CutSets(sets, {n}), f0, sets0, gone + {n}, gone + {n})
            && Linked(h) && HeldOk(h, CutSets(sets, {n}))
            && Under(f0, p, a) && n in Subtree(f0, a)
  {
    hide Keep, Linked, HeldOk, NodeOk, Removable, CutSets;
    var g := f[n := f[n].(holder := None)];
    UnlinkMid(f, sets, f0, sets0, gone, gone, n);
    MoreDropped(f0, gone, n);
    FreeLeafMid(g, CutSets(sets, {n}), f0, sets0, gone + {n}, gone, n);
    CutLinked(f0, gone + {n}, gone + {n});
    CutHeld(f0, sets0, gone + {n}, gone + {n});
  }

  lemma MoreDropped(f0: Forest, gone: set<Id>, n: Id)
    requires Removable(f0, gone, gone)
    ensures Removable(f0, gone + {n}, gone)
  {
  }

  lemma {:induction false} ChainFrame(f: Forest, h: Forest, p: Id, a: Id)
    requires FirstChain(f, p, a) && p in h && p in f && h[p].parent == f[p].parent
    requires forall x :: x in f && x < p ==> x in h && h[x] == f[x]
    ensures FirstChain(h, p, a)
    decreases p
  {
    if p != a {
      var q := f[p].parent.value;
      ChainFrame(f, h, q, a);
    }
  }

  lemma {:induction false} BelowGone(f0: Forest, gone: set<Id>, a: Id, x: Id)
    requires Linked(f0) && Removable(f0, gone, gone) && a in f0 && Keep(f0[a].kids, gone) == []
    requires x in f0 && Under(f0, x, a) && x != a
    ensures x in gone
    decreases x
  {
    assert NodeOk(f0, x) && NodeOk(f0, a);
    KeepIn(f0[a].kids, gone);
    var p := f0[x].parent.value;
    if p != a { BelowGone(f0, gone, a, p); }
  }

  lemma WholeSubtree(f0: Forest, gone: set<Id>, a: Id)
    requires Linked(f0) && Removable(f0, gone, gone) && a in f0 && a !in gone && Cut(f0, gone, gone)[a].kids == []
    requires gone <= Subtree(f0, a) - {a}
    ensures gone + {a} == Subtree(f0, a)
  {
    forall x | x in Subtree(f0, a) && x != a ensures x in gone { BelowGone(f0, gone, a, x); }
  }

  lemma EndMid(f: Forest, sets: Sets, f0: Forest, sets0: Sets, dropped: set<Id>, gone: set<Id>, next: Id)
    requires Mid(f, sets, f0, sets0, dropped, gone) && Fresh(f0, next) && Derived(f0) && NoIdleOrphan(f)
    ensures Linked(f) && Derived(f) && HeldOk(f, sets)
    ensures gone == Unneeded(f0, dropped) && f == Cut(f0, dropped, Unneeded(f0, dropped))
  {
    CutLinked(f0, dropped, gone);
    CutDerived(f0, dropped, gone);
    CutHeld(f0, sets0, dropped, gone);
    GoneIsUnneeded(f0, next, dropped, gone);
  }

  /** c is the only record that is in no set and has no children. */
  ghost predicate OnlyIdle(f: Forest, c: Id) {
    forall x :: x in f && f[x].holder.None? && f[x].kids == [] ==> x == c
  }

  lemma FreeLeafMid(f: Forest, sets: Sets, f0: Forest, sets0: Sets, dropped: set<Id>, gone: set<Id>, c: Id)
    requires Mid(f, sets, f0, sets0, dropped, gone) && c in f && f[c].holder.None? && f[c].kids == []
    ensures Mid(WithoutLeaf(f, c), sets, f0, sets0, dropped, gone + {c}) && Linked(f)
  {
    CutLeaf(f0, dropped, gone, c);
    CutLinked(f0, dropped, gone);
  }

  lemma WithoutLeafShape(g: Forest, c: Id)
    requires Linked(g) && c in g && OnlyIdle(g, c)
    ensures var f := WithoutLeaf(g, c);
            && |f| == |g| - 1 && f.Keys == g.Keys - {c}
            && (g[c].parent.Some? ==> g[c].parent.value in f && OnlyIdle(f, g[c].parent.value))
            && (g[c].parent.None? ==> NoIdleOrphan(f))
  {
    assert NodeOk(g, c);
    assert WithoutLeaf(g, c).Keys == g.Keys - {c};
    assert |WithoutLeaf(g, c).Keys| == |g.Keys| - 1;
  }

  /** Walk a chain to a link that is in it. */
  lemma ChildOf(f: Forest, c: Id)
    requires Linked(f) && c in f && f[c].parent.Some?
    ensures f[c].parent.value in f && f[c].parent.value != c
    ensures c in f[f[c].parent.value].kids && Distinct(f[f[c].parent.value].kids)
  {
    assert NodeOk(f, c) && NodeOk(f, f[c].parent.value);
  }

  /** Taking c out of its parent's chain and then out of the forest is freeing the leaf. */
  lemma UnchainedIs(f: Forest, c: Id, i: nat)
    requires c in f && f[c].parent.Some?
    requires var p := f[c].parent.value;
             p in f && p != c && Distinct(f[p].kids) && i < |f[p].kids| && f[p].kids[i] == c
    ensures var p := f[c].parent.value;
            f[p := f[p].(kids := f[p].kids[..i] + f[p].kids[i + 1..])] - {c} == WithoutLeaf(f, c)
  {
    hide Keep;
    KeepOne(f[f[c].parent.value].kids, i);
  }

  lemma RootGone(f: Forest, c: Id)
    requires c in f && f[c].parent.None?
    ensures f - {c} == WithoutLeaf(f, c)
  {
  }

  lemma LeafGone(f: Forest, c: Id, retired: seq<Id>, ever: set<Id>, next: Id)
    requires c in f && RetireOk(f, retired, ever, next) && Fresh(f, next)
    ensures RetireOk(WithoutLeaf(f, c), retired + (if f[c].backed then [c] else []), ever, next)
  {
    hide Keep;
    assert retired + [] == retired;
  }

  method FindIn(l: seq<Id>, a: Id) returns (i: nat)
    requires a in l
    ensures i < |l| && l[i] == a
  {
    i := 0;
    while l[i] != a
      invariant 0 <= i < |l| && a in l[i..]
      decreases |l| - i
    {
      i := i + 1;
    }
  }

  lemma Decrement(n: nat)
    requires n > 0
    ensures (n % COUNT_LIMIT + COUNT_LIMIT - 1) % COUNT_LIMIT == (n - 1) % COUNT_LIMIT
  {
    var q := n / COUNT_LIMIT;
    var r := n % COUNT_LIMIT;
    if r == 0 {
      assert n - 1 == (q - 1) * COUNT_LIMIT + (COUNT_LIMIT - 1);
    } else {
      assert n - 1 == q * COUNT_LIMIT + (r - 1);
    }
  }

  lemma CountAfter(sets: Sets, count: map<SetId, nat>, s: SetId, l: seq<Id>)
    requires CountsOk(sets, count) && |l| + 1 == |ListOf(sets, s)|
    ensures CountsOk(sets[s := l], count[s := (CountIn(count, s) + COUNT_LIMIT - 1) % COUNT_LIMIT])
  {
    var count' := count[s := (CountIn(count, s) + COUNT_LIMIT - 1) % COUNT_LIMIT];
    Decrement(|ListOf(sets, s)|);
    forall r: SetId ensures CountIn(count', r) == |ListOf(sets[s := l], r)| % COUNT_LIMIT {
      assert CountIn(count, r) == |ListOf(sets, r)| % COUNT_LIMIT;
    }
  }

  /** A record in no set leaves every set as it is. */
  lemma UnlistedKept(f: Forest, sets: Sets, a: Id)
    requires HeldOk(f, sets) && a in f && f[a].holder.None?
    ensures CutSets(sets, {a}) == sets
  {
    forall s | s in sets ensures Keep(sets[s], {a}) == sets[s] {
      assert SetOk(f, sets, s);
      KeepNone(sets[s], {a});
    }
  }

  /** A record leaves only its own set. */
  lemma OthersKept(f: Forest, sets: Sets, s: SetId, a: Id)
    requires HeldOk(f, sets) && a in f && f[a].holder == Some(s) && s in sets
    ensures CutSets(sets, {a}) == sets[s := Keep(sets[s], {a})]
  {
    forall r | r in sets && r != s ensures Keep(sets[r], {a}) == sets[r] {
      assert SetOk(f, sets, r);
      KeepNone(sets[r], {a});
    }
  }

  /**
   The life of a backing block: it is retired, once, exactly when no record in any set
   derives from its origin any more.
   */
  lemma BlockLife(f: Forest, retired: seq<Id>, ever: set<Id>, next: Id, x: Id)
    requires Linked(f) && Fresh(f, next) && NoIdleOrphan(f) && RetireOk(f, retired, ever, next) && x in ever
    ensures x in retired <==> !Needed(f, {}, x)
    ensures forall i, j :: 0 <= i < |retired| && 0 <= j < |retired| && retired[i] == x && retired[j] == x ==> i == j
  {
    if x in f {
      EveryRecordServes(f, next, x);
    } else {
      forall y | y in f ensures !Under(f, y, x) { OriginAlive(f, y, x); }
    }
  }

  /** A record lives only while what it derives from does. */
  lemma {:induction false} OriginAlive(f: Forest, y: Id, x: Id)
    requires Linked(f) && y in f && x !in f
    ensures !Under(f, y, x)
    decreases y
  {
    assert NodeOk(f, y);
    if f[y].parent.Some? { OriginAlive(f, f[y].parent.value, x); }
  }
}
