/**
 Memory areas and their derivation forest (kernel/mem/area.c, kernel/mem/mem.c).

 A record is named by a number that is never reused, which stands for its
 address while it is allocated.  `kids` is the child/sibling chain of a record
 and a set is the sequence of its records in list order.
 */
module AreaForest {
  import opened Sequences

  type Id = nat
  type SetId = nat

  datatype Perm = R | W | X

  datatype Kind = Periph | Shared | HeapKind | Granted

  datatype Area = Area(
    parent: Option<Id>,
    kids: seq<Id>,
    holder: Option<SetId>,
    base: nat,
    size: nat,
    perms: set<Perm>,
    kind: Kind,
    backed: bool)

  type Forest = map<Id, Area>
  type Sets = map<SetId, seq<Id>>

  const ADDR_LIMIT := 0x1_0000_0000

  // --------------------------------------------------------------- helpers

  /** s without the elements of gone, in order. */
  function Keep(s: seq<Id>, gone: set<Id>): seq<Id> {
    if s == [] then []
    else Keep(s[..|s| - 1], gone) + (if s[|s| - 1] in gone then [] else [s[|s| - 1]])
  }

  lemma {:induction false} KeepIn(s: seq<Id>, gone: set<Id>)
    ensures forall x :: x in Keep(s, gone) <==> x in s && x !in gone
  {
    if s != [] {
      KeepIn(s[..|s| - 1], gone);
      assert s == s[..|s| - 1] + [s[|s| - 1]];
    }
  }

  lemma {:induction false} KeepDistinct(s: seq<Id>, gone: set<Id>)
    requires Distinct(s)
    ensures Distinct(Keep(s, gone))
  {
    if s != [] {
      KeepDistinct(s[..|s| - 1], gone);
      KeepIn(s[..|s| - 1], gone);
    }
  }

  lemma {:induction false} KeepNone(s: seq<Id>, gone: set<Id>)
    requires forall x :: x in s ==> x !in gone
    ensures Keep(s, gone) == s
  {
    if s != [] {
      assert s == s[..|s| - 1] + [s[|s| - 1]];
      KeepNone(s[..|s| - 1], gone);
    }
  }

  lemma {:induction false} KeepKeep(s: seq<Id>, a: set<Id>, b: set<Id>)
    ensures Keep(Keep(s, a), b) == Keep(s, a + b)
  {
    if s != [] {
      var t := s[..|s| - 1];
      var x := s[|s| - 1];
      KeepKeep(t, a, b);
      if x !in a {
        assert (Keep(t, a) + [x])[..|Keep(t, a)|] == Keep(t, a);
      } else {
        assert Keep(s, a) == Keep(t, a);
      }
    }
  }

  /** Removing one element of a list without repetitions, wherever it is. */
  lemma {:induction false} KeepOne(s: seq<Id>, i: nat)
    requires Distinct(s) && i < |s|
    ensures Keep(s, {s[i]}) == s[..i] + s[i + 1..]
  {
    var n := |s| - 1;
    var t := s[..n];
    if i == n {
      KeepNone(t, {s[n]});
      assert s[..i] + s[i + 1..] == t;
    } else {
      KeepOne(t, i);
      assert s[..i] + s[i + 1..] == (t[..i] + t[i + 1..]) + [s[n]];
    }
  }

  // ------------------------------------------------------------- the forest

  ghost predicate NodeOk(f: Forest, x: Id)
    requires x in f
  {
    && Distinct(f[x].kids)
    && (f[x].parent.Some? ==> f[x].parent.value < x && f[x].parent.value in f && x in f[f[x].parent.value].kids)
    && (forall k :: k in f[x].kids ==> k in f && f[k].parent == Some(x))
  }

  /** Parent and child links agree; a record is younger than what it derives from. */
  ghost predicate Linked(f: Forest) {
    forall x :: x in f ==> NodeOk(f, x)
  }

  /** What a record hands out: the same range with at most its permissions, and never the block itself. */
  ghost predicate Derived(f: Forest) {
    forall x :: x in f ==> DerivedOk(f, x)
  }

  ghost predicate DerivedOk(f: Forest, x: Id)
    requires x in f
  {
    && f[x].size > 0 && f[x].base + f[x].size < ADDR_LIMIT && (f[x].backed ==> f[x].parent.None?)
    && (f[x].parent.Some? && f[x].parent.value in f ==>
          var p := f[f[x].parent.value];
          f[x].base == p.base && f[x].size == p.size && f[x].perms <= p.perms)
  }

  /** An orphaned record stays only for what was derived from it. */
  ghost predicate NoIdleOrphan(f: Forest) {
    forall x :: x in f && f[x].holder.None? ==> f[x].kids != []
  }

  function ListOf(sets: Sets, s: SetId): seq<Id> {
    if s in sets then sets[s] else []
  }

  ghost predicate Sorted(f: Forest, l: seq<Id>) {
    forall i, j :: 0 <= i < j < |l| && l[i] in f && l[j] in f ==> f[l[i]].base + f[l[i]].size <= f[l[j]].base
  }

  ghost predicate SetOk(f: Forest, sets: Sets, s: SetId) {
    var l := ListOf(sets, s);
    Distinct(l) && Sorted(f, l) && forall x :: x in l ==> x in f && f[x].holder == Some(s)
  }

  ghost predicate Listed(f: Forest, sets: Sets, x: Id)
    requires x in f
  {
    f[x].holder.Some? ==> x in ListOf(sets, f[x].holder.value)
  }

  /** The sets hold exactly the records that name them, in address order and without overlap. */
  ghost predicate HeldOk(f: Forest, sets: Sets) {
    (forall x :: x in f ==> Listed(f, sets, x)) && (forall s: SetId :: SetOk(f, sets, s))
  }

  /** x was derived from a, directly or not, or is a. */
  ghost predicate Under(f: Forest, x: Id, a: Id)
    decreases x
  {
    x == a || (x in f && f[x].parent.Some? && f[x].parent.value < x && Under(f, f[x].parent.value, a))
  }

  ghost function Subtree(f: Forest, a: Id): set<Id> {
    set x | x in f && Under(f, x, a)
  }

  /** Once the records in `dropped` are out of their sets, something derived from x is still held. */
  ghost predicate Needed(f: Forest, dropped: set<Id>, x: Id) {
    exists y :: y in f && y !in dropped && f[y].holder.Some? && Under(f, y, x)
  }

  ghost function Unneeded(f: Forest, dropped: set<Id>): set<Id> {
    set x | x in f && !Needed(f, dropped, x)
  }

  /** The forest with the records in `dropped` out of their sets and those in `gone` freed. */
  ghost function Cut(f: Forest, dropped: set<Id>, gone: set<Id>): Forest {
    map x | x in f && x !in gone ::
      f[x].(holder := if x in dropped then None else f[x].holder, kids := Keep(f[x].kids, gone))
  }

  ghost function CutSets(sets: Sets, dropped: set<Id>): Sets {
    map s | s in sets :: Keep(sets[s], dropped)
  }

  /** Records being freed take everything derived from them along and are in no set any more. */
  ghost predicate Removable(f: Forest, dropped: set<Id>, gone: set<Id>) {
    && (forall x :: x in gone ==> x in f && (f[x].holder.Some? ==> x in dropped))
    && (forall x, k :: x in gone && x in f && k in f[x].kids ==> k in gone)
  }

  lemma CutNode(f: Forest, dropped: set<Id>, gone: set<Id>, x: Id)
    requires Linked(f) && Removable(f, dropped, gone) && x in f && x !in gone
    ensures NodeOk(Cut(f, dropped, gone), x)
  {
    var g := Cut(f, dropped, gone);
    assert NodeOk(f, x);
    KeepDistinct(f[x].kids, gone);
    KeepIn(f[x].kids, gone);
    if f[x].parent.Some? { KeepIn(f[f[x].parent.value].kids, gone); }
  }

  lemma CutLinked(f: Forest, dropped: set<Id>, gone: set<Id>)
    requires Linked(f) && Removable(f, dropped, gone)
    ensures Linked(Cut(f, dropped, gone))
  {
    forall x | x in Cut(f, dropped, gone) ensures NodeOk(Cut(f, dropped, gone), x) { CutNode(f, dropped, gone, x); }
  }

  lemma CutDerived(f: Forest, dropped: set<Id>, gone: set<Id>)
    requires Derived(f)
    ensures Derived(Cut(f, dropped, gone))
  {
  }

  lemma CutHeld(f: Forest, sets: Sets, dropped: set<Id>, gone: set<Id>)
    requires HeldOk(f, sets) && Removable(f, dropped, gone)
    ensures HeldOk(Cut(f, dropped, gone), CutSets(sets, dropped))
  {
    var g := Cut(f, dropped, gone);
    var sets' := CutSets(sets, dropped);
    forall s: SetId ensures SetOk(g, sets', s) {
      assert SetOk(f, sets, s);
      assert ListOf(sets', s) == Keep(ListOf(sets, s), dropped);
      KeepDistinct(ListOf(sets, s), dropped);
      KeepSorted(f, g, ListOf(sets, s), dropped, gone);
      KeepIn(ListOf(sets, s), dropped);
    }
    forall x | x in g ensures Listed(g, sets', x) {
      assert Listed(f, sets, x);
      if g[x].holder.Some? {
        assert ListOf(sets', g[x].holder.value) == Keep(ListOf(sets, g[x].holder.value), dropped);
        KeepIn(ListOf(sets, g[x].holder.value), dropped);
      }
    }
  }

  lemma {:induction false} KeepSorted(f: Forest, g: Forest, l: seq<Id>, dropped: set<Id>, gone: set<Id>)
    requires Sorted(f, l) && (forall x :: x in l ==> x in f) && g == Cut(f, dropped, gone)
    ensures Sorted(g, Keep(l, dropped))
    decreases |l|
  {
    if l != [] {
      var t := l[..|l| - 1];
      KeepSorted(f, g, t, dropped, gone);
      KeepIn(t, dropped);
      var k := Keep(l, dropped);
      forall i, j | 0 <= i < j < |k| && k[i] in g && k[j] in g
        ensures g[k[i]].base + g[k[i]].size <= g[k[j]].base
      {
        if j == |Keep(t, dropped)| {
          assert k[i] in Keep(t, dropped);
          var m :| 0 <= m < |t| && t[m] == k[i];
          assert l[m] == k[i] && l[|l| - 1] == k[j];
        } else {
          assert Keep(t, dropped)[i] == k[i] && Keep(t, dropped)[j] == k[j];
        }
      }
    }
  }

  // ------------------------------------------- what a drop leaves behind

  lemma {:induction false} UnderStep(f: Forest, y: Id, k: Id, x: Id)
    requires Linked(f) && y in f && k in f && Under(f, y, k) && f[k].parent == Some(x)
    ensures Under(f, y, x)
    decreases y
  {
    assert NodeOk(f, y) && NodeOk(f, k);
    if y != k { UnderStep(f, f[y].parent.value, k, x); } else { assert Under(f, x, x); }
  }

  /** Freed records take their whole subtree along. */
  lemma {:induction false} GoneUnder(f: Forest, dropped: set<Id>, gone: set<Id>, y: Id, x: Id)
    requires Linked(f) && Removable(f, dropped, gone) && x in gone && y in f && Under(f, y, x)
    ensures y in gone
    decreases y
  {
    assert NodeOk(f, y);
    if y != x { GoneUnder(f, dropped, gone, f[y].parent.value, x); }
  }

  /** What survives has a held record below it. */
  lemma {:induction false} KeptNeeded(f: Forest, next: Id, dropped: set<Id>, gone: set<Id>, x: Id)
    requires Linked(f) && (forall z :: z in f ==> z < next)
    requires NoIdleOrphan(Cut(f, dropped, gone)) && x in f && x !in gone
    ensures Needed(f, dropped, x)
    decreases next - x
  {
    var g := Cut(f, dropped, gone);
    assert x in g && NodeOk(f, x);
    if g[x].holder.Some? {
      assert Under(f, x, x);
    } else {
      KeepIn(f[x].kids, gone);
      var k := g[x].kids[0];
      assert k in g[x].kids && NodeOk(f, k);
      KeptNeeded(f, next, dropped, gone, k);
      var y :| y in f && y !in dropped && f[y].holder.Some? && Under(f, y, k);
      UnderStep(f, y, k, x);
    }
  }

  /**
   If freeing is downward closed, frees nothing held and leaves no idle orphan,
   then it freed exactly the records nothing held derives from any more.
   */
  lemma GoneIsUnneeded(f: Forest, next: Id, dropped: set<Id>, gone: set<Id>)
    requires Linked(f) && (forall z :: z in f ==> z < next)
    requires Removable(f, dropped, gone) && NoIdleOrphan(Cut(f, dropped, gone))
    ensures gone == Unneeded(f, dropped)
  {
    forall x | x in gone ensures x in Unneeded(f, dropped) {
      forall y | y in f && Under(f, y, x) ensures y in dropped || f[y].holder.None? {
        GoneUnder(f, dropped, gone, y, x);
      }
    }
    forall x | x in f && x !in gone ensures Needed(f, dropped, x) { KeptNeeded(f, next, dropped, gone, x); }
  }

  /** A freed leaf: out of the forest and out of its parent's chain. */
  ghost function WithoutLeaf(g: Forest, c: Id): Forest {
    map x | x in g && x != c :: if c in g && g[c].parent == Some(x) then g[x].(kids := Keep(g[x].kids, {c})) else g[x]
  }

  lemma CutLeafAt(f: Forest, dropped: set<Id>, gone: set<Id>, c: Id, x: Id)
    requires Linked(f) && c in f && c !in gone && x in f && x !in gone && x != c
    ensures Cut(f, dropped, gone + {c})[x] == WithoutLeaf(Cut(f, dropped, gone), c)[x]
  {
    assert NodeOk(f, c) && NodeOk(f, x);
    KeepKeep(f[x].kids, gone, {c});
    hide Linked, Keep, NodeOk;
    if f[c].parent != Some(x) {
      assert c !in f[x].kids by { assert NodeOk(f, x); }
      KeepIn(f[x].kids, gone);
      KeepNone(Keep(f[x].kids, gone), {c});
    }
  }

  lemma RemovableMore(f: Forest, dropped: set<Id>, gone: set<Id>, c: Id)
    requires Linked(f) && Removable(f, dropped, gone) && c in f && c !in gone
    requires (f[c].holder.None? || c in dropped) && Keep(f[c].kids, gone) == []
    ensures Removable(f, dropped, gone + {c})
  {
    assert NodeOk(f, c);
    KeepIn(f[c].kids, gone);
    hide Keep;
  }

  lemma CutLeaf(f: Forest, dropped: set<Id>, gone: set<Id>, c: Id)
    requires Linked(f) && Removable(f, dropped, gone) && c in f && c !in gone
    requires (f[c].holder.None? || c in dropped) && Keep(f[c].kids, gone) == []
    ensures Removable(f, dropped, gone + {c})
    ensures Cut(f, dropped, gone + {c}) == WithoutLeaf(Cut(f, dropped, gone), c)
  {
    RemovableMore(f, dropped, gone, c);
    hide Keep, Linked, Removable;
    forall x | x in f && x !in gone && x != c
      ensures Cut(f, dropped, gone + {c})[x] == WithoutLeaf(Cut(f, dropped, gone), c)[x]
    {
      CutLeafAt(f, dropped, gone, c, x);
    }
  }

  lemma CutUnheld(f: Forest, dropped: set<Id>, gone: set<Id>, c: Id)
    requires c in f && c !in gone
    ensures Cut(f, dropped + {c}, gone) == Cut(f, dropped, gone)[c := Cut(f, dropped, gone)[c].(holder := None)]
  {
  }

  lemma CutSetsMore(sets: Sets, dropped: set<Id>, c: Id)
    ensures CutSets(CutSets(sets, dropped), {c}) == CutSets(sets, dropped + {c})
  {
    forall s | s in sets ensures CutSets(CutSets(sets, dropped), {c})[s] == CutSets(sets, dropped + {c})[s] {
      KeepKeep(sets[s], dropped, {c});
    }
  }

  // ----------------------------------------------------------- consequences

  lemma NothingCut(f: Forest)
    ensures Cut(f, {}, {}) == f
  {
    forall x | x in f ensures Keep(f[x].kids, {}) == f[x].kids { KeepNone(f[x].kids, {}); }
  }

  /** In a settled forest every record, an orphaned origin included, serves some held record. */
  lemma EveryRecordServes(f: Forest, next: Id, x: Id)
    requires Linked(f) && (forall z :: z in f ==> z < next) && NoIdleOrphan(f) && x in f
    ensures Needed(f, {}, x)
  {
    NothingCut(f);
    KeptNeeded(f, next, {}, {}, x);
  }

  lemma {:induction false} Comparable(f: Forest, y: Id, x: Id, a: Id)
    requires Under(f, y, x) && Under(f, y, a)
    ensures Under(f, x, a) || Under(f, a, x)
    decreases y
  {
    if y != x && y != a { Comparable(f, f[y].parent.value, x, a); }
  }

  /**
   A revoke frees the record, everything derived from it, and those of its ancestors
   that nothing else held derives from (which are therefore in no set themselves).
   */
  lemma RevokeFrees(f: Forest, next: Id, a: Id, x: Id)
    requires Linked(f) && (forall z :: z in f ==> z < next) && NoIdleOrphan(f) && a in f && x in f
    ensures x in Unneeded(f, Subtree(f, a)) <==>
              || Under(f, x, a)
              || (Under(f, a, x) && forall y :: y in f && f[y].holder.Some? && Under(f, y, x) ==> Under(f, y, a))
    ensures x in Unneeded(f, Subtree(f, a)) && !Under(f, x, a) ==> f[x].holder.None?
  {
    EveryRecordServes(f, next, x);
    var y :| y in f && f[y].holder.Some? && Under(f, y, x);
    if Under(f, x, a) {
      forall z | z in f && Under(f, z, x) ensures z in Subtree(f, a) { UnderTrans(f, z, x, a); }
    } else {
      assert Under(f, x, x);
      if Under(f, y, a) { Comparable(f, y, x, a); }
    }
  }

  lemma {:induction false} UnderTrans(f: Forest, z: Id, x: Id, a: Id)
    requires Under(f, z, x) && Under(f, x, a)
    ensures Under(f, z, a)
    decreases z
  {
    if z != x { UnderTrans(f, f[z].parent.value, x, a); }
  }

  /** A revoke leaves every record that is neither above nor below the revoked one exactly as it was. */
  lemma RevokeKeeps(f: Forest, next: Id, a: Id, x: Id)
    requires Linked(f) && (forall z :: z in f ==> z < next) && NoIdleOrphan(f) && a in f && x in f
    requires !Under(f, x, a) && !Under(f, a, x)
    ensures var d := Subtree(f, a); x in Cut(f, d, Unneeded(f, d)) && Cut(f, d, Unneeded(f, d))[x] == f[x]
  {
    var d := Subtree(f, a);
    RevokeFrees(f, next, a, x);
    forall k | k in f[x].kids ensures k !in Unneeded(f, d) {
      assert NodeOk(f, x) && NodeOk(f, k);
      RevokeFrees(f, next, a, k);
      if Under(f, a, k) { UnderStep(f, a, k, x); }
    }
    KeepNone(f[x].kids, Unneeded(f, d));
  }

  /** Dropping some records leaves every other held record in its set, with its range and rights. */
  lemma HeldSurvive(f: Forest, dropped: set<Id>, x: Id)
    requires x in f && f[x].holder.Some? && x !in dropped
    ensures var g := Cut(f, dropped, Unneeded(f, dropped));
            x in g && g[x].(kids := f[x].kids) == f[x]
  {
    assert Under(f, x, x);
  }
}
