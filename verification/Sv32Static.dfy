/**
 When static_map() (arch/riscv/mmu_sv32.c) runs out: which root entries a range needs new
 level-2 tables for, and what has been used up at each point of the loop.
 */
module Sv32Static {
  import opened Sequences
  import opened Sv32Table

  /** Root entry k lies wholly in the range, so that a megapage can cover it. */
  predicate Whole(k: nat, first: nat, end: nat) {
    first <= k * PTES && (k + 1) * PTES <= end
  }

  /** Some page from first up to a is under root entry k. */
  predicate Touched(k: nat, first: nat, a: nat) {
    first < a && k * PTES < a && first < (k + 1) * PTES
  }

  /** The root entries touched up to a that need a new table. */
  ghost function News(first: nat, a: nat, end: nat, vpn: seq<Option<nat>>, mega: map<nat, Rights>): set<nat> {
    set k: nat | 0 <= k < PTES && Touched(k, first, a) && !Whole(k, first, end) && k !in mega && Some(k) !in vpn
  }

  /**
   static_map() cannot map [first, end): a page of it lies under a megapage mapped before,
   or it needs more tables than are left.
   */
  ghost predicate Stuck(first: nat, end: nat, vpn: seq<Option<nat>>, mega: map<nat, Rights>, left: nat) {
    || (exists p: Page :: Within(p, first, end) && Vpn1(p) in mega)
    || |News(first, end, end, vpn, mega)| > left
  }

  /** What the loop has done once the pages before a are mapped. */
  ghost predicate Track(first: nat, a: nat, end: nat, vpn0: seq<Option<nat>>, used0: nat, mega0: map<nat, Rights>,
                        vpn: seq<Option<nat>>, used: nat, mega: map<nat, Rights>) {
    && (forall p: Page :: Within(p, first, a) ==> Vpn1(p) !in mega0)
    && (forall k: nat :: k < PTES ==> (Some(k) in vpn <==> Some(k) in vpn0 || k in News(first, a, end, vpn0, mega0)))
    && used == used0 + |News(first, a, end, vpn0, mega0)|
    && (forall k: nat :: k in mega ==> k in mega0 || (k + 1) * PTES <= a) && (forall k :: k in mega0 ==> k in mega)
    && (a > first && a % PTES != 0 ==> Some(a / PTES) in vpn)
  }

  lemma TrackStart(first: nat, end: nat, vpn: seq<Option<nat>>, used: nat, mega: map<nat, Rights>)
    ensures Track(first, first, end, vpn, used, mega, vpn, used, mega)
  {
    assert News(first, first, end, vpn, mega) == {};
  }

  lemma SameRoot(a: nat, k: nat)
    requires k * PTES <= a < (k + 1) * PTES
    ensures a / PTES == k
  {
  }

  /** A megapage was mapped at a. */
  lemma TrackMega(first: nat, a: nat, end: nat, vpn0: seq<Option<nat>>, used0: nat, mega0: map<nat, Rights>,
                  vpn: seq<Option<nat>>, used: nat, mega: map<nat, Rights>, q: Rights)
    requires Track(first, a, end, vpn0, used0, mega0, vpn, used, mega)
    requires first <= a && a % PTES == 0 && a + PTES <= end <= PAGES && a / PTES !in mega
    ensures Track(first, a + PTES, end, vpn0, used0, mega0, vpn, used, mega[a / PTES := q])
  {
    var k0 := a / PTES;
    assert a == k0 * PTES;
    assert News(first, a + PTES, end, vpn0, mega0) == News(first, a, end, vpn0, mega0) by {
      forall k: nat | 0 <= k < PTES && Touched(k, first, a + PTES) && !Touched(k, first, a)
        ensures Whole(k, first, end)
      {
        assert k == k0;
      }
    }
    forall p: Page | Within(p, first, a + PTES) ensures Vpn1(p) !in mega0 {
      if p >= a { SameRoot(p, k0); }
    }
  }

  /** A page was mapped at a, in a table that was there or in a new one. */
  lemma TrackPage(first: nat, a: nat, end: nat, vpn0: seq<Option<nat>>, used0: nat, mega0: map<nat, Rights>,
                  vpn: seq<Option<nat>>, used: nat, mega: map<nat, Rights>, vpn': seq<Option<nat>>, used': nat)
    requires Track(first, a, end, vpn0, used0, mega0, vpn, used, mega)
    requires first <= a < end <= PAGES && a / PTES !in mega
    requires a % PTES == 0 && end - a >= PTES ==> Some(a / PTES) in vpn
    requires if Some(a / PTES) in vpn then vpn' == vpn && used' == used
             else used' == used + 1 && forall k :: Some(k) in vpn' <==> Some(k) in vpn || k == a / PTES
    ensures Track(first, a + 1, end, vpn0, used0, mega0, vpn', used', mega)
  {
    var k0 := a / PTES;
    var before, now := News(first, a, end, vpn0, mega0), News(first, a + 1, end, vpn0, mega0);
    NextRoot(first, a, end, vpn0, mega0);
    if Some(k0) in vpn {
      assert now == before;
    } else {
      NeedsTable(first, a, end, vpn0, used0, mega0, vpn, used, mega);
      assert now == before + {k0};
    }
    forall p: Page | Within(p, first, a + 1) ensures Vpn1(p) !in mega0 {
      assert p == a || Within(p, first, a);
    }
  }

  lemma NextRoot(first: nat, a: nat, end: nat, vpn0: seq<Option<nat>>, mega0: map<nat, Rights>)
    requires first <= a
    ensures forall k :: k in News(first, a + 1, end, vpn0, mega0) ==>
              k in News(first, a, end, vpn0, mega0) || k == a / PTES
    ensures forall k :: k in News(first, a, end, vpn0, mega0) ==> k in News(first, a + 1, end, vpn0, mega0)
  {
    forall k: nat | Touched(k, first, a + 1) && !Touched(k, first, a) ensures k == a / PTES {
      if first < a {
        assert k * PTES == a;
      } else {
        SameRoot(a, k);
      }
    }
  }

  /** The root entry of a page that has no table yet is one of those that need a new one. */
  lemma NeedsTable(first: nat, a: nat, end: nat, vpn0: seq<Option<nat>>, used0: nat, mega0: map<nat, Rights>,
                   vpn: seq<Option<nat>>, used: nat, mega: map<nat, Rights>)
    requires Track(first, a, end, vpn0, used0, mega0, vpn, used, mega)
    requires first <= a < end <= PAGES && Some(a / PTES) !in vpn && a / PTES !in mega0
    requires !(a % PTES == 0 && end - a >= PTES)
    ensures a / PTES in News(first, a + 1, end, vpn0, mega0) && a / PTES !in News(first, a, end, vpn0, mega0)
    ensures a / PTES in News(first, end, end, vpn0, mega0)
  {
    var k0 := a / PTES;
    assert k0 * PTES <= a < (k0 + 1) * PTES && k0 < PTES;
    assert Some(k0) !in vpn0 && k0 !in News(first, a, end, vpn0, mega0);
    assert !Whole(k0, first, end);
  }

  /** The loop stopped at a: the range was stuck from the start. */
  lemma TrackStuck(first: nat, a: nat, end: nat, vpn0: seq<Option<nat>>, used0: nat, mega0: map<nat, Rights>,
                   vpn: seq<Option<nat>>, used: nat, mega: map<nat, Rights>, n: nat)
    requires Track(first, a, end, vpn0, used0, mega0, vpn, used, mega) && used0 <= n
    requires first <= a < end <= PAGES && Some(a / PTES) !in vpn && (a / PTES in mega || used == n)
    requires !(a % PTES == 0 && end - a >= PTES && a / PTES !in mega)
    ensures Stuck(first, end, vpn0, mega0, n - used0)
  {
    var k0 := a / PTES;
    if k0 in mega0 {
      assert Within(a, first, end) && Vpn1(a) in mega0;
    } else {
      assert k0 !in mega;
      NeedsTable(first, a, end, vpn0, used0, mega0, vpn, used, mega);
      Fewer(first, a, end, vpn0, mega0, k0);
    }
  }

  lemma Fewer(first: nat, a: nat, end: nat, vpn0: seq<Option<nat>>, mega0: map<nat, Rights>, k: nat)
    requires a <= end && k in News(first, end, end, vpn0, mega0) && k !in News(first, a, end, vpn0, mega0)
    ensures |News(first, a, end, vpn0, mega0)| < |News(first, end, end, vpn0, mega0)|
  {
    var some, all := News(first, a, end, vpn0, mega0), News(first, end, end, vpn0, mega0);
    assert some <= all - {k};
    Subsets(some, all - {k});
  }

  lemma {:induction false} Subsets(a: set<nat>, b: set<nat>)
    requires a <= b
    ensures |a| <= |b|
    decreases a
  {
    if a != {} {
      var x :| x in a;
      Subsets(a - {x}, b - {x});
    }
  }

  /** The loop got through: the range was not stuck. */
  lemma TrackEnd(first: nat, a: nat, end: nat, vpn0: seq<Option<nat>>, used0: nat, mega0: map<nat, Rights>,
                 vpn: seq<Option<nat>>, used: nat, mega: map<nat, Rights>, n: nat)
    requires Track(first, a, end, vpn0, used0, mega0, vpn, used, mega) && used0 <= used <= n
    requires a == end || (a == first && end < first)
    ensures !Stuck(first, end, vpn0, mega0, n - used0)
  {
    if end < first { assert News(first, end, end, vpn0, mega0) == {}; }
  }
}
