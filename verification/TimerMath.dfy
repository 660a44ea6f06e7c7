/**
 The level and bucket arithmetic of the timing wheel (kernel/time/timer_wheel.c,
 kernel/include/ulmk_timer.h).  The wheel does not cascade: a timer stays in the
 bucket it was put in until the clock of that level points there.
 */
module TimerMath {
  import opened Powers

  const LEVELS := 5
  const SIZE := 64
  const TIMEOUT_MAX := 258048  // 63 << 12

  /** Ticks per bucket of a level: ULMK_TIMER_LVL_GRAN(). */
  function Gran(lvl: nat): (g: nat)
    requires lvl < LEVELS
    ensures g > 0
  {
    if lvl == 0 then 1 else if lvl == 1 then 8 else if lvl == 2 then 64 else if lvl == 3 then 512 else 4096
  }

  /** The smallest level whose revolution is longer than delta, or the last: the loop of calc_wheel_index(). */
  method FindLevel(delta: nat) returns (lvl: nat)
    ensures lvl == Level(delta)
  {
    lvl := 0;
    while lvl < LEVELS
      invariant 0 <= lvl <= LEVELS && forall k :: 0 <= k < lvl ==> delta >= SIZE * Gran(k)
    {
      if delta < SIZE * Gran(lvl) {
        assert forall k :: 0 <= k < lvl ==> delta >= SIZE * Gran(k);
        assert lvl > 0 ==> delta >= SIZE * Gran(lvl - 1);
        return;
      }
      lvl := lvl + 1;
    }
    assert delta >= SIZE * Gran(4);
    lvl := LEVELS - 1;
  }

  function Level(delta: nat): (lvl: nat)
    ensures lvl < LEVELS
    ensures delta <= TIMEOUT_MAX ==> delta < SIZE * Gran(lvl)
    ensures lvl > 0 ==> delta >= 8 * Gran(lvl)
  {
    if delta < 64 then 0 else if delta < 512 then 1 else if delta < 4096 then 2 else if delta < 32768 then 3 else 4
  }

  /** expires rounded up to a multiple of the level's granularity. */
  function Rounded(expires: nat, lvl: nat): nat
    requires lvl < LEVELS
  {
    (expires + Gran(lvl) - 1) / Gran(lvl) * Gran(lvl)
  }

  /** calc_index() */
  function Bucket(expires: nat, lvl: nat): (b: nat)
    requires lvl < LEVELS
    ensures b < SIZE
  {
    Rounded(expires, lvl) / Gran(lvl) % SIZE
  }

  /** At tick t the clock of the level points at the bucket: the test of wheel_advance_collect(). */
  predicate Hits(t: nat, lvl: nat, b: nat)
    requires lvl < LEVELS
  {
    t % Gran(lvl) == 0 && t / Gran(lvl) % SIZE == b
  }

  /** t is the first tick after now at which the bucket is collected. */
  ghost predicate IsFirst(t: nat, now: nat, lvl: nat, b: nat)
    requires lvl < LEVELS
  {
    t > now && Hits(t, lvl, b) && forall u: nat :: now < u < t ==> !Hits(u, lvl, b)
  }

  const WORD := 0x1_0000_0000_0000_0000

  /** calc_index() in the 64-bit arithmetic of the code. */
  function Bucket64(expires: nat, lvl: nat): nat
    requires lvl < LEVELS
  {
    (expires + Gran(lvl) - 1) % WORD / Gran(lvl) % SIZE
  }

  lemma Distributes(a: nat, d: nat, g: nat)
    ensures (a + d) * g == a * g + d * g
  {
  }

  lemma Regroup(q: nat, m: nat, g: nat)
    ensures q * (m * g) == (q * m) * g
  {
  }

  /** Whole multiples of m * g do not change the remainder by g, and add m each to the quotient. */
  lemma SplitBy(q: nat, m: nat, g: nat, r: nat)
    requires g > 0
    ensures (q * (m * g) + r) / g == q * m + r / g && (q * (m * g) + r) % g == r % g
  {
    var a, d, rem := q * m, r / g, r % g;
    assert r == d * g + rem;
    Regroup(q, m, g);
    Distributes(a, d, g);
    DivUnique(q * (m * g) + r, g, a + d, rem);
  }

  /** The number of revolutions of a level in 2^64 ticks. */
  function Turns(lvl: nat): (m: nat)
    requires lvl < LEVELS
    ensures m * SIZE * Gran(lvl) == WORD
  {
    if lvl == 0 then 0x400_0000_0000_0000
    else if lvl == 1 then 0x80_0000_0000_0000
    else if lvl == 2 then 0x10_0000_0000_0000
    else if lvl == 3 then 0x2_0000_0000_0000
    else 0x4000_0000_0000
  }

  lemma WordSplit(x: nat, lvl: nat)
    requires lvl < LEVELS
    ensures (x % WORD) % Gran(lvl) == x % Gran(lvl) && (x % WORD) / Gran(lvl) % SIZE == x / Gran(lvl) % SIZE
  {
    hide Turns, Gran;
    var q, r, m, g := x / WORD, x % WORD, Turns(lvl), Gran(lvl);
    assert x == q * (m * SIZE * g) + r;
    SplitBy(q, m * SIZE, g, r);
    SplitBy(q, m, SIZE, r / g);
  }

  lemma SumWraps(x: nat, g: nat)
    ensures (x % WORD + g) % WORD == (x + g) % WORD
  {
    var q, r := x / WORD, x % WORD;
    assert x + g == q * (1 * WORD) + (r + g);
    SplitBy(q, 1, WORD, r + g);
  }

  lemma BackToBucket(e: nat, lvl: nat)
    requires lvl < LEVELS
    ensures Bucket(e, lvl) == (e + Gran(lvl) - 1) / Gran(lvl) % SIZE
  {
    hide Gran;
    var k, g := (e + Gran(lvl) - 1) / Gran(lvl), Gran(lvl);
    DivUnique(k * g, g, k, 0);
  }

  lemma BucketWraps(t: nat, lvl: nat)
    requires lvl < LEVELS
    ensures Bucket64(t % WORD, lvl) == Bucket(t, lvl)
  {
    hide Gran, Bucket;
    SumWraps(t, Gran(lvl) - 1);
    WordSplit(t + Gran(lvl) - 1, lvl);
    BackToBucket(t, lvl);
  }

  /** A revolution of every level divides 2^64, so the wheel is the same when the clock wraps. */
  lemma ClockWraps(t: nat, lvl: nat, b: nat)
    requires lvl < LEVELS
    ensures Hits(t % WORD, lvl, b) <==> Hits(t, lvl, b)
    ensures Bucket64(t % WORD, lvl) == Bucket(t, lvl)
  {
    hide Gran, Bucket, Bucket64;
    WordSplit(t, lvl);
    BucketWraps(t, lvl);
  }

  /** The tick a timer armed at `now` for `delta` ticks is collected. */
  function CollectTick(now: nat, delta: nat): nat
  {
    var lvl := Level(delta);
    var r := Rounded(now + delta, lvl);
    if r - now <= SIZE * Gran(lvl) then r else r - SIZE * Gran(lvl)
  }

  lemma RoundedIs(e: nat, lvl: nat)
    requires lvl < LEVELS
    ensures e <= Rounded(e, lvl) < e + Gran(lvl) && Rounded(e, lvl) % Gran(lvl) == 0
  {
  }

  /** Two hits of a bucket are a whole number of revolutions apart. */
  lemma HitsApart(t: nat, u: nat, lvl: nat, b: nat)
    requires lvl < LEVELS && Hits(t, lvl, b) && Hits(u, lvl, b) && t < u
    ensures u - t >= SIZE * Gran(lvl)
  {
  }

  /** Tick k * gran is the k-th edge of the level's clock. */
  lemma Edge(k: nat, lvl: nat)
    requires lvl < LEVELS
    ensures Gran(lvl) * k / Gran(lvl) == k && Gran(lvl) * k % Gran(lvl) == 0
    ensures k >= SIZE ==> Gran(lvl) * (k - SIZE) == Gran(lvl) * k - SIZE * Gran(lvl)
  {
    if lvl == 1 {
      assert 8 * k / 8 == k;
    } else if lvl == 2 {
      assert 64 * k / 64 == k;
    } else if lvl == 3 {
      assert 512 * k / 512 == k;
    } else if lvl == 4 {
      assert 4096 * k / 4096 == k;
    }
  }

  lemma EdgeHitsBack(k: nat, lvl: nat)
    requires lvl < LEVELS && k >= SIZE
    ensures Gran(lvl) * k - SIZE * Gran(lvl) >= 0 && Hits(Gran(lvl) * k - SIZE * Gran(lvl), lvl, k % SIZE)
  {
    hide Gran;
    Edge(k, lvl);
    Edge(k - SIZE, lvl);
    TurnBack(k);
  }

  lemma TurnBack(k: nat)
    requires k >= SIZE
    ensures (k - SIZE) % SIZE == k % SIZE
  {
  }

  lemma HitIsEdge(t: nat, lvl: nat, b: nat) returns (k: nat)
    requires lvl < LEVELS && Hits(t, lvl, b)
    ensures t == Gran(lvl) * k && k % SIZE == b && (t >= SIZE * Gran(lvl) ==> k >= SIZE)
  {
    k := t / Gran(lvl);
  }

  lemma HitsBack(t: nat, lvl: nat, b: nat)
    requires lvl < LEVELS && Hits(t, lvl, b) && t >= SIZE * Gran(lvl)
    ensures Hits(t - SIZE * Gran(lvl), lvl, b)
  {
    hide Gran, Hits;
    var k := HitIsEdge(t, lvl, b);
    EdgeHitsBack(k, lvl);
  }

  /** Where a timer is put decides when it is collected: exactly at CollectTick, and not before. */
  lemma CollectedAt(now: nat, delta: nat)
    requires 0 < delta <= TIMEOUT_MAX
    ensures IsFirst(CollectTick(now, delta), now, Level(delta), Bucket(now + delta, Level(delta)))
  {
    var lvl := Level(delta);
    var g := Gran(lvl);
    var r := Rounded(now + delta, lvl);
    var b := Bucket(now + delta, lvl);
    RoundedIs(now + delta, lvl);
    assert Hits(r, lvl, b);
    var t := CollectTick(now, delta);
    if t != r { HitsBack(r, lvl, b); }
    assert t > now && t - now <= SIZE * g;
    forall u: nat | now < u < t ensures !Hits(u, lvl, b) {
      if Hits(u, lvl, b) { HitsApart(u, t, lvl, b); }
    }
  }

  /** The rounded expiry lies within one revolution of the level. */
  predicate WithinTurn(now: nat, delta: nat) {
    Rounded(now + delta, Level(delta)) - now <= SIZE * Gran(Level(delta))
  }

  lemma OneFirst(t: nat, t': nat, now: nat, lvl: nat, b: nat)
    requires lvl < LEVELS && IsFirst(t, now, lvl, b) && IsFirst(t', now, lvl, b)
    ensures t == t'
  {
  }

  /**
   The first sweep of the bucket a timer is put into is never early exactly when the
   rounded expiry is within one turn; then it is less than an eighth late, else a turn early.
   */
  lemma NeverEarlyIff(now: nat, delta: nat, t: nat)
    requires 0 < delta <= TIMEOUT_MAX && IsFirst(t, now, Level(delta), Bucket(now + delta, Level(delta)))
    ensures t >= now + delta <==> WithinTurn(now, delta)
    ensures WithinTurn(now, delta) ==>
              t == Rounded(now + delta, Level(delta)) && 8 * (t - (now + delta)) < delta
    ensures !WithinTurn(now, delta) ==>
              t == Rounded(now + delta, Level(delta)) - SIZE * Gran(Level(delta)) > now
  {
    CollectedAt(now, delta);
    OneFirst(t, CollectTick(now, delta), now, Level(delta), Bucket(now + delta, Level(delta)));
    RoundedIs(now + delta, Level(delta));
  }

  /** Whatever the clock is, a delta is safe exactly in the first and the last level and below the top of the others. */
  lemma SafeDeltas(delta: nat)
    requires 0 < delta <= TIMEOUT_MAX
    ensures (forall now: nat :: WithinTurn(now, delta)) <==>
            Level(delta) == 0 || Level(delta) == 4 || delta <= 63 * Gran(Level(delta)) + 1
  {
    var lvl := Level(delta);
    var g := Gran(lvl);
    if lvl == 0 || lvl == 4 || delta <= 63 * g + 1 {
      forall now: nat ensures WithinTurn(now, delta) { RoundedIs(now + delta, lvl); }
    } else {
      // One past a multiple of the granularity rounds up the farthest.
      var now: nat := (1 - delta) % g;
      assert (now + delta) % g == 1;
      RoundedIs(now + delta, lvl);
      assert !WithinTurn(now, delta);
    }
  }

  /** A timer armed at tick 2 for 511 ticks runs at tick 8. */
  lemma EarlyExample()
    ensures Level(511) == 1 && Bucket(2 + 511, 1) == 1
    ensures CollectTick(2, 511) == 8 < 2 + 511
    ensures IsFirst(8, 2, 1, 1)
  {
    CollectedAt(2, 511);
  }
}
