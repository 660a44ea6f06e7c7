/**
 Powers of two and the naturally aligned blocks they cut the address space into.
 Clearing the low k bits of an address is defined bit by bit.
 */
module Powers {

  function Pow2(n: nat): (r: nat)
    ensures r >= 1
  {
    if n == 0 then 1 else 2 * Pow2(n - 1)
  }

  lemma {:induction false} Pow2Monotone(a: nat, b: nat)
    requires a <= b
    ensures Pow2(a) <= Pow2(b)
    ensures a < b ==> 2 * Pow2(a) <= Pow2(b)
    decreases b
  {
    if a < b { Pow2Monotone(a, b - 1); }
  }

  /** n & (n - 1) == 0 for n > 0 */
  predicate IsPow2(n: nat) {
    n == 1 || (n > 1 && n % 2 == 0 && IsPow2(n / 2))
  }

  function Log2(n: nat): (k: nat)
    requires IsPow2(n)
    ensures Pow2(k) == n
  {
    if n == 1 then 0 else 1 + Log2(n / 2)
  }

  /** x & ~((1 << k) - 1) */
  function Down(x: nat, k: nat): nat {
    if k == 0 then x else 2 * Down(x / 2, k - 1)
  }

  /** The low k bits of x are clear. */
  predicate Multiple(x: nat, k: nat) {
    k == 0 || (x % 2 == 0 && Multiple(x / 2, k - 1))
  }

  lemma {:induction false} DownIs(x: nat, k: nat)
    ensures Down(x, k) <= x < Down(x, k) + Pow2(k) && Multiple(Down(x, k), k)
    decreases k
  {
    if k > 0 { DownIs(x / 2, k - 1); }
  }

  /** The block of an address is the only aligned one that holds it. */
  lemma {:induction false} DownUnique(x: nat, m: nat, k: nat)
    requires Multiple(m, k) && m <= x < m + Pow2(k)
    ensures m == Down(x, k)
    decreases k
  {
    if k > 0 { DownUnique(x / 2, m / 2, k - 1); }
  }

  /** Blocks are nested. */
  lemma {:induction false} DownNested(x: nat, k: nat)
    ensures Down(x, k + 1) <= Down(x, k) && Down(x, k) + Pow2(k) <= Down(x, k + 1) + Pow2(k + 1)
    decreases k
  {
    if k > 0 { DownNested(x / 2, k - 1); }
  }

  lemma {:induction false} DownInside(x: nat, j: nat, k: nat)
    requires j <= k
    ensures Down(x, k) <= Down(x, j) && Down(x, j) + Pow2(j) <= Down(x, k) + Pow2(k)
    decreases k
  {
    if j < k {
      DownInside(x, j, k - 1);
      DownNested(x, k - 1);
    }
  }

  /** The block of y starts at or after every multiple up to y, and ends by every multiple after y. */
  lemma {:induction false} DownOrder(m: nat, y: nat, k: nat)
    requires Multiple(m, k)
    ensures m <= y <==> m <= Down(y, k)
    ensures y < m <==> Down(y, k) + Pow2(k) <= m
    decreases k
  {
    if k > 0 { DownOrder(m / 2, y / 2, k - 1); }
  }

  lemma {:induction false} MultipleLess(x: nat, j: nat, k: nat)
    requires j <= k && Multiple(x, k)
    ensures Multiple(x, j)
    decreases k
  {
    if j > 0 { MultipleLess(x / 2, j - 1, k - 1); }
  }

  lemma {:induction false} MultipleSum(x: nat, y: nat, k: nat)
    requires Multiple(x, k) && Multiple(y, k)
    ensures Multiple(x + y, k) && (x >= y ==> Multiple(x - y, k))
    decreases k
  {
    if k > 0 {
      MultipleSum(x / 2, y / 2, k - 1);
      assert (x + y) / 2 == x / 2 + y / 2;
      if x >= y { assert (x - y) / 2 == x / 2 - y / 2; }
    }
  }

  lemma {:induction false} ZeroMultiple(k: nat)
    ensures Multiple(0, k)
  {
    if k > 0 { ZeroMultiple(k - 1); }
  }

  lemma {:induction false} PowerMultiple(j: nat, k: nat)
    requires k <= j
    ensures Multiple(Pow2(j), k)
    decreases k
  {
    if k > 0 { PowerMultiple(j - 1, k - 1); }
  }

  /** x >> k */
  function Shr(x: nat, k: nat): nat {
    if k == 0 then x else Shr(x / 2, k - 1)
  }

  /** Shifting keeps the order with a multiple. */
  lemma {:induction false} ShrOrder(x: nat, y: nat, k: nat)
    requires Multiple(y, k)
    ensures x < y <==> Shr(x, k) < Shr(y, k)
    decreases k
  {
    if k > 0 { ShrOrder(x / 2, y / 2, k - 1); }
  }

  lemma {:induction false} ShrDown(x: nat, k: nat)
    ensures Shr(Down(x, k), k) == Shr(x, k)
    decreases k
  {
    if k > 0 { ShrDown(x / 2, k - 1); }
  }

  /** Away from a multiple, a number and the one before it shift to the same. */
  lemma {:induction false} ShrPred(x: nat, k: nat)
    requires x > 0 && !Multiple(x, k)
    ensures Shr(x - 1, k) == Shr(x, k)
    decreases k
  {
    if x % 2 == 0 {
      assert (x - 1) / 2 == x / 2 - 1;
      ShrPred(x / 2, k - 1);
    } else {
      assert (x - 1) / 2 == x / 2;
    }
  }

  lemma {:induction false} ShrPow2(j: nat, k: nat)
    ensures Shr(Pow2(j + k), k) == Pow2(j)
    decreases k
  {
    if k > 0 { ShrPow2(j, k - 1); }
  }

  lemma MultipleMod(q: nat, g: nat)
    requires g > 0
    ensures (q * g) % g == 0 && (q * g) / g == q
  {
    DivUnique(q * g, g, q, 0);
  }

  lemma MulMonotone(a: int, b: int, g: nat)
    requires a <= b
    ensures a * g <= b * g
  {
  }

  lemma DivUnique(x: nat, g: nat, q: nat, r: nat)
    requires g > 0 && x == q * g + r && r < g
    ensures x / g == q && x % g == r
  {
    var p := x / g;
    assert x == p * g + x % g;
    if p < q { MulMonotone(p + 1, q, g); }
    if q < p { MulMonotone(q + 1, p, g); }
  }
}
