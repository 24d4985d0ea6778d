/** Unsigned machine words as natural numbers, read bit by bit. */
module BitArith {

  function Pow2(n: nat): (p: nat)
    ensures 0 < p
  {
    if n == 0 then 1 else 2 * Pow2(n - 1)
  }

  /** x >> k */
  function Shr(x: nat, k: nat): nat {
    if k == 0 then x else Shr(x / 2, k - 1)
  }

  /** x & (2^k - 1) */
  function Low(x: nat, k: nat): nat {
    if k == 0 then 0 else x % 2 + 2 * Low(x / 2, k - 1)
  }

  /** Bit i of x. */
  function Bit(x: nat, i: nat): bool {
    if i == 0 then x % 2 == 1 else Bit(x / 2, i - 1)
  }

  function Value(b: bool): nat { if b then 1 else 0 }

  lemma Doubled(p: int, s: int)
    ensures (2 * p) * s == 2 * (p * s)
  {}

  lemma HalfOf(m: nat, r: nat)
    ensures (2 * m + r) / 2 == m + r / 2 && (2 * m + r) % 2 == r % 2
  {}

  /** Shifting and masking are division and remainder by a power of two. */
  lemma {:induction false} ShrLow(x: nat, k: nat)
    ensures x == Pow2(k) * Shr(x, k) + Low(x, k) && Low(x, k) < Pow2(k)
  {
    if k > 0 {
      ShrLow(x / 2, k - 1);
      Doubled(Pow2(k - 1), Shr(x / 2, k - 1));
    }
  }

  lemma {:induction false} ShrAdds(x: nat, k: nat, m: nat)
    ensures Shr(Shr(x, k), m) == Shr(x, k + m)
  {
    if k > 0 { ShrAdds(x / 2, k - 1, m); }
  }

  lemma {:induction false} ShrBit(x: nat, k: nat, i: nat)
    ensures Bit(Shr(x, k), i) == Bit(x, k + i)
  {
    if k > 0 { ShrBit(x / 2, k - 1, i); }
  }

  lemma {:induction false} LowBit(x: nat, k: nat, i: nat)
    ensures Bit(Low(x, k), i) == (i < k && Bit(x, i))
  {
    if k == 0 {
      ZeroBit(i);
    } else {
      assert Low(x, k) / 2 == Low(x / 2, k - 1);
      if i > 0 { LowBit(x / 2, k - 1, i - 1); }
    }
  }

  lemma {:induction false} ZeroBit(i: nat)
    ensures !Bit(0, i)
  {
    if i > 0 { ZeroBit(i - 1); }
  }

  /** Clearing the low k bits: `x & ~(2^k - 1)`. */
  function AlignDown(x: nat, k: nat): (a: nat)
  {
    ShrLow(x, k);
    x - Low(x, k)
  }

  lemma {:induction false} MultipleOfPow2(q: nat, k: nat, r: nat)
    requires r < Pow2(k)
    ensures Shr(Pow2(k) * q + r, k) == q && Low(Pow2(k) * q + r, k) == r
  {
    if k > 0 {
      Doubled(Pow2(k - 1), q);
      HalfOf(Pow2(k - 1) * q, r);
      MultipleOfPow2(q, k - 1, r / 2);
    }
  }

  /** Aligning is idempotent, and two addresses align alike exactly when their upper bits agree. */
  lemma AlignDownSound(x: nat, y: nat, k: nat)
    ensures AlignDown(AlignDown(x, k), k) == AlignDown(x, k) <= x < AlignDown(x, k) + Pow2(k)
    ensures AlignDown(x, k) == AlignDown(y, k) <==> Shr(x, k) == Shr(y, k)
    ensures Shr(AlignDown(x, k), k) == Shr(x, k)
  {
    ShrLow(x, k);
    ShrLow(y, k);
    assert AlignDown(x, k) == Pow2(k) * Shr(x, k) && AlignDown(y, k) == Pow2(k) * Shr(y, k);
    MultipleOfPow2(Shr(x, k), k, 0);
    MultipleOfPow2(Shr(y, k), k, 0);
  }
}
