/** Quotients and remainders. */
module Division {

  lemma MultipleBeyond(d: int, a: int)
    requires a >= 0
    ensures d >= 1 ==> d * a >= a
    ensures d <= -1 ==> d * a <= -a
  {
    if d >= 1 {
      assert d * a == (d - 1) * a + a;
    } else if d <= -1 {
      assert d * a == (d + 1) * a - a;
    }
  }

  /** There is one way to divide with remainder. */
  lemma DivUnique(x: int, a: nat, q: int, r: nat)
    requires a > 0 && r < a && x == q * a + r
    ensures x / a == q && x % a == r
  {
    var q', r' := x / a, x % a;
    assert x == q' * a + r';
    assert (q - q') * a == q * a - q' * a;
    MultipleBeyond(q - q', a);
  }

  /** A round-robin index that goes past the end comes back once. */
  lemma ModWraps(x: nat, n: nat)
    requires x < 2 * n
    ensures x % n == if x < n then x else x - n
  {
    if x < n { DivUnique(x, n, 0, x); } else { DivUnique(x, n, 1, x - n); }
  }
}
