/** Address arithmetic of the caches: base-2 logarithm, and the two set-index functions. */
module CacheIndex {
  import opened BitArith

  // ------------------------------------------------------------------
  // Base-2 logarithm
  // ------------------------------------------------------------------

  /** The branch-free binary search of the source. */
  function LogB2(v: bv32): bv32 {
    var s4: bv32 := if v & 0xFFFF0000 != 0 then 16 else 0;
    var v4 := v >> s4;
    var s3: bv32 := if v4 & 0xFF00 != 0 then 8 else 0;
    var v3 := v4 >> s3;
    var s2: bv32 := if v3 & 0xF0 != 0 then 4 else 0;
    var v2 := v3 >> s2;
    var s1: bv32 := if v2 & 0xC != 0 then 2 else 0;
    var v1 := v2 >> s1;
    var s0: bv32 := if v1 & 0x2 != 0 then 1 else 0;
    s4 | s3 | s2 | s1 | s0
  }

  /** It is the position of the highest set bit. */
  lemma LogB2IsFloor(v: bv32)
    requires v != 0
    ensures LogB2(v) < 32 && v >> LogB2(v) == 1
  {}

  // ------------------------------------------------------------------
  // Set index of a line number
  // ------------------------------------------------------------------

  /** LINEAR_SET_FUNCTION, for 2^k sets. */
  function LinearIndex(line: nat, k: nat): (s: nat)
    ensures s < Pow2(k) && line == Pow2(k) * Shr(line, k) + s
  {
    ShrLow(line, k);
    Low(line, k)
  }

  /** An element of the two-element field: a bit, added with exclusive or. */
  datatype Gf2 = C0 | C1

  function Coefficient(b: bool): Gf2 { if b then C1 else C0 }

  function Weight(c: Gf2): nat { if c == C1 then 1 else 0 }

  /** A 6-bit index, or a polynomial of degree below 6 over GF(2). */
  datatype Six = Six(b0: Gf2, b1: Gf2, b2: Gf2, b3: Gf2, b4: Gf2, b5: Gf2)

  function ToIndex(s: Six): (n: nat)
    ensures n < 64
  {
    Weight(s.b0) + 2 * Weight(s.b1) + 4 * Weight(s.b2) + 8 * Weight(s.b3) + 16 * Weight(s.b4) + 32 * Weight(s.b5)
  }

  lemma ToIndexInjective(s: Six, t: Six)
    requires ToIndex(s) == ToIndex(t)
    ensures s == t
  {}

  function Xor(x: Gf2, y: Gf2): Gf2 { if x == y then C0 else C1 }

  function Xor9(s: Gf2, t: Gf2, u: Gf2, v: Gf2, w: Gf2, x: Gf2, y: Gf2, z: Gf2, b: Gf2): Gf2 {
    Xor(Xor(Xor(Xor(Xor(Xor(Xor(Xor(s, t), u), v), w), x), y), z), b)
  }

  function Xor10(r: Gf2, s: Gf2, t: Gf2, u: Gf2, v: Gf2, w: Gf2, x: Gf2, y: Gf2, z: Gf2, b: Gf2): Gf2 {
    Xor(Xor9(r, s, t, u, v, w, x, y, z), b)
  }

  /** `bitset<n>(x)` */
  function Bits(x: nat, n: nat): seq<Gf2> {
    seq(n, i requires 0 <= i < n => Coefficient(Bit(x, i)))
  }

  /** HASH_IPOLY_FUNCTION for 64 sets: the six equations, on a line number.
      `a` are the bits above the plain index, `b` is the plain index. */
  function Equations(a: seq<Gf2>, b: seq<Gf2>): Six
    requires |a| == 64 && |b| == 6
  {
    Six(Xor10(a[18], a[17], a[16], a[15], a[12], a[10], a[6], a[5], a[0], b[0]),
        Xor10(a[15], a[13], a[12], a[11], a[10], a[7], a[5], a[1], a[0], b[1]),
        Xor10(a[16], a[14], a[13], a[12], a[11], a[8], a[6], a[2], a[1], b[2]),
        Xor10(a[17], a[15], a[14], a[13], a[12], a[9], a[7], a[3], a[2], b[3]),
        Xor10(a[18], a[16], a[15], a[14], a[13], a[10], a[8], a[4], a[3], b[4]),
        Xor9(a[17], a[16], a[15], a[14], a[11], a[9], a[5], a[4], b[5]))
  }

  function IpolyIndex(line: nat): Six {
    Equations(Bits(Shr(line, 6), 64), Bits(Low(line, 6), 6))
  }

  function At(s: Six, i: nat): Gf2
    requires i < 6
  {
    match i
    case 0 => s.b0
    case 1 => s.b1
    case 2 => s.b2
    case 3 => s.b3
    case 4 => s.b4
    case 5 => s.b5
  }

  lemma LowestBit(c: Gf2, n: nat, i: nat)
    ensures Bit(Weight(c) + 2 * n, i) == if i == 0 then c == C1 else Bit(n, i - 1)
  {
    assert (Weight(c) + 2 * n) / 2 == n;
  }

  /** Bit i of the index is coefficient i. */
  lemma IndexHasBits(s: Six, i: nat)
    requires i < 6
    ensures Bit(ToIndex(s), i) <==> At(s, i) == C1
  {
    hide Bit, Weight;
    var n5 := Weight(s.b5) + 2 * 0;
    var n4 := Weight(s.b4) + 2 * n5;
    var n3 := Weight(s.b3) + 2 * n4;
    var n2 := Weight(s.b2) + 2 * n3;
    var n1 := Weight(s.b1) + 2 * n2;
    assert ToIndex(s) == Weight(s.b0) + 2 * n1;
    LowestBit(s.b0, n1, i);
    if i >= 1 { LowestBit(s.b1, n2, i - 1); }
    if i >= 2 { LowestBit(s.b2, n3, i - 2); }
    if i >= 3 { LowestBit(s.b3, n4, i - 3); }
    if i >= 4 { LowestBit(s.b4, n5, i - 4); }
    if i >= 5 { LowestBit(s.b5, 0, i - 5); }
  }

  // ------------------------------------------------------------------
  // Polynomials modulo x^6 + x + 1 over GF(2)
  // ------------------------------------------------------------------

  const ZERO := Six(C0, C0, C0, C0, C0, C0)
  const ONE := Six(C1, C0, C0, C0, C0, C0)

  function Add(p: Six, q: Six): Six {
    Six(Xor(p.b0, q.b0), Xor(p.b1, q.b1), Xor(p.b2, q.b2), Xor(p.b3, q.b3), Xor(p.b4, q.b4), Xor(p.b5, q.b5))
  }

  function Scale(c: Gf2, p: Six): Six { if c == C1 then p else ZERO }

  /** Long division, one coefficient at a time: shift it in, subtract the modulus if the degree reaches 6. */
  function DivideStep(r: Six, bit: Gf2): Six {
    if r.b5 == C1 then Six(Xor(bit, C1), Xor(r.b0, C1), r.b1, r.b2, r.b3, r.b4)   // x^6 = x + 1
    else Six(bit, r.b0, r.b1, r.b2, r.b3, r.b4)
  }

  /** Remainder of the polynomial with coefficients p[0], .., p[n-1], the highest first. */
  function Remainder(p: seq<Gf2>, n: nat): Six
    requires n <= |p|
  {
    if n == 0 then ZERO else DivideStep(Remainder(p, n - 1), p[n - 1])
  }

  function PowerOfX(i: nat): Six {
    if i == 0 then ONE else DivideStep(PowerOfX(i - 1), C0)
  }

  /** The same coefficients times the reduced powers x^(shift+n-1), .., x^shift. */
  function SumOfPowers(p: seq<Gf2>, n: nat, shift: nat): Six
    requires n <= |p|
    decreases n
  {
    if n == 0 then ZERO
    else Add(SumOfPowers(p, n - 1, shift + 1), Scale(p[n - 1], PowerOfX(shift)))
  }

  /** A division step is linear in the remainder and the coefficient together. */
  lemma StepLinear(p: Six, q: Six, c: Gf2, d: Gf2)
    ensures DivideStep(Add(p, q), Xor(c, d)) == Add(DivideStep(p, c), DivideStep(q, d))
  {
    if p.b5 == C1 && q.b5 == C1 {
    } else if p.b5 == C1 {
    } else if q.b5 == C1 {
    } else {
    }
  }

  lemma TimesX(p: Six, c: Gf2)
    ensures DivideStep(p, c) == Add(DivideStep(p, C0), Scale(c, ONE))
    ensures DivideStep(Scale(c, p), C0) == Scale(c, DivideStep(p, C0))
  {}

  lemma {:induction false} ShiftIsTimesX(p: seq<Gf2>, n: nat, shift: nat)
    requires n <= |p|
    ensures SumOfPowers(p, n, shift + 1) == DivideStep(SumOfPowers(p, n, shift), C0)
    decreases n
  {
    if n > 0 {
      ShiftIsTimesX(p, n - 1, shift + 1);
      StepLinear(SumOfPowers(p, n - 1, shift + 1), Scale(p[n - 1], PowerOfX(shift)), C0, C0);
      TimesX(PowerOfX(shift), p[n - 1]);
    }
  }

  /** Long division computes the sum of the reduced powers. */
  lemma {:induction false} RemainderIsSum(p: seq<Gf2>, n: nat)
    requires n <= |p|
    ensures Remainder(p, n) == SumOfPowers(p, n, 0)
  {
    if n > 0 {
      RemainderIsSum(p, n - 1);
      ShiftIsTimesX(p, n - 1, 0);
      TimesX(Remainder(p, n - 1), p[n - 1]);
    }
  }

  // ------------------------------------------------------------------
  // The equations compute that remainder
  // ------------------------------------------------------------------

  /** The low 25 bits of the line number, the highest first. */
  function Coefficients(line: nat): (p: seq<Gf2>)
    ensures |p| == 25
  {
    seq(25, j requires 0 <= j < 25 => Coefficient(Bit(line, 24 - j)))
  }

  /** For every line number, of any width: the unrolled equations are the remainder of its low
      25 bits modulo x^6 + x + 1. */
  lemma IpolyIsRemainder(line: nat)
    ensures IpolyIndex(line) == Remainder(Coefficients(line), 25)
  {
    var p := Coefficients(line);
    var a, b := Bits(Shr(line, 6), 64), Bits(Low(line, 6), 6);
    forall i | 0 <= i < 19 ensures a[i] == p[18 - i] { ShrBit(line, 6, i); }
    forall i | 0 <= i < 6 ensures b[i] == p[24 - i] { LowBit(line, 6, i); }
    RemainderIsSum(p, 25);
    EquationsAreSum(p, a, b);
  }

  /** The powers x^0 .. x^24 modulo x^6 + x + 1. */
  function Power(i: nat): Six
    requires i < 25
  {
    match i
    case 0 => Six(C1, C0, C0, C0, C0, C0)
    case 1 => Six(C0, C1, C0, C0, C0, C0)
    case 2 => Six(C0, C0, C1, C0, C0, C0)
    case 3 => Six(C0, C0, C0, C1, C0, C0)
    case 4 => Six(C0, C0, C0, C0, C1, C0)
    case 5 => Six(C0, C0, C0, C0, C0, C1)
    case 6 => Six(C1, C1, C0, C0, C0, C0)
    case 7 => Six(C0, C1, C1, C0, C0, C0)
    case 8 => Six(C0, C0, C1, C1, C0, C0)
    case 9 => Six(C0, C0, C0, C1, C1, C0)
    case 10 => Six(C0, C0, C0, C0, C1, C1)
    case 11 => Six(C1, C1, C0, C0, C0, C1)
    case 12 => Six(C1, C0, C1, C0, C0, C0)
    case 13 => Six(C0, C1, C0, C1, C0, C0)
    case 14 => Six(C0, C0, C1, C0, C1, C0)
    case 15 => Six(C0, C0, C0, C1, C0, C1)
    case 16 => Six(C1, C1, C0, C0, C1, C0)
    case 17 => Six(C0, C1, C1, C0, C0, C1)
    case 18 => Six(C1, C1, C1, C1, C0, C0)
    case 19 => Six(C0, C1, C1, C1, C1, C0)
    case 20 => Six(C0, C0, C1, C1, C1, C1)
    case 21 => Six(C1, C1, C0, C1, C1, C1)
    case 22 => Six(C1, C0, C1, C0, C1, C1)
    case 23 => Six(C1, C0, C0, C1, C0, C1)
    case _ => Six(C1, C0, C0, C0, C1, C0)
  }

  lemma {:induction false} PowersTabled(i: nat)
    requires i < 25
    ensures PowerOfX(i) == Power(i)
  {
    if i > 0 { PowersTabled(i - 1); }
  }

  function Component(s: Six, j: nat): Gf2
    requires j < 6
  {
    if j == 0 then s.b0 else if j == 1 then s.b1 else if j == 2 then s.b2
    else if j == 3 then s.b3 else if j == 4 then s.b4 else s.b5
  }

  /** Component j of the sum of the first k + 1 terms. */
  function Partial(p: seq<Gf2>, k: nat, j: nat): Gf2
    requires k <= 25 <= |p| && j < 6
  {
    Component(SumOfPowers(p, k, 25 - k), j)
  }

  /** One more term: component j takes the coefficient in, or stays. */
  ghost predicate TakesTerm(p: seq<Gf2>, k: nat, j: nat)
    requires k < 25 <= |p| && j < 6
  {
    Partial(p, k + 1, j) == if Component(Power(24 - k), j) == C1 then Xor(Partial(p, k, j), p[k]) else Partial(p, k, j)
  }

  lemma OneTerm(p: seq<Gf2>, k: nat, j: nat)
    requires k < 25 <= |p| && j < 6
    ensures TakesTerm(p, k, j)
  {
    hide Power;
    PowersTabled(24 - k);
  }

  lemma FiveTerms(p: seq<Gf2>, k: nat, j: nat)
    requires k <= 20 && 25 <= |p| && j < 6
    ensures TakesTerm(p, k, j) && TakesTerm(p, k + 1, j) && TakesTerm(p, k + 2, j)
    ensures TakesTerm(p, k + 3, j) && TakesTerm(p, k + 4, j)
  {
    hide TakesTerm;
    OneTerm(p, k, j);
    OneTerm(p, k + 1, j);
    OneTerm(p, k + 2, j);
    OneTerm(p, k + 3, j);
    OneTerm(p, k + 4, j);
  }

  lemma NoTerm(p: seq<Gf2>, j: nat, c: Gf2)
    requires 25 <= |p| && j < 6
    ensures Xor(Partial(p, 0, j), c) == c
  {}

  lemma Component0(p: seq<Gf2>)
    requires 25 <= |p|
    ensures Partial(p, 25, 0) == Xor10(p[0], p[1], p[2], p[3], p[6], p[8], p[12], p[13], p[18], p[24])
  {
    hide Xor, Partial;
    NoTerm(p, 0, p[0]);
    FiveTerms(p, 0, 0); FiveTerms(p, 5, 0); FiveTerms(p, 10, 0); FiveTerms(p, 15, 0); FiveTerms(p, 20, 0);
  }

  lemma Component1(p: seq<Gf2>)
    requires 25 <= |p|
    ensures Partial(p, 25, 1) == Xor10(p[3], p[5], p[6], p[7], p[8], p[11], p[13], p[17], p[18], p[23])
  {
    hide Xor, Partial;
    NoTerm(p, 1, p[3]);
    FiveTerms(p, 0, 1); FiveTerms(p, 5, 1); FiveTerms(p, 10, 1); FiveTerms(p, 15, 1); FiveTerms(p, 20, 1);
  }

  lemma Component2(p: seq<Gf2>)
    requires 25 <= |p|
    ensures Partial(p, 25, 2) == Xor10(p[2], p[4], p[5], p[6], p[7], p[10], p[12], p[16], p[17], p[22])
  {
    hide Xor, Partial;
    NoTerm(p, 2, p[2]);
    FiveTerms(p, 0, 2); FiveTerms(p, 5, 2); FiveTerms(p, 10, 2); FiveTerms(p, 15, 2); FiveTerms(p, 20, 2);
  }

  lemma Component3(p: seq<Gf2>)
    requires 25 <= |p|
    ensures Partial(p, 25, 3) == Xor10(p[1], p[3], p[4], p[5], p[6], p[9], p[11], p[15], p[16], p[21])
  {
    hide Xor, Partial;
    NoTerm(p, 3, p[1]);
    FiveTerms(p, 0, 3); FiveTerms(p, 5, 3); FiveTerms(p, 10, 3); FiveTerms(p, 15, 3); FiveTerms(p, 20, 3);
  }

  lemma Component4(p: seq<Gf2>)
    requires 25 <= |p|
    ensures Partial(p, 25, 4) == Xor10(p[0], p[2], p[3], p[4], p[5], p[8], p[10], p[14], p[15], p[20])
  {
    hide Xor, Partial;
    NoTerm(p, 4, p[0]);
    FiveTerms(p, 0, 4); FiveTerms(p, 5, 4); FiveTerms(p, 10, 4); FiveTerms(p, 15, 4); FiveTerms(p, 20, 4);
  }

  lemma Component5(p: seq<Gf2>)
    requires 25 <= |p|
    ensures Partial(p, 25, 5) == Xor9(p[1], p[2], p[3], p[4], p[7], p[9], p[13], p[14], p[19])
  {
    hide Xor, Partial;
    NoTerm(p, 5, p[1]);
    FiveTerms(p, 0, 5); FiveTerms(p, 5, 5); FiveTerms(p, 10, 5); FiveTerms(p, 15, 5); FiveTerms(p, 20, 5);
  }

  lemma EquationsAreSum(p: seq<Gf2>, a: seq<Gf2>, b: seq<Gf2>)
    requires |p| == 25 && |a| == 64 && |b| == 6
    requires forall i :: 0 <= i < 19 ==> a[i] == p[18 - i]
    requires forall i :: 0 <= i < 6 ==> b[i] == p[24 - i]
    ensures Equations(a, b) == SumOfPowers(p, 25, 0)
  {
    hide Xor9, Xor10, SumOfPowers;
    Component0(p);
    Component1(p);
    Component2(p);
    Component3(p);
    Component4(p);
    Component5(p);
  }

  // ------------------------------------------------------------------
  // Strides spread over the sets
  // ------------------------------------------------------------------

  lemma DivideStepInjective(r: Six, r': Six, c: Gf2)
    requires DivideStep(r, c) == DivideStep(r', c)
    ensures r == r'
  {}

  /** Equal remainders stay equal when read backwards over equal coefficients. */
  lemma {:induction false} CommonTail(p: seq<Gf2>, q: seq<Gf2>, m: nat, n: nat)
    requires |p| == |q| && m <= n <= |p|
    requires forall i :: m <= i < n ==> p[i] == q[i]
    requires Remainder(p, n) == Remainder(q, n)
    ensures Remainder(p, m) == Remainder(q, m)
    decreases n - m
  {
    if m < n {
      DivideStepInjective(Remainder(p, n - 1), Remainder(q, n - 1), p[n - 1]);
      CommonTail(p, q, m, n - 1);
    }
  }

  lemma {:induction false} CommonHead(p: seq<Gf2>, q: seq<Gf2>, n: nat)
    requires |p| == |q| && n <= |p|
    requires forall i :: 0 <= i < n ==> p[i] == q[i]
    ensures Remainder(p, n) == Remainder(q, n)
  {
    if n > 0 { CommonHead(p, q, n - 1); }
  }

  function DivideSix(r: Six, c: Six): Six {
    DivideStep(DivideStep(DivideStep(DivideStep(DivideStep(DivideStep(r, c.b5), c.b4), c.b3), c.b2), c.b1), c.b0)
  }

  lemma SixLinear(r: Six, q: Six, c: Six, d: Six)
    ensures DivideSix(Add(r, q), Add(c, d)) == Add(DivideSix(r, c), DivideSix(q, d))
  {
    hide DivideStep;
    var r1, q1 := DivideStep(r, c.b5), DivideStep(q, d.b5);
    var r2, q2 := DivideStep(r1, c.b4), DivideStep(q1, d.b4);
    var r3, q3 := DivideStep(r2, c.b3), DivideStep(q2, d.b3);
    var r4, q4 := DivideStep(r3, c.b2), DivideStep(q3, d.b2);
    var r5, q5 := DivideStep(r4, c.b1), DivideStep(q4, d.b1);
    StepLinear(r, q, c.b5, d.b5);
    StepLinear(r1, q1, c.b4, d.b4);
    StepLinear(r2, q2, c.b3, d.b3);
    StepLinear(r3, q3, c.b2, d.b2);
    StepLinear(r4, q4, c.b1, d.b1);
    StepLinear(r5, q5, c.b0, d.b0);
  }

  lemma SixCoefficientsDecide(r: Six, c: Six, d: Six)
    requires DivideSix(r, c) == DivideSix(r, d)
    ensures c == d
  {
    SixLinear(r, ZERO, c, Add(c, d));
    DivideSixFromZero(Add(c, d));
    AddFacts(r, c, d);
    hide DivideSix;
    AddCancels(DivideSix(r, c), Add(c, d));
  }

  lemma DivideSixFromZero(e: Six)
    ensures DivideSix(ZERO, e) == e
  {}

  lemma AddFacts(r: Six, c: Six, d: Six)
    ensures Add(r, ZERO) == r && Add(c, Add(c, d)) == d
    ensures Add(c, d) == ZERO ==> c == d
  {}

  lemma AddCancels(x: Six, e: Six)
    requires Add(x, e) == x
    ensures e == ZERO
  {}

  function Window(p: seq<Gf2>, j: nat): Six
    requires j + 6 <= |p|
  {
    Six(p[j + 5], p[j + 4], p[j + 3], p[j + 2], p[j + 1], p[j])
  }

  lemma WindowSteps(p: seq<Gf2>, j: nat)
    requires j + 6 <= |p|
    ensures var c := Window(p, j);
      Remainder(p, j + 6) == DivideSix(Remainder(p, j), c)
  {
    hide DivideStep;
    assert Remainder(p, j + 2) == DivideStep(DivideStep(Remainder(p, j), p[j]), p[j + 1]);
    assert Remainder(p, j + 4) == DivideStep(DivideStep(Remainder(p, j + 2), p[j + 2]), p[j + 3]);
  }

  /** Two lines whose hashed 25 bits differ only inside six adjacent positions, and do differ,
      never share a set: any 64 such lines fall in 64 different sets. */
  lemma SixBitWindowSpreads(x: nat, y: nat, j: nat)
    requires j + 6 <= 25
    requires forall i :: 0 <= i < 25 && !(j <= i < j + 6) ==> Coefficients(x)[i] == Coefficients(y)[i]
    requires ToIndex(IpolyIndex(x)) == ToIndex(IpolyIndex(y))
    ensures Coefficients(x) == Coefficients(y)
  {
    hide IpolyIndex, DivideSix, Remainder;
    var p, q := Coefficients(x), Coefficients(y);
    ToIndexInjective(IpolyIndex(x), IpolyIndex(y));
    IpolyIsRemainder(x);
    IpolyIsRemainder(y);
    CommonTail(p, q, j + 6, 25);
    CommonHead(p, q, j);
    WindowSteps(p, j);
    WindowSteps(q, j);
    SixCoefficientsDecide(Remainder(p, j), Window(p, j), Window(q, j));
    forall i | j <= i < j + 6 ensures p[i] == q[i] {
      assert i - j == 0 || i - j == 1 || i - j == 2 || i - j == 3 || i - j == 4 || i - j == 5;
    }
  }

  // ------------------------------------------------------------------
  // Set index of an address
  // ------------------------------------------------------------------

  /** For lines of 2^lineBits bytes and 2^setBits sets. The equations always see 64 upper and 6 lower bits. */
  function SetIndex(hashed: bool, addr: nat, lineBits: nat, setBits: nat): nat {
    if hashed then
      ToIndex(Equations(Bits(Shr(addr, lineBits + setBits), 64), Bits(Low(Shr(addr, lineBits), setBits), 6)))
    else
      LinearIndex(Shr(addr, lineBits), setBits)
  }

  lemma SetIndexOfLine(addr: nat, lineBits: nat)
    ensures SetIndex(true, addr, lineBits, 6) == ToIndex(IpolyIndex(Shr(addr, lineBits)))
  {
    hide Equations, ToIndex;
    ShrAdds(addr, lineBits, 6);
  }

  /** For any number of sets from 64 on, the hashed index is the remainder of the number whose lower six bits are those
      of the line number and whose other bits are the line number's bits above the set bits. */
  lemma SetIndexIsRemainder(addr: nat, lineBits: nat, setBits: nat)
    requires setBits >= 6
    ensures var line := Shr(addr, lineBits);
      SetIndex(true, addr, lineBits, setBits)
      == ToIndex(Remainder(Coefficients(64 * Shr(line, setBits) + Low(line, 6)), 25))
  {
    hide Equations, ToIndex, Remainder, Coefficients, Shr, Low;
    var line := Shr(addr, lineBits);
    var (upper, low) := (Shr(line, setBits), Low(line, 6));
    ShrAdds(addr, lineBits, setBits);
    ShrLow(line, 6);
    MultipleOfPow2(upper, 6, low);
    assert Pow2(6) == 64;
    forall i | 0 <= i < 6 ensures Bit(Low(line, setBits), i) == Bit(low, i) {
      LowBit(line, setBits, i);
      LowBit(line, 6, i);
    }
    assert Bits(Low(line, setBits), 6) == Bits(low, 6);
    IpolyIsRemainder(64 * upper + low);
  }

  /** Every byte of a line lies in the same set, under both functions. */
  lemma SameLineSameSet(hashed: bool, x: nat, y: nat, lineBits: nat, setBits: nat)
    requires AlignDown(x, lineBits) == AlignDown(y, lineBits)
    ensures SetIndex(hashed, x, lineBits, setBits) == SetIndex(hashed, y, lineBits, setBits)
  {
    hide Equations, ToIndex;
    AlignDownSound(x, y, lineBits);
    ShrAdds(x, lineBits, setBits);
    ShrAdds(y, lineBits, setBits);
  }

  lemma {:induction false} Pow2Monotone(m: nat, n: nat)
    requires m <= n
    ensures Pow2(m) <= Pow2(n)
  {
    if m < n { Pow2Monotone(m, n - 1); }
  }

  /** The hashed index is an index into the set array exactly when there are at least 64 sets. */
  lemma HashedInRangeIff(lineBits: nat, setBits: nat)
    ensures (forall addr: nat :: SetIndex(true, addr, lineBits, setBits) < Pow2(setBits)) <==> setBits >= 6
  {
    hide Equations;
    if setBits >= 6 {
      Pow2Monotone(6, setBits);
    } else {
      var addr := Pow2(lineBits + setBits) * 16;
      Pow2Monotone(setBits, 5);
      OverflowingIndex(addr, lineBits, setBits);
    }
  }

  lemma OverflowingIndex(addr: nat, lineBits: nat, setBits: nat)
    requires addr == Pow2(lineBits + setBits) * 16
    ensures SetIndex(true, addr, lineBits, setBits) == 48
  {
    hide Low, Shr, Pow2, Equations;
    MultipleOfPow2(16, lineBits + setBits, 0);
    ShrAdds(addr, lineBits, setBits);
    ShrLow(Shr(addr, lineBits), setBits);
    Pow2Product(lineBits, setBits);
    var p, q := Pow2(lineBits), Pow2(setBits);
    assert addr == p * (q * 16) + 0;
    MultipleOfPow2(q * 16, lineBits, 0);
    MultipleOfPow2(16, setBits, 0);
    SixteenHashes();
  }

  lemma {:induction false} Pow2Product(m: nat, n: nat)
    ensures Pow2(m + n) == Pow2(m) * Pow2(n)
  {
    if m > 0 {
      Pow2Product(m - 1, n);
      Doubled(Pow2(m - 1), Pow2(n));
    }
  }

  lemma {:induction false} BitOfSixteen(i: nat)
    ensures Bit(16, i) == (i == 4)
  {
    assert Shr(16, 5) == 0 && Bit(16, 4);
    if i >= 5 {
      ShrBit(16, 5, i - 5);
      ZeroBit(i - 5);
    }
  }

  lemma SixteenHashes()
    ensures ToIndex(Equations(Bits(16, 64), Bits(0, 6))) == 48
  {
    var a, b := Bits(16, 64), Bits(0, 6);
    forall i | 0 <= i < 64 ensures a[i] == Coefficient(i == 4) { BitOfSixteen(i); }
    forall i | 0 <= i < 6 ensures b[i] == C0 { ZeroBit(i); }
  }
}
