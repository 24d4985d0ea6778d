/** The address formats of the tracer: base and stride, base and deltas, and when they say what was recorded. */
module TraceEncoder {
  import opened Basics

  const LANES := 32

  predicate Address(a: int) { 0 <= a < ULONG_RANGE }

  /** A difference of addresses as a signed 64-bit number. */
  function Diff64(x: int, y: int): (d: int)
    ensures -ULONG_RANGE / 2 <= d < ULONG_RANGE / 2
  {
    var d := (y - x) % ULONG_RANGE;
    if d >= ULONG_RANGE / 2 then d - ULONG_RANGE else d
  }

  /** The same, cut down to a 32-bit int. */
  function Diff32(x: int, y: int): (d: int)
    ensures -UINT_RANGE / 2 <= d < UINT_RANGE / 2
  {
    var d := (y - x) % UINT_RANGE;
    if d >= UINT_RANGE / 2 then d - UINT_RANGE else d
  }

  function Add64(x: int, d: int): (y: int)
    ensures Address(y)
  {
    (x + d) % ULONG_RANGE
  }

  predicate FitsInt(d: int) { -UINT_RANGE / 2 <= d < UINT_RANGE / 2 }

  lemma AddDiff(x: int, y: int)
    requires Address(x) && Address(y)
    ensures Add64(x, Diff64(x, y)) == y
  {}

  lemma AddUnique(x: int, y: int, d: int)
    requires Address(x) && Address(y) && -ULONG_RANGE / 2 <= d < ULONG_RANGE / 2
    ensures Add64(x, d) == y <==> d == Diff64(x, y)
  {}

  /** The two differences are equal up to a multiple of 2^32. */
  lemma CutDown(x: int, y: int) returns (k: int)
    ensures Diff64(x, y) == Diff32(x, y) + UINT_RANGE * k
  {
    var z := y - x;
    var q, r := z / ULONG_RANGE, z % ULONG_RANGE;
    var p, t := z / UINT_RANGE, z % UINT_RANGE;
    assert z == ULONG_RANGE * q + r && z == UINT_RANGE * p + t;
    k := p - UINT_RANGE * q + (if t >= UINT_RANGE / 2 then 1 else 0) - (if r >= ULONG_RANGE / 2 then UINT_RANGE else 0);
  }

  /** The cut-down difference leads back exactly when nothing was cut. */
  lemma AddDiff32Iff(x: int, y: int)
    requires Address(x) && Address(y)
    ensures Add64(x, Diff32(x, y)) == y <==> FitsInt(Diff64(x, y))
  {
    hide Add64, Diff32, Diff64;
    var k := CutDown(x, y);
    AddUnique(x, y, Diff32(x, y));
  }

  // ------------------------------------------------------------------
  // What is recorded, and what a reader of the trace gets back
  // ------------------------------------------------------------------

  type Mask = seq<bool>
  type Addrs = seq<int>

  predicate Lanes(addrs: Addrs, mask: Mask) {
    |addrs| == LANES == |mask| && forall s :: 0 <= s < LANES ==> Address(addrs[s])
  }

  /** The addresses of the active lanes below n, in lane order. */
  function Active(addrs: Addrs, mask: Mask, n: nat): (a: seq<int>)
    requires Lanes(addrs, mask) && n <= LANES
    ensures forall k :: 0 <= k < |a| ==> Address(a[k])
  {
    if n == 0 then []
    else if mask[n - 1] then Active(addrs, mask, n - 1) + [addrs[n - 1]]
    else Active(addrs, mask, n - 1)
  }

  datatype Encoded =
    | BaseStride(base: int, stride: int)
    | BaseDelta(base: int, deltas: seq<int>)
    | ListAll(addrs: seq<int>)

  /** Running sums from the base. */
  function Sums(base: int, deltas: seq<int>): (a: seq<int>)
    ensures |a| == |deltas| + 1
    decreases |deltas|
  {
    if deltas == [] then [base]
    else
      var n := |deltas| - 1;
      var prefix := Sums(base, deltas[..n]);
      prefix + [Add64(prefix[n], deltas[n])]
  }

  /** The addresses of `lanes` active lanes. */
  function Decode(e: Encoded, lanes: nat): seq<int> {
    match e
    case ListAll(addrs) => addrs
    case BaseDelta(base, deltas) => if lanes == 0 then [] else Sums(base, deltas)
    case BaseStride(base, stride) => if lanes == 0 then [] else Sums(base, seq(lanes - 1, _ => stride))
  }

  function Deltas(a: seq<int>): (d: seq<int>)
    ensures |d| == if a == [] then 0 else |a| - 1
  {
    seq(if a == [] then 0 else |a| - 1, k requires 0 <= k < |a| - 1 => Diff64(a[k], a[k + 1]))
  }

  /** Deltas lose nothing. */
  lemma {:induction false} DeltasRoundTrip(a: seq<int>)
    requires a != [] && forall k :: 0 <= k < |a| ==> Address(a[k])
    ensures Sums(a[0], Deltas(a)) == a
    decreases |a|
  {
    if |a| > 1 {
      var n := |a| - 1;
      DeltasRoundTrip(a[..n]);
      assert Deltas(a)[..n - 1] == Deltas(a[..n]);
      AddDiff(a[n - 1], a[n]);
      assert a == a[..n] + [a[n]];
    }
  }

  // ------------------------------------------------------------------
  // The two scans
  // ------------------------------------------------------------------

  /** First active lane at or after s, LANES if none. */
  function FirstActive(mask: Mask, s: nat): (f: nat)
    requires s <= |mask| == LANES
    ensures s <= f <= LANES && (f < LANES ==> mask[f]) && forall t :: s <= t < f ==> !mask[t]
    decreases LANES - s
  {
    if s == LANES || mask[s] then s else FirstActive(mask, s + 1)
  }

  /** First inactive lane at or after s, LANES if none. */
  function RunEnd(mask: Mask, s: nat): (e: nat)
    requires s <= |mask| == LANES
    ensures s <= e <= LANES && (e < LANES ==> !mask[e]) && forall t :: s <= t < e ==> mask[t]
    decreases LANES - s
  {
    if s == LANES || !mask[s] then s else RunEnd(mask, s + 1)
  }

  /** No lane is active, or the active lanes are two or more in a row whose cut-down differences all agree. */
  predicate Strided(addrs: Addrs, mask: Mask)
    requires Lanes(addrs, mask)
  {
    var f := FirstActive(mask, 0);
    f == LANES ||
    (var e := RunEnd(mask, f);
     && f + 2 <= e && FirstActive(mask, e) == LANES
     && forall s :: f < s < e ==> Diff32(addrs[s - 1], addrs[s]) == Diff32(addrs[f], addrs[f + 1]))
  }

  method BaseStrideCompress(addrs: Addrs, mask: Mask) returns (constStride: bool, base: int, stride: int)
    requires Lanes(addrs, mask)
    ensures constStride <==> Strided(addrs, mask)
    ensures constStride ==> var f := FirstActive(mask, 0);
      if f == LANES then base == 0 && stride == 0
      else base == addrs[f] && stride == Diff32(addrs[f], addrs[f + 1])
  {
    hide Diff32, Address, FirstActive, RunEnd;
    ghost var f := FirstActive(mask, 0);
    constStride, base, stride := true, 0, 0;
    var firstFound, lastFound := false, false;
    for s := 0 to LANES
      invariant constStride && (firstFound <==> f < s)
      invariant !firstFound ==> !lastFound && base == 0 && stride == 0
      invariant firstFound ==>
        base == addrs[f] && f + 1 < LANES && mask[f + 1] && stride == Diff32(addrs[f], addrs[f + 1])
      invariant firstFound && !lastFound ==>
        && RunEnd(mask, f) >= s
        && forall t :: f < t < s ==> Diff32(addrs[t - 1], addrs[t]) == stride
      invariant lastFound ==>
        && firstFound && f + 2 <= RunEnd(mask, f) < s && FirstActive(mask, RunEnd(mask, f)) >= s
        && forall t :: f < t < RunEnd(mask, f) ==> Diff32(addrs[t - 1], addrs[t]) == stride
    {
      if mask[s] && !firstFound {
        firstFound := true;
        base := addrs[s];
        if s < 31 && mask[s + 1] {
          stride := Diff32(addrs[s], addrs[s + 1]);
        } else {
          constStride := false;
          break;
        }
      } else if firstFound && !lastFound {
        if mask[s] {
          if stride != Diff32(addrs[s - 1], addrs[s]) {
            constStride := false;
            break;
          }
        } else {
          lastFound := true;
        }
      } else if lastFound {
        if mask[s] {
          constStride := false;
          break;
        }
      }
    }
  }

  method BaseDeltaCompress(addrs: Addrs, mask: Mask) returns (base: int, deltas: seq<int>)
    requires Lanes(addrs, mask)
    ensures var a := Active(addrs, mask, LANES); deltas == Deltas(a) && base == if a == [] then 0 else a[0]
  {
    hide Diff64, Address;
    base, deltas := 0, [];
    var firstFound := false;
    var last := 0;
    for s := 0 to LANES
      invariant var a := Active(addrs, mask, s);
        && (firstFound <==> a != [])
        && deltas == Deltas(a)
        && base == (if a == [] then 0 else a[0])
        && (a != [] ==> last == a[|a| - 1])
    {
      if mask[s] && !firstFound {
        base := addrs[s];
        firstFound := true;
        last := addrs[s];
      } else if mask[s] && firstFound {
        deltas := deltas + [Diff64(last, addrs[s])];
        last := addrs[s];
      }
    }
  }

  // ------------------------------------------------------------------
  // The choice, and when it is faithful
  // ------------------------------------------------------------------

  function Encode(addrs: Addrs, mask: Mask, compress: bool): Encoded
    requires Lanes(addrs, mask)
  {
    var a := Active(addrs, mask, LANES);
    if !compress then ListAll(a)
    else if Strided(addrs, mask) then
      var f := FirstActive(mask, 0);
      if f == LANES then BaseStride(0, 0) else BaseStride(addrs[f], Diff32(addrs[f], addrs[f + 1]))
    else BaseDelta(if a == [] then 0 else a[0], Deltas(a))
  }

  /** The address part of format_inst_line. */
  method FormatAddresses(addrs: Addrs, mask: Mask, compress: bool) returns (e: Encoded)
    requires Lanes(addrs, mask)
    ensures e == Encode(addrs, mask, compress)
  {
    hide Diff32, Deltas;
    if compress {
      var success, base, stride := BaseStrideCompress(addrs, mask);
      if success { return BaseStride(base, stride); }
      var base', deltas := BaseDeltaCompress(addrs, mask);
      return BaseDelta(base', deltas);
    }
    var a := [];
    for s := 0 to LANES
      invariant a == Active(addrs, mask, s)
    {
      if mask[s] { a := a + [addrs[s]]; }
    }
    return ListAll(a);
  }

  /** Sums rebuild a sequence exactly when every step leads from one element to the next. */
  lemma {:induction false} SumsIff(a: seq<int>, d: seq<int>)
    requires a != [] && |d| == |a| - 1
    ensures Sums(a[0], d) == a <==> forall k :: 0 <= k < |d| ==> Add64(a[k], d[k]) == a[k + 1]
    decreases |a|
  {
    hide Add64;
    if d != [] {
      var n := |d| - 1;
      var p := Sums(a[0], d[..n]);
      SumsIff(a[..n + 1], d[..n]);
      assert a == a[..n + 1] + [a[n + 1]];
      assert Sums(a[0], d) == p + [Add64(p[n], d[n])];
      if p == a[..n + 1] {
        assert p[n] == a[n];
        assert Sums(a[0], d)[n + 1] == Add64(a[n], d[n]);
      } else {
        assert Sums(a[0], d)[..n + 1] == p && a[..n + 1] != p;
      }
    }
  }

  /** Lanes f .. e-1 are active, and no others. */
  ghost predicate IsRun(mask: Mask, f: nat, e: nat) {
    |mask| == LANES && f <= e <= LANES && forall s :: 0 <= s < LANES ==> (mask[s] <==> f <= s < e)
  }

  /** Cut down to 32 bits, two differences agree exactly when they agree modulo 2^32. */
  lemma SameDiff32(x: int, y: int, u: int, v: int)
    ensures Diff32(x, y) == Diff32(u, v) <==> (y - x) % 0x1_0000_0000 == (v - u) % 0x1_0000_0000
  {}

  /** The lanes f .. e-1 alone are active, at least two, with distances that agree modulo 2^32. */
  ghost predicate ConstantStride(addrs: Addrs, mask: Mask, f: nat, e: nat)
    requires Lanes(addrs, mask)
  {
    && IsRun(mask, f, e) && f + 2 <= e
    && forall s :: f < s < e ==>
         (addrs[s] - addrs[s - 1]) % 0x1_0000_0000 == (addrs[f + 1] - addrs[f]) % 0x1_0000_0000
  }

  /** The stride form is open to a warp without active lanes, and to one whose active lanes are consecutive, at least
      two, and at distances that agree modulo 2^32. */
  lemma StridedIff(addrs: Addrs, mask: Mask)
    requires Lanes(addrs, mask)
    ensures Strided(addrs, mask) <==>
      (forall s :: 0 <= s < LANES ==> !mask[s]) || exists f: nat, e: nat :: ConstantStride(addrs, mask, f, e)
  {
    hide Diff32, Address;
    var f := FirstActive(mask, 0);
    if f < LANES {
      var e := RunEnd(mask, f);
      forall s | f < s < LANES && f + 1 < LANES {
        SameDiff32(addrs[s - 1], addrs[s], addrs[f], addrs[f + 1]);
      }
      if Strided(addrs, mask) { assert ConstantStride(addrs, mask, f, e); }
      if f': nat, e': nat :| ConstantStride(addrs, mask, f', e') { OnlyRun(mask, f', e'); }
    }
  }

  lemma OnlyRun(mask: Mask, f: nat, e: nat)
    requires IsRun(mask, f, e) && f < e
    ensures FirstActive(mask, 0) == f && RunEnd(mask, f) == e && FirstActive(mask, e) == LANES
  {
    var (f', e') := (FirstActive(mask, 0), RunEnd(mask, f));
    assert mask[f];
    if f' < LANES { assert mask[f']; }
    if e' < LANES { assert !mask[e']; }
    if e < LANES { assert !mask[e]; }
  }

  /** Which form is chosen. */
  lemma FormChosen(addrs: Addrs, mask: Mask, compress: bool)
    requires Lanes(addrs, mask)
    ensures var e := Encode(addrs, mask, compress);
      && (e.ListAll? <==> !compress)
      && (e.BaseStride? <==> compress && Strided(addrs, mask))
      && (e.BaseDelta? ==> |e.deltas| < LANES && Decode(e, |Active(addrs, mask, LANES)|) == Active(addrs, mask, LANES))
  {
    hide Diff32, Diff64, Strided, Address, Sums, Deltas;
    ActiveBound(addrs, mask, LANES);
    var a := Active(addrs, mask, LANES);
    if a != [] { DeltasRoundTrip(a); }
  }

  lemma {:induction false} ActiveBound(addrs: Addrs, mask: Mask, n: nat)
    requires Lanes(addrs, mask) && n <= LANES
    ensures |Active(addrs, mask, n)| <= n
  {
    if n > 0 { ActiveBound(addrs, mask, n - 1); }
  }

  /** A single run of active lanes lists the addresses of that run. */
  lemma {:induction false} ActiveOfRun(addrs: Addrs, mask: Mask, n: nat, f: nat, e: nat)
    requires Lanes(addrs, mask) && n <= LANES && IsRun(mask, f, e)
    ensures Active(addrs, mask, n) == if n <= f then [] else if n <= e then addrs[f..n] else addrs[f..e]
  {
    hide Address;
    if n > 0 {
      ActiveOfRun(addrs, mask, n - 1, f, e);
      if f < n <= e { assert addrs[f..n] == addrs[f..n - 1] + [addrs[n - 1]]; }
    }
  }

  /** Neighbouring active lanes lie within reach of a 32-bit stride. */
  predicate NeighboursFit(addrs: Addrs, mask: Mask)
    requires Lanes(addrs, mask)
  {
    forall s :: 0 < s < LANES && mask[s - 1] && mask[s] ==> FitsInt(Diff64(addrs[s - 1], addrs[s]))
  }

  /** Rebuilding a run with one stride succeeds exactly when no neighbours in it are out of reach. */
  lemma RunFaithfulIff(addrs: Addrs, f: nat, e: nat, stride: int)
    requires |addrs| == LANES && f + 2 <= e <= LANES && forall s :: 0 <= s < LANES ==> Address(addrs[s])
    requires forall s :: f < s < e ==> Diff32(addrs[s - 1], addrs[s]) == stride
    ensures Sums(addrs[f], seq(e - f - 1, _ => stride)) == addrs[f..e]
      <==> forall s :: f < s < e ==> FitsInt(Diff64(addrs[s - 1], addrs[s]))
  {
    hide Diff32, Diff64, FitsInt, Add64, Address, Sums;
    var a, d := addrs[f..e], seq(e - f - 1, _ => stride);
    SumsIff(a, d);
    forall s | f < s < e
      ensures Add64(a[s - 1 - f], d[s - 1 - f]) == a[s - f] <==> FitsInt(Diff64(addrs[s - 1], addrs[s]))
    {
      AddDiff32Iff(addrs[s - 1], addrs[s]);
    }
    if forall s :: f < s < e ==> FitsInt(Diff64(addrs[s - 1], addrs[s])) {
      forall k | 0 <= k < |d| ensures Add64(a[k], d[k]) == a[k + 1] {
        var s := f + k + 1;
        assert FitsInt(Diff64(addrs[s - 1], addrs[s]));
      }
    }
  }

  /** The stride form gives every active lane its address back exactly when neighbours are within reach. */
  lemma StrideFaithfulIff(addrs: Addrs, mask: Mask)
    requires Lanes(addrs, mask) && Strided(addrs, mask) && FirstActive(mask, 0) < LANES
    ensures var f, a := FirstActive(mask, 0), Active(addrs, mask, LANES);
      && a != [] && a[0] == addrs[f]
      && (Sums(a[0], seq(|a| - 1, _ => Diff32(addrs[f], addrs[f + 1]))) == a <==> NeighboursFit(addrs, mask))
  {
    hide Diff32, Diff64, FitsInt, Address, Sums, Active, FirstActive, RunEnd, IsRun, NeighboursFit;
    var f := FirstActive(mask, 0);
    var e := RunEnd(mask, f);
    OnlyRunIsActive(mask);
    ActiveOfRun(addrs, mask, LANES, f, e);
    RunFaithfulIff(addrs, f, e, Diff32(addrs[f], addrs[f + 1]));
    RunNeighbours(addrs, mask, f, e);
    assert |addrs[f..e]| - 1 == e - f - 1;
  }

  lemma RunNeighbours(addrs: Addrs, mask: Mask, f: nat, e: nat)
    requires Lanes(addrs, mask) && IsRun(mask, f, e)
    ensures NeighboursFit(addrs, mask) <==> forall s :: f < s < e ==> FitsInt(Diff64(addrs[s - 1], addrs[s]))
  {
    hide Diff64, FitsInt, Address;
  }

  lemma OnlyRunIsActive(mask: Mask)
    requires |mask| == LANES && FirstActive(mask, RunEnd(mask, FirstActive(mask, 0))) == LANES
    ensures IsRun(mask, FirstActive(mask, 0), RunEnd(mask, FirstActive(mask, 0)))
  {}

  /** The chosen form, read with the mask, is exactly the active lanes' addresses, if and only if it is not a
      stride that some neighbouring pair of active lanes overflows. */
  lemma EncodingFaithfulIff(addrs: Addrs, mask: Mask, compress: bool)
    requires Lanes(addrs, mask)
    ensures var a := Active(addrs, mask, LANES);
      Decode(Encode(addrs, mask, compress), |a|) == a
      <==> (compress && Strided(addrs, mask) ==> NeighboursFit(addrs, mask))
  {
    hide Diff32, Diff64, FitsInt, Sums, Address, Deltas;
    var a := Active(addrs, mask, LANES);
    NoneActive(addrs, mask, LANES);
    if compress && Strided(addrs, mask) {
      if FirstActive(mask, 0) < LANES { StrideFaithfulIff(addrs, mask); }
    } else if compress && a != [] {
      ActiveAddresses(addrs, mask);
      DeltasRoundTrip(a);
    }
  }

  lemma ActiveAddresses(addrs: Addrs, mask: Mask)
    requires Lanes(addrs, mask)
    ensures forall k :: 0 <= k < |Active(addrs, mask, LANES)| ==> Address(Active(addrs, mask, LANES)[k])
  {}

  lemma {:induction false} NoneActive(addrs: Addrs, mask: Mask, n: nat)
    requires Lanes(addrs, mask) && n <= LANES
    ensures FirstActive(mask, 0) >= n ==> Active(addrs, mask, n) == []
  {
    if n > 0 { NoneActive(addrs, mask, n - 1); }
  }

  /** Two neighbouring lanes 2^32 apart are written as a stride of 0, and read back as one address. */
  lemma StrideCanOverflow()
    ensures var addrs := [0, UINT_RANGE] + seq(30, _ => 0);
      var mask := [true, true] + seq(30, _ => false);
      && Lanes(addrs, mask) && Strided(addrs, mask) && !NeighboursFit(addrs, mask)
      && Encode(addrs, mask, true) == BaseStride(0, 0)
      && Decode(Encode(addrs, mask, true), |Active(addrs, mask, LANES)|) != Active(addrs, mask, LANES)
  {
    var addrs := [0, UINT_RANGE] + seq(30, _ => 0);
    var mask := [true, true] + seq(30, _ => false);
    hide Active, Sums, Encode;
    assert FirstActive(mask, 0) == 0 && RunEnd(mask, 0) == 2 && FirstActive(mask, 2) == LANES;
    assert mask[0] && mask[1] && !FitsInt(Diff64(addrs[0], addrs[1]));
    EncodingFaithfulIff(addrs, mask, true);
    StrideOfTwo(addrs, mask);
  }

  lemma StrideOfTwo(addrs: Addrs, mask: Mask)
    requires Lanes(addrs, mask) && Strided(addrs, mask) && FirstActive(mask, 0) == 0
    requires addrs[0] == 0 && addrs[1] == UINT_RANGE
    ensures Encode(addrs, mask, true) == BaseStride(0, 0)
  {}
}
