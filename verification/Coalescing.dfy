/** The addresses of one memory instruction, merged into sector requests. */
module Coalescing {
  import opened Basics
  import opened BitArith
  import opened Division

  const SECTOR_BITS := 5   // SECTOR_SIZE is 32

  /** Line address and sector number within the line. */
  datatype Sector = Sector(line: nat, number: nat)

  function SectorOf(addr: nat, lineBits: nat): Sector {
    Sector(AlignDown(addr, lineBits), Shr(Low(addr, lineBits), SECTOR_BITS))
  }

  lemma {:induction false} ShrOfLow(x: nat, k: nat, m: nat)
    requires m <= k
    ensures Shr(Low(x, k), m) == Low(Shr(x, m), k - m)
  {
    if m > 0 {
      assert Low(x, k) / 2 == Low(x / 2, k - 1);
      ShrOfLow(x / 2, k - 1, m - 1);
    }
  }

  lemma ThirtyTwo(x: nat)
    ensures Shr(x, SECTOR_BITS) == x / 32 && Low(x, SECTOR_BITS) == x % 32
  {
    ShrLow(x, SECTOR_BITS);
    assert Pow2(SECTOR_BITS) == 32;
    DivUnique(x, 32, Shr(x, SECTOR_BITS), Low(x, SECTOR_BITS));
  }

  /** Two addresses merge exactly when they lie in the same 32 bytes. */
  lemma MergedIffSameSector(x: nat, y: nat, lineBits: nat)
    requires lineBits >= 5
    ensures SectorOf(x, lineBits) == SectorOf(y, lineBits) <==> x / 32 == y / 32
  {
    hide Shr, Low, Pow2, AlignDown;
    var m := lineBits - SECTOR_BITS;
    ThirtyTwo(x);
    ThirtyTwo(y);
    AlignDownSound(x, y, lineBits);
    ShrOfLow(x, lineBits, SECTOR_BITS);
    ShrOfLow(y, lineBits, SECTOR_BITS);
    ShrAdds(x, SECTOR_BITS, m);
    ShrAdds(y, SECTOR_BITS, m);
    ShrLow(Shr(x, SECTOR_BITS), m);
    ShrLow(Shr(y, SECTOR_BITS), m);
  }

  /** A sector is the 32 bytes, of its number within its line, that hold the address. */
  lemma SectorHoldsAddress(x: nat, lineBits: nat)
    requires lineBits >= 5
    ensures var s := SectorOf(x, lineBits);
      && s.line + 32 * s.number <= x < s.line + 32 * s.number + 32
      && s.line <= x < s.line + Pow2(lineBits) && s.line == Pow2(lineBits) * Shr(x, lineBits)
  {
    hide Shr, Low, Pow2;
    ShrLow(x, lineBits);
    AlignDownSound(x, x, lineBits);
    ThirtyTwo(Low(x, lineBits));
  }

  /** The merging loop of read_mem: every sector touched, once. */
  method Coalesce(addrs: seq<nat>, lineBits: nat) returns (sectors: seq<Sector>)
    ensures NoDup(sectors)
    ensures forall s :: s in sectors <==> exists k :: 0 <= k < |addrs| && SectorOf(addrs[k], lineBits) == s
    ensures addrs != [] ==> sectors != [] && sectors[0] == SectorOf(addrs[0], lineBits)
    ensures |sectors| <= |addrs|
  {
    hide SectorOf;
    sectors := [];
    for k := 0 to |addrs|
      invariant NoDup(sectors) && |sectors| <= k
      invariant forall s :: s in sectors <==> exists j :: 0 <= j < k && SectorOf(addrs[j], lineBits) == s
      invariant k > 0 ==> sectors != [] && sectors[0] == SectorOf(addrs[0], lineBits)
    {
      var s := SectorOf(addrs[k], lineBits);
      if s !in sectors { sectors := sectors + [s]; }
    }
  }
}
