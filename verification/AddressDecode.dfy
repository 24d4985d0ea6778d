/** From a sector address to its memory channel, bank and L2 slice. */
module AddressDecode {
  import opened BitArith
  import opened Division

  const WORD_BITS := 64

  // ------------------------------------------------------------------
  // Bit extraction by mask
  // ------------------------------------------------------------------

  /** Set bits of the mask below position i: the place bit i is packed to. */
  function Rank(mask: nat, i: nat): (k: nat)
    ensures k <= i
  {
    if i == 0 then 0 else Rank(mask, i - 1) + Value(Bit(mask, i - 1))
  }

  /** The bits of val selected by the mask below position i, packed together. */
  function Packed(mask: nat, val: nat, i: nat): nat {
    if i == 0 then 0
    else if Bit(mask, i - 1) then Packed(mask, val, i - 1) + Value(Bit(val, i - 1)) * Pow2(Rank(mask, i - 1))
    else Packed(mask, val, i - 1)
  }

  /** Adding a bit above all others. */
  lemma {:induction false} TopBit(x: nat, b: bool, n: nat, i: nat)
    requires x < Pow2(n)
    ensures x + Value(b) * Pow2(n) < Pow2(n + 1)
    ensures Bit(x + Value(b) * Pow2(n), i) == if i == n then b else Bit(x, i)
  {
    var y := x + Value(b) * Pow2(n);
    if n == 0 {
      if i > 0 {
        assert y / 2 == 0;
        ZeroBit(i - 1);
      }
    } else {
      var p := Pow2(n - 1);
      assert y == x + 2 * (Value(b) * p);
      assert y / 2 == x / 2 + Value(b) * p && y % 2 == x % 2;
      TopBit(x / 2, b, n - 1, if i > 0 then i - 1 else 0);
    }
  }

  lemma {:induction false} SmallBit(x: nat, n: nat, i: nat)
    requires x < Pow2(n) && i >= n
    ensures !Bit(x, i)
  {
    if n == 0 {
      ZeroBit(i);
    } else {
      SmallBit(x / 2, n - 1, i - 1);
    }
  }

  /** Bit j of the value, if the mask selects it, is bit Rank(j) of the result; nothing lies above. */
  lemma {:induction false} PackedBits(mask: nat, val: nat, i: nat, j: nat)
    ensures Packed(mask, val, i) < Pow2(Rank(mask, i))
    ensures j < i && Bit(mask, j) ==>
      && Rank(mask, j) < Rank(mask, i)
      && Bit(Packed(mask, val, i), Rank(mask, j)) == Bit(val, j)
  {
    if i > 0 {
      PackedBits(mask, val, i - 1, j);
      if Bit(mask, i - 1) {
        TopBit(Packed(mask, val, i - 1), Bit(val, i - 1), Rank(mask, i - 1), Rank(mask, j));
      }
    }
  }

  lemma {:induction false} NoneSelected(mask: nat, val: nat, i: nat, k: nat)
    requires i <= k && forall j :: i <= j < k ==> !Bit(mask, j)
    ensures Packed(mask, val, k) == Packed(mask, val, i) && Rank(mask, k) == Rank(mask, i)
    decreases k - i
  {
    if i < k { NoneSelected(mask, val, i, k - 1); }
  }

  lemma NothingBelow(mask: nat, val: nat, i: nat)
    requires forall j :: 0 <= j < i ==> !Bit(mask, j)
    ensures Packed(mask, val, i) == 0 && Rank(mask, i) == 0
  {
    NoneSelected(mask, val, 0, i);
  }

  /** addrdec_getmasklimit: one past the highest and the lowest set bit; (64, 0) for an empty mask. */
  method GetMaskLimit(mask: nat) returns (high: nat, low: nat)
    ensures low <= high <= WORD_BITS
    ensures forall j :: 0 <= j < WORD_BITS && Bit(mask, j) ==> low <= j < high
    ensures if Rank(mask, WORD_BITS) > 0 then low < high && Bit(mask, low) && Bit(mask, high - 1)
            else high == WORD_BITS && low == 0
  {
    hide Bit;
    high, low := WORD_BITS, 0;
    var lowFound := false;
    for i := 0 to WORD_BITS
      invariant lowFound <==> Rank(mask, i) > 0
      invariant !lowFound ==> forall j :: 0 <= j < i ==> !Bit(mask, j)
      invariant lowFound ==> low < high <= i && Bit(mask, low) && Bit(mask, high - 1)
      invariant lowFound ==> forall j :: 0 <= j < i && Bit(mask, j) ==> low <= j < high
      invariant !lowFound ==> high == WORD_BITS && low == 0
    {
      if Bit(mask, i) {
        if lowFound {
          high := i + 1;
        } else {
          high, low := i + 1, i;
          lowFound := true;
        }
      }
    }
  }

  /** addrdec_packbits. The bits or-ed in never overlap, so or-ing is adding. */
  method PackBits(mask: nat, val: nat, high: nat, low: nat) returns (result: nat)
    requires low <= high <= WORD_BITS
    requires forall j :: 0 <= j < WORD_BITS && Bit(mask, j) ==> low <= j < high
    ensures result == Packed(mask, val, WORD_BITS)
  {
    var pos := 0;
    result := 0;
    NothingBelow(mask, val, low);
    for i := low to high
      invariant pos == Rank(mask, i) && result == Packed(mask, val, i)
    {
      if Bit(mask, i) {
        result := result + (if Bit(val, i) then 1 else 0) * Pow2(pos);
        pos := pos + 1;
      }
    }
    NoneSelected(mask, val, high, WORD_BITS);
  }

  /** The loop with its computed limits extracts exactly the selected bits, for every mask. */
  method ExtractBits(mask: nat, val: nat) returns (result: nat)
    ensures result < Pow2(Rank(mask, WORD_BITS))
    ensures forall j :: 0 <= j < WORD_BITS && Bit(mask, j) ==> Bit(result, Rank(mask, j)) == Bit(val, j)
    ensures result == Packed(mask, val, WORD_BITS)
  {
    var high, low := GetMaskLimit(mask);
    result := PackBits(mask, val, high, low);
    PackedBits(mask, val, WORD_BITS, 0);
    forall j | 0 <= j < WORD_BITS && Bit(mask, j) { PackedBits(mask, val, WORD_BITS, j); }
  }

  // ------------------------------------------------------------------
  // Channel, bank and slice
  // ------------------------------------------------------------------

  const ADDR_CHIP_S := 10
  const BANK_MASK := 0x7080

  function Chip(addr: nat, channels: nat): (c: nat)
    requires channels > 0
    ensures c < channels
  {
    Shr(addr, ADDR_CHIP_S) % channels
  }

  function RestOfAddr(addr: nat, channels: nat): nat
    requires channels > 0
  {
    Pow2(ADDR_CHIP_S) * (Shr(addr, ADDR_CHIP_S) / channels) + Low(addr, ADDR_CHIP_S)
  }

  /** The address with the given channel and rest. */
  function Assemble(chip: nat, rest: nat, channels: nat): nat {
    Pow2(ADDR_CHIP_S) * (Shr(rest, ADDR_CHIP_S) * channels + chip) + Low(rest, ADDR_CHIP_S)
  }

  function Bank(addr: nat, channels: nat): nat
    requires channels > 0
  {
    Packed(BANK_MASK, RestOfAddr(addr, channels), WORD_BITS)
  }

  /** get_mem_sub_partition_id, as a value. */
  function Slice(addr: nat, channels: nat, smNum: nat): nat
    requires channels > 0
  {
    Chip(addr, channels) * 2 + Low(Bank(addr, channels), 1) + smNum
  }

  method GetMemSubPartitionId(addr: nat, channels: nat, smNum: nat) returns (slice: nat)
    requires channels > 0
    ensures slice == Slice(addr, channels, smNum)
  {
    hide Packed, Rank, Pow2, Shr, Low, Bit;
    var bk := ExtractBits(BANK_MASK, RestOfAddr(addr, channels));
    slice := Chip(addr, channels) * 2 + Low(bk, 1) + smNum;
  }

  lemma RestParts(addr: nat, channels: nat)
    requires channels > 0
    ensures var rest := RestOfAddr(addr, channels);
      && Shr(rest, ADDR_CHIP_S) == Shr(addr, ADDR_CHIP_S) / channels
      && Low(rest, ADDR_CHIP_S) == Low(addr, ADDR_CHIP_S)
  {
    hide Pow2, Shr, Low;
    ShrLow(addr, ADDR_CHIP_S);
    MultipleOfPow2(Shr(addr, ADDR_CHIP_S) / channels, ADDR_CHIP_S, Low(addr, ADDR_CHIP_S));
  }

  /** No address is lost: channel and rest together determine it, for any number of channels; and dropping the
      channel never needs more bits than the address had. */
  lemma DecodingIsInvertible(addr: nat, channels: nat)
    requires channels > 0
    ensures Assemble(Chip(addr, channels), RestOfAddr(addr, channels), channels) == addr
    ensures RestOfAddr(addr, channels) <= addr
  {
    hide Pow2, Shr, Low;
    RestParts(addr, channels);
    ShrLow(addr, ADDR_CHIP_S);
    var line := Shr(addr, ADDR_CHIP_S);
    assert line == line / channels * channels + line % channels;
    QuotientAtMost(line, channels);
    ProductMonotone(Pow2(ADDR_CHIP_S), line / channels, line);
  }

  lemma QuotientAtMost(x: nat, n: nat)
    requires n > 0
    ensures x / n <= x
  {
    MultipleBeyond(n, x / n);
    assert x == n * (x / n) + x % n;
  }

  lemma ProductMonotone(p: nat, x: nat, y: nat)
    requires x <= y
    ensures p * x <= p * y
  {
    assert p * y == p * x + p * (y - x);
  }

  /** And the other way round: every channel and rest belong to one address. */
  lemma AssemblingIsInvertible(chip: nat, rest: nat, channels: nat)
    requires chip < channels
    ensures var addr := Assemble(chip, rest, channels);
      Chip(addr, channels) == chip && RestOfAddr(addr, channels) == rest
  {
    hide Pow2, Shr, Low;
    var line := Shr(rest, ADDR_CHIP_S) * channels + chip;
    ShrLow(rest, ADDR_CHIP_S);
    MultipleOfPow2(line, ADDR_CHIP_S, Low(rest, ADDR_CHIP_S));
    DivUnique(line, channels, Shr(rest, ADDR_CHIP_S), chip);
  }

  lemma BankMaskBits(j: nat)
    ensures Bit(BANK_MASK, j) <==> j in {7, 12, 13, 14}
  {
    assert !Bit(BANK_MASK, 0) && !Bit(BANK_MASK, 1) && !Bit(BANK_MASK, 2) && !Bit(BANK_MASK, 3);
    assert !Bit(BANK_MASK, 4) && !Bit(BANK_MASK, 5) && !Bit(BANK_MASK, 6);
    if j >= 7 {
      assert Shr(BANK_MASK, 7) == 225;
      ShrBit(BANK_MASK, 7, j - 7);
      assert Bit(225, 0) && !Bit(225, 1) && !Bit(225, 2) && !Bit(225, 3);
      assert !Bit(225, 4) && Bit(225, 5) && Bit(225, 6) && Bit(225, 7);
      if j >= 15 {
        assert Shr(225, 8) == 0;
        ShrBit(225, 8, j - 15);
        ZeroBit(j - 15);
      }
    }
  }

  /** The bank is the number with bits 7, 12, 13 and 14 of the rest, lowest first: one of sixteen. */
  lemma BankIsFourBits(addr: nat, channels: nat)
    requires channels > 0
    ensures var bk, rest := Bank(addr, channels), RestOfAddr(addr, channels);
      && bk < 16
      && Bit(bk, 0) == Bit(rest, 7) && Bit(bk, 1) == Bit(rest, 12)
      && Bit(bk, 2) == Bit(rest, 13) && Bit(bk, 3) == Bit(rest, 14)
  {
    hide Packed, Shr, Low, RestOfAddr;
    var rest := RestOfAddr(addr, channels);
    BankRanks();
    PackedBits(BANK_MASK, rest, WORD_BITS, 7);
    PackedBits(BANK_MASK, rest, WORD_BITS, 12);
    PackedBits(BANK_MASK, rest, WORD_BITS, 13);
    PackedBits(BANK_MASK, rest, WORD_BITS, 14);
    assert Pow2(4) == 16;
  }

  lemma BankRanks()
    ensures Bit(BANK_MASK, 7) && Bit(BANK_MASK, 12) && Bit(BANK_MASK, 13) && Bit(BANK_MASK, 14)
    ensures Rank(BANK_MASK, 7) == 0 && Rank(BANK_MASK, 12) == 1 && Rank(BANK_MASK, 13) == 2
    ensures Rank(BANK_MASK, 14) == 3 && Rank(BANK_MASK, WORD_BITS) == 4
  {
    hide Bit, Packed;
    forall j { BankMaskBits(j); }
    NoneSelected(BANK_MASK, 0, 0, 7);
    NoneSelected(BANK_MASK, 0, 8, 12);
    NoneSelected(BANK_MASK, 0, 15, WORD_BITS);
  }

  /** Slices are numbered after the SMs, two to a channel. */
  lemma SliceInRange(addr: nat, channels: nat, smNum: nat)
    requires channels > 0
    ensures smNum <= Slice(addr, channels, smNum) < smNum + 2 * channels
  {
    ShrLow(Bank(addr, channels), 1);
    assert Pow2(1) == 2;
  }

  /** The bytes of a 128-byte line go to one slice. */
  lemma SameLineSameSlice(x: nat, y: nat, channels: nat, smNum: nat)
    requires channels > 0 && Shr(x, 7) == Shr(y, 7)
    ensures Slice(x, channels, smNum) == Slice(y, channels, smNum)
  {
    hide Shr, Low, Packed, Pow2, Bit;
    ShrAdds(x, 7, 3);
    ShrAdds(y, 7, 3);
    BankParity(x, channels);
    BankParity(y, channels);
    ShrBit(x, 7, 0);
    ShrBit(y, 7, 0);
  }

  /** The slice within the channel is bit 7 of the address. */
  lemma BankParity(addr: nat, channels: nat)
    requires channels > 0
    ensures Low(Bank(addr, channels), 1) == Value(Bit(addr, 7))
  {
    hide Shr, Packed, Pow2;
    var rest := RestOfAddr(addr, channels);
    BankIsFourBits(addr, channels);
    RestParts(addr, channels);
    LowBit(rest, ADDR_CHIP_S, 7);
    LowBit(addr, ADDR_CHIP_S, 7);
    var bk := Bank(addr, channels);
    assert Low(bk, 1) == bk % 2;
  }

  /** Every slice is reached, by the first line of its kind. */
  lemma EverySliceReached(chip: nat, odd: bool, channels: nat, smNum: nat)
    requires chip < channels
    ensures Slice(Pow2(ADDR_CHIP_S) * chip + 128 * Value(odd), channels, smNum) == smNum + 2 * chip + Value(odd)
  {
    var low := 128 * Value(odd);
    var addr := Pow2(ADDR_CHIP_S) * chip + low;
    assert low < Pow2(ADDR_CHIP_S) && Bit(low, 7) == odd && Shr(low, 10) == 0;
    FirstLine(chip, low, channels);
    BankParity(addr, channels);
    LowBit(addr, ADDR_CHIP_S, 7);
    LowBit(low, ADDR_CHIP_S, 7);
  }

  lemma FirstLine(chip: nat, low: nat, channels: nat)
    requires chip < channels && low < Pow2(ADDR_CHIP_S)
    ensures var addr := Pow2(ADDR_CHIP_S) * chip + low; Chip(addr, channels) == chip && Low(addr, ADDR_CHIP_S) == low
  {
    hide Pow2, Shr, Low;
    MultipleOfPow2(chip, ADDR_CHIP_S, low);
    DivUnique(chip, channels, 0, chip);
  }
}
