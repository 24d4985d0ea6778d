/** The tag array as an array of lines, set after set, changed in place. */
module TagStore {
  import opened Basics
  import opened BitArith
  import opened CacheIndex
  import opened TagArray

  lemma SetsApart(i: nat, j: nat, assoc: nat)
    requires i < j
    ensures (i + 1) * assoc <= j * assoc
  {
    assert j * assoc == (i + 1) * assoc + (j - i - 1) * assoc;
  }

  lemma ReservedNotInvalid(l: Line)
    ensures ReservedLine(l) ==> !InvalidLine(l)
    ensures forall i :: 0 <= i < |l.status| && l.status[i] != Status.Invalid ==> !InvalidLine(l)
  {}

  lemma AccessIs(set_: Ways, tag: nat, sector: nat, time: nat, policy: Policy)
    requires Formed(set_) && sector < SECTORS
    ensures var p := ProbeSet(set_, tag, sector, policy);
      Access(set_, tag, sector, time, policy)
      == if p.Hit? || p.HitReserved? then set_[p.way := set_[p.way].(lastAccess := time)] else set_
    ensures Apply(set_, Load(tag, sector), time, policy) == Access(set_, tag, sector, time, policy)
  {}

  lemma IdleStoreIs(set_: Ways, tag: nat, sector: nat, time: nat, policy: Policy)
    requires Formed(set_) && sector < SECTORS
    ensures var (p, w) := (ProbeSet(set_, tag, sector, policy), FirstInvalid(set_, 0));
      p.Miss? || p.SectorMiss? || p.HitReserved? ==>
        IdleStore(set_, tag, sector, time, policy)
        == if w == |set_| then set_
           else
             var line := if p.Miss? then Allocated(tag, sector, time)
                         else if p.SectorMiss? then SectorAllocated(set_[w], sector, time) else set_[w];
             set_[w := Marked(line, sector, Modified).(lastAccess := time)]
  {
    hide ProbeSet;
  }

  class TagStore {
    const lines: array<Line>
    const sets: nat
    const assoc: nat
    const policy: Policy
    const hashed: bool
    const lineBits: nat
    const setBits: nat

    ghost predicate Valid()
      reads lines
    {
      && assoc > 0 && sets == Pow2(setBits) && (hashed ==> setBits >= 6)
      && lines.Length == sets * assoc
      && forall i :: 0 <= i < lines.Length ==> WellFormed(lines[i])
    }

    constructor (assoc: nat, setBits: nat, lineBits: nat, policy: Policy, hashed: bool)
      requires assoc > 0 && (hashed ==> setBits >= 6)
      ensures Valid() && fresh(lines) && this.assoc == assoc && this.setBits == setBits
      ensures this.policy == policy && this.hashed == hashed && this.lineBits == lineBits
      ensures forall i :: 0 <= i < lines.Length ==> lines[i] == EMPTY_LINE
      ensures AllGood()
    {
      this.assoc, this.setBits, this.lineBits, this.policy, this.hashed := assoc, setBits, lineBits, policy, hashed;
      sets := Pow2(setBits);
      lines := new Line[Pow2(setBits) * assoc](_ => EMPTY_LINE);
      new;
      hide Good;
      EmptyGood(assoc);
      forall i | 0 <= i < sets ensures Set(i) == EmptySet(assoc) {
        SetsApart(i, sets, assoc);
      }
    }

    function Index(addr: nat): (i: nat)
      ensures sets == Pow2(setBits) && (hashed ==> setBits >= 6) ==> i < sets
    {
      HashedInRangeIff(lineBits, setBits);
      SetIndex(hashed, addr, lineBits, setBits)
    }

    function Tag(addr: nat): nat { AlignDown(addr, lineBits) }

    /** Set and tag together tell exactly the lines apart; so does the tag alone. */
    lemma TellsLinesApart(x: nat, y: nat)
      ensures Index(x) == Index(y) && Tag(x) == Tag(y) <==> Shr(x, lineBits) == Shr(y, lineBits)
      ensures Tag(x) == Tag(y) <==> Shr(x, lineBits) == Shr(y, lineBits)
      ensures x == Pow2(lineBits) * Shr(x, lineBits) + Low(x, lineBits) && Low(x, lineBits) < Pow2(lineBits)
    {
      hide SetIndex, AlignDown;
      AlignDownSound(x, y, lineBits);
      ShrLow(x, lineBits);
      if Tag(x) == Tag(y) { SameLineSameSet(hashed, x, y, lineBits, setBits); }
    }

    /** Without hashing the index is the line number modulo the number of sets; with it, the remainder of the
        polynomial division. */
    lemma IndexIsOfLine(addr: nat)
      requires sets == Pow2(setBits) && (hashed ==> setBits >= 6)
      ensures var line := Shr(addr, lineBits);
        if hashed then Index(addr) == ToIndex(Remainder(Coefficients(64 * Shr(line, setBits) + Low(line, 6)), 25))
        else line == sets * Shr(line, setBits) + Index(addr) && Index(addr) < sets
    {
      hide Remainder, Coefficients, Equations, ToIndex;
      if hashed { SetIndexIsRemainder(addr, lineBits, setBits); }
    }

    /** The probe of a sector of an address, in any contents of the sets. */
    ghost predicate HitsIn(ss: seq<Ways>, addr: nat, sector: nat)
      requires Index(addr) < |ss| && Formed(ss[Index(addr)]) && sector < SECTORS
    {
      ProbeSet(ss[Index(addr)], Tag(addr), sector, policy).Hit?
    }

    /** A fill of x replaces the line of y. */
    ghost predicate Replaces(ss: seq<Ways>, x: nat, sector: nat, y: nat)
      requires Index(x) < |ss| && Formed(ss[Index(x)]) && sector < SECTORS
    {
      && Index(y) == Index(x)
      && Evicts(ss[Index(x)], Tag(x), sector, policy, Tag(y))
    }

    ghost predicate Orderly(ss: seq<Ways>) {
      && sets == |ss| && sets == Pow2(setBits) && (hashed ==> setBits >= 6)
      && forall i | 0 <= i < |ss| :: Good(ss[i])
    }

    ghost function FillAt(ss: seq<Ways>, x: nat, sector: nat, time: nat): seq<Ways>
      requires Orderly(ss) && sector < SECTORS
    {
      GoodIsFormed(ss);
      ss[Index(x) := Fill(ss[Index(x)], Tag(x), sector, time, policy)]
    }

    lemma GoodIsFormed(ss: seq<Ways>)
      requires Orderly(ss)
      ensures forall i | 0 <= i < |ss| :: Formed(ss[i])
    {}

    lemma FillStaysOrderly(ss: seq<Ways>, x: nat, sector: nat, time: nat)
      requires Orderly(ss) && sector < SECTORS && time < NO_TIME && !policy.Other?
      ensures Orderly(FillAt(ss, x, sector, time))
    {
      hide Good, Fill, Index, Tag;
      GoodIsFormed(ss);
      ApplyKeepsGood(ss[Index(x)], FillOp(Tag(x), sector), time, policy);
    }

    /** After a fill of a sector of x, a sector of y is hit exactly when it is that sector of that line, or was hit
        before and its line is not the one replaced. */
    lemma FillDecidesHits(ss: seq<Ways>, x: nat, sector: nat, time: nat, y: nat, sector': nat)
      requires Orderly(ss) && sector < SECTORS && sector' < SECTORS && time < NO_TIME && !policy.Other?
      ensures Orderly(FillAt(ss, x, sector, time))
      ensures forall i | 0 <= i < |ss| :: Formed(ss[i])
      ensures forall i | 0 <= i < |ss| :: Formed(FillAt(ss, x, sector, time)[i])
      ensures HitsIn(FillAt(ss, x, sector, time), y, sector') <==>
        || (Shr(x, lineBits) == Shr(y, lineBits) && sector' == sector)
        || (HitsIn(ss, y, sector') && !Replaces(ss, x, sector, y))
    {
      hide Good, Fill, Index, Tag, ProbeSet, Resident, Evicts;
      GoodIsFormed(ss);
      FillStaysOrderly(ss, x, sector, time);
      GoodIsFormed(FillAt(ss, x, sector, time));
      TellsLinesApart(x, y);
      var (s, t) := (ss[Index(y)], FillAt(ss, x, sector, time)[Index(y)]);
      ProbeNeverFails(s, Tag(y), sector', policy);
      ProbeNeverFails(t, Tag(y), sector', policy);
      if Index(x) == Index(y) { FillResidency(s, Tag(x), sector, time, policy, Tag(y), sector'); }
    }

    /** The ways of set i. */
    ghost function Set(i: nat): (s: Ways)
      requires Valid() && i < sets
      reads lines
      ensures Formed(s) && |s| == assoc
    {
      SetsApart(i, sets, assoc);
      lines[i * assoc..i * assoc + assoc]
    }

    /** All sets. */
    ghost function Sets(): (ss: seq<Ways>)
      requires Valid()
      reads lines
      ensures |ss| == sets && forall i :: 0 <= i < sets ==> ss[i] == Set(i)
    {
      seq(sets, i requires 0 <= i < sets && Valid() reads lines => Set(i))
    }

    /** Every set is in order: nothing reserved, no tag twice. */
    ghost predicate AllGood()
      requires Valid()
      reads lines
    {
      forall i | 0 <= i < sets :: Good(Set(i))
    }

    method ReadWay(i: nat, way: nat) returns (line: Line)
      requires Valid() && i < sets && way < assoc
      ensures line == Set(i)[way]
    {
      SetsApart(i, sets, assoc);
      line := lines[i * assoc + way];
    }

    method TagArrayProbe(addr: nat, sector: nat) returns (p: Probe)
      requires Valid() && sector < SECTORS
      ensures p == ProbeSet(Set(Index(addr)), Tag(addr), sector, policy)
    {
      hide Index, Tag, Set, Pow2, InvalidLine, ReservedLine;
      var set_ := Index(addr);
      ghost var s := Set(set_);
      var tag := Tag(addr);
      var invalidLine: Option<nat>, validLine: Option<nat> := None, None;
      var validTimestamp := NO_TIME;
      var allReserved := true;
      var way := 0;
      while way < assoc
        invariant way <= assoc
        invariant FirstMatch(s, tag, 0) == FirstMatch(s, tag, way)
        invariant invalidLine == LastInvalid(s, way)
        invariant policy.Other? || validLine == Oldest(s, policy, way)
        invariant policy.Other? ==> validLine.None? && Oldest(s, policy, way).None?
        invariant validTimestamp == if validLine.Some? then Stamp(s[validLine.value], policy) else NO_TIME
        invariant allReserved <==> forall v :: 0 <= v < way ==> ReservedLine(s[v])
      {
        var line := ReadWay(set_, way);
        ReservedNotInvalid(line);
        if line.tag == tag {
          if line.status[sector] == Reserved {
            return HitReserved(way);
          } else if line.status[sector] == Status.Valid {
            return Hit(way);
          } else if line.status[sector] == Modified {
            if line.readable[sector] {
              return Hit(way);
            } else {
              return SectorMiss(way);
            }
          } else if !InvalidLine(line) && line.status[sector] == Invalid {
            return SectorMiss(way);
          }
        }
        if !ReservedLine(line) {
          allReserved := false;
          if InvalidLine(line) {
            invalidLine := Some(way);
          } else if policy == Lru {
            if line.lastAccess < validTimestamp {
              validTimestamp, validLine := line.lastAccess, Some(way);
            }
          } else if policy == Fifo {
            if line.allocTime < validTimestamp {
              validTimestamp, validLine := line.allocTime, Some(way);
            }
          }
        }
        way := way + 1;
      }
      if allReserved {
        return ReservationFail;
      }
      match invalidLine
      case Some(w) => return Miss(w);
      case None =>
        match validLine
        case Some(w) => return Miss(w);
        case None => return Abort;
    }

    /** One way of one set is rewritten; every other set stays as it was. */
    method WriteWay(i: nat, way: nat, line: Line)
      requires Valid() && i < sets && way < assoc && WellFormed(line)
      modifies lines
      ensures Valid() && Sets() == old(Sets())[i := old(Set(i))[way := line]]
    {
      hide Pow2, WellFormed;
      SetsApart(i, sets, assoc);
      lines[i * assoc + way] := line;
      forall j | 0 <= j < sets && j != i ensures Set(j) == old(Set(j)) {
        if j < i { SetsApart(j, i, assoc); } else { SetsApart(i, j, assoc); }
        SetsApart(j, sets, assoc);
      }
      assert Set(i) == old(Set(i))[way := line];
    }

    method TagArrayAccess(addr: nat, sector: nat, time: nat) returns (p: Probe)
      requires Valid() && sector < SECTORS
      modifies lines
      ensures Valid() && p == ProbeSet(old(Set(Index(addr))), Tag(addr), sector, policy)
      ensures Sets() == old(Sets())[Index(addr) := Access(old(Set(Index(addr))), Tag(addr), sector, time, policy)]
      ensures old(AllGood()) && time < NO_TIME && !policy.Other? ==> AllGood() && (p.Hit? || p.SectorMiss? || p.Miss?)
    {
      hide Index, Tag, Set, Pow2, ProbeSet, Good, Access;
      ghost var s := Set(Index(addr));
      if AllGood() && time < NO_TIME && !policy.Other? {
        ProbeNeverFails(s, Tag(addr), sector, policy);
        ApplyKeepsGood(s, Load(Tag(addr), sector), time, policy);
      }
      AccessIs(s, Tag(addr), sector, time, policy);
      p := TagArrayProbe(addr, sector);
      if p.Hit? || p.HitReserved? {
        var line := ReadWay(Index(addr), p.way);
        WriteWay(Index(addr), p.way, line.(lastAccess := time));
      }
    }

    method TagArrayFill(addr: nat, sector: nat, time: nat)
      requires Valid() && sector < SECTORS
      modifies lines
      ensures Valid()
      ensures Sets() == old(Sets())[Index(addr) := Fill(old(Set(Index(addr))), Tag(addr), sector, time, policy)]
      ensures old(AllGood()) && time < NO_TIME && !policy.Other? ==>
        AllGood() && ProbeSet(Set(Index(addr)), Tag(addr), sector, policy).Hit?
      ensures old(AllGood()) ==> Orderly(old(Sets())) && Sets() == FillAt(old(Sets()), addr, sector, time)
    {
      hide Index, Tag, Set, Pow2, ProbeSet, Allocated, SectorAllocated, Marked, Good;
      ghost var s := Set(Index(addr));
      if AllGood() && time < NO_TIME && !policy.Other? {
        ApplyKeepsGood(s, FillOp(Tag(addr), sector), time, policy);
        FillResidency(s, Tag(addr), sector, time, policy, Tag(addr), sector);
      }
      var p := TagArrayProbe(addr, sector);
      if p.ReservationFail? || p.Abort? { return; }
      var line := ReadWay(Index(addr), p.way);
      if p.Miss? {
        line := Allocated(Tag(addr), sector, time);
      } else if p.SectorMiss? {
        line := SectorAllocated(line, sector, time);
      }
      WriteWay(Index(addr), p.way, Marked(line, sector, Status.Valid));
    }

    /** The store branch of the L1 access for a hit; `touch` unless the store is global and written through. */
    method StoreOnHit(addr: nat, sector: nat, time: nat, touch: bool)
      requires Valid() && sector < SECTORS
      modifies lines
      ensures Valid()
      ensures Sets()
           == old(Sets())[Index(addr) := StoreHit(old(Set(Index(addr))), Tag(addr), sector, time, touch, policy)]
      ensures old(AllGood()) && time < NO_TIME && !policy.Other? ==> AllGood()
    {
      hide Index, Tag, Set, Pow2, ProbeSet, Access, Marked, Good;
      ghost var s := Set(Index(addr));
      if AllGood() && time < NO_TIME && !policy.Other? {
        ApplyKeepsGood(s, Store(Tag(addr), sector, touch), time, policy);
      }
      var p := TagArrayProbe(addr, sector);
      if p.Hit? {
        if touch { var _ := TagArrayAccess(addr, sector, time); }
        var line := ReadWay(Index(addr), p.way);
        WriteWay(Index(addr), p.way, Marked(line, sector, Modified));
      }
    }

    /** The first way without a sector, `assoc` if there is none. */
    method TagArrayProbeIdle(addr: nat) returns (way: nat)
      requires Valid()
      ensures way == FirstInvalid(Set(Index(addr)), 0)
    {
      ghost var s := Set(Index(addr));
      way := 0;
      while way < assoc
        invariant way <= assoc
        invariant FirstInvalid(s, 0) == FirstInvalid(s, way)
      {
        var line := ReadWay(Index(addr), way);
        if InvalidLine(line) { return; }
        way := way + 1;
      }
    }

    /** The branch of the L2 access for a store that does not hit: it takes an idle line if there is one. */
    method StoreOnIdle(addr: nat, sector: nat, time: nat, p: Probe) returns (taken: bool)
      requires Valid() && sector < SECTORS
      requires p == ProbeSet(Set(Index(addr)), Tag(addr), sector, policy)
      requires p.Miss? || p.SectorMiss? || p.HitReserved?
      modifies lines
      ensures Valid() && taken == (FirstInvalid(old(Set(Index(addr))), 0) < assoc)
      ensures Sets() == old(Sets())[Index(addr) := IdleStore(old(Set(Index(addr))), Tag(addr), sector, time, policy)]
    {
      hide Index, Tag, Set, Pow2, ProbeSet, FirstInvalid, IdleStore;
      IdleStoreIs(Set(Index(addr)), Tag(addr), sector, time, policy);
      var way := TagArrayProbeIdle(addr);
      taken := way < assoc;
      if taken {
        var line := ReadWay(Index(addr), way);
        if p.Miss? {
          line := Allocated(Tag(addr), sector, time);
        } else if p.SectorMiss? {
          line := SectorAllocated(line, sector, time);
        }
        line := Marked(line, sector, Modified);
        WriteWay(Index(addr), way, line.(lastAccess := time));
      }
    }
  }
}
