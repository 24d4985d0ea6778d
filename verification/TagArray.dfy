/** The sectored tag array: probe, access, fill; replacement; what stays resident. */
module TagArray {
  import opened Basics

  const SECTORS := 4
  const NO_TIME := UINT_RANGE - 1   // (unsigned) -1

  datatype Status = Invalid | Reserved | Valid | Modified
  datatype Policy = Lru | Fifo | Other

  datatype Line = Line(tag: nat, status: seq<Status>, readable: seq<bool>, allocTime: nat, lastAccess: nat)

  predicate WellFormed(l: Line) { |l.status| == SECTORS && |l.readable| == SECTORS }

  const EMPTY_LINE := Line(0, [Invalid, Invalid, Invalid, Invalid], [true, true, true, true], 0, 0)

  predicate InvalidLine(l: Line) { forall i :: 0 <= i < |l.status| ==> l.status[i] == Invalid }

  predicate ReservedLine(l: Line) { exists i :: 0 <= i < |l.status| && l.status[i] == Reserved }

  /** The ways of one set. */
  type Ways = seq<Line>

  predicate Formed(set_: Ways) { forall w :: 0 <= w < |set_| ==> WellFormed(set_[w]) }

  // ------------------------------------------------------------------
  // Probe
  // ------------------------------------------------------------------

  predicate Holds(l: Line, tag: nat) { l.tag == tag && !InvalidLine(l) }

  /** First way at or after n that holds the tag, |set_| if none does. */
  function FirstMatch(set_: Ways, tag: nat, n: nat): (w: nat)
    requires n <= |set_|
    ensures n <= w <= |set_|
    ensures w < |set_| ==> Holds(set_[w], tag)
    ensures forall v :: n <= v < w ==> !Holds(set_[v], tag)
    decreases |set_| - n
  {
    if n == |set_| || Holds(set_[n], tag) then n else FirstMatch(set_, tag, n + 1)
  }

  /** Last invalid way before n. */
  function LastInvalid(set_: Ways, n: nat): (o: Option<nat>)
    requires n <= |set_|
    ensures o.Some? ==> o.value < n
  {
    if n == 0 then None else if InvalidLine(set_[n - 1]) then Some(n - 1) else LastInvalid(set_, n - 1)
  }

  lemma {:induction false} LastInvalidIsLast(set_: Ways, n: nat)
    requires n <= |set_|
    ensures var o := LastInvalid(set_, n);
      && (o.Some? ==> InvalidLine(set_[o.value]))
      && (forall v | 0 <= v < n && InvalidLine(set_[v]) :: o.Some? && v <= o.value)
  {
    if n > 0 { LastInvalidIsLast(set_, n - 1); }
  }

  function Stamp(l: Line, policy: Policy): nat {
    match policy
    case Lru => l.lastAccess
    case Fifo => l.allocTime
    case Other => NO_TIME
  }

  predicate Candidate(l: Line) { !ReservedLine(l) && !InvalidLine(l) }

  /** First of the oldest replaceable ways before n. */
  function Oldest(set_: Ways, policy: Policy, n: nat): (o: Option<nat>)
    requires n <= |set_|
    ensures o.Some? ==> o.value < n
  {
    if n == 0 then None
    else
      var o := Oldest(set_, policy, n - 1);
      var limit := if o.Some? then Stamp(set_[o.value], policy) else NO_TIME;
      if Candidate(set_[n - 1]) && Stamp(set_[n - 1], policy) < limit then Some(n - 1) else o
  }

  lemma {:induction false} OldestIsOldest(set_: Ways, policy: Policy, n: nat)
    requires n <= |set_|
    ensures var o := Oldest(set_, policy, n);
      && (o.Some? ==> Candidate(set_[o.value]) && Stamp(set_[o.value], policy) < NO_TIME)
      && (forall v | 0 <= v < n && Candidate(set_[v]) && Stamp(set_[v], policy) < NO_TIME ::
            o.Some? && Stamp(set_[o.value], policy) <= Stamp(set_[v], policy)
            && (v < o.value ==> Stamp(set_[o.value], policy) < Stamp(set_[v], policy)))
  {
    hide Candidate, Stamp;
    if n > 0 { OldestIsOldest(set_, policy, n - 1); }
  }

  datatype Probe =
    | Hit(way: nat)
    | HitReserved(way: nat)
    | SectorMiss(way: nat)
    | Miss(way: nat)
    | ReservationFail
    | Abort

  function Outcome(l: Line, sector: nat, w: nat): Probe
    requires WellFormed(l) && sector < SECTORS
  {
    match l.status[sector]
    case Reserved => HitReserved(w)
    case Valid => Hit(w)
    case Modified => if l.readable[sector] then Hit(w) else SectorMiss(w)
    case Invalid => SectorMiss(w)
  }

  function Victim(set_: Ways, policy: Policy): Probe {
    if forall w :: 0 <= w < |set_| ==> ReservedLine(set_[w]) then ReservationFail
    else match LastInvalid(set_, |set_|)
      case Some(w) => Miss(w)
      case None =>
        match Oldest(set_, policy, |set_|)
        case Some(w) => Miss(w)
        case None => Abort
  }

  function ProbeSet(set_: Ways, tag: nat, sector: nat, policy: Policy): (p: Probe)
    requires Formed(set_) && sector < SECTORS
    ensures !p.ReservationFail? && !p.Abort? ==> p.way < |set_|
  {
    var w := FirstMatch(set_, tag, 0);
    if w < |set_| then Outcome(set_[w], sector, w) else Victim(set_, policy)
  }

  // ------------------------------------------------------------------
  // Changing a line
  // ------------------------------------------------------------------

  function Allocated(tag: nat, sector: nat, time: nat): (l: Line)
    requires sector < SECTORS
    ensures WellFormed(l)
  {
    EMPTY_LINE.(tag := tag, status := EMPTY_LINE.status[sector := Reserved], allocTime := time, lastAccess := time)
  }

  function SectorAllocated(l: Line, sector: nat, time: nat): (r: Line)
    requires WellFormed(l) && sector < SECTORS
    ensures WellFormed(r)
  {
    l.(status := l.status[sector := Reserved], readable := l.readable[sector := true], lastAccess := time)
  }

  function Marked(l: Line, sector: nat, status: Status): (r: Line)
    requires WellFormed(l) && sector < SECTORS
    ensures WellFormed(r)
  {
    l.(status := l.status[sector := status])
  }

  // ------------------------------------------------------------------
  // Operations on a set
  // ------------------------------------------------------------------

  /** tag_array_access: a hit is touched. */
  function Access(set_: Ways, tag: nat, sector: nat, time: nat, policy: Policy): (r: Ways)
    requires Formed(set_) && sector < SECTORS
    ensures Formed(r) && |r| == |set_|
  {
    var p := ProbeSet(set_, tag, sector, policy);
    if p.Hit? || p.HitReserved? then set_[p.way := set_[p.way].(lastAccess := time)] else set_
  }

  /** tag_array_fill. */
  function Fill(set_: Ways, tag: nat, sector: nat, time: nat, policy: Policy): (r: Ways)
    requires Formed(set_) && sector < SECTORS
    ensures Formed(r) && |r| == |set_|
  {
    match ProbeSet(set_, tag, sector, policy)
    case Miss(w) => set_[w := Marked(Allocated(tag, sector, time), sector, Valid)]
    case SectorMiss(w) => set_[w := Marked(SectorAllocated(set_[w], sector, time), sector, Valid)]
    case Hit(w) => set_[w := Marked(set_[w], sector, Valid)]
    case HitReserved(w) => set_[w := Marked(set_[w], sector, Valid)]
    case _ => set_
  }

  /** A store that hits: the sector becomes modified; it is touched unless it is written through. */
  function StoreHit(set_: Ways, tag: nat, sector: nat, time: nat, touch: bool, policy: Policy): (r: Ways)
    requires Formed(set_) && sector < SECTORS
    ensures Formed(r) && |r| == |set_|
  {
    match ProbeSet(set_, tag, sector, policy)
    case Hit(w) =>
      var t := if touch then Access(set_, tag, sector, time, policy) else set_;
      t[w := Marked(t[w], sector, Modified)]
    case _ => set_
  }

  datatype Op =
    | Load(tag: nat, sector: nat)
    | Store(tag: nat, sector: nat, touch: bool)
    | FillOp(tag: nat, sector: nat)

  function Apply(set_: Ways, op: Op, time: nat, policy: Policy): (r: Ways)
    requires Formed(set_) && op.sector < SECTORS
    ensures Formed(r) && |r| == |set_|
  {
    match op
    case Load(tag, sector) => Access(set_, tag, sector, time, policy)
    case Store(tag, sector, touch) => StoreHit(set_, tag, sector, time, touch, policy)
    case FillOp(tag, sector) => Fill(set_, tag, sector, time, policy)
  }

  // ------------------------------------------------------------------
  // Invariant: nothing stays reserved, tags are unique
  // ------------------------------------------------------------------

  predicate GoodLine(l: Line) {
    WellFormed(l) && l.allocTime < NO_TIME && l.lastAccess < NO_TIME
    && forall i :: 0 <= i < SECTORS ==> l.status[i] != Reserved && l.readable[i]
  }

  ghost predicate Good(set_: Ways) {
    && set_ != []
    && (forall w :: 0 <= w < |set_| ==> GoodLine(set_[w]))
    && (forall v, w | 0 <= v < w < |set_| && !InvalidLine(set_[v]) && !InvalidLine(set_[w]) ::
          set_[v].tag != set_[w].tag)
  }

  ghost predicate Resident(set_: Ways, tag: nat, sector: nat) {
    exists w :: 0 <= w < |set_| && WellFormed(set_[w]) && sector < SECTORS
                && set_[w].tag == tag && set_[w].status[sector] != Invalid
  }

  /** Between operations the probe knows three answers only, and HIT means resident. */
  lemma ProbeNeverFails(set_: Ways, tag: nat, sector: nat, policy: Policy)
    requires Good(set_) && sector < SECTORS && !policy.Other?
    ensures Formed(set_)
    ensures var p := ProbeSet(set_, tag, sector, policy);
      && (p.Hit? || p.SectorMiss? || p.Miss?)
      && (p.Hit? <==> Resident(set_, tag, sector))
      && (p.Hit? || p.SectorMiss? ==> Holds(set_[p.way], tag))
      && (p.Miss? <==> forall v :: 0 <= v < |set_| ==> !Holds(set_[v], tag))
  {
    var w := FirstMatch(set_, tag, 0);
    LastInvalidIsLast(set_, |set_|);
    OldestIsOldest(set_, policy, |set_|);
    assert GoodLine(set_[0]);
    assert !ReservedLine(set_[0]);
    if w < |set_| {
      assert GoodLine(set_[w]);
    } else {
      assert LastInvalid(set_, |set_|).None? ==> Candidate(set_[0]);
    }
    if Resident(set_, tag, sector) {
      var v :| 0 <= v < |set_| && set_[v].tag == tag && set_[v].status[sector] != Invalid;
      assert Holds(set_[v], tag);
    }
  }

  /** Replacing one way keeps the set good when the new line holds the same tag, or one no other way holds. */
  lemma ReplaceGood(set_: Ways, w: nat, l: Line)
    requires Good(set_) && w < |set_| && GoodLine(l)
    requires forall v :: 0 <= v < |set_| && v != w ==> !Holds(set_[v], l.tag)
    ensures Good(set_[w := l])
  {}

  /** What each operation writes: one way, or nothing. */
  function Written(set_: Ways, op: Op, time: nat, policy: Policy): Option<(nat, Line)>
    requires Formed(set_) && op.sector < SECTORS
  {
    match ProbeSet(set_, op.tag, op.sector, policy)
    case Hit(w) =>
      (match op
       case Load(_, _) => Some((w, set_[w].(lastAccess := time)))
       case Store(_, sector, touch) =>
         Some((w, Marked(if touch then set_[w].(lastAccess := time) else set_[w], sector, Modified)))
       case FillOp(_, sector) => Some((w, Marked(set_[w], sector, Valid))))
    case SectorMiss(w) =>
      if op.FillOp? then Some((w, Marked(SectorAllocated(set_[w], op.sector, time), op.sector, Valid))) else None
    case Miss(w) =>
      if op.FillOp? then Some((w, Marked(Allocated(op.tag, op.sector, time), op.sector, Valid))) else None
    case _ => None
  }

  lemma ApplyWrites(set_: Ways, op: Op, time: nat, policy: Policy)
    requires Good(set_) && op.sector < SECTORS && !policy.Other?
    ensures Formed(set_)
    ensures var o := Written(set_, op, time, policy);
      && (o.Some? ==> o.value.0 < |set_|)
      && Apply(set_, op, time, policy) == if o.Some? then set_[o.value.0 := o.value.1] else set_
  {
    hide ProbeSet, Marked, Allocated, SectorAllocated, GoodLine, Resident;
    ProbeNeverFails(set_, op.tag, op.sector, policy);
  }

  lemma WrittenIsGood(set_: Ways, op: Op, time: nat, policy: Policy)
    requires Good(set_) && op.sector < SECTORS && !policy.Other? && time < NO_TIME
    ensures Formed(set_)
    ensures var o := Written(set_, op, time, policy); o.Some? ==>
      && o.value.0 < |set_| && GoodLine(o.value.1)
      && Holds(o.value.1, op.tag)
      && (forall v :: 0 <= v < |set_| && v != o.value.0 ==> !Holds(set_[v], op.tag))
  {
    hide ProbeSet;
    ProbeNeverFails(set_, op.tag, op.sector, policy);
    var o := Written(set_, op, time, policy);
    if o.Some? {
      assert GoodLine(set_[o.value.0]);
      assert o.value.1.status[op.sector] != Invalid;
    }
  }

  /** Over every operation: no sector stays reserved, and a tag is held by at most one way. */
  lemma ApplyKeepsGood(set_: Ways, op: Op, time: nat, policy: Policy)
    requires Good(set_) && op.sector < SECTORS && !policy.Other? && time < NO_TIME
    ensures Formed(set_) && Good(Apply(set_, op, time, policy))
  {
    hide Good, Written, Apply, GoodLine;
    ApplyWrites(set_, op, time, policy);
    WrittenIsGood(set_, op, time, policy);
    var o := Written(set_, op, time, policy);
    if o.Some? { ReplaceGood(set_, o.value.0, o.value.1); }
  }

  // ------------------------------------------------------------------
  // What stays resident
  // ------------------------------------------------------------------

  /** A fill throws a tag out exactly when it misses and that tag is in the chosen way. */
  ghost predicate Evicts(set_: Ways, tag: nat, sector: nat, policy: Policy, other: nat)
    requires Formed(set_) && sector < SECTORS
  {
    var p := ProbeSet(set_, tag, sector, policy);
    p.Miss? && p.way < |set_| && Holds(set_[p.way], other)
  }

  /** The way a fill writes, and what it holds afterwards. */
  lemma FillShape(set_: Ways, tag: nat, sector: nat, time: nat, policy: Policy)
    requires Good(set_) && sector < SECTORS && !policy.Other?
    ensures Formed(set_)
    ensures var p := ProbeSet(set_, tag, sector, policy);
      var t := Fill(set_, tag, sector, time, policy);
      && (p.Hit? || p.SectorMiss? || p.Miss?) && p.way < |set_|
      && t == set_[p.way := t[p.way]]
      && t[p.way].tag == tag && t[p.way].status[sector] == Valid
      && (!p.Miss? ==> Holds(set_[p.way], tag))
      && (forall i :: 0 <= i < SECTORS && i != sector ==>
            t[p.way].status[i] == if p.Miss? then Invalid else set_[p.way].status[i])
  {
    hide ProbeSet;
    ProbeNeverFails(set_, tag, sector, policy);
  }

  /** After a fill the sector probes as a hit; every other sector stays as it was, except the victim's. */
  lemma FillResidency(set_: Ways, tag: nat, sector: nat, time: nat, policy: Policy, tag': nat, sector': nat)
    requires Good(set_) && sector < SECTORS && sector' < SECTORS && !policy.Other? && time < NO_TIME
    ensures Formed(set_)
    ensures ProbeSet(Fill(set_, tag, sector, time, policy), tag, sector, policy).Hit?
    ensures Resident(Fill(set_, tag, sector, time, policy), tag', sector') <==>
      (tag' == tag && sector' == sector)
      || (Resident(set_, tag', sector') && !Evicts(set_, tag, sector, policy, tag'))
  {
    hide ProbeSet, Good, GoodLine, Fill, Resident;
    FillShape(set_, tag, sector, time, policy);
    ProbeNeverFails(set_, tag, sector, policy);
    var t := Fill(set_, tag, sector, time, policy);
    var w := ProbeSet(set_, tag, sector, policy).way;
    ResidencyOfReplaced(set_, w, t[w], tag', sector');
    ResidencyOfReplaced(set_, w, t[w], tag, sector);
    if Holds(set_[w], tag') { HeldHere(set_, w, tag', sector, tag', sector'); }
    ApplyKeepsGood(set_, FillOp(tag, sector), time, policy);
    ProbeNeverFails(t, tag, sector, policy);
  }

  /** Residency after one way changed. */
  lemma ResidencyOfReplaced(set_: Ways, w: nat, l: Line, tag: nat, sector: nat)
    requires Good(set_) && w < |set_| && WellFormed(l) && sector < SECTORS
    ensures Formed(set_)
    ensures Resident(set_[w := l], tag, sector) <==>
      (l.tag == tag && l.status[sector] != Invalid)
      || (Resident(set_, tag, sector) && !(Holds(set_[w], tag)))
  {
    assert forall v :: 0 <= v < |set_| ==> GoodLine(set_[v]);
    var t := set_[w := l];
    if Resident(set_, tag, sector) && !Holds(set_[w], tag) {
      var v :| 0 <= v < |set_| && set_[v].tag == tag && set_[v].status[sector] != Invalid;
      assert Holds(set_[v], tag);
      assert t[v] == set_[v];
    }
    if l.tag == tag && l.status[sector] != Invalid {
      assert t[w] == l;
    }
    if Resident(t, tag, sector) && !(l.tag == tag && l.status[sector] != Invalid) {
      var v :| 0 <= v < |t| && t[v].tag == tag && t[v].status[sector] != Invalid;
      assert Holds(set_[v], tag);
    }
  }

  /** Accesses and store hits never change what is resident. */
  lemma AccessResidency(set_: Ways, op: Op, time: nat, policy: Policy, tag': nat, sector': nat)
    requires Good(set_) && op.sector < SECTORS && sector' < SECTORS && !policy.Other? && !op.FillOp? && time < NO_TIME
    ensures Formed(set_)
    ensures Resident(Apply(set_, op, time, policy), tag', sector') <==> Resident(set_, tag', sector')
  {
    hide ProbeSet, Good, GoodLine, Apply;
    ProbeNeverFails(set_, op.tag, op.sector, policy);
    ApplyWrites(set_, op, time, policy);
    WrittenIsGood(set_, op, time, policy);
    var o := Written(set_, op, time, policy);
    if o.Some? {
      ResidencyOfReplaced(set_, o.value.0, o.value.1, tag', sector');
      HeldHere(set_, o.value.0, op.tag, op.sector, tag', sector');
    }
  }

  lemma HeldHere(set_: Ways, w: nat, tag: nat, sector: nat, tag': nat, sector': nat)
    requires Good(set_) && w < |set_| && Holds(set_[w], tag) && sector < SECTORS && sector' < SECTORS
    ensures Formed(set_)
    ensures Resident(set_, tag, sector') <==> set_[w].status[sector'] != Invalid
  {
    assert forall v :: 0 <= v < |set_| ==> GoodLine(set_[v]);
    if Resident(set_, tag, sector') {
      var v :| 0 <= v < |set_| && set_[v].tag == tag && set_[v].status[sector'] != Invalid;
      assert Holds(set_[v], tag);
    }
  }

  /** A full set gives up a way with the smallest stamp, the first such one. */
  lemma VictimIsOldest(set_: Ways, tag: nat, sector: nat, policy: Policy, w: nat)
    requires Good(set_) && sector < SECTORS && !policy.Other?
    requires forall v :: 0 <= v < |set_| ==> !InvalidLine(set_[v])
    requires Formed(set_) && ProbeSet(set_, tag, sector, policy) == Miss(w)
    ensures w < |set_|
    ensures forall v | 0 <= v < |set_| ::
      Stamp(set_[w], policy) <= Stamp(set_[v], policy)
      && (v < w ==> Stamp(set_[w], policy) < Stamp(set_[v], policy))
  {
    assert FirstMatch(set_, tag, 0) == |set_|;
    LastInvalidIsLast(set_, |set_|);
    OldestIsOldest(set_, policy, |set_|);
    forall v | 0 <= v < |set_| ensures Candidate(set_[v]) { assert GoodLine(set_[v]); }
  }

  /** Under LRU a full set gives up the line accessed longest ago, under FIFO the one brought in longest ago. */
  lemma VictimByPolicy(set_: Ways, tag: nat, sector: nat, policy: Policy, w: nat)
    requires Good(set_) && sector < SECTORS && !policy.Other?
    requires forall v :: 0 <= v < |set_| ==> !InvalidLine(set_[v])
    requires Formed(set_) && ProbeSet(set_, tag, sector, policy) == Miss(w)
    ensures w < |set_|
    ensures policy == Lru ==> forall v :: 0 <= v < |set_| ==> set_[w].lastAccess <= set_[v].lastAccess
    ensures policy == Fifo ==> forall v :: 0 <= v < |set_| ==> set_[w].allocTime <= set_[v].allocTime
  {
    hide ProbeSet, Good;
    VictimIsOldest(set_, tag, sector, policy, w);
  }

  /** In any set, orderly or not: a probe hits exactly when the first way that holds the tag has the sector valid, or
      modified and readable; it finds a sector missing when that way has it invalid, or modified and not readable. */
  lemma ProbeOutcomes(set_: Ways, tag: nat, sector: nat, policy: Policy, w: nat)
    requires Formed(set_) && sector < SECTORS && w < |set_| && Holds(set_[w], tag)
    requires forall v :: 0 <= v < w ==> !Holds(set_[v], tag)
    ensures var (p, l) := (ProbeSet(set_, tag, sector, policy), set_[w]);
      && (p == Hit(w) <==> l.status[sector] == Valid || (l.status[sector] == Modified && l.readable[sector]))
      && (p == SectorMiss(w) <==> l.status[sector] == Invalid || (l.status[sector] == Modified && !l.readable[sector]))
      && (p == HitReserved(w) <==> l.status[sector] == Reserved)
  {
    var f := FirstMatch(set_, tag, 0);
    assert f == w;
  }

  /** Why times must stay below 2^32 - 1: a full set without the tag aborts exactly when no stamp does. */
  lemma AbortIff(set_: Ways, tag: nat, sector: nat, policy: Policy)
    requires Formed(set_) && set_ != [] && sector < SECTORS
    requires forall v :: 0 <= v < |set_| ==> Candidate(set_[v]) && !Holds(set_[v], tag)
    ensures ProbeSet(set_, tag, sector, policy).Abort?
      <==> forall v :: 0 <= v < |set_| ==> Stamp(set_[v], policy) >= 0xFFFF_FFFF
  {
    LastInvalidIsLast(set_, |set_|);
    OldestIsOldest(set_, policy, |set_|);
    assert Candidate(set_[0]);
  }

  // ------------------------------------------------------------------
  // Runs
  // ------------------------------------------------------------------

  datatype Timed = Timed(op: Op, time: nat)

  predicate Sectored(ops: seq<Timed>) { forall i :: 0 <= i < |ops| ==> ops[i].op.sector < SECTORS }

  function EmptySet(assoc: nat): (s: Ways)
    ensures Formed(s) && |s| == assoc
  {
    seq(assoc, _ => EMPTY_LINE)
  }

  function RunSet(assoc: nat, ops: seq<Timed>, policy: Policy): (s: Ways)
    requires Sectored(ops)
    ensures Formed(s) && |s| == assoc
    decreases |ops|
  {
    if ops == [] then EmptySet(assoc)
    else
      var n := |ops| - 1;
      Apply(RunSet(assoc, ops[..n], policy), ops[n].op, ops[n].time, policy)
  }

  /** For every run on an empty set, whatever hits and misses it meets: nothing stays reserved, no tag is held
      twice, and the next probe neither fails nor finds a reserved sector. */
  lemma {:induction false} RunKeepsGood(assoc: nat, ops: seq<Timed>, policy: Policy)
    requires assoc > 0 && Sectored(ops) && !policy.Other?
    requires forall i :: 0 <= i < |ops| ==> ops[i].time < NO_TIME
    ensures Good(RunSet(assoc, ops, policy))
    ensures forall tag: nat, sector: nat | sector < SECTORS ::
      var p := ProbeSet(RunSet(assoc, ops, policy), tag, sector, policy); p.Hit? || p.SectorMiss? || p.Miss?
    decreases |ops|
  {
    hide Apply, Good, ProbeSet;
    if ops == [] {
      EmptyGood(assoc);
    } else {
      var n := |ops| - 1;
      RunKeepsGood(assoc, ops[..n], policy);
      ApplyKeepsGood(RunSet(assoc, ops[..n], policy), ops[n].op, ops[n].time, policy);
    }
    forall tag: nat, sector: nat | sector < SECTORS {
      ProbeNeverFails(RunSet(assoc, ops, policy), tag, sector, policy);
    }
  }

  lemma EmptyGood(assoc: nat)
    requires assoc > 0
    ensures Good(EmptySet(assoc))
  {}

  // ------------------------------------------------------------------
  // The L2 store that takes an idle line
  // ------------------------------------------------------------------

  /** tag_array_probe_idle: the first invalid way, |set_| if there is none. */
  function FirstInvalid(set_: Ways, n: nat): (w: nat)
    requires n <= |set_|
    ensures n <= w <= |set_|
    ensures w < |set_| ==> InvalidLine(set_[w])
    decreases |set_| - n
  {
    if n == |set_| || InvalidLine(set_[n]) then n else FirstInvalid(set_, n + 1)
  }

  /** An L2 store that does not hit writes the idle line: with its own tag after a miss, but with whatever
      tag the idle line has otherwise. */
  function IdleStore(set_: Ways, tag: nat, sector: nat, time: nat, policy: Policy): (r: Ways)
    requires Formed(set_) && sector < SECTORS
    ensures Formed(r) && |r| == |set_|
  {
    var p, w := ProbeSet(set_, tag, sector, policy), FirstInvalid(set_, 0);
    if w == |set_| then set_
    else if p.Miss? then set_[w := Marked(Allocated(tag, sector, time), sector, Modified)]
    else if p.SectorMiss? then set_[w := Marked(SectorAllocated(set_[w], sector, time), sector, Modified)]
    else if p.HitReserved? then set_[w := Marked(set_[w], sector, Modified).(lastAccess := time)]
    else set_
  }

  /** After a miss the stored sector is resident and tags stay unique. After a sector miss the stored sector
      stays absent, and tags stay unique exactly when no other way holds the idle line's old tag. */
  lemma IdleStoreGoodIff(set_: Ways, tag: nat, sector: nat, time: nat, policy: Policy)
    requires Good(set_) && sector < SECTORS && !policy.Other? && time < NO_TIME && FirstInvalid(set_, 0) < |set_|
    ensures Formed(set_)
    ensures var t, w := IdleStore(set_, tag, sector, time, policy), FirstInvalid(set_, 0);
      match ProbeSet(set_, tag, sector, policy)
      case Miss(_) => Good(t) && Resident(t, tag, sector)
      case SectorMiss(_) =>
        && (Good(t) <==> forall v :: 0 <= v < |set_| ==> !Holds(set_[v], set_[w].tag))
        && (Resident(t, tag, sector) <==> set_[w].tag == tag)
      case _ => t == set_
  {
    hide ProbeSet, Good, Resident, InvalidLine;
    ProbeNeverFails(set_, tag, sector, policy);
    var w := FirstInvalid(set_, 0);
    var t := IdleStore(set_, tag, sector, time, policy);
    if !ProbeSet(set_, tag, sector, policy).Hit? {
      IdleLine(set_, w, tag, sector, time);
      TakeIdleWay(set_, w, t[w]);
      ResidencyOfReplaced(set_, w, t[w], tag, sector);
    }
  }

  lemma TakeIdleWay(set_: Ways, w: nat, l: Line)
    requires Good(set_) && w < |set_| && InvalidLine(set_[w]) && GoodLine(l) && !InvalidLine(l)
    ensures Good(set_[w := l]) <==> forall v :: 0 <= v < |set_| ==> !Holds(set_[v], l.tag)
  {
    hide GoodLine, InvalidLine;
    var t := set_[w := l];
    if forall v :: 0 <= v < |set_| ==> !Holds(set_[v], l.tag) {
      ReplaceGood(set_, w, l);
    } else {
      var v :| 0 <= v < |set_| && Holds(set_[v], l.tag);
      assert t[v].tag == t[w].tag && !InvalidLine(t[v]) && !InvalidLine(t[w]) && v != w;
    }
  }

  lemma IdleLine(set_: Ways, w: nat, tag: nat, sector: nat, time: nat)
    requires Good(set_) && w < |set_| && sector < SECTORS && time < NO_TIME
    ensures Formed(set_)
    ensures var l := Marked(Allocated(tag, sector, time), sector, Modified);
      GoodLine(l) && !InvalidLine(l) && l.status[sector] == Modified
    ensures var l := Marked(SectorAllocated(set_[w], sector, time), sector, Modified);
      GoodLine(l) && !InvalidLine(l) && l.status[sector] == Modified
  {
    assert GoodLine(set_[w]);
    assert Marked(Allocated(tag, sector, time), sector, Modified).status[sector] == Modified;
    assert Marked(SectorAllocated(set_[w], sector, time), sector, Modified).status[sector] == Modified;
  }

  /** One fill of a line, and two stores that take idle lines for other sectors of it. */
  lemma IdleStoresLoseUniqueness()
    ensures var s1 := Fill(EmptySet(3), 1, 0, 5, Lru);
      var s2 := IdleStore(s1, 1, 1, 6, Lru);
      Good(s1) && Good(s2) && !Good(IdleStore(s2, 1, 2, 7, Lru))
  {
    hide Good, ProbeSet, Resident, Marked, Allocated, SectorAllocated, InvalidLine, GoodLine;
    var filled := Marked(Allocated(1, 0, 5), 0, Valid);
    var s1 := [EMPTY_LINE, EMPTY_LINE, filled];
    EmptyGood(3);
    ApplyKeepsGood(EmptySet(3), FillOp(1, 0), 5, Lru);
    FirstFill(filled);
    var stored := Marked(SectorAllocated(EMPTY_LINE, 1, 6), 1, Modified);
    StoresTakeIdleLines(filled, stored);
    IdleStoreGoodIff(s1, 1, 1, 6, Lru);
    var s2 := [stored, EMPTY_LINE, filled];
    assert s1[0 := stored] == s2;
    IdleStoreGoodIff(s2, 1, 2, 7, Lru);
  }

  lemma FirstFill(filled: Line)
    requires filled == Marked(Allocated(1, 0, 5), 0, Valid)
    ensures Fill(EmptySet(3), 1, 0, 5, Lru) == [EMPTY_LINE, EMPTY_LINE, filled]
  {
    hide InvalidLine, ReservedLine;
    var s := EmptySet(3);
    assert InvalidLine(EMPTY_LINE) && !ReservedLine(EMPTY_LINE) by { EmptyIsFree(); }
    assert !ReservedLine(s[0]);
    assert LastInvalid(s, 3) == Some(2);
    assert s[2 := filled] == [EMPTY_LINE, EMPTY_LINE, filled];
  }

  lemma EmptyIsFree()
    ensures InvalidLine(EMPTY_LINE) && !ReservedLine(EMPTY_LINE)
  {}

  lemma StoresTakeIdleLines(filled: Line, stored: Line)
    requires filled == Marked(Allocated(1, 0, 5), 0, Valid)
    requires stored == Marked(SectorAllocated(EMPTY_LINE, 1, 6), 1, Modified)
    ensures var s1, s2 := [EMPTY_LINE, EMPTY_LINE, filled], [stored, EMPTY_LINE, filled];
      && Formed(s1) && Formed(s2)
      && ProbeSet(s1, 1, 1, Lru) == SectorMiss(2) && FirstInvalid(s1, 0) == 0
      && IdleStore(s1, 1, 1, 6, Lru) == s1[0 := stored] && !Holds(filled, 0)
      && ProbeSet(s2, 1, 2, Lru) == SectorMiss(2) && FirstInvalid(s2, 0) == 1
      && Holds(stored, 0) && !Holds(EMPTY_LINE, 0)
  {
    EmptyIsFree();
    assert filled.status[0] == Valid && stored.status[1] == Modified;
    assert !InvalidLine(filled) && !InvalidLine(stored);
    hide InvalidLine;
    var s1, s2 := [EMPTY_LINE, EMPTY_LINE, filled], [stored, EMPTY_LINE, filled];
    assert FirstMatch(s1, 1, 2) == 2 && FirstMatch(s1, 1, 1) == 2;
    assert FirstMatch(s2, 1, 2) == 2 && FirstMatch(s2, 1, 1) == 2;
    assert FirstInvalid(s2, 1) == 1;
  }
}
