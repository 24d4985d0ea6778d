/** A set of the tag array as a map from tags to lines: what every operation does to every line. */
module TagLines {
  import opened Basics
  import opened TagArray

  /** The line that holds a tag, if there is one. */
  function LineOf(set_: Ways, tag: nat): Option<Line> {
    var w := FirstMatch(set_, tag, 0);
    if w < |set_| then Some(set_[w]) else None
  }

  /** The line found is the only one that holds the tag. */
  lemma LineOfIs(set_: Ways, tag: nat, w: nat)
    requires Good(set_) && w < |set_| && Holds(set_[w], tag)
    ensures LineOf(set_, tag) == Some(set_[w]) && FirstMatch(set_, tag, 0) == w
  {}

  lemma NoLineOf(set_: Ways, tag: nat)
    requires forall w :: 0 <= w < |set_| ==> !Holds(set_[w], tag)
    ensures LineOf(set_, tag) == None
  {}

  /** The line was brought in: one valid sector, all times new. */
  predicate BroughtIn(l: Line, tag: nat, sector: nat, time: nat) {
    && WellFormed(l) && sector < SECTORS && l.tag == tag && l.allocTime == time && l.lastAccess == time
    && forall i :: 0 <= i < SECTORS ==> l.status[i] == if i == sector then Valid else Invalid
  }

  /** The line is as before, but for the status of one sector and the time of its last access. */
  predicate Renewed(l: Line, l': Line, sector: nat, status: Status, access: nat) {
    && WellFormed(l) && WellFormed(l') && sector < SECTORS
    && l'.tag == l.tag && l'.allocTime == l.allocTime && l'.lastAccess == access
    && l'.status[sector] == status
    && forall i :: 0 <= i < SECTORS && i != sector ==> l'.status[i] == l.status[i]
  }

  /** What becomes of the line with the tag of the operation, where `o` is that line before and `p` that line after. */
  predicate Becomes(op: Op, time: nat, o: Option<Line>, p: Option<Line>) {
    match o
    case None =>
      if op.FillOp? then p.Some? && BroughtIn(p.value, op.tag, op.sector, time) else p == None
    case Some(l) =>
      op.sector < |l.status| &&
      var there := l.status[op.sector] != Invalid;
      match op
      case Load(_, sector) =>
        if there then p.Some? && Renewed(l, p.value, sector, l.status[sector], time) else p == o
      case Store(_, sector, touch) =>
        if there then p.Some? && Renewed(l, p.value, sector, Modified, if touch then time else l.lastAccess) else p == o
      case FillOp(_, sector) =>
        p.Some? && Renewed(l, p.value, sector, Valid, if there then l.lastAccess else time)
  }

  /** For every operation on an orderly set: its own line becomes what Becomes says, and every other line stays as it
      was, except the one that a fill replaces. */
  lemma EveryLineAfter(set_: Ways, op: Op, time: nat, policy: Policy, tag: nat)
    requires Good(set_) && op.sector < SECTORS && !policy.Other? && time < NO_TIME
    ensures Formed(set_)
    ensures var (o, p) := (LineOf(set_, tag), LineOf(Apply(set_, op, time, policy), tag));
      if tag == op.tag then Becomes(op, time, o, p)
      else p == if op.FillOp? && Evicts(set_, op.tag, op.sector, policy, tag) then None else o
  {
    hide ProbeSet, Good, Apply, Becomes, FirstMatch;
    ProbeNeverFails(set_, op.tag, op.sector, policy);
    ApplyWrites(set_, op, time, policy);
    WrittenIsGood(set_, op, time, policy);
    ApplyKeepsGood(set_, op, time, policy);
    var (written, t) := (Written(set_, op, time, policy), Apply(set_, op, time, policy));
    if tag == op.tag {
      OwnLine(set_, op, time, policy);
    } else if written.Some? {
      OtherLine(set_, t, written.value.0, op, policy, tag);
    }
  }

  lemma OwnLine(set_: Ways, op: Op, time: nat, policy: Policy)
    requires Good(set_) && op.sector < SECTORS && !policy.Other? && time < NO_TIME
    ensures Formed(set_)
    ensures Becomes(op, time, LineOf(set_, op.tag), LineOf(Apply(set_, op, time, policy), op.tag))
  {
    hide ProbeSet, Good, Apply, FirstMatch, LineOf, Resident;
    ProbeNeverFails(set_, op.tag, op.sector, policy);
    ApplyWrites(set_, op, time, policy);
    WrittenIsGood(set_, op, time, policy);
    ApplyKeepsGood(set_, op, time, policy);
    var (p, written) := (ProbeSet(set_, op.tag, op.sector, policy), Written(set_, op, time, policy));
    if p.Miss? {
      NoLineOf(set_, op.tag);
    } else {
      LineOfIs(set_, op.tag, p.way);
      ProbedSector(set_, op.tag, op.sector, policy);
    }
    if written.Some? { LineOfIs(Apply(set_, op, time, policy), op.tag, written.value.0); }
  }

  /** A hit means that the sector of the line is there, a sector miss that it is not. */
  lemma ProbedSector(set_: Ways, tag: nat, sector: nat, policy: Policy)
    requires Good(set_) && sector < SECTORS && !policy.Other? && Formed(set_)
    ensures var p := ProbeSet(set_, tag, sector, policy);
      p.Hit? || p.SectorMiss? ==> p.way < |set_| && (p.Hit? <==> set_[p.way].status[sector] != Invalid)
  {
    ProbeNeverFails(set_, tag, sector, policy);
    assert forall w :: 0 <= w < |set_| ==> GoodLine(set_[w]);
  }

  lemma OtherLine(set_: Ways, t: Ways, w: nat, op: Op, policy: Policy, tag: nat)
    requires Good(set_) && Good(t) && w < |set_| == |t| && t == set_[w := t[w]] && Holds(t[w], op.tag) && tag != op.tag
    requires op.sector < SECTORS && Formed(set_)
    requires var p := ProbeSet(set_, op.tag, op.sector, policy);
      && (p.Miss? || p.SectorMiss? || p.Hit?) && p.way == w && (p.Miss? ==> op.FillOp?)
      && (!p.Miss? ==> Holds(set_[w], op.tag))
    ensures LineOf(t, tag)
         == if op.FillOp? && Evicts(set_, op.tag, op.sector, policy, tag) then None else LineOf(set_, tag)
  {
    hide ProbeSet, FirstMatch, GoodLine, LineOf;
    if v :| 0 <= v < |set_| && Holds(set_[v], tag) {
      LineOfIs(set_, tag, v);
      if v == w {
        NoLineOf(t, tag);
      } else {
        assert Holds(t[v], tag);
        LineOfIs(t, tag, v);
      }
    } else {
      NoLineOf(set_, tag);
      NoLineOf(t, tag);
    }
  }

  /** The store of L2 that takes an idle line: after a miss the line is brought in with the stored sector, after a
      sector miss it keeps its old tag; no other way changes. */
  lemma IdleStoreTakes(set_: Ways, tag: nat, sector: nat, time: nat, policy: Policy)
    requires Good(set_) && sector < SECTORS && !policy.Other? && FirstInvalid(set_, 0) < |set_|
    ensures Formed(set_)
    ensures var (t, w, p) := (IdleStore(set_, tag, sector, time, policy), FirstInvalid(set_, 0),
                              ProbeSet(set_, tag, sector, policy));
      if p.Hit? then t == set_
      else
        && t == set_[w := t[w]] && InvalidLine(set_[w]) && t[w].lastAccess == time
        && t[w].tag == (if p.Miss? then tag else set_[w].tag)
        && (p.Miss? ==> t[w].allocTime == time)
        && forall i :: 0 <= i < SECTORS ==> t[w].status[i] == if i == sector then Modified else Invalid
  {
    hide ProbeSet, Good, GoodLine, InvalidLine, Resident, Marked, Allocated, SectorAllocated;
    ProbeNeverFails(set_, tag, sector, policy);
    var w := FirstInvalid(set_, 0);
    IdleShape(set_[w], tag, sector, time);
  }

  lemma IdleShape(l: Line, tag: nat, sector: nat, time: nat)
    requires WellFormed(l) && InvalidLine(l) && sector < SECTORS
    ensures var m := Marked(Allocated(tag, sector, time), sector, Modified);
      && m.tag == tag && m.allocTime == time && m.lastAccess == time
      && forall i :: 0 <= i < SECTORS ==> m.status[i] == if i == sector then Modified else Invalid
    ensures var m := Marked(SectorAllocated(l, sector, time), sector, Modified);
      && m.tag == l.tag && m.lastAccess == time
      && forall i :: 0 <= i < SECTORS ==> m.status[i] == if i == sector then Modified else Invalid
  {}
}
