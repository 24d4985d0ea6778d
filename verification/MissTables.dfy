/** The miss tables, the two caches' access paths and the two drain loops, as the objects that carry them out. */
module MissTables {
  import opened Basics
  import opened Requests
  import opened MemoryReturn
  import TagArray
  import opened TagStore

  /** `done` has been handed out of the entry of sector s, which held `all`; other entries are as in `before`. */
  ghost predicate Draining(t: Table, before: Table, s: nat, done: seq<Request>, all: seq<Request>) {
    && t - {s} == before - {s}
    && all == done + Waiting(t, s)
    && (s in t ==> t[s] != [])
  }

  lemma DrainStarts(t: Table, s: nat)
    requires s in t ==> t[s] != []
    ensures Draining(t, t, s, [], Waiting(t, s))
  {}

  lemma DrainEnds(t: Table, before: Table, s: nat, done: seq<Request>, all: seq<Request>)
    requires Draining(t, before, s, done, all)
    ensures |done| <= |all| && done == all[..|done|]
    ensures s in t <==> |done| < |all|
    ensures s !in t ==> done == all && t == before - {s}
  {}

  class MshrTable {
    const numEntries: nat
    const maxMerged: nat
    var data: Table

    constructor (numEntries: nat, maxMerged: nat)
      ensures data == map[] && this.numEntries == numEntries && this.maxMerged == maxMerged
    {
      this.numEntries := numEntries;
      this.maxMerged := maxMerged;
      data := map[];
    }

    method Probe(s: nat) returns (found: bool)
      ensures found <==> s in data
    {
      found := s in data;
    }

    method Full(s: nat) returns (full: bool)
      ensures full <==> TableFull(data, s, numEntries, maxMerged)
    {
      if s in data {
        return |data[s]| >= maxMerged;
      }
      return |data| >= numEntries;
    }

    method Add(s: nat, r: Request)
      modifies this
      ensures data == Merged(old(data), s, r)
    {
      if s !in data { data := data[s := []]; }
      data := data[s := data[s] + [r]];
    }

    /** The oldest waiting request; the entry goes with the last one. */
    method NextAccess(s: nat) returns (r: Request)
      requires s in data && data[s] != []
      modifies this
      ensures r == old(data)[s][0]
      ensures data == if |old(data)[s]| == 1 then old(data) - {s} else old(data)[s := old(data)[s][1..]]
    {
      r := data[s][0];
      data := data[s := data[s][1..]];
      if data[s] == [] { data := data - {s}; }
    }

    /** One round of a drain loop. */
    method Drain(s: nat, ghost before: Table, ghost done: seq<Request>, ghost all: seq<Request>) returns (r: Request)
      requires s in data && Draining(data, before, s, done, all)
      modifies this
      ensures Draining(data, before, s, done + [r], all) && |done| < |all| && r == all[|done|]
    {
      ghost var was: Table := data;
      r := NextAccess(s);
      assert data - {s} == was - {s};
      assert was[s] == [r] + Waiting(data, s);
    }
  }

  /** A hit on its way back, and the cycle from which it may be taken. */
  datatype Timed = Timed(request: Request, ready: nat)

  function Bare(q: seq<Timed>): (s: seq<Request>)
    ensures |s| == |q| && forall i :: 0 <= i < |q| ==> s[i] == q[i].request
  {
    seq(|q|, i requires 0 <= i < |q| => q[i].request)
  }

  /** Entries at the head of the queue whose time has come. */
  function Ripe(q: seq<Timed>, now: nat): (n: nat)
    ensures n <= |q| && forall i :: 0 <= i < n ==> q[i].ready <= now
    ensures n < |q| ==> q[n].ready > now
  {
    if q == [] || q[0].ready > now then 0 else 1 + Ripe(q[1..], now)
  }

  /** The tag array's answer to a request. */
  ghost function ProbeOf(tags: TagStore, r: Request): TagArray.Probe
    requires tags.Valid() && r.bank < TagArray.SECTORS
    reads tags.lines
  {
    TagArray.ProbeSet(tags.Set(tags.Index(r.addr)), tags.Tag(r.addr), r.bank, tags.policy)
  }

  /** No set and no time stamp can make the probe fail. */
  ghost predicate Orderly(tags: TagStore, time: nat)
    requires tags.Valid()
    reads tags.lines
  {
    tags.AllGood() && time < TagArray.NO_TIME && !tags.policy.Other?
  }

  ghost predicate Formed(tags: TagStore, ss: seq<TagArray.Ways>) {
    && tags.sets == |ss| && (forall a :: tags.Index(a) < tags.sets)
    && forall i :: 0 <= i < |ss| ==> TagArray.Formed(ss[i])
  }

  ghost predicate Banked(q: seq<Request>) { forall i :: 0 <= i < |q| ==> q[i].bank < TagArray.SECTORS }

  /** The sets after the fills of a list of requests, in order. */
  ghost function Filled(tags: TagStore, ss: seq<TagArray.Ways>, q: seq<Request>, time: nat): seq<TagArray.Ways>
    requires Formed(tags, ss) && Banked(q)
    decreases |q|
  {
    if q == [] then ss
    else
      var i := tags.Index(q[0].addr);
      Filled(tags, ss[i := TagArray.Fill(ss[i], tags.Tag(q[0].addr), q[0].bank, time, tags.policy)], q[1..], time)
  }

  /** The last request filled finds its sector. */
  ghost predicate LastIsThere(tags: TagStore, q: seq<Request>)
    requires tags.Valid() && Banked(q)
    reads tags.lines
  {
    q != [] ==> ProbeOf(tags, q[|q| - 1]).Hit?
  }

  /** The sets are what the fills of q have made of `start`; in an orderly cache the last one found its place. */
  ghost predicate FilledSince(tags: TagStore, start: seq<TagArray.Ways>, q: seq<Request>, time: nat, orderly: bool)
    requires tags.Valid()
    reads tags.lines
  {
    && Formed(tags, start) && Banked(q)
    && tags.Sets() == Filled(tags, start, q, time)
    && (orderly ==> Orderly(tags, time) && LastIsThere(tags, q))
  }

  lemma FilledMeans(tags: TagStore, start: seq<TagArray.Ways>, q: seq<Request>, time: nat, orderly: bool)
    requires tags.Valid() && FilledSince(tags, start, q, time, orderly)
    ensures Formed(tags, start) && Banked(q) && tags.Sets() == Filled(tags, start, q, time)
    ensures orderly ==> Orderly(tags, time) && LastIsThere(tags, q)
  {}

  /** cache_fill, after the fills of q. */
  method CacheFill(tags: TagStore, r: Request, time: nat,
                   ghost start: seq<TagArray.Ways>, ghost q: seq<Request>, ghost orderly: bool)
    requires tags.Valid() && r.bank < TagArray.SECTORS && FilledSince(tags, start, q, time, orderly)
    modifies tags.lines
    ensures tags.Valid() && FilledSince(tags, start, q + [r], time, orderly)
  {
    hide tags.Index, tags.Tag, tags.Set, tags.AllGood;
    ghost var before := tags.Sets();
    tags.TagArrayFill(r.addr, r.bank, time);
    assert Filled(tags, before, [r], time) == tags.Sets() by { assert [r][1..] == []; }
    FilledConcat(tags, start, q, [r], time);
  }

  lemma {:induction false} FilledConcat(tags: TagStore, ss: seq<TagArray.Ways>, a: seq<Request>, b: seq<Request>,
                                        time: nat)
    requires Formed(tags, ss) && Banked(a) && Banked(b)
    ensures Formed(tags, Filled(tags, ss, a, time))
    ensures Filled(tags, ss, a + b, time) == Filled(tags, Filled(tags, ss, a, time), b, time)
    decreases |a|
  {
    if a == [] {
      assert a + b == b;
    } else {
      assert (a + b)[1..] == a[1..] + b;
      var i := tags.Index(a[0].addr);
      var t := ss[i := TagArray.Fill(ss[i], tags.Tag(a[0].addr), a[0].bank, time, tags.policy)];
      FilledConcat(tags, t, a[1..], b, time);
    }
  }

  /** Aborted: the probe reached abort(). */
  datatype Status = Hit | Miss | ReservationFail | Aborted

  predicate Refused(status: Status) { status.ReservationFail? || status.Aborted? }

  class L1DataCache {
    const mshrs: MshrTable
    const tags: TagStore
    const cfg: Config
    const hitLatency: nat
    var smToL1: seq<seq<Request>>
    var l1ToSm: seq<Timed>
    var missQueue: seq<Request>

    ghost predicate Valid()
      reads this, tags.lines
    {
      mshrs.numEntries == cfg.entries1 && mshrs.maxMerged == cfg.merged1 && tags.Valid()
    }

    function Contents(): Sm
      reads this, mshrs
    {
      Sm(smToL1, Bare(l1ToSm), mshrs.data, missQueue)
    }

    constructor (cfg: Config, hitLatency: nat, tags: TagStore)
      requires tags.Valid()
      ensures Valid() && fresh(mshrs) && this.cfg == cfg && this.tags == tags && this.hitLatency == hitLatency
      ensures Contents() == Sm(seq(cfg.banks, _ => []), [], map[], [])
    {
      this.cfg, this.hitLatency, this.tags := cfg, hitLatency, tags;
      mshrs := new MshrTable(cfg.entries1, cfg.merged1);
      smToL1 := seq(cfg.banks, _ => []);
      l1ToSm, missQueue := [], [];
    }

    /** What an access does to the set of its line: a load that hits is touched; a store that hits is marked, and
        touched unless it is written through. */
    ghost function Accessed(set_: TagArray.Ways, r: Request, time: nat): TagArray.Ways
      requires TagArray.Formed(set_) && r.bank < TagArray.SECTORS
    {
      var tag := tags.Tag(r.addr);
      if !TagArray.ProbeSet(set_, tag, r.bank, tags.policy).Hit? then set_
      else if r.kind == Load then TagArray.Access(set_, tag, r.bank, time, tags.policy)
      else TagArray.StoreHit(set_, tag, r.bank, time, !cfg.writeThrough, tags.policy)
    }

    method CacheAccess(r: Request, time: nat) returns (status: Status)
      requires Valid() && r.bank < TagArray.SECTORS
      modifies this`l1ToSm, this`missQueue, mshrs, tags.lines
      ensures Valid()
      ensures old(ProbeOf(tags, r)).ReservationFail? ==> status.ReservationFail?
      ensures status.Aborted? <==> old(ProbeOf(tags, r)).Abort?
      ensures status.Hit? <==> old(ProbeOf(tags, r)).Hit?
      ensures Refused(status) ==> Contents() == old(Contents()) && tags.Sets() == old(tags.Sets())
      ensures !Refused(status) ==> var i := tags.Index(r.addr);
        tags.Sets() == old(tags.Sets())[i := Accessed(old(tags.Set(i)), r, time)]
      ensures var p := old(ProbeOf(tags, r)); !p.ReservationFail? && !p.Abort? ==>
        forall b | 0 <= b < |smToL1| && smToL1[b] != [] && smToL1[b][0] == r ::
          L1Access(old(Contents()), b, p.Hit?, cfg)
          == if Refused(status) then Contents() else Popped(Contents(), b)
      ensures old(ProbeOf(tags, r)).Hit? && r.kind == Load ==> l1ToSm == old(l1ToSm) + [Timed(r, time + hitLatency)]
      ensures old(Orderly(tags, time)) ==>
        Orderly(tags, time) && !status.Aborted? && !old(ProbeOf(tags, r)).ReservationFail?
    {
      hide tags.Index, tags.Tag, tags.Set, tags.AllGood;
      hide TagArray.ProbeSet, TagArray.Access, TagArray.StoreHit, TagArray.Formed;
      ghost var was := tags.Sets();
      if Orderly(tags, time) { OrderlyProbe(tags, r, time); }
      var p := tags.TagArrayProbe(r.addr, r.bank);
      if p.ReservationFail? { return ReservationFail; }
      if p.Abort? { return Aborted; }
      if r.kind != Load {
        if p.Hit? {
          if cfg.writeThrough { missQueue := missQueue + [r.(kind := WriteThrough)]; }
          tags.StoreOnHit(r.addr, r.bank, time, !cfg.writeThrough);
          return Hit;
        }
        missQueue := missQueue + [r];
        assert tags.Sets() == was[tags.Index(r.addr) := was[tags.Index(r.addr)]];
        return Miss;
      }
      if p.Hit? {
        var _ := tags.TagArrayAccess(r.addr, r.bank, time);
        l1ToSm := l1ToSm + [Timed(r, time + hitLatency)];
        return Hit;
      }
      var merged := mshrs.Probe(r.sector);
      var full := mshrs.Full(r.sector);
      if full { return ReservationFail; }
      mshrs.Add(r.sector, r);
      if !merged { missQueue := missQueue + [r]; }
      assert tags.Sets() == was[tags.Index(r.addr) := was[tags.Index(r.addr)]];
      return Miss;
    }

    /** One bank's part of l1_cache_cycle. */
    method AccessBank(bank: nat, time: nat) returns (status: Status)
      requires Valid() && bank < |smToL1| && (smToL1[bank] != [] ==> smToL1[bank][0].bank < TagArray.SECTORS)
      modifies this, mshrs, tags.lines
      ensures Valid()
      ensures old(smToL1[bank]) == [] ==> Contents() == old(Contents()) && tags.Sets() == old(tags.Sets())
      ensures old(smToL1[bank]) != [] ==>
        && var r := old(smToL1[bank][0]);
        && var p := old(ProbeOf(tags, r));
        && Contents() == (if p.ReservationFail? || p.Abort? then old(Contents())
                          else L1Access(old(Contents()), bank, p.Hit?, cfg))
        && tags.Sets() == (if Refused(status) then old(tags.Sets())
                           else old(tags.Sets())[tags.Index(r.addr) :=
                                  Accessed(old(tags.Set(tags.Index(r.addr))), r, time)])
      ensures old(Orderly(tags, time)) ==> Orderly(tags, time) && !status.Aborted?
    {
      hide tags.Index, tags.Tag, tags.Set, Accessed, L1Access, ProbeOf, tags.AllGood;
      status := Miss;
      if smToL1[bank] != [] {
        status := CacheAccess(smToL1[bank][0], time);
        if !Refused(status) { smToL1 := smToL1[bank := smToL1[bank][1..]]; }
      }
    }
  }

  lemma OrderlyProbe(tags: TagStore, r: Request, time: nat)
    requires tags.Valid() && Orderly(tags, time) && r.bank < TagArray.SECTORS
    ensures ProbeOf(tags, r).Hit? || ProbeOf(tags, r).SectorMiss? || ProbeOf(tags, r).Miss?
  {
    hide TagArray.Good, TagArray.ProbeSet, tags.Index, tags.Set, tags.Tag;
    TagArray.ProbeNeverFails(tags.Set(tags.Index(r.addr)), tags.Tag(r.addr), r.bank, tags.policy);
  }

  class L2DataCache {
    const mshrs: MshrTable
    const tags: TagStore
    const cfg: Config
    const hitLatency: nat
    var l1ToL2: seq<Request>
    var l2ToSm: seq<Timed>
    var toDram: seq<Request>

    ghost predicate Valid()
      reads this, tags.lines
    {
      mshrs.numEntries == cfg.entries2 && mshrs.maxMerged == cfg.merged2 && tags.Valid()
    }

    function Contents(): Slice
      reads this, mshrs
    {
      Slice(l1ToL2, mshrs.data, Bare(l2ToSm), toDram)
    }

    constructor (cfg: Config, hitLatency: nat, tags: TagStore)
      requires tags.Valid()
      ensures Valid() && fresh(mshrs) && this.cfg == cfg && this.tags == tags && this.hitLatency == hitLatency
      ensures Contents() == Slice([], map[], [], [])
    {
      this.cfg, this.hitLatency, this.tags := cfg, hitLatency, tags;
      mshrs := new MshrTable(cfg.entries2, cfg.merged2);
      l1ToL2, l2ToSm, toDram := [], [], [];
    }

    /** What an access does to the set of its line: a load is touched where it hits; a store marks what it hits, or
        takes an idle line. */
    ghost function Accessed(set_: TagArray.Ways, r: Request, time: nat): TagArray.Ways
      requires TagArray.Formed(set_) && r.bank < TagArray.SECTORS
    {
      var tag := tags.Tag(r.addr);
      if r.kind == Load then TagArray.Access(set_, tag, r.bank, time, tags.policy)
      else if TagArray.ProbeSet(set_, tag, r.bank, tags.policy).Hit?
      then TagArray.StoreHit(set_, tag, r.bank, time, true, tags.policy)
      else TagArray.IdleStore(set_, tag, r.bank, time, tags.policy)
    }

    method CacheAccess(r: Request, time: nat, now: nat) returns (status: Status)
      requires Valid() && r.bank < TagArray.SECTORS
      modifies this`l2ToSm, this`toDram, mshrs, tags.lines
      ensures Valid()
      ensures old(ProbeOf(tags, r)).ReservationFail? ==> status.ReservationFail?
      ensures status.Aborted? <==> old(ProbeOf(tags, r)).Abort?
      ensures status.Hit? <==>
        || old(ProbeOf(tags, r)).Hit?
        || (r.kind != Load && !Refused(status)
            && TagArray.FirstInvalid(old(tags.Set(tags.Index(r.addr))), 0) < tags.assoc)
      ensures Refused(status) ==> Contents() == old(Contents()) && tags.Sets() == old(tags.Sets())
      ensures !Refused(status) ==> var i := tags.Index(r.addr);
        tags.Sets() == old(tags.Sets())[i := Accessed(old(tags.Set(i)), r, time)]
      ensures var p := old(ProbeOf(tags, r)); !p.ReservationFail? && !p.Abort? ==>
        (l1ToL2 != [] && l1ToL2[0] == r ==>
          L2Access(old(Contents()), p.Hit?, cfg)
          == if Refused(status) then Contents() else Contents().(arrived := l1ToL2[1..]))
      ensures old(ProbeOf(tags, r)).Hit? && r.kind == Load ==> l2ToSm == old(l2ToSm) + [Timed(r, now + hitLatency)]
    {
      hide tags.Index, tags.Tag, tags.Set, TagArray.ProbeSet, TagArray.Access, TagArray.StoreHit, TagArray.IdleStore;
      var p := tags.TagArrayProbe(r.addr, r.bank);
      if p.ReservationFail? { return ReservationFail; }
      if p.Abort? { return Aborted; }
      if r.kind != Load {
        if p.Hit? {
          tags.StoreOnHit(r.addr, r.bank, time, true);
          return Hit;
        }
        var taken := tags.StoreOnIdle(r.addr, r.bank, time, p);
        if r.kind == Store { toDram := toDram + [r]; }
        return if taken then Hit else Miss;
      }
      if p.Hit? {
        var _ := tags.TagArrayAccess(r.addr, r.bank, time);
        l2ToSm := l2ToSm + [Timed(r, now + hitLatency)];
        return Hit;
      }
      var merged := mshrs.Probe(r.sector);
      var full := mshrs.Full(r.sector);
      if full { return ReservationFail; }
      var _ := tags.TagArrayAccess(r.addr, r.bank, time);
      mshrs.Add(r.sector, r);
      if !merged { toDram := toDram + [r]; }
      return Miss;
    }

    /** The arrival part of l2_cache_cycle. */
    method AccessArrival(time: nat, now: nat) returns (status: Status)
      requires Valid() && (l1ToL2 != [] ==> l1ToL2[0].bank < TagArray.SECTORS)
      modifies this, mshrs, tags.lines
      ensures Valid()
      ensures old(l1ToL2) == [] ==> Contents() == old(Contents()) && tags.Sets() == old(tags.Sets())
      ensures old(l1ToL2) != [] ==>
        && var r := old(l1ToL2[0]);
        && var p := old(ProbeOf(tags, r));
        && Contents() == (if p.ReservationFail? || p.Abort? then old(Contents())
                          else L2Access(old(Contents()), p.Hit?, cfg))
        && tags.Sets() == (if Refused(status) then old(tags.Sets())
                           else old(tags.Sets())[tags.Index(r.addr) :=
                                  Accessed(old(tags.Set(tags.Index(r.addr))), r, time)])
    {
      hide tags.Index, tags.Tag, tags.Set, Accessed, L2Access, ProbeOf;
      status := Miss;
      if l1ToL2 != [] {
        status := CacheAccess(l1ToL2[0], time, now);
        if !Refused(status) { l1ToL2 := l1ToL2[1..]; }
      }
    }

    /** The hits whose time has come leave for the reply network. */
    method ReturnHits(now: nat) returns (pushed: seq<Request>)
      modifies this`l2ToSm
      ensures var n := Ripe(old(l2ToSm), now); pushed == Bare(old(l2ToSm)[..n]) && l2ToSm == old(l2ToSm)[n..]
    {
      ghost var was := l2ToSm;
      ghost var n := 0;
      pushed := [];
      while l2ToSm != [] && l2ToSm[0].ready <= now
        invariant n <= |was| && l2ToSm == was[n..]
        invariant pushed == Bare(was[..n])
        invariant n + Ripe(l2ToSm, now) == Ripe(was, now)
        decreases |l2ToSm|
      {
        assert was[..n + 1] == was[..n] + [was[n]];
        pushed := pushed + [l2ToSm[0].request];
        l2ToSm := l2ToSm[1..];
        n := n + 1;
      }
    }

    /** Requests whose line a return fills: the sector's waiting ones, or the request itself. */
    ghost function Drained(r: Request): seq<Request>
      reads mshrs
    {
      if r.sector in mshrs.data then mshrs.data[r.sector] else [r]
    }

    /** return_l2_miss_to_sms: drains the sector's entry, or answers the request itself; fills for each. */
    method ReturnMissToSms(r: Request, time: nat) returns (pushed: seq<Request>)
      requires Valid() && Banked(Drained(r)) && forall s | s in mshrs.data :: mshrs.data[s] != []
      modifies mshrs, tags.lines
      ensures Valid() && Formed(tags, old(tags.Sets()))
      ensures pushed == Answered(old(Contents()), r)
      ensures Contents() == old(Contents()).(mshr := old(mshrs.data) - {r.sector})
      ensures tags.Sets() == Filled(tags, old(tags.Sets()), old(Drained(r)), time)
      ensures old(Orderly(tags, time)) ==> Orderly(tags, time) && LastIsThere(tags, old(Drained(r)))
    {
      ghost var before := mshrs.data;
      pushed := [];
      var more := mshrs.Probe(r.sector);
      if !more {
        assert Drained(r)[0] == r;
        NothingFilled(tags, time);
        CacheFill(tags, r, time, tags.Sets(), [], Orderly(tags, time));
        assert [] + [r] == Drained(r);
        if r.kind == Load { pushed := pushed + [r]; }
        assert NeedReply([r][1..]) == [];
      } else {
        pushed := DrainEntry(r.sector, time);
      }
      assert mshrs.data == before - {r.sector};
    }

    /** The loop of return_l2_miss_to_sms. */
    method DrainEntry(sector: nat, time: nat) returns (pushed: seq<Request>)
      requires Valid() && sector in mshrs.data && mshrs.data[sector] != [] && Banked(mshrs.data[sector])
      modifies mshrs, tags.lines
      ensures Valid() && Formed(tags, old(tags.Sets()))
      ensures pushed == NeedReply(old(mshrs.data[sector]))
      ensures mshrs.data == old(mshrs.data) - {sector}
      ensures tags.Sets() == Filled(tags, old(tags.Sets()), old(mshrs.data[sector]), time)
      ensures old(Orderly(tags, time)) ==> Orderly(tags, time) && LastIsThere(tags, old(mshrs.data[sector]))
    {
      hide FilledSince, tags.Valid, tags.Sets, tags.AllGood, tags.Index, Formed, Filled, ProbeOf, Orderly, LastIsThere;
      hide Draining;
      ghost var all, start := mshrs.data[sector], tags.Sets();
      ghost var before: Table := mshrs.data;
      ghost var done, orderly: bool := [], Orderly(tags, time);
      pushed := [];
      NothingFilled(tags, time);
      DrainStarts(mshrs.data, sector);
      var more := true;
      while more
        invariant Valid() && FilledSince(tags, start, done, time, orderly)
        invariant Draining(mshrs.data, before, sector, done, all) && (more <==> sector in mshrs.data)
        invariant pushed == NeedReply(done)
        decreases |all| - |done|
      {
        var waiting := mshrs.Drain(sector, before, done, all);
        CacheFill(tags, waiting, time, start, done, orderly);
        RepliesOfPush(done, waiting);
        done := done + [waiting];
        if waiting.kind == Load { pushed := pushed + [waiting]; }
        more := mshrs.Probe(sector);
      }
      DrainEnds(mshrs.data, before, sector, done, all);
      FilledMeans(tags, start, all, time, orderly);
    }
  }

  lemma {:induction false} RepliesOfPush(q: seq<Request>, r: Request)
    ensures NeedReply(q + [r]) == NeedReply(q) + if r.kind == Load then [r] else []
  {
    if q == [] {
      assert q + [r] == [r];
      assert [r][1..] == [];
    } else {
      RepliesOfPush(q[1..], r);
      assert (q + [r])[1..] == q[1..] + [r] && (q + [r])[0] == q[0];
      assert NeedReply(q + [r]) == (if q[0].kind == Load then [q[0]] else []) + NeedReply(q[1..] + [r]);
    }
  }

  lemma NothingFilled(tags: TagStore, time: nat)
    requires tags.Valid()
    ensures Formed(tags, tags.Sets()) && FilledSince(tags, tags.Sets(), [], time, Orderly(tags, time))
  {}

  // ------------------------------------------------------------------
  // Write-back
  // ------------------------------------------------------------------

  /** Completion stamps after one load is written back: the last one counted stamps its instruction. */
  function StampOne(l: Ledger, stamps: map<Slot, nat>, r: Request, now: nat): map<Slot, nat> {
    if Pending(l.pending, r.slot) == 1 then stamps[r.slot := now] else stamps
  }

  function StampAll(l: Ledger, stamps: map<Slot, nat>, q: seq<Request>, must: bool, now: nat): map<Slot, nat>
    decreases |q|
  {
    if q == [] then stamps
    else StampAll(WriteBack(l, q[0], must), StampOne(l, stamps, q[0], now), q[1..], must, now)
  }

  /** WriteBackAll, for loads that may be dropped without an error. */
  function WriteBackHits(l: Ledger, q: seq<Request>): Ledger
    decreases |q|
  {
    if q == [] then l else WriteBackHits(WriteBack(l, q[0], false), q[1..])
  }

  /** Writing back the first n hits of an SM is n HitDone steps of the whole system. */
  lemma {:induction false} HitsAreSteps(st: System, a: nat, n: nat, cfg: Config)
    requires a < |st.sms| && n <= |st.sms[a].hits|
    ensures var (es, c) := (seq(n, _ => HitDone(a)), st.sms[a]);
      && Feasible(st, es, cfg)
      && Run(st, es, cfg)
         == st.(sms := st.sms[a := c.(hits := c.hits[n..])], ledger := WriteBackHits(st.ledger, c.hits[..n]))
    decreases n
  {
    hide WriteBack;
    var (es, hits) := (seq(n, _ => HitDone(a)), st.sms[a].hits);
    if n > 0 {
      var t := Next(st, es[0], cfg);
      HitsAreSteps(t, a, n - 1, cfg);
      assert es[1..] == seq(n - 1, _ => HitDone(a));
      assert t.sms[a].hits[..n - 1] == hits[..n][1..] && t.sms[a].hits[n - 1..] == hits[n..];
    } else {
      assert st.sms[a := st.sms[a].(hits := hits[0..])] == st.sms;
    }
  }

  /** An instruction's stamp changes exactly when its count falls to zero. */
  lemma {:induction false} StampedIffEmptied(l: Ledger, stamps: map<Slot, nat>, q: seq<Request>, now: nat, slot: Slot)
    requires slot !in stamps
    ensures slot in StampAll(l, stamps, q, true, now)
      <==> Pending(l.pending, slot) > 0 && Pending(WriteBackAll(l, q).pending, slot) == 0
    ensures slot in StampAll(l, stamps, q, true, now) ==> StampAll(l, stamps, q, true, now)[slot] == now
    decreases |q|
  {
    if q != [] {
      CountsNeverRise(WriteBack(l, q[0], true), q[1..], slot);
      if Pending(l.pending, q[0].slot) == 1 && q[0].slot == slot {
        StampStays(WriteBack(l, q[0], true), StampOne(l, stamps, q[0], now), q[1..], now, slot);
      } else {
        StampedIffEmptied(WriteBack(l, q[0], true), StampOne(l, stamps, q[0], now), q[1..], now, slot);
      }
    }
  }

  /** Some instruction has more loads in q than are counted as pending for it. */
  ghost predicate TooMany(l: Ledger, q: seq<Request>) {
    exists slot :: Count(q, ForSlot(slot)) > 0 && Count(q, ForSlot(slot)) > Pending(l.pending, slot)
  }

  /** A drain takes the error exit exactly when an instruction has more loads in the waiting list than are counted as
      pending for it. */
  lemma {:induction false} DrainErrsIff(l: Ledger, q: seq<Request>)
    requires forall i :: 0 <= i < |q| ==> q[i].kind == Load
    ensures WriteBackAll(l, q).error <==> l.error || TooMany(l, q)
    decreases |q|
  {
    if q != [] {
      var (r, rest, m) := (q[0], q[1..], WriteBack(l, q[0], true));
      DrainErrsIff(m, rest);
      assert forall slot :: Count(q, ForSlot(slot)) == Count(rest, ForSlot(slot)) + if slot == r.slot then 1 else 0;
      if Pending(l.pending, r.slot) <= 0 {
        assert Count(q, ForSlot(r.slot)) > 0;
        assert TooMany(l, q);
      } else {
        if slot :| Count(q, ForSlot(slot)) > 0 && Count(q, ForSlot(slot)) > Pending(l.pending, slot) {
          assert Count(rest, ForSlot(slot)) > Pending(m.pending, slot);
        }
        if slot :| Count(rest, ForSlot(slot)) > 0 && Count(rest, ForSlot(slot)) > Pending(m.pending, slot) {
          assert Count(q, ForSlot(slot)) > Pending(l.pending, slot);
        }
      }
    }
  }

  /** Hits never take the error exit. */
  lemma {:induction false} HitsNeverErr(l: Ledger, q: seq<Request>)
    ensures WriteBackHits(l, q).error == l.error
    decreases |q|
  {
    if q != [] { HitsNeverErr(WriteBack(l, q[0], false), q[1..]); }
  }

  lemma {:induction false} CountsNeverRise(l: Ledger, q: seq<Request>, slot: Slot)
    ensures Pending(WriteBackAll(l, q).pending, slot) <= Pending(l.pending, slot)
    ensures Pending(l.pending, slot) >= 0 ==> Pending(WriteBackAll(l, q).pending, slot) >= 0
    decreases |q|
  {
    if q != [] { CountsNeverRise(WriteBack(l, q[0], true), q[1..], slot); }
  }

  lemma {:induction false} StampStays(l: Ledger, stamps: map<Slot, nat>, q: seq<Request>, now: nat, slot: Slot)
    requires slot in stamps && stamps[slot] == now
    ensures slot in StampAll(l, stamps, q, true, now) && StampAll(l, stamps, q, true, now)[slot] == now
    decreases |q|
  {
    if q != [] {
      StampStays(WriteBack(l, q[0], true), StampOne(l, stamps, q[0], now), q[1..], now, slot);
    }
  }

  /** Writing back q leads to the given ledger and stamps. */
  ghost predicate LeadsTo(l: Ledger, stamps: map<Slot, nat>, q: seq<Request>, now: nat,
                          target: Ledger, stamped: map<Slot, nat>) {
    WriteBackAll(l, q) == target && StampAll(l, stamps, q, true, now) == stamped
  }

  lemma LeadsOn(l: Ledger, stamps: map<Slot, nat>, all: seq<Request>, n: nat, now: nat,
                target: Ledger, stamped: map<Slot, nat>)
    requires n < |all| && LeadsTo(l, stamps, all[n..], now, target, stamped)
    ensures LeadsTo(WriteBack(l, all[n], true), StampOne(l, stamps, all[n], now), all[n + 1..], now, target, stamped)
  {
    assert all[n..][1..] == all[n + 1..];
  }

  lemma LeadsNowhere(l: Ledger, stamps: map<Slot, nat>, now: nat, target: Ledger, stamped: map<Slot, nat>)
    requires LeadsTo(l, stamps, [], now, target, stamped)
    ensures l == target && stamps == stamped
  {}

  /** The write-back side of one SM: its L1 cache, its warps' pending counts and completion stamps. */
  class SmWriteBack {
    const cache: L1DataCache
    ghost var done: seq<Request>
    var pending: map<Slot, int>
    var completions: map<Slot, nat>
    var error: bool

    constructor (cache: L1DataCache)
      ensures this.cache == cache && done == [] && pending == map[] && completions == map[] && !error
    {
      this.cache := cache;
      done, pending, completions, error := [], map[], map[], false;
    }

    ghost function Written(): Ledger
      reads this
    {
      Ledger(done, pending, error)
    }

    method WriteBackOne(r: Request, must: bool, cycles: nat)
      modifies this
      ensures Written() == WriteBack(old(Written()), r, must)
      ensures completions == StampOne(old(Written()), old(completions), r, cycles)
    {
      var n := if r.slot in pending then pending[r.slot] else 0;
      if n > 0 {
        pending := pending[r.slot := n - 1];
        if n - 1 == 0 { completions := completions[r.slot := cycles]; }
        done := done + [r];
      } else if must {
        error := true;
      }
    }

    /** write_back_request_l2: nothing for NULL; for a load every request waiting for its sector is written back and
        its line filled; a write that wanted a reply is written back itself. */
    method WriteBackRequestL2(mf: Option<Request>, cycles: nat)
      requires cache.Valid()
      requires forall s | s in cache.mshrs.data :: cache.mshrs.data[s] != [] && Banked(cache.mshrs.data[s])
      modifies this, cache.mshrs, cache.tags.lines
      ensures cache.Valid() && Formed(cache.tags, old(cache.tags.Sets()))
      ensures mf.None? || mf.value.kind != Load ==>
        && cache.mshrs.data == old(cache.mshrs.data) && cache.tags.Sets() == old(cache.tags.Sets())
        && var q := OptSeq(mf);
        && Written() == WriteBackAll(old(Written()), q)
        && completions == StampAll(old(Written()), old(completions), q, true, cycles)
      ensures mf.Some? && mf.value.kind == Load ==>
        && var q := Waiting(old(cache.mshrs.data), mf.value.sector);
        && Written() == WriteBackAll(old(Written()), q)
        && completions == StampAll(old(Written()), old(completions), q, true, cycles)
        && cache.mshrs.data == old(cache.mshrs.data) - {mf.value.sector}
        && Banked(q) && cache.tags.Sets() == Filled(cache.tags, old(cache.tags.Sets()), q, cycles)
        && (old(Orderly(cache.tags, cycles)) ==> Orderly(cache.tags, cycles) && LastIsThere(cache.tags, q))
    {
      NothingFilled(cache.tags, cycles);
      match mf
      case None =>
      case Some(r) =>
        if r.kind == Load {
          DrainEntry(r.sector, cycles);
        } else {
          WriteBackOne(r, true, cycles);
          assert [r][1..] == [];
        }
    }

    /** One round of the loop of write_back_request_l2. */
    method WriteBackNext(sector: nat, cycles: nat, ghost before: Table, ghost start: seq<TagArray.Ways>,
                         ghost done: seq<Request>, ghost all: seq<Request>, ghost orderly: bool)
      returns (waiting: Request)
      requires cache.Valid() && sector in cache.mshrs.data && Banked(all)
      requires Draining(cache.mshrs.data, before, sector, done, all)
      requires FilledSince(cache.tags, start, done, cycles, orderly)
      modifies this, cache.mshrs, cache.tags.lines
      ensures cache.Valid() && |done| < |all| && waiting == all[|done|]
      ensures Draining(cache.mshrs.data, before, sector, done + [waiting], all)
      ensures FilledSince(cache.tags, start, done + [waiting], cycles, orderly)
      ensures Written() == WriteBack(old(Written()), waiting, true)
      ensures completions == StampOne(old(Written()), old(completions), waiting, cycles)
    {
      hide Draining, FilledSince;
      waiting := cache.mshrs.Drain(sector, before, done, all);
      WriteBackOne(waiting, true, cycles);
      CacheFill(cache.tags, waiting, cycles, start, done, orderly);
    }

    /** The loop of write_back_request_l2. */
    method DrainEntry(sector: nat, cycles: nat)
      requires cache.Valid()
      requires forall s | s in cache.mshrs.data :: cache.mshrs.data[s] != [] && Banked(cache.mshrs.data[s])
      modifies this, cache.mshrs, cache.tags.lines
      ensures cache.Valid() && Formed(cache.tags, old(cache.tags.Sets()))
      ensures var q := Waiting(old(cache.mshrs.data), sector);
        && Written() == WriteBackAll(old(Written()), q)
        && completions == StampAll(old(Written()), old(completions), q, true, cycles)
        && Banked(q) && cache.tags.Sets() == Filled(cache.tags, old(cache.tags.Sets()), q, cycles)
        && (old(Orderly(cache.tags, cycles)) ==> Orderly(cache.tags, cycles) && LastIsThere(cache.tags, q))
      ensures cache.mshrs.data == old(cache.mshrs.data) - {sector}
    {
      var mshrs, tags := cache.mshrs, cache.tags;
      hide FilledSince, tags.Valid, tags.Sets, tags.AllGood, tags.Index, Formed, Filled, ProbeOf, Orderly, LastIsThere;
      hide WriteBack, StampOne;
      hide Draining;
      ghost var all, start := Waiting(mshrs.data, sector), tags.Sets();
      ghost var before: Table := mshrs.data;
      ghost var done, orderly: bool := [], Orderly(tags, cycles);
      ghost var target := WriteBackAll(Written(), all);
      ghost var stamped := StampAll(Written(), completions, all, true, cycles);
      assert all[0..] == all;
      assert LeadsTo(Written(), completions, all[0..], cycles, target, stamped);
      hide LeadsTo;
      NothingFilled(tags, cycles);
      DrainStarts(mshrs.data, sector);
      var more := mshrs.Probe(sector);
      while more
        invariant cache.Valid() && FilledSince(tags, start, done, cycles, orderly)
        invariant Draining(mshrs.data, before, sector, done, all) && (more <==> sector in mshrs.data)
        invariant |done| <= |all| && LeadsTo(Written(), completions, all[|done|..], cycles, target, stamped)
        decreases |all| - |done|
      {
        ghost var (l, stamps) := (Written(), completions);
        var waiting := WriteBackNext(sector, cycles, before, start, done, all, orderly);
        LeadsOn(l, stamps, all, |done|, cycles, target, stamped);
        done := done + [waiting];
        more := mshrs.Probe(sector);
      }
      DrainEnds(mshrs.data, before, sector, done, all);
      LeadsNowhere(Written(), completions, cycles, target, stamped);
      FilledMeans(tags, start, all, cycles, orderly);
    }

    /** write_back: the L1 hits at the head of the queue whose latency has passed. */
    method WriteBackHitsDue(cycles: nat)
      modifies this, cache`l1ToSm
      ensures var (was, n) := (old(cache.l1ToSm), Ripe(old(cache.l1ToSm), cycles));
        && cache.l1ToSm == was[n..]
        && Written() == WriteBackHits(old(Written()), Bare(was[..n]))
        && completions == StampAll(old(Written()), old(completions), Bare(was[..n]), false, cycles)
    {
      ghost var was, n := cache.l1ToSm, Ripe(cache.l1ToSm, cycles);
      ghost var target := WriteBackHits(Written(), Bare(was[..n]));
      ghost var stamped := StampAll(Written(), completions, Bare(was[..n]), false, cycles);
      ghost var k := 0;
      while cache.l1ToSm != [] && cache.l1ToSm[0].ready <= cycles
        invariant k <= n && cache.l1ToSm == was[k..]
        invariant k + Ripe(cache.l1ToSm, cycles) == n
        invariant WriteBackHits(Written(), Bare(was[k..n])) == target
        invariant StampAll(Written(), completions, Bare(was[k..n]), false, cycles) == stamped
        decreases |cache.l1ToSm|
      {
        assert Bare(was[k..n])[1..] == Bare(was[k + 1..n]);
        WriteBackOne(cache.l1ToSm[0].request, false, cycles);
        cache.l1ToSm := cache.l1ToSm[1..];
        k := k + 1;
      }
      assert was[n..n] == [];
    }
  }
}
