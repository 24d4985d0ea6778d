/** What accesses and fills of a cache do to one of its sets, as a run of the tag array: its recency applies. */
module CacheRecency {
  import opened Basics
  import opened Requests
  import opened TagArray
  import opened TagRecency
  import Recency
  import MissTables

  /** An access that is not refused, or the fill of a request that returned. */
  datatype Use = Looked(r: Request, time: nat) | Returned(r: Request, time: nat)

  /** The requests name sectors of a line, and times are such as the probe can compare. */
  predicate GoodUses(uses: seq<Use>) {
    forall k :: 0 <= k < |uses| ==> uses[k].r.bank < SECTORS && uses[k].time < NO_TIME
  }

  /** The operation of the tag array that an L1 access or a fill stands for. */
  function L1Op(cache: MissTables.L1DataCache, u: Use): Timed {
    var (tag, sector) := (cache.tags.Tag(u.r.addr), u.r.bank);
    match u
    case Looked(r, t) =>
      Timed(if r.kind == Kind.Load then Op.Load(tag, sector) else Op.Store(tag, sector, !cache.cfg.writeThrough), t)
    case Returned(_, t) => Timed(FillOp(tag, sector), t)
  }

  function L1Ops(cache: MissTables.L1DataCache, uses: seq<Use>): (ops: seq<Timed>)
    ensures |ops| == |uses| && forall k :: 0 <= k < |uses| ==> ops[k] == L1Op(cache, uses[k])
  {
    seq(|uses|, k requires 0 <= k < |uses| => L1Op(cache, uses[k]))
  }

  /** A set of L1 after the accesses and fills of its lines. */
  ghost function L1Set(cache: MissTables.L1DataCache, uses: seq<Use>): (set_: Ways)
    requires GoodUses(uses)
    ensures Formed(set_) && |set_| == cache.tags.assoc
    decreases |uses|
  {
    if uses == [] then EmptySet(cache.tags.assoc)
    else
      var (n, before) := (|uses| - 1, L1Set(cache, uses[..|uses| - 1]));
      match uses[n]
      case Looked(r, time) => AccessedFormed(cache, before, r, time); cache.Accessed(before, r, time)
      case Returned(r, time) => Fill(before, cache.tags.Tag(r.addr), r.bank, time, cache.tags.policy)
  }

  lemma AccessedFormed(cache: MissTables.L1DataCache, set_: Ways, r: Request, time: nat)
    requires Formed(set_) && r.bank < SECTORS
    ensures Formed(cache.Accessed(set_, r, time)) && |cache.Accessed(set_, r, time)| == |set_|
  {}

  /** On an orderly set an L1 access is the operation it stands for. */
  lemma L1AccessIsApply(cache: MissTables.L1DataCache, set_: Ways, r: Request, time: nat)
    requires Good(set_) && r.bank < SECTORS && !cache.tags.policy.Other?
    ensures Formed(set_)
    ensures cache.Accessed(set_, r, time) == Apply(set_, L1Op(cache, Looked(r, time)).op, time, cache.tags.policy)
  {
    hide ProbeSet, Good;
    ProbeNeverFails(set_, cache.tags.Tag(r.addr), r.bank, cache.tags.policy);
  }

  /** On an orderly set an L2 access touches what it hits, marks a store that hits, and lets a store that does not hit
      take an idle line. */
  lemma L2AccessIsApply(cache: MissTables.L2DataCache, set_: Ways, r: Request, time: nat)
    requires Good(set_) && r.bank < SECTORS && !cache.tags.policy.Other?
    ensures Formed(set_)
    ensures var (tag, policy) := (cache.tags.Tag(r.addr), cache.tags.policy);
      cache.Accessed(set_, r, time)
      == if r.kind == Kind.Load then Apply(set_, Op.Load(tag, r.bank), time, policy)
         else if Resident(set_, tag, r.bank) then Apply(set_, Op.Store(tag, r.bank, true), time, policy)
         else IdleStore(set_, tag, r.bank, time, policy)
  {
    hide ProbeSet, Good, Resident;
    ProbeNeverFails(set_, cache.tags.Tag(r.addr), r.bank, cache.tags.policy);
  }

  /** A set of L1 is what the run of its operations makes of an empty set, so everything proved about such runs holds
      for it. */
  lemma {:induction false} L1SetIsRun(cache: MissTables.L1DataCache, uses: seq<Use>)
    requires GoodUses(uses) && cache.tags.assoc > 0 && !cache.tags.policy.Other?
    ensures Sectored(L1Ops(cache, uses))
    ensures L1Set(cache, uses) == RunSet(cache.tags.assoc, L1Ops(cache, uses), cache.tags.policy)
    decreases |uses|
  {
    hide Apply, ProbeSet, Good;
    if uses != [] {
      var (n, ops) := (|uses| - 1, L1Ops(cache, uses));
      L1SetIsRun(cache, uses[..n]);
      assert ops[..n] == L1Ops(cache, uses[..n]);
      var set_ := L1Set(cache, uses[..n]);
      RunKeepsGood(cache.tags.assoc, ops[..n], cache.tags.policy);
      if uses[n].Looked? {
        L1AccessIsApply(cache, set_, uses[n].r, uses[n].time);
      } else {
        FillIsApply(set_, ops[n].op, uses[n].time, cache.tags.policy);
      }
    }
  }

  lemma FillIsApply(set_: Ways, op: Op, time: nat, policy: Policy)
    requires Formed(set_) && op.sector < SECTORS && op.FillOp?
    ensures Apply(set_, op, time, policy) == Fill(set_, op.tag, op.sector, time, policy)
  {}

  /** Under LRU, and while no fill meets a tie, a line is in its set of L1 exactly when it was touched, by a fill, a
      load that hit, or a store that hit and is not written through, and fewer than assoc other lines since. */
  lemma L1KeepsRecentLines(cache: MissTables.L1DataCache, uses: seq<Use>, addr: nat)
    requires GoodUses(uses) && cache.tags.assoc > 0 && cache.tags.policy == Lru
    requires Sectored(L1Ops(cache, uses)) && InOrder(L1Ops(cache, uses), false)
    requires NeverTies(cache.tags.assoc, L1Ops(cache, uses))
    ensures var (assoc, tag) := (cache.tags.assoc, cache.tags.Tag(addr));
      var h: seq<int> := History(assoc, L1Ops(cache, uses));
      Present(L1Set(cache, uses), tag) <==> tag in h && |Recency.Since(h, tag)| < assoc
  {
    hide RunSet, History, L1Set, NeverTies, InOrder, Present;
    L1SetIsRun(cache, uses);
    PresentIffRecent(cache.tags.assoc, L1Ops(cache, uses), cache.tags.Tag(addr));
  }
}
