/** Limits of the miss tables, exactly when an access is refused, and the order of the queues of the memory path. */
module TableLimits {
  import opened Basics
  import opened Requests
  import opened MemoryReturn

  // ------------------------------------------------------------------
  // Limits
  // ------------------------------------------------------------------

  /** At most `entries` entries, with at most `merged` requests each; an entry that is there has one. */
  ghost predicate WithinLimits(t: Table, entries: nat, merged: nat) {
    |t| <= entries && forall s | s in t :: |t[s]| <= if merged > 1 then merged else 1
  }

  ghost predicate Limited(st: System, cfg: Config) {
    && (forall a | 0 <= a < |st.sms| :: WithinLimits(st.sms[a].mshr, cfg.entries1, cfg.merged1))
    && (forall k | 0 <= k < |st.slices| :: WithinLimits(st.slices[k].mshr, cfg.entries2, cfg.merged2))
  }

  lemma FewerEntries(t: Table, s: nat)
    ensures |t - {s}| <= |t| && (forall x | x in t - {s} :: (t - {s})[x] == t[x])
  {
    var u: map<nat, seq<Request>> := t - {s};
    assert u.Keys == t.Keys - {s};
    assert |u.Keys| == |u| && |t.Keys| == |t|;
  }

  lemma RemovalWithinLimits(t: Table, s: nat, entries: nat, merged: nat)
    requires WithinLimits(t, entries, merged)
    ensures WithinLimits(t - {s}, entries, merged)
  {
    FewerEntries(t, s);
  }

  lemma MergeWithinLimits(t: Table, s: nat, r: Request, entries: nat, merged: nat)
    requires WithinLimits(t, entries, merged) && !TableFull(t, s, entries, merged)
    ensures WithinLimits(Merged(t, s, r), entries, merged)
  {
    var u := Merged(t, s, r);
    assert u.Keys == t.Keys + {s};
    assert |u.Keys| == |u| && |t.Keys| == |t|;
  }

  lemma SmStepKeepsLimits(st: System, e: Event, cfg: Config)
    requires Enabled(st, e, cfg) && Limited(st, cfg)
    requires e.Create? || e.AccessL1? || e.Send? || e.Reply? || e.HitDone?
    ensures Limited(Next(st, e, cfg), cfg)
  {
    hide WithinLimits, TableFull, Merged, WriteBack, WriteBackAll;
    match e
    case AccessL1(a, b, _) =>
      var r := st.sms[a].toL1[b][0];
      if !TableFull(st.sms[a].mshr, r.sector, cfg.entries1, cfg.merged1) {
        MergeWithinLimits(st.sms[a].mshr, r.sector, r, cfg.entries1, cfg.merged1);
      }
    case Reply(i) =>
      RemovalWithinLimits(st.sms[st.replies[i].sm].mshr, st.replies[i].sector, cfg.entries1, cfg.merged1);
    case _ =>
  }

  lemma SliceStepKeepsLimits(st: System, e: Event, cfg: Config)
    requires Enabled(st, e, cfg) && Limited(st, cfg)
    requires e.Arrive? || e.AccessL2? || e.AnswerHit? || e.DramReturn?
    ensures Limited(Next(st, e, cfg), cfg)
  {
    hide WithinLimits, TableFull, Merged, Answered;
    match e
    case AccessL2(k, _) =>
      var r := st.slices[k].arrived[0];
      if !TableFull(st.slices[k].mshr, r.sector, cfg.entries2, cfg.merged2) {
        MergeWithinLimits(st.slices[k].mshr, r.sector, r, cfg.entries2, cfg.merged2);
      }
    case DramReturn(k, i) =>
      RemovalWithinLimits(st.slices[k].mshr, st.slices[k].dram[i].sector, cfg.entries2, cfg.merged2);
    case _ =>
  }

  lemma StepKeepsLimits(st: System, e: Event, cfg: Config)
    requires Enabled(st, e, cfg) && Limited(st, cfg)
    ensures Limited(Next(st, e, cfg), cfg)
  {
    hide Enabled, Next, Limited;
    if e.Create? || e.AccessL1? || e.Send? || e.Reply? || e.HitDone? {
      SmStepKeepsLimits(st, e, cfg);
    } else {
      SliceStepKeepsLimits(st, e, cfg);
    }
  }

  lemma {:induction false} RunKeepsLimits(st: System, es: seq<Event>, cfg: Config)
    requires Feasible(st, es, cfg) && Limited(st, cfg)
    ensures Limited(Run(st, es, cfg), cfg)
    decreases |es|
  {
    hide Enabled, Next, Limited;
    if es != [] {
      StepKeepsLimits(st, es[0], cfg);
      RunKeepsLimits(Next(st, es[0], cfg), es[1..], cfg);
    }
  }

  /** In every run no miss table grows beyond its entries, and no waiting list beyond its merge limit. */
  lemma TablesStayWithinLimits(cfg: Config, es: seq<Event>)
    requires Feasible(Init(cfg), es, cfg)
    ensures Limited(Run(Init(cfg), es, cfg), cfg)
  {
    RunKeepsLimits(Init(cfg), es, cfg);
  }

  /** L1 refuses exactly a load that misses, and whose sector has an entry at its merge limit, or has none in a table
      without room for one more. */
  lemma L1RefusesIff(c: Sm, bank: nat, hit: bool, cfg: Config)
    requires bank < |c.toL1| && c.toL1[bank] != []
    ensures var r := c.toL1[bank][0];
      L1Access(c, bank, hit, cfg) == c <==>
        r.kind == Load && !hit
        && if r.sector in c.mshr then |c.mshr[r.sector]| >= cfg.merged1 else |c.mshr| >= cfg.entries1
  {
    hide Merged;
    assert |Popped(c, bank).toL1[bank]| < |c.toL1[bank]|;
  }

  lemma L2RefusesIff(c: Slice, hit: bool, cfg: Config)
    requires c.arrived != []
    ensures var r := c.arrived[0];
      L2Access(c, hit, cfg) == c <==>
        r.kind == Load && !hit
        && if r.sector in c.mshr then |c.mshr[r.sector]| >= cfg.merged2 else |c.mshr| >= cfg.entries2
  {
    hide Merged;
    assert |c.arrived[1..]| < |c.arrived|;
  }

  // ------------------------------------------------------------------
  // Order
  // ------------------------------------------------------------------

  /** A first-in first-out queue in one step: at most its oldest entry leaves, at most one joins behind the others. */
  ghost predicate Fifo(q: seq<Request>, q': seq<Request>) {
    || (q <= q' && |q'| <= |q| + 1)
    || (q != [] && q[1..] <= q' && |q'| <= |q|)
  }

  /** Waiting lists grow at their end, or go as a whole. */
  ghost predicate ListsKept(t: Table, t': Table) {
    forall s | s in t && s in t' :: t[s] <= t'[s]
  }

  ghost predicate SmInOrder(c: Sm, d: Sm) {
    && |d.toL1| == |c.toL1| && (forall b | 0 <= b < |c.toL1| :: Fifo(c.toL1[b], d.toL1[b]))
    && Fifo(c.hits, d.hits) && Fifo(c.miss, d.miss) && ListsKept(c.mshr, d.mshr)
  }

  ghost predicate SliceInOrder(c: Slice, d: Slice) {
    Fifo(c.arrived, d.arrived) && Fifo(c.hits, d.hits) && ListsKept(c.mshr, d.mshr)
  }

  ghost predicate InOrder(st: System, t: System) {
    && |t.sms| == |st.sms| && |t.slices| == |st.slices|
    && (forall a | 0 <= a < |st.sms| :: SmInOrder(st.sms[a], t.sms[a]))
    && (forall k | 0 <= k < |st.slices| :: SliceInOrder(st.slices[k], t.slices[k]))
    && st.ledger.done <= t.ledger.done
  }

  lemma L1AccessInOrder(c: Sm, bank: nat, hit: bool, cfg: Config)
    requires bank < |c.toL1| && c.toL1[bank] != []
    ensures SmInOrder(c, L1Access(c, bank, hit, cfg))
  {
    hide TableFull;
  }

  lemma L2AccessInOrder(c: Slice, hit: bool, cfg: Config)
    requires c.arrived != []
    ensures SliceInOrder(c, L2Access(c, hit, cfg))
  {
    hide TableFull;
  }

  lemma {:induction false} WrittenInOrder(l: Ledger, q: seq<Request>)
    ensures l.done <= WriteBackAll(l, q).done
    decreases |q|
  {
    if q != [] { WrittenInOrder(WriteBack(l, q[0], true), q[1..]); }
  }

  lemma OneSmInOrder(st: System, t: System, a: nat, d: Sm)
    requires a < |st.sms| && t.sms == st.sms[a := d] && SmInOrder(st.sms[a], d)
    requires t.slices == st.slices && st.ledger.done <= t.ledger.done
    ensures InOrder(st, t)
  {
    forall b | 0 <= b < |st.sms| && b != a ensures SmInOrder(st.sms[b], t.sms[b]) {}
  }

  lemma OneSliceInOrder(st: System, t: System, k: nat, d: Slice)
    requires k < |st.slices| && t.slices == st.slices[k := d] && SliceInOrder(st.slices[k], d)
    requires t.sms == st.sms && t.ledger == st.ledger
    ensures InOrder(st, t)
  {
    forall j | 0 <= j < |st.slices| && j != k ensures SliceInOrder(st.slices[j], t.slices[j]) {}
  }

  lemma CreateInOrder(c: Sm, r: Request)
    requires r.bank < |c.toL1|
    ensures SmInOrder(c, c.(toL1 := c.toL1[r.bank := c.toL1[r.bank] + [r]]))
  {}

  lemma SmQueuesInOrder(c: Sm, s: nat)
    ensures c.miss != [] ==> SmInOrder(c, c.(miss := c.miss[1..]))
    ensures c.hits != [] ==> SmInOrder(c, c.(hits := c.hits[1..]))
    ensures SmInOrder(c, c.(mshr := c.mshr - {s}))
  {}

  lemma SliceQueuesInOrder(c: Slice, r: Request, s: nat, dram: seq<Request>)
    ensures SliceInOrder(c, c.(arrived := c.arrived + [r]))
    ensures c.hits != [] ==> SliceInOrder(c, c.(hits := c.hits[1..]))
    ensures SliceInOrder(c, c.(dram := dram, mshr := c.mshr - {s}))
  {}

  lemma SmStepInOrder(st: System, e: Event, cfg: Config)
    requires Enabled(st, e, cfg) && (e.Create? || e.AccessL1? || e.Send? || e.Reply? || e.HitDone?)
    ensures InOrder(st, Next(st, e, cfg))
  {
    hide L1Access, WriteBackAll, SmInOrder, InOrder;
    var t := Next(st, e, cfg);
    match e
    case Create(r) =>
      CreateInOrder(st.sms[r.sm], r);
      OneSmInOrder(st, t, r.sm, t.sms[r.sm]);
    case AccessL1(a, b, hit) =>
      L1AccessInOrder(st.sms[a], b, hit, cfg);
      OneSmInOrder(st, t, a, t.sms[a]);
    case Send(a) =>
      SmQueuesInOrder(st.sms[a], 0);
      OneSmInOrder(st, t, a, t.sms[a]);
    case Reply(i) =>
      var r := st.replies[i];
      SmQueuesInOrder(st.sms[r.sm], r.sector);
      WrittenInOrder(st.ledger, Waiting(st.sms[r.sm].mshr, r.sector));
      OneSmInOrder(st, t, r.sm, t.sms[r.sm]);
    case HitDone(a) =>
      SmQueuesInOrder(st.sms[a], 0);
      OneSmInOrder(st, t, a, t.sms[a]);
  }

  lemma SliceStepInOrder(st: System, e: Event, cfg: Config)
    requires Enabled(st, e, cfg) && (e.Arrive? || e.AccessL2? || e.AnswerHit? || e.DramReturn?)
    ensures InOrder(st, Next(st, e, cfg))
  {
    hide L2Access, Answered, SliceInOrder, InOrder, Without;
    var t := Next(st, e, cfg);
    var k := if e.Arrive? then cfg.home(st.requests[e.i].sector) else e.k;
    var c := st.slices[k];
    match e {
      case Arrive(i) => SliceQueuesInOrder(c, st.requests[i], 0, []);
      case AccessL2(_, hit) => L2AccessInOrder(c, hit, cfg);
      case AnswerHit(_) => SliceQueuesInOrder(c, c.hits[0], 0, []);
      case DramReturn(_, i) => SliceQueuesInOrder(c, c.dram[i], c.dram[i].sector, Without(c.dram, i));
    }
    OneSliceInOrder(st, t, k, t.slices[k]);
  }

  /** In every step the banks' queues, the miss queues, both kinds of hit queues, the arrivals and all waiting lists
      keep the order in which they were filled. */
  lemma StepKeepsOrder(st: System, e: Event, cfg: Config)
    requires Enabled(st, e, cfg)
    ensures InOrder(st, Next(st, e, cfg))
  {
    hide Enabled, Next, InOrder;
    if e.Create? || e.AccessL1? || e.Send? || e.Reply? || e.HitDone? {
      SmStepInOrder(st, e, cfg);
    } else {
      SliceStepInOrder(st, e, cfg);
    }
  }
}
