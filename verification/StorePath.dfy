/** The way of stores through L1, the request network and L2 to DRAM: where every copy of a store is. */
module StorePath {
  import opened Basics
  import opened Requests
  import opened MemoryReturn
  import opened MemoryProgress

  // ------------------------------------------------------------------
  // Counting the copies of a store
  // ------------------------------------------------------------------

  /** r is store o itself or its write-through copy; with `marked`, the copy. */
  predicate IsCopy(r: Request, o: Request, marked: bool) {
    r.kind != Load && r.(kind := Store) == o && (marked ==> r.kind == WriteThrough)
  }

  function One(r: Request, o: Request, marked: bool): nat { if IsCopy(r, o, marked) then 1 else 0 }

  function Copies(q: seq<Request>, o: Request, marked: bool): nat {
    if q == [] then 0 else One(q[0], o, marked) + Copies(q[1..], o, marked)
  }

  lemma {:induction false} CopiesConcat(a: seq<Request>, b: seq<Request>, o: Request, marked: bool)
    ensures Copies(a + b, o, marked) == Copies(a, o, marked) + Copies(b, o, marked)
  {
    if a == [] {
      assert a + b == b;
    } else {
      assert (a + b)[1..] == a[1..] + b;
      CopiesConcat(a[1..], b, o, marked);
    }
  }

  lemma CopiesPush(q: seq<Request>, r: Request, o: Request, marked: bool)
    ensures Copies(q + [r], o, marked) == Copies(q, o, marked) + One(r, o, marked)
  {
    CopiesConcat(q, [r], o, marked);
    assert [r][1..] == [];
  }

  lemma CopiesPop(q: seq<Request>, o: Request, marked: bool)
    requires q != []
    ensures Copies(q, o, marked) == One(q[0], o, marked) + Copies(q[1..], o, marked)
  {}

  lemma CopiesWithout(q: seq<Request>, i: nat, o: Request, marked: bool)
    requires i < |q|
    ensures Copies(q, o, marked) == Copies(Without(q, i), o, marked) + One(q[i], o, marked)
  {
    assert q == (q[..i] + [q[i]]) + q[i + 1..];
    CopiesConcat(q[..i] + [q[i]], q[i + 1..], o, marked);
    CopiesPush(q[..i], q[i], o, marked);
    CopiesConcat(q[..i], q[i + 1..], o, marked);
  }

  function InQueue(o: Request, marked: bool): seq<Request> -> nat { q => Copies(q, o, marked) }

  function SmCopies(c: Sm, o: Request, marked: bool): nat {
    SumOf(c.toL1, InQueue(o, marked)) + Copies(c.miss, o, marked)
  }

  function InSm(o: Request, marked: bool): Sm -> nat { c => SmCopies(c, o, marked) }

  function InArrivals(o: Request, marked: bool): Slice -> nat { (c: Slice) => Copies(c.arrived, o, marked) }

  function InDram(o: Request): Slice -> nat { (c: Slice) => Copies(c.dram, o, false) }

  /** Copies on the way from the load/store unit to L2. */
  function OnTheWay(st: System, o: Request, marked: bool): nat {
    SumOf(st.sms, InSm(o, marked)) + Copies(st.requests, o, marked) + SumOf(st.slices, InArrivals(o, marked))
  }

  /** Copies on the DRAM path. */
  function AtDram(st: System, o: Request): nat { SumOf(st.slices, InDram(o)) }

  // ------------------------------------------------------------------
  // What a step does to a store
  // ------------------------------------------------------------------

  function CreatedBy(e: Event, o: Request): nat {
    if e.Create? && e.r.kind != Load && e.r == o then 1 else 0
  }

  /** The step is a hit of store o in L1. */
  function HitBy(st: System, e: Event, o: Request, cfg: Config): nat
    requires Enabled(st, e, cfg)
  {
    if e.AccessL1? && e.hit then One(st.sms[e.sm].toL1[e.bank][0], o, false) else 0
  }

  /** L2 looks at a copy. */
  function SeenBy(st: System, e: Event, o: Request, marked: bool, cfg: Config): nat
    requires Enabled(st, e, cfg)
  {
    if e.AccessL2? then One(st.slices[e.k].arrived[0], o, marked) else 0
  }

  /** Store o itself, not a copy, misses in L2. */
  function MissedBy(st: System, e: Event, o: Request, cfg: Config): nat
    requires Enabled(st, e, cfg)
  {
    if e.AccessL2? && !e.hit && st.slices[e.k].arrived[0].kind == Store && st.slices[e.k].arrived[0] == o then 1 else 0
  }

  function ReturnedBy(st: System, e: Event, o: Request, cfg: Config): nat
    requires Enabled(st, e, cfg)
  {
    if e.DramReturn? then One(st.slices[e.k].dram[e.i], o, false) else 0
  }

  /** What units send is not marked. */
  ghost predicate Unmarked(st: System) {
    forall a, b, i | 0 <= a < |st.sms| && 0 <= b < |st.sms[a].toL1| && 0 <= i < |st.sms[a].toL1[b]| ::
      st.sms[a].toL1[b][i].kind != WriteThrough
  }

  /** A hit in L1 sends a marked copy down under write-through, and ends the way of the store under write-back. */
  function HitGain(marked: bool, cfg: Config): int {
    if marked then (if cfg.writeThrough then 1 else 0) else (if cfg.writeThrough then 0 else -1)
  }

  lemma CreateOnTheWay(st: System, e: Event, o: Request, marked: bool, cfg: Config)
    requires Enabled(st, e, cfg) && e.Create? && o.kind == Store
    ensures OnTheWay(Next(st, e, cfg), o, marked) == OnTheWay(st, o, marked) + if marked then 0 else CreatedBy(e, o)
  {
    hide SumOf, Copies;
    var (c, t) := (st.sms[e.r.sm], Next(st, e, cfg));
    CopiesPush(c.toL1[e.r.bank], e.r, o, marked);
    SumUpdate(c.toL1, e.r.bank, c.toL1[e.r.bank] + [e.r], InQueue(o, marked));
    SumUpdate(st.sms, e.r.sm, t.sms[e.r.sm], InSm(o, marked));
  }

  lemma AccessSmCopies(c: Sm, b: nat, hit: bool, o: Request, marked: bool, cfg: Config)
    requires b < |c.toL1| && c.toL1[b] != [] && c.toL1[b][0].kind != WriteThrough && o.kind == Store
    ensures SmCopies(L1Access(c, b, hit, cfg), o, marked)
         == SmCopies(c, o, marked) + if hit then One(c.toL1[b][0], o, false) * HitGain(marked, cfg) else 0
  {
    hide SumOf, Copies;
    var r := c.toL1[b][0];
    CopiesPop(c.toL1[b], o, marked);
    SumUpdate(c.toL1, b, c.toL1[b][1..], InQueue(o, marked));
    CopiesPush(c.miss, r, o, marked);
    CopiesPush(c.miss, r.(kind := WriteThrough), o, marked);
  }

  lemma AccessL1OnTheWay(st: System, e: Event, o: Request, marked: bool, cfg: Config)
    requires Enabled(st, e, cfg) && e.AccessL1? && Unmarked(st) && o.kind == Store
    ensures OnTheWay(Next(st, e, cfg), o, marked)
         == OnTheWay(st, o, marked) + HitBy(st, e, o, cfg) * HitGain(marked, cfg)
  {
    hide SumOf, Copies, L1Access, SmCopies;
    AccessSmCopies(st.sms[e.sm], e.bank, e.hit, o, marked, cfg);
    SumUpdate(st.sms, e.sm, L1Access(st.sms[e.sm], e.bank, e.hit, cfg), InSm(o, marked));
  }

  lemma TransferOnTheWay(st: System, e: Event, o: Request, marked: bool, cfg: Config)
    requires Enabled(st, e, cfg) && (e.Send? || e.Arrive?)
    ensures OnTheWay(Next(st, e, cfg), o, marked) == OnTheWay(st, o, marked)
  {
    hide SumOf, Copies;
    var t := Next(st, e, cfg);
    match e
    case Send(a) =>
      CopiesPop(st.sms[a].miss, o, marked);
      CopiesPush(st.requests, st.sms[a].miss[0], o, marked);
      SumUpdate(st.sms, a, t.sms[a], InSm(o, marked));
    case Arrive(i) =>
      var r := st.requests[i];
      var k := cfg.home(r.sector);
      CopiesWithout(st.requests, i, o, marked);
      CopiesPush(st.slices[k].arrived, r, o, marked);
      SumUpdate(st.slices, k, t.slices[k], InArrivals(o, marked));
  }

  lemma AccessL2OnTheWay(st: System, e: Event, o: Request, marked: bool, cfg: Config)
    requires Enabled(st, e, cfg) && e.AccessL2?
    ensures OnTheWay(Next(st, e, cfg), o, marked) + SeenBy(st, e, o, marked, cfg) == OnTheWay(st, o, marked)
  {
    hide SumOf, Copies;
    CopiesPop(st.slices[e.k].arrived, o, marked);
    SumUpdate(st.slices, e.k, Next(st, e, cfg).slices[e.k], InArrivals(o, marked));
  }

  lemma OtherOnTheWay(st: System, e: Event, o: Request, marked: bool, cfg: Config)
    requires Enabled(st, e, cfg) && (e.AnswerHit? || e.DramReturn? || e.Reply? || e.HitDone?)
    ensures OnTheWay(Next(st, e, cfg), o, marked) == OnTheWay(st, o, marked)
  {
    hide SumOf, Copies, Answered, WriteBack, WriteBackAll;
    var t := Next(st, e, cfg);
    match e
    case AnswerHit(k) => SumUpdate(st.slices, k, t.slices[k], InArrivals(o, marked));
    case DramReturn(k, _) => SumUpdate(st.slices, k, t.slices[k], InArrivals(o, marked));
    case Reply(i) =>
      var a := st.replies[i].sm;
      SumUpdate(st.sms, a, t.sms[a], InSm(o, marked));
    case HitDone(a) => SumUpdate(st.sms, a, t.sms[a], InSm(o, marked));
  }

  /** Every step: copies on the way change by what units create, by hits in L1, and by what L2 looks at. */
  lemma StepMovesStore(st: System, e: Event, o: Request, marked: bool, cfg: Config)
    requires Enabled(st, e, cfg) && Unmarked(st) && o.kind == Store
    ensures OnTheWay(Next(st, e, cfg), o, marked) + SeenBy(st, e, o, marked, cfg)
         == OnTheWay(st, o, marked) + (if marked then 0 else CreatedBy(e, o))
            + HitBy(st, e, o, cfg) * HitGain(marked, cfg)
  {
    hide OnTheWay, Next, One, HitGain;
    match e
    case Create(_) => CreateOnTheWay(st, e, o, marked, cfg);
    case AccessL1(_, _, _) => AccessL1OnTheWay(st, e, o, marked, cfg);
    case Send(_) => TransferOnTheWay(st, e, o, marked, cfg);
    case Arrive(_) => TransferOnTheWay(st, e, o, marked, cfg);
    case AccessL2(_, _) => AccessL2OnTheWay(st, e, o, marked, cfg);
    case _ => OtherOnTheWay(st, e, o, marked, cfg);
  }

  lemma StepKeepsUnmarked(st: System, e: Event, cfg: Config)
    requires Enabled(st, e, cfg) && Unmarked(st)
    ensures Unmarked(Next(st, e, cfg))
  {
    hide L2Access, Answered, WriteBack, WriteBackAll, TableFull, Merged;
  }

  lemma AccessDramCopies(c: Slice, hit: bool, o: Request, cfg: Config)
    requires c.arrived != [] && o.kind == Store
    ensures Copies(L2Access(c, hit, cfg).dram, o, false)
         == Copies(c.dram, o, false) + if !hit && c.arrived[0].kind == Store && c.arrived[0] == o then 1 else 0
  {
    hide Copies;
    CopiesPush(c.dram, c.arrived[0], o, false);
  }

  /** Every step: the DRAM path gains a store exactly when the store itself misses in L2, and loses what returns. */
  lemma StepMovesDram(st: System, e: Event, o: Request, cfg: Config)
    requires Enabled(st, e, cfg) && o.kind == Store
    ensures AtDram(Next(st, e, cfg), o) + ReturnedBy(st, e, o, cfg) == AtDram(st, o) + MissedBy(st, e, o, cfg)
  {
    hide SumOf, Copies, L1Access, L2Access, Answered, WriteBack, WriteBackAll, One;
    var t := Next(st, e, cfg);
    match e
    case AccessL2(k, hit) =>
      AccessDramCopies(st.slices[k], hit, o, cfg);
      SumUpdate(st.slices, k, t.slices[k], InDram(o));
    case DramReturn(k, i) =>
      CopiesWithout(st.slices[k].dram, i, o, false);
      SumUpdate(st.slices, k, t.slices[k], InDram(o));
    case AnswerHit(k) => SumUpdate(st.slices, k, t.slices[k], InDram(o));
    case Arrive(i) =>
      var k := cfg.home(st.requests[i].sector);
      SumUpdate(st.slices, k, t.slices[k], InDram(o));
    case _ =>
  }

  // ------------------------------------------------------------------
  // Runs
  // ------------------------------------------------------------------

  /** What happened to store o in a run. */
  datatype Story = Story(created: nat, hits: nat, seen: nat, copiesSeen: nat, missed: nat, returned: nat)

  function Told(st: System, es: seq<Event>, o: Request, cfg: Config): Story
    requires Feasible(st, es, cfg)
    decreases |es|
  {
    if es == [] then Story(0, 0, 0, 0, 0, 0)
    else
      var (e, rest) := (es[0], Told(Next(st, es[0], cfg), es[1..], o, cfg));
      Story(rest.created + CreatedBy(e, o), rest.hits + HitBy(st, e, o, cfg),
            rest.seen + SeenBy(st, e, o, false, cfg), rest.copiesSeen + SeenBy(st, e, o, true, cfg),
            rest.missed + MissedBy(st, e, o, cfg), rest.returned + ReturnedBy(st, e, o, cfg))
  }

  lemma {:induction false} RunMovesStore(st: System, es: seq<Event>, o: Request, cfg: Config)
    requires Feasible(st, es, cfg) && Unmarked(st) && o.kind == Store
    ensures var (t, s) := (Run(st, es, cfg), Told(st, es, o, cfg));
      && OnTheWay(t, o, false) + s.seen == OnTheWay(st, o, false) + s.created - (if cfg.writeThrough then 0 else s.hits)
      && OnTheWay(t, o, true) + s.copiesSeen == OnTheWay(st, o, true) + (if cfg.writeThrough then s.hits else 0)
      && AtDram(t, o) + s.returned == AtDram(st, o) + s.missed
    decreases |es|
  {
    hide OnTheWay, AtDram, Unmarked, Enabled, Next, CreatedBy, HitBy, SeenBy, MissedBy, ReturnedBy;
    if es != [] {
      StepMovesStore(st, es[0], o, false, cfg);
      StepMovesStore(st, es[0], o, true, cfg);
      StepMovesDram(st, es[0], o, cfg);
      StepKeepsUnmarked(st, es[0], cfg);
      RunMovesStore(Next(st, es[0], cfg), es[1..], o, cfg);
    }
  }

  lemma {:induction false} SumZero<T(!new)>(q: seq<T>, f: T -> nat)
    requires forall i :: 0 <= i < |q| ==> f(q[i]) == 0
    ensures SumOf(q, f) == 0
  {
    if q != [] { SumZero(q[1..], f); }
  }

  lemma NothingOnTheWay(cfg: Config, o: Request, marked: bool)
    ensures OnTheWay(Init(cfg), o, marked) == 0 && AtDram(Init(cfg), o) == 0 && Unmarked(Init(cfg))
  {
    var st := Init(cfg);
    forall a | 0 <= a < |st.sms| ensures InSm(o, marked)(st.sms[a]) == 0 {
      SumZero(st.sms[a].toL1, InQueue(o, marked));
    }
    SumZero(st.sms, InSm(o, marked));
    SumZero(st.slices, InArrivals(o, marked));
    SumZero(st.slices, InDram(o));
  }

  /** Over every run and for every store: under write-through each time it was created it is still on its way or has
      been looked at by L2; under write-back the hits in L1 come off. The marked copies that are on their way or have
      been looked at are its hits in L1 under write-through, and none under write-back. What DRAM holds of it or has
      returned is what missed in L2 as the store itself: hits and marked copies send nothing there. */
  lemma EveryStoreIsAccountedFor(cfg: Config, es: seq<Event>, o: Request)
    requires Feasible(Init(cfg), es, cfg) && o.kind == Store
    ensures var (t, s) := (Run(Init(cfg), es, cfg), Told(Init(cfg), es, o, cfg));
      && s.created == OnTheWay(t, o, false) + s.seen + (if cfg.writeThrough then 0 else s.hits)
      && (if cfg.writeThrough then s.hits else 0) == OnTheWay(t, o, true) + s.copiesSeen
      && s.missed == AtDram(t, o) + s.returned
  {
    hide Feasible, Run, OnTheWay, AtDram, Told, Unmarked;
    NothingOnTheWay(cfg, o, false);
    NothingOnTheWay(cfg, o, true);
    RunMovesStore(Init(cfg), es, o, cfg);
  }
}
