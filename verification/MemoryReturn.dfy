/** The way of a load from its SM to DRAM and back: L1 and L2 miss tables, the two networks, the reply drains. */
module MemoryReturn {
  import opened Basics
  import opened Requests
  import AddressDecode

  datatype Config = Config(
    sms: nat, slices: nat, banks: nat,
    home: nat -> nat,              // slice of a sector
    entries1: nat, merged1: nat,   // L1 miss table
    entries2: nat, merged2: nat,   // L2 miss table
    writeThrough: bool)            // policy LOCAL_WB_GLOBAL_WT, else WRITE_BACK

  ghost predicate Sane(cfg: Config) {
    forall s :: cfg.home(s) < cfg.slices
  }

  /** The simulator's own placement of sectors: two slices per memory channel. */
  function DecodedHome(channels: nat): nat -> nat
    requires channels > 0
  {
    s => AddressDecode.Slice(s, channels, 0)
  }

  lemma DecodedHomeIsSane(cfg: Config, channels: nat)
    requires channels > 0 && cfg.slices == 2 * channels && cfg.home == DecodedHome(channels)
    ensures Sane(cfg)
  {
    forall s ensures cfg.home(s) < cfg.slices { AddressDecode.SliceInRange(s, channels, 0); }
  }

  datatype Sm = Sm(
    toL1: seq<seq<Request>>,       // per bank
    hits: seq<Request>,            // L1 hits on their way back
    mshr: Table,
    miss: seq<Request>)            // miss queue

  datatype Slice = Slice(
    arrived: seq<Request>,
    mshr: Table,
    hits: seq<Request>,            // L2 hits on their way back
    dram: seq<Request>)            // sent to DRAM and not yet returned, in no particular order

  datatype Ledger = Ledger(
    done: seq<Request>,            // loads written back so far
    pending: map<Slot, int>,       // pending_request of every warp
    error: bool)                   // the "error!" exit was taken

  datatype System = System(
    sms: seq<Sm>,
    requests: seq<Request>,        // inside the request network
    slices: seq<Slice>,
    replies: seq<Request>,         // inside the reply network
    sent: seq<Request>,            // loads created so far
    ledger: Ledger)

  function Init(cfg: Config): System {
    System(seq(cfg.sms, _ => Sm(seq(cfg.banks, _ => []), [], map[], [])), [],
           seq(cfg.slices, _ => Slice([], map[], [], [])), [], [],
           Ledger([], map[], false))
  }

  function Pending(p: map<Slot, int>, slot: Slot): int { if slot in p then p[slot] else 0 }

  // ------------------------------------------------------------------
  // What each component does
  // ------------------------------------------------------------------

  function Popped(c: Sm, bank: nat): (p: Sm)
    requires bank < |c.toL1| && c.toL1[bank] != []
    ensures p.hits == c.hits && p.mshr == c.mshr && p.miss == c.miss
  {
    c.(toL1 := c.toL1[bank := c.toL1[bank][1..]])
  }

  /** L1 looks at the oldest request of a bank. `hit` is the tag array's answer. */
  function L1Access(c: Sm, bank: nat, hit: bool, cfg: Config): Sm
    requires bank < |c.toL1| && c.toL1[bank] != []
  {
    var r := c.toL1[bank][0];
    var popped := Popped(c, bank);
    if r.kind == Load then
      if hit then popped.(hits := c.hits + [r])
      else if TableFull(c.mshr, r.sector, cfg.entries1, cfg.merged1) then c
      else if r.sector in c.mshr then popped.(mshr := Merged(c.mshr, r.sector, r))
      else popped.(mshr := Merged(c.mshr, r.sector, r), miss := c.miss + [r])
    else
      if hit then
        if cfg.writeThrough then popped.(miss := c.miss + [r.(kind := WriteThrough)]) else popped
      else popped.(miss := c.miss + [r])
  }

  /** L2 looks at the oldest request that arrived. */
  function L2Access(c: Slice, hit: bool, cfg: Config): Slice
    requires c.arrived != []
  {
    var r := c.arrived[0];
    var popped := c.(arrived := c.arrived[1..]);
    if r.kind == Load then
      if hit then popped.(hits := c.hits + [r])
      else if TableFull(c.mshr, r.sector, cfg.entries2, cfg.merged2) then c
      else if r.sector in c.mshr then popped.(mshr := Merged(c.mshr, r.sector, r))
      else popped.(mshr := Merged(c.mshr, r.sector, r), dram := c.dram + [r])
    else if r.kind == Store && !hit then popped.(dram := c.dram + [r])
    else popped
  }

  /** A request comes back from DRAM: its sector's waiting loads are answered, or itself if none wait. */
  function Answered(c: Slice, r: Request): seq<Request> {
    if r.sector in c.mshr then NeedReply(c.mshr[r.sector]) else NeedReply([r])
  }

  /** One load is written back to its warp. `must` is set on the path that exits when nothing is pending. */
  function WriteBack(l: Ledger, r: Request, must: bool): Ledger {
    if Pending(l.pending, r.slot) > 0 then
      l.(pending := l.pending[r.slot := Pending(l.pending, r.slot) - 1], done := l.done + [r])
    else l.(error := l.error || must)
  }

  function WriteBackAll(l: Ledger, q: seq<Request>): Ledger
    decreases |q|
  {
    if q == [] then l else WriteBackAll(WriteBack(l, q[0], true), q[1..])
  }

  // ------------------------------------------------------------------
  // Steps
  // ------------------------------------------------------------------

  datatype Event =
    | Create(r: Request)                       // a load/store unit emits one sector request
    | AccessL1(sm: nat, bank: nat, hit: bool)
    | Send(sm: nat)                            // miss queue -> request network
    | Arrive(i: nat)                           // request network -> L2 slice
    | AccessL2(k: nat, hit: bool)
    | AnswerHit(k: nat)                        // L2 hit -> reply network
    | DramReturn(k: nat, i: nat)
    | Reply(i: nat)                            // reply network -> SM
    | HitDone(sm: nat)                         // L1 hit -> warp

  predicate Enabled(st: System, e: Event, cfg: Config) {
    match e
    case Create(r) => r.sm < |st.sms| && r.bank < |st.sms[r.sm].toL1| && r.kind != WriteThrough && r !in st.sent
    case AccessL1(a, b, _) => a < |st.sms| && b < |st.sms[a].toL1| && st.sms[a].toL1[b] != []
    case Send(a) => a < |st.sms| && st.sms[a].miss != []
    case Arrive(i) => i < |st.requests| && cfg.home(st.requests[i].sector) < |st.slices|
    case AccessL2(k, _) => k < |st.slices| && st.slices[k].arrived != []
    case AnswerHit(k) => k < |st.slices| && st.slices[k].hits != []
    case DramReturn(k, i) => k < |st.slices| && i < |st.slices[k].dram|
    case Reply(i) => i < |st.replies| && st.replies[i].sm < |st.sms|
    case HitDone(a) => a < |st.sms| && st.sms[a].hits != []
  }

  function Next(st: System, e: Event, cfg: Config): System
    requires Enabled(st, e, cfg)
  {
    match e
    case Create(r) =>
      var c := st.sms[r.sm];
      var st' := st.(sms := st.sms[r.sm := c.(toL1 := c.toL1[r.bank := c.toL1[r.bank] + [r]])]);
      if r.kind == Load then
        var p := st.ledger.pending;
        st'.(sent := st.sent + [r], ledger := st.ledger.(pending := p[r.slot := Pending(p, r.slot) + 1]))
      else st'
    case AccessL1(a, b, hit) => st.(sms := st.sms[a := L1Access(st.sms[a], b, hit, cfg)])
    case Send(a) =>
      var c := st.sms[a];
      st.(sms := st.sms[a := c.(miss := c.miss[1..])], requests := st.requests + [c.miss[0]])
    case Arrive(i) =>
      var r := st.requests[i];
      var k := cfg.home(r.sector);
      st.(requests := Without(st.requests, i),
          slices := st.slices[k := st.slices[k].(arrived := st.slices[k].arrived + [r])])
    case AccessL2(k, hit) => st.(slices := st.slices[k := L2Access(st.slices[k], hit, cfg)])
    case AnswerHit(k) =>
      var c := st.slices[k];
      st.(slices := st.slices[k := c.(hits := c.hits[1..])], replies := st.replies + [c.hits[0]])
    case DramReturn(k, i) =>
      var c := st.slices[k];
      var r := c.dram[i];
      st.(slices := st.slices[k := c.(dram := Without(c.dram, i), mshr := c.mshr - {r.sector})],
          replies := st.replies + Answered(c, r))
    case Reply(i) =>
      var r := st.replies[i];
      var c := st.sms[r.sm];
      st.(replies := Without(st.replies, i), sms := st.sms[r.sm := c.(mshr := c.mshr - {r.sector})],
          ledger := WriteBackAll(st.ledger, Waiting(c.mshr, r.sector)))
    case HitDone(a) =>
      var c := st.sms[a];
      st.(sms := st.sms[a := c.(hits := c.hits[1..])], ledger := WriteBack(st.ledger, c.hits[0], false))
  }

  // ------------------------------------------------------------------
  // Invariants
  // ------------------------------------------------------------------

  ghost predicate LoadsOf(q: seq<Request>, a: nat) {
    forall i :: 0 <= i < |q| ==> q[i].kind == Load && q[i].sm == a
  }

  ghost predicate GoodTable(t: Table) {
    forall s, i | s in t && 0 <= i < |t[s]| :: t[s][i].kind == Load && t[s][i].sector == s
  }

  ghost predicate InRange(q: seq<Request>, n: nat) {
    forall i :: 0 <= i < |q| ==> q[i].sm < n
  }

  ghost predicate GoodSm(c: Sm, a: nat, cfg: Config) {
    && |c.toL1| == cfg.banks
    && (forall b, i | 0 <= b < |c.toL1| && 0 <= i < |c.toL1[b]| :: c.toL1[b][i].sm == a && c.toL1[b][i].bank == b)
    && LoadsOf(c.hits, a)
    && GoodTable(c.mshr)
    && (forall s | s in c.mshr :: c.mshr[s] != [] && LoadsOf(c.mshr[s], a))
    && (forall i :: 0 <= i < |c.miss| ==> c.miss[i].sm == a)
  }

  ghost predicate AtHome(q: seq<Request>, k: nat, cfg: Config) {
    forall i :: 0 <= i < |q| ==> cfg.home(q[i].sector) == k && q[i].sm < cfg.sms
  }

  ghost predicate GoodSlice(c: Slice, k: nat, cfg: Config) {
    && AtHome(c.arrived, k, cfg) && AtHome(c.hits, k, cfg) && AtHome(c.dram, k, cfg)
    && (forall i :: 0 <= i < |c.hits| ==> c.hits[i].kind == Load)
    && GoodTable(c.mshr)
    && (forall s | s in c.mshr :: c.mshr[s] != [] && AtHome(c.mshr[s], k, cfg))
  }

  /** Every request is where its SM, bank and sector say. */
  ghost predicate Placed(st: System, cfg: Config) {
    && Sane(cfg)
    && |st.sms| == cfg.sms && |st.slices| == cfg.slices
    && (forall a | 0 <= a < |st.sms| :: GoodSm(st.sms[a], a, cfg))
    && (forall k | 0 <= k < |st.slices| :: GoodSlice(st.slices[k], k, cfg))
    && InRange(st.requests, cfg.sms) && InRange(st.replies, cfg.sms)
    && (forall i :: 0 <= i < |st.replies| ==> st.replies[i].kind == Load)
    && (forall i :: 0 <= i < |st.sent| ==>
          st.sent[i].kind == Load && st.sent[i].sm < cfg.sms && st.sent[i].bank < cfg.banks)
  }

  /** Messages that will make SM a drain sector s: the request on its way down, the entry of the L2 table it
      waits in, the reply on its way up. */
  ghost function InFlight(st: System, cfg: Config, a: nat, s: nat): nat
    requires Placed(st, cfg) && a < |st.sms|
  {
    var c, m := st.slices[cfg.home(s)], ForEntry(a, s);
    Count(st.sms[a].miss, m) + Count(st.requests, m) + Count(c.arrived, m) + Count(Waiting(c.mshr, s), m)
    + Count(c.hits, m) + Count(st.replies, m)
  }

  ghost function OnDramPath(st: System, cfg: Config, s: nat): nat
    requires Placed(st, cfg)
  {
    Count(st.slices[cfg.home(s)].dram, ForSector(s))
  }

  /** An entry is served by at least one message; with `exact`, by one, and there are no others. */
  predicate Served(entry: bool, n: nat, exact: bool) {
    && (entry ==> n >= 1)
    && (exact ==> n == if entry then 1 else 0)
  }

  ghost predicate Served1(st: System, cfg: Config, exact: bool)
    requires Placed(st, cfg)
  {
    forall a, s | 0 <= a < |st.sms| && 0 <= s :: Served(s in st.sms[a].mshr, InFlight(st, cfg, a, s), exact)
  }

  ghost predicate Served2(st: System, cfg: Config, exact: bool)
    requires Placed(st, cfg)
  {
    forall s: nat :: Served(s in st.slices[cfg.home(s)].mshr, OnDramPath(st, cfg, s), exact)
  }

  /** Copies of load r that SM state c still holds. */
  ghost function Held(c: Sm, r: Request): nat {
    (if r.bank < |c.toL1| then multiset(c.toL1[r.bank])[r] else 0) + multiset(c.hits)[r]
    + multiset(Waiting(c.mshr, r.sector))[r]
  }

  /** Every load created is held by its SM or written back, and nothing is there twice. */
  ghost predicate Conserved(st: System, cfg: Config)
    requires Placed(st, cfg)
  {
    && (forall i :: 0 <= i < |st.ledger.done| ==> st.ledger.done[i].kind == Load && st.ledger.done[i].sm < cfg.sms)
    && (forall r: Request | r.kind == Load && r.sm < cfg.sms ::
        multiset(st.sent)[r] == Held(st.sms[r.sm], r) + multiset(st.ledger.done)[r] <= 1)
  }

  /** pending_request counts the loads of each instruction not yet written back. */
  ghost predicate PendingCounts(sent: seq<Request>, l: Ledger) {
    && !l.error
    && forall slot :: Pending(l.pending, slot) == Count(sent, ForSlot(slot)) - Count(l.done, ForSlot(slot))
  }

  // ------------------------------------------------------------------
  // Requests stay where they belong
  // ------------------------------------------------------------------

  lemma L1AccessPlaced(c: Sm, a: nat, bank: nat, hit: bool, cfg: Config)
    requires GoodSm(c, a, cfg) && bank < |c.toL1| && c.toL1[bank] != []
    ensures GoodSm(L1Access(c, bank, hit, cfg), a, cfg)
  {}

  lemma L2AccessPlaced(c: Slice, k: nat, hit: bool, cfg: Config)
    requires GoodSlice(c, k, cfg) && c.arrived != []
    ensures GoodSlice(L2Access(c, hit, cfg), k, cfg)
  {}

  lemma DramReturnPlaced(c: Slice, k: nat, i: nat, cfg: Config)
    requires GoodSlice(c, k, cfg) && i < |c.dram|
    ensures GoodSlice(c.(dram := Without(c.dram, i), mshr := c.mshr - {c.dram[i].sector}), k, cfg)
    ensures InRange(Answered(c, c.dram[i]), cfg.sms)
    ensures forall j :: 0 <= j < |Answered(c, c.dram[i])| ==> Answered(c, c.dram[i])[j].kind == Load
    ensures Answered(c, c.dram[i])
         == if c.dram[i].sector in c.mshr then c.mshr[c.dram[i].sector]
            else if c.dram[i].kind == Load then [c.dram[i]] else []
  {
    var r := c.dram[i];
    if r.sector in c.mshr {
      LoadsNeedReply(c.mshr[r.sector]);
    } else {
      assert NeedReply([r][1..]) == [];
    }
  }

  lemma CreatePlaced(c: Sm, a: nat, r: Request, cfg: Config)
    requires GoodSm(c, a, cfg) && r.sm == a && r.bank < |c.toL1|
    ensures GoodSm(c.(toL1 := c.toL1[r.bank := c.toL1[r.bank] + [r]]), a, cfg)
    ensures r.bank < cfg.banks
  {}

  lemma SendPlaced(c: Sm, a: nat, cfg: Config)
    requires GoodSm(c, a, cfg) && c.miss != []
    ensures GoodSm(c.(miss := c.miss[1..]), a, cfg) && c.miss[0].sm == a
  {}

  lemma DrainPlaced(c: Sm, a: nat, s: nat, cfg: Config)
    requires GoodSm(c, a, cfg)
    ensures GoodSm(c.(mshr := c.mshr - {s}), a, cfg)
  {}

  lemma HitDonePlaced(c: Sm, a: nat, cfg: Config)
    requires GoodSm(c, a, cfg) && c.hits != []
    ensures GoodSm(c.(hits := c.hits[1..]), a, cfg)
  {}

  lemma ArrivePlaced(c: Slice, k: nat, r: Request, cfg: Config)
    requires GoodSlice(c, k, cfg) && r.sm < cfg.sms && cfg.home(r.sector) == k
    ensures GoodSlice(c.(arrived := c.arrived + [r]), k, cfg)
  {}

  lemma AnswerHitPlaced(c: Slice, k: nat, cfg: Config)
    requires GoodSlice(c, k, cfg) && c.hits != []
    ensures GoodSlice(c.(hits := c.hits[1..]), k, cfg) && c.hits[0].sm < cfg.sms && c.hits[0].kind == Load
  {}

  /** Steps that change one SM. */
  lemma SmStepKeepsPlaced(st: System, e: Event, cfg: Config)
    requires Placed(st, cfg) && Enabled(st, e, cfg)
    requires e.Create? || e.AccessL1? || e.Send? || e.Reply? || e.HitDone?
    ensures Placed(Next(st, e, cfg), cfg)
  {
    hide GoodSm, GoodSlice, L1Access, WriteBackAll, WriteBack, Waiting;
    match e
    case Create(r) => CreatePlaced(st.sms[r.sm], r.sm, r, cfg);
    case AccessL1(a, b, hit) => L1AccessPlaced(st.sms[a], a, b, hit, cfg);
    case Send(a) => SendPlaced(st.sms[a], a, cfg);
    case Reply(i) => DrainPlaced(st.sms[st.replies[i].sm], st.replies[i].sm, st.replies[i].sector, cfg);
    case HitDone(a) => HitDonePlaced(st.sms[a], a, cfg);
  }

  /** Steps that change one slice. */
  lemma SliceStepKeepsPlaced(st: System, e: Event, cfg: Config)
    requires Placed(st, cfg) && Enabled(st, e, cfg)
    requires e.Arrive? || e.AccessL2? || e.AnswerHit? || e.DramReturn?
    ensures Placed(Next(st, e, cfg), cfg)
  {
    hide GoodSm, GoodSlice, L2Access, Answered;
    match e
    case Arrive(i) =>
      var k := cfg.home(st.requests[i].sector);
      ArrivePlaced(st.slices[k], k, st.requests[i], cfg);
    case AccessL2(k, hit) => L2AccessPlaced(st.slices[k], k, hit, cfg);
    case AnswerHit(k) => AnswerHitPlaced(st.slices[k], k, cfg);
    case DramReturn(k, i) => DramReturnPlaced(st.slices[k], k, i, cfg);
  }

  lemma StepKeepsPlaced(st: System, e: Event, cfg: Config)
    requires Placed(st, cfg) && Enabled(st, e, cfg)
    ensures Placed(Next(st, e, cfg), cfg)
  {
    hide Placed, Enabled, Next;
    if e.Create? || e.AccessL1? || e.Send? || e.Reply? || e.HitDone? {
      SmStepKeepsPlaced(st, e, cfg);
    } else {
      SliceStepKeepsPlaced(st, e, cfg);
    }
  }

  // ------------------------------------------------------------------
  // No load is lost, none is written back twice, the error exit is never taken
  // ------------------------------------------------------------------

  /** A load that was created and not yet written back still has its count in pending_request. */
  lemma WriteBackDone(sent: seq<Request>, l: Ledger, r: Request, must: bool)
    requires PendingCounts(sent, l) && r.kind == Load
    requires multiset(l.done + [r]) <= multiset(sent)
    ensures var t := WriteBack(l, r, must); t.done == l.done + [r] && PendingCounts(sent, t)
  {
    CountContained(l.done + [r], sent, ForSlot(r.slot));
    CountsOfPush(l.done, r);
    assert Pending(l.pending, r.slot) > 0;
  }

  lemma {:induction false} WriteBackAllDone(sent: seq<Request>, l: Ledger, q: seq<Request>)
    requires PendingCounts(sent, l)
    requires forall i :: 0 <= i < |q| ==> q[i].kind == Load
    requires multiset(l.done + q) <= multiset(sent)
    ensures var t := WriteBackAll(l, q); t.done == l.done + q && PendingCounts(sent, t)
    decreases |q|
  {
    hide PendingCounts, WriteBack;
    if q == [] {
      assert l.done + q == l.done;
    } else {
      var t := WriteBack(l, q[0], true);
      assert l.done + q == (l.done + [q[0]]) + q[1..];
      assert multiset(l.done + [q[0]]) <= multiset((l.done + [q[0]]) + q[1..]);
      WriteBackDone(sent, l, q[0], true);
      WriteBackAllDone(sent, t, q[1..]);
      assert WriteBackAll(l, q) == WriteBackAll(t, q[1..]);
    }
  }

  lemma HeadPlaced(c: Sm, a: nat, bank: nat, cfg: Config)
    requires GoodSm(c, a, cfg) && bank < |c.toL1| && c.toL1[bank] != []
    ensures c.toL1[bank][0].sm == a && c.toL1[bank][0].bank == bank
  {}

  lemma PoppedHolds(c: Sm, bank: nat, r: Request)
    requires bank < |c.toL1| && c.toL1[bank] != [] && c.toL1[bank][0].bank == bank
    ensures Held(c, r) == Held(Popped(c, bank), r) + if r == c.toL1[bank][0] then 1 else 0
  {
    assert c.toL1[bank] == [c.toL1[bank][0]] + c.toL1[bank][1..];
  }

  lemma MergedHolds(c: Sm, h: Request, r: Request)
    ensures Held(c.(mshr := Merged(c.mshr, h.sector, h)), r) == Held(c, r) + if r == h then 1 else 0
    ensures Held(c.(hits := c.hits + [h]), r) == Held(c, r) + if r == h then 1 else 0
  {}

  lemma MissHolds(c: Sm, q: seq<Request>, r: Request)
    ensures Held(c.(miss := q), r) == Held(c, r)
  {}

  lemma L1AccessHolds(c: Sm, a: nat, bank: nat, hit: bool, cfg: Config, r: Request)
    requires GoodSm(c, a, cfg) && bank < |c.toL1| && c.toL1[bank] != [] && r.kind == Load
    ensures Held(L1Access(c, bank, hit, cfg), r) == Held(c, r)
  {
    hide GoodSm, TableFull, Held, Popped, Merged;
    HeadPlaced(c, a, bank, cfg);
    PoppedHolds(c, bank, r);
    var h, popped := c.toL1[bank][0], Popped(c, bank);
    MergedHolds(popped, h, r);
    MissHolds(popped, c.miss + [h], r);
    MissHolds(popped, c.miss + [h.(kind := WriteThrough)], r);
    MissHolds(popped.(mshr := Merged(c.mshr, h.sector, h)), c.miss + [h], r);
  }

  lemma CreateHolds(c: Sm, b: Request, r: Request)
    requires b.bank < |c.toL1|
    ensures Held(c.(toL1 := c.toL1[b.bank := c.toL1[b.bank] + [b]]), r) == Held(c, r) + if r == b then 1 else 0
  {}

  lemma HitDoneHolds(c: Sm, r: Request)
    requires c.hits != []
    ensures Held(c, r) == Held(c.(hits := c.hits[1..]), r) + if r == c.hits[0] then 1 else 0
  {
    assert c.hits == [c.hits[0]] + c.hits[1..];
  }

  /** What an SM is about to write back, it holds. */
  lemma DrainContained(st: System, cfg: Config, a: nat, q: seq<Request>)
    requires Placed(st, cfg) && Conserved(st, cfg) && a < |st.sms| && LoadsOf(q, a)
    requires forall r | r in q :: multiset(q)[r] <= Held(st.sms[a], r)
    ensures multiset(st.ledger.done + q) <= multiset(st.sent)
  {
    hide Held, GoodSm, GoodSlice;
    forall r ensures multiset(st.ledger.done + q)[r] <= multiset(st.sent)[r] {
      assert r in multiset(q) ==> r in q;
      assert r in multiset(st.ledger.done) ==> r in st.ledger.done;
    }
  }

  lemma DrainHeld(c: Sm, a: nat, s: nat, cfg: Config, r: Request)
    requires GoodSm(c, a, cfg)
    ensures Held(c, r) == Held(c.(mshr := c.mshr - {s}), r) + multiset(Waiting(c.mshr, s))[r]
    ensures LoadsOf(Waiting(c.mshr, s), a)
  {
    if r in multiset(Waiting(c.mshr, s)) {
      assert r in Waiting(c.mshr, s);
      assert r.sector == s;
    }
  }

  /** SM a hands q over to the warps. */
  lemma HandOver(st: System, u: System, cfg: Config, a: nat, q: seq<Request>)
    requires Placed(st, cfg) && Conserved(st, cfg) && Placed(u, cfg) && a < |st.sms| && LoadsOf(q, a)
    requires u.sent == st.sent && u.ledger.done == st.ledger.done + q && u.sms == st.sms[a := u.sms[a]]
    requires forall r :: Held(st.sms[a], r) == Held(u.sms[a], r) + multiset(q)[r]
    ensures Conserved(u, cfg)
  {
    hide Held, GoodSm, GoodSlice, Placed;
    assert |st.sms| == cfg.sms by { PlacedShape(st, cfg); }
    forall r: Request | r.kind == Load && r.sm < cfg.sms
      ensures multiset(u.sent)[r] == Held(u.sms[r.sm], r) + multiset(u.ledger.done)[r] <= 1
    {
      NoneOfOthers(q, a, r);
    }
  }

  lemma PlacedShape(st: System, cfg: Config)
    requires Placed(st, cfg)
    ensures |st.sms| == cfg.sms && |st.slices| == cfg.slices
  {}

  lemma NoneOfOthers(q: seq<Request>, a: nat, r: Request)
    requires LoadsOf(q, a)
    ensures r.sm != a ==> multiset(q)[r] == 0
  {
    assert r in multiset(q) ==> r in q;
  }

  lemma ReplyConserved(st: System, i: nat, cfg: Config)
    requires Placed(st, cfg) && Conserved(st, cfg) && PendingCounts(st.sent, st.ledger) && Enabled(st, Reply(i), cfg)
    ensures var t := Next(st, Reply(i), cfg); Placed(t, cfg) && Conserved(t, cfg) && PendingCounts(t.sent, t.ledger)
    ensures Next(st, Reply(i), cfg).ledger.done
         == st.ledger.done + Waiting(st.sms[st.replies[i].sm].mshr, st.replies[i].sector)
  {
    hide Held, GoodSm, GoodSlice, PendingCounts, WriteBackAll, Conserved;
    StepKeepsPlaced(st, Reply(i), cfg);
    var a, s := st.replies[i].sm, st.replies[i].sector;
    var c := st.sms[a];
    var q := Waiting(c.mshr, s);
    forall r ensures Held(c, r) == Held(c.(mshr := c.mshr - {s}), r) + multiset(q)[r] && LoadsOf(q, a) {
      DrainHeld(c, a, s, cfg, r);
    }
    DrainContained(st, cfg, a, q);
    WriteBackAllDone(st.sent, st.ledger, q);
    HandOver(st, Next(st, Reply(i), cfg), cfg, a, q);
  }

  lemma HitDoneConserved(st: System, a: nat, cfg: Config)
    requires Placed(st, cfg) && Conserved(st, cfg) && PendingCounts(st.sent, st.ledger) && Enabled(st, HitDone(a), cfg)
    ensures var t := Next(st, HitDone(a), cfg); Placed(t, cfg) && Conserved(t, cfg) && PendingCounts(t.sent, t.ledger)
    ensures Next(st, HitDone(a), cfg).ledger.done == st.ledger.done + [st.sms[a].hits[0]]
  {
    hide Held, GoodSm, GoodSlice, PendingCounts, WriteBack, Conserved;
    StepKeepsPlaced(st, HitDone(a), cfg);
    var c := st.sms[a];
    var h := c.hits[0];
    HitIsLoad(c, a, cfg);
    forall r ensures Held(c, r) == Held(c.(hits := c.hits[1..]), r) + if r == h then 1 else 0 { HitDoneHolds(c, r); }
    DrainContained(st, cfg, a, [h]);
    WriteBackDone(st.sent, st.ledger, h, false);
    HandOver(st, Next(st, HitDone(a), cfg), cfg, a, [h]);
  }

  lemma HitIsLoad(c: Sm, a: nat, cfg: Config)
    requires GoodSm(c, a, cfg) && c.hits != []
    ensures LoadsOf([c.hits[0]], a)
  {}

  lemma CreateCounts(st: System, r: Request, cfg: Config)
    requires PendingCounts(st.sent, st.ledger) && Enabled(st, Create(r), cfg)
    ensures PendingCounts(Next(st, Create(r), cfg).sent, Next(st, Create(r), cfg).ledger)
  {
    CountsOfPush(st.sent, r);
  }

  lemma CreateConserved(st: System, r: Request, cfg: Config)
    requires Placed(st, cfg) && Conserved(st, cfg) && Enabled(st, Create(r), cfg)
    ensures var t := Next(st, Create(r), cfg); Placed(t, cfg) && Conserved(t, cfg)
  {
    hide Held, Placed;
    StepKeepsPlaced(st, Create(r), cfg);
    PlacedShape(st, cfg);
    PlacedShape(Next(st, Create(r), cfg), cfg);
    forall x { CreateHolds(st.sms[r.sm], r, x); }
    assert r !in multiset(st.sent);
  }

  /** A step that leaves everything an SM holds and everything counted as it was. */
  lemma SameConserved(st: System, u: System, cfg: Config)
    requires Placed(st, cfg) && Conserved(st, cfg) && PendingCounts(st.sent, st.ledger) && Placed(u, cfg)
    requires u.sent == st.sent && u.ledger == st.ledger
    requires forall a, r: Request | 0 <= a < |st.sms| && r.kind == Load :: Held(u.sms[a], r) == Held(st.sms[a], r)
    ensures Conserved(u, cfg) && PendingCounts(u.sent, u.ledger)
  {
    hide Held, GoodSm, GoodSlice;
  }

  lemma StepKeepsConserved(st: System, e: Event, cfg: Config)
    requires Placed(st, cfg) && Conserved(st, cfg) && PendingCounts(st.sent, st.ledger) && Enabled(st, e, cfg)
    ensures var t := Next(st, e, cfg); Placed(t, cfg) && Conserved(t, cfg) && PendingCounts(t.sent, t.ledger)
  {
    hide GoodSm, GoodSlice, L1Access, L2Access, Answered, Conserved, PendingCounts, WriteBack, WriteBackAll;
    StepKeepsPlaced(st, e, cfg);
    match e
    case Create(r) =>
      CreateConserved(st, r, cfg);
      CreateCounts(st, r, cfg);
    case Reply(i) => ReplyConserved(st, i, cfg);
    case HitDone(a) => HitDoneConserved(st, a, cfg);
    case AccessL1(a, b, hit) =>
      forall r: Request | r.kind == Load { L1AccessHolds(st.sms[a], a, b, hit, cfg, r); }
      SameConserved(st, Next(st, e, cfg), cfg);
    case _ => SameConserved(st, Next(st, e, cfg), cfg);
  }

  // ------------------------------------------------------------------
  // Every entry is served
  // ------------------------------------------------------------------

  /** L1 sends a load down exactly when it opens an entry. */
  lemma L1AccessSends(c: Sm, a: nat, bank: nat, hit: bool, cfg: Config, x: nat, s: nat)
    requires GoodSm(c, a, cfg) && bank < |c.toL1| && c.toL1[bank] != []
    ensures var d, m := L1Access(c, bank, hit, cfg), ForEntry(x, s);
      && (s in c.mshr ==> s in d.mshr)
      && Count(d.miss, m) == Count(c.miss, m) + if x == a && s in d.mshr && s !in c.mshr then 1 else 0
  {
    hide GoodSm, TableFull, Popped, Waiting, Count;
    HeadPlaced(c, a, bank, cfg);
    var h := c.toL1[bank][0];
    CountsOfPush(c.miss, h);
    CountsOfPush(c.miss, h.(kind := WriteThrough));
  }

  /** L2 moves a load along, and sends it to DRAM exactly when it opens an entry. */
  lemma L2AccessMoves(c: Slice, hit: bool, cfg: Config, x: nat, s: nat)
    requires c.arrived != []
    ensures var d, m := L2Access(c, hit, cfg), ForEntry(x, s);
      Count(d.arrived, m) + Count(Waiting(d.mshr, s), m) + Count(d.hits, m)
      == Count(c.arrived, m) + Count(Waiting(c.mshr, s), m) + Count(c.hits, m)
  {
    hide TableFull, Count;
    var h, m := c.arrived[0], ForEntry(x, s);
    assert Count(c.arrived, m) == One(h, m) + Count(c.arrived[1..], m) by { CountFirst(c.arrived, m); }
    CountsOfPush(c.hits, h);
    CountsOfPush(Waiting(c.mshr, h.sector), h);
  }

  lemma CountFirst(q: seq<Request>, m: Pattern)
    requires q != []
    ensures Count(q, m) == One(q[0], m) + Count(q[1..], m)
  {}

  lemma L2AccessSends(c: Slice, hit: bool, cfg: Config, s: nat)
    requires c.arrived != []
    ensures var d, m := L2Access(c, hit, cfg), ForSector(s);
      && (s in c.mshr ==> s in d.mshr)
      && Count(d.dram, m) == Count(c.dram, m) + if s in d.mshr && s !in c.mshr then 1 else 0
  {
    hide TableFull, Count, Waiting;
    CountsOfPush(c.dram, c.arrived[0]);
  }

  /** A step that does not open or close entries, nor change the number of messages. */
  lemma SameServed(st: System, u: System, cfg: Config, exact: bool)
    requires Placed(st, cfg) && Placed(u, cfg) && Served1(st, cfg, exact) && Served2(st, cfg, exact)
    requires forall a | 0 <= a < |st.sms| :: u.sms[a].mshr == st.sms[a].mshr
    requires forall a, s | 0 <= a < |st.sms| && 0 <= s :: InFlight(u, cfg, a, s) == InFlight(st, cfg, a, s)
    requires forall k | 0 <= k < |st.slices| ::
      u.slices[k].mshr == st.slices[k].mshr && u.slices[k].dram == st.slices[k].dram
    ensures Served1(u, cfg, exact) && Served2(u, cfg, exact)
  {
    hide GoodSm, GoodSlice, InFlight;
    forall s: nat ensures Served(s in u.slices[cfg.home(s)].mshr, OnDramPath(u, cfg, s), exact) {
      assert OnDramPath(u, cfg, s) == OnDramPath(st, cfg, s);
    }
  }

  lemma AccessL1Served(st: System, a: nat, b: nat, hit: bool, cfg: Config, exact: bool)
    requires Placed(st, cfg) && Served1(st, cfg, exact) && Served2(st, cfg, exact)
    requires Enabled(st, AccessL1(a, b, hit), cfg) && Placed(Next(st, AccessL1(a, b, hit), cfg), cfg)
    ensures var t := Next(st, AccessL1(a, b, hit), cfg); Served1(t, cfg, exact) && Served2(t, cfg, exact)
  {
    hide GoodSm, GoodSlice, L1Access, Count;
    var t := Next(st, AccessL1(a, b, hit), cfg);
    forall x, s | 0 <= x < |t.sms| && 0 <= s
      ensures Served(s in t.sms[x].mshr, InFlight(t, cfg, x, s), exact)
    {
      assert GoodSm(st.sms[a], a, cfg);
      L1AccessSends(st.sms[a], a, b, hit, cfg, x, s);
      assert Served(s in st.sms[x].mshr, InFlight(st, cfg, x, s), exact);
    }
    forall s: nat ensures Served(s in t.slices[cfg.home(s)].mshr, OnDramPath(t, cfg, s), exact) {
      assert OnDramPath(t, cfg, s) == OnDramPath(st, cfg, s);
    }
  }

  lemma AccessL2Served(st: System, k: nat, hit: bool, cfg: Config, exact: bool)
    requires Placed(st, cfg) && Served1(st, cfg, exact) && Served2(st, cfg, exact)
    requires Enabled(st, AccessL2(k, hit), cfg) && Placed(Next(st, AccessL2(k, hit), cfg), cfg)
    ensures var t := Next(st, AccessL2(k, hit), cfg); Served1(t, cfg, exact) && Served2(t, cfg, exact)
  {
    hide GoodSm, GoodSlice, L2Access, Count, Waiting;
    var t := Next(st, AccessL2(k, hit), cfg);
    forall x, s | 0 <= x < |t.sms| && 0 <= s
      ensures Served(s in t.sms[x].mshr, InFlight(t, cfg, x, s), exact)
    {
      L2AccessMoves(st.slices[k], hit, cfg, x, s);
      assert Served(s in st.sms[x].mshr, InFlight(st, cfg, x, s), exact);
    }
    forall s: nat ensures Served(s in t.slices[cfg.home(s)].mshr, OnDramPath(t, cfg, s), exact) {
      L2AccessSends(st.slices[k], hit, cfg, s);
      assert Served(s in st.slices[cfg.home(s)].mshr, OnDramPath(st, cfg, s), exact);
    }
  }

  /** A store comes back from DRAM to a sector that loads are waiting for. */
  predicate Steals(st: System, e: Event, cfg: Config)
    requires Enabled(st, e, cfg)
  {
    e.DramReturn? && st.slices[e.k].dram[e.i].kind != Load && st.slices[e.k].dram[e.i].sector in st.slices[e.k].mshr
  }

  lemma DramReturnServed(st: System, k: nat, i: nat, cfg: Config, exact: bool)
    requires Placed(st, cfg) && Served1(st, cfg, exact) && Served2(st, cfg, exact)
    requires Enabled(st, DramReturn(k, i), cfg) && Placed(Next(st, DramReturn(k, i), cfg), cfg)
    requires exact ==> !Steals(st, DramReturn(k, i), cfg)
    ensures var t := Next(st, DramReturn(k, i), cfg); Served1(t, cfg, exact) && Served2(t, cfg, exact)
  {
    hide GoodSm, GoodSlice, Count, Answered;
    var t := Next(st, DramReturn(k, i), cfg);
    var c := st.slices[k];
    var r := c.dram[i];
    assert GoodSlice(c, k, cfg);
    DramReturnPlaced(c, k, i, cfg);
    ReturnIsHome(c, k, i, cfg);
    CountsOfWithout(c.dram, i);
    CountsOfConcat(st.replies, Answered(c, r));
    assert Served(r.sector in c.mshr, OnDramPath(st, cfg, r.sector), exact);
    assert exact && r.kind == Load ==> r.sector in c.mshr;
    forall x, s | 0 <= x < |t.sms| && 0 <= s
      ensures Served(s in t.sms[x].mshr, InFlight(t, cfg, x, s), exact)
    {
      CountOfAnswer(c, k, i, cfg, x, s);
      assert Served(s in st.sms[x].mshr, InFlight(st, cfg, x, s), exact);
    }
    forall s: nat ensures Served(s in t.slices[cfg.home(s)].mshr, OnDramPath(t, cfg, s), exact) {
      assert Served(s in st.slices[cfg.home(s)].mshr, OnDramPath(st, cfg, s), exact);
    }
  }

  lemma ReturnIsHome(c: Slice, k: nat, i: nat, cfg: Config)
    requires GoodSlice(c, k, cfg) && i < |c.dram|
    ensures cfg.home(c.dram[i].sector) == k
  {}

  /** What the answers add for one SM and sector: what waited for that sector, or the load itself. */
  lemma CountOfAnswer(c: Slice, k: nat, i: nat, cfg: Config, x: nat, s: nat)
    requires GoodSlice(c, k, cfg) && i < |c.dram|
    ensures var r, m := c.dram[i], ForEntry(x, s);
      && Count([], m) == 0
      && Count(Answered(c, r), m)
         == if r.sector in c.mshr then (if s == r.sector then Count(c.mshr[s], m) else 0) else One(r, m)
  {
    var r, m := c.dram[i], ForEntry(x, s);
    DramReturnPlaced(c, k, i, cfg);
    if r.sector in c.mshr && s != r.sector {
      CountAll(c.mshr[r.sector], m, false);
    }
    assert Count([], m) == 0;
  }

  lemma ReplyServed(st: System, i: nat, cfg: Config, exact: bool)
    requires Placed(st, cfg) && Served1(st, cfg, exact) && Served2(st, cfg, exact)
    requires Enabled(st, Reply(i), cfg) && Placed(Next(st, Reply(i), cfg), cfg)
    ensures var t := Next(st, Reply(i), cfg); Served1(t, cfg, exact) && Served2(t, cfg, exact)
  {
    hide GoodSm, GoodSlice, Count, WriteBackAll, Waiting;
    var t := Next(st, Reply(i), cfg);
    var r := st.replies[i];
    CountsOfWithout(st.replies, i);
    forall x, s | 0 <= x < |t.sms| && 0 <= s
      ensures Served(s in t.sms[x].mshr, InFlight(t, cfg, x, s), exact)
    {
      assert Served(s in st.sms[x].mshr, InFlight(st, cfg, x, s), exact);
    }
    forall s: nat ensures Served(s in t.slices[cfg.home(s)].mshr, OnDramPath(t, cfg, s), exact) {
      assert OnDramPath(t, cfg, s) == OnDramPath(st, cfg, s);
    }
  }

  lemma TransferServed(st: System, e: Event, cfg: Config, exact: bool)
    requires Placed(st, cfg) && Served1(st, cfg, exact) && Served2(st, cfg, exact)
    requires e.Send? || e.Arrive? || e.AnswerHit?
    requires Enabled(st, e, cfg) && Placed(Next(st, e, cfg), cfg)
    ensures var t := Next(st, e, cfg); Served1(t, cfg, exact) && Served2(t, cfg, exact)
  {
    hide GoodSm, GoodSlice, Count, Waiting;
    var t := Next(st, e, cfg);
    forall a, s | 0 <= a < |st.sms| && 0 <= s ensures InFlight(t, cfg, a, s) == InFlight(st, cfg, a, s) {
      match e
      case Send(b) =>
        assert GoodSm(st.sms[b], b, cfg);
        SendPlaced(st.sms[b], b, cfg);
        CountFirst(st.sms[b].miss, ForEntry(a, s));
        CountsOfPush(st.requests, st.sms[b].miss[0]);
      case Arrive(i) =>
        CountsOfWithout(st.requests, i);
        CountsOfPush(st.slices[cfg.home(st.requests[i].sector)].arrived, st.requests[i]);
      case AnswerHit(k) =>
        var c := st.slices[k];
        CountFirst(c.hits, ForEntry(a, s));
        CountsOfPush(st.replies, c.hits[0]);
        assert GoodSlice(c, k, cfg);
        HitIsHome(c, k, cfg);
    }
    SameServed(st, t, cfg, exact);
  }

  lemma HitIsHome(c: Slice, k: nat, cfg: Config)
    requires GoodSlice(c, k, cfg) && c.hits != []
    ensures cfg.home(c.hits[0].sector) == k
  {}

  lemma StepKeepsServed(st: System, e: Event, cfg: Config, exact: bool)
    requires Placed(st, cfg) && Served1(st, cfg, exact) && Served2(st, cfg, exact)
    requires Enabled(st, e, cfg) && (exact ==> !Steals(st, e, cfg))
    ensures var t := Next(st, e, cfg); Placed(t, cfg) && Served1(t, cfg, exact) && Served2(t, cfg, exact)
  {
    hide GoodSm, GoodSlice, Served1, Served2, Count, L1Access, L2Access, Answered, WriteBack, WriteBackAll;
    StepKeepsPlaced(st, e, cfg);
    match e
    case AccessL1(a, b, hit) => AccessL1Served(st, a, b, hit, cfg, exact);
    case AccessL2(k, hit) => AccessL2Served(st, k, hit, cfg, exact);
    case DramReturn(k, i) => DramReturnServed(st, k, i, cfg, exact);
    case Reply(i) => ReplyServed(st, i, cfg, exact);
    case Create(r) => SameServed(st, Next(st, e, cfg), cfg, exact);
    case HitDone(a) => SameServed(st, Next(st, e, cfg), cfg, exact);
    case _ => TransferServed(st, e, cfg, exact);
  }

  // ------------------------------------------------------------------
  // Whole runs
  // ------------------------------------------------------------------

  predicate Feasible(st: System, es: seq<Event>, cfg: Config)
    decreases |es|
  {
    es == [] || (Enabled(st, es[0], cfg) && Feasible(Next(st, es[0], cfg), es[1..], cfg))
  }

  function Run(st: System, es: seq<Event>, cfg: Config): System
    requires Feasible(st, es, cfg)
    decreases |es|
  {
    if es == [] then st else Run(Next(st, es[0], cfg), es[1..], cfg)
  }

  /** What every reachable state satisfies, stores included. */
  ghost predicate Inv(st: System, cfg: Config) {
    && Placed(st, cfg) && Conserved(st, cfg) && PendingCounts(st.sent, st.ledger)
    && Served1(st, cfg, false) && Served2(st, cfg, false)
  }

  ghost predicate Exact(st: System, cfg: Config) {
    Placed(st, cfg) && Served1(st, cfg, true) && Served2(st, cfg, true)
  }

  lemma InitInv(cfg: Config)
    requires Sane(cfg)
    ensures Inv(Init(cfg), cfg) && Exact(Init(cfg), cfg)
  {
    hide Conserved;
    InitConserved(cfg);
  }

  lemma InitConserved(cfg: Config)
    requires Sane(cfg) && Placed(Init(cfg), cfg)
    ensures Conserved(Init(cfg), cfg)
  {
    hide Placed;
    var st := Init(cfg);
    forall r: Request | r.kind == Load && r.sm < cfg.sms ensures Held(st.sms[r.sm], r) == 0 {}
  }

  lemma StepKeepsInv(st: System, e: Event, cfg: Config)
    requires Inv(st, cfg) && Enabled(st, e, cfg)
    ensures Inv(Next(st, e, cfg), cfg)
  {
    hide Served1, Served2, Conserved, PendingCounts, Next;
    StepKeepsConserved(st, e, cfg);
    StepKeepsServed(st, e, cfg, false);
  }

  lemma {:induction false} RunKeepsInv(st: System, es: seq<Event>, cfg: Config)
    requires Inv(st, cfg) && Feasible(st, es, cfg)
    ensures Inv(Run(st, es, cfg), cfg)
    decreases |es|
  {
    hide Inv, Next;
    if es != [] {
      StepKeepsInv(st, es[0], cfg);
      RunKeepsInv(Next(st, es[0], cfg), es[1..], cfg);
    }
  }

  /** Nothing is on its way anywhere; only the two miss tables may still hold loads. */
  ghost predicate Idle(st: System) {
    && (forall a | 0 <= a < |st.sms| :: st.sms[a].hits == [] && st.sms[a].miss == []
          && forall b | 0 <= b < |st.sms[a].toL1| :: st.sms[a].toL1[b] == [])
    && st.requests == [] && st.replies == []
    && (forall k | 0 <= k < |st.slices| ::
          st.slices[k].arrived == [] && st.slices[k].hits == [] && st.slices[k].dram == [])
  }

  lemma EntryIsHome(c: Slice, k: nat, s: nat, cfg: Config)
    requires GoodSlice(c, k, cfg)
    ensures s in c.mshr ==> cfg.home(s) == k
  {
    if s in c.mshr { assert c.mshr[s][0].sector == s && AtHome(c.mshr[s], k, cfg); }
  }

  /** When nothing is on its way any more, no entry is left behind in either table. */
  lemma IdleTablesEmpty(st: System, cfg: Config)
    requires Inv(st, cfg) && Idle(st)
    ensures forall a, s: nat | 0 <= a < |st.sms| :: s !in st.sms[a].mshr
    ensures forall k, s: nat | 0 <= k < |st.slices| :: s !in st.slices[k].mshr
  {
    hide Conserved, PendingCounts, GoodSm, GoodSlice;
    forall k, s: nat | 0 <= k < |st.slices| ensures s !in st.slices[k].mshr {
      assert Served(s in st.slices[cfg.home(s)].mshr, OnDramPath(st, cfg, s), false);
      EntryIsHome(st.slices[k], k, s, cfg);
    }
    forall a, s: nat | 0 <= a < |st.sms| ensures s !in st.sms[a].mshr {
      assert Served(s in st.slices[cfg.home(s)].mshr, OnDramPath(st, cfg, s), false);
      assert Served(s in st.sms[a].mshr, InFlight(st, cfg, a, s), false);
    }
  }

  lemma IdleHoldsNothing(c: Sm, r: Request)
    requires c.hits == [] && r.sector !in c.mshr
    requires forall b | 0 <= b < |c.toL1| :: c.toL1[b] == []
    ensures Held(c, r) == 0
  {}

  lemma IdleAllDone(st: System, cfg: Config)
    requires Inv(st, cfg) && Idle(st)
    ensures multiset(st.ledger.done) == multiset(st.sent)
  {
    hide GoodSm, GoodSlice, Held, Served1, Served2, PendingCounts;
    IdleTablesEmpty(st, cfg);
    forall r ensures multiset(st.ledger.done)[r] == multiset(st.sent)[r] {
      assert r in multiset(st.sent) ==> r in st.sent;
      assert r in multiset(st.ledger.done) ==> r in st.ledger.done;
      if r.kind == Load && r.sm < cfg.sms { IdleHoldsNothing(st.sms[r.sm], r); }
    }
  }

  /** For every run, with loads and stores in any order: the error exit is never taken, every load written
      back was sent and is written back once, and when nothing is on its way any more, every load has been. */
  lemma EveryLoadReturnsOnce(cfg: Config, es: seq<Event>)
    requires Sane(cfg) && Feasible(Init(cfg), es, cfg)
    ensures var st := Run(Init(cfg), es, cfg);
      && !st.ledger.error
      && multiset(st.ledger.done) <= multiset(st.sent)
      && (forall r :: multiset(st.ledger.done)[r] <= 1)
      && (Idle(st) ==> multiset(st.ledger.done) == multiset(st.sent))
  {
    hide Run, Feasible, Init, Idle, Placed, Conserved, Served1, Served2;
    InitInv(cfg);
    RunKeepsInv(Init(cfg), es, cfg);
    var st := Run(Init(cfg), es, cfg);
    OnceEach(st, cfg);
    if Idle(st) { IdleAllDone(st, cfg); }
  }

  lemma OnceEach(st: System, cfg: Config)
    requires Placed(st, cfg) && Conserved(st, cfg)
    ensures multiset(st.ledger.done) <= multiset(st.sent) && forall r :: multiset(st.ledger.done)[r] <= 1
  {
    hide GoodSm, GoodSlice, Held;
    forall r ensures multiset(st.ledger.done)[r] <= multiset(st.sent)[r] && multiset(st.ledger.done)[r] <= 1 {
      assert r in multiset(st.ledger.done) ==> r in st.ledger.done;
    }
  }

  // ------------------------------------------------------------------
  // Exactly one message per entry
  // ------------------------------------------------------------------

  /** One step keeps "one message per entry" exactly when it is not a store that takes over waiting loads. */
  lemma ExactStep(st: System, e: Event, cfg: Config)
    requires Exact(st, cfg) && Enabled(st, e, cfg)
    ensures Exact(Next(st, e, cfg), cfg) <==> !Steals(st, e, cfg)
  {
    hide Served1, Served2, Next, GoodSm, GoodSlice;
    if Steals(st, e, cfg) {
      StealBreaks(st, e.k, e.i, cfg);
    } else {
      StepKeepsServed(st, e, cfg, true);
    }
  }

  lemma StealBreaks(st: System, k: nat, i: nat, cfg: Config)
    requires Exact(st, cfg) && Enabled(st, DramReturn(k, i), cfg) && Steals(st, DramReturn(k, i), cfg)
    ensures !Exact(Next(st, DramReturn(k, i), cfg), cfg)
  {
    hide GoodSm, GoodSlice, Served1, Answered, Count;
    var e := DramReturn(k, i);
    StepKeepsPlaced(st, e, cfg);
    var t := Next(st, e, cfg);
    var c := st.slices[k];
    var s := c.dram[i].sector;
    assert GoodSlice(c, k, cfg);
    ReturnIsHome(c, k, i, cfg);
    CountsOfWithout(c.dram, i);
    assert Served(s in c.mshr, OnDramPath(st, cfg, s), true);
    assert OnDramPath(t, cfg, s) == 1;
    assert !Served(s in t.slices[cfg.home(s)].mshr, OnDramPath(t, cfg, s), true);
  }

  ghost predicate ExactThroughout(st: System, es: seq<Event>, cfg: Config)
    requires Feasible(st, es, cfg)
    decreases |es|
  {
    Exact(st, cfg) && (es == [] || ExactThroughout(Next(st, es[0], cfg), es[1..], cfg))
  }

  predicate NoSteal(st: System, es: seq<Event>, cfg: Config)
    requires Feasible(st, es, cfg)
    decreases |es|
  {
    es == [] || (!Steals(st, es[0], cfg) && NoSteal(Next(st, es[0], cfg), es[1..], cfg))
  }

  lemma {:induction false} ExactRun(st: System, es: seq<Event>, cfg: Config)
    requires Exact(st, cfg) && Feasible(st, es, cfg)
    ensures ExactThroughout(st, es, cfg) <==> NoSteal(st, es, cfg)
    decreases |es|
  {
    hide Exact, Next, Steals;
    if es != [] {
      ExactStep(st, es[0], cfg);
      if !Steals(st, es[0], cfg) { ExactRun(Next(st, es[0], cfg), es[1..], cfg); }
    }
  }

  /** In every state of a run each L1 entry has exactly one message in flight and each L2 entry exactly one
      request on the DRAM path, if and only if no store returns from DRAM to a sector that loads wait for. */
  lemma OneMessagePerEntryIff(cfg: Config, es: seq<Event>)
    requires Sane(cfg) && Feasible(Init(cfg), es, cfg)
    ensures ExactThroughout(Init(cfg), es, cfg) <==> NoSteal(Init(cfg), es, cfg)
  {
    hide Exact, Feasible, NoSteal, ExactThroughout, Init;
    InitInv(cfg);
    ExactRun(Init(cfg), es, cfg);
  }

  /** While there is one message per entry, no reply reaches an SM in vain, and no two serve one entry. */
  lemma EveryReplyFindsItsEntry(st: System, cfg: Config, i: nat)
    requires Exact(st, cfg) && i < |st.replies|
    ensures st.replies[i].sector in st.sms[st.replies[i].sm].mshr
    ensures forall j | 0 <= j < |st.replies| && j != i ::
      st.replies[j].sm != st.replies[i].sm || st.replies[j].sector != st.replies[i].sector
  {
    hide GoodSm, GoodSlice, Served2, Count;
    var r := st.replies[i];
    var m := ForEntry(r.sm, r.sector);
    assert Served(r.sector in st.sms[r.sm].mshr, InFlight(st, cfg, r.sm, r.sector), true);
    CountsOfWithout(st.replies, i);
    assert Count(Without(st.replies, i), m) == 0;
    CountZero(Without(st.replies, i), m);
    forall j | 0 <= j < |st.replies| && j != i
      ensures st.replies[j].sm != r.sm || st.replies[j].sector != r.sector
    {
      assert st.replies[j] == Without(st.replies, i)[if j < i then j else j - 1];
    }
  }

  // ------------------------------------------------------------------
  // Runs without stores
  // ------------------------------------------------------------------

  ghost predicate OnlyLoads(q: seq<Request>) {
    forall i :: 0 <= i < |q| ==> q[i].kind == Load
  }

  ghost predicate NoStores(st: System) {
    && (forall a | 0 <= a < |st.sms| :: SmLoads(st.sms[a]))
    && OnlyLoads(st.requests)
    && (forall k | 0 <= k < |st.slices| :: OnlyLoads(st.slices[k].arrived) && OnlyLoads(st.slices[k].dram))
  }

  ghost predicate SmLoads(c: Sm) {
    OnlyLoads(c.miss) && forall b | 0 <= b < |c.toL1| :: OnlyLoads(c.toL1[b])
  }

  predicate LoadOnly(es: seq<Event>) {
    forall i :: 0 <= i < |es| && es[i].Create? ==> es[i].r.kind == Load
  }

  lemma L1AccessLoads(c: Sm, bank: nat, hit: bool, cfg: Config)
    requires SmLoads(c) && bank < |c.toL1| && c.toL1[bank] != []
    ensures SmLoads(L1Access(c, bank, hit, cfg))
  {
    hide TableFull, Merged;
    assert c.toL1[bank][0].kind == Load;
  }

  lemma L2AccessLoads(c: Slice, hit: bool, cfg: Config)
    requires OnlyLoads(c.arrived) && OnlyLoads(c.dram) && c.arrived != []
    ensures OnlyLoads(L2Access(c, hit, cfg).arrived) && OnlyLoads(L2Access(c, hit, cfg).dram)
  {
    hide TableFull, Merged;
  }

  lemma StepKeepsNoStores(st: System, e: Event, cfg: Config)
    requires NoStores(st) && Enabled(st, e, cfg) && (e.Create? ==> e.r.kind == Load)
    ensures NoStores(Next(st, e, cfg)) && !Steals(st, e, cfg)
  {
    hide L1Access, WriteBack, WriteBackAll, Answered, TableFull, Merged, Waiting;
    match e
    case AccessL1(a, b, hit) =>
      hide SmLoads;
      L1AccessLoads(st.sms[a], b, hit, cfg);
    case AccessL2(k, hit) =>
      hide SmLoads, L2Access;
      L2AccessLoads(st.slices[k], hit, cfg);
    case Create(r) => assert SmLoads(st.sms[r.sm]);
    case Send(a) => assert SmLoads(st.sms[a]);
    case Reply(i) => assert SmLoads(st.sms[st.replies[i].sm]);
    case HitDone(a) => assert SmLoads(st.sms[a]);
    case _ => hide SmLoads;
  }

  lemma {:induction false} LoadRunNeverSteals(st: System, es: seq<Event>, cfg: Config)
    requires NoStores(st) && Feasible(st, es, cfg) && LoadOnly(es)
    ensures NoSteal(st, es, cfg)
    decreases |es|
  {
    hide NoStores, Next, Steals;
    if es != [] {
      StepKeepsNoStores(st, es[0], cfg);
      LoadRunNeverSteals(Next(st, es[0], cfg), es[1..], cfg);
    }
  }

  /** Load-only traffic: in every reachable state, one message per L1 entry and one DRAM request per L2 entry. */
  lemma LoadOnlyIsExact(cfg: Config, es: seq<Event>)
    requires Sane(cfg) && Feasible(Init(cfg), es, cfg) && LoadOnly(es)
    ensures ExactThroughout(Init(cfg), es, cfg)
  {
    hide Exact, Feasible, NoSteal, ExactThroughout;
    LoadRunNeverSteals(Init(cfg), es, cfg);
    OneMessagePerEntryIff(cfg, es);
  }

  // ------------------------------------------------------------------
  // A store that takes over a waiting load
  // ------------------------------------------------------------------

  const ONE_OF_EACH := Config(1, 1, 1, _ => 0, 1, 1, 1, 1, true)
  const STORE := Request(0, Store, 0, 0, 0, 0, Slot(0, 0, 0))
  const LOAD := Request(1, Load, 0, 0, 0, 0, Slot(0, 0, 0))

  ghost predicate Reachable(st: System) {
    exists es :: Feasible(Init(ONE_OF_EACH), es, ONE_OF_EACH) && Run(Init(ONE_OF_EACH), es, ONE_OF_EACH) == st
  }

  lemma {:induction false} RunSnoc(st: System, es: seq<Event>, e: Event, cfg: Config)
    requires Feasible(st, es, cfg) && Enabled(Run(st, es, cfg), e, cfg)
    ensures Feasible(st, es + [e], cfg) && Run(st, es + [e], cfg) == Next(Run(st, es, cfg), e, cfg)
    decreases |es|
  {
    hide Enabled, Next;
    if es == [] {
      assert es + [e] == [e];
      assert [e][1..] == [];
    } else {
      assert (es + [e])[1..] == es[1..] + [e];
      RunSnoc(Next(st, es[0], cfg), es[1..], e, cfg);
    }
  }

  lemma Reach(st: System, e: Event) returns (t: System)
    requires Reachable(st) && Enabled(st, e, ONE_OF_EACH)
    ensures t == Next(st, e, ONE_OF_EACH) && Reachable(t)
  {
    hide Feasible, Run, Enabled, Next, ONE_OF_EACH;
    t := Next(st, e, ONE_OF_EACH);
    var es :| Feasible(Init(ONE_OF_EACH), es, ONE_OF_EACH) && Run(Init(ONE_OF_EACH), es, ONE_OF_EACH) == st;
    RunSnoc(Init(ONE_OF_EACH), es, e, ONE_OF_EACH);
  }

  /** The one SM and the one slice of a state: bank queue, miss queue, arrivals; table and DRAM path of both. */
  ghost predicate Shows(st: System, toL1: seq<Request>, miss: seq<Request>, requests: seq<Request>,
                        arrived: seq<Request>, waiting: seq<Request>, dram: seq<Request>) {
    && |st.sms| == 1 && |st.sms[0].toL1| == 1 && |st.slices| == 1
    && st.sms[0].toL1[0] == toL1 && st.sms[0].miss == miss && st.requests == requests
    && st.slices[0].arrived == arrived && Waiting(st.slices[0].mshr, 0) == waiting
    && |st.slices[0].mshr| <= |waiting| && (waiting == [] ==> st.slices[0].mshr == map[])
    && st.slices[0].dram == dram
  }

  lemma LeavesL1(st: System, r: Request, dram: seq<Request>) returns (t: System)
    requires Reachable(st) && r in {STORE, LOAD} && r !in st.sent
    requires Shows(st, [], [], [], [], [], dram) && st.sms[0].mshr == map[] && st.replies == []
    ensures Reachable(t) && t.replies == [] && Shows(t, [], [r], [], [], [], dram)
    ensures r == STORE ==> t.sms[0].mshr == map[] && t.sent == st.sent
  {
    hide Reachable, Init;
    var s1 := Reach(st, Create(r));
    assert Shows(s1, [r], [], [], [], [], dram);
    t := Reach(s1, AccessL1(0, 0, false));
  }

  /** A request misses in L1, goes to its slice, and misses there too. */
  lemma Descends(st: System, r: Request, dram: seq<Request>) returns (t: System)
    requires Reachable(st) && r in {STORE, LOAD} && r !in st.sent
    requires Shows(st, [], [], [], [], [], dram) && st.sms[0].mshr == map[] && st.replies == []
    ensures Reachable(t) && t.replies == []
    ensures Shows(t, [], [], [], [], if r == LOAD then [r] else [], dram + [r])
    ensures r == STORE ==> t.sms[0].mshr == map[] && t.sent == st.sent
  {
    hide Reachable, Init, L1Access;
    var s2 := LeavesL1(st, r, dram);
    var s3 := Reach(s2, Send(0));
    assert Shows(s3, [], [], [r], [], [], dram);
    var s4 := Reach(s3, Arrive(0));
    assert Shows(s4, [], [], [], [r], [], dram);
    t := Reach(s4, AccessL2(0, false));
  }

  /** With a store to the same sector in front of it on the DRAM path, one load is answered twice. */
  lemma LoadAnsweredTwice()
    ensures exists st :: Reachable(st) && st.replies == [LOAD, LOAD]
  {
    hide Reachable;
    Initially();
    var s0 := Init(ONE_OF_EACH);
    assert Shows(s0, [], [], [], [], [], []);
    LoadsNeedReply([LOAD]);
    var s1 := Descends(s0, STORE, []);
    var s2 := Descends(s1, LOAD, [STORE]);
    var s3 := Reach(s2, DramReturn(0, 0));
    assert Shows(s3, [], [], [], [], [], [LOAD]) && s3.replies == [LOAD];
    var s4 := Reach(s3, DramReturn(0, 0));
    assert s4.replies == [LOAD, LOAD];
  }

  lemma Initially()
    ensures Reachable(Init(ONE_OF_EACH))
  {
    assert Feasible(Init(ONE_OF_EACH), [], ONE_OF_EACH);
  }
}
