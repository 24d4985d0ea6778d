/** When the memory path cannot get stuck: with room for one entry in each miss table all loads come back. */
module MemoryProgress {
  import opened Basics
  import opened Requests
  import opened MemoryReturn

  // ------------------------------------------------------------------
  // A measure that every step lowers
  // ------------------------------------------------------------------

  function SumOf<T(!new)>(q: seq<T>, f: T -> nat): nat {
    if q == [] then 0 else f(q[0]) + SumOf(q[1..], f)
  }

  lemma {:induction false} SumUpdate<T(!new)>(q: seq<T>, i: nat, x: T, f: T -> nat)
    requires i < |q|
    ensures SumOf(q[i := x], f) + f(q[i]) == SumOf(q, f) + f(x)
  {
    if i == 0 {
      assert q[0 := x][1..] == q[1..];
    } else {
      assert q[i := x][1..] == q[1..][i - 1 := x];
      SumUpdate(q[1..], i - 1, x, f);
    }
  }

  function Length(q: seq<Request>): nat { |q| }

  /** Stages in front of a request that is still on its way down. */
  function SmDown(c: Sm): nat { 5 * SumOf(c.toL1, Length) + 4 * |c.miss| }

  function SliceDown(c: Slice): nat { 2 * |c.arrived| + |c.dram| }

  function Down(st: System): nat { SumOf(st.sms, SmDown) + 3 * |st.requests| + SumOf(st.slices, SliceDown) }

  /** Stages in front of what is on its way up. */
  function SmUp(c: Sm): nat { |c.hits| }

  function SliceUp(c: Slice): nat { 2 * |c.hits| }

  function Up(st: System): nat { SumOf(st.sms, SmUp) + SumOf(st.slices, SliceUp) + |st.replies| }

  predicate Falls(st: System, t: System) {
    Down(t) < Down(st) || (Down(t) == Down(st) && Up(t) < Up(st))
  }

  lemma L1AccessFalls(c: Sm, bank: nat, hit: bool, cfg: Config)
    requires bank < |c.toL1| && c.toL1[bank] != []
    ensures var t := L1Access(c, bank, hit, cfg); t == c || SmDown(t) < SmDown(c)
  {
    SumUpdate(c.toL1, bank, c.toL1[bank][1..], Length);
  }

  lemma L2AccessFalls(c: Slice, hit: bool, cfg: Config)
    requires c.arrived != []
    ensures var t := L2Access(c, hit, cfg); t == c || SliceDown(t) < SliceDown(c)
  {}

  /** Steps that change one SM. */
  lemma SmStepFalls(st: System, e: Event, cfg: Config)
    requires Enabled(st, e, cfg) && (e.AccessL1? || e.Send? || e.Reply? || e.HitDone?)
    ensures Next(st, e, cfg) == st || Falls(st, Next(st, e, cfg))
  {
    hide L1Access, WriteBackAll, WriteBack, SumOf;
    var t := Next(st, e, cfg);
    match e
    case AccessL1(a, b, hit) =>
      L1AccessFalls(st.sms[a], b, hit, cfg);
      SumUpdate(st.sms, a, t.sms[a], SmDown);
      assert t.sms[a] == st.sms[a] ==> t.sms == st.sms;
    case Send(a) =>
      SumUpdate(st.sms, a, t.sms[a], SmDown);
    case Reply(i) =>
      var a := st.replies[i].sm;
      SumUpdate(st.sms, a, t.sms[a], SmDown);
      SumUpdate(st.sms, a, t.sms[a], SmUp);
    case HitDone(a) =>
      SumUpdate(st.sms, a, t.sms[a], SmDown);
      SumUpdate(st.sms, a, t.sms[a], SmUp);
  }

  /** Steps that change one slice. */
  lemma SliceStepFalls(st: System, e: Event, cfg: Config)
    requires Enabled(st, e, cfg) && (e.Arrive? || e.AccessL2? || e.AnswerHit? || e.DramReturn?)
    ensures Next(st, e, cfg) == st || Falls(st, Next(st, e, cfg))
  {
    hide L2Access, Answered, SumOf;
    var t := Next(st, e, cfg);
    var k := if e.Arrive? then cfg.home(st.requests[e.i].sector) else e.k;
    SumUpdate(st.slices, k, t.slices[k], SliceDown);
    SumUpdate(st.slices, k, t.slices[k], SliceUp);
    if e.AccessL2? {
      L2AccessFalls(st.slices[k], e.hit, cfg);
      assert t.slices[k] == st.slices[k] ==> t.slices == st.slices;
    }
  }

  /** Every step other than a new request changes nothing or brings what is there nearer to its end. */
  lemma StepFalls(st: System, e: Event, cfg: Config)
    requires Enabled(st, e, cfg) && !e.Create?
    ensures Next(st, e, cfg) == st || Falls(st, Next(st, e, cfg))
  {
    hide Enabled, Next, Falls;
    if e.AccessL1? || e.Send? || e.Reply? || e.HitDone? {
      SmStepFalls(st, e, cfg);
    } else {
      SliceStepFalls(st, e, cfg);
    }
  }

  // ------------------------------------------------------------------
  // Some step is always possible
  // ------------------------------------------------------------------

  predicate RoomForOne(cfg: Config) { cfg.entries1 > 0 && cfg.entries2 > 0 }

  /** The event with the tag array's answer filled in. */
  function WithHit(e: Event, hit: bool): Event {
    match e
    case AccessL1(a, b, _) => AccessL1(a, b, hit)
    case AccessL2(k, _) => AccessL2(k, hit)
    case _ => e
  }

  /** The event can happen and changes something, whatever the tag array answers. */
  ghost predicate Moves(st: System, e: Event, cfg: Config) {
    && !e.Create?
    && Enabled(st, WithHit(e, false), cfg) && Next(st, WithHit(e, false), cfg) != st
    && Enabled(st, WithHit(e, true), cfg) && Next(st, WithHit(e, true), cfg) != st
  }

  ghost predicate CanMove(st: System, cfg: Config) { exists e :: Moves(st, e, cfg) }

  lemma {:induction false} CountSome(q: seq<Request>, m: Pattern)
    requires Count(q, m) > 0
    ensures q != []
  {}

  lemma FullHasEntry(t: Table, s: nat, entries: nat, merged: nat)
    requires TableFull(t, s, entries, merged) && entries > 0
    ensures exists x: nat :: x in t
  {
    if s !in t {
      assert t.Keys != {};
      var x :| x in t.Keys;
      assert x in t;
    }
  }

  lemma ShorterDiffers(q: seq<Request>, r: seq<Request>)
    requires |q| != |r|
    ensures q != r
  {}

  lemma SendMoves(st: System, a: nat, cfg: Config)
    requires a < |st.sms| && st.sms[a].miss != []
    ensures Moves(st, Send(a), cfg)
  {}

  lemma HitDoneMoves(st: System, a: nat, cfg: Config)
    requires a < |st.sms| && st.sms[a].hits != []
    ensures Moves(st, HitDone(a), cfg)
  {
    hide WriteBack;
    ShorterDiffers(st.sms[a].hits, Next(st, HitDone(a), cfg).sms[a].hits);
  }

  lemma ArriveMoves(st: System, cfg: Config)
    requires Placed(st, cfg) && st.requests != []
    ensures Moves(st, Arrive(0), cfg)
  {
    hide GoodSm, GoodSlice;
    ShorterDiffers(st.requests, Next(st, Arrive(0), cfg).requests);
  }

  lemma ReplyMoves(st: System, cfg: Config)
    requires Placed(st, cfg) && st.replies != []
    ensures Moves(st, Reply(0), cfg)
  {
    hide GoodSm, GoodSlice, WriteBackAll;
    ShorterDiffers(st.replies, Next(st, Reply(0), cfg).replies);
  }

  lemma AnswerHitMoves(st: System, k: nat, cfg: Config)
    requires k < |st.slices| && st.slices[k].hits != []
    ensures Moves(st, AnswerHit(k), cfg)
  {
    ShorterDiffers(st.slices[k].hits, Next(st, AnswerHit(k), cfg).slices[k].hits);
  }

  lemma DramReturnMoves(st: System, k: nat, cfg: Config)
    requires k < |st.slices| && st.slices[k].dram != []
    ensures Moves(st, DramReturn(k, 0), cfg)
  {
    hide Answered;
    ShorterDiffers(st.slices[k].dram, Next(st, DramReturn(k, 0), cfg).slices[k].dram);
  }

  /** An entry of an L2 table has its request on the DRAM path. */
  lemma EntryMoves(st: System, k: nat, s: nat, cfg: Config)
    requires Placed(st, cfg) && Served2(st, cfg, false)
    requires k < |st.slices| && s in st.slices[k].mshr
    ensures CanMove(st, cfg)
  {
    hide GoodSm, GoodSlice, Moves;
    EntryIsHome(st.slices[k], k, s, cfg);
    assert Served(s in st.slices[k].mshr, OnDramPath(st, cfg, s), false);
    CountSome(st.slices[k].dram, ForSector(s));
    DramReturnMoves(st, k, cfg);
  }

  lemma L2AccessMovesOrFull(c: Slice, cfg: Config, hit: bool)
    requires c.arrived != []
    ensures var r := c.arrived[0];
      L2Access(c, hit, cfg) == c ==> r.kind == Load && TableFull(c.mshr, r.sector, cfg.entries2, cfg.merged2)
  {
    if L2Access(c, hit, cfg) == c { ShorterDiffers(c.arrived, c.arrived[1..]); }
  }

  /** What has arrived at a slice is looked at, or its table is full and DRAM has work. */
  lemma ArrivedMoves(st: System, k: nat, cfg: Config)
    requires Placed(st, cfg) && Served2(st, cfg, false) && RoomForOne(cfg)
    requires k < |st.slices| && st.slices[k].arrived != []
    ensures CanMove(st, cfg)
  {
    hide GoodSm, GoodSlice, L2Access, Served2, TableFull;
    var c := st.slices[k];
    L2AccessMovesOrFull(c, cfg, false);
    L2AccessMovesOrFull(c, cfg, true);
    if TableFull(c.mshr, c.arrived[0].sector, cfg.entries2, cfg.merged2) {
      FullHasEntry(c.mshr, c.arrived[0].sector, cfg.entries2, cfg.merged2);
      var s: nat :| s in c.mshr;
      EntryMoves(st, k, s, cfg);
    } else {
      assert Moves(st, AccessL2(k, false), cfg);
    }
  }

  /** An entry of an L1 table has a message that can move, or that waits behind one that can. */
  lemma EntryOfL1Moves(st: System, a: nat, s: nat, cfg: Config)
    requires Placed(st, cfg) && Served1(st, cfg, false) && Served2(st, cfg, false) && RoomForOne(cfg)
    requires a < |st.sms| && s in st.sms[a].mshr
    ensures CanMove(st, cfg)
  {
    hide GoodSm, GoodSlice, Moves, Served2, RoomForOne;
    var (k, m) := (cfg.home(s), ForEntry(a, s));
    var c := st.slices[k];
    assert Served(true, InFlight(st, cfg, a, s), false);
    if Count(st.sms[a].miss, m) > 0 {
      SendMoves(st, a, cfg);
    } else if Count(st.requests, m) > 0 {
      ArriveMoves(st, cfg);
    } else if Count(c.arrived, m) > 0 {
      ArrivedMoves(st, k, cfg);
    } else if Count(Waiting(c.mshr, s), m) > 0 {
      EntryMoves(st, k, s, cfg);
    } else if Count(c.hits, m) > 0 {
      AnswerHitMoves(st, k, cfg);
    } else {
      ReplyMoves(st, cfg);
    }
  }

  lemma L1AccessMovesOrFull(c: Sm, bank: nat, cfg: Config, hit: bool)
    requires bank < |c.toL1| && c.toL1[bank] != []
    ensures var r := c.toL1[bank][0];
      L1Access(c, bank, hit, cfg) == c ==> r.kind == Load && TableFull(c.mshr, r.sector, cfg.entries1, cfg.merged1)
  {
    if L1Access(c, bank, hit, cfg) == c { ShorterDiffers(c.toL1[bank], c.toL1[bank][1..]); }
  }

  lemma BankMoves(st: System, a: nat, b: nat, cfg: Config)
    requires Placed(st, cfg) && Served1(st, cfg, false) && Served2(st, cfg, false) && RoomForOne(cfg)
    requires a < |st.sms| && b < |st.sms[a].toL1| && st.sms[a].toL1[b] != []
    ensures CanMove(st, cfg)
  {
    hide GoodSm, GoodSlice, L1Access, Served1, Served2, TableFull;
    var c := st.sms[a];
    L1AccessMovesOrFull(c, b, cfg, false);
    L1AccessMovesOrFull(c, b, cfg, true);
    if TableFull(c.mshr, c.toL1[b][0].sector, cfg.entries1, cfg.merged1) {
      FullHasEntry(c.mshr, c.toL1[b][0].sector, cfg.entries1, cfg.merged1);
      var s: nat :| s in c.mshr;
      EntryOfL1Moves(st, a, s, cfg);
    } else {
      assert Moves(st, AccessL1(a, b, false), cfg);
    }
  }

  lemma SmMoves(st: System, a: nat, cfg: Config)
    requires Inv(st, cfg) && RoomForOne(cfg) && a < |st.sms|
    requires var c := st.sms[a]; c.hits != [] || c.miss != [] || exists b :: 0 <= b < |c.toL1| && c.toL1[b] != []
    ensures CanMove(st, cfg)
  {
    hide Moves, Placed, Conserved, PendingCounts, Served1, Served2, RoomForOne;
    var c := st.sms[a];
    if c.hits != [] {
      HitDoneMoves(st, a, cfg);
    } else if c.miss != [] {
      SendMoves(st, a, cfg);
    } else {
      var b :| 0 <= b < |c.toL1| && c.toL1[b] != [];
      BankMoves(st, a, b, cfg);
    }
  }

  /** With room for one entry in each miss table, and whatever the tag arrays answer: as long as anything is on its
      way some event other than a new request can happen and changes something. */
  lemma NeverStuck(st: System, cfg: Config)
    requires Inv(st, cfg) && RoomForOne(cfg)
    ensures CanMove(st, cfg) || Idle(st)
  {
    hide Moves, Placed, Conserved, PendingCounts, Served1, Served2, RoomForOne, CanMove;
    if st.requests != [] { ArriveMoves(st, cfg); MovesIsCan(st, Arrive(0), cfg); }
    if st.replies != [] { ReplyMoves(st, cfg); MovesIsCan(st, Reply(0), cfg); }
    forall k | 0 <= k < |st.slices|
      ensures CanMove(st, cfg) || (st.slices[k].arrived == [] && st.slices[k].hits == [] && st.slices[k].dram == [])
    {
      if st.slices[k].arrived != [] { ArrivedMoves(st, k, cfg); }
      if st.slices[k].hits != [] { AnswerHitMoves(st, k, cfg); MovesIsCan(st, AnswerHit(k), cfg); }
      if st.slices[k].dram != [] { DramReturnMoves(st, k, cfg); MovesIsCan(st, DramReturn(k, 0), cfg); }
    }
    forall a | 0 <= a < |st.sms|
      ensures CanMove(st, cfg) || (st.sms[a].hits == [] && st.sms[a].miss == []
                                   && forall b | 0 <= b < |st.sms[a].toL1| :: st.sms[a].toL1[b] == [])
    {
      var c := st.sms[a];
      if c.hits != [] || c.miss != [] || exists b :: 0 <= b < |c.toL1| && c.toL1[b] != [] { SmMoves(st, a, cfg); }
    }
  }

  lemma MovesIsCan(st: System, e: Event, cfg: Config)
    requires Moves(st, e, cfg)
    ensures CanMove(st, cfg)
  {}

  // ------------------------------------------------------------------
  // Runs without new requests
  // ------------------------------------------------------------------

  /** What the tag arrays answer in each state. */
  type Answers = (System, Event) -> bool

  /** A run without new requests in which every access gets the answer of the tag arrays. */
  predicate Follows(st: System, es: seq<Event>, answers: Answers, cfg: Config)
    decreases |es|
  {
    es == []
    || (&& !es[0].Create? && Enabled(st, es[0], cfg)
        && es[0] == WithHit(es[0], answers(st, WithHit(es[0], false)))
        && Follows(Next(st, es[0], cfg), es[1..], answers, cfg))
  }

  lemma MoveFalls(st: System, e: Event, hit: bool, cfg: Config)
    requires Moves(st, e, cfg)
    ensures var f := WithHit(e, hit);
      && !f.Create? && Enabled(st, f, cfg) && Falls(st, Next(st, f, cfg))
      && WithHit(f, false) == WithHit(e, false) && f == WithHit(f, hit)
  {
    hide Enabled, Next, Falls;
    StepFalls(st, WithHit(e, hit), cfg);
  }

  lemma Idles(st: System, answers: Answers, cfg: Config) returns (es: seq<Event>)
    requires Inv(st, cfg) && RoomForOne(cfg)
    ensures Follows(st, es, answers, cfg) && Feasible(st, es, cfg)
    ensures Inv(Run(st, es, cfg), cfg) && Idle(Run(st, es, cfg)) && Run(st, es, cfg).sent == st.sent
    decreases Down(st), Up(st)
  {
    hide Inv, Idle, Enabled, Next, Moves, RoomForOne, Down, Up;
    NeverStuck(st, cfg);
    es := [];
    if !Idle(st) {
      var e :| Moves(st, e, cfg);
      var f := WithHit(e, answers(st, WithHit(e, false)));
      MoveFalls(st, e, answers(st, WithHit(e, false)), cfg);
      StepKeepsInv(st, f, cfg);
      OnlyCreateSends(st, f, cfg);
      var rest := Idles(Next(st, f, cfg), answers, cfg);
      es := [f] + rest;
      assert es[1..] == rest;
    }
  }

  lemma OnlyCreateSends(st: System, e: Event, cfg: Config)
    requires Enabled(st, e, cfg) && !e.Create?
    ensures Next(st, e, cfg).sent == st.sent
  {}

  /** From every reachable state, whatever the tag arrays answer, the requests already made can be brought to an
      end, and then exactly the loads sent have been written back. */
  lemma EveryLoadCanFinish(cfg: Config, before: seq<Event>, answers: Answers)
    requires Sane(cfg) && RoomForOne(cfg) && Feasible(Init(cfg), before, cfg)
    ensures var st := Run(Init(cfg), before, cfg);
      exists es :: Follows(st, es, answers, cfg) && Feasible(st, es, cfg)
        && Idle(Run(st, es, cfg))
        && multiset(Run(st, es, cfg).ledger.done) == multiset(st.sent)
  {
    hide Inv, Idle, Feasible, Run, Follows;
    var st := Run(Init(cfg), before, cfg);
    InitInv(cfg);
    RunKeepsInv(Init(cfg), before, cfg);
    var es := Idles(st, answers, cfg);
    IdleAllDone(Run(st, es, cfg), cfg);
  }

  /** No run goes on for ever without new requests: at some point its next step creates one or changes nothing. */
  lemma NoEndlessRun(cfg: Config, states: nat -> System, events: nat -> Event)
    requires forall n: nat :: Enabled(states(n), events(n), cfg) && states(n + 1) == Next(states(n), events(n), cfg)
    ensures exists n: nat :: events(n).Create? || states(n + 1) == states(n)
  {
    hide Enabled, Next, Falls;
    if forall n: nat :: !events(n).Create? && states(n + 1) != states(n) {
      forall n: nat ensures Falls(states(n), states(n + 1)) { StepFalls(states(n), events(n), cfg); }
      NoEndlessFall(states, 0);
    }
  }

  lemma NoEndlessFall(states: nat -> System, n: nat)
    requires forall i: nat :: Falls(states(i), states(i + 1))
    ensures false
    decreases Down(states(n)), Up(states(n))
  {
    hide Down, Up;
    assert Falls(states(n), states(n + 1));
    NoEndlessFall(states, n + 1);
  }

  /** Every run that goes on as long as something can change writes back every load. */
  lemma StuckMeansDone(cfg: Config, es: seq<Event>)
    requires Sane(cfg) && RoomForOne(cfg) && Feasible(Init(cfg), es, cfg)
    ensures var st := Run(Init(cfg), es, cfg);
      !CanMove(st, cfg) ==> multiset(st.ledger.done) == multiset(st.sent)
  {
    hide Inv, Feasible, Run, CanMove;
    var st := Run(Init(cfg), es, cfg);
    InitInv(cfg);
    RunKeepsInv(Init(cfg), es, cfg);
    NeverStuck(st, cfg);
    if Idle(st) { IdleAllDone(st, cfg); }
  }

  // ------------------------------------------------------------------
  // Without room for one entry
  // ------------------------------------------------------------------

  const LONE := Request(0, Load, 0, 0, 0, 0, Slot(0, 0, 0))

  /** The system with one load on its way down, at the given places, and one L1 table. */
  function OneLoad(cfg: Config, toL1: seq<Request>, miss: seq<Request>, requests: seq<Request>, arrived: seq<Request>,
                   table: Table): System
    requires Sane(cfg) && cfg.sms > 0 && cfg.banks > 0
  {
    var st := Init(cfg);
    st.(sms := st.sms[0 := Sm(st.sms[0].toL1[0 := toL1], [], table, miss)],
        requests := requests,
        slices := st.slices[cfg.home(0) := Slice(arrived, map[], [], [])],
        sent := [LONE],
        ledger := Ledger([], map[LONE.slot := 1], false))
  }

  ghost predicate Reaches(cfg: Config, st: System) {
    exists es :: Feasible(Init(cfg), es, cfg) && Run(Init(cfg), es, cfg) == st
  }

  lemma ReachesNext(cfg: Config, st: System, e: Event)
    requires Reaches(cfg, st) && Enabled(st, e, cfg)
    ensures Reaches(cfg, Next(st, e, cfg))
  {
    hide Feasible, Run, Enabled, Next;
    var es :| Feasible(Init(cfg), es, cfg) && Run(Init(cfg), es, cfg) == st;
    RunSnoc(Init(cfg), es, e, cfg);
  }

  lemma LoadCreated(cfg: Config)
    requires Sane(cfg) && cfg.sms > 0 && cfg.banks > 0
    ensures Reaches(cfg, OneLoad(cfg, [LONE], [], [], [], map[]))
  {
    hide Reaches;
    var (st, t) := (Init(cfg), OneLoad(cfg, [LONE], [], [], [], map[]));
    assert Reaches(cfg, st) by { StartReached(cfg); }
    ReachesNext(cfg, st, Create(LONE));
    assert st.sms[0].toL1[0] + [LONE] == [LONE];
    assert Next(st, Create(LONE), cfg).sms[0] == t.sms[0];
    assert Next(st, Create(LONE), cfg).sms == t.sms;
    assert Next(st, Create(LONE), cfg).slices == t.slices;
  }

  lemma StartReached(cfg: Config)
    ensures Reaches(cfg, Init(cfg))
  {
    assert Feasible(Init(cfg), [], cfg) && Run(Init(cfg), [], cfg) == Init(cfg);
  }

  lemma LoadEntered(cfg: Config)
    requires Sane(cfg) && cfg.sms > 0 && cfg.banks > 0 && cfg.entries1 > 0
    ensures Reaches(cfg, OneLoad(cfg, [], [LONE], [], [], map[0 := [LONE]]))
  {
    hide Reaches;
    LoadCreated(cfg);
    var (st, t) := (OneLoad(cfg, [LONE], [], [], [], map[]), OneLoad(cfg, [], [LONE], [], [], map[0 := [LONE]]));
    ReachesNext(cfg, st, AccessL1(0, 0, false));
    assert st.sms[0].toL1[0] == [LONE] && [LONE][1..] == [];
    assert Popped(st.sms[0], 0).toL1 == t.sms[0].toL1;
    FirstEntry();
    assert Next(st, AccessL1(0, 0, false), cfg).sms[0] == t.sms[0];
    assert Next(st, AccessL1(0, 0, false), cfg).sms == t.sms;
  }

  lemma FirstEntry()
    ensures Merged(map[], 0, LONE) == map[0 := [LONE]]
  {
    assert Waiting(map[], 0) == [] && [] + [LONE] == [LONE];
  }

  lemma LoadSent(cfg: Config)
    requires Sane(cfg) && cfg.sms > 0 && cfg.banks > 0 && cfg.entries1 > 0
    ensures Reaches(cfg, OneLoad(cfg, [], [], [LONE], [], map[0 := [LONE]]))
  {
    hide Reaches;
    LoadEntered(cfg);
    var table: Table := map[0 := [LONE]];
    var (st, t) := (OneLoad(cfg, [], [LONE], [], [], table), OneLoad(cfg, [], [], [LONE], [], table));
    ReachesNext(cfg, st, Send(0));
    assert Next(st, Send(0), cfg).sms[0] == t.sms[0];
    assert Next(st, Send(0), cfg).sms == t.sms;
    assert Next(st, Send(0), cfg) == t;
  }

  lemma LoadArrived(cfg: Config)
    requires Sane(cfg) && cfg.sms > 0 && cfg.banks > 0 && cfg.entries1 > 0
    ensures Reaches(cfg, OneLoad(cfg, [], [], [], [LONE], map[0 := [LONE]]))
  {
    hide Reaches;
    LoadSent(cfg);
    var table: Table := map[0 := [LONE]];
    var (st, t) := (OneLoad(cfg, [], [], [LONE], [], table), OneLoad(cfg, [], [], [], [LONE], table));
    assert st.requests == [LONE] && LONE.sector == 0;
    ReachesNext(cfg, st, Arrive(0));
    assert Without([LONE], 0) == [];
    assert Next(st, Arrive(0), cfg).slices[cfg.home(0)] == t.slices[cfg.home(0)];
    assert Next(st, Arrive(0), cfg).slices == t.slices;
  }

  /** The only step left for a load in front of a full table leaves everything as it is. */
  lemma StuckInL1(cfg: Config)
    requires Sane(cfg) && cfg.sms > 0 && cfg.banks > 0 && cfg.entries1 == 0
    ensures var st := OneLoad(cfg, [LONE], [], [], [], map[]); !CanMove(st, cfg) && !Idle(st)
  {
    hide Next;
    var st := OneLoad(cfg, [LONE], [], [], [], map[]);
    assert st.sms[0].toL1[0] == [LONE];
    OnlyAccessL1(cfg);
    AccessL1Waits(cfg);
  }

  lemma OnlyAccessL1(cfg: Config)
    requires Sane(cfg) && cfg.sms > 0 && cfg.banks > 0
    ensures var st := OneLoad(cfg, [LONE], [], [], [], map[]);
      forall e | Enabled(st, e, cfg) && !e.Create? :: e.AccessL1? && e.sm == 0 && e.bank == 0
  {}

  lemma AccessL1Waits(cfg: Config)
    requires Sane(cfg) && cfg.sms > 0 && cfg.banks > 0 && cfg.entries1 == 0
    ensures var (st, e) := (OneLoad(cfg, [LONE], [], [], [], map[]), AccessL1(0, 0, false));
      Enabled(st, e, cfg) && Next(st, e, cfg) == st
  {
    var st := OneLoad(cfg, [LONE], [], [], [], map[]);
    assert st.sms[0].toL1[0] == [LONE];
    assert st.sms[0 := st.sms[0]] == st.sms;
  }

  lemma StuckInL2(cfg: Config)
    requires Sane(cfg) && cfg.sms > 0 && cfg.banks > 0 && cfg.entries2 == 0
    ensures var st := OneLoad(cfg, [], [], [], [LONE], map[0 := [LONE]]); !CanMove(st, cfg) && !Idle(st)
  {
    hide Next;
    var st := OneLoad(cfg, [], [], [], [LONE], map[0 := [LONE]]);
    assert st.slices[cfg.home(0)].arrived == [LONE];
    OnlyAccessL2(cfg);
    AccessL2Waits(cfg);
  }

  lemma OnlyAccessL2(cfg: Config)
    requires Sane(cfg) && cfg.sms > 0 && cfg.banks > 0
    ensures var st := OneLoad(cfg, [], [], [], [LONE], map[0 := [LONE]]);
      forall e | Enabled(st, e, cfg) && !e.Create? :: e.AccessL2? && e.k == cfg.home(0)
  {}

  lemma AccessL2Waits(cfg: Config)
    requires Sane(cfg) && cfg.sms > 0 && cfg.banks > 0 && cfg.entries2 == 0
    ensures var (st, e) := (OneLoad(cfg, [], [], [], [LONE], map[0 := [LONE]]), AccessL2(cfg.home(0), false));
      Enabled(st, e, cfg) && Next(st, e, cfg) == st
  {
    var (st, k) := (OneLoad(cfg, [], [], [], [LONE], map[0 := [LONE]]), cfg.home(0));
    assert st.slices[k].arrived == [LONE];
    assert st.slices[k := st.slices[k]] == st.slices;
  }

  /** Exactly the configurations with room for one entry in each table never get stuck, whatever their merge limits. */
  lemma NeverStuckIff(cfg: Config)
    requires Sane(cfg) && cfg.sms > 0 && cfg.banks > 0
    ensures RoomForOne(cfg) <==> forall st | Reaches(cfg, st) :: CanMove(st, cfg) || Idle(st)
  {
    hide Inv, Idle, Feasible, Run, CanMove;
    if RoomForOne(cfg) {
      forall st | Reaches(cfg, st) ensures CanMove(st, cfg) || Idle(st) {
        var es :| Feasible(Init(cfg), es, cfg) && Run(Init(cfg), es, cfg) == st;
        InitInv(cfg);
        RunKeepsInv(Init(cfg), es, cfg);
        NeverStuck(st, cfg);
      }
    } else if cfg.entries1 == 0 {
      LoadCreated(cfg);
      StuckInL1(cfg);
    } else {
      LoadArrived(cfg);
      StuckInL2(cfg);
    }
  }
}
