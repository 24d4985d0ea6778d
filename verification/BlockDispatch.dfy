/** Thread blocks onto SMs: the first round-robin placement and the refills. */
module BlockDispatch {
  import opened Division

  // ------------------------------------------------------------------
  // The first placement
  // ------------------------------------------------------------------

  /** Blocks 0 .. placed-1 dealt round robin over `active` SMs: what SM s gets. */
  ghost function Dealt(s: int, placed: nat, active: nat): set<int>
    requires active > 0
  {
    set b | 0 <= b < placed && b % active == s
  }

  lemma DealtNext(s: int, placed: nat, active: nat)
    requires active > 0
    ensures Dealt(s, placed + 1, active) == Dealt(s, placed, active) + if placed % active == s then {placed} else {}
  {}

  lemma DealtNone(active: nat)
    requires active > 0
    ensures forall s :: Dealt(s, 0, active) == {}
  {}

  lemma DivNext(p: nat, a: nat)
    requires a > 0
    ensures (p + 1) / a == (if p % a == a - 1 then p / a + 1 else p / a)
    ensures (p + 1) % a == (if p % a == a - 1 then 0 else p % a + 1)
  {
    var q, r := p / a, p % a;
    assert p + 1 == q * a + (r + 1);
    if r == a - 1 {
      assert p + 1 == (q + 1) * a;
      DivUnique(p + 1, a, q + 1, 0);
    } else {
      DivUnique(p + 1, a, q, r + 1);
    }
  }

  lemma {:induction false} DealtSize(s: int, placed: nat, active: nat)
    requires 0 <= s < active
    ensures |Dealt(s, placed, active)| == placed / active + if s < placed % active then 1 else 0
  {
    if placed == 0 {
      assert Dealt(s, 0, active) == {};
    } else {
      DealtSize(s, placed - 1, active);
      DealtNext(s, placed - 1, active);
      DivNext(placed - 1, active);
    }
  }

  /** The SM whose turn it is has room exactly until every active SM is full. */
  lemma TurnHasRoomIff(placed: nat, active: nat, maxBlocks: nat)
    requires active > 0
    ensures |Dealt(placed % active, placed, active)| < maxBlocks <==> placed < maxBlocks * active
  {
    DealtSize(placed % active, placed, active);
    var q, r := placed / active, placed % active;
    assert placed == q * active + r;
    assert (maxBlocks - q) * active == maxBlocks * active - q * active;
    MultipleBeyond(maxBlocks - q, active);
  }

  lemma LimitReached(placed: nat, active: nat, maxBlocks: nat)
    requires active > 0 && placed <= maxBlocks * active
    ensures placed / active < maxBlocks || (placed / active == maxBlocks && placed % active == 0)
  {
    var q, r := placed / active, placed % active;
    assert placed == q * active + r;
    assert (q - maxBlocks) * active == q * active - maxBlocks * active;
    MultipleBeyond(q - maxBlocks, active);
  }

  /** Loads of two active SMs differ by at most one, and none exceeds the limit. */
  lemma DealtEvenly(s: int, t: int, placed: nat, active: nat, maxBlocks: nat)
    requires 0 <= s < active && 0 <= t < active && placed <= maxBlocks * active
    ensures -1 <= |Dealt(s, placed, active)| - |Dealt(t, placed, active)| <= 1
    ensures |Dealt(s, placed, active)| <= maxBlocks
  {
    DealtSize(s, placed, active);
    DealtSize(t, placed, active);
    LimitReached(placed, active, maxBlocks);
  }

  /** Every placed block is dealt to exactly one SM. */
  lemma DealtOnce(b: int, placed: nat, active: nat)
    requires active > 0
    ensures forall s :: b in Dealt(s, placed, active) <==> 0 <= b < placed && s == b % active
  {}

  /** The first `placed` blocks are dealt, and just the SMs that got one are active. */
  ghost predicate DealtTo(blocks: seq<set<int>>, flags: seq<bool>, placed: nat, active: nat) {
    && |blocks| == |flags|
    && forall s | 0 <= s < |blocks| ::
         blocks[s] == (if s < active then Dealt(s, placed, active) else {}) && flags[s] == (blocks[s] != {})
  }

  lemma DealtAt(blocks: seq<set<int>>, flags: seq<bool>, placed: nat, active: nat, s: int)
    requires DealtTo(blocks, flags, placed, active) && 0 <= s < |blocks|
    ensures |flags| == |blocks|
    ensures blocks[s] == (if s < active then Dealt(s, placed, active) else {}) && flags[s] == (blocks[s] != {})
  {}

  lemma DealOne(blocks: seq<set<int>>, flags: seq<bool>, placed: nat, active: nat)
    requires DealtTo(blocks, flags, placed, active) && 0 < active <= |blocks|
    ensures var i := placed % active;
      DealtTo(blocks[i := blocks[i] + {placed}], flags[i := true], placed + 1, active)
  {
    hide Dealt;
    forall s | 0 <= s < active { DealtNext(s, placed, active); }
  }

  function Min(x: nat, y: nat): nat { if x < y then x else y }

  /** lo, lo + 1, .., hi - 1 */
  ghost function Range(lo: int, hi: int): (s: set<int>)
    ensures forall b :: b in s <==> lo <= b < hi
    decreases hi - lo
  {
    if lo >= hi then {} else Range(lo, hi - 1) + {hi - 1}
  }

  lemma RangeNext(lo: int, hi: int)
    ensures lo <= hi ==> Range(lo, hi + 1) == Range(lo, hi) + {hi}
    ensures Range(lo, lo) == {}
  {}

  datatype Spawn = NoResidency | Spawned

  class Kernel {
    const gridSize: nat
    var blockPointer: nat

    constructor (gridSize: nat)
      ensures this.gridSize == gridSize && blockPointer == 0
    {
      this.gridSize := gridSize;
      blockPointer := 0;
    }
  }

  class Gpu {
    const kernel: Kernel
    const blockVec: array<set<int>>     // per SM: ids of its resident blocks
    const isActive: array<bool>
    var maxBlocks: int

    ghost predicate Valid()
      reads this
    {
      blockVec.Length == isActive.Length > 0
    }

    constructor (kernel: Kernel, smNum: nat)
      requires smNum > 0
      ensures Valid() && this.kernel == kernel && blockVec.Length == smNum
      ensures fresh(blockVec) && fresh(isActive)
      ensures forall s :: 0 <= s < smNum ==> blockVec[s] == {} && !isActive[s]
    {
      this.kernel := kernel;
      blockVec := new set<int>[smNum](_ => {});
      isActive := new bool[smNum](_ => false);
      maxBlocks := 0;
    }

    /** first_spawn_block. A full SM keeps its turn, so after the first refusal no block is placed any more. */
    method FirstSpawnBlock(limit: int) returns (result: Spawn)
      requires Valid() && kernel.blockPointer == 0
      requires forall s :: 0 <= s < blockVec.Length ==> blockVec[s] == {} && !isActive[s]
      modifies this, blockVec, isActive, kernel
      ensures Valid() && (result.NoResidency? <==> limit <= 0)
      ensures limit > 0 ==>
        var active := Min(kernel.gridSize, blockVec.Length);
        && maxBlocks == limit
        && kernel.blockPointer == Min(kernel.gridSize, limit * active)
        && (forall s | 0 <= s < blockVec.Length ::
              && blockVec[s] == (if s < active then Dealt(s, kernel.blockPointer, active) else {})
              && isActive[s] == (blockVec[s] != {}))
    {
      hide Dealt;
      if limit <= 0 { return NoResidency; }
      var active := Min(kernel.gridSize, blockVec.Length);
      maxBlocks := limit;
      var index := 0;
      ghost var capacity := limit * active;
      if active > 0 { DealtNone(active); }
      assert DealtTo(blockVec[..], isActive[..], 0, active);
      hide DealtTo;
      for id := 0 to kernel.gridSize
        invariant maxBlocks == limit
        invariant kernel.blockPointer == Min(id, capacity)
        invariant active > 0 ==> index == kernel.blockPointer % active
        invariant DealtTo(blockVec[..], isActive[..], kernel.blockPointer, active)
      {
        ghost var placed := kernel.blockPointer;
        TurnHasRoomIff(placed, active, limit);
        assert index == placed % active && 0 <= index < active;
        DealtAt(blockVec[..], isActive[..], placed, active, index);
        if |blockVec[index]| < limit {
          ghost var before, flags := blockVec[..], isActive[..];
          DealOne(before, flags, placed, active);
          DivNext(placed, active);
          blockVec[index] := blockVec[index] + {id};
          isActive[index] := true;
          assert blockVec[..] == before[index := before[index] + {placed}] && isActive[..] == flags[index := true];
          kernel.blockPointer := kernel.blockPointer + 1;
          index := index + 1;
          ModWraps(index, active);
          index := index % active;
        }
      }
      forall s | 0 <= s < blockVec.Length {
        DealtAt(blockVec[..], isActive[..], kernel.blockPointer, active, s);
      }
      return Spawned;
    }

    /** The next block of the kernel goes to SM s. */
    method TakeBlock(s: nat)
      requires Valid() && s < blockVec.Length
      modifies blockVec, kernel
      ensures blockVec[s] == Plus(old(blockVec[s]), old(kernel.blockPointer))
      ensures kernel.blockPointer == old(kernel.blockPointer) + 1
      ensures forall t | 0 <= t < blockVec.Length && t != s :: blockVec[t] == old(blockVec[t])
    {
      blockVec[s] := blockVec[s] + {kernel.blockPointer};
      kernel.blockPointer := kernel.blockPointer + 1;
    }

    /** The refill at the end of an SM's cycle. */
    method Refill(s: nat)
      requires Valid() && s < blockVec.Length && kernel.blockPointer <= kernel.gridSize
      requires forall b | b in blockVec[s] :: b < kernel.blockPointer
      modifies blockVec, kernel
      ensures forall t | 0 <= t < blockVec.Length && t != s :: blockVec[t] == old(blockVec[t])
      ensures var n := Room(|old(blockVec[s])|, old(kernel.blockPointer), kernel.gridSize, maxBlocks);
        && kernel.blockPointer == old(kernel.blockPointer) + n
        && blockVec[s] == old(blockVec[s]) + Range(old(kernel.blockPointer), old(kernel.blockPointer) + n)
    {
      hide Range, Room, Refilled, Plus;
      ghost var n0, p0, v0 := |blockVec[s]|, kernel.blockPointer, blockVec[s];
      RoomIs(n0, p0, kernel.gridSize, maxBlocks);
      RefilledNext(v0, p0, p0);
      while |blockVec[s]| < maxBlocks && kernel.blockPointer < kernel.gridSize
        invariant p0 <= kernel.blockPointer <= kernel.gridSize
        invariant blockVec[s] == Refilled(v0, p0, kernel.blockPointer)
        invariant |blockVec[s]| == n0 + kernel.blockPointer - p0
        invariant kernel.blockPointer - p0 <= Room(n0, p0, kernel.gridSize, maxBlocks)
        invariant forall t | 0 <= t < blockVec.Length && t != s :: blockVec[t] == old(blockVec[t])
        decreases kernel.gridSize - kernel.blockPointer
      {
        RefilledNext(v0, p0, kernel.blockPointer);
        TakeBlock(s);
      }
      RefilledNext(v0, p0, kernel.blockPointer);
    }
  }

  ghost function Plus(x: set<int>, b: int): set<int> { x + {b} }

  /** An SM with the blocks x after it took blocks lo .. hi-1. */
  ghost function Refilled(x: set<int>, lo: int, hi: int): set<int> { x + Range(lo, hi) }

  lemma RefilledNext(x: set<int>, lo: int, hi: int)
    requires lo <= hi && forall b | b in x :: b < lo
    ensures Refilled(x, lo, lo) == x && Refilled(x, lo, hi) == x + Range(lo, hi)
    ensures Refilled(x, lo, hi + 1) == Plus(Refilled(x, lo, hi), hi)
    ensures |Refilled(x, lo, hi + 1)| == |x| + hi + 1 - lo
  {
    RangeNext(lo, hi);
    RangeIsNew(x, lo, hi + 1);
  }

  lemma RoomIs(size: nat, pointer: nat, grid: nat, maxBlocks: int)
    requires pointer <= grid
    ensures var n := Room(size, pointer, grid, maxBlocks);
      && pointer + n <= grid && (n > 0 ==> size + n <= maxBlocks)
      && (pointer + n == grid || size + n >= maxBlocks)
  {}

  /** Blocks a refill takes: up to the limit, as far as there are any left. */
  function Room(size: nat, pointer: nat, grid: nat, maxBlocks: int): nat
    requires pointer <= grid
  {
    if maxBlocks <= size then 0 else Min(maxBlocks - size, grid - pointer)
  }

  // ------------------------------------------------------------------
  // Whole runs
  // ------------------------------------------------------------------

  /** `log[k]` is the k-th dispatch: which block to which SM. */
  datatype Dispatch = Dispatch(sms: seq<set<int>>, pointer: nat, log: seq<(int, int)>)

  datatype Config = Config(sms: nat, grid: nat, maxBlocks: nat)

  datatype Event = Refill(s: nat) | Finish(s: nat, b: int)

  function Dispatched(from: int, n: nat, s: int): (l: seq<(int, int)>)
    ensures |l| == n
  {
    seq(n, j => (from + j, s))
  }

  /** State after the first placement. */
  ghost function Start(cfg: Config): Dispatch
    requires cfg.sms > 0 && cfg.maxBlocks > 0
  {
    var active := Min(cfg.grid, cfg.sms);
    var placed := Min(cfg.grid, cfg.maxBlocks * active);
    Dispatch(seq(cfg.sms, s requires 0 <= s < cfg.sms => if s < active then Dealt(s, placed, active) else {}), placed,
             seq(placed, b => (b, if active > 0 then b % active else 0)))
  }

  predicate Enabled(d: Dispatch, e: Event, cfg: Config) {
    match e
    case Refill(s) => s < |d.sms| && d.pointer <= cfg.grid
    case Finish(s, b) => s < |d.sms| && b in d.sms[s]
  }

  ghost function Next(d: Dispatch, e: Event, cfg: Config): Dispatch
    requires Enabled(d, e, cfg)
  {
    match e
    case Refill(s) =>
      var n := Room(|d.sms[s]|, d.pointer, cfg.grid, cfg.maxBlocks);
      Dispatch(d.sms[s := d.sms[s] + Range(d.pointer, d.pointer + n)], d.pointer + n,
               d.log + Dispatched(d.pointer, n, s))
    case Finish(s, b) => d.(sms := d.sms[s := d.sms[s] - {b}])
  }

  ghost predicate LogOrdered(d: Dispatch, cfg: Config) {
    forall k | 0 <= k < |d.log| :: d.log[k].0 == k && 0 <= d.log[k].1 < cfg.sms
  }

  ghost predicate Inv(d: Dispatch, cfg: Config) {
    && |d.sms| == cfg.sms && |d.log| == d.pointer <= cfg.grid
    && LogOrdered(d, cfg)
    && (forall s | 0 <= s < |d.sms| :: ResidentAtHome(d, s))
    && (forall s | 0 <= s < |d.sms| :: |d.sms[s]| <= cfg.maxBlocks)
  }

  lemma StartInv(cfg: Config)
    requires cfg.sms > 0 && cfg.maxBlocks > 0
    ensures Inv(Start(cfg), cfg)
  {
    var active := Min(cfg.grid, cfg.sms);
    var d := Start(cfg);
    if active > 0 {
      forall b { DealtOnce(b, d.pointer, active); }
      forall s | 0 <= s < cfg.sms ensures |d.sms[s]| <= cfg.maxBlocks {
        if s < active { DealtEvenly(s, s, d.pointer, active, cfg.maxBlocks); }
      }
    }
  }

  lemma {:induction false} RangeSize(lo: int, hi: int)
    requires lo <= hi
    ensures |Range(lo, hi)| == hi - lo
    decreases hi - lo
  {
    if lo < hi { RangeSize(lo, hi - 1); }
  }

  /** New blocks are none of those resident already. */
  lemma RangeIsNew(x: set<int>, lo: int, hi: int)
    requires lo <= hi && forall b | b in x :: b < lo
    ensures |x + Range(lo, hi)| == |x| + hi - lo
  {
    RangeSize(lo, hi);
    assert x !! Range(lo, hi);
  }

  ghost predicate ResidentAtHome(d: Dispatch, s: int)
    requires 0 <= s < |d.sms|
  {
    forall b | b in d.sms[s] :: 0 <= b < |d.log| && d.log[b].1 == s
  }

  lemma RefillFits(d: Dispatch, s: nat, cfg: Config)
    requires Inv(d, cfg) && s < |d.sms|
    ensures var t := Next(d, Refill(s), cfg);
      && |t.sms| == cfg.sms && |t.log| == t.pointer <= cfg.grid
      && forall u | 0 <= u < |t.sms| :: |t.sms[u]| <= cfg.maxBlocks
  {
    hide Range, ResidentAtHome, Room, LogOrdered;
    RoomFits(|d.sms[s]|, d.pointer, cfg);
    BelowPointer(d, s);
    RangeIsNew(d.sms[s], d.pointer, d.pointer + Room(|d.sms[s]|, d.pointer, cfg.grid, cfg.maxBlocks));
  }

  lemma RefillKeepsInv(d: Dispatch, s: nat, cfg: Config)
    requires Inv(d, cfg) && s < |d.sms|
    ensures Inv(Next(d, Refill(s), cfg), cfg)
  {
    hide Range, ResidentAtHome, Room, LogOrdered, Dispatched;
    RefillFits(d, s, cfg);
    var t := Next(d, Refill(s), cfg);
    var n := Room(|d.sms[s]|, d.pointer, cfg.grid, cfg.maxBlocks);
    LogStaysOrdered(d, s, n, t, cfg);
    forall u | 0 <= u < |t.sms| { LogGrows(d, s, n, t, u); }
  }

  lemma RoomFits(size: nat, pointer: nat, cfg: Config)
    requires size <= cfg.maxBlocks && pointer <= cfg.grid
    ensures var n := Room(size, pointer, cfg.grid, cfg.maxBlocks); size + n <= cfg.maxBlocks && pointer + n <= cfg.grid
  {}

  lemma LogStaysOrdered(d: Dispatch, s: nat, n: nat, t: Dispatch, cfg: Config)
    requires |d.log| == d.pointer && LogOrdered(d, cfg) && s < cfg.sms
    requires t.log == d.log + Dispatched(d.pointer, n, s)
    ensures LogOrdered(t, cfg)
  {}

  lemma BelowPointer(d: Dispatch, s: nat)
    requires s < |d.sms| && |d.log| == d.pointer && ResidentAtHome(d, s)
    ensures forall b | b in d.sms[s] :: b < d.pointer
  {}

  lemma LogGrows(d: Dispatch, s: nat, n: nat, t: Dispatch, u: nat)
    requires u < |d.sms| && s < |d.sms| && |d.log| == d.pointer && ResidentAtHome(d, u)
    requires t == Dispatch(d.sms[s := d.sms[s] + Range(d.pointer, d.pointer + n)], d.pointer + n,
                           d.log + Dispatched(d.pointer, n, s))
    ensures ResidentAtHome(t, u)
  {}

  lemma StepKeepsInv(d: Dispatch, e: Event, cfg: Config)
    requires Inv(d, cfg) && Enabled(d, e, cfg)
    ensures Inv(Next(d, e, cfg), cfg)
  {
    match e
    case Refill(s) => RefillKeepsInv(d, s, cfg);
    case Finish(s, b) =>
      var t := Next(d, e, cfg);
      assert |d.sms[s] - {b}| <= |d.sms[s]|;
      forall u | 0 <= u < |t.sms| ensures ResidentAtHome(t, u) { assert ResidentAtHome(d, u); }
  }

  /** A run; a Finish of a block that is not there changes nothing. */
  ghost function Run(d: Dispatch, es: seq<Event>, cfg: Config): Dispatch
    decreases |es|
  {
    if es == [] then d
    else Run(if Enabled(d, es[0], cfg) then Next(d, es[0], cfg) else d, es[1..], cfg)
  }

  lemma {:induction false} RunKeepsInv(d: Dispatch, es: seq<Event>, cfg: Config)
    requires Inv(d, cfg)
    ensures Inv(Run(d, es, cfg), cfg)
    decreases |es|
  {
    hide Inv, Next, Enabled;
    if es != [] {
      if Enabled(d, es[0], cfg) {
        StepKeepsInv(d, es[0], cfg);
        RunKeepsInv(Next(d, es[0], cfg), es[1..], cfg);
      } else {
        RunKeepsInv(d, es[1..], cfg);
      }
    }
  }

  /** Over every run: blocks 0 .. pointer-1, and no others, have been dispatched, each once and to one SM; a
      resident block is on that SM and on no other; no SM holds more than the limit. */
  lemma EveryBlockDispatchedOnce(cfg: Config, es: seq<Event>, b: int)
    requires cfg.sms > 0 && cfg.maxBlocks > 0
    ensures var d := Run(Start(cfg), es, cfg);
      && (0 <= b < d.pointer <==> exists k :: 0 <= k < |d.log| && d.log[k].0 == b)
      && (forall j, k | 0 <= j < |d.log| && 0 <= k < |d.log| && d.log[j].0 == b && d.log[k].0 == b :: j == k)
      && (forall s, t | 0 <= s < |d.sms| && 0 <= t < |d.sms| && b in d.sms[s] && b in d.sms[t] :: s == t)
      && (forall s | 0 <= s < |d.sms| :: |d.sms[s]| <= cfg.maxBlocks)
  {
    hide Run, Start;
    StartInv(cfg);
    RunKeepsInv(Start(cfg), es, cfg);
    var d := Run(Start(cfg), es, cfg);
    if 0 <= b < d.pointer { assert d.log[b].0 == b; }
    assert forall s | 0 <= s < |d.sms| && b in d.sms[s] :: ResidentAtHome(d, s);
  }

  /** Block b is resident on the SM it was dispatched to. */
  ghost function Resident(d: Dispatch, b: int): nat {
    if 0 <= b < |d.log| && 0 <= d.log[b].1 < |d.sms| && b in d.sms[d.log[b].1] then 1 else 0
  }

  /** How often block b finishes in a run. */
  ghost function Finished(d: Dispatch, es: seq<Event>, cfg: Config, b: int): nat
    decreases |es|
  {
    if es == [] then 0
    else
      (if es[0].Finish? && es[0].b == b && Enabled(d, es[0], cfg) then 1 else 0)
      + Finished(if Enabled(d, es[0], cfg) then Next(d, es[0], cfg) else d, es[1..], cfg, b)
  }

  function Between(lo: int, b: int, hi: int): nat { if lo <= b < hi then 1 else 0 }

  lemma StepMovesBlock(d: Dispatch, e: Event, cfg: Config, b: int)
    requires Inv(d, cfg) && Enabled(d, e, cfg)
    ensures var t := Next(d, e, cfg);
      Resident(t, b) + (if e.Finish? && e.b == b then 1 else 0) == Resident(d, b) + Between(d.pointer, b, t.pointer)
  {
    hide Room, LogOrdered;
    match e
    case Refill(s) =>
      RefillFits(d, s, cfg);
      assert ResidentAtHome(d, s);
    case Finish(s, c) =>
      assert ResidentAtHome(d, s);
  }

  lemma {:induction false} RunMovesBlock(d: Dispatch, es: seq<Event>, cfg: Config, b: int)
    requires Inv(d, cfg)
    ensures var t := Run(d, es, cfg);
      && d.pointer <= t.pointer
      && Resident(t, b) + Finished(d, es, cfg, b) == Resident(d, b) + Between(d.pointer, b, t.pointer)
    decreases |es|
  {
    hide Inv, Next, Enabled, Resident;
    if es != [] {
      if Enabled(d, es[0], cfg) {
        StepMovesBlock(d, es[0], cfg, b);
        StepKeepsInv(d, es[0], cfg);
        PointerMovesOn(d, es[0], cfg);
        RunMovesBlock(Next(d, es[0], cfg), es[1..], cfg, b);
      } else {
        RunMovesBlock(d, es[1..], cfg, b);
      }
    }
  }

  lemma PointerMovesOn(d: Dispatch, e: Event, cfg: Config)
    requires Enabled(d, e, cfg)
    ensures d.pointer <= Next(d, e, cfg).pointer
  {}

  lemma StartResident(cfg: Config, b: int)
    requires cfg.sms > 0 && cfg.maxBlocks > 0
    ensures Resident(Start(cfg), b) == Between(0, b, Start(cfg).pointer)
  {
    var (d, active) := (Start(cfg), Min(cfg.grid, cfg.sms));
    if active > 0 && 0 <= b < d.pointer { DealtOnce(b, d.pointer, active); }
  }

  /** Over every run: a block that has been dispatched is resident on its SM, or has finished once; no other block
      has finished or is resident. */
  lemma EveryBlockResidentOrFinished(cfg: Config, es: seq<Event>, b: int)
    requires cfg.sms > 0 && cfg.maxBlocks > 0
    ensures var d := Run(Start(cfg), es, cfg);
      Resident(d, b) + Finished(Start(cfg), es, cfg, b) == if 0 <= b < d.pointer then 1 else 0
  {
    hide Run, Start, Inv, Resident, Finished;
    StartInv(cfg);
    StartResident(cfg, b);
    RunMovesBlock(Start(cfg), es, cfg, b);
  }

  /** A refill stops only with the SM full or the kernel exhausted, so no active SM runs dry early. */
  lemma RefillFillsUp(d: Dispatch, s: nat, cfg: Config)
    requires Inv(d, cfg) && s < |d.sms|
    ensures var t := Next(d, Refill(s), cfg);
      t.pointer == cfg.grid || |t.sms[s]| == cfg.maxBlocks
  {
    hide Range, Room, Dispatched, LogOrdered, ResidentAtHome;
    RoomIs(|d.sms[s]|, d.pointer, cfg.grid, cfg.maxBlocks);
    var n := Room(|d.sms[s]|, d.pointer, cfg.grid, cfg.maxBlocks);
    BelowPointer(d, s);
    RangeIsNew(d.sms[s], d.pointer, d.pointer + n);
  }
}
