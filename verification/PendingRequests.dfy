/** Warps, load/store units and outstanding loads of one SM: why nothing a reply can name is ever removed. */
module PendingRequests {
  import opened Basics
  import opened Requests

  const INT_MAX := 0x7FFF_FFFF

  /** Block and warp number. */
  type Key = (int, int)

  datatype WarpState = WarpState(
    size: nat,                // instructions of the warp
    point: nat,               // next instruction
    completions: seq<int>,    // per earlier instruction: the cycle from which its result may be used
    loads: set<nat>,          // which of them are loads with requests of their own: bookkeeping only
    pendingNum: int,          // m_pending_mem_request_num
    pendingInst: int,         // pending_inst
    pending: map<nat, int>)   // pending_request

  /** A memory instruction that a load/store unit is still splitting into sector requests. */
  datatype Held = Held(key: Key, index: nat, store: bool, left: nat)

  datatype Unit = Unit(ready: int, held: Option<Held>)

  datatype Sm = Sm(
    now: int,
    blocks: set<int>,
    warps: map<Key, WarpState>,
    units: seq<Unit>,
    inFlight: seq<Slot>,      // loads emitted and not yet answered
    failed: bool)             // a reply named a missing warp, or a load that was not pending

  function Pend(p: map<nat, int>, i: nat): int { if i in p then p[i] else 0 }

  // ------------------------------------------------------------------
  // Steps
  // ------------------------------------------------------------------

  datatype Event =
    | Spawn(block: int, sizes: map<int, nat>)
    | IssueOther(key: Key, u: nat, interval: nat, latency: nat)   // anything that leaves no request behind
    | IssueMemory(key: Key, u: nat, store: bool, sectors: nat)
    | Emit(u: nat)                                           // unit_cycle
    | Reply(i: nat)
    | Retire(key: Key)
    | DropBlock(block: int)
    | Tick

  predicate CanIssue(s: Sm, key: Key, u: nat) {
    && key in s.warps && s.warps[key].point < s.warps[key].size
    && u < |s.units| && s.units[u].ready <= s.now
  }

  predicate Enabled(s: Sm, e: Event) {
    match e
    case Spawn(b, _) => b !in s.blocks
    case IssueOther(key, u, _, _) => CanIssue(s, key, u)
    case IssueMemory(key, u, _, n) => CanIssue(s, key, u) && n > 0
    case Emit(u) => u < |s.units| && s.units[u].held.Some?
    case Reply(i) => i < |s.inFlight|
    case Retire(key) =>
      && key in s.warps && s.warps[key].point >= s.warps[key].size
      && s.warps[key].pendingNum == 0 && s.warps[key].pendingInst == 0
    case DropBlock(b) => b in s.blocks && forall key | key in s.warps :: key.0 != b
    case Tick => s.now + 1 < INT_MAX
  }

  function NewWarps(b: int, sizes: map<int, nat>): map<Key, WarpState> {
    map key: Key | key in (set w | w in sizes :: (b, w)) && key.1 in sizes
      :: WarpState(sizes[key.1], 0, [], {}, 0, 0, map[])
  }

  /** The write-back of one load: guarded decrease; the instruction completes when its count reaches zero. */
  function Answer(w: WarpState, index: nat, now: int): WarpState {
    var n := Pend(w.pending, index) - 1;
    if n < 0 then w
    else w.(pending := w.pending[index := n], pendingNum := w.pendingNum - 1,
            completions := if n == 0 && index < |w.completions| then w.completions[index := now] else w.completions)
  }

  /** A memory instruction is issued: a store is complete at once, a load when its requests are answered. */
  function TakeMemory(w: WarpState, store: bool, now: int): WarpState {
    w.(point := w.point + 1, pendingInst := w.pendingInst + 1,
       completions := w.completions + [if store then now + 1 else INT_MAX],
       loads := if store then w.loads else w.loads + {w.point})
  }

  /** A sector request of h leaves: a load is counted as pending; the last one frees the unit. */
  function EmitFrom(w: WarpState, h: Held): WarpState {
    var w1 := if h.store then w
              else w.(pending := w.pending[h.index := Pend(w.pending, h.index) + 1], pendingNum := w.pendingNum + 1);
    if h.left <= 1 then w1.(pendingInst := w1.pendingInst - 1) else w1
  }

  function EmitBy(x: Unit, now: int): Unit
    requires x.held.Some?
  {
    var h := x.held.value;
    if h.left <= 1 then Unit(now, None) else x.(held := Some(h.(left := h.left - 1)))
  }

  function Emitted(s: Sm, u: nat): Sm
    requires u < |s.units| && s.units[u].held.Some? && s.units[u].held.value.key in s.warps
  {
    var h := s.units[u].held.value;
    s.(warps := s.warps[h.key := EmitFrom(s.warps[h.key], h)],
       units := s.units[u := EmitBy(s.units[u], s.now)],
       inFlight := if h.store then s.inFlight else s.inFlight + [Slot(h.key.0, h.key.1, h.index)])
  }

  function Next(s: Sm, e: Event): Sm
    requires Enabled(s, e)
  {
    match e
    case Spawn(b, sizes) => s.(blocks := s.blocks + {b}, warps := s.warps + NewWarps(b, sizes))
    case IssueOther(key, u, interval, latency) =>
      var w := s.warps[key];
      s.(warps := s.warps[key := w.(point := w.point + 1, completions := w.completions + [s.now + latency])],
         units := s.units[u := s.units[u].(ready := s.units[u].ready + interval)])
    case IssueMemory(key, u, store, n) =>
      var w := s.warps[key];
      s.(warps := s.warps[key := TakeMemory(w, store, s.now)],
         units := s.units[u := Unit(INT_MAX, Some(Held(key, w.point, store, n)))])
    case Emit(u) => if s.units[u].held.value.key in s.warps then Emitted(s, u) else s.(failed := true)
    case Reply(i) =>
      var r := s.inFlight[i];
      var key := (r.block, r.warp);
      if r.block in s.blocks && key in s.warps then
        s.(warps := s.warps[key := Answer(s.warps[key], r.index, s.now)], inFlight := Without(s.inFlight, i),
           failed := s.failed || Pend(s.warps[key].pending, r.index) <= 0)
      else s.(inFlight := Without(s.inFlight, i), failed := true)
    case Retire(key) => s.(warps := s.warps - {key})
    case DropBlock(b) => s.(blocks := s.blocks - {b})
    case Tick => s.(now := s.now + 1)
  }

  // ------------------------------------------------------------------
  // Counting
  // ------------------------------------------------------------------

  function OfSlot(q: seq<Slot>, slot: Slot): nat {
    if q == [] then 0 else (if q[0] == slot then 1 else 0) + OfSlot(q[1..], slot)
  }

  function OfWarp(q: seq<Slot>, key: Key): nat {
    if q == [] then 0 else (if (q[0].block, q[0].warp) == key then 1 else 0) + OfWarp(q[1..], key)
  }

  lemma {:induction false} CountsConcat(a: seq<Slot>, b: seq<Slot>, slot: Slot, key: Key)
    ensures OfSlot(a + b, slot) == OfSlot(a, slot) + OfSlot(b, slot)
    ensures OfWarp(a + b, key) == OfWarp(a, key) + OfWarp(b, key)
  {
    if a == [] {
      assert a + b == b;
    } else {
      assert (a + b)[1..] == a[1..] + b;
      CountsConcat(a[1..], b, slot, key);
    }
  }

  lemma CountsPush(q: seq<Slot>, r: Slot)
    ensures forall slot :: OfSlot(q + [r], slot) == OfSlot(q, slot) + if r == slot then 1 else 0
    ensures forall key :: OfWarp(q + [r], key) == OfWarp(q, key) + if (r.block, r.warp) == key then 1 else 0
  {
    forall slot ensures OfSlot(q + [r], slot) == OfSlot(q, slot) + if r == slot then 1 else 0 {
      CountsConcat(q, [r], slot, (0, 0));
    }
    forall key ensures OfWarp(q + [r], key) == OfWarp(q, key) + if (r.block, r.warp) == key then 1 else 0 {
      CountsConcat(q, [r], r, key);
    }
  }

  lemma CountsDrop(q: seq<Slot>, i: nat)
    requires i < |q|
    ensures forall slot :: OfSlot(q, slot) == OfSlot(Without(q, i), slot) + if q[i] == slot then 1 else 0
    ensures forall key :: OfWarp(q, key) == OfWarp(Without(q, i), key) + if (q[i].block, q[i].warp) == key then 1 else 0
  {
    forall slot ensures OfSlot(q, slot) == OfSlot(Without(q, i), slot) + if q[i] == slot then 1 else 0 {
      DropCounts(q, i, slot, (0, 0));
    }
    forall key ensures OfWarp(q, key) == OfWarp(Without(q, i), key) + if (q[i].block, q[i].warp) == key then 1 else 0 {
      DropCounts(q, i, q[i], key);
    }
  }

  lemma DropCounts(q: seq<Slot>, i: nat, slot: Slot, key: Key)
    requires i < |q|
    ensures OfSlot(q, slot) == OfSlot(Without(q, i), slot) + if q[i] == slot then 1 else 0
    ensures OfWarp(q, key) == OfWarp(Without(q, i), key) + if (q[i].block, q[i].warp) == key then 1 else 0
  {
    assert q == (q[..i] + [q[i]]) + q[i + 1..];
    CountsConcat(q[..i] + [q[i]], q[i + 1..], slot, key);
    CountsConcat(q[..i], [q[i]], slot, key);
    CountsConcat(q[..i], q[i + 1..], slot, key);
  }

  predicate Holds(x: Unit, key: Key) { x.held.Some? && x.held.value.key == key }

  /** Units that hold an instruction of the warp. */
  function Holders(units: seq<Unit>, key: Key): nat {
    if units == [] then 0 else (if Holds(units[0], key) then 1 else 0) + Holders(units[1..], key)
  }

  lemma {:induction false} HoldersUpdate(units: seq<Unit>, u: nat, x: Unit, key: Key)
    requires u < |units|
    ensures Holders(units[u := x], key) + (if Holds(units[u], key) then 1 else 0)
         == Holders(units, key) + if Holds(x, key) then 1 else 0
    ensures Holds(units[u], key) ==> Holders(units, key) > 0
  {
    if u > 0 {
      assert units[u := x][1..] == units[1..][u - 1 := x];
      HoldersUpdate(units[1..], u - 1, x, key);
    } else {
      assert units[0 := x][1..] == units[1..];
    }
  }

  /** Sum of pending_request over the first n instructions. */
  function Sum(p: map<nat, int>, n: nat): int {
    if n == 0 then 0 else Sum(p, n - 1) + Pend(p, n - 1)
  }

  lemma {:induction false} SumUpdate(p: map<nat, int>, i: nat, v: int, n: nat)
    ensures Sum(p[i := v], n) == Sum(p, n) + if i < n then v - Pend(p, i) else 0
  {
    if n > 0 { SumUpdate(p, i, v, n - 1); }
  }

  // ------------------------------------------------------------------
  // Invariant
  // ------------------------------------------------------------------

  /** The three counters of a warp say what they should. */
  ghost predicate Counted(s: Sm, key: Key)
    requires key in s.warps
  {
    var w := s.warps[key];
    && |w.completions| == w.point <= w.size
    && w.pendingInst == Holders(s.units, key)
    && w.pendingNum == Sum(w.pending, w.point) == OfWarp(s.inFlight, key)
    && (forall i: nat :: Pend(w.pending, i) == OfSlot(s.inFlight, Slot(key.0, key.1, i)))
  }

  /** Everything that names a warp names one that is there. */
  ghost predicate Named(s: Sm) {
    && (forall key | key in s.warps :: key.0 in s.blocks)
    && (forall i | 0 <= i < |s.inFlight| ::
          var key := (s.inFlight[i].block, s.inFlight[i].warp);
          key in s.warps && s.inFlight[i].index < s.warps[key].point)
    && (forall u | 0 <= u < |s.units| && s.units[u].held.Some? ::
          var h := s.units[u].held.value;
          h.key in s.warps && h.index < s.warps[h.key].point && h.left > 0 && s.units[u].ready == INT_MAX)
  }

  ghost predicate Inv(s: Sm) {
    && !s.failed && s.now < INT_MAX
    && Named(s)
    && (forall key | key in s.warps :: Counted(s, key))
  }

  /** A free unit holds nothing, so issuing never overwrites an instruction in progress. */
  lemma BusyUnitIsNeverOverwritten(s: Sm, key: Key, u: nat)
    requires Inv(s) && CanIssue(s, key, u)
    ensures s.units[u].held.None?
  {
    hide Counted;
  }

  lemma {:induction false} NothingOfWarp(q: seq<Slot>, key: Key)
    requires OfWarp(q, key) == 0
    ensures forall i :: 0 <= i < |q| ==> (q[i].block, q[i].warp) != key
  {
    if q != [] { NothingOfWarp(q[1..], key); }
  }

  lemma {:induction false} NothingHeld(units: seq<Unit>, key: Key)
    requires Holders(units, key) == 0
    ensures forall u :: 0 <= u < |units| ==> !Holds(units[u], key)
  {
    if units != [] { NothingHeld(units[1..], key); }
  }

  lemma {:induction false} AbsentCounts(q: seq<Slot>, units: seq<Unit>, key: Key)
    ensures (forall i :: 0 <= i < |q| ==> (q[i].block, q[i].warp) != key) ==>
              OfWarp(q, key) == 0 && forall n: nat :: OfSlot(q, Slot(key.0, key.1, n)) == 0
    ensures (forall u :: 0 <= u < |units| ==> !Holds(units[u], key)) ==> Holders(units, key) == 0
    decreases |q| + |units|
  {
    if q != [] {
      AbsentCounts(q[1..], units, key);
    } else if units != [] {
      AbsentCounts(q, units[1..], key);
    }
  }

  lemma SpawnKeeps(s: Sm, b: int, sizes: map<int, nat>)
    requires Inv(s) && Enabled(s, Spawn(b, sizes))
    ensures Inv(Next(s, Spawn(b, sizes)))
  {
    var t := Next(s, Spawn(b, sizes));
    forall key | key in t.warps ensures Counted(t, key) {
      if key in s.warps {
        assert Counted(s, key) && t.warps[key] == s.warps[key];
      } else {
        AbsentCounts(s.inFlight, s.units, key);
      }
    }
  }

  /** Nothing is pending for an instruction not issued yet. */
  lemma NoneBeyondPoint(s: Sm, key: Key)
    requires Inv(s) && key in s.warps
    ensures Pend(s.warps[key].pending, s.warps[key].point) == 0
  {
    var slot := Slot(key.0, key.1, s.warps[key].point);
    assert Counted(s, key);
    AbsentSlot(s.inFlight, slot);
  }

  lemma {:induction false} AbsentSlot(q: seq<Slot>, slot: Slot)
    requires forall i :: 0 <= i < |q| ==> q[i] != slot
    ensures OfSlot(q, slot) == 0
  {
    if q != [] { AbsentSlot(q[1..], slot); }
  }

  lemma SumNext(p: map<nat, int>, n: nat)
    ensures Sum(p, n + 1) == Sum(p, n) + Pend(p, n)
  {}

  /** Issuing moves the warp's point on; a memory instruction also occupies the unit. */
  lemma IssueCounted(s: Sm, e: Event, k: Key)
    requires Inv(s) && Enabled(s, e) && (e.IssueOther? || e.IssueMemory?) && k in s.warps
    ensures Counted(Next(s, e), k)
  {
    hide OfSlot, OfWarp, Holders, Sum, Named, Pend;
    var t := Next(s, e);
    assert Counted(s, k);
    BusyUnitIsNeverOverwritten(s, e.key, e.u);
    HoldersUpdate(s.units, e.u, t.units[e.u], k);
    NoneBeyondPoint(s, k);
    SumNext(s.warps[k].pending, s.warps[k].point);
  }

  lemma IssueNamed(s: Sm, e: Event)
    requires Inv(s) && Enabled(s, e) && (e.IssueOther? || e.IssueMemory?)
    ensures Named(Next(s, e))
  {
    hide Counted;
    BusyUnitIsNeverOverwritten(s, e.key, e.u);
    var t := Next(s, e);
    assert forall k | k in s.warps :: k in t.warps && t.warps[k].point >= s.warps[k].point;
  }

  lemma IssueKeeps(s: Sm, e: Event)
    requires Inv(s) && Enabled(s, e) && (e.IssueOther? || e.IssueMemory?)
    ensures Inv(Next(s, e))
  {
    hide Counted, Named;
    IssueNamed(s, e);
    forall k | k in s.warps { IssueCounted(s, e, k); }
    assert Next(s, e).warps.Keys == s.warps.Keys by { assert e.key in s.warps; }
  }

  lemma HeldIsNamed(s: Sm, u: nat)
    requires Named(s) && u < |s.units| && s.units[u].held.Some?
    ensures var h := s.units[u].held.value; h.key in s.warps && h.index < s.warps[h.key].point && h.left > 0
  {}

  lemma EmitCounted(s: Sm, u: nat, k: Key)
    requires Inv(s) && Enabled(s, Emit(u)) && k in s.warps
    ensures k in Next(s, Emit(u)).warps && Counted(Next(s, Emit(u)), k)
  {
    hide OfSlot, OfWarp, Holders, Sum, Named;
    HeldIsNamed(s, u);
    var t := Next(s, Emit(u));
    var h := s.units[u].held.value;
    var p := s.warps[k].pending;
    assert Counted(s, k);
    CountsPush(s.inFlight, Slot(h.key.0, h.key.1, h.index));
    HoldersUpdate(s.units, u, t.units[u], k);
    SumUpdate(p, h.index, Pend(p, h.index) + 1, s.warps[k].point);
  }

  lemma EmitNamed(s: Sm, u: nat)
    requires Inv(s) && Enabled(s, Emit(u))
    ensures Named(Next(s, Emit(u))) && !Next(s, Emit(u)).failed && Next(s, Emit(u)).warps.Keys == s.warps.Keys
  {
    hide Counted, Pend;
    HeldIsNamed(s, u);
    var t := Next(s, Emit(u));
    assert forall k | k in s.warps :: k in t.warps && t.warps[k].point == s.warps[k].point;
  }

  lemma EmitKeeps(s: Sm, u: nat)
    requires Inv(s) && Enabled(s, Emit(u))
    ensures Inv(Next(s, Emit(u)))
  {
    hide Counted, Named;
    EmitNamed(s, u);
    forall k | k in s.warps { EmitCounted(s, u, k); }
  }

  /** The answered load is counted in its warp's pending_request. */
  lemma ReplyFindsItsWarp(s: Sm, i: nat)
    requires Inv(s) && i < |s.inFlight|
    ensures var r := s.inFlight[i];
      && r.block in s.blocks && (r.block, r.warp) in s.warps
      && Pend(s.warps[(r.block, r.warp)].pending, r.index) > 0
      && r.index < s.warps[(r.block, r.warp)].point
  {
    hide OfSlot, OfWarp, Holders, Sum;
    var r := s.inFlight[i];
    CountsDrop(s.inFlight, i);
    assert Counted(s, (r.block, r.warp));
    assert OfSlot(s.inFlight, r) > 0;
  }

  lemma ReplyCounted(s: Sm, i: nat, k: Key)
    requires Inv(s) && Enabled(s, Reply(i)) && k in s.warps
    ensures k in Next(s, Reply(i)).warps && Counted(Next(s, Reply(i)), k)
  {
    hide OfSlot, OfWarp, Holders, Sum, Named, Without;
    ReplyFindsItsWarp(s, i);
    var r := s.inFlight[i];
    var p := s.warps[k].pending;
    assert Counted(s, k);
    CountsDrop(s.inFlight, i);
    SumUpdate(p, r.index, Pend(p, r.index) - 1, s.warps[k].point);
  }

  lemma ReplyNamed(s: Sm, i: nat)
    requires Inv(s) && Enabled(s, Reply(i))
    ensures Named(Next(s, Reply(i))) && !Next(s, Reply(i)).failed && Next(s, Reply(i)).warps.Keys == s.warps.Keys
  {
    hide Counted, Pend;
    ReplyFindsItsWarp(s, i);
    var t := Next(s, Reply(i));
    assert forall k | k in s.warps :: k in t.warps && t.warps[k].point == s.warps[k].point;
    forall j | 0 <= j < |t.inFlight| ensures t.inFlight[j] == s.inFlight[if j < i then j else j + 1] {}
  }

  lemma ReplyKeeps(s: Sm, i: nat)
    requires Inv(s) && Enabled(s, Reply(i))
    ensures Inv(Next(s, Reply(i)))
  {
    hide Counted, Named;
    ReplyNamed(s, i);
    forall k | k in s.warps { ReplyCounted(s, i, k); }
  }

  /** A warp that may retire is named by no load on its way and by no unit. */
  lemma RetiredIsUnnamed(s: Sm, key: Key)
    requires Inv(s) && Enabled(s, Retire(key))
    ensures forall i :: 0 <= i < |s.inFlight| ==> (s.inFlight[i].block, s.inFlight[i].warp) != key
    ensures forall u :: 0 <= u < |s.units| ==> !Holds(s.units[u], key)
  {
    hide OfSlot, OfWarp, Holders, Sum, Named;
    assert Counted(s, key);
    NothingOfWarp(s.inFlight, key);
    NothingHeld(s.units, key);
  }

  lemma RetireKeeps(s: Sm, key: Key)
    requires Inv(s) && Enabled(s, Retire(key))
    ensures Inv(Next(s, Retire(key)))
  {
    hide OfSlot, OfWarp, Holders, Sum, Pend;
    RetiredIsUnnamed(s, key);
    var t := Next(s, Retire(key));
    forall k | k in t.warps ensures Counted(t, k) { assert Counted(s, k); }
  }

  lemma StepKeepsInv(s: Sm, e: Event)
    requires Inv(s) && Enabled(s, e)
    ensures Inv(Next(s, e))
  {
    hide OfSlot, OfWarp, Holders, Sum, Pend, Emitted, NewWarps;
    match e
    case Spawn(b, sizes) => SpawnKeeps(s, b, sizes);
    case IssueOther(_, _, _, _) => IssueKeeps(s, e);
    case IssueMemory(_, _, _, _) => IssueKeeps(s, e);
    case Emit(u) => EmitKeeps(s, u);
    case Reply(i) => ReplyKeeps(s, i);
    case Retire(key) => RetireKeeps(s, key);
    case _ =>
      var t := Next(s, e);
      forall k | k in t.warps ensures Counted(t, k) { assert Counted(s, k); }
  }

  /** A warp that has issued everything may retire exactly when nothing names it. */
  lemma MayRetireIff(s: Sm, key: Key)
    requires Inv(s) && key in s.warps && s.warps[key].point == s.warps[key].size
    ensures Enabled(s, Retire(key)) <==>
      (forall i :: 0 <= i < |s.inFlight| ==> (s.inFlight[i].block, s.inFlight[i].warp) != key)
      && (forall u :: 0 <= u < |s.units| ==> !Holds(s.units[u], key))
  {
    hide OfSlot, OfWarp, Holders, Sum, Named;
    assert Counted(s, key);
    if Enabled(s, Retire(key)) { RetiredIsUnnamed(s, key); }
    AbsentCounts(s.inFlight, s.units, key);
  }

  // ------------------------------------------------------------------
  // Runs
  // ------------------------------------------------------------------

  predicate Feasible(s: Sm, es: seq<Event>)
    decreases |es|
  {
    es == [] || (Enabled(s, es[0]) && Feasible(Next(s, es[0]), es[1..]))
  }

  function Run(s: Sm, es: seq<Event>): Sm
    requires Feasible(s, es)
    decreases |es|
  {
    if es == [] then s else Run(Next(s, es[0]), es[1..])
  }

  function Idle(units: nat): Sm {
    Sm(0, {}, map[], seq(units, _ => Unit(0, None)), [], false)
  }

  lemma {:induction false} RunKeepsInv(s: Sm, es: seq<Event>)
    requires Inv(s) && Feasible(s, es)
    ensures Inv(Run(s, es))
    decreases |es|
  {
    hide Inv, Enabled, Next;
    if es != [] {
      StepKeepsInv(s, es[0]);
      RunKeepsInv(Next(s, es[0]), es[1..]);
    }
  }

  /** For every run of loads and stores: every reply finds its block, its warp and a positive count; the warp's
      counters agree with each other, with the loads on their way and with the units that hold it. */
  lemma NothingNamedIsRemoved(units: nat, es: seq<Event>)
    requires Feasible(Idle(units), es)
    ensures var s := Run(Idle(units), es);
      && !s.failed
      && (forall i | 0 <= i < |s.inFlight| ::
            s.inFlight[i].block in s.blocks && (s.inFlight[i].block, s.inFlight[i].warp) in s.warps)
      && (forall key | key in s.warps :: var w := s.warps[key];
            && w.pendingInst == Holders(s.units, key)
            && w.pendingNum == Sum(w.pending, w.point) == OfWarp(s.inFlight, key))
  {
    hide Feasible, Run, OfSlot, OfWarp, Holders, Sum, Enabled, Next;
    RunKeepsInv(Idle(units), es);
    var s := Run(Idle(units), es);
    forall key | key in s.warps ensures Counted(s, key) {}
    forall i | 0 <= i < |s.inFlight| { ReplyFindsItsWarp(s, i); }
  }

  // ------------------------------------------------------------------
  // Units and latencies
  // ------------------------------------------------------------------

  /** The intervals that instructions without requests book on unit u. */
  function Booked(es: seq<Event>, u: nat): nat {
    if es == [] then 0
    else (if es[0].IssueOther? && es[0].u == u then es[0].interval else 0) + Booked(es[1..], u)
  }

  predicate NoRequests(es: seq<Event>, u: nat) {
    forall k :: 0 <= k < |es| ==> !(es[k].IssueMemory? && es[k].u == u) && !(es[k].Emit? && es[k].u == u)
  }

  lemma StepBooks(s: Sm, e: Event, u: nat)
    requires Inv(s) && Enabled(s, e) && u < |s.units| && NoRequests([e], u)
    ensures var t := Next(s, e);
      && |t.units| == |s.units|
      && t.units[u].ready == s.units[u].ready + if e.IssueOther? && e.u == u then e.interval else 0
  {
    hide Counted, Named, NewWarps;
    assert !([e][0].IssueMemory? && [e][0].u == u) && !([e][0].Emit? && [e][0].u == u);
    match e
    case Reply(i) => ReplyFindsItsWarp(s, i);
    case _ =>
  }

  /** As long as a unit takes no loads or stores, its ready time moves on by exactly the intervals booked on it; it may
      take the next instruction only when all of them together have passed. */
  lemma {:induction false} UnitsKeepIntervals(s: Sm, es: seq<Event>, u: nat, key: Key)
    requires Inv(s) && Feasible(s, es) && u < |s.units| && NoRequests(es, u)
    ensures var t := Run(s, es);
      && |t.units| == |s.units| && t.units[u].ready == s.units[u].ready + Booked(es, u)
      && (CanIssue(t, key, u) ==> s.units[u].ready + Booked(es, u) <= t.now)
    decreases |es|
  {
    hide Inv, Enabled, Next;
    if es != [] {
      assert NoRequests([es[0]], u);
      StepBooks(s, es[0], u);
      StepKeepsInv(s, es[0]);
      UnitsKeepIntervals(Next(s, es[0]), es[1..], u, key);
    }
  }

  // ------------------------------------------------------------------
  // The warp's counters and the load/store unit
  // ------------------------------------------------------------------

  class WarpCounters {
    const size: nat
    var point: nat
    var completions: seq<int>
    var pendingNum: int
    var pendingInst: int
    var pending: map<nat, int>
    ghost var loads: set<nat>

    ghost function Contents(): WarpState
      reads this
    {
      WarpState(size, point, completions, loads, pendingNum, pendingInst, pending)
    }

    constructor (size: nat)
      ensures Contents() == WarpState(size, 0, [], {}, 0, 0, map[])
    {
      this.size := size;
      point, completions, pendingNum, pendingInst, pending, loads := 0, [], 0, 0, map[], {};
    }

    method IncreasePendingRequest(index: nat)
      modifies this`pending
      ensures pending == old(pending)[index := Pend(old(pending), index) + 1]
    {
      if index !in pending {
        pending := pending[index := 1];
      } else {
        pending := pending[index := pending[index] + 1];
      }
    }

    /** True when the last request counted for the instruction has been answered. */
    method DecreasePendingRequest(index: nat) returns (last: bool)
      modifies this`pending
      ensures pending == old(pending)[index := Pend(old(pending), index) - 1]
      ensures last <==> Pend(pending, index) == 0
    {
      pending := pending[index := (if index in pending then pending[index] else 0) - 1];
      last := pending[index] == 0;
    }

    /** The write-back of one load; `ok` is the guard pending_request_can_decrease. */
    method AnswerLoad(index: nat, cycles: int) returns (ok: bool)
      requires index < |completions|
      modifies this`pending, this`pendingNum, this`completions
      ensures ok <==> Pend(old(pending), index) > 0
      ensures Contents() == Answer(old(Contents()), index, cycles)
    {
      ok := index in pending && pending[index] > 0;
      if ok {
        var last := DecreasePendingRequest(index);
        if last { completions := completions[index := cycles]; }
        pendingNum := pendingNum - 1;
      }
    }
  }

  class SmUnit {
    var readyTime: int
    var inst: Option<Held>
    var warp: WarpCounters?

    ghost predicate Valid()
      reads this
    {
      (inst.Some? <==> warp != null) && (inst.Some? ==> inst.value.left > 0)
    }

    function Contents(): Unit
      reads this
    {
      Unit(readyTime, inst)
    }

    constructor ()
      ensures Valid() && Contents() == Unit(0, None)
    {
      readyTime, inst, warp := 0, None, null;
    }

    /** A load or store with at least one sector takes the unit. */
    method Take(w: WarpCounters, key: Key, store: bool, sectors: nat, cycles: int)
      requires Valid() && sectors > 0 && |w.completions| == w.point
      modifies this, w`point, w`pendingInst, w`completions, w`loads
      ensures Valid() && warp == w
      ensures Contents() == Unit(INT_MAX, Some(Held(key, old(w.point), store, sectors)))
      ensures w.Contents() == TakeMemory(old(w.Contents()), store, cycles)
    {
      if store {
        w.completions := w.completions + [cycles + 1];
      } else {
        w.completions := w.completions + [INT_MAX];
        w.loads := w.loads + {w.point};
      }
      readyTime := INT_MAX;
      inst, warp := Some(Held(key, w.point, store, sectors)), w;
      w.pendingInst := w.pendingInst + 1;
      w.point := w.point + 1;
    }

    /** One cycle: a free unit, or one whose bank is busy, does nothing; else one request leaves. */
    method UnitCycle(cycles: int, bankBusy: bool) returns (request: Option<Slot>)
      requires Valid()
      modifies this, if warp != null then {warp} else {}
      ensures Valid()
      ensures old(inst).None? || bankBusy ==> Contents() == old(Contents()) && request == None
      ensures old(inst).None? || bankBusy ==> old(warp) != null ==> old(warp).Contents() == old(warp.Contents())
      ensures old(inst).Some? && !bankBusy ==>
        && var h := old(inst).value;
        && Contents() == EmitBy(old(Contents()), cycles)
        && old(warp).Contents() == EmitFrom(old(warp.Contents()), h)
        && request == if h.store then None else Some(Slot(h.key.0, h.key.1, h.index))
    {
      request := None;
      if inst.None? || warp == null || bankBusy { return; }
      var h := inst.value;
      var w := warp;
      inst := Some(h.(left := h.left - 1));
      if !h.store {
        request := Some(Slot(h.key.0, h.key.1, h.index));
        w.IncreasePendingRequest(h.index);
        w.pendingNum := w.pendingNum + 1;
      }
      if inst.value.left == 0 {
        w.pendingInst := w.pendingInst - 1;
        inst, warp := None, null;
        readyTime := cycles;
      }
    }
  }
}
