/** When the requests of a load leave and when their answers come: which timing keeps completion stamps honest. */
module RequestTiming {
  import opened Basics
  import opened Requests
  import opened PendingRequests
  import opened LoadCompletion
  import Scoreboard

  // ------------------------------------------------------------------
  // The cycle of an SM
  // ------------------------------------------------------------------

  /** Bank of the request that instruction `index` of a warp sends when `left` of its requests remain. */
  type Banks = (Key, nat, nat) -> nat

  /** An SM within a cycle: answers are written back first, then the units are visited in order, each sending one
      request unless its bank is busy, then instructions are issued. */
  datatype Clocked = Clocked(
    sm: Sm,
    sent: seq<int>,      // cycle in which each load in flight was sent
    last: seq<int>,      // per unit: cycle of its last request, or of the issue if that came later
    visited: nat,        // units visited in this cycle
    busy: set<nat>)      // m_queue_sm_to_l1_busy

  function Start(units: nat): Clocked {
    Clocked(Idle(units), [], seq(units, _ => 0), 0, {})
  }

  function BankOf(x: Unit, banks: Banks): nat
    requires x.held.Some?
  {
    banks(x.held.value.key, x.held.value.index, x.held.value.left)
  }

  predicate Blocked(x: Unit, banks: Banks, busy: set<nat>) { x.held.Some? && BankOf(x, banks) in busy }

  /** The units from the next one to visit up to u have nothing to send or meet a busy bank. */
  predicate Skipped(c: Clocked, u: nat, banks: Banks) {
    forall v | c.visited <= v < u && v < |c.sm.units| ::
      c.sm.units[v].held.None? || Blocked(c.sm.units[v], banks, c.busy)
  }

  /** The event has its place in the cycle; answers come `latency` cycles after the request or later. */
  predicate InTurn(c: Clocked, e: Event, banks: Banks, latency: nat) {
    && Enabled(c.sm, e)
    && match e
       case Emit(u) => c.visited <= u && Skipped(c, u, banks) && !Blocked(c.sm.units[u], banks, c.busy)
       case Reply(i) => c.visited == 0 && i < |c.sent| && c.sent[i] + latency <= c.sm.now
       case IssueOther(_, _, _, _) => Skipped(c, |c.sm.units|, banks)
       case IssueMemory(_, _, _, _) => Skipped(c, |c.sm.units|, banks)
       case Tick => Skipped(c, |c.sm.units|, banks)
       case _ => true
  }

  function After(c: Clocked, e: Event, banks: Banks): Clocked
    requires Enabled(c.sm, e)
  {
    var sm := Next(c.sm, e);
    match e
    case Emit(u) =>
      var h := c.sm.units[u].held.value;
      Clocked(sm, if h.store then c.sent else c.sent + [c.sm.now],
              if u < |c.last| then c.last[u := c.sm.now] else c.last, u + 1, c.busy + {BankOf(c.sm.units[u], banks)})
    case Reply(i) => c.(sm := sm, sent := if i < |c.sent| then Without(c.sent, i) else c.sent)
    case IssueOther(_, _, _, _) => c.(sm := sm, visited := |sm.units|)
    case IssueMemory(_, u, _, _) =>
      c.(sm := sm, visited := |sm.units|, last := if u < |c.last| then c.last[u := c.sm.now] else c.last)
    case Tick => c.(sm := sm, visited := 0, busy := {})
    case _ => c.(sm := sm)
  }

  function SlotOf(x: Unit): Slot
    requires x.held.Some?
  {
    Slot(x.held.value.key.0, x.held.value.key.1, x.held.value.index)
  }

  /** The load in unit u has requests left to send and requests in flight. */
  predicate HalfSent(c: Clocked, u: nat) {
    && u < |c.sm.units| && c.sm.units[u].held.Some? && !c.sm.units[u].held.value.store
    && SlotOf(c.sm.units[u]) in c.sm.inFlight
  }

  /** At the end of the cycle every such load can still send a request within `gap` cycles of its last one. */
  predicate ShortWaits(c: Clocked, gap: nat) {
    forall u: nat | u < |c.last| && HalfSent(c, u) :: c.sm.now - c.last[u] < gap
  }

  // ------------------------------------------------------------------
  // Runs
  // ------------------------------------------------------------------

  predicate Timely(c: Clocked, es: seq<Event>, banks: Banks, latency: nat)
    decreases |es|
  {
    es == [] || (InTurn(c, es[0], banks, latency) && Timely(After(c, es[0], banks), es[1..], banks, latency))
  }

  /** While requests of a load are in flight its next one leaves within `gap` cycles of the last one. */
  predicate GapsWithin(c: Clocked, es: seq<Event>, banks: Banks, latency: nat, gap: nat)
    requires Timely(c, es, banks, latency)
    decreases |es|
  {
    es == []
    || ((es[0].Tick? ==> ShortWaits(c, gap)) && GapsWithin(After(c, es[0], banks), es[1..], banks, latency, gap))
  }

  lemma {:induction false} TimelyIsFeasible(c: Clocked, es: seq<Event>, banks: Banks, latency: nat)
    requires Timely(c, es, banks, latency)
    ensures Feasible(c.sm, es)
    decreases |es|
  {
    hide Enabled, Next;
    if es != [] { TimelyIsFeasible(After(c, es[0], banks), es[1..], banks, latency); }
  }

  // ------------------------------------------------------------------
  // Short waits keep a request of every load in flight
  // ------------------------------------------------------------------

  /** Request j is the last one sent for the load in unit u. */
  predicate IsLast(c: Clocked, u: nat, j: nat) {
    && u < |c.sm.units| && u < |c.last| && c.sm.units[u].held.Some?
    && j < |c.sm.inFlight| && j < |c.sent|
    && c.sm.inFlight[j] == SlotOf(c.sm.units[u]) && c.sent[j] == c.last[u]
  }

  /** No two units hold the same instruction. */
  ghost predicate Separate(units: seq<Unit>) {
    forall u, v | 0 <= u < v < |units| && units[u].held.Some? && units[v].held.Some? ::
      SlotOf(units[u]) != SlotOf(units[v])
  }

  /** A load of unit u that is half sent has its last request in flight, sent at most `gap` cycles ago. */
  ghost predicate UnitInv(c: Clocked, u: nat, gap: nat) {
    u < |c.last| && (HalfSent(c, u) ==> c.sm.now - c.last[u] <= gap && exists j: nat :: IsLast(c, u, j))
  }

  ghost predicate ClockInv(c: Clocked, gap: nat) {
    && Inv(c.sm) && |c.sent| == |c.sm.inFlight| && |c.last| == |c.sm.units| && Separate(c.sm.units)
    && (forall u: nat | u < |c.sm.units| :: UnitInv(c, u, gap))
  }

  lemma {:induction false} TwoInFlight(q: seq<Slot>, i: nat, j: nat)
    requires i < j < |q| && q[i] == q[j]
    ensures OfSlot(q, q[i]) >= 2
  {
    if i > 0 {
      TwoInFlight(q[1..], i - 1, j - 1);
    } else {
      CountedInFlight(q[1..], q[0]);
      assert q[1..][j - 1] == q[0];
    }
  }

  lemma PendingIsInFlight(s: Sm, key: Key, i: nat)
    requires Inv(s) && key in s.warps
    ensures Pend(s.warps[key].pending, i) == OfSlot(s.inFlight, Slot(key.0, key.1, i))
  {
    hide OfSlot, OfWarp, Holders, Sum, Named;
    assert Counted(s, key);
  }

  /** An answer that takes longer than any wait does not empty the count of a load that a unit still holds. */
  lemma AnswerNeverEarly(c: Clocked, e: Event, banks: Banks, latency: nat, gap: nat)
    requires ClockInv(c, gap) && LoadsKnown(c.sm) && InTurn(c, e, banks, latency) && gap < latency
    ensures !EarlyEmpty(c.sm, e)
  {
    hide Inv;
    if EarlyEmpty(c.sm, e) {
      var r := c.sm.inFlight[e.i];
      var key := (r.block, r.warp);
      var u :| 0 <= u < |c.sm.units| && HoldsIndex(c.sm.units[u], key, r.index);
      assert SlotOf(c.sm.units[u]) == r;
      assert !c.sm.units[u].held.value.store;
      assert r in c.sm.inFlight && UnitInv(c, u, gap);
      var j: nat :| IsLast(c, u, j);
      assert j != e.i;
      if j < e.i { TwoInFlight(c.sm.inFlight, j, e.i); } else { TwoInFlight(c.sm.inFlight, e.i, j); }
      PendingIsInFlight(c.sm, key, r.index);
    }
  }

  lemma SeparateAfter(c: Clocked, e: Event, banks: Banks, latency: nat)
    requires Inv(c.sm) && Separate(c.sm.units) && InTurn(c, e, banks, latency)
    ensures Separate(After(c, e, banks).sm.units)
  {
    hide Counted, Skipped, NewWarps;
    match e
    case IssueMemory(key, u, _, _) => BusyUnitIsNeverOverwritten(c.sm, key, u);
    case IssueOther(key, u, _, _) => BusyUnitIsNeverOverwritten(c.sm, key, u);
    case Emit(u) => HeldIsNamed(c.sm, u);
    case Reply(i) => ReplyFindsItsWarp(c.sm, i);
    case _ =>
  }

  lemma IssueUnitInv(c: Clocked, e: Event, banks: Banks, latency: nat, gap: nat, u: nat)
    requires ClockInv(c, gap) && InTurn(c, e, banks, latency) && u < |c.sm.units|
    requires e.IssueMemory? || e.IssueOther?
    ensures UnitInv(After(c, e, banks), u, gap)
  {
    hide Counted, Skipped, Separate;
    assert UnitInv(c, u, gap);
    BusyUnitIsNeverOverwritten(c.sm, e.key, e.u);
    var t := After(c, e, banks);
    if u != e.u && c.sm.units[u].held.Some? && !c.sm.units[u].held.value.store {
      assert UnitInv(c, u, gap);
      if HalfSent(c, u) {
        var j: nat :| IsLast(c, u, j);
        assert IsLast(t, u, j);
      }
    }
  }

  lemma EmitUnitInv(c: Clocked, v: nat, banks: Banks, latency: nat, gap: nat, u: nat)
    requires ClockInv(c, gap) && InTurn(c, Emit(v), banks, latency) && u < |c.sm.units|
    ensures UnitInv(After(c, Emit(v), banks), u, gap)
  {
    hide Counted, Skipped;
    assert UnitInv(c, u, gap);
    HeldIsNamed(c.sm, v);
    var (t, x) := (After(c, Emit(v), banks), c.sm.units[u]);
    if x.held.Some? && !x.held.value.store {
      if u == v {
        if t.sm.units[u].held.Some? { assert IsLast(t, u, |c.sm.inFlight|); }
      } else {
        assert SlotOf(x) != SlotOf(c.sm.units[v]);
        assert UnitInv(c, u, gap);
        if HalfSent(c, u) {
          var j: nat :| IsLast(c, u, j);
          assert IsLast(t, u, j);
        }
      }
    }
  }

  lemma WithoutKeeps<T>(q: seq<T>, i: nat, j: nat)
    requires i < |q| && j < |q| && j != i
    ensures var k := if j < i then j else j - 1; k < |Without(q, i)| && Without(q, i)[k] == q[j]
  {}

  lemma WithoutIsPart<T>(q: seq<T>, i: nat)
    requires i < |q|
    ensures |Without(q, i)| == |q| - 1 && forall x | x in Without(q, i) :: x in q
  {}

  lemma ReplyUnitInv(c: Clocked, i: nat, banks: Banks, latency: nat, gap: nat, u: nat)
    requires ClockInv(c, gap) && InTurn(c, Reply(i), banks, latency) && gap < latency && u < |c.sm.units|
    ensures UnitInv(After(c, Reply(i), banks), u, gap)
  {
    hide Counted, Separate, Named, Without, Answer;
    assert UnitInv(c, u, gap);
    ReplyFindsItsWarp(c.sm, i);
    WithoutIsPart(c.sm.inFlight, i);
    WithoutIsPart(c.sent, i);
    var (t, x) := (After(c, Reply(i), banks), c.sm.units[u]);
    if x.held.Some? && !x.held.value.store && SlotOf(x) in t.sm.inFlight {
      var j: nat :| IsLast(c, u, j);
      assert j != i;
      WithoutKeeps(c.sm.inFlight, i, j);
      WithoutKeeps(c.sent, i, j);
      assert IsLast(t, u, if j < i then j else j - 1);
    }
  }

  lemma OtherUnitInv(c: Clocked, e: Event, banks: Banks, latency: nat, gap: nat, u: nat)
    requires ClockInv(c, gap) && InTurn(c, e, banks, latency) && u < |c.sm.units|
    requires e.Spawn? || e.Retire? || e.DropBlock? || e.Tick?
    requires e.Tick? ==> ShortWaits(c, gap)
    ensures UnitInv(After(c, e, banks), u, gap)
  {
    hide Counted, Separate, NewWarps, Skipped;
    assert UnitInv(c, u, gap);
    var t := After(c, e, banks);
    if c.sm.units[u].held.Some? && !c.sm.units[u].held.value.store {
      assert UnitInv(c, u, gap);
      if HalfSent(c, u) {
        var j: nat :| IsLast(c, u, j);
        assert IsLast(t, u, j);
      }
    }
  }

  lemma StepKeepsSizes(c: Clocked, e: Event, banks: Banks, latency: nat)
    requires Inv(c.sm) && InTurn(c, e, banks, latency) && |c.sent| == |c.sm.inFlight| && |c.last| == |c.sm.units|
    ensures var t := After(c, e, banks);
      |t.sent| == |t.sm.inFlight| && |t.last| == |t.sm.units| && |t.sm.units| == |c.sm.units|
  {
    hide Counted, NewWarps, Skipped;
    match e
    case Emit(u) => HeldIsNamed(c.sm, u);
    case Reply(i) => ReplyFindsItsWarp(c.sm, i);
    case _ =>
  }

  lemma StepKeepsClockInv(c: Clocked, e: Event, banks: Banks, latency: nat, gap: nat)
    requires ClockInv(c, gap) && InTurn(c, e, banks, latency) && gap < latency
    requires e.Tick? ==> ShortWaits(c, gap)
    ensures ClockInv(After(c, e, banks), gap)
  {
    hide Inv, Separate, Next, UnitInv, ShortWaits, Skipped;
    StepKeepsSizes(c, e, banks, latency);
    SeparateAfter(c, e, banks, latency);
    StepKeepsInv(c.sm, e);
    var t := After(c, e, banks);
    assert t.sm == Next(c.sm, e);
    forall u: nat | u < |t.sm.units| ensures UnitInv(t, u, gap) {
      match e
      case IssueOther(_, _, _, _) => IssueUnitInv(c, e, banks, latency, gap, u);
      case IssueMemory(_, _, _, _) => IssueUnitInv(c, e, banks, latency, gap, u);
      case Emit(v) => EmitUnitInv(c, v, banks, latency, gap, u);
      case Reply(i) => ReplyUnitInv(c, i, banks, latency, gap, u);
      case _ => OtherUnitInv(c, e, banks, latency, gap, u);
    }
  }

  lemma {:induction false} RunNeverEarly(c: Clocked, es: seq<Event>, banks: Banks, latency: nat, gap: nat)
    requires ClockInv(c, gap) && Good(c.sm) && gap < latency
    requires Timely(c, es, banks, latency) && GapsWithin(c, es, banks, latency, gap)
    ensures Feasible(c.sm, es) && NeverEarly(c.sm, es)
    decreases |es|
  {
    hide Inv, LoadsKnown, Next, Enabled, EarlyEmpty, ShortWaits, ClockInv;
    TimelyIsFeasible(c, es, banks, latency);
    if es != [] {
      AnswerNeverEarly(c, es[0], banks, latency, gap);
      StepKeepsClockInv(c, es[0], banks, latency, gap);
      StepKeepsGood(c.sm, es[0]);
      RunNeverEarly(After(c, es[0], banks), es[1..], banks, latency, gap);
    }
  }

  lemma StartInv(units: nat, gap: nat)
    ensures ClockInv(Start(units), gap) && Good(Start(units).sm)
  {
    IdleIsGood(units);
  }

  /** In every run in which answers take longer than any load waits between two of its requests, no count is emptied
      early. */
  lemma ShortWaitsNeverEarly(units: nat, es: seq<Event>, banks: Banks, latency: nat, gap: nat)
    requires Timely(Start(units), es, banks, latency) && GapsWithin(Start(units), es, banks, latency, gap)
    requires gap < latency
    ensures Feasible(Idle(units), es) && NeverEarly(Idle(units), es)
  {
    hide Timely, GapsWithin, Feasible, NeverEarly;
    StartInv(units, gap);
    RunNeverEarly(Start(units), es, banks, latency, gap);
  }

  // ------------------------------------------------------------------
  // One unit
  // ------------------------------------------------------------------

  /** A bank is busy only in a cycle in which the one unit has sent a request. */
  ghost predicate AloneInv(c: Clocked) {
    && |c.sm.units| == 1 && |c.last| == 1
    && (c.visited == 0 ==> c.busy == {})
    && (c.sm.units[0].held.Some? && c.visited > 0 ==> c.last[0] == c.sm.now)
  }

  lemma AloneStep(c: Clocked, e: Event, banks: Banks, latency: nat)
    requires Inv(c.sm) && AloneInv(c) && InTurn(c, e, banks, latency)
    ensures AloneInv(After(c, e, banks)) && (e.Tick? ==> ShortWaits(c, 1))
  {
    hide Counted, NewWarps;
    match e
    case Emit(u) => HeldIsNamed(c.sm, u);
    case Reply(i) => ReplyFindsItsWarp(c.sm, i);
    case IssueMemory(key, u, _, _) => BusyUnitIsNeverOverwritten(c.sm, key, u);
    case IssueOther(key, u, _, _) => BusyUnitIsNeverOverwritten(c.sm, key, u);
    case _ =>
  }

  lemma {:induction false} AloneWaitsShort(c: Clocked, es: seq<Event>, banks: Banks, latency: nat)
    requires Inv(c.sm) && AloneInv(c) && Timely(c, es, banks, latency)
    ensures GapsWithin(c, es, banks, latency, 1)
    decreases |es|
  {
    hide Inv, AloneInv, Next, Enabled, ShortWaits;
    if es != [] {
      AloneStep(c, es[0], banks, latency);
      StepKeepsInv(c.sm, es[0]);
      AloneWaitsShort(After(c, es[0], banks), es[1..], banks, latency);
    }
  }

  /** A unit without neighbours sends a request every cycle, whatever banks they go to; since no answer comes in the
      next cycle, none ever empties a count early. */
  lemma OneUnitNeverEarly(es: seq<Event>, banks: Banks, latency: nat)
    requires Timely(Start(1), es, banks, latency) && latency >= 2
    ensures Feasible(Idle(1), es) && NeverEarly(Idle(1), es)
  {
    hide Timely, GapsWithin, Feasible, NeverEarly;
    StartInv(1, 1);
    AloneWaitsShort(Start(1), es, banks, latency);
    ShortWaitsNeverEarly(1, es, banks, latency, 1);
  }

  // ------------------------------------------------------------------
  // Two units: a dependent instruction that issues too early
  // ------------------------------------------------------------------

  function ClockRun(c: Clocked, es: seq<Event>, banks: Banks, latency: nat): Clocked
    requires Timely(c, es, banks, latency)
    decreases |es|
  {
    if es == [] then c else ClockRun(After(c, es[0], banks), es[1..], banks, latency)
  }

  /** A timely run of checked issues, with short waits, that leads from one state to another. */
  ghost predicate Leads(c: Clocked, es: seq<Event>, t: Clocked, progs: Programs, banks: Banks, latency: nat, gap: nat) {
    && Timely(c, es, banks, latency) && GapsWithin(c, es, banks, latency, gap)
    && ClockRun(c, es, banks, latency) == t
    && Feasible(c.sm, es) && CheckedRun(progs, c.sm, es) && Run(c.sm, es) == t.sm
  }

  lemma LeadsNowhere(c: Clocked, progs: Programs, banks: Banks, latency: nat, gap: nat)
    ensures Leads(c, [], c, progs, banks, latency, gap)
  {}

  predicate MayFollow(c: Clocked, e: Event, progs: Programs, banks: Banks, latency: nat, gap: nat) {
    InTurn(c, e, banks, latency) && Checked(progs, c.sm, e) && (e.Tick? ==> ShortWaits(c, gap))
  }

  lemma {:induction false} LeadsOn(c: Clocked, es: seq<Event>, t: Clocked, e: Event,
                                   progs: Programs, banks: Banks, latency: nat, gap: nat)
    requires Leads(c, es, t, progs, banks, latency, gap) && MayFollow(t, e, progs, banks, latency, gap)
    ensures Leads(c, es + [e], After(t, e, banks), progs, banks, latency, gap)
    ensures NeverEarly(c.sm, es + [e]) ==> !EarlyEmpty(t.sm, e)
    decreases |es|
  {
    hide Enabled, Next, Checked, ShortWaits, EarlyEmpty, Skipped;
    if es == [] {
      var q := es + [e];
      assert q[0] == e && q[1..] == [];
      LeadsNowhere(After(c, e, banks), progs, banks, latency, gap);
      assert After(c, e, banks).sm == Next(c.sm, e);
    } else {
      assert (es + [e])[1..] == es[1..] + [e];
      LeadsOn(After(c, es[0], banks), es[1..], t, e, progs, banks, latency, gap);
    }
  }

  /** The warp of block 0 issues stores of one sector, that of block 1 a load and an instruction that uses it. */
  const WRITER: Key := (0, 0)
  const READER: Key := (1, 0)
  const STORE := Scoreboard.Inst([], ["R8"], false, false)
  const LOAD_THEN_USE := Program([Scoreboard.PRODUCER, Scoreboard.CONSUMER], [[], [0]])

  function Stores(n: nat): Program { Program(seq(n, _ => STORE), seq(n, _ => [])) }

  function TwoWarps(n: nat): Programs { key => if key == READER then LOAD_THEN_USE else Stores(n) }

  /** The load's first request goes to bank 0; its second one, and every store, to bank 1. */
  const TWO_BANKS: Banks := (key: Key, index: nat, left: nat) => if key == READER && left == 2 then 0 else 1

  lemma {:induction false} NoWriter(insts: seq<Scoreboard.Inst>, i: nat, reg: Scoreboard.Reg)
    requires i <= |insts| && forall k | 0 <= k < |insts| :: insts[k] == STORE
    ensures Scoreboard.LastWriter(insts, i, reg) == None
  {}

  lemma TwoWarpsRecorded(n: nat)
    ensures Recorded(TwoWarps(n))
  {
    hide Scoreboard.LastWriter, Scoreboard.Recorded;
    Scoreboard.PairRecorded();
    StoresRecorded(n);
  }

  lemma StoresRecorded(n: nat)
    ensures Scoreboard.Recorded(Stores(n).insts, Stores(n).deps)
  {
    hide Scoreboard.LastWriter;
    var p := Stores(n);
    forall i: nat, reg | i <= n ensures Scoreboard.LastWriter(p.insts, i, reg) == None { NoWriter(p.insts, i, reg); }
  }

  /** Both warps and both units: `point` stores issued, what unit 0 holds, the reader, what unit 1 holds. */
  ghost predicate Scene(c: Clocked, n: nat, now: int, point: nat, x0: Unit, reader: WarpState, x1: Unit,
                        flight: seq<Slot>) {
    && c.sm.now == now && c.sm.blocks == {0, 1} && c.sm.warps.Keys == {WRITER, READER}
    && c.sm.warps[WRITER].size == n && c.sm.warps[WRITER].point == point && c.sm.warps[READER] == reader
    && c.sm.units == [x0, x1] && c.sm.inFlight == flight && |c.last| == 2
  }

  function HeldStore(point: nat): Unit { Unit(INT_MAX, Some(Held(WRITER, point, true, 1))) }

  function HeldLoad(left: nat): Unit { Unit(INT_MAX, Some(Held(READER, 0, false, left))) }

  const NEW_READER := WarpState(2, 0, [], {}, 0, 0, map[])
  const ISSUED_READER := WarpState(2, 1, [INT_MAX], {0}, 0, 1, map[])
  const SENT_READER := WarpState(2, 1, [INT_MAX], {0}, 1, 1, map[0 := 1])

  /** The writer issues its next store to unit 0. */
  lemma StoreIssues(c: Clocked, n: nat, now: int, point: nat, x0: Unit, reader: WarpState, x1: Unit, flight: seq<Slot>,
                    latency: nat, gap: nat)
    requires Scene(c, n, now, point, x0, reader, x1, flight) && Skipped(c, 2, TWO_BANKS)
    requires x0.held.None? && x0.ready <= now && point < n
    ensures var (e, progs) := (IssueMemory(WRITER, 0, true, 1), TwoWarps(n));
      && MayFollow(c, e, progs, TWO_BANKS, latency, gap)
      && var t := After(c, e, TWO_BANKS);
         && Scene(t, n, now, point + 1, HeldStore(point), reader, x1, flight)
         && t.sent == c.sent && t.last == [now, c.last[1]] && t.visited == 2 && t.busy == c.busy
  {}

  /** The reader issues its load to unit 1. */
  lemma LoadIssues(c: Clocked, n: nat, now: int, point: nat, x0: Unit, x1: Unit, latency: nat, gap: nat)
    requires Scene(c, n, now, point, x0, NEW_READER, x1, []) && Skipped(c, 2, TWO_BANKS)
    requires x1.held.None? && x1.ready <= now
    ensures var (e, progs) := (IssueMemory(READER, 1, false, 2), TwoWarps(n));
      && MayFollow(c, e, progs, TWO_BANKS, latency, gap)
      && var t := After(c, e, TWO_BANKS);
         && Scene(t, n, now, point, x0, ISSUED_READER, HeldLoad(2), [])
         && t.sent == c.sent && t.last == [c.last[0], now] && t.visited == 2 && t.busy == c.busy
  {
    var w := TakeMemory(NEW_READER, false, now);
    assert w.completions == [INT_MAX] && w.loads == {0};
  }

  /** Unit 0, visited first, sends its store to bank 1 and is free. */
  lemma StoreLeaves(c: Clocked, n: nat, now: int, point: nat, p: nat, reader: WarpState, x1: Unit, flight: seq<Slot>,
                    latency: nat, gap: nat)
    requires Scene(c, n, now, point, HeldStore(p), reader, x1, flight) && c.visited == 0 && c.busy == {}
    ensures var (e, progs) := (Emit(0), TwoWarps(n));
      && MayFollow(c, e, progs, TWO_BANKS, latency, gap)
      && var t := After(c, e, TWO_BANKS);
         && Scene(t, n, now, point, Unit(now, None), reader, x1, flight)
         && t.sent == c.sent && t.last == [now, c.last[1]] && t.visited == 1 && t.busy == {1}
  {
    assert c.sm.units[0].held == Some(Held(WRITER, p, true, 1));
  }

  /** Unit 1 sends the first request of the load to bank 0. */
  lemma LoadLeaves(c: Clocked, n: nat, now: int, point: nat, x0: Unit, latency: nat, gap: nat)
    requires Scene(c, n, now, point, x0, ISSUED_READER, HeldLoad(2), []) && c.visited == 1 && c.busy == {1}
    ensures var (e, progs) := (Emit(1), TwoWarps(n));
      && MayFollow(c, e, progs, TWO_BANKS, latency, gap)
      && var t := After(c, e, TWO_BANKS);
         && Scene(t, n, now, point, x0, SENT_READER, HeldLoad(1), [Slot(1, 0, 0)])
         && t.sent == c.sent + [now] && t.last == [c.last[0], now] && t.visited == 2 && t.busy == {0, 1}
  {
    assert c.sm.units[1].held == Some(Held(READER, 0, false, 2));
    assert EmitFrom(ISSUED_READER, Held(READER, 0, false, 2)) == SENT_READER;
  }

  lemma CycleEnds(c: Clocked, n: nat, now: int, point: nat, x0: Unit, reader: WarpState, x1: Unit, flight: seq<Slot>,
                  latency: nat, gap: nat)
    requires Scene(c, n, now, point, x0, reader, x1, flight) && Skipped(c, 2, TWO_BANKS)
    requires ShortWaits(c, gap) && now + 1 < INT_MAX
    ensures MayFollow(c, Tick, TwoWarps(n), TWO_BANKS, latency, gap)
    ensures var t := After(c, Tick, TWO_BANKS);
      && Scene(t, n, now + 1, point, x0, reader, x1, flight)
      && t.sent == c.sent && t.last == c.last && t.visited == 0 && t.busy == {}
  {}

  /** Start of cycle k + 2: the load's second request waits since cycle 1, its first one is on its way. */
  ghost predicate Waiting(c: Clocked, n: nat, k: nat) {
    && Scene(c, n, k + 2, k + 2, HeldStore(k + 1), SENT_READER, HeldLoad(1), [Slot(1, 0, 0)])
    && c.sent == [1] && c.last == [k + 1, 1] && c.visited == 0 && c.busy == {}
  }

  /** The run so far, from two idle units. */
  ghost predicate Led(es: seq<Event>, t: Clocked, n: nat, latency: nat, gap: nat) {
    Leads(Start(2), es, t, TwoWarps(n), TWO_BANKS, latency, gap)
  }

  lemma TurnIsEnabled(c: Clocked, e: Event, banks: Banks, latency: nat)
    requires InTurn(c, e, banks, latency)
    ensures Enabled(c.sm, e)
  {}

  lemma Take(es: seq<Event>, t: Clocked, e: Event, n: nat, latency: nat, gap: nat)
    returns (es': seq<Event>, t': Clocked)
    requires Led(es, t, n, latency, gap) && MayFollow(t, e, TwoWarps(n), TWO_BANKS, latency, gap)
    ensures Led(es', t', n, latency, gap) && t' == After(t, e, TWO_BANKS)
  {
    hide Leads, InTurn, Checked;
    assert Enabled(t.sm, e) by { TurnIsEnabled(t, e, TWO_BANKS, latency); }
    LeadsOn(Start(2), es, t, e, TwoWarps(n), TWO_BANKS, latency, gap);
    es', t' := es + [e], After(t, e, TWO_BANKS);
  }

  lemma BlockZero(n: nat, latency: nat, gap: nat)
    ensures var e := Spawn(0, map[0 := n]);
      && MayFollow(Start(2), e, TwoWarps(n), TWO_BANKS, latency, gap)
      && After(Start(2), e, TWO_BANKS)
         == Start(2).(sm := Start(2).sm.(blocks := {0}, warps := map[WRITER := WarpState(n, 0, [], {}, 0, 0, map[])]))
  {
    assert NewWarps(0, map[0 := n]) == map[WRITER := WarpState(n, 0, [], {}, 0, 0, map[])];
  }

  lemma BlockOne(c: Clocked, n: nat, latency: nat, gap: nat)
    requires c.sm == Start(2).sm.(blocks := {0}, warps := map[WRITER := WarpState(n, 0, [], {}, 0, 0, map[])])
    requires |c.last| == 2
    ensures var e := Spawn(1, map[0 := 2]);
      && MayFollow(c, e, TwoWarps(n), TWO_BANKS, latency, gap)
      && var t := After(c, e, TWO_BANKS);
         && t == c.(sm := t.sm)
         && Scene(t, n, 0, 0, Unit(0, None), NEW_READER, Unit(0, None), [])
  {
    assert NewWarps(1, map[0 := 2]) == map[READER := NEW_READER];
  }

  lemma BothArrive(n: nat, latency: nat, gap: nat) returns (es: seq<Event>, t: Clocked)
    ensures Led(es, t, n, latency, gap)
    ensures Scene(t, n, 0, 0, Unit(0, None), NEW_READER, Unit(0, None), [])
    ensures t.sent == [] && t.last == [0, 0] && t.visited == 0 && t.busy == {}
  {
    hide Leads, MayFollow, After, Scene;
    LeadsNowhere(Start(2), TwoWarps(n), TWO_BANKS, latency, gap);
    BlockZero(n, latency, gap);
    es, t := Take([], Start(2), Spawn(0, map[0 := n]), n, latency, gap);
    BlockOne(t, n, latency, gap);
    es, t := Take(es, t, Spawn(1, map[0 := 2]), n, latency, gap);
  }

  lemma NothingBusy(c: Clocked, n: nat, now: int, point: nat, x0: Unit, reader: WarpState, x1: Unit, flight: seq<Slot>,
                    gap: nat)
    requires Scene(c, n, now, point, x0, reader, x1, flight)
    ensures c.visited == 2 || (x0.held.None? && x1.held.None?) ==> Skipped(c, 2, TWO_BANKS)
    ensures c.last == [now, now] && gap > 0 ==> ShortWaits(c, gap)
  {}

  /** Cycle 0: both instructions are issued. */
  lemma CycleZero(n: nat, latency: nat, gap: nat) returns (es: seq<Event>, t: Clocked)
    requires n >= 2 && gap >= 1
    ensures Led(es, t, n, latency, gap)
    ensures Scene(t, n, 1, 1, HeldStore(0), ISSUED_READER, HeldLoad(2), [])
    ensures t.sent == [] && |t.last| == 2 && t.visited == 0 && t.busy == {}
  {
    hide Led, MayFollow, After, Scene, Skipped, ShortWaits;
    var idle := Unit(0, None);
    es, t := BothArrive(n, latency, gap);
    NothingBusy(t, n, 0, 0, idle, NEW_READER, idle, [], gap);
    StoreIssues(t, n, 0, 0, idle, NEW_READER, idle, [], latency, gap);
    es, t := Take(es, t, IssueMemory(WRITER, 0, true, 1), n, latency, gap);
    NothingBusy(t, n, 0, 1, HeldStore(0), NEW_READER, idle, [], gap);
    LoadIssues(t, n, 0, 1, HeldStore(0), idle, latency, gap);
    es, t := Take(es, t, IssueMemory(READER, 1, false, 2), n, latency, gap);
    NothingBusy(t, n, 0, 1, HeldStore(0), ISSUED_READER, HeldLoad(2), [], gap);
    CycleEnds(t, n, 0, 1, HeldStore(0), ISSUED_READER, HeldLoad(2), [], latency, gap);
    es, t := Take(es, t, Tick, n, latency, gap);
  }

  /** The rest of cycle k + 1, once unit 0 is free: the next store is issued, the load waits on. */
  lemma CycleCloses(es0: seq<Event>, t0: Clocked, n: nat, k: nat, latency: nat, gap: nat)
    returns (es: seq<Event>, t: Clocked)
    requires Led(es0, t0, n, latency, gap) && k < gap && k + 1 < n && k + 2 < INT_MAX
    requires Scene(t0, n, k + 1, k + 1, Unit(k + 1, None), SENT_READER, HeldLoad(1), [Slot(1, 0, 0)])
    requires t0.sent == [1] && t0.last == [k + 1, 1] && t0.visited > 0 && 1 in t0.busy
    ensures Led(es, t, n, latency, gap) && Waiting(t, n, k)
  {
    hide Led, MayFollow, After, Scene, Skipped, ShortWaits;
    var flight := [Slot(1, 0, 0)];
    LoadWaits(t0, n, k + 1, k + 1, Unit(k + 1, None), gap);
    StoreIssues(t0, n, k + 1, k + 1, Unit(k + 1, None), SENT_READER, HeldLoad(1), flight, latency, gap);
    es, t := Take(es0, t0, IssueMemory(WRITER, 0, true, 1), n, latency, gap);
    LoadWaits(t, n, k + 1, k + 2, HeldStore(k + 1), gap);
    CycleEnds(t, n, k + 1, k + 2, HeldStore(k + 1), SENT_READER, HeldLoad(1), flight, latency, gap);
    es, t := Take(es, t, Tick, n, latency, gap);
  }

  /** Bank 1 is busy, so the load has nothing to send now; it has waited since cycle 1. */
  lemma LoadWaits(c: Clocked, n: nat, now: int, point: nat, x0: Unit, gap: nat)
    requires Scene(c, n, now, point, x0, SENT_READER, HeldLoad(1), [Slot(1, 0, 0)])
    requires c.visited > 0 && 1 in c.busy && c.last == [now, 1]
    ensures Skipped(c, 2, TWO_BANKS) && (now - 1 < gap && gap > 0 ==> ShortWaits(c, gap))
  {
    assert c.sm.units[1].held == Some(Held(READER, 0, false, 1));
  }

  /** Cycles 0 and 1: both instructions are issued, the first requests leave, the next store is issued. */
  lemma CycleOne(n: nat, latency: nat, gap: nat) returns (es: seq<Event>, t: Clocked)
    requires n >= 2 && gap >= 1
    ensures Led(es, t, n, latency, gap) && Waiting(t, n, 0)
  {
    hide Led, MayFollow, After, Scene, Skipped, ShortWaits;
    es, t := CycleZero(n, latency, gap);
    StoreLeaves(t, n, 1, 1, 0, ISSUED_READER, HeldLoad(2), [], latency, gap);
    es, t := Take(es, t, Emit(0), n, latency, gap);
    LoadLeaves(t, n, 1, 1, Unit(1, None), latency, gap);
    es, t := Take(es, t, Emit(1), n, latency, gap);
    es, t := CycleCloses(es, t, n, 0, latency, gap);
  }

  /** The load waits for bank 1 as long as stores keep coming. */
  lemma {:induction false} CyclesPass(n: nat, k: nat, latency: nat, gap: nat) returns (es: seq<Event>, t: Clocked)
    requires k < gap && gap < n && gap + 2 < INT_MAX
    ensures Led(es, t, n, latency, gap) && Waiting(t, n, k)
  {
    hide Led, MayFollow, After, Scene, Skipped, ShortWaits;
    if k == 0 {
      es, t := CycleOne(n, latency, gap);
    } else {
      es, t := CyclesPass(n, k - 1, latency, gap);
      StoreLeaves(t, n, k + 1, k + 1, k, SENT_READER, HeldLoad(1), [Slot(1, 0, 0)], latency, gap);
      es, t := Take(es, t, Emit(0), n, latency, gap);
      es, t := CycleCloses(es, t, n, k, latency, gap);
    }
  }

  /** The answer to the first request comes while the second one waits. */
  lemma AnswerComesEarly(c: Clocked, n: nat, latency: nat, gap: nat)
    requires 1 <= gap && latency <= gap && Waiting(c, n, gap - 1)
    ensures MayFollow(c, Reply(0), TwoWarps(n), TWO_BANKS, latency, gap) && EarlyEmpty(c.sm, Reply(0))
    ensures var s := After(c, Reply(0), TWO_BANKS).sm;
      && READER in s.warps && MayIssue(TwoWarps(n), s, READER)
      && s.warps[READER].point == 1 && 0 in s.warps[READER].loads
      && Pend(s.warps[READER].pending, 0) == 0 && s.inFlight == []
      && !Finished(s, READER, 0)
  {
    assert HoldsIndex(c.sm.units[1], READER, 0);
    var s := After(c, Reply(0), TWO_BANKS).sm;
    assert Answer(SENT_READER, 0, gap + 1).completions == [gap + 1];
    assert HoldsIndex(s.units[1], READER, 0);
    assert Without(c.sm.inFlight, 0) == [];
  }

  /** Two units, and answers that take no longer than one of them may be kept waiting: stores of another warp keep
      the bank of a load's second request busy until its first one is answered. Then nothing is counted as pending,
      the stamp has passed, and the instruction that uses the loaded register may issue. */
  lemma LoadUsedTooEarly(latency: nat, gap: nat) returns (es: seq<Event>)
    requires 1 <= gap && latency <= gap && gap + 2 < INT_MAX
    ensures Recorded(TwoWarps(gap + 1)) && Scoreboard.MustPrecede(LOAD_THEN_USE.insts, 0, 1)
    ensures Timely(Start(2), es, TWO_BANKS, latency) && GapsWithin(Start(2), es, TWO_BANKS, latency, gap)
    ensures Feasible(Idle(2), es) && CheckedRun(TwoWarps(gap + 1), Idle(2), es) && !NeverEarly(Idle(2), es)
    ensures var s := Run(Idle(2), es);
      && READER in s.warps && MayIssue(TwoWarps(gap + 1), s, READER)
      && s.warps[READER].point == 1 && 0 in s.warps[READER].loads
      && Pend(s.warps[READER].pending, 0) == 0 && s.inFlight == []
      && !Finished(s, READER, 0)
  {
    hide MayFollow, After, Waiting, Recorded, EarlyEmpty, Finished;
    hide Timely, GapsWithin, Feasible, CheckedRun, NeverEarly, Run;
    TwoWarpsRecorded(gap + 1);
    UsePrecedes();
    var t: Clocked;
    es, t := CyclesPass(gap + 1, gap - 1, latency, gap);
    AnswerComesEarly(t, gap + 1, latency, gap);
    LeadsOn(Start(2), es, t, Reply(0), TwoWarps(gap + 1), TWO_BANKS, latency, gap);
    es := es + [Reply(0)];
  }

  lemma UsePrecedes()
    ensures Scoreboard.MustPrecede(LOAD_THEN_USE.insts, 0, 1)
  {
    assert Scoreboard.WritesReg(LOAD_THEN_USE.insts[0], "R1") && "R1" in LOAD_THEN_USE.insts[1].srcs;
  }

  // ------------------------------------------------------------------
  // Which timing is safe
  // ------------------------------------------------------------------

  /** With answers that take `latency` cycles or more, and requests of a load `gap` cycles apart or less, no run of any
      number of units empties a count early, whatever the banks. */
  ghost predicate SafeTiming(latency: nat, gap: nat) {
    forall units: nat, es: seq<Event>, banks: Banks |
      Timely(Start(units), es, banks, latency) && GapsWithin(Start(units), es, banks, latency, gap) ::
      Feasible(Idle(units), es) && NeverEarly(Idle(units), es)
  }

  /** Exactly the answers that take longer than the longest wait are safe. */
  lemma SafeTimingIff(latency: nat, gap: nat)
    requires 1 <= gap && gap + 2 < INT_MAX
    ensures SafeTiming(latency, gap) <==> gap < latency
  {
    hide Timely, GapsWithin, Feasible, NeverEarly, CheckedRun, Run, Recorded, MayIssue, Finished;
    if gap < latency {
      forall units: nat, es: seq<Event>, banks: Banks |
        Timely(Start(units), es, banks, latency) && GapsWithin(Start(units), es, banks, latency, gap)
        ensures Feasible(Idle(units), es) && NeverEarly(Idle(units), es)
      {
        ShortWaitsNeverEarly(units, es, banks, latency, gap);
      }
    } else {
      var es := LoadUsedTooEarly(latency, gap);
    }
  }
}
