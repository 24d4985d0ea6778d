/** When a load counts as complete and when it is: the counters of a warp, its units and its dependencies together. */
module LoadCompletion {
  import opened Basics
  import opened Requests
  import opened PendingRequests
  import Scoreboard

  // ------------------------------------------------------------------
  // Finished loads
  // ------------------------------------------------------------------

  predicate HoldsIndex(x: Unit, key: Key, i: nat) { Holds(x, key) && x.held.value.index == i }

  /** Some unit still has to send requests of instruction i. */
  ghost predicate Holding(s: Sm, key: Key, i: nat) {
    exists u :: 0 <= u < |s.units| && HoldsIndex(s.units[u], key, i)
  }

  /** Every request of instruction i has been sent and answered. */
  ghost predicate Finished(s: Sm, key: Key, i: nat) {
    !Holding(s, key, i) && Slot(key.0, key.1, i) !in s.inFlight
  }

  /** The completion stamp of load i says the truth: passed once the load is finished, out of reach before. */
  ghost predicate HonestAt(s: Sm, key: Key, i: nat)
    requires key in s.warps && i < |s.warps[key].completions|
  {
    var c := s.warps[key].completions[i];
    if Finished(s, key, i) then c <= s.now else c == INT_MAX
  }

  /** The requests in flight and in the units are those of the loads issued, and of stores in the units. */
  ghost predicate LoadsKnown(s: Sm) {
    && (forall key, i | key in s.warps && i in s.warps[key].loads :: i < s.warps[key].point)
    && (forall u | 0 <= u < |s.units| && s.units[u].held.Some? ::
          var h := s.units[u].held.value;
          h.key in s.warps && (h.index in s.warps[h.key].loads <==> !h.store))
    && (forall j | 0 <= j < |s.inFlight| ::
          var r := s.inFlight[j];
          (r.block, r.warp) in s.warps && r.index in s.warps[(r.block, r.warp)].loads)
  }

  ghost predicate Good(s: Sm) { Inv(s) && LoadsKnown(s) }

  ghost predicate Honest(s: Sm) {
    forall key, i | key in s.warps && i in s.warps[key].loads :: Stamped(s, key, i) && HonestAt(s, key, i)
  }

  predicate Stamped(s: Sm, key: Key, i: nat)
    requires key in s.warps
  {
    i < |s.warps[key].completions|
  }

  /** The answer empties pending_request of a load that has requests left to send. */
  ghost predicate EarlyEmpty(s: Sm, e: Event) {
    && e.Reply? && e.i < |s.inFlight|
    && var r := s.inFlight[e.i];
    && (r.block, r.warp) in s.warps
    && Pend(s.warps[(r.block, r.warp)].pending, r.index) == 1
    && Holding(s, (r.block, r.warp), r.index)
  }

  lemma {:induction false} CountedInFlight(q: seq<Slot>, slot: Slot)
    ensures OfSlot(q, slot) == 0 <==> slot !in q
  {
    if q != [] { CountedInFlight(q[1..], slot); }
  }

  lemma IssuedIsStamped(s: Sm, key: Key)
    requires Inv(s) && key in s.warps
    ensures |s.warps[key].completions| == s.warps[key].point
    ensures forall i: nat :: Pend(s.warps[key].pending, i) == 0 <==> Slot(key.0, key.1, i) !in s.inFlight
  {
    hide OfSlot, OfWarp, Holders, Sum, Named;
    assert Counted(s, key);
    forall i: nat ensures Pend(s.warps[key].pending, i) == 0 <==> Slot(key.0, key.1, i) !in s.inFlight {
      CountedInFlight(s.inFlight, Slot(key.0, key.1, i));
    }
  }

  /** An answer that leaves nothing counted for a load finishes the load if and only if no unit holds it. */
  lemma EmptyingFinishesIff(s: Sm, j: nat)
    requires Inv(s) && j < |s.inFlight|
    ensures var (r, t) := (s.inFlight[j], Next(s, Reply(j)));
      && var key := (r.block, r.warp);
      && key in t.warps
      && (Pend(t.warps[key].pending, r.index) == 0 ==>
            && r.index < |t.warps[key].completions|
            && t.warps[key].completions[r.index] == s.now
            && (Finished(t, key, r.index) <==> !Holding(s, key, r.index)))
  {
    hide Inv;
    ReplyFindsItsWarp(s, j);
    StepKeepsInv(s, Reply(j));
    var t := Next(s, Reply(j));
    var key := (s.inFlight[j].block, s.inFlight[j].warp);
    IssuedIsStamped(s, key);
    IssuedIsStamped(t, key);
    assert Holding(t, key, s.inFlight[j].index) <==> Holding(s, key, s.inFlight[j].index);
  }

  // ------------------------------------------------------------------
  // Steps
  // ------------------------------------------------------------------

  lemma StepKnowsLoads(s: Sm, e: Event)
    requires Good(s) && Enabled(s, e)
    ensures LoadsKnown(Next(s, e))
  {
    hide Counted, Pend, NewWarps, Emitted, Answer, TakeMemory, Named;
    var t := Next(s, e);
    match e
    case Spawn(b, sizes) =>
      SpawnKnowsLoads(s, b, sizes);
    case IssueOther(key, u, _, _) =>
      BusyUnitIsNeverOverwritten(s, key, u);
      SameLoads(s, t);
    case IssueMemory(key, u, store, _) =>
      BusyUnitIsNeverOverwritten(s, key, u);
      IssueKnowsLoads(s, e);
    case Emit(u) =>
      HeldIsNamed(s, u);
      EmitKnowsLoads(s, u);
    case Reply(j) =>
      ReplyKnowsLoads(s, j);
    case Retire(key) =>
      RetireKnowsLoads(s, key);
    case _ =>
      SameLoads(s, t);
  }

  lemma SpawnedFresh(s: Sm, b: int, sizes: map<int, nat>)
    requires Inv(s) && Enabled(s, Spawn(b, sizes))
    ensures var t := Next(s, Spawn(b, sizes));
      && (forall key | key in s.warps :: key in t.warps && t.warps[key] == s.warps[key])
      && (forall key | key in t.warps && key !in s.warps :: t.warps[key].loads == {} && t.warps[key].completions == [])
  {
    hide Counted;
  }

  lemma SpawnKnowsLoads(s: Sm, b: int, sizes: map<int, nat>)
    requires Good(s) && Enabled(s, Spawn(b, sizes))
    ensures LoadsKnown(Next(s, Spawn(b, sizes)))
  {
    hide Inv, NewWarps;
    SpawnedFresh(s, b, sizes);
  }

  lemma RetireKnowsLoads(s: Sm, key: Key)
    requires Good(s) && Enabled(s, Retire(key))
    ensures LoadsKnown(Next(s, Retire(key)))
  {
    hide Inv;
    RetiredIsUnnamed(s, key);
  }

  lemma ReplyKnowsLoads(s: Sm, j: nat)
    requires Good(s) && Enabled(s, Reply(j))
    ensures LoadsKnown(Next(s, Reply(j)))
  {
    hide Inv, Pend;
    ReplyFindsItsWarp(s, j);
    var t := Next(s, Reply(j));
    forall k | 0 <= k < |t.inFlight| ensures t.inFlight[k] in s.inFlight {
      assert t.inFlight[k] == s.inFlight[if k < j then k else k + 1];
    }
    SameLoads(s, t);
  }

  lemma SameLoads(s: Sm, t: Sm)
    requires LoadsKnown(s)
    requires forall key | key in s.warps :: key in t.warps && t.warps[key].loads == s.warps[key].loads
    requires forall key | key in t.warps :: key in s.warps && t.warps[key].point >= s.warps[key].point
    requires |t.units| == |s.units| && forall u | 0 <= u < |t.units| :: t.units[u].held == s.units[u].held
    requires forall j | 0 <= j < |t.inFlight| :: t.inFlight[j] in s.inFlight
    ensures LoadsKnown(t)
  {}

  lemma IssueKnowsLoads(s: Sm, e: Event)
    requires Good(s) && Enabled(s, e) && e.IssueMemory? && s.units[e.u].held.None?
    ensures LoadsKnown(Next(s, e))
  {
    hide Counted, Pend;
    var t := Next(s, e);
    assert t.warps.Keys == s.warps.Keys by { assert e.key in s.warps; }
    forall u | 0 <= u < |t.units| && t.units[u].held.Some?
      ensures var h := t.units[u].held.value; h.key in t.warps && (h.index in t.warps[h.key].loads <==> !h.store)
    {
      if u == e.u {
        assert s.warps[e.key].point !in s.warps[e.key].loads;
      } else {
        assert t.units[u] == s.units[u];
        HeldIsNamed(s, u);
      }
    }
  }

  lemma EmitKnowsLoads(s: Sm, u: nat)
    requires Good(s) && Enabled(s, Emit(u)) && s.units[u].held.value.key in s.warps
    ensures LoadsKnown(Next(s, Emit(u)))
  {
    hide Counted, Pend;
    var t := Next(s, Emit(u));
    assert t.warps.Keys == s.warps.Keys;
    assert forall key | key in s.warps ::
      t.warps[key].loads == s.warps[key].loads && t.warps[key].point == s.warps[key].point;
  }

  lemma StepKeepsGood(s: Sm, e: Event)
    requires Good(s) && Enabled(s, e)
    ensures Good(Next(s, e))
  {
    hide Inv, LoadsKnown;
    StepKeepsInv(s, e);
    StepKnowsLoads(s, e);
  }

  /** The stamp, and whether the load is finished, stay as they are. */
  ghost predicate Untouched(s: Sm, t: Sm, key: Key, i: nat) {
    && key in s.warps && key in t.warps
    && i < |s.warps[key].completions| && i < |t.warps[key].completions|
    && t.warps[key].completions[i] == s.warps[key].completions[i]
    && t.now >= s.now
    && (Finished(t, key, i) <==> Finished(s, key, i))
  }

  lemma UntouchedStaysHonest(s: Sm, t: Sm, key: Key, i: nat)
    requires Untouched(s, t, key, i) && HonestAt(s, key, i)
    ensures HonestAt(t, key, i)
  {}

  lemma IssueUntouched(s: Sm, e: Event, key: Key, i: nat)
    requires Good(s) && Enabled(s, e) && (e.IssueOther? || e.IssueMemory?)
    requires key in s.warps && i in s.warps[key].loads
    ensures Untouched(s, Next(s, e), key, i)
  {
    hide Counted, Named;
    var t := Next(s, e);
    BusyUnitIsNeverOverwritten(s, e.key, e.u);
    IssuedIsStamped(s, key);
    assert forall u | 0 <= u < |s.units| :: HoldsIndex(t.units[u], key, i) <==> HoldsIndex(s.units[u], key, i);
  }

  lemma NewLoadIsUnfinished(s: Sm, e: Event)
    requires Good(s) && Enabled(s, e) && e.IssueMemory? && !e.store
    ensures var (t, i) := (Next(s, e), s.warps[e.key].point);
      Stamped(t, e.key, i) && HonestAt(t, e.key, i)
  {
    hide Counted, Named, LoadsKnown;
    IssuedIsStamped(s, e.key);
    var t := Next(s, e);
    assert HoldsIndex(t.units[e.u], e.key, s.warps[e.key].point);
  }

  lemma EmitUntouched(s: Sm, u: nat, key: Key, i: nat)
    requires Good(s) && Enabled(s, Emit(u))
    requires key in s.warps && i in s.warps[key].loads
    ensures Untouched(s, Next(s, Emit(u)), key, i)
  {
    hide Counted, Pend;
    HeldIsNamed(s, u);
    IssuedIsStamped(s, key);
    var t := Next(s, Emit(u));
    var h := s.units[u].held.value;
    if HoldsIndex(s.units[u], key, i) {
      assert !h.store;
      assert t.inFlight[|s.inFlight|] == Slot(key.0, key.1, i);
    } else {
      assert forall v | 0 <= v < |s.units| :: HoldsIndex(t.units[v], key, i) <==> HoldsIndex(s.units[v], key, i);
    }
  }

  lemma ReplyUntouched(s: Sm, j: nat, key: Key, i: nat)
    requires Good(s) && Enabled(s, Reply(j))
    requires key in s.warps && i in s.warps[key].loads && s.inFlight[j] != Slot(key.0, key.1, i)
    ensures Untouched(s, Next(s, Reply(j)), key, i)
  {
    hide Counted, Pend, Named;
    ReplyFindsItsWarp(s, j);
    IssuedIsStamped(s, key);
    var (t, slot) := (Next(s, Reply(j)), Slot(key.0, key.1, i));
    assert slot in t.inFlight <==> slot in s.inFlight by { WithoutOther(s.inFlight, j, slot); }
    assert Holding(t, key, i) <==> Holding(s, key, i);
  }

  lemma WithoutOther(q: seq<Slot>, j: nat, slot: Slot)
    requires j < |q| && q[j] != slot
    ensures slot in Without(q, j) <==> slot in q
  {
    if slot in q {
      var k :| 0 <= k < |q| && q[k] == slot;
      assert Without(q, j)[if k < j then k else k - 1] == slot;
    }
  }

  /** An answer keeps its own load's stamp honest exactly when it does not empty the count too early. */
  lemma ReplyHonestIff(s: Sm, j: nat)
    requires Good(s) && Honest(s) && Enabled(s, Reply(j))
    ensures var (r, t) := (s.inFlight[j], Next(s, Reply(j)));
      && var key := (r.block, r.warp);
      && key in t.warps && r.index in t.warps[key].loads
      && Stamped(t, key, r.index)
      && (HonestAt(t, key, r.index) <==> !EarlyEmpty(s, Reply(j)))
  {
    hide Counted, Named, Inv;
    ReplyFindsItsWarp(s, j);
    var r := s.inFlight[j];
    var (t, key) := (Next(s, Reply(j)), (r.block, r.warp));
    StepKeepsInv(s, Reply(j));
    IssuedIsStamped(s, key);
    IssuedIsStamped(t, key);
    EmptyingFinishesIff(s, j);
    assert s.now < INT_MAX by { NotAtTheEnd(s); }
    assert r in s.inFlight;
    assert HonestAt(s, key, r.index);
  }

  lemma NotAtTheEnd(s: Sm)
    requires Inv(s)
    ensures s.now < INT_MAX
  {
    hide Counted, Named;
  }

  lemma OtherUntouched(s: Sm, e: Event, key: Key, i: nat)
    requires Good(s) && Enabled(s, e)
    requires key in s.warps && i in s.warps[key].loads && key in Next(s, e).warps
    requires e.Reply? ==> s.inFlight[e.i] != Slot(key.0, key.1, i)
    ensures Untouched(s, Next(s, e), key, i)
  {
    hide Inv, LoadsKnown, Emitted, Answer, TakeMemory;
    match e
    case Spawn(b, sizes) =>
      SpawnedFresh(s, b, sizes);
      StampedLoads(s, key, i);
      assert Holding(Next(s, e), key, i) <==> Holding(s, key, i);
    case IssueOther(_, _, _, _) => IssueUntouched(s, e, key, i);
    case IssueMemory(_, _, _, _) => IssueUntouched(s, e, key, i);
    case Emit(u) => EmitUntouched(s, u, key, i);
    case Reply(j) => ReplyUntouched(s, j, key, i);
    case _ =>
      StampedLoads(s, key, i);
      assert Holding(Next(s, e), key, i) <==> Holding(s, key, i);
  }

  lemma StampedLoads(s: Sm, key: Key, i: nat)
    requires Good(s) && key in s.warps && i in s.warps[key].loads
    ensures Stamped(s, key, i)
  {
    IssuedIsStamped(s, key);
  }

  /** Loads after a step are loads before it, or the one just issued. */
  lemma LoadsAfter(s: Sm, e: Event, key: Key, i: nat)
    requires Good(s) && Enabled(s, e) && key in Next(s, e).warps && i in Next(s, e).warps[key].loads
    ensures || (key in s.warps && i in s.warps[key].loads)
            || (e.IssueMemory? && !e.store && key == e.key && i == s.warps[key].point)
  {
    hide Counted, Pend, NewWarps;
    match e
    case Spawn(b, sizes) => SpawnedFresh(s, b, sizes);
    case Emit(u) => HeldIsNamed(s, u);
    case _ =>
  }

  /** For every step: all stamps stay honest if and only if the step is no early emptying. */
  lemma StepHonestIff(s: Sm, e: Event)
    requires Good(s) && Honest(s) && Enabled(s, e)
    ensures Good(Next(s, e))
    ensures Honest(Next(s, e)) <==> !EarlyEmpty(s, e)
  {
    hide Inv, LoadsKnown, Next, HonestAt, Untouched, Enabled, EarlyEmpty;
    StepKeepsGood(s, e);
    var t := Next(s, e);
    if e.Reply? { EnabledReply(s, e); ReplyHonestIff(s, e.i); } else { OnlyReplies(s, e); }
    if !EarlyEmpty(s, e) {
      forall key, i | key in t.warps && i in t.warps[key].loads
        ensures Stamped(t, key, i) && HonestAt(t, key, i)
      {
        StampedLoads(t, key, i);
        LoadsAfter(s, e, key, i);
        if key !in s.warps || i !in s.warps[key].loads {
          NewLoadIsUnfinished(s, e);
        } else if !(e.Reply? && s.inFlight[e.i] == Slot(key.0, key.1, i)) {
          OtherUntouched(s, e, key, i);
          UntouchedStaysHonest(s, t, key, i);
        }
      }
    }
  }

  lemma EnabledReply(s: Sm, e: Event)
    requires Enabled(s, e) && e.Reply?
    ensures e.i < |s.inFlight|
  {}

  lemma OnlyReplies(s: Sm, e: Event)
    requires !e.Reply?
    ensures !EarlyEmpty(s, e)
  {}

  // ------------------------------------------------------------------
  // Runs
  // ------------------------------------------------------------------

  ghost predicate HonestThroughout(s: Sm, es: seq<Event>)
    requires Feasible(s, es)
    decreases |es|
  {
    Honest(s) && (es == [] || HonestThroughout(Next(s, es[0]), es[1..]))
  }

  ghost predicate NeverEarly(s: Sm, es: seq<Event>)
    requires Feasible(s, es)
    decreases |es|
  {
    es == [] || (!EarlyEmpty(s, es[0]) && NeverEarly(Next(s, es[0]), es[1..]))
  }

  lemma {:induction false} HonestIffNeverEarly(s: Sm, es: seq<Event>)
    requires Good(s) && Honest(s) && Feasible(s, es)
    ensures HonestThroughout(s, es) <==> NeverEarly(s, es)
    ensures Good(Run(s, es))
    ensures NeverEarly(s, es) ==> Honest(Run(s, es))
    decreases |es|
  {
    hide Good, Honest, EarlyEmpty, Next, Enabled;
    if es != [] {
      var t := Next(s, es[0]);
      StepHonestIff(s, es[0]);
      if Honest(t) {
        HonestIffNeverEarly(t, es[1..]);
      } else {
        assert !HonestThroughout(t, es[1..]);
        RunKeepsGood(t, es[1..]);
      }
    }
  }

  lemma {:induction false} RunKeepsGood(s: Sm, es: seq<Event>)
    requires Good(s) && Feasible(s, es)
    ensures Good(Run(s, es))
    decreases |es|
  {
    hide Good, Next, Enabled;
    if es != [] {
      StepKeepsGood(s, es[0]);
      RunKeepsGood(Next(s, es[0]), es[1..]);
    }
  }

  /** For every run: stamps tell finished loads from unfinished ones throughout if and only if no answer empties
      the count of a load that a unit still holds. */
  lemma StampsHonestIff(units: nat, es: seq<Event>)
    requires Feasible(Idle(units), es)
    ensures HonestThroughout(Idle(units), es) <==> NeverEarly(Idle(units), es)
  {
    hide Feasible, HonestThroughout, NeverEarly, Run;
    HonestIffNeverEarly(Idle(units), es);
  }

  // ------------------------------------------------------------------
  // Instructions that are no loads
  // ------------------------------------------------------------------

  predicate Survives(es: seq<Event>, key: Key) { forall k :: 0 <= k < |es| ==> es[k] != Retire(key) }

  lemma StepKeepsStamp(s: Sm, e: Event, key: Key, i: nat)
    requires Good(s) && Enabled(s, e) && e != Retire(key) && key in s.warps
    requires i < s.warps[key].point && i !in s.warps[key].loads
    ensures var t := Next(s, e);
      && key in t.warps && i < t.warps[key].point && i !in t.warps[key].loads
      && i < |s.warps[key].completions| && i < |t.warps[key].completions|
      && t.warps[key].completions[i] == s.warps[key].completions[i]
  {
    hide Counted, Named, Pend, NewWarps;
    IssuedIsStamped(s, key);
    match e
    case Spawn(b, sizes) => SpawnedFresh(s, b, sizes);
    case Emit(u) => HeldIsNamed(s, u);
    case Reply(j) => ReplyFindsItsWarp(s, j);
    case _ =>
  }

  lemma {:induction false} StampStays(s: Sm, es: seq<Event>, key: Key, i: nat)
    requires Good(s) && Feasible(s, es) && Survives(es, key) && key in s.warps
    requires i < s.warps[key].point && i !in s.warps[key].loads
    ensures var t := Run(s, es);
      && key in t.warps && i < |s.warps[key].completions| && i < |t.warps[key].completions|
      && t.warps[key].completions[i] == s.warps[key].completions[i]
    decreases |es|
  {
    hide Good, Enabled, Next;
    if es != [] {
      StepKeepsStamp(s, es[0], key, i);
      StepKeepsGood(s, es[0]);
      StampStays(Next(s, es[0]), es[1..], key, i);
    } else {
      IssuedIsStamped(s, key) by { GoodMeansInv(s); }
    }
  }

  lemma GoodMeansInv(s: Sm)
    requires Good(s)
    ensures Inv(s)
  {}

  /** The stamp of an instruction without requests is the cycle of its issue and its latency, that of a store one cycle
      after its issue; neither changes as long as the warp lives. */
  lemma ResultOnTime(s: Sm, e: Event, es: seq<Event>)
    requires Good(s) && Enabled(s, e) && (e.IssueOther? || (e.IssueMemory? && e.store))
    requires Feasible(Next(s, e), es) && Survives(es, e.key)
    ensures e.key in s.warps
    ensures var (t, i) := (Run(Next(s, e), es), s.warps[e.key].point);
      && e.key in t.warps && i < |t.warps[e.key].completions|
      && t.warps[e.key].completions[i] == s.now + if e.IssueOther? then e.latency else 1
  {
    hide Counted, Named, LoadsKnown, Feasible, Run;
    IssuedIsStamped(s, e.key);
    StepKeepsGood(s, e);
    assert s.warps[e.key].point !in s.warps[e.key].loads by { LoadsBelowPoint(s, e.key); }
    StampStays(Next(s, e), es, e.key, s.warps[e.key].point);
  }

  lemma LoadsBelowPoint(s: Sm, key: Key)
    requires LoadsKnown(s) && key in s.warps
    ensures forall i | i in s.warps[key].loads :: i < s.warps[key].point
  {}

  // ------------------------------------------------------------------
  // Dependent instructions
  // ------------------------------------------------------------------

  datatype Program = Program(insts: seq<Scoreboard.Inst>, deps: seq<seq<nat>>)

  /** The program of each warp of the kernel. */
  type Programs = Key -> Program

  ghost predicate Recorded(progs: Programs) {
    forall key :: Scoreboard.Recorded(progs(key).insts, progs(key).deps)
  }

  /** What check_dependency sees of a warp. */
  function View(s: Sm, key: Key): Scoreboard.Warp
    requires key in s.warps
  {
    Scoreboard.Warp(s.warps[key].point, s.warps[key].completions, s.now)
  }

  predicate MayIssue(progs: Programs, s: Sm, key: Key)
    requires key in s.warps
  {
    var p := progs(key);
    s.warps[key].point < |p.insts| == |p.deps| && Scoreboard.Ready(p.insts, View(s, key), p.deps)
  }

  /** Warps start with their programs and issue only what check_dependency lets pass. */
  predicate Checked(progs: Programs, s: Sm, e: Event) {
    match e
    case Spawn(b, sizes) => forall k | k in sizes :: sizes[k] == |progs((b, k)).insts|
    case IssueOther(key, _, _, _) => key in s.warps && MayIssue(progs, s, key)
    case IssueMemory(key, _, _, _) => key in s.warps && MayIssue(progs, s, key)
    case _ => true
  }

  /** What the step is to the dependencies of one warp. */
  function Seen(s: Sm, e: Event, key: Key): Option<Scoreboard.Event> {
    match e
    case IssueOther(k, _, _, latency) => if k == key then Some(Scoreboard.Issue([s.now + latency])) else None
    case IssueMemory(k, _, store, _) =>
      if k == key then Some(Scoreboard.Issue([if store then s.now + 1 else INT_MAX])) else None
    case Reply(j) =>
      if j < |s.inFlight| && key in s.warps && (s.inFlight[j].block, s.inFlight[j].warp) == key
         && Pend(s.warps[key].pending, s.inFlight[j].index) == 1
      then Some(Scoreboard.WriteBack(s.inFlight[j].index)) else None
    case Tick => Some(Scoreboard.Tick)
    case _ => None
  }

  /** Every step is, for each warp, a step of its dependencies or no change. */
  lemma StepIsSeen(progs: Programs, s: Sm, e: Event, key: Key)
    requires Recorded(progs) && Inv(s) && Enabled(s, e) && Checked(progs, s, e)
    requires key in s.warps && key in Next(s, e).warps
    ensures var (p, seen) := (progs(key), Seen(s, e, key));
      match seen
      case None => View(Next(s, e), key) == View(s, key)
      case Some(x) =>
        && |p.deps| == |p.insts| && Scoreboard.Enabled(p.insts, p.deps, 1, View(s, key), x)
        && View(Next(s, e), key) == Scoreboard.Next(View(s, key), x)
  {
    hide Counted, Named, Scoreboard.Ready, Scoreboard.DependsOn, NewWarps;
    IssuedIsStamped(s, key);
    match e
    case Spawn(b, sizes) => SpawnedFresh(s, b, sizes);
    case Emit(u) => EmitKeepsView(s, u, key);
    case Reply(j) => ReplyFindsItsWarp(s, j);
    case _ =>
  }

  lemma EmitKeepsView(s: Sm, u: nat, key: Key)
    requires Inv(s) && Enabled(s, Emit(u)) && key in s.warps
    ensures key in Next(s, Emit(u)).warps && View(Next(s, Emit(u)), key) == View(s, key)
  {
    hide Counted;
    HeldIsNamed(s, u);
  }

  ghost predicate SafeAt(progs: Programs, s: Sm, key: Key)
    requires key in s.warps
  {
    s.warps[key].size == |progs(key).insts| && Scoreboard.Safe(progs(key).insts, View(s, key))
  }

  ghost predicate AllSafe(progs: Programs, s: Sm) {
    forall key | key in s.warps :: SafeAt(progs, s, key)
  }

  lemma StepKeepsSize(s: Sm, e: Event, key: Key)
    requires Inv(s) && Enabled(s, e) && key in s.warps && key in Next(s, e).warps
    ensures Next(s, e).warps[key].size == s.warps[key].size
  {
    hide Counted;
    match e
    case Spawn(b, sizes) => SpawnedFresh(s, b, sizes);
    case Emit(u) => HeldIsNamed(s, u);
    case _ =>
  }

  lemma OnlySpawnAdds(progs: Programs, s: Sm, e: Event, key: Key)
    requires Inv(s) && Enabled(s, e) && Checked(progs, s, e) && key !in s.warps && key in Next(s, e).warps
    ensures var w := Next(s, e).warps[key];
      w.size == |progs(key).insts| && w.point == 0 && w.completions == []
  {
    hide Counted;
    match e
    case Emit(u) => HeldIsNamed(s, u);
    case _ =>
  }

  lemma StepKeepsSafe(progs: Programs, s: Sm, e: Event)
    requires Recorded(progs) && AllSafe(progs, s) && Inv(s) && Enabled(s, e) && Checked(progs, s, e)
    ensures AllSafe(progs, Next(s, e))
  {
    hide Inv, Enabled, Next, Checked, View, Seen;
    hide Scoreboard.Safe, Scoreboard.Recorded, Scoreboard.Enabled, Scoreboard.Next;
    var t := Next(s, e);
    forall key | key in t.warps ensures SafeAt(progs, t, key) {
      if key in s.warps {
        assert SafeAt(progs, s, key);
        StepIsSeen(progs, s, e, key);
        StepKeepsSize(s, e, key);
        match Seen(s, e, key)
        case None =>
        case Some(x) => Scoreboard.StepKeepsSafe(progs(key).insts, progs(key).deps, View(s, key), x);
      } else {
        OnlySpawnAdds(progs, s, e, key);
        FreshIsSafe(progs, t, key);
      }
    }
  }

  lemma FreshIsSafe(progs: Programs, s: Sm, key: Key)
    requires key in s.warps && s.warps[key].point == 0 && s.warps[key].completions == []
    ensures Scoreboard.Safe(progs(key).insts, View(s, key))
  {}

  predicate CheckedRun(progs: Programs, s: Sm, es: seq<Event>)
    requires Feasible(s, es)
    decreases |es|
  {
    es == [] || (Checked(progs, s, es[0]) && CheckedRun(progs, Next(s, es[0]), es[1..]))
  }

  lemma {:induction false} RunKeepsSafe(progs: Programs, s: Sm, es: seq<Event>)
    requires Recorded(progs) && AllSafe(progs, s) && Inv(s) && Feasible(s, es) && CheckedRun(progs, s, es)
    ensures AllSafe(progs, Run(s, es))
    decreases |es|
  {
    hide Recorded, AllSafe, Inv, Next, Enabled, Checked;
    if es != [] {
      StepKeepsInv(s, es[0]);
      StepKeepsSafe(progs, s, es[0]);
      RunKeepsSafe(progs, Next(s, es[0]), es[1..]);
    }
  }

  /** While stamps are honest an instruction is settled exactly when every load it must wait for is finished and
      every other instruction it must wait for has reached its completion time. */
  lemma SettledIffAnswered(progs: Programs, s: Sm, key: Key, i: nat)
    requires Good(s) && Honest(s) && key in s.warps && i < |progs(key).insts| && i <= s.warps[key].point
    ensures |s.warps[key].completions| == s.warps[key].point
    ensures Scoreboard.Settled(progs(key).insts, View(s, key), i) <==>
      forall j | 0 <= j < i && Scoreboard.MustPrecede(progs(key).insts, j, i) ::
        if j in s.warps[key].loads then Finished(s, key, j) else s.warps[key].completions[j] <= s.now
  {
    hide Inv, LoadsKnown, Scoreboard.MustPrecede, Finished;
    IssuedIsStamped(s, key);
    NotAtTheEnd(s);
    forall j: nat | j < i && j in s.warps[key].loads
      ensures Finished(s, key, j) <==> s.warps[key].completions[j] <= s.now
    {
      assert Stamped(s, key, j) && HonestAt(s, key, j);
    }
  }

  /** For every run in which no count is emptied early, and for every kernel: when the next instruction of a warp
      may issue, every load whose result it uses or overwrites has all its requests sent and answered. */
  lemma IssueWaitsForAnswers(units: nat, progs: Programs, es: seq<Event>, key: Key)
    requires Recorded(progs) && Feasible(Idle(units), es) && CheckedRun(progs, Idle(units), es)
    requires NeverEarly(Idle(units), es)
    ensures var s := Run(Idle(units), es);
      key in s.warps && MayIssue(progs, s, key) ==>
        forall j | j in s.warps[key].loads && j < s.warps[key].point
                   && Scoreboard.MustPrecede(progs(key).insts, j, s.warps[key].point) :: Finished(s, key, j)
  {
    hide Feasible, CheckedRun, NeverEarly, Run, Scoreboard.MustPrecede, Scoreboard.Ready, Inv, Honest, LoadsKnown;
    var s := Run(Idle(units), es);
    IdleIsGood(units);
    HonestIffNeverEarly(Idle(units), es);
    RunKeepsSafe(progs, Idle(units), es);
    if key in s.warps && MayIssue(progs, s, key) {
      assert SafeAt(progs, s, key);
      Scoreboard.ReadyIsSettled(progs(key).insts, progs(key).deps, View(s, key));
      SettledIffAnswered(progs, s, key, s.warps[key].point);
    }
  }

  lemma IdleIsGood(units: nat)
    ensures Good(Idle(units)) && Honest(Idle(units))
  {}
}
