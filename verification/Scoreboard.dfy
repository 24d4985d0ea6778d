/** Register dependencies of one warp: how they are recorded, and what waiting for them guarantees. */
module Scoreboard {
  import opened Basics

  type Reg = string

  /** `writes`: the trace gives a non-zero number of destination registers. `joins`: EXIT or a barrier. */
  datatype Inst = Inst(dests: seq<Reg>, srcs: seq<Reg>, writes: bool, joins: bool)

  predicate WritesReg(x: Inst, reg: Reg) { x.writes && reg in x.dests }

  predicate WritesAny(x: Inst) { x.writes && x.dests != [] }

  // ------------------------------------------------------------------
  // What is recorded: last writers
  // ------------------------------------------------------------------

  /** The last instruction before i that writes reg. */
  function LastWriter(insts: seq<Inst>, i: nat, reg: Reg): (o: Option<nat>)
    requires i <= |insts|
    ensures o.Some? ==> o.value < i && WritesReg(insts[o.value], reg)
    ensures forall j :: 0 <= j < i && WritesReg(insts[j], reg) ==> o.Some? && j <= o.value
  {
    if i == 0 then None
    else if WritesReg(insts[i - 1], reg) then Some(i - 1)
    else LastWriter(insts, i - 1, reg)
  }

  /** The same, with instruction i counted in. */
  function WriterThrough(insts: seq<Inst>, i: nat, reg: Reg): Option<nat>
    requires i < |insts|
  {
    LastWriter(insts, i + 1, reg)
  }

  /** d is a dependency of instruction i: last writer of one of its registers; for EXIT and barriers, last
      writer of any register, the instruction's own results included. */
  ghost predicate DependsOn(insts: seq<Inst>, i: nat, d: int)
    requires i < |insts|
  {
    || (exists reg :: (reg in insts[i].dests || reg in insts[i].srcs) && LastWriter(insts, i, reg) == Some(d))
    || (insts[i].joins && exists reg :: WriterThrough(insts, i, reg) == Some(d))
  }

  /** Every dependency points to an earlier instruction, unless an EXIT or a barrier has a result of its own:
      then, and only then, it also depends on itself. */
  lemma DependenciesPointBackIff(insts: seq<Inst>, i: nat)
    requires i < |insts|
    ensures (forall d | DependsOn(insts, i, d) :: 0 <= d < i) <==> !(insts[i].joins && WritesAny(insts[i]))
    ensures forall d | DependsOn(insts, i, d) :: 0 <= d <= i
  {
    if insts[i].joins && WritesAny(insts[i]) {
      var reg := insts[i].dests[0];
      assert WriterThrough(insts, i, reg) == Some(i);
      assert DependsOn(insts, i, i);
    } else if insts[i].joins {
      forall reg ensures WriterThrough(insts, i, reg) == LastWriter(insts, i, reg) {}
    }
  }

  // ------------------------------------------------------------------
  // Running a warp
  // ------------------------------------------------------------------

  /** completions[j] is the cycle from which the result of instruction j may be used. */
  datatype Warp = Warp(point: nat, completions: seq<int>, now: int)

  datatype Event =
    | Issue(done: seq<int>)     // check the next instruction, then issue |done| in a row
    | WriteBack(j: nat)         // an answer leaves nothing counted as pending for load j: j is stamped with now
    | Tick

  predicate Ready(insts: seq<Inst>, w: Warp, deps: seq<seq<nat>>)
    requires w.point < |insts| == |deps|
  {
    forall k :: 0 <= k < |deps[w.point]| ==>
      deps[w.point][k] < |w.completions| && w.completions[deps[w.point][k]] <= w.now
  }

  /** deps holds exactly the dependencies of every instruction. */
  ghost predicate Recorded(insts: seq<Inst>, deps: seq<seq<nat>>) {
    |deps| == |insts| && forall i, d | 0 <= i < |insts| :: d in deps[i] <==> DependsOn(insts, i, d)
  }

  /** `width` is num_inst_dispatch_units_per_warp. */
  predicate Enabled(insts: seq<Inst>, deps: seq<seq<nat>>, width: nat, w: Warp, e: Event)
    requires |deps| == |insts|
  {
    match e
    case Issue(done) => 0 < |done| <= width && w.point + |done| <= |insts| && Ready(insts, w, deps)
    case WriteBack(j) => j < |w.completions|
    case Tick => true
  }

  function Next(w: Warp, e: Event): Warp {
    match e
    case Issue(done) => w.(point := w.point + |done|, completions := w.completions + done)
    case WriteBack(j) => if j < |w.completions| then w.(completions := w.completions[j := w.now]) else w
    case Tick => w.(now := w.now + 1)
  }

  /** Instruction j must have its stamp passed before instruction i may start: i uses or overwrites a result of j, or i
      is an EXIT or a barrier. */
  ghost predicate MustPrecede(insts: seq<Inst>, j: nat, i: nat)
    requires j < i < |insts|
  {
    exists reg :: WritesReg(insts[j], reg) && (reg in insts[i].dests || reg in insts[i].srcs || insts[i].joins)
  }

  ghost predicate Settled(insts: seq<Inst>, w: Warp, i: nat)
    requires i < |insts| && i <= |w.completions|
  {
    forall j | 0 <= j < i && MustPrecede(insts, j, i) :: w.completions[j] <= w.now
  }

  /** Everything issued had the stamps of its predecessors passed. */
  ghost predicate Safe(insts: seq<Inst>, w: Warp) {
    && |w.completions| == w.point <= |insts|
    && forall i | 0 <= i < w.point :: Settled(insts, w, i)
  }

  /** Waiting for last writers is enough: earlier writers were waited for when the last one issued. */
  lemma ReadyIsSettled(insts: seq<Inst>, deps: seq<seq<nat>>, w: Warp)
    requires Recorded(insts, deps) && Safe(insts, w) && w.point < |insts| && Ready(insts, w, deps)
    ensures Settled(insts, w, w.point)
  {
    var i := w.point;
    forall j | 0 <= j < i && MustPrecede(insts, j, i) ensures w.completions[j] <= w.now {
      var reg :| WritesReg(insts[j], reg) && (reg in insts[i].dests || reg in insts[i].srcs || insts[i].joins);
      var last := LastWriter(insts, i, reg).value;
      if reg !in insts[i].dests && reg !in insts[i].srcs {
        assert WriterThrough(insts, i, reg) == Some(last);
      }
      assert DependsOn(insts, i, last);
      assert last in deps[i];
      if j < last {
        assert Settled(insts, w, last);
        assert MustPrecede(insts, j, last);
      }
    }
  }

  /** Nothing is recorded that need not be waited for. */
  lemma DependsOnPredecessors(insts: seq<Inst>, i: nat, d: int)
    requires i < |insts| && DependsOn(insts, i, d)
    ensures 0 <= d <= i && (d < i ==> MustPrecede(insts, d, i)) && (d == i ==> insts[i].joins && WritesAny(insts[i]))
  {
    if reg :| (reg in insts[i].dests || reg in insts[i].srcs) && LastWriter(insts, i, reg) == Some(d) {
      assert WritesReg(insts[d], reg);
    } else {
      var reg :| WriterThrough(insts, i, reg) == Some(d);
      assert WritesReg(insts[d], reg);
    }
  }

  /** In every safe state an instruction may issue exactly when all instructions it must wait for have their stamps
      passed; an EXIT or barrier with a result looks for a stamp of its own, which is not there. */
  lemma ReadyIffSettled(insts: seq<Inst>, deps: seq<seq<nat>>, w: Warp)
    requires Recorded(insts, deps) && Safe(insts, w) && w.point < |insts|
    ensures Ready(insts, w, deps) <==>
      Settled(insts, w, w.point) && !(insts[w.point].joins && WritesAny(insts[w.point]))
  {
    hide DependsOn, MustPrecede;
    var i := w.point;
    if Ready(insts, w, deps) {
      ReadyIsSettled(insts, deps, w);
      if insts[i].joins && WritesAny(insts[i]) { SelfDependence(insts, i); }
    }
    if Settled(insts, w, i) && !(insts[i].joins && WritesAny(insts[i])) {
      forall k | 0 <= k < |deps[i]| ensures deps[i][k] < |w.completions| && w.completions[deps[i][k]] <= w.now {
        assert deps[i][k] in deps[i];
        DependsOnPredecessors(insts, i, deps[i][k]);
      }
    }
  }

  lemma SelfDependence(insts: seq<Inst>, i: nat)
    requires i < |insts| && insts[i].joins && WritesAny(insts[i])
    ensures DependsOn(insts, i, i)
  {
    assert WriterThrough(insts, i, insts[i].dests[0]) == Some(i);
  }

  lemma StepKeepsSafe(insts: seq<Inst>, deps: seq<seq<nat>>, w: Warp, e: Event)
    requires Recorded(insts, deps) && Safe(insts, w) && Enabled(insts, deps, 1, w, e)
    ensures Safe(insts, Next(w, e))
  {
    hide DependsOn, MustPrecede;
    var t := Next(w, e);
    if e.Issue? { ReadyIsSettled(insts, deps, w); }
    forall i | 0 <= i < t.point ensures Settled(insts, t, i) {
      assert Settled(insts, w, i);
    }
  }

  predicate Feasible(insts: seq<Inst>, deps: seq<seq<nat>>, width: nat, w: Warp, es: seq<Event>)
    requires |deps| == |insts|
    decreases |es|
  {
    es == [] || (Enabled(insts, deps, width, w, es[0]) && Feasible(insts, deps, width, Next(w, es[0]), es[1..]))
  }

  function Run(w: Warp, es: seq<Event>): Warp
    decreases |es|
  {
    if es == [] then w else Run(Next(w, es[0]), es[1..])
  }

  lemma {:induction false} RunKeepsSafe(insts: seq<Inst>, deps: seq<seq<nat>>, w: Warp, es: seq<Event>)
    requires Recorded(insts, deps) && Safe(insts, w) && Feasible(insts, deps, 1, w, es)
    ensures Safe(insts, Run(w, es))
    decreases |es|
  {
    hide Recorded, Safe, Enabled, Next;
    if es != [] {
      StepKeepsSafe(insts, deps, w, es[0]);
      RunKeepsSafe(insts, deps, Next(w, es[0]), es[1..]);
    }
  }

  /** For every program and every run of one-wide issue: there is one completion stamp per issued instruction, and
      whenever the next instruction may issue, the stamps of all instructions it must wait for have passed. What a
      passed stamp says about the requests of a load is the subject of LoadCompletion. */
  lemma IssueWaitsForAllWriters(insts: seq<Inst>, deps: seq<seq<nat>>, now: int, es: seq<Event>)
    requires Recorded(insts, deps) && Feasible(insts, deps, 1, Warp(0, [], now), es)
    ensures var w := Run(Warp(0, [], now), es);
      && |w.completions| == w.point <= |insts|
      && (w.point < |insts| && Ready(insts, w, deps) ==> Settled(insts, w, w.point))
  {
    hide Settled, Feasible, Run;
    var w := Run(Warp(0, [], now), es);
    RunKeepsSafe(insts, deps, Warp(0, [], now), es);
    if w.point < |insts| && Ready(insts, w, deps) { ReadyIsSettled(insts, deps, w); }
  }

  // ------------------------------------------------------------------
  // Issue width
  // ------------------------------------------------------------------

  const PRODUCER := Inst(["R1"], [], true, false)
  const CONSUMER := Inst(["R2"], ["R1"], true, false)

  /** Safe for every program, every recording of its dependencies and every run. */
  ghost predicate SafeWidth(width: nat) {
    forall insts: seq<Inst>, deps: seq<seq<nat>>, es: seq<Event> |
      Recorded(insts, deps) && Feasible(insts, deps, width, Warp(0, [], 0), es) ::
      Safe(insts, Run(Warp(0, [], 0), es))
  }

  lemma PairRecorded()
    ensures Recorded([PRODUCER, CONSUMER], [[], [0]])
  {
    var insts := [PRODUCER, CONSUMER];
    assert LastWriter(insts, 1, "R1") == Some(0);
    assert LastWriter(insts, 1, "R2") == None by { assert "R1" != "R2"; }
    forall d ensures d in [0] <==> DependsOn(insts, 1, d) {
      assert "R1" in insts[1].srcs;
    }
    forall d ensures !DependsOn(insts, 0, d) {}
  }

  /** The check covers the first instruction of a group only: waiting is enforced exactly when groups have
      one instruction. */
  lemma SafeWidthIff(width: nat)
    ensures SafeWidth(width) <==> width <= 1
  {
    if width <= 1 {
      forall insts: seq<Inst>, deps: seq<seq<nat>>, es: seq<Event> |
        Recorded(insts, deps) && Feasible(insts, deps, width, Warp(0, [], 0), es)
        ensures Safe(insts, Run(Warp(0, [], 0), es))
      {
        NarrowFeasible(insts, deps, width, Warp(0, [], 0), es);
        RunKeepsSafe(insts, deps, Warp(0, [], 0), es);
      }
    } else {
      var insts, deps, es := [PRODUCER, CONSUMER], [[], [0]], [Issue([100, 100])];
      PairRecorded();
      PairIssued(width);
      assert Feasible(insts, deps, width, Warp(0, [], 0), es);
      assert !Safe(insts, Run(Warp(0, [], 0), es));
    }
  }

  lemma {:induction false} NarrowFeasible(insts: seq<Inst>, deps: seq<seq<nat>>, width: nat, w: Warp, es: seq<Event>)
    requires |deps| == |insts| && width <= 1 && Feasible(insts, deps, width, w, es)
    ensures Feasible(insts, deps, 1, w, es)
    decreases |es|
  {
    if es != [] { NarrowFeasible(insts, deps, width, Next(w, es[0]), es[1..]); }
  }

  lemma PairIssued(width: nat)
    requires width >= 2
    ensures var insts, deps, es, w := [PRODUCER, CONSUMER], [[], [0]], [Issue([100, 100])], Warp(0, [], 0);
      Feasible(insts, deps, width, w, es) && !Safe(insts, Run(w, es))
  {
    var insts, w := [PRODUCER, CONSUMER], Warp(0, [], 0);
    var t := Next(w, Issue([100, 100]));
    assert t == Warp(2, [100, 100], 0);
    assert WritesReg(insts[0], "R1") && "R1" in insts[1].srcs;
    assert MustPrecede(insts, 0, 1);
    assert !Settled(insts, t, 1);
    assert Run(w, [Issue([100, 100])]) == Run(t, []);
  }

  // ------------------------------------------------------------------
  // The warp that records and checks
  // ------------------------------------------------------------------

  type LastWriters = map<Reg, nat>

  ghost predicate Tracks(m: LastWriters, insts: seq<Inst>, i: nat)
    requires i <= |insts|
  {
    forall reg :: LastWriter(insts, i, reg) == if reg in m then Some(m[reg]) else None
  }

  /** The recorded writers of a list of registers, in order. */
  method Lookups(m: LastWriters, regs: seq<Reg>) returns (found: seq<nat>)
    ensures forall d :: d in found <==> exists reg :: reg in regs && reg in m && m[reg] == d
  {
    found := [];
    for k := 0 to |regs|
      invariant forall d :: d in found <==> exists reg :: reg in regs[..k] && reg in m && m[reg] == d
    {
      assert regs[..k + 1] == regs[..k] + [regs[k]];
      if regs[k] in m { found := found + [m[regs[k]]]; }
    }
    assert regs[..|regs|] == regs;
  }

  /** All recorded writers. */
  method AllWriters(m: LastWriters) returns (found: seq<nat>)
    ensures forall d :: d in found <==> exists reg :: reg in m && m[reg] == d
  {
    found := [];
    var rest := m.Keys;
    while rest != {}
      invariant rest <= m.Keys
      invariant forall d :: d in found <==> exists reg :: reg in m && reg !in rest && m[reg] == d
      decreases rest
    {
      var reg :| reg in rest;
      found := found + [m[reg]];
      rest := rest - {reg};
    }
  }

  method NoteWrites(m: LastWriters, insts: seq<Inst>, i: nat) returns (m': LastWriters)
    requires i < |insts| && Tracks(m, insts, i)
    ensures Tracks(m', insts, i + 1)
  {
    m' := m;
    if insts[i].writes {
      var dests := insts[i].dests;
      for k := 0 to |dests|
        invariant forall reg :: reg in m' <==> reg in m || reg in dests[..k]
        invariant forall reg | reg in m' :: m'[reg] == if reg in dests[..k] then i else m[reg]
      {
        assert dests[..k + 1] == dests[..k] + [dests[k]];
        m' := m'[dests[k] := i];
      }
      assert dests[..|dests|] == dests;
    }
  }

  class WarpState {
    const insts: seq<Inst>
    const dependency: array<seq<nat>>
    var point: nat
    var completions: seq<int>

    constructor (insts: seq<Inst>)
      ensures this.insts == insts && dependency.Length == |insts| && fresh(dependency)
      ensures point == 0 && completions == [] && forall i :: 0 <= i < |insts| ==> dependency[i] == []
    {
      this.insts := insts;
      dependency := new seq<nat>[|insts|](_ => []);
      point, completions := 0, [];
    }

    method GetInstDependency()
      requires dependency.Length == |insts| && forall i :: 0 <= i < |insts| ==> dependency[i] == []
      modifies dependency
      ensures Recorded(insts, dependency[..])
    {
      var m: LastWriters := map[];
      assert Tracks(m, insts, 0);
      hide Tracks, DependsOn, LastWriter;
      for index := 0 to |insts|
        invariant Tracks(m, insts, index)
        invariant forall i, d | 0 <= i < index :: d in dependency[i] <==> DependsOn(insts, i, d)
        invariant forall i :: index <= i < |insts| ==> dependency[i] == []
      {
        var ofDests := Lookups(m, insts[index].dests);
        var ofSrcs := Lookups(m, insts[index].srcs);
        ghost var before := m;
        m := NoteWrites(m, insts, index);
        dependency[index] := dependency[index] + ofDests + ofSrcs;
        if insts[index].joins {
          var all := AllWriters(m);
          dependency[index] := dependency[index] + all;
          JoinDependencies(insts, index, before, m, ofDests, ofSrcs, all);
        } else {
          JoinDependencies(insts, index, before, m, ofDests, ofSrcs, []);
        }
      }
    }

    /** Cycle-by-cycle check of the next instruction, last dependency first. */
    method CheckDependency(now: int) returns (ready: bool)
      requires dependency.Length == |insts| && point < |insts|
      requires forall k :: 0 <= k < |dependency[point]| ==> dependency[point][k] < |completions|
      ensures ready <==> Ready(insts, Warp(point, completions, now), dependency[..])
    {
      var deps := dependency[point];
      var i := |deps| - 1;
      while i >= 0
        invariant -1 <= i < |deps|
        invariant forall k :: i < k < |deps| ==> completions[deps[k]] <= now
        decreases i
      {
        if now < completions[deps[i]] { return false; }
        i := i - 1;
      }
      return true;
    }
  }

  lemma JoinDependencies(insts: seq<Inst>, i: nat, m: LastWriters, m': LastWriters,
                         ofDests: seq<nat>, ofSrcs: seq<nat>, all: seq<nat>)
    requires i < |insts| && Tracks(m, insts, i) && Tracks(m', insts, i + 1)
    requires forall d :: d in ofDests <==> exists reg :: reg in insts[i].dests && reg in m && m[reg] == d
    requires forall d :: d in ofSrcs <==> exists reg :: reg in insts[i].srcs && reg in m && m[reg] == d
    requires if insts[i].joins then forall d :: d in all <==> exists reg :: reg in m' && m'[reg] == d else all == []
    ensures forall d :: d in [] + ofDests + ofSrcs + all <==> DependsOn(insts, i, d)
  {
    forall d ensures d in [] + ofDests + ofSrcs + all <==> DependsOn(insts, i, d) {
      if d in ofDests {
        var reg :| reg in insts[i].dests && reg in m && m[reg] == d;
        assert LastWriter(insts, i, reg) == Some(d);
      }
      if d in ofSrcs {
        var reg :| reg in insts[i].srcs && reg in m && m[reg] == d;
        assert LastWriter(insts, i, reg) == Some(d);
      }
      if d in all {
        var reg :| reg in m' && m'[reg] == d;
        assert WriterThrough(insts, i, reg) == Some(d);
      }
    }
  }
}
