/** The interconnect: one router per subnet, packets pushed by their sender's kind and popped by their receiver's. */
module Interconnect {
  import opened Crossbar
  import opened XbarRouter

  /** Index of the router a packet from `input` is pushed to. */
  function PushNet(input: int, subnets: nat, shaders: nat): nat {
    if subnets == 1 then 0 else if input < shaders then 0 else 1
  }

  /** Index of the router that `output` pops from. */
  function PopNet(output: int, shaders: nat): nat {
    if output < shaders then 1 else 0
  }

  /** The routers, and what entered at each device and left at each device so far. */
  datatype Net = Net(routers: seq<Router>, pushed: Buffers, popped: Buffers)

  /** With a single subnet an SM pops from a router that does not exist. */
  predicate Possible(e: Event, subnets: nat, shaders: nat, cfg: Config) {
    Enabled(e, cfg) && (e.Pop? ==> PopNet(e.output, shaders) < subnets)
  }

  ghost predicate Formed(s: Net, subnets: nat, cfg: Config) {
    && |s.routers| == subnets >= 1 && |s.pushed| == |s.popped| == cfg.nodes
    && forall k | 0 <= k < subnets :: Shape(s.routers[k], cfg)
  }

  function NextNet(s: Net, e: Event, subnets: nat, shaders: nat, cfg: Config): Net
    requires Formed(s, subnets, cfg) && Possible(e, subnets, shaders, cfg)
  {
    match e
    case Push(i, o, d) =>
      var k := PushNet(i, subnets, shaders);
      Net(s.routers[k := Step(s.routers[k], e, cfg)], s.pushed[i := s.pushed[i] + [Packet(d, i, o)]], s.popped)
    case Pop(o) =>
      var k := PopNet(o, shaders);
      var out := s.routers[k].outs[o];
      Net(s.routers[k := Step(s.routers[k], e, cfg)], s.pushed,
          if out == [] then s.popped else s.popped[o := s.popped[o] + [out[0]]])
    case Cycle =>
      s.(routers := seq(subnets, k requires 0 <= k < subnets => Advance(s.routers[k], cfg)))
  }

  // ------------------------------------------------------------------
  // What enters is what leaves plus what is inside
  // ------------------------------------------------------------------

  /** What one step of a router does to one flow. */
  lemma InsideAfter(r: Router, e: Event, i: int, o: int, cfg: Config)
    requires Shape(r, cfg) && Enabled(e, cfg) && 0 <= i < cfg.nodes && 0 <= o < cfg.nodes
    ensures Shape(Step(r, e, cfg), cfg)
    ensures var (before, after) := (Inside(r, i, o), Inside(Step(r, e, cfg), i, o));
      match e
      case Push(a, b, d) => after == before + if a == i && b == o then [Packet(d, a, b)] else []
      case Pop(b) =>
        before == (if b == o && r.outs[o] != [] && r.outs[o][0].input == i then [r.outs[o][0]] else []) + after
      case Cycle => after == before
  {
    hide Advance, Flow;
    StepKeepsShape(r, e, cfg);
    match e
    case Push(a, b, d) => FlowPush(r.ins[a], Packet(d, a, b), i, o);
    case Pop(b) => if r.outs[b] != [] { FlowPop(r.outs[b], i, o); }
    case Cycle => AdvanceKeepsFlows(r, i, o, cfg);
  }

  /** What entered for the flow is what left and what is inside the router it was pushed to; other routers hold
      nothing of it, and nothing of it leaves if its receiver pops from one of those. */
  ghost predicate FlowHeld(s: Net, i: int, o: int, subnets: nat, shaders: nat, cfg: Config)
    requires Formed(s, subnets, cfg) && 0 <= i < cfg.nodes && 0 <= o < cfg.nodes
  {
    var home := PushNet(i, subnets, shaders);
    && home < subnets
    && Flow(s.pushed[i], i, o) == Flow(s.popped[o], i, o) + Inside(s.routers[home], i, o)
    && (forall k | 0 <= k < subnets && k != home :: Inside(s.routers[k], i, o) == [])
    && (PopNet(o, shaders) != home ==> Flow(s.popped[o], i, o) == [])
  }

  ghost predicate Kept(s: Net, subnets: nat, shaders: nat, cfg: Config) {
    && Formed(s, subnets, cfg)
    && (forall i, o | 0 <= i < cfg.nodes && 0 <= o < cfg.nodes :: FlowHeld(s, i, o, subnets, shaders, cfg))
    && (forall o, k | 0 <= o < cfg.nodes && 0 <= k < |s.popped[o]| :: s.popped[o][k].output == o)
    && (forall k, o | 0 <= k < subnets && 0 <= o < cfg.nodes :: |s.routers[k].outs[o]| <= cfg.limit)
  }

  lemma StepKeepsFormed(s: Net, e: Event, subnets: nat, shaders: nat, cfg: Config)
    requires Formed(s, subnets, cfg) && Possible(e, subnets, shaders, cfg)
    ensures Formed(NextNet(s, e, subnets, shaders, cfg), subnets, cfg)
  {
    hide Advance;
    forall k | 0 <= k < subnets ensures Shape(Step(s.routers[k], e, cfg), cfg) { StepKeepsShape(s.routers[k], e, cfg); }
  }

  lemma PushKeepsFlowHeld(s: Net, e: Event, i: int, o: int, subnets: nat, shaders: nat, cfg: Config)
    requires Formed(s, subnets, cfg) && FlowWithin(s, i, o, subnets, shaders, cfg)
    requires Possible(e, subnets, shaders, cfg) && e.Push?
    ensures Formed(NextNet(s, e, subnets, shaders, cfg), subnets, cfg)
    ensures FlowHeld(NextNet(s, e, subnets, shaders, cfg), i, o, subnets, shaders, cfg)
  {
    hide Flow, Inside, Shape, Step;
    StepKeepsFormed(s, e, subnets, shaders, cfg);
    InsideAfter(s.routers[PushNet(e.input, subnets, shaders)], e, i, o, cfg);
    FlowPush(s.pushed[e.input], Packet(e.data, e.input, e.output), i, o);
  }

  lemma PopKeepsFlowHeld(s: Net, e: Event, i: int, o: int, subnets: nat, shaders: nat, cfg: Config)
    requires Formed(s, subnets, cfg) && FlowWithin(s, i, o, subnets, shaders, cfg)
    requires Possible(e, subnets, shaders, cfg) && e.Pop?
    ensures Formed(NextNet(s, e, subnets, shaders, cfg), subnets, cfg)
    ensures FlowHeld(NextNet(s, e, subnets, shaders, cfg), i, o, subnets, shaders, cfg)
  {
    hide Flow, Inside, Shape, Step;
    StepKeepsFormed(s, e, subnets, shaders, cfg);
    var r := s.routers[PopNet(e.output, shaders)];
    InsideAfter(r, e, i, o, cfg);
    Lengths(r, cfg);
    if r.outs[e.output] != [] {
      PopsOfOwn(r, e.output, cfg);
      FlowPush(s.popped[e.output], r.outs[e.output][0], i, o);
    }
  }

  lemma CycleKeepsFlowHeld(s: Net, i: int, o: int, subnets: nat, shaders: nat, cfg: Config)
    requires Formed(s, subnets, cfg) && FlowWithin(s, i, o, subnets, shaders, cfg)
    ensures Formed(NextNet(s, Cycle, subnets, shaders, cfg), subnets, cfg)
    ensures FlowHeld(NextNet(s, Cycle, subnets, shaders, cfg), i, o, subnets, shaders, cfg)
  {
    hide Flow, Inside, Shape, Advance;
    StepKeepsFormed(s, Cycle, subnets, shaders, cfg);
    forall k | 0 <= k < subnets { AdvanceKeepsFlows(s.routers[k], i, o, cfg); }
  }

  ghost predicate FlowWithin(s: Net, i: int, o: int, subnets: nat, shaders: nat, cfg: Config)
    requires Formed(s, subnets, cfg)
  {
    0 <= i < cfg.nodes && 0 <= o < cfg.nodes && FlowHeld(s, i, o, subnets, shaders, cfg)
  }

  lemma StepKeepsFlowHeld(s: Net, e: Event, i: int, o: int, subnets: nat, shaders: nat, cfg: Config)
    requires Formed(s, subnets, cfg) && FlowWithin(s, i, o, subnets, shaders, cfg)
    requires Possible(e, subnets, shaders, cfg)
    ensures Formed(NextNet(s, e, subnets, shaders, cfg), subnets, cfg)
    ensures FlowHeld(NextNet(s, e, subnets, shaders, cfg), i, o, subnets, shaders, cfg)
  {
    hide NextNet, FlowHeld;
    match e
    case Push(_, _, _) => PushKeepsFlowHeld(s, e, i, o, subnets, shaders, cfg);
    case Pop(_) => PopKeepsFlowHeld(s, e, i, o, subnets, shaders, cfg);
    case Cycle => CycleKeepsFlowHeld(s, i, o, subnets, shaders, cfg);
  }

  lemma PopsOfOwn(r: Router, o: int, cfg: Config)
    requires Shape(r, cfg) && 0 <= o < cfg.nodes && r.outs[o] != []
    ensures r.outs[o][0].output == o
  {}

  lemma CycleIsStep(routers: seq<Router>, cfg: Config)
    requires forall k | 0 <= k < |routers| :: Shape(routers[k], cfg)
    ensures forall k | 0 <= k < |routers| :: Step(routers[k], Cycle, cfg) == Advance(routers[k], cfg)
  {
    hide Advance;
  }

  lemma StepKeepsLimit(r: Router, e: Event, cfg: Config)
    requires Shape(r, cfg) && Enabled(e, cfg) && forall o | 0 <= o < cfg.nodes :: |r.outs[o]| <= cfg.limit
    ensures Shape(Step(r, e, cfg), cfg)
    ensures forall o | 0 <= o < cfg.nodes :: |Step(r, e, cfg).outs[o]| <= cfg.limit
  {
    hide Advance;
    StepKeepsShape(r, e, cfg);
    if e.Cycle? {
      AdvanceIsMaximalMatching(r, cfg);
      forall o | 0 <= o < cfg.nodes ensures |Advance(r, cfg).outs[o]| <= cfg.limit {
        assert OutputMatched(r, Advance(r, cfg), o, cfg);
      }
    }
  }

  lemma StepKeepsKept(s: Net, e: Event, subnets: nat, shaders: nat, cfg: Config)
    requires Kept(s, subnets, shaders, cfg) && Possible(e, subnets, shaders, cfg)
    ensures Kept(NextNet(s, e, subnets, shaders, cfg), subnets, shaders, cfg)
  {
    hide Advance, FlowHeld, Shape, Step;
    StepKeepsFormed(s, e, subnets, shaders, cfg);
    forall i, o | 0 <= i < cfg.nodes && 0 <= o < cfg.nodes { StepKeepsFlowHeld(s, e, i, o, subnets, shaders, cfg); }
    forall k | 0 <= k < subnets { StepKeepsLimit(s.routers[k], e, cfg); }
    match e
    case Push(_, _, _) =>
    case Pop(b) =>
      var r := s.routers[PopNet(b, shaders)];
      Lengths(r, cfg);
      if r.outs[b] != [] { PopsOfOwn(r, b, cfg); }
    case Cycle => CycleIsStep(s.routers, cfg);
  }

  predicate AllPossible(es: seq<Event>, subnets: nat, shaders: nat, cfg: Config) {
    forall k :: 0 <= k < |es| ==> Possible(es[k], subnets, shaders, cfg)
  }

  function RunNet(s: Net, es: seq<Event>, subnets: nat, shaders: nat, cfg: Config): (t: Net)
    requires Kept(s, subnets, shaders, cfg) && AllPossible(es, subnets, shaders, cfg)
    ensures Kept(t, subnets, shaders, cfg)
    decreases |es|
  {
    if es == [] then s
    else
      StepKeepsKept(s, es[0], subnets, shaders, cfg);
      RunNet(NextNet(s, es[0], subnets, shaders, cfg), es[1..], subnets, shaders, cfg)
  }

  function EmptyNet(subnets: nat, cfg: Config): Net
    requires cfg.nodes > 0
  {
    Net(seq(subnets, _ => Empty(cfg)), seq(cfg.nodes, _ => []), seq(cfg.nodes, _ => []))
  }

  lemma EmptyNetKept(subnets: nat, shaders: nat, cfg: Config)
    requires cfg.nodes > 0 && subnets >= 1
    ensures Kept(EmptyNet(subnets, cfg), subnets, shaders, cfg)
  {}

  /** Over every sequence of pushes, pops and cycles, for each sender and receiver: what entered is what left, in
      order, followed by what is inside the sender's router. If the receiver pops from another router, nothing
      ever leaves: everything that entered is inside for good. */
  lemma WhatEntersLeavesOrIsInside(es: seq<Event>, i: int, o: int, subnets: nat, shaders: nat, cfg: Config)
    requires cfg.nodes > 0 && subnets >= 1 && AllPossible(es, subnets, shaders, cfg)
    requires 0 <= i < cfg.nodes && 0 <= o < cfg.nodes
    ensures Kept(EmptyNet(subnets, cfg), subnets, shaders, cfg)
    ensures var t := RunNet(EmptyNet(subnets, cfg), es, subnets, shaders, cfg);
      var (home, entered, left) := (PushNet(i, subnets, shaders), Flow(t.pushed[i], i, o), Flow(t.popped[o], i, o));
      && entered == left + Inside(t.routers[home], i, o)
      && (home != PopNet(o, shaders) ==> left == [] && entered == Inside(t.routers[home], i, o))
      && forall k | 0 <= k < |t.popped[o]| :: t.popped[o][k].output == o
  {
    hide RunNet, Inside, Flow;
    EmptyNetKept(subnets, shaders, cfg);
    var t := RunNet(EmptyNet(subnets, cfg), es, subnets, shaders, cfg);
    assert FlowHeld(t, i, o, subnets, shaders, cfg);
  }

  /** Sender and receiver share a router exactly when, with several subnets, one is an SM and the other a memory
      node; with a single one, when the receiver is a memory node. */
  lemma NotStrandedIff(input: int, output: int, subnets: nat, shaders: nat)
    requires subnets >= 1
    ensures PushNet(input, subnets, shaders) == PopNet(output, shaders) <==>
      if subnets == 1 then output >= shaders else (input < shaders) != (output < shaders)
  {}

  /** A packet of the flow can leave at all. */
  ghost predicate CanLeave(i: int, o: int, subnets: nat, shaders: nat, cfg: Config)
    requires cfg.nodes > 0 && subnets >= 1 && 0 <= o < cfg.nodes
  {
    EmptyNetKept(subnets, shaders, cfg);
    exists es :: AllPossible(es, subnets, shaders, cfg)
      && Flow(RunNet(EmptyNet(subnets, cfg), es, subnets, shaders, cfg).popped[o], i, o) != []
  }

  /** The only packet in a router reaches its output in one cycle. */
  lemma OnlyPacketMoves(d: int, i: int, o: int, cfg: Config)
    requires cfg.nodes > 0 && cfg.limit > 0 && 0 <= i < cfg.nodes && 0 <= o < cfg.nodes
    ensures Shape(Empty(cfg), cfg)
    ensures var r := Step(Empty(cfg), Push(i, o, d), cfg);
      Shape(r, cfg) && Shape(Advance(r, cfg), cfg) && Advance(r, cfg).outs[o] == [Packet(d, i, o)]
  {
    hide Advance;
    StepKeepsShape(Empty(cfg), Push(i, o, d), cfg);
    var r := Step(Empty(cfg), Push(i, o, d), cfg);
    AdvanceKeepsShape(r, cfg);
    AdvanceIsMaximalMatching(r, cfg);
    var t := Advance(r, cfg);
    assert r.ins[i] == [Packet(d, i, o)] && r.outs[o] == [];
    assert InputMatched(r, t, i, cfg) && OutputMatched(r, t, o, cfg);
  }

  /** With room for a packet at the outputs, packets of a flow can leave exactly when its receiver pops from the
      router its sender pushes to. */
  lemma CanLeaveIff(i: int, o: int, subnets: nat, shaders: nat, cfg: Config)
    requires cfg.nodes > 0 && cfg.limit > 0 && subnets >= 1 && 0 <= i < cfg.nodes && 0 <= o < cfg.nodes
    ensures CanLeave(i, o, subnets, shaders, cfg) <==> PushNet(i, subnets, shaders) == PopNet(o, shaders)
  {
    hide RunNet, Flow;
    EmptyNetKept(subnets, shaders, cfg);
    if PushNet(i, subnets, shaders) == PopNet(o, shaders) {
      ThroughInThreeSteps(i, o, subnets, shaders, cfg);
    } else {
      forall es | AllPossible(es, subnets, shaders, cfg)
        ensures Flow(RunNet(EmptyNet(subnets, cfg), es, subnets, shaders, cfg).popped[o], i, o) == []
      {
        WhatEntersLeavesOrIsInside(es, i, o, subnets, shaders, cfg);
      }
    }
  }

  lemma ThroughInThreeSteps(i: int, o: int, subnets: nat, shaders: nat, cfg: Config)
    requires cfg.nodes > 0 && cfg.limit > 0 && subnets >= 1 && 0 <= i < cfg.nodes && 0 <= o < cfg.nodes
    requires PushNet(i, subnets, shaders) == PopNet(o, shaders)
    ensures CanLeave(i, o, subnets, shaders, cfg)
  {
    hide Advance, Shape, Kept, Flow;
    EmptyNetKept(subnets, shaders, cfg);
    OnlyPacketMoves(0, i, o, cfg);
    var k := PushNet(i, subnets, shaders);
    var es := [Push(i, o, 0), Cycle, Pop(o)];
    assert es[1..] == [Cycle, Pop(o)] && [Cycle, Pop(o)][1..] == [Pop(o)] && [Pop(o)][1..] == [];
    var s0 := EmptyNet(subnets, cfg);
    var s1 := AfterStep(s0, es[0], subnets, shaders, cfg);
    var s2 := AfterStep(s1, Cycle, subnets, shaders, cfg);
    var s3 := AfterStep(s2, Pop(o), subnets, shaders, cfg);
    assert s0.routers[k] == Empty(cfg);
    assert s1.routers[k] == Step(Empty(cfg), es[0], cfg);
    assert s2.routers[k] == Advance(s1.routers[k], cfg);
    Lengths(s2.routers[k], cfg);
    assert s2.routers[k].outs[o] == [Packet(0, i, o)];
    assert s3.popped[o] == [Packet(0, i, o)];
    assert RunNet(s2, [Pop(o)], subnets, shaders, cfg) == RunNet(s3, [], subnets, shaders, cfg) == s3;
    assert RunNet(s1, [Cycle, Pop(o)], subnets, shaders, cfg) == s3;
    assert RunNet(s0, es, subnets, shaders, cfg) == s3;
    FlowPush([], Packet(0, i, o), i, o);
    assert [] + [Packet(0, i, o)] == [Packet(0, i, o)];
  }

  lemma AfterStep(s: Net, e: Event, subnets: nat, shaders: nat, cfg: Config) returns (t: Net)
    requires Kept(s, subnets, shaders, cfg) && Possible(e, subnets, shaders, cfg)
    ensures Kept(t, subnets, shaders, cfg) && t == NextNet(s, e, subnets, shaders, cfg)
  {
    hide NextNet;
    StepKeepsKept(s, e, subnets, shaders, cfg);
    t := NextNet(s, e, subnets, shaders, cfg);
  }

  // ------------------------------------------------------------------
  // The object
  // ------------------------------------------------------------------

  /** Routers share nothing. */
  ghost predicate Separate(net: seq<Xbar>) {
    forall j, k | 0 <= j < |net| && 0 <= k < |net| && j != k ::
      && net[j] != net[k]
      && net[j].inBuffers != net[k].inBuffers && net[j].inBuffers != net[k].outBuffers
      && net[j].outBuffers != net[k].outBuffers
  }

  class LocalInterconnect {
    const nShader: nat
    const cfg: Config
    const net: seq<Xbar>
    ghost var pushed: Buffers
    ghost var popped: Buffers

    ghost function Parts(): set<object>
    {
      (set k | 0 <= k < |net| :: net[k] as object) + (set k | 0 <= k < |net| :: net[k].inBuffers as object)
      + set k | 0 <= k < |net| :: net[k].outBuffers as object
    }

    ghost predicate Valid()
      reads this, Parts()
    {
      && net != [] && Separate(net) && |pushed| == |popped| == cfg.nodes
      && forall k | 0 <= k < |net| :: net[k].Valid() && net[k].cfg == cfg
    }

    ghost function Contents(): (s: Net)
      requires Valid()
      reads this, Parts()
      ensures Formed(s, |net|, cfg)
      ensures forall k | 0 <= k < |net| :: s.routers[k] == net[k].Contents()
    {
      Net(seq(|net|, k requires 0 <= k < |net| reads this, Parts() => net[k].Contents()), pushed, popped)
    }

    constructor (nShader: nat, nMem: nat, subnets: nat, limit: nat)
      requires subnets > 0 && nShader + nMem > 0
      ensures Valid() && fresh(Parts()) && this.nShader == nShader && |net| == subnets
      ensures cfg == Crossbar.Config(nShader + nMem, limit) && Contents() == EmptyNet(subnets, cfg)
    {
      hide Shape, Empty;
      var c := Crossbar.Config(nShader + nMem, limit);
      var routers: seq<Xbar> := [];
      for i := 0 to subnets
        invariant |routers| == i
        invariant forall k | 0 <= k < i ::
          && fresh(routers[k]) && fresh(routers[k].inBuffers) && fresh(routers[k].outBuffers)
          && routers[k].Valid() && routers[k].cfg == c && routers[k].Contents() == Empty(c)
        invariant Separate(routers)
      {
        var router := new Xbar(c);
        routers := routers + [router];
      }
      this.nShader, cfg, net := nShader, c, routers;
      pushed, popped := seq(c.nodes, _ => []), seq(c.nodes, _ => []);
      new;
      assert Contents().routers == EmptyNet(subnets, cfg).routers;
    }

    method PushPacket(input: int, output: int, data: int)
      requires Valid() && Enabled(Push(input, output, data), cfg)
      modifies this, Parts()
      ensures Valid()
      ensures Contents() == NextNet(old(Contents()), Push(input, output, data), |net|, nShader, cfg)
    {
      hide Shape, Step;
      var subnet := 0;
      if |net| != 1 && input >= nShader { subnet := 1; }
      net[subnet].PushPacket(input, output, data);
      pushed := pushed[input := pushed[input] + [Packet(data, input, output)]];
      OneChanged(old(Contents()), Contents(), subnet);
    }

    method PopPacket(output: int) returns (data: seq<Packet>)
      requires Valid() && Possible(Pop(output), |net|, nShader, cfg)
      modifies this, Parts()
      ensures Valid()
      ensures Contents() == NextNet(old(Contents()), Pop(output), |net|, nShader, cfg)
      ensures popped[output] == old(popped)[output] + data
    {
      hide Shape, Step;
      var subnet := 0;
      if output < nShader { subnet := 1; }
      Lengths(net[subnet].Contents(), cfg);
      data := net[subnet].PopPacket(output);
      assert popped[output] + [] == popped[output];
      popped := popped[output := popped[output] + data];
      OneChanged(old(Contents()), Contents(), subnet);
    }

    method Advance()
      requires Valid()
      modifies this, Parts()
      ensures Valid() && Contents() == NextNet(old(Contents()), Cycle, |net|, nShader, cfg)
    {
      hide Shape, Crossbar.Advance;
      ghost var before := Contents();
      for i := 0 to |net|
        invariant Valid() && pushed == old(pushed) && popped == old(popped)
        invariant forall k | 0 <= k < |net| ::
          Contents().routers[k] == if k < i then Crossbar.Advance(before.routers[k], cfg) else before.routers[k]
      {
        net[i].RRAdvance();
      }
      assert Contents().routers == NextNet(before, Cycle, |net|, nShader, cfg).routers;
    }
  }

  lemma OneChanged(s: Net, t: Net, k: nat)
    requires k < |s.routers| == |t.routers|
    requires forall j | 0 <= j < |s.routers| && j != k :: t.routers[j] == s.routers[j]
    ensures t.routers == s.routers[k := t.routers[k]]
  {}
}
