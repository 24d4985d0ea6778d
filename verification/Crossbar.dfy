/** The crossbar router: round-robin arbitration, conservation, order, and waiting time. */
module Crossbar {
  import opened Division

  /** `input` is the node that pushed the packet; the router itself never looks at it. */
  datatype Packet = Packet(data: int, input: int, output: int)

  type Buffers = seq<seq<Packet>>

  datatype Router = Router(ins: Buffers, outs: Buffers, next: int)

  datatype Config = Config(nodes: nat, limit: nat)   // total_nodes, out_buffer_limit

  ghost predicate Shape(r: Router, cfg: Config) {
    && cfg.nodes > 0 && |r.ins| == cfg.nodes && |r.outs| == cfg.nodes && 0 <= r.next < cfg.nodes
    && (forall i, k | 0 <= i < |r.ins| && 0 <= k < |r.ins[i]| ::
          r.ins[i][k].input == i && 0 <= r.ins[i][k].output < cfg.nodes)
    && (forall o, k | 0 <= o < |r.outs| && 0 <= k < |r.outs[o]| :: r.outs[o][k].output == o)
  }

  predicate Room(outs: Buffers, o: int, cfg: Config)
    requires 0 <= o < |outs|
  {
    |outs[o]| + 1 <= cfg.limit
  }

  // ------------------------------------------------------------------
  // One round of arbitration
  // ------------------------------------------------------------------

  datatype Round = Round(ins: Buffers, outs: Buffers, issued: seq<bool>, moved: nat, conflicts: nat, blocked: nat)

  ghost predicate Fits(x: Round, cfg: Config) {
    && |x.ins| == cfg.nodes && |x.outs| == cfg.nodes && |x.issued| == cfg.nodes
    && (forall i, k | 0 <= i < |x.ins| && 0 <= k < |x.ins[i]| :: 0 <= x.ins[i][k].output < cfg.nodes)
  }

  /** The arbiter looks at one input. */
  function Visit(x: Round, i: int, cfg: Config): (y: Round)
    requires Fits(x, cfg) && 0 <= i < cfg.nodes
    ensures Fits(y, cfg)
  {
    if x.ins[i] == [] then x
    else
      var p := x.ins[i][0];
      var o := p.output;
      if Room(x.outs, o, cfg) then
        if !x.issued[o] then
          x.(ins := x.ins[i := x.ins[i][1..]], outs := x.outs[o := x.outs[o] + [p]],
             issued := x.issued[o := true], moved := x.moved + 1)
        else x.(conflicts := x.conflicts + 1)
      else if x.issued[o] then x.(conflicts := x.conflicts + 1)
      else x.(blocked := x.blocked + 1)
  }

  /** The input visited in turn k. */
  function Node(k: int, next: int, cfg: Config): (i: int)
    requires 0 <= k < cfg.nodes && 0 <= next < cfg.nodes
    ensures i == if k + next < cfg.nodes then k + next else k + next - cfg.nodes
  {
    ModWraps(k + next, cfg.nodes);
    (k + next) % cfg.nodes
  }

  function NextNode(next: int, cfg: Config): (i: int)
    requires 0 <= next < cfg.nodes
    ensures i == if next + 1 < cfg.nodes then next + 1 else 0
  {
    ModWraps(next + 1, cfg.nodes);
    (next + 1) % cfg.nodes
  }

  /** The round after its first k visits. */
  function RoundTo(r: Router, k: nat, cfg: Config): (x: Round)
    requires Shape(r, cfg) && k <= cfg.nodes
    ensures Fits(x, cfg)
  {
    if k == 0 then Round(r.ins, r.outs, seq(cfg.nodes, _ => false), 0, 0, 0)
    else Visit(RoundTo(r, k - 1, cfg), Node(k - 1, r.next, cfg), cfg)
  }

  function Advance(r: Router, cfg: Config): Router
    requires Shape(r, cfg)
  {
    var x := RoundTo(r, cfg.nodes, cfg);
    Router(x.ins, x.outs, NextNode(r.next, cfg))
  }

  // ------------------------------------------------------------------
  // Every input is visited once
  // ------------------------------------------------------------------

  /** The visit in which input i has its turn. */
  function Visited(i: int, next: int, cfg: Config): (k: int)
    requires 0 <= i < cfg.nodes && 0 <= next < cfg.nodes
    ensures 0 <= k < cfg.nodes && Node(k, next, cfg) == i
  {
    if i >= next then i - next else i - next + cfg.nodes
  }

  lemma VisitedOnce(k: int, next: int, cfg: Config)
    requires 0 <= k < cfg.nodes && 0 <= next < cfg.nodes
    ensures Visited(Node(k, next, cfg), next, cfg) == k
    ensures forall i | 0 <= i < cfg.nodes && Visited(i, next, cfg) == k :: i == Node(k, next, cfg)
  {}

  // ------------------------------------------------------------------
  // Maximal matching
  // ------------------------------------------------------------------

  /** What the first k visits did to input i. */
  ghost predicate InputAfter(r: Router, x: Round, k: int, i: int, cfg: Config)
    requires Shape(r, cfg) && Fits(x, cfg) && 0 <= i < cfg.nodes
  {
    if r.ins[i] == [] || Visited(i, r.next, cfg) >= k then x.ins[i] == r.ins[i]
    else
      var o := r.ins[i][0].output;
      || (x.ins[i] == r.ins[i][1..] && x.issued[o] && x.outs[o] == r.outs[o] + [r.ins[i][0]])
      || (x.ins[i] == r.ins[i] && (x.issued[o] || !Room(r.outs, o, cfg)))
  }

  ghost predicate OutputAfter(r: Router, x: Round, o: int, cfg: Config)
    requires Shape(r, cfg) && Fits(x, cfg) && 0 <= o < cfg.nodes
  {
    if x.issued[o] then
      && |x.outs[o]| == |r.outs[o]| + 1 && x.outs[o][..|r.outs[o]|] == r.outs[o]
      && Room(r.outs, o, cfg)
      && x.outs[o][|r.outs[o]|].output == o
      && var i := x.outs[o][|r.outs[o]|].input;
         0 <= i < cfg.nodes && r.ins[i] != [] && x.ins[i] == r.ins[i][1..] && r.ins[i][0] == x.outs[o][|r.outs[o]|]
    else x.outs[o] == r.outs[o]
  }

  ghost predicate Matched(r: Router, x: Round, k: int, cfg: Config)
    requires Shape(r, cfg) && Fits(x, cfg)
  {
    && (forall i | 0 <= i < cfg.nodes :: InputAfter(r, x, k, i, cfg))
    && (forall o | 0 <= o < cfg.nodes :: OutputAfter(r, x, o, cfg))
  }

  lemma VisitMatches(r: Router, x: Round, k: int, cfg: Config)
    requires Shape(r, cfg) && Fits(x, cfg) && 0 <= k < cfg.nodes && Matched(r, x, k, cfg)
    ensures Matched(r, Visit(x, Node(k, r.next, cfg), cfg), k + 1, cfg)
  {
    hide Node, Visited;
    var a := Node(k, r.next, cfg);
    VisitedOnce(k, r.next, cfg);
    var y := Visit(x, a, cfg);
    assert InputAfter(r, x, k, a, cfg);
    assert x.ins[a] == r.ins[a];
    if r.ins[a] != [] {
      assert OutputAfter(r, x, r.ins[a][0].output, cfg);
    }
    var k' := k + 1;
    forall i | 0 <= i < cfg.nodes ensures InputAfter(r, y, k', i, cfg) {
      assert InputAfter(r, x, k, i, cfg);
    }
    forall o | 0 <= o < cfg.nodes ensures OutputAfter(r, y, o, cfg) {
      assert OutputAfter(r, x, o, cfg);
    }
  }

  lemma {:induction false} RoundMatches(r: Router, k: nat, cfg: Config)
    requires Shape(r, cfg) && k <= cfg.nodes
    ensures Matched(r, RoundTo(r, k, cfg), k, cfg)
  {
    hide Matched, Visit, Node;
    if k == 0 {
      NothingMatched(r, cfg);
    } else {
      RoundMatches(r, k - 1, cfg);
      VisitMatches(r, RoundTo(r, k - 1, cfg), k - 1, cfg);
    }
  }

  lemma NothingMatched(r: Router, cfg: Config)
    requires Shape(r, cfg)
    ensures Matched(r, RoundTo(r, 0, cfg), 0, cfg)
  {}

  /** An input gives up its head or nothing; a head that stays finds its output served or full. */
  ghost predicate InputMatched(r: Router, t: Router, i: int, cfg: Config)
    requires Shape(r, cfg) && |t.ins| == cfg.nodes && |t.outs| == cfg.nodes && 0 <= i < cfg.nodes
  {
    if r.ins[i] == [] then t.ins[i] == []
    else
      var p := r.ins[i][0];
      || (t.ins[i] == r.ins[i][1..] && t.outs[p.output] == r.outs[p.output] + [p])
      || (t.ins[i] == r.ins[i] && (t.outs[p.output] != r.outs[p.output] || !Room(r.outs, p.output, cfg)))
  }

  /** An output takes one head that its input gave up, and only with room for it, or nothing. */
  ghost predicate OutputMatched(r: Router, t: Router, o: int, cfg: Config)
    requires Shape(r, cfg) && |t.ins| == cfg.nodes && |t.outs| == cfg.nodes && 0 <= o < cfg.nodes
  {
    || t.outs[o] == r.outs[o]
    || (&& Room(r.outs, o, cfg) && t.outs[o] != []
        && var p := t.outs[o][|t.outs[o]| - 1];
           && p.output == o && 0 <= p.input < cfg.nodes && r.ins[p.input] != [] && r.ins[p.input][0] == p
           && t.ins[p.input] == r.ins[p.input][1..] && t.outs[o] == r.outs[o] + [p])
  }

  /** Advance is a maximal matching: at most one packet per input and per output, and none that could have
      moved is left behind. */
  lemma AdvanceIsMaximalMatching(r: Router, cfg: Config)
    requires Shape(r, cfg)
    ensures var t := Advance(r, cfg);
      && |t.ins| == cfg.nodes && |t.outs| == cfg.nodes
      && (forall i | 0 <= i < cfg.nodes :: InputMatched(r, t, i, cfg))
      && (forall o | 0 <= o < cfg.nodes :: OutputMatched(r, t, o, cfg))
  {
    hide RoundTo, Visit, Node;
    var n, t := cfg.nodes, Advance(r, cfg);
    RoundMatches(r, n, cfg);
    var x := RoundTo(r, n, cfg);
    forall i | 0 <= i < n ensures InputMatched(r, t, i, cfg) {
      assert InputAfter(r, x, n, i, cfg);
      if r.ins[i] != [] { assert OutputAfter(r, x, r.ins[i][0].output, cfg); }
    }
    forall o | 0 <= o < n ensures OutputMatched(r, t, o, cfg) {
      assert OutputAfter(r, x, o, cfg);
      if x.issued[o] { assert x.outs[o] == r.outs[o] + [x.outs[o][|r.outs[o]|]]; }
    }
  }

  // ------------------------------------------------------------------
  // Accounting
  // ------------------------------------------------------------------

  /** Non-empty inputs among i with lo <= i < hi. */
  function Busy(ins: Buffers, lo: int, hi: int): nat
    requires 0 <= lo <= hi <= |ins|
  {
    if lo == hi then 0 else Busy(ins, lo, hi - 1) + if ins[hi - 1] == [] then 0 else 1
  }

  lemma {:induction false} BusySplits(ins: Buffers, lo: int, mid: int, hi: int)
    requires 0 <= lo <= mid <= hi <= |ins|
    ensures Busy(ins, lo, hi) == Busy(ins, lo, mid) + Busy(ins, mid, hi)
    decreases hi - mid
  {
    if mid < hi { BusySplits(ins, lo, mid, hi - 1); }
  }

  /** Visits 0..k-1 walk from r.next to the end and then from 0. */
  lemma {:induction false} RoundCounts(r: Router, k: nat, cfg: Config)
    requires Shape(r, cfg) && k <= cfg.nodes
    ensures var x, first := RoundTo(r, k, cfg), cfg.nodes - r.next;
      x.moved + x.conflicts + x.blocked
      == if k <= first then Busy(r.ins, r.next, r.next + k)
         else Busy(r.ins, r.next, cfg.nodes) + Busy(r.ins, 0, k - first)
  {
    hide Matched, Node, Visited, Visit;
    if k > 0 {
      var x := RoundTo(r, k - 1, cfg);
      RoundCounts(r, k - 1, cfg);
      RoundMatches(r, k - 1, cfg);
      UnvisitedKept(r, x, k - 1, cfg);
      VisitCounts(x, Node(k - 1, r.next, cfg), cfg);
    }
  }

  lemma VisitCounts(x: Round, i: int, cfg: Config)
    requires Fits(x, cfg) && 0 <= i < cfg.nodes
    ensures var y := Visit(x, i, cfg);
      y.moved + y.conflicts + y.blocked == x.moved + x.conflicts + x.blocked + if x.ins[i] == [] then 0 else 1
  {}

  lemma UnvisitedKept(r: Router, x: Round, k: int, cfg: Config)
    requires Shape(r, cfg) && Fits(x, cfg) && 0 <= k < cfg.nodes && Matched(r, x, k, cfg)
    ensures x.ins[Node(k, r.next, cfg)] == r.ins[Node(k, r.next, cfg)]
  {
    hide Node, Visited;
    VisitedOnce(k, r.next, cfg);
    assert InputAfter(r, x, k, Node(k, r.next, cfg), cfg);
  }

  /** Packets moved, conflicts counted and heads blocked by a full output add up to the non-empty inputs. */
  lemma ConflictAccounting(r: Router, cfg: Config)
    requires Shape(r, cfg)
    ensures var x := RoundTo(r, cfg.nodes, cfg); x.moved + x.conflicts + x.blocked == Busy(r.ins, 0, cfg.nodes)
  {
    hide RoundTo;
    RoundCounts(r, cfg.nodes, cfg);
    BusySplits(r.ins, 0, r.next, cfg.nodes);
  }

  /** True entries. */
  function Tally(bs: seq<bool>): nat {
    if bs == [] then 0 else Tally(bs[..|bs| - 1]) + if bs[|bs| - 1] then 1 else 0
  }

  lemma {:induction false} TallyUpdate(bs: seq<bool>, i: nat, b: bool)
    requires i < |bs|
    ensures Tally(bs[i := b]) + (if bs[i] then 1 else 0) == Tally(bs) + if b then 1 else 0
  {
    var n := |bs| - 1;
    if i == n {
      assert bs[i := b][..n] == bs[..n];
    } else {
      assert bs[i := b][..n] == bs[..n][i := b];
      TallyUpdate(bs[..n], i, b);
    }
  }

  lemma {:induction false} TallyNone(bs: seq<bool>)
    requires forall i :: 0 <= i < |bs| ==> !bs[i]
    ensures Tally(bs) == 0
  {
    if bs != [] { TallyNone(bs[..|bs| - 1]); }
  }

  /** The heads that the cycle took. */
  function Taken(r: Router, x: Round, cfg: Config): seq<bool>
    requires Shape(r, cfg) && Fits(x, cfg)
  {
    seq(cfg.nodes, i requires 0 <= i < cfg.nodes => x.ins[i] != r.ins[i])
  }

  predicate HeadWithoutRoom(r: Router, i: int, cfg: Config)
    requires Shape(r, cfg) && 0 <= i < cfg.nodes
  {
    r.ins[i] != [] && !Room(r.outs, r.ins[i][0].output, cfg)
  }

  /** Of the inputs visited before turn k, those whose head's output has no room when the cycle starts. */
  function NoRoom(r: Router, k: int, cfg: Config): seq<bool>
    requires Shape(r, cfg)
  {
    seq(cfg.nodes, i requires 0 <= i < cfg.nodes => Visited(i, r.next, cfg) < k && HeadWithoutRoom(r, i, cfg))
  }

  lemma VisitTallies(r: Router, x: Round, k: int, cfg: Config)
    requires Shape(r, cfg) && Fits(x, cfg) && 0 <= k < cfg.nodes && Matched(r, x, k, cfg)
    ensures var (a, y) := (Node(k, r.next, cfg), Visit(x, Node(k, r.next, cfg), cfg));
      && y.moved - x.moved == (if y.ins[a] != r.ins[a] then 1 else 0)
      && y.blocked - x.blocked == (if HeadWithoutRoom(r, a, cfg) then 1 else 0)
      && Taken(r, y, cfg) == Taken(r, x, cfg)[a := y.ins[a] != r.ins[a]]
      && NoRoom(r, k + 1, cfg) == NoRoom(r, k, cfg)[a := HeadWithoutRoom(r, a, cfg)]
      && !Taken(r, x, cfg)[a] && !NoRoom(r, k, cfg)[a]
  {
    hide Node, Visited;
    var a := Node(k, r.next, cfg);
    VisitedOnce(k, r.next, cfg);
    assert InputAfter(r, x, k, a, cfg);
    if r.ins[a] != [] {
      assert OutputAfter(r, x, r.ins[a][0].output, cfg);
      assert |r.ins[a][1..]| < |r.ins[a]|;
    }
  }

  lemma NothingTallied(r: Router, cfg: Config)
    requires Shape(r, cfg)
    ensures var x := RoundTo(r, 0, cfg);
      x.moved == Tally(Taken(r, x, cfg)) && x.blocked == Tally(NoRoom(r, 0, cfg))
  {
    hide HeadWithoutRoom, Visited;
    TallyNone(Taken(r, RoundTo(r, 0, cfg), cfg));
    TallyNone(NoRoom(r, 0, cfg));
  }

  lemma {:induction false} RoundTallies(r: Router, k: nat, cfg: Config)
    requires Shape(r, cfg) && k <= cfg.nodes
    ensures var x := RoundTo(r, k, cfg);
      x.moved == Tally(Taken(r, x, cfg)) && x.blocked == Tally(NoRoom(r, k, cfg))
  {
    hide Matched, Node, Visited, Visit, HeadWithoutRoom, Tally, Room;
    if k == 0 {
      NothingTallied(r, cfg);
    } else {
      var x := RoundTo(r, k - 1, cfg);
      RoundTallies(r, k - 1, cfg);
      RoundMatches(r, k - 1, cfg);
      VisitTallies(r, x, k - 1, cfg);
      var a := Node(k - 1, r.next, cfg);
      var y := Visit(x, a, cfg);
      TallyUpdate(Taken(r, x, cfg), a, y.ins[a] != r.ins[a]);
      TallyUpdate(NoRoom(r, k - 1, cfg), a, HeadWithoutRoom(r, a, cfg));
    }
  }

  /** What the counters of a cycle mean: moved are the inputs that lost their head, blocked those whose head found no
      room at its output when the cycle started, and conflicts are all other inputs with a packet, which had room and
      were left behind for another input's head. */
  lemma ConflictsExplained(r: Router, cfg: Config)
    requires Shape(r, cfg)
    ensures var x := RoundTo(r, cfg.nodes, cfg);
      && x.moved == Tally(seq(cfg.nodes, i requires 0 <= i < cfg.nodes => x.ins[i] != r.ins[i]))
      && x.blocked == Tally(seq(cfg.nodes, i requires 0 <= i < cfg.nodes => HeadWithoutRoom(r, i, cfg)))
      && x.conflicts == Busy(r.ins, 0, cfg.nodes) - x.moved - x.blocked
  {
    hide RoundTo, HeadWithoutRoom;
    var x := RoundTo(r, cfg.nodes, cfg);
    RoundTallies(r, cfg.nodes, cfg);
    ConflictAccounting(r, cfg);
    assert Taken(r, x, cfg) == seq(cfg.nodes, i requires 0 <= i < cfg.nodes => x.ins[i] != r.ins[i]);
    assert NoRoom(r, cfg.nodes, cfg) == seq(cfg.nodes, i requires 0 <= i < cfg.nodes => HeadWithoutRoom(r, i, cfg));
  }

  // ------------------------------------------------------------------
  // Runs: nothing is lost, duplicated or misrouted, every flow keeps its order
  // ------------------------------------------------------------------

  datatype Event = Push(input: int, output: int, data: int) | Pop(output: int) | Cycle

  /** The router with everything pushed at each input and popped at each output so far. */
  datatype Logged = Logged(r: Router, pushed: Buffers, popped: Buffers)

  predicate Enabled(e: Event, cfg: Config) {
    match e
    case Push(i, o, _) => 0 <= i < cfg.nodes && 0 <= o < cfg.nodes
    case Pop(o) => 0 <= o < cfg.nodes
    case Cycle => true
  }

  function Empty(cfg: Config): Router
    requires cfg.nodes > 0
  {
    Router(seq(cfg.nodes, _ => []), seq(cfg.nodes, _ => []), 0)
  }

  function Step(r: Router, e: Event, cfg: Config): Router
    requires Shape(r, cfg) && Enabled(e, cfg)
  {
    match e
    case Push(i, o, d) => r.(ins := r.ins[i := r.ins[i] + [Packet(d, i, o)]])
    case Pop(o) => if r.outs[o] == [] then r else r.(outs := r.outs[o := r.outs[o][1..]])
    case Cycle => Advance(r, cfg)
  }

  function Next(s: Logged, e: Event, cfg: Config): Logged
    requires Shape(s.r, cfg) && Enabled(e, cfg) && |s.pushed| == |s.popped| == cfg.nodes
  {
    var t := Step(s.r, e, cfg);
    match e
    case Push(i, o, d) => Logged(t, s.pushed[i := s.pushed[i] + [Packet(d, i, o)]], s.popped)
    case Pop(o) =>
      Logged(t, s.pushed, if s.r.outs[o] == [] then s.popped else s.popped[o := s.popped[o] + [s.r.outs[o][0]]])
    case Cycle => Logged(t, s.pushed, s.popped)
  }

  lemma AdvanceKeepsShape(r: Router, cfg: Config)
    requires Shape(r, cfg)
    ensures Shape(Advance(r, cfg), cfg)
  {
    hide Advance;
    AdvanceIsMaximalMatching(r, cfg);
    var t := Advance(r, cfg);
    assert 0 <= t.next < cfg.nodes by { AdvanceTurns(r, cfg); }
    forall i, k | 0 <= i < cfg.nodes && 0 <= k < |t.ins[i]|
      ensures t.ins[i][k].input == i && 0 <= t.ins[i][k].output < cfg.nodes
    {
      assert InputMatched(r, t, i, cfg);
    }
    forall o, k | 0 <= o < cfg.nodes && 0 <= k < |t.outs[o]| ensures t.outs[o][k].output == o {
      assert OutputMatched(r, t, o, cfg);
    }
  }

  lemma AdvanceTurns(r: Router, cfg: Config)
    requires Shape(r, cfg)
    ensures Advance(r, cfg).next == NextNode(r.next, cfg)
  {}

  lemma StepKeepsShape(r: Router, e: Event, cfg: Config)
    requires Shape(r, cfg) && Enabled(e, cfg)
    ensures Shape(Step(r, e, cfg), cfg)
  {
    hide Advance;
    if e.Cycle? { AdvanceKeepsShape(r, cfg); }
  }

  /** The packets of one flow, in order. */
  function Flow(q: seq<Packet>, i: int, o: int): seq<Packet> {
    if q == [] then [] else (if q[0].input == i && q[0].output == o then [q[0]] else []) + Flow(q[1..], i, o)
  }

  lemma {:induction false} FlowConcat(a: seq<Packet>, b: seq<Packet>, i: int, o: int)
    ensures Flow(a + b, i, o) == Flow(a, i, o) + Flow(b, i, o)
  {
    if a == [] {
      assert a + b == b;
    } else {
      assert (a + b)[1..] == a[1..] + b;
      FlowConcat(a[1..], b, i, o);
    }
  }

  lemma FlowPush(q: seq<Packet>, p: Packet, i: int, o: int)
    ensures Flow(q + [p], i, o) == Flow(q, i, o) + if p.input == i && p.output == o then [p] else []
  {
    FlowConcat(q, [p], i, o);
    assert Flow([p], i, o) == (if p.input == i && p.output == o then [p] else []) + Flow([], i, o);
  }

  lemma FlowPop(q: seq<Packet>, i: int, o: int)
    requires q != []
    ensures Flow(q, i, o) == (if q[0].input == i && q[0].output == o then [q[0]] else []) + Flow(q[1..], i, o)
  {}

  /** What is inside the router for flow (i, o), oldest first. */
  function Inside(r: Router, i: int, o: int): seq<Packet>
    requires 0 <= i < |r.ins| && 0 <= o < |r.outs|
  {
    Flow(r.outs[o], i, o) + Flow(r.ins[i], i, o)
  }

  /** A cycle moves packets between buffers without touching any flow. */
  lemma AdvanceKeepsFlows(r: Router, i: int, o: int, cfg: Config)
    requires Shape(r, cfg) && 0 <= i < cfg.nodes && 0 <= o < cfg.nodes
    ensures Shape(Advance(r, cfg), cfg)
    ensures Inside(Advance(r, cfg), i, o) == Inside(r, i, o)
  {
    hide Advance, Flow;
    AdvanceIsMaximalMatching(r, cfg);
    AdvanceKeepsShape(r, cfg);
    var t := Advance(r, cfg);
    assert InputMatched(r, t, i, cfg);
    assert OutputMatched(r, t, o, cfg);
    if r.ins[i] != [] { FlowPop(r.ins[i], i, o); }
    if t.outs[o] != r.outs[o] { FlowPush(r.outs[o], t.outs[o][|t.outs[o]| - 1], i, o); }
  }

  ghost predicate FlowKept(s: Logged, i: int, o: int, cfg: Config)
    requires Shape(s.r, cfg) && |s.pushed| == |s.popped| == cfg.nodes && 0 <= i < cfg.nodes && 0 <= o < cfg.nodes
  {
    Flow(s.pushed[i], i, o) == Flow(s.popped[o], i, o) + Inside(s.r, i, o)
  }

  ghost predicate Conserved(s: Logged, cfg: Config) {
    && Shape(s.r, cfg) && |s.pushed| == |s.popped| == cfg.nodes
    && (forall i, o | 0 <= i < cfg.nodes && 0 <= o < cfg.nodes :: FlowKept(s, i, o, cfg))
    && (forall o, k | 0 <= o < cfg.nodes && 0 <= k < |s.popped[o]| :: s.popped[o][k].output == o)
    && (forall o | 0 <= o < cfg.nodes :: |s.r.outs[o]| <= cfg.limit)
  }

  lemma StepKeepsFlow(s: Logged, e: Event, i: int, o: int, cfg: Config)
    requires Conserved(s, cfg) && Enabled(e, cfg) && 0 <= i < cfg.nodes && 0 <= o < cfg.nodes
    ensures Shape(Next(s, e, cfg).r, cfg) && FlowKept(Next(s, e, cfg), i, o, cfg)
  {
    hide Advance, Flow;
    StepKeepsShape(s.r, e, cfg);
    assert FlowKept(s, i, o, cfg);
    match e
    case Push(a, b, d) =>
      FlowPush(s.pushed[a], Packet(d, a, b), i, o);
      FlowPush(s.r.ins[a], Packet(d, a, b), i, o);
    case Pop(b) =>
      if s.r.outs[b] != [] {
        FlowPop(s.r.outs[b], i, o);
        FlowPush(s.popped[b], s.r.outs[b][0], i, o);
      }
    case Cycle => AdvanceKeepsFlows(s.r, i, o, cfg);
  }

  lemma StepKeepsConserved(s: Logged, e: Event, cfg: Config)
    requires Conserved(s, cfg) && Enabled(e, cfg)
    ensures Conserved(Next(s, e, cfg), cfg)
  {
    hide Advance, FlowKept;
    var t := Next(s, e, cfg);
    StepKeepsShape(s.r, e, cfg);
    forall i, o | 0 <= i < cfg.nodes && 0 <= o < cfg.nodes { StepKeepsFlow(s, e, i, o, cfg); }
    if e.Cycle? {
      AdvanceIsMaximalMatching(s.r, cfg);
      forall o | 0 <= o < cfg.nodes ensures |t.r.outs[o]| <= cfg.limit {
        assert OutputMatched(s.r, t.r, o, cfg);
      }
    }
  }

  predicate AllEnabled(es: seq<Event>, cfg: Config) { forall k :: 0 <= k < |es| ==> Enabled(es[k], cfg) }

  function RunFrom(s: Logged, es: seq<Event>, cfg: Config): (t: Logged)
    requires Conserved(s, cfg) && AllEnabled(es, cfg)
    ensures Conserved(t, cfg)
    decreases |es|
  {
    if es == [] then s
    else
      StepKeepsConserved(s, es[0], cfg);
      RunFrom(Next(s, es[0], cfg), es[1..], cfg)
  }

  lemma EmptyConserved(cfg: Config)
    requires cfg.nodes > 0
    ensures Conserved(Logged(Empty(cfg), seq(cfg.nodes, _ => []), seq(cfg.nodes, _ => [])), cfg)
  {}

  /** Copies of a packet inside the router. */
  ghost function Copies(r: Router, p: Packet): nat
    requires 0 <= p.input < |r.ins| && 0 <= p.output < |r.outs|
  {
    multiset(Inside(r, p.input, p.output))[p]
  }

  /** Seen from outside the router is a bag: a push adds its packet, a pop takes one that is inside and bound
      for that output, a cycle changes nothing. */
  lemma RouterIsABag(r: Router, e: Event, p: Packet, cfg: Config)
    requires Shape(r, cfg) && Enabled(e, cfg) && 0 <= p.input < cfg.nodes && 0 <= p.output < cfg.nodes
    ensures Shape(Step(r, e, cfg), cfg)
    ensures match e
      case Push(i, o, d) => Copies(Step(r, e, cfg), p) == Copies(r, p) + if p == Packet(d, i, o) then 1 else 0
      case Pop(o) => Copies(r, p) == Copies(Step(r, e, cfg), p) + if r.outs[o] != [] && r.outs[o][0] == p then 1 else 0
      case Cycle => Copies(Step(r, e, cfg), p) == Copies(r, p)
  {
    hide Advance, Flow;
    StepKeepsShape(r, e, cfg);
    match e
    case Push(i, o, d) => FlowPush(r.ins[i], Packet(d, i, o), p.input, p.output);
    case Pop(o) => if r.outs[o] != [] { FlowPop(r.outs[o], p.input, p.output); }
    case Cycle => AdvanceKeepsFlows(r, p.input, p.output, cfg);
  }

  /** Over every sequence of pushes, pops and cycles: what left a flow is a prefix of what entered it, the rest
      is still inside; nothing surfaces at a wrong output; no output buffer exceeds its limit. */
  lemma FlowsAreFifo(es: seq<Event>, i: int, o: int, cfg: Config)
    requires cfg.nodes > 0 && AllEnabled(es, cfg) && 0 <= i < cfg.nodes && 0 <= o < cfg.nodes
    ensures var s := Logged(Empty(cfg), seq(cfg.nodes, _ => []), seq(cfg.nodes, _ => []));
      && Conserved(s, cfg)
      && var t := RunFrom(s, es, cfg);
         && Flow(t.pushed[i], i, o) == Flow(t.popped[o], i, o) + Inside(t.r, i, o)
         && (forall k | 0 <= k < |t.popped[o]| :: t.popped[o][k].output == o)
         && |t.r.outs[o]| <= cfg.limit
  {
    hide RunFrom, Inside, Flow;
    EmptyConserved(cfg);
    var t := RunFrom(Logged(Empty(cfg), seq(cfg.nodes, _ => []), seq(cfg.nodes, _ => [])), es, cfg);
    assert FlowKept(t, i, o, cfg);
  }

  // ------------------------------------------------------------------
  // Bounded waiting
  // ------------------------------------------------------------------

  /** Cycles until input i is the first one visited. */
  function Distance(i: int, next: int, cfg: Config): (d: nat)
    requires 0 <= i < cfg.nodes && 0 <= next < cfg.nodes
    ensures d < cfg.nodes && (d == 0 <==> i == next)
  {
    Visited(i, next, cfg)
  }

  function Cycles(es: seq<Event>): nat {
    if es == [] then 0 else (if es[0].Cycle? then 1 else 0) + Cycles(es[1..])
  }

  /** Packets that left input i during the cycles of a run. */
  ghost function Gone(r: Router, es: seq<Event>, i: int, cfg: Config): nat
    requires Shape(r, cfg) && AllEnabled(es, cfg) && 0 <= i < cfg.nodes
    decreases |es|
  {
    if es == [] then 0
    else
      StepKeepsShape(r, es[0], cfg);
      var t := Step(r, es[0], cfg);
      (if es[0].Cycle? && t.ins[i] != r.ins[i] then 1 else 0) + Gone(t, es[1..], i, cfg)
  }

  /** Output o has room whenever a cycle starts. */
  ghost predicate RoomThroughout(r: Router, es: seq<Event>, o: int, cfg: Config)
    requires Shape(r, cfg) && AllEnabled(es, cfg) && 0 <= o < cfg.nodes
    decreases |es|
  {
    es == []
    || (&& (es[0].Cycle? ==> Room(r.outs, o, cfg))
        && (StepKeepsShape(r, es[0], cfg); RoomThroughout(Step(r, es[0], cfg), es[1..], o, cfg)))
  }

  /** The first input visited moves if its output has room. */
  lemma FirstVisitedMoves(r: Router, cfg: Config)
    requires Shape(r, cfg) && r.ins[r.next] != [] && Room(r.outs, r.ins[r.next][0].output, cfg)
    ensures Shape(Advance(r, cfg), cfg) && Advance(r, cfg).ins[r.next] == r.ins[r.next][1..]
  {
    AdvanceKeepsShape(r, cfg);
    var x := RoundTo(r, 1, cfg);
    assert RoundTo(r, 0, cfg).ins == r.ins;
    assert Node(0, r.next, cfg) == r.next;
    assert x.ins[r.next] == r.ins[r.next][1..];
    StaysGone(r, cfg.nodes, cfg);
  }

  lemma {:induction false} StaysGone(r: Router, k: nat, cfg: Config)
    requires Shape(r, cfg) && 1 <= k <= cfg.nodes
    requires r.ins[r.next] != [] && RoundTo(r, 1, cfg).ins[r.next] == r.ins[r.next][1..]
    ensures RoundTo(r, k, cfg).ins[r.next] == r.ins[r.next][1..]
  {
    hide Visit, Node;
    if k > 1 {
      StaysGone(r, k - 1, cfg);
      VisitLeavesOthers(RoundTo(r, k - 1, cfg), Node(k - 1, r.next, cfg), r.next, cfg);
    }
  }

  lemma VisitLeavesOthers(x: Round, i: int, j: int, cfg: Config)
    requires Fits(x, cfg) && 0 <= i < cfg.nodes && 0 <= j < cfg.nodes && i != j
    ensures Visit(x, i, cfg).ins[j] == x.ins[j]
  {}

  /** A cycle moves the head of input i, or brings i's turn one cycle nearer. */
  lemma CycleServesOrNears(r: Router, i: int, cfg: Config)
    requires Shape(r, cfg) && 0 <= i < cfg.nodes && r.ins[i] != [] && Room(r.outs, r.ins[i][0].output, cfg)
    ensures Shape(Advance(r, cfg), cfg)
    ensures var t := Advance(r, cfg);
      || t.ins[i] == r.ins[i][1..]
      || (t.ins[i] == r.ins[i] && Distance(i, r.next, cfg) > 0
          && Distance(i, t.next, cfg) == Distance(i, r.next, cfg) - 1)
  {
    hide Advance, RoundTo;
    AdvanceKeepsShape(r, cfg);
    AdvanceTurns(r, cfg);
    AdvanceIsMaximalMatching(r, cfg);
    assert InputMatched(r, Advance(r, cfg), i, cfg);
    if i == r.next { FirstVisitedMoves(r, cfg); }
  }

  /** If the head's output has room at every cycle until then, the head of input i moves by its turn at the latest. */
  lemma {:induction false} HeadMoves(r: Router, es: seq<Event>, i: int, cfg: Config)
    requires Shape(r, cfg) && AllEnabled(es, cfg) && 0 <= i < cfg.nodes && r.ins[i] != []
    requires RoomThroughout(r, es, r.ins[i][0].output, cfg)
    requires Cycles(es) >= Distance(i, r.next, cfg) + 1
    ensures Gone(r, es, i, cfg) >= 1
    decreases |es|
  {
    hide Advance, Distance;
    var t := Step(r, es[0], cfg);
    StepKeepsShape(r, es[0], cfg);
    if es[0].Cycle? { CycleServesOrNears(r, i, cfg); }
    if !es[0].Cycle? || t.ins[i] == r.ins[i] { HeadMoves(t, es[1..], i, cfg); }
  }

  /** With room at its output, a head moves within `nodes` cycles, whatever is pushed and popped in between. */
  lemma HeadMovesWithinOneTurn(r: Router, es: seq<Event>, i: int, cfg: Config)
    requires Shape(r, cfg) && AllEnabled(es, cfg) && 0 <= i < cfg.nodes && r.ins[i] != []
    requires RoomThroughout(r, es, r.ins[i][0].output, cfg) && Cycles(es) >= cfg.nodes
    ensures Gone(r, es, i, cfg) >= 1
  {
    HeadMoves(r, es, i, cfg);
  }

  lemma OneTurnLess(d: int, n: int)
    ensures d * n == (d - 1) * n + n
  {}

  lemma {:induction false} DepthMovesFrom(r: Router, es: seq<Event>, i: int, d: nat, cfg: Config)
    requires Shape(r, cfg) && AllEnabled(es, cfg) && 0 <= i < cfg.nodes && d < |r.ins[i]|
    requires forall o | 0 <= o < cfg.nodes :: RoomThroughout(r, es, o, cfg)
    requires Cycles(es) >= d * cfg.nodes + Distance(i, r.next, cfg) + 1
    ensures Gone(r, es, i, cfg) >= d + 1
    decreases |es|
  {
    hide Advance, Distance, Shape, Step, Room;
    if es != [] {
      var t := Step(r, es[0], cfg);
      StepKeepsShape(r, es[0], cfg);
      HeadThere(r, i, cfg);
      assert forall o | 0 <= o < cfg.nodes :: RoomThroughout(r, es, o, cfg) ==> RoomThroughout(t, es[1..], o, cfg);
      if !es[0].Cycle? {
        NoCycleKeepsInput(r, es[0], i, cfg);
        DepthMovesFrom(t, es[1..], i, d, cfg);
      } else {
        assert RoomThroughout(r, es, r.ins[i][0].output, cfg);
        CycleServesOrNears(r, i, cfg);
        CycleIsAdvance(r, cfg);
        if t.ins[i] == r.ins[i] {
          DepthMovesFrom(t, es[1..], i, d, cfg);
        } else if d > 0 {
          OneTurnLess(d, cfg.nodes);
          DepthMovesFrom(t, es[1..], i, d - 1, cfg);
        }
      }
    }
  }

  lemma HeadThere(r: Router, i: int, cfg: Config)
    requires Shape(r, cfg) && 0 <= i < cfg.nodes
    ensures |r.ins| == cfg.nodes && 0 <= r.next < cfg.nodes && (r.ins[i] != [] ==> 0 <= r.ins[i][0].output < cfg.nodes)
  {}

  lemma CycleIsAdvance(r: Router, cfg: Config)
    requires Shape(r, cfg)
    ensures Step(r, Cycle, cfg) == Advance(r, cfg) && |Advance(r, cfg).ins| == cfg.nodes
    ensures Advance(r, cfg).next == NextNode(r.next, cfg)
  {}

  lemma NoCycleKeepsInput(r: Router, e: Event, i: int, cfg: Config)
    requires Shape(r, cfg) && Enabled(e, cfg) && !e.Cycle? && 0 <= i < cfg.nodes
    ensures var t := Step(r, e, cfg); |t.ins| == cfg.nodes && t.next == r.next && r.ins[i] <= t.ins[i]
  {}

  /** With room at all outputs, a packet with d packets ahead of it leaves within (d + 1) * nodes cycles. */
  lemma DepthMovesInTime(r: Router, es: seq<Event>, i: int, d: nat, cfg: Config)
    requires Shape(r, cfg) && AllEnabled(es, cfg) && 0 <= i < cfg.nodes && d < |r.ins[i]|
    requires forall o | 0 <= o < cfg.nodes :: RoomThroughout(r, es, o, cfg)
    requires Cycles(es) >= (d + 1) * cfg.nodes
    ensures Gone(r, es, i, cfg) >= d + 1
  {
    assert (d + 1) * cfg.nodes == d * cfg.nodes + cfg.nodes;
    DepthMovesFrom(r, es, i, d, cfg);
  }
}
