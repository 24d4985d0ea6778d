/** The router as the object that carries the rounds of arbitration out. */
module XbarRouter {
  import opened Crossbar

  class Xbar {
    const cfg: Config
    const inBuffers: array<seq<Packet>>
    const outBuffers: array<seq<Packet>>
    var nextNodeId: int
    var conflicts: nat
    var conflictsUtil: nat
    var cyclesUtil: nat
    var cycles: nat

    ghost function Contents(): Router
      reads this, inBuffers, outBuffers
    {
      Router(inBuffers[..], outBuffers[..], nextNodeId)
    }

    ghost predicate Valid()
      reads this, inBuffers, outBuffers
    {
      inBuffers != outBuffers && Shape(Contents(), cfg)
    }

    constructor (cfg: Config)
      requires cfg.nodes > 0
      ensures Valid() && fresh(inBuffers) && fresh(outBuffers) && this.cfg == cfg
      ensures Contents() == Empty(cfg) && conflicts == conflictsUtil == cyclesUtil == cycles == 0
    {
      this.cfg := cfg;
      inBuffers := new seq<Packet>[cfg.nodes](_ => []);
      outBuffers := new seq<Packet>[cfg.nodes](_ => []);
      nextNodeId, conflicts, conflictsUtil, cyclesUtil, cycles := 0, 0, 0, 0, 0;
      new;
      assert inBuffers[..] == seq(cfg.nodes, _ => []);
      assert outBuffers[..] == seq(cfg.nodes, _ => []);
    }

    method PushPacket(input: int, output: int, data: int)
      requires Valid() && Enabled(Push(input, output, data), cfg)
      modifies inBuffers
      ensures Valid() && Contents() == Step(old(Contents()), Push(input, output, data), cfg)
    {
      inBuffers[input] := inBuffers[input] + [Packet(data, input, output)];
      assert Contents().ins == old(Contents()).ins[input := old(inBuffers[input]) + [Packet(data, input, output)]];
      StepKeepsShape(old(Contents()), Push(input, output, data), cfg);
    }

    /** NULL (no packet) when the output buffer is empty. */
    method PopPacket(output: int) returns (data: seq<Packet>)
      requires Valid() && 0 <= output < cfg.nodes
      modifies outBuffers
      ensures Valid() && Contents() == Step(old(Contents()), Pop(output), cfg)
      ensures data == if old(outBuffers[output]) == [] then [] else [old(outBuffers[output])[0]]
    {
      data := [];
      if outBuffers[output] != [] {
        data := [outBuffers[output][0]];
        outBuffers[output] := outBuffers[output][1..];
        assert Contents().outs == old(Contents()).outs[output := old(outBuffers[output])[1..]];
      } else {
        assert Contents() == old(Contents());
      }
      StepKeepsShape(old(Contents()), Pop(output), cfg);
    }

    method HasBufferOut(output: int) returns (has: bool)
      requires 0 <= output < outBuffers.Length
      ensures has == Room(outBuffers[..], output, cfg)
    {
      has := |outBuffers[output]| + 1 <= cfg.limit;
    }

    method RRAdvance()
      requires Valid()
      modifies this, inBuffers, outBuffers
      ensures Valid() && Contents() == Advance(old(Contents()), cfg)
      ensures conflicts == old(conflicts) + RoundTo(old(Contents()), cfg.nodes, cfg).conflicts
      ensures conflictsUtil == old(conflictsUtil) + RoundTo(old(Contents()), cfg.nodes, cfg).conflicts
      ensures cyclesUtil == old(cyclesUtil) + if Busy(old(Contents()).ins, 0, cfg.nodes) > 0 then 1 else 0
      ensures cycles == old(cycles) + 1
    {
      hide Shape, Visit, Room, Busy, Inside, Node, NextNode;
      ghost var r := Contents();
      var issued := new bool[cfg.nodes](_ => false);
      assert issued[..] == seq(cfg.nodes, _ => false);
      var active := false;
      var conflictSub, reqs := 0, 0;
      var i := 0;
      ghost var blocked := 0;
      Lengths(r, cfg);
      while i < cfg.nodes
        invariant i <= cfg.nodes && nextNodeId == r.next && Shape(r, cfg)
        invariant inBuffers.Length == outBuffers.Length == issued.Length == cfg.nodes
        invariant conflicts == old(conflicts) && cycles == old(cycles)
        invariant conflictsUtil == old(conflictsUtil) && cyclesUtil == old(cyclesUtil)
        invariant active <==> reqs + conflictSub + blocked > 0
        invariant RoundTo(r, i, cfg) == Round(inBuffers[..], outBuffers[..], issued[..], reqs, conflictSub, blocked)
      {
        Lengths(r, cfg);
        var nodeId := Node(i, nextNodeId, cfg);
        ghost var x := RoundTo(r, i, cfg);
        if inBuffers[nodeId] != [] {
          active := true;
          var packet := inBuffers[nodeId][0];
          var o := packet.output;
          assert 0 <= o < cfg.nodes by { assert x.ins[nodeId][0] == packet; }
          var room := HasBufferOut(o);
          if room {
            if !issued[o] {
              outBuffers[o] := outBuffers[o] + [packet];
              inBuffers[nodeId] := inBuffers[nodeId][1..];
              issued[o] := true;
              reqs := reqs + 1;
            } else {
              conflictSub := conflictSub + 1;
            }
          } else if issued[o] {
            conflictSub := conflictSub + 1;
          } else {
            blocked := blocked + 1;
          }
          VisitWrites(x, nodeId, cfg);
          assert inBuffers[..] == Visit(x, nodeId, cfg).ins;
          assert outBuffers[..] == Visit(x, nodeId, cfg).outs;
          assert issued[..] == Visit(x, nodeId, cfg).issued;
        } else {
          VisitWrites(x, nodeId, cfg);
        }
        i := i + 1;
      }
      ConflictAccounting(r, cfg);
      nextNodeId := NextNode(nextNodeId, cfg);
      conflicts := conflicts + conflictSub;
      if active {
        conflictsUtil := conflictsUtil + conflictSub;
        cyclesUtil := cyclesUtil + 1;
      }
      cycles := cycles + 1;
      AdvanceKeepsShape(r, cfg);
    }
  }

  lemma Lengths(r: Router, cfg: Config)
    requires Shape(r, cfg)
    ensures cfg.nodes > 0 && |r.ins| == cfg.nodes && |r.outs| == cfg.nodes && 0 <= r.next < cfg.nodes
  {}

  /** The definition of a visit, branch by branch. */
  lemma VisitWrites(x: Round, i: int, cfg: Config)
    requires Fits(x, cfg) && 0 <= i < cfg.nodes
    ensures var y := Visit(x, i, cfg);
      if x.ins[i] == [] then y == x
      else
        var p := x.ins[i][0];
        var o := p.output;
        if Room(x.outs, o, cfg) && !x.issued[o] then
          y == Round(x.ins[i := x.ins[i][1..]], x.outs[o := x.outs[o] + [p]], x.issued[o := true],
                     x.moved + 1, x.conflicts, x.blocked)
        else if x.issued[o] then y == x.(conflicts := x.conflicts + 1)
        else y == x.(blocked := x.blocked + 1)
  {}
}
