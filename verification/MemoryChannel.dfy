/** The imperative side of the memory partition: one channel's `dram_cycle` and `dram_model_cycle`. */
module MemoryChannel {
  import opened Basics
  import opened DelayQueue
  import opened Dram
  import opened MemoryPartition

  lemma Sizes(c: Channel, cfg: Config)
    requires Shape(c, cfg)
    ensures cfg.slices > 0 && |c.toDram| == |c.fromDram| == cfg.slices
  {}

  /** One round of the arbiter's loop. */
  lemma StopAt(c: Channel, cfg: Config, p: nat)
    requires Shape(c, cfg) && p <= cfg.slices
    ensures p < cfg.slices ==> Turn(c, cfg, p) == (p + c.last + 1) % cfg.slices
    ensures p == cfg.slices ==> Stop(c, cfg, p) == p
    ensures p < cfg.slices ==> Stop(c, cfg, p) == if Waiting(c, cfg, Turn(c, cfg, p)) then p else Stop(c, cfg, p + 1)
  {}

  /** What the arbiter does once its loop has stopped in round p. */
  lemma IssueIs(c: Channel, cfg: Config, now: int, p: nat)
    requires Shape(c, cfg) && p <= cfg.slices && Stop(c, cfg, 0) == p && (p < cfg.slices ==> Stop(c, cfg, p) == p)
    ensures cfg.slices > 0
    ensures var s := Turn(c, cfg, if p == cfg.slices then p - 1 else p);
      Issue(c, cfg, now)
      == if p == cfg.slices || Full(c.device) then c.(last := s)
         else c.(toDram := c.toDram[s := c.toDram[s][1..]],
                 latency := c.latency + [Delayed(now + cfg.missLatency, Req(c.toDram[s][0], s))], last := s)
  {}

  class ChannelUnit {
    const cfg: Config
    const device: DramDevice
    const toDram: array<seq<Mf>>
    const fromDram: array<seq<Req>>
    var latency: seq<Delayed>
    var last: nat

    ghost function Repr(): set<object>
      reads this, device, device.rwq, device.mrqq, device.returnq
    {
      {this, toDram, fromDram} + device.Repr()
    }

    ghost predicate Valid()
      reads this, device, device.rwq, device.mrqq, device.returnq, Repr()
    {
      && device.cfg == cfg
      && this !in device.Repr() && toDram !in device.Repr() && fromDram !in device.Repr()
      && device.Valid() && device.Idle()
      && Shape(State(), cfg)
    }

    ghost function State(): Channel
      reads this, device, device.rwq, device.mrqq, device.returnq, toDram, fromDram
    {
      Channel(toDram[..], fromDram[..], latency, last, device.State())
    }

    constructor (slices: nat, nbk: nat, CL: nat, missLatency: nat, configuredReturn: nat)
      requires 0 < slices && 0 < nbk
      ensures Valid() && fresh(Repr())
      ensures State() == Init(cfg)
    {
      hide DramDevice.Valid, FifoPipeline.Valid;
      var dev := new DramDevice(slices, nbk, CL, missLatency, configuredReturn);
      device, cfg := dev, dev.cfg;
      toDram := new seq<Mf>[slices](_ => []);
      fromDram := new seq<Req>[slices](_ => []);
      latency, last := [], 0;
      new;
      assert State() == Init(cfg);
    }

    /** The precondition is the one assertion of the device's delay line; it holds in every run
        (`DelayLineHasRoom`). */
    method DramCycle(now: int)
      requires Valid()
      requires var d := ReturnToL2(State(), cfg).device;
        d.mrqq != [] && cfg.returnSize <= |d.returnq| ==> |d.rwq| <= cfg.CL
      modifies Repr()
      ensures Valid() && fresh(Repr() - old(Repr()))
      ensures State() == ChannelCycle(true, old(State()), cfg, now)
    {
      hide DramDevice.Valid, FifoPipeline.Valid, Shape, GoodSlots, Issue, DeviceCycle, Feed;
      ReturnReply();
      ghost var returned := State();
      device.Cycle();
      assert State() == RunDevice(returned, cfg);
      Arbitrate(now);
      FeedDevice(now);
    }

    method DramModelCycle(now: int)
      requires Valid()
      modifies Repr()
      ensures Valid() && fresh(Repr() - old(Repr()))
      ensures State() == ChannelCycle(false, old(State()), cfg, now)
    {
      hide DramDevice.Valid, FifoPipeline.Valid, Issue;
      if latency != [] && latency[0].ready <= now {
        var d := latency[0];
        if |fromDram[d.req.slice]| < QUEUE_SIZE {
          fromDram[d.req.slice] := fromDram[d.req.slice] + [d.req];
          latency := latency[1..];
        }
      }
      assert State() == ReturnSimple(old(State()), cfg, now);
      Arbitrate(now);
    }

    method ReturnReply()
      requires Valid()
      modifies fromDram, device.returnq.Repr
      ensures Valid() && fresh(Repr() - old(Repr()))
      ensures State() == ReturnToL2(old(State()), cfg)
    {
      hide FifoPipeline.Valid;
      var reply := device.returnq.TopSlot();
      if reply.Some? {
        var s := reply.value.slice;
        if |fromDram[s]| < QUEUE_SIZE {
          fromDram[s] := fromDram[s] + [reply.value];
          var _ := device.returnq.PopSlot();
          assert State() == ReturnToL2(old(State()), cfg);
        }
      }
    }

    /** The oldest miss of a slice goes to the latency list. */
    method MoveMiss(spid: nat, now: int)
      requires Valid() && spid < cfg.slices && toDram[spid] != []
      modifies this`latency, toDram
      ensures Valid() && Repr() == old(Repr())
      ensures var c := old(State());
        State() == c.(toDram := c.toDram[spid := c.toDram[spid][1..]],
                      latency := c.latency + [Delayed(now + cfg.missLatency, Req(c.toDram[spid][0], spid))])
    {
      hide DramDevice.Valid, FifoPipeline.Valid, GoodSlots;
      ghost var before := State();
      var mf := toDram[spid][0];
      toDram[spid] := toDram[spid][1..];
      latency := latency + [Delayed(now + cfg.missLatency, Req(mf, spid))];
      assert toDram[..] == before.toDram[spid := before.toDram[spid][1..]];
    }

    /** The round-robin loop: looks at the slices after the last one and moves at most one miss. */
    method Arbitrate(now: int)
      requires Valid()
      modifies this, toDram
      ensures Valid()
      ensures Repr() == old(Repr())
      ensures State() == Issue(old(State()), cfg, now)
    {
      hide DramDevice.Valid, FifoPipeline.Valid, GoodSlots, Shape, Stop, Issue, Turn, DramDevice.Idle;
      ghost var before := State();
      Sizes(before, cfg);
      var spid := 0;
      var p := 0;
      while p < cfg.slices
        invariant p <= cfg.slices
        invariant State() == before && Valid() && Repr() == old(Repr())
        invariant Stop(before, cfg, 0) == Stop(before, cfg, p)
        invariant p != 0 ==> spid == Turn(before, cfg, p - 1)
        decreases cfg.slices - p
      {
        StopAt(before, cfg, p);
        spid := (p + last + 1) % cfg.slices;
        if toDram[spid] != [] && |fromDram[spid]| < QUEUE_SIZE {
          var full := device.IsFull();
          if full { break; }
          MoveMiss(spid, now);
          break;
        }
        p := p + 1;
      }
      StopAt(before, cfg, p);
      IssueIs(before, cfg, now, p);
      SetLast(spid);
    }

    method SetLast(spid: nat)
      requires Valid() && spid < cfg.slices
      modifies this`last
      ensures Valid() && Repr() == old(Repr()) && State() == old(State()).(last := spid)
    {
      hide DramDevice.Valid, FifoPipeline.Valid, GoodSlots;
      last := spid;
    }

    method FeedDevice(now: int)
      requires Valid()
      modifies this, device.mrqq.Repr
      ensures Valid() && fresh(Repr() - old(Repr()))
      ensures State() == Feed(old(State()), cfg, now)
    {
      hide DramDevice.Valid, FifoPipeline.Valid;
      var full := device.IsFull();
      if latency != [] && latency[0].ready <= now && !full {
        var req := latency[0].req;
        latency := latency[1..];
        device.PushRequest(req);
      }
      assert State() == Feed(old(State()), cfg, now);
    }
  }
}
