/** One DRAM device: request FIFO, bank slots, CAS-latency delay line and return FIFO. */
module Dram {
  import opened Basics
  import opened DelayQueue

  /** A memory request, named by its unique id and its DRAM bank. */
  datatype Mf = Mf(id: nat, bank: nat)

  /** A request tagged with the L2 slice that sent it. */
  datatype Req = Req(mf: Mf, slice: nat)

  type Slots = seq<Option<Req>>

  datatype Device = Device(mrqq: Slots, rwq: Slots, returnq: Slots)

  datatype Config = Config(slices: nat, banks: nat, CL: nat, missLatency: nat, returnSize: nat)

  predicate Sane(cfg: Config) {
    0 < cfg.slices && 0 < cfg.banks && 0 < cfg.returnSize
  }

  /** A configured return-queue size of zero stands for 1024. */
  function ReturnSize(configured: nat): (r: nat)
    ensures 0 < r
  {
    if configured == 0 then 1024 else configured
  }

  const MRQQ_SIZE := 2

  predicate Full(d: Device) { MRQQ_SIZE <= |d.mrqq| }

  /** First half of a cycle: the delay line moves, unless the return queue is full. */
  function Shift(d: Device, cfg: Config): Device {
    if cfg.returnSize <= |d.returnq| then d
    else
      var cmd := Top(d.rwq);
      Device(d.mrqq, Pop(d.rwq, cfg.CL), if cmd.Some? then Push(d.returnq, 0, cmd) else d.returnq)
  }

  /** Second half: the head request passes through its bank slot into the delay line. */
  function Schedule(d: Device, cfg: Config): Device {
    if d.mrqq == [] then d
    else Device(Pop(d.mrqq, 0), Push(d.rwq, cfg.CL, d.mrqq[0]), d.returnq)
  }

  function DeviceCycle(d: Device, cfg: Config): Device {
    Schedule(Shift(d, cfg), cfg)
  }

  class DramDevice {
    const cfg: Config
    const rwq: FifoPipeline<Req>
    const mrqq: FifoPipeline<Req>
    const returnq: FifoPipeline<Req>
    const banks: array<Option<Req>>

    ghost function Repr(): set<object>
      reads this, rwq, mrqq, returnq
    {
      {this, banks} + rwq.Repr + mrqq.Repr + returnq.Repr
    }

    ghost predicate Valid()
      reads this, rwq, mrqq, returnq, Repr()
    {
      && Sane(cfg)
      && this !in rwq.Repr && this !in mrqq.Repr && this !in returnq.Repr
      && banks !in rwq.Repr && banks !in mrqq.Repr && banks !in returnq.Repr
      && rwq.Repr !! mrqq.Repr && rwq.Repr !! returnq.Repr && mrqq.Repr !! returnq.Repr
      && rwq.Valid() && mrqq.Valid() && returnq.Valid()
      && rwq.minLen == cfg.CL && rwq.maxLen == cfg.CL + 1
      && mrqq.minLen == 0 && mrqq.maxLen == MRQQ_SIZE
      && returnq.minLen == 0 && returnq.maxLen == cfg.returnSize
      && banks.Length == cfg.banks
      && (forall i :: 0 <= i < |mrqq.Slots| ==> mrqq.Slots[i].Some? && mrqq.Slots[i].value.mf.bank < cfg.banks)
    }

    ghost predicate Idle()
      reads banks
    {
      forall i :: 0 <= i < banks.Length ==> banks[i] == None
    }

    ghost function State(): Device
      reads this, rwq, mrqq, returnq
    {
      Device(mrqq.Slots, rwq.Slots, returnq.Slots)
    }

    constructor (slices: nat, nbk: nat, CL: nat, missLatency: nat, configuredReturn: nat)
      requires 0 < slices && 0 < nbk
      ensures Valid() && Idle() && fresh(Repr())
      ensures cfg == Config(slices, nbk, CL, missLatency, ReturnSize(configuredReturn))
      ensures State() == Device([], Nulls(CL), [])
    {
      hide FifoPipeline.Valid, Nulls;
      cfg := Config(slices, nbk, CL, missLatency, ReturnSize(configuredReturn));
      banks := new Option<Req>[nbk](_ => None);
      var q1 := new FifoPipeline<Req>(CL, CL + 1);
      var q2 := new FifoPipeline<Req>(0, MRQQ_SIZE);
      var q3 := new FifoPipeline<Req>(0, ReturnSize(configuredReturn));
      rwq, mrqq, returnq := q1, q2, q3;
    }

    /** The precondition is the assertion in the delay line's own push. */
    method Cycle()
      requires Valid() && Idle()
      requires mrqq.Slots != [] && cfg.returnSize <= |returnq.Slots| ==> |rwq.Slots| <= cfg.CL
      modifies Repr()
      ensures Valid() && Idle() && fresh(Repr() - old(Repr()))
      ensures State() == DeviceCycle(old(State()), cfg)
    {
      hide FifoPipeline.Valid;
      rwq.LengthBound();
      ghost var line := rwq.Slots;
      if line != [] { PopIsDequeue(line, cfg.CL); }
      ShiftLine();
      ghost var shifted := State();
      SchedulerFifo();
      DrainBanks(shifted.mrqq);
    }

    method ShiftLine()
      requires Valid()
      modifies rwq.Repr, returnq.Repr
      ensures Valid() && fresh(Repr() - old(Repr()))
      ensures State() == Shift(old(State()), cfg)
    {
      hide FifoPipeline.Valid;
      var full := returnq.IsFull();
      if !full {
        var cmd := rwq.PopSlot();
        if cmd.Some? {
          returnq.PushSlot(cmd);
        }
      }
    }

    method SchedulerFifo()
      requires Valid() && Idle()
      modifies mrqq.Repr, banks
      ensures Valid() && fresh(Repr() - old(Repr()))
      ensures State() == old(State()).(mrqq := Pop(old(mrqq.Slots), 0))
      ensures forall i :: 0 <= i < banks.Length ==>
        banks[i] == if old(mrqq.Slots) != [] && old(mrqq.Slots)[0].value.mf.bank == i then old(mrqq.Slots)[0] else None
    {
      hide FifoPipeline.Valid;
      var none := mrqq.IsEmpty();
      if !none {
        var head := mrqq.TopSlot();
        var bkn := head.value.mf.bank;
        if banks[bkn].None? {
          banks[bkn] := mrqq.PopSlot();
        }
      }
    }

    /** The loop over the banks: what a slot holds is pushed, every slot is cleared. */
    method DrainBanks(ghost queued: Slots)
      requires Valid()
      requires forall i :: 0 <= i < |queued| ==> queued[i].Some? && queued[i].value.mf.bank < cfg.banks
      requires forall i :: 0 <= i < banks.Length ==>
        banks[i] == if queued != [] && queued[0].value.mf.bank == i then queued[0] else None
      requires queued != [] ==> |rwq.Slots| <= cfg.CL
      modifies rwq.Repr, banks
      ensures Valid() && Idle() && fresh(Repr() - old(Repr()))
      ensures State() == old(State()).(rwq := if queued == [] then old(rwq.Slots)
                                              else Push(old(rwq.Slots), cfg.CL, queued[0]))
    {
      hide FifoPipeline.Valid;
      ghost var before := rwq.Slots;
      ghost var b := if queued == [] then banks.Length else queued[0].value.mf.bank;
      for i := 0 to banks.Length
        invariant Valid() && fresh(rwq.Repr - old(rwq.Repr))
        invariant mrqq.Slots == old(mrqq.Slots) && returnq.Slots == old(returnq.Slots)
        invariant forall j :: 0 <= j < banks.Length ==> banks[j] == if i <= j && j == b then queued[0] else None
        invariant rwq.Slots == if b < i then Push(before, cfg.CL, queued[0]) else before
      {
        if banks[i].Some? {
          rwq.PushSlot(banks[i]);
        }
        banks[i] := None;
      }
    }

    method PushRequest(r: Req)
      requires Valid() && Idle()
      requires !Full(State()) && r.mf.bank < cfg.banks
      modifies mrqq.Repr
      ensures Valid() && Idle() && fresh(Repr() - old(Repr()))
      ensures State() == old(State()).(mrqq := old(mrqq.Slots) + [Some(r)])
    {
      hide FifoPipeline.Valid;
      mrqq.PushSlot(Some(r));
    }

    method IsFull() returns (b: bool)
      requires Valid()
      ensures b == Full(State())
    {
      hide FifoPipeline.Valid;
      b := mrqq.IsFull();
    }
  }
}
