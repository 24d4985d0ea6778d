/** A DRAM channel with the L2 slices that share it: round-robin issue, latency list, device, return path. */
module MemoryPartition {
  import opened Basics
  import opened Division
  import opened DelayQueue
  import opened Dram

  datatype Delayed = Delayed(ready: int, req: Req)

  datatype Channel = Channel(
    toDram: seq<seq<Mf>>,      // per slice: L2 -> DRAM queue
    fromDram: seq<seq<Req>>,   // per slice: DRAM -> L2 queue
    latency: seq<Delayed>,
    last: nat,                 // slice looked at last by the arbiter
    device: Device)

  const QUEUE_SIZE := 999999

  predicate GoodReq(r: Req, cfg: Config) { r.slice < cfg.slices && r.mf.bank < cfg.banks }

  predicate GoodSlots(s: Slots, cfg: Config) {
    forall i :: 0 <= i < |s| && s[i].Some? ==> GoodReq(s[i].value, cfg)
  }

  predicate GoodQueues(q: seq<seq<Mf>>, cfg: Config) {
    |q| == cfg.slices && forall s, i :: 0 <= s < |q| && 0 <= i < |q[s]| ==> q[s][i].bank < cfg.banks
  }

  predicate Shape(c: Channel, cfg: Config) {
    && Sane(cfg)
    && GoodQueues(c.toDram, cfg)
    && |c.fromDram| == cfg.slices
    && c.last < cfg.slices
    && (forall i :: 0 <= i < |c.latency| ==> GoodReq(c.latency[i].req, cfg))
    && GoodSlots(c.device.mrqq, cfg) && GoodSlots(c.device.rwq, cfg) && GoodSlots(c.device.returnq, cfg)
  }

  function Init(cfg: Config): (c: Channel)
    requires Sane(cfg)
    ensures Shape(c, cfg)
  {
    Channel(seq(cfg.slices, _ => []), seq(cfg.slices, _ => []), [], 0, Device([], Nulls(cfg.CL), []))
  }

  // ------------------------------------------------------------------
  // One cycle, step by step
  // ------------------------------------------------------------------

  function ReturnToL2(c: Channel, cfg: Config): (r: Channel)
    requires Shape(c, cfg)
    ensures Shape(r, cfg)
  {
    var top := Top(c.device.returnq);
    if top.Some? && |c.fromDram[top.value.slice]| < QUEUE_SIZE then
      var s := top.value.slice;
      c.(fromDram := c.fromDram[s := c.fromDram[s] + [top.value]],
         device := c.device.(returnq := Pop(c.device.returnq, 0)))
    else c
  }

  function RunDevice(c: Channel, cfg: Config): (r: Channel)
    requires Shape(c, cfg)
    ensures Shape(r, cfg)
  {
    c.(device := DeviceCycle(c.device, cfg))
  }

  function Turn(c: Channel, cfg: Config, p: nat): (s: nat)
    requires Shape(c, cfg)
    ensures s < cfg.slices
  {
    (p + c.last + 1) % cfg.slices
  }

  predicate Waiting(c: Channel, cfg: Config, s: nat)
    requires Shape(c, cfg) && s < cfg.slices
  {
    c.toDram[s] != [] && |c.fromDram[s]| < QUEUE_SIZE
  }

  /** The round of the arbiter's loop that finds a slice to serve; `cfg.slices` if none does. */
  function Stop(c: Channel, cfg: Config, p: nat): (q: nat)
    requires Shape(c, cfg) && p <= cfg.slices
    ensures p <= q <= cfg.slices
    ensures q < cfg.slices ==> Waiting(c, cfg, Turn(c, cfg, q))
    ensures forall i :: p <= i < q ==> !Waiting(c, cfg, Turn(c, cfg, i))
    decreases cfg.slices - p
  {
    if p == cfg.slices then p
    else if Waiting(c, cfg, Turn(c, cfg, p)) then p
    else Stop(c, cfg, p + 1)
  }

  /** The request the arbiter moves to the latency list in this cycle, if any. */
  function Chosen(c: Channel, cfg: Config): Option<Req>
    requires Shape(c, cfg)
  {
    var p := Stop(c, cfg, 0);
    if p == cfg.slices || Full(c.device) then None
    else Some(Req(c.toDram[Turn(c, cfg, p)][0], Turn(c, cfg, p)))
  }

  function Issue(c: Channel, cfg: Config, now: int): (r: Channel)
    requires Shape(c, cfg)
    ensures Shape(r, cfg)
  {
    var p := Stop(c, cfg, 0);
    var s := Turn(c, cfg, if p == cfg.slices then p - 1 else p);
    match Chosen(c, cfg)
    case None => c.(last := s)
    case Some(req) =>
      c.(toDram := c.toDram[s := c.toDram[s][1..]],
         latency := c.latency + [Delayed(now + cfg.missLatency, req)],
         last := s)
  }

  function Feed(c: Channel, cfg: Config, now: int): (r: Channel)
    requires Shape(c, cfg)
    ensures Shape(r, cfg)
  {
    if c.latency != [] && c.latency[0].ready <= now && !Full(c.device) then
      c.(latency := c.latency[1..],
         device := c.device.(mrqq := c.device.mrqq + [Some(c.latency[0].req)]))
    else c
  }

  /** Return step of the simple model: the latency list answers the slice directly. */
  function ReturnSimple(c: Channel, cfg: Config, now: int): (r: Channel)
    requires Shape(c, cfg)
    ensures Shape(r, cfg)
  {
    if c.latency != [] && c.latency[0].ready <= now
       && |c.fromDram[c.latency[0].req.slice]| < QUEUE_SIZE then
      var req := c.latency[0].req;
      c.(fromDram := c.fromDram[req.slice := c.fromDram[req.slice] + [req]], latency := c.latency[1..])
    else c
  }

  /** What the channel looks like when its arbiter starts. */
  function BeforeIssue(detailed: bool, c: Channel, cfg: Config, now: int): (r: Channel)
    requires Shape(c, cfg)
    ensures Shape(r, cfg)
  {
    if detailed then RunDevice(ReturnToL2(c, cfg), cfg) else ReturnSimple(c, cfg, now)
  }

  function ChannelCycle(detailed: bool, c: Channel, cfg: Config, now: int): (r: Channel)
    requires Shape(c, cfg)
    ensures Shape(r, cfg)
  {
    var issued := Issue(BeforeIssue(detailed, c, cfg, now), cfg, now);
    if detailed then Feed(issued, cfg, now) else issued
  }

  /** Every slice takes one reply, then new misses arrive behind the waiting ones. */
  function Delivered(c: Channel): seq<Option<Req>> {
    seq(|c.fromDram|, s requires 0 <= s < |c.fromDram| => if c.fromDram[s] == [] then None else Some(c.fromDram[s][0]))
  }

  function SlicesCycle(c: Channel, cfg: Config, arrivals: seq<seq<Mf>>): (r: Channel)
    requires Shape(c, cfg) && GoodQueues(arrivals, cfg)
    ensures Shape(r, cfg)
  {
    c.(toDram := seq(cfg.slices, s requires 0 <= s < cfg.slices => c.toDram[s] + arrivals[s]),
       fromDram := seq(cfg.slices, s requires 0 <= s < cfg.slices =>
         if c.fromDram[s] == [] then [] else c.fromDram[s][1..]))
  }

  // ------------------------------------------------------------------
  // Runs
  // ------------------------------------------------------------------

  /** `issued[k]` and `delivered[k][s]` say what happened in the k-th cycle. */
  datatype History = History(c: Channel, issued: seq<Option<Req>>, delivered: seq<seq<Option<Req>>>)

  type Work = seq<seq<seq<Mf>>>   // per cycle, per slice: new misses

  predicate GoodWork(work: Work, cfg: Config) {
    forall k :: 0 <= k < |work| ==> GoodQueues(work[k], cfg)
  }

  function Next(detailed: bool, cfg: Config, start: int, h: History, arrivals: seq<seq<Mf>>): (r: History)
    requires Shape(h.c, cfg) && GoodQueues(arrivals, cfg)
    ensures Shape(r.c, cfg)
    ensures h.issued <= r.issued && |r.issued| == |h.issued| + 1
  {
    var now := start + |h.issued|;
    var c := ChannelCycle(detailed, h.c, cfg, now);
    History(SlicesCycle(c, cfg, arrivals),
            h.issued + [Chosen(BeforeIssue(detailed, h.c, cfg, now), cfg)],
            h.delivered + [Delivered(c)])
  }

  function Run(detailed: bool, cfg: Config, start: int, work: Work): (h: History)
    requires Sane(cfg) && GoodWork(work, cfg)
    ensures Shape(h.c, cfg)
    ensures |h.issued| == |h.delivered| == |work|
    decreases |work|
  {
    if work == [] then History(Init(cfg), [], [])
    else Next(detailed, cfg, start, Run(detailed, cfg, start, work[..|work|-1]), work[|work|-1])
  }

  // ------------------------------------------------------------------
  // The pipeline is a delay line of the issue log
  // ------------------------------------------------------------------

  function At(log: seq<Option<Req>>, t: int): Option<Req> {
    if 0 <= t < |log| then log[t] else None
  }

  function Slot(x: Option<Req>): Slots {
    if x.Some? then [x] else []
  }

  /** Latency-list entries for the requests issued in cycles a..b. */
  function Pending(log: seq<Option<Req>>, due: int, a: int, b: int): seq<Delayed>
    decreases b - a
  {
    if b <= a then []
    else Pending(log, due, a, b - 1) + Entry(log, due, b - 1)
  }

  function Entry(log: seq<Option<Req>>, due: int, t: int): seq<Delayed> {
    match At(log, t)
    case None => []
    case Some(r) => [Delayed(due + t, r)]
  }

  lemma {:induction false} PendingFront(log: seq<Option<Req>>, due: int, a: int, b: int)
    requires a < b
    ensures Pending(log, due, a, b) == Entry(log, due, a) + Pending(log, due, a + 1, b)
    decreases b - a
  {
    if a + 1 < b {
      PendingFront(log, due, a, b - 1);
    }
  }

  lemma {:induction false} PendingGrows(log: seq<Option<Req>>, x: Option<Req>, due: int, a: int, b: int)
    requires b <= |log|
    ensures Pending(log + [x], due, a, b) == Pending(log, due, a, b)
    decreases b - a
  {
    if a < b {
      PendingGrows(log, x, due, a, b - 1);
      assert At(log + [x], b - 1) == At(log, b - 1);
    }
  }

  lemma {:induction false} PendingDueLater(log: seq<Option<Req>>, due: int, a: int, b: int)
    ensures forall i :: 0 <= i < |Pending(log, due, a, b)| ==> due + a <= Pending(log, due, a, b)[i].ready
    decreases b - a
  {
    if a < b {
      PendingDueLater(log, due, a, b - 1);
    }
  }

  /** Depth of the delay line: a configured CL of 0 still costs one cycle. */
  function Depth(cfg: Config): (d: nat)
    ensures cfg.CL <= d && 1 <= d
  {
    if cfg.CL == 0 then 1 else cfg.CL
  }

  function Line(log: seq<Option<Req>>, cfg: Config): Slots {
    var newest := |log| - 2 - cfg.missLatency;
    if cfg.CL == 0 then Slot(At(log, newest))
    else seq(cfg.CL, i requires 0 <= i < cfg.CL => At(log, newest - (cfg.CL - 1) + i))
  }

  predicate QueuesDrained(c: Channel) {
    forall s :: 0 <= s < |c.fromDram| ==> c.fromDram[s] == []
  }

  /** Between cycles every queue of the detailed model is determined by the issue log. */
  predicate DetailedInv(c: Channel, cfg: Config, start: int, log: seq<Option<Req>>) {
    var T := |log|;
    && Shape(c, cfg)
    && QueuesDrained(c)
    && c.latency == Pending(log, start + cfg.missLatency, T - cfg.missLatency, T)
    && c.device.mrqq == Slot(At(log, T - 1 - cfg.missLatency))
    && c.device.rwq == Line(log, cfg)
    && c.device.returnq == Slot(At(log, T - 2 - cfg.missLatency - Depth(cfg)))
  }

  function SimpleDelay(cfg: Config): (d: nat)
    ensures 1 <= d && cfg.missLatency <= d
  {
    if cfg.missLatency == 0 then 1 else cfg.missLatency
  }

  predicate SimpleInv(c: Channel, cfg: Config, start: int, log: seq<Option<Req>>) {
    && Shape(c, cfg)
    && QueuesDrained(c)
    && c.latency == Pending(log, start + cfg.missLatency, |log| - SimpleDelay(cfg), |log|)
    && c.device == Device([], Nulls(cfg.CL), [])
  }

  /** The slices hold exactly the reply that left the pipeline in this cycle. */
  predicate Holds(c: Channel, cfg: Config, x: Option<Req>)
    requires Shape(c, cfg)
  {
    forall s :: 0 <= s < cfg.slices ==> c.fromDram[s] == if x.Some? && x.value.slice == s then [x.value] else []
  }

  lemma ReturnStep(c: Channel, cfg: Config, x: Option<Req>)
    requires Shape(c, cfg) && QueuesDrained(c) && c.device.returnq == Slot(x)
    ensures var r := ReturnToL2(c, cfg);
      && Holds(r, cfg, x)
      && r == c.(fromDram := r.fromDram, device := c.device.(returnq := []))
  {}

  /** A pop and a push turn the padded row by one place. */
  lemma RowTurns(row: Slots, x: Option<Req>)
    requires row != []
    ensures Pop(row, |row|) == row[1..] + [None]
    ensures Push(Pop(row, |row|), |row|, x) == row[1..] + [x]
  {
    assert Pop(row, |row|)[..|row|-1] == row[1..];
  }

  lemma LineTurns(cfg: Config, log: seq<Option<Req>>, x: Option<Req>)
    requires 0 < cfg.CL
    ensures Line(log, cfg)[0] == At(log, |log| - 1 - cfg.missLatency - cfg.CL)
    ensures Line(log + [x], cfg) == Line(log, cfg)[1..] + [At(log, |log| - 1 - cfg.missLatency)]
  {
    assert forall t :: t < |log| ==> At(log + [x], t) == At(log, t);
  }

  lemma DeviceMovesOn(d: Device, cfg: Config, log: seq<Option<Req>>, x: Option<Req>)
    requires Sane(cfg)
    requires d == Device(Slot(At(log, |log| - 1 - cfg.missLatency)), Line(log, cfg), [])
    ensures DeviceCycle(d, cfg)
         == Device([], Line(log + [x], cfg), Slot(At(log, |log| - 1 - cfg.missLatency - Depth(cfg))))
  {
    if cfg.CL == 0 {
      assert At(log + [x], |log| - 1 - cfg.missLatency) == At(log, |log| - 1 - cfg.missLatency);
      assert Shift(d, cfg).rwq == [];
    } else {
      PaddedMovesOn(d, cfg, log, x);
    }
  }

  lemma PaddedMovesOn(d: Device, cfg: Config, log: seq<Option<Req>>, x: Option<Req>)
    requires Sane(cfg) && cfg.CL > 0
    requires d == Device(Slot(At(log, |log| - 1 - cfg.missLatency)), Line(log, cfg), [])
    ensures DeviceCycle(d, cfg)
         == Device([], Line(log + [x], cfg), Slot(At(log, |log| - 1 - cfg.missLatency - Depth(cfg))))
  {
    var incoming := At(log, |log| - 1 - cfg.missLatency);
    var line := Line(log, cfg);
    LineTurns(cfg, log, x);
    RowTurns(line, incoming);
    hide Line, Pop, Push;
    assert Push<Req>([], 0, line[0]) == [line[0]] by { EmptyPush(line[0]); }
    assert Shift(d, cfg) == Device(d.mrqq, line[1..] + [None], Slot(line[0]));
    if incoming.Some? {
      assert Pop(d.mrqq, 0) == [] by { SinglePop(incoming); }
    }
  }

  lemma EmptyPush(x: Option<Req>)
    ensures Push([], 0, x) == [x]
  {}

  lemma SinglePop(x: Option<Req>)
    ensures Pop([x], 0) == []
  {}

  lemma IssueAppends(c: Channel, cfg: Config, now: int, log: seq<Option<Req>>, a: int)
    requires Shape(c, cfg) && a <= |log|
    requires c.latency == Pending(log, now - |log| + cfg.missLatency, a, |log|)
    ensures var i := Issue(c, cfg, now);
      && i.latency == Pending(log + [Chosen(c, cfg)], now - |log| + cfg.missLatency, a, |log| + 1)
      && i.fromDram == c.fromDram && i.device == c.device
  {
    PendingGrows(log, Chosen(c, cfg), now - |log| + cfg.missLatency, a, |log|);
  }

  /** The head of the latency list is ripe exactly when the entry of cycle `t` is present. */
  lemma RipeHead(lat: seq<Delayed>, due: int, log: seq<Option<Req>>, t: int, now: int)
    requires t < |log| && due + t <= now < due + t + 1
    requires lat == Pending(log, due, t, |log|)
    ensures (lat != [] && lat[0].ready <= now) == At(log, t).Some?
    ensures At(log, t).Some? ==> lat[0].req == At(log, t).value && lat[1..] == Pending(log, due, t + 1, |log|)
    ensures At(log, t).None? ==> lat == Pending(log, due, t + 1, |log|)
  {
    hide Pending;
    PendingFront(log, due, t, |log|);
    PendingDueLater(log, due, t + 1, |log|);
    var rest := Pending(log, due, t + 1, |log|);
    if At(log, t).Some? {
      assert lat == [Delayed(due + t, At(log, t).value)] + rest;
    } else {
      assert lat == rest;
    }
  }

  lemma FeedStep(c: Channel, cfg: Config, now: int, log: seq<Option<Req>>)
    requires Shape(c, cfg) && 0 < |log|
    requires c.device.mrqq == []
    requires c.latency == Pending(log, now + 1 - |log| + cfg.missLatency, |log| - 1 - cfg.missLatency, |log|)
    ensures var f := Feed(c, cfg, now);
      && f.latency == Pending(log, now + 1 - |log| + cfg.missLatency, |log| - cfg.missLatency, |log|)
      && f == c.(latency := f.latency, device := c.device.(mrqq := Slot(At(log, |log| - 1 - cfg.missLatency))))
  {
    hide Pending, At;
    RipeHead(c.latency, now + 1 - |log| + cfg.missLatency, log, |log| - 1 - cfg.missLatency, now);
  }

  lemma DetailedStep(c: Channel, cfg: Config, start: int, log: seq<Option<Req>>, arrivals: seq<seq<Mf>>)
    requires DetailedInv(c, cfg, start, log) && GoodQueues(arrivals, cfg)
    ensures var now := start + |log|;
      var log' := log + [Chosen(BeforeIssue(true, c, cfg, now), cfg)];
      var c' := ChannelCycle(true, c, cfg, now);
      && Holds(c', cfg, At(log', |log| - cfg.missLatency - Depth(cfg) - 2))
      && DetailedInv(SlicesCycle(c', cfg, arrivals), cfg, start, log')
  {
    hide ReturnToL2, DeviceCycle, Issue, Feed, Chosen, Pending, Line;
    var T, L, now := |log|, cfg.missLatency, start + |log|;
    ReturnStep(c, cfg, At(log, T - 2 - L - Depth(cfg)));
    var r := ReturnToL2(c, cfg);
    var b := BeforeIssue(true, c, cfg, now);
    var x := Chosen(b, cfg);
    DeviceMovesOn(r.device, cfg, log, x);
    IssueAppends(b, cfg, now, log, T - L);
    FeedStep(Issue(b, cfg, now), cfg, now, log + [x]);
    assert forall t :: t < T ==> At(log + [x], t) == At(log, t);
  }

  lemma SimpleStep(c: Channel, cfg: Config, start: int, log: seq<Option<Req>>, arrivals: seq<seq<Mf>>)
    requires SimpleInv(c, cfg, start, log) && GoodQueues(arrivals, cfg)
    ensures var now := start + |log|;
      var log' := log + [Chosen(BeforeIssue(false, c, cfg, now), cfg)];
      var c' := ChannelCycle(false, c, cfg, now);
      && Holds(c', cfg, At(log', |log| - SimpleDelay(cfg)))
      && SimpleInv(SlicesCycle(c', cfg, arrivals), cfg, start, log')
  {
    hide Issue, Chosen;
    var T, M, now := |log|, SimpleDelay(cfg), start + |log|;
    ReturnSimpleStep(c, cfg, now, log);
    var b := BeforeIssue(false, c, cfg, now);
    IssueAppends(b, cfg, now, log, T - M + 1);
    assert At(log + [Chosen(b, cfg)], T - M) == At(log, T - M);
  }

  lemma ReturnSimpleStep(c: Channel, cfg: Config, now: int, log: seq<Option<Req>>)
    requires Shape(c, cfg) && QueuesDrained(c)
    requires c.latency == Pending(log, now - |log| + cfg.missLatency, |log| - SimpleDelay(cfg), |log|)
    ensures var b := ReturnSimple(c, cfg, now);
      && b.latency == Pending(log, now - |log| + cfg.missLatency, |log| - SimpleDelay(cfg) + 1, |log|)
      && Holds(b, cfg, At(log, |log| - SimpleDelay(cfg)))
      && b == c.(latency := b.latency, fromDram := b.fromDram)
  {
    hide Pending, At, ReturnSimple, Shape, Holds;
    if cfg.missLatency == 0 {
      RipeHeadEarly(c.latency, now - |log|, log, |log| - 1, now);
    } else {
      RipeHead(c.latency, now - |log| + cfg.missLatency, log, |log| - cfg.missLatency, now);
    }
    ReturnSimpleGives(c, cfg, now, At(log, |log| - SimpleDelay(cfg)),
                      Pending(log, now - |log| + cfg.missLatency, |log| - SimpleDelay(cfg) + 1, |log|));
  }

  lemma ReturnSimpleGives(c: Channel, cfg: Config, now: int, x: Option<Req>, rest: seq<Delayed>)
    requires Shape(c, cfg) && QueuesDrained(c)
    requires (c.latency != [] && c.latency[0].ready <= now) == x.Some?
    requires x.Some? ==> c.latency[0].req == x.value && c.latency[1..] == rest
    requires x.None? ==> c.latency == rest
    ensures var b := ReturnSimple(c, cfg, now);
      b.latency == rest && Holds(b, cfg, x) && b == c.(latency := rest, fromDram := b.fromDram)
  {}

  /** With no miss latency the entry of the previous cycle has been ripe since then. */
  lemma RipeHeadEarly(lat: seq<Delayed>, due: int, log: seq<Option<Req>>, t: int, now: int)
    requires t + 1 == |log| && due + t < now
    requires lat == Pending(log, due, t, |log|)
    ensures lat == Entry(log, due, t) && Pending(log, due, t + 1, |log|) == []
    ensures (lat != [] && lat[0].ready <= now) == At(log, t).Some?
    ensures At(log, t).Some? ==> lat[0].req == At(log, t).value && lat[1..] == []
  {
    PendingFront(log, due, t, |log|);
  }

  // ------------------------------------------------------------------
  // Exact latency
  // ------------------------------------------------------------------

  /** What slice `s` receives when `x` comes out of the pipeline. */
  function Reply(x: Option<Req>, s: nat): Option<Req> {
    if x.Some? && x.value.slice == s then x else None
  }

  function Latency(detailed: bool, cfg: Config): (l: nat)
    ensures 0 < l
  {
    if detailed then cfg.missLatency + Depth(cfg) + 2 else SimpleDelay(cfg)
  }

  ghost predicate Inv(detailed: bool, c: Channel, cfg: Config, start: int, log: seq<Option<Req>>): (b: bool)
    ensures b ==> Shape(c, cfg)
  {
    if detailed then DetailedInv(c, cfg, start, log) else SimpleInv(c, cfg, start, log)
  }

  /** One cycle's deliveries: `x` to its own slice, nothing to the others. */
  predicate Row(replies: seq<Option<Req>>, cfg: Config, x: Option<Req>) {
    |replies| == cfg.slices && forall s :: 0 <= s < cfg.slices ==> replies[s] == Reply(x, s)
  }

  lemma DrainGivesReplies(c: Channel, cfg: Config, x: Option<Req>)
    requires Shape(c, cfg) && Holds(c, cfg, x)
    ensures Row(Delivered(c), cfg, x)
  {}

  /** In each cycle the slices receive the request issued `lat` cycles before, if there was one. */
  ghost predicate DeliversAfter(h: History, cfg: Config, lat: nat) {
    && |h.delivered| == |h.issued|
    && forall k :: 0 <= k < |h.delivered| ==> Row(h.delivered[k], cfg, At(h.issued, k - lat))
  }

  ghost predicate Good(detailed: bool, cfg: Config, start: int, h: History) {
    Inv(detailed, h.c, cfg, start, h.issued) && DeliversAfter(h, cfg, Latency(detailed, cfg))
  }

  lemma DeliveryExtends(h: History, h': History, cfg: Config, lat: nat, x: Option<Req>, replies: seq<Option<Req>>)
    requires DeliversAfter(h, cfg, lat) && 0 < lat
    requires h'.issued == h.issued + [x] && h'.delivered == h.delivered + [replies]
    requires Row(replies, cfg, At(h'.issued, |h.issued| - lat))
    ensures DeliversAfter(h', cfg, lat)
  {
    hide Row;
    assert forall t :: t < |h.issued| ==> At(h'.issued, t) == At(h.issued, t);
  }

  lemma ModelStep(detailed: bool, c: Channel, cfg: Config, start: int, log: seq<Option<Req>>, arrivals: seq<seq<Mf>>)
    requires Inv(detailed, c, cfg, start, log) && GoodQueues(arrivals, cfg)
    ensures var now := start + |log|;
      var log' := log + [Chosen(BeforeIssue(detailed, c, cfg, now), cfg)];
      var c' := ChannelCycle(detailed, c, cfg, now);
      && Holds(c', cfg, At(log', |log| - Latency(detailed, cfg)))
      && Inv(detailed, SlicesCycle(c', cfg, arrivals), cfg, start, log')
  {
    hide Chosen, BeforeIssue, ChannelCycle, SlicesCycle, DetailedInv, SimpleInv, Holds;
    if detailed {
      DetailedStep(c, cfg, start, log, arrivals);
    } else {
      SimpleStep(c, cfg, start, log, arrivals);
    }
  }

  lemma NextKeepsGood(detailed: bool, cfg: Config, start: int, h: History, arrivals: seq<seq<Mf>>)
    requires Good(detailed, cfg, start, h) && GoodQueues(arrivals, cfg)
    ensures Good(detailed, cfg, start, Next(detailed, cfg, start, h, arrivals))
  {
    hide DeliversAfter, Chosen, BeforeIssue, ChannelCycle, SlicesCycle, Inv, Row, Holds, Shape, Latency, At;
    ModelStep(detailed, h.c, cfg, start, h.issued, arrivals);
    var now := start + |h.issued|;
    var h' := Next(detailed, cfg, start, h, arrivals);
    var c := ChannelCycle(detailed, h.c, cfg, now);
    DrainGivesReplies(c, cfg, At(h'.issued, |h.issued| - Latency(detailed, cfg)));
    DeliveryExtends(h, h', cfg, Latency(detailed, cfg), Chosen(BeforeIssue(detailed, h.c, cfg, now), cfg),
                    Delivered(c));
  }

  /** In every run, of either model, the slices receive exactly the requests issued `Latency` cycles
      before: each one once, at its own slice, at no other time. */
  lemma {:induction false} ExactLatency(detailed: bool, cfg: Config, start: int, work: Work)
    requires Sane(cfg) && GoodWork(work, cfg)
    ensures Good(detailed, cfg, start, Run(detailed, cfg, start, work))
    decreases |work|
  {
    if work == [] {
      InitialInv(detailed, cfg, start);
    } else {
      hide Good, Next;
      ExactLatency(detailed, cfg, start, work[..|work|-1]);
      NextKeepsGood(detailed, cfg, start, Run(detailed, cfg, start, work[..|work|-1]), work[|work|-1]);
    }
  }

  lemma InitialInv(detailed: bool, cfg: Config, start: int)
    requires Sane(cfg)
    ensures Inv(detailed, Init(cfg), cfg, start, [])
  {
    assert forall t :: At([], t) == None;
    PendingOfNothing(start + cfg.missLatency, 0 - cfg.missLatency, 0);
    PendingOfNothing(start + cfg.missLatency, 0 - SimpleDelay(cfg), 0);
    assert Nulls<Req>(cfg.CL) == Line([], cfg);
  }

  lemma {:induction false} PendingOfNothing(due: int, a: int, b: int)
    ensures Pending([], due, a, b) == []
    decreases b - a
  {
    if a < b { PendingOfNothing(due, a, b - 1); }
  }

  /** The latency formula is missLatency + CL + 2 exactly when CL is at least 1. */
  lemma LatencyFormula(cfg: Config)
    ensures Latency(true, cfg) == cfg.missLatency + cfg.CL + 2 <==> 1 <= cfg.CL
    ensures cfg.CL == 0 ==> Latency(true, cfg) == cfg.missLatency + 3
    ensures Latency(false, cfg) == cfg.missLatency <==> 1 <= cfg.missLatency
  {}

  /** No `full()` guard of the detailed model is ever true, no queue of the device overflows. */
  lemma GuardsNeverFire(cfg: Config, start: int, work: Work)
    requires Sane(cfg) && GoodWork(work, cfg)
    ensures NoGuardFires(Run(true, cfg, start, work).c, cfg)
  {
    hide Run, DeliversAfter;
    ExactLatency(true, cfg, start, work);
    var h := Run(true, cfg, start, work);
    InvMeansNoGuard(h.c, cfg, start, h.issued);
  }

  /** Queue lengths between cycles, and what the guards see during the next cycle. */
  predicate NoGuardFires(c: Channel, cfg: Config)
    requires Shape(c, cfg)
  {
    var r := ReturnToL2(c, cfg);
    var b := RunDevice(r, cfg);
    && |c.device.mrqq| <= 1 && |c.device.returnq| <= 1
    && (if cfg.CL == 0 then |c.device.rwq| <= 1 else |c.device.rwq| == cfg.CL)
    && QueuesDrained(c)
    && r.device.returnq == []
    && !Full(b.device)
    && (forall s :: 0 <= s < cfg.slices ==> |b.fromDram[s]| <= 1)
  }

  /** In every state of a run the delay line has room for what its cycle pushes: the assertion in its push holds. */
  lemma DelayLineHasRoom(cfg: Config, start: int, work: Work)
    requires Sane(cfg) && GoodWork(work, cfg)
    ensures var d := ReturnToL2(Run(true, cfg, start, work).c, cfg).device;
      d.mrqq != [] && cfg.returnSize <= |d.returnq| ==> |d.rwq| <= cfg.CL
  {
    hide Run, ReturnToL2;
    GuardsNeverFire(cfg, start, work);
  }

  lemma InvMeansNoGuard(c: Channel, cfg: Config, start: int, log: seq<Option<Req>>)
    requires DetailedInv(c, cfg, start, log)
    ensures NoGuardFires(c, cfg)
  {
    hide Pending, ReturnToL2, DeviceCycle;
    ReturnStep(c, cfg, At(log, |log| - 2 - cfg.missLatency - Depth(cfg)));
    DeviceMovesOn(ReturnToL2(c, cfg).device, cfg, log, None);
  }

  // ------------------------------------------------------------------
  // The detailed model is the simple model, delayed
  // ------------------------------------------------------------------

  /** At the arbiter, nothing but the waiting misses and the last slice matters. */
  predicate Unblocked(c: Channel, cfg: Config)
    requires Shape(c, cfg)
  {
    !Full(c.device) && forall s :: 0 <= s < cfg.slices ==> |c.fromDram[s]| <= 1
  }

  lemma ArbiterUnblocked(detailed: bool, c: Channel, cfg: Config, start: int, log: seq<Option<Req>>)
    requires Inv(detailed, c, cfg, start, log)
    ensures var b := BeforeIssue(detailed, c, cfg, start + |log|);
      Unblocked(b, cfg) && b.toDram == c.toDram && b.last == c.last
  {
    if detailed {
      ReturnStep(c, cfg, At(log, |log| - 2 - cfg.missLatency - Depth(cfg)));
      DeviceMovesOn(ReturnToL2(c, cfg).device, cfg, log, None);
    } else {
      ReturnSimpleStep(c, cfg, start + |log|, log);
    }
  }

  lemma {:induction false} SameStop(a: Channel, b: Channel, cfg: Config, p: nat)
    requires Shape(a, cfg) && Shape(b, cfg) && p <= cfg.slices
    requires Unblocked(a, cfg) && Unblocked(b, cfg)
    requires a.toDram == b.toDram && a.last == b.last
    ensures Stop(a, cfg, p) == Stop(b, cfg, p)
    decreases cfg.slices - p
  {
    if p < cfg.slices {
      SameStop(a, b, cfg, p + 1);
    }
  }

  lemma SameChoice(cfg: Config, now: int, b: Channel, b': Channel)
    requires Shape(b, cfg) && Shape(b', cfg) && Unblocked(b, cfg) && Unblocked(b', cfg)
    requires b.toDram == b'.toDram && b.last == b'.last
    ensures Chosen(b, cfg) == Chosen(b', cfg)
    ensures Issue(b, cfg, now).toDram == Issue(b', cfg, now).toDram
    ensures Issue(b, cfg, now).last == Issue(b', cfg, now).last
  {
    hide Stop;
    SameStop(b, b', cfg, 0);
  }

  /** Same issue log, same waiting misses, same place in the round. */
  predicate Agree(d: History, s: History) {
    d.issued == s.issued && d.c.toDram == s.c.toDram && d.c.last == s.c.last
  }

  lemma SameNext(cfg: Config, start: int, d: History, s: History, arrivals: seq<seq<Mf>>)
    requires Inv(true, d.c, cfg, start, d.issued) && Inv(false, s.c, cfg, start, s.issued) && GoodQueues(arrivals, cfg)
    requires Agree(d, s)
    ensures Agree(Next(true, cfg, start, d, arrivals), Next(false, cfg, start, s, arrivals))
  {
    hide BeforeIssue, Inv, Issue, Chosen, Unblocked, Shape;
    ArbiterUnblocked(true, d.c, cfg, start, d.issued);
    ArbiterUnblocked(false, s.c, cfg, start, s.issued);
    var now := start + |d.issued|;
    SameChoice(cfg, now, BeforeIssue(true, d.c, cfg, now), BeforeIssue(false, s.c, cfg, now));
  }

  lemma {:induction false} SameIssues(cfg: Config, start: int, work: Work)
    requires Sane(cfg) && GoodWork(work, cfg)
    ensures Agree(Run(true, cfg, start, work), Run(false, cfg, start, work))
    decreases |work|
  {
    if work != [] {
      hide Inv, DeliversAfter, Next, Shape, GoodQueues, Agree;
      var init := work[..|work|-1];
      SameIssues(cfg, start, init);
      ExactLatency(true, cfg, start, init);
      ExactLatency(false, cfg, start, init);
      SameNext(cfg, start, Run(true, cfg, start, init), Run(false, cfg, start, init), work[|work|-1]);
    }
  }

  /** How many cycles the detailed model is behind the simple one. */
  function Lag(cfg: Config): nat {
    Latency(true, cfg) - Latency(false, cfg)
  }

  /** For the same misses, whatever the banks, the detailed model delivers what the simple model
      delivers, to the same slices in the same order, `Lag` cycles later and nothing before. */
  lemma DetailedIsSimpleDelayed(cfg: Config, start: int, work: Work)
    requires Sane(cfg) && GoodWork(work, cfg)
    ensures var d, m := Run(true, cfg, start, work).delivered, Run(false, cfg, start, work).delivered;
      && (forall k :: 0 <= k && k + Lag(cfg) < |work| ==> d[k + Lag(cfg)] == m[k])
      && (forall k :: 0 <= k < |work| && k < Lag(cfg) ==> Row(d[k], cfg, None))
  {
    SameIssues(cfg, start, work);
    ExactLatency(true, cfg, start, work);
    ExactLatency(false, cfg, start, work);
    DelayedRows(Run(true, cfg, start, work), Run(false, cfg, start, work), cfg);
  }

  lemma DelayedRows(d: History, m: History, cfg: Config)
    requires d.issued == m.issued
    requires DeliversAfter(d, cfg, Latency(true, cfg)) && DeliversAfter(m, cfg, Latency(false, cfg))
    ensures forall k :: 0 <= k && k + Lag(cfg) < |d.issued| ==> d.delivered[k + Lag(cfg)] == m.delivered[k]
    ensures forall k :: 0 <= k < |d.issued| && k < Lag(cfg) ==> Row(d.delivered[k], cfg, None)
  {
    forall k | 0 <= k && k + Lag(cfg) < |d.issued| ensures d.delivered[k + Lag(cfg)] == m.delivered[k] {
      assert Row(d.delivered[k + Lag(cfg)], cfg, At(m.issued, k - Latency(false, cfg)));
      assert Row(m.delivered[k], cfg, At(m.issued, k - Latency(false, cfg)));
    }
  }

  lemma LagFormula(cfg: Config)
    ensures Lag(cfg) == cfg.CL + 2 <==> (cfg.CL == 0 <==> cfg.missLatency == 0)
  {}

  // ------------------------------------------------------------------
  // Round-robin service
  // ------------------------------------------------------------------

  /** Rounds of the arbiter's loop before it looks at slice `s`. */
  function Distance(c: Channel, cfg: Config, s: nat): (d: nat)
    requires Shape(c, cfg) && s < cfg.slices
    ensures d < cfg.slices && Turn(c, cfg, d) == s
  {
    var d := if c.last < s then s - c.last - 1 else s + cfg.slices - c.last - 1;
    ModWraps(d + c.last + 1, cfg.slices);
    d
  }

  /** A waiting slice is served, or the arbiter gets closer to it. */
  lemma OneTurn(detailed: bool, cfg: Config, start: int, h: History, arrivals: seq<seq<Mf>>, s: nat)
    requires Inv(detailed, h.c, cfg, start, h.issued) && GoodQueues(arrivals, cfg)
    requires s < cfg.slices && h.c.toDram[s] != []
    ensures var h' := Next(detailed, cfg, start, h, arrivals);
      var x := h'.issued[|h.issued|];
      && x.Some?
      && (x.value.slice == s || (h'.c.toDram[s] != [] && Distance(h'.c, cfg, s) < Distance(h.c, cfg, s)))
  {
    hide BeforeIssue, Inv, Issue, Chosen, Unblocked;
    var now := start + |h.issued|;
    ArbiterUnblocked(detailed, h.c, cfg, start, h.issued);
    ArbiterTurns(BeforeIssue(detailed, h.c, cfg, now), cfg, now, s);
  }

  lemma ArbiterTurns(b: Channel, cfg: Config, now: int, s: nat)
    requires Shape(b, cfg) && Unblocked(b, cfg) && s < cfg.slices && b.toDram[s] != []
    ensures var x, i := Chosen(b, cfg), Issue(b, cfg, now);
      && x.Some?
      && (x.value.slice == s || (i.toDram[s] != [] && Distance(i, cfg, s) < Distance(b, cfg, s)))
  {
    var d, p := Distance(b, cfg, s), Stop(b, cfg, 0);
    assert Waiting(b, cfg, s);
    assert p <= d;
    ModWraps(p + b.last + 1, cfg.slices);
    assert Issue(b, cfg, now).last == Turn(b, cfg, p);
  }

  /** Because nothing ever blocks the arbiter, a waiting slice is served within one round of the slices. */
  lemma {:induction false} ServedWithinOneRound(detailed: bool, cfg: Config, start: int, work: Work, k: nat, s: nat)
    requires Sane(cfg) && GoodWork(work, cfg)
    requires s < cfg.slices && k <= |work|
    requires var c := Run(detailed, cfg, start, work[..k]).c;
      c.toDram[s] != [] && k + Distance(c, cfg, s) < |work|
    ensures var c := Run(detailed, cfg, start, work[..k]).c;
      exists t :: k <= t <= k + Distance(c, cfg, s)
        && Reply(Run(detailed, cfg, start, work).issued[t], s).Some?
    decreases |work| - k
  {
    hide Inv, DeliversAfter, Next, Shape, GoodQueues, Distance;
    var h := Run(detailed, cfg, start, work[..k]);
    ExactLatency(detailed, cfg, start, work[..k]);
    OneTurn(detailed, cfg, start, h, work[k], s);
    var h' := Run(detailed, cfg, start, work[..k + 1]);
    assert work[..k + 1][..k] == work[..k];
    assert h' == Next(detailed, cfg, start, h, work[k]);
    IssuedPrefix(detailed, cfg, start, work, k + 1);
    var all := Run(detailed, cfg, start, work).issued;
    assert all[k] == h'.issued[k];
    if all[k].value.slice == s {
      assert Reply(all[k], s).Some?;
    } else {
      ServedWithinOneRound(detailed, cfg, start, work, k + 1, s);
      var t :| k + 1 <= t <= k + 1 + Distance(h'.c, cfg, s) && Reply(all[t], s).Some?;
      assert t <= k + Distance(h.c, cfg, s);
    }
  }

  lemma {:induction false} IssuedPrefix(detailed: bool, cfg: Config, start: int, work: Work, k: nat)
    requires Sane(cfg) && GoodWork(work, cfg) && k <= |work|
    ensures Run(detailed, cfg, start, work[..k]).issued == Run(detailed, cfg, start, work).issued[..k]
    decreases |work|
  {
    hide Next, Shape, GoodQueues;
    if k == |work| {
      assert work[..k] == work;
    } else {
      var m := |work| - 1;
      assert work[..m][..k] == work[..k];
      IssuedPrefix(detailed, cfg, start, work[..m], k);
    }
  }
}
