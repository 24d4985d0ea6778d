/** From the misses that arrive at the slices to the replies they get: nothing is lost, doubled or overtaken. */
module MissDelivery {
  import opened Basics
  import opened Dram
  import opened MemoryPartition

  /** The misses that arrived at slice s, in order. */
  function Arrived(work: Work, s: nat, cfg: Config): seq<Mf>
    requires GoodWork(work, cfg) && s < cfg.slices
  {
    if work == [] then [] else Arrived(work[..|work| - 1], s, cfg) + work[|work| - 1][s]
  }

  /** The misses of slice s in a log of requests, in order. */
  function Of(log: seq<Option<Req>>, s: nat): seq<Mf> {
    if log == [] then []
    else
      var x := log[|log| - 1];
      Of(log[..|log| - 1], s) + if x.Some? && x.value.slice == s then [x.value.mf] else []
  }

  /** What slice s has received, in order. */
  function Received(delivered: seq<seq<Option<Req>>>, s: nat): seq<Mf> {
    if delivered == [] then []
    else
      var row := delivered[|delivered| - 1];
      Received(delivered[..|delivered| - 1], s) + if s < |row| && row[s].Some? then [row[s].value.mf] else []
  }

  lemma OfSnoc(log: seq<Option<Req>>, x: Option<Req>, s: nat)
    ensures Of(log + [x], s) == Of(log, s) + if x.Some? && x.value.slice == s then [x.value.mf] else []
  {
    assert (log + [x])[..|log|] == log;
  }

  // ------------------------------------------------------------------
  // Every miss is issued once, in order, or still waits
  // ------------------------------------------------------------------

  /** The arbiter takes the oldest miss of one slice, or none; no other queue of misses changes. */
  lemma IssueTakesOldest(b: Channel, cfg: Config, now: int, s: nat)
    requires Shape(b, cfg) && s < cfg.slices
    ensures var (x, i) := (Chosen(b, cfg), Issue(b, cfg, now));
      b.toDram[s] == (if x.Some? && x.value.slice == s then [x.value.mf] else []) + i.toDram[s]
  {}

  lemma FeedLeavesMisses(c: Channel, cfg: Config, now: int)
    requires Shape(c, cfg)
    ensures Feed(c, cfg, now).toDram == c.toDram
  {}

  lemma SlicesQueue(c: Channel, cfg: Config, arrivals: seq<seq<Mf>>, s: nat)
    requires Shape(c, cfg) && GoodQueues(arrivals, cfg) && s < cfg.slices
    ensures SlicesCycle(c, cfg, arrivals).toDram[s] == c.toDram[s] + arrivals[s]
  {}

  lemma CycleKeepsMisses(detailed: bool, cfg: Config, start: int, h: History, arrivals: seq<seq<Mf>>, s: nat)
    requires Inv(detailed, h.c, cfg, start, h.issued) && GoodQueues(arrivals, cfg) && s < cfg.slices
    ensures var h' := Next(detailed, cfg, start, h, arrivals);
      Of(h'.issued, s) + h'.c.toDram[s] == Of(h.issued, s) + h.c.toDram[s] + arrivals[s]
  {
    hide BeforeIssue, Inv, Issue, Chosen, Unblocked, Feed, SlicesCycle, Shape;
    var now := start + |h.issued|;
    var b := BeforeIssue(detailed, h.c, cfg, now);
    ArbiterUnblocked(detailed, h.c, cfg, start, h.issued);
    IssueTakesOldest(b, cfg, now, s);
    FeedLeavesMisses(Issue(b, cfg, now), cfg, now);
    SlicesQueue(ChannelCycle(detailed, h.c, cfg, now), cfg, arrivals, s);
    OfSnoc(h.issued, Chosen(b, cfg), s);
  }

  /** For every run of either model and every slice: the misses that arrived are those issued, in order, followed by
      those that still wait. */
  lemma {:induction false} ArrivedIsIssuedOrWaiting(detailed: bool, cfg: Config, start: int, work: Work, s: nat)
    requires Sane(cfg) && GoodWork(work, cfg) && s < cfg.slices
    ensures var h := Run(detailed, cfg, start, work);
      Arrived(work, s, cfg) == Of(h.issued, s) + h.c.toDram[s]
    decreases |work|
  {
    hide Next, Inv, DeliversAfter, GoodQueues, Shape;
    if work != [] {
      var n := |work| - 1;
      ArrivedIsIssuedOrWaiting(detailed, cfg, start, work[..n], s);
      ExactLatency(detailed, cfg, start, work[..n]);
      CycleKeepsMisses(detailed, cfg, start, Run(detailed, cfg, start, work[..n]), work[n], s);
    }
  }

  // ------------------------------------------------------------------
  // Every miss is delivered once, in order
  // ------------------------------------------------------------------

  lemma {:induction false} ReceivedIsIssued(delivered: seq<seq<Option<Req>>>, log: seq<Option<Req>>, lat: nat, s: nat,
                                            cfg: Config)
    requires |delivered| == |log| && s < cfg.slices && 0 < lat
    requires forall k :: 0 <= k < |delivered| ==> Row(delivered[k], cfg, At(log, k - lat))
    ensures Received(delivered, s) == Of(if lat <= |log| then log[..|log| - lat] else [], s)
    decreases |log|
  {
    hide Row;
    if log != [] {
      var n := |log| - 1;
      var (d, l) := (delivered[..n], log[..n]);
      assert forall t :: t < n ==> At(l, t) == At(log, t);
      ReceivedIsIssued(d, l, lat, s, cfg);
      RowReply(delivered[n], cfg, At(log, n - lat), s);
      if lat <= n + 1 {
        if lat <= n { assert l[..n - lat] == log[..n - lat]; }
        if n + 1 > lat {
          assert log[..n + 1 - lat] == log[..n - lat] + [log[n - lat]];
          OfSnoc(log[..n - lat], log[n - lat], s);
        }
      }
    }
  }

  lemma RowReply(row: seq<Option<Req>>, cfg: Config, x: Option<Req>, s: nat)
    requires Row(row, cfg, x) && s < cfg.slices
    ensures s < |row| && row[s] == if x.Some? && x.value.slice == s then x else None
  {}

  lemma {:induction false} OfConcat(a: seq<Option<Req>>, b: seq<Option<Req>>, s: nat)
    ensures Of(a + b, s) == Of(a, s) + Of(b, s)
  {
    if b == [] {
      assert a + b == a;
    } else {
      assert (a + b)[..|a + b| - 1] == a + b[..|b| - 1];
      OfConcat(a, b[..|b| - 1], s);
    }
  }

  lemma ReceivedInRun(detailed: bool, cfg: Config, start: int, work: Work, s: nat)
    requires Sane(cfg) && GoodWork(work, cfg) && s < cfg.slices
    ensures var (h, lat) := (Run(detailed, cfg, start, work), Latency(detailed, cfg));
      Received(h.delivered, s) == Of(if lat <= |work| then h.issued[..|work| - lat] else [], s)
  {
    hide Run, Row, Inv;
    var (h, lat) := (Run(detailed, cfg, start, work), Latency(detailed, cfg));
    ExactLatency(detailed, cfg, start, work);
    ReceivedIsIssued(h.delivered, h.issued, lat, s, cfg);
  }

  /** The requests issued in the last `Latency` cycles: inside the DRAM path. */
  function Inside(detailed: bool, cfg: Config, h: History): seq<Option<Req>> {
    if |h.issued| <= Latency(detailed, cfg) then h.issued else h.issued[|h.issued| - Latency(detailed, cfg)..]
  }

  /** For every run of either model and every slice: the misses that arrived are those it has received, in order of
      arrival, followed by those inside the DRAM path, followed by those that wait. */
  lemma EveryMissDeliveredOnce(detailed: bool, cfg: Config, start: int, work: Work, s: nat)
    requires Sane(cfg) && GoodWork(work, cfg) && s < cfg.slices
    ensures var h := Run(detailed, cfg, start, work);
      Arrived(work, s, cfg) == Received(h.delivered, s) + Of(Inside(detailed, cfg, h), s) + h.c.toDram[s]
  {
    hide Run, Inv, Of, Received, Arrived, Latency, Shape, GoodQueues;
    var (log, lat) := (Run(detailed, cfg, start, work).issued, Latency(detailed, cfg));
    ArrivedIsIssuedOrWaiting(detailed, cfg, start, work, s);
    ReceivedInRun(detailed, cfg, start, work, s);
    var n := if lat <= |log| then |log| - lat else 0;
    assert log[..0] == [] && log[0..] == log;
    OfConcat(log[..n], log[n..], s);
    assert log == log[..n] + log[n..];
  }

  // ------------------------------------------------------------------
  // When a miss is delivered
  // ------------------------------------------------------------------

  lemma {:induction false} OfGrows(log: seq<Option<Req>>, a: nat, b: nat, s: nat)
    requires a <= b <= |log|
    ensures Of(log[..a], s) <= Of(log[..b], s)
    ensures forall t :: a <= t < b && Reply(log[t], s).Some? ==> |Of(log[..a], s)| < |Of(log[..b], s)|
    decreases b - a
  {
    if a < b {
      OfGrows(log, a, b - 1, s);
      assert log[..b] == log[..b - 1] + [log[b - 1]];
      OfSnoc(log[..b - 1], log[b - 1], s);
    }
  }

  lemma {:induction false} ArrivedGrows(work: Work, k: nat, s: nat, cfg: Config)
    requires GoodWork(work, cfg) && s < cfg.slices && k <= |work|
    ensures Arrived(work[..k], s, cfg) <= Arrived(work, s, cfg)
    decreases |work|
  {
    if k == |work| {
      assert work[..k] == work;
    } else {
      var n := |work| - 1;
      assert work[..n][..k] == work[..k];
      ArrivedGrows(work[..n], k, s, cfg);
    }
  }

  /** In each round of the slices one more of the misses that wait now is issued, until none is left. */
  lemma {:induction false} IssuedByRound(detailed: bool, cfg: Config, start: int, work: Work, k: nat, j: nat, s: nat)
    requires Sane(cfg) && GoodWork(work, cfg) && s < cfg.slices && k + j * cfg.slices <= |work|
    ensures k <= |work| && j * cfg.slices >= 0
    ensures var log := Run(detailed, cfg, start, work).issued;
      var due := |Of(log[..k], s)| + j;
      |Of(log[..k + j * cfg.slices], s)| >= if due <= |Arrived(work[..k], s, cfg)| then due
                                            else |Arrived(work[..k], s, cfg)|
    decreases j
  {
    hide Run, Inv, Distance, GoodQueues, Of, Arrived, Shape;
    var log := Run(detailed, cfg, start, work).issued;
    if j == 0 {
      ArrivedIsIssuedOrWaiting(detailed, cfg, start, work[..k], s);
      IssuedPrefix(detailed, cfg, start, work, k);
    } else {
      assert j * cfg.slices == (j - 1) * cfg.slices + cfg.slices;
      assert (j - 1) * cfg.slices >= 0;
      IssuedByRound(detailed, cfg, start, work, k, j - 1, s);
      var (a, b) := (k + (j - 1) * cfg.slices, k + j * cfg.slices);
      OfGrows(log, a, b, s);
      if |Of(log[..a], s)| < |Arrived(work[..k], s, cfg)| { OneMoreIssued(detailed, cfg, start, work, k, a, s); }
    }
  }

  lemma QueuePerSlice(c: Channel, cfg: Config)
    requires Shape(c, cfg)
    ensures |c.toDram| == cfg.slices
  {}

  lemma OneMoreIssued(detailed: bool, cfg: Config, start: int, work: Work, k: nat, a: nat, s: nat)
    requires Sane(cfg) && GoodWork(work, cfg) && s < cfg.slices && k <= a && a + cfg.slices <= |work|
    requires var log := Run(detailed, cfg, start, work).issued;
      |Of(log[..a], s)| < |Arrived(work[..k], s, cfg)|
    ensures var log := Run(detailed, cfg, start, work).issued;
      |Of(log[..a], s)| < |Of(log[..a + cfg.slices], s)|
  {
    hide Run, Inv, GoodQueues, Of, Arrived, Shape, Distance;
    var log := Run(detailed, cfg, start, work).issued;
    var c := Run(detailed, cfg, start, work[..a]).c;
    ArrivedIsIssuedOrWaiting(detailed, cfg, start, work[..a], s);
    IssuedPrefix(detailed, cfg, start, work, a);
    assert work[..a][..k] == work[..k];
    ArrivedGrows(work[..a], k, s, cfg);
    QueuePerSlice(c, cfg);
    assert c.toDram[s] != [];
    ServedWithinOneRound(detailed, cfg, start, work, a, s);
    var t :| a <= t <= a + Distance(c, cfg, s) && Reply(log[t], s).Some?;
    OfGrows(log, a, a + cfg.slices, s);
  }

  /** A miss with d misses of its slice ahead of it is delivered within d + 1 rounds of the slices and the latency of
      the model: of what has arrived at slice s after k cycles, nothing is left to deliver after as many rounds as
      misses wait then, and the latency. */
  lemma EveryMissDeliveredInTime(detailed: bool, cfg: Config, start: int, work: Work, k: nat, s: nat, j: nat)
    requires Sane(cfg) && GoodWork(work, cfg) && s < cfg.slices && k <= |work|
    requires k + j * cfg.slices + Latency(detailed, cfg) <= |work|
    ensures j * cfg.slices >= 0
    ensures var (h, was) := (Run(detailed, cfg, start, work), Run(detailed, cfg, start, work[..k]));
      && Received(h.delivered, s) <= Arrived(work, s, cfg)
      && |Received(h.delivered, s)| >= |Arrived(work[..k], s, cfg)|
                                       - if j <= |was.c.toDram[s]| then |was.c.toDram[s]| - j else 0
  {
    hide Run, Inv, GoodQueues, Of, Arrived, Received, Shape, Latency, Inside;
    var (log, lat) := (Run(detailed, cfg, start, work).issued, Latency(detailed, cfg));
    assert j * cfg.slices >= 0;
    EveryMissDeliveredOnce(detailed, cfg, start, work, s);
    ReceivedInRun(detailed, cfg, start, work, s);
    IssuedByRound(detailed, cfg, start, work, k, j, s);
    ArrivedIsIssuedOrWaiting(detailed, cfg, start, work[..k], s);
    IssuedPrefix(detailed, cfg, start, work, k);
    OfGrows(log, k + j * cfg.slices, |log| - lat, s);
  }
}
