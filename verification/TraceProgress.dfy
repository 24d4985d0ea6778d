/** Why no push waits for ever on the trace channel: every step that is not a turn of a spin loop lowers a measure. */
module TraceProgress {
  import opened Basics
  import opened TraceChannel

  predicate Starts(st: Step) { st.StartPush? || st.StartFlush? }

  // ------------------------------------------------------------------
  // The measure
  // ------------------------------------------------------------------

  /** What is counted of the warps: packets without a claim that fits, or steps left in the present phase. */
  datatype Count = Unclaimed | StepsLeft(open: bool)

  function BackCounts(back: Option<Packet>, c: Count): nat { if c.Unclaimed? && back.Some? then 1 else 0 }

  function Weight(p: Pc, size: nat, c: Count): nat {
    match p
    case Idle => 0
    case Claim(_) => if c.Unclaimed? then 1 else if c.open then 2 else 5
    case Check(pkt, ptr, _) =>
      if ptr + |pkt| <= size then (if c.Unclaimed? then 0 else |pkt| + 2) else (if c.Unclaimed? then 1 else 4)
    case Copy(pkt, _, k, _) => if c.Unclaimed? then 0 else (if k < |pkt| then |pkt| - k else 0) + 1
    case WaitHead(_) => if c.Unclaimed? then 1 else 3
    case WaitTail(_, _) => if c.Unclaimed? then 1 else 3
    case ReadTail(back) => if c.Unclaimed? then BackCounts(back, c) else 2
    case Ring(_, back) => if c.Unclaimed? then BackCounts(back, c) else 1
    case WaitBell(back) => if c.Unclaimed? then BackCounts(back, c) else 3
    case ResetTail(back) => if c.Unclaimed? then BackCounts(back, c) else 2
    case ResetHead(back) => if c.Unclaimed? then BackCounts(back, c) else 1
  }

  function Total(warps: seq<Pc>, size: nat, c: Count): nat {
    if warps == [] then 0 else Weight(warps[0], size, c) + Total(warps[1..], size, c)
  }

  lemma {:induction false} TotalUpdate(warps: seq<Pc>, w: nat, p: Pc, size: nat, c: Count)
    requires w < |warps|
    ensures Total(warps[w := p], size, c) + Weight(warps[w], size, c) == Total(warps, size, c) + Weight(p, size, c)
  {
    if w == 0 {
      assert warps[0 := p][1..] == warps[1..];
    } else {
      assert warps[w := p][1..] == warps[1..][w - 1 := p];
      TotalUpdate(warps[1..], w - 1, p, size, c);
    }
  }

  /** Packets that still need a claim. */
  function Claims(s: State): nat { Total(s.warps, Size(s), Unclaimed) }

  /** How far the filling is from an empty, open buffer. */
  function Stage(s: State): nat {
    match s.phase
    case Open => if s.epoch == [] then 0 else 4
    case Closing(_) => 3
    case Draining(_) => 2
    case Resetting(_) => 1
  }

  function HostWork(s: State): nat {
    3 * s.bell + match s.host case Waiting => 2 case Got(_, _) => 1 case Copied(_, _) => 0
  }

  /** Steps left before a claim fits or the stage changes. */
  function Work(s: State): nat { Total(s.warps, Size(s), StepsLeft(s.phase.Open?)) + HostWork(s) }

  predicate Falls(s: State, t: State) {
    || Claims(t) < Claims(s)
    || (Claims(t) == Claims(s) && Stage(t) < Stage(s))
    || (Claims(t) == Claims(s) && Stage(t) == Stage(s) && Work(t) < Work(s))
  }

  // ------------------------------------------------------------------
  // Every step
  // ------------------------------------------------------------------

  lemma WarpKnows(s: State, w: nat)
    requires Inv(s) && w < |s.warps|
    ensures WarpInv(s, w)
  {}

  /** While a filling is being flushed the head is beyond the buffer, so nobody starts over. */
  lemma OpenOrFull(s: State, w: nat)
    requires Inv(s) && w < |s.warps| && !s.warps[w].Idle? && !FinalFlush(s.warps[w])
    requires s.warps[w].Claim? || s.warps[w].WaitHead?
    ensures s.phase.Open? || Size(s) < s.head
    ensures s.phase.Open? ==> s.head == End(s.epoch) <= Size(s) && (s.epoch != [] <==> 0 < s.head)
  {
    hide Bytes, DoneBytes, DonePackets, Packets, Holds, Tiled, End, WarpInv, RangeInv;
    DoneBounded(s.epoch, Size(s));
    NotEmpty(s.epoch, Size(s));
  }

  lemma ClaimFalls(s: State, st: Step)
    requires Inv(s) && Enabled(s, st) && (st.AddHead? || st.SpinHead?)
    ensures Apply(s, st) == s || Falls(s, Apply(s, st))
  {
    hide Inv, Total, End;
    OpenOrFull(s, st.w);
    WarpKnows(s, st.w);
    var t := Apply(s, st);
    if t != s {
      forall c { TotalUpdate(s.warps, st.w, t.warps[st.w], Size(s), c); }
    }
  }

  lemma CopyFalls(s: State, st: Step)
    requires Inv(s) && Enabled(s, st) && (st.Test? || st.CopyByte? || st.AddTail?)
    ensures Falls(s, Apply(s, st))
  {
    hide Inv, Total;
    WarpKnows(s, st.w);
    var t := Apply(s, st);
    forall c { TotalUpdate(s.warps, st.w, t.warps[st.w], Size(s), c); }
  }

  /** With a tail of zero the flush at the end of a kernel finds nothing to hand over. */
  lemma NothingToFlush(s: State, w: nat)
    requires Inv(s) && w < |s.warps| && s.warps[w].ReadTail? && s.tail == 0
    ensures s.warps[w].back.None? && s.epoch == []
  {
    hide Bytes, DonePackets, Packets, Holds, Tiled, End, DoneBytes, RangeInv;
    WarpKnows(s, w);
    DoneBounded(s.epoch, Size(s));
    NotEmpty(s.epoch, Size(s));
  }

  lemma FlushPhase(s: State, w: nat)
    requires Inv(s) && w < |s.warps|
    ensures s.warps[w].ReadTail? || s.warps[w].Ring? ==> s.phase == Closing(w)
    ensures s.warps[w].WaitBell? && s.bell == 0 ==> s.phase == Resetting(w)
    ensures s.warps[w].ResetTail? || s.warps[w].ResetHead? ==> s.phase == Resetting(w)
    ensures s.phase.Resetting? ==> s.epoch == []
  {
    hide Bytes, DoneBytes, DonePackets, Packets, Holds, Tiled, End, RangeInv;
    WarpKnows(s, w);
  }

  lemma FlushFalls(s: State, st: Step)
    requires Inv(s) && Enabled(s, st)
    requires st.SpinTail? || st.LoadTail? || st.RingBell? || st.SpinBell? || st.ClearTail? || st.ClearHead?
    ensures Apply(s, st) == s || Falls(s, Apply(s, st))
  {
    hide Inv, Total;
    FlushPhase(s, st.w);
    if st.LoadTail? && s.tail == 0 { NothingToFlush(s, st.w); }
    var t := Apply(s, st);
    if t != s {
      forall c { TotalUpdate(s.warps, st.w, t.warps[st.w], Size(s), c); }
    }
  }

  lemma HostFalls(s: State, st: Step)
    requires Inv(s) && Enabled(s, st) && HostStep(st)
    ensures Apply(s, st) == s || Falls(s, Apply(s, st))
  {
    hide Bytes, DoneBytes, DonePackets, Packets, Holds, Tiled, End, WarpInv, RangeInv, Total;
  }

  /** Every step other than the start of a push or flush changes nothing, as one more turn of a spin loop does, or
      lowers the measure. */
  lemma StepFalls(s: State, st: Step)
    requires Inv(s) && Enabled(s, st) && !Starts(st)
    ensures Apply(s, st) == s || Falls(s, Apply(s, st))
  {
    hide Inv, Falls, Enabled, Apply;
    match st
    case AddHead(_) => ClaimFalls(s, st);
    case SpinHead(_) => ClaimFalls(s, st);
    case Test(_) => CopyFalls(s, st);
    case CopyByte(_) => CopyFalls(s, st);
    case AddTail(_) => CopyFalls(s, st);
    case Poll(_) => HostFalls(s, st);
    case HostCopy => HostFalls(s, st);
    case HostRelease => HostFalls(s, st);
    case _ => FlushFalls(s, st);
  }

  /** No interleaving goes on for ever: at some point its next step starts a push or a flush, or is a turn of a spin
      loop in vain. */
  lemma NoEndlessRun(states: nat -> State, steps: nat -> Step)
    requires Inv(states(0))
    requires forall n: nat :: Enabled(states(n), steps(n)) && states(n + 1) == Apply(states(n), steps(n))
    ensures exists n: nat :: Starts(steps(n)) || states(n + 1) == states(n)
  {
    hide Inv, Enabled, Apply, Falls, Starts;
    if forall n: nat :: !Starts(steps(n)) && states(n + 1) != states(n) {
      forall n: nat ensures Falls(states(n), states(n + 1)) {
        AlwaysInv(states, steps, n);
        StepFalls(states(n), steps(n));
      }
      NoEndlessFall(states, 0);
    }
  }

  lemma {:induction false} AlwaysInv(states: nat -> State, steps: nat -> Step, n: nat)
    requires Inv(states(0))
    requires forall i: nat :: Enabled(states(i), steps(i)) && states(i + 1) == Apply(states(i), steps(i))
    ensures Inv(states(n))
  {
    hide Inv, Enabled, Apply;
    if n > 0 {
      AlwaysInv(states, steps, n - 1);
      assert states(n - 1 + 1) == Apply(states(n - 1), steps(n - 1));
      StepKeepsInv(states(n - 1), steps(n - 1));
    }
  }

  lemma NoEndlessFall(states: nat -> State, n: nat)
    requires forall i: nat :: Falls(states(i), states(i + 1))
    ensures false
    decreases Claims(states(n)), Stage(states(n)), Work(states(n))
  {
    hide Claims, Stage, Work;
    assert Falls(states(n), states(n + 1));
    NoEndlessFall(states, n + 1);
  }

  // ------------------------------------------------------------------
  // Every push can return
  // ------------------------------------------------------------------

  function PacketOf(p: Pc): Option<Packet> {
    match p
    case Idle => None
    case Claim(pkt) => Some(pkt)
    case Check(pkt, _, _) => Some(pkt)
    case Copy(pkt, _, _, _) => Some(pkt)
    case WaitHead(pkt) => Some(pkt)
    case WaitTail(pkt, _) => Some(pkt)
    case ReadTail(back) => back
    case Ring(_, back) => back
    case WaitBell(back) => back
    case ResetTail(back) => back
    case ResetHead(back) => back
  }

  function Bag(o: Option<Packet>): multiset<Packet> {
    match o
    case None => multiset{}
    case Some(pkt) => multiset{pkt}
  }

  /** The packets of the pushes in progress. */
  function InProgress(warps: seq<Pc>): multiset<Packet> {
    if warps == [] then multiset{} else Bag(PacketOf(warps[0])) + InProgress(warps[1..])
  }

  lemma {:induction false} ProgressUpdate(warps: seq<Pc>, w: nat, p: Pc, x: Packet)
    requires w < |warps|
    ensures InProgress(warps[w := p])[x] + Bag(PacketOf(warps[w]))[x] == InProgress(warps)[x] + Bag(PacketOf(p))[x]
  {
    hide PacketOf, Bag;
    if w == 0 {
      assert warps[0 := p][1..] == warps[1..];
    } else {
      assert warps[w := p][1..] == warps[1..][w - 1 := p];
      ProgressUpdate(warps[1..], w - 1, p, x);
    }
  }

  lemma {:induction false} IdleHoldNothing(warps: seq<Pc>)
    requires forall w | 0 <= w < |warps| :: warps[w].Idle?
    ensures InProgress(warps) == multiset{}
  {
    if warps != [] { IdleHoldNothing(warps[1..]); }
  }

  /** A step of a warp leaves its packet with it, or counts it as pushed. */
  lemma PacketAfter(s: State, st: Step)
    requires Enabled(s, st) && !Starts(st) && !HostStep(st)
    ensures var t := Apply(s, st);
      && |t.warps| == |s.warps| && t.warps == s.warps[st.w := t.warps[st.w]]
      && if st.AddTail? then
           PacketOf(t.warps[st.w]) == None && t.completed == s.completed + Bag(PacketOf(s.warps[st.w]))
         else
           PacketOf(t.warps[st.w]) == PacketOf(s.warps[st.w]) && t.completed == s.completed
  {
    hide Packets;
  }

  /** A push in progress stays in progress until it returns. */
  lemma StepKeepsPushes(s: State, st: Step)
    requires Enabled(s, st) && !Starts(st)
    ensures Apply(s, st).completed + InProgress(Apply(s, st).warps) == s.completed + InProgress(s.warps)
  {
    hide InProgress, Packets, PacketOf, Enabled, Apply, Starts;
    var t := Apply(s, st);
    if HostStep(st) {
      HostLeavesPushes(s, st);
    } else {
      WarpExists(s, st);
      PacketAfter(s, st);
      forall x: Packet ensures t.completed[x] + InProgress(t.warps)[x] == s.completed[x] + InProgress(s.warps)[x] {
        ProgressUpdate(s.warps, st.w, t.warps[st.w], x);
      }
    }
  }

  lemma WarpExists(s: State, st: Step)
    requires Enabled(s, st) && !HostStep(st)
    ensures st.w < |s.warps|
  {}

  lemma HostLeavesPushes(s: State, st: Step)
    requires Enabled(s, st) && HostStep(st)
    ensures Apply(s, st).completed == s.completed && Apply(s, st).warps == s.warps
  {
    hide Packets;
  }

  predicate NoStarts(steps: seq<Step>) { forall k :: 0 <= k < |steps| ==> !Starts(steps[k]) }

  lemma Finish(s: State) returns (steps: seq<Step>)
    requires Inv(s)
    ensures EnabledAll(s, steps) && NoStarts(steps) && Inv(Run(s, steps))
    ensures forall w | 0 <= w < |Run(s, steps).warps| :: Run(s, steps).warps[w].Idle?
    ensures Run(s, steps).completed == s.completed + InProgress(s.warps)
    decreases Claims(s), Stage(s), Work(s)
  {
    hide Inv, Enabled, Apply, Claims, Stage, Work, InProgress;
    steps := [];
    if w :| 0 <= w < |s.warps| && !s.warps[w].Idle? {
      var st := NoDeadlock(s, w);
      StepFalls(s, st);
      StepKeepsInv(s, st);
      StepKeepsPushes(s, st);
      var rest := Finish(Apply(s, st));
      steps := [st] + rest;
      assert steps[1..] == rest;
    } else {
      IdleHoldNothing(s.warps);
    }
  }

  /** From every reachable state the pushes in progress, and a flush that may be, can all be brought to their return
      without a new one: then exactly their packets have been pushed in addition. */
  lemma EveryPushCanReturn(s: State, before: seq<Step>)
    requires Init(s) && EnabledAll(s, before)
    ensures var t := Run(s, before);
      exists steps :: EnabledAll(t, steps) && NoStarts(steps)
        && (forall w | 0 <= w < |Run(t, steps).warps| :: Run(t, steps).warps[w].Idle?)
        && Run(t, steps).completed == t.completed + InProgress(t.warps)
  {
    hide Inv, EnabledAll, Run, InProgress, NoStarts;
    InitInv(s);
    Reachable(s, before);
    var steps := Finish(Run(s, before));
  }
}
