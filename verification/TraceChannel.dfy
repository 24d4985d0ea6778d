/** The GPU-to-host trace channel: any number of warps push packets into one buffer with two atomic
    counters; the first warp that overflows it hands the buffer to the host through a doorbell.
    Steps of different warps and of the host interleave freely (sequential consistency). */
module TraceChannel {
  import opened Basics

  newtype Byte = b: int | 0 <= b < 256
  type Packet = seq<Byte>

  /** Where a warp is in `push` or `flush`. `back` is the packet a push has to retry after the
      flush; it is absent in the flush that ends a kernel. `slot` numbers the warp's claim in the
      current filling of the buffer: bookkeeping that no step decides on. */
  datatype Pc =
    | Idle
    | Claim(pkt: Packet)
    | Check(pkt: Packet, ptr: nat, slot: nat)
    | Copy(pkt: Packet, ptr: nat, k: nat, slot: nat)
    | WaitHead(pkt: Packet)
    | WaitTail(pkt: Packet, ptr: nat)
    | ReadTail(back: Option<Packet>)
    | Ring(nbytes: nat, back: Option<Packet>)
    | WaitBell(back: Option<Packet>)
    | ResetTail(back: Option<Packet>)
    | ResetHead(back: Option<Packet>)

  datatype Host = Waiting | Got(total: nat, n: nat) | Copied(total: nat, n: nat)

  /** A claim that fits: bytes off .. off+|pkt| of the buffer belong to warp w. */
  datatype Range = Range(w: nat, pkt: Packet, off: nat, done: bool)

  /** Life of one filling of the buffer; `f` is the warp that flushes it. */
  datatype Phase = Open | Closing(f: nat) | Draining(f: nat) | Resetting(f: nat)

  datatype State = State(
    // shared memory
    buf: seq<Byte>, head: nat, tail: nat, bell: nat,
    // private state of the warps and of the host
    warps: seq<Pc>, host: Host, readHead: nat, received: seq<Byte>,
    // history: claims of the current filling, packets handed over before it, pushes that returned
    epoch: seq<Range>, flushed: seq<Packet>, completed: multiset<Packet>, phase: Phase)

  function Size(s: State): nat { |s.buf| }

  /** The buffer holds at least one packet, and no packet is empty. */
  predicate GoodPacket(p: Packet, size: nat) { 1 <= |p| <= size }

  // ------------------------------------------------------------------
  // Steps
  // ------------------------------------------------------------------

  datatype Step =
    | StartPush(w: nat, pkt: Packet) | StartFlush(w: nat)
    | AddHead(w: nat) | Test(w: nat) | CopyByte(w: nat) | AddTail(w: nat)
    | SpinHead(w: nat) | SpinTail(w: nat)
    | LoadTail(w: nat) | RingBell(w: nat) | SpinBell(w: nat) | ClearTail(w: nat) | ClearHead(w: nat)
    | Poll(max: nat) | HostCopy | HostRelease

  predicate HostStep(st: Step) { st.Poll? || st.HostCopy? || st.HostRelease? }

  predicate FinalFlush(p: Pc) {
    (p.ReadTail? || p.Ring? || p.WaitBell? || p.ResetTail? || p.ResetHead?) && p.back.None?
  }

  /** The flush that ends a kernel runs alone: it starts when no push is in progress, and no push
      starts before it has returned. Everything else may happen at any time. */
  predicate Enabled(s: State, st: Step) {
    if HostStep(st) then
      match st
      case Poll(max) => s.host.Waiting? && 0 < max
      case HostCopy => s.host.Got? && s.readHead + s.host.n <= Size(s)
      case HostRelease => s.host.Copied? && s.host.n <= s.host.total
    else
      st.w < |s.warps| &&
      var p := s.warps[st.w];
      match st
      case StartPush(w, pkt) =>
        p.Idle? && GoodPacket(pkt, Size(s)) && forall v :: 0 <= v < |s.warps| ==> !FinalFlush(s.warps[v])
      case StartFlush(w) => forall v :: 0 <= v < |s.warps| ==> s.warps[v].Idle?
      case AddHead(w) => p.Claim?
      case Test(w) => p.Check?
      case CopyByte(w) => p.Copy? && p.k < |p.pkt| && p.ptr + p.k < Size(s)
      case AddTail(w) => p.Copy? && p.k == |p.pkt|
      case SpinHead(w) => p.WaitHead?
      case SpinTail(w) => p.WaitTail?
      case LoadTail(w) => p.ReadTail?
      case RingBell(w) => p.Ring?
      case SpinBell(w) => p.WaitBell?
      case ClearTail(w) => p.ResetTail?
      case ClearHead(w) => p.ResetHead?
      case _ => false
  }

  function Go(s: State, w: nat, p: Pc): State
    requires w < |s.warps|
  {
    s.(warps := s.warps[w := p])
  }

  function Resume(back: Option<Packet>): Pc {
    match back
    case None => Idle
    case Some(pkt) => Claim(pkt)
  }

  function Apply(s: State, st: Step): State
    requires Enabled(s, st)
  {
    match st
    case StartPush(w, pkt) => Go(s, w, Claim(pkt))
    case StartFlush(w) => Go(s, w, ReadTail(None)).(phase := Closing(w))
    case AddHead(w) =>
      var pkt := s.warps[w].pkt;
      var s1 := Go(s, w, Check(pkt, s.head, |s.epoch|)).(head := s.head + |pkt|);
      if s.head + |pkt| <= Size(s) then s1.(epoch := s.epoch + [Range(w, pkt, s.head, false)])
      else if s.head <= Size(s) then s1.(phase := Closing(w))
      else s1
    case Test(w) =>
      var Check(pkt, ptr, slot) := s.warps[w];
      if Size(s) < ptr + |pkt| then
        if ptr <= Size(s) then Go(s, w, WaitTail(pkt, ptr)) else Go(s, w, WaitHead(pkt))
      else Go(s, w, Copy(pkt, ptr, 0, slot))
    case CopyByte(w) =>
      var Copy(pkt, ptr, k, slot) := s.warps[w];
      Go(s, w, Copy(pkt, ptr, k + 1, slot)).(buf := s.buf[ptr + k := pkt[k]])
    case AddTail(w) =>
      var Copy(pkt, ptr, k, slot) := s.warps[w];
      Go(s, w, Idle).(tail := s.tail + |pkt|,
                      epoch := if slot < |s.epoch| then s.epoch[slot := s.epoch[slot].(done := true)] else s.epoch,
                      completed := s.completed + multiset{pkt})
    case SpinHead(w) => if Size(s) < s.head then s else Go(s, w, Claim(s.warps[w].pkt))
    case SpinTail(w) => if s.tail != s.warps[w].ptr then s else Go(s, w, ReadTail(Some(s.warps[w].pkt)))
    case LoadTail(w) =>
      if s.tail == 0 then Go(s, w, Resume(s.warps[w].back)).(phase := Open)
      else Go(s, w, Ring(s.tail, s.warps[w].back))
    case RingBell(w) =>
      Go(s, w, WaitBell(s.warps[w].back)).(bell := s.warps[w].nbytes, phase := Draining(w))
    case SpinBell(w) => if s.bell != 0 then s else Go(s, w, ResetTail(s.warps[w].back))
    case ClearTail(w) => Go(s, w, ResetHead(s.warps[w].back)).(tail := 0)
    case ClearHead(w) => Go(s, w, Resume(s.warps[w].back)).(head := 0, phase := Open)
    case Poll(max) =>
      if s.bell == 0 then s else s.(host := Got(s.bell, if max < s.bell then max else s.bell))
    case HostCopy =>
      s.(host := Copied(s.host.total, s.host.n),
         received := s.received + s.buf[s.readHead .. s.readHead + s.host.n])
    case HostRelease =>
      var left := s.host.total - s.host.n;
      var s1 := s.(host := Waiting, bell := left, readHead := if 0 < left then s.readHead + s.host.n else 0);
      if 0 < left || !s.phase.Draining? then s1
      else s1.(flushed := s.flushed + Packets(s.epoch), epoch := [], phase := Resetting(s.phase.f))
  }

  predicate Init(s: State) {
    && s.head == s.tail == s.bell == s.readHead == 0
    && s.host == Waiting && s.received == [] && s.epoch == [] && s.flushed == [] && s.phase == Open
    && s.completed == multiset{}
    && forall w :: 0 <= w < |s.warps| ==> s.warps[w] == Idle
  }

  predicate EnabledAll(s: State, steps: seq<Step>)
    decreases |steps|
  {
    steps == [] || (Enabled(s, steps[0]) && EnabledAll(Apply(s, steps[0]), steps[1..]))
  }

  function Run(s: State, steps: seq<Step>): State
    requires EnabledAll(s, steps)
    decreases |steps|
  {
    if steps == [] then s else Run(Apply(s, steps[0]), steps[1..])
  }

  // ------------------------------------------------------------------
  // Packets, bytes and counters of a filling
  // ------------------------------------------------------------------

  function Packets(e: seq<Range>): (r: seq<Packet>)
    ensures |r| == |e| && forall i :: 0 <= i < |e| ==> r[i] == e[i].pkt
  {
    if e == [] then [] else Packets(e[..|e|-1]) + [e[|e|-1].pkt]
  }

  function Bytes(ps: seq<Packet>): seq<Byte> {
    if ps == [] then [] else Bytes(ps[..|ps|-1]) + ps[|ps|-1]
  }

  /** First byte that no claim of the filling covers. */
  function End(e: seq<Range>): nat {
    if e == [] then 0 else e[|e|-1].off + |e[|e|-1].pkt|
  }

  function DoneBytes(e: seq<Range>): nat {
    if e == [] then 0 else DoneBytes(e[..|e|-1]) + if e[|e|-1].done then |e[|e|-1].pkt| else 0
  }

  function DonePackets(e: seq<Range>): multiset<Packet> {
    if e == [] then multiset{}
    else DonePackets(e[..|e|-1]) + if e[|e|-1].done then multiset{e[|e|-1].pkt} else multiset{}
  }

  predicate AllDone(e: seq<Range>) { forall i :: 0 <= i < |e| ==> e[i].done }

  /** The ranges tile the buffer from 0 on, without gap or overlap. */
  predicate Tiled(e: seq<Range>, size: nat) {
    && (e != [] ==> e[0].off == 0)
    && (forall i :: 0 <= i < |e| ==> 1 <= |e[i].pkt| && e[i].off + |e[i].pkt| <= size)
    && (forall i :: 0 <= i < |e| - 1 ==> e[i + 1].off == e[i].off + |e[i].pkt|)
    && (forall i, j :: 0 <= i < j < |e| ==> e[i].off + |e[i].pkt| <= e[j].off)
  }

  lemma {:induction false} MarkDone(e: seq<Range>, i: nat)
    requires i < |e| && !e[i].done
    ensures var e' := e[i := e[i].(done := true)];
      DoneBytes(e') == DoneBytes(e) + |e[i].pkt| && DonePackets(e') == DonePackets(e) + multiset{e[i].pkt}
  {
    var e' := e[i := e[i].(done := true)];
    var m := |e| - 1;
    if i == m {
      assert e'[..m] == e[..m];
    } else {
      MarkDone(e[..m], i);
      assert e'[..m] == e[..m][i := e[i].(done := true)];
    }
  }

  lemma {:induction false} DoneBounded(e: seq<Range>, size: nat)
    requires Tiled(e, size)
    ensures DoneBytes(e) <= End(e) <= size
    ensures DoneBytes(e) == End(e) <==> AllDone(e)
  {
    if e != [] {
      var front := e[..|e|-1];
      DoneBounded(front, size);
      assert End(front) == e[|e|-1].off;
      assert AllDone(e) <==> AllDone(front) && e[|e|-1].done;
    }
  }

  lemma {:induction false} AllDonePackets(e: seq<Range>)
    requires AllDone(e)
    ensures DonePackets(e) == multiset(Packets(e))
  {
    if e != [] {
      AllDonePackets(e[..|e|-1]);
      assert Packets(e) == Packets(e[..|e|-1]) + [e[|e|-1].pkt];
    }
  }

  lemma {:induction false} BytesConcat(a: seq<Packet>, b: seq<Packet>)
    ensures Bytes(a + b) == Bytes(a) + Bytes(b)
  {
    if b == [] {
      assert a + b == a;
    } else {
      var m := |b| - 1;
      BytesConcat(a, b[..m]);
      assert (a + b)[..|a + b| - 1] == a + b[..m];
    }
  }

  /** What the buffer must contain once a claim's bytes are written. */
  predicate Holds(buf: seq<Byte>, r: Range) {
    r.off + |r.pkt| <= |buf| && buf[r.off .. r.off + |r.pkt|] == r.pkt
  }

  lemma FrontTiled(e: seq<Range>, size: nat)
    requires e != [] && Tiled(e, size)
    ensures Tiled(e[..|e|-1], size) && End(e[..|e|-1]) == e[|e|-1].off
  {}

  lemma Snoc(e: seq<Range>)
    requires e != []
    ensures Bytes(Packets(e)) == Bytes(Packets(e[..|e|-1])) + e[|e|-1].pkt
  {
    assert Packets(e)[..|e|-1] == Packets(e[..|e|-1]);
  }

  lemma SliceGrows(buf: seq<Byte>, m: nat, p: Packet)
    requires m + |p| <= |buf| && buf[m .. m + |p|] == p
    ensures buf[..m + |p|] == buf[..m] + p
  {}

  lemma {:induction false} BufferIsConcatenation(buf: seq<Byte>, e: seq<Range>)
    requires Tiled(e, |buf|) && forall i :: 0 <= i < |e| ==> Holds(buf, e[i])
    ensures End(e) <= |buf| && buf[..End(e)] == Bytes(Packets(e))
  {
    hide Tiled, Bytes, Packets;
    if e == [] {
      assert Bytes(Packets([])) == [] by { NoBytes(); }
    } else {
      var last := e[|e|-1];
      FrontTiled(e, |buf|);
      BufferIsConcatenation(buf, e[..|e|-1]);
      Snoc(e);
      assert Holds(buf, last);
      SliceGrows(buf, last.off, last.pkt);
    }
  }

  lemma NoBytes()
    ensures Bytes(Packets([])) == []
  {}

  // ------------------------------------------------------------------
  // The invariant
  // ------------------------------------------------------------------

  predicate Owns(s: State, w: nat, pkt: Packet, ptr: nat, slot: nat) {
    slot < |s.epoch| && s.epoch[slot] == Range(w, pkt, ptr, false)
  }

  predicate GoodBack(back: Option<Packet>, size: nat) {
    back.Some? ==> GoodPacket(back.value, size)
  }

  /** What each warp may rely on at the point where it is. */
  predicate WarpInv(s: State, w: nat)
    requires w < |s.warps|
  {
    match s.warps[w]
    case Idle => true
    case Claim(pkt) => GoodPacket(pkt, Size(s))
    case WaitHead(pkt) => GoodPacket(pkt, Size(s))
    case Check(pkt, ptr, slot) =>
      && GoodPacket(pkt, Size(s))
      && (ptr + |pkt| <= Size(s) ==> Owns(s, w, pkt, ptr, slot))
      && (ptr <= Size(s) < ptr + |pkt| ==> s.phase == Closing(w) && ptr == End(s.epoch))
    case Copy(pkt, ptr, k, slot) =>
      && GoodPacket(pkt, Size(s)) && k <= |pkt| && Owns(s, w, pkt, ptr, slot)
      && ptr + |pkt| <= Size(s) && s.buf[ptr .. ptr + k] == pkt[..k]
    case WaitTail(pkt, ptr) =>
      GoodPacket(pkt, Size(s)) && s.phase == Closing(w) && 0 < ptr == End(s.epoch)
    case ReadTail(back) =>
      GoodBack(back, Size(s)) && s.phase == Closing(w) && AllDone(s.epoch) && (back.Some? ==> s.epoch != [])
    case Ring(n, back) =>
      GoodBack(back, Size(s)) && s.phase == Closing(w) && AllDone(s.epoch) && 0 < n == End(s.epoch)
    case WaitBell(back) => GoodBack(back, Size(s)) && (s.phase == Draining(w) || s.phase == Resetting(w))
    case ResetTail(back) => GoodBack(back, Size(s)) && s.phase == Resetting(w)
    case ResetHead(back) => GoodBack(back, Size(s)) && s.phase == Resetting(w) && s.tail == 0
  }

  /** Every claim that is not done is being worked on by its warp; every done one is in the buffer. */
  predicate RangeInv(s: State, i: nat)
    requires i < |s.epoch|
  {
    var r := s.epoch[i];
    if r.done then Holds(s.buf, r)
    else r.w < |s.warps| && (s.warps[r.w].Check? || s.warps[r.w].Copy?)
         && s.warps[r.w].slot == i && s.warps[r.w].ptr == r.off && s.warps[r.w].pkt == r.pkt
  }

  predicate HostQuiet(s: State) { s.bell == 0 && s.host.Waiting? && s.readHead == 0 }

  /** While warp f flushes, no claim can fit: the head is past the end, or f is alone. */
  predicate Shut(s: State, f: nat)
    requires f < |s.warps|
  {
    Size(s) < s.head || FinalFlush(s.warps[f])
  }

  predicate PhaseInv(s: State) {
    match s.phase
    case Open => HostQuiet(s) && s.head == End(s.epoch)
    case Closing(f) =>
      && HostQuiet(s) && f < |s.warps| && Shut(s, f)
      && (FinalFlush(s.warps[f]) ==> s.head == End(s.epoch))
      && (s.warps[f].WaitTail? || s.warps[f].ReadTail? || s.warps[f].Ring?
          || (s.warps[f].Check? && s.warps[f].ptr <= Size(s) < s.warps[f].ptr + |s.warps[f].pkt|))
    case Draining(f) =>
      && f < |s.warps| && Shut(s, f) && s.warps[f].WaitBell?
      && AllDone(s.epoch) && 0 < s.bell && s.readHead + s.bell == End(s.epoch)
      && (!s.host.Waiting? ==> s.host.total == s.bell && 1 <= s.host.n <= s.host.total)
    case Resetting(f) =>
      && HostQuiet(s) && f < |s.warps| && Shut(s, f) && s.epoch == []
      && (s.warps[f].WaitBell? || s.warps[f].ResetTail? || s.warps[f].ResetHead?)
  }

  predicate AloneInv(s: State) {
    forall u, v :: 0 <= u < |s.warps| && 0 <= v < |s.warps| && u != v && FinalFlush(s.warps[u]) ==> s.warps[v].Idle?
  }

  /** Bytes of the current filling that the host already has. */
  function Taken(s: State): nat {
    if s.phase.Draining? then s.readHead + (if s.host.Copied? then s.host.n else 0) else 0
  }

  predicate StreamInv(s: State) {
    && Taken(s) <= Size(s) && s.received == Bytes(s.flushed) + s.buf[..Taken(s)]
    && s.completed == multiset(s.flushed) + DonePackets(s.epoch)
    && (!s.phase.Resetting? ==> s.tail == DoneBytes(s.epoch))
  }

  predicate WarpsInv(s: State) {
    forall w {:trigger WarpInv(s, w)} {:trigger s.warps[w]} :: 0 <= w < |s.warps| ==> WarpInv(s, w)
  }

  predicate RangesInv(s: State) {
    && Tiled(s.epoch, Size(s))
    && forall i {:trigger RangeInv(s, i)} {:trigger s.epoch[i]} :: 0 <= i < |s.epoch| ==> RangeInv(s, i)
  }

  predicate Inv(s: State) {
    WarpsInv(s) && RangesInv(s) && PhaseInv(s) && AloneInv(s) && StreamInv(s)
  }

  // ------------------------------------------------------------------
  // Facts about the ranges
  // ------------------------------------------------------------------

  lemma RangesApart(e: seq<Range>, size: nat, i: nat, j: nat)
    requires Tiled(e, size) && i < |e| && j < |e| && i != j
    ensures e[i].off + |e[i].pkt| <= e[j].off || e[j].off + |e[j].pkt| <= e[i].off
  {}

  lemma SliceUntouched(buf: seq<Byte>, p: nat, b: Byte, lo: nat, hi: nat)
    requires p < |buf| && lo <= hi <= |buf| && (p < lo || hi <= p)
    ensures buf[p := b][lo .. hi] == buf[lo .. hi]
  {}

  lemma StillHeld(buf: seq<Byte>, p: nat, b: Byte, r: Range)
    requires p < |buf| && Holds(buf, r) && (p < r.off || r.off + |r.pkt| <= p)
    ensures Holds(buf[p := b], r)
  {
    SliceUntouched(buf, p, b, r.off, r.off + |r.pkt|);
  }

  lemma RangesFit(e: seq<Range>, size: nat)
    requires e == [] || Tiled(e, size)
    ensures Tiled(e, size) && forall i :: 0 <= i < |e| ==> e[i].off + |e[i].pkt| <= size
  {}

  lemma NotEmpty(e: seq<Range>, size: nat)
    requires Tiled(e, size)
    ensures e != [] <==> 0 < End(e)
  {}

  lemma TileOnce(e: seq<Range>, r: Range, size: nat)
    requires Tiled(e, size) && r.off == End(e) && 1 <= |r.pkt| && r.off + |r.pkt| <= size
    ensures Tiled(e + [r], size) && End(e + [r]) == r.off + |r.pkt|
  {}

  lemma Undone(e: seq<Range>, r: Range)
    requires !r.done
    ensures DoneBytes(e + [r]) == DoneBytes(e) && DonePackets(e + [r]) == DonePackets(e)
  {
    assert (e + [r])[..|e|] == e;
  }

  lemma EndUnmoved(e: seq<Range>, i: nat, r: Range, size: nat)
    requires i < |e| && r == e[i].(done := r.done) && Tiled(e, size)
    ensures End(e[i := r]) == End(e) && Tiled(e[i := r], size)
  {}

  lemma FillingHandedOver(s: State)
    requires RangesInv(s) && AllDone(s.epoch)
    ensures End(s.epoch) <= Size(s)
    ensures s.buf[..End(s.epoch)] == Bytes(Packets(s.epoch))
    ensures Bytes(s.flushed + Packets(s.epoch)) == Bytes(s.flushed) + s.buf[..End(s.epoch)]
    ensures DonePackets(s.epoch) == multiset(Packets(s.epoch)) && DonePackets([]) == multiset{}
    ensures s.buf[..0] == []
  {
    forall i | 0 <= i < |s.epoch| ensures Holds(s.buf, s.epoch[i]) { assert RangeInv(s, i); }
    BufferIsConcatenation(s.buf, s.epoch);
    BytesConcat(s.flushed, Packets(s.epoch));
    AllDonePackets(s.epoch);
  }

  // ------------------------------------------------------------------
  // Every step keeps the invariant
  // ------------------------------------------------------------------

  lemma InitInv(s: State)
    requires Init(s)
    ensures Inv(s)
  {
    assert s.buf[..0] == [];
  }

  lemma PushStartsWarps(s: State, st: Step)
    requires Inv(s) && Enabled(s, st) && (st.StartPush? || st.SpinHead?)
    ensures WarpsInv(Apply(s, st))
  {
    hide Bytes, DoneBytes, DonePackets, Packets, End, Tiled, Holds, RangesInv, PhaseInv, StreamInv;
    assert WarpInv(s, st.w);
  }

  lemma PushStarts(s: State, st: Step)
    requires Inv(s) && Enabled(s, st) && (st.StartPush? || st.SpinHead?)
    ensures Inv(Apply(s, st))
  {
    hide Bytes, DoneBytes, DonePackets, Packets, End, Tiled, Holds, WarpsInv;
    PushStartsWarps(s, st);
  }

  lemma FlushStarts(s: State, st: Step)
    requires Inv(s) && Enabled(s, st) && st.StartFlush?
    ensures Inv(Apply(s, st))
  {
    hide Bytes, DoneBytes, DonePackets, Packets, End, Tiled, Holds;
    assert s.phase.Open?;
    forall i | 0 <= i < |s.epoch| ensures s.epoch[i].done { assert RangeInv(s, i); }
  }

  lemma ClaimFitsWarps(s: State, st: Step)
    requires Inv(s) && Enabled(s, st) && st.AddHead? && s.head + |s.warps[st.w].pkt| <= Size(s)
    ensures s.phase.Open? && WarpsInv(Apply(s, st))
  {
    hide Bytes, DoneBytes, DonePackets, Packets, End, Tiled, Holds, RangesInv, StreamInv;
    assert WarpInv(s, st.w);
    assert s.phase.Open?;
  }

  lemma ClaimFitsRanges(s: State, st: Step)
    requires Inv(s) && Enabled(s, st) && st.AddHead? && s.head + |s.warps[st.w].pkt| <= Size(s) && s.phase.Open?
    ensures RangesInv(Apply(s, st))
  {
    hide Bytes, DoneBytes, DonePackets, Packets, End, Tiled, Holds, StreamInv, AloneInv;
    assert WarpInv(s, st.w);
    TileOnce(s.epoch, Range(st.w, s.warps[st.w].pkt, s.head, false), Size(s));
    var s' := Apply(s, st);
    forall i | 0 <= i < |s'.epoch| ensures RangeInv(s', i) {
      if i < |s.epoch| { assert RangeInv(s, i); }
    }
  }

  lemma ClaimFits(s: State, st: Step)
    requires Inv(s) && Enabled(s, st) && st.AddHead? && s.head + |s.warps[st.w].pkt| <= Size(s)
    ensures Inv(Apply(s, st))
  {
    hide Bytes, DoneBytes, DonePackets, Packets, End, Tiled, Holds, RangeInv;
    ClaimFitsWarps(s, st);
    ClaimFitsRanges(s, st);
    var r := Range(st.w, s.warps[st.w].pkt, s.head, false);
    assert WarpInv(s, st.w);
    hide WarpInv, WarpsInv;
    TileOnce(s.epoch, r, Size(s));
    Undone(s.epoch, r);
  }

  lemma ClaimOverflows(s: State, st: Step)
    requires Inv(s) && Enabled(s, st) && st.AddHead? && s.head <= Size(s) < s.head + |s.warps[st.w].pkt|
    ensures Inv(Apply(s, st))
  {
    hide Bytes, DoneBytes, DonePackets, Packets, End, Tiled, Holds;
    assert WarpInv(s, st.w);
    assert s.phase.Open?;
  }

  lemma ClaimIsLateWarps(s: State, st: Step)
    requires Inv(s) && Enabled(s, st) && st.AddHead? && Size(s) < s.head
    ensures WarpsInv(Apply(s, st)) && RangesInv(Apply(s, st))
  {
    hide Bytes, DoneBytes, DonePackets, Packets, End, Tiled, Holds, AloneInv, StreamInv;
    assert WarpInv(s, st.w);
  }

  lemma ClaimIsLate(s: State, st: Step)
    requires Inv(s) && Enabled(s, st) && st.AddHead? && Size(s) < s.head
    ensures Inv(Apply(s, st))
  {
    hide Bytes, DoneBytes, DonePackets, Packets, End, Tiled, Holds, WarpInv, RangeInv;
    ClaimIsLateWarps(s, st);
    DoneBounded(s.epoch, Size(s));
    var s' := Apply(s, st);
    assert !s.phase.Open? && s.phase.f != st.w && !FinalFlush(s.warps[s.phase.f]);
    assert PhaseInv(s') && AloneInv(s') && StreamInv(s');
  }

  lemma TestPassed(s: State, st: Step)
    requires Inv(s) && Enabled(s, st) && st.Test? && s.warps[st.w].ptr + |s.warps[st.w].pkt| <= Size(s)
    ensures Inv(Apply(s, st))
  {
    hide Bytes, DoneBytes, DonePackets, Packets, End, Tiled, Holds;
    assert WarpInv(s, st.w);
    assert s.buf[s.warps[st.w].ptr .. s.warps[st.w].ptr] == [];
  }

  /** A warp whose claim does not fit has no range in the buffer. */
  lemma NotOwner(s: State, w: nat)
    requires Inv(s) && w < |s.warps| && s.warps[w].Check? && Size(s) < s.warps[w].ptr + |s.warps[w].pkt|
    ensures forall i :: 0 <= i < |s.epoch| && !s.epoch[i].done ==> s.epoch[i].w != w
  {
    RangesFit(s.epoch, Size(s));
    forall i | 0 <= i < |s.epoch| && !s.epoch[i].done ensures s.epoch[i].w != w { assert RangeInv(s, i); }
  }

  lemma TestFailedFirst(s: State, st: Step)
    requires Inv(s) && Enabled(s, st) && st.Test?
    requires s.warps[st.w].ptr <= Size(s) < s.warps[st.w].ptr + |s.warps[st.w].pkt|
    ensures Inv(Apply(s, st))
  {
    hide Bytes, DoneBytes, DonePackets, Packets, End, Tiled, Holds;
    assert WarpInv(s, st.w);
    NotOwner(s, st.w);
  }

  lemma TestFailedLateWarps(s: State, st: Step)
    requires Inv(s) && Enabled(s, st) && st.Test? && Size(s) < s.warps[st.w].ptr
    ensures WarpsInv(Apply(s, st))
  {
    hide Bytes, DoneBytes, DonePackets, Packets, End, Tiled, Holds, RangesInv, AloneInv, StreamInv;
    assert WarpInv(s, st.w);
  }

  lemma TestFailedLate(s: State, st: Step)
    requires Inv(s) && Enabled(s, st) && st.Test? && Size(s) < s.warps[st.w].ptr
    ensures Inv(Apply(s, st))
  {
    hide Bytes, DoneBytes, DonePackets, Packets, End, Tiled, Holds, WarpsInv;
    TestFailedLateWarps(s, st);
    assert WarpInv(s, st.w) by { WarpRelies(s, st.w); }
    NotOwner(s, st.w);
  }

  lemma ByteCopiedWarps(s: State, st: Step)
    requires WarpsInv(s) && RangesInv(s) && Enabled(s, st) && st.CopyByte?
    ensures WarpsInv(Apply(s, st))
  {
    hide Bytes, DoneBytes, DonePackets, Packets, End, Tiled, Holds;
    var s' := Apply(s, st);
    var w := st.w;
    var Copy(pkt, ptr, k, slot) := s.warps[w];
    assert WarpInv(s, w) && !AllDone(s.epoch);
    assert s'.buf[ptr .. ptr + (k + 1)] == s.buf[ptr .. ptr + k] + [pkt[k]];
    forall v | 0 <= v < |s'.warps| ensures WarpInv(s', v) {
      assert WarpInv(s, v);
      if v != w && s.warps[v].Copy? {
        RangesApart(s.epoch, Size(s), slot, s.warps[v].slot);
        SliceUntouched(s.buf, ptr + k, pkt[k], s.warps[v].ptr, s.warps[v].ptr + s.warps[v].k);
      }
    }
  }

  lemma ByteCopiedRanges(s: State, st: Step)
    requires WarpsInv(s) && RangesInv(s) && Enabled(s, st) && st.CopyByte?
    ensures RangesInv(Apply(s, st))
  {
    hide Bytes, DoneBytes, DonePackets, Packets, End, Tiled, Holds;
    var s' := Apply(s, st);
    var Copy(pkt, ptr, k, slot) := s.warps[st.w];
    assert WarpInv(s, st.w);
    forall i | 0 <= i < |s'.epoch| ensures RangeInv(s', i) {
      assert RangeInv(s, i);
      if s.epoch[i].done {
        RangesApart(s.epoch, Size(s), slot, i);
        StillHeld(s.buf, ptr + k, pkt[k], s.epoch[i]);
      }
    }
  }

  lemma ByteCopied(s: State, st: Step)
    requires Inv(s) && Enabled(s, st) && st.CopyByte?
    ensures Inv(Apply(s, st))
  {
    hide Bytes, DoneBytes, DonePackets, Packets, End, RangesInv;
    ByteCopiedWarps(s, st);
    ByteCopiedRanges(s, st);
    assert WarpInv(s, st.w) && !AllDone(s.epoch);
  }

  lemma TailAdded(s: State, st: Step)
    requires Inv(s) && Enabled(s, st) && st.AddTail?
    ensures Inv(Apply(s, st))
  {
    hide Bytes, DoneBytes, DonePackets, Packets, End, Tiled;
    var s' := Apply(s, st);
    var Copy(pkt, ptr, k, slot) := s.warps[st.w];
    assert WarpInv(s, st.w) && !AllDone(s.epoch);
    assert Holds(s.buf, s'.epoch[slot]);
    EndUnmoved(s.epoch, slot, s'.epoch[slot], Size(s));
    MarkDone(s.epoch, slot);
  }

  lemma FlusherWaits(s: State, st: Step)
    requires Inv(s) && Enabled(s, st) && st.SpinTail?
    ensures Inv(Apply(s, st))
  {
    hide Bytes, DoneBytes, DonePackets, Packets, Tiled, Holds;
    assert WarpInv(s, st.w);
    DoneBounded(s.epoch, Size(s));
  }

  lemma TailLoaded(s: State, st: Step)
    requires Inv(s) && Enabled(s, st) && st.LoadTail?
    ensures Inv(Apply(s, st))
  {
    hide Bytes, DoneBytes, DonePackets, Packets, End, Tiled, Holds;
    assert WarpInv(s, st.w);
    DoneBounded(s.epoch, Size(s));
    NotEmpty(s.epoch, Size(s));
  }

  lemma BellRung(s: State, st: Step)
    requires Inv(s) && Enabled(s, st) && st.RingBell?
    ensures Inv(Apply(s, st))
  {
    hide Bytes, DoneBytes, DonePackets, Packets, End, Tiled, Holds;
    assert WarpInv(s, st.w);
    DoneBounded(s.epoch, Size(s));
    assert s.buf[..0] == [];
  }

  lemma BellAwaitedWarps(s: State, st: Step)
    requires Inv(s) && Enabled(s, st) && (st.SpinBell? || st.ClearTail?)
    ensures WarpsInv(Apply(s, st))
  {
    hide Bytes, DoneBytes, DonePackets, Packets, End, Tiled, Holds, RangesInv, AloneInv, StreamInv;
    assert WarpInv(s, st.w);
  }

  lemma BellAwaited(s: State, st: Step)
    requires Inv(s) && Enabled(s, st) && (st.SpinBell? || st.ClearTail?)
    ensures Inv(Apply(s, st))
  {
    hide Bytes, DoneBytes, DonePackets, Packets, End, Tiled, Holds, WarpsInv;
    BellAwaitedWarps(s, st);
    assert WarpInv(s, st.w) by { WarpRelies(s, st.w); }
  }

  lemma WarpRelies(s: State, w: nat)
    requires WarpsInv(s) && w < |s.warps|
    ensures WarpInv(s, w)
  {}

  lemma HeadCleared(s: State, st: Step)
    requires Inv(s) && Enabled(s, st) && st.ClearHead?
    ensures Inv(Apply(s, st))
  {
    hide Bytes, Packets, Tiled, Holds, WarpsInv;
    HeadClearedWarps(s, st);
    WarpRelies(s, st.w);
  }

  lemma HeadClearedWarps(s: State, st: Step)
    requires Inv(s) && Enabled(s, st) && st.ClearHead?
    ensures WarpsInv(Apply(s, st))
  {
    hide Bytes, DoneBytes, DonePackets, Packets, End, Tiled, Holds, RangesInv, AloneInv, StreamInv;
    assert WarpInv(s, st.w);
  }

  lemma HostReads(s: State, st: Step)
    requires Inv(s) && Enabled(s, st) && (st.Poll? || st.HostCopy?)
    ensures Inv(Apply(s, st))
  {
    hide Bytes, DoneBytes, DonePackets, Packets, End, Tiled, Holds;
    if st.HostCopy? {
      assert s.phase.Draining?;
      assert s.buf[..s.readHead] + s.buf[s.readHead .. s.readHead + s.host.n] == s.buf[..s.readHead + s.host.n];
      assert Apply(s, st).received
          == Bytes(s.flushed) + (s.buf[..s.readHead] + s.buf[s.readHead .. s.readHead + s.host.n]);
    }
  }

  /** `recv` lowers the doorbell by what it copied; with the last byte the whole filling has been handed over. */
  lemma HostReleases(s: State, st: Step)
    requires Inv(s) && Enabled(s, st) && st.HostRelease?
    ensures Inv(Apply(s, st))
    ensures var t := Apply(s, st);
      && t.bell == s.bell - s.host.n
      && (if t.bell > 0 then t.readHead == s.readHead + s.host.n && t.flushed == s.flushed && t.epoch == s.epoch
          else t.readHead == 0 && t.epoch == [] && t.flushed == s.flushed + Packets(s.epoch)
               && t.received == Bytes(t.flushed))
  {
    hide Bytes, DoneBytes, DonePackets, Packets, End, Tiled, Holds, WarpsInv, RangeInv;
    assert s.phase.Draining?;
    HostReleasesWarps(s, st);
    if s.host.total == s.host.n {
      RangesFit([], Size(s));
      FillingHandedOver(s);
      assert Apply(s, st).epoch == [];
    }
  }

  lemma HostReleasesWarps(s: State, st: Step)
    requires Inv(s) && Enabled(s, st) && st.HostRelease? && s.phase.Draining?
    ensures WarpsInv(Apply(s, st))
    ensures Apply(s, st).epoch == s.epoch ==> RangesInv(Apply(s, st))
  {
    hide Bytes, DoneBytes, DonePackets, Packets, End, Tiled, Holds, AloneInv, StreamInv;
    forall i | 0 <= i < |s.epoch| ensures s.epoch[i].done { assert RangeInv(s, i); }
    forall w | 0 <= w < |s.warps| ensures WarpInv(Apply(s, st), w) { assert WarpInv(s, w); }
  }

  lemma StepKeepsInv(s: State, st: Step)
    requires Inv(s) && Enabled(s, st)
    ensures Inv(Apply(s, st))
  {
    hide Inv, Apply;
    match st
    case StartPush(w, pkt) => PushStarts(s, st);
    case SpinHead(w) => PushStarts(s, st);
    case StartFlush(w) => FlushStarts(s, st);
    case AddHead(w) =>
      if s.head + |s.warps[w].pkt| <= Size(s) {
        ClaimFits(s, st);
      } else if s.head <= Size(s) {
        ClaimOverflows(s, st);
      } else {
        ClaimIsLate(s, st);
      }
    case Test(w) =>
      if s.warps[w].ptr + |s.warps[w].pkt| <= Size(s) {
        TestPassed(s, st);
      } else if s.warps[w].ptr <= Size(s) {
        TestFailedFirst(s, st);
      } else {
        TestFailedLate(s, st);
      }
    case CopyByte(w) => ByteCopied(s, st);
    case AddTail(w) => TailAdded(s, st);
    case SpinTail(w) => FlusherWaits(s, st);
    case LoadTail(w) => TailLoaded(s, st);
    case RingBell(w) => BellRung(s, st);
    case SpinBell(w) => BellAwaited(s, st);
    case ClearTail(w) => BellAwaited(s, st);
    case ClearHead(w) => HeadCleared(s, st);
    case Poll(max) => HostReads(s, st);
    case HostCopy => HostReads(s, st);
    case HostRelease => HostReleases(s, st);
  }

  /** Any number of warps, any interleaving, any receive sizes. */
  lemma {:induction false} Reachable(s: State, steps: seq<Step>)
    requires Inv(s) && EnabledAll(s, steps)
    ensures Inv(Run(s, steps))
    decreases |steps|
  {
    if steps != [] {
      StepKeepsInv(s, steps[0]);
      Reachable(Apply(s, steps[0]), steps[1..]);
    }
  }

  // ------------------------------------------------------------------
  // What the invariant means
  // ------------------------------------------------------------------

  predicate Writing(p: Pc, size: nat) {
    (p.Check? && p.ptr + |p.pkt| <= size) || p.Copy?
  }

  /** In bounds, and not overlapping. */
  predicate Apart(p: Pc, q: Pc, size: nat)
    requires Writing(p, size) && Writing(q, size)
  {
    && p.ptr + |p.pkt| <= size && q.ptr + |q.pkt| <= size
    && (p.ptr + |p.pkt| <= q.ptr || q.ptr + |q.pkt| <= p.ptr)
  }

  lemma ClaimsDisjoint(s: State, u: nat, v: nat)
    requires Inv(s) && u < |s.warps| && v < |s.warps| && u != v
    requires Writing(s.warps[u], Size(s)) && Writing(s.warps[v], Size(s))
    ensures Apart(s.warps[u], s.warps[v], Size(s))
  {
    assert WarpInv(s, u) && WarpInv(s, v);
    RangesApart(s.epoch, Size(s), s.warps[u].slot, s.warps[v].slot);
  }

  /** On the way from finding the buffer full to resetting it. */
  predicate Flushing(p: Pc, size: nat) {
    p.WaitTail? || p.ReadTail? || p.Ring? || p.WaitBell? || p.ResetTail? || p.ResetHead?
    || (p.Check? && p.ptr <= size < p.ptr + |p.pkt|)
  }

  lemma FlusherIsUnique(s: State, u: nat, v: nat)
    requires Inv(s) && u < |s.warps| && v < |s.warps|
    requires Flushing(s.warps[u], Size(s)) && Flushing(s.warps[v], Size(s))
    ensures u == v
  {
    hide RangesInv, StreamInv, AloneInv, End, AllDone;
    assert WarpInv(s, u) && WarpInv(s, v);
  }

  /** What a flusher about to ring the doorbell announces: every byte claimed so far, all written,
      which are the claimed packets in claim order. */
  predicate BellIsHonest(s: State, w: nat)
    requires w < |s.warps| && s.warps[w].Ring?
  {
    var n := s.warps[w].nbytes;
    && n == s.tail == End(s.epoch) && 0 < n <= Size(s)
    && s.buf[..n] == Bytes(Packets(s.epoch))
    && forall v :: 0 <= v < |s.warps| ==> !Writing(s.warps[v], Size(s))
  }

  lemma DoorbellAfterAllWrites(s: State, w: nat)
    requires Inv(s) && w < |s.warps| && s.warps[w].Ring?
    ensures BellIsHonest(s, w)
  {
    hide Bytes, DoneBytes, DonePackets, Packets, End, Tiled, Holds;
    assert WarpInv(s, w);
    DoneBounded(s.epoch, Size(s));
    FillingHandedOver(s);
    forall v | 0 <= v < |s.warps| ensures !Writing(s.warps[v], Size(s)) { assert WarpInv(s, v); }
  }

  /** Any number of warps, any interleaving, any sizes asked for by the host:
      claims are disjoint and in bounds, one warp flushes, the doorbell is honest, no copy leaves the
      buffer, and what the host has is whole packets, each as often as its push has returned. */
  lemma ChannelSafety(s: State, steps: seq<Step>)
    requires Init(s) && EnabledAll(s, steps)
    ensures var t := Run(s, steps);
      && (forall u, v | 0 <= u < |t.warps| && 0 <= v < |t.warps| && u != v
                        && Writing(t.warps[u], Size(t)) && Writing(t.warps[v], Size(t))
            :: Apart(t.warps[u], t.warps[v], Size(t)))
      && (forall u, v | 0 <= u < |t.warps| && 0 <= v < |t.warps|
                        && Flushing(t.warps[u], Size(t)) && Flushing(t.warps[v], Size(t))
            :: u == v)
      && (forall w :: 0 <= w < |t.warps| && t.warps[w].Ring? ==> BellIsHonest(t, w))
      && (forall w :: 0 <= w < |t.warps| && t.warps[w].Copy? ==> t.warps[w].ptr + |t.warps[w].pkt| <= Size(t))
      && (t.host.Got? ==> t.readHead + t.host.n <= Size(t))
      && (!t.phase.Draining? ==> t.received == Bytes(t.flushed))
      && Bytes(t.flushed) <= t.received
      && t.completed == multiset(t.flushed) + DonePackets(t.epoch)
  {
    InitInv(s);
    Reachable(s, steps);
    var t := Run(s, steps);
    hide Run, EnabledAll, Bytes, DoneBytes, DonePackets, Packets, End, Apart, Flushing, Writing, BellIsHonest;
    hide WarpsInv, AloneInv, RangeInv, Tiled, Init, FinalFlush;
    forall u, v | 0 <= u < |t.warps| && 0 <= v < |t.warps| && u != v
                  && Writing(t.warps[u], Size(t)) && Writing(t.warps[v], Size(t))
      ensures Apart(t.warps[u], t.warps[v], Size(t))
    {
      ClaimsDisjoint(t, u, v);
    }
    forall u, v | 0 <= u < |t.warps| && 0 <= v < |t.warps|
                  && Flushing(t.warps[u], Size(t)) && Flushing(t.warps[v], Size(t))
      ensures u == v
    {
      FlusherIsUnique(t, u, v);
    }
    forall w | 0 <= w < |t.warps| && t.warps[w].Ring? ensures BellIsHonest(t, w) {
      DoorbellAfterAllWrites(t, w);
    }
    forall w | 0 <= w < |t.warps| && t.warps[w].Copy? ensures t.warps[w].ptr + |t.warps[w].pkt| <= Size(t) {
      WarpRelies(t, w);
    }
    DoneBounded(t.epoch, Size(t));
  }

  /** Once the flush that ends a kernel is about to return, every push has returned and the host
      has every packet pushed, whole. */
  lemma FinalFlushDeliversAll(s: State, steps: seq<Step>, w: nat)
    requires Init(s) && EnabledAll(s, steps)
    requires var t := Run(s, steps);
      w < |t.warps| && FinalFlush(t.warps[w]) && (t.warps[w].ResetHead? || (t.warps[w].ReadTail? && t.tail == 0))
    ensures var t := Run(s, steps);
      && t.received == Bytes(t.flushed) && multiset(t.flushed) == t.completed
      && forall v :: 0 <= v < |t.warps| && v != w ==> t.warps[v].Idle?
  {
    InitInv(s);
    Reachable(s, steps);
    NothingLeft(Run(s, steps), w);
  }

  lemma NothingLeft(t: State, w: nat)
    requires Inv(t)
    requires w < |t.warps| && FinalFlush(t.warps[w]) && (t.warps[w].ResetHead? || (t.warps[w].ReadTail? && t.tail == 0))
    ensures t.received == Bytes(t.flushed) && multiset(t.flushed) == t.completed
    ensures forall v :: 0 <= v < |t.warps| && v != w ==> t.warps[v].Idle?
  {
    hide Bytes, DoneBytes, Packets, End, Tiled, Holds;
    assert WarpInv(t, w);
    DoneBounded(t.epoch, Size(t));
    NotEmpty(t.epoch, Size(t));
    assert t.epoch == [];
    assert t.buf[..0] == [];
  }

  // ------------------------------------------------------------------
  // Nobody waits for ever on nobody
  // ------------------------------------------------------------------

  /** As long as a warp is inside push or flush, some warp or the host can take a step that is not
      one more turn of a spin loop. */
  lemma NoDeadlock(s: State, w: nat) returns (st: Step)
    requires Inv(s) && w < |s.warps| && !s.warps[w].Idle?
    ensures Enabled(s, st) && Apply(s, st) != s && !st.StartPush? && !st.StartFlush?
  {
    hide Bytes, DoneBytes, DonePackets, Packets, Holds, Tiled, End, Enabled, Apply, WarpInv, RangeInv;
    if s.phase.Draining? {
      st := HostMoves(s);
    } else {
      var v := Mover(s, w);
      st := OwnStep(s, v);
    }
  }

  lemma HostMoves(s: State) returns (st: Step)
    requires Inv(s) && s.phase.Draining?
    ensures Enabled(s, st) && Apply(s, st) != s && !st.StartPush? && !st.StartFlush?
  {
    hide Bytes, DoneBytes, DonePackets, Packets, Holds, Tiled, End, WarpsInv, RangeInv;
    DoneBounded(s.epoch, Size(s));
    st := if s.host.Waiting? then Poll(1) else if s.host.Got? then HostCopy else HostRelease;
  }

  /** What the warp waits for has come. */
  predicate Ready(s: State, w: nat)
    requires w < |s.warps|
  {
    match s.warps[w]
    case Idle => false
    case WaitHead(_) => s.head <= Size(s)
    case WaitTail(_, ptr) => s.tail == ptr
    case WaitBell(_) => s.bell == 0
    case _ => true
  }

  /** Unless the host is at work, some warp need not wait: any one, one that is still copying, or the flusher. */
  lemma Mover(s: State, w: nat) returns (v: nat)
    requires Inv(s) && w < |s.warps| && !s.warps[w].Idle? && !s.phase.Draining?
    ensures v < |s.warps| && WarpInv(s, v) && Ready(s, v)
  {
    hide Bytes, DoneBytes, DonePackets, Packets, Holds, Tiled, End;
    DoneBounded(s.epoch, Size(s));
    match s.phase
    case Open =>
      v := w;
      assert WarpInv(s, v);
    case Closing(f) =>
      v := f;
      assert WarpInv(s, f);
      if s.warps[f].WaitTail? && s.tail != s.warps[f].ptr {
        var i :| 0 <= i < |s.epoch| && !s.epoch[i].done;
        assert RangeInv(s, i);
        v := s.epoch[i].w;
        assert WarpInv(s, v);
      }
    case Resetting(f) =>
      v := f;
      assert WarpInv(s, f);
  }

  /** The step of a warp that is not spinning in vain. */
  lemma OwnStep(s: State, w: nat) returns (st: Step)
    requires w < |s.warps| && WarpInv(s, w) && Ready(s, w)
    ensures Enabled(s, st) && Apply(s, st) != s && !st.StartPush? && !st.StartFlush?
  {
    match s.warps[w]
    case Claim(_) => st := AddHead(w);
    case Check(_, _, _) => st := Test(w);
    case Copy(pkt, _, k, _) => st := if k < |pkt| then CopyByte(w) else AddTail(w);
    case WaitHead(_) => st := SpinHead(w);
    case WaitTail(_, _) => st := SpinTail(w);
    case ReadTail(_) => st := LoadTail(w);
    case Ring(_, _) => st := RingBell(w);
    case WaitBell(_) => st := SpinBell(w);
    case ResetTail(_) => st := ClearTail(w);
    case ResetHead(_) => st := ClearHead(w);
    assert Apply(s, st).warps[w] != s.warps[w];
  }
}
