/** Spinlock fast-forwarding of the tracer: which records of a kernel are kept. */
module SpinFilter {
  import opened Basics

  type Index = int

  /** A warp of a kernel (block coordinates and warp number) and the index of the executed instruction. */
  datatype Record = Record(warp: int, index: Index)

  // ------------------------------------------------------------------
  // One warp
  // ------------------------------------------------------------------

  /** Executions of x since the last instruction that is not a spin instruction. */
  function Count(spin: set<Index>, t: seq<Index>, x: Index): nat {
    if t == [] || t[|t| - 1] !in spin then 0
    else Count(spin, t[..|t| - 1], x) + if t[|t| - 1] == x then 1 else 0
  }

  /** `keep` is spinlock_iter_to_keep, compared as an unsigned 64-bit number. */
  function Limit(keep: int): int { if keep < 0 then keep + ULONG_RANGE else keep }

  predicate Kept(spin: set<Index>, keep: int, t: seq<Index>)
    requires t != []
  {
    t[|t| - 1] !in spin || Count(spin, t, t[|t| - 1]) <= Limit(keep)
  }

  function Filter(spin: set<Index>, keep: int, t: seq<Index>): seq<Index> {
    if t == [] then []
    else Filter(spin, keep, t[..|t| - 1]) + if Kept(spin, keep, t) then [t[|t| - 1]] else []
  }

  lemma CountSnoc(spin: set<Index>, t: seq<Index>, y: Index, x: Index)
    ensures Count(spin, t + [y], x) == if y !in spin then 0 else Count(spin, t, x) + if y == x then 1 else 0
  {
    assert (t + [y])[..|t|] == t;
  }

  lemma FilterSnoc(spin: set<Index>, keep: int, t: seq<Index>, y: Index)
    ensures Filter(spin, keep, t + [y]) == Filter(spin, keep, t) + if Kept(spin, keep, t + [y]) then [y] else []
  {
    assert (t + [y])[..|t|] == t;
  }

  /** What the counters see in the filtered trace: the same counts, cut off at the limit. */
  lemma {:induction false} CountFiltered(spin: set<Index>, keep: int, t: seq<Index>, x: Index)
    requires Limit(keep) >= 0
    ensures var n := Count(spin, t, x);
      Count(spin, Filter(spin, keep, t), x) == if n <= Limit(keep) then n else Limit(keep)
  {
    if t != [] {
      var s, y := t[..|t| - 1], t[|t| - 1];
      CountFiltered(spin, keep, s, x);
      var g := Filter(spin, keep, s);
      assert (g + [y])[..|g|] == g;
      assert g + [] == g;
    }
  }

  /** Filtering a filtered warp changes nothing. */
  lemma {:induction false} FilterIdempotent(spin: set<Index>, keep: int, t: seq<Index>)
    requires Limit(keep) >= 0
    ensures Filter(spin, keep, Filter(spin, keep, t)) == Filter(spin, keep, t)
  {
    if t != [] {
      var s, y := t[..|t| - 1], t[|t| - 1];
      var g := Filter(spin, keep, s);
      FilterIdempotent(spin, keep, s);
      if Kept(spin, keep, t) {
        CountFiltered(spin, keep, s, y);
        assert (g + [y])[..|g|] == g;
      } else {
        assert g + [] == g;
      }
    }
  }

  function Occurrences(run: seq<Index>, x: Index): nat {
    if run == [] then 0 else Occurrences(run[..|run| - 1], x) + if run[|run| - 1] == x then 1 else 0
  }

  /** The first `limit` occurrences of every index in a run, in order. */
  function FirstFew(run: seq<Index>, limit: int): seq<Index> {
    if run == [] then []
    else
      var s, y := run[..|run| - 1], run[|run| - 1];
      FirstFew(s, limit) + if Occurrences(run, y) <= limit then [y] else []
  }

  ghost predicate AllSpin(spin: set<Index>, run: seq<Index>) {
    forall k :: 0 <= k < |run| ==> run[k] in spin
  }

  /** After a non-spin instruction, or at the start, a run of spin instructions counts from zero. */
  lemma {:induction false} RunCounts(spin: set<Index>, before: seq<Index>, run: seq<Index>, x: Index)
    requires (before == [] || before[|before| - 1] !in spin) && AllSpin(spin, run)
    ensures Count(spin, before + run, x) == Occurrences(run, x)
  {
    var t := before + run;
    if run == [] {
      assert t == before;
    } else {
      assert t[..|t| - 1] == before + run[..|run| - 1];
      RunCounts(spin, before, run[..|run| - 1], x);
    }
  }

  /** Of every spin run exactly the first few executions of each instruction stay; the rest of the trace is
      treated as if the run ended there. */
  lemma {:induction false} SpinRunKeepsFirstFew(spin: set<Index>, keep: int, before: seq<Index>, run: seq<Index>)
    requires (before == [] || before[|before| - 1] !in spin) && AllSpin(spin, run)
    ensures Filter(spin, keep, before + run) == Filter(spin, keep, before) + FirstFew(run, Limit(keep))
  {
    var t := before + run;
    if run == [] {
      assert t == before;
      assert Filter(spin, keep, before) + [] == Filter(spin, keep, before);
    } else {
      assert t[..|t| - 1] == before + run[..|run| - 1];
      SpinRunKeepsFirstFew(spin, keep, before, run[..|run| - 1]);
      RunCounts(spin, before, run, run[|run| - 1]);
    }
  }

  function Min(x: int, y: int): int { if x < y then x else y }

  /** The first few occurrences of x in a run are as many as there are, up to the limit. */
  lemma {:induction false} FirstFewOccurrences(run: seq<Index>, limit: nat, x: Index)
    ensures Occurrences(FirstFew(run, limit), x) == Min(Occurrences(run, x), limit)
  {
    if run != [] {
      var s, y := run[..|run| - 1], run[|run| - 1];
      FirstFewOccurrences(s, limit, x);
      var g := FirstFew(s, limit);
      assert (g + [y])[..|g|] == g && g + [] == g;
    }
  }

  /** Number of executions that SPINLOCK_ITER_TO_KEEP stands for: a negative setting is read as a 64-bit number
      without sign. */
  ghost predicate Means(keep: int, k: nat) {
    k == if keep >= 0 then keep else 0x1_0000_0000_0000_0000 + keep
  }

  /** Of every spin run each instruction keeps its first k executions, or all of them if there are fewer, where k is
      the number set. */
  lemma SpinRunKeepsFirstK(spin: set<Index>, keep: int, k: nat, before: seq<Index>, run: seq<Index>, x: Index)
    requires (before == [] || before[|before| - 1] !in spin) && AllSpin(spin, run) && Means(keep, k)
    ensures Filter(spin, keep, before + run) == Filter(spin, keep, before) + FirstFew(run, k)
    ensures Occurrences(FirstFew(run, k), x) == Min(Occurrences(run, x), k)
  {
    SpinRunKeepsFirstFew(spin, keep, before, run);
    FirstFewOccurrences(run, k, x);
  }

  /** An execution inside a spin run is kept exactly when it is one of the first k of its instruction in that run. */
  lemma KeptIffFirstK(spin: set<Index>, keep: int, k: nat, before: seq<Index>, run: seq<Index>)
    requires (before == [] || before[|before| - 1] !in spin) && AllSpin(spin, run) && run != [] && Means(keep, k)
    ensures Kept(spin, keep, before + run) <==> Occurrences(run, run[|run| - 1]) <= k
  {
    RunCounts(spin, before, run, run[|run| - 1]);
    assert (before + run)[|before + run| - 1] == run[|run| - 1];
  }

  lemma KeptIs(spin: set<Index>, keep: int, t: seq<Index>)
    requires t != []
    ensures Kept(spin, keep, t) <==> t[|t| - 1] !in spin || Count(spin, t, t[|t| - 1]) <= Limit(keep)
  {}

  lemma KeptMeans(spin: set<Index>, keep: int, k: nat, t: seq<Index>)
    requires t != [] && Means(keep, k)
    ensures Kept(spin, keep, t) <==> t[|t| - 1] !in spin || Count(spin, t, t[|t| - 1]) <= k
  {}

  /** The counters of a filtered trace are those of the trace, cut off at k. */
  lemma CountsCutOff(spin: set<Index>, keep: int, k: nat, t: seq<Index>, x: Index)
    requires Means(keep, k)
    ensures Count(spin, Filter(spin, keep, t), x) == Min(Count(spin, t, x), k)
  {
    CountFiltered(spin, keep, t, x);
  }

  /** An instruction outside the spin set always stays. */
  lemma NonSpinKept(spin: set<Index>, keep: int, t: seq<Index>, x: Index)
    requires x !in spin
    ensures Filter(spin, keep, t + [x]) == Filter(spin, keep, t) + [x]
  {
    assert (t + [x])[..|t|] == t;
  }

  // ------------------------------------------------------------------
  // All warps
  // ------------------------------------------------------------------

  function Project(t: seq<Record>, w: int): seq<Index> {
    if t == [] then []
    else Project(t[..|t| - 1], w) + if t[|t| - 1].warp == w then [t[|t| - 1].index] else []
  }

  function FilterAll(spin: set<Index>, keep: int, t: seq<Record>): seq<Record> {
    if t == [] then []
    else
      var r := t[|t| - 1];
      FilterAll(spin, keep, t[..|t| - 1]) + if Kept(spin, keep, Seen(t)) then [r] else []
  }

  /** What the warp of the last record has executed, that record included. */
  function Seen(t: seq<Record>): (s: seq<Index>)
    requires t != []
    ensures s != [] && s == Project(t, t[|t| - 1].warp)
  {
    Project(t, t[|t| - 1].warp)
  }

  lemma ProjectSnoc(t: seq<Record>, r: Record, w: int)
    ensures Project(t + [r], w) == Project(t, w) + if r.warp == w then [r.index] else []
  {
    assert (t + [r])[..|t|] == t;
  }

  /** Filtering the interleaved trace and looking at one warp is filtering that warp's trace. */
  lemma {:induction false} FilterCommutesWithProjection(spin: set<Index>, keep: int, t: seq<Record>, w: int)
    ensures Project(FilterAll(spin, keep, t), w) == Filter(spin, keep, Project(t, w))
  {
    hide Kept;
    if t != [] {
      var s, r := t[..|t| - 1], t[|t| - 1];
      var g, p := FilterAll(spin, keep, s), Project(s, w);
      FilterCommutesWithProjection(spin, keep, s, w);
      ProjectSnoc(g, r, w);
      FilterSnoc(spin, keep, p, r.index);
      assert t == s + [r];
      ProjectSnoc(s, r, w);
      assert g + [] == g && p + [] == p && Filter(spin, keep, p) + [] == Filter(spin, keep, p);
    }
  }

  /** Filtering twice is filtering once. */
  lemma {:induction false} FilterAllIdempotent(spin: set<Index>, keep: int, t: seq<Record>)
    requires Limit(keep) >= 0
    ensures FilterAll(spin, keep, FilterAll(spin, keep, t)) == FilterAll(spin, keep, t)
  {
    if t != [] {
      var s, r := t[..|t| - 1], t[|t| - 1];
      var g := FilterAll(spin, keep, s);
      FilterAllIdempotent(spin, keep, s);
      if Kept(spin, keep, Seen(t)) {
        var p := Project(s, r.warp);
        assert (g + [r])[..|g|] == g;
        ProjectSnoc(g, r, r.warp);
        FilterCommutesWithProjection(spin, keep, s, r.warp);
        CountFiltered(spin, keep, p, r.index);
        assert Seen(t) == p + [r.index];
        assert Seen(t)[..|p|] == p;
        var q := Seen(g + [r]);
        assert q == Filter(spin, keep, p) + [r.index];
        assert q[..|q| - 1] == Filter(spin, keep, p);
      } else {
        assert g + [] == g;
      }
    }
  }

  // ------------------------------------------------------------------
  // The receiving thread
  // ------------------------------------------------------------------

  datatype Packet = EndOfKernel | Inst(record: Record)

  /** The records of a buffer in front of its first end-of-kernel packet. */
  function UpToEnd(buffer: seq<Packet>): seq<Record> {
    if buffer == [] || buffer[0].EndOfKernel? then [] else [buffer[0].record] + UpToEnd(buffer[1..])
  }

  predicate HasEnd(buffer: seq<Packet>) { buffer != [] && (buffer[0].EndOfKernel? || HasEnd(buffer[1..])) }

  lemma PacketsFrom(buffer: seq<Packet>, k: nat)
    requires k <= |buffer|
    ensures HasEnd(buffer[k..]) <==> k < |buffer| && (buffer[k].EndOfKernel? || HasEnd(buffer[k + 1..]))
    ensures UpToEnd(buffer[k..])
         == if k == |buffer| || buffer[k].EndOfKernel? then [] else [buffer[k].record] + UpToEnd(buffer[k + 1..])
  {
    if k < |buffer| { assert buffer[k..][1..] == buffer[k + 1..]; }
  }

  /** What one warp leaves in the trace file: its executions, filtered if fast-forwarding is on. */
  function WarpTrace(spin: set<Index>, keep: int, fast: bool, t: seq<Record>, w: int): seq<Index> {
    if fast then Filter(spin, keep, Project(t, w)) else Project(t, w)
  }

  /** The trace of a kernel: the warps that leave something, with what they leave. */
  function KernelTrace(spin: set<Index>, keep: int, fast: bool, t: seq<Record>): map<int, seq<Index>> {
    map w | w in (set i | 0 <= i < |t| :: t[i].warp) && WarpTrace(spin, keep, fast, t, w) != []
      :: WarpTrace(spin, keep, fast, t, w)
  }

  /** With fast-forwarding a warp's trace is its part of the filtered interleaved trace. */
  lemma TraceIsFiltered(spin: set<Index>, keep: int, t: seq<Record>, w: int)
    ensures WarpTrace(spin, keep, true, t, w) == Project(FilterAll(spin, keep, t), w)
  {
    FilterCommutesWithProjection(spin, keep, t, w);
  }

  lemma {:induction false} AbsentWarp(t: seq<Record>, w: int)
    requires forall i :: 0 <= i < |t| ==> t[i].warp != w
    ensures Project(t, w) == []
  {
    if t != [] { AbsentWarp(t[..|t| - 1], w); }
  }

  type Lines = map<int, seq<Index>>

  function LinesOf(m: Lines, w: int): seq<Index> { if w in m then m[w] else [] }

  lemma KernelTraceLines(spin: set<Index>, keep: int, fast: bool, t: seq<Record>, w: int)
    ensures LinesOf(KernelTrace(spin, keep, fast, t), w) == WarpTrace(spin, keep, fast, t, w)
    ensures w in KernelTrace(spin, keep, fast, t) <==> WarpTrace(spin, keep, fast, t, w) != []
  {
    if forall i :: 0 <= i < |t| ==> t[i].warp != w { AbsentWarp(t, w); }
  }

  /** One more record: kept, it is the next line of its warp; dropped, it changes nothing. */
  lemma KernelTraceSnoc(spin: set<Index>, keep: int, fast: bool, t: seq<Record>, r: Record)
    ensures var (m, kept) := (KernelTrace(spin, keep, fast, t), !fast || Kept(spin, keep, Seen(t + [r])));
      KernelTrace(spin, keep, fast, t + [r]) == if kept then m[r.warp := LinesOf(m, r.warp) + [r.index]] else m
  {
    hide Kept, KernelTrace, Filter;
    var (m, n) := (KernelTrace(spin, keep, fast, t), KernelTrace(spin, keep, fast, t + [r]));
    var kept := !fast || Kept(spin, keep, Seen(t + [r]));
    forall w
      ensures WarpTrace(spin, keep, fast, t + [r], w)
           == WarpTrace(spin, keep, fast, t, w) + if w == r.warp && kept then [r.index] else []
    {
      ProjectSnoc(t, r, w);
      FilterSnoc(spin, keep, Project(t, w), r.index);
      assert Project(t, w) + [] == Project(t, w);
      assert Filter(spin, keep, Project(t, w)) + [] == Filter(spin, keep, Project(t, w));
    }
    var goal := if kept then m[r.warp := LinesOf(m, r.warp) + [r.index]] else m;
    forall w
      ensures w in n <==> w in goal
      ensures w in n ==> n[w] == goal[w]
    {
      KernelTraceLines(spin, keep, fast, t, w);
      KernelTraceLines(spin, keep, fast, t + [r], w);
      assert WarpTrace(spin, keep, fast, t, w) + [] == WarpTrace(spin, keep, fast, t, w);
    }
    assert n.Keys == goal.Keys;
  }

  type Counters = map<Index, nat>

  /** Spin instructions, limit and switch are those of the kernel being traced. */
  class Receiver {
    const spin: set<Index>
    const keep: int
    const fastForward: bool
    var stopReport: bool
    var receiving: bool
    var warpCounters: map<int, Counters>
    var tbBufs: Lines                 // per warp, the lines to be written at the end of the kernel
    var output: seq<Lines>            // the kernels written so far
    ghost var seen: seq<Record>       // records of the running kernel, if it is traced

    /** The counters say what the records t say; a warp gets its counters with its first record. */
    ghost predicate Counting(t: seq<Record>)
      reads this`warpCounters
    {
      && (forall w | w in warpCounters :: warpCounters[w].Keys == spin)
      && (forall w, x | x in spin ::
            (if w in warpCounters && x in warpCounters[w] then warpCounters[w][x] else 0)
            == Count(spin, Project(t, w), x))
    }

    ghost predicate Valid()
      reads this
    {
      (fastForward ==> Counting(seen)) && tbBufs == KernelTrace(spin, keep, fastForward, seen)
    }

    constructor (spin: set<Index>, keep: int, fastForward: bool, stopReport: bool)
      ensures Valid() && this.spin == spin && this.keep == keep && this.fastForward == fastForward
      ensures this.stopReport == stopReport && seen == [] && output == [] && receiving
    {
      this.spin, this.keep, this.fastForward, this.stopReport := spin, keep, fastForward, stopReport;
      warpCounters, tbBufs, output, seen, receiving := map[], map[], [], [], true;
    }

    /** The spin counters decide whether a record is kept. */
    method Accept(r: Record) returns (kept: bool)
      requires Counting(seen)
      modifies this`warpCounters
      ensures Counting(seen + [r])
      ensures kept <==> Kept(spin, keep, Seen(seen + [r]))
      ensures forall k: nat | Means(keep, k) ::
        kept <==> r.index !in spin || Count(spin, Seen(seen + [r]), r.index) <= k
    {
      hide Limit, Count, Project, Means, Kept;
      KeptIs(spin, keep, Seen(seen + [r]));
      forall k: nat | Means(keep, k) { KeptMeans(spin, keep, k, Seen(seen + [r])); }
      ghost var p := Project(seen, r.warp);
      ProjectSnoc(seen, r, r.warp);
      forall x | x in spin { CountSnoc(spin, p, r.index, x); }
      if r.warp !in warpCounters {
        warpCounters := warpCounters[r.warp := map x | x in spin :: 0];
      }
      var counter := warpCounters[r.warp];
      if r.index in counter {
        counter := counter[r.index := counter[r.index] + 1];
        warpCounters := warpCounters[r.warp := counter];
        kept := counter[r.index] <= Limit(keep);
      } else {
        counter := map x | x in counter :: 0;
        warpCounters := warpCounters[r.warp := counter];
        kept := true;
      }
      forall w | w != r.warp ensures Project(seen + [r], w) == Project(seen, w) {
        ProjectSnoc(seen, r, w);
        assert Project(seen, w) + [] == Project(seen, w);
      }
    }

    /** One record of a traced kernel. */
    method TakeRecord(r: Record)
      requires Valid()
      modifies this`warpCounters, this`tbBufs, this`seen
      ensures Valid() && seen == old(seen) + [r]
    {
      hide Counting, KernelTrace, Kept;
      KernelTraceSnoc(spin, keep, fastForward, seen, r);
      var kept := true;
      if fastForward { kept := Accept(r); }
      if kept { tbBufs := tbBufs[r.warp := LinesOf(tbBufs, r.warp) + [r.index]]; }
      seen := seen + [r];
    }

    /** The end-of-kernel packet: the kernel is written if it was traced, and everything starts afresh. */
    method EndKernel()
      requires Valid()
      modifies this
      ensures Valid() && seen == [] && !receiving && stopReport == old(stopReport)
      ensures output == old(output) + if stopReport then [] else [KernelTrace(spin, keep, fastForward, old(seen))]
    {
      if !stopReport { output := output + [tbBufs]; }
      tbBufs, seen, receiving := map[], [], false;
      if fastForward { warpCounters := map[]; }
    }

    /** The records of the kernel once those of a buffer are in. */
    ghost function SeenWith(buffer: seq<Packet>): seq<Record>
      reads this`seen, this`stopReport
    {
      if stopReport then seen else seen + UpToEnd(buffer)
    }

    /** The packets of one buffer, oldest first; what follows an end-of-kernel packet is not looked at. */
    method Receive(buffer: seq<Packet>)
      requires Valid()
      modifies this
      ensures Valid() && stopReport == old(stopReport)
      ensures !HasEnd(buffer) ==>
        seen == old(SeenWith(buffer)) && receiving == old(receiving) && output == old(output)
      ensures HasEnd(buffer) ==>
        && seen == [] && !receiving
        && output == old(output) + if stopReport then []
                                   else [KernelTrace(spin, keep, fastForward, old(SeenWith(buffer)))]
    {
      hide Valid, KernelTrace, HasEnd, UpToEnd;
      ghost var all := SeenWith(buffer);
      assert buffer[0..] == buffer;
      for k := 0 to |buffer|
        invariant Valid() && stopReport == old(stopReport) && receiving == old(receiving) && output == old(output)
        invariant HasEnd(buffer[k..]) == HasEnd(buffer)
        invariant SeenWith(buffer[k..]) == all
      {
        ghost var before := seen;
        if buffer[k].EndOfKernel? {
          SeenFrom(buffer, k, before);
          EndKernel();
          return;
        }
        if !stopReport { TakeRecord(buffer[k].record); }
        SeenFrom(buffer, k, before);
      }
      SeenFrom(buffer, |buffer|, seen);
    }

    lemma SeenFrom(buffer: seq<Packet>, k: nat, before: seq<Record>)
      requires k <= |buffer|
      requires k < |buffer| && !stopReport && buffer[k].Inst? ==> seen == before + [buffer[k].record]
      requires k == |buffer| || stopReport || buffer[k].EndOfKernel? ==> seen == before
      ensures HasEnd(buffer[k..]) <==> k < |buffer| && (buffer[k].EndOfKernel? || HasEnd(buffer[k + 1..]))
      ensures (if stopReport then before else before + UpToEnd(buffer[k..]))
           == if k == |buffer| || buffer[k].EndOfKernel? then seen else SeenWith(buffer[k + 1..])
    {
      PacketsFrom(buffer, k);
    }
  }
}
