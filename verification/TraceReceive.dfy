/** What calls of recv take from the trace channel, whatever the warps do in between. */
module TraceReceive {
  import opened Basics
  import opened Division
  import opened TraceChannel

  predicate OnlyWarps(steps: seq<Step>) { forall k :: 0 <= k < |steps| ==> !HostStep(steps[k]) }

  /** One call of recv with a buffer of `max` bytes, and what warps do before it, before it copies, and before it
      lowers the doorbell. */
  datatype Call = Call(before: seq<Step>, during: seq<Step>, after: seq<Step>)

  predicate Pure(c: Call) { OnlyWarps(c.before) && OnlyWarps(c.during) && OnlyWarps(c.after) }

  function StepsOf(c: Call, max: nat): seq<Step> {
    c.before + ([Poll(max)] + (c.during + ([HostCopy] + (c.after + [HostRelease]))))
  }

  function Min(x: nat, y: nat): nat { if x < y then x else y }

  lemma {:induction false} RunConcat(s: State, a: seq<Step>, b: seq<Step>)
    requires EnabledAll(s, a + b)
    ensures EnabledAll(s, a) && EnabledAll(Run(s, a), b) && Run(s, a + b) == Run(Run(s, a), b)
    decreases |a|
  {
    hide Enabled, Apply;
    if a == [] {
      assert a + b == b;
    } else {
      assert (a + b)[1..] == a[1..] + b;
      RunConcat(Apply(s, a[0]), a[1..], b);
    }
  }

  lemma RunOne(s: State, st: Step, rest: seq<Step>)
    requires EnabledAll(s, [st] + rest)
    ensures Enabled(s, st) && EnabledAll(Apply(s, st), rest) && Run(s, [st] + rest) == Run(Apply(s, st), rest)
  {
    hide Enabled, Apply;
    assert ([st] + rest)[1..] == rest;
  }

  // ------------------------------------------------------------------
  // Warps leave the filling alone while it is drained
  // ------------------------------------------------------------------

  /** Everything the host works on. */
  predicate SameFilling(s: State, t: State) {
    && t.phase == s.phase && t.buf == s.buf && t.bell == s.bell && t.readHead == s.readHead && t.host == s.host
    && t.received == s.received && t.epoch == s.epoch && t.flushed == s.flushed
  }

  lemma WarpLeavesFilling(s: State, st: Step)
    requires Inv(s) && s.phase.Draining? && Enabled(s, st) && !HostStep(st)
    ensures SameFilling(s, Apply(s, st))
  {
    hide Bytes, DoneBytes, DonePackets, Packets, End, Tiled, Holds, RangesInv, StreamInv;
    assert WarpInv(s, st.w) && WarpInv(s, s.phase.f);
  }

  lemma {:induction false} WarpsLeaveFilling(s: State, steps: seq<Step>)
    requires Inv(s) && s.phase.Draining? && EnabledAll(s, steps) && OnlyWarps(steps)
    ensures Inv(Run(s, steps)) && SameFilling(s, Run(s, steps))
    decreases |steps|
  {
    hide Inv, Enabled, Apply;
    if steps != [] {
      WarpLeavesFilling(s, steps[0]);
      StepKeepsInv(s, steps[0]);
      WarpsLeaveFilling(Apply(s, steps[0]), steps[1..]);
    }
  }

  // ------------------------------------------------------------------
  // One call
  // ------------------------------------------------------------------

  /** Bytes a .. b of a filling. */
  function Part(epoch: seq<Range>, a: nat, b: nat): seq<Byte>
    requires a <= b <= |Bytes(Packets(epoch))|
  {
    Bytes(Packets(epoch))[a..b]
  }

  /** A doorbell that rings means that the filling is complete; what it announces is its rest. */
  lemma RingingMeansDraining(s: State)
    requires Inv(s) && s.host.Waiting? && s.bell > 0
    ensures s.phase.Draining? && s.readHead + s.bell == End(s.epoch) <= Size(s)
    ensures s.buf[..End(s.epoch)] == Bytes(Packets(s.epoch)) && |Bytes(Packets(s.epoch))| == End(s.epoch)
  {
    hide Bytes, DoneBytes, DonePackets, Packets, End, Tiled, Holds, WarpsInv, RangeInv;
    FillingHandedOver(s);
  }

  /** The three steps of recv on a filling that nothing else changes. */
  lemma HostTakes(s: State, max: nat)
    requires Inv(s) && s.host.Waiting? && s.bell > 0 && Enabled(s, Poll(max))
    ensures var (n, p) := (Min(max, s.bell), Apply(s, Poll(max)));
      && p == s.(host := Got(s.bell, n)) && 1 <= n
      && Enabled(p, HostCopy)
      && var c := Apply(p, HostCopy);
         && c == p.(host := Copied(s.bell, n), received := c.received)
         && c.received == s.received + s.buf[s.readHead..s.readHead + n]
  {
    hide Bytes, DoneBytes, DonePackets, Packets, End, Tiled, Holds, WarpsInv, RangeInv;
    RingingMeansDraining(s);
  }

  lemma PartOfBuffer(s: State, n: nat)
    requires Inv(s) && s.host.Waiting? && s.bell > 0 && n <= s.bell
    ensures var done := End(s.epoch) - s.bell;
      && done == s.readHead && done + n <= |Bytes(Packets(s.epoch))| && done + n <= Size(s)
      && s.buf[done..done + n] == Part(s.epoch, done, done + n)
  {
    hide Inv, Bytes, Packets, End;
    RingingMeansDraining(s);
    assert s.buf[..End(s.epoch)][s.readHead..s.readHead + n] == s.buf[s.readHead..s.readHead + n];
  }

  /** What a call leaves behind: the doorbell lower by n bytes, those bytes of the filling with the host; after the
      last of them the whole filling is handed over. */
  ghost predicate Took(s: State, t: State, n: nat) {
    var done := End(s.epoch) - s.bell;
    && n <= s.bell <= End(s.epoch) <= |Bytes(Packets(s.epoch))|
    && t.host.Waiting? && t.bell == s.bell - n
    && t.received == s.received + Part(s.epoch, done, done + n)
    && (n < s.bell ==> t.phase == s.phase && t.epoch == s.epoch && t.flushed == s.flushed)
    && (n == s.bell ==> t.epoch == [] && t.flushed == s.flushed + Packets(s.epoch) && t.received == Bytes(t.flushed))
  }

  /** For every interleaving: a call of recv with room for max bytes takes the next bytes of the filling, as many as
      the doorbell announces, but not more than max. */
  lemma CallTakes(s: State, c: Call, max: nat)
    requires Inv(s) && s.host.Waiting? && s.bell > 0 && Pure(c) && EnabledAll(s, StepsOf(c, max))
    ensures max > 0 && Inv(Run(s, StepsOf(c, max)))
    ensures Took(s, Run(s, StepsOf(c, max)), Min(max, s.bell))
  {
    hide Inv, Enabled, Apply, Bytes, Packets, End, EnabledAll, Run;
    var (r3, r2) := (c.after + [HostRelease], c.during + ([HostCopy] + (c.after + [HostRelease])));
    RingingMeansDraining(s);
    RunConcat(s, c.before, [Poll(max)] + r2);
    var s1 := Run(s, c.before);
    WarpsLeaveFilling(s, c.before);
    RunOne(s1, Poll(max), r2);
    StepKeepsInv(s1, Poll(max));
    PollNeedsRoom(s1, max);
    HostTakes(s1, max);
    var s2 := Apply(s1, Poll(max));
    RunConcat(s2, c.during, [HostCopy] + r3);
    var s3 := Run(s2, c.during);
    WarpsLeaveFilling(s2, c.during);
    RunOne(s3, HostCopy, r3);
    StepKeepsInv(s3, HostCopy);
    CopySame(s1, max, s3);
    var s4 := Apply(s3, HostCopy);
    RunConcat(s4, c.after, [HostRelease]);
    var s5 := Run(s4, c.after);
    WarpsLeaveFilling(s4, c.after);
    assert [HostRelease] == [HostRelease] + [];
    RunOne(s5, HostRelease, []);
    StepKeepsInv(s5, HostRelease);
    HostReleases(s5, HostRelease);
    var t := Apply(s5, HostRelease);
    assert Run(t, []) == t by { NoStep(t); }
    PartOfBuffer(s1, Min(max, s1.bell));
    ReleaseWaits(s5);
  }

  lemma NoStep(s: State)
    ensures EnabledAll(s, []) && Run(s, []) == s
  {}

  lemma PollNeedsRoom(s: State, max: nat)
    requires Enabled(s, Poll(max))
    ensures max > 0
  {}

  lemma ReleaseWaits(s: State)
    requires Enabled(s, HostRelease)
    ensures var t := Apply(s, HostRelease);
      t.host.Waiting? && t.received == s.received && (t.bell > 0 ==> t.phase == s.phase)
  {}

  /** What is copied does not depend on what warps did since the poll. */
  lemma CopySame(s: State, max: nat, t: State)
    requires Inv(s) && s.host.Waiting? && s.bell > 0 && Enabled(s, Poll(max))
    requires SameFilling(Apply(s, Poll(max)), t) && Enabled(t, HostCopy)
    ensures var (n, c) := (Min(max, s.bell), Apply(t, HostCopy));
      && c.host == Copied(s.bell, n) && c.phase == s.phase && c.buf == s.buf && c.bell == s.bell
      && c.readHead == s.readHead && c.epoch == s.epoch && c.flushed == s.flushed
      && s.readHead + n <= |s.buf| && c.received == s.received + s.buf[s.readHead..s.readHead + n]
  {
    hide Inv;
    HostTakes(s, max);
  }

  /** With nothing announced recv takes nothing and changes nothing. */
  lemma SilentCallTakesNothing(s: State, max: nat)
    requires Enabled(s, Poll(max)) && s.bell == 0
    ensures Apply(s, Poll(max)) == s
  {}

  // ------------------------------------------------------------------
  // Draining a filling
  // ------------------------------------------------------------------

  function AllSteps(cs: seq<Call>, max: nat): seq<Step> {
    if cs == [] then [] else StepsOf(cs[0], max) + AllSteps(cs[1..], max)
  }

  /** Calls, none of them made once the filling is drained: together they take the next |cs| * max bytes of it, or the
      rest; the last of them drains it if and only if there are as many as max bytes fit in, rounded up. */
  lemma {:induction false} CallsDrain(s: State, cs: seq<Call>, max: nat)
    requires Inv(s) && s.host.Waiting? && s.bell > 0 && cs != [] && max > 0 && (|cs| - 1) * max < s.bell
    requires (forall i :: 0 <= i < |cs| ==> Pure(cs[i])) && EnabledAll(s, AllSteps(cs, max))
    ensures |cs| * max >= 0 && Inv(Run(s, AllSteps(cs, max)))
    ensures var t := Run(s, AllSteps(cs, max));
      && Took(s, t, Min(|cs| * max, s.bell))
      && (t.bell == 0 <==> |cs| == (s.bell + max - 1) / max)
    decreases |cs|, 0
  {
    hide Inv, EnabledAll, Run, StepsOf, Took, Min;
    RunConcat(s, StepsOf(cs[0], max), AllSteps(cs[1..], max));
    CallTakes(s, cs[0], max);
    var t := Run(s, StepsOf(cs[0], max));
    TookMeans(s, t, Min(max, s.bell));
    RoundedUp(|cs|, max, s.bell);
    OneCallLess(|cs|, max, s.bell);
    if |cs| == 1 {
      NoStep(t);
    } else {
      RestDrains(s, t, cs, max);
    }
  }

  lemma {:induction false} RestDrains(s: State, t: State, cs: seq<Call>, max: nat)
    requires Inv(s) && s.host.Waiting? && s.bell > 0 && |cs| > 1 && max > 0 && (|cs| - 1) * max < s.bell
    requires Inv(t) && Took(s, t, max) && max < s.bell
    requires (forall i :: 0 <= i < |cs| ==> Pure(cs[i])) && EnabledAll(t, AllSteps(cs[1..], max))
    ensures |cs| * max >= 0
    ensures var u := Run(t, AllSteps(cs[1..], max));
      && Inv(u) && Took(s, u, Min(|cs| * max, s.bell))
      && u.bell == s.bell - Min(|cs| * max, s.bell)
    decreases |cs| - 1, 1
  {
    hide Inv, EnabledAll, Run, StepsOf, Took, Min, AllSteps;
    OneCallLess(|cs|, max, s.bell);
    TookMeans(s, t, max);
    CallsDrain(t, cs[1..], max);
    var u := Run(t, AllSteps(cs[1..], max));
    TookTwice(s, t, u, max, Min((|cs| - 1) * max, t.bell));
    TookMeans(s, u, Min(|cs| * max, s.bell));
  }

  /** What k calls take is what the first takes and then the others. */
  lemma OneCallLess(k: nat, max: nat, b: nat)
    requires max > 0 && k > 0 && (k - 1) * max < b
    ensures k * max >= 0 && (k - 1) * max >= 0
    ensures k == 1 ==> Min(k * max, b) == Min(max, b)
    ensures k > 1 ==>
      && max < b && Min(max, b) == max && (k - 2) * max < b - max
      && max + Min((k - 1) * max, b - max) == Min(k * max, b)
    ensures Min(k * max, b) == b <==> k * max >= b
    ensures Min(k * max, b) <= b
  {
    assert k * max == max + (k - 1) * max;
    if k > 1 {
      assert (k - 1) * max == max + (k - 2) * max;
      assert (k - 2) * max >= 0;
    }
  }

  lemma TookMeans(s: State, t: State, n: nat)
    requires Took(s, t, n)
    ensures t.bell == s.bell - n && t.host.Waiting?
    ensures n < s.bell ==> t.phase == s.phase && t.epoch == s.epoch && t.flushed == s.flushed
  {}

  lemma TookTwice(s: State, t: State, u: State, m: nat, n: nat)
    requires Took(s, t, m) && m < s.bell && Took(t, u, n)
    ensures Took(s, u, m + n)
  {
    hide Bytes, Packets, End;
    var done := End(s.epoch) - s.bell;
    assert Part(s.epoch, done, done + m) + Part(s.epoch, done + m, done + m + n) == Part(s.epoch, done, done + m + n);
  }

  lemma RoundedUp(k: nat, max: nat, b: nat)
    requires max > 0 && k > 0 && (k - 1) * max < b
    ensures k * max >= 0
    ensures k * max >= b <==> k == (b + max - 1) / max
  {
    var q := (b + max - 1) / max;
    assert k * max == (k - 1) * max + max && (k + 1) * max == k * max + max;
    assert b + max - 1 == q * max + (b + max - 1) % max;
    if k * max >= b { DivUnique(b + max - 1, max, k, b + max - 1 - k * max); }
  }
}
