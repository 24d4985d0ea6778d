/** LRU replacement in the tag array as a refinement of recency lists. */
module TagRecency {
  import opened Basics
  import opened Recency
  import opened TagArray

  // ------------------------------------------------------------------
  // The tag array keeps a recency list
  // ------------------------------------------------------------------

  function CountValid(set_: Ways, n: nat): (c: nat)
    requires n <= |set_|
    ensures c <= n
    ensures c == n <==> forall v :: 0 <= v < n ==> !InvalidLine(set_[v])
  {
    if n == 0 then 0 else CountValid(set_, n - 1) + if InvalidLine(set_[n - 1]) then 0 else 1
  }

  lemma {:induction false} CountReplaced(set_: Ways, w: nat, l: Line, n: nat)
    requires n <= |set_| && w < |set_| && !InvalidLine(l)
    ensures CountValid(set_[w := l], n) == CountValid(set_, n) + if w < n && InvalidLine(set_[w]) then 1 else 0
  {
    if n > 0 { CountReplaced(set_, w, l, n - 1); }
  }

  /** The way that holds a tag, |set_| if none does. */
  function Way(set_: Ways, tag: int): nat {
    if tag < 0 then |set_| else FirstMatch(set_, tag, 0)
  }

  function LastTouched(set_: Ways, tag: int): nat {
    if Way(set_, tag) < |set_| then set_[Way(set_, tag)].lastAccess else 0
  }

  ghost predicate Present(set_: Ways, tag: nat) {
    exists w :: 0 <= w < |set_| && Holds(set_[w], tag)
  }

  /** r lists the tags of the valid lines, none touched before one behind it; with `strict`, every one later
      than those behind it. No touch lies after `now`. */
  ghost predicate Keeps(set_: Ways, r: seq<int>, now: int, strict: bool) {
    && Good(set_)
    && NoDup(r)
    && |r| == CountValid(set_, |set_|)
    && (forall i {:trigger r[i]} | 0 <= i < |r| :: Way(set_, r[i]) < |set_|)
    && (forall w | 0 <= w < |set_| && !InvalidLine(set_[w]) :: set_[w].tag in r && set_[w].lastAccess <= now)
    && (forall i, j | 0 <= i < j < |r| :: Later(LastTouched(set_, r[i]), LastTouched(set_, r[j]), strict))
  }

  predicate Later(x: int, y: int, strict: bool) { if strict then x > y else x >= y }

  lemma WayUnique(set_: Ways, v: nat, tag: int)
    requires Good(set_) && v < |set_| && tag >= 0 && Holds(set_[v], tag)
    ensures Way(set_, tag) == v
  {}

  lemma WayHolds(set_: Ways, tag: int)
    requires Way(set_, tag) < |set_|
    ensures tag >= 0 && Holds(set_[Way(set_, tag)], tag)
  {}

  /** Line l may take way w of a set that keeps r: it is a renewal, w was free, or w held the oldest tag. */
  ghost predicate MayWrite(set_: Ways, r: seq<int>, time: nat, w: nat, l: Line) {
    && w < |set_| && GoodLine(l) && !InvalidLine(l) && l.lastAccess == time
    && (forall v :: 0 <= v < |set_| && v != w ==> !Holds(set_[v], l.tag))
    && (Holds(set_[w], l.tag) || InvalidLine(set_[w])
        || (|r| == |set_| && |r| > 0 && r[|r| - 1] == set_[w].tag))
  }

  /** The list knows the written tag exactly when the way already held it. */
  lemma ListKnows(set_: Ways, r: seq<int>, now: int, strict: bool, time: nat, w: nat, l: Line)
    requires Keeps(set_, r, now, strict) && MayWrite(set_, r, time, w, l)
    ensures Position(r, l.tag) < |r| <==> Holds(set_[w], l.tag)
    ensures NoDup(r) && |r| <= |set_| && (InvalidLine(set_[w]) ==> |r| < |set_|)
  {
    var i := Position(r, l.tag);
    if i < |r| {
      assert Way(set_, r[i]) < |set_|;
      WayHolds(set_, l.tag);
    }
    if Holds(set_[w], l.tag) { assert set_[w].tag in r; }
  }

  /** What Keeps says of one entry of the list. */
  lemma KeptEntry(set_: Ways, r: seq<int>, now: int, strict: bool, o: nat)
    requires Keeps(set_, r, now, strict) && o < |r|
    ensures Way(set_, r[o]) < |set_| && r[o] >= 0 && Holds(set_[Way(set_, r[o])], r[o])
    ensures LastTouched(set_, r[o]) == set_[Way(set_, r[o])].lastAccess <= now
    ensures NoDup(r)
  {
    hide NoDup, Way, Later;
    WayHolds(set_, r[o]);
  }

  /** A way that is not written and holds another tag is found as before. */
  lemma UnwrittenWay(set_: Ways, w: nat, l: Line, v: nat, tag: int)
    requires w < |set_| && v < |set_| && v != w && Good(set_[w := l]) && tag >= 0 && Holds(set_[v], tag)
    ensures var t := set_[w := l]; Way(t, tag) == v && LastTouched(t, tag) == set_[v].lastAccess
  {
    WayUnique(set_[w := l], v, tag);
  }

  /** Any other tag of the new list keeps its way and its time. */
  lemma OthersKept(set_: Ways, r: seq<int>, now: int, strict: bool, time: nat, w: nat, l: Line, j: nat)
    requires Keeps(set_, r, now, strict) && MayWrite(set_, r, time, w, l) && Good(set_[w := l])
    requires 1 <= j < |LruStep(r, l.tag, |set_|)|
    ensures var q, i, t := LruStep(r, l.tag, |set_|), Position(r, l.tag), set_[w := l];
      var o := if j <= i then j - 1 else j;
      && o < |r| && q[j] == r[o] && Way(t, q[j]) < |t|
      && LastTouched(t, q[j]) == LastTouched(set_, r[o]) <= now
  {
    hide LruStep, NoDup, Keeps, Good, GoodLine, Way, LastTouched;
    ListKnows(set_, r, now, strict, time, w, l);
    LruStepAt(r, l.tag, |set_|);
    var q, i := LruStep(r, l.tag, |set_|), Position(r, l.tag);
    var o := if j <= i then j - 1 else j;
    assert q[j] == r[o];
    KeptEntry(set_, r, now, strict, o);
    assert q[j] != q[0] by { Distinct(q, 0, j); }
    Distinct(r, o, |r| - 1);
    UnwrittenWay(set_, w, l, Way(set_, r[o]), r[o]);
  }

  lemma KeepsAfterWrite(set_: Ways, r: seq<int>, now: int, strict: bool, time: nat, w: nat, l: Line)
    requires Keeps(set_, r, now, strict) && MayWrite(set_, r, time, w, l) && now <= time && (strict ==> now < time)
    ensures Keeps(set_[w := l], LruStep(r, l.tag, |set_|), time, strict)
  {
    hide LruStep, NoDup, Way, LastTouched, Good, Position, Later, InvalidLine, GoodLine;
    var q, t := LruStep(r, l.tag, |set_|), set_[w := l];
    ReplaceGood(set_, w, l);
    ListKnows(set_, r, now, strict, time, w, l);
    LruStepAt(r, l.tag, |set_|);
    CountReplaced(set_, w, l, |set_|);
    WayUnique(t, w, l.tag);
    HeadTouched(t, w, l.tag);
    forall j | 1 <= j < |q| { OthersKept(set_, r, now, strict, time, w, l, j); }
    forall i, j | 0 <= i < j < |q| ensures Later(LastTouched(t, q[i]), LastTouched(t, q[j]), strict) {
      OthersKept(set_, r, now, strict, time, w, l, j);
      if i == 0 { TimeIsLater(time, LastTouched(t, q[j]), now, strict); }
    }
    forall v | 0 <= v < |t| && !InvalidLine(t[v]) ensures t[v].tag in q && t[v].lastAccess <= time {
      if v == w { assert q[0] == l.tag; } else { OtherListed(set_, r, now, strict, time, w, l, v); }
    }
  }

  lemma TimeIsLater(time: int, x: int, now: int, strict: bool)
    requires x <= now <= time && (strict ==> now < time)
    ensures Later(time, x, strict)
  {}

  lemma HeadTouched(t: Ways, w: nat, tag: int)
    requires Way(t, tag) == w < |t|
    ensures LastTouched(t, tag) == t[w].lastAccess
  {}

  lemma OtherListed(set_: Ways, r: seq<int>, now: int, strict: bool, time: nat, w: nat, l: Line, v: nat)
    requires Keeps(set_, r, now, strict) && MayWrite(set_, r, time, w, l)
    requires v < |set_| && v != w && !InvalidLine(set_[v])
    ensures set_[v].tag in LruStep(r, l.tag, |set_|) && set_[v].lastAccess <= now
  {
    hide LruStep, NoDup;
    ListKnows(set_, r, now, strict, time, w, l);
    assert set_[v].tag in r;
    WayUnique(set_, v, set_[v].tag);
    if !InvalidLine(set_[w]) { WayUnique(set_, w, set_[w].tag); }
    LruStepKeeps<int>(r, l.tag, |set_|, set_[v].tag);
  }

  // ------------------------------------------------------------------
  // LRU replacement, step by step and over runs
  // ------------------------------------------------------------------

  /** The tag whose line the operation gives a new access time, if any. */
  function TouchOf(set_: Ways, op: Op, policy: Policy): Option<int>
    requires Formed(set_) && op.sector < SECTORS
  {
    match ProbeSet(set_, op.tag, op.sector, policy)
    case Hit(_) => if op.Load? || (op.Store? && op.touch) then Some(op.tag) else None
    case SectorMiss(_) => if op.FillOp? then Some(op.tag) else None
    case Miss(_) => if op.FillOp? then Some(op.tag) else None
    case _ => None
  }

  function Touched(r: seq<int>, o: Option<int>, k: nat): seq<int> {
    match o
    case None => r
    case Some(t) => LruStep(r, t, k)
  }

  lemma MissOfFullSet(set_: Ways, tag: nat, sector: nat, policy: Policy, w: nat)
    requires Formed(set_) && sector < SECTORS
    requires ProbeSet(set_, tag, sector, policy) == Miss(w) && w < |set_| && !InvalidLine(set_[w])
    ensures forall v :: 0 <= v < |set_| ==> !InvalidLine(set_[v])
  {
    LastInvalidIsLast(set_, |set_|);
    assert LastInvalid(set_, |set_|).None?;
  }

  /** The operation replaces a line of a full set, and a lower way than the least recent line's has the same
      access time. */
  ghost predicate Ties(set_: Ways, r: seq<int>, op: Op)
    requires Formed(set_) && op.sector < SECTORS
  {
    && op.FillOp? && ProbeSet(set_, op.tag, op.sector, Lru).Miss?
    && |r| == |set_| > 0
    && var l := Way(set_, r[|r| - 1]);
       l < |set_| && exists v :: 0 <= v < l && set_[v].lastAccess == set_[l].lastAccess
  }

  /** The last of the list has the smallest access time of the set. */
  lemma LastIsOldest(set_: Ways, r: seq<int>, now: int, strict: bool, v: nat)
    requires Keeps(set_, r, now, strict) && v < |set_| && !InvalidLine(set_[v])
    ensures |r| > 0
    ensures var l := Way(set_, r[|r| - 1]);
      && l < |set_| && set_[l].lastAccess <= set_[v].lastAccess
      && (strict && v != l ==> set_[l].lastAccess < set_[v].lastAccess)
  {
    hide NoDup, Way, Good, InvalidLine;
    var n := |r| - 1;
    var i :| 0 <= i < |r| && r[i] == set_[v].tag;
    WayUnique(set_, v, r[i]);
    assert Way(set_, r[n]) < |set_|;
    if i < n { assert Later(LastTouched(set_, r[i]), LastTouched(set_, r[n]), strict); }
  }

  /** The line replaced in a full set is the last of the list exactly when no lower way ties with it. */
  lemma VictimIsLastIff(set_: Ways, r: seq<int>, now: int, strict: bool, op: Op, w: nat)
    requires Keeps(set_, r, now, strict) && op.FillOp? && op.sector < SECTORS && Formed(set_)
    requires ProbeSet(set_, op.tag, op.sector, Lru) == Miss(w) && w < |set_| && !InvalidLine(set_[w])
    ensures |r| == |set_| > 0
    ensures r[|r| - 1] == set_[w].tag <==> !Ties(set_, r, op)
  {
    hide NoDup, ProbeSet, Way, InvalidLine, Good, LastTouched;
    MissOfFullSet(set_, op.tag, op.sector, Lru, w);
    VictimIsOldest(set_, op.tag, op.sector, Lru, w);
    LastIsOldest(set_, r, now, strict, w);
    var y := r[|r| - 1];
    var l := Way(set_, y);
    WayHolds(set_, y);
    WayUnique(set_, w, set_[w].tag);
    assert Stamp(set_[w], Lru) <= Stamp(set_[l], Lru);
    assert set_[w].lastAccess == set_[l].lastAccess;
    assert forall v :: 0 <= v < w ==> set_[w].lastAccess < set_[v].lastAccess;
  }

  /** Distinct times leave no ties. */
  lemma StrictHasNoTies(set_: Ways, r: seq<int>, now: int, op: Op)
    requires Keeps(set_, r, now, true) && Formed(set_) && op.sector < SECTORS
    ensures !Ties(set_, r, op)
  {
    hide ProbeSet, Way, NoDup, Good;
    if Ties(set_, r, op) {
      var l := Way(set_, r[|r| - 1]);
      var v :| 0 <= v < l && set_[v].lastAccess == set_[l].lastAccess;
      LastIsOldest(set_, r, now, true, v);
    }
  }

  lemma WayKept(set_: Ways, w: nat, l: Line, tag: int)
    requires w < |set_| && Good(set_[w := l]) && !InvalidLine(l)
    requires l.tag == set_[w].tag && l.lastAccess == set_[w].lastAccess
    requires Way(set_, tag) < |set_|
    ensures Way(set_[w := l], tag) == Way(set_, tag) && LastTouched(set_[w := l], tag) == LastTouched(set_, tag)
  {
    hide Good, InvalidLine;
    WayHolds(set_, tag);
    WayUnique(set_[w := l], Way(set_, tag), tag);
  }

  /** An operation that gives no line a new access time changes statuses only. */
  lemma UntouchedKeeps(set_: Ways, r: seq<int>, now: int, strict: bool, w: nat, l: Line, later: int)
    requires Keeps(set_, r, now, strict) && w < |set_| && GoodLine(l) && !InvalidLine(l) && !InvalidLine(set_[w])
    requires now <= later
    requires l.tag == set_[w].tag && l.lastAccess == set_[w].lastAccess
    ensures Keeps(set_[w := l], r, later, strict)
  {
    hide NoDup, GoodLine, Good, Way, LastTouched, InvalidLine;
    OnlyHolder(set_, w);
    ReplaceGood(set_, w, l);
    CountReplaced(set_, w, l, |set_|);
    forall i | 0 <= i < |r| { WayKept(set_, w, l, r[i]); }
  }

  lemma OnlyHolder(set_: Ways, w: nat)
    requires Good(set_) && w < |set_| && !InvalidLine(set_[w])
    ensures forall v :: 0 <= v < |set_| && v != w ==> !Holds(set_[v], set_[w].tag)
  {}

  lemma LaterKeeps(set_: Ways, r: seq<int>, now: int, strict: bool, later: int)
    requires Keeps(set_, r, now, strict) && now <= later
    ensures Keeps(set_, r, later, strict)
  {
    hide NoDup, Way, LastTouched, Good;
  }

  /** What an operation writes, by whether it touches. */
  lemma TouchWrites(set_: Ways, op: Op, time: nat)
    requires Good(set_) && op.sector < SECTORS && time < NO_TIME
    ensures Formed(set_)
    ensures var o, p := Written(set_, op, time, Lru), ProbeSet(set_, op.tag, op.sector, Lru);
      && (TouchOf(set_, op, Lru).Some? ==>
            && TouchOf(set_, op, Lru).value == op.tag && o.Some? && o.value.0 == p.way
            && o.value.1.lastAccess == time && o.value.1.tag == op.tag
            && (!p.Miss? ==> Holds(set_[p.way], op.tag)))
      && (TouchOf(set_, op, Lru).None? && o.Some? ==>
            && o.value.0 < |set_| && Holds(set_[o.value.0], op.tag)
            && o.value.1.tag == op.tag && o.value.1.lastAccess == set_[o.value.0].lastAccess)
  {
    hide ProbeSet, Good;
    ProbeNeverFails(set_, op.tag, op.sector, Lru);
  }

  /** Without a tie each operation moves the touched tag to the front, dropping the last of a full set. */
  lemma StepKeeps(set_: Ways, r: seq<int>, op: Op, now: int, time: nat, strict: bool)
    requires Keeps(set_, r, now, strict) && op.sector < SECTORS && now <= time < NO_TIME && (strict ==> now < time)
    requires Formed(set_) && !Ties(set_, r, op)
    ensures Keeps(Apply(set_, op, time, Lru), Touched(r, TouchOf(set_, op, Lru), |set_|), time, strict)
  {
    hide Apply, Written, TouchOf, ProbeSet, LruStep, Way, LastTouched, NoDup, GoodLine, Ties;
    ApplyWrites(set_, op, time, Lru);
    WrittenIsGood(set_, op, time, Lru);
    TouchWrites(set_, op, time);
    var o := Written(set_, op, time, Lru);
    if TouchOf(set_, op, Lru).Some? {
      var w := o.value.0;
      var p := ProbeSet(set_, op.tag, op.sector, Lru);
      ProbeNeverFails(set_, op.tag, op.sector, Lru);
      if p.Miss? && !InvalidLine(set_[w]) {
        MissesTouchByFill(set_, op);
        VictimIsLastIff(set_, r, now, strict, op, w);
      }
      KeepsAfterWrite(set_, r, now, strict, time, w, o.value.1);
    } else if o.Some? {
      UntouchedKeeps(set_, r, now, strict, o.value.0, o.value.1, time);
    } else {
      LaterKeeps(set_, r, now, strict, time);
    }
  }

  lemma MissesTouchByFill(set_: Ways, op: Op)
    requires Formed(set_) && op.sector < SECTORS
    ensures ProbeSet(set_, op.tag, op.sector, Lru).Miss? && TouchOf(set_, op, Lru).Some? ==> op.FillOp?
    ensures Ties(set_, [], op) ==> false
    ensures op.FillOp? && ProbeSet(set_, op.tag, op.sector, Lru).Miss? ==> TouchOf(set_, op, Lru).Some?
  {}

  /** With a tie the set throws out a more recent line and keeps the least recent one. */
  lemma TieBreaks(set_: Ways, r: seq<int>, op: Op, now: int, time: nat)
    requires Keeps(set_, r, now, false) && op.sector < SECTORS && now <= time < NO_TIME
    requires Formed(set_) && Ties(set_, r, op)
    ensures !Keeps(Apply(set_, op, time, Lru), Touched(r, TouchOf(set_, op, Lru), |set_|), time, false)
  {
    hide Apply, Written, TouchOf, ProbeSet, LruStep, LastTouched, NoDup, GoodLine, Way, Later;
    var p := ProbeSet(set_, op.tag, op.sector, Lru);
    ProbeNeverFails(set_, op.tag, op.sector, Lru);
    ApplyWrites(set_, op, time, Lru);
    TouchWrites(set_, op, time);
    MissesTouchByFill(set_, op);
    var o := Written(set_, op, time, Lru);
    var w := p.way;
    assert !InvalidLine(set_[w]);
    VictimIsLastIff(set_, r, now, false, op, w);
    var y := r[|r| - 1];
    var l := Way(set_, y);
    WayHolds(set_, y);
    assert l != w;
    var t := Apply(set_, op, time, Lru);
    assert t[l] == set_[l] && t[l].tag == y;
    NewcomerDropsLast(r, op.tag, |set_|, set_);
  }

  /** A tag that no way holds is new to the list, and pushes the last of a full list out. */
  lemma NewcomerDropsLast(r: seq<int>, tag: nat, k: nat, set_: Ways)
    requires NoDup(r) && |r| == k > 0 && k == |set_|
    requires forall i {:trigger r[i]} | 0 <= i < |r| :: Way(set_, r[i]) < |set_|
    requires forall v :: 0 <= v < |set_| ==> !Holds(set_[v], tag)
    ensures r[k - 1] !in LruStep(r, tag, k)
  {
    hide LruStep, Way;
    LruStepAt<int>(r, tag, k);
    var q, i := LruStep<int>(r, tag, k), Position<int>(r, tag);
    if i < k {
      assert Way(set_, r[i]) < |set_|;
      WayHolds(set_, r[i]);
    }
    assert Way(set_, r[k - 1]) < |set_|;
    WayHolds(set_, r[k - 1]);
    forall j | 0 <= j < |q| ensures q[j] != r[k - 1] {
      if j > 0 { assert q[j] == r[j - 1]; }
    }
  }

  /** One operation keeps the recency list exactly when it does not replace a line in a tie. */
  lemma StepKeepsIff(set_: Ways, r: seq<int>, op: Op, now: int, time: nat)
    requires Keeps(set_, r, now, false) && op.sector < SECTORS && now <= time < NO_TIME && Formed(set_)
    ensures Keeps(Apply(set_, op, time, Lru), Touched(r, TouchOf(set_, op, Lru), |set_|), time, false)
      <==> !Ties(set_, r, op)
  {
    hide Keeps, Apply, TouchOf, Ties, LruStep;
    if Ties(set_, r, op) {
      TieBreaks(set_, r, op, now, time);
    } else {
      StepKeeps(set_, r, op, now, time, false);
    }
  }

  // ------------------------------------------------------------------
  // Runs
  // ------------------------------------------------------------------

  /** Time does not run backwards; with `strict`, it moves on at every operation. */
  ghost predicate InOrder(ops: seq<Timed>, strict: bool) {
    && (forall i, j :: 0 <= i < j < |ops| ==> Later(ops[j].time, ops[i].time, strict))
    && (forall i :: 0 <= i < |ops| ==> ops[i].time < NO_TIME)
  }

  function Clock(ops: seq<Timed>): int { if ops == [] then -1 else ops[|ops| - 1].time }

  /** The tags touched by a run, in order. */
  function History(assoc: nat, ops: seq<Timed>): seq<int>
    requires Sectored(ops)
    decreases |ops|
  {
    if ops == [] then []
    else
      var n := |ops| - 1;
      History(assoc, ops[..n]) + OptSeq(TouchOf(RunSet(assoc, ops[..n], Lru), ops[n].op, Lru))
  }

  /** The first `assoc` tags of the recency list of everything touched in a run. */
  function ListAfter(assoc: nat, ops: seq<Timed>): seq<int>
    requires Sectored(ops)
  {
    Take(MostRecent(History(assoc, ops)), assoc)
  }

  ghost predicate KeptAfter(assoc: nat, ops: seq<Timed>, strict: bool)
    requires Sectored(ops)
  {
    Keeps(RunSet(assoc, ops, Lru), ListAfter(assoc, ops), Clock(ops), strict)
  }

  /** After every operation of the run the set holds exactly that list. */
  ghost predicate KeptThroughout(assoc: nat, ops: seq<Timed>)
    requires Sectored(ops)
    decreases |ops|
  {
    KeptAfter(assoc, ops, false) && (ops == [] || KeptThroughout(assoc, ops[..|ops| - 1]))
  }

  /** No operation of the run replaces a line in a tie. */
  ghost predicate NeverTies(assoc: nat, ops: seq<Timed>)
    requires Sectored(ops)
    decreases |ops|
  {
    ops == []
    || (var n := |ops| - 1;
        NeverTies(assoc, ops[..n])
        && !Ties(RunSet(assoc, ops[..n], Lru), ListAfter(assoc, ops[..n]), ops[n].op))
  }

  lemma EmptyKeeps(assoc: nat, now: int, strict: bool)
    requires assoc > 0
    ensures Keeps(EmptySet(assoc), [], now, strict)
  {
    EmptyCounts(assoc, assoc);
  }

  lemma {:induction false} EmptyCounts(assoc: nat, n: nat)
    requires n <= assoc
    ensures CountValid(EmptySet(assoc), n) == 0
  {
    if n > 0 { EmptyCounts(assoc, n - 1); }
  }

  lemma NothingKept(assoc: nat, strict: bool)
    requires assoc > 0
    ensures KeptAfter(assoc, [], strict)
  {
    hide Keeps;
    EmptyKeeps(assoc, -1, strict);
  }

  /** The list of the longer run is the list of the shorter one, touched once more or not at all. */
  lemma ListGrows(assoc: nat, ops: seq<Timed>)
    requires assoc > 0 && Sectored(ops) && ops != []
    ensures var n := |ops| - 1;
      ListAfter(assoc, ops)
      == Touched(ListAfter(assoc, ops[..n]), TouchOf(RunSet(assoc, ops[..n], Lru), ops[n].op, Lru), assoc)
  {
    hide MostRecent, Take, LruStep, TouchOf, RunSet;
    var n := |ops| - 1;
    HistoryStep(History(assoc, ops[..n]), TouchOf(RunSet(assoc, ops[..n], Lru), ops[n].op, Lru), assoc);
  }

  lemma HistoryStep(h: seq<int>, o: Option<int>, k: nat)
    requires k > 0
    ensures Take(MostRecent(h + OptSeq(o)), k) == Touched(Take(MostRecent(h), k), o, k)
  {
    hide MoveToFront, Take, LruStep;
    match o
    case None => assert h + OptSeq(o) == h;
    case Some(t) =>
      assert (h + [t])[..|h|] == h;
      MostRecentNoDup(h);
      TakeStep(MostRecent(h), t, k);
  }

  /** For every run, however many operations share a cycle: the set stays the first `assoc` tags of the recency
      list throughout, if and only if no replacing fill meets a tie. */
  lemma {:induction false} LruRefinesRecencyIff(assoc: nat, ops: seq<Timed>)
    requires assoc > 0 && Sectored(ops) && InOrder(ops, false)
    ensures KeptThroughout(assoc, ops) <==> NeverTies(assoc, ops)
    decreases |ops|
  {
    hide Keeps, Apply, TouchOf, Ties, ListAfter, LruStep;
    if ops == [] {
      NothingKept(assoc, false);
    } else {
      var n := |ops| - 1;
      LruRefinesRecencyIff(assoc, ops[..n]);
      ListGrows(assoc, ops);
      if KeptThroughout(assoc, ops[..n]) {
        StepKeepsIff(RunSet(assoc, ops[..n], Lru), ListAfter(assoc, ops[..n]), ops[n].op, Clock(ops[..n]), ops[n].time);
      }
    }
  }

  /** When every operation has a time of its own, no fill ever meets a tie. */
  lemma {:induction false} DistinctTimesNeverTie(assoc: nat, ops: seq<Timed>)
    requires assoc > 0 && Sectored(ops) && InOrder(ops, true)
    ensures KeptAfter(assoc, ops, true) && NeverTies(assoc, ops)
    decreases |ops|
  {
    hide Keeps, Apply, TouchOf, Ties, ListAfter, LruStep;
    if ops == [] {
      NothingKept(assoc, true);
    } else {
      var n := |ops| - 1;
      var s, r := RunSet(assoc, ops[..n], Lru), ListAfter(assoc, ops[..n]);
      DistinctTimesNeverTie(assoc, ops[..n]);
      ListGrows(assoc, ops);
      StrictHasNoTies(s, r, Clock(ops[..n]), ops[n].op);
      StepKeeps(s, r, ops[n].op, Clock(ops[..n]), ops[n].time, true);
    }
  }

  /** In every run without a tie a line is present exactly when it was touched and fewer than `assoc` distinct
      other lines were touched since. Put the other way: a line that was present goes only after `assoc` distinct
      others, the incoming one included, have been touched since its last touch. */
  lemma PresentIffRecent(assoc: nat, ops: seq<Timed>, tag: nat)
    requires assoc > 0 && Sectored(ops) && InOrder(ops, false) && NeverTies(assoc, ops)
    ensures var set_, h: seq<int> := RunSet(assoc, ops, Lru), History(assoc, ops);
      Present(set_, tag) <==> tag in h && |Since(h, tag)| < assoc
  {
    hide RunSet, History, MostRecent, Since, Take, LastTouched, CountValid, NoDup, Good, NeverTies, InOrder;
    var set_, h: seq<int> := RunSet(assoc, ops, Lru), History(assoc, ops);
    var r := Take(MostRecent(h), assoc);
    LruRefinesRecencyIff(assoc, ops);
    assert KeptAfter(assoc, ops, false);
    AmongMostRecentIff<int>(h, tag, assoc);
    if tag in r {
      var i :| 0 <= i < |r| && r[i] == tag;
      assert Way(set_, r[i]) < |set_|;
      WayHolds(set_, tag);
      var v := Way(set_, tag);
      assert 0 <= v < assoc && Holds(set_[v], tag);
    } else {
      forall w | 0 <= w < assoc ensures !Holds(set_[w], tag) {
        assert !InvalidLine(set_[w]) ==> set_[w].tag in r;
      }
    }
  }

  // ------------------------------------------------------------------
  // What holds with ties as well
  // ------------------------------------------------------------------

  datatype Touch = Touch(tag: int, time: int)

  /** The touches of a run, in order, with their times. */
  function Touches(assoc: nat, ops: seq<Timed>): seq<Touch>
    requires Sectored(ops)
    decreases |ops|
  {
    if ops == [] then []
    else
      var n := |ops| - 1;
      match TouchOf(RunSet(assoc, ops[..n], Lru), ops[n].op, Lru)
      case None => Touches(assoc, ops[..n])
      case Some(t) => Touches(assoc, ops[..n]) + [Touch(t, ops[n].time)]
  }

  /** Time of the last touch of a tag, -1 if there is none. */
  function LastTime(h: seq<Touch>, tag: int): int {
    if h == [] then -1
    else if h[|h| - 1].tag == tag then h[|h| - 1].time
    else LastTime(h[..|h| - 1], tag)
  }

  /** The tags touched at or after a time. */
  ghost function TouchedFrom(h: seq<Touch>, time: int): set<int> {
    set i | 0 <= i < |h| && h[i].time >= time :: h[i].tag
  }

  lemma {:induction false} LastTimeTouches(h: seq<Touch>, tag: int, time: int)
    requires LastTime(h, tag) >= time >= 0
    ensures tag in TouchedFrom(h, time)
  {
    var n := |h| - 1;
    if h[n].tag != tag {
      LastTimeTouches(h[..n], tag, time);
      var i :| 0 <= i < n && h[..n][i].time >= time && h[..n][i].tag == tag;
      assert h[i].tag == tag;
    }
  }

  /** Every line carries the time of its tag's last touch. */
  ghost predicate Stamped(set_: Ways, h: seq<Touch>, now: int) {
    && Good(set_)
    && forall w | 0 <= w < |set_| && !InvalidLine(set_[w]) ::
         set_[w].lastAccess == LastTime(h, set_[w].tag) && set_[w].lastAccess <= now
  }

  lemma StepKeepsStamped(set_: Ways, h: seq<Touch>, op: Op, now: int, time: nat)
    requires Stamped(set_, h, now) && op.sector < SECTORS && now <= time < NO_TIME
    ensures Formed(set_)
    ensures Stamped(Apply(set_, op, time, Lru),
                    match TouchOf(set_, op, Lru) { case None => h case Some(t) => h + [Touch(t, time)] }, time)
  {
    hide Apply, Written, TouchOf, ProbeSet, GoodLine, Good;
    ApplyKeepsGood(set_, op, time, Lru);
    ApplyWrites(set_, op, time, Lru);
    WrittenIsGood(set_, op, time, Lru);
    TouchWrites(set_, op, time);
    match TouchOf(set_, op, Lru)
    case None =>
    case Some(t) =>
      assert (h + [Touch(t, time)])[..|h|] == h;
  }

  lemma {:induction false} RunStamped(assoc: nat, ops: seq<Timed>)
    requires assoc > 0 && Sectored(ops) && InOrder(ops, false)
    ensures Stamped(RunSet(assoc, ops, Lru), Touches(assoc, ops), Clock(ops))
    decreases |ops|
  {
    hide Stamped, Apply, TouchOf;
    if ops == [] {
      EmptyStamped(assoc);
    } else {
      var n := |ops| - 1;
      RunStamped(assoc, ops[..n]);
      StepKeepsStamped(RunSet(assoc, ops[..n], Lru), Touches(assoc, ops[..n]), ops[n].op, Clock(ops[..n]), ops[n].time);
    }
  }

  lemma EmptyStamped(assoc: nat)
    requires assoc > 0
    ensures Stamped(EmptySet(assoc), [], -1)
  {}

  function TagsOf(set_: Ways, n: nat): set<int>
    requires n <= |set_|
  {
    if n == 0 then {} else TagsOf(set_, n - 1) + {set_[n - 1].tag}
  }

  lemma {:induction false} TagsDiffer(set_: Ways, n: nat)
    requires Good(set_) && n <= |set_| && forall v :: 0 <= v < |set_| ==> !InvalidLine(set_[v])
    ensures |TagsOf(set_, n)| == n && forall x :: x in TagsOf(set_, n) <==> exists v :: 0 <= v < n && set_[v].tag == x
  {
    if n > 0 { TagsDiffer(set_, n - 1); }
  }

  /** A line goes only when a fill replaces it in a full set; nothing in the new set was touched before it. */
  lemma EvictionIsReplacement(set_: Ways, op: Op, time: nat, w: nat)
    requires Good(set_) && op.sector < SECTORS && time < NO_TIME && w < |set_| && !InvalidLine(set_[w])
    requires set_[w].lastAccess <= time && Formed(set_)
    requires forall v :: 0 <= v < |set_| ==> !Holds(Apply(set_, op, time, Lru)[v], set_[w].tag)
    ensures var t := Apply(set_, op, time, Lru);
      && TouchOf(set_, op, Lru) == Some(op.tag) && op.tag != set_[w].tag
      && (forall v :: 0 <= v < |t| ==> !InvalidLine(t[v]) && t[v].lastAccess >= set_[w].lastAccess)
  {
    hide Apply, Written, TouchOf, ProbeSet, GoodLine, Good, InvalidLine;
    ProbeNeverFails(set_, op.tag, op.sector, Lru);
    ApplyWrites(set_, op, time, Lru);
    WrittenIsGood(set_, op, time, Lru);
    TouchWrites(set_, op, time);
    var o, p := Written(set_, op, time, Lru), ProbeSet(set_, op.tag, op.sector, Lru);
    var t := Apply(set_, op, time, Lru);
    assert !Holds(t[w], set_[w].tag);
    assert o.Some? && o.value.0 == w;
    MissOfFullSet(set_, op.tag, op.sector, Lru, w);
    VictimIsOldest(set_, op.tag, op.sector, Lru, w);
    forall v | 0 <= v < |t| ensures !InvalidLine(t[v]) && t[v].lastAccess >= set_[w].lastAccess {
      if v != w { assert Stamp(set_[w], Lru) <= Stamp(set_[v], Lru); }
    }
  }

  /** In every run, ties or not: when a line goes, `assoc` distinct other lines, the incoming one included, have
      been touched at or after its own last touch. */
  lemma EvictedOnlyAfterOthers(assoc: nat, ops: seq<Timed>, tag: nat)
    requires assoc > 0 && Sectored(ops) && InOrder(ops, false) && ops != []
    requires Present(RunSet(assoc, ops[..|ops| - 1], Lru), tag) && !Present(RunSet(assoc, ops, Lru), tag)
    ensures var others, h := TagsOf(RunSet(assoc, ops, Lru), assoc), Touches(assoc, ops);
      |others| == assoc && tag !in others && others <= TouchedFrom(h, LastTime(h, tag))
  {
    hide Apply, Good, TouchedFrom, InvalidLine, TouchOf, TagsOf;
    var n := |ops| - 1;
    var s, t := RunSet(assoc, ops[..n], Lru), RunSet(assoc, ops, Lru);
    var h, h' := Touches(assoc, ops[..n]), Touches(assoc, ops);
    RunStamped(assoc, ops[..n]);
    RunStamped(assoc, ops);
    var w :| 0 <= w < assoc && Holds(s[w], tag);
    EvictionIsReplacement(s, ops[n].op, ops[n].time, w);
    assert h' == h + [Touch(ops[n].op.tag, ops[n].time)] && h'[..|h|] == h;
    assert LastTime(h', tag) == s[w].lastAccess;
    TagsDiffer(t, assoc);
    forall x | x in TagsOf(t, assoc) ensures x != tag && x in TouchedFrom(h', s[w].lastAccess) {
      var v :| 0 <= v < assoc && t[v].tag == x;
      LastTimeTouches(h', x, s[w].lastAccess);
    }
  }

  // ------------------------------------------------------------------
  // A run that meets a tie
  // ------------------------------------------------------------------

  /** A line with one valid sector. */
  function Held(tag: nat, sector: nat, alloc: nat, access: nat): Line
    requires sector < SECTORS
  {
    Line(tag, EMPTY_LINE.status[sector := Valid], EMPTY_LINE.readable, alloc, access)
  }

  lemma HeldFacts(tag: nat, sector: nat, alloc: nat, access: nat)
    requires sector < SECTORS
    ensures var l := Held(tag, sector, alloc, access);
      && WellFormed(l) && !InvalidLine(l) && !ReservedLine(l) && l.tag == tag && l.status[sector] == Valid
      && l.lastAccess == access
    ensures Marked(Allocated(tag, sector, alloc), sector, Valid) == Held(tag, sector, alloc, alloc)
    ensures InvalidLine(EMPTY_LINE) && !ReservedLine(EMPTY_LINE)
  {
    assert Held(tag, sector, alloc, access).status[sector] == Valid;
  }

  /** One more operation, seen from the run before it. */
  lemma RunExtends(assoc: nat, ops: seq<Timed>, t: Timed)
    requires Sectored(ops) && t.op.sector < SECTORS
    ensures Sectored(ops + [t])
    ensures RunSet(assoc, ops + [t], Lru) == Apply(RunSet(assoc, ops, Lru), t.op, t.time, Lru)
    ensures History(assoc, ops + [t]) == History(assoc, ops) + OptSeq(TouchOf(RunSet(assoc, ops, Lru), t.op, Lru))
    ensures NeverTies(assoc, ops + [t])
      <==> NeverTies(assoc, ops) && !Ties(RunSet(assoc, ops, Lru), ListAfter(assoc, ops), t.op)
  {
    hide Apply, TouchOf, Ties, ListAfter;
    assert (ops + [t])[..|ops|] == ops;
  }

  /** The set and the touches a run has come to. */
  ghost predicate Reached(ops: seq<Timed>, set_: Ways, h: seq<int>) {
    Sectored(ops) && RunSet(2, ops, Lru) == set_ && History(2, ops) == h
  }

  lemma FillReaches(ops: seq<Timed>, set_: Ways, h: seq<int>, w: nat, tag: nat, sector: nat, time: nat)
    requires Reached(ops, set_, h) && sector < SECTORS && w < |set_|
    requires Formed(set_) && LastInvalid(set_, |set_|) == Some(w) && FirstMatch(set_, tag, 0) == |set_|
    requires !ReservedLine(set_[w])
    ensures Reached(ops + [Timed(FillOp(tag, sector), time)], set_[w := Held(tag, sector, time, time)], h + [tag])
  {
    hide InvalidLine, ReservedLine, LastInvalid, FirstMatch, RunSet, History, NeverTies;
    HeldFacts(tag, sector, time, time);
    RunExtends(2, ops, Timed(FillOp(tag, sector), time));
  }

  lemma LoadReaches(ops: seq<Timed>, set_: Ways, h: seq<int>, w: nat, tag: nat, sector: nat, time: nat)
    requires Reached(ops, set_, h) && sector < SECTORS && w < |set_|
    requires Formed(set_) && FirstMatch(set_, tag, 0) == w && set_[w].status[sector] == Valid
    ensures Reached(ops + [Timed(Load(tag, sector), time)], set_[w := set_[w].(lastAccess := time)], h + [tag])
  {
    hide InvalidLine, ReservedLine, FirstMatch, RunSet, History, NeverTies;
    RunExtends(2, ops, Timed(Load(tag, sector), time));
  }

  /** Two lines are filled; later both are hit in one cycle, in different banks. */
  const TWO_FILLS := [Timed(FillOp(1, 0), 101), Timed(FillOp(2, 1), 102)]
  const TWO_HITS := TWO_FILLS + [Timed(Load(1, 0), 105)] + [Timed(Load(2, 1), 105)]

  /** A third line comes in. */
  const TIED := TWO_HITS + [Timed(FillOp(3, 0), 106)]

  lemma TwoFilled()
    ensures Reached(TWO_FILLS, [Held(2, 1, 102, 102), Held(1, 0, 101, 101)], [1, 2])
  {
    hide Reached, InvalidLine, ReservedLine, Held;
    var s0, l1, l2 := EmptySet(2), Held(1, 0, 101, 101), Held(2, 1, 102, 102);
    HeldFacts(1, 0, 101, 101);
    HeldFacts(2, 1, 102, 102);
    NothingReached();
    assert LastInvalid(s0, 2) == Some(1);
    FillReaches([], s0, [], 1, 1, 0, 101);
    var s1 := [EMPTY_LINE, l1];
    assert s0[1 := l1] == s1 && [] + [1] == [1];
    assert LastInvalid(s1, 1) == Some(0) && FirstMatch(s1, 2, 0) == 2;
    FillReaches([] + [Timed(FillOp(1, 0), 101)], s1, [1], 0, 2, 1, 102);
    assert s1[0 := l2] == [l2, l1] && [1] + [2] == [1, 2];
    assert [] + [Timed(FillOp(1, 0), 101)] + [Timed(FillOp(2, 1), 102)] == TWO_FILLS;
  }

  lemma NothingReached()
    ensures Reached([], EmptySet(2), [])
  {}

  lemma TwoHit()
    ensures Reached(TWO_HITS, [Held(2, 1, 102, 105), Held(1, 0, 101, 105)], [1, 2, 1, 2])
  {
    hide Reached, InvalidLine, ReservedLine;
    HeldFacts(1, 0, 101, 101);
    HeldFacts(2, 1, 102, 102);
    HeldFacts(1, 0, 101, 105);
    TwoFilled();
    var s2 := [Held(2, 1, 102, 102), Held(1, 0, 101, 101)];
    assert FirstMatch(s2, 1, 1) == 1;
    LoadReaches(TWO_FILLS, s2, [1, 2], 1, 1, 0, 105);
    var s3 := [Held(2, 1, 102, 102), Held(1, 0, 101, 105)];
    assert s2[1 := s2[1].(lastAccess := 105)] == s3 && [1, 2] + [1] == [1, 2, 1];
    LoadReaches(TWO_FILLS + [Timed(Load(1, 0), 105)], s3, [1, 2, 1], 0, 2, 1, 105);
    assert s3[0 := s3[0].(lastAccess := 105)] == [Held(2, 1, 102, 105), Held(1, 0, 101, 105)];
    assert [1, 2, 1] + [2] == [1, 2, 1, 2];
  }

  /** The least recent line is in way 1, but the scan stops at way 0, which has the same time. */
  lemma ThirdFill()
    ensures var s := [Held(2, 1, 102, 105), Held(1, 0, 101, 105)];
      && Formed(s) && Apply(s, FillOp(3, 0), 106, Lru) == [Held(3, 0, 106, 106), Held(1, 0, 101, 105)]
      && Ties(s, [2, 1], FillOp(3, 0))
  {
    hide InvalidLine, ReservedLine, Held;
    HeldFacts(1, 0, 101, 105);
    HeldFacts(2, 1, 102, 105);
    HeldFacts(3, 0, 106, 106);
    var s := [Held(2, 1, 102, 105), Held(1, 0, 101, 105)];
    assert Oldest(s, Lru, 1) == Some(0);
    assert Oldest(s, Lru, 2) == Some(0);
    assert FirstMatch(s, 3, 0) == 2;
    assert FirstMatch(s, 1, 0) == 1;
    assert s[0].lastAccess == s[1].lastAccess && !ReservedLine(s[0]);
  }

  lemma RecentExtends(h: seq<int>, t: int)
    ensures MostRecent(h + [t]) == MoveToFront(MostRecent(h), t)
  {
    hide MoveToFront;
    assert (h + [t])[..|h|] == h;
  }

  lemma SecondToFront(x: int, y: int)
    requires x != y
    ensures MoveToFront<int>([], y) == [y] && MoveToFront([x], y) == [y, x] && MoveToFront([x, y], y) == [y, x]
  {
    assert Position([x], y) == 1;
    assert [x, y][1..] == [y] && Position([y], y) == 0;
  }

  lemma TwoMostRecent()
    ensures Take(MostRecent<int>([1, 2, 1, 2]), 2) == [2, 1]
  {
    hide MoveToFront, MostRecent;
    SecondToFront(1, 2);
    SecondToFront(2, 1);
    assert MostRecent<int>([]) == [] by { NoneRecent(); }
    RecentExtends([], 1);
    RecentExtends([1], 2);
    RecentExtends([1, 2], 1);
    RecentExtends([1, 2, 1], 2);
    assert [] + [1] == [1] && [1] + [2] == [1, 2] && [1, 2] + [1] == [1, 2, 1] && [1, 2, 1] + [2] == [1, 2, 1, 2];
  }

  lemma NoneRecent()
    ensures MostRecent<int>([]) == []
  {}

  lemma TiedInOrder()
    ensures InOrder(TIED, false)
  {
    assert |TIED| == 5;
    assert TIED[0].time == 101 && TIED[1].time == 102 && TIED[2].time == 105 && TIED[3].time == 105;
    assert TIED[4].time == 106;
  }

  /** With equal times recency is lost: of two lines hit in one cycle, a later fill replaces the one hit last,
      although the other one is the less recent. */
  lemma EqualTimesBreakRecency()
    ensures Sectored(TIED) && InOrder(TIED, false)
    ensures RunSet(2, TIED, Lru) == [Held(3, 0, 106, 106), Held(1, 0, 101, 105)]
    ensures !NeverTies(2, TIED) && !KeptThroughout(2, TIED)
  {
    hide Apply, TouchOf, Ties, KeptThroughout, NeverTies, RunSet, History, Held, InOrder, MostRecent, Take, Sectored;
    TwoHit();
    TwoMostRecent();
    TiedInOrder();
    ThirdFill();
    RunExtends(2, TWO_HITS, Timed(FillOp(3, 0), 106));
    LruRefinesRecencyIff(2, TIED);
  }
}
