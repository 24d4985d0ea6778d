/** Recency lists: what least-recently-used replacement keeps, over any kind of tag. */
module Recency {
  import opened Basics

  // ------------------------------------------------------------------
  // Recency lists
  // ------------------------------------------------------------------

  /** Position of t, |r| if absent. */
  function Position<T(==)>(r: seq<T>, t: T): (i: nat)
    ensures i <= |r|
    ensures i < |r| ==> r[i] == t
    ensures forall j :: 0 <= j < i ==> r[j] != t
  {
    if r == [] then 0
    else if r[0] == t then 0
    else
      var i := Position(r[1..], t);
      assert forall j :: 1 <= j < i + 1 ==> r[j] == r[1..][j - 1];
      i + 1
  }

  function Remove<T(==)>(r: seq<T>, t: T): seq<T> {
    var i := Position(r, t);
    if i < |r| then r[..i] + r[i + 1..] else r
  }

  function MoveToFront<T(==)>(r: seq<T>, t: T): seq<T> { [t] + Remove(r, t) }

  function Take<T(==)>(r: seq<T>, k: nat): seq<T> { if k < |r| then r[..k] else r }

  /** One touch of an LRU set of k ways. */
  function LruStep<T(==)>(r: seq<T>, t: T, k: nat): seq<T> { Take(MoveToFront(r, t), k) }

  /** Tags in order of their last touch, the latest first. */
  function MostRecent<T(==)>(h: seq<T>): seq<T> {
    if h == [] then [] else MoveToFront(MostRecent(h[..|h| - 1]), h[|h| - 1])
  }

  /** The distinct tags touched after the last touch of t. */
  function Since<T(==)>(h: seq<T>, t: T): set<T> {
    if h == [] || h[|h| - 1] == t then {} else Since(h[..|h| - 1], t) + {h[|h| - 1]}
  }

  /** Entry by entry: what stood before t moves back one place, what stood behind stays. */
  lemma MoveToFrontAt<T>(r: seq<T>, t: T)
    ensures var m, i := MoveToFront(r, t), Position(r, t);
      && |m| == (if i < |r| then |r| else |r| + 1) && m[0] == t
      && (forall j {:trigger m[j]} | 1 <= j < |m| :: m[j] == if j <= i then r[j - 1] else r[j])
  {}

  lemma MoveToFrontMembers<T>(r: seq<T>, t: T)
    ensures forall x :: x in MoveToFront(r, t) <==> x == t || x in r
  {
    hide MoveToFront;
    MoveToFrontAt(r, t);
    var m, i := MoveToFront(r, t), Position(r, t);
    forall x | x in r && x != t ensures x in m {
      var j :| 0 <= j < |r| && r[j] == x;
      assert m[if j < i then j + 1 else j] == x;
    }
  }

  lemma MoveToFrontNoDup<T>(r: seq<T>, t: T)
    requires NoDup(r)
    ensures NoDup(MoveToFront(r, t))
  {
    hide MoveToFront;
    MoveToFrontAt(r, t);
  }

  lemma {:induction false} MostRecentNoDup<T>(h: seq<T>)
    ensures NoDup(MostRecent(h))
    ensures forall x :: x in MostRecent(h) <==> x in h
  {
    if h != [] {
      var g, t := h[..|h| - 1], h[|h| - 1];
      MostRecentNoDup(g);
      MoveToFrontNoDup(MostRecent(g), t);
      MoveToFrontMembers(MostRecent(g), t);
      assert h == g + [t];
    }
  }

  /** Keeping only k entries after every touch loses nothing: the stack property of LRU. */
  lemma TakeStep<T>(m: seq<T>, t: T, k: nat)
    requires NoDup(m) && k > 0
    ensures LruStep(Take(m, k), t, k) == Take(MoveToFront(m, t), k)
  {
    hide MoveToFront, NoDup;
    var r := Take(m, k);
    PositionOfTake(m, t, k);
    MoveToFrontAt(m, t);
    MoveToFrontAt(r, t);
    var p, q := LruStep(r, t, k), Take(MoveToFront(m, t), k);
    assert |p| == |q|;
    forall j | 0 <= j < |p| ensures p[j] == q[j] {
      assert p[j] == MoveToFront(r, t)[j] && q[j] == MoveToFront(m, t)[j];
    }
  }

  lemma PositionOfTake<T>(m: seq<T>, t: T, k: nat)
    requires NoDup(m)
    ensures var r := Take(m, k); Position(r, t) == if Position(m, t) < |r| then Position(m, t) else |r|
  {
    var r, i := Take(m, k), Position(m, t);
    assert i < |r| ==> r[i] == t;
    assert NoDup(r);
  }

  lemma PositionUnique<T>(r: seq<T>, t: T, j: nat)
    requires NoDup(r) && j < |r| && r[j] == t
    ensures Position(r, t) == j
  {}

  /** Touching x moves t back one place exactly when x was not already ahead of it. */
  lemma PositionAfter<T>(r: seq<T>, x: T, t: T)
    requires NoDup(r) && x != t && Position(r, t) < |r|
    ensures var i := Position(r, t);
      Position(MoveToFront(r, x), t) == (if Position(r, x) < i then i else i + 1) < |MoveToFront(r, x)|
  {
    hide MoveToFront;
    MoveToFrontAt(r, x);
    MoveToFrontNoDup(r, x);
    var i := Position(r, t);
    var m, j := MoveToFront(r, x), if Position(r, x) < i then i else i + 1;
    assert m[j] == t;
    PositionUnique(m, t, j);
  }

  /** Before t in the recency list stand exactly the tags touched since. */
  lemma {:induction false} PositionCounts<T>(h: seq<T>, t: T)
    requires t in h
    ensures var m, i, s := MostRecent(h), Position(MostRecent(h), t), Since(h, t);
      && i < |m| && i == |s|
      && (forall j {:trigger m[j]} | 0 <= j < |m| :: m[j] in s <==> j < i)
      && (forall x | x in s :: x in m)
  {
    hide MoveToFront, Position, Since, NoDup;
    var g, x := h[..|h| - 1], h[|h| - 1];
    assert h == g + [x];
    MostRecentNoDup(g);
    MoveToFrontAt(MostRecent(g), x);
    MoveToFrontMembers(MostRecent(g), x);
    LastTouch(h, t);
    if x == t {
      MoveToFrontNoDup(MostRecent(g), x);
      PositionUnique(MostRecent(h), t, 0);
    } else {
      PositionCounts(g, t);
      PositionAfter(MostRecent(g), x, t);
      CountsStep(MostRecent(g), x, t, Since(g, t));
      forall y | y in Since(h, t) ensures y in MostRecent(h) {
        assert y == x || y in Since(g, t);
        assert MostRecent(h) == MoveToFront(MostRecent(g), x);
      }
    }
  }

  lemma LastTouch<T>(h: seq<T>, t: T)
    requires h != []
    ensures var x := h[|h| - 1]; Since(h, t) == if x == t then {} else Since(h[..|h| - 1], t) + {x}
  {}

  lemma CountsStep<T>(r: seq<T>, x: T, t: T, s: set<T>)
    requires NoDup(r) && x != t && Position(r, t) < |r| && Position(r, t) == |s|
    requires forall j {:trigger r[j]} | 0 <= j < |r| :: r[j] in s <==> j < Position(r, t)
    requires forall y | y in s :: y in r
    ensures var m := MoveToFront(r, x);
      var i := Position(m, t);
      && i == |s + {x}|
      && (forall j {:trigger m[j]} | 0 <= j < |m| :: m[j] in s + {x} <==> j < i)
  {
    hide MoveToFront;
    MoveToFrontAt(r, x);
    PositionAfter(r, x, t);
    var p := Position(r, x);
    if p < |r| {
      assert x in s <==> p < Position(r, t);
    } else {
      assert x !in r;
    }
    assert x in s ==> s + {x} == s;
  }

  /** A tag is among the k most recent exactly when fewer than k others were touched since its last touch. */
  lemma AmongMostRecentIff<T>(h: seq<T>, t: T, k: nat)
    ensures t in Take(MostRecent(h), k) <==> t in h && |Since(h, t)| < k
  {
    MostRecentNoDup(h);
    if t in h {
      PositionCounts(h, t);
      var m, i := MostRecent(h), Position(MostRecent(h), t);
      if i < k {
        assert Take(m, k)[i] == t;
      }
    }
  }

  lemma LruStepAt<T>(r: seq<T>, t: T, k: nat)
    requires NoDup(r) && |r| <= k && k > 0
    ensures var q, i := LruStep(r, t, k), Position(r, t);
      && |q| == (if i < |r| || |r| == k then |r| else |r| + 1) && q[0] == t
      && (forall j {:trigger q[j]} | 1 <= j < |q| :: q[j] == if j <= i then r[j - 1] else r[j])
      && NoDup(q)
      && (forall x | x in q :: x == t || x in r)
  {
    hide MoveToFront;
    MoveToFrontAt(r, t);
    MoveToFrontNoDup(r, t);
    MoveToFrontMembers(r, t);
  }

  /** Every old member stays, except the last of a full list when a new one comes in. */
  lemma LruStepKeeps<T>(r: seq<T>, t: T, k: nat, x: T)
    requires NoDup(r) && |r| <= k && k > 0 && x in r
    requires Position(r, t) < |r| || |r| < k || x != r[|r| - 1]
    ensures x in LruStep(r, t, k)
  {
    hide LruStep, NoDup;
    LruStepAt(r, t, k);
    var q, i := LruStep(r, t, k), Position(r, t);
    var j :| 0 <= j < |r| && r[j] == x;
    if x != t { assert q[if j < i then j + 1 else j] == x; } else { assert q[0] == x; }
  }

  lemma Distinct<T>(r: seq<T>, i: nat, j: nat)
    requires NoDup(r) && i < |r| && j < |r|
    ensures r[i] == r[j] ==> i == j
  {}
}
