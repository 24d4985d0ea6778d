/** Memory requests, the miss-status holding registers that merge them, and counting them in queues. */
module Requests {
  import opened Basics

  datatype Kind = Load | Store | WriteThrough

  /** The instruction a request belongs to: block, warp, index into the warp's completions. */
  datatype Slot = Slot(block: int, warp: int, index: nat)

  datatype Request = Request(
    id: nat, kind: Kind, sm: nat,
    bank: nat,     // sector number within the line, which is also the L1 bank
    addr: nat,     // address of the line
    sector: nat,   // address of the sector
    slot: Slot)

  /** Sector address -> requests waiting for it, oldest first. */
  type Table = map<nat, seq<Request>>

  function Waiting(t: Table, s: nat): seq<Request> {
    if s in t then t[s] else []
  }

  predicate TableFull(t: Table, s: nat, entries: nat, merged: nat) {
    if s in t then |t[s]| >= merged else |t| >= entries
  }

  function Merged(t: Table, s: nat, r: Request): Table {
    t[s := Waiting(t, s) + [r]]
  }

  function NeedReply(q: seq<Request>): seq<Request> {
    if q == [] then [] else (if q[0].kind == Load then [q[0]] else []) + NeedReply(q[1..])
  }

  lemma {:induction false} LoadsNeedReply(q: seq<Request>)
    requires forall i :: 0 <= i < |q| ==> q[i].kind == Load
    ensures NeedReply(q) == q
  {
    if q != [] {
      LoadsNeedReply(q[1..]);
      assert q == [q[0]] + q[1..];
    }
  }

  // ------------------------------------------------------------------
  // Counting loads
  // ------------------------------------------------------------------

  /** What a count looks for: loads of one SM for one sector, of one sector, or of one instruction. */
  datatype Pattern = ForEntry(sm: nat, sector: nat) | ForSector(sector: nat) | ForSlot(slot: Slot)

  predicate Matches(r: Request, m: Pattern) {
    && r.kind == Load
    && match m
       case ForEntry(sm, s) => r.sm == sm && r.sector == s
       case ForSector(s) => r.sector == s
       case ForSlot(slot) => r.slot == slot
  }

  function One(r: Request, m: Pattern): nat { if Matches(r, m) then 1 else 0 }

  function Count(q: seq<Request>, m: Pattern): nat {
    if q == [] then 0 else One(q[0], m) + Count(q[1..], m)
  }

  lemma {:induction false} CountConcat(a: seq<Request>, b: seq<Request>, m: Pattern)
    ensures Count(a + b, m) == Count(a, m) + Count(b, m)
  {
    if a == [] {
      assert a + b == b;
    } else {
      assert (a + b)[1..] == a[1..] + b;
      CountConcat(a[1..], b, m);
    }
  }

  lemma CountsOfPush(q: seq<Request>, r: Request)
    ensures forall m :: Count(q + [r], m) == Count(q, m) + One(r, m)
  {
    forall m ensures Count(q + [r], m) == Count(q, m) + One(r, m) { CountConcat(q, [r], m); }
  }

  lemma CountsOfConcat(a: seq<Request>, b: seq<Request>)
    ensures forall m :: Count(a + b, m) == Count(a, m) + Count(b, m)
  {
    forall m ensures Count(a + b, m) == Count(a, m) + Count(b, m) { CountConcat(a, b, m); }
  }

  lemma CountsOfWithout(q: seq<Request>, i: nat)
    requires i < |q|
    ensures forall m :: Count(q, m) == Count(Without(q, i), m) + One(q[i], m)
  {
    forall m ensures Count(q, m) == Count(Without(q, i), m) + One(q[i], m) {
      assert q == (q[..i] + [q[i]]) + q[i + 1..];
      CountConcat(q[..i] + [q[i]], q[i + 1..], m);
      CountConcat(q[..i], [q[i]], m);
      CountConcat(q[..i], q[i + 1..], m);
    }
  }

  lemma MultisetWithout(q: seq<Request>, i: nat)
    requires i < |q|
    ensures multiset(q) == multiset(Without(q, i)) + multiset{q[i]}
  {
    assert q == q[..i] + [q[i]] + q[i + 1..];
  }

  /** Loads all of which, or none of which, match. */
  lemma {:induction false} CountAll(q: seq<Request>, m: Pattern, all: bool)
    requires forall i :: 0 <= i < |q| ==> Matches(q[i], m) == all
    ensures Count(q, m) == if all then |q| else 0
  {
    if q != [] { CountAll(q[1..], m, all); }
  }

  lemma {:induction false} CountZero(q: seq<Request>, m: Pattern)
    requires Count(q, m) == 0
    ensures forall i :: 0 <= i < |q| ==> !Matches(q[i], m)
  {
    if q != [] { CountZero(q[1..], m); }
  }

  /** A queue contained in another, element for element, counts no more. */
  lemma {:induction false} CountContained(a: seq<Request>, b: seq<Request>, m: Pattern)
    requires multiset(a) <= multiset(b)
    ensures Count(a, m) <= Count(b, m)
  {
    if a != [] {
      assert a[0] in multiset(a);
      var i :| 0 <= i < |b| && b[i] == a[0];
      assert a == [a[0]] + a[1..];
      MultisetWithout(b, i);
      assert multiset(a) == multiset{a[0]} + multiset(a[1..]);
      assert multiset(a[1..]) == multiset(a) - multiset{a[0]};
      assert multiset(Without(b, i)) == multiset(b) - multiset{a[0]};
      CountContained(a[1..], Without(b, i), m);
      CountsOfWithout(b, i);
    }
  }
}
