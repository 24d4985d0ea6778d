/** The linked-list queue `fifo_pipeline`: a FIFO that can be padded with NULL slots
    so that it also serves as a delay line. */
module DelayQueue {
  import opened Basics

  // ------------------------------------------------------------------
  // What the operations do to the row of slots
  // ------------------------------------------------------------------

  /** A push re-uses a NULL slot at the tail, unless the row is shorter than `minLen`. */
  function Push<T>(s: seq<Option<T>>, minLen: nat, x: Option<T>): seq<Option<T>> {
    if s != [] && s[|s|-1].None? && minLen <= |s|
    then s[..|s|-1] + [x]
    else s + [x]
  }

  function PopNoReplenish<T>(s: seq<Option<T>>): seq<Option<T>> {
    if s == [] then [] else s[1..]
  }

  /** A pop that leaves fewer than `minLen` slots pushes one NULL. */
  function Pop<T>(s: seq<Option<T>>, minLen: nat): seq<Option<T>> {
    if s == [] then []
    else if |s| - 1 < minLen then Push(s[1..], minLen, None)
    else s[1..]
  }

  function Top<T>(s: seq<Option<T>>): Option<T> {
    if s == [] then None else s[0]
  }

  function Nulls<T>(n: nat): (s: seq<Option<T>>)
    ensures |s| == n && forall i :: 0 <= i < n ==> s[i] == None
  {
    if n == 0 then [] else Nulls<T>(n - 1) + [None]
  }

  /** Drops NULL slots from the tail while more than `minLen` slots remain. */
  function Trim<T>(s: seq<Option<T>>, minLen: nat): seq<Option<T>> {
    if minLen < |s| && s[|s|-1].None? then Trim(s[..|s|-1], minLen) else s
  }

  function SetMinLength<T>(s: seq<Option<T>>, oldMin: nat, newMin: nat): seq<Option<T>> {
    if newMin == oldMin then s
    else if oldMin < newMin then (if |s| < newMin then s + Nulls(newMin - |s|) else s)
    else Trim(s, newMin)
  }

  // ------------------------------------------------------------------
  // The queue property: NULL padding never disturbs the items
  // ------------------------------------------------------------------

  lemma PushIsEnqueue<T>(s: seq<Option<T>>, minLen: nat, x: Option<T>)
    ensures Items(Push(s, minLen, x)) == Items(s) + OptSeq(x)
    ensures |s| <= |Push(s, minLen, x)| <= |s| + 1
    ensures minLen <= |s| ==> minLen <= |Push(s, minLen, x)|
  {
    if s != [] && s[|s|-1].None? && minLen <= |s| {
      var front := s[..|s|-1];
      assert s == front + [None];
      ItemsSnoc(front, None);
      ItemsSnoc(front, x);
    } else {
      ItemsSnoc(s, x);
    }
  }

  lemma PopIsDequeue<T>(s: seq<Option<T>>, minLen: nat)
    ensures Items(s) == OptSeq(Top(s)) + Items(Pop(s, minLen))
    ensures Items(s) == OptSeq(Top(s)) + Items(PopNoReplenish(s))
    ensures minLen <= |s| ==> minLen <= |Pop(s, minLen)|
    ensures s != [] && |s| <= minLen ==> |Pop(s, minLen)| == |s|
  {
    if s != [] {
      PushIsEnqueue(s[1..], minLen, None);
    }
  }

  lemma {:induction false} NullsHoldNoItems<T>(n: nat)
    ensures Items(Nulls<T>(n)) == []
  {
    if n > 0 {
      NullsHoldNoItems<T>(n - 1);
      ItemsSnoc(Nulls<T>(n - 1), None);
    }
  }

  /** Trimming removes exactly a run of trailing NULLs, down to `minLen` slots or to the last item. */
  lemma {:induction false} TrimDropsTrailingNulls<T>(s: seq<Option<T>>, minLen: nat)
    ensures Trim(s, minLen) <= s
    ensures forall i :: |Trim(s, minLen)| <= i < |s| ==> s[i].None?
    ensures Items(Trim(s, minLen)) == Items(s)
    ensures |Trim(s, minLen)| == |s| || minLen <= |Trim(s, minLen)|
    ensures minLen < |Trim(s, minLen)| ==> Trim(s, minLen)[|Trim(s, minLen)|-1].Some?
  {
    if minLen < |s| && s[|s|-1].None? {
      var front := s[..|s|-1];
      TrimDropsTrailingNulls(front, minLen);
      assert s == front + [None];
      ItemsSnoc(front, None);
    }
  }

  lemma SetMinLengthKeepsItems<T>(s: seq<Option<T>>, oldMin: nat, newMin: nat)
    ensures Items(SetMinLength(s, oldMin, newMin)) == Items(s)
    ensures oldMin <= |s| ==> newMin <= |SetMinLength(s, oldMin, newMin)|
    ensures oldMin <= newMin ==> s <= SetMinLength(s, oldMin, newMin)
    ensures newMin <= oldMin ==> SetMinLength(s, oldMin, newMin) <= s
  {
    if oldMin < newMin && |s| < newMin {
      ItemsConcat(s, Nulls(newMin - |s|));
      NullsHoldNoItems<T>(newMin - |s|);
    } else if newMin < oldMin {
      TrimDropsTrailingNulls(s, newMin);
    }
  }

  // ------------------------------------------------------------------
  // Any run of operations
  // ------------------------------------------------------------------

  datatype Op<T> = OpPush(x: Option<T>) | OpPop | OpPopNoReplenish | OpSetMin(m: nat)

  datatype Queue<T> = Queue(slots: seq<Option<T>>, minLen: nat)

  function Apply<T>(q: Queue<T>, op: Op<T>): Queue<T> {
    match op
    case OpPush(x) => q.(slots := Push(q.slots, q.minLen, x))
    case OpPop => q.(slots := Pop(q.slots, q.minLen))
    case OpPopNoReplenish => q.(slots := PopNoReplenish(q.slots))
    case OpSetMin(m) => Queue(SetMinLength(q.slots, q.minLen, m), m)
  }

  function Run<T>(q: Queue<T>, ops: seq<Op<T>>): Queue<T>
    decreases |ops|
  {
    if ops == [] then q else Run(Apply(q, ops[0]), ops[1..])
  }

  /** Everything pushed in a run, and everything popped in it, NULLs left out. */
  function Pushed<T>(ops: seq<Op<T>>): seq<T> {
    if ops == [] then []
    else (if ops[0].OpPush? then OptSeq(ops[0].x) else []) + Pushed(ops[1..])
  }

  function Popped<T>(q: Queue<T>, ops: seq<Op<T>>): seq<T>
    decreases |ops|
  {
    if ops == [] then []
    else (if ops[0].OpPop? || ops[0].OpPopNoReplenish? then OptSeq(Top(q.slots)) else [])
         + Popped(Apply(q, ops[0]), ops[1..])
  }

  /** First in, first out, for every run of pushes, pops and length changes. */
  lemma {:induction false} FifoOrder<T>(q: Queue<T>, ops: seq<Op<T>>)
    ensures Items(q.slots) + Pushed(ops) == Popped(q, ops) + Items(Run(q, ops).slots)
    decreases |ops|
  {
    if ops != [] {
      var q1, rest := Apply(q, ops[0]), ops[1..];
      var pushed := if ops[0].OpPush? then OptSeq(ops[0].x) else [];
      var popped := if ops[0].OpPop? || ops[0].OpPopNoReplenish? then OptSeq(Top(q.slots)) else [];
      OneStepFifo(q, ops[0]);
      FifoOrder(q1, rest);
      Regroup(Items(q.slots), pushed, Pushed(rest), popped, Items(q1.slots), Popped(q1, rest),
              Items(Run(q, ops).slots));
    }
  }

  lemma Regroup<T>(a: seq<T>, b: seq<T>, c: seq<T>, d: seq<T>, e: seq<T>, f: seq<T>, g: seq<T>)
    requires a + b == d + e && e + c == f + g
    ensures a + (b + c) == (d + f) + g
  {
    assert a + (b + c) == (a + b) + c == (d + e) + c == d + (e + c) == d + (f + g) == (d + f) + g;
  }

  lemma OneStepFifo<T>(q: Queue<T>, op: Op<T>)
    ensures Items(q.slots) + (if op.OpPush? then OptSeq(op.x) else [])
         == (if op.OpPop? || op.OpPopNoReplenish? then OptSeq(Top(q.slots)) else []) + Items(Apply(q, op).slots)
  {
    match op
    case OpPush(x) => PushIsEnqueue(q.slots, q.minLen, x);
    case OpPop => PopIsDequeue(q.slots, q.minLen);
    case OpPopNoReplenish => PopIsDequeue(q.slots, q.minLen);
    case OpSetMin(m) => SetMinLengthKeepsItems(q.slots, q.minLen, m);
  }

  /** The padding invariant survives every run that pops with replenishment only. */
  lemma {:induction false} PaddingKept<T>(q: Queue<T>, ops: seq<Op<T>>)
    requires q.minLen <= |q.slots|
    requires forall i :: 0 <= i < |ops| ==> !ops[i].OpPopNoReplenish?
    ensures Run(q, ops).minLen <= |Run(q, ops).slots|
    decreases |ops|
  {
    if ops != [] {
      var q1 := Apply(q, ops[0]);
      match ops[0] {
        case OpPush(x) => PushIsEnqueue(q.slots, q.minLen, x);
        case OpPop => PopIsDequeue(q.slots, q.minLen);
        case OpSetMin(m) => SetMinLengthKeepsItems(q.slots, q.minLen, m);
      }
      PaddingKept(q1, ops[1..]);
    }
  }

  // ------------------------------------------------------------------
  // The linked list
  // ------------------------------------------------------------------

  class Node<T> {
    var data: Option<T>
    var next: Node?<T>

    constructor ()
      ensures data == None && next == null
    {
      data, next := None, null;
    }
  }

  /** `++` and `--` on an unsigned counter. */
  function Inc(n: nat): nat { if n + 1 == UINT_RANGE then 0 else n + 1 }

  function Dec(n: nat): nat { if n == 0 then UINT_RANGE - 1 else n - 1 }

  /** The element counter counts modulo 2^32, up and down. */
  lemma CounterWraps(k: nat)
    ensures Inc(k % 0x1_0000_0000) == (k + 1) % 0x1_0000_0000
    ensures Dec((k + 1) % 0x1_0000_0000) == k % 0x1_0000_0000
  {}

  class FifoPipeline<T> {
    var minLen: nat
    const maxLen: nat
    var length: nat
    var nElement: nat   // unsigned, so it wraps
    var head: Node?<T>
    var tail: Node?<T>
    ghost var Slots: seq<Option<T>>   // the row of slots, head first
    ghost var spine: seq<Node<T>>     // the nodes that hold them
    ghost var Repr: set<object>

    ghost predicate Valid()
      reads this, Repr
      ensures Valid() ==> this in Repr
    {
      && this in Repr
      && (forall i :: 0 <= i < |spine| ==> spine[i] in Repr)
      && (forall i, j :: 0 <= i < j < |spine| ==> spine[i] != spine[j])
      && (forall i :: 0 <= i < |spine| - 1 ==> spine[i].next == spine[i + 1])
      && (if spine == [] then head == null && tail == null
          else head == spine[0] && tail == spine[|spine|-1] && tail.next == null)
      && |Slots| == |spine| == length
      && (forall i :: 0 <= i < |spine| ==> spine[i].data == Slots[i])
      && length <= maxLen && minLen <= maxLen
      && nElement < UINT_RANGE
    }

    /** The element counter starts by counting the padding. */
    constructor (minlen: nat, maxlen: nat)
      requires 0 < maxlen && minlen <= maxlen
      ensures Valid() && fresh(Repr)
      ensures minLen == minlen && maxLen == maxlen
      ensures Slots == Nulls<T>(minlen) && nElement == minlen % UINT_RANGE
    {
      minLen, maxLen, length, nElement := minlen, maxlen, 0, 0;
      head, tail := null, null;
      Slots, spine, Repr := [], [], {this};
      new;
      for i := 0 to minlen
        invariant Valid() && fresh(Repr)
        invariant minLen == minlen && maxLen == maxlen
        invariant Slots == Nulls<T>(i) && nElement == i % UINT_RANGE
      {
        PushSlot(None);
      }
    }

    method PushSlot(x: Option<T>)
      requires Valid()
      requires |Slots| < maxLen
      modifies Repr
      ensures Valid() && fresh(Repr - old(Repr)) && minLen == old(minLen)
      ensures Slots == Push(old(Slots), minLen, x)
      ensures nElement == if |Slots| == |old(Slots)| then old(nElement) else Inc(old(nElement))
    {
      if head != null {
        if tail.data.Some? || length < minLen {
          AppendNode();
        }
      } else {
        AppendNode();
      }
      WriteTail(x);
    }

    method WriteTail(x: Option<T>)
      requires Valid() && head != null
      modifies this`Slots, tail
      ensures Valid()
      ensures Slots == old(Slots)[..|old(Slots)|-1] + [x]
    {
      tail.next := null;
      tail.data := x;
      Slots := Slots[..length - 1] + [x];
    }

    /** Links one empty node behind the tail. */
    method AppendNode()
      requires Valid()
      requires length < maxLen
      modifies this, tail
      ensures Valid() && fresh(Repr - old(Repr)) && minLen == old(minLen)
      ensures Slots == old(Slots) + [None]
      ensures nElement == Inc(old(nElement))
    {
      var n := new Node<T>();
      if head != null {
        tail.next := n;
      } else {
        head := n;
      }
      tail := n;
      length := length + 1;
      nElement := Inc(nElement);
      Slots, spine, Repr := Slots + [None], spine + [n], Repr + {n};
    }

    method PopSlotNoReplenish() returns (data: Option<T>)
      requires Valid()
      modifies this
      ensures Valid() && Repr == old(Repr) && minLen == old(minLen)
      ensures data == Top(old(Slots))
      ensures Slots == PopNoReplenish(old(Slots))
      ensures nElement == if old(Slots) == [] then old(nElement) else Dec(old(nElement))
    {
      if head != null {
        var next := head.next;
        data := head.data;
        if head == tail {
          assert next == null;
          tail := null;
        }
        head := next;
        length := length - 1;
        nElement := Dec(nElement);
        Slots, spine := Slots[1..], spine[1..];
        if length == 0 {
          assert head == null;
          tail := head;
        }
      } else {
        data := None;
      }
    }

    method PopSlot() returns (data: Option<T>)
      requires Valid()
      modifies Repr
      ensures Valid() && fresh(Repr - old(Repr)) && minLen == old(minLen)
      ensures data == Top(old(Slots))
      ensures Slots == Pop(old(Slots), minLen)
      ensures nElement == if old(Slots) == [] then old(nElement) else Dec(old(nElement))
    {
      var nonempty := head != null;
      data := PopSlotNoReplenish();
      if nonempty && minLen != 0 && length < minLen {
        PushSlot(None);
        nElement := Dec(nElement);
      }
    }

    method TopSlot() returns (data: Option<T>)
      requires Valid()
      ensures data == Top(Slots)
    {
      if head != null { data := head.data; } else { data := None; }
    }

    method IsFull() returns (b: bool)
      requires Valid()
      ensures b == (0 < maxLen <= |Slots|)
    {
      b := maxLen != 0 && maxLen <= length;
    }

    method IsEmpty() returns (b: bool)
      requires Valid()
      ensures b == (Slots == [])
    {
      b := head == null;
    }

    lemma LengthBound()
      requires Valid()
      ensures |Slots| <= maxLen
    {}

    /** Shrinking needs a node to look at, as the source asserts; growing needs room. */
    method SetMinLen(newMin: nat)
      requires Valid()
      requires newMin <= maxLen
      requires newMin < minLen ==> head != null
      modifies Repr
      ensures Valid() && fresh(Repr - old(Repr)) && minLen == newMin
      ensures Slots == SetMinLength(old(Slots), old(minLen), newMin)
      ensures nElement == if newMin < old(minLen) && Slots == [] then Dec(old(nElement)) else old(nElement)
    {
      if newMin == minLen { return; }
      if minLen < newMin {
        minLen := newMin;
        Grow();
      } else {
        minLen := newMin;
        Shrink();
      }
    }

    method Grow()
      requires Valid()
      modifies Repr
      ensures Valid() && fresh(Repr - old(Repr)) && minLen == old(minLen)
      ensures Slots == if |old(Slots)| < minLen then old(Slots) + Nulls<T>(minLen - |old(Slots)|) else old(Slots)
      ensures nElement == old(nElement)
    {
      ghost var s0 := Slots;
      while length < minLen
        invariant Valid() && fresh(Repr - old(Repr)) && minLen == old(minLen)
        invariant |s0| <= length
        invariant Slots == s0 + Nulls<T>(length - |s0|)
        invariant length <= minLen || length == |s0|
        invariant nElement == old(nElement)
        decreases minLen - length
      {
        PushSlot(None);
        nElement := Dec(nElement);
      }
    }

    method Shrink()
      requires Valid() && head != null
      modifies Repr
      ensures Valid() && fresh(Repr - old(Repr)) && minLen == old(minLen)
      ensures Slots == Trim(old(Slots), minLen)
      ensures nElement == if Slots == [] then Dec(old(nElement)) else old(nElement)
    {
      ghost var s0 := Slots;
      while minLen < length && tail.data.None?
        invariant Valid() && fresh(Repr - old(Repr)) && minLen == old(minLen)
        invariant Trim(Slots, minLen) == Trim(s0, minLen)
        invariant nElement == if Slots == [] then Dec(old(nElement)) else old(nElement)
        decreases length
      {
        DropTail();
      }
    }

    /** One round of the shrinking loop: finds the predecessor of the tail and cuts there. */
    method DropTail()
      requires Valid()
      requires minLen < length && tail.data.None?
      modifies Repr
      ensures Valid() && fresh(Repr - old(Repr)) && minLen == old(minLen)
      ensures Slots == old(Slots)[..|old(Slots)|-1]
      ensures nElement == if Slots == [] then Dec(old(nElement)) else old(nElement)
    {
      var iter := head;
      ghost var k := 0;
      assert 2 <= |spine| ==> spine[|spine|-2].next == spine[|spine|-1];
      while iter != null && iter.next != tail
        invariant 0 <= k <= |spine|
        invariant if k == |spine| then iter == null else iter == spine[k]
        invariant forall j :: 0 <= j < k && j < |spine| - 1 ==> spine[j].next != tail
        decreases |spine| - k
      {
        iter := iter.next;
        k := k + 1;
      }
      if iter == null {
        assert |spine| == 1;
        var _ := PopSlot();
      } else {
        assert k == |spine| - 2 by {
          assert k < |spine| - 1;
          assert spine[k].next == spine[k + 1];
        }
        tail := iter;
        tail.next := null;
        length := length - 1;
        Slots, spine := Slots[..|spine|-1], spine[..|spine|-1];
      }
    }
  }
}
