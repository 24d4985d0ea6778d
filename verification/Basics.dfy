/** Small vocabulary shared by the models of the simulator and of the tracer. */
module Basics {

  /** A pointer that may be NULL. */
  datatype Option<+T> = None | Some(value: T)

  /** Number of values of an `unsigned int` and of an `unsigned long long`. */
  const UINT_RANGE := 0x1_0000_0000
  const ULONG_RANGE := 0x1_0000_0000_0000_0000

  /** Zero or one element, as a sequence. */
  function OptSeq<T>(x: Option<T>): seq<T> {
    match x
    case None => []
    case Some(v) => [v]
  }

  /** The non-NULL entries of a row of slots, in order. */
  function Items<T>(s: seq<Option<T>>): seq<T> {
    if s == [] then [] else OptSeq(s[0]) + Items(s[1..])
  }

  lemma {:induction false} ItemsConcat<T>(a: seq<Option<T>>, b: seq<Option<T>>)
    ensures Items(a + b) == Items(a) + Items(b)
  {
    if a == [] {
      assert a + b == b;
    } else {
      assert (a + b)[1..] == a[1..] + b;
      ItemsConcat(a[1..], b);
    }
  }

  lemma ItemsSnoc<T>(a: seq<Option<T>>, x: Option<T>)
    ensures Items(a + [x]) == Items(a) + OptSeq(x)
  {
    ItemsConcat(a, [x]);
    assert [x][1..] == [];
  }

  /** The sequence without its element i. */
  function Without<T>(q: seq<T>, i: nat): seq<T>
    requires i < |q|
  {
    q[..i] + q[i + 1..]
  }

  ghost predicate NoDup<T>(s: seq<T>) {
    forall i, j :: 0 <= i < j < |s| ==> s[i] != s[j]
  }
}
