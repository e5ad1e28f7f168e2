/** What the linked-list operations of src/fly_list.h mean on the sequence of stored elements. */
module SeqOps {

  /** The position of the first occurrence of `x`, or the length of the sequence. */
  function IndexOf<T(==)>(q: seq<T>, x: T): (k: nat)
    ensures k <= |q| && (k < |q| ==> q[k] == x)
    ensures forall i :: 0 <= i < k ==> q[i] != x
  {
    if q == [] || q[0] == x then 0 else 1 + IndexOf(q[1..], x)
  }

  function DropAt<T>(q: seq<T>, k: nat): seq<T>
    requires k < |q|
  {
    q[..k] + q[k + 1..]
  }

  /** The sequence without the first occurrence of `x`. */
  function RemoveFirst<T(==)>(q: seq<T>, x: T): seq<T> {
    if IndexOf(q, x) < |q| then DropAt(q, IndexOf(q, x)) else q
  }

  ghost predicate Distinct<T>(q: seq<T>) {
    forall i, k :: 0 <= i < k < |q| ==> q[i] != q[k]
  }

  lemma FirstIndex<T>(q: seq<T>, x: T, k: nat)
    requires k < |q| && q[k] == x && forall i :: 0 <= i < k ==> q[i] != x
    ensures IndexOf(q, x) == k
  {
  }

  /** In a duplicate-free list removal takes the element out and keeps everything else, still duplicate-free. */
  lemma RemoveFirstDistinct<T(!new)>(q: seq<T>, x: T)
    requires Distinct(q)
    ensures Distinct(RemoveFirst(q, x))
    ensures forall y :: y in RemoveFirst(q, x) <==> y in q && y != x
  {
    var k := IndexOf(q, x);
    var r := RemoveFirst(q, x);
    if k < |q| {
      forall y ensures y in r <==> y in q && y != x {
        if y in q && y != x {
          var i :| 0 <= i < |q| && q[i] == y;
          assert r[if i < k then i else i - 1] == y;
        }
      }
    }
  }

  lemma TakeOneOut<T>(q: seq<T>, k: nat)
    requires k < |q|
    ensures multiset(DropAt(q, k)) == multiset(q) - multiset{q[k]}
  {
    assert q == q[..k] + [q[k]] + q[k + 1..];
  }

  /** Removal takes one occurrence of the element away and nothing else, and keeps the order of the rest. */
  lemma RemoveFirstTakesOne<T>(q: seq<T>, x: T)
    requires x in q
    ensures multiset(RemoveFirst(q, x)) == multiset(q) - multiset{x}
    ensures var k := IndexOf(q, x); RemoveFirst(q, x) == q[..k] + q[k + 1..] && x !in q[..k] && q[k] == x
  {
    var k := IndexOf(q, x);
    TakeOneOut(q, k);
  }

  function Reversed<T>(q: seq<T>): (r: seq<T>)
    ensures |r| == |q|
  {
    if q == [] then [] else [q[|q| - 1]] + Reversed(q[..|q| - 1])
  }

  lemma {:induction false} ReversedIndex<T>(q: seq<T>, i: nat)
    requires i < |q|
    ensures Reversed(q)[|q| - 1 - i] == q[i]
    decreases |q|
  {
    var n := |q| - 1;
    if i < n {
      ReversedIndex(q[..n], i);
    }
  }
}
