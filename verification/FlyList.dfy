/** The doubly linked list with a sentinel of src/fly_list.h, in the heap.

    A conjunction written `( ... ) == true` means just that conjunction; the verifier handles the equation as one fact
    instead of taking the clauses apart wherever the predicate is required or ensured. */
module FlyList {
  import opened SeqOps

  /** enum fly_errors, as far as lists and jobs use it. */
  datatype Error = FLYESUCCESS | FLYENORES

  /** fly_malloc and fly_free: any allocation may be refused. `live` is what was allocated and not freed. */
  class Allocator {
    ghost var live: set<object>
    ghost var refused: nat

    constructor ()
      ensures live == {} && refused == 0
    {
      live, refused := {}, 0;
    }

    /** Whether the next fly_malloc succeeds. */
    method Grant() returns (ok: bool)
      modifies this`refused
      ensures refused == if ok then old(refused) else old(refused) + 1
    {
      ok := *;
      if !ok {
        refused := refused + 1;
      }
    }

    ghost method Track(o: object)
      modifies this`live
      ensures live == old(live) + {o}
    {
      live := live + {o};
    }

    ghost method Free(o: object)
      modifies this`live
      ensures live == old(live) - {o}
    {
      live := live - {o};
    }
  }

  class Node<T> {
    var next: Node?<T>
    var prev: Node?<T>
    var el: T

    constructor (el: T)
      ensures this.el == el && next == null && prev == null
    {
      this.el := el;
      next, prev := null, null;
    }
  }

  /** The next-links describe the sequence and the prev-links the same sequence backwards. */
  ghost predicate Linked<T>(q: seq<Node<T>>)
    reads q
  {
    (
    && Distinct(q)
    && (forall i {:trigger q[i].next} :: 0 <= i < |q| ==> q[i].next == if i + 1 < |q| then q[i + 1] else null)
    && (forall i {:trigger q[i].prev} :: 0 <= i < |q| ==> q[i].prev == if i > 0 then q[i - 1] else null)
    ) == true
  }

  ghost function Elements<T>(q: seq<Node<T>>): (s: seq<T>)
    reads q
    ensures |s| == |q| && forall i :: 0 <= i < |q| ==> s[i] == q[i].el
  {
    seq(|q|, i requires 0 <= i < |q| reads q => q[i].el)
  }

  /** What the sentinel must refer to. */
  ghost function First<T>(q: seq<Node<T>>): Node?<T> {
    if q == [] then null else q[0]
  }

  ghost function Last<T>(q: seq<Node<T>>): Node?<T> {
    if q == [] then null else q[|q| - 1]
  }

  lemma EndsAfterRemoval<T>(q: seq<Node<T>>, k: nat)
    requires Linked(q) && k < |q|
    ensures First(DropAt(q, k)) == if First(q) == q[k] then q[k].next else First(q)
    ensures Last(DropAt(q, k)) == if Last(q) == q[k] then q[k].prev else Last(q)
  {
  }

  lemma ElementsWithout<T>(q: seq<Node<T>>, k: nat)
    requires k < |q|
    ensures Elements(DropAt(q, k)) == DropAt(Elements(q), k)
  {
  }

  /** The first part of fly_list_append_node, when the list is not empty: the last node and the new one are linked. */
  method LinkAfter<T>(last: Node<T>, node: Node<T>, ghost q: seq<Node<T>>)
    requires Linked(q) && q != [] && last == q[|q| - 1] && node !in q && node.next == null
    modifies last, node
    ensures Linked(q + [node])
    ensures Elements(q + [node]) == old(Elements(q)) + [node.el]
    ensures forall m :: m in q + [node] ==> m.el == old(m.el)
  {
    last.next := node;
    node.prev := last;
    ghost var r := q + [node];
    assert forall i :: 0 <= i < |q| ==> r[i] == q[i];
    assert Distinct(r);
  }

  /** The walk of fly_list_remove_node from the head to the node, or to the end. */
  method Find<T>(first: Node?<T>, node: Node<T>, ghost q: seq<Node<T>>) returns (head: Node?<T>)
    requires Linked(q) && first == First(q)
    ensures head == if node in q then node else null
  {
    head := first;
    ghost var k := 0;
    while head != null && head != node
      invariant 0 <= k <= |q|
      invariant head == if k < |q| then q[k] else null
      invariant node !in q[..k]
      decreases |q| - k
    {
      assert head.next == q[k].next;
      head := head.next;
      k := k + 1;
    }
  }

  /** The last part of fly_list_remove_node: the neighbours of the node are linked to each other. */
  method Bypass<T>(head: Node<T>, ghost q: seq<Node<T>>, ghost k: nat)
    requires Linked(q) && k < |q| && q[k] == head
    modifies q
    ensures Linked(DropAt(q, k))
    ensures forall m :: m in q ==> m.el == old(m.el)
  {
    ghost var r := DropAt(q, k);
    assert k > 0 ==> head.prev == q[k - 1];
    if head.prev != null {
      head.prev.next := head.next;
    }
    if head.next != null {
      head.next.prev := head.prev;
    }
    assert forall i :: 0 <= i < |r| ==> r[i] == if i < k then q[i] else q[i + 1];
    assert Distinct(r);
    forall i | 0 <= i < |r| ensures r[i].next == if i + 1 < |r| then r[i + 1] else null {
      assert r[i] == q[if i < k then i else i + 1];
    }
    forall i | 0 <= i < |r| ensures r[i].prev == if i > 0 then r[i - 1] else null {
      assert r[i] == q[if i < k then i else i + 1];
    }
  }

  /** The sentinel: `next` is the first node, `prev` the last one; both are null in an empty list. */
  class List<T(==)> {
    var next: Node?<T>
    var prev: Node?<T>
    ghost var nodes: seq<Node<T>>
    ghost var contents: seq<T>

    ghost predicate Valid()
      reads this, nodes
    {
      (
      && Linked(nodes)
      && next == First(nodes) && prev == Last(nodes)
      && contents == Elements(nodes)
      ) == true
    }

    /** The elements in list order. */
    ghost function Contents(): seq<T>
      reads this
    {
      contents
    }

    constructor ()
      ensures Valid() && Contents() == [] && nodes == []
    {
      next, prev := null, null;
      nodes, contents := [], [];
    }

    method AppendNode(node: Node<T>)
      requires Valid() && node !in nodes && node.next == null && node.prev == null
      modifies this, nodes, node
      ensures Valid() && nodes == old(nodes) + [node]
      ensures Contents() == old(Contents()) + [node.el] && node.el == old(node.el)
    {
      if prev != null {
        LinkAfter(prev, node, nodes);
      } else {
        next := node;
      }
      prev := node;
      nodes, contents := nodes + [node], contents + [node.el];
    }

    method Append(el: T, a: Allocator) returns (err: Error)
      requires Valid()
      modifies this, nodes, a
      ensures Valid() && a.refused == old(a.refused) + (if err == FLYESUCCESS then 0 else 1)
      ensures err == FLYESUCCESS ==>
                && Contents() == old(Contents()) + [el]
                && |nodes| == |old(nodes)| + 1 && nodes[..|old(nodes)|] == old(nodes)
                && fresh(nodes[|old(nodes)|]) && a.live == old(a.live) + {nodes[|old(nodes)|]}
      ensures err != FLYESUCCESS ==>
                err == FLYENORES && nodes == old(nodes) && Contents() == old(Contents()) && a.live == old(a.live)
    {
      var ok := a.Grant();
      if ok {
        var node := new Node<T>(el);
        a.Track(node);
        AppendNode(node);
        err := FLYESUCCESS;
      } else {
        err := FLYENORES;
      }
    }

    /** Takes a node out: first the sentinel's links, then, found by a walk from the head, its neighbours'. */
    method RemoveNode(node: Node<T>)
      requires Valid()
      modifies this, nodes
      ensures Valid() && nodes == RemoveFirst(old(nodes), node)
      ensures node in old(nodes) ==> Contents() == DropAt(old(Contents()), IndexOf(old(nodes), node))
    {
      var first := next;
      if next == node {
        next := node.next;
      }
      if prev == node {
        prev := node.prev;
      }
      var head := Find(first, node, nodes);
      if head != null {
        Detach(node, IndexOf(nodes, node));
      }
    }

    /** The node, which the sentinel does not refer to any more, is taken out. */
    method Detach(node: Node<T>, ghost k: nat)
      requires Linked(nodes) && contents == Elements(nodes) && k < |nodes| && nodes[k] == node
      requires next == if First(nodes) == node then node.next else First(nodes)
      requires prev == if Last(nodes) == node then node.prev else Last(nodes)
      modifies this`nodes, this`contents, nodes
      ensures Valid() && nodes == DropAt(old(nodes), k) && Contents() == DropAt(old(Contents()), k)
    {
      EndsAfterRemoval(nodes, k);
      ghost var q := nodes;
      Bypass(node, q, k);
      assert Elements(q) == contents;
      ElementsWithout(q, k);
      nodes, contents := DropAt(q, k), DropAt(contents, k);
    }

    /** The first node that holds `el`. */
    method Get(el: T) returns (node: Node?<T>)
      requires Valid()
      ensures node == null ==> el !in Contents()
      ensures node != null ==> el in Contents() && node == nodes[IndexOf(Contents(), el)]
    {
      node := next;
      ghost var k := 0;
      while node != null && node.el != el
        invariant 0 <= k <= |nodes|
        invariant node == if k < |nodes| then nodes[k] else null
        invariant forall i :: 0 <= i < k ==> nodes[i].el != el
        decreases |nodes| - k
      {
        node := node.next;
        k := k + 1;
      }
      if node != null {
        FirstIndex(Contents(), el, k);
      }
    }

    /** fly_list_remove_node followed by fly_free, as both removals do. */
    method Take(node: Node<T>, ghost k: nat, a: Allocator)
      requires Valid() && k < |nodes| && nodes[k] == node
      modifies this, nodes, a`live
      ensures Valid() && nodes == DropAt(old(nodes), k)
      ensures Contents() == DropAt(old(Contents()), k)
      ensures a.live == old(a.live) - {node}
    {
      FirstIndex(nodes, node, k);
      RemoveNode(node);
      a.Free(node);
    }

    method Remove(el: T, a: Allocator)
      requires Valid()
      modifies this, nodes, a`live
      ensures Valid()
      ensures Contents() == RemoveFirst(old(Contents()), el)
      ensures el !in old(Contents()) ==> nodes == old(nodes) && a.live == old(a.live)
      ensures el in old(Contents()) ==>
                && nodes == DropAt(old(nodes), IndexOf(old(Contents()), el))
                && a.live == old(a.live) - {old(nodes)[IndexOf(old(Contents()), el)]}
    {
      var node := Get(el);
      if node != null {
        Take(node, IndexOf(Contents(), el), a);
      }
    }

    method IsEmpty() returns (empty: bool)
      requires Valid()
      ensures empty <==> Contents() == []
    {
      empty := next == null;
    }

    /** fly_list_tail followed by reading `el`, as the drain loops do. */
    method TailElement() returns (el: T)
      requires Valid() && Contents() != []
      ensures el == Contents()[|Contents()| - 1]
    {
      el := prev.el;
    }

    /** Takes the last element out; null in the source is None here. */
    method TailRemove(a: Allocator) returns (ret: Option<T>)
      requires Valid()
      modifies this, nodes, a`live
      ensures Valid()
      ensures old(Contents()) == [] ==> ret == None && nodes == old(nodes) && a.live == old(a.live)
      ensures old(Contents()) != [] ==>
                var n := |old(nodes)| - 1;
                && ret == Some(old(Contents())[n]) && Contents() == old(Contents())[..n]
                && nodes == old(nodes)[..n] && a.live == old(a.live) - {old(nodes)[n]}
    {
      var tail := prev;
      if tail != null {
        ret := Some(tail.el);
        ghost var n := |nodes| - 1;
        assert DropAt(nodes, n) == nodes[..n] && DropAt(Contents(), n) == Contents()[..n];
        Take(tail, n, a);
      } else {
        ret := None;
      }
    }
  }

  datatype Option<T> = None | Some(value: T)

  // ----- both directions -----

  /** Every link of the nodes stays among them. */
  ghost predicate Closed<T>(q: seq<Node<T>>)
    reads q
  {
    forall m :: m in q ==> (m.next == null || m.next in q) && (m.prev == null || m.prev in q)
  }

  /** The elements met by following next-links, for at most `fuel` nodes. */
  ghost function Forward<T>(q: seq<Node<T>>, node: Node?<T>, fuel: nat): seq<T>
    reads q
    requires Closed(q) && (node == null || node in q)
  {
    if node == null || fuel == 0 then [] else [node.el] + Forward(q, node.next, fuel - 1)
  }

  /** The elements met by following prev-links. */
  ghost function Backward<T>(q: seq<Node<T>>, node: Node?<T>, fuel: nat): seq<T>
    reads q
    requires Closed(q) && (node == null || node in q)
  {
    if node == null || fuel == 0 then [] else [node.el] + Backward(q, node.prev, fuel - 1)
  }

  lemma LinkedIsClosed<T>(q: seq<Node<T>>)
    requires Linked(q)
    ensures Closed(q)
  {
    forall m | m in q ensures (m.next == null || m.next in q) && (m.prev == null || m.prev in q) {
      var i :| 0 <= i < |q| && q[i] == m;
      assert q[i].next == if i + 1 < |q| then q[i + 1] else null;
      assert q[i].prev == if i > 0 then q[i - 1] else null;
    }
  }

  lemma {:induction false} ForwardSuffix<T>(q: seq<Node<T>>, k: nat, fuel: nat)
    requires Linked(q) && Closed(q) && k <= |q| && fuel >= |q| - k
    ensures Forward(q, if k < |q| then q[k] else null, fuel) == Elements(q)[k..]
    decreases |q| - k
  {
    if k < |q| {
      assert q[k].next == if k + 1 < |q| then q[k + 1] else null;
      ForwardSuffix(q, k + 1, fuel - 1);
    }
  }

  lemma {:induction false} BackwardPrefix<T>(q: seq<Node<T>>, k: nat, fuel: nat)
    requires Linked(q) && Closed(q) && k <= |q| && fuel >= k
    ensures Backward(q, if k > 0 then q[k - 1] else null, fuel) == Reversed(Elements(q)[..k])
    decreases k
  {
    if k > 0 {
      assert q[k - 1].prev == if k - 1 > 0 then q[k - 2] else null;
      BackwardPrefix(q, k - 1, fuel - 1);
      assert Elements(q)[..k][..k - 1] == Elements(q)[..k - 1];
    }
  }

  /** From the sentinel, next-links meet the contents in order and prev-links the same contents in reverse; both end
      after the last element, however long one follows them. */
  lemma BothDirections<T>(list: List<T>, fuel: nat)
    requires list.Valid() && fuel >= |list.nodes|
    ensures Closed(list.nodes)
    ensures list.next == null || list.next in list.nodes
    ensures list.prev == null || list.prev in list.nodes
    ensures Forward(list.nodes, list.next, fuel) == list.Contents()
    ensures Backward(list.nodes, list.prev, fuel) == Reversed(list.Contents())
  {
    LinkedIsClosed(list.nodes);
    ForwardSuffix(list.nodes, 0, fuel);
    BackwardPrefix(list.nodes, |list.nodes|, fuel);
    assert list.Contents()[..|list.nodes|] == list.Contents();
  }
}
