/** The framework collections the extension methods work on: System.Collections.Generic's
    LinkedList<T> (whose nodes are objects with identity) and List<T> / IList. Only the
    members the extension methods call are modelled. */
module Collections {
  import opened Options

  /** LinkedListNode<T>: an object carrying a value. */
  class Node<T> {
    const value: T

    constructor (value: T)
      ensures this.value == value
    {
      this.value := value;
    }
  }

  /** The values carried by a sequence of nodes, in order. */
  function Values<T>(nodes: seq<Node<T>>): (r: seq<T>)
    ensures |r| == |nodes|
  {
    if nodes == [] then [] else [nodes[0].value] + Values(nodes[1..])
  }

  lemma {:induction false} ValuesAppend<T>(a: seq<Node<T>>, b: seq<Node<T>>)
    ensures Values(a + b) == Values(a) + Values(b)
  {
    if a == [] {
      assert a + b == b;
    } else {
      assert (a + b)[1..] == a[1..] + b;
      ValuesAppend(a[1..], b);
    }
  }

  /** Node i of a sequence; named so that `Distinct` is only instantiated where a proof
      mentions it. */
  ghost function NodeAt<T>(nodes: seq<Node<T>>, i: nat): Node<T>
    requires i < |nodes|
  {
    nodes[i]
  }

  /** No node occurs twice. */
  ghost predicate Distinct<T>(nodes: seq<Node<T>>)
  {
    forall i, j {:trigger NodeAt(nodes, i), NodeAt(nodes, j)} ::
      0 <= i < j < |nodes| ==> NodeAt(nodes, i) != NodeAt(nodes, j)
  }

  /** Two different positions of a list without repeated nodes hold different nodes. */
  lemma DistinctAt<T>(nodes: seq<Node<T>>, i: nat, j: nat)
    requires Distinct(nodes) && i < j < |nodes|
    ensures nodes[i] != nodes[j]
  {
    assert NodeAt(nodes, i) != NodeAt(nodes, j);
  }

  /** The position of the first occurrence of n. */
  function IndexOf<T>(nodes: seq<Node<T>>, n: Node<T>): (i: nat)
    requires n in nodes
    ensures i < |nodes| && nodes[i] == n
  {
    if nodes[0] == n then 0 else IndexOf(nodes[1..], n) + 1
  }

  /** No earlier position holds n. */
  lemma {:induction false} IndexOfFirst<T>(nodes: seq<Node<T>>, n: Node<T>, j: nat)
    requires n in nodes && j < IndexOf(nodes, n)
    ensures nodes[j] != n
  {
    if j > 0 {
      IndexOfFirst(nodes[1..], n, j - 1);
    }
  }

  /** In a list without repeated nodes, a node's position is the index it occurs at. */
  lemma IndexOfDistinct<T>(nodes: seq<Node<T>>, k: nat)
    requires Distinct(nodes) && k < |nodes|
    ensures IndexOf(nodes, nodes[k]) == k
  {
    var i := IndexOf(nodes, nodes[k]);
    if i < k {
      DistinctAt(nodes, i, k);
    } else if i > k {
      IndexOfFirst(nodes, nodes[k], k);
    }
  }

  /** Appending a node that is not in the list keeps the nodes distinct. */
  lemma DistinctAppend<T>(nodes: seq<Node<T>>, n: Node<T>)
    requires Distinct(nodes) && n !in nodes
    ensures Distinct(nodes + [n])
  {
    var r := nodes + [n];
    forall i, j | 0 <= i < j < |r| ensures NodeAt(r, i) != NodeAt(r, j) {
      if j < |nodes| {
        assert NodeAt(r, i) == NodeAt(nodes, i) && NodeAt(r, j) == NodeAt(nodes, j);
      } else {
        assert NodeAt(r, j) == n && NodeAt(r, i) == nodes[i];
      }
    }
  }

  /** Taking one node out keeps the nodes distinct. */
  lemma DistinctRemove<T>(nodes: seq<Node<T>>, k: nat)
    requires Distinct(nodes) && k < |nodes|
    ensures Distinct(nodes[..k] + nodes[k + 1..])
  {
    var r := nodes[..k] + nodes[k + 1..];
    forall i, j | 0 <= i < j < |r| ensures NodeAt(r, i) != NodeAt(r, j) {
      var i' := if i < k then i else i + 1;
      var j' := if j < k then j else j + 1;
      assert NodeAt(r, i) == NodeAt(nodes, i') && NodeAt(r, j) == NodeAt(nodes, j');
    }
  }

  /** LinkedList<T>: an ordered sequence of distinct nodes. */
  class LinkedList<T> {
    var nodes: seq<Node<T>>

    ghost predicate Valid()
      reads this
    {
      Distinct(nodes)
    }

    /** The values in the list, first to last. */
    function Contents(): seq<T>
      reads this
    {
      Values(nodes)
    }

    constructor ()
      ensures Valid() && nodes == []
    {
      nodes := [];
    }

    /** The `First` property: the first node, or null for an empty list. */
    function First(): (r: Option<Node<T>>)
      reads this
      ensures r.None? <==> nodes == []
      ensures r.Some? ==> r.value == nodes[0]
    {
      if nodes == [] then None else Some(nodes[0])
    }

    /** The `Next` property of a node of this list: the node after it, or null for the last. */
    function Next(n: Node<T>): (r: Option<Node<T>>)
      requires n in nodes
      reads this
      ensures var i := IndexOf(nodes, n);
        (r.None? <==> i == |nodes| - 1) && (r.Some? ==> r.value == nodes[i + 1])
    {
      var i := IndexOf(nodes, n);
      if i + 1 < |nodes| then Some(nodes[i + 1]) else None
    }

    /** `AddLast(value)`: append a new node carrying value. */
    method AddLast(v: T) returns (n: Node<T>)
      requires Valid()
      modifies this
      ensures Valid() && fresh(n) && n.value == v
      ensures nodes == old(nodes) + [n]
      ensures Contents() == old(Contents()) + [v]
    {
      n := new Node(v);
      DistinctAppend(nodes, n);
      nodes := nodes + [n];
      ValuesAppend(old(nodes), [n]);
    }

    /** `Remove(node)` for a node of this list: unlink it, keeping the others in order. */
    method Remove(n: Node<T>)
      requires Valid() && n in nodes
      modifies this
      ensures Valid()
      ensures var i := IndexOf(old(nodes), n); nodes == old(nodes)[..i] + old(nodes)[i + 1..]
    {
      var i := IndexOf(nodes, n);
      DistinctRemove(nodes, i);
      nodes := nodes[..i] + nodes[i + 1..];
    }
  }

  /** List<T> (and IList, through which RemoveType works): an indexable, growable sequence. */
  class List<T> {
    var items: seq<T>

    constructor (items: seq<T>)
      ensures this.items == items
    {
      this.items := items;
    }

    /** `RemoveAt(index)` with the index in bounds: the element there is taken out and the
        later ones move down by one. */
    method RemoveAt(index: nat)
      requires index < |items|
      modifies this
      ensures items == old(items)[..index] + old(items)[index + 1..]
    {
      items := items[..index] + items[index + 1..];
    }
  }
}
