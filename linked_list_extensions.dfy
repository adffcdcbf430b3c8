/** LinkedListExtensions (Runtime/Extensions/Net/LinkedListExtensions.cs). */
module LinkedListExtensions {
  import opened Options
  import opened Exceptions
  import opened Seqs
  import opened Collections

  /** `Join(source, another)`: append the values of another to source, in order, and return
      source. Enumerating `another` while appending to it would throw, so the two lists differ. */
  method Join<T>(source: LinkedList<T>, another: LinkedList<T>) returns (r: LinkedList<T>)
    requires source != another
    requires source.Valid()
    modifies source
    ensures r == source && source.Valid()
    ensures source.Contents() == old(source.Contents()) + another.Contents()
    ensures |source.nodes| == |old(source.nodes)| + |another.nodes|
    ensures source.nodes[..|old(source.nodes)|] == old(source.nodes)
    ensures unchanged(another)
  {
    var i := 0;
    while i < |another.nodes|
      invariant 0 <= i <= |another.nodes|
      invariant source.Valid()
      invariant |source.nodes| == |old(source.nodes)| + i
      invariant source.nodes[..|old(source.nodes)|] == old(source.nodes)
      invariant source.Contents() == old(source.Contents()) + Values(another.nodes[..i])
    {
      var value := another.nodes[i].value;
      var _ := source.AddLast(value);
      assert another.nodes[..i + 1] == another.nodes[..i] + [another.nodes[i]];
      ValuesAppend(another.nodes[..i], [another.nodes[i]]);
      i := i + 1;
    }
    assert another.nodes[..i] == another.nodes;
    return source;
  }

  /** The predicate on a node: its value matches. */
  function ValueMatches<T>(matches: T -> bool): Node<T> -> bool
  {
    (n: Node<T>) => matches(n.value)
  }

  /** `RemoveAll(source, predicate)`: walk the nodes, saving each node's successor before
      possibly removing it. The list keeps exactly the values that do not match, in order;
      `tested` lists the values the predicate was applied to: each original value once, in order. */
  method RemoveAll<T>(source: LinkedList<T>, matches: T -> bool) returns (r: LinkedList<T>, tested: seq<T>)
    requires source.Valid()
    modifies source
    ensures r == source && source.Valid()
    ensures source.Contents() == Filter(old(source.Contents()), matches, false)
    ensures source.nodes == Filter(old(source.nodes), ValueMatches(matches), false)
    ensures tested == old(source.Contents())
  {
    ghost var original := source.nodes;
    ghost var k := 0;
    ghost var kept: seq<Node<T>> := [];
    tested := [];
    var node := source.First();
    while node.Some?
      invariant 0 <= k <= |original|
      invariant source.Valid()
      invariant source.nodes == kept + original[k..]
      invariant node == if k < |original| then Some(original[k]) else None
      invariant Values(kept) == Filter(Values(original[..k]), matches, false)
      invariant kept == Filter(original[..k], ValueMatches(matches), false)
      invariant tested == Values(original[..k])
      decreases |original| - k
    {
      tested := tested + [node.value.value];
      node, kept := RemoveAllVisit(source, node.value, matches, original, k, kept);
      k := k + 1;
    }
    assert k == |original| && original[..k] == original;
    assert source.nodes == kept;
    return source, tested;
  }

  /** One iteration of RemoveAll's walk, at node original[k]: save its successor, then remove
      it if its value matches. Before, the list is the nodes kept so far followed by the rest
      of the walk; after, the same holds one node further on. */
  method RemoveAllVisit<T>(source: LinkedList<T>, current: Node<T>, matches: T -> bool,
                           ghost original: seq<Node<T>>, ghost k: nat, ghost kept: seq<Node<T>>)
    returns (next: Option<Node<T>>, ghost kept': seq<Node<T>>)
    requires k < |original| && current == original[k]
    requires source.Valid() && source.nodes == kept + original[k..]
    requires Values(kept) == Filter(Values(original[..k]), matches, false)
    requires kept == Filter(original[..k], ValueMatches(matches), false)
    modifies source
    ensures source.Valid() && source.nodes == kept' + original[k + 1..]
    ensures next == if k + 1 < |original| then Some(original[k + 1]) else None
    ensures Values(original[..k + 1]) == Values(original[..k]) + [current.value]
    ensures Values(kept') == Filter(Values(original[..k + 1]), matches, false)
    ensures kept' == Filter(original[..k + 1], ValueMatches(matches), false)
  {
    WalkPosition(kept, original[k..]);
    WalkUnlink(original, k, kept);
    next := source.Next(current);
    if matches(current.value) {
      RemoveVisited(source, current, original, k, kept);
      kept' := kept;
    } else {
      kept' := kept + [current];
    }
    WalkFilter(original, k, kept, matches);
  }

  /** Removing the visited node original[k] from `kept + original[k..]`. */
  method RemoveVisited<T>(source: LinkedList<T>, current: Node<T>,
                          ghost original: seq<Node<T>>, ghost k: nat, ghost kept: seq<Node<T>>)
    requires k < |original| && current == original[k]
    requires source.Valid() && source.nodes == kept + original[k..]
    modifies source
    ensures source.Valid() && source.nodes == kept + original[k + 1..]
  {
    WalkPosition(kept, original[k..]);
    WalkUnlink(original, k, kept);
    source.Remove(current);
  }

  /** In a list without repeated nodes, the node right after the prefix `kept` sits at
      position |kept|. */
  lemma WalkPosition<T>(kept: seq<Node<T>>, rest: seq<Node<T>>)
    requires |rest| > 0 && Distinct(kept + rest)
    ensures rest[0] in kept + rest && IndexOf(kept + rest, rest[0]) == |kept|
  {
    assert (kept + rest)[|kept|] == rest[0];
    IndexOfDistinct(kept + rest, |kept|);
  }

  /** Unlinking original[k] from `kept + original[k..]` leaves `kept + original[k + 1..]`,
      the successor saved before that is original[k + 1] (or null at the end), and keeping
      original[k] leaves the list as `(kept + [original[k]]) + original[k + 1..]`. */
  lemma WalkUnlink<T>(original: seq<Node<T>>, k: nat, kept: seq<Node<T>>)
    requires k < |original|
    ensures var nodes := kept + original[k..];
      && nodes[..|kept|] + nodes[|kept| + 1..] == kept + original[k + 1..]
      && (if |kept| + 1 < |nodes| then Some(nodes[|kept| + 1]) else None)
         == (if k + 1 < |original| then Some(original[k + 1]) else None)
      && nodes == (kept + [original[k]]) + original[k + 1..]
  {
    var nodes := kept + original[k..];
    assert nodes[..|kept|] == kept;
    assert nodes[|kept| + 1..] == original[k + 1..];
    assert original[k..] == [original[k]] + original[k + 1..];
  }

  /** Visiting original[k] extends the tested values by its value, and the kept values by it
      exactly when it does not match. */
  lemma WalkFilter<T>(original: seq<Node<T>>, k: nat, kept: seq<Node<T>>, matches: T -> bool)
    requires k < |original|
    requires Values(kept) == Filter(Values(original[..k]), matches, false)
    requires kept == Filter(original[..k], ValueMatches(matches), false)
    ensures Values(original[..k + 1]) == Values(original[..k]) + [original[k].value]
    ensures var v := original[k].value;
      Filter(Values(original[..k + 1]), matches, false)
        == (if matches(v) then Values(kept) else Values(kept + [original[k]]))
    ensures Filter(original[..k + 1], ValueMatches(matches), false)
        == (if matches(original[k].value) then kept else kept + [original[k]])
  {
    assert original[..k + 1] == original[..k] + [original[k]];
    ValuesAppend(original[..k], [original[k]]);
    ValuesAppend(kept, [original[k]]);
    FilterSnoc(Values(original[..k]), original[k].value, matches, false);
    FilterSnoc(original[..k], original[k], ValueMatches(matches), false);
  }

  /** `FirstNodeOrNone(source, predicate)`: the first node whose value satisfies predicate, or
      None; ArgumentNullException for a null list or a null predicate. The list is only read. */
  method FirstNodeOrNone<T>(source: LinkedList?<T>, matches: Nullable<T -> bool>) returns (r: Result<Option<Node<T>>>)
    requires source != null ==> source.Valid()
    ensures r.Err? <==> source == null || matches.Null?
    ensures r.Err? ==> r.error == ArgumentNull
    ensures source != null && r.Ok? && r.value.Some? ==>
      exists i :: 0 <= i < |source.nodes| && source.nodes[i] == r.value.value
        && matches.value(source.nodes[i].value)
        && forall j :: 0 <= j < i ==> !matches.value(source.nodes[j].value)
    ensures source != null && r.Ok? && r.value.None? ==>
      forall i :: 0 <= i < |source.nodes| ==> !matches.value(source.nodes[i].value)
  {
    if source == null {
      return Err(ArgumentNull);
    }
    if matches.Null? {
      return Err(ArgumentNull);
    }
    var p := matches.value;
    var node := source.First();
    if node.None? {
      return Ok(None);
    }
    ghost var k := 0;
    while node.Some?
      invariant 0 <= k <= |source.nodes|
      invariant node == if k < |source.nodes| then Some(source.nodes[k]) else None
      invariant forall j :: 0 <= j < k ==> !p(source.nodes[j].value)
      decreases |source.nodes| - k
    {
      if p(node.value.value) {
        return Ok(node);
      }
      IndexOfDistinct(source.nodes, k);
      node := source.Next(node.value);
      k := k + 1;
    }
    return Ok(None);
  }
}
