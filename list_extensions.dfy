/** ListExtensions (Runtime/Extensions/Net/ListExtensions.cs). */
module ListExtensions {
  import opened Seqs
  import opened Collections

  /** `RemoveType<T>(source)`: remove, walking from the last index down to 0, every element
      that is a T (`isT` is the runtime type test). Every RemoveAt index is in bounds (the
      precondition of RemoveAt), and the other elements keep their relative order. */
  method RemoveType<E>(source: List<E>, isT: E -> bool)
    modifies source
    ensures source.items == Filter(old(source.items), isT, false)
    ensures forall x :: x in source.items ==> !isT(x)
    ensures |source.items| == |old(source.items)| - Count(old(source.items), isT)
  {
    ghost var original := source.items;
    var i := |source.items| - 1;
    while i > -1
      invariant -1 <= i < |original|
      invariant source.items == original[..i + 1] + Filter(original[i + 1..], isT, false)
    {
      RemoveTypeStep(original, i, source.items, isT);
      if isT(source.items[i]) {
        source.RemoveAt(i);
      }
      i := i - 1;
    }
    assert original[0..] == original;
    RemovedLength(original, isT);
  }

  /** One step of RemoveType's backward walk: position i has just been visited. */
  lemma RemoveTypeStep<E>(original: seq<E>, i: nat, items: seq<E>, isT: E -> bool)
    requires i < |original|
    requires items == original[..i + 1] + Filter(original[i + 1..], isT, false)
    ensures i < |items| && items[i] == original[i]
    ensures var next := if isT(items[i]) then items[..i] + items[i + 1..] else items;
      next == original[..i] + Filter(original[i..], isT, false)
  {
    FilterCons(original, i, isT, false);
    assert items[..i] == original[..i];
    assert items[i + 1..] == Filter(original[i + 1..], isT, false);
    assert original[..i + 1] == original[..i] + [original[i]];
  }

  /** `ToLinked(list)`: a new linked list holding the list's elements in the same order; the
      list itself is only read. */
  method ToLinked<T>(list: List<T>) returns (linkedList: LinkedList<T>)
    ensures fresh(linkedList) && linkedList.Valid()
    ensures linkedList.Contents() == list.items
  {
    linkedList := new LinkedList();
    var i := 0;
    while i < |list.items|
      invariant 0 <= i <= |list.items|
      invariant fresh(linkedList) && linkedList.Valid()
      invariant linkedList.Contents() == list.items[..i]
    {
      var _ := linkedList.AddLast(list.items[i]);
      assert list.items[..i + 1] == list.items[..i] + [list.items[i]];
      i := i + 1;
    }
    assert list.items[..i] == list.items;
  }
}
