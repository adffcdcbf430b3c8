/** LinqExtensions (Runtime/Extensions/Net/LinqExtensions.cs), without `Random`.

    A runtime type test `obj is T casted` is modelled by a partial cast `cast: E -> Option<T>`:
    `cast(obj) == Some(casted)` exactly when the test succeeds (it never does for null).
    A nullable argument is a `Nullable<X>`; an `Action<T>` argument is an opaque id, and the
    elements it was called with are returned as a trace. */
module Linq {
  import opened Options
  import opened Exceptions
  import opened Seqs

  type ActionId = nat

  /** `ThrowIfNull(value)`: ArgumentNullException for null, nothing otherwise. */
  function ThrowIfNull<X>(value: Nullable<X>): (r: Outcome)
    ensures r.Thrown? <==> value.Null?
    ensures r.Thrown? ==> r.error == ArgumentNull
  {
    if value.Null? then Thrown(ArgumentNull) else Pass
  }

  /** `FindType<T>(source)`: the first element that is a T, or None when none is. */
  function FindType<E, T>(source: seq<E>, cast: E -> Option<T>): (r: Option<T>)
    ensures r.None? <==> forall i :: 0 <= i < |source| ==> cast(source[i]).None?
    ensures r.Some? ==> exists i :: 0 <= i < |source| && cast(source[i]) == Some(r.value)
                                  && forall j :: 0 <= j < i ==> cast(source[j]).None?
  {
    if source == [] then None
    else match cast(source[0])
      case Some(casted) => Some(casted)
      case None =>
        var r := FindType(source[1..], cast);
        assert forall i :: 1 <= i < |source| ==> source[i] == source[1..][i - 1];
        r
  }

  /** The elements of source that are a T, cast, in source order: what FindTypes returns. */
  function Casts<E, T>(source: seq<E>, cast: E -> Option<T>): (r: seq<T>)
    ensures |r| <= |source|
    ensures (forall i :: 0 <= i < |source| ==> cast(source[i]).None?) ==> r == []
    ensures (forall i :: 0 <= i < |source| ==> cast(source[i]).Some?) ==> |r| == |source|
  {
    if source == [] then []
    else (match cast(source[0]) case Some(x) => [x] case None => []) + Casts(source[1..], cast)
  }

  /** Casts of a sequence extended by one element. */
  lemma {:induction false} CastsSnoc<E, T>(source: seq<E>, x: E, cast: E -> Option<T>)
    ensures Casts(source + [x], cast)
         == Casts(source, cast) + (match cast(x) case Some(c) => [c] case None => [])
    decreases |source|
  {
    if source == [] {
      assert [x][1..] == [];
    } else {
      assert (source + [x])[1..] == source[1..] + [x];
      CastsSnoc(source[1..], x, cast);
    }
  }

  /** `FindTypes<T>(source)`: collect the elements that are a T into a new list. */
  method FindTypes<E, T>(source: seq<E>, cast: E -> Option<T>) returns (coincidences: seq<T>)
    ensures coincidences == Casts(source, cast)
  {
    coincidences := [];
    var i := 0;
    while i < |source|
      invariant 0 <= i <= |source|
      invariant coincidences == Casts(source[..i], cast)
    {
      var obj := source[i];
      assert source[..i + 1] == source[..i] + [obj];
      CastsSnoc(source[..i], obj, cast);
      match cast(obj) {
        case Some(casted) => coincidences := coincidences + [casted];
        case None =>
      }
      i := i + 1;
    }
    assert source[..i] == source;
  }

  /** FindTypes yields exactly the successful casts: x is in it iff some element casts to x. */
  lemma {:induction false} CastsMembers<E, T>(source: seq<E>, cast: E -> Option<T>, x: T)
    ensures x in Casts(source, cast) <==> exists i :: 0 <= i < |source| && cast(source[i]) == Some(x)
    decreases |source|
  {
    if source != [] {
      CastsMembers(source[1..], cast, x);
      if exists i :: 1 <= i < |source| && cast(source[i]) == Some(x) {
        var i :| 1 <= i < |source| && cast(source[i]) == Some(x);
        assert cast(source[1..][i - 1]) == Some(x);
      }
      if exists i :: 0 <= i < |source[1..]| && cast(source[1..][i]) == Some(x) {
        var i :| 0 <= i < |source[1..]| && cast(source[1..][i]) == Some(x);
        assert cast(source[i + 1]) == Some(x);
      }
    }
  }

  /** FindType is the head of FindTypes: None exactly when FindTypes is empty, and otherwise
      its first element. */
  lemma {:induction false} FindTypeIsFirstOfFindTypes<E, T>(source: seq<E>, cast: E -> Option<T>)
    ensures FindType(source, cast) == if Casts(source, cast) == [] then None else Some(Casts(source, cast)[0])
    decreases |source|
  {
    if source != [] {
      FindTypeIsFirstOfFindTypes(source[1..], cast);
    }
  }

  /** The loop of `IndexOfMax(sequence, selector)` as written, for integer elements and keys,
      from position index with the running maxIndex and maxValue: an element is taken when it
      is the first one or when its KEY exceeds the stored ELEMENT maxValue (not that element's
      key). */
  function MaxScan(sequence: seq<int>, selector: int -> int, index: nat, maxIndex: int, maxValue: int): (r: Option<int>)
    requires index <= |sequence|
    ensures r.None? <==> maxIndex == -1 && index == |sequence|
    ensures r.Some? ==> (r.value == maxIndex && maxIndex != -1) || index <= r.value < |sequence|
    decreases |sequence| - index
  {
    if index == |sequence| then (if maxIndex == -1 then None else Some(maxIndex))
    else if selector(sequence[index]) > maxValue || maxIndex == -1 then
      MaxScan(sequence, selector, index + 1, index, sequence[index])
    else MaxScan(sequence, selector, index + 1, maxIndex, maxValue)
  }

  /** `IndexOfMax(sequence, selector)` as written (maxValue starts as default(int) == 0). */
  method IndexOfMaxAsWritten(sequence: seq<int>, selector: int -> int) returns (r: Option<int>)
    ensures r == MaxScan(sequence, selector, 0, -1, 0)
    ensures r.None? <==> |sequence| == 0
    ensures r.Some? ==> 0 <= r.value < |sequence|
  {
    var maxIndex := -1;
    var maxValue := 0;
    var index := 0;
    while index < |sequence|
      invariant 0 <= index <= |sequence|
      invariant MaxScan(sequence, selector, index, maxIndex, maxValue) == MaxScan(sequence, selector, 0, -1, 0)
    {
      var value := sequence[index];
      if selector(value) > maxValue || maxIndex == -1 {
        maxIndex := index;
        maxValue := value;
      }
      index := index + 1;
    }
    if maxIndex == -1 {
      return None;
    }
    return Some(maxIndex);
  }

  /** From a loop state that has seen sequence[..index] under the identity key (the first
      element taken, maxValue the element at maxIndex, nothing seen above it, everything before
      maxIndex strictly below it), the scan as written ends at a first index of the largest
      element. */
  lemma {:induction false} MaxScanIdentity(sequence: seq<int>, selector: int -> int, index: nat, maxIndex: int, maxValue: int)
    requires forall x :: selector(x) == x
    requires index <= |sequence|
    requires maxIndex == -1 <==> index == 0
    requires index > 0 ==> 0 <= maxIndex < index && maxValue == sequence[maxIndex]
    requires index > 0 ==> forall j :: 0 <= j < index ==> sequence[j] <= maxValue
    requires index > 0 ==> forall j :: 0 <= j < maxIndex ==> sequence[j] < maxValue
    ensures var r := MaxScan(sequence, selector, index, maxIndex, maxValue);
      r.Some? ==> (0 <= r.value < |sequence|
        && (forall j :: 0 <= j < |sequence| ==> sequence[j] <= sequence[r.value])
        && (forall j :: 0 <= j < r.value ==> sequence[j] < sequence[r.value]))
    decreases |sequence| - index
  {
    if index < |sequence| {
      var value := sequence[index];
      if selector(value) > maxValue || maxIndex == -1 {
        MaxScanIdentity(sequence, selector, index + 1, index, value);
      } else {
        MaxScanIdentity(sequence, selector, index + 1, maxIndex, maxValue);
      }
    }
  }

  /** When the key of an element is the element itself, the loop as written keeps every
      promise of the corrected IndexOfMax: None exactly for an empty sequence, and otherwise
      the first index of a largest element. */
  lemma IndexOfMaxAsWrittenAgreesOnIdentity(sequence: seq<int>, selector: int -> int)
    requires forall x :: selector(x) == x
    ensures var r := MaxScan(sequence, selector, 0, -1, 0);
      && (r.None? <==> |sequence| == 0)
      && (r.Some? ==> 0 <= r.value < |sequence|)
      && (r.Some? ==> forall j :: 0 <= j < |sequence| ==> selector(sequence[j]) <= selector(sequence[r.value]))
      && (r.Some? ==> forall j :: 0 <= j < r.value ==> selector(sequence[j]) < selector(sequence[r.value]))
  {
    MaxScanIdentity(sequence, selector, 0, -1, 0);
  }

  function Negate(x: int): int
  {
    -x
  }

  /** With keys that are not the elements themselves, the written loop misses the largest key:
      for [5, 3] under x => -x it answers index 0, whose key -5 is below the key -3 at index 1. */
  lemma IndexOfMaxAsWrittenMissesMax()
    ensures MaxScan([5, 3], Negate, 0, -1, 0) == Some(0)
    ensures Negate([5, 3][1]) > Negate([5, 3][0])
  {
    assert MaxScan([5, 3], Negate, 2, 0, 5) == Some(0);
    assert MaxScan([5, 3], Negate, 1, 0, 5) == Some(0);
  }

  /** `IndexOfMax(sequence, selector)` comparing keys with keys, as evidently intended: None for
      an empty sequence; otherwise the first index whose key is largest. The first element is
      always taken (maxIndex == -1); later ones only when their key is strictly greater. */
  method IndexOfMax<T>(sequence: seq<T>, selector: T -> int) returns (r: Option<int>)
    ensures r.None? <==> |sequence| == 0
    ensures r.Some? ==> 0 <= r.value < |sequence|
    ensures r.Some? ==> forall j :: 0 <= j < |sequence| ==> selector(sequence[j]) <= selector(sequence[r.value])
    ensures r.Some? ==> forall j :: 0 <= j < r.value ==> selector(sequence[j]) < selector(sequence[r.value])
  {
    var maxIndex := -1;
    var maxValue: Nullable<T> := Null;
    var index := 0;
    while index < |sequence|
      invariant 0 <= index <= |sequence|
      invariant maxIndex == -1 <==> index == 0
      invariant index > 0 ==> 0 <= maxIndex < index && maxValue == NonNull(sequence[maxIndex])
      invariant index > 0 ==> forall j :: 0 <= j < index ==> selector(sequence[j]) <= selector(maxValue.value)
      invariant index > 0 ==> forall j :: 0 <= j < maxIndex ==> selector(sequence[j]) < selector(maxValue.value)
    {
      var value := sequence[index];
      if maxIndex == -1 || selector(value) > selector(maxValue.value) {
        maxIndex := index;
        maxValue := NonNull(value);
      }
      index := index + 1;
    }
    if maxIndex == -1 {
      return None;
    }
    return Some(maxIndex);
  }

  /** `IndexOfMin(sequence, selector)` for non-null elements: None for an empty sequence;
      otherwise the first index whose key is smallest. For a reference type or a nullable
      value type minValue starts as null, so the first element is taken by the null branch;
      for a non-nullable value type it starts as the default value, which is never null, and the first element is taken by the
      `minIndex == -1` disjunct after the default's key was computed. Either way index 0 is
      chosen first, and later ones only when their key is strictly smaller. */
  method IndexOfMin<T>(sequence: seq<T>, selector: T -> int) returns (r: Option<int>)
    ensures r.None? <==> |sequence| == 0
    ensures r.Some? ==> 0 <= r.value < |sequence|
    ensures r.Some? ==> forall j :: 0 <= j < |sequence| ==> selector(sequence[r.value]) <= selector(sequence[j])
    ensures r.Some? ==> forall j :: 0 <= j < r.value ==> selector(sequence[r.value]) < selector(sequence[j])
  {
    var minIndex := -1;
    var minValue: Nullable<T> := Null;
    var index := 0;
    while index < |sequence|
      invariant 0 <= index <= |sequence|
      invariant minValue.Null? <==> index == 0
      invariant minIndex == -1 <==> index == 0
      invariant index > 0 ==> 0 <= minIndex < index && minValue == NonNull(sequence[minIndex])
      invariant index > 0 ==> forall j :: 0 <= j < index ==> selector(minValue.value) <= selector(sequence[j])
      invariant index > 0 ==> forall j :: 0 <= j < minIndex ==> selector(minValue.value) < selector(sequence[j])
    {
      var value := sequence[index];
      if minValue.Null? {
        minValue := NonNull(value);
        minIndex := index;
      } else if selector(value) < selector(minValue.value) || minIndex == -1 {
        minIndex := index;
        minValue := NonNull(value);
      }
      index := index + 1;
    }
    if minIndex == -1 {
      return None;
    }
    return Some(minIndex);
  }

  /** The foreach loop of FirstOrNone: the first element satisfying matches, if any. */
  function FirstMatch<E>(s: seq<E>, matches: E -> bool): (r: Option<E>)
    ensures r.None? <==> forall i :: 0 <= i < |s| ==> !matches(s[i])
    ensures r.Some? ==> exists i :: 0 <= i < |s| && s[i] == r.value && matches(s[i])
                                  && forall j :: 0 <= j < i ==> !matches(s[j])
  {
    if s == [] then None
    else if matches(s[0]) then Some(s[0])
    else
      var r := FirstMatch(s[1..], matches);
      assert forall i :: 1 <= i < |s| ==> s[i] == s[1..][i - 1];
      r
  }

  /** `FirstOrNone(source, predicate)`: ArgumentNullException for a null source or predicate;
      otherwise the first matching element wrapped in an Option (so a null first match, for a
      reference element type, reads as None), or None when nothing matches. */
  function FirstOrNone<T>(source: Nullable<seq<Nullable<T>>>, matches: Nullable<Nullable<T> -> bool>): (r: Result<Option<T>>)
    ensures r.Err? <==> source.Null? || matches.Null?
    ensures r.Err? ==> r.error == ArgumentNull
    ensures r.Ok? && source.NonNull? && matches.NonNull? && r.value.Some? ==>
      var s, p := source.value, matches.value;
      exists i :: 0 <= i < |s| && s[i] == NonNull(r.value.value) && p(s[i])
                 && forall j :: 0 <= j < i ==> !p(s[j])
    ensures r.Ok? && source.NonNull? && matches.NonNull? && r.value.None? ==>
      var s, p := source.value, matches.value;
      (forall i :: 0 <= i < |s| ==> !p(s[i]))
      || (exists i :: 0 <= i < |s| && s[i] == Null && p(s[i]) && forall j :: 0 <= j < i ==> !p(s[j]))
  {
    if ThrowIfNull(source).Thrown? then Err(ArgumentNull)
    else if ThrowIfNull(matches).Thrown? then Err(ArgumentNull)
    else match FirstMatch(source.value, matches.value)
      case None => Ok(None)
      case Some(x) => Ok(New(x))
  }

  /** For elements that are never null (a value type), FirstOrNone finds something exactly
      when some element matches. */
  lemma FirstOrNoneNonNull<T>(s: seq<Nullable<T>>, p: Nullable<T> -> bool)
    requires forall i :: 0 <= i < |s| ==> s[i].NonNull?
    ensures FirstOrNone(NonNull(s), NonNull(p)).Ok?
    ensures FirstOrNone(NonNull(s), NonNull(p)).value.Some? <==> exists i :: 0 <= i < |s| && p(s[i])
  {
    var r := FirstOrNone(NonNull(s), NonNull(p));
    if r.value.None? && exists i :: 0 <= i < |s| && p(s[i]) {
      assert !forall i :: 0 <= i < |s| ==> !p(s[i]);
    }
  }

  /** `Apply(source, predicate, applyAction)`: ArgumentNullException when any argument is null
      (nothing is applied); otherwise the action is called on exactly the matching elements,
      in order, and source is returned. */
  method Apply<T>(source: Nullable<seq<T>>, matches: Nullable<T -> bool>, applyAction: Nullable<ActionId>)
    returns (r: Result<seq<T>>, applied: seq<T>)
    ensures r.Err? <==> source.Null? || matches.Null? || applyAction.Null?
    ensures r.Err? ==> r.error == ArgumentNull && applied == []
    ensures r.Ok? ==> (source.NonNull? && matches.NonNull?
      && r.value == source.value && applied == Filter(source.value, matches.value, true))
  {
    applied := [];
    if ThrowIfNull(source).Thrown? || ThrowIfNull(matches).Thrown? || ThrowIfNull(applyAction).Thrown? {
      return Err(ArgumentNull), applied;
    }
    var s, p := source.value, matches.value;
    var i := 0;
    while i < |s|
      invariant 0 <= i <= |s|
      invariant applied == Filter(s[..i], p, true)
    {
      var element := s[i];
      assert s[..i + 1] == s[..i] + [element];
      FilterSnoc(s[..i], element, p, true);
      if p(element) {
        applied := applied + [element];
      }
      i := i + 1;
    }
    assert s[..i] == s;
    return Ok(s), applied;
  }

  /** `ForEach(collection, action)`: the action is called once per element, in order, and the
      collection is returned. A null collection throws NullReferenceException at once; a null
      action throws it at the first element (so not at all for an empty collection). */
  method ForEach<T>(collection: Nullable<seq<T>>, action: Nullable<ActionId>) returns (r: Result<seq<T>>, invoked: seq<T>)
    ensures invoked == [] || r.Ok?
    ensures r.Err? <==> collection.Null? || (action.Null? && collection.value != [])
    ensures r.Err? ==> r.error == NullReference
    ensures r.Ok? ==> collection.NonNull? && r.value == collection.value && invoked == collection.value
  {
    invoked := [];
    if collection.Null? {
      return Err(NullReference), invoked;
    }
    var s := collection.value;
    var i := 0;
    while i < |s|
      invariant 0 <= i <= |s|
      invariant invoked == s[..i]
      invariant i > 0 ==> action.NonNull?
    {
      if action.Null? {
        return Err(NullReference), [];
      }
      invoked := invoked + [s[i]];
      i := i + 1;
    }
    assert s[..i] == s;
    return Ok(s), invoked;
  }
}
