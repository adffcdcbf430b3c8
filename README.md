# Egsp.Core types: promise, option, collection helpers and raw singleton

A Dafny model of the non-Unity core of the Egsp.Core package:

- `Promise<TValue, TFail>` (`promises`): a three-state settlement object (Waiting, Value,
  Fail) with an Option slot per outcome and two ordered lists of subscribers. Settling
  notifies the matching list and clears both. A late subscriber is served immediately from a
  filled slot. Subscribers are opaque callback ids; each notification is appended to a
  `trace`, so order and multiplicity are part of the state. The pure `Snapshot`/`Step`/`Run`
  specification is what the `Promise` class's methods are proved against, and the lemmas
  about it cover many calls. `Promise<TValue>`, the subclass that fixes `TFail` to `int`
  (Promise.cs:97-100), is the alias `ValuePromise`.
- `Option<TValue>` (`options`): the presence flag derived from non-nullness, `None` as the
  default struct, the unchecked unwrap, `Equals`, `GetHashCode` and `ToString`. A C# value that
  may be null is a `Nullable<T>`.
- `LinqExtensions` (`linq`): `FindType`, `FindTypes`, `IndexOfMax`, `IndexOfMin`,
  `FirstOrNone`, `Apply`, `ForEach` and `ThrowIfNull`. A runtime type test `obj is T` is a
  partial cast `E -> Option<T>`. An `Action<T>` is an opaque id, and its calls are returned
  as the sequence of arguments it received.
- `LinkedListExtensions` (`linked_list_extensions`) and `ListExtensions` (`list_extensions`):
  `Join`, `RemoveAll`, `FirstNodeOrNone`, `RemoveType` and `ToLinked`. They work in place on
  the classes in `collections`. `LinkedList<T>` is a sequence of distinct node objects, and
  `List<T>` is a sequence of items. These classes model the .NET operations the helpers call
  (`First`, `Next`, `AddLast`, `Remove`, `RemoveAt`).
- `SingletonRaw<TSingleton>` (`singleton`): one object per singleton type. It holds the
  static instance slot, the public instance promise and the per-type facts: the
  `LazyInstance` attribute, which the code finds by reflection, and the virtual
  `CanBeDestroyedOutside`. Instances are numbered in creation order, and `Dispose` calls are
  recorded. The pure `World` functions are the specification of the class's methods.

C# exceptions are results: `Result<T>` / `Outcome` carry `InvalidOperation`, `ArgumentNull`,
`NullReference` or `LazyInstance` (`exceptions`). Shared sequence specifications (`Filter`,
`Count`) are in `seqs`.

A promise does not reject a second settlement with the same outcome. The setters throw only
for `Value` after `Fail` and for `Fail` after `Value` (Promise.cs:34, 50). Setting `Value`
again overwrites the value slot and notifies the value subscribers queued at that moment
(`Promises.ResettleAccepted`). Since settling clears both lists, those are only the ones that
subscribed while the slot was empty, which happens after `Value` was set to null.
`SingletonRaw` relies on this when it creates a second instance
(`Singletons.RepeatedCreationNeverThrows`).

## Model

| member | source | states |
|---|---|---|
| Promises.Fresh | Runtime/Classes/Promise.cs:22-28 | the initial snapshot: Waiting, both slots None, both subscriber lists and the trace empty, and consistent |
| Promises.FreshIsConsistent | Runtime/Classes/Promise.cs:22-28 | a new promise is Waiting, with both slots None and both subscriber lists empty |
| Promises.Promise.constructor | Runtime/Classes/Promise.cs:22-28 | a new object's state is the fresh snapshot |
| Promises.ValueCalls | Runtime/Classes/Promise.cs:40 | raising OnValue calls every registered subscriber once per registration, in order, with the argument |
| Promises.FailCalls | Runtime/Classes/Promise.cs:56 | the same for OnFail |
| Promises.StepPreservesConsistent | Runtime/Classes/Promise.cs:30-94 | every operation keeps the slots consistent with the state: at most one slot present, and no subscriber left behind a present slot |
| Promises.RunPreservesConsistent | Runtime/Classes/Promise.cs:30-94 | any sequence of operations keeps that invariant |
| Promises.Throws | Runtime/Classes/Promise.cs:34-51 | only a setter can throw, never on a waiting promise: the Value setter exactly on a failed promise, the Fail setter exactly on a valued one |
| Promises.CrossSettlementRejected | Runtime/Classes/Promise.cs:34-35 | setting Value on a failed promise, or Fail on a valued one, throws and changes nothing |
| Promises.Step | Runtime/Classes/Promise.cs:30-76 | one operation: a throwing setter changes nothing, a settled state stays settled, a successful setter leaves its state and both lists empty, and the trace is only extended |
| Promises.SettleValue | Runtime/Classes/Promise.cs:30-44 | on any promise that has not failed, setting Value to v (null included) does not throw, gives state Value and slot New(v) (None for null), keeps the fail slot, calls each queued value subscriber with v in order after the old trace, and empties both lists; queued fail subscribers are dropped |
| Promises.SettleFail | Runtime/Classes/Promise.cs:46-60 | the mirror image for Fail on any promise that holds no value |
| Promises.ResettleAccepted | Runtime/Classes/Promise.cs:34-42 | settling again with the same outcome does not throw: the state stays, the slot is overwritten with the new payload, and the subscribers queued at that moment (ones that subscribed after a null settlement, so never called before) are notified with it; with the slot already present nothing is queued, so nothing is called |
| Promises.LateValueSubscriberServedOnce | Runtime/Classes/Promise.cs:62-68 | GetValue on a promise with a present value slot calls the new callback exactly once, with the stored value, and leaves both lists empty |
| Promises.LateFailSubscriberServedOnce | Runtime/Classes/Promise.cs:70-76 | the same for GetFail and the fail slot |
| Promises.EmptySlotSubscriptionQueues | Runtime/Classes/Promise.cs:64-67 | with the value slot empty, GetValue only appends the callback and calls nothing |
| Promises.SettledStateIsFinal | Runtime/Classes/Promise.cs:34-54 | once Value or Fail, the state never changes again, whatever operations follow |
| Promises.TraceGrows | Runtime/Classes/Promise.cs:40-80 | notifications are only ever appended |
| Promises.FailedPromiseNeverCallsValueSubscribers | Runtime/Classes/Promise.cs:34-35 | after a failure, every later notification is a fail call |
| Promises.ValuedPromiseNeverCallsFailSubscribers | Runtime/Classes/Promise.cs:50-51 | after a value settlement, every later notification is a value call |
| Promises.Subscriptions | Runtime/Classes/Promise.cs:62-64 | the GetValue operations for a list of callbacks, in order |
| Promises.WaitingSubscriptionsQueue | Runtime/Classes/Promise.cs:64-67 | value subscriptions made while the value slot is empty (on a waiting promise, say) are queued in order and call nothing |
| Promises.ValueCallsMultiplicity | Runtime/Classes/Promise.cs:40 | a callback registered k times is called k times: no deduplication |
| Promises.SubscribeThenSettle | Runtime/Classes/Promise.cs:37-42 | on a new promise, subscriptions followed by Value v call exactly the subscribers with v, in order and with multiplicity, and clear the lists |
| Promises.RunAppend | Runtime/Classes/Promise.cs:30-94 | running two operation sequences in turn is running their concatenation |
| Promises.NullValueNeverReplays | Runtime/Classes/Promise.cs:66 | after Value is set to null, the slot is None, so later value subscribers are queued and never called |
| Promises.Promise.SetValue | Runtime/Classes/Promise.cs:30-44 | the Value setter: throws InvalidOperation exactly on a failed promise, and the new state is one Step |
| Promises.Promise.SetFail | Runtime/Classes/Promise.cs:46-60 | the Fail setter: throws exactly on a valued promise, and the new state is one Step |
| Promises.Promise.GetValue | Runtime/Classes/Promise.cs:62-68 | subscription to the value; the new state is one Step |
| Promises.Promise.GetFail | Runtime/Classes/Promise.cs:70-76 | subscription to the failure; the new state is one Step |
| Promises.Promise.InvokeValue | Runtime/Classes/Promise.cs:78-82 | notifies the value subscribers with the argument, then both lists are empty; the slots and the state are unchanged |
| Promises.Promise.InvokeFail | Runtime/Classes/Promise.cs:84-88 | notifies the fail subscribers, then both lists are empty; the slots and the state are unchanged |
| Promises.Promise.InvokeOnValue | Runtime/Classes/Promise.cs:40 | raising OnValue appends one call per value subscriber |
| Promises.Promise.InvokeOnFail | Runtime/Classes/Promise.cs:56 | raising OnFail appends one call per fail subscriber |
| Promises.Promise.ClearAllSubscribers | Runtime/Classes/Promise.cs:90-94 | both subscriber lists become empty |
| Options.Option.IsSome | Runtime/Structs/Option.cs:49-52 | the implicit conversion to bool, which reads the IsSome field, holds exactly when the option is not None |
| Options.Option.IsNone | Runtime/Structs/Option.cs:26 | IsNone is the negation of IsSome |
| Options.New | Runtime/Structs/Option.cs:33-37 | the constructor (and the implicit conversion from TValue) is present exactly when the payload is not null, and then holds it |
| Options.ValueTypeAlwaysSome | Runtime/Structs/Option.cs:36 | wrapping a value-type payload always gives Some |
| Options.NoneIsDefault | Runtime/Structs/Option.cs:13-14 | None is the default struct: IsSome is false and the payload reads as the default |
| Options.Unwrap | Runtime/Structs/Option.cs:39-42 | the implicit unwrap gives the stored payload without a check, and the default for None |
| Options.UnwrapNew | Runtime/Structs/Option.cs:33-42 | wrapping and then unwrapping gives back the payload, null included |
| Options.NewUnwrap | Runtime/Structs/Option.cs:33-42 | unwrapping and then wrapping gives back the option |
| Options.Equals | Runtime/Structs/Option.cs:62-68 | Equals(Option): true for two Nones, false when exactly one is present, and for two Somes whether the payloads are equal |
| Options.EqualsIsIdentity | Runtime/Structs/Option.cs:62-68 | Equals(Option) holds exactly when the two options are the same value |
| Options.EqualsCases | Runtime/Structs/Option.cs:62-68 | None equals None, Some never equals None, and two Somes are equal exactly when their payloads are |
| Options.EqualsIsEquivalence | Runtime/Structs/Option.cs:62-68 | Equals is reflexive, symmetric and transitive |
| Options.EqualsObject | Runtime/Structs/Option.cs:54-60 | Equals(object) is false for anything that is not an Option of the payload type, and otherwise agrees with Equals(Option) |
| Options.GetHashCode | Runtime/Structs/Option.cs:70-73 | -1 for None, the payload's hash for Some |
| Options.HashAgreesWithEquals | Runtime/Structs/Option.cs:70-73 | GetHashCode is -1 for None and the payload's hash otherwise, so equal options hash equally |
| Options.ToString | Runtime/Structs/Option.cs:75-78 | "None" exactly for None; for Some, "Some: " followed by exactly the payload's rendering |
| Options.ToStringCases | Runtime/Structs/Option.cs:75-78 | ToString is "None" exactly for None, and "Some: " followed by the payload's rendering otherwise |
| Options.ToStringInjective | Runtime/Structs/Option.cs:75-78 | when payload renderings are injective, equal renderings mean equal options |
| Linq.ThrowIfNull | Runtime/Extensions/Net/LinqExtensions.cs:164-168 | throws ArgumentNull exactly for null |
| Linq.FindType | Runtime/Extensions/Net/LinqExtensions.cs:14-23 | None exactly when no element is a T. Otherwise Some of the cast of the first element that is a T |
| Linq.Casts | Runtime/Extensions/Net/LinqExtensions.cs:28-39 | the reference definition of FindTypes' result: never longer than the source, empty when no element is a T, and one entry per element when every element is a T |
| Linq.CastsSnoc | Runtime/Extensions/Net/LinqExtensions.cs:32-36 | one more element adds its cast, if it is a T, at the end |
| Linq.FindTypes | Runtime/Extensions/Net/LinqExtensions.cs:28-39 | returns the elements that are a T, cast, in source order |
| Linq.CastsMembers | Runtime/Extensions/Net/LinqExtensions.cs:28-39 | x is in the FindTypes result exactly when some element casts to x |
| Linq.FindTypeIsFirstOfFindTypes | Runtime/Extensions/Net/LinqExtensions.cs:14-39 | FindType is None exactly when FindTypes is empty, and otherwise FindTypes' first element |
| Linq.MaxScan | Runtime/Extensions/Net/LinqExtensions.cs:50-58 | the rest of the loop as written from a given position: None exactly when nothing was chosen and nothing is left; otherwise the index chosen so far or a later index in range |
| Linq.IndexOfMaxAsWritten | Runtime/Extensions/Net/LinqExtensions.cs:44-63 | the loop as written, comparing each key with the stored element: None exactly for an empty sequence, otherwise an index in range |
| Linq.MaxScanIdentity | Runtime/Extensions/Net/LinqExtensions.cs:50-58 | under the identity selector, where the key is the element, the rest of the loop keeps the earliest maximal index in range |
| Linq.IndexOfMaxAsWrittenAgreesOnIdentity | Runtime/Extensions/Net/LinqExtensions.cs:44-63 | under the identity selector the loop as written meets IndexOfMax's contract: None exactly for an empty sequence, otherwise the earliest index of a maximal element |
| Linq.IndexOfMaxAsWrittenMissesMax | Runtime/Extensions/Net/LinqExtensions.cs:52 | for [5, 3] under x => -x the loop as written answers index 0, though index 1 has the larger key |
| Linq.IndexOfMax | Runtime/Extensions/Net/LinqExtensions.cs:44-63 | the corrected version, which compares key with key (see "## Findings"; the code as written is Linq.IndexOfMaxAsWritten): None exactly for an empty sequence. Otherwise an index in range whose key is maximal, with every earlier key strictly smaller (ties keep the earliest) |
| Linq.IndexOfMin | Runtime/Extensions/Net/LinqExtensions.cs:68-94 | None exactly for an empty sequence. Otherwise an index in range whose key is minimal, with every earlier key strictly larger |
| Linq.FirstMatch | Runtime/Extensions/Net/LinqExtensions.cs:137-143 | None exactly when nothing matches. Otherwise the first matching element |
| Linq.FirstOrNone | Runtime/Extensions/Net/LinqExtensions.cs:132-144 | ArgumentNull exactly for a null source or predicate. Otherwise Some of the first match, or None when nothing matches or the first match is null |
| Linq.FirstOrNoneNonNull | Runtime/Extensions/Net/LinqExtensions.cs:128-144 | for never-null elements, FirstOrNone finds something exactly when some element matches |
| Linq.Apply | Runtime/Extensions/Net/LinqExtensions.cs:146-162 | ArgumentNull, with nothing applied, exactly when an argument is null. Otherwise the action is called on exactly the matching elements, in order, and the source is returned |
| Linq.ForEach | Runtime/Extensions/Net/LinqExtensions.cs:118-126 | the action is called once per element, in order, and the collection is returned. NullReference for a null collection, or for a null action on a non-empty one |
| Seqs.FilterSound | Runtime/Extensions/Net/LinkedListExtensions.cs:25-40 | what remains after removal are elements of the input that do not match, as a sub-multiset |
| Seqs.FilterComplete | Runtime/Extensions/Net/LinkedListExtensions.cs:25-40 | every element of the input that does not match remains |
| Seqs.FilterIdempotent | Runtime/Extensions/Net/LinkedListExtensions.cs:25-40 | removing the matches a second time changes nothing |
| Seqs.FilterLength | Runtime/Extensions/Net/ListExtensions.cs:13-17 | removal shortens a sequence by exactly the number of matches |
| Seqs.RemovedLength | Runtime/Extensions/Net/ListExtensions.cs:13-17 | after removal no element matches, and the length dropped by the number of matches |
| Seqs.FilterAppend | Runtime/Extensions/Net/LinkedListExtensions.cs:27-37 | filtering distributes over concatenation |
| Collections.LinkedList.First | Runtime/Extensions/Net/LinkedListExtensions.cs:27 | LinkedList.First: None exactly for an empty list, otherwise the first node |
| Collections.LinkedList.Next | Runtime/Extensions/Net/LinkedListExtensions.cs:30 | LinkedListNode.Next: the following node, or None for the last one |
| Collections.LinkedList.AddLast | Runtime/Extensions/Net/LinkedListExtensions.cs:16 | LinkedList.AddLast: appends a new node holding the value |
| Collections.LinkedList.Remove | Runtime/Extensions/Net/LinkedListExtensions.cs:33 | LinkedList.Remove(node): unlinks exactly that node and keeps the others in order |
| Collections.List.RemoveAt | Runtime/Extensions/Net/ListExtensions.cs:16 | IList.RemoveAt(i): removes exactly position i |
| Collections.IndexOfDistinct | Runtime/Extensions/Net/LinkedListExtensions.cs:30 | in a list without repeated nodes, a node's position is where it is held |
| LinkedListExtensions.Join | Runtime/Extensions/Net/LinkedListExtensions.cs:12-20 | source becomes old source followed by another's values; the old nodes stay, in place, as a prefix. another is unchanged, and source itself is returned |
| LinkedListExtensions.RemoveAll | Runtime/Extensions/Net/LinkedListExtensions.cs:25-40 | the list keeps exactly the non-matching values, in order, held by the same node objects as before. The predicate is applied once to each original value, in order, and source itself is returned |
| LinkedListExtensions.RemoveAllVisit | Runtime/Extensions/Net/LinkedListExtensions.cs:29-36 | one step of the walk: the successor saved before the removal is the next original node, so no node is skipped |
| LinkedListExtensions.RemoveVisited | Runtime/Extensions/Net/LinkedListExtensions.cs:31-34 | removing the visited node leaves the kept nodes followed by the rest of the walk, without repeated nodes |
| LinkedListExtensions.FirstNodeOrNone | Runtime/Extensions/Net/LinkedListExtensions.cs:46-66 | ArgumentNull exactly for a null list or predicate. Otherwise the first node whose value matches, or None when none does (an empty list included); the list is not modified |
| ListExtensions.RemoveType | Runtime/Extensions/Net/ListExtensions.cs:11-18 | the list keeps exactly the elements that are not a T, in order. None is a T afterwards, and the length dropped by the number of Ts |
| ListExtensions.RemoveTypeStep | Runtime/Extensions/Net/ListExtensions.cs:13-16 | going backwards, each index RemoveAt uses is in bounds and still holds the original element, so none is skipped |
| ListExtensions.ToLinked | Runtime/Extensions/Net/ListExtensions.cs:20-30 | a new linked list with the list's elements in the same order (empty for an empty list), and the list unchanged |
| Singletons.DefaultLazyInstance | Runtime/Attributes/LazyInstanceAttribute.cs:12-15 | the parameterless attribute allows lazy creation |
| Singletons.AllowLazyInstance | Runtime/Objects/SingletonRaw.cs:42-55 | lazy creation is allowed unless the attribute is present with its flag false |
| Singletons.Destroy | Runtime/Objects/SingletonRaw.cs:58-72 | returns true exactly when no instance is left afterwards. With no instance, nothing changes. A non-destroyable instance is kept, and the result is false. Otherwise the instance is disposed and the slot cleared |
| Singletons.InstanceCreated | Runtime/Objects/SingletonRaw.cs:90-93 | setting the promise's value to the new instance throws exactly when the promise has failed, and otherwise leaves it in Value with that instance |
| Singletons.CreateInternal | Runtime/Objects/SingletonRaw.cs:84-88 | installs a new instance, then announces it through the promise |
| Singletons.Create | Runtime/Objects/SingletonRaw.cs:74-82 | a non-destroyable instance is returned and nothing changes. Otherwise the old instance, if any, is disposed and a new one installed and announced; the result is it, or InvalidOperation when the promise has failed |
| Singletons.GetInstance | Runtime/Objects/SingletonRaw.cs:22-37 | the existing instance, with no change. With none: LazyInstance and no change when lazy creation is forbidden, otherwise what CreateInstance gives; never NullReference |
| Singletons.RepeatedCreationNeverThrows | Runtime/Objects/SingletonRaw.cs:92 | while the promise has not failed, any number of CreateInstance calls all succeed and the promise never fails |
| Singletons.SingletonPreservesValid | Runtime/Objects/SingletonRaw.cs:58-93 | the singleton operations keep the promise consistent and the installed instance among those made |
| Singletons.SingletonRaw.constructor | Runtime/Objects/SingletonRaw.cs:11-13 | the static initialisation: an empty slot and a new, fresh promise in its initial state |
| Singletons.SingletonRaw.Exist | Runtime/Objects/SingletonRaw.cs:18 | true exactly when an instance is installed |
| Singletons.SingletonRaw.DestroyIfExist | Runtime/Objects/SingletonRaw.cs:58-72 | result and new state are those of Destroy |
| Singletons.SingletonRaw.Dispose | Runtime/Objects/SingletonRaw.cs:95-97 | the disposal is recorded |
| Singletons.SingletonRaw.CreateInstance | Runtime/Objects/SingletonRaw.cs:74-82 | result and new state are those of Create |
| Singletons.SingletonRaw.CreateInstanceInternal | Runtime/Objects/SingletonRaw.cs:84-88 | outcome and new state are those of CreateInternal |
| Singletons.SingletonRaw.OnInstanceCreatedInternal | Runtime/Objects/SingletonRaw.cs:90-93 | outcome and new state are those of InstanceCreated |
| Singletons.SingletonRaw.Instance | Runtime/Objects/SingletonRaw.cs:22-37 | result and new state are those of GetInstance |

## Left out

- Callback bodies are not modelled, and neither are re-entrant callbacks (a subscriber that calls the setters or subscriptions of the promise that is notifying it). A callback is an id, and calling it appends to the trace.
- Option: the payload stored in None is the C# default value. It is modelled as null (`Unwrap(None) == Null`), which is what it is for reference types. For a value type it would be that type's zero value, which is not modelled.
- Options.Equals: the payload comparison `object.Equals` is Dafny equality, and `GetHashCode` / `ToString` take the payload's hash and rendering as parameters.
- Linq.IndexOfMax, Linq.IndexOfMin: `IComparable` keys are integers, and `CompareTo` is integer comparison.
- Linq.IndexOfMin: elements are never null. For a reference type or a nullable value type (`int?`, whose default is null) the branch at line 78 is then reached only for the first element. For a non-nullable value type `minValue == null` never holds; the first element is taken at line 83 through `minIndex == -1`, after `selector(default(T))` has been called, and the index returned is the same. A null element of a reference type, or a selector that throws on null, is not modelled.
- Linq.IndexOfMaxAsWritten: models the loop only for integer elements with integer keys, because the code compares a key with an element. When the key's type differs from the element's, `CompareTo` throws ArgumentException, which is not modelled. Keys of the element's own type other than `int` (strings under `x => x.ToUpper()`, doubles) run without throwing and also compare key with element, but are not modelled.
- LinkedListExtensions.Join: requires distinct lists. Joining a non-empty list to itself would throw when the enumerator is invalidated by the first `AddLast`; joining an empty list to itself returns it unchanged. Neither case is modelled, since the lists must be distinct, and that is not modelled. A null list argument is not modelled either.
- LinkedListExtensions.RemoveAll: a null list argument is not modelled; it would throw NullReferenceException. A null predicate is not modelled either; on a non-empty list it throws NullReferenceException at line 31.
- ListExtensions.RemoveType, ListExtensions.ToLinked: a null list is not modelled.
- ListExtensions.RemoveType: a fixed-size or read-only `IList` (an array, say) is not modelled; its `RemoveAt` at line 16 throws NotSupportedException as soon as a T is found.
- Linq.FindType, Linq.FindTypes, Linq.IndexOfMax, Linq.IndexOfMin: a null source is not modelled; the `foreach` at lines 16, 32, 50 and 76 throws NullReferenceException. A null selector of IndexOfMax or IndexOfMin is not modelled either. IndexOfMax throws at the first element, since line 52 calls `selector(value)` first. IndexOfMin throws at the first element only for a non-nullable value type; for a reference type the first element goes through the null branch at line 78 without calling the selector, so the throw comes at the second element and a one-element sequence gives Some(0).
- Promises.Promise.GetValue, Promises.Promise.GetFail: a null action is not modelled. `OnValue += null` (line 64) and `OnFail += null` (line 72) add nothing, while the slot check that follows still runs.
- The .NET `LinkedList<T>` / `List<T>` are modelled only as far as the helpers use them. Nodes belong to one list, and the list's own invariants (count, back pointers) are not modelled.
- The runtime type tests (`obj is T`) are a partial cast or a predicate given as a parameter.
- SingletonRaw: the reflection lookup of the attribute and the virtual `CanBeDestroyedOutside` are fixed per singleton type when the object is made. `OnInstanceCreatedInternal` and `Dispose` have their base-class behaviour; subclass overrides are not modelled. `InstancePromise` is a public field that other code may reassign; it is fixed here, though other code may still settle it. The `protected set` of `Instance` is not modelled.
- `Runtime/Objects/Singleton.cs` (the Unity `MonoBehaviour` singleton) is not part of this model. It is engine lifecycle code.
- The Unity vector and quaternion extensions, and the float and int extensions, are not modelled. They are floating-point code.
- `LinqExtensions.Random` and `ArrayExtensions.Random` are not modelled. They depend on random number generators.
- There is no concurrency in the code; everything is single-threaded.

## Findings

| source | as written | input that shows it | evidently intended | confidence | as-written member | corrected member |
|---|---|---|---|---|---|---|
| Runtime/Extensions/Net/LinqExtensions.cs:52 | `selector(value).CompareTo(maxValue)`: the key of the current element is compared with the stored element itself, not with its key | sequence [5, 3], selector x => -x: the answer is index 0 (key -5), though index 1 has key -3 | compare with `selector(maxValue)`, as IndexOfMin does at line 83 | high; not executed | Linq.IndexOfMaxAsWritten, Linq.IndexOfMaxAsWrittenMissesMax | Linq.IndexOfMax |
