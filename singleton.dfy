/** SingletonRaw (Runtime/Objects/SingletonRaw.cs) and the flag of LazyInstanceAttribute
    (Runtime/Attributes/LazyInstanceAttribute.cs).

    The static members of one singleton type TSingleton become one `SingletonRaw` object:
    the instance slot `_instance`, the public `InstancePromise`, and the per-type facts the
    code looks up (the LazyInstance attribute, found by reflection, and the virtual
    `CanBeDestroyedOutside`), which are fixed when the object is made. The instances
    themselves are numbered in creation order; `Dispose` calls are recorded in a trace. */
module Singletons {
  import opened Options
  import opened Exceptions
  import opened Promises

  /** An instance of TSingleton: the number of instances made before it. */
  type InstanceId = nat

  /** `[LazyInstance(allowLazyInstance)]`. */
  datatype LazyInstanceAttribute = LazyInstanceAttribute(allowLazyInstance: bool)

  /** The parameterless constructor `[LazyInstance]`, which allows lazy creation. */
  function DefaultLazyInstance(): (a: LazyInstanceAttribute)
    ensures a.allowLazyInstance
  {
    LazyInstanceAttribute(true)
  }

  /** `AllowLazyInstance`: lazy creation is allowed without the attribute and with the flag
      set; only an explicit `[LazyInstance(false)]` forbids it. */
  function AllowLazyInstance(lazyAttribute: Nullable<LazyInstanceAttribute>): (r: bool)
    ensures r <==> lazyAttribute != NonNull(LazyInstanceAttribute(false))
    ensures lazyAttribute == NonNull(DefaultLazyInstance()) ==> r
  {
    if lazyAttribute.Null? then true else lazyAttribute.value.allowLazyInstance
  }

  /** What the code learns about TSingleton from its declaration. */
  datatype Kind = Kind(lazyAttribute: Nullable<LazyInstanceAttribute>, canBeDestroyedOutside: bool)

  /** The static state of one singleton type: the instance slot, how many instances were made,
      the instances disposed so far, and the instance promise. */
  datatype World = World(instance: Nullable<InstanceId>, created: nat, disposed: seq<InstanceId>,
                         promise: Snapshot<InstanceId, int>)

  /** What an operation returns (or throws) together with the state it leaves. */
  datatype Transition<X> = Transition(result: X, next: World)

  /** Reachable states: a consistent promise, and an installed instance is one already made. */
  predicate WorldValid(w: World)
  {
    Consistent(w.promise) && (w.instance.NonNull? ==> w.instance.value < w.created)
  }

  /** Before any instance: an empty slot and a new promise. */
  function Initial(): World
  {
    World(Null, 0, [], Fresh())
  }

  /** `DestroyIfExist()`. */
  function Destroy(kind: Kind, w: World): (r: Transition<bool>)
    ensures r.result <==> r.next.instance.Null?
    ensures !r.result ==> w.instance.NonNull? && !kind.canBeDestroyedOutside && r.next == w
    ensures w.instance.Null? ==> r.next == w
    ensures w.instance.NonNull? && kind.canBeDestroyedOutside ==>
      r.next == w.(instance := Null, disposed := w.disposed + [w.instance.value])
  {
    if w.instance.NonNull? then
      if !kind.canBeDestroyedOutside then Transition(false, w)
      else Transition(true, w.(instance := Null, disposed := w.disposed + [w.instance.value]))
    else Transition(true, w)
  }

  /** `OnInstanceCreatedInternal()` of instance id: set the promise's value to it, which throws
      only when the promise has failed. */
  function InstanceCreated(w: World, id: InstanceId): (r: Transition<Outcome>)
    ensures r.result == if w.promise.state == Fail then Thrown(InvalidOperation) else Pass
    ensures r.next == w.(promise := Step(w.promise, Op.SetValue(NonNull(id))))
    ensures r.result.Pass? ==> r.next.promise.state == Value && r.next.promise.value == Some(id)
  {
    var op := Op.SetValue(NonNull(id));
    Transition(if Throws(w.promise, op) then Thrown(InvalidOperation) else Pass,
               w.(promise := Step(w.promise, op)))
  }

  /** `CreateInstanceInternal()`: install a new instance, then announce it. */
  function CreateInternal(w: World): (r: Transition<Outcome>)
    ensures r.next.instance == NonNull(w.created) && r.next.created == w.created + 1
    ensures r.next.disposed == w.disposed
    ensures r.next == InstanceCreated(w.(instance := NonNull(w.created), created := w.created + 1), w.created).next
  {
    var id := w.created;
    InstanceCreated(w.(instance := NonNull(id), created := id + 1), id)
  }

  /** `CreateInstance()`. An instance that may not be destroyed from outside is kept and
      returned. Otherwise the old instance (if any) is disposed and a new one installed and
      returned; if the promise has failed, announcing it throws, but the instance stays. */
  function Create(kind: Kind, w: World): (r: Transition<Result<InstanceId>>)
    ensures w.instance.NonNull? && !kind.canBeDestroyedOutside ==> r == Transition(Ok(w.instance.value), w)
    ensures w.instance.Null? || kind.canBeDestroyedOutside ==>
      && r.next.instance == NonNull(w.created)
      && r.next.created == w.created + 1
      && r.next.disposed == w.disposed + (if w.instance.NonNull? then [w.instance.value] else [])
      && r.next.promise == Step(w.promise, Op.SetValue(NonNull(w.created)))
      && r.result == (if w.promise.state == Fail then Err(InvalidOperation) else Ok(w.created))
    ensures r.result.Ok? ==> r.next.instance == NonNull(r.result.value)
    ensures r.result.Ok? && r.next != w ==>
      r.next.promise.state == Value && r.next.promise.value == Some(r.result.value)
  {
    var d := Destroy(kind, w);
    if !d.result then Transition(Ok(w.instance.value), d.next)
    else
      var c := CreateInternal(d.next);
      match c.result
      case Thrown(e) => Transition(Err(e), c.next)
      case Pass => Transition(Ok(c.next.instance.value), c.next)
  }

  /** The `Instance` getter: the installed instance; with none, LazyInstanceException when lazy
      creation is forbidden, and otherwise whatever CreateInstance returns or throws. The final
      NullReferenceException of the getter is never reached. */
  function GetInstance(kind: Kind, w: World): (r: Transition<Result<InstanceId>>)
    ensures w.instance.NonNull? ==> r == Transition(Ok(w.instance.value), w)
    ensures w.instance.Null? && !AllowLazyInstance(kind.lazyAttribute) ==> r == Transition(Err(LazyInstance), w)
    ensures w.instance.Null? && AllowLazyInstance(kind.lazyAttribute) ==> r == Create(kind, w)
    ensures r.result != Err(NullReference)
    ensures r.result.Ok? ==> r.next.instance == NonNull(r.result.value)
  {
    if w.instance.Null? then
      if !AllowLazyInstance(kind.lazyAttribute) then Transition(Err(LazyInstance), w)
      else
        var c := Create(kind, w);
        if c.result.Err? then c
        else if c.next.instance.Null? then Transition(Err(NullReference), c.next)
        else Transition(Ok(c.next.instance.value), c.next)
    else Transition(Ok(w.instance.value), w)
  }

  /** n calls of CreateInstance in a row: what each returned, and the final state. */
  function CreateRepeatedly(kind: Kind, w: World, n: nat): Transition<seq<Result<InstanceId>>>
    decreases n
  {
    if n == 0 then Transition([], w)
    else
      var c := Create(kind, w);
      var rest := CreateRepeatedly(kind, c.next, n - 1);
      Transition([c.result] + rest.result, rest.next)
  }

  /** Re-creating the instance keeps re-setting the promise's value without throwing, as long
      as nobody made the promise fail: the value setter rejects only a failed promise. */
  lemma {:induction false} RepeatedCreationNeverThrows(kind: Kind, w: World, n: nat)
    requires w.promise.state != Fail
    ensures |CreateRepeatedly(kind, w, n).result| == n
    ensures forall i :: 0 <= i < n ==> CreateRepeatedly(kind, w, n).result[i].Ok?
    ensures CreateRepeatedly(kind, w, n).next.promise.state != Fail
    decreases n
  {
    if n > 0 {
      var c := Create(kind, w);
      assert c.next.promise.state != Fail;
      RepeatedCreationNeverThrows(kind, c.next, n - 1);
    }
  }

  /** The singleton operations keep the state reachable. */
  lemma SingletonPreservesValid(kind: Kind, w: World)
    requires WorldValid(w)
    ensures WorldValid(Destroy(kind, w).next)
    ensures WorldValid(Create(kind, w).next)
    ensures WorldValid(GetInstance(kind, w).next)
  {
    StepPreservesConsistent(w.promise, Op.SetValue(NonNull(w.created)));
  }

  /** The static members of one singleton type. */
  class SingletonRaw {
    const kind: Kind
    const instancePromise: ValuePromise<InstanceId>
    var instance: Nullable<InstanceId>
    var created: nat
    var disposed: seq<InstanceId>

    /** The abstract state of this object. */
    function View(): World
      reads this, instancePromise
    {
      World(instance, created, disposed, instancePromise.View())
    }

    ghost predicate Valid()
      reads this, instancePromise
    {
      WorldValid(View())
    }

    /** The static initialisation: an empty slot and `new Promise<TSingleton>()`. */
    constructor (kind: Kind)
      ensures Valid() && View() == Initial() && this.kind == kind && fresh(instancePromise)
    {
      this.kind := kind;
      instancePromise := new Promise();
      instance := Null;
      created := 0;
      disposed := [];
    }

    /** `Exist`. */
    function Exist(): (r: bool)
      reads this
      ensures r <==> instance.NonNull?
    {
      instance.NonNull?
    }

    /** `DestroyIfExist()`. */
    method DestroyIfExist() returns (r: bool)
      requires Valid()
      modifies this
      ensures Valid()
      ensures Transition(r, View()) == Destroy(kind, old(View()))
    {
      if instance.NonNull? {
        if !kind.canBeDestroyedOutside {
          return false;
        }
        Dispose(instance.value);
        instance := Null;
        return true;
      }
      return true;
    }

    /** `Dispose()` of an instance (empty in the base class): recorded in the trace. */
    method Dispose(id: InstanceId)
      modifies this`disposed
      ensures disposed == old(disposed) + [id]
    {
      disposed := disposed + [id];
    }

    /** `CreateInstance()`. */
    method CreateInstance() returns (r: Result<InstanceId>)
      requires Valid()
      modifies this, instancePromise
      ensures Valid()
      ensures Transition(r, View()) == Create(kind, old(View()))
    {
      SingletonPreservesValid(kind, View());
      var destroyed := DestroyIfExist();
      if !destroyed {
        return Ok(instance.value);
      }
      var outcome := CreateInstanceInternal();
      if outcome.Thrown? {
        return Err(outcome.error);
      }
      return Ok(instance.value);
    }

    /** `CreateInstanceInternal()`. */
    method CreateInstanceInternal() returns (outcome: Outcome)
      requires Valid()
      modifies this, instancePromise
      ensures Valid()
      ensures Transition(outcome, View()) == CreateInternal(old(View()))
    {
      instance := NonNull(created);
      created := created + 1;
      outcome := OnInstanceCreatedInternal(instance.value);
    }

    /** `OnInstanceCreatedInternal()` of the new instance id. */
    method OnInstanceCreatedInternal(id: InstanceId) returns (outcome: Outcome)
      requires Valid()
      modifies instancePromise
      ensures Valid()
      ensures Transition(outcome, View()) == InstanceCreated(old(View()), id)
    {
      outcome := instancePromise.SetValue(NonNull(id));
    }

    /** The `Instance` getter. */
    method Instance() returns (r: Result<InstanceId>)
      requires Valid()
      modifies this, instancePromise
      ensures Valid()
      ensures Transition(r, View()) == GetInstance(kind, old(View()))
    {
      if instance.Null? {
        if !AllowLazyInstance(kind.lazyAttribute) {
          return Err(LazyInstance);
        }
        var c := CreateInstance();
        if c.Err? {
          return c;
        }
      }
      if instance.Null? {
        return Err(NullReference);
      }
      return Ok(instance.value);
    }
  }
}
