/** Promise<TValue, TFail> (Runtime/Classes/Promise.cs): a three-state settlement object with
    a value slot, a fail slot and two ordered subscriber lists.

    Subscribers are opaque callback ids; calling one appends a `Call` to the promise's
    `trace`, so the order and multiplicity of notifications are part of the state.
    The pure part of the module (`Snapshot`, `Step`, `Run`) is the specification the class
    methods are proved against; the lemmas about it state what holds across many calls. */
module Promises {
  import opened Options
  import opened Exceptions

  /** Promise.PromiseState. */
  datatype PromiseState = Waiting | Value | Fail

  /** An `Action<T>` subscriber, identified by an opaque id. */
  type CallbackId = nat

  /** One invocation of a subscriber, with the argument it received. */
  datatype Call<V, F> =
    | ValueCall(callback: CallbackId, valueArgument: Nullable<V>)
    | FailCall(callback: CallbackId, failArgument: Nullable<F>)

  /** The whole observable state of a promise. */
  datatype Snapshot<V, F> = Snapshot(
    state: PromiseState,
    value: Option<V>,
    fail: Option<F>,
    onValue: seq<CallbackId>,
    onFail: seq<CallbackId>,
    trace: seq<Call<V, F>>)

  /** The operations a caller can perform: the two setters and the two subscriptions. */
  datatype Op<V, F> =
    | SetValue(v: Nullable<V>)
    | SetFail(f: Nullable<F>)
    | GetValue(valueCallback: CallbackId)
    | GetFail(failCallback: CallbackId)

  /** Invoking the multicast `OnValue` delegate with `arg`: every subscriber is called once
      per registration, in registration order. */
  function ValueCalls<V, F>(callbacks: seq<CallbackId>, arg: Nullable<V>): (r: seq<Call<V, F>>)
    ensures |r| == |callbacks|
    ensures forall i :: 0 <= i < |callbacks| ==> r[i] == ValueCall(callbacks[i], arg)
  {
    if callbacks == [] then [] else [ValueCall(callbacks[0], arg)] + ValueCalls(callbacks[1..], arg)
  }

  /** Invoking the multicast `OnFail` delegate with `arg`. */
  function FailCalls<V, F>(callbacks: seq<CallbackId>, arg: Nullable<F>): (r: seq<Call<V, F>>)
    ensures |r| == |callbacks|
    ensures forall i :: 0 <= i < |callbacks| ==> r[i] == FailCall(callbacks[i], arg)
  {
    if callbacks == [] then [] else [FailCall(callbacks[0], arg)] + FailCalls(callbacks[1..], arg)
  }

  /** A new promise: Waiting, both slots empty, no subscribers, nothing called yet. */
  function Fresh<V, F>(): (r: Snapshot<V, F>)
    ensures r.state == Waiting && r.value.None? && r.fail.None?
    ensures r.onValue == [] && r.onFail == [] && r.trace == []
    ensures Consistent(r)
  {
    Snapshot(Waiting, None, None, [], [], [])
  }

  /** What every reachable state satisfies: the slots agree with the state (at most one is
      present, none while Waiting), and a present slot has no pending subscriber of its kind. */
  predicate Consistent<V, F>(s: Snapshot<V, F>)
  {
    && (s.state == Waiting ==> s.value.None? && s.fail.None?)
    && (s.state == Value ==> s.fail.None?)
    && (s.state == Fail ==> s.value.None?)
    && (s.value.Some? ==> s.onValue == [])
    && (s.fail.Some? ==> s.onFail == [])
  }

  /** The setters throw InvalidOperationException only across outcomes. */
  predicate Throws<V, F>(s: Snapshot<V, F>, op: Op<V, F>)
    ensures Throws(s, op) ==> op.SetValue? || op.SetFail?
    ensures Throws(s, op) ==> s.state != Waiting
    ensures op.SetValue? ==> (Throws(s, op) <==> s.state == Fail)
    ensures op.SetFail? ==> (Throws(s, op) <==> s.state == Value)
  {
    (op.SetValue? && s.state == Fail) || (op.SetFail? && s.state == Value)
  }

  /** The state after one operation: the Value and Fail setters and GetValue / GetFail.
      A rejected setter changes nothing, a settled promise keeps its state, and calls are
      only ever appended to the trace. */
  function Step<V, F>(s: Snapshot<V, F>, op: Op<V, F>): (r: Snapshot<V, F>)
    ensures Throws(s, op) ==> r == s
    ensures s.state != Waiting ==> r.state == s.state
    ensures op.SetValue? && !Throws(s, op) ==> r.state == Value && r.onValue == [] && r.onFail == []
    ensures op.SetFail? && !Throws(s, op) ==> r.state == Fail && r.onValue == [] && r.onFail == []
    ensures |s.trace| <= |r.trace| && r.trace[..|s.trace|] == s.trace
  {
    if Throws(s, op) then s
    else match op
      case SetValue(v) =>
        var slot := New(v);
        s.(state := Value, value := slot, onValue := [], onFail := [],
           trace := s.trace + ValueCalls(s.onValue, Unwrap(slot)))
      case SetFail(f) =>
        var slot := New(f);
        s.(state := Fail, fail := slot, onValue := [], onFail := [],
           trace := s.trace + FailCalls(s.onFail, Unwrap(slot)))
      case GetValue(cb) =>
        if s.value.IsSome() then
          s.(onValue := [], onFail := [],
             trace := s.trace + ValueCalls(s.onValue + [cb], Unwrap(s.value)))
        else s.(onValue := s.onValue + [cb])
      case GetFail(cb) =>
        if s.fail.IsSome() then
          s.(onValue := [], onFail := [],
             trace := s.trace + FailCalls(s.onFail + [cb], Unwrap(s.fail)))
        else s.(onFail := s.onFail + [cb])
  }

  /** The state after a sequence of operations, performed in order. */
  function Run<V, F>(s: Snapshot<V, F>, ops: seq<Op<V, F>>): Snapshot<V, F>
    decreases |ops|
  {
    if ops == [] then s else Run(Step(s, ops[0]), ops[1..])
  }

  // ---------------------------------------------------------------------------------------
  // Properties of single operations

  lemma FreshIsConsistent<V, F>()
    ensures Consistent(Fresh<V, F>())
    ensures Fresh<V, F>().state == Waiting && Fresh<V, F>().onValue == [] && Fresh<V, F>().onFail == []
  {
  }

  /** Every operation preserves Consistent. */
  lemma StepPreservesConsistent<V, F>(s: Snapshot<V, F>, op: Op<V, F>)
    requires Consistent(s)
    ensures Consistent(Step(s, op))
  {
  }

  /** Every sequence of operations preserves Consistent. */
  lemma {:induction false} RunPreservesConsistent<V, F>(s: Snapshot<V, F>, ops: seq<Op<V, F>>)
    requires Consistent(s)
    ensures Consistent(Run(s, ops))
    decreases |ops|
  {
    if ops != [] {
      StepPreservesConsistent(s, ops[0]);
      RunPreservesConsistent(Step(s, ops[0]), ops[1..]);
    }
  }

  /** A rejected setter changes nothing: setting Value on a failed promise, or Fail on a
      valued one. */
  lemma CrossSettlementRejected<V, F>(s: Snapshot<V, F>, v: Nullable<V>, f: Nullable<F>)
    ensures s.state == Fail ==> Throws(s, SetValue(v)) && Step(s, SetValue(v)) == s
    ensures s.state == Value ==> Throws(s, SetFail(f)) && Step(s, SetFail(f)) == s
  {
  }

  /** Setting Value to v on a promise that has not failed (Waiting, or Value already): the
      state becomes Value and the slot `New(v)` (None when v is null). Every queued value
      subscriber is called with v (null included), in registration order, after the old
      trace; both lists end empty, so queued fail subscribers are dropped. */
  lemma SettleValue<V, F>(s: Snapshot<V, F>, v: Nullable<V>)
    requires s.state != Fail
    ensures !Throws(s, SetValue(v))
    ensures var t := Step(s, SetValue(v));
      && t.state == Value && t.value == New(v) && t.fail == s.fail
      && (v.Null? ==> t.value.None?)
      && t.onValue == [] && t.onFail == []
      && t.trace == s.trace + ValueCalls(s.onValue, v)
      && |t.trace| == |s.trace| + |s.onValue|
      && forall i :: 0 <= i < |s.onValue| ==> t.trace[|s.trace| + i] == ValueCall(s.onValue[i], v)
  {
    UnwrapNew(v);
  }

  /** Setting Fail to f on a promise that has no value (Waiting, or Fail already): the mirror
      image of SettleValue. */
  lemma SettleFail<V, F>(s: Snapshot<V, F>, f: Nullable<F>)
    requires s.state != Value
    ensures !Throws(s, SetFail(f))
    ensures var t := Step(s, SetFail(f));
      && t.state == Fail && t.fail == New(f) && t.value == s.value
      && (f.Null? ==> t.fail.None?)
      && t.onValue == [] && t.onFail == []
      && t.trace == s.trace + FailCalls(s.onFail, f)
      && |t.trace| == |s.trace| + |s.onFail|
      && forall i :: 0 <= i < |s.onFail| ==> t.trace[|s.trace| + i] == FailCall(s.onFail[i], f)
  {
    UnwrapNew(f);
  }

  /** The setters accept settling again with the same outcome: the state stays, the slot is
      overwritten, and the subscribers queued at that moment (possible only after a null
      settlement left the slot empty) are notified with the new value. */
  lemma ResettleAccepted<V, F>(s: Snapshot<V, F>, v: Nullable<V>, f: Nullable<F>)
    requires Consistent(s)
    ensures s.state == Value ==>
      && !Throws(s, SetValue(v))
      && Step(s, SetValue(v)).state == Value && Step(s, SetValue(v)).value == New(v)
      && Step(s, SetValue(v)).trace == s.trace + ValueCalls(s.onValue, v)
      && (s.value.Some? ==> Step(s, SetValue(v)).trace == s.trace)
    ensures s.state == Fail ==>
      && !Throws(s, SetFail(f))
      && Step(s, SetFail(f)).state == Fail && Step(s, SetFail(f)).fail == New(f)
      && Step(s, SetFail(f)).trace == s.trace + FailCalls(s.onFail, f)
      && (s.fail.Some? ==> Step(s, SetFail(f)).trace == s.trace)
  {
    if s.state == Value {
      SettleValue(s, v);
      if s.value.Some? {
        assert s.trace + ValueCalls<V, F>([], v) == s.trace;
      }
    }
    if s.state == Fail {
      SettleFail(s, f);
      if s.fail.Some? {
        assert s.trace + FailCalls<V, F>([], f) == s.trace;
      }
    }
  }

  /** A subscriber added to a promise whose value slot is present is called at once, exactly
      once, with the stored value, and both lists are left empty. */
  lemma LateValueSubscriberServedOnce<V, F>(s: Snapshot<V, F>, cb: CallbackId)
    requires Consistent(s) && s.value.Some?
    ensures Step(s, GetValue(cb)).trace == s.trace + [ValueCall(cb, NonNull(s.value.value))]
    ensures Step(s, GetValue(cb)).onValue == [] && Step(s, GetValue(cb)).onFail == []
  {
    assert ValueCalls<V, F>([cb], NonNull(s.value.value)) == [ValueCall(cb, NonNull(s.value.value))];
  }

  /** The same for a fail subscriber on a promise whose fail slot is present. */
  lemma LateFailSubscriberServedOnce<V, F>(s: Snapshot<V, F>, cb: CallbackId)
    requires Consistent(s) && s.fail.Some?
    ensures Step(s, GetFail(cb)).trace == s.trace + [FailCall(cb, NonNull(s.fail.value))]
    ensures Step(s, GetFail(cb)).onValue == [] && Step(s, GetFail(cb)).onFail == []
  {
    assert FailCalls<V, F>([cb], NonNull(s.fail.value)) == [FailCall(cb, NonNull(s.fail.value))];
  }

  /** While the value slot is empty (Waiting, Fail, or Value set to null) GetValue only
      appends the subscriber and calls nothing. */
  lemma EmptySlotSubscriptionQueues<V, F>(s: Snapshot<V, F>, cb: CallbackId)
    requires s.value.None?
    ensures Step(s, GetValue(cb)) == s.(onValue := s.onValue + [cb])
  {
  }

  // ---------------------------------------------------------------------------------------
  // Properties of sequences of operations

  /** Once settled, a promise never changes state again: Value stays Value and Fail stays
      Fail, whatever is called afterwards. */
  lemma {:induction false} SettledStateIsFinal<V, F>(s: Snapshot<V, F>, ops: seq<Op<V, F>>)
    requires s.state != Waiting
    ensures Run(s, ops).state == s.state
    decreases |ops|
  {
    if ops != [] {
      SettledStateIsFinal(Step(s, ops[0]), ops[1..]);
    }
  }

  /** The trace only grows. */
  lemma {:induction false} TraceGrows<V, F>(s: Snapshot<V, F>, ops: seq<Op<V, F>>)
    ensures |s.trace| <= |Run(s, ops).trace| && Run(s, ops).trace[..|s.trace|] == s.trace
    decreases |ops|
  {
    if ops != [] {
      var t := Step(s, ops[0]);
      assert |s.trace| <= |t.trace| && t.trace[..|s.trace|] == s.trace;
      TraceGrows(t, ops[1..]);
    }
  }

  /** After a failure, no value subscriber is ever called: every call appended from then on is
      a fail call. */
  lemma {:induction false} FailedPromiseNeverCallsValueSubscribers<V, F>(s: Snapshot<V, F>, ops: seq<Op<V, F>>)
    requires Consistent(s) && s.state == Fail
    ensures var t := Run(s, ops).trace;
      |s.trace| <= |t| && forall i :: |s.trace| <= i < |t| ==> t[i].FailCall?
    decreases |ops|
  {
    if ops != [] {
      var u := Step(s, ops[0]);
      assert |s.trace| <= |u.trace| && forall i :: |s.trace| <= i < |u.trace| ==> u.trace[i].FailCall?;
      StepPreservesConsistent(s, ops[0]);
      FailedPromiseNeverCallsValueSubscribers(u, ops[1..]);
      TraceGrows(u, ops[1..]);
      var t := Run(u, ops[1..]).trace;
      forall i | |s.trace| <= i < |u.trace| ensures t[i].FailCall? {
        assert t[i] == t[..|u.trace|][i];
      }
    }
  }

  /** After a value settlement, no fail subscriber is ever called. */
  lemma {:induction false} ValuedPromiseNeverCallsFailSubscribers<V, F>(s: Snapshot<V, F>, ops: seq<Op<V, F>>)
    requires Consistent(s) && s.state == Value
    ensures var t := Run(s, ops).trace;
      |s.trace| <= |t| && forall i :: |s.trace| <= i < |t| ==> t[i].ValueCall?
    decreases |ops|
  {
    if ops != [] {
      var u := Step(s, ops[0]);
      assert |s.trace| <= |u.trace| && forall i :: |s.trace| <= i < |u.trace| ==> u.trace[i].ValueCall?;
      StepPreservesConsistent(s, ops[0]);
      ValuedPromiseNeverCallsFailSubscribers(u, ops[1..]);
      TraceGrows(u, ops[1..]);
      var t := Run(u, ops[1..]).trace;
      forall i | |s.trace| <= i < |u.trace| ensures t[i].ValueCall? {
        assert t[i] == t[..|u.trace|][i];
      }
    }
  }

  /** Registering value subscribers, in order. */
  function Subscriptions<V, F>(callbacks: seq<CallbackId>): (ops: seq<Op<V, F>>)
    ensures |ops| == |callbacks|
    ensures forall i :: 0 <= i < |callbacks| ==> ops[i] == GetValue(callbacks[i])
  {
    if callbacks == [] then [] else [GetValue(callbacks[0])] + Subscriptions(callbacks[1..])
  }

  /** Running a sequence that starts with op is running the rest after op. */
  lemma RunCons<V, F>(s: Snapshot<V, F>, op: Op<V, F>, rest: seq<Op<V, F>>)
    ensures Run(s, [op] + rest) == Run(Step(s, op), rest)
  {
    assert ([op] + rest)[1..] == rest;
  }

  /** Value subscriptions made while the value slot is empty (a waiting promise, say) are
      queued in order and call nothing. */
  lemma {:induction false} WaitingSubscriptionsQueue<V, F>(s: Snapshot<V, F>, callbacks: seq<CallbackId>)
    requires s.value.None?
    ensures Run(s, Subscriptions(callbacks)) == s.(onValue := s.onValue + callbacks)
    decreases |callbacks|
  {
    if callbacks == [] {
      assert s.onValue + callbacks == s.onValue;
    } else {
      var c := callbacks[0];
      var rest := Subscriptions<V, F>(callbacks[1..]);
      RunCons(s, GetValue(c), rest);
      EmptySlotSubscriptionQueues(s, c);
      var t := s.(onValue := s.onValue + [c]);
      WaitingSubscriptionsQueue(t, callbacks[1..]);
      assert s.onValue + [c] + callbacks[1..] == s.onValue + callbacks;
    }
  }

  /** How many times callback cb has been called. */
  function CallsOf<V, F>(trace: seq<Call<V, F>>, cb: CallbackId): nat
  {
    if trace == [] then 0 else (if trace[0].callback == cb then 1 else 0) + CallsOf(trace[1..], cb)
  }

  /** How many times cb occurs in a subscriber list. */
  function Occurrences(callbacks: seq<CallbackId>, cb: CallbackId): nat
  {
    if callbacks == [] then 0 else (if callbacks[0] == cb then 1 else 0) + Occurrences(callbacks[1..], cb)
  }

  /** Notifying a list calls each subscriber once per registration: no deduplication. */
  lemma {:induction false} ValueCallsMultiplicity<V, F>(callbacks: seq<CallbackId>, arg: Nullable<V>, cb: CallbackId)
    ensures CallsOf(ValueCalls<V, F>(callbacks, arg), cb) == Occurrences(callbacks, cb)
    decreases |callbacks|
  {
    if callbacks != [] {
      var r := ValueCalls<V, F>(callbacks, arg);
      assert r[1..] == ValueCalls<V, F>(callbacks[1..], arg);
      ValueCallsMultiplicity<V, F>(callbacks[1..], arg, cb);
    }
  }

  /** Scenario: on a new promise, subscribe callbacks to the value, then set it to a non-null v.
      Exactly the subscribers are called, with v, in registration order, each as many times as
      it was registered; the promise ends in Value with no subscriber left. */
  lemma SubscribeThenSettle<V, F>(callbacks: seq<CallbackId>, v: V, cb: CallbackId)
    ensures var t := Run(Fresh<V, F>(), Subscriptions<V, F>(callbacks) + [SetValue(NonNull(v))]);
      && t.state == Value && t.value == Some(v)
      && t.trace == ValueCalls(callbacks, NonNull(v))
      && CallsOf(t.trace, cb) == Occurrences(callbacks, cb)
      && t.onValue == [] && t.onFail == []
  {
    var s := Fresh<V, F>();
    var ops := Subscriptions<V, F>(callbacks);
    WaitingSubscriptionsQueue(s, callbacks);
    RunAppend(s, ops, [SetValue(NonNull(v))]);
    var w := Run(s, ops);
    assert w == s.(onValue := callbacks);
    assert Run(w, [SetValue(NonNull(v))]) == Step(w, SetValue(NonNull(v)));
    assert [] + ValueCalls<V, F>(callbacks, NonNull(v)) == ValueCalls<V, F>(callbacks, NonNull(v));
    ValueCallsMultiplicity<V, F>(callbacks, NonNull(v), cb);
  }

  /** Running two sequences one after the other. */
  lemma {:induction false} RunAppend<V, F>(s: Snapshot<V, F>, a: seq<Op<V, F>>, b: seq<Op<V, F>>)
    ensures Run(s, a + b) == Run(Run(s, a), b)
    decreases |a|
  {
    if a == [] {
      assert a + b == b;
    } else {
      assert (a + b)[0] == a[0];
      assert (a + b)[1..] == a[1..] + b;
      RunAppend(Step(s, a[0]), a[1..], b);
    }
  }

  /** Setting Value to null settles the promise in Value with an empty slot, so later value
      subscribers are queued and never called; Fail can no longer be set either. */
  lemma NullValueNeverReplays<V, F>(s: Snapshot<V, F>, callbacks: seq<CallbackId>)
    requires s.state == Value && s.value.None?
    ensures var t := Run(s, Subscriptions<V, F>(callbacks));
      t.trace == s.trace && t.onValue == s.onValue + callbacks && t.state == Value
  {
    WaitingSubscriptionsQueue(s, callbacks);
  }

  // ---------------------------------------------------------------------------------------
  // The class

  /** The promise object. Its fields are those of Promise.cs; `trace` records the calls made
      to subscribers. */
  class Promise<V, F> {
    var state: PromiseState
    var value: Option<V>
    var fail: Option<F>
    var onValue: seq<CallbackId>
    var onFail: seq<CallbackId>
    var trace: seq<Call<V, F>>

    /** The abstract state of this object. */
    function View(): Snapshot<V, F>
      reads this
    {
      Snapshot(state, value, fail, onValue, onFail, trace)
    }

    ghost predicate Valid()
      reads this
    {
      Consistent(View())
    }

    constructor ()
      ensures Valid() && View() == Fresh()
    {
      state := Waiting;
      value := None;
      fail := None;
      onValue := [];
      onFail := [];
      trace := [];
    }

    /** The `Value` setter. */
    method SetValue(v: Nullable<V>) returns (outcome: Outcome)
      requires Valid()
      modifies this
      ensures Valid()
      ensures View() == Step(old(View()), Op.SetValue(v))
      ensures outcome == if old(state) == Fail then Thrown(InvalidOperation) else Pass
    {
      if state == Fail {
        return Thrown(InvalidOperation);
      }
      value := New(v);
      state := Value;
      InvokeOnValue(Unwrap(value));
      ClearAllSubscribers();
      outcome := Pass;
    }

    /** The `Fail` setter. */
    method SetFail(f: Nullable<F>) returns (outcome: Outcome)
      requires Valid()
      modifies this
      ensures Valid()
      ensures View() == Step(old(View()), Op.SetFail(f))
      ensures outcome == if old(state) == Value then Thrown(InvalidOperation) else Pass
    {
      if state == Value {
        return Thrown(InvalidOperation);
      }
      fail := New(f);
      state := Fail;
      InvokeOnFail(Unwrap(fail));
      ClearAllSubscribers();
      outcome := Pass;
    }

    /** `GetValue(resultAction)`: subscribe, and be served at once if the value slot is present. */
    method GetValue(cb: CallbackId)
      requires Valid()
      modifies this
      ensures Valid()
      ensures View() == Step(old(View()), Op.GetValue(cb))
    {
      onValue := onValue + [cb];
      if value.IsSome() {
        InvokeValue(Unwrap(value));
      }
    }

    /** `GetFail(failAction)`: subscribe, and be served at once if the fail slot is present. */
    method GetFail(cb: CallbackId)
      requires Valid()
      modifies this
      ensures Valid()
      ensures View() == Step(old(View()), Op.GetFail(cb))
    {
      onFail := onFail + [cb];
      if fail.IsSome() {
        InvokeFail(Unwrap(fail));
      }
    }

    /** `InvokeValue(result)`: notify the value subscribers, then clear both lists. */
    method InvokeValue(result: Nullable<V>)
      modifies this
      ensures trace == old(trace) + ValueCalls(old(onValue), result)
      ensures onValue == [] && onFail == []
      ensures state == old(state) && value == old(value) && fail == old(fail)
    {
      InvokeOnValue(result);
      ClearAllSubscribers();
    }

    /** `InvokeFail(fail)`: notify the fail subscribers, then clear both lists. */
    method InvokeFail(result: Nullable<F>)
      modifies this
      ensures trace == old(trace) + FailCalls(old(onFail), result)
      ensures onValue == [] && onFail == []
      ensures state == old(state) && value == old(value) && fail == old(fail)
    {
      InvokeOnFail(result);
      ClearAllSubscribers();
    }

    /** Raising the `OnValue` event: every value subscriber is called, in order. */
    method InvokeOnValue(arg: Nullable<V>)
      modifies this`trace
      ensures trace == old(trace) + ValueCalls(onValue, arg)
    {
      trace := trace + ValueCalls(onValue, arg);
    }

    /** Raising the `OnFail` event. */
    method InvokeOnFail(arg: Nullable<F>)
      modifies this`trace
      ensures trace == old(trace) + FailCalls(onFail, arg)
    {
      trace := trace + FailCalls(onFail, arg);
    }

    /** `ClearAllSubscribers()`: both lists become empty; nothing else changes. */
    method ClearAllSubscribers()
      modifies this`onValue, this`onFail
      ensures onValue == [] && onFail == []
    {
      onValue := [];
      onFail := [];
    }
  }

  /** `Promise<TValue>`: a promise whose fail type is int. */
  type ValuePromise<V> = Promise<V, int>
}
