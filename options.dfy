/** The Option<TValue> struct (Runtime/Structs/Option.cs) and the C# values it wraps. */
module Options {

  /** A C# value of some payload type: the null reference, or an actual value.
      Values of a C# value type are always `NonNull`. */
  datatype Nullable<T> = Null | NonNull(value: T)

  /** A value or nothing. `Some(v)` is a struct whose IsSome is true and whose payload is v;
      `None` is the default struct (IsSome false). */
  datatype Option<T> = None | Some(value: T) {

    /** The IsSome field; also what the implicit conversion to bool yields. */
    predicate IsSome()
      ensures IsSome() <==> this != None
    {
      Some?
    }

    /** IsNone is defined in C# as the negation of IsSome. */
    predicate IsNone()
      ensures IsNone() <==> None?
    {
      !IsSome()
    }
  }

  /** The constructor `new Option<TValue>(option)`, also used by the implicit conversion
      from TValue: the result is present exactly when the wrapped value is not null. */
  function New<T>(x: Nullable<T>): (r: Option<T>)
    ensures r.IsSome() <==> x != Null
    ensures r.IsSome() ==> NonNull(r.value) == x
  {
    match x
    case Null => None
    case NonNull(v) => Some(v)
  }

  /** The `option` property and the implicit conversion to TValue: the stored payload,
      read without any check; for None it is the default payload. */
  function Unwrap<T>(o: Option<T>): (r: Nullable<T>)
    ensures o.IsSome() <==> r != Null
    ensures o.IsSome() ==> r.value == o.value
  {
    match o
    case None => Null
    case Some(v) => NonNull(v)
  }

  /** `None` is the default struct: nothing is present and the payload reads as null. */
  lemma NoneIsDefault<T>()
    ensures !Option<T>.None.IsSome() && Option<T>.None.IsNone()
    ensures Unwrap(Option<T>.None) == Null
  {
  }

  /** Wrapping a value of a C# value type (never null) always gives a present option. */
  lemma ValueTypeAlwaysSome<T>(v: T)
    ensures New(NonNull(v)) == Some(v)
  {
  }

  /** Wrapping, then unwrapping, gives back the wrapped value (null included). */
  lemma UnwrapNew<T>(x: Nullable<T>)
    ensures Unwrap(New(x)) == x
  {
  }

  /** Unwrapping, then wrapping, gives back the option. */
  lemma NewUnwrap<T>(o: Option<T>)
    ensures New(Unwrap(o)) == o
  {
  }

  /** `Equals(Option<TValue> other)`: two present options compare their payloads
      (object.Equals, modelled as Dafny equality); otherwise they are equal exactly
      when both are absent. */
  function Equals<T(==)>(a: Option<T>, b: Option<T>): (r: bool)
    ensures a.None? && b.None? ==> r
    ensures a.Some? != b.Some? ==> !r
    ensures a.Some? && b.Some? ==> (r <==> a.value == b.value)
  {
    if a.IsSome() && b.IsSome() then a.value == b.value else a.IsNone() == b.IsNone()
  }

  /** Equals coincides with identity of the modelled values, in both directions. */
  lemma EqualsIsIdentity<T>(a: Option<T>, b: Option<T>)
    ensures Equals(a, b) <==> a == b
  {
  }

  /** The cases of Equals: None equals None, Some never equals None,
      and two Somes are equal exactly when their payloads are. */
  lemma EqualsCases<T>(x: T, y: T)
    ensures Equals(Option<T>.None, Option<T>.None)
    ensures !Equals(Some(x), None) && !Equals(None, Some(x))
    ensures Equals(Some(x), Some(y)) <==> x == y
  {
  }

  /** Equals is an equivalence relation. */
  lemma EqualsIsEquivalence<T>(a: Option<T>, b: Option<T>, c: Option<T>)
    ensures Equals(a, a)
    ensures Equals(a, b) ==> Equals(b, a)
    ensures Equals(a, b) && Equals(b, c) ==> Equals(a, c)
  {
  }

  /** The argument of `Equals(object obj)`: either a boxed option of the same payload type,
      or anything else (null, or an object of another type). */
  datatype Boxed<T> = BoxedOption(option: Option<T>) | NotAnOption

  /** `Equals(object obj)`: false unless obj is an Option<TValue>, else `Equals(Option)`. */
  function EqualsObject<T(==)>(a: Option<T>, obj: Boxed<T>): (r: bool)
    ensures obj.NotAnOption? ==> !r
    ensures obj.BoxedOption? ==> (r <==> a == obj.option)
  {
    match obj
    case BoxedOption(other) => Equals(a, other)
    case NotAnOption => false
  }

  /** `GetHashCode()`: -1 when absent, else the payload's own hash code. */
  function GetHashCode<T>(o: Option<T>, hash: T -> int): (r: int)
    ensures o.None? ==> r == -1
    ensures o.Some? ==> r == hash(o.value)
  {
    if !o.IsSome() then -1 else hash(o.value)
  }

  /** Equal options have equal hash codes; an absent option hashes to -1
      and a present one to its payload's hash. */
  lemma HashAgreesWithEquals<T>(a: Option<T>, b: Option<T>, hash: T -> int)
    ensures Equals(a, b) ==> GetHashCode(a, hash) == GetHashCode(b, hash)
    ensures a.None? ==> GetHashCode(a, hash) == -1
    ensures a.Some? ==> GetHashCode(a, hash) == hash(a.value)
  {
  }

  /** `ToString()`: "Some: " followed by the payload's rendering, or "None". */
  function ToString<T>(o: Option<T>, show: T -> string): (r: string)
    ensures o.None? <==> r == "None"
    ensures o.Some? ==> |r| == 6 + |show(o.value)| && r[..6] == "Some: " && r[6..] == show(o.value)
  {
    if o.IsSome() then "Some: " + show(o.value) else "None"
  }

  /** The rendering tells the two cases apart: it is "None" exactly for None,
      and a present option renders as "Some: " followed by its payload. */
  lemma ToStringCases<T>(o: Option<T>, show: T -> string)
    ensures ToString(o, show) == "None" <==> o.None?
    ensures o.Some? ==> |ToString(o, show)| >= 6 && ToString(o, show)[..6] == "Some: "
    ensures o.Some? ==> ToString(o, show)[6..] == show(o.value)
  {
    if o.Some? {
      var r := ToString(o, show);
      assert r[..6] == "Some: ";
      assert r != "None" by {
        assert |r| >= 6;
      }
    }
  }

  /** When payloads render injectively, so do options: equal renderings mean equal options. */
  lemma ToStringInjective<T>(a: Option<T>, b: Option<T>, show: T -> string)
    requires forall x, y :: show(x) == show(y) ==> x == y
    ensures ToString(a, show) == ToString(b, show) ==> a == b
  {
    if ToString(a, show) == ToString(b, show) {
      ToStringCases(a, show);
      ToStringCases(b, show);
      if a.Some? && b.Some? {
        assert show(a.value) == show(b.value);
      }
    }
  }
}
