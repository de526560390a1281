/**
 * `utility.hpp`: `to_underlying`, `exchange` and `Pair`. `move` and `forward` are casts
 * with no effect on values and appear only inside `exchange`.
 */
module Utility {
  import opened Common

  /** An enumerator of a scoped enum whose underlying type is `U`. */
  datatype Enum<U> = Enum(underlying: U)

  /** `to_underlying(e)`: `static_cast<std::underlying_type_t<T>>(e)`. */
  function ToUnderlying<U>(e: Enum<U>): (u: U)
    ensures Enum(u) == e
  {
    e.underlying
  }

  /** Converting a value to the enum and back gives the value. */
  lemma ToUnderlyingRoundTrip<U>(u: U)
    ensures ToUnderlying(Enum(u)) == u
  {
  }

  /** `exchange(object, value)`: moves the old value out, assigns the new one, returns the old. */
  method Exchange<T>(obj: Ref<T>, value: T) returns (previous: T)
    modifies obj
    ensures previous == old(obj.value) && obj.value == value
  {
    var tmp := obj.value;
    obj.value := value;
    previous := tmp;
  }

  /** Exchanging the returned value back restores the object. */
  method ExchangeBack<T>(obj: Ref<T>, value: T) returns (first: T, second: T)
    modifies obj
    ensures first == old(obj.value) && second == value && obj.value == old(obj.value)
  {
    first := Exchange(obj, value);
    second := Exchange(obj, first);
  }

  /** `Pair<FirstType, SecondType>`. */
  datatype Pair<A, B> = Pair(first: A, second: B)

  /** `Pair::operator==`: both `first` and `second` compare equal, which is equality of pairs. */
  function PairEquals<A(==), B(==)>(lhs: Pair<A, B>, rhs: Pair<A, B>): (b: bool)
    ensures b <==> lhs == rhs
  {
    lhs.first == rhs.first && lhs.second == rhs.second
  }
}
