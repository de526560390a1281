/**
 * `Result<T, E>` of `result.hpp`: a two-alternative Variant, value first, error second,
 * whose members are queries on the underlying variant state.
 */
module Results {
  import opened TypeList
  import opened Variants

  /** The alternatives of `Result<T, E>`. */
  function ResultAlternatives(value: Alternative, error: Alternative): (alts: seq<Alternative>)
    ensures Tags(alts) == [value.tag, error.tag]
  {
    [value, error]
  }

  /** A state of `Result<T, E>`: a well-formed variant over exactly the two alternatives. */
  ghost predicate IsResult<V>(s: VariantState<V>)
  {
    s.WellFormed() && |s.alts| == 2
  }

  /**
   * `Result(const is_any_of<T, E> auto& value)`: forwards to the Variant constructor, which
   * constructs the alternative overload selection picks: the error for an `E`, else the value.
   * With `T` and `E` the same type that selection is ambiguous, so the types must differ.
   */
  function MakeResult<V>(value: Alternative, error: Alternative, isError: bool, v: V): (s: VariantState<V>)
    requires value.tag != error.tag
    ensures IsResult(s) && s.alts == [value, error]
  {
    ConstructedState(ResultAlternatives(value, error), if isError then 1 else 0, v)
  }

  /** `has_value()`: `holds_alternative<value_type>`. */
  function HasValue<V>(s: VariantState<V>): (b: bool)
    requires IsResult(s)
    ensures b <==> s.typeIndex == 0
  {
    HoldsAlternative(s.alts[0].tag, s)
  }

  /** `has_error()`: `holds_alternative<error_type>`. */
  function HasError<V>(s: VariantState<V>): (b: bool)
    requires IsResult(s)
    ensures b <==> s.typeIndex == VariantIndex(s.alts[1].tag, s.alts)
  {
    HoldsAlternative(s.alts[1].tag, s)
  }

  /** With distinct `T` and `E`, `has_error()` holds exactly when the error alternative is active. */
  lemma HasErrorIffErrorActive<V>(s: VariantState<V>)
    requires IsResult(s) && s.alts[0].tag != s.alts[1].tag
    ensures HasError(s) <==> s.typeIndex == 1
  {
    assert Tags(s.alts) == [s.alts[0].tag, s.alts[1].tag];
  }

  /** For distinct `T` and `E`, a Result never has both a value and an error. */
  lemma {:induction false} NotBothValueAndError<V>(s: VariantState<V>)
    requires IsResult(s) && s.alts[0].tag != s.alts[1].tag
    ensures !(HasValue(s) && HasError(s))
  {
    HasErrorIffErrorActive(s);
  }

  /** A Result built from a value has a value and no error; one built from an error the reverse. */
  lemma ConstructedResultAlternative<V>(value: Alternative, error: Alternative, isError: bool, v: V)
    requires value.tag != error.tag
    ensures HasValue(MakeResult(value, error, isError, v)) <==> !isError
    ensures HasError(MakeResult(value, error, isError, v)) <==> isError
  {
    HasErrorIffErrorActive(MakeResult(value, error, isError, v));
  }

  /** `value()`: `get<value_type>` of the underlying variant. */
  function Value<V>(s: VariantState<V>): (v: V)
    requires IsResult(s) && ReadableByType(s.alts[0].tag, s)
    ensures v == Slots(s.union)[0].value
  {
    GetByType(s.alts[0].tag, s)
  }

  /** `error()`: `get<error_type>` of the underlying variant. */
  function Error<V>(s: VariantState<V>): (v: V)
    requires IsResult(s) && ReadableByType(s.alts[1].tag, s)
    ensures v == Slots(s.union)[VariantIndex(s.alts[1].tag, s.alts)].value
  {
    GetByType(s.alts[1].tag, s)
  }

  /** Reading back a constructed Result yields the value or error it was built from. */
  lemma {:induction false} ReadBackConstructed<V>(value: Alternative, error: Alternative, isError: bool, v: V)
    requires value.tag != error.tag
    ensures !isError ==> ReadableByType(value.tag, MakeResult(value, error, isError, v))
                         && Value(MakeResult(value, error, isError, v)) == v
    ensures isError ==> ReadableByType(error.tag, MakeResult(value, error, isError, v))
                        && Error(MakeResult(value, error, isError, v)) == v
  {
    var s := MakeResult(value, error, isError, v);
    assert Tags(s.alts) == [value.tag, error.tag];
    assert VariantIndex(error.tag, s.alts) == 1;
  }

  /** `variant_size<Result<T, E>>`: the number of alternatives, always 2. */
  function VariantSize<V>(s: VariantState<V>): (n: nat)
    requires IsResult(s)
    ensures n == 2
  {
    |s.alts|
  }

  /** `variant_alternative<I, Result<T, E>>`: the alternative at position `I`. */
  function VariantAlternative<V>(i: nat, s: VariantState<V>): (t: TypeTag)
    requires IsResult(s) && i < 2
    ensures t == (if i == 0 then s.alts[0].tag else s.alts[1].tag)
  {
    GetTypeFromIndex(i, Tags(s.alts))
  }
}
