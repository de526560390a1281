/**
 * `Tuple<Ts...>` of `tuple.hpp`. The tuple derives from one `TupleElement<I, T>` base per
 * position, so its state is a map from the pair (index, element type) to the value held
 * in that base. Element values share one model type `V`; the floating-point payload of
 * the tests is replaced by an integer.
 */
module Tuples {
  import opened TypeList

  datatype Tuple<V> = Tuple(types: Pack, bases: map<(nat, TypeTag), V>)

  /** Every base `TupleElement<k, Ts[k]>` is present, and no other. */
  ghost predicate WellFormed<V>(t: Tuple<V>)
  {
    forall key :: key in t.bases <==> key.0 < |t.types| && key.1 == t.types[key.0]
  }

  /**
   * `Tuple t = { args... }`: the deduction guide gives `Ts...` from the arguments, and
   * aggregate initialisation stores argument `k` in base `k`.
   */
  function MakeTuple<V>(types: Pack, args: seq<V>): (t: Tuple<V>)
    requires |types| == |args|
    ensures WellFormed(t) && t.types == types
  {
    Tuple(types, map k | 0 <= k < |args| :: (k, types[k]) := args[k])
  }

  /** `t.get<I>()` and `std::get<I>(t)`: the value of base `TupleElement<I, type_for_index_t<I, Ts...>>`. */
  function Get<V>(i: nat, t: Tuple<V>): V
    requires WellFormed(t) && i < |t.types|
  {
    t.bases[(i, GetNthType(i, t.types))]
  }

  /** `get<I>` of a constructed tuple returns the `I`-th constructor argument. */
  lemma GetReturnsArgument<V>(types: Pack, args: seq<V>, i: nat)
    requires |types| == |args| && i < |args|
    ensures Get(i, MakeTuple(types, args)) == args[i]
  {
    var t := MakeTuple(types, args);
    assert (i, types[i]) in t.bases;
  }

  /** `tuple_size<Tuple<Ts...>>`: `sizeof...(Ts)`. */
  function TupleSize<V>(t: Tuple<V>): (n: nat)
    requires WellFormed(t)
    ensures n == |t.bases|
  {
    TupleSizeIsBaseCount(t);
    |t.types|
  }

  /** One base per element type: the key set is the image of `k -> (k, Ts[k])`. */
  lemma TupleSizeIsBaseCount<V>(t: Tuple<V>)
    requires WellFormed(t)
    ensures |t.bases| == |t.types|
  {
    var keys := set k | 0 <= k < |t.types| :: (k, t.types[k]);
    assert t.bases.Keys == keys;
    BaseKeysCount(t.types, |t.types|);
  }

  /** The first `n` keys `(k, Ts[k])` are `n` distinct pairs. */
  lemma {:induction false} BaseKeysCount(types: Pack, n: nat)
    requires n <= |types|
    ensures |set k | 0 <= k < n :: (k, types[k])| == n
  {
    if n > 0 {
      BaseKeysCount(types, n - 1);
      var smaller := set k | 0 <= k < n - 1 :: (k, types[k]);
      var keys := set k | 0 <= k < n :: (k, types[k]);
      assert keys == smaller + {(n - 1, types[n - 1])};
      assert (n - 1, types[n - 1]) !in smaller;
    }
  }

  /** `tuple_element<I, Tuple<Ts...>>::type`: the `I`-th element type. */
  function TupleElement<V>(i: nat, t: Tuple<V>): (u: TypeTag)
    requires i < |t.types|
    ensures u == t.types[i]
  {
    GetNthType(i, t.types)
  }

  /** `std::get<T>(t)`, defined for unique element types: `std::get<index_for_type_v<T, Ts...>>(t)`. */
  function GetByType<V>(u: TypeTag, t: Tuple<V>): V
    requires WellFormed(t) && UniqueTypes(t.types) && u in t.types
  {
    Get(GetIndexFromType(u, t.types), t)
  }

  /** With unique element types, `get<T>` returns the argument whose type is `T`. */
  lemma GetByTypeIsGetByIndex<V>(types: Pack, args: seq<V>, i: nat)
    requires |types| == |args| && i < |args| && UniqueTypes(types)
    ensures GetByType(types[i], MakeTuple(types, args)) == Get(i, MakeTuple(types, args)) == args[i]
  {
    IndexOfNthType(i, types);
    GetReturnsArgument(types, args, i);
  }

  /**
   * The tuple `{ 1337, 66.67, true }` of the tests, with the `double` payload written as
   * the integer 6667 and `true` as 1: `get<0>`, `get<1>`, `get<2>` give the arguments back.
   */
  lemma StdGetScenario()
    ensures var types := [TypeTag(0, 4), TypeTag(1, 8), TypeTag(2, 1)];
            var t := MakeTuple(types, [1337, 6667, 1]);
            Get(0, t) == 1337 && Get(1, t) == 6667 && Get(2, t) == 1 && TupleSize(t) == 3
  {
    var types := [TypeTag(0, 4), TypeTag(1, 8), TypeTag(2, 1)];
    GetReturnsArgument(types, [1337, 6667, 1], 0);
    GetReturnsArgument(types, [1337, 6667, 1], 1);
    GetReturnsArgument(types, [1337, 6667, 1], 2);
  }
}
