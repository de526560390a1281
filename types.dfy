/**
 * Compile-time type-list helpers of `types.hpp`, modelled as functions over
 * sequences of type tags. A C++ parameter pack `Ts...` becomes a `seq<TypeTag>`;
 * `std::is_same_v` becomes equality of tags and `sizeof` the tag's `size`.
 * A `static_assert` or a failed overload match in the source becomes a `requires`.
 */
module TypeList {

  /** A C++ type: an identity and its `sizeof`. */
  datatype TypeTag = TypeTag(name: nat, size: nat)

  type Pack = seq<TypeTag>

  /** `get_first_type`: the head of a non-empty pack. */
  function GetFirstType(p: Pack): (t: TypeTag)
    requires |p| > 0
    ensures t == p[0] && t in p
  {
    p[0]
  }

  /**
   * `remove_n_types<N, I>`: the helper that counts `I` up to `N`,
   * dropping one type per step. The `static_assert` keeps the pack non-empty.
   */
  function RemoveNTypesFrom(n: nat, i: nat, p: Pack): (r: Pack)
    requires i <= n < i + |p|
    ensures r == p[n - i..]
    ensures |r| > 0
    decreases n - i
  {
    if n == i then p else RemoveNTypesFrom(n, i + 1, p[1..])
  }

  /** `remove_n_types<N>`: the pack without its first `N` types; needs `N` below the length. */
  function RemoveNTypes(n: nat, p: Pack): (r: Pack)
    requires n < |p|
    ensures r == p[n..]
  {
    if n == 0 then p else RemoveNTypesFrom(n, 1, p[1..])
  }

  /** `get_nth_type<I>`: the head of the pack after removing `I` types. */
  function GetNthType(i: nat, p: Pack): (t: TypeTag)
    requires i < |p|
    ensures t == p[i]
  {
    GetFirstType(RemoveNTypes(i, p))
  }

  /** `get_type_from_index<I>`: forwards to `get_nth_type<I>`. */
  function GetTypeFromIndex(i: nat, p: Pack): (t: TypeTag)
    requires i < |p|
    ensures t == GetNthType(i, p) && t == p[i]
  {
    GetNthType(i, p)
  }

  /**
   * `get_largest_type`: keeps the first of the two leading types only when
   * it is strictly larger, so among equally large types the later one wins.
   */
  function GetLargestType(p: Pack): (t: TypeTag)
    requires |p| > 0
    ensures t in p
    ensures forall u :: u in p ==> u.size <= t.size
    decreases |p|
  {
    if |p| == 1 then p[0]
    else if p[0].size > p[1].size then GetLargestType([p[0]] + p[2..])
    else GetLargestType(p[1..])
  }

  /** `get_largest_type_size`: `sizeof` of the largest type. */
  function GetLargestTypeSize(p: Pack): (n: nat)
    requires |p| > 0
    ensures forall u :: u in p ==> u.size <= n
    ensures exists u :: u in p && u.size == n
  {
    GetLargestType(p).size
  }

  /** Tie-breaking of `get_largest_type`: no type after the chosen one is as large. */
  lemma {:induction false} LargestTypeIsLastMaximal(p: Pack)
    requires |p| > 0
    ensures exists k :: 0 <= k < |p| && p[k] == GetLargestType(p) &&
                        forall j :: k < j < |p| ==> p[j].size < GetLargestType(p).size
    decreases |p|
  {
    var t := GetLargestType(p);
    if |p| == 1 {
      assert p[0] == t;
    } else if p[0].size > p[1].size {
      var q := [p[0]] + p[2..];
      LargestTypeIsLastMaximal(q);
      var k :| 0 <= k < |q| && q[k] == t && forall j :: k < j < |q| ==> q[j].size < t.size;
      var k' := if k == 0 then 0 else k + 1;
      assert p[k'] == t;
      forall j | k' < j < |p| ensures p[j].size < t.size {
        if j == 1 {
          assert p[1].size < p[0].size;
          assert p[0].size <= t.size by { assert p[0] in p; }
        } else {
          assert p[j] == q[j - 1];
        }
      }
    } else {
      var q := p[1..];
      LargestTypeIsLastMaximal(q);
      var k :| 0 <= k < |q| && q[k] == t && forall j :: k < j < |q| ==> q[j].size < t.size;
      assert p[k + 1] == t;
      forall j | k + 1 < j < |p| ensures p[j].size < t.size {
        assert p[j] == q[j - 1];
      }
    }
  }

  /** `get_index_from_type<I, T>`: counts `I` up while the head differs from `T`. */
  function GetIndexFromTypeFrom(i: nat, t: TypeTag, p: Pack): (r: nat)
    requires t in p
    ensures i <= r < i + |p|
    ensures p[r - i] == t
    ensures forall j :: 0 <= j < r - i ==> p[j] != t
    decreases |p|
  {
    if p[0] == t then i else GetIndexFromTypeFrom(i + 1, t, p[1..])
  }

  /**
   * `get_index_from_type<T>`: the position of the first occurrence of `T`.
   * The source has no case for a pack without `T` (no overload matches), hence the requires.
   */
  function GetIndexFromType(t: TypeTag, p: Pack): (r: nat)
    requires t in p
    ensures r < |p| && p[r] == t
    ensures forall j :: 0 <= j < r ==> p[j] != t
  {
    if p[0] == t then 0 else GetIndexFromTypeFrom(1, t, p[1..])
  }

  /** `get_parameter_pack_size`: `sizeof...(Ts)`. */
  function GetParameterPackSize(p: Pack): nat
  {
    |p|
  }

  /** `next_type`: the pack without its head. */
  function NextType(p: Pack): Pack
    requires |p| > 0
  {
    p[1..]
  }

  /** `get_type`: the head of the pack. */
  function GetType(p: Pack): TypeTag
    requires |p| > 0
  {
    p[0]
  }

  /** `next_type` and `get_type` split a pack, and the size drops by one. */
  lemma NextTypeGetTypeSplit(p: Pack)
    requires |p| > 0
    ensures [GetType(p)] + NextType(p) == p
    ensures GetParameterPackSize(NextType(p)) + 1 == GetParameterPackSize(p)
  {
  }

  /** `is_any_of<T, Ts...>`: the fold `(same_as<T, Ts> || ...)`. */
  function IsAnyOf(t: TypeTag, p: Pack): (b: bool)
    ensures b <==> t in p
  {
    if |p| == 0 then false else p[0] == t || IsAnyOf(t, p[1..])
  }

  /** Whether no type occurs twice (`unique_types`, used by `get<T>` on tuples). */
  predicate UniqueTypes(p: Pack)
  {
    forall i, j :: 0 <= i < j < |p| ==> p[i] != p[j]
  }

  /** With unique types, looking a type up by the tag at position `i` gives back `i`. */
  lemma IndexOfNthType(i: nat, p: Pack)
    requires UniqueTypes(p) && i < |p|
    ensures GetIndexFromType(GetNthType(i, p), p) == i
  {
  }

  /** Looking up the type at the found index gives the type back. */
  lemma NthTypeOfIndex(t: TypeTag, p: Pack)
    requires t in p
    ensures GetNthType(GetIndexFromType(t, p), p) == t
  {
  }
}
