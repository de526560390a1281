/**
 * The tagged union of `variant.hpp`.
 *
 * `VariadicUnion<T, Ts...>` is a recursive union of a head member `m_value`
 * and the rest `m_rest`; here it is a recursive datatype that keeps one slot
 * per member (the model keeps the members apart, where C++ overlays them).
 * `Variant` is a class holding the union and the active index `m_typeIndex`;
 * destructor calls are made observable through a lifecycle log.
 * Alternatives are type tags; every alternative's value is of one payload type `V`.
 */
module Variants {
  import opened TypeList

  /** One alternative type and its destructor traits. */
  datatype Alternative = Alternative(tag: TypeTag, triviallyDestructible: bool, destructible: bool)

  function Tags(alts: seq<Alternative>): (p: Pack)
    ensures |p| == |alts| && forall i :: 0 <= i < |alts| ==> p[i] == alts[i].tag
  {
    seq(|alts|, i requires 0 <= i < |alts| => alts[i].tag)
  }

  /** The storage of one union member: never written, or holding a value. */
  datatype Slot<V> = Vacant | Holds(value: V)

  /** `VariadicUnion<T, Ts...>`: `Member(m_value, m_rest)`; `End` is the empty `VariadicUnion<>`. */
  datatype VariadicUnion<V> = End | Member(slot: Slot<V>, rest: VariadicUnion<V>)

  /** The members of a union, head first: the reference view of its storage. */
  function Slots<V>(u: VariadicUnion<V>): seq<Slot<V>>
  {
    match u
    case End => []
    case Member(s, r) => [s] + Slots(r)
  }

  /** The default constructor: `m_rest {}` recursively, so no member holds a value. */
  function DefaultUnion<V>(n: nat): (u: VariadicUnion<V>)
    ensures |Slots(u)| == n
    ensures forall k :: 0 <= k < n ==> Slots(u)[k] == Vacant
  {
    if n == 0 then End else Member(Vacant, DefaultUnion(n - 1))
  }

  /**
   * The in-place constructors: `in_place_index<0>` initialises `m_value`,
   * `in_place_index<I>` initialises `m_rest` with `in_place_index<I - 1>`.
   */
  function InPlace<V>(n: nat, i: nat, v: V): (u: VariadicUnion<V>)
    requires i < n
    ensures |Slots(u)| == n
    ensures forall k :: 0 <= k < n ==> Slots(u)[k] == if k == i then Holds(v) else Vacant
  {
    if i == 0 then Member(Holds(v), DefaultUnion(n - 1))
    else Member(Vacant, InPlace(n - 1, i - 1, v))
  }

  /** `assign<I, N>`: descends through `m_rest` until `N` reaches `I`, then writes `m_value`. */
  function AssignAt<V>(u: VariadicUnion<V>, i: nat, n: nat, v: V): (r: VariadicUnion<V>)
    requires n <= i < n + |Slots(u)|
    ensures Slots(r) == Slots(u)[i - n := Holds(v)]
    decreases i - n
  {
    if i == n then u.(slot := Holds(v))
    else u.(rest := AssignAt(u.rest, i, n + 1, v))
  }

  /** `get<I, N>`: descends the same way and reads `m_value`; reading a member never written is undefined. */
  function GetAt<V>(u: VariadicUnion<V>, i: nat, n: nat): (v: V)
    requires n <= i < n + |Slots(u)| && Slots(u)[i - n].Holds?
    ensures v == Slots(u)[i - n].value
    decreases i - n
  {
    if i == n then u.slot.value
    else GetAt(u.rest, i, n + 1)
  }

  /** `get<I>` after `assign<I>` returns the assigned value; other members keep theirs. */
  lemma {:induction false} GetAfterAssign<V>(u: VariadicUnion<V>, i: nat, j: nat, v: V)
    requires i < |Slots(u)| && j < |Slots(u)|
    requires j != i ==> Slots(u)[j].Holds?
    ensures Slots(AssignAt(u, i, 0, v))[j].Holds?
    ensures GetAt(AssignAt(u, i, 0, v), j, 0) == if j == i then v else GetAt(u, j, 0)
  {
  }

  /** Lifecycle events of alternatives, as an instrumented alternative type would record them. */
  datatype Event = Constructed(index: nat) | Assigned(index: nat) | Destroyed(index: nat)

  /** One entry of the destructor table. */
  datatype DestructorAction = DestroyAt(index: nat) | NoOp

  /** What running one table entry records. */
  function Run(d: DestructorAction): seq<Event>
  {
    match d
    case DestroyAt(i) => [Destroyed(i)]
    case NoOp => []
  }

  /**
   * `make_destructors`: one entry per index of `index_sequence_for<Ts...>`, starting at `k`.
   * Entry `i` calls `destroy_at` on `std::get<i>(variant)` only for a non-trivially
   * destructible, destructible alternative; `std::get<i>` goes through the alternative's
   * type, so the member destroyed is the first one of that type.
   */
  function MakeDestructorsFrom(alts: seq<Alternative>, k: nat): (t: seq<DestructorAction>)
    requires k <= |alts|
    ensures |t| == |alts| - k
    ensures forall i :: k <= i < |alts| ==>
      t[i - k] == if !alts[i].triviallyDestructible && alts[i].destructible
                  then DestroyAt(GetIndexFromType(alts[i].tag, Tags(alts))) else NoOp
    decreases |alts| - k
  {
    if k == |alts| then []
    else
      [if !alts[k].triviallyDestructible && alts[k].destructible
       then DestroyAt(GetIndexFromType(alts[k].tag, Tags(alts))) else NoOp]
      + MakeDestructorsFrom(alts, k + 1)
  }

  /** The static table `destructors`. */
  function Destructors(alts: seq<Alternative>): (t: seq<DestructorAction>)
    ensures |t| == |alts|
  {
    MakeDestructorsFrom(alts, 0)
  }

  /** The events `destruct()` records for active index `i`: none at the sentinel. */
  function TeardownEvents(alts: seq<Alternative>, i: nat): seq<Event>
    requires i <= |alts|
  {
    if i == |alts| then [] else Run(Destructors(alts)[i])
  }

  /**
   * With distinct alternative types, teardown destroys exactly the active member, and
   * only when its type has a non-trivial destructor; at the sentinel it does nothing.
   */
  lemma TeardownDestroysActive(alts: seq<Alternative>, i: nat)
    requires i <= |alts| && UniqueTypes(Tags(alts))
    ensures i == |alts| ==> TeardownEvents(alts, i) == []
    ensures i < |alts| ==>
      TeardownEvents(alts, i) == if !alts[i].triviallyDestructible && alts[i].destructible then [Destroyed(i)] else []
  {
    if i < |alts| {
      IndexOfNthType(i, Tags(alts));
    }
  }

  /** The value-level state of a Variant: alternatives, union and `m_typeIndex`. */
  datatype VariantState<V> = VariantState(alts: seq<Alternative>, union: VariadicUnion<V>, typeIndex: nat)
  {
    ghost predicate WellFormed()
    {
      |Slots(union)| == |alts| && typeIndex <= |alts|
    }
  }

  /**
   * The default member initialisers `m_union = {}` and `m_typeIndex = invalid_variant`:
   * no member holds a value and the index is the sentinel, so tearing it down does nothing.
   */
  function Initialised<V>(alts: seq<Alternative>): (s: VariantState<V>)
    ensures s.WellFormed() && s.alts == alts && s.typeIndex == |alts|
    ensures forall k :: 0 <= k < |alts| ==> Slots(s.union)[k] == Vacant
    ensures TeardownEvents(alts, s.typeIndex) == []
  {
    VariantState(alts, DefaultUnion(|alts|), |alts|)
  }

  /** The state `construct<I>` leaves: index `I`, union built in place with member `I`. */
  function ConstructedState<V>(alts: seq<Alternative>, i: nat, v: V): (s: VariantState<V>)
    requires i < |alts|
    ensures s.WellFormed() && s.typeIndex == i && s.alts == alts
    ensures Slots(s.union)[i] == Holds(v)
  {
    VariantState(alts, InPlace(|alts|, i, v), i)
  }

  /** `variant_index_v<T, Variant>`: the index of `T` among the alternatives. */
  function VariantIndex(t: TypeTag, alts: seq<Alternative>): (i: nat)
    requires t in Tags(alts)
    ensures i < |alts| && alts[i].tag == t
  {
    GetIndexFromType(t, Tags(alts))
  }

  /** `holds_alternative<T>`: the index of `T` equals `index()`. */
  function HoldsAlternative<V>(t: TypeTag, s: VariantState<V>): (b: bool)
    requires t in Tags(s.alts)
    ensures b ==> s.typeIndex < |s.alts| && s.alts[s.typeIndex].tag == t
  {
    VariantIndex(t, s.alts) == s.typeIndex
  }

  /** With distinct alternative types, `holds_alternative<T>` holds exactly for the active type. */
  lemma HoldsAlternativeIffActive<V>(t: TypeTag, s: VariantState<V>)
    requires t in Tags(s.alts) && UniqueTypes(Tags(s.alts)) && s.typeIndex < |s.alts|
    ensures HoldsAlternative(t, s) <==> s.alts[s.typeIndex].tag == t
  {
    if s.alts[s.typeIndex].tag == t {
      IndexOfNthType(s.typeIndex, Tags(s.alts));
    }
  }

  /** Whether `get<T>` may read: `T` is an alternative and its member holds a value. */
  ghost predicate ReadableByType<V>(t: TypeTag, s: VariantState<V>)
  {
    s.WellFormed() && t in Tags(s.alts) && Slots(s.union)[VariantIndex(t, s.alts)].Holds?
  }

  /** `Variant::get<T>`: `std::get<variant_index_v<T>>` of the union. */
  function GetByType<V>(t: TypeTag, s: VariantState<V>): (v: V)
    requires ReadableByType(t, s)
    ensures v == Slots(s.union)[VariantIndex(t, s.alts)].value
  {
    GetAt(s.union, VariantIndex(t, s.alts), 0)
  }

  /** `Variant::get<I>`: `get<variant_alternative_t<I>>`, so it goes through the type's first index. */
  function GetByIndex<V>(i: nat, s: VariantState<V>): (v: V)
    requires s.WellFormed() && i < |s.alts| && ReadableByType(s.alts[i].tag, s)
    ensures v == Slots(s.union)[VariantIndex(s.alts[i].tag, s.alts)].value
    ensures VariantIndex(s.alts[i].tag, s.alts) <= i
    ensures UniqueTypes(Tags(s.alts)) ==> v == Slots(s.union)[i].value
  {
    if UniqueTypes(Tags(s.alts)) then
      IndexOfNthType(i, Tags(s.alts));
      GetByType(s.alts[i].tag, s)
    else
      GetByType(s.alts[i].tag, s)
  }

  /** With distinct alternative types, `get<I>` reads member `I`. */
  lemma GetByIndexReadsMember<V>(i: nat, s: VariantState<V>)
    requires s.WellFormed() && i < |s.alts| && UniqueTypes(Tags(s.alts)) && Slots(s.union)[i].Holds?
    ensures ReadableByType(s.alts[i].tag, s)
    ensures GetByIndex(i, s) == Slots(s.union)[i].value
  {
    IndexOfNthType(i, Tags(s.alts));
  }

  class Variant<V> {
    const alts: seq<Alternative>
    var union: VariadicUnion<V>
    var typeIndex: nat
    /** Destructor, constructor and assignment calls on alternatives, in order. */
    var log: seq<Event>

    ghost predicate Valid()
      reads this
    {
      |Slots(union)| == |alts| && typeIndex <= |alts|
    }

    function State(): (s: VariantState<V>)
      reads this
      ensures Valid() ==> s.WellFormed()
    {
      VariantState(alts, union, typeIndex)
    }

    /** `invalid_variant`: the sentinel `sizeof...(Ts)`. */
    function InvalidVariant(): nat
      reads this
    {
      |alts|
    }

    /** `index()`. */
    function Index(): nat
      reads this
    {
      typeIndex
    }

    /**
     * `Variant(T&& value)`: from the default member initialisers (all-default union,
     * sentinel index), construct alternative `i` in place; `i` is the index overload
     * selection picks for the value's type.
     */
    constructor FromValue(alts: seq<Alternative>, i: nat, v: V)
      requires i < |alts|
      ensures Valid() && this.alts == alts
      ensures State() == ConstructedState(alts, i, v)
      ensures Index() == i && log == [Constructed(i)]
    {
      this.alts := alts;
      union := Initialised<V>(alts).union;
      typeIndex := Initialised<V>(alts).typeIndex;
      log := [];
      new;
      Construct(i, v);
    }

    /** `construct<I>`: set the index, then build the union in place. */
    method Construct(i: nat, v: V)
      requires Valid() && i < |alts|
      modifies this
      ensures Valid()
      ensures State() == ConstructedState(alts, i, v)
      ensures log == old(log) + [Constructed(i)]
    {
      typeIndex := i;
      union := InPlace(|alts|, i, v);
      log := log + [Constructed(i)];
    }

    /** `assign<I>`: set the index and assign member `I` of the union; the rest is untouched. */
    method AssignIndexed(i: nat, v: V)
      requires Valid() && i < |alts|
      modifies this
      ensures Valid() && typeIndex == i
      ensures Slots(union) == old(Slots(union))[i := Holds(v)]
      ensures log == old(log) + [Assigned(i)]
    {
      typeIndex := i;
      union := AssignAt(union, i, 0, v);
      log := log + [Assigned(i)];
    }

    /** `assign(T&&)`: in place when alternative `j` is already active, otherwise construct it. */
    method Assign(j: nat, v: V)
      requires Valid() && j < |alts|
      modifies this
      ensures Valid() && Index() == j
      ensures Slots(union)[j] == Holds(v)
      ensures old(typeIndex) == j ==> Slots(union) == old(Slots(union))[j := Holds(v)]
      ensures old(typeIndex) != j ==> State() == ConstructedState(alts, j, v)
      ensures log == old(log) + [if old(typeIndex) == j then Assigned(j) else Constructed(j)]
    {
      if typeIndex == j {
        AssignIndexed(j, v);
      } else {
        Construct(j, v);
      }
    }

    /** `destruct()`: no-op at the sentinel, otherwise run the table entry for `index()`. The index is kept. */
    method Destruct()
      requires Valid()
      modifies this
      ensures Valid() && typeIndex == old(typeIndex) && union == old(union)
      ensures log == old(log) + TeardownEvents(alts, old(typeIndex))
    {
      if typeIndex != |alts| {
        var destructor := Destructors(alts)[typeIndex];
        log := log + Run(destructor);
      }
    }

    /**
     * `operator=(T&&)`: `destruct()` and then `assign`. The index is not reset,
     * so a value of the active alternative is assigned into the object just destroyed.
     */
    method AssignValue(j: nat, v: V)
      requires Valid() && j < |alts|
      modifies this
      ensures Valid() && Index() == j
      ensures Slots(union)[j] == Holds(v)
      ensures old(typeIndex) == j ==> Slots(union) == old(Slots(union))[j := Holds(v)]
      ensures old(typeIndex) != j ==> State() == ConstructedState(alts, j, v)
      ensures log == old(log) + TeardownEvents(alts, old(typeIndex))
                     + [if old(typeIndex) == j then Assigned(j) else Constructed(j)]
    {
      Destruct();
      Assign(j, v);
    }

    /** `~Variant()`. */
    method Dispose()
      requires Valid()
      modifies this
      ensures Valid() && State() == old(State())
      ensures log == old(log) + TeardownEvents(alts, old(typeIndex))
    {
      Destruct();
    }
  }

  /** The N-dimensional dispatch matrix: nested arrays whose leaves remember their index tuple. */
  datatype Matrix = Leaf(indices: seq<nat>) | Table(entries: seq<Matrix>)

  /**
   * `create_dispatch_matrix`: with no sizes left, the leaf for the collected indices;
   * otherwise one sub-matrix per index `j` of the next variant, with `j` appended.
   */
  function CreateDispatchMatrix(prefix: seq<nat>, sizes: seq<nat>): Matrix
    decreases |sizes|
  {
    if |sizes| == 0 then Leaf(prefix)
    else Table(seq(sizes[0], j requires 0 <= j < sizes[0] => CreateDispatchMatrix(prefix + [j], sizes[1..])))
  }

  /** Whether `at` can follow `idx` through the matrix. */
  predicate Reachable(m: Matrix, idx: seq<nat>)
    decreases |idx|
  {
    |idx| == 0 || (m.Table? && idx[0] < |m.entries| && Reachable(m.entries[idx[0]], idx[1..]))
  }

  /** `detail::at` / `at_impl`: index the matrix once per index. */
  function At(m: Matrix, idx: seq<nat>): Matrix
    requires Reachable(m, idx)
    decreases |idx|
  {
    if |idx| == 0 then m else At(m.entries[idx[0]], idx[1..])
  }

  /** Indexing the matrix by an in-range index tuple reaches the leaf built for exactly that tuple. */
  lemma {:induction false} AtCreatedMatrix(prefix: seq<nat>, sizes: seq<nat>, idx: seq<nat>)
    requires |idx| == |sizes| && forall k :: 0 <= k < |idx| ==> idx[k] < sizes[k]
    ensures Reachable(CreateDispatchMatrix(prefix, sizes), idx)
    ensures At(CreateDispatchMatrix(prefix, sizes), idx) == Leaf(prefix + idx)
    decreases |sizes|
  {
    if |sizes| == 0 {
      assert prefix + idx == prefix;
    } else {
      var m := CreateDispatchMatrix(prefix, sizes);
      var sub := CreateDispatchMatrix(prefix + [idx[0]], sizes[1..]);
      assert m.entries[idx[0]] == sub;
      AtCreatedMatrix(prefix + [idx[0]], sizes[1..], idx[1..]);
      assert prefix + [idx[0]] + idx[1..] == prefix + idx;
    }
  }

  /** One argument passed to the visitor: its static type and its value. */
  datatype Arg<V> = Arg(tag: TypeTag, value: V)

  /** A variant that `visit` may dispatch on: an active alternative whose `get<I>` is readable. */
  ghost predicate Visitable<V>(s: VariantState<V>)
  {
    s.WellFormed() && s.typeIndex < |s.alts| && ReadableByType(s.alts[s.typeIndex].tag, s)
  }

  function Sizes<V>(states: seq<VariantState<V>>): (sizes: seq<nat>)
    ensures |sizes| == |states| && forall k :: 0 <= k < |states| ==> sizes[k] == |states[k].alts|
  {
    seq(|states|, k requires 0 <= k < |states| => |states[k].alts|)
  }

  function Indices<V>(states: seq<VariantState<V>>): (idx: seq<nat>)
    ensures |idx| == |states| && forall k :: 0 <= k < |states| ==> idx[k] == states[k].typeIndex
  {
    seq(|states|, k requires 0 <= k < |states| => states[k].typeIndex)
  }

  /** The arguments a leaf passes: `std::get<Indices>(variants)...`. */
  function LeafArgs<V>(indices: seq<nat>, states: seq<VariantState<V>>): seq<Arg<V>>
    requires |indices| == |states|
    requires forall k :: 0 <= k < |states| ==>
      states[k].WellFormed() && indices[k] < |states[k].alts| && ReadableByType(states[k].alts[indices[k]].tag, states[k])
  {
    seq(|states|, k requires 0 <= k < |states| =>
      assert states[k].WellFormed() && indices[k] < |states[k].alts|;
      Arg(states[k].alts[indices[k]].tag, GetByIndex(indices[k], states[k])))
  }

  /** The arguments of the active alternatives, the reference for what `visit` must pass. */
  function ActiveArgs<V>(states: seq<VariantState<V>>): seq<Arg<V>>
    requires forall k :: 0 <= k < |states| ==> Visitable(states[k])
  {
    seq(|states|, k requires 0 <= k < |states| =>
      assert Visitable(states[k]);
      Arg(states[k].alts[states[k].typeIndex].tag, GetByIndex(states[k].typeIndex, states[k])))
  }

  /**
   * `visit`: build the matrix from the variants' sizes, select the entry for the tuple of
   * active indices, and call the visitor with each variant's active alternative.
   */
  function Visit<V, R>(f: seq<Arg<V>> -> R, states: seq<VariantState<V>>): (r: R)
    requires forall k :: 0 <= k < |states| ==> Visitable(states[k])
    ensures r == f(ActiveArgs(states))
  {
    var sizes, active := Sizes(states), Indices(states);
    forall k | 0 <= k < |states|
      ensures active[k] < sizes[k] && states[k].WellFormed()
      ensures ReadableByType(states[k].alts[active[k]].tag, states[k])
    {
      assert Visitable(states[k]);
    }
    AtCreatedMatrix([], sizes, active);
    assert [] + active == active;
    var dispatch := At(CreateDispatchMatrix([], sizes), active);
    assert LeafArgs(dispatch.indices, states) == ActiveArgs(states);
    f(LeafArgs(dispatch.indices, states))
  }

  /** `Variant<int, float>` as the type-checking test declares it. */
  const IntTag := TypeTag(0, 4)
  const FloatTag := TypeTag(1, 4)

  function IntFloatAlternatives(): (alts: seq<Alternative>)
    ensures Tags(alts) == [IntTag, FloatTag]
  {
    [Alternative(IntTag, true, true), Alternative(FloatTag, true, true)]
  }

  /**
   * The type-checking test: a variant is assigned a `float` and then an `int`; after each
   * assignment `holds_alternative` reports exactly the assigned type. The test cannot
   * compile as written: it starts from a default-constructed variant, which the header
   * does not declare (its only constructor is `Variant(T&&)`), and it calls a member
   * `holds_alternative<T>()`, where the header declares only the free function. Here the
   * variant starts out holding an `int`, and the free function is used.
   */
  method TypeCheckingScenario<V>(first: V, f: V, i: V)
    returns (floatHeld: bool, intHeldAfterFloat: bool, intHeld: bool, floatHeldAfterInt: bool)
    ensures floatHeld && !intHeldAfterFloat
    ensures intHeld && !floatHeldAfterInt
  {
    var variant := new Variant<V>.FromValue(IntFloatAlternatives(), 0, first);
    variant.AssignValue(1, f);
    floatHeld := HoldsAlternative(FloatTag, variant.State());
    intHeldAfterFloat := HoldsAlternative(IntTag, variant.State());
    variant.AssignValue(0, i);
    intHeld := HoldsAlternative(IntTag, variant.State());
    floatHeldAfterInt := HoldsAlternative(FloatTag, variant.State());
    variant.Dispose();
  }
}
