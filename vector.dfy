/**
 * The growable buffer `Vector<T>` of `vector.hpp`, with the element-range helpers of
 * `memory.hpp` it relies on (`destroy`, `default_construct`, `uninitialized_move`).
 *
 * The buffer `m_items` is an array of slots; a slot records whether an object was ever
 * constructed there and whether it has been destroyed since, so that destruction order
 * is part of the state. Growth goes through `Allocator::allocate_at_least`.
 */
module Vectors {
  import opened Allocators

  /** One element slot of the buffer. */
  datatype Slot<T> = Uninit | Live(value: T) | Destroyed(value: T)

  /** `destroy_at`: ends the lifetime of a live object; other slots are left as they are. */
  function Destroy<T>(s: Slot<T>): (r: Slot<T>)
    ensures !r.Live?
    ensures s.Live? ==> r == Destroyed(s.value)
    ensures !s.Live? ==> r == s
  {
    if s.Live? then Destroyed(s.value) else s
  }

  /** The first `n` slots destroyed, the rest unchanged. */
  function DestroyFirst<T>(s: seq<Slot<T>>, n: nat): (r: seq<Slot<T>>)
    ensures |r| == |s|
  {
    seq(|s|, k requires 0 <= k < |s| => if k < n then Destroy(s[k]) else s[k])
  }

  /**
   * The buffer after a reallocation to `cap` slots: the first `min(n, |previous|)` slots are
   * moved over and the rest are uninitialised.
   */
  function Relocated<T>(previous: seq<Slot<T>>, n: nat, cap: nat): (r: seq<Slot<T>>)
    requires cap >= n || cap >= |previous|
    ensures |r| == cap
  {
    var m := if n < |previous| then n else |previous|;
    previous[..m] + seq(cap - m, _ => Uninit)
  }

  /** `destroy(first, last)`: destroys the slots `[from, to)` in order. */
  method DestroyRange<T>(a: array<Slot<T>>, from: nat, to: nat)
    requires from <= to <= a.Length
    modifies a
    ensures a[..from] == old(a[..from]) && a[to..] == old(a[to..])
    ensures a[from..to] == DestroyFirst(old(a[from..to]), to - from)
  {
    var k := from;
    while k < to
      invariant from <= k <= to
      invariant forall j :: 0 <= j < a.Length ==>
        a[j] == if from <= j < k then Destroy(old(a[j])) else old(a[j])
    {
      a[k] := Destroy(a[k]);
      k := k + 1;
    }
    assert a[from..to] == DestroyFirst(old(a[from..to]), to - from);
  }

  /** `sizeof(T)`: never 0. */
  type SizeOf = n: nat | n > 0 witness 1

  /**
   * What the code needs to know of the element type `T`: the value `T()` (for a trivially
   * default-constructible `T`, the all-zero object), `sizeof(T)`, and whether
   * `std::is_trivially_default_constructible_v<T>` holds.
   */
  datatype Element<T> = Element(blank: T, size: SizeOf, trivial: bool)

  /**
   * The slots after `memset` clears `bytes` bytes from the first one: a slot lying wholly
   * inside them holds the zero object, the others keep what they held. A slot that the
   * boundary cuts through is modelled as untouched.
   */
  function MemsetSlots<T>(e: Element<T>, before: seq<Slot<T>>, bytes: nat): (r: seq<Slot<T>>)
    ensures |r| == |before|
  {
    seq(|before|, k requires 0 <= k < |before| =>
      if (k + 1) * e.size <= bytes then Live(e.blank) else before[k])
  }

  /**
   * `default_construct(first, last)` as written: `construct_at` on every slot for a
   * non-trivial `T`; for a trivial `T`, `memset(first, 0, last - first)`, which clears
   * `last - first` bytes, one per slot of the range.
   */
  function DefaultConstructed<T>(e: Element<T>, before: seq<Slot<T>>): (r: seq<Slot<T>>)
    ensures |r| == |before|
  {
    if e.trivial then MemsetSlots(e, before, |before|) else seq(|before|, _ => Live(e.blank))
  }

  /** `default_construct` as evidently intended: `memset` clears `(last - first) * sizeof(T)` bytes. */
  function DefaultConstructedFixed<T>(e: Element<T>, before: seq<Slot<T>>): (r: seq<Slot<T>>)
    ensures |r| == |before|
  {
    if e.trivial then MemsetSlots(e, before, |before| * e.size) else seq(|before|, _ => Live(e.blank))
  }

  /** `a <= b` scales by a positive size. */
  lemma MulMonotonic(a: nat, b: nat, s: nat)
    requires a <= b
    ensures a * s <= b * s
  {
  }

  /** Slot `k` fits wholly in `n` bytes of slots of size `s` exactly when `k < n / s`. */
  lemma {:induction false} WholeSlot(k: nat, s: SizeOf, n: nat)
    ensures (k + 1) * s <= n <==> k < n / s
  {
    var q := n / s;
    assert n == q * s + n % s;
    if k < q {
      MulMonotonic(k + 1, q, s);
    } else {
      MulMonotonic(q + 1, k + 1, s);
    }
  }

  /**
   * As written, a trivial `T` gets the zero object only in the first `|before| / sizeof(T)`
   * slots; the rest keep their old contents.
   */
  lemma {:induction false} TrivialZeroesPrefix<T>(e: Element<T>, before: seq<Slot<T>>, k: nat)
    requires e.trivial && k < |before|
    ensures k < |before| / e.size ==> DefaultConstructed(e, before)[k] == Live(e.blank)
    ensures k >= |before| / e.size ==> DefaultConstructed(e, before)[k] == before[k]
  {
    WholeSlot(k, e.size, |before|);
  }

  /** A one-byte or non-trivial `T` is default-constructed in every slot even as written. */
  lemma ByteElementsAgree<T>(e: Element<T>, before: seq<Slot<T>>)
    requires e.size == 1 || !e.trivial
    ensures DefaultConstructed(e, before) == DefaultConstructedFixed(e, before)
    ensures DefaultConstructed(e, before) == seq(|before|, _ => Live(e.blank))
  {
  }

  /**
   * Four fresh `int` slots (`sizeof(int)` is 4), as `Vector<int>(4)` creates them: only the
   * first is zeroed, the other three stay uninitialised.
   */
  lemma IntRangeZeroesOneSlot()
    ensures DefaultConstructed(Element(0, 4, true), [Uninit, Uninit, Uninit, Uninit])
         == [Live(0), Uninit, Uninit, Uninit]
  {
    var r := DefaultConstructed(Element(0, 4, true), [Uninit, Uninit, Uninit, Uninit]);
    assert r[0] == Live(0) && r[1] == Uninit && r[2] == Uninit && r[3] == Uninit;
  }

  /** The corrected `default_construct` constructs every slot, whatever `T` is. */
  lemma {:induction false} FixedConstructsEverySlot<T>(e: Element<T>, before: seq<Slot<T>>)
    ensures DefaultConstructedFixed(e, before) == seq(|before|, _ => Live(e.blank))
  {
    forall k | 0 <= k < |before|
      ensures DefaultConstructedFixed(e, before)[k] == Live(e.blank)
    {
      MulMonotonic(k + 1, |before|, e.size);
    }
  }

  /** `default_construct(first, last)` on the slots `[from, to)`, as written. */
  method DefaultConstructRange<T>(a: array<Slot<T>>, from: nat, to: nat, e: Element<T>)
    requires from <= to <= a.Length
    modifies a
    ensures a[..from] == old(a[..from]) && a[to..] == old(a[to..])
    ensures a[from..to] == DefaultConstructed(e, old(a[from..to]))
  {
    if e.trivial {
      // memset(first, 0, last - first): `to - from` bytes
      forall k | from <= k < to && (k - from + 1) * e.size <= to - from {
        a[k] := Live(e.blank);
      }
    } else {
      var k := from;
      while k < to
        invariant from <= k <= to
        invariant a[..from] == old(a[..from]) && a[to..] == old(a[to..])
        invariant forall j :: from <= j < k ==> a[j] == Live(e.blank)
      {
        a[k] := Live(e.blank);
        k := k + 1;
      }
    }
    assert a[from..to] == DefaultConstructed(e, old(a[from..to])) by {
      forall j | 0 <= j < to - from
        ensures a[from..to][j] == DefaultConstructed(e, old(a[from..to]))[j]
      {
      }
    }
  }

  /** `default_construct` with `memset(first, 0, (last - first) * sizeof(T))`. */
  method DefaultConstructRangeFixed<T>(a: array<Slot<T>>, from: nat, to: nat, e: Element<T>)
    requires from <= to <= a.Length
    modifies a
    ensures a[..from] == old(a[..from]) && a[to..] == old(a[to..])
    ensures a[from..to] == DefaultConstructedFixed(e, old(a[from..to]))
    ensures forall j :: from <= j < to ==> a[j] == Live(e.blank)
  {
    if e.trivial {
      forall k | from <= k < to && (k - from + 1) * e.size <= (to - from) * e.size {
        a[k] := Live(e.blank);
      }
    } else {
      forall k | from <= k < to {
        a[k] := Live(e.blank);
      }
    }
    assert a[from..to] == DefaultConstructedFixed(e, old(a[from..to])) by {
      forall j | 0 <= j < to - from
        ensures a[from..to][j] == DefaultConstructedFixed(e, old(a[from..to]))[j]
      {
      }
    }
    FixedConstructsEverySlot(e, old(a[from..to]));
    assert forall j :: from <= j < to ==> a[j] == a[from..to][j - from];
  }

  /** `uninitialized_move(src, src + n, dst)`: the first `n` slots of `src` move to `dst`. */
  method MoveInto<T>(src: array<Slot<T>>, dst: array<Slot<T>>, n: nat)
    requires src != dst && n <= src.Length && n <= dst.Length
    modifies dst
    ensures dst[..n] == src[..n] && dst[n..] == old(dst[n..])
  {
    var k := 0;
    while k < n
      invariant 0 <= k <= n
      invariant dst[..k] == src[..k] && dst[n..] == old(dst[n..])
    {
      dst[k] := src[k];
      k := k + 1;
    }
  }

  class Vector<T> {
    var items: array?<Slot<T>>
    var size: nat
    var capacity: nat
    /** The element type: `T()`, `sizeof(T)` and whether it is trivially default-constructible. */
    const elem: Element<T>

    /** The buffer pointer agrees with the capacity. */
    ghost predicate Allocated()
      reads this
    {
      (items == null ==> capacity == 0) && (items != null ==> items.Length == capacity)
    }

    ghost predicate Valid()
      reads this
    {
      Allocated() && size <= capacity
    }

    /** Every slot of the buffer. */
    function Stored(): (s: seq<Slot<T>>)
      reads this, items
      ensures Allocated() ==> |s| == capacity
    {
      if items == null then [] else items[..]
    }

    /** The slots `[begin(), end())`. */
    function Contents(): (s: seq<Slot<T>>)
      requires Valid()
      reads this, items
      ensures |s| == size
    {
      Stored()[..size]
    }

    /** `empty()`. */
    function Empty(): (b: bool)
      reads this
      ensures b <==> size == 0
    {
      size == 0
    }

    /** `back()`: the slot at `m_size - 1`. */
    function Back(): (s: Slot<T>)
      requires Valid() && size > 0
      reads this, items
      ensures s == Contents()[size - 1]
    {
      items[size - 1]
    }

    /** `Vector() = default`: no buffer, no elements. */
    constructor Default(elem: Element<T>)
      ensures Valid() && size == 0 && capacity == 0 && items == null && this.elem == elem
    {
      items := null;
      size := 0;
      capacity := 0;
      this.elem := elem;
    }

    /**
     * `Vector(std::size_t size)`: `resize(size)` of an empty vector, so `default_construct`
     * over `size` fresh slots (for a trivial `T`, only the first `size / sizeof(T)` are zeroed).
     */
    constructor WithSize(elem: Element<T>, n: nat)
      ensures Valid() && size == n && this.elem == elem
      ensures Contents() == DefaultConstructed(elem, seq(n, _ => Uninit))
    {
      items := null;
      size := 0;
      capacity := 0;
      this.elem := elem;
      new;
      Resize(n);
      if n == 0 {
        assert Contents() == [] == DefaultConstructed(elem, seq(n, _ => Uninit));
      } else {
        assert Contents() == Contents()[0..];
      }
    }

    /** `Vector(const T* items, std::size_t size)`: `assign(items, size)`. */
    constructor FromItems(elem: Element<T>, src: seq<T>, n: nat)
      requires n <= |src|
      ensures Valid() && size == n && this.elem == elem
      ensures Contents() == seq(n, k requires 0 <= k < n => Live(src[k]))
    {
      items := null;
      size := 0;
      capacity := 0;
      this.elem := elem;
      new;
      Assign(src, n);
    }

    /**
     * `reserve(capacity)`: when it exceeds the current capacity, allocate
     * `allocate_at_least(capacity)` slots and move `[begin(), end())` over. Callers may
     * already have raised `m_size` past the capacity, and then the code reads past the old
     * buffer; the model moves only the slots the old buffer has.
     */
    method Reserve(c: nat)
      requires Allocated()
      modifies this
      ensures Allocated() && size == old(size)
      ensures c <= old(capacity) ==> items == old(items) && capacity == old(capacity)
      ensures c > old(capacity) ==>
        fresh(items) && capacity == AllocateAtLeast(c) && capacity >= c
        && Stored() == Relocated(old(Stored()), size, capacity)
    {
      if c > capacity {
        var newCapacity := AllocateAtLeast(c);
        var buffer := new Slot<T>[newCapacity](_ => Uninit);
        if items != null {
          var n := if size < capacity then size else capacity;
          MoveInto(items, buffer, n);
        }
        capacity := newCapacity;
        items := buffer;
      }
    }

    /** `shrink_to_fit()`: when the capacity exceeds the size, move the elements into an exact-size buffer. */
    method ShrinkToFit()
      requires Valid()
      modifies this
      ensures Valid() && size == old(size)
      ensures old(capacity) > old(size) ==> capacity == size && fresh(items)
      ensures old(capacity) <= old(size) ==> capacity == old(capacity) && items == old(items)
      ensures Contents() == old(Contents())
    {
      if capacity > size {
        var buffer := new Slot<T>[size](_ => Uninit);
        MoveInto(items, buffer, size);
        assert buffer[..] == buffer[..size];
        items := buffer;
        capacity := size;
      }
    }

    /**
     * `resize(count)`. Shrinking destroys the first `m_size - count` slots (not the last
     * ones), then keeps the first `count` slots in an exact-size buffer. Growing reserves
     * `count` and runs `default_construct` on the new tail, whose slots are fresh when
     * the buffer was reallocated and keep their old contents otherwise.
     */
    method Resize(count: nat)
      requires Valid()
      modifies this, items
      ensures Valid() && size == count
      ensures count < old(size) ==>
        capacity == count && Contents() == DestroyFirst(old(Contents()), old(size) - count)[..count]
      ensures count > old(size) ==> Contents()[..old(size)] == old(Contents())
      ensures count > old(capacity) ==>
        capacity == AllocateAtLeast(count)
        && Contents()[old(size)..] == DefaultConstructed(elem, seq(count - old(size), _ => Uninit))
      ensures old(size) < count <= old(capacity) ==>
        capacity == old(capacity)
        && Contents()[old(size)..] == DefaultConstructed(elem, old(Stored())[old(size)..count])
      ensures count == old(size) ==> capacity == old(capacity) && Contents() == old(Contents())
    {
      if count < size {
        DestroyRange(items, 0, size - count);
        assert items[..size] == DestroyFirst(old(Contents()), old(size) - count);
        size := count;
        ShrinkToFit();
      } else if count > size {
        Extend(count);
      }
    }

    /** The growing branch of `resize(count)`: `reserve(count)`, then `default_construct` of the new tail. */
    method Extend(count: nat)
      requires Valid() && count > size
      modifies this, items
      ensures Valid() && size == count
      ensures Contents()[..old(size)] == old(Contents())
      ensures count > old(capacity) ==>
        capacity == AllocateAtLeast(count)
        && Contents()[old(size)..] == DefaultConstructed(elem, seq(count - old(size), _ => Uninit))
      ensures count <= old(capacity) ==>
        capacity == old(capacity)
        && Contents()[old(size)..] == DefaultConstructed(elem, old(Stored())[old(size)..count])
    {
      ghost var before := if count > capacity then seq(count - size, _ => Uninit) else items[size..count];
      ghost var kept := Contents();
      Reserve(count);
      assert items[..size] == kept;
      assert items[size..count] == before;
      DefaultConstructRange(items, size, count, elem);
      assert items[..size] == kept;
      var oldSize := size;
      size := count;
      assert Contents()[..oldSize] == items[..oldSize];
      assert Contents()[oldSize..] == items[oldSize..count];
    }

    /** `clear()`: `resize(0)`. */
    method Clear()
      requires Valid()
      modifies this, items
      ensures Valid() && size == 0
      ensures capacity == if old(size) > 0 then 0 else old(capacity)
    {
      Resize(0);
    }

    /**
     * `assign(items, size)`: set `m_size`, `reserve(m_size)`, then `copy_n` the items
     * into the buffer.
     */
    method Assign(src: seq<T>, n: nat)
      requires Allocated() && n <= |src|
      modifies this, items
      ensures Valid() && size == n
      ensures Contents() == seq(n, k requires 0 <= k < n => Live(src[k]))
      ensures n > old(capacity) ==> capacity == AllocateAtLeast(n)
      ensures n <= old(capacity) ==> capacity == old(capacity)
    {
      size := n;
      Reserve(size);
      var k := 0;
      while k < n
        invariant Valid() && size == n && 0 <= k <= n
        invariant n > old(capacity) ==> capacity == AllocateAtLeast(n)
        invariant n <= old(capacity) ==> capacity == old(capacity)
        invariant forall j :: 0 <= j < k ==> items[j] == Live(src[j])
        modifies items
      {
        items[k] := Live(src[k]);
        k := k + 1;
      }
    }

    /** The shared first step of `push_back`, `emplace_back` and `insert`: `m_size++`, then `reserve(capacity() + 1)` when full. */
    method Grow()
      requires Valid()
      modifies this
      ensures Valid() && size == old(size) + 1
      ensures Contents()[..old(size)] == old(Contents())
      ensures old(size) < old(capacity) ==> capacity == old(capacity) && items == old(items)
      ensures old(size) == old(capacity) ==> capacity == AllocateAtLeast(old(capacity) + 1) && fresh(items)
    {
      size := size + 1;
      if size > capacity {
        Reserve(capacity + 1);
      }
    }

    /** `push_back(item)`: one more element, the pushed item at the back. */
    method PushBack(item: T)
      requires Valid()
      modifies this, items
      ensures Valid() && size == old(size) + 1
      ensures Contents() == old(Contents()) + [Live(item)]
      ensures Back() == Live(item)
      ensures old(size) < old(capacity) ==> capacity == old(capacity)
      ensures old(size) == old(capacity) ==> capacity == AllocateAtLeast(old(capacity) + 1)
    {
      Grow();
      items[size - 1] := Live(item);
    }

    /** `emplace_back(args...)`: constructs the element in the new last slot and returns its position. */
    method EmplaceBack(v: T) returns (r: nat)
      requires Valid()
      modifies this, items
      ensures Valid() && size == old(size) + 1 && r == size - 1
      ensures Contents() == old(Contents()) + [Live(v)]
      ensures old(size) < old(capacity) ==> capacity == old(capacity)
      ensures old(size) == old(capacity) ==> capacity == AllocateAtLeast(old(capacity) + 1)
    {
      Grow();
      items[size - 1] := Live(v);
      r := size - 1;
    }

    /** `pop_back()`: one element fewer; the old last element is destroyed in place. */
    method PopBack()
      requires Valid() && size > 0
      modifies this, items
      ensures Valid() && size == old(size) - 1 && capacity == old(capacity)
      ensures Contents() == old(Contents())[..size]
      ensures items == old(items) && items[size] == Destroy(old(Contents())[size])
    {
      size := size - 1;
      items[size] := Destroy(items[size]);
    }

    /**
     * `insert(pos, value)`, with `pos` as an offset from `begin()`. A position at or before
     * `begin()` or past `end()` returns `end()` and changes nothing. Otherwise the vector
     * grows by one and its new last slot gets `T()`; the inserted value itself is never
     * stored, and the returned position is that last slot.
     */
    method Insert(pos: int, value: T) returns (r: nat)
      requires Valid()
      modifies this, items
      ensures Valid()
      ensures pos <= 0 || pos > old(size) ==>
        r == size && size == old(size) && capacity == old(capacity) && items == old(items) && Contents() == old(Contents())
      ensures 0 < pos <= old(size) ==>
        size == old(size) + 1 && r == size - 1
        && Contents()[..old(size)] == old(Contents()) && Contents()[r] == Live(elem.blank)
    {
      if pos <= 0 || pos > size {
        return size;
      }
      Grow();
      items[size - 1] := Live(elem.blank);
      r := size - 1;
    }

    /** `erase(pos)`: one element fewer, the element at `pos` destroyed; returns `end()`. */
    method Erase(pos: nat) returns (r: nat)
      requires Valid() && pos < size
      modifies this, items
      ensures Valid() && size == old(size) - 1 && r == size && capacity == old(capacity)
      ensures items == old(items) && items[pos] == Destroy(old(items[pos]))
    {
      size := size - 1;
      items[pos] := Destroy(items[pos]);
      r := size;
    }

    /**
     * `erase(first, last)`: an empty range returns `end()` and changes nothing; otherwise
     * the size drops by `last - first` and the range is destroyed.
     */
    method EraseRange(first: nat, last: nat) returns (r: nat)
      requires Valid() && first <= last <= size
      modifies this, items
      ensures Valid() && r == size && capacity == old(capacity) && items == old(items)
      ensures first == last ==> size == old(size) && Contents() == old(Contents())
      ensures first < last ==>
        size == old(size) - (last - first)
        && items[..first] == old(items[..first]) && items[last..] == old(items[last..])
        && items[first..last] == DestroyFirst(old(items[first..last]), last - first)
    {
      if first == last {
        return size;
      }
      size := size - (last - first);
      DestroyRange(items, first, last);
      r := size;
    }

    /** `swap(other)`: exchanges buffer, size and capacity. */
    method Swap(other: Vector<T>)
      modifies this, other
      ensures other != this ==>
        items == old(other.items) && size == old(other.size) && capacity == old(other.capacity)
        && other.items == old(items) && other.size == old(size) && other.capacity == old(capacity)
      ensures other == this ==> items == old(items) && size == old(size) && capacity == old(capacity)
    {
      items, other.items := other.items, items;
      size, other.size := other.size, size;
      capacity, other.capacity := other.capacity, capacity;
    }

    /** `assign(Vector&&)`: the same three exchanges as `swap`. */
    method AssignMove(other: Vector<T>)
      modifies this, other
      ensures other != this ==>
        items == old(other.items) && size == old(other.size) && capacity == old(other.capacity)
        && other.items == old(items) && other.size == old(size) && other.capacity == old(capacity)
      ensures other == this ==> items == old(items) && size == old(size) && capacity == old(capacity)
    {
      Swap(other);
    }

    /** `~Vector()`: with a buffer, destroy `[begin(), end())`, release it and reset all three fields. */
    method Dispose()
      requires Valid()
      modifies this, items
      ensures items == null && size == 0 && capacity == 0
      ensures old(items) != null ==> old(items)[..old(size)] == DestroyFirst(old(Contents()), old(size))
    {
      if items != null {
        var buffer := items;
        DestroyRange(buffer, 0, size);
        assert buffer[..size] == DestroyFirst(old(Contents()), old(size));
        items := null;
        size := 0;
        capacity := 0;
      }
    }
  }

  /**
   * Shrinking by at least half destroys every slot that is kept: no element the caller
   * still sees is alive.
   */
  lemma ShrinkByHalfKillsKept<T>(s: seq<Slot<T>>, destroyed: nat, count: nat)
    requires destroyed + count == |s| && count <= destroyed
    ensures forall k :: 0 <= k < count ==> !DestroyFirst(s, destroyed)[k].Live?
  {
  }
}
