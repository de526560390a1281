/**
 * The owning and observing pointers of `memory.hpp`.
 *
 * Heap cells are objects: a `StrongCounter` or `WeakCounter` stands for a heap-allocated `std::size_t`
 * reference count and a `Payload` for the owned object. `delete` is modelled by
 * clearing the cell's `live` flag, so frees are observable; the model does not
 * forbid a later access through a freed cell (undefined in C++), it reads the
 * cell's last value. Every handle class keeps its own copy of the `Ptr` base field
 * `m_object` as `obj`.
 */
module Memory {

  /**
   * A heap-allocated strong reference count (`new std::size_t(n)` stored in `m_strongRefCount`).
   * Strong and weak count cells are both `std::size_t*`; no code path stores one in the
   * other's field, so the model gives them separate classes.
   */
  class StrongCounter {
    var count: nat
    var live: bool

    constructor (n: nat)
      ensures count == n && live
    {
      count := n;
      live := true;
    }
  }

  /** A heap-allocated weak reference count (`m_weakRefCount`). */
  class WeakCounter {
    var count: nat
    var live: bool

    constructor (n: nat)
      ensures count == n && live
    {
      count := n;
      live := true;
    }
  }

  /** A heap-allocated object owned by a handle (`new type(...)`). */
  class Payload<T> {
    var value: T
    var live: bool

    constructor (v: T)
      ensures value == v && live
    {
      value := v;
      live := true;
    }
  }

  /** `Ptr<T>`: the raw-pointer base. */
  class Ptr<T> {
    var obj: Payload?<T>

    /** `Ptr() = default`: `m_object` is null. */
    constructor Empty()
      ensures obj == null
    {
      obj := null;
    }

    /** `Ptr(convertible_to<type*> auto ptr)`. */
    constructor FromRaw(p: Payload?<T>)
      ensures obj == p
    {
      obj := p;
    }

    /** `Ptr(Ptr&& other)`: swaps the (null) own pointer with the other's. */
    constructor FromMoved(other: Ptr<T>)
      modifies other
      ensures obj == old(other.obj) && other.obj == null
    {
      obj := null;
      new;
      obj, other.obj := other.obj, obj;
    }

    /** `valid()` and `operator bool`. */
    function Valid(): (b: bool)
      reads this
      ensures b <==> obj != null
    {
      obj != null
    }

    /** `operator=(Ptr&& other)`: swaps the two pointers. */
    method MoveAssign(other: Ptr<T>)
      modifies this, other
      ensures other != this ==> obj == old(other.obj) && other.obj == old(obj)
      ensures other == this ==> obj == old(obj)
    {
      obj, other.obj := other.obj, obj;
    }

    /** `operator=(convertible_to<type*> auto ptr)`: stores the pointer. */
    method AssignRaw(p: Payload?<T>)
      modifies this
      ensures obj == p
    {
      obj := p;
    }

    /** `operator==`: pointer identity. */
    function Equals(p: Payload?<T>): (b: bool)
      reads this
      ensures b <==> obj == p
    {
      obj == p
    }
  }

  /**
   * `UniquePtr<T>`: sole owner of its object. `valid()` is the one inherited from `Ptr`,
   * `obj != null` (see `Ptr.Valid`).
   */
  class UniquePtr<T> {
    var obj: Payload?<T>

    /** `UniquePtr(type&& object)`: moves the object into a fresh heap cell. */
    constructor (v: T)
      ensures obj != null && fresh(obj) && obj.value == v && obj.live
    {
      obj := new Payload(v);
    }

    /** `destruct()`: deletes the object and nulls the pointer. */
    method Destruct()
      requires obj != null
      modifies this, obj
      ensures obj == null && !old(obj).live
    {
      obj.live := false;
      obj := null;
    }

    /** `~UniquePtr()`: deletes the object only when `valid()`. */
    method Dispose()
      modifies this, obj
      ensures obj == null
      ensures old(obj) != null ==> !old(obj).live
    {
      if obj != null {
        Destruct();
      }
    }

    /**
     * `operator=(type* ptr)`: deletes the held object only when `valid()`, then adopts
     * `ptr` through `assign`, which no shown file defines; it is taken to store the pointer.
     */
    method AssignPtr(p: Payload?<T>)
      modifies this, obj
      ensures obj == p
      ensures old(obj) != null ==> !old(obj).live
    {
      if obj != null {
        Destruct();
      }
      obj := p;
    }

    /**
     * `operator=(const UniquePtr&)` and `operator=(UniquePtr&&)`: the same steps with the
     * other handle's pointer, which `other` keeps, so even a move leaves two owners; a
     * self-assignment deletes the object and ends up null.
     */
    method AssignUnique(other: UniquePtr<T>)
      modifies this, obj
      ensures other != this ==> obj == old(other.obj) && other.obj == old(other.obj)
      ensures other == this ==> obj == null
      ensures old(obj) != null ==> !old(obj).live
    {
      if obj != null {
        Destruct();
      }
      obj := other.obj;
    }
  }

  /** `make_unique<T>(args...)`. */
  method MakeUnique<T>(v: T) returns (u: UniquePtr<T>)
    ensures fresh(u) && u.obj != null && fresh(u.obj) && u.obj.value == v && u.obj.live
  {
    u := new UniquePtr(v);
  }

  /** `SharedPtr<T>`: a counted owner; `strong` and `weak` are `m_strongRefCount` and `m_weakRefCount`. */
  class SharedPtr<T> {
    var obj: Payload?<T>
    var strong: StrongCounter?
    var weak: WeakCounter?

    /** `strong_ref_count()`: the strong count, 0 through a null counter. */
    function StrongRefCount(): (n: nat)
      reads this, strong
      ensures strong == null ==> n == 0
      ensures strong != null ==> n == strong.count
    {
      if strong != null then strong.count else 0
    }

    /** `weak_ref_count()`: reads the strong counter, not the weak one. */
    function WeakRefCount(): (n: nat)
      reads this, strong
      ensures n == StrongRefCount()
    {
      if strong != null then strong.count else 0
    }

    /** `use_count()`. */
    function UseCount(): (n: nat)
      reads this, strong
      ensures n == StrongRefCount()
    {
      StrongRefCount()
    }

    /** `unique()`. */
    function Unique(): (b: bool)
      reads this, strong
      ensures b <==> strong != null && strong.count == 1
    {
      UseCount() == 1
    }

    /** `valid()`: a positive use count; `obj` is not consulted. */
    function Valid(): (b: bool)
      reads this, strong
      ensures b <==> strong != null && strong.count > 0
    {
      UseCount() > 0
    }

    /** `SharedPtr() = default`: all three pointers null. */
    constructor Empty()
      ensures obj == null && strong == null && weak == null
      ensures !Valid() && UseCount() == 0
    {
      obj := null;
      strong := null;
      weak := null;
    }

    /** `SharedPtr(type&& object)`: a fresh object and a fresh strong counter at 1. */
    constructor FromValue(v: T)
      ensures obj != null && fresh(obj) && obj.value == v && obj.live
      ensures strong != null && fresh(strong) && strong.live && weak == null
      ensures UseCount() == 1 && Unique() && Valid()
    {
      obj := new Payload(v);
      strong := new StrongCounter(1);
      weak := null;
    }

    /** `SharedPtr(const SharedPtr&)`, and `SharedPtr(SharedPtr&&)`, whose named parameter selects the same overload. */
    constructor FromShared(other: SharedPtr<T>)
      modifies other.strong
      ensures old(other.Valid()) ==>
        obj == other.obj && strong == other.strong && weak == other.weak
        && strong.count == old(other.strong.count) + 1 && strong.live == old(other.strong.live)
      ensures !old(other.Valid()) ==> obj == null && strong == null && weak == null
      ensures !old(other.Valid()) ==> (other.strong != null ==> unchanged(other.strong))
      ensures other.obj == old(other.obj) && other.strong == old(other.strong) && other.weak == old(other.weak)
    {
      obj := null;
      strong := null;
      weak := null;
      new;
      AssignShared(other);
    }

    /** `SharedPtr(const weak_ptr_type&)`. */
    constructor FromWeak(other: WeakPtr<T>)
      modifies other.strong
      ensures old(other.Valid()) ==>
        obj == other.obj && strong == other.strong && weak == other.weak
        && strong.count == old(other.strong.count) + 1 && strong.live == old(other.strong.live)
      ensures !old(other.Valid()) ==> obj == null && strong == null && weak == null
      ensures !old(other.Valid()) ==> (other.strong != null ==> unchanged(other.strong))
      ensures other.obj == old(other.obj) && other.strong == old(other.strong) && other.weak == old(other.weak)
    {
      obj := null;
      strong := null;
      weak := null;
      new;
      AssignWeak(other);
    }

    /** `increment_strong_ref_count()`. */
    method IncrementStrong()
      requires strong != null
      modifies strong
      ensures strong.count == old(strong.count) + 1 && strong.live == old(strong.live)
    {
      strong.count := strong.count + 1;
    }

    /**
     * `decrement_strong_ref_count()`: one less strong reference; when a weak counter is
     * attached and the count reaches 0, the strong counter is deleted and nulled.
     */
    method DecrementStrong()
      requires strong != null && strong.count > 0
      modifies this, strong
      ensures old(strong).count == old(strong.count) - 1
      ensures obj == old(obj) && weak == old(weak)
      ensures if old(weak) != null && old(strong.count) == 1
              then strong == null && !old(strong).live
              else strong == old(strong) && strong.live == old(strong.live)
    {
      strong.count := strong.count - 1;
      if weak != null && WeakRefCount() == 0 {
        strong.live := false;
        strong := null;
      }
    }

    /**
     * `destruct()`: gives up one strong reference when the count is positive, then
     * deletes and nulls the object exactly when it is non-null and the count reads 0.
     */
    method Destruct()
      modifies this, strong, obj
      ensures weak == old(weak)
      ensures old(UseCount()) > 0 ==> old(strong).count == old(strong.count) - 1
      ensures old(UseCount()) > 0 && old(weak) != null && old(strong.count) == 1 ==>
        strong == null && !old(strong).live
      ensures !(old(UseCount()) > 0 && old(weak) != null && old(strong.count) == 1) ==>
        strong == old(strong)
      ensures old(UseCount()) == 0 ==> (old(strong) != null ==> unchanged(old(strong)))
      ensures old(obj) != null && UseCount() == 0 ==> obj == null && !old(obj).live
      ensures !(old(obj) != null && UseCount() == 0) ==> obj == old(obj) && (old(obj) != null ==> unchanged(old(obj)))
      ensures strong == old(strong) && strong != null ==> strong.live == old(strong.live)
      ensures old(UseCount()) > 0 ==> UseCount() == old(UseCount()) - 1
      ensures old(UseCount()) == 0 ==> UseCount() == 0
    {
      if UseCount() > 0 {
        DecrementStrong();
      }
      if obj != null && UseCount() == 0 {
        obj.live := false;
        obj := null;
      }
    }

    /** `~SharedPtr()`. */
    method Dispose()
      modifies this, strong, obj
      ensures weak == old(weak)
      ensures old(UseCount()) > 0 ==> old(strong).count == old(strong.count) - 1
      ensures old(UseCount()) > 0 && old(weak) != null && old(strong.count) == 1 ==>
        strong == null && !old(strong).live
      ensures !(old(UseCount()) > 0 && old(weak) != null && old(strong.count) == 1) ==>
        strong == old(strong)
      ensures old(UseCount()) == 0 ==> (old(strong) != null ==> unchanged(old(strong)))
      ensures old(obj) != null && UseCount() == 0 ==> obj == null && !old(obj).live
      ensures !(old(obj) != null && UseCount() == 0) ==> obj == old(obj) && (old(obj) != null ==> unchanged(old(obj)))
      ensures strong == old(strong) && strong != null ==> strong.live == old(strong.live)
      ensures old(UseCount()) > 0 ==> UseCount() == old(UseCount()) - 1
      ensures old(UseCount()) == 0 ==> UseCount() == 0
    {
      Destruct();
    }

    /** `assign(const SharedPtr&)`: when the other is valid, share its object and counters and count one more owner. */
    method AssignShared(other: SharedPtr<T>)
      modifies this, other.strong
      ensures old(other.Valid()) ==>
        obj == old(other.obj) && strong == old(other.strong) && weak == old(other.weak)
        && strong.count == old(other.strong.count) + 1 && strong.live == old(other.strong.live)
      ensures !old(other.Valid()) ==> obj == old(obj) && strong == old(strong) && weak == old(weak)
      ensures !old(other.Valid()) ==> (other.strong != null ==> unchanged(other.strong))
      ensures other != this ==> other.obj == old(other.obj) && other.strong == old(other.strong) && other.weak == old(other.weak)
    {
      if other.Valid() {
        strong := other.strong;
        weak := other.weak;
        obj := other.obj;
        IncrementStrong();
      }
    }

    /** `assign(const weak_ptr_type&)`: the same from a weak handle. */
    method AssignWeak(other: WeakPtr<T>)
      modifies this, other.strong
      ensures old(other.Valid()) ==>
        obj == old(other.obj) && strong == old(other.strong) && weak == old(other.weak)
        && strong.count == old(other.strong.count) + 1 && strong.live == old(other.strong.live)
      ensures !old(other.Valid()) ==> obj == old(obj) && strong == old(strong) && weak == old(weak)
      ensures !old(other.Valid()) ==> (other.strong != null ==> unchanged(other.strong))
      ensures other.obj == old(other.obj) && other.strong == old(other.strong) && other.weak == old(other.weak)
    {
      if other.Valid() {
        strong := other.strong;
        weak := other.weak;
        obj := other.obj;
        IncrementStrong();
      }
    }

    /** `assign(SharedPtr&&)`: swaps object and strong counter only; the weak counters stay. */
    method AssignMove(other: SharedPtr<T>)
      modifies this, other
      ensures obj == old(other.obj) && strong == old(other.strong) && weak == old(weak)
      ensures other.obj == old(obj) && other.strong == old(strong) && other.weak == old(other.weak)
    {
      obj, other.obj := other.obj, obj;
      strong, other.strong := other.strong, strong;
    }

    /**
     * `operator=(const SharedPtr&)` and `operator=(SharedPtr&&)` (whose named parameter
     * selects `assign(const SharedPtr&)` too): destruct when valid, then assign.
     *  - A valid `other` on another counter: this handle shares it and counts one more owner.
     *  - One counter with more than one owner: the count is given up and taken back.
     *  - One counter at use count 1 (`p = p` on a sole owner among them): the object is
     *    deleted, `other` reads invalid afterwards, and nothing is taken back.
     *  - An invalid `other` (such as `p = SharedPtr{}`): only the destruct happens; the
     *    handle keeps its object and counter, and still reads valid while others own it.
     */
    method CopyAssign(other: SharedPtr<T>)
      modifies this, strong, obj, other.strong
      ensures old(other.Valid()) && old(strong) != old(other.strong) ==>
        obj == old(other.obj) && strong == old(other.strong) && weak == old(other.weak)
        && strong.count == old(other.strong.count) + 1
      ensures old(other.Valid()) && old(strong) == old(other.strong) && old(strong.count) > 1 ==>
        obj == old(other.obj) && strong == old(strong) && weak == old(other.weak)
        && strong.count == old(strong.count)
      ensures old(other.Valid()) && old(strong) == old(other.strong) && old(strong.count) == 1 ==>
        obj == null && weak == old(weak) && old(strong).count == 0 && UseCount() == 0
        && strong == (if old(weak) != null then null else old(strong))
      ensures !old(other.Valid()) ==> weak == old(weak)
      ensures !old(other.Valid()) && !old(Valid()) ==> obj == old(obj) && strong == old(strong)
      ensures !old(other.Valid()) && old(Valid()) ==>
        old(strong).count == old(strong.count) - 1
        && strong == (if old(weak) != null && old(strong.count) == 1 then null else old(strong))
        && obj == (if old(strong.count) == 1 then null else old(obj))
      ensures !old(other.Valid()) && old(Valid()) && old(strong.count) > 1 ==>
        Valid() && UseCount() == old(UseCount()) - 1
      ensures old(Valid()) && old(strong) != old(other.strong) ==> old(strong).count == old(strong.count) - 1
      ensures old(Valid()) && old(strong.count) == 1 && old(obj) != null ==> !old(obj).live
    {
      if Valid() {
        Destruct();
      }
      AssignShared(other);
    }

    /**
     * `operator=(const SharedPtr&)` as evidently intended: the new reference is taken
     * before the old one is given up, and an invalid `other` leaves this handle empty.
     */
    method CopyAssignFixed(other: SharedPtr<T>)
      modifies this, strong, obj, other.strong
      ensures old(other.Valid()) ==>
        obj == old(other.obj) && strong == old(other.strong) && weak == old(other.weak)
        && strong.count == old(other.strong.count) + (if old(strong) == old(other.strong) then 0 else 1)
      ensures !old(other.Valid()) ==> obj == null && strong == null && weak == null && !Valid()
      ensures old(Valid()) && old(strong) != old(other.strong) ==> old(strong).count == old(strong.count) - 1
      ensures old(Valid()) && old(strong) != old(other.strong) && old(strong.count) == 1 && old(obj) != null ==>
        !old(obj).live
      ensures old(obj) != null && !(old(Valid()) && old(strong) != old(other.strong) && old(strong.count) == 1) ==>
        old(obj).live == old(obj.live)
    {
      var o, s, w, taken := other.obj, other.strong, other.weak, other.Valid();
      if taken {
        s.count := s.count + 1;
      }
      if Valid() {
        Destruct();
      }
      if taken {
        obj, strong, weak := o, s, w;
      } else {
        obj, strong, weak := null, null, null;
      }
    }

    /**
     * `operator=(const weak_ptr_type&)`: destruct when valid, then take a strong reference
     * through the weak handle; the same cases as `operator=(const SharedPtr&)`.
     */
    method AssignFromWeak(other: WeakPtr<T>)
      modifies this, strong, obj, other.strong
      ensures old(other.Valid()) && old(strong) != old(other.strong) ==>
        obj == old(other.obj) && strong == old(other.strong) && weak == old(other.weak)
        && strong.count == old(other.strong.count) + 1
      ensures old(other.Valid()) && old(strong) == old(other.strong) && old(strong.count) > 1 ==>
        obj == old(other.obj) && strong == old(strong) && weak == old(other.weak)
        && strong.count == old(strong.count)
      ensures old(other.Valid()) && old(strong) == old(other.strong) && old(strong.count) == 1 ==>
        obj == null && weak == old(weak) && old(strong).count == 0 && UseCount() == 0
        && strong == (if old(weak) != null then null else old(strong))
      ensures !old(other.Valid()) ==> weak == old(weak)
      ensures !old(other.Valid()) && !old(Valid()) ==> obj == old(obj) && strong == old(strong)
      ensures !old(other.Valid()) && old(Valid()) ==>
        old(strong).count == old(strong.count) - 1
        && strong == (if old(weak) != null && old(strong.count) == 1 then null else old(strong))
        && obj == (if old(strong.count) == 1 then null else old(obj))
      ensures old(Valid()) && old(strong) != old(other.strong) ==> old(strong).count == old(strong.count) - 1
      ensures old(Valid()) && old(strong.count) == 1 && old(obj) != null ==> !old(obj).live
    {
      if Valid() {
        Destruct();
      }
      AssignWeak(other);
    }
  }

  /** `make_shared<T>(args...)`: a new owner with use count 1. */
  method MakeShared<T>(v: T) returns (p: SharedPtr<T>)
    ensures fresh(p) && p.obj != null && fresh(p.obj) && p.obj.value == v && p.obj.live
    ensures p.strong != null && fresh(p.strong) && p.strong.live && p.weak == null
    ensures p.UseCount() == 1 && p.Unique()
  {
    p := new SharedPtr.FromValue(v);
  }

  /** `WeakPtr<T>`: an observer with its own weak counter; it has no destructor. */
  class WeakPtr<T> {
    var obj: Payload?<T>
    var strong: StrongCounter?
    var weak: WeakCounter?

    /** `weak_ref_count()`: the weak count, 0 through a null counter. */
    function WeakRefCount(): (n: nat)
      reads this, weak
      ensures weak == null ==> n == 0
      ensures weak != null ==> n == weak.count
    {
      if weak != null then weak.count else 0
    }

    /** `use_count()`: the strong count while the weak count is positive, else 0. */
    function UseCount(): (n: nat)
      reads this, weak, strong
      ensures n > 0 <==> weak != null && weak.count > 0 && strong != null && strong.count > 0
      ensures n > 0 ==> n == strong.count
    {
      if WeakRefCount() > 0 then (if strong != null then strong.count else 0) else 0
    }

    /** `expired()`. */
    function Expired(): (b: bool)
      reads this, weak, strong
      ensures b <==> UseCount() == 0
    {
      UseCount() == 0
    }

    /** `valid()`: not expired. */
    function Valid(): (b: bool)
      reads this, weak, strong
      ensures b <==> weak != null && weak.count > 0 && strong != null && strong.count > 0
    {
      !Expired()
    }

    /** `WeakPtr() = default`. */
    constructor Empty()
      ensures obj == null && strong == null && weak == null && Expired()
    {
      obj := null;
      strong := null;
      weak := null;
    }

    /** `WeakPtr(const shared_ptr_type&)`. */
    constructor FromShared(other: SharedPtr<T>)
      ensures other.Valid() ==>
        obj == other.obj && strong == other.strong && weak != null && fresh(weak) && weak.count == 1
      ensures !other.Valid() ==> obj == null && strong == null && weak == null
    {
      obj := null;
      strong := null;
      weak := null;
      new;
      AssignShared(other);
    }

    /** `WeakPtr(const WeakPtr&)`, and `WeakPtr(WeakPtr&&)`, whose named parameter selects the same overload. */
    constructor FromWeak(other: WeakPtr<T>)
      modifies other.weak
      ensures old(other.Valid()) ==>
        obj == other.obj && strong == other.strong && weak == other.weak
        && weak.count == old(other.weak.count) + 1
      ensures !old(other.Valid()) ==> obj == null && strong == null && weak == null
      ensures !old(other.Valid()) ==> (other.weak != null ==> unchanged(other.weak))
      ensures other.obj == old(other.obj) && other.strong == old(other.strong) && other.weak == old(other.weak)
    {
      obj := null;
      strong := null;
      weak := null;
      new;
      AssignWeak(other);
    }

    /** `increment_weak_ref_count()`. */
    method IncrementWeak()
      requires weak != null
      modifies weak
      ensures weak.count == old(weak.count) + 1 && weak.live == old(weak.live)
    {
      weak.count := weak.count + 1;
    }

    /**
     * `decrement_weak_ref_count()`: one less weak reference; at 0 the object and strong
     * pointers are nulled before the strong counter is deleted, so nothing is freed.
     */
    method DecrementWeak()
      requires weak != null && weak.count > 0
      modifies this, weak
      ensures old(weak).count == old(weak.count) - 1 && old(weak).live == old(weak.live)
      ensures weak == old(weak)
      ensures old(weak.count) == 1 ==> obj == null && strong == null
      ensures old(weak.count) > 1 ==> obj == old(obj) && strong == old(strong)
    {
      weak.count := weak.count - 1;
      if weak != null && WeakRefCount() == 0 {
        obj := null;
        strong := null;
        // `delete m_strongRefCount` now deletes a null pointer
        strong := null;
      }
    }

    /** `destruct()`: gives up one weak reference when the weak count is positive. */
    method Destruct()
      modifies this, weak
      ensures weak == old(weak)
      ensures old(WeakRefCount()) > 0 ==> old(weak).count == old(weak.count) - 1
      ensures old(WeakRefCount()) == 0 ==> unchanged(this) && (old(weak) != null ==> unchanged(old(weak)))
      ensures old(WeakRefCount()) == 1 ==> obj == null && strong == null
      ensures old(WeakRefCount()) != 1 ==> obj == old(obj) && strong == old(strong)
    {
      if WeakRefCount() > 0 {
        DecrementWeak();
      }
    }

    /** `assign(const shared_ptr_type&)`: from a valid owner, share its object and strong counter with a fresh weak counter at 1. */
    method AssignShared(other: SharedPtr<T>)
      modifies this
      ensures other.Valid() ==>
        obj == other.obj && strong == other.strong && weak != null && fresh(weak) && weak.count == 1 && weak.live
      ensures !other.Valid() ==> obj == old(obj) && strong == old(strong) && weak == old(weak)
    {
      if other.Valid() {
        obj := other.obj;
        strong := other.strong;
        weak := new WeakCounter(1);
      }
    }

    /** `assign(const WeakPtr&)`: from a valid observer, share all three pointers and count one more weak reference. */
    method AssignWeak(other: WeakPtr<T>)
      modifies this, other.weak
      ensures old(other.Valid()) ==>
        obj == old(other.obj) && strong == old(other.strong) && weak == old(other.weak)
        && weak.count == old(other.weak.count) + 1 && weak.live == old(other.weak.live)
      ensures !old(other.Valid()) ==> obj == old(obj) && strong == old(strong) && weak == old(weak)
      ensures !old(other.Valid()) ==> (other.weak != null ==> unchanged(other.weak))
      ensures other != this ==> other.obj == old(other.obj) && other.strong == old(other.strong) && other.weak == old(other.weak)
    {
      if other.Valid() {
        obj := other.obj;
        strong := other.strong;
        weak := other.weak;
        IncrementWeak();
      }
    }

    /** `assign(WeakPtr&&)`: swaps all three pointers. */
    method AssignMove(other: WeakPtr<T>)
      modifies this, other
      ensures obj == old(other.obj) && strong == old(other.strong) && weak == old(other.weak)
      ensures other.obj == old(obj) && other.strong == old(strong) && other.weak == old(weak)
    {
      obj, other.obj := other.obj, obj;
      strong, other.strong := other.strong, strong;
      weak, other.weak := other.weak, weak;
    }

    /**
     * `operator=(const shared_ptr_type&)`: destruct when valid, then observe the owner. With
     * an invalid owner only the destruct happens, and the handle keeps its weak counter.
     */
    method AssignFromShared(other: SharedPtr<T>)
      modifies this, weak
      ensures other.Valid() ==>
        obj == other.obj && strong == other.strong && weak != null && fresh(weak) && weak.count == 1
      ensures old(Valid()) ==> old(weak).count == old(weak.count) - 1
      ensures !old(Valid()) ==> (old(weak) != null ==> unchanged(old(weak)))
      ensures !other.Valid() ==> weak == old(weak)
      ensures !other.Valid() && old(Valid()) && old(weak.count) == 1 ==> obj == null && strong == null
      ensures !other.Valid() && !(old(Valid()) && old(weak.count) == 1) ==> obj == old(obj) && strong == old(strong)
    {
      if Valid() {
        Destruct();
      }
      AssignShared(other);
    }

    /**
     * `operator=(const WeakPtr&)`: destruct when valid, then share the other's weak counter.
     * Between two observers on one weak counter the reference is given up and taken back,
     * unless it was the last one; an invalid `other` leaves only the destruct.
     */
    method CopyAssign(other: WeakPtr<T>)
      modifies this, weak, other.weak
      ensures old(other.Valid()) && (old(weak) != old(other.weak) || !old(Valid())) ==>
        obj == old(other.obj) && strong == old(other.strong) && weak == old(other.weak)
        && weak.count == old(other.weak.count) + 1
      ensures old(weak) == old(other.weak) && old(WeakRefCount()) > 1 && old(Valid()) && old(other.Valid()) ==>
        obj == old(other.obj) && strong == old(other.strong) && weak == old(weak) && weak.count == old(weak.count)
      ensures old(weak) == old(other.weak) && old(WeakRefCount()) == 1 && old(Valid()) && old(other.Valid()) ==>
        obj == null && strong == null && weak == old(weak) && old(weak).count == 0
      ensures !old(other.Valid()) ==> weak == old(weak)
      ensures !old(other.Valid()) && old(Valid()) ==>
        old(weak).count == old(weak.count) - 1
        && if old(weak.count) == 1 then obj == null && strong == null
           else obj == old(obj) && strong == old(strong)
      ensures !old(other.Valid()) && !old(Valid()) ==> obj == old(obj) && strong == old(strong)
      ensures old(Valid()) && old(weak) != old(other.weak) ==> old(weak).count == old(weak.count) - 1
    {
      if Valid() {
        Destruct();
      }
      AssignWeak(other);
    }

    /**
     * `operator=(WeakPtr&&)`: no destruct, and the named parameter selects
     * `assign(const WeakPtr&)`, so the old weak reference is never given up.
     */
    method MoveAssign(other: WeakPtr<T>)
      modifies this, other.weak
      ensures old(other.Valid()) ==>
        obj == old(other.obj) && strong == old(other.strong) && weak == old(other.weak)
        && weak.count == old(other.weak.count) + 1
      ensures !old(other.Valid()) ==> obj == old(obj) && strong == old(strong) && weak == old(weak)
      ensures old(weak) != null && old(weak) != old(other.weak) ==> (old(weak) != null ==> unchanged(old(weak)))
    {
      AssignWeak(other);
    }

    /**
     * `lock()`: `SharedPtr(*this)`. Unexpired, the result shares the object, strong and
     * weak counters and counts one more owner; expired, the result is empty.
     */
    method Lock() returns (p: SharedPtr<T>)
      modifies strong
      ensures fresh(p)
      ensures old(Valid()) ==>
        p.obj == obj && p.strong == strong && p.weak == weak
        && p.Valid() && strong.count == old(strong.count) + 1 && strong.live == old(strong.live)
      ensures !old(Valid()) ==> p.obj == null && p.strong == null && p.weak == null && !p.Valid()
      ensures !old(Valid()) ==> (strong != null ==> unchanged(strong))
      ensures obj == old(obj) && strong == old(strong) && weak == old(weak)
    {
      p := new SharedPtr.FromWeak(this);
    }
  }

  /**
   * The `observe` helper of the weak-pointer test: takes the weak handle by value
   * (a copy, never destroyed), locks it and reports whether the lock is valid.
   * The lock's owner is destroyed again, so only the copy's weak reference remains.
   */
  method Observe<T>(w: WeakPtr<T>) returns (b: bool)
    requires w.weak != null && w.strong != null && w.obj != null && w.strong.count > 0 ==> w.obj.live
    modifies w.weak, w.strong, w.obj
    ensures b <==> old(w.Valid())
    ensures w.obj == old(w.obj) && w.strong == old(w.strong) && w.weak == old(w.weak)
    ensures w.strong != null ==> w.strong.count == old(w.strong.count) && w.strong.live == old(w.strong.live)
    ensures w.obj != null ==> w.obj.live == old(w.obj.live)
    ensures w.weak != null ==> w.weak.count == old(w.weak.count) + (if b then 1 else 0)
  {
    var copy := new WeakPtr.FromWeak(w);
    var sp := copy.Lock();
    b := sp.Valid();
    sp.Dispose();
  }

  /**
   * The weak-pointer test: an observer of a live owner locks to a valid handle; once
   * the owner is destroyed (count 0, object deleted) the lock is empty.
   */
  method WeakPtrScenario() returns (whileAlive: bool, afterDestroy: bool)
    ensures whileAlive && !afterDestroy
  {
    var weakPtr := new WeakPtr<int>.Empty();
    var sharedPtr := MakeShared(99);
    weakPtr.AssignFromShared(sharedPtr);
    whileAlive := Observe(weakPtr);
    sharedPtr.Dispose();
    afterDestroy := Observe(weakPtr);
  }

  /**
   * An owner obtained through `lock()` carries the weak counter, so when it releases the
   * last strong reference it deletes the strong counter while the observer still points
   * at it: the observer's next `expired()` reads a freed count.
   */
  method LockedOwnerFreesCounter() returns (observer: WeakPtr<int>)
    ensures observer.strong != null && !observer.strong.live
    ensures observer.weak != null && observer.weak.count == 1
  {
    var owner := MakeShared(7);
    observer := new WeakPtr.FromShared(owner);
    var locked := observer.Lock();
    owner.Dispose();
    locked.Dispose();
  }
  /**
   * Releasing one of two owners with `p = SharedPtr{}`: the assignment decrements the
   * count but leaves `p` holding the object and counter, so `p`'s destructor decrements
   * again and deletes the object the other owner still holds.
   */
  method EmptyAssignmentFreesShared() returns (owner: SharedPtr<int>)
    ensures owner.obj != null && !owner.obj.live && owner.UseCount() == 0
  {
    var p := MakeShared(5);
    owner := new SharedPtr.FromShared(p);
    var empty := new SharedPtr<int>.Empty();
    p.CopyAssign(empty);
    assert p.Valid() && p.UseCount() == 1;
    p.Dispose();
  }

  /** The same release through the corrected assignment: the other owner keeps its object. */
  method EmptyAssignmentKeepsShared() returns (owner: SharedPtr<int>)
    ensures owner.obj != null && owner.obj.live && owner.UseCount() == 1
  {
    var p := MakeShared(5);
    owner := new SharedPtr.FromShared(p);
    var empty := new SharedPtr<int>.Empty();
    p.CopyAssignFixed(empty);
    assert !p.Valid() && p.obj == null;
    p.Dispose();
  }
}
