/**
 * `functional.hpp`: the type-erased `Function<R(Args...)>` and the range helpers
 * `for_each` and `find_if`.
 *
 * `Function` keeps its callable either in its own `m_stackBuffer` (placement `new`) or
 * on the heap (`new`), chosen by the callable's alignment; `cleanup` compares the stored
 * pointer with the buffer's address to decide between an in-place destructor call and
 * `delete`. A block of memory is a `Storage` object, so "same address" is object identity
 * and a heap allocation is a fresh one. `Args...` is modelled as one argument of type `A`.
 */
module Functional {
  import opened Common

  /** `alignof(std::max_align_t)` on the usual 64-bit targets. */
  const MaxAlign: nat := 16

  /** A block of memory that a callable wrapper can be constructed in. */
  class Storage {
    constructor ()
    {
    }
  }

  /** `Callable<T>`, the `ICallable` wrapper around a callable of alignment `alignment`. */
  class Wrapper<A, R> {
    const target: A -> R
    const alignment: nat
    const address: Storage
    var live: bool
    var deleted: bool

    constructor (target: A -> R, alignment: nat, address: Storage)
      ensures this.target == target && this.alignment == alignment && this.address == address
      ensures live && !deleted
    {
      this.target := target;
      this.alignment := alignment;
      this.address := address;
      live := true;
      deleted := false;
    }
  }

  /** Whether a callable of this alignment goes into the inline buffer. */
  predicate FitsInline(alignment: nat)
  {
    alignment <= MaxAlign
  }

  class Function<A, R> {
    const stackBuffer: Storage
    var callable: Wrapper?<A, R>

    /**
     * A set `m_callable` is a live wrapper constructed in the inline buffer exactly when
     * its alignment fits, and never freed.
     */
    ghost predicate Valid()
      reads this, callable
    {
      callable != null ==>
        callable.live && !callable.deleted &&
        (callable.address == stackBuffer <==> FitsInline(callable.alignment))
    }

    /** `Function() = default`: `m_callable` is null. */
    constructor ()
      ensures Valid() && callable == null && !IsSet()
    {
      stackBuffer := new Storage();
      callable := null;
    }

    /** `Function(callable)`: `assign(callable)` on an empty function. */
    constructor FromCallable(target: A -> R, alignment: nat)
      ensures Valid() && IsSet() && fresh(callable)
      ensures callable.target == target && callable.alignment == alignment
      ensures callable.address == stackBuffer <==> FitsInline(alignment)
    {
      stackBuffer := new Storage();
      callable := null;
      new;
      Assign(target, alignment);
    }

    /** `operator bool()`: `m_callable != nullptr`. */
    function IsSet(): (b: bool)
      reads this
      ensures b <==> callable != null
    {
      callable != null
    }

    /**
     * `cleanup()`: an inline wrapper is destroyed in place and its storage kept; a heap
     * wrapper is destroyed and freed. `m_callable` itself is not reset.
     */
    method Cleanup()
      requires Valid()
      modifies callable
      ensures callable == old(callable)
      ensures callable != null ==> !callable.live
      ensures callable != null ==> (callable.deleted <==> !FitsInline(callable.alignment))
    {
      if callable != null {
        if callable.address == stackBuffer {
          callable.live := false;
        } else {
          callable.live := false;
          callable.deleted := true;
        }
      }
    }

    /**
     * `assign(callable)` and `operator=(callable)`: `cleanup()`, then a wrapper in the
     * inline buffer when `alignof` the callable is at most `alignof(std::max_align_t)`,
     * otherwise a wrapper on the heap.
     */
    method Assign(target: A -> R, alignment: nat)
      requires Valid()
      modifies this, callable
      ensures Valid() && IsSet() && fresh(callable)
      ensures callable.target == target && callable.alignment == alignment
      ensures callable.address == stackBuffer <==> FitsInline(alignment)
      ensures old(callable) != null ==> !old(callable).live
      ensures old(callable) != null ==>
        (old(callable).deleted <==> !FitsInline(old(callable).alignment))
    {
      Cleanup();
      if alignment <= MaxAlign {
        callable := new Wrapper(target, alignment, stackBuffer);
      } else {
        var block := new Storage();
        callable := new Wrapper(target, alignment, block);
      }
    }

    /** `~Function()`: `cleanup()`. */
    method Destruct()
      requires Valid()
      modifies callable
      ensures callable == old(callable)
      ensures callable != null ==> !callable.live
      ensures callable != null ==> (callable.deleted <==> !FitsInline(callable.alignment))
    {
      Cleanup();
    }

    /** `operator()(args)`: `m_callable->call(args)`, which calls the stored callable. */
    method Call(arg: A) returns (r: R)
      requires Valid() && IsSet()
      ensures r == callable.target(arg)
    {
      r := callable.target(arg);
    }
  }

  /** A function assigned twice frees the first heap wrapper and then holds an inline one. */
  method ReassignScenario() returns (f: Function<int, int>, first: Wrapper<int, int>)
    ensures f.Valid() && f.IsSet() && f.callable.address == f.stackBuffer
    ensures !first.live && first.deleted && first.address != f.stackBuffer
  {
    f := new Function.FromCallable(x => x + 1, 32);
    first := f.callable;
    f.Assign(x => x * 2, 8);
  }

  /**
   * `for_each(range, predicate)`: calls `predicate` on each item in order. The calls'
   * observable effect is modelled as the sequence of results they produce.
   */
  method ForEach<T, E>(range: seq<T>, pred: T -> E) returns (calls: seq<E>)
    ensures |calls| == |range|
    ensures forall i :: 0 <= i < |range| ==> calls[i] == pred(range[i])
  {
    calls := [];
    var k := 0;
    while k < |range|
      invariant 0 <= k <= |range|
      invariant |calls| == k
      invariant forall i :: 0 <= i < k ==> calls[i] == pred(range[i])
    {
      calls := calls + [pred(range[k])];
      k := k + 1;
    }
  }

  /**
   * `find_if(range, predicate)`: the position of the first item satisfying `predicate`,
   * or `None` for the null pointer when no item does.
   */
  method FindIf<T>(range: seq<T>, pred: T -> bool) returns (r: Option<nat>)
    ensures r.None? <==> forall i :: 0 <= i < |range| ==> !pred(range[i])
    ensures r.Some? ==> r.value < |range| && pred(range[r.value])
    ensures r.Some? ==> forall i :: 0 <= i < r.value ==> !pred(range[i])
  {
    var k := 0;
    while k < |range|
      invariant 0 <= k <= |range|
      invariant forall i :: 0 <= i < k ==> !pred(range[i])
    {
      if pred(range[k]) {
        return Some(k);
      }
      k := k + 1;
    }
    return None;
  }
}
