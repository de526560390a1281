/** The size computation of `Allocator::allocate_at_least` in `allocator.hpp`. */
module Allocators {

  /** `minimum_allocation`. */
  const MinimumAllocation: nat := 4

  /**
   * `allocate_at_least(size)`: `size += minimum_allocation - (minimum_allocation % size)`.
   * The modulo by zero makes `size == 0` undefined. The result always exceeds the
   * minimum allocation, and requests above it are granted exactly.
   */
  function AllocateAtLeast(n: nat): (size: nat)
    requires n >= 1
    ensures size >= n && size > MinimumAllocation
    ensures n > MinimumAllocation ==> size == n
  {
    n + (MinimumAllocation - MinimumAllocation % n)
  }

  /** The requests below the minimum: 1 to 5, 2 to 6, 3 to 6 and 4 to 8. */
  lemma SmallRequests()
    ensures AllocateAtLeast(1) == 5 && AllocateAtLeast(2) == 6
    ensures AllocateAtLeast(3) == 6 && AllocateAtLeast(4) == 8
  {
  }

  /** Requesting the granted size again grants it unchanged. */
  lemma {:induction false} AllocateAtLeastIdempotent(n: nat)
    requires n >= 1
    ensures AllocateAtLeast(AllocateAtLeast(n)) == AllocateAtLeast(n)
  {
  }
}
