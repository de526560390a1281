/**
 * `distance` of `iterator.hpp`. Iterators are positions in one range, modelled as
 * integers; `difference_type` is signed and modelled as `int`.
 */
module Iterators {

  /** The iterator category tags and the base each one derives from. */
  datatype Category = Input | Output | Forward | Bidirectional | RandomAccess | Contiguous

  /** The tag derives from `random_access_iterator_tag`. */
  predicate IsRandomAccess(c: Category)
  {
    c == RandomAccess || c == Contiguous
  }

  /** The tag derives from `input_iterator_tag`: every tag except `output_iterator_tag`. */
  predicate IsInput(c: Category)
  {
    c != Output
  }

  /** Random-access tags are also input tags, as the tag hierarchy derives them. */
  lemma RandomAccessIsInput(c: Category)
    ensures IsRandomAccess(c) ==> IsInput(c)
    ensures IsInput(c) <==> c in {Input, Forward, Bidirectional, RandomAccess, Contiguous}
  {
  }

  /**
   * `detail::distance(first, last, input_iterator_tag)`: increments `first` and
   * `result` until `first == last`, so `last` must be reachable from `first`.
   */
  method DistanceInput(first: int, last: int) returns (result: int)
    requires first <= last
    ensures result == last - first
    ensures first == last ==> result == 0
  {
    result := 0;
    var it := first;
    while it != last
      invariant first <= it <= last
      invariant result == it - first
      decreases last - it
    {
      it, result := it + 1, result + 1;
    }
  }

  /** `detail::distance(first, last, random_access_iterator_tag)`: `last - first`. */
  function DistanceRandomAccess(first: int, last: int): (d: int)
    ensures first + d == last
    ensures d == 0 <==> first == last
  {
    last - first
  }

  /**
   * `distance(first, last)`: the random-access version for tags deriving from
   * `random_access_iterator_tag`, the input version for the other input tags; an
   * output iterator has no overload.
   */
  method Distance(first: int, last: int, c: Category) returns (d: int)
    requires IsInput(c)
    requires !IsRandomAccess(c) ==> first <= last
    ensures d == last - first
    ensures IsRandomAccess(c) ==> d == DistanceRandomAccess(first, last)
  {
    if IsRandomAccess(c) {
      d := DistanceRandomAccess(first, last);
    } else {
      d := DistanceInput(first, last);
    }
  }

  /** On a contiguous range both versions give the same count. */
  method DistanceVersionsAgree(first: int, last: int) returns (byStep: int, bySubtraction: int)
    requires first <= last
    ensures byStep == bySubtraction == last - first
  {
    byStep := DistanceInput(first, last);
    bySubtraction := Distance(first, last, Contiguous);
  }
}
