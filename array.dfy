/**
 * `Array<T, N>` of `array.hpp`: a fixed-size aggregate over `T m_data[N]`, with `N` the
 * length of `data`. Indexing outside `[0, N)` is undefined in the source and is
 * excluded by `requires`; `at` performs no bounds check either.
 */
module Arrays {
  import Algorithms

  datatype Array<T> = Array(data: seq<T>)
  {
    /** `size()`: the template argument `N`. */
    function Size(): nat
    {
      |data|
    }

    /** `empty()`: `begin() == end()`, that is `m_data == m_data + N`. */
    function Empty(): (b: bool)
      ensures b <==> Size() == 0
    {
      Begin() == End()
    }

    /** `begin()` as an offset into `m_data`. */
    function Begin(): nat
    {
      0
    }

    /** `end()`: `m_data + N`. */
    function End(): (e: nat)
      ensures e - Begin() == Size()
    {
      |data|
    }

    /** `operator[](i)`: `m_data[i]`. */
    function Index(i: nat): (x: T)
      requires i < Size()
      ensures x == data[i]
    {
      data[i]
    }

    /** `at(i)`: also `m_data[i]`, without a bounds check. */
    function At(i: nat): (x: T)
      requires i < Size()
      ensures x == Index(i)
    {
      data[i]
    }

    /** `front()`: `m_data[0]`. */
    function Front(): (x: T)
      requires Size() > 0
      ensures x == Index(0)
    {
      data[0]
    }

    /** `back()`: `m_data[N - 1]`. */
    function Back(): (x: T)
      requires Size() > 0
      ensures x == Index(Size() - 1)
    {
      data[|data| - 1]
    }
  }

  /** The deduction guide `Array(T, Ts...) -> Array<T, 1 + sizeof...(Ts)>` with aggregate initialisation. */
  function Deduce<T>(first: T, rest: seq<T>): (a: Array<T>)
    ensures a.Size() == 1 + |rest|
    ensures a.Front() == first && forall i :: 0 <= i < |rest| ==> a.Index(i + 1) == rest[i]
  {
    Array([first] + rest)
  }

  /**
   * `make_array(args...)`: `Array { args... }` through the deduction guide, so at least
   * one argument is needed; the result has `sizeof...(Ts)` elements.
   */
  function MakeArray<T>(args: seq<T>): (a: Array<T>)
    requires |args| > 0
    ensures a.Size() == |args|
    ensures forall i :: 0 <= i < |args| ==> a.Index(i) == args[i]
  {
    Deduce(args[0], args[1..])
  }

  /**
   * `to_array(array)` as written: `copy(&array[0], &array[N - 1], tmp.data())` fills
   * only the first `N - 1` elements of the default-initialised `tmp`; the last keeps
   * whatever `tmp` held, given here as `indeterminate`. A C array has `N >= 1`.
   */
  method ToArrayAsWritten<T>(src: array<T>, indeterminate: T) returns (r: Array<T>)
    requires src.Length >= 1
    ensures r.Size() == src.Length
    ensures r.data[..src.Length - 1] == src[..src.Length - 1]
    ensures r.Back() == indeterminate
  {
    var tmp := new T[src.Length](_ => indeterminate);
    var _ := Algorithms.Copy(src, 0, src.Length - 1, tmp, 0);
    r := Array(tmp[..]);
  }

  /** `to_array(array)` copying the whole range `[&array[0], &array[0] + N)`. */
  method ToArray<T>(src: array<T>, indeterminate: T) returns (r: Array<T>)
    requires src.Length >= 1
    ensures r.data == src[..]
    ensures forall i :: 0 <= i < src.Length ==> r.Index(i) == src[i]
  {
    var tmp := new T[src.Length](_ => indeterminate);
    var _ := Algorithms.Copy(src, 0, src.Length, tmp, 0);
    r := Array(tmp[..]);
  }

  /** `to_array` of `{1, 2, 3}` into a zero-filled `tmp` loses the 3. */
  method ToArrayDropsLast() returns (r: Array<int>)
    ensures r.data == [1, 2, 0]
  {
    var src := new int[3];
    src[0], src[1], src[2] := 1, 2, 3;
    r := ToArrayAsWritten(src, 0);
    assert r.data[..2] == [1, 2];
  }

  /** The corrected `to_array` of `{1, 2, 3}` gives `{1, 2, 3}`. */
  method ToArrayKeepsLast() returns (r: Array<int>)
    ensures r.data == [1, 2, 3]
  {
    var src := new int[3];
    src[0], src[1], src[2] := 1, 2, 3;
    r := ToArray(src, 0);
  }
}
