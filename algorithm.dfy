/**
 * The free functions of `algorithm.hpp`: `min`, `max`, `clamp`, `swap`, `copy`,
 * `copy_n` and the 64-bit FNV hash.
 *
 * `min`, `max` and `clamp` are modelled on integers. `copy` is always instantiated
 * with pointers, which are trivially copyable, so its `memcpy` branch is the one
 * modelled: an element-wise copy of `[first, last)` to `output`. The hash works on
 * `uint64_t`, modelled as a natural below 2^64 with the multiplication reduced
 * explicitly; its constants are the 64-bit offset basis and prime of section 2 of
 * draft-eastlake-fnv.
 */
module Algorithms {
  import opened Common

  /** `min(lhs, rhs)`: `lhs > rhs ? rhs : lhs`. */
  function Min(lhs: int, rhs: int): (m: int)
    ensures m <= lhs && m <= rhs && (m == lhs || m == rhs)
    ensures m == rhs <==> lhs >= rhs
  {
    if lhs > rhs then rhs else lhs
  }

  /** `max(lhs, rhs)`: `lhs < rhs ? rhs : lhs`. */
  function Max(lhs: int, rhs: int): (m: int)
    ensures m >= lhs && m >= rhs && (m == lhs || m == rhs)
    ensures m == rhs <==> lhs <= rhs
  {
    if lhs < rhs then rhs else lhs
  }

  /** `clamp(value, min, max)`: `min` below the range, `max` above it, `value` otherwise. */
  function Clamp(value: int, min: int, max: int): (r: int)
    ensures value < min ==> r == min
    ensures min <= value <= max ==> r == value
    ensures value > max && value >= min ==> r == max
  {
    if value < min then min
    else if value > max then max
    else value
  }

  /** With `min <= max`, `clamp` lands in the range and is `Max(min, Min(value, max))`. */
  lemma ClampInRange(value: int, min: int, max: int)
    requires min <= max
    ensures min <= Clamp(value, min, max) <= max
    ensures Clamp(value, min, max) == Max(min, Min(value, max))
  {
  }

  /** With `min > max`, a value above `max` but not below `min` comes back as `max`. */
  lemma ClampInvertedRange()
    ensures Clamp(5, 3, 1) == 1 && Clamp(2, 3, 1) == 3
  {
  }

  /** `swap(lhs, rhs)` through a temporary. */
  method Swap<T>(lhs: Ref<T>, rhs: Ref<T>)
    modifies lhs, rhs
    ensures lhs.value == old(rhs.value) && rhs.value == old(lhs.value)
  {
    var tmp := lhs.value;
    lhs.value := rhs.value;
    rhs.value := tmp;
  }

  /**
   * `copy(first, last, output)` with pointer arguments: `memcpy` of `last - first`
   * elements, returning `output + (last - first)`. Overlapping ranges are undefined for
   * `memcpy` and are excluded.
   */
  method Copy<T>(src: array<T>, first: nat, last: nat, dst: array<T>, output: nat) returns (end: nat)
    requires first <= last <= src.Length && output + (last - first) <= dst.Length
    requires src == dst ==> last <= output || output + (last - first) <= first
    modifies dst
    ensures end == output + (last - first)
    ensures dst[output..end] == old(src[first..last])
    ensures dst[..output] == old(dst[..output]) && dst[end..] == old(dst[end..])
  {
    forall k | 0 <= k < last - first {
      dst[output + k] := src[first + k];
    }
    end := output + (last - first);
    assert dst[output..end] == old(src[first..last]) by {
      forall k | 0 <= k < last - first
        ensures dst[output..end][k] == old(src[first..last])[k]
      {
      }
    }
  }

  /** `copy_n(input, count, output)`: `copy(input, input + count, output)`. */
  method CopyN<T>(src: array<T>, input: nat, count: nat, dst: array<T>, output: nat) returns (end: nat)
    requires input + count <= src.Length && output + count <= dst.Length
    requires src == dst ==> input + count <= output || output + count <= input
    modifies dst
    ensures end == output + count
    ensures dst[output..end] == old(src[input..input + count])
    ensures dst[..output] == old(dst[..output]) && dst[end..] == old(dst[end..])
  {
    end := Copy(src, input, input + count, dst, output);
  }

  /** An octet of the hashed data. */
  type Byte = b: nat | b < 0x100
  /** A `uint64_t`. */
  type U64 = w: nat | w < 0x1_0000_0000_0000_0000

  const FnvPrime: U64 := 0x100_0000_01B3
  const FnvOffsetBasis: U64 := 0xCBF2_9CE4_8422_2325

  /** Exclusive or of two octets. */
  function Xor8(a: Byte, b: Byte): Byte
  {
    ((a as bv8) ^ (b as bv8)) as Byte
  }

  /** `hash ^= byte`: only the low octet of `hash` changes. */
  function XorByte(hash: U64, b: Byte): (r: U64)
    ensures r / 0x100 == hash / 0x100
  {
    hash - hash % 0x100 + Xor8(hash % 0x100, b)
  }

  /** `hash *= FNV_prime` in `uint64_t`. */
  function MulPrime(hash: U64): U64
  {
    (hash * FnvPrime) % 0x1_0000_0000_0000_0000
  }

  /** The hash the loop computes: multiply, then xor, for each octet (the FNV-1 order). */
  function Fnv1(data: seq<Byte>): U64
    decreases |data|
  {
    if |data| == 0 then FnvOffsetBasis
    else XorByte(MulPrime(Fnv1(data[..|data| - 1])), data[|data| - 1])
  }

  /** FNV-1a as section 2 of draft-eastlake-fnv defines it: xor, then multiply. */
  function Fnv1a(data: seq<Byte>): U64
    decreases |data|
  {
    if |data| == 0 then FnvOffsetBasis
    else MulPrime(XorByte(Fnv1a(data[..|data| - 1]), data[|data| - 1]))
  }

  /** `fnv1a_hash(data, length)` as written. */
  method Fnv1aHash(data: seq<Byte>) returns (hash: U64)
    ensures hash == Fnv1(data)
    ensures |data| == 0 ==> hash == FnvOffsetBasis
  {
    hash := FnvOffsetBasis;
    var i := 0;
    while i < |data|
      invariant 0 <= i <= |data|
      invariant hash == Fnv1(data[..i])
    {
      hash := MulPrime(hash);
      hash := XorByte(hash, data[i]);
      i := i + 1;
      assert data[..i][..i - 1] == data[..i - 1];
    }
    assert data[..i] == data;
  }

  /**
   * On the one-octet input "a" the loop yields the FNV-1 value, not the FNV-1a test
   * vector 0xaf63dc4c8601ec8c of draft-eastlake-fnv.
   */
  lemma Fnv1aHashIsFnv1()
    ensures Fnv1([0x61]) == 0xaf63_bd4c_8601_b7be
    ensures Fnv1a([0x61]) == 0xaf63_dc4c_8601_ec8c
    ensures Fnv1([0x61]) != Fnv1a([0x61])
  {
    assert [0x61][..0] == [];
    assert MulPrime(FnvOffsetBasis) == 0xaf63_bd4c_8601_b7df;
    assert XorByte(FnvOffsetBasis, 0x61) == 0xcbf2_9ce4_8422_2344;
  }

  /** `fnv1a_hash` with the xor before the multiplication. */
  method Fnv1aHashFixed(data: seq<Byte>) returns (hash: U64)
    ensures hash == Fnv1a(data)
    ensures |data| == 0 ==> hash == FnvOffsetBasis
  {
    hash := FnvOffsetBasis;
    var i := 0;
    while i < |data|
      invariant 0 <= i <= |data|
      invariant hash == Fnv1a(data[..i])
    {
      hash := XorByte(hash, data[i]);
      hash := MulPrime(hash);
      i := i + 1;
      assert data[..i][..i - 1] == data[..i - 1];
    }
    assert data[..i] == data;
  }
}
