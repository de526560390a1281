/**
 * `String` of `string.hpp`: a small-string-optimised string of `char`s, here bytes.
 *
 * The 24-byte union is modelled by its parts that the code reads back:
 *  - `bytes`, the union read as `small.m_data`, whose last byte is shared with the top
 *    byte of `typical.m_capacity` (the encoding the category bits rely on);
 *  - the other fields of `TypicalString` (`m_data`, `m_size`, the low seven bytes of
 *    `m_capacity`), kept apart from the first 23 bytes of the small view.
 * The category lives in bits 7 and 6 of the last byte. Heap text is a `Block`: a plain
 * `new value_type[]` for a Medium string, or a `SharedData` allocation, whose prologue
 * holds a reference count, for a Large one. `size_t` values are naturals
 * below 2^64 and wrap explicitly; bit operations are written as arithmetic on them.
 */
module Strings {
  import opened Common

  /** A `char`, read as its unsigned value. */
  type Byte = b: nat | b < 0x100
  /** A `size_t`. */
  type Word = w: nat | w < 0x1_0000_0000_0000_0000
  /** The lower seven bytes of a `size_t`. */
  type LowBytes = w: nat | w < 0x100_0000_0000_0000

  const WordModulus: nat := 0x1_0000_0000_0000_0000
  /** `1 << category_shift`: the weight of the top byte of a `size_t` (`category_shift` is 56). */
  const TopByteUnit: nat := 0x100_0000_0000_0000
  /** Bits 62 and 63 of a `size_t`: where the category bits land. */
  const Bit62: nat := 0x4000_0000_0000_0000
  const Bit63: nat := 0x8000_0000_0000_0000

  /** `sizeof(char)`. */
  const CharSize: nat := 1
  /** `typical_string_size`: three 8-byte fields. */
  const TypicalStringSize: nat := 24
  /** `last_byte` and `small_string_capacity` (one-byte characters). */
  const LastByte: nat := 23
  const SmallStringCapacity: Word := 23
  /** `category_extract_mask`: `Small | Medium | Large`, the top two bits of a byte. */
  const CategoryExtractMask: Byte := 0xC0

  /** A `size_t` result taken modulo 2^64. */
  function Wrap(x: int): Word
  {
    x % WordModulus
  }

  /** `b & category_extract_mask`. */
  function CategoryBits(b: Byte): (r: Byte)
    ensures r == 0x00 || r == 0x40 || r == 0x80 || r == 0xC0
    ensures b < 0x40 ==> r == 0
  {
    (b / 0x40) * 0x40
  }

  /** `enum Category`. */
  datatype Category = Small | Medium | Large

  /** The enumerator values: Small 0, Medium `1 << 7`, Large `1 << 6`. */
  function Bits(c: Category): (b: Byte)
    ensures CategoryBits(b) == b
    ensures CategoryOf(b) == Some(c)
  {
    match c
    case Small => 0x00
    case Medium => 0x80
    case Large => 0x40
  }

  /**
   * `static_cast<Category>(b & category_extract_mask)`; both category bits set is no
   * enumerator, and every `switch` on it falls through.
   */
  function CategoryOf(b: Byte): (r: Option<Category>)
    ensures r.None? <==> CategoryBits(b) == CategoryExtractMask
  {
    var bits := CategoryBits(b);
    if bits == 0x00 then Some(Small)
    else if bits == 0x80 then Some(Medium)
    else if bits == 0x40 then Some(Large)
    else None
  }

  /** `categorize_size` at run time. */
  function CategorizeSize(n: Word): (c: Category)
    ensures c == Small <==> n <= SmallStringCapacity
    ensures c == Large <==> n > 0xFF
  {
    if n <= 23 then Small
    else if n <= 255 then Medium
    else Large
  }

  /** The conversion of a `size_t` to `char`: its low byte. */
  function Truncate(w: Word): Byte
  {
    w % 0x100
  }

  /** `value_type(small_string_capacity - size)`: the last byte `set_size` writes. */
  function SmallLastByte(n: Word): Byte
  {
    Truncate(Wrap(SmallStringCapacity - n))
  }

  /**
   * `remaining_capacity()`: the last byte converted to `size_t`; `char` is signed,
   * so a byte of 0x80 or more sign-extends.
   */
  function RemainingCapacity(b: Byte): (r: Word)
    ensures b < 0x80 ==> r == b
  {
    if b < 0x80 then b else b + (WordModulus - 0x100)
  }

  /** `SmallString::size()`: capacity minus remaining capacity, wrapping. */
  function SmallSize(b: Byte): Word
  {
    Wrap(SmallStringCapacity - RemainingCapacity(b))
  }

  /** `set_size(n)` then `size()` gives back `n`, and the last byte has no category bits. */
  lemma SmallSizeRoundTrip(n: Word)
    requires n <= SmallStringCapacity
    ensures SmallLastByte(n) == SmallStringCapacity - n
    ensures SmallSize(SmallLastByte(n)) == n
    ensures CategoryOf(SmallLastByte(n)) == Some(Small)
  {
  }

  /**
   * `set_capacity(c, cat)`: `c | (cat << category_shift)`. Each category sets at most one
   * bit, 63 for Medium and 62 for Large, which the or adds unless `c` already has it.
   */
  function EncodeCapacity(c: Word, cat: Category): Word
  {
    match cat
    case Small => c
    case Medium => if (c / Bit63) % 2 == 1 then c else c + Bit63
    case Large => if (c / Bit62) % 2 == 1 then c else c + Bit62
  }

  /** `TypicalString::capacity()`: `m_capacity & capacity_extract_mask` clears bits 62 and 63. */
  function DecodeCapacity(w: Word): Word
  {
    w % Bit62
  }

  /** The top byte of a `size_t`, which is the union's last byte. */
  function TopByte(w: Word): Byte
  {
    w / TopByteUnit
  }

  /** A `size_t` from its top byte and its lower seven bytes. */
  function Assemble(top: Byte, low: LowBytes): Word
  {
    top * TopByteUnit + low
  }

  /** Splitting a word into its top byte and lower bytes and assembling it again is the identity. */
  lemma AssembleSplit(w: Word)
    ensures Assemble(TopByte(w), w % TopByteUnit) == w
  {
  }

  /**
   * A capacity without bits in the category positions survives `set_capacity`, and the
   * category can be read back from the top byte.
   */
  lemma CapacityRoundTrip(c: Word, cat: Category)
    requires c < Bit62
    ensures DecodeCapacity(EncodeCapacity(c, cat)) == c
    ensures CategoryOf(TopByte(EncodeCapacity(c, cat))) == Some(cat)
  {
  }

  /** The index of the first NUL. */
  function NulIndex(s: seq<Byte>): (i: nat)
    requires 0 in s
    ensures i < |s| && s[i] == 0
    ensures forall k :: 0 <= k < i ==> s[k] != 0
  {
    if s[0] == 0 then 0 else NulIndex(s[1..]) + 1
  }

  /** `char_traits::length`: counts the characters before the NUL in a `uint16_t`, which wraps. */
  method Length(s: seq<Byte>) returns (size: nat)
    requires 0 in s
    ensures size == NulIndex(s) % 0x1_0000
  {
    size := 0;
    var i := 0;
    while s[i] != 0
      invariant 0 <= i <= NulIndex(s)
      invariant size == i % 0x1_0000
      decreases NulIndex(s) - i
    {
      size := (size + 1) % 0x1_0000;
      i := i + 1;
    }
  }

  /**
   * `std::char_traits<char>::compare` on `count` characters, each read as
   * `unsigned char`: the sign of the first difference.
   */
  function Compare(s1: seq<Byte>, s2: seq<Byte>, count: nat): (r: int)
    requires count <= |s1| && count <= |s2|
    ensures -1 <= r <= 1
  {
    if count == 0 then 0
    else if s1[0] < s2[0] then -1
    else if s1[0] > s2[0] then 1
    else Compare(s1[1..], s2[1..], count - 1)
  }

  lemma {:induction false} CompareZeroIffEqual(s1: seq<Byte>, s2: seq<Byte>, count: nat)
    requires count <= |s1| && count <= |s2|
    ensures Compare(s1, s2, count) == 0 <==> s1[..count] == s2[..count]
    decreases count
  {
    if count > 0 && s1[0] == s2[0] {
      CompareZeroIffEqual(s1[1..], s2[1..], count - 1);
      assert s1[..count] == [s1[0]] + s1[1..][..count - 1];
      assert s2[..count] == [s2[0]] + s2[1..][..count - 1];
    } else if count > 0 {
      assert s1[..count][0] != s2[..count][0];
    }
  }

  /**
   * `operator==` as written: unequal sizes give false, otherwise the `int` of `compare`
   * converts to `bool`, which is true when the texts differ. The count passed to
   * `compare` is a `uint16_t`, so only the first `size() % 65536` bytes are compared.
   */
  function EqualsAsWritten(a: seq<Byte>, b: seq<Byte>): (r: bool)
    ensures r <==> |a| == |b| && a[..|a| % 0x1_0000] != b[..|a| % 0x1_0000]
  {
    if |a| != |b| then false
    else
      CompareZeroIffEqual(a, b, |a| % 0x1_0000);
      Compare(a, b, |a| % 0x1_0000) != 0
  }

  /** A string is not equal to itself under `operator==` as written. */
  lemma SelfInequality()
    ensures !EqualsAsWritten([0x61], [0x61])
  {
  }

  /**
   * Two different texts of 65536 bytes: the count wraps to 0, `compare` sees nothing,
   * and `operator==` as written calls them not equal only when the first 0 bytes differ,
   * which never happens, so it answers false.
   */
  lemma {:induction false} WrappedCountComparesNothing(a: seq<Byte>, b: seq<Byte>)
    requires |a| == |b| == 0x1_0000
    ensures !EqualsAsWritten(a, b)
  {
    assert a[..0] == b[..0];
  }

  /** `operator==` as evidently intended: equal sizes and `compare(...) == 0`. */
  function Equals(a: seq<Byte>, b: seq<Byte>): (r: bool)
    ensures r <==> a == b
  {
    if |a| != |b| then false
    else
      CompareZeroIffEqual(a, b, |a|);
      assert a[..|a|] == a && b[..|b|] == b;
      Compare(a, b, |a|) == 0
  }

  /** `uninitialized_copy_n(src, n, dst)`. */
  method CopyChars(src: seq<Byte>, n: nat, dst: array<Byte>)
    requires n <= |src| && n <= dst.Length
    modifies dst
    ensures dst[..n] == src[..n] && dst[n..] == old(dst[n..])
  {
    var k := 0;
    while k < n
      invariant 0 <= k <= n
      invariant dst[..k] == src[..k] && dst[n..] == old(dst[n..])
    {
      dst[k] := src[k];
      k := k + 1;
    }
  }

  /**
   * Heap text: `new value_type[n]` for a Medium string, or a `SharedData` allocation
   * (`shared`), whose prologue `m_refCount` starts at 1. `delete[]` clears `live`.
   */
  class Block {
    const chars: array<Byte>
    const shared: bool
    var refCount: Word
    var live: bool

    constructor (n: nat, shared: bool)
      ensures chars.Length == n && fresh(chars)
      ensures this.shared == shared && refCount == 1 && live
    {
      chars := new Byte[n](_ => 0);
      this.shared := shared;
      refCount := 1;
      live := true;
    }
  }

  /**
   * `SharedData::create(size)`: room for `size` characters and a NUL after the prologue;
   * the capacity it reports is `size`.
   */
  method CreateShared(size: Word) returns (block: Block, reported: Word)
    requires size < Bit62
    ensures fresh(block) && fresh(block.chars)
    ensures block.chars.Length == size + 1
    ensures block.shared && block.refCount == 1 && block.live
    ensures reported == size
  {
    var offset: nat := 8;
    var allocSize := offset + (size + 1) * CharSize;
    block := new Block(allocSize - offset, true);
    reported := (allocSize - offset) / CharSize - 1;
  }

  /**
   * The allocation of a Medium string: `new value_type[(size + 1) * char_size]`, and the
   * capacity `allocSize / char_size - 1` it is recorded with.
   */
  method NewText(size: Word) returns (block: Block, capacity: Word)
    requires size < Bit62
    ensures fresh(block) && fresh(block.chars)
    ensures block.chars.Length == size + 1
    ensures !block.shared && block.refCount == 1 && block.live
    ensures capacity == size
  {
    var allocSize := (size + 1) * CharSize;
    block := new Block(allocSize, false);
    capacity := allocSize / CharSize - 1;
  }

  /** `SharedData::increment_ref_count`: post-increment, returns the old count. */
  method IncrementRefCount(block: Block) returns (count: Word)
    modifies block
    ensures count == old(block.refCount) && block.refCount == Wrap(count + 1)
    ensures block.live == old(block.live)
  {
    count := block.refCount;
    block.refCount := Wrap(block.refCount + 1);
  }

  /**
   * `SharedData::decrement_ref_count`: post-decrement, and the block is deleted when the
   * returned (old) count is 0. A count going from 1 to 0 therefore frees nothing.
   */
  method DecrementRefCount(block: Block) returns (count: Word)
    modifies block
    ensures count == old(block.refCount) && block.refCount == Wrap(count - 1)
    ensures block.live <==> old(block.live) && count != 0
  {
    count := block.refCount;
    block.refCount := Wrap(block.refCount - 1);
    if count == 0 {
      block.live := false;
    }
  }

  class String {
    /** The union read as `small.m_data`; `bytes[23]` is also the top byte of `m_capacity`. */
    const bytes: array<Byte>
    /** `typical.m_data`. */
    var data: Block?
    /** `typical.m_size`. */
    var typicalSize: Word
    /** The low seven bytes of `typical.m_capacity`. */
    var capacityLow: LowBytes

    ghost predicate Valid()
      reads this
    {
      bytes.Length == TypicalStringSize
    }

    /** `category()`: the category bits of the last byte. */
    function Kind(): (r: Option<Category>)
      requires Valid()
      reads this, bytes
      ensures r.Some? ==> Bits(r.value) == CategoryBits(bytes[LastByte])
    {
      CategoryOf(bytes[LastByte])
    }

    /** `typical.m_capacity`, assembled from the last byte and the low bytes. */
    function CapacityWord(): Word
      requires Valid()
      reads this, bytes
    {
      Assemble(bytes[LastByte], capacityLow)
    }

    /** `typical.capacity()`. */
    function Capacity(): Word
      requires Valid()
      reads this, bytes
    {
      DecodeCapacity(CapacityWord())
    }

    /** `size()`; undefined when the category byte names no category. */
    function Size(): (n: Word)
      requires Valid() && Kind().Some?
      reads this, bytes
      ensures Kind() == Some(Small) ==> n == SmallSize(bytes[LastByte])
      ensures Kind() != Some(Small) ==> n == typicalSize
    {
      if Kind() == Some(Small) then SmallSize(bytes[LastByte]) else typicalSize
    }

    /** Everything `data()` can reach. */
    function Footprint(): (r: set<object>)
      reads this
      ensures this in r && bytes in r
    {
      {this, bytes} + if data == null then {} else {data.chars}
    }

    /** `data()` points at `size()` characters and a terminator. */
    ghost predicate Readable()
      reads this, bytes
    {
      Valid() && Kind().Some? &&
      if Kind() == Some(Small) then Size() < TypicalStringSize
      else data != null && (Size()) < data.chars.Length
    }

    /** The `size()` characters at `data()`. */
    function Contents(): (s: seq<Byte>)
      requires Readable()
      reads this, bytes, Footprint()
      ensures |s| == Size()
    {
      if Kind() == Some(Small) then bytes[..Size()] else data.chars[..Size()]
    }

    /** `data()[size()]`, the terminator. */
    function Terminator(): Byte
      requires Readable()
      reads this, bytes, Footprint()
    {
      if Kind() == Some(Small) then bytes[Size()] else data.chars[Size()]
    }

    /**
     * `operator==` as written: false for different sizes, otherwise true exactly when
     * the first `size() % 65536` bytes of the texts differ.
     */
    function EqualsOperator(rhs: String): (r: bool)
      requires Readable() && rhs.Readable()
      reads this, bytes, rhs, rhs.bytes, Footprint(), rhs.Footprint()
      ensures r <==> (Size() == rhs.Size() &&
                      Contents()[..Size() % 0x1_0000] != rhs.Contents()[..Size() % 0x1_0000])
    {
      if Size() != rhs.Size() then false
      else EqualsAsWritten(Contents(), rhs.Contents())
    }

    /**
     * `String() = default`: the union is zero bytes, which reads as a Small string whose
     * remaining capacity is 0, so `size()` is 23 and the text is 23 NULs.
     */
    constructor Default()
      ensures Valid() && Readable() && Kind() == Some(Small)
      ensures Size() == 23 && Contents() == seq(23, _ => 0)
    {
      bytes := new Byte[TypicalStringSize](_ => 0);
      data := null;
      typicalSize := 0;
      capacityLow := 0;
    }

    /** A default string whose last byte holds the full remaining capacity: the empty string. */
    constructor Empty()
      ensures Valid() && Readable() && Kind() == Some(Small)
      ensures Size() == 0 && Contents() == [] && Terminator() == 0
    {
      bytes := new Byte[TypicalStringSize](k => if k == LastByte then SmallLastByte(0) else 0);
      data := null;
      typicalSize := 0;
      capacityLow := 0;
      new;
      SmallSizeRoundTrip(0);
    }

    /** `small.set_size(n)`: the remaining capacity in the last byte, a NUL at `n`. */
    method SetSmallSize(n: Word)
      requires Valid() && n <= SmallStringCapacity
      modifies bytes
      ensures Valid() && Kind() == Some(Small) && Size() == n
      ensures bytes[LastByte] == SmallLastByte(n) && bytes[n] == 0
      ensures forall k :: 0 <= k < LastByte && k != n ==> bytes[k] == old(bytes[k])
    {
      bytes[LastByte] := SmallLastByte(n);
      bytes[n] := 0;
      SmallSizeRoundTrip(n);
    }

    /** `typical.set_capacity(c, cat)`. */
    method SetCapacity(c: Word, cat: Category)
      requires Valid()
      modifies this, bytes
      ensures Valid() && CapacityWord() == EncodeCapacity(c, cat)
      ensures data == old(data) && typicalSize == old(typicalSize)
      ensures bytes[..LastByte] == old(bytes[..LastByte])
      ensures c < Bit62 ==> Kind() == Some(cat) && Capacity() == c
    {
      var w := EncodeCapacity(c, cat);
      bytes[LastByte] := TopByte(w);
      capacityLow := w % TopByteUnit;
      AssembleSplit(w);
      if c < Bit62 {
        CapacityRoundTrip(c, cat);
      }
    }

    /**
     * `assign(src, n)`: the category chosen by `categorize_size(n)`, the first `n`
     * characters of `src` followed by a NUL, and for Medium and Large a fresh heap block
     * whose capacity is `n`.
     */
    method Assign(src: seq<Byte>, n: Word)
      requires Valid() && n <= |src| && n < Bit62
      modifies this, bytes
      ensures Readable() && Kind() == Some(CategorizeSize(n))
      ensures Size() == n && Contents() == src[..n] && Terminator() == 0
      ensures CategorizeSize(n) == Small ==>
        data == old(data) && typicalSize == old(typicalSize) && capacityLow == old(capacityLow)
      ensures CategorizeSize(n) != Small ==>
        fresh(data) && data.live && data.refCount == 1 && Capacity() == n &&
        (data.shared <==> CategorizeSize(n) == Large)
    {
      var cat := CategorizeSize(n);
      if cat == Small {
        AssignSmall(src, n);
      } else if cat == Medium {
        AssignMedium(src, n);
      } else {
        AssignLarge(src, n);
      }
    }

    /** The Small branch of `assign(src, n)`: the text in place, then `set_size(n)`. */
    method AssignSmall(src: seq<Byte>, n: Word)
      requires Valid() && n <= |src| && n <= SmallStringCapacity
      modifies bytes
      ensures Readable() && Kind() == Some(Small)
      ensures Size() == n && Contents() == src[..n] && Terminator() == 0
    {
      CopyChars(src, n, bytes);
      SetSmallSize(n);
      assert bytes[..n] == src[..n];
    }

    /** The Medium branch: `new value_type[n + 1]`, the text, `m_size`, the capacity, a NUL. */
    method AssignMedium(src: seq<Byte>, n: Word)
      requires Valid() && n <= |src| && n < Bit62
      modifies this, bytes
      ensures Readable() && Kind() == Some(Medium)
      ensures Size() == n && Contents() == src[..n] && Terminator() == 0
      ensures fresh(data) && data.live && !data.shared && data.refCount == 1 && Capacity() == n
    {
      var block, capacity := NewText(n);
      CopyChars(src, n, block.chars);
      data := block;
      typicalSize := n;
      SetCapacity(capacity, Medium);
      block.chars[n] := 0;
      assert block.chars[..n] == src[..n];
    }

    /** The Large branch: `SharedData::create(n)`, the text, `m_size`, the capacity, a NUL. */
    method AssignLarge(src: seq<Byte>, n: Word)
      requires Valid() && n <= |src| && n < Bit62
      modifies this, bytes
      ensures Readable() && Kind() == Some(Large)
      ensures Size() == n && Contents() == src[..n] && Terminator() == 0
      ensures fresh(data) && data.live && data.shared && data.refCount == 1 && Capacity() == n
    {
      var block, reported := CreateShared(n);
      CopyChars(src, n, block.chars);
      typicalSize := n;
      SetCapacity(reported, Large);
      data := block;
      block.chars[n] := 0;
      assert block.chars[..n] == src[..n];
    }

    /** `String(const_pointer)`: the length counted by `char_traits::length`, then `assign`. */
    constructor FromCString(src: seq<Byte>)
      requires 0 in src
      ensures Readable() && Size() == NulIndex(src) % 0x1_0000
      ensures Contents() == src[..Size()] && Terminator() == 0
    {
      bytes := new Byte[TypicalStringSize](_ => 0);
      data := null;
      typicalSize := 0;
      capacityLow := 0;
      new;
      var n := Length(src);
      Assign(src, n);
    }

    /** `String(const_pointer, size)`: `assign(nullptr)` does nothing, then `assign(src, size)`. */
    constructor FromBuffer(src: seq<Byte>, size: Word)
      requires size <= |src| && size < Bit62
      ensures Readable() && Kind() == Some(CategorizeSize(size))
      ensures Size() == size && Contents() == src[..size] && Terminator() == 0
    {
      bytes := new Byte[TypicalStringSize](_ => 0);
      data := null;
      typicalSize := 0;
      capacityLow := 0;
      new;
      Assign(src, size);
    }

    /**
     * `destruct()`: nothing for Small, `delete[]` for Medium, and for Large the
     * `SharedData` count decremented, deleting only when the old count was 0.
     */
    method Destruct()
      requires Valid() && Kind().Some? && (Kind() != Some(Small) ==> data != null)
      modifies data
      ensures Kind() == Some(Medium) ==> !data.live
      ensures Kind() == Some(Large) ==>
        data.refCount == Wrap(old(data.refCount) - 1) &&
        (data.live <==> old(data.live) && old(data.refCount) != 0)
      ensures Kind() == Some(Small) && data != null ==> unchanged(data)
    {
      var k := Kind();
      if k == Some(Medium) {
        data.live := false;
      } else if k == Some(Large) {
        var _ := DecrementRefCount(data);
      }
    }

    /**
     * `assign(const String&)`: Small and Medium sources are copied through
     * `assign(data, size)`; a Large source's fields are copied, so both strings share
     * the block and its count is not incremented.
     */
    method AssignString(src: String)
      requires Valid() && src.Readable() && src.Size() < Bit62
      modifies this, bytes
      ensures Readable()
      ensures old(src.Kind()) != Some(Large) ==> Kind() == Some(CategorizeSize(old(src.Size())))
      ensures old(src.Kind()) != Some(Large) && CategorizeSize(old(src.Size())) != Small ==>
        fresh(data) && data.live && data.refCount == 1
      ensures Size() == old(src.Size()) && Contents() == old(src.Contents())
      ensures old(src.Kind()) != Some(Large) ==> Terminator() == 0
      ensures old(src.Kind()) == Some(Large) ==>
        Kind() == Some(Large) && data == old(src.data) && CapacityWord() == old(src.CapacityWord()) &&
        data.refCount == old(src.data.refCount) && data.live == old(src.data.live)
    {
      var k := src.Kind();
      if k == Some(Large) {
        var d, n, last, low := src.data, src.typicalSize, src.bytes[LastByte], src.capacityLow;
        data := d;
        typicalSize := n;
        bytes[LastByte] := last;
        capacityLow := low;
      } else {
        var text, n := src.Contents(), src.Size();
        Assign(text, n);
        assert text[..n] == text;
      }
    }

    /**
     * `assign(String&&)`: `swap` of the small view, all 24 bytes, when the source is
     * Small, and of the typical fields otherwise; the source keeps this string's old parts.
     */
    method AssignMove(src: String)
      requires Valid() && src.Readable()
      modifies this, bytes, src, src.bytes
      ensures Readable() && Kind() == old(src.Kind())
      ensures Size() == old(src.Size()) && Contents() == old(src.Contents())
      ensures old(src.Kind()) == Some(Small) ==> src.bytes[..] == old(bytes[..])
      ensures old(src.Kind()) != Some(Small) ==>
        src.data == old(data) && src.typicalSize == old(typicalSize) &&
        src.CapacityWord() == old(CapacityWord())
    {
      if src.Kind() == Some(Small) {
        var mine, theirs := bytes[..], src.bytes[..];
        forall k | 0 <= k < TypicalStringSize {
          bytes[k] := theirs[k];
        }
        forall k | 0 <= k < TypicalStringSize {
          src.bytes[k] := mine[k];
        }
        assert bytes[..] == theirs;
      } else {
        var d, n, top, low := data, typicalSize, bytes[LastByte], capacityLow;
        data, typicalSize, capacityLow := src.data, src.typicalSize, src.capacityLow;
        bytes[LastByte] := src.bytes[LastByte];
        src.data, src.typicalSize, src.capacityLow := d, n, low;
        src.bytes[LastByte] := top;
      }
    }

    /** `operator=(const String&)`: `destruct()`, then `assign(rhs)`. */
    method CopyAssign(rhs: String)
      requires Valid() && Kind().Some? && (Kind() != Some(Small) ==> data != null)
      requires rhs.Readable() && rhs.Size() < Bit62
      modifies this, bytes, data
      ensures Readable() && Size() == old(rhs.Size()) && Contents() == old(rhs.Contents())
      ensures old(rhs.Kind()) != Some(Large) ==>
        Kind() == Some(CategorizeSize(old(rhs.Size()))) && Terminator() == 0
      ensures old(rhs.Kind()) != Some(Large) && CategorizeSize(old(rhs.Size())) != Small ==>
        fresh(data) && data.live && data.refCount == 1
      ensures old(rhs.Kind()) == Some(Large) ==>
        Kind() == Some(Large) && data == old(rhs.data) && CapacityWord() == old(rhs.CapacityWord())
      ensures old(Kind()) == Some(Medium) ==> !old(data).live
      ensures old(Kind()) == Some(Large) ==>
        old(data).refCount == Wrap(old(data.refCount) - 1) &&
        (old(data).live <==> old(data.live) && old(data.refCount) != 0)
    {
      Destruct();
      AssignString(rhs);
    }
  }
}
