/**
 * `BitFlags<T>` of `bit.hpp`: a flag set stored in the enum's underlying integer
 * `m_flags`, here a 32-bit vector. The enum overloads of `has` and `set` convert with
 * `to_underlying` and forward to the integer overloads.
 */
module Bits {
  import opened Utility

  type Underlying = bv32

  /** `m_flags & flags` converted to `bool`. */
  function HasBits(flags: Underlying, f: Underlying): bool
  {
    flags & f != 0
  }

  /** `m_flags | flags`. */
  function SetBits(flags: Underlying, f: Underlying): Underlying
  {
    flags | f
  }

  /** A flag that is set stays set after any `set`. */
  lemma SetNeverClears(flags: Underlying, f: Underlying, g: Underlying)
    ensures HasBits(flags, g) ==> HasBits(SetBits(flags, f), g)
  {
  }

  /** `SetNeverClears` for every flag at once. */
  lemma SetKeepsEveryFlag(flags: Underlying, f: Underlying)
    ensures forall g :: HasBits(flags, g) ==> HasBits(SetBits(flags, f), g)
  {
    forall g ensures HasBits(flags, g) ==> HasBits(SetBits(flags, f), g) {
      SetNeverClears(flags, f, g);
    }
  }

  /** After `set(f)` with `f != 0`, `has(f)` holds; `set` only adds bits. */
  lemma SetThenHas(flags: Underlying, f: Underlying)
    ensures f != 0 ==> HasBits(SetBits(flags, f), f)
    ensures SetBits(flags, f) & flags == flags
  {
  }

  /** Repeating `set(f)` changes nothing. */
  lemma SetIdempotent(flags: Underlying, f: Underlying)
    ensures SetBits(SetBits(flags, f), f) == SetBits(flags, f)
  {
  }

  /** `has` with zero is false for every flag set; `has` with all bits is false only for zero. */
  lemma HasEdgeCases(flags: Underlying)
    ensures !HasBits(flags, 0)
    ensures HasBits(flags, 0xFFFF_FFFF) <==> flags != 0
  {
  }

  class BitFlags {
    var flags: Underlying

    /** `BitFlags` has no constructor: `m_flags` starts with whatever value it is given. */
    constructor (initial: Underlying)
      ensures flags == initial
    {
      flags := initial;
    }

    /** `operator=(flags)`: replaces every flag. */
    method Assign(f: Underlying)
      modifies this
      ensures flags == f
      ensures forall g :: Has(g) <==> HasBits(f, g)
    {
      flags := f;
    }

    /** `operator==(flags)`: compares the raw value. */
    function Equals(f: Underlying): (b: bool)
      reads this
      ensures b <==> Value() == f
    {
      flags == f
    }

    /** `operator underlying_type()`. */
    function Value(): Underlying
      reads this
    {
      flags
    }

    /** `has(flags)`: some bit of `f` is set. */
    function Has(f: Underlying): (b: bool)
      reads this
      ensures b <==> HasBits(Value(), f)
    {
      flags & f != 0
    }

    /** `has(type)`: `has(to_underlying(flags))`. */
    function HasEnum(e: Enum<Underlying>): (b: bool)
      reads this
      ensures b <==> Has(ToUnderlying(e))
    {
      Has(ToUnderlying(e))
    }

    /** `set(flags)`: `m_flags |= flags`; no bit is cleared and every bit of `f` is set. */
    method Set(f: Underlying)
      modifies this
      ensures flags == SetBits(old(flags), f)
      ensures forall g :: old(Has(g)) ==> Has(g)
      ensures f != 0 ==> Has(f)
    {
      SetKeepsEveryFlag(flags, f);
      SetThenHas(flags, f);
      flags := SetBits(flags, f);
    }

    /** `set(type)`: `set(to_underlying(flags))`. */
    method SetEnum(e: Enum<Underlying>)
      modifies this
      ensures flags == SetBits(old(flags), ToUnderlying(e))
      ensures ToUnderlying(e) != 0 ==> HasEnum(e)
    {
      Set(ToUnderlying(e));
    }
  }
}
