/** The static utility `makeLong` of AnimationAutomata: a (from, to) pair of
    Java `int` state identifiers packed into one Java `long` transition key.

    A Java `int` is modelled as its 32-bit two's-complement pattern (`Int32`)
    and a `long` as its 64-bit pattern (`Int64`). The key is only ever used as a
    HashMap key, so equality of bit patterns is all that matters; the sign
    extension that the `(long)` casts perform is written out in `SignExtend`. */
module Packing {

  /** A Java `int`, as its two's-complement bit pattern. */
  type Int32 = bv32

  /** A Java `long`, as its bit pattern. */
  type Int64 = bv64

  /** The Java widening cast `(long)x`: the sign bit is copied into the upper
      word. The masks of `makeLong` discard exactly the copied bits. */
  function SignExtend(x: Int32): (wide: bv64)
    ensures wide & 0xFFFF_FFFF == x as bv64
    ensures (wide << 32) & 0xFFFF_FFFF_0000_0000 == (x as bv64) << 32
  {
    if x & 0x8000_0000 == 0 then x as bv64 else (x as bv64) | 0xFFFF_FFFF_0000_0000
  }

  /** The low 32 bits of a key. */
  function LowWord(k: Int64): Int32
  {
    (k & 0xFFFF_FFFF) as bv32
  }

  /** The high 32 bits of a key. */
  function HighWord(k: Int64): Int32
  {
    (k >> 32) as bv32
  }

  lemma JoinHalves(low: Int32, high: Int32)
    ensures LowWord((low as bv64) | ((high as bv64) << 32)) == low
    ensures HighWord((low as bv64) | ((high as bv64) << 32)) == high
  {
  }

  /** `makeLong(low, high)`, with the casts, masks and shift of the Java code:
      `low` becomes the low word of the key and `high` the high word, whatever
      their signs. */
  function MakeLong(low: Int32, high: Int32): (key: Int64)
    ensures LowWord(key) == low && HighWord(key) == high
  {
    JoinHalves(low, high);
    (SignExtend(low) & 0xFFFF_FFFF) | ((SignExtend(high) << 32) & 0xFFFF_FFFF_0000_0000)
  }

  /** Two transitions share a key only if they are the same transition. */
  lemma MakeLongInjective(a: Int32, b: Int32, c: Int32, d: Int32)
    requires MakeLong(a, b) == MakeLong(c, d)
    ensures a == c && b == d
  {
  }

  /** The packing is order-sensitive: a transition and its reverse have different keys. */
  lemma MakeLongOrderSensitive(a: Int32, b: Int32)
    requires a != b
    ensures MakeLong(a, b) != MakeLong(b, a)
  {
  }

  /** Every 64-bit key is the key of exactly the transition its two words name,
      so the packing is a bijection onto the whole `long` range. */
  lemma MakeLongOnto(k: Int64)
    ensures MakeLong(LowWord(k), HighWord(k)) == k
  {
  }
}
