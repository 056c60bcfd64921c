/**
 Facts about 32-bit host masks. They are kept apart from every other theory, one direction per lemma, so that each is
 decided by its bits alone; the lemmas that combine them hide what the predicates below stand for.
 */
module Bits {
  /** uint32(1)<<(32-bits) - 1: a shift by the whole width gives zero, so length 0 yields the full mask. */
  function HostMask(bits: bv8): bv32
    requires bits <= 32
  {
    ((1 as bv32) << (32 - bits)) - 1
  }

  /** Masks of the form 0...01...1. */
  predicate LowOnes(m: bv32) { m & (m + 1) == 0 }

  /** At least two host bits. */
  predicate Wide(m: bv32) { m & 3 == 3 }

  /** The network address of `p`. */
  function Network(m: bv32, p: bv32): bv32 { p & !m }

  /** `v` and `p` agree on every bit outside the host mask. */
  predicate SameBlock(m: bv32, p: bv32, v: bv32) { (v ^ p) & !m == 0 }

  predicate AllHostBitsSet(m: bv32, v: bv32) { v & m == m }

  predicate InRange(m: bv32, p: bv32, v: bv32) { p & !m <= v <= p | m }

  predicate StrictlyInRange(m: bv32, p: bv32, v: bv32) { p & !m < v < p | m }

  /** The mask is a run of low ones, for every prefix length from 0 to 32, and covers everything at length 0. */
  lemma MaskShape(bits: bv8)
    requires bits <= 32
    ensures LowOnes(HostMask(bits))
    ensures bits < 31 <==> Wide(HostMask(bits))
    ensures bits == 0 <==> HostMask(bits) == 0xFFFF_FFFF
  {
  }

  /** One bit less of prefix doubles the block. */
  lemma MaskDoubles(bits: bv8)
    requires 0 < bits <= 32
    ensures HostMask(32) == 0 && HostMask(bits - 1) == (HostMask(bits) << 1) + 1
  {
  }

  lemma EqualOutside(m: bv32, p: bv32, v: bv32)
    requires p & !m == v & !m
    ensures (v ^ p) & !m == 0
  {
  }

  lemma OutsideEqual(m: bv32, p: bv32, v: bv32)
    requires (v ^ p) & !m == 0
    ensures p & !m == v & !m
  {
  }

  /** The network address stands for its block. */
  lemma SameNetwork(m: bv32, p: bv32, v: bv32)
    ensures Network(m, p) == Network(m, v) <==> SameBlock(m, p, v)
  {
    if SameBlock(m, p, v) {
      OutsideEqual(m, p, v);
    } else if Network(m, p) == Network(m, v) {
      EqualOutside(m, p, v);
    }
  }

  lemma NetworkBounds(m: bv32, p: bv32)
    ensures (p & !m) & !m == p & !m && (p & !m) | m == p | m
  {
  }

  predicate Between(low: bv32, high: bv32, v: bv32) { low <= v <= high }

  predicate StrictlyBetween(low: bv32, high: bv32, v: bv32) { low < v < high }

  lemma RangeBounds(m: bv32, p: bv32, v: bv32)
    ensures InRange(m, p, v) == Between(p & !m, p | m, v)
    ensures StrictlyInRange(m, p, v) == StrictlyBetween(p & !m, p | m, v)
  {
  }

  lemma RangeOfNetwork(m: bv32, p: bv32, v: bv32)
    ensures InRange(m, Network(m, p), v) <==> InRange(m, p, v)
    ensures StrictlyInRange(m, Network(m, p), v) <==> StrictlyInRange(m, p, v)
  {
    hide InRange, StrictlyInRange, Between, StrictlyBetween;
    NetworkBounds(m, p);
    RangeBounds(m, p, v);
    RangeBounds(m, p & !m, v);
  }

  lemma NotBelow(m: bv32, p: bv32, v: bv32)
    requires m & (m + 1) == 0 && (v ^ p) & !m == 0
    ensures p & !m <= v
  {
  }

  lemma NotAbove(m: bv32, p: bv32, v: bv32)
    requires m & (m + 1) == 0 && (v ^ p) & !m == 0
    ensures v <= p | m
  {
  }

  lemma RangeInBlock(m: bv32, p: bv32, v: bv32)
    requires m & (m + 1) == 0 && p & !m <= v <= p | m
    ensures (v ^ p) & !m == 0
  {
  }

  lemma BlockIsRange(m: bv32, p: bv32, v: bv32)
    requires LowOnes(m)
    ensures SameBlock(m, p, v) <==> InRange(m, p, v)
  {
    if SameBlock(m, p, v) {
      NotBelow(m, p, v);
      NotAbove(m, p, v);
    } else if p & !m <= v <= p | m {
      RangeInBlock(m, p, v);
    }
  }

  lemma NoHostBits(m: bv32, p: bv32, v: bv32)
    requires (v ^ p) & !m == 0 && v & m == 0
    ensures v == p & !m
  {
  }

  lemma AboveLowest(m: bv32, p: bv32, v: bv32)
    requires m & (m + 1) == 0 && (v ^ p) & !m == 0 && v & m != 0
    ensures p & !m < v
  {
  }

  lemma BelowHighest(m: bv32, p: bv32, v: bv32)
    requires m & (m + 1) == 0 && (v ^ p) & !m == 0 && v & m != m
    ensures v < p | m
  {
  }

  lemma NotBroadcast(m: bv32, p: bv32, v: bv32)
    requires m & (m + 1) == 0 && (v ^ p) & !m == 0 && v < p | m
    ensures v & m != m
  {
  }

  lemma UsableInside(m: bv32, p: bv32, v: bv32)
    requires m & (m + 1) == 0 && (v ^ p) & !m == 0 && v != p & !m && v & m != m
    ensures p & !m < v < p | m
  {
    if v & m == 0 {
      NoHostBits(m, p, v);
    } else {
      AboveLowest(m, p, v);
      BelowHighest(m, p, v);
    }
  }

  lemma UsableIsStrict(m: bv32, p: bv32, v: bv32)
    requires LowOnes(m) && SameBlock(m, p, v)
    ensures v != Network(m, p) && !AllHostBitsSet(m, v) <==> StrictlyInRange(m, p, v)
  {
    if StrictlyInRange(m, p, v) {
      NotBroadcast(m, p, v);
    } else if v != Network(m, p) && !AllHostBitsSet(m, v) {
      UsableInside(m, p, v);
    }
  }

  /** A block is exactly the addresses from its lowest to its highest one. */
  lemma PrefixIsRange(bits: bv8, p: bv32, v: bv32)
    requires bits <= 32
    ensures SameBlock(HostMask(bits), p, v) <==> InRange(HostMask(bits), p, v)
  {
    hide *;
    MaskShape(bits);
    BlockIsRange(HostMask(bits), p, v);
  }

  lemma StrictIsRange(bits: bv8, p: bv32, v: bv32)
    requires bits <= 32 && StrictlyInRange(HostMask(bits), p, v)
    ensures InRange(HostMask(bits), p, v)
  {
    var m := HostMask(bits);
    hide *;
    RangeBounds(m, p, v);
    StrictIsBetween(p & !m, p | m, v);
  }

  lemma LessIsAtMost(a: bv32, b: bv32)
    requires a < b
    ensures a <= b
  {
  }

  lemma StrictIsBetween(low: bv32, high: bv32, v: bv32)
    requires StrictlyBetween(low, high, v)
    ensures Between(low, high, v)
  {
    LessIsAtMost(low, v);
    LessIsAtMost(v, high);
  }

  /** Within a block, being neither the network address nor the one with all host bits set is being strictly inside. */
  lemma UsableIsInterior(bits: bv8, p: bv32, v: bv32)
    requires bits <= 32 && SameBlock(HostMask(bits), p, v)
    ensures v != Network(HostMask(bits), p) && !AllHostBitsSet(HostMask(bits), v)
            <==> StrictlyInRange(HostMask(bits), p, v)
  {
    hide *;
    MaskShape(bits);
    UsableIsStrict(HostMask(bits), p, v);
  }

  /** The big-endian value of a 4-byte address. */
  function Value(a: bv8, b: bv8, c: bv8, d: bv8): bv32 {
    ((a as bv32) << 24) | ((b as bv32) << 16) | ((c as bv32) << 8) | (d as bv32)
  }

  /** In a network with at least two host bits the last byte of the network address can be incremented on its own. */
  lemma NetworkPlusOne(m: bv32, a: bv8, b: bv8, c: bv8, d: bv8)
    requires LowOnes(m) && Wide(m)
    requires Network(m, Value(a, b, c, d)) == Value(a, b, c, d)
    ensures Value(a, b, c, d + 1) == Value(a, b, c, d) + 1
  {
  }

  lemma PlusOneInside(m: bv32, v: bv32)
    requires LowOnes(m) && Wide(m) && Network(m, v) == v
    ensures SameBlock(m, v, v + 1)
    ensures !AllHostBitsSet(m, v + 1)
    ensures v + 1 != v
  {
  }

  /** The first host address of a network wider than /31: no carry, inside the block, neither of its ends. */
  lemma FirstHost(bits: bv8, a: bv8, b: bv8, c: bv8, d: bv8)
    requires bits < 31
    requires Network(HostMask(bits), Value(a, b, c, d)) == Value(a, b, c, d)
    ensures Value(a, b, c, d + 1) == Value(a, b, c, d) + 1
    ensures SameBlock(HostMask(bits), Value(a, b, c, d), Value(a, b, c, d + 1))
    ensures !AllHostBitsSet(HostMask(bits), Value(a, b, c, d + 1))
    ensures Value(a, b, c, d + 1) != Value(a, b, c, d)
  {
    hide *;
    MaskShape(bits);
    NetworkPlusOne(HostMask(bits), a, b, c, d);
    PlusOneInside(HostMask(bits), Value(a, b, c, d));
  }
}
