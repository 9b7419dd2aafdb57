/** Unsigned-integer arithmetic used by the Vulkan path of the texture node:
    the `aligned` round-up helper over 64-bit device sizes and the choice of
    a memory-type index from a 32-bit memory-type mask.

    The C++ operators `&`, `~`, `+` and `<<` on `uint64_t`/`uint32_t` are written
    out on natural numbers: `BitAnd` is bitwise and, `Complement64` is `~`, and
    wrap-around is an explicit `% Pow2(64)`. */
module VkMemory {

  /** 2 to the power k. */
  function Pow2(k: nat): (r: nat)
    ensures r > 0
  {
    if k == 0 then 1 else 2 * Pow2(k - 1)
  }

  lemma {:induction false} Pow2Add(a: nat, b: nat)
    ensures Pow2(a + b) == Pow2(a) * Pow2(b)
  {
    if a > 0 {
      Pow2Add(a - 1, b);
    }
  }

  /** The moduli of `uint32_t` and `uint64_t` arithmetic. */
  lemma Pow2Widths()
    ensures Pow2(32) == 0x1_0000_0000
    ensures Pow2(64) == 0x1_0000_0000_0000_0000
  {
    assert Pow2(8) == 256;
    Pow2Add(8, 8);
    Pow2Add(16, 16);
    Pow2Add(32, 32);
  }

  /** `uint32_t` */
  type Uint32 = x: nat | x < 0x1_0000_0000
  /** `VkDeviceSize`, a `uint64_t` */
  type DeviceSize = x: nat | x < 0x1_0000_0000_0000_0000

  /** Bitwise and of two naturals. The result has no bit that either operand lacks,
      so it is bounded by both. */
  function BitAnd(x: nat, y: nat): (r: nat)
    ensures r <= x && r <= y
    decreases x
  {
    if x == 0 || y == 0 then 0
    else 2 * BitAnd(x / 2, y / 2) + (x % 2) * (y % 2)
  }

  /** `~x` on a `uint64_t`. */
  function Complement64(x: DeviceSize): DeviceSize
  {
    0x1_0000_0000_0000_0000 - 1 - x
  }

  /** The source's `aligned(v, byteAlign)`: `(v + byteAlign - 1) & ~(byteAlign - 1)`
      with every operation on `VkDeviceSize`, so both subtractions and the
      addition wrap modulo 2^64. */
  function Aligned(v: DeviceSize, byteAlign: DeviceSize): DeviceSize
  {
    var sum: DeviceSize := (v + byteAlign + 0x1_0000_0000_0000_0000 - 1) % 0x1_0000_0000_0000_0000;
    var mask: DeviceSize := (byteAlign + 0x1_0000_0000_0000_0000 - 1) % 0x1_0000_0000_0000_0000;
    BitAnd(sum, Complement64(mask))
  }

  ghost predicate IsPowerOfTwo(a: nat)
  {
    exists k: nat :: k < 64 && Pow2(k) == a
  }

  /** Masking with all n low bits set keeps an n-bit number unchanged. */
  lemma {:induction false} BitAndLowOnes(x: nat, n: nat)
    requires x < Pow2(n)
    ensures BitAnd(x, Pow2(n) - 1) == x
  {
    if n > 0 && x > 0 {
      var m := Pow2(n) - 1;
      assert m == 2 * (Pow2(n - 1) - 1) + 1;
      assert m / 2 == Pow2(n - 1) - 1 && m % 2 == 1;
      BitAndLowOnes(x / 2, n - 1);
      assert BitAnd(x, m) == 2 * BitAnd(x / 2, m / 2) + x % 2;
    }
  }

  lemma MulAtLeast(p: nat, d: nat)
    requires p >= 1
    ensures p * d >= d
  {
    assert p * d == (p - 1) * d + d;
  }

  lemma MulMonotone(p: nat, q: nat, d: nat)
    requires p <= q
    ensures p * d <= q * d
  {
    assert q * d == p * d + (q - p) * d;
  }

  lemma MulTwice(q: nat, d: nat)
    ensures 2 * (q * d) == q * (2 * d)
  {
  }

  /** Euclidean division is determined by its quotient and remainder. */
  lemma DivUnique(x: nat, d: nat, q: nat, r: nat)
    requires r < d && x == q * d + r
    ensures x / d == q && x % d == r
  {
    var q', r' := x / d, x % d;
    assert x == q' * d + r';
    if q > q' {
      MulAtLeast(q - q', d);
    } else if q < q' {
      MulAtLeast(q' - q, d);
    }
  }

  lemma DivDiv(x: nat, b: nat)
    requires b > 0
    ensures (x / 2) / b == x / (2 * b)
  {
    var d := 2 * b;
    var q := x / d;
    var r := x % d;
    assert x == q * d + r;
    var t := q * b;
    assert q * d == 2 * t;
    var h := r / 2;
    assert h < b;
    assert x == 2 * (t + h) + r % 2;
    DivUnique(x, 2, t + h, r % 2);
    DivUnique(t + h, b, q, h);
  }

  /** Masking with bits k..n-1 set clears the k low bits of an n-bit number,
      i.e. rounds it down to a multiple of 2^k. */
  lemma {:induction false} BitAndClearsLowBits(x: nat, mask: nat, k: nat, n: nat)
    requires k <= n && x < Pow2(n)
    requires mask + Pow2(k) == Pow2(n)
    ensures BitAnd(x, mask) == (x / Pow2(k)) * Pow2(k)
  {
    if k == 0 {
      BitAndLowOnes(x, n);
    } else if k == n {
      DivUnique(x, Pow2(k), 0, x);
    } else if x > 0 {
      var low := Pow2(k - 1);
      assert Pow2(k) == 2 * low;
      assert Pow2(n) == 2 * Pow2(n - 1);
      var half := mask / 2;
      assert mask == 2 * half && half + low == Pow2(n - 1);
      assert mask % 2 == 0;
      assert x / 2 < Pow2(n - 1);
      BitAndClearsLowBits(x / 2, half, k - 1, n - 1);
      DivDiv(x, low);
      var quot := x / Pow2(k);
      assert BitAnd(x, mask) == 2 * BitAnd(x / 2, half);
      assert BitAnd(x / 2, half) == quot * low;
      MulTwice(quot, low);
    } else {
      DivUnique(x, Pow2(k), 0, 0);
    }
  }

  /** Without overflow, clearing the low bits of v + a - 1 gives (v + a - 1) / a * a. */
  lemma AlignedIsRoundedQuotient(v: DeviceSize, a: DeviceSize, k: nat)
    requires k < 64 && a == Pow2(k)
    requires v + a - 1 < 0x1_0000_0000_0000_0000
    ensures Aligned(v, a) == ((v + a - 1) / a) * a
  {
    Pow2Widths();
    var m := 0x1_0000_0000_0000_0000;
    DivUnique(v + a - 1 + m, m, 1, v + a - 1);
    DivUnique(a - 1 + m, m, 1, a - 1);
    BitAndClearsLowBits(v + a - 1, Complement64(a - 1), k, 64);
  }

  /** Rounding s down to a multiple of a loses less than a. */
  lemma RoundDownFacts(s: nat, a: nat)
    requires a > 0
    ensures (s / a) * a <= s < (s / a) * a + a
    ensures ((s / a) * a) % a == 0
  {
    var q := s / a;
    assert s == q * a + s % a;
    DivUnique(q * a, a, q, 0);
  }

  /** For a power-of-two alignment a and no overflow of v + a - 1, `aligned(v, a)`
      is a multiple of a, at least v and less than v + a. */
  lemma AlignedRoundsUp(v: DeviceSize, a: DeviceSize)
    requires IsPowerOfTwo(a)
    requires v + a - 1 < 0x1_0000_0000_0000_0000
    ensures Aligned(v, a) % a == 0
    ensures v <= Aligned(v, a) < v + a
  {
    var k: nat :| k < 64 && Pow2(k) == a;
    AlignedIsRoundedQuotient(v, a, k);
    RoundDownFacts(v + a - 1, a);
  }

  /** Rounding v + a - 1 down to a multiple of a gives the least multiple of a
      that is at least v. */
  lemma RoundUpIsLeast(v: nat, a: nat, m: nat)
    requires a > 0 && m % a == 0 && v <= m
    ensures ((v + a - 1) / a) * a <= m
  {
    var q := (v + a - 1) / a;
    RoundDownFacts(v + a - 1, a);
    var p := m / a;
    assert m == p * a + m % a;
    assert m == p * a;
    if p < q {
      MulMonotone(p, q - 1, a);
    } else {
      MulMonotone(q, p, a);
    }
  }

  /** ... and it is the least such multiple. */
  lemma AlignedIsLeast(v: DeviceSize, a: DeviceSize, m: nat)
    requires IsPowerOfTwo(a)
    requires v + a - 1 < 0x1_0000_0000_0000_0000
    requires m % a == 0 && v <= m
    ensures Aligned(v, a) <= m
  {
    var k: nat :| k < 64 && Pow2(k) == a;
    AlignedIsRoundedQuotient(v, a, k);
    RoundUpIsLeast(v, a, m);
  }

  /** The number of memory types a device reports is at most VK_MAX_MEMORY_TYPES (32). */
  type MemoryTypeCount = c: nat | c <= 32

  /** `(memoryTypeBits & (1 << i)) != 0`: memory type i is allowed by the mask. */
  predicate Allowed(memoryTypeBits: Uint32, i: nat)
  {
    BitAnd(memoryTypeBits, Pow2(i)) != 0
  }

  /** The index the memory-type loop of `buildTexture` leaves behind after
      scanning the types 0 .. count-1: the last allowed one, or 0 if none is. */
  function MemoryTypeIndex(memoryTypeBits: Uint32, count: MemoryTypeCount): nat
  {
    if count == 0 then 0
    else if Allowed(memoryTypeBits, count - 1) then count - 1
    else MemoryTypeIndex(memoryTypeBits, count - 1)
  }

  /** The chosen index is the HIGHEST allowed type below count; if no type is
      allowed it is 0. */
  lemma {:induction false} MemoryTypeIndexIsHighest(memoryTypeBits: Uint32, count: MemoryTypeCount)
    ensures var r := MemoryTypeIndex(memoryTypeBits, count);
      && ((exists i :: 0 <= i < count && Allowed(memoryTypeBits, i)) ==>
            r < count && Allowed(memoryTypeBits, r) &&
            forall j :: r < j < count ==> !Allowed(memoryTypeBits, j))
      && ((forall i :: 0 <= i < count ==> !Allowed(memoryTypeBits, i)) ==> r == 0)
  {
    if count > 0 && !Allowed(memoryTypeBits, count - 1) {
      MemoryTypeIndexIsHighest(memoryTypeBits, count - 1);
    }
  }

  /** The loop of `buildTexture` that picks `memIndex`: it never breaks, so each
      allowed type overwrites the previous choice, and the result is the index
      `MemoryTypeIndexIsHighest` describes. */
  method SelectMemoryType(memoryTypeBits: Uint32, memoryTypeCount: MemoryTypeCount) returns (memIndex: nat)
    ensures memIndex == MemoryTypeIndex(memoryTypeBits, memoryTypeCount)
  {
    memIndex := 0;
    var i := 0;
    while i < memoryTypeCount
      invariant i <= memoryTypeCount
      invariant memIndex == MemoryTypeIndex(memoryTypeBits, i)
    {
      if !Allowed(memoryTypeBits, i) {
        i := i + 1;
        continue;
      }
      memIndex := i;
      i := i + 1;
    }
  }

  /** The loop does not pick the first allowed type: with types 0 and 1 both
      allowed it picks 1. */
  lemma LastAllowedNotFirst()
    ensures Allowed(3, 0) && Allowed(3, 1)
    ensures MemoryTypeIndex(3, 2) == 1
  {
    assert BitAnd(3, 1) == 1;
    assert BitAnd(3, 2) == 2;
  }
}
