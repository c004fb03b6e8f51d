/** Shared by the whole model: an optional value, C integer widths, floor scaling, division facts. */
module Arith {

  datatype Option<T> = None | Some(value: T)

  function Min(a: int, b: int): int { if a <= b then a else b }

  function Max(a: int, b: int): int { if a >= b then a else b }

  // Conversions that keep the low bits, as C does when it stores into u32 and u16.
  function U32(x: int): int { x % 0x1_0000_0000 }

  function U16(x: int): int { x % 0x1_0000 }

  // SCHED_CAPACITY_SCALE == 1 << SCHED_CAPACITY_SHIFT
  const CAPACITY_SCALE := 1024

  // (delta * scale) >> SCHED_CAPACITY_SHIFT
  function Scale(delta: int, scale: int): int { delta * scale / CAPACITY_SCALE }

  lemma MulSign(k: int, d: int)
    requires d > 0
    ensures k >= 1 ==> k * d >= d
    ensures k <= -1 ==> k * d <= -d
  {
  }

  lemma DivUnique(x: int, d: int, q: int)
    requires d > 0 && q * d <= x < q * d + d
    ensures x / d == q
  {
    var r := x / d;
    DivBounds(x, d);
    assert (r - q) * d == r * d - q * d;
    MulSign(r - q, d);
  }

  lemma DivBounds(x: int, d: int)
    requires d > 0
    ensures (x / d) * d <= x < (x / d) * d + d
  {
  }

  lemma DivMonotone(x: int, y: int, d: int)
    requires d > 0 && x <= y
    ensures x / d <= y / d
  {
    var q, r := x / d, y / d;
    DivBounds(x, d);
    DivBounds(y, d);
    assert (q - r) * d == q * d - r * d;
    MulSign(q - r, d);
  }

  /** How many whole units of size d fit into x. */
  function Whole(x: int, d: int): (n: nat)
    requires 0 <= x && 0 < d
    ensures n * d <= x < n * d + d
  {
    x / d
  }

  lemma MulMonotone(a: int, b: int, k: int)
    requires a <= b && 0 <= k
    ensures a * k <= b * k
  {
  }

  lemma ScaleIdentity(d: int)
    ensures Scale(d, CAPACITY_SCALE) == d
  {
  }

  lemma ScaleBound(d: int, s: int)
    requires 0 <= d && 0 <= s <= CAPACITY_SCALE
    ensures 0 <= Scale(d, s) <= d
  {
    assert 0 <= d * s <= d * CAPACITY_SCALE;
  }

  /** Scaling is the exact product over 1024, cut down to a whole number. */
  lemma ScaleFloor(d: int, s: int)
    requires 0 <= d && 0 <= s
    ensures Scale(d, s) * 1024 <= d * s < Scale(d, s) * 1024 + 1024
  {
    DivBounds(d * s, CAPACITY_SCALE);
  }

  /** A store into a narrow unsigned field keeps exactly the low bits. */
  lemma LowBits(x: int)
    ensures 0 <= U32(x) < 0x1_0000_0000 && exists k :: x == U32(x) + k * 0x1_0000_0000
    ensures 0 <= U16(x) < 0x1_0000 && exists k :: x == U16(x) + k * 0x1_0000
  {
    assert x == U32(x) + (x / 0x1_0000_0000) * 0x1_0000_0000;
    assert x == U16(x) + (x / 0x1_0000) * 0x1_0000;
  }

  lemma ScaleZero(s: int)
    ensures Scale(0, s) == 0
  {
  }

  /** Cutting a span in two loses at most one unit. */
  lemma ScaleSplit(a: int, b: int, s: int)
    requires 0 <= a && 0 <= b && 0 <= s
    ensures Scale(a, s) + Scale(b, s) <= Scale(a + b, s) <= Scale(a, s) + Scale(b, s) + 1
  {
    assert (a + b) * s == a * s + b * s;
  }
}
