/** The carryless 32-bit interval arithmetic shared by the two halves of the range coder
    (the ENCODE, FLUSH, SEED, READ and DECODE macros of src/enet/compress.c). */
module RangeInterval {
  import opened Words

  const TOP := 0x100_0000
  const BOTTOM := 0x1_0000

  /** An interval [low, low + range) that a 32-bit register can hold. It may end exactly at 2^32,
      where low + range wraps to 0, but only while it is at most 2^24 long. */
  predicate Valid(low: int, range: int) {
    && 0 <= low && 0 < range && low + range <= WORD
    && (low + range == WORD ==> range <= TOP)
  }

  /** The test `(a ^ b) < TOP` of the code, on values below 2^32 (see XorComparesTopBytes). */
  predicate SameTopByte(a: int, b: int) {
    a / TOP == b / TOP
  }

  lemma XorComparesTopBytes(a: bv32, b: bv32)
    ensures (a ^ b) < 0x100_0000 <==> a / 0x100_0000 == b / 0x100_0000
  {
    assert a / 0x100_0000 == a >> 24 && b / 0x100_0000 == b >> 24;
  }

  lemma NegatedMaskIsRemainder(a: bv32)
    ensures (-a) & 0xFFFF == if a % 0x1_0000 == 0 then 0 else 0x1_0000 - a % 0x1_0000
  {
    assert a % 0x1_0000 == a & 0xFFFF;
  }

  /** The part of an interval that encoding one symbol keeps. */
  datatype Slot = Slot(under: int, count: int, total: int) {
    predicate Valid() {
      0 <= under && 0 < count && under + count <= total <= BOTTOM
    }
  }

  function NarrowLow(low: int, range: int, slot: Slot): int
    requires slot.Valid()
  {
    low + slot.under * (range / slot.total)
  }

  function NarrowRange(range: int, slot: Slot): int
    requires slot.Valid()
  {
    range / slot.total * slot.count
  }

  /** A slot's part of the interval lies inside the interval. */
  lemma NarrowNests(low: int, range: int, slot: Slot)
    requires Valid(low, range) && slot.Valid() && BOTTOM <= range
    ensures range / slot.total >= 1
    ensures low <= NarrowLow(low, range, slot)
    ensures NarrowLow(low, range, slot) + NarrowRange(range, slot) <= low + range
    ensures Valid(NarrowLow(low, range, slot), NarrowRange(range, slot))
  {
    var unit := range / slot.total;
    MulMonotone(slot.under + slot.count, slot.total, unit);
    MulMonotone(0, slot.under, unit);
    MulMonotone(1, slot.count, unit);
    assert slot.under * unit + slot.count * unit == (slot.under + slot.count) * unit;
    assert slot.total * unit <= range;
  }

  lemma MulMonotone(a: int, b: int, c: int)
    requires a <= b && 0 <= c
    ensures a * c <= b * c
  {
  }

  datatype Shifted = Shifted(low: int, range: int, emitted: seq<byte>)

  /** How far low still is from a multiple of 2^16; every shift brings it one byte closer. */
  function Misalignment(low: int): nat {
    if low % BOTTOM == 0 then 0 else if low % 256 == 0 then 1 else 2
  }

  /** The renormalising loop: shift out the settled top bytes, cutting the interval short at the
      next multiple of 2^16 when it is too small but still straddles a top-byte boundary. */
  function Normalize(low: int, range: int): (r: Shifted)
    requires Valid(low, range)
    ensures Valid(r.low, r.range) && BOTTOM <= r.range
    decreases Misalignment(low), WORD - range
  {
    if SameTopByte(low, (low + range) % WORD) then
      ShiftKeepsValid(low, range);
      ShiftOut(low, Normalize(low % TOP * 256, range * 256))
    else if BOTTOM <= range then
      Shifted(low, range, [])
    else
      CutKeepsValid(low, range);
      ShiftOut(low, Normalize(low % TOP * 256, -low % BOTTOM * 256))
  }

  function ShiftOut(low: int, rest: Shifted): Shifted
    requires 0 <= low < WORD
  {
    rest.(emitted := [low / TOP] + rest.emitted)
  }

  lemma QuotientIs(n: int, d: int, q: int, r: int)
    requires n == q * d + r && 0 <= r < d
    ensures n / d == q && n % d == r
  {
    var k := q - n / d;
    assert n % d - r == k * d;
    assert k >= 1 ==> k * d >= d;
    assert k <= -1 ==> k * d <= -d;
  }

  /** What dropping the top byte leaves of the lower ones. */
  lemma LowDigits(low: nat)
    ensures low % TOP % 256 == low % 256 && low % TOP % BOTTOM == low % BOTTOM
  {
    var rest := low % TOP;
    QuotientIs(low, BOTTOM, low / TOP * 256 + rest / BOTTOM, rest % BOTTOM);
    QuotientIs(low, 256, low / TOP * 0x1_0000 + rest / 256, rest % 256);
  }

  lemma ShiftedDigits(rest: nat)
    ensures rest * 256 % 256 == 0
    ensures rest * 256 % BOTTOM == rest % 256 * 256
    ensures rest * 256 % TOP == rest % BOTTOM * 256
  {
    QuotientIs(rest * 256, 256, rest, 0);
    QuotientIs(rest * 256, BOTTOM, rest / 256, rest % 256 * 256);
    QuotientIs(rest * 256, TOP, rest / BOTTOM, rest % BOTTOM * 256);
  }

  lemma DigitsOrdered(low: nat)
    ensures low % TOP == 0 ==> low % BOTTOM == 0
    ensures low % BOTTOM == 0 ==> low % 256 == 0
  {
    if low % TOP == 0 {
      QuotientIs(low, BOTTOM, low / TOP * 256, 0);
    }
    if low % BOTTOM == 0 {
      QuotientIs(low, 256, low / BOTTOM * 256, 0);
    }
  }

  /** Shifting out a byte brings low closer to a multiple of 2^16. */
  lemma ShiftRealigns(low: int)
    requires 0 <= low
    ensures Misalignment(low) > 0 ==> Misalignment(low % TOP * 256) < Misalignment(low)
    ensures Misalignment(low) == 0 ==> Misalignment(low % TOP * 256) == 0
  {
    var rest := low % TOP;
    LowDigits(low);
    ShiftedDigits(rest);
    DigitsOrdered(low);
  }

  /** Shifting is only done when the top byte is settled: no bit of the range is lost. */
  lemma ShiftKeepsValid(low: int, range: int)
    requires Valid(low, range) && SameTopByte(low, (low + range) % WORD)
    ensures low % TOP + range < TOP
    ensures Valid(low % TOP * 256, range * 256)
    ensures Misalignment(low) > 0 ==> Misalignment(low % TOP * 256) < Misalignment(low)
    ensures Misalignment(low) == 0 ==> Misalignment(low % TOP * 256) == 0
  {
    ShiftRealigns(low);
  }

  /** An interval that does not reach the next multiple of 2^16 has a settled top byte. */
  lemma ShortOfBoundary(low: int, range: int)
    requires 0 <= low && 0 <= range && low % BOTTOM + range < BOTTOM && low + range < WORD
    ensures SameTopByte(low, (low + range) % WORD)
  {
    assert (low + range) / BOTTOM == low / BOTTOM;
    assert low / TOP == low / BOTTOM / 256;
    assert (low + range) / TOP == (low + range) / BOTTOM / 256;
  }

  /** The cut never empties the interval, only shortens it, and lands on a 2^16 boundary. */
  lemma CutKeepsValid(low: int, range: int)
    requires Valid(low, range) && !SameTopByte(low, (low + range) % WORD) && range < BOTTOM
    ensures 0 < -low % BOTTOM <= range
    ensures low % TOP + -low % BOTTOM <= TOP
    ensures Valid(low % TOP * 256, -low % BOTTOM * 256)
    ensures Misalignment(low % TOP * 256) < Misalignment(low)
  {
    var part := low % BOTTOM;
    if part + range < BOTTOM && low + range < WORD {
      ShortOfBoundary(low, range);
      assert false;
    }
    assert 0 < part && BOTTOM <= part + range;
    NextBoundary(low);
    ShiftRealigns(low);
  }

  lemma NextBoundary(low: int)
    requires 0 <= low && low % BOTTOM > 0
    ensures -low % BOTTOM == BOTTOM - low % BOTTOM
    ensures low % TOP <= TOP - BOTTOM + low % BOTTOM
  {
    QuotientIs(-low, BOTTOM, -(low / BOTTOM) - 1, BOTTOM - low % BOTTOM);
    LowDigits(low);
  }
}
