/** The emitted bytes as a number: what the decoder's 32-bit window on them can tell. */
module CodeStream {
  import opened Words
  import opened RangeInterval

  /** Past its end a stream reads as zeros, as the decoder's guarded reads do. */
  function At(s: seq<byte>, i: nat): byte {
    if i < |s| then s[i] else 0
  }

  /** The value of decodeCode once k bytes have been shifted out of it. */
  function Window(s: seq<byte>, k: nat): (w: int)
    ensures 0 <= w < WORD
  {
    At(s, k) * TOP + At(s, k + 1) * BOTTOM + At(s, k + 2) * 256 + At(s, k + 3)
  }

  lemma WindowSlides(s: seq<byte>, k: nat)
    ensures Window(s, k) / TOP == At(s, k)
    ensures Window(s, k + 1) == Window(s, k) % TOP * 256 + At(s, k + 4)
  {
    var rest := At(s, k + 1) * BOTTOM + At(s, k + 2) * 256 + At(s, k + 3);
    assert 0 <= rest < TOP;
  }

  predicate Follows(s: seq<byte>, k: nat, bytes: seq<byte>) {
    forall i :: 0 <= i < |bytes| ==> At(s, k + i) == bytes[i]
  }

  predicate Inside(low: int, range: int, w: int) {
    low <= w < low + range
  }

  lemma FollowsTail(s: seq<byte>, k: nat, a: seq<byte>, b: seq<byte>)
    requires Follows(s, k, a + b)
    ensures Follows(s, k, a) && Follows(s, k + |a|, b)
  {
    forall i | 0 <= i < |a| ensures At(s, k + i) == a[i] {
      assert (a + b)[i] == a[i];
    }
    forall i | 0 <= i < |b| ensures At(s, k + |a| + i) == b[i] {
      assert (a + b)[|a| + i] == b[i];
    }
  }

  /** One shifted-out byte seen backwards: a window inside the shifted interval comes from a
      window inside the interval before the shift. */
  lemma UnshiftWindow(s: seq<byte>, k: nat, low: int, range: int)
    requires 0 <= low < WORD && 0 < range && low % TOP + range <= TOP
    requires At(s, k) == low / TOP
    requires Inside(low % TOP * 256, range * 256, Window(s, k + 1))
    ensures Inside(low, range, Window(s, k))
  {
    WindowSlides(s, k);
  }

  /** If the stream carries the bytes renormalising emitted and its window then lies inside the
      renormalised interval, it lay inside the interval from the start. */
  lemma {:induction false} NormalizeKeepsCode(s: seq<byte>, k: nat, low: int, range: int)
    requires Valid(low, range)
    requires Follows(s, k, Normalize(low, range).emitted)
    requires var n := Normalize(low, range); Inside(n.low, n.range, Window(s, k + |n.emitted|))
    ensures Inside(low, range, Window(s, k))
    decreases Misalignment(low), WORD - range
  {
    if SameTopByte(low, (low + range) % WORD) {
      ShiftKeepsValid(low, range);
      UnshiftCode(s, k, low, Normalize(low % TOP * 256, range * 256));
      NormalizeKeepsCode(s, k + 1, low % TOP * 256, range * 256);
      UnshiftWindow(s, k, low, range);
    } else if range < BOTTOM {
      CutKeepsValid(low, range);
      var cut := -low % BOTTOM;
      UnshiftCode(s, k, low, Normalize(low % TOP * 256, cut * 256));
      NormalizeKeepsCode(s, k + 1, low % TOP * 256, cut * 256);
      UnshiftWindow(s, k, low, cut);
    }
  }

  lemma UnshiftCode(s: seq<byte>, k: nat, low: int, rest: Shifted)
    requires 0 <= low < WORD
    requires Follows(s, k, ShiftOut(low, rest).emitted)
    ensures At(s, k) == low / TOP
    ensures Follows(s, k + 1, rest.emitted)
    ensures k + |ShiftOut(low, rest).emitted| == k + 1 + |rest.emitted|
  {
    FollowsTail(s, k, [low / TOP], rest.emitted);
    assert At(s, k + 0) == [low / TOP][0];
  }

  // ---- reading a symbol ----

  /** What READ yields: the quotient of the code's offset, in units of range/total. */
  function Read(low: int, range: int, total: int, code: int): int
    requires 0 < total && 1 <= range / total
  {
    (code - low) % WORD / (range / total)
  }

  lemma ReadFindsSlot(low: int, range: int, slot: Slot, code: int)
    requires Valid(low, range) && slot.Valid() && BOTTOM <= range
    requires 0 <= code < WORD
    requires Inside(NarrowLow(low, range, slot), NarrowRange(range, slot), code)
    ensures 1 <= range / slot.total
    ensures slot.under <= Read(low, range, slot.total, code) < slot.under + slot.count
  {
    NarrowNests(low, range, slot);
    var unit := range / slot.total;
    var offset := code - low;
    assert offset % WORD == offset;
    assert slot.under * unit <= offset < slot.under * unit + unit * slot.count;
    QuotientBetween(offset, unit, slot.under, slot.under + slot.count);
  }

  lemma QuotientBetween(n: int, unit: int, a: int, b: int)
    requires 0 < unit && a * unit <= n < b * unit
    ensures a <= n / unit < b
  {
    var q := n / unit;
    assert q * unit <= n < q * unit + unit;
    if q < a {
      MulMonotone(q + 1, a, unit);
    }
    if b <= q {
      MulMonotone(b, q, unit);
    }
  }

  // ---- flushing ----

  function SignificantBytes(low: int): nat {
    if low == 0 then 0
    else if low % TOP == 0 then 1
    else if low % BOTTOM == 0 then 2
    else if low % 256 == 0 then 3
    else 4
  }

  lemma ShiftDropsByte(low: int)
    requires 0 < low < WORD
    ensures SignificantBytes(low % TOP * 256) < SignificantBytes(low)
  {
    var rest := low % TOP;
    ShiftedDigits(rest);
    LowDigits(low);
    DigitsOrdered(low);
    DigitsOrdered(rest * 256);
  }

  /** The flush: the bytes of low, without its trailing zeros. */
  function Flush(low: int): seq<byte>
    requires 0 <= low < WORD
    decreases SignificantBytes(low)
  {
    if low == 0 then [] else
      ShiftDropsByte(low);
      [low / TOP] + Flush(low % TOP * 256)
  }

  /** From position k the stream is exactly the number low, then zeros. */
  predicate Flushed(s: seq<byte>, k: nat, low: int) {
    && Window(s, k) == low
    && forall i :: k + 4 <= i < |s| ==> s[i] == 0
  }

  lemma {:induction false} FlushIsExact(s: seq<byte>, k: nat, low: int)
    requires 0 <= low < WORD
    requires k <= |s| && s[k..] == Flush(low)
    ensures Flushed(s, k, low) && Inside(low, 1, Window(s, k))
    decreases SignificantBytes(low)
  {
    if low == 0 {
      assert |s| == k;
    } else {
      ShiftDropsByte(low);
      assert s[k] == s[k..][0] == low / TOP;
      assert s[k + 1..] == s[k..][1..] == Flush(low % TOP * 256);
      FlushIsExact(s, k + 1, low % TOP * 256);
      WindowSlides(s, k);
      ZeroBeyond(s, k, low);
    }
  }

  lemma ZeroBeyond(s: seq<byte>, k: nat, low: int)
    requires k <= |s| && 0 < low < WORD
    requires Flushed(s, k + 1, low % TOP * 256)
    ensures forall i :: k + 4 <= i < |s| ==> s[i] == 0
  {
    WindowSlides(s, k);
    hide Window;
    assert Window(s, k + 1) % 256 == At(s, k + 4);
  }

  /** Renormalising an exactly flushed stream leaves it exactly flushed. */
  lemma {:induction false} NormalizeKeepsFlushed(s: seq<byte>, k: nat, low: int, range: int)
    requires Valid(low, range) && Flushed(s, k, low)
    ensures var n := Normalize(low, range); Flushed(s, k + |n.emitted|, n.low)
    decreases Misalignment(low), WORD - range
  {
    WindowSlides(s, k);
    if SameTopByte(low, (low + range) % WORD) {
      ShiftKeepsValid(low, range);
      NormalizeKeepsFlushed(s, k + 1, low % TOP * 256, range * 256);
      var rest := Normalize(low % TOP * 256, range * 256);
      assert k + 1 + |rest.emitted| == k + |ShiftOut(low, rest).emitted|;
    } else if range < BOTTOM {
      CutKeepsValid(low, range);
      NormalizeKeepsFlushed(s, k + 1, low % TOP * 256, -low % BOTTOM * 256);
      var rest := Normalize(low % TOP * 256, -low % BOTTOM * 256);
      assert k + 1 + |rest.emitted| == k + |ShiftOut(low, rest).emitted|;
    }
  }

  // ---- what has been emitted, as a number ----

  function Power(k: nat): nat {
    if k == 0 then 1 else 256 * Power(k - 1)
  }

  /** Bytes as the digits of a number, the first being the highest. */
  function Value(bytes: seq<byte>): nat {
    if bytes == [] then 0 else bytes[0] * Power(|bytes| - 1) + Value(bytes[1..])
  }

  /** Renormalising only shifts: the emitted digits followed by the new interval are a part of the old
      one that begins where that begins. Nothing is emitted exactly if the top bytes differ and the
      range is not too small. */
  lemma {:induction false} NormalizeShifts(low: int, range: int)
    requires Valid(low, range)
    ensures var n := Normalize(low, range); var p := Power(|n.emitted|);
            && Value(n.emitted) * WORD + n.low == low * p
            && Value(n.emitted) * WORD + n.low + n.range <= (low + range) * p
            && (n.emitted == [] <==> low / 0x100_0000 != (low + range) % 0x1_0000_0000 / 0x100_0000
                                     && range >= 0x1_0000)
    decreases Misalignment(low), WORD - range
  {
    if SameTopByte(low, (low + range) % WORD) {
      ShiftKeepsValid(low, range);
      NormalizeShifts(low % TOP * 256, range * 256);
      ShiftedValue(low, range, Normalize(low % TOP * 256, range * 256));
    } else if range < BOTTOM {
      CutKeepsValid(low, range);
      var cut := -low % BOTTOM;
      NormalizeShifts(low % TOP * 256, cut * 256);
      ShiftedValue(low, cut, Normalize(low % TOP * 256, cut * 256));
      Scales(low + cut, low + range, Power(|Normalize(low, range).emitted|));
    }
  }

  lemma Scales(a: int, b: int, p: nat)
    requires a <= b
    ensures a * p <= b * p
  {
  }

  lemma ShiftedValue(low: nat, range: nat, rest: Shifted)
    requires low < WORD
    requires var p := Power(|rest.emitted|);
             && Value(rest.emitted) * WORD + rest.low == low % TOP * 256 * p
             && Value(rest.emitted) * WORD + rest.low + rest.range <= (low % TOP * 256 + range * 256) * p
    ensures var n := ShiftOut(low, rest); var p := Power(|n.emitted|);
            && Value(n.emitted) * WORD + n.low == low * p
            && Value(n.emitted) * WORD + n.low + n.range <= (low + range) * p
  {
    var p := Power(|rest.emitted|);
    var n := ShiftOut(low, rest);
    assert n.emitted[1..] == rest.emitted;
    assert Value(n.emitted) == low / TOP * p + Value(rest.emitted);
    assert low == low / TOP * TOP + low % TOP;
    assert low * (256 * p) == low / TOP * p * WORD + low % TOP * 256 * p;
    assert (low + range) * (256 * p) == low * (256 * p) + range * 256 * p;
    assert (low % TOP * 256 + range * 256) * p == low % TOP * 256 * p + range * 256 * p;
  }
}
