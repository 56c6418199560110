/** The loops of the ENCODE, FLUSH, SEED and DECODE macros of src/enet/compress.c, on 32-bit
    variables and byte buffers. */
module RangeLoops {
  import opened Words
  import opened RangeInterval
  import opened CodeStream
  import opened PpmCodec

  lemma ShiftedWord(low: int)
    requires 0 <= low < WORD
    ensures low * 256 % WORD == low % TOP * 256
  {
    QuotientIs(low * 256, WORD, low / TOP, low % TOP * 256);
  }

  /** Narrow the interval to a slot and write out the bytes that settles; false if they do not fit. */
  method RangeEncode(low0: u32, range0: u32, under: nat, count: nat, total: nat, outData: array<byte>, outPos: nat)
    returns (ok: bool, low: u32, range: u32, pos: nat)
    requires Ready(low0, range0) && Slot(under, count, total).Valid() && outPos <= outData.Length
    modifies outData
    ensures outPos <= pos <= outData.Length && outData[..outPos] == old(outData[..outPos])
    ensures var n := EncodeSlot(low0, range0, Slot(under, count, total));
            && ok == (outPos + |n.emitted| <= outData.Length)
            && (ok ==> low == n.low && range == n.range && outData[outPos..pos] == n.emitted)
  {
    hide Ready, Slot.Valid, Normalize, Valid;
    NarrowFits(low0, range0, Slot(under, count, total));
    range := range0 / total;
    low := low0 + under * range;
    range := range * count;
    ok, low, range, pos := EmitSettled(low, range, outData, outPos);
  }

  /** Write out settled bytes until the interval is ready for the next slot. */
  method EmitSettled(low0: u32, range0: u32, outData: array<byte>, outPos: nat)
    returns (ok: bool, low: u32, range: u32, pos: nat)
    requires Valid(low0, range0) && outPos <= outData.Length
    modifies outData
    ensures outPos <= pos <= outData.Length && outData[..outPos] == old(outData[..outPos])
    ensures var n := Normalize(low0, range0);
            && ok == (outPos + |n.emitted| <= outData.Length)
            && (ok ==> low == n.low && range == n.range && outData[outPos..pos] == n.emitted)
  {
    hide Valid, Normalize, SameTopByte, Misalignment, Onwards, ShiftOut;
    low, range, pos := low0, range0, outPos;
    ghost var n := Normalize(low0, range0);
    assert outData[outPos..pos] == [];
    OnwardsStart(n);
    while true
      invariant Valid(low, range) && outPos <= pos <= outData.Length
      invariant outData[..outPos] == old(outData[..outPos])
      invariant Onwards(n, outData[outPos..pos], Normalize(low, range))
      decreases Misalignment(low), WORD - range
    {
      NormalizeUnfolds(low, range);
      ShiftedWord(low);
      if !SameTopByte(low, (low + range) % WORD) {
        if BOTTOM <= range {
          assert Normalize(low, range) == Shifted(low, range, []);
          OnwardsEnd(n, outData[outPos..pos], low, range);
          break;
        }
        range := -(low as int) % BOTTOM;
      }
      ghost var done := outData[outPos..pos];
      OnwardsStep(n, done, low, Normalize(low % TOP * 256, range * 256));
      if pos >= outData.Length {
        return false, low, range, pos;
      }
      outData[pos] := low / TOP;
      assert outData[outPos..pos + 1] == done + [low / TOP];
      pos := pos + 1;
      range := range * 256 % WORD;
      low := low * 256 % WORD;
    }
    ok := true;
  }

  predicate Onwards(whole: Shifted, done: seq<byte>, rest: Shifted) {
    whole.low == rest.low && whole.range == rest.range && whole.emitted == done + rest.emitted
  }

  lemma OnwardsStart(n: Shifted)
    ensures Onwards(n, [], n)
  {
    assert [] + n.emitted == n.emitted;
  }

  lemma OnwardsStep(whole: Shifted, done: seq<byte>, low: u32, rest: Shifted)
    requires Onwards(whole, done, ShiftOut(low, rest))
    ensures Onwards(whole, done + [low / TOP], rest) && |whole.emitted| > |done|
  {
    assert done + ([low / TOP] + rest.emitted) == (done + [low / TOP]) + rest.emitted;
  }

  lemma OnwardsEnd(whole: Shifted, done: seq<byte>, low: u32, range: int)
    requires Onwards(whole, done, Shifted(low, range, []))
    ensures whole == Shifted(low, range, done)
  {
    assert done + [] == done;
  }

  lemma NarrowFits(low: u32, range: u32, slot: Slot)
    requires Ready(low, range) && slot.Valid()
    ensures 0 < slot.total && 0 <= range / slot.total < WORD
    ensures Valid(NarrowLow(low, range, slot), NarrowRange(range, slot))
    ensures NarrowLow(low, range, slot) < WORD && 0 <= NarrowRange(range, slot) < WORD
  {
    NarrowNests(low, range, slot);
  }

  lemma NormalizeUnfolds(low: int, range: int)
    requires Valid(low, range)
    ensures 0 <= low < WORD && range < WORD
    ensures var n := Normalize(low, range);
            if !SameTopByte(low, (low + range) % WORD) && BOTTOM <= range then n == Shifted(low, range, [])
            else
              var range' := if SameTopByte(low, (low + range) % WORD) then range else -low % BOTTOM;
              && Valid(low % TOP * 256, range' * 256) && range' * 256 < WORD
              && n == ShiftOut(low, Normalize(low % TOP * 256, range' * 256))
              && (Misalignment(low % TOP * 256) < Misalignment(low)
                  || (Misalignment(low % TOP * 256) == Misalignment(low) && range < range' * 256))
  {
    if SameTopByte(low, (low + range) % WORD) {
      ShiftKeepsValid(low, range);
    } else if range < BOTTOM {
      CutKeepsValid(low, range);
    }
  }

  /** Write out low without its trailing zero bytes; false if it does not fit. */
  method RangeFlush(low0: u32, outData: array<byte>, outPos: nat) returns (ok: bool, pos: nat)
    requires outPos <= outData.Length
    modifies outData
    ensures outPos <= pos <= outData.Length && outData[..outPos] == old(outData[..outPos])
    ensures ok == (outPos + |Flush(low0)| <= outData.Length)
    ensures ok ==> outData[outPos..pos] == Flush(low0)
  {
    hide Flush, SignificantBytes;
    var low: u32 := low0;
    pos := outPos;
    assert outData[outPos..pos] == [];
    while low != 0
      invariant outPos <= pos <= outData.Length && outData[..outPos] == old(outData[..outPos])
      invariant Flush(low0) == outData[outPos..pos] + Flush(low)
      decreases SignificantBytes(low)
    {
      FlushUnfolds(low);
      ShiftedWord(low);
      ShiftDropsByte(low);
      if pos >= outData.Length {
        return false, pos;
      }
      outData[pos] := low / TOP;
      assert outData[outPos..pos + 1] == outData[outPos..pos] + [low / TOP];
      pos := pos + 1;
      low := low * 256 % WORD;
    }
    FlushUnfolds(low);
    ok := true;
  }

  lemma FlushUnfolds(low: int)
    requires 0 <= low < WORD
    ensures low == 0 ==> Flush(low) == []
    ensures low != 0 ==> 0 <= low % TOP * 256 < WORD && Flush(low) == [low / TOP] + Flush(low % TOP * 256)
  {
  }

  // ---- reading ----

  /** The first four bytes, or as many as there are, as a number. */
  method RangeSeed(inData: seq<byte>) returns (code: u32, pos: nat)
    ensures code == Window(inData, 0) && pos == Reached(inData, 0)
  {
    code, pos := 0, 0;
    if pos < |inData| { code := code + inData[pos] * TOP; pos := pos + 1; }
    if pos < |inData| { code := code + inData[pos] * BOTTOM; pos := pos + 1; }
    if pos < |inData| { code := code + inData[pos] as int * 256; pos := pos + 1; }
    if pos < |inData| { code := code + inData[pos]; pos := pos + 1; }
  }

  /** How far the decoder has read once it has shifted out `at` bytes. */
  function Reached(s: seq<byte>, at: nat): nat {
    if at + 4 <= |s| then at + 4 else |s|
  }

  /** Narrow the interval to a slot and shift the settled bytes out of the code. */
  method RangeDecode(low0: u32, range0: u32, code0: u32, inPos: nat, under: nat, count: nat, total: nat,
                     inData: seq<byte>, ghost at0: nat)
    returns (low: u32, range: u32, code: u32, pos: nat, ghost at: nat)
    requires Ready(low0, range0) && Slot(under, count, total).Valid()
    requires code0 == Window(inData, at0) && inPos == Reached(inData, at0)
    ensures var n := EncodeSlot(low0, range0, Slot(under, count, total));
            low == n.low && range == n.range
    ensures at == at0 + |EncodeSlot(low0, range0, Slot(under, count, total)).emitted|
    ensures code == Window(inData, at) && pos == Reached(inData, at)
  {
    hide Ready, Slot.Valid, Normalize, Valid, Window;
    NarrowFits(low0, range0, Slot(under, count, total));
    range := range0 / total;
    low := low0 + under * range;
    range := range * count;
    low, range, code, pos, at := ShiftSettled(low, range, code0, inPos, inData, at0);
  }

  method ShiftSettled(low0: u32, range0: u32, code0: u32, inPos: nat, inData: seq<byte>, ghost at0: nat)
    returns (low: u32, range: u32, code: u32, pos: nat, ghost at: nat)
    requires Valid(low0, range0)
    requires code0 == Window(inData, at0) && inPos == Reached(inData, at0)
    ensures var n := Normalize(low0, range0);
            low == n.low && range == n.range && at == at0 + |n.emitted|
    ensures code == Window(inData, at) && pos == Reached(inData, at)
  {
    hide Valid, Normalize, SameTopByte, Window, Misalignment;
    low, range, code, pos, at := low0, range0, code0, inPos, at0;
    ghost var n := Normalize(low0, range0);
    while true
      invariant Valid(low, range)
      invariant code == Window(inData, at) && pos == Reached(inData, at)
      invariant var m := Normalize(low, range);
                m.low == n.low && m.range == n.range && at + |m.emitted| == at0 + |n.emitted|
      decreases Misalignment(low), WORD - range
    {
      NormalizeUnfolds(low, range);
      ShiftedWord(low);
      ShiftedWord(code);
      WindowSlides(inData, at);
      if !SameTopByte(low, (low + range) % WORD) {
        if BOTTOM <= range {
          assert Normalize(low, range) == Shifted(low, range, []);
          break;
        }
        range := -(low as int) % BOTTOM;
      }
      code := code * 256 % WORD;
      if pos < |inData| {
        assert pos == at + 4;
        code := code + inData[pos];
        pos := pos + 1;
      }
      at := at + 1;
      range := range * 256 % WORD;
      low := low * 256 % WORD;
    }
  }
}
