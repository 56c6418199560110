/** What enet_range_coder_compress and enet_range_coder_decompress compute, as functions of the
    canonical model, and the theorem that the second undoes the first. */
module PpmCodec {
  import opened Words
  import opened RangeInterval
  import opened CodeStream
  import opened FrequencyTree
  import opened PpmModel

  // ---- encoding ----

  ghost predicate Ready(low: int, range: int) {
    Valid(low, range) && BOTTOM <= range
  }

  function EncodeSlot(low: int, range: int, slot: Slot): (n: Shifted)
    requires Ready(low, range) && slot.Valid()
    ensures Ready(n.low, n.range)
  {
    NarrowNests(low, range, slot);
    Normalize(NarrowLow(low, range, slot), NarrowRange(range, slot))
  }

  function Then(first: Shifted, rest: Shifted): Shifted {
    rest.(emitted := first.emitted + rest.emitted)
  }

  predicate Escapes(c: Context) {
    0 < c.escapes < c.total
  }

  lemma SeenMeansEscapes(c: Context, m: minimum, v: byte)
    requires ValidContext(c, m) && Has(c.tree, v)
    ensures Escapes(c)
  {
    hide WellFormed, Sum;
    SlotsAreValid(c, m, v);
  }

  lemma EscapeIsValid(c: Context, m: minimum)
    requires ValidContext(c, m)
    ensures m == 1 ==> Escapes(c)
    ensures Escapes(c) ==> EscapeSlot(c).Valid() && 0 < c.total
  {
    hide WellFormed, Sum;
  }

  /** One byte: an escape out of every context that has symbols but not this one, then its slot. */
  function EncodeSymbol(cs: Contexts, h: Path, low: int, range: int, v: byte): (n: Shifted)
    requires ValidContexts(cs) && Ready(low, range)
    ensures Ready(n.low, n.range)
    decreases Depth(h)
  {
    hide EncodeSlot, Ready, ValidContext, SymbolSlot, Slot.Valid, Has;
    assert ValidAt(cs, h);
    var c := ContextOf(cs, h);
    var m := MinimumOf(h);
    SlotsAreValid(c, m, v);
    if h.Root? || Has(c.tree, v) then EncodeSlot(low, range, SymbolSlot(c, m, v))
    else if Escapes(c) then
      var n := EncodeSlot(low, range, EscapeSlot(c));
      Then(n, EncodeSymbol(cs, Parent(h), n.low, n.range, v))
    else EncodeSymbol(cs, Parent(h), low, range, v)
  }

  function LearnSymbol(p: Model, v: byte): Model {
    Learn(p, HitLevel(p.contexts, p.history, v), v)
  }

  function Encode(p: Model, low: int, range: int, input: seq<byte>): seq<byte>
    requires ValidModel(p) && Ready(low, range)
    decreases |input|
  {
    if input == [] then Flush(low) else
      var n := EncodeSymbol(p.contexts, p.history, low, range, input[0]);
      LearnKeepsValid(p, HitLevel(p.contexts, p.history, input[0]), input[0]);
      n.emitted + Encode(LearnSymbol(p, input[0]), n.low, n.range, input[1..])
  }

  /** All the bytes the compressor would write, were there no limit on them. */
  function Compressed(input: seq<byte>): seq<byte> {
    FreshIsValid();
    Encode(FRESH, 0, WORD - 1, input)
  }

  // ---- decoding ----

  /** Found also tells how long the context was that the value was found in. Beyond is a code
      outside the interval, met in the root context. */
  datatype Step = Found(value: byte, level: nat, low: int, range: int, at: nat) | End | Reject | Beyond

  /** READ assigned to a 16-bit variable. */
  function ReadCode(low: int, range: int, c: Context, window: int): (code: int)
    requires Ready(low, range) && EscapeSlot(c).Valid()
    ensures 0 <= code < 0x1_0000
  {
    hide Valid, Slot.Valid;
    UnitIsPositive(range, c);
    Read(low, range, c.total, window) % 0x1_0000
  }

  lemma UnitIsPositive(range: int, c: Context)
    requires BOTTOM <= range && EscapeSlot(c).Valid()
    ensures 0 < c.total && 1 <= range / c.total
  {
  }

  ghost predicate Continues(r: Step, level: nat, at: nat) {
    r.Found? ==> r.level <= level && Ready(r.low, r.range) && at <= r.at
  }

  datatype Reading = EscapeRead | SymbolRead(value: byte, slot: Slot) | NoSymbol | TooLarge

  /** What the decoder makes of a code in one context. */
  function Interpret(c: Context, m: minimum, code: nat): (r: Reading)
    requires ValidContext(c, m)
    ensures r.SymbolRead? ==> r.slot == SymbolSlot(c, m, r.value) && r.slot.Valid()
    ensures r.EscapeRead? <==> code < c.escapes
  {
    hide ValidContext, SymbolSlot, Slot.Valid;
    if code < c.escapes then EscapeRead
    else if m == 1 && c.total <= code then TooLarge
    else
      FoundInContext(c, m, code);
      match Find(c.tree, code - c.escapes, 0, m)
      case NoHit => NoSymbol
      case Hit(v, under, count) => SymbolRead(v, Slot(c.escapes + under, count, c.total))
  }

  function DecodeSymbol(cs: Contexts, h: Path, low: int, range: int, s: seq<byte>, at: nat): Step
    requires ValidContexts(cs) && Ready(low, range)
    decreases Depth(h)
  {
    hide EncodeSlot, Ready, ValidContext, Slot.Valid, EscapeSlot, SymbolSlot, Window, ReadCode, Interpret;
    assert ValidAt(cs, h);
    var c := ContextOf(cs, h);
    var m := MinimumOf(h);
    EscapeIsValid(c, m);
    if h.Sym? && !Escapes(c) then DecodeSymbol(cs, Parent(h), low, range, s, at)
    else
      match Interpret(c, m, ReadCode(low, range, c, Window(s, at)))
      case EscapeRead =>
        var n := EncodeSlot(low, range, EscapeSlot(c));
        if h.Root? then End else DecodeSymbol(cs, Parent(h), n.low, n.range, s, at + |n.emitted|)
      case NoSymbol => Reject
      case TooLarge => Beyond
      case SymbolRead(v, slot) =>
        var n := EncodeSlot(low, range, slot);
        Found(v, Depth(h), n.low, n.range, at + |n.emitted|)
  }

  lemma {:induction false} DecodeSymbolContinues(cs: Contexts, h: Path, low: int, range: int,
                                                 s: seq<byte>, at: nat)
    requires ValidContexts(cs) && Ready(low, range)
    ensures Continues(DecodeSymbol(cs, h, low, range, s, at), Depth(h), at)
    decreases Depth(h)
  {
    hide EncodeSlot, Ready, ValidContext, Slot.Valid, EscapeSlot, SymbolSlot, Window, ReadCode, Interpret;
    assert ValidAt(cs, h);
    var c := ContextOf(cs, h);
    EscapeIsValid(c, MinimumOf(h));
    if h.Sym? && !Escapes(c) {
      DecodeSymbolContinues(cs, Parent(h), low, range, s, at);
    } else if Interpret(c, MinimumOf(h), ReadCode(low, range, c, Window(s, at))).EscapeRead? && h.Sym? {
      var n := EncodeSlot(low, range, EscapeSlot(c));
      DecodeSymbolContinues(cs, Parent(h), n.low, n.range, s, at + |n.emitted|);
    }
  }

  datatype Outcome = Done(output: seq<byte>) | Failed | Outside

  function Decode(p: Model, low: int, range: int, s: seq<byte>, at: nat, limit: nat): Outcome
    requires ValidModel(p) && Ready(low, range)
    decreases limit
  {
    DecodeSymbolContinues(p.contexts, p.history, low, range, s, at);
    match DecodeSymbol(p.contexts, p.history, low, range, s, at)
    case End => Done([])
    case Reject => Failed
    case Beyond => Outside
    case Found(v, level, low', range', at') =>
      if limit == 0 then Failed else
        LearnKeepsValid(p, level, v);
        match Decode(Learn(p, level, v), low', range', s, at', limit - 1)
        case Done(output) => Done([v] + output)
        case Failed => Failed
        case Outside => Outside
  }

  function Decompressed(s: seq<byte>, limit: nat): Outcome {
    FreshIsValid();
    Decode(FRESH, 0, WORD - 1, s, 0, limit)
  }

  // ---- the decoder retraces the encoder ----

  lemma SlotKeepsCode(low: int, range: int, slot: Slot, c: Context, s: seq<byte>, at: nat)
    requires Ready(low, range) && slot.Valid() && slot.total == c.total && EscapeSlot(c).Valid()
    requires var n := EncodeSlot(low, range, slot);
             Follows(s, at, n.emitted) && Inside(n.low, n.range, Window(s, at + |n.emitted|))
    ensures Inside(low, range, Window(s, at))
    ensures slot.under <= ReadCode(low, range, c, Window(s, at)) < slot.under + slot.count
  {
    hide Window, Normalize;
    NarrowNests(low, range, slot);
    NormalizeKeepsCode(s, at, NarrowLow(low, range, slot), NarrowRange(range, slot));
    ReadFindsSlot(low, range, slot, Window(s, at));
  }

  /** A code inside a symbol's slot makes the decoder's walk find it there. */
  lemma InterpretInvertsSlot(c: Context, m: minimum, v: byte, code: nat)
    requires ValidContext(c, m) && (m == 1 || Has(c.tree, v))
    requires var slot := SymbolSlot(c, m, v); slot.under <= code < slot.under + slot.count
    ensures Interpret(c, m, code) == SymbolRead(v, SymbolSlot(c, m, v))
  {
    SlotsAreValid(c, m, v);
    FindInvertsWalk(c.tree, -1, 256, v, code - c.escapes, 0, m);
  }

  /** If the stream carries the bytes encoding v emitted, and its window then lies inside the
      resulting interval, the decoder finds v in the same context with the same interval. */
  lemma {:induction false} DecodeRetraces(cs: Contexts, h: Path, low: int, range: int, v: byte,
                                          s: seq<byte>, at: nat)
    requires ValidContexts(cs) && Ready(low, range)
    requires var n := EncodeSymbol(cs, h, low, range, v);
             Follows(s, at, n.emitted) && Inside(n.low, n.range, Window(s, at + |n.emitted|))
    ensures Inside(low, range, Window(s, at))
    ensures var n := EncodeSymbol(cs, h, low, range, v);
            DecodeSymbol(cs, h, low, range, s, at)
              == Found(v, HitLevel(cs, h, v), n.low, n.range, at + |n.emitted|)
    decreases Depth(h)
  {
    hide EncodeSlot, Ready, ValidContext, Slot.Valid, WalkUnder, WalkCount, Has, Window, ReadCode, Interpret,
        Follows, Inside;
    assert ValidAt(cs, h);
    var c := ContextOf(cs, h);
    var m := MinimumOf(h);
    SlotsAreValid(c, m, v);
    EscapeIsValid(c, m);
    if Has(c.tree, v) {
      SeenMeansEscapes(c, m, v);
    }
    if h.Root? || Has(c.tree, v) {
      SlotKeepsCode(low, range, SymbolSlot(c, m, v), c, s, at);
      InterpretInvertsSlot(c, m, v, ReadCode(low, range, c, Window(s, at)));
    } else if Escapes(c) {
      var n := EncodeSlot(low, range, EscapeSlot(c));
      var rest := EncodeSymbol(cs, Parent(h), n.low, n.range, v);
      FollowsTail(s, at, n.emitted, rest.emitted);
      DecodeRetraces(cs, Parent(h), n.low, n.range, v, s, at + |n.emitted|);
      SlotKeepsCode(low, range, EscapeSlot(c), c, s, at);
    } else {
      DecodeRetraces(cs, Parent(h), low, range, v, s, at);
    }
  }

  lemma EscapeKeepsFlushed(c: Context, low: int, range: int, s: seq<byte>, at: nat)
    requires Ready(low, range) && EscapeSlot(c).Valid() && Flushed(s, at, low)
    ensures ReadCode(low, range, c, Window(s, at)) == 0
    ensures var n := EncodeSlot(low, range, EscapeSlot(c)); Flushed(s, at + |n.emitted|, n.low)
  {
    hide Window, Normalize;
    NarrowNests(low, range, EscapeSlot(c));
    assert NarrowLow(low, range, EscapeSlot(c)) == low;
    NormalizeKeepsFlushed(s, at, low, NarrowRange(range, EscapeSlot(c)));
    UnitIsPositive(range, c);
    ZeroOverUnit(range / c.total);
  }

  lemma ZeroOverUnit(unit: int)
    requires 1 <= unit
    ensures 0 / unit == 0
  {
  }

  /** After the flush the code equals low: the decoder escapes out of every context and stops. */
  lemma {:induction false} DecodeStops(cs: Contexts, h: Path, low: int, range: int, s: seq<byte>, at: nat)
    requires ValidContexts(cs) && Ready(low, range) && Flushed(s, at, low)
    ensures DecodeSymbol(cs, h, low, range, s, at) == End
    decreases Depth(h)
  {
    hide EncodeSlot, Ready, ValidContext, Slot.Valid, Has, Interpret, Flushed, ReadCode;
    assert ValidAt(cs, h);
    var c := ContextOf(cs, h);
    EscapeIsValid(c, MinimumOf(h));
    if h.Sym? && !Escapes(c) {
      DecodeStops(cs, Parent(h), low, range, s, at);
    } else {
      EscapeKeepsFlushed(c, low, range, s, at);
      if h.Sym? {
        var n := EncodeSlot(low, range, EscapeSlot(c));
        DecodeStops(cs, Parent(h), n.low, n.range, s, at + |n.emitted|);
      }
    }
  }

  /** The final low lies in every earlier interval. */
  lemma {:induction false} EncodedCodeIsInside(p: Model, low: int, range: int, input: seq<byte>,
                                               s: seq<byte>, at: nat)
    requires ValidModel(p) && Ready(low, range)
    requires at <= |s| && s[at..] == Encode(p, low, range, input)
    ensures Inside(low, range, Window(s, at))
    decreases |input|
  {
    hide DecodeSymbol, EncodeSymbol, Learn, Window, Flushed, Flush, HitLevel;
    if input == [] {
      FlushIsExact(s, at, low);
    } else {
      var n := NextEncoded(p, low, range, input, s, at);
      DecodeRetraces(p.contexts, p.history, low, range, input[0], s, at);
    }
  }

  lemma {:induction false} NextEncoded(p: Model, low: int, range: int, input: seq<byte>, s: seq<byte>, at: nat)
    returns (n: Shifted)
    requires ValidModel(p) && Ready(low, range) && input != []
    requires at <= |s| && s[at..] == Encode(p, low, range, input)
    ensures n == EncodeSymbol(p.contexts, p.history, low, range, input[0])
    ensures Follows(s, at, n.emitted)
    ensures ValidModel(LearnSymbol(p, input[0]))
    ensures at + |n.emitted| <= |s|
    ensures s[at + |n.emitted|..] == Encode(LearnSymbol(p, input[0]), n.low, n.range, input[1..])
    ensures Inside(n.low, n.range, Window(s, at + |n.emitted|))
    decreases |input|, 0
  {
    hide EncodeSymbol, Learn, Window, Flush, Ready, HitLevel, Inside;
    n := EncodeSymbol(p.contexts, p.history, low, range, input[0]);
    LearnKeepsValid(p, HitLevel(p.contexts, p.history, input[0]), input[0]);
    var rest := Encode(LearnSymbol(p, input[0]), n.low, n.range, input[1..]);
    assert s[at..] == n.emitted + rest;
    forall i | 0 <= i < |n.emitted| ensures At(s, at + i) == n.emitted[i] {
      assert s[at + i] == s[at..][i];
    }
    assert s[at + |n.emitted|..] == s[at..][|n.emitted|..] == rest;
    EncodedCodeIsInside(LearnSymbol(p, input[0]), n.low, n.range, input[1..], s, at + |n.emitted|);
  }

  lemma {:induction false} DecodeUndoesEncode(p: Model, low: int, range: int, input: seq<byte>,
                                              s: seq<byte>, at: nat, limit: nat)
    requires ValidModel(p) && Ready(low, range)
    requires at <= |s| && s[at..] == Encode(p, low, range, input) && |input| <= limit
    ensures Decode(p, low, range, s, at, limit) == Done(input)
    decreases |input|
  {
    hide DecodeSymbol, EncodeSymbol, Learn, Window, Flushed, Flush, HitLevel, Continues;
    if input == [] {
      FlushIsExact(s, at, low);
      DecodeStops(p.contexts, p.history, low, range, s, at);
    } else {
      var n := NextEncoded(p, low, range, input, s, at);
      DecodeRetraces(p.contexts, p.history, low, range, input[0], s, at);
      DecodeUndoesEncode(LearnSymbol(p, input[0]), n.low, n.range, input[1..], s, at + |n.emitted|, limit - 1);
      assert [input[0]] + input[1..] == input;
    }
  }

  /** Decompressing what was compressed gives the input back, and stops there, whatever the
      output limit beyond the input's length. */
  lemma RoundTrip(input: seq<byte>, limit: nat)
    requires |input| <= limit
    ensures Decompressed(Compressed(input), limit) == Done(input)
  {
    FreshIsValid();
    assert Compressed(input)[0..] == Compressed(input);
    DecodeUndoesEncode(FRESH, 0, WORD - 1, input, Compressed(input), 0, limit);
  }

  // ---- every byte leaves a trace ----

  lemma NormalizeSilently(low: int, range: int)
    requires Valid(low, range) && Normalize(low, range).emitted == []
    ensures Normalize(low, range).low == low
  {
  }

  lemma SlotSilently(low: int, range: int, slot: Slot)
    requires Ready(low, range) && slot.Valid() && EncodeSlot(low, range, slot).emitted == []
    ensures EncodeSlot(low, range, slot).low == NarrowLow(low, range, slot) >= low
  {
    hide Normalize;
    NarrowNests(low, range, slot);
    NormalizeSilently(NarrowLow(low, range, slot), NarrowRange(range, slot));
  }

  /** Encoding a byte without emitting one never lowers low. */
  lemma {:induction false} SymbolSilently(cs: Contexts, h: Path, low: int, range: int, v: byte)
    requires ValidContexts(cs) && Ready(low, range) && EncodeSymbol(cs, h, low, range, v).emitted == []
    ensures EncodeSymbol(cs, h, low, range, v).low >= low
    decreases Depth(h)
  {
    hide EncodeSlot, Ready, ValidContext, Slot.Valid, WalkUnder, WalkCount, Has;
    assert ValidAt(cs, h);
    var c := ContextOf(cs, h);
    SlotsAreValid(c, MinimumOf(h), v);
    EscapeIsValid(c, MinimumOf(h));
    if h.Root? || Has(c.tree, v) {
      SlotSilently(low, range, SymbolSlot(c, MinimumOf(h), v));
    } else if Escapes(c) {
      SlotSilently(low, range, EscapeSlot(c));
      var n := EncodeSlot(low, range, EscapeSlot(c));
      SymbolSilently(cs, Parent(h), n.low, n.range, v);
    } else {
      SymbolSilently(cs, Parent(h), low, range, v);
    }
  }

  /** Once low is above 0 something will be written. */
  lemma {:induction false} WritesOnceAboveZero(p: Model, low: int, range: int, input: seq<byte>)
    requires ValidModel(p) && Ready(low, range) && low > 0
    ensures Encode(p, low, range, input) != []
    decreases |input|
  {
    hide EncodeSymbol, Learn, HitLevel, Ready, ValidContexts;
    if input != [] {
      var n := EncodeSymbol(p.contexts, p.history, low, range, input[0]);
      LearnKeepsValid(p, HitLevel(p.contexts, p.history, input[0]), input[0]);
      if n.emitted == [] {
        SymbolSilently(p.contexts, p.history, low, range, input[0]);
        WritesOnceAboveZero(LearnSymbol(p, input[0]), n.low, n.range, input[1..]);
      }
    }
  }

  /** The first byte lies above the escape of the root, so it raises low. */
  lemma FirstByteRaises(v: byte)
    ensures ValidContexts(FRESH.contexts) && Ready(0, WORD - 1)
    ensures var n := EncodeSymbol(FRESH.contexts, FRESH.history, 0, WORD - 1, v); n.emitted == [] ==> n.low > 0
  {
    hide Normalize;
    FreshIsValid();
    var slot := SymbolSlot(Unseen(1), 1, v);
    SlotsAreValid(Unseen(1), 1, v);
    NarrowNests(0, WORD - 1, slot);
    assert EncodeSymbol(FRESH.contexts, FRESH.history, 0, WORD - 1, v) == EncodeSlot(0, WORD - 1, slot);
    if EncodeSlot(0, WORD - 1, slot).emitted == [] {
      SlotSilently(0, WORD - 1, slot);
      UnderRaises(slot.under, (WORD - 1) / slot.total);
    }
  }

  lemma UnderRaises(under: int, unit: int)
    requires under >= 1 && unit >= 1
    ensures under * unit >= 1
  {
  }

  /** Input that is not empty never compresses to nothing. */
  lemma CompressedIsNotEmpty(input: seq<byte>)
    requires input != []
    ensures Compressed(input) != []
  {
    hide EncodeSymbol, Learn, HitLevel, Ready, ValidContexts;
    FreshIsValid();
    var v := input[0];
    FirstByteRaises(v);
    var n := EncodeSymbol(FRESH.contexts, FRESH.history, 0, WORD - 1, v);
    LearnKeepsValid(FRESH, HitLevel(FRESH.contexts, FRESH.history, v), v);
    if n.emitted == [] {
      WritesOnceAboveZero(LearnSymbol(FRESH, v), n.low, n.range, input[1..]);
    }
  }
}
