/** The compressor's way from a byte's longest context down to the one that has seen it: what is
    left to do at each context on the way. */
module Climbing {
  import opened Words
  import opened RangeInterval
  import opened CodeStream
  import opened FrequencyTree
  import opened PpmModel
  import opened PpmCodec
  import opened TableUpdates
  import opened RangeLoops
  import opened TrainingOrder

  /** Having written `done` and trained every context longer than g, the byte's work is what is
      left to do from g. */
  ghost predicate Climbed(cs0: Contexts, h: Path, low0: int, range0: int, v: byte, next0: nat,
                          cs: Contexts, g: Path, low: int, range: int, next: nat, done: seq<byte>) {
    && Depth(g) <= Depth(h) && ValidContexts(cs0) && ValidContexts(cs) && Ready(low0, range0) && Ready(low, range)
    && HitLevel(cs, g, v) == HitLevel(cs0, h, v)
    && Onwards(EncodeSymbol(cs0, h, low0, range0, v), done, EncodeSymbol(cs, g, low, range, v))
    && Train(cs, g, HitLevel(cs, g, v), v) == Train(cs0, h, HitLevel(cs0, h, v), v)
    && next + Fresh(cs, g, HitLevel(cs, g, v), v) == next0 + Fresh(cs0, h, HitLevel(cs0, h, v), v)
  }

  lemma ClimbStart(cs: Contexts, h: Path, low: int, range: int, v: byte, next: nat)
    requires ValidContexts(cs) && Ready(low, range)
    ensures Climbed(cs, h, low, range, v, next, cs, h, low, range, next, [])
  {
    hide EncodeSymbol, Train, Fresh, HitLevel, Ready;
  }

  predicate Misses(cs: Contexts, g: Path, v: byte) {
    g.Sym? && !Has(ContextOf(cs, g).tree, v)
  }

  /** What a context that has not seen the value codes: an escape, if it has symbols. */
  ghost function Missed(c: Context, low: int, range: int): Shifted
    requires Ready(low, range) && (Escapes(c) ==> EscapeSlot(c).Valid())
  {
    if Escapes(c) then EncodeSlot(low, range, EscapeSlot(c)) else Shifted(low, range, [])
  }

  lemma ClimbFits(cs: Contexts, g: Path, v: byte)
    requires ValidContexts(cs)
    ensures var c := ContextOf(cs, g);
            && ValidContext(c, MinimumOf(g))
            && (Escapes(c) ==> EscapeSlot(c).Valid())
            && (!Misses(cs, g, v) ==> SymbolSlot(c, MinimumOf(g), v).Valid())
            && (MinimumOf(g) + WalkCount(c.tree, v) == 0 <==> Misses(cs, g, v))
            && c.total <= BOTTOM - 0x100
  {
    hide ValidContext, Sum, Has, WalkCount, Slot.Valid;
    assert ValidAt(cs, g);
    var c := ContextOf(cs, g);
    SlotsAreValid(c, MinimumOf(g), v);
    CountedWhenSeen(c, MinimumOf(g), v);
    TotalIsBounded(c, MinimumOf(g));
  }

  lemma EncodeMisses(cs: Contexts, g: Path, low: int, range: int, v: byte)
    requires ValidContexts(cs) && Ready(low, range) && Misses(cs, g, v)
    ensures var c := ContextOf(cs, g);
            && (Escapes(c) ==> EscapeSlot(c).Valid())
            && var n := Missed(c, low, range);
            && Ready(n.low, n.range)
            && EncodeSymbol(cs, g, low, range, v) == Then(n, EncodeSymbol(cs, Parent(g), n.low, n.range, v))
  {
    hide EncodeSlot, Ready, ValidContext, SymbolSlot, Slot.Valid, Has;
    ClimbFits(cs, g, v);
    var n := Missed(ContextOf(cs, g), low, range);
    var rest := EncodeSymbol(cs, Parent(g), n.low, n.range, v);
    assert Shifted(low, range, []).emitted + rest.emitted == rest.emitted;
  }

  lemma ClimbMiss(cs0: Contexts, h: Path, low0: int, range0: int, v: byte, next0: nat,
                  cs: Contexts, g: Path, low: int, range: int, next: nat, done: seq<byte>)
    requires Climbed(cs0, h, low0, range0, v, next0, cs, g, low, range, next, done) && Misses(cs, g, v)
    ensures ValidContexts(cs) && Ready(low, range)
    ensures var c := ContextOf(cs, g); Escapes(c) ==> EscapeSlot(c).Valid()
    ensures var n := Missed(ContextOf(cs, g), low, range);
            Climbed(cs0, h, low0, range0, v, next0, BumpAt(cs, g, v), Parent(g), n.low, n.range, next + 1,
                    done + n.emitted)
    ensures |EncodeSymbol(cs0, h, low0, range0, v).emitted| >= |done| + |Missed(ContextOf(cs, g), low, range).emitted|
  {
    hide EncodeSymbol, EncodeSlot, Ready, Slot.Valid, ValidContexts, Bump, Has;
    EncodeMisses(cs, g, low, range, v);
    BumpAtKeepsValid(cs, g, v);
    var n := Missed(ContextOf(cs, g), low, range);
    var c' := Bump(ContextOf(cs, g), MinimumOf(g), v);
    LevelElsewhere(cs, g, c', Parent(g), v);
    FreshElsewhere(cs, g, c', Parent(g), HitLevel(cs, Parent(g), v), v);
    EncodeElsewhere(cs, g, c', Parent(g), n.low, n.range, v);
    var rest := EncodeSymbol(cs, Parent(g), n.low, n.range, v);
    assert done + (n.emitted + rest.emitted) == done + n.emitted + rest.emitted;
  }

  lemma ClimbHit(cs0: Contexts, h: Path, low0: int, range0: int, v: byte, next0: nat,
                 cs: Contexts, g: Path, low: int, range: int, next: nat, done: seq<byte>)
    requires Climbed(cs0, h, low0, range0, v, next0, cs, g, low, range, next, done) && !Misses(cs, g, v)
    ensures ValidContexts(cs) && Ready(low, range)
    ensures SymbolSlot(ContextOf(cs, g), MinimumOf(g), v).Valid()
    ensures var n := EncodeSlot(low, range, SymbolSlot(ContextOf(cs, g), MinimumOf(g), v));
            var whole := EncodeSymbol(cs0, h, low0, range0, v);
            whole.low == n.low && whole.range == n.range && whole.emitted == done + n.emitted
    ensures Train(cs0, h, HitLevel(cs0, h, v), v) == BumpAt(cs, g, v)
    ensures next0 + Fresh(cs0, h, HitLevel(cs0, h, v), v) == NextAfter(cs, g, v, next)
  {
    hide EncodeSlot, Ready, ValidContext, SymbolSlot, Slot.Valid, Has, BumpAt;
    ClimbFits(cs, g, v);
  }

  /** What context g codes for v: v's slot if it has seen v, else an escape, or nothing. */
  ghost function CodedAt(cs: Contexts, g: Path, v: byte, low: int, range: int): Shifted
    requires ValidContexts(cs) && Ready(low, range)
  {
    hide ValidContexts, ValidContext, SymbolSlot, EscapeSlot, Slot.Valid, Has, Ready, WalkCount;
    ClimbFits(cs, g, v);
    if Misses(cs, g, v) then Missed(ContextOf(cs, g), low, range)
    else EncodeSlot(low, range, SymbolSlot(ContextOf(cs, g), MinimumOf(g), v))
  }

  lemma CodedAtUnfolds(cs: Contexts, g: Path, v: byte, low: int, range: int)
    requires ValidContexts(cs) && Ready(low, range)
    ensures var c := ContextOf(cs, g);
            && ValidContext(c, MinimumOf(g)) && c.total <= BOTTOM - 0x100
            && (MinimumOf(g) + WalkCount(c.tree, v) == 0 <==> Misses(cs, g, v))
            && (!Misses(cs, g, v) ==> SymbolSlot(c, MinimumOf(g), v).Valid())
            && (!Misses(cs, g, v) ==> SymbolSlot(c, MinimumOf(g), v).under <= 0xFFFF)
            && (!Misses(cs, g, v) ==>
                  CodedAt(cs, g, v, low, range) == EncodeSlot(low, range, SymbolSlot(c, MinimumOf(g), v)))
            && (Misses(cs, g, v) && 0 < c.escapes < c.total ==>
                  EscapeSlot(c).Valid() && CodedAt(cs, g, v, low, range) == EncodeSlot(low, range, EscapeSlot(c)))
            && (Misses(cs, g, v) && !(0 < c.escapes < c.total) ==>
                  CodedAt(cs, g, v, low, range) == Shifted(low, range, []))
  {
    hide ValidContext, EncodeSlot, Ready, WalkCount, Has;
    ClimbFits(cs, g, v);
  }

  lemma ClimbOn(cs0: Contexts, h: Path, low0: int, range0: int, v: byte, next0: nat,
                cs: Contexts, g: Path, low: int, range: int, next: nat, done: seq<byte>)
    requires Climbed(cs0, h, low0, range0, v, next0, cs, g, low, range, next, done)
    ensures ValidContexts(cs) && Ready(low, range)
    ensures var n := CodedAt(cs, g, v, low, range);
            var whole := EncodeSymbol(cs0, h, low0, range0, v);
            var level := HitLevel(cs0, h, v);
            && |whole.emitted| >= |done| + |n.emitted|
            && if Misses(cs, g, v) then
                 Climbed(cs0, h, low0, range0, v, next0, BumpAt(cs, g, v), Parent(g), n.low, n.range,
                         NextAfter(cs, g, v, next), done + n.emitted)
               else
                 && whole.low == n.low && whole.range == n.range && whole.emitted == done + n.emitted
                 && Train(cs0, h, level, v) == BumpAt(cs, g, v)
                 && next0 + Fresh(cs0, h, level, v) == NextAfter(cs, g, v, next)
  {
    hide EncodeSymbol, Train, Fresh, HitLevel, ValidContexts, EncodeSlot, BumpAt, Has;
    if Misses(cs, g, v) {
      ClimbMiss(cs0, h, low0, range0, v, next0, cs, g, low, range, next, done);
    } else {
      ClimbHit(cs0, h, low0, range0, v, next0, cs, g, low, range, next, done);
    }
  }
}
