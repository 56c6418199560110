/** The coder's model is the one by counting: after any text every context holds what PpmCounting
    reads off it, so the compressor writes what that says. */
module CountedModel {
  import opened Words
  import opened RangeInterval
  import opened CodeStream
  import opened FrequencyTree
  import opened PpmModel
  import opened PpmCodec
  import opened PpmCounting

  // ---- trees and counts ----

  lemma {:induction false} BelowGrowsByCount(t: Tree, v: byte, u: byte)
    requires u == v + 1
    ensures CountBelow(t, u) == CountBelow(t, v) + CountOf(t, v)
  {
    match t
    case Leaf =>
    case Node(_, _, l, r) =>
      BelowGrowsByCount(l, v, u);
      BelowGrowsByCount(r, v, u);
  }

  lemma {:induction false} SumIsBelowAll(t: Tree, v: byte)
    requires v == 255
    ensures Sum(t) == CountBelow(t, v) + CountOf(t, v)
  {
    match t
    case Leaf =>
    case Node(_, _, l, r) =>
      SumIsBelowAll(l, v);
      SumIsBelowAll(r, v);
  }

  lemma {:induction false} NothingBelowZero(t: Tree, v: byte)
    requires v == 0
    ensures CountBelow(t, v) == 0
  {
    match t
    case Leaf =>
    case Node(_, _, l, r) =>
      NothingBelowZero(l, v);
      NothingBelowZero(r, v);
  }

  /** Rescaling halves every single count. */
  lemma {:induction false} RescaleCounts(t: Tree, lo: int, hi: int, v: byte)
    requires Ordered(t, lo, hi)
    ensures CountOf(Rescale(t), v) == CountOf(t, v) - CountOf(t, v) / 2
  {
    match t
    case Leaf =>
    case Node(u, c, l, r) =>
      RescaleCounts(l, lo, u, v);
      RescaleCounts(r, u, hi, v);
      if v <= u {
        OutsideRange(r, u, hi, v);
      }
      if u <= v {
        OutsideRange(l, lo, u, v);
      }
      hide Ordered;
  }

  // ---- one context ----

  /** The context has counted the bytes l. */
  ghost predicate Shows(c: Context, m: minimum, l: seq<byte>) {
    && ValidContext(c, m)
    && c.escapes == EscapesAfter(l, m)
    && forall v: byte :: CountOf(c.tree, v) == CountAfter(l, m, v) && (Has(c.tree, v) <==> v in l)
  }

  lemma {:induction false} ShowsBelow(c: Context, m: minimum, l: seq<byte>, v: byte)
    requires Shows(c, m, l)
    ensures CountBelow(c.tree, v) == BelowAfter(l, m, v)
    decreases v
  {
    hide ValidContext;
    if v == 0 {
      NothingBelowZero(c.tree, v);
    } else {
      ShowsBelow(c, m, l, v - 1);
      BelowGrowsByCount(c.tree, v - 1, v);
    }
  }

  lemma ShowsTotal(c: Context, m: minimum, l: seq<byte>)
    requires Shows(c, m, l)
    ensures Sum(c.tree) == BelowAfter(l, m, 256) && c.total == TotalAfter(l, m)
  {
    ShowsBelow(c, m, l, 255);
    SumIsBelowAll(c.tree, 255);
  }

  lemma ShowsEmpty(c: Context, m: minimum, l: seq<byte>)
    requires Shows(c, m, l)
    ensures c.tree.Leaf? <==> l == []
  {
    hide ValidContext;
    if c.tree.Node? {
      assert Has(c.tree, c.tree.value);
    }
    if l != [] {
      assert Has(c.tree, l[0]);
    }
  }

  lemma UnseenShows(m: minimum)
    ensures Shows(Unseen(m), m, [])
  {
  }

  lemma BumpShows(c: Context, m: minimum, l: seq<byte>, v: byte)
    requires Shows(c, m, l)
    ensures Shows(Bump(c, m, v), m, l + [v])
  {
    hide ValidContext, Insert, Sum, Rescale, CountOf, Has, Ordered;
    var l' := l + [v];
    assert l'[..|l|] == l && l'[|l|] == v;
    BumpKeepsValid(c, m, v);
    ShowsTotal(c, m, l);
    OrderOf(c, m);
    WalkIsCumulative(c.tree, -1, 256, v);
    var grown := Insert(c.tree, v, Delta(m));
    InsertKeepsOrder(c.tree, -1, 256, v, Delta(m));
    forall u: byte
      ensures CountOf(grown, u) == CountOf(c.tree, u) + if u == v then Delta(m) else 0
      ensures CountOf(Rescale(grown), u) == CountOf(grown, u) - CountOf(grown, u) / 2
      ensures Has(Rescale(grown), u) == Has(grown, u) == (u == v || Has(c.tree, u))
    {
      InsertCounts(c.tree, v, Delta(m), u);
      RescaleCounts(grown, -1, 256, u);
      InsertHas(c.tree, v, Delta(m), u);
      RescaleHas(grown, u);
    }
    var b := Bump(c, m, v);
    var halved := HalvedBy(l', m);
    var surprise := if m == 0 && v !in l then 5 else 0;
    assert halved <==> WalkCount(c.tree, v) > 0xFF - 2 * Delta(m)
                       || c.total + surprise + Delta(m) > BOTTOM - 0x100;
    assert b.escapes == EscapesAfter(l', m);
    assert b.tree == if halved then Rescale(grown) else grown;
    forall u: byte ensures CountOf(b.tree, u) == CountAfter(l', m, u) && (Has(b.tree, u) <==> u in l') {
      assert CountOf(c.tree, u) == CountAfter(l, m, u);
    }
  }

  lemma OrderOf(c: Context, m: minimum)
    requires ValidContext(c, m)
    ensures Ordered(c.tree, -1, 256)
  {
  }

  // ---- all contexts ----

  function Named(w: seq<byte>): Path {
    if w == [] then Root else Sym(Named(w[..|w| - 1]), w[|w| - 1])
  }

  lemma {:induction false} NamedDepth(w: seq<byte>)
    ensures Depth(Named(w)) == |w|
    ensures MinimumOf(Named(w)) == RootOnly(|w|)
  {
    if w != [] {
      NamedDepth(w[..|w| - 1]);
    }
  }

  lemma {:induction false} NamedApart(a: seq<byte>, b: seq<byte>)
    requires Named(a) == Named(b)
    ensures a == b
  {
    if a != [] && b != [] {
      NamedApart(a[..|a| - 1], b[..|b| - 1]);
      assert a == a[..|a| - 1] + [a[|a| - 1]] && b == b[..|b| - 1] + [b[|b| - 1]];
    }
  }

  lemma {:induction false} ParentOfNamed(w: seq<byte>)
    requires w != []
    ensures Parent(Named(w)) == Named(w[1..])
  {
    if |w| > 1 {
      ParentOfNamed(w[..|w| - 1]);
      assert w[1..][..|w| - 2] == w[..|w| - 1][1..];
    }
  }

  lemma ParentOfEnding(text: seq<byte>, d: nat)
    requires 0 < d <= |text|
    ensures Parent(Named(Ending(text, d))) == Named(Ending(text, d - 1))
  {
    ParentOfNamed(Ending(text, d));
    assert Ending(text, d)[1..] == Ending(text, d - 1);
  }

  ghost predicate ShowsAt(cs: Contexts, text: seq<byte>, w: seq<byte>) {
    Shows(ContextOf(cs, Named(w)), RootOnly(|w|), Seen(text, w))
  }

  ghost predicate ShowsText(cs: Contexts, text: seq<byte>) {
    forall w: seq<byte> :: ShowsAt(cs, text, w)
  }

  /** The model after a text with no fresh start in it. */
  ghost predicate Reflects(p: Model, text: seq<byte>) {
    && ShowsText(p.contexts, text)
    && p.history == Named(Ending(text, Order(text)))
    && p.used == Used(text)
  }

  lemma ContextShows(cs: Contexts, text: seq<byte>, d: nat)
    requires ShowsText(cs, text) && d <= Order(text)
    ensures var h := Named(Ending(text, d));
            && Depth(h) == d && MinimumOf(h) == RootOnly(d)
            && Shows(ContextOf(cs, h), RootOnly(d), Seen(text, Ending(text, d)))
  {
    hide Shows;
    NamedDepth(Ending(text, d));
    assert ShowsAt(cs, text, Ending(text, d));
  }

  /** Counting starts where the encoder hits. */
  lemma {:induction false} HitIsCounted(cs: Contexts, text: seq<byte>, d: nat, v: byte)
    requires ShowsText(cs, text) && d <= Order(text)
    requires forall e :: d < e <= Order(text) ==> v !in Seen(text, Ending(text, e))
    ensures var level := HitLevel(cs, Named(Ending(text, d)), v);
            && level <= d
            && forall e :: 0 <= e <= Order(text) ==> (CountedAt(text, e, v) <==> level <= e)
  {
    hide Seen, Shows, ValidContext;
    ContextShows(cs, text, d);
    ShowsHas(ContextOf(cs, Named(Ending(text, d))), RootOnly(d), Seen(text, Ending(text, d)), v);
    if d > 0 && v !in Seen(text, Ending(text, d)) {
      ParentOfEnding(text, d);
      HitIsCounted(cs, text, d - 1, v);
    }
  }

  lemma ShowsHas(c: Context, m: minimum, l: seq<byte>, v: byte)
    requires Shows(c, m, l)
    ensures Has(c.tree, v) <==> v in l
  {
  }

  /** Training counts the byte once more in every context from the longest down to where it hits. */
  lemma {:induction false} TrainedAt(cs: Contexts, text: seq<byte>, d: nat, stop: nat, v: byte, w: seq<byte>)
    requires d <= |text| && stop <= d
    ensures Depth(Named(Ending(text, d))) == d
    ensures ContextOf(Train(cs, Named(Ending(text, d)), stop, v), Named(w))
         == if stop <= |w| <= d && w == Ending(text, |w|)
            then Bump(ContextOf(cs, Named(w)), RootOnly(|w|), v) else ContextOf(cs, Named(w))
    decreases d
  {
    hide Bump;
    var h := Named(Ending(text, d));
    NamedDepth(Ending(text, d));
    NamedDepth(w);
    if h == Named(w) {
      NamedApart(Ending(text, d), w);
    }
    ReplaceElsewhere(cs, h, Bump(ContextOf(cs, h), MinimumOf(h), v), Named(w));
    if d != stop {
      ParentOfEnding(text, d);
      TrainedAt(BumpAt(cs, h, v), text, d - 1, stop, v, w);
    }
  }

  lemma {:induction false} NoneNewBelow(text: seq<byte>, d: nat, v: byte)
    requires d <= Order(text) && forall e :: 0 <= e <= d ==> !CountedAt(text, e, v)
    ensures NewAt(text, d, v) == 0
  {
    if d > 0 {
      NoneNewBelow(text, d - 1, v);
    }
  }

  lemma {:induction false} FreshAreNew(cs: Contexts, text: seq<byte>, d: nat, stop: nat, v: byte)
    requires ShowsText(cs, text) && stop <= d <= Order(text)
    requires forall e :: 0 <= e <= d ==> (CountedAt(text, e, v) <==> stop <= e)
    ensures Depth(Named(Ending(text, d))) == d
    ensures Fresh(cs, Named(Ending(text, d)), stop, v) == NewAt(text, d, v)
  {
    hide Seen, Shows, CountedAt;
    ContextShows(cs, text, d);
    ShowsHas(ContextOf(cs, Named(Ending(text, d))), RootOnly(d), Seen(text, Ending(text, d)), v);
    if d > 0 {
      if d == stop {
        NoneNewBelow(text, d - 1, v);
      } else {
        ParentOfEnding(text, d);
        FreshAreNew(cs, text, d - 1, stop, v);
      }
    }
  }

  lemma NextIsNamed(text: seq<byte>, v: byte)
    ensures NextHistory(Named(Ending(text, Order(text))), v) == Named(Ending(text + [v], Order(text + [v])))
  {
    var w := Ending(text, Order(text)) + [v];
    NamedDepth(Ending(text, Order(text)));
    assert w[..|w| - 1] == Ending(text, Order(text));
    assert Named(w) == Sym(Named(Ending(text, Order(text))), v);
    ParentOfNamed(w);
    assert Ending(text + [v], Order(text + [v])) == if |text| >= 2 then w[1..] else w;
  }

  lemma SeenGrows(text: seq<byte>, v: byte, w: seq<byte>)
    ensures Seen(text + [v], w)
         == Seen(text, w) + if |w| <= Order(text) && w == Ending(text, |w|) && CountedAt(text, |w|, v) then [v] else []
  {
    assert (text + [v])[..|text|] == text;
  }

  lemma TrainShows(cs: Contexts, text: seq<byte>, stop: nat, v: byte)
    requires ShowsText(cs, text) && stop <= Order(text)
    requires forall e :: 0 <= e <= Order(text) ==> (CountedAt(text, e, v) <==> stop <= e)
    ensures Depth(Named(Ending(text, Order(text)))) == Order(text)
    ensures ShowsText(Train(cs, Named(Ending(text, Order(text))), stop, v), text + [v])
  {
    hide Seen, Shows, CountedAt, Bump, Train;
    var d := Order(text);
    NamedDepth(Ending(text, d));
    var cs' := Train(cs, Named(Ending(text, d)), stop, v);
    forall w: seq<byte> ensures ShowsAt(cs', text + [v], w) {
      assert ShowsAt(cs, text, w);
      TrainedAt(cs, text, d, stop, v, w);
      SeenGrows(text, v, w);
      if |w| <= d && w == Ending(text, |w|) && CountedAt(text, |w|, v) {
        BumpShows(ContextOf(cs, Named(w)), RootOnly(|w|), Seen(text, w), v);
      } else {
        assert Seen(text + [v], w) == Seen(text, w);
      }
    }
  }

  lemma FreshReflects()
    ensures Reflects(FRESH, [])
  {
    forall w: seq<byte> ensures ShowsAt(FRESH.contexts, [], w) {
      NamedDepth(w);
      UnseenShows(RootOnly(|w|));
    }
  }

  /** One more byte: the model goes on showing the text, or starts afresh with it. */
  lemma LearnReflects(p: Model, text: seq<byte>, v: byte)
    requires Reflects(p, text)
    ensures Reflects(LearnSymbol(p, v), Extended(text, v))
  {
    hide Seen, Shows, CountedAt, Bump, Train, ShowsText, Named, Fresh;
    var stop := HitLevel(p.contexts, p.history, v);
    HitIsCounted(p.contexts, text, Order(text), v);
    FreshAreNew(p.contexts, text, Order(text), stop, v);
    TrainShows(p.contexts, text, stop, v);
    NextIsNamed(text, v);
    FreshReflects();
    assert (text + [v])[..|text|] == text;
    assert Used(text + [v]) == Used(text) + NewAt(text, Order(text), v);
  }

  /** The bytes since the last fresh start. */
  function Current(text: seq<byte>, input: seq<byte>): seq<byte>
    decreases |input|
  {
    if input == [] then text else Current(Extended(text, input[0]), input[1..])
  }

  function Learned(p: Model, input: seq<byte>): Model
    decreases |input|
  {
    if input == [] then p else Learned(LearnSymbol(p, input[0]), input[1..])
  }

  lemma {:induction false} LearnedReflects(p: Model, text: seq<byte>, input: seq<byte>)
    requires Reflects(p, text)
    ensures Reflects(Learned(p, input), Current(text, input))
    decreases |input|
  {
    hide Reflects, LearnSymbol, Extended;
    if input != [] {
      LearnReflects(p, text, input[0]);
      LearnedReflects(LearnSymbol(p, input[0]), Extended(text, input[0]), input[1..]);
    }
  }

  /** After any input the history is the last two bytes since the last fresh start, or as many as
      there are; every context has counted what PpmCounting says, and has the figures that follow. */
  lemma ModelIsCounted(input: seq<byte>, w: seq<byte>)
    ensures var p := Learned(FRESH, input); var text := Current([], input); var c := ContextOf(p.contexts, Named(w));
            var l := Seen(text, w); var m := RootOnly(|w|);
            && p.history == Named(Ending(text, Order(text))) && p.used == Used(text)
            && c.escapes == EscapesAfter(l, m) && c.total == TotalAfter(l, m)
            && forall v: byte :: CountOf(c.tree, v) == CountAfter(l, m, v)
  {
    hide Seen, ValidContext;
    FreshReflects();
    LearnedReflects(FRESH, [], input);
    var p := Learned(FRESH, input);
    assert ShowsAt(p.contexts, Current([], input), w);
    ShowsTotal(ContextOf(p.contexts, Named(w)), RootOnly(|w|), Seen(Current([], input), w));
  }

  // ---- what is written ----

  /** The slots by counting are those of the contexts. */
  lemma SlotsUnfold(cs: Contexts, text: seq<byte>, d: nat, v: byte)
    requires ShowsText(cs, text) && d <= Order(text)
    ensures var h := Named(Ending(text, d)); var c := ContextOf(cs, h);
            && Depth(h) == d && (d == 0 <==> h == Root) && MinimumOf(h) == RootOnly(d)
            && SlotsOf(text, d, v) == if d == 0 || Has(c.tree, v) then [SymbolSlot(c, RootOnly(d), v)]
                                      else (if Escapes(c) then [EscapeSlot(c)] else []) + SlotsOf(text, d - 1, v)
  {
    hide ValidContext, Has, Seen, Shows, SymbolSlot, EscapeSlot, Escapes, EscapesAfter, TotalAfter, BelowAfter,
         CountAfter;
    var l := Seen(text, Ending(text, d));
    var c := ContextOf(cs, Named(Ending(text, d)));
    ContextShows(cs, text, d);
    ShowsHas(c, RootOnly(d), l, v);
    SlotsAre(c, RootOnly(d), l, v);
  }

  lemma SlotsAllowed(cs: Contexts, text: seq<byte>, d: nat, v: byte)
    requires ValidContexts(cs) && ShowsText(cs, text) && d <= Order(text)
    ensures var c := ContextOf(cs, Named(Ending(text, d)));
            && (d == 0 || Has(c.tree, v) ==> SymbolSlot(c, RootOnly(d), v).Valid())
            && (Escapes(c) ==> EscapeSlot(c).Valid())
  {
    hide ValidContext, Slot.Valid, Has, SymbolSlot, EscapeSlot, Escapes, Seen, Shows;
    ContextShows(cs, text, d);
    assert ValidAt(cs, Named(Ending(text, d)));
    SlotsAreValid(ContextOf(cs, Named(Ending(text, d))), RootOnly(d), v);
    EscapeIsValid(ContextOf(cs, Named(Ending(text, d))), RootOnly(d));
  }

  lemma EncodeUnfolds(cs: Contexts, text: seq<byte>, d: nat, low: int, range: int, v: byte)
    requires ValidContexts(cs) && ShowsText(cs, text) && d <= Order(text) && Ready(low, range)
    ensures var h := Named(Ending(text, d)); var c := ContextOf(cs, h); var n := EncodeSymbol(cs, h, low, range, v);
            if d == 0 || Has(c.tree, v) then
              SymbolSlot(c, RootOnly(d), v).Valid() && n == EncodeSlot(low, range, SymbolSlot(c, RootOnly(d), v))
            else
              var g := Named(Ending(text, d - 1));
              if Escapes(c) then
                && EscapeSlot(c).Valid()
                && var e := EncodeSlot(low, range, EscapeSlot(c)); n == Then(e, EncodeSymbol(cs, g, e.low, e.range, v))
              else n == EncodeSymbol(cs, g, low, range, v)
  {
    hide EncodeSlot, Ready, ValidContext, Slot.Valid, Has, SymbolSlot, EscapeSlot, Escapes, Seen, Shows;
    ContextShows(cs, text, d);
    SlotsAllowed(cs, text, d, v);
    if d > 0 {
      ParentOfEnding(text, d);
    }
  }

  /** The slots of a byte, and then those of the rest. */
  lemma {:induction false} SymbolWrites(cs: Contexts, text: seq<byte>, d: nat, low: int, range: int, v: byte,
                                        slots: seq<Slot>, bytes: seq<byte>)
    requires ValidContexts(cs) && ShowsText(cs, text) && d <= Order(text) && Ready(low, range)
    requires var n := EncodeSymbol(cs, Named(Ending(text, d)), low, range, v); Writes(n.low, n.range, slots, bytes)
    ensures Writes(low, range, SlotsOf(text, d, v) + slots,
                   EncodeSymbol(cs, Named(Ending(text, d)), low, range, v).emitted + bytes)
  {
    hide EncodeSlot, EncodeSymbol, Ready, ValidContexts, ShowsText, Slot.Valid, Has, Writes, SymbolSlot, EscapeSlot,
         Escapes, SlotsOf, ContextOf, Ending, Named;
    var c := ContextOf(cs, Named(Ending(text, d)));
    SlotsUnfold(cs, text, d, v);
    EncodeUnfolds(cs, text, d, low, range, v);
    if d == 0 || Has(c.tree, v) {
      WritesOne(low, range, SymbolSlot(c, RootOnly(d), v), slots, bytes);
    } else if Escapes(c) {
      var e := EncodeSlot(low, range, EscapeSlot(c));
      var rest := EncodeSymbol(cs, Named(Ending(text, d - 1)), e.low, e.range, v);
      SymbolWrites(cs, text, d - 1, e.low, e.range, v, slots, bytes);
      WritesOne(low, range, EscapeSlot(c), SlotsOf(text, d - 1, v) + slots, rest.emitted + bytes);
      Associates([EscapeSlot(c)], SlotsOf(text, d - 1, v), slots);
      Associates(e.emitted, rest.emitted, bytes);
    } else {
      SymbolWrites(cs, text, d - 1, low, range, v, slots, bytes);
      assert SlotsOf(text, d, v) == SlotsOf(text, d - 1, v);
    }
  }

  lemma Associates<T>(a: seq<T>, b: seq<T>, c: seq<T>)
    ensures a + (b + c) == (a + b) + c
  {
  }

  lemma SlotsAre(c: Context, m: minimum, l: seq<byte>, v: byte)
    requires Shows(c, m, l)
    ensures SymbolSlot(c, m, v) == Slot(EscapesAfter(l, m) + (if m == 1 then v else 0) + BelowAfter(l, m, v),
                                        m + CountAfter(l, m, v), TotalAfter(l, m))
    ensures EscapeSlot(c) == Slot(0, EscapesAfter(l, m), TotalAfter(l, m))
    ensures m == 0 ==> (Escapes(c) <==> l != [])
  {
    hide Ordered, ValidContext, CountAfter, EscapesAfter, BelowAfter, TotalAfter, CountOf, CountBelow, Has, WalkUnder,
         WalkCount;
    OrderOf(c, m);
    WalkIsCumulative(c.tree, -1, 256, v);
    ShowsBelow(c, m, l, v);
    ShowsTotal(c, m, l);
    EscapesWhenSeen(c, m, l);
  }

  lemma EscapesWhenSeen(c: Context, m: minimum, l: seq<byte>)
    requires Shows(c, m, l)
    ensures m == 0 ==> (Escapes(c) <==> l != [])
  {
    hide CountAfter, EscapesAfter, BelowAfter, TotalAfter, CountOf, Ordered, Counted, Sum;
    ShowsEmpty(c, m, l);
    if m == 0 && l != [] {
      SeenMeansEscapes(c, m, l[0]);
    }
  }

  lemma WritesOne(low: int, range: int, slot: Slot, slots: seq<Slot>, bytes: seq<byte>)
    requires Ready(low, range) && slot.Valid()
    requires var n := EncodeSlot(low, range, slot); Writes(n.low, n.range, slots, bytes)
    ensures Writes(low, range, [slot] + slots, EncodeSlot(low, range, slot).emitted + bytes)
  {
    hide Normalize;
    var n := EncodeSlot(low, range, slot);
    assert ([slot] + slots)[1..] == slots;
    assert (n.emitted + bytes)[|n.emitted|..] == bytes;
  }

  lemma {:induction false} EncodeWrites(p: Model, text: seq<byte>, low: int, range: int, input: seq<byte>)
    requires ValidModel(p) && Reflects(p, text) && Ready(low, range)
    ensures Writes(low, range, AllSlots(text, input), Encode(p, low, range, input))
    decreases |input|
  {
    hide EncodeSymbol, Learn, Ready, ValidContexts, ShowsText, Writes, SlotsOf, Extended;
    if input == [] {
      WritesNone(low, range);
    } else {
      var v := input[0];
      var n := EncodeSymbol(p.contexts, p.history, low, range, v);
      LearnKeepsValid(p, HitLevel(p.contexts, p.history, v), v);
      LearnReflects(p, text, v);
      EncodeWrites(LearnSymbol(p, v), Extended(text, v), n.low, n.range, input[1..]);
      SymbolWrites(p.contexts, text, Order(text), low, range, v, AllSlots(Extended(text, v), input[1..]),
                   Encode(LearnSymbol(p, v), n.low, n.range, input[1..]));
    }
  }

  lemma WritesNone(low: int, range: int)
    requires Ready(low, range)
    ensures Writes(low, range, [], Flush(low))
  {
  }

  /** The compressor writes what counting says, for every input. */
  lemma CompressedByCounting(input: seq<byte>)
    ensures Ready(0, WORD - 1) && Writes(0, WORD - 1, AllSlots([], input), Compressed(input))
  {
    FreshIsValid();
    FreshReflects();
    EncodeWrites(FRESH, [], 0, WORD - 1, input);
  }

  // ---- the answer for one byte ----

  lemma {:induction false} FlushIsShort(low: int)
    requires 0 < low < WORD
    ensures 1 <= |Flush(low)| <= SignificantBytes(low) && Flush(low)[|Flush(low)| - 1] != 0
    decreases SignificantBytes(low)
  {
    ShiftDropsByte(low);
    if low % TOP != 0 {
      FlushIsShort(low % TOP * 256);
    } else {
      assert Flush(low % TOP * 256) == [];
    }
  }

  lemma OneByteSlots(v: byte)
    ensures AllSlots([], [v]) == [Slot(1 + v, 1, 257)]
  {
    var text: seq<byte> := [];
    var l := Seen(text, Ending(text, 0));
    NothingBelow(l, 1, v);
    NothingBelow(l, 1, 256);
    assert AllSlots(Extended(text, v), [v][1..]) == [];
  }

  /** The slot of one byte settles nothing, unless it is the last of all. */
  lemma OneByteNarrows(v: byte)
    ensures var low := (1 + v) * 0xFF_00FF;
            && Valid(low, 0xFF_00FF)
            && Normalize(low, 0xFF_00FF) == if v < 255 then Shifted(low, 0xFF_00FF, [])
                                            else Shifted(0xFF_0000, 0xFF00_FF00, [0xFF])
  {
    var low := (1 + v) * 0xFF_00FF;
    if v < 255 {
      assert low / TOP == v && (low + 0xFF_00FF) / TOP == v + 1;
    } else {
      assert low == 0xFF00_FF00 && SameTopByte(low, (low + 0xFF_00FF) % WORD);
      assert low % TOP * 256 == 0xFF_0000 && 0xFF_00FF * 256 == 0xFF00_FF00;
      NotSettled(0xFF_0000, 0xFF00_FF00);
    }
  }

  lemma NotSettled(low: int, range: int)
    requires Valid(low, range) && !SameTopByte(low, (low + range) % WORD) && range >= BOTTOM
    ensures Normalize(low, range) == Shifted(low, range, [])
  {
  }

  lemma WritesAfter(low: int, range: int, slot: Slot, bytes: seq<byte>)
    requires Ready(low, range) && Writes(low, range, [slot], bytes)
    ensures slot.Valid() && Valid(NarrowLow(low, range, slot), NarrowRange(range, slot))
    ensures var n := Normalize(NarrowLow(low, range, slot), NarrowRange(range, slot));
            bytes == n.emitted + Flush(n.low)
  {
    hide Normalize, Flush;
    NarrowNests(low, range, slot);
    var n := Normalize(NarrowLow(low, range, slot), NarrowRange(range, slot));
    assert [slot][1..] == [];
    assert bytes == n.emitted + bytes[|n.emitted|..];
  }

  /** One byte is written as the base-256 digits of (1 + v) * (0xFFFFFFFF / 257), without the zeros at
      the end. */
  lemma OneByteAnswer(v: byte)
    ensures var c := Compressed([v]);
            && Window(c, 0) == (1 + v) * (0xFFFF_FFFF / 257)
            && 1 <= |c| <= 4 && c[|c| - 1] != 0
  {
    hide Flush, Normalize, Compressed, Writes;
    CompressedByCounting([v]);
    OneByteSlots(v);
    WritesAfter(0, WORD - 1, Slot(1 + v, 1, 257), Compressed([v]));
    OneByteNarrows(v);
    OneByteDigits(v, if v < 255 then [] else [0xFF], if v < 255 then (1 + v) * 0xFF_00FF else 0xFF_0000,
                  Compressed([v]));
  }

  lemma OneByteDigits(v: byte, emitted: seq<byte>, low: nat, c: seq<byte>)
    requires if v < 255 then emitted == [] && low == (1 + v) * 0xFF_00FF else emitted == [0xFF] && low == 0xFF_0000
    requires c == emitted + Flush(low)
    ensures Window(c, 0) == (1 + v) * (0xFFFF_FFFF / 257)
    ensures 1 <= |c| <= 4 && c[|c| - 1] != 0
  {
    FlushIsShort(low);
    hide Flush;
    assert c[|emitted|..] == Flush(low);
    FlushIsExact(c, |emitted|, low);
    WindowSlides(c, 0);
  }
}
