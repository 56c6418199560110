/** The adaptive order-2 model, with every context named by the (at most two) bytes before it
    instead of by where its symbol happens to be allocated: the form in which the compressor's
    and the decompressor's models are equal. */
module PpmModel {
  import opened Words
  import opened RangeInterval
  import opened FrequencyTree

  const SYMBOL_DELTA := 3
  const SYMBOL_MINIMUM := 1
  const ESCAPE_MINIMUM := 1
  const SUBCONTEXT_ORDER := 2
  const SUBCONTEXT_SYMBOL_DELTA := 2
  const SUBCONTEXT_ESCAPE_DELTA := 5
  const MAXIMUM_SYMBOLS := 4096

  datatype Context = Context(tree: Tree, escapes: nat, total: nat)

  /** A context that has seen nothing: a new symbol's (m = 0) or the root's (m = 1). */
  function Unseen(m: minimum): Context {
    var escapes := if m == 1 then ESCAPE_MINIMUM else 0;
    Context(Leaf, escapes, escapes + 256 * m)
  }

  function Delta(m: minimum): nat {
    if m == 1 then SYMBOL_DELTA else SUBCONTEXT_SYMBOL_DELTA
  }

  /** What every context keeps: 8-bit counts with room for the next update, a total that is the
      sum of its parts and small enough for the coder, and an escape slot once it has symbols. */
  predicate ValidContext(c: Context, m: minimum) {
    && WellFormed(c.tree, 0xFF - Delta(m))
    && c.total == c.escapes + Sum(c.tree) + 256 * m
    && c.total <= BOTTOM - 0x100
    && (c.escapes == 0 <==> m == 0 && c.tree.Leaf?)
  }

  function Halved(c: Context, m: minimum): Context {
    var escapes := c.escapes - c.escapes / 2;
    Context(Rescale(c.tree), escapes, Sum(Rescale(c.tree)) + escapes + 256 * m)
  }

  /** Counting one more occurrence of v in a context. */
  function Bump(c: Context, m: minimum, v: byte): Context {
    var surprise := if m == 0 && !Has(c.tree, v) then SUBCONTEXT_ESCAPE_DELTA else 0;
    var grown := Context(Insert(c.tree, v, Delta(m)), c.escapes + surprise, c.total + surprise + Delta(m));
    if WalkCount(c.tree, v) > 0xFF - 2 * Delta(m) || grown.total > BOTTOM - 0x100
    then Halved(grown, m) else grown
  }

  lemma HalvedIsValid(c: Context, m: minimum)
    requires Ordered(c.tree, -1, 256) && Counted(c.tree, 0xFF) && c.tree.Node?
    requires c.escapes > 0 && c.total == c.escapes + Sum(c.tree) + 256 * m
    requires c.total <= BOTTOM
    ensures ValidContext(Halved(c, m), m)
  {
    var most := 0xFF - Delta(m);
    RescaleHalves(c.tree, -1, 256, 0xFF);
    CountedWeaker(Rescale(c.tree), 0xFF - 0xFF / 2, most);
    hide Rescale, Sum, Ordered, Counted;
  }

  lemma BumpKeepsValid(c: Context, m: minimum, v: byte)
    requires ValidContext(c, m)
    ensures ValidContext(Bump(c, m, v), m)
  {
    hide Insert, Sum, Ordered, Counted, WalkCount, Rescale, Halved;
    var most := 0xFF - Delta(m);
    PresentIsCounted(c.tree, most, v);
    InsertAdds(c.tree, v, Delta(m));
    InsertKeepsOrder(c.tree, -1, 256, v, Delta(m));
    InsertKeepsCounted(c.tree, v, Delta(m), most, 0xFF);
    var surprise := if m == 0 && !Has(c.tree, v) then SUBCONTEXT_ESCAPE_DELTA else 0;
    var grown := Context(Insert(c.tree, v, Delta(m)), c.escapes + surprise, c.total + surprise + Delta(m));
    if WalkCount(c.tree, v) > 0xFF - 2 * Delta(m) || grown.total > BOTTOM - 0x100 {
      HalvedIsValid(grown, m);
    } else {
      InsertKeepsCounted(c.tree, v, Delta(m), most, most);
    }
  }

  // ---- the slots a context gives to its symbols ----

  lemma TotalIsBounded(c: Context, m: minimum)
    requires ValidContext(c, m)
    ensures c.escapes <= c.total <= BOTTOM - 0x100
  {
  }

  lemma CountedWhenSeen(c: Context, m: minimum, v: byte)
    requires ValidContext(c, m)
    ensures m + WalkCount(c.tree, v) == 0 <==> m == 0 && !Has(c.tree, v)
  {
    PresentIsCounted(c.tree, 0xFF - Delta(m), v);
  }

  function SymbolSlot(c: Context, m: minimum, v: byte): Slot {
    Slot(c.escapes + Times(v, m) + WalkUnder(c.tree, v), m + WalkCount(c.tree, v), c.total)
  }

  function EscapeSlot(c: Context): Slot {
    Slot(0, c.escapes, c.total)
  }

  lemma SlotsAreValid(c: Context, m: minimum, v: byte)
    requires ValidContext(c, m)
    ensures m == 1 || Has(c.tree, v) ==> SymbolSlot(c, m, v).Valid()
    ensures 0 < c.escapes < c.total ==> EscapeSlot(c).Valid()
  {
    SlotFits(c.tree, v);
    PresentIsCounted(c.tree, 0xFF - Delta(m), v);
  }

  /** Unless the code is beyond the total, the decoder's walk ends at a symbol and its slot. */
  lemma FoundInContext(c: Context, m: minimum, code: int)
    requires ValidContext(c, m) && c.escapes <= code && (m == 1 ==> code < c.total)
    ensures Find(c.tree, code - c.escapes, 0, m).NoHit? <==> c.total <= code
    ensures var h := Find(c.tree, code - c.escapes, 0, m); h.Hit? ==>
              && 0 <= h.value < 256
              && Slot(c.escapes + h.under, h.count, c.total) == SymbolSlot(c, m, h.value)
              && SymbolSlot(c, m, h.value).Valid()
              && (m == 0 ==> Has(c.tree, h.value))
  {
    if m == 0 && c.total <= code {
      CodeBeyondIsMissed(c.tree, code - c.escapes, 0, m);
    } else {
      if m == 0 {
        CodeIsFound(c.tree, code - c.escapes, 0, m);
      } else {
        RootAlwaysHits(c.tree, code - c.escapes, 0);
      }
      FoundSlotIsWalked(c.tree, -1, 256, code - c.escapes, 0, m);
      var h := Find(c.tree, code - c.escapes, 0, m);
      PresentIsCounted(c.tree, 0xFF - Delta(m), h.value);
      SlotFits(c.tree, h.value);
    }
  }

  lemma {:induction false} RootAlwaysHits(t: Tree, code: int, before: int)
    ensures Find(t, code, before, 1).Hit?
  {
    match t
    case Leaf =>
    case Node(_, c, l, r) =>
      RootAlwaysHits(r, code, before + c + Sum(l));
      RootAlwaysHits(l, code, before);
  }

  // ---- the model as a whole ----

  /** A symbol, named by the context it occurs in and its value; it is itself the context of the
      symbols seen after it. */
  datatype Path = Root | Sym(context: Path, value: byte)

  function Depth(p: Path): nat {
    match p
    case Root => 0
    case Sym(c, _) => Depth(c) + 1
  }

  /** The same symbol in the next shorter context: what a symbol's parent link leads to. */
  function Parent(p: Path): (q: Path)
    ensures p.Sym? ==> Depth(q) + 1 == Depth(p)
  {
    match p
    case Root => Root
    case Sym(Root, _) => Root
    case Sym(c, v) => Sym(Parent(c), v)
  }

  type Contexts = map<Path, Context>

  /** used counts the allocated symbols, the root's own included. */
  datatype Model = Model(contexts: Contexts, history: Path, used: nat)

  const FRESH := Model(map[], Root, 1)

  function MinimumOf(h: Path): minimum {
    if h.Root? then SYMBOL_MINIMUM else 0
  }

  function ContextOf(cs: Contexts, h: Path): Context {
    if h in cs then cs[h] else Unseen(MinimumOf(h))
  }

  predicate ValidAt(cs: Contexts, h: Path) {
    ValidContext(ContextOf(cs, h), MinimumOf(h))
  }

  ghost predicate ValidContexts(cs: Contexts) {
    forall h: Path :: ValidAt(cs, h)
  }

  ghost predicate ValidModel(p: Model) {
    && ValidContexts(p.contexts)
    && Depth(p.history) <= SUBCONTEXT_ORDER
    && p.used < MAXIMUM_SYMBOLS - SUBCONTEXT_ORDER
  }

  /** The depth of the first context, from the longest one down, that has seen v; the root has
      seen all. */
  function HitLevel(cs: Contexts, h: Path, v: byte): (level: nat)
    ensures level <= Depth(h)
    decreases Depth(h)
  {
    if h.Root? || Has(ContextOf(cs, h).tree, v) then Depth(h) else HitLevel(cs, Parent(h), v)
  }

  function BumpAt(cs: Contexts, h: Path, v: byte): Contexts {
    cs[h := Bump(ContextOf(cs, h), MinimumOf(h), v)]
  }

  /** Count v in every context from h down to the one of depth stop. */
  function Train(cs: Contexts, h: Path, stop: nat, v: byte): Contexts
    requires stop <= Depth(h)
    decreases Depth(h)
  {
    var bumped := BumpAt(cs, h, v);
    if Depth(h) == stop then bumped else Train(bumped, Parent(h), stop, v)
  }

  function IsNew(cs: Contexts, h: Path, v: byte): nat {
    if Has(ContextOf(cs, h).tree, v) then 0 else 1
  }

  /** How many symbols that allocates. */
  function Fresh(cs: Contexts, h: Path, stop: nat, v: byte): (n: nat)
    requires stop <= Depth(h)
    ensures n <= Depth(h) - stop + 1
    decreases Depth(h)
  {
    IsNew(cs, h, v) + if Depth(h) == stop then 0 else Fresh(cs, Parent(h), stop, v)
  }

  function NextHistory(h: Path, v: byte): (h': Path)
    ensures Depth(h) <= SUBCONTEXT_ORDER ==> Depth(h') <= SUBCONTEXT_ORDER
  {
    if Depth(h) >= SUBCONTEXT_ORDER then Parent(Sym(h, v)) else Sym(h, v)
  }

  /** The model after one more byte; it starts afresh when the symbol table is nearly full. */
  function Learn(p: Model, stop: nat, v: byte): Model
    requires stop <= Depth(p.history)
  {
    var used := p.used + Fresh(p.contexts, p.history, stop, v);
    if used >= MAXIMUM_SYMBOLS - SUBCONTEXT_ORDER then FRESH
    else Model(Train(p.contexts, p.history, stop, v), NextHistory(p.history, v), used)
  }

  lemma ReplaceElsewhere(cs: Contexts, h: Path, c: Context, g: Path)
    ensures ContextOf(cs[h := c], g) == if g == h then c else ContextOf(cs, g)
  {
  }

  lemma ReplaceKeepsValid(cs: Contexts, h: Path, c: Context)
    requires ValidContexts(cs) && ValidContext(c, MinimumOf(h))
    ensures ValidContexts(cs[h := c])
  {
    hide ValidContext;
    var cs' := cs[h := c];
    forall g: Path ensures ValidAt(cs', g) {
      ReplaceElsewhere(cs, h, c, g);
      assert ValidAt(cs, g);
    }
  }

  lemma BumpAtKeepsValid(cs: Contexts, h: Path, v: byte)
    requires ValidContexts(cs)
    ensures ValidContexts(BumpAt(cs, h, v))
  {
    hide ValidContext, Bump;
    assert ValidAt(cs, h);
    BumpKeepsValid(ContextOf(cs, h), MinimumOf(h), v);
    ReplaceKeepsValid(cs, h, Bump(ContextOf(cs, h), MinimumOf(h), v));
  }

  lemma {:induction false} TrainKeepsValid(cs: Contexts, h: Path, stop: nat, v: byte)
    requires ValidContexts(cs) && stop <= Depth(h)
    ensures ValidContexts(Train(cs, h, stop, v))
    decreases Depth(h)
  {
    BumpAtKeepsValid(cs, h, v);
    if Depth(h) != stop {
      TrainKeepsValid(BumpAt(cs, h, v), Parent(h), stop, v);
    }
  }

  lemma FreshIsValid()
    ensures ValidModel(FRESH)
  {
    forall h: Path ensures ValidAt(FRESH.contexts, h) {
    }
  }

  /** Learning a byte keeps the model valid, and never needs a symbol the table does not have. */
  lemma LearnKeepsValid(p: Model, stop: nat, v: byte)
    requires ValidModel(p) && stop <= Depth(p.history)
    ensures ValidModel(Learn(p, stop, v))
    ensures p.used + Fresh(p.contexts, p.history, stop, v) <= MAXIMUM_SYMBOLS
  {
    FreshIsValid();
    TrainKeepsValid(p.contexts, p.history, stop, v);
  }
}
