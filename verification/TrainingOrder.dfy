/** Contexts of different lengths are different contexts: what a byte does to one of them does not
    depend on the others, so they may be updated in any order. */
module TrainingOrder {
  import opened Words
  import opened RangeInterval
  import opened FrequencyTree
  import opened PpmModel
  import opened PpmCodec

  lemma {:induction false} LevelElsewhere(cs: Contexts, h: Path, c: Context, g: Path, v: byte)
    requires Depth(g) < Depth(h)
    ensures HitLevel(cs[h := c], g, v) == HitLevel(cs, g, v)
    decreases Depth(g)
  {
    ReplaceElsewhere(cs, h, c, g);
    if g.Sym? {
      LevelElsewhere(cs, h, c, Parent(g), v);
    }
  }

  lemma {:induction false} FreshElsewhere(cs: Contexts, h: Path, c: Context, g: Path, stop: nat, v: byte)
    requires Depth(g) < Depth(h) && stop <= Depth(g)
    ensures Fresh(cs[h := c], g, stop, v) == Fresh(cs, g, stop, v)
    decreases Depth(g)
  {
    ReplaceElsewhere(cs, h, c, g);
    if Depth(g) != stop {
      FreshElsewhere(cs, h, c, Parent(g), stop, v);
    }
  }

  lemma {:induction false} EncodeElsewhere(cs: Contexts, h: Path, c: Context, g: Path, low: int, range: int, v: byte)
    requires ValidContexts(cs) && ValidContexts(cs[h := c]) && Ready(low, range) && Depth(g) < Depth(h)
    ensures EncodeSymbol(cs[h := c], g, low, range, v) == EncodeSymbol(cs, g, low, range, v)
    decreases Depth(g)
  {
    hide EncodeSlot, Ready, ValidContext, SymbolSlot, EscapeSlot, Slot.Valid, Has;
    ReplaceElsewhere(cs, h, c, g);
    assert ValidAt(cs, g);
    var d := ContextOf(cs, g);
    SlotsAreValid(d, MinimumOf(g), v);
    if g.Sym? && !Has(d.tree, v) {
      if Escapes(d) {
        var n := EncodeSlot(low, range, EscapeSlot(d));
        EncodeElsewhere(cs, h, c, Parent(g), n.low, n.range, v);
      } else {
        EncodeElsewhere(cs, h, c, Parent(g), low, range, v);
      }
    }
  }

  // ---- the decompressor's order: the context the value was found in first ----

  /** Count v in every context from h down to, and without, the one of depth stop. */
  function Patch(cs: Contexts, h: Path, stop: nat, v: byte): Contexts
    requires stop <= Depth(h)
    decreases Depth(h)
  {
    if Depth(h) == stop then cs else Patch(BumpAt(cs, h, v), Parent(h), stop, v)
  }

  function Ancestor(h: Path, depth: nat): (g: Path)
    requires depth <= Depth(h)
    ensures Depth(g) == depth
    decreases Depth(h)
  {
    if Depth(h) == depth then h else Ancestor(Parent(h), depth)
  }

  lemma {:induction false} AncestorStep(h: Path, depth: nat)
    requires 0 < depth <= Depth(h)
    ensures Parent(Ancestor(h, depth)) == Ancestor(h, depth - 1)
    decreases Depth(h)
  {
    if depth != Depth(h) {
      AncestorStep(Parent(h), depth);
    }
  }

  lemma BumpsCommute(cs: Contexts, g: Path, h: Path, v: byte)
    requires g != h
    ensures BumpAt(BumpAt(cs, g, v), h, v) == BumpAt(BumpAt(cs, h, v), g, v)
  {
    hide Bump;
    ReplaceElsewhere(cs, g, Bump(ContextOf(cs, g), MinimumOf(g), v), h);
    ReplaceElsewhere(cs, h, Bump(ContextOf(cs, h), MinimumOf(h), v), g);
  }

  lemma {:induction false} PatchingIsTraining(cs: Contexts, h: Path, stop: nat, v: byte)
    requires stop <= Depth(h)
    ensures Patch(BumpAt(cs, Ancestor(h, stop), v), h, stop, v) == Train(cs, h, stop, v)
    decreases Depth(h)
  {
    hide BumpAt;
    if Depth(h) != stop {
      BumpsCommute(cs, Ancestor(h, stop), h, v);
      PatchingIsTraining(BumpAt(cs, h, v), Parent(h), stop, v);
    }
  }

  /** Where the decompressor's patching is: from f down to, and without, the context at depth stop. */
  ghost predicate Patched(cs0: Contexts, h: Path, stop: nat, v: byte, next0: nat, cs: Contexts, f: Path, next: nat) {
    && stop <= Depth(f) <= Depth(h) && ValidContexts(cs) && Ancestor(f, stop) == Ancestor(h, stop)
    && Patch(cs, f, stop, v) == Train(cs0, h, stop, v)
    && next <= next0 + 1 + Depth(h) - Depth(f)
    && next + Fresh(cs0, f, stop, v) == next0 + Fresh(cs0, h, stop, v) + IsNew(cs0, Ancestor(h, stop), v)
    && forall e: Path :: stop < Depth(e) <= Depth(f) ==> ContextOf(cs, e) == ContextOf(cs0, e)
  }

  lemma PatchStart(cs0: Contexts, h: Path, stop: nat, v: byte, next0: nat)
    requires ValidContexts(cs0) && stop <= Depth(h)
    ensures Patched(cs0, h, stop, v, next0, BumpAt(cs0, Ancestor(h, stop), v), h,
                    next0 + IsNew(cs0, Ancestor(h, stop), v))
  {
    hide Bump, Has, ValidContexts, Train, Fresh, Patch;
    var g := Ancestor(h, stop);
    BumpAtKeepsValid(cs0, g, v);
    PatchingIsTraining(cs0, h, stop, v);
  }

  lemma PatchUnfolds(cs: Contexts, f: Path, stop: nat, v: byte)
    requires stop < Depth(f)
    ensures f.Sym? && Ancestor(Parent(f), stop) == Ancestor(f, stop)
    ensures Patch(cs, f, stop, v) == Patch(BumpAt(cs, f, v), Parent(f), stop, v)
    ensures Fresh(cs, f, stop, v) == IsNew(cs, f, v) + Fresh(cs, Parent(f), stop, v)
  {
    hide BumpAt, IsNew;
  }

  lemma SameIsNew(cs0: Contexts, cs: Contexts, f: Path, v: byte)
    requires ContextOf(cs, f) == ContextOf(cs0, f)
    ensures IsNew(cs, f, v) == IsNew(cs0, f, v) <= 1
  {
    hide ContextOf, Has;
  }

  lemma BumpedElsewhere(cs: Contexts, f: Path, v: byte, e: Path)
    requires Depth(e) < Depth(f)
    ensures ContextOf(BumpAt(cs, f, v), e) == ContextOf(cs, e)
  {
    hide Bump;
    ReplaceElsewhere(cs, f, Bump(ContextOf(cs, f), MinimumOf(f), v), e);
  }

  lemma PatchOn(cs0: Contexts, h: Path, stop: nat, v: byte, next0: nat, cs: Contexts, f: Path, next: nat)
    requires Patched(cs0, h, stop, v, next0, cs, f, next) && Depth(f) != stop
    ensures ValidContexts(cs) && f.Sym? && IsNew(cs, f, v) == IsNew(cs0, f, v)
    ensures Patched(cs0, h, stop, v, next0, BumpAt(cs, f, v), Parent(f), next + IsNew(cs, f, v))
  {
    hide BumpAt, IsNew, ValidContexts, Train, Patch, Fresh, Ancestor;
    BumpAtKeepsValid(cs, f, v);
    PatchUnfolds(cs, f, stop, v);
    PatchUnfolds(cs0, f, stop, v);
    SameIsNew(cs0, cs, f, v);
    forall e: Path | stop < Depth(e) <= Depth(Parent(f)) ensures ContextOf(BumpAt(cs, f, v), e) == ContextOf(cs0, e) {
      BumpedElsewhere(cs, f, v, e);
    }
  }

  lemma PatchEnd(cs0: Contexts, h: Path, stop: nat, v: byte, next0: nat, cs: Contexts, f: Path, next: nat)
    requires Patched(cs0, h, stop, v, next0, cs, f, next) && Depth(f) == stop
    ensures f == Ancestor(h, stop) && cs == Train(cs0, h, stop, v) && next == next0 + Fresh(cs0, h, stop, v)
  {
    hide Bump, Has, ValidContexts, Train;
  }
}
