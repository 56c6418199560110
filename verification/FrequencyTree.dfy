/** One context's binary search tree of symbol counts: the walks of the CONTEXT_ENCODE and
    CONTEXT_DECODE macros of src/enet/compress.c, and what the cumulative counts mean. */
module FrequencyTree {
  import opened Words

  datatype Tree = Leaf | Node(value: byte, count: nat, left: Tree, right: Tree)

  /** Every symbol has this many implicit occurrences: 1 in the root context, 0 elsewhere. */
  type minimum = m: int | 0 <= m <= 1

  function Times(n: int, m: minimum): int {
    if m == 0 then 0 else n
  }

  // ---- what a tree means, whatever its shape ----

  function Sum(t: Tree): nat {
    match t
    case Leaf => 0
    case Node(_, c, l, r) => c + Sum(l) + Sum(r)
  }

  function CountOf(t: Tree, v: byte): nat {
    match t
    case Leaf => 0
    case Node(u, c, l, r) => (if u == v then c else 0) + CountOf(l, v) + CountOf(r, v)
  }

  function CountBelow(t: Tree, v: byte): nat {
    match t
    case Leaf => 0
    case Node(u, c, l, r) => (if u < v then c else 0) + CountBelow(l, v) + CountBelow(r, v)
  }

  /** Values strictly between lo and hi, each once, in search order. */
  predicate Ordered(t: Tree, lo: int, hi: int) {
    match t
    case Leaf => true
    case Node(v, _, l, r) => lo < v < hi && Ordered(l, lo, v) && Ordered(r, v, hi)
  }

  predicate Counted(t: Tree, most: nat) {
    match t
    case Leaf => true
    case Node(_, c, l, r) => 1 <= c <= most && Counted(l, most) && Counted(r, most)
  }

  predicate WellFormed(t: Tree, most: nat) {
    Ordered(t, -1, 256) && Counted(t, most)
  }

  // ---- the walks ----

  predicate Has(t: Tree, v: byte) {
    match t
    case Leaf => false
    case Node(u, _, l, r) => if v < u then Has(l, v) else if v > u then Has(r, v) else true
  }

  function WalkUnder(t: Tree, v: byte): nat {
    match t
    case Leaf => 0
    case Node(u, c, l, r) =>
      if v < u then WalkUnder(l, v) else if v > u then c + Sum(l) + WalkUnder(r, v) else Sum(l)
  }

  function WalkCount(t: Tree, v: byte): nat {
    match t
    case Leaf => 0
    case Node(u, c, l, r) => if v < u then WalkCount(l, v) else if v > u then WalkCount(r, v) else c
  }

  function Insert(t: Tree, v: byte, update: nat): Tree {
    match t
    case Leaf => Node(v, update, Leaf, Leaf)
    case Node(u, c, l, r) =>
      if v < u then Node(u, c, Insert(l, v, update), r)
      else if v > u then Node(u, c, l, Insert(r, v, update))
      else Node(u, c + update, l, r)
  }

  function Rescale(t: Tree): Tree {
    match t
    case Leaf => Leaf
    case Node(v, c, l, r) => Node(v, c - c / 2, Rescale(l), Rescale(r))
  }

  datatype Hit = Hit(value: int, under: int, count: int) | NoHit

  /** The decoder's walk: `before` counts everything below this subtree. */
  function Find(t: Tree, code: int, before: int, m: minimum): Hit {
    match t
    case Leaf => if m == 0 then NoHit else Hit(code - before, code, 1)
    case Node(v, c, l, r) =>
      var start := before + Sum(l) + Times(v, m);
      if code >= start + c + m then Find(r, code, before + c + Sum(l), m)
      else if code < start then Find(l, code, before, m)
      else Hit(v, start, c + m)
  }

  // ---- the encoder's walk computes cumulative counts ----

  lemma {:induction false} OutsideRange(t: Tree, lo: int, hi: int, v: byte)
    requires Ordered(t, lo, hi)
    ensures v <= lo ==> CountBelow(t, v) == 0 && CountOf(t, v) == 0
    ensures v >= hi ==> CountBelow(t, v) == Sum(t) && CountOf(t, v) == 0
  {
    match t
    case Leaf =>
    case Node(u, _, l, r) =>
      OutsideRange(l, lo, u, v);
      OutsideRange(r, u, hi, v);
  }

  lemma {:induction false} WalkIsCumulative(t: Tree, lo: int, hi: int, v: byte)
    requires Ordered(t, lo, hi)
    ensures WalkUnder(t, v) == CountBelow(t, v)
    ensures WalkCount(t, v) == CountOf(t, v)
    ensures Has(t, v) || CountOf(t, v) == 0
  {
    match t
    case Leaf =>
    case Node(u, _, l, r) =>
      OutsideRange(l, lo, u, v);
      OutsideRange(r, u, hi, v);
      WalkIsCumulative(l, lo, u, v);
      WalkIsCumulative(r, u, hi, v);
  }

  lemma {:induction false} SlotFits(t: Tree, v: byte)
    ensures WalkUnder(t, v) + WalkCount(t, v) <= Sum(t)
  {
    match t
    case Leaf =>
    case Node(_, _, l, r) =>
      SlotFits(l, v);
      SlotFits(r, v);
  }

  lemma {:induction false} PresentIsCounted(t: Tree, most: nat, v: byte)
    requires Counted(t, most)
    ensures Has(t, v) <==> WalkCount(t, v) > 0
    ensures WalkCount(t, v) <= most
  {
    match t
    case Leaf =>
    case Node(_, _, l, r) =>
      PresentIsCounted(l, most, v);
      PresentIsCounted(r, most, v);
  }

  // ---- the decoder's walk inverts it ----

  /** Any code inside v's slot makes the decoder find v and that same slot. */
  lemma {:induction false} FindInvertsWalk(t: Tree, lo: int, hi: int, v: byte, code: int, before: int, m: minimum)
    requires Ordered(t, lo, hi) && lo < v < hi
    requires before + Times(v, m) + WalkUnder(t, v) <= code
    requires code < before + Times(v, m) + WalkUnder(t, v) + m + WalkCount(t, v)
    ensures Find(t, code, before, m)
         == Hit(v, before + Times(v, m) + WalkUnder(t, v), m + WalkCount(t, v))
  {
    match t
    case Leaf =>
    case Node(u, c, l, r) =>
      if v < u {
        SlotFits(l, v);
        FindInvertsWalk(l, lo, u, v, code, before, m);
      } else if v > u {
        FindInvertsWalk(r, u, hi, v, code, before + c + Sum(l), m);
      }
  }

  /** Whatever the code is, a symbol the decoder finds is found with the slot the encoder uses
      for it, and the code lies in that slot. */
  lemma {:induction false} FoundSlotIsWalked(t: Tree, lo: int, hi: int, code: int, before: int, m: minimum)
    requires Ordered(t, lo, hi)
    requires before + Times(lo + 1, m) <= code < before + Sum(t) + Times(hi, m)
    requires Find(t, code, before, m).Hit?
    ensures var h := Find(t, code, before, m);
            && lo < h.value < hi && h.under <= code < h.under + h.count
            && (0 <= h.value < 256 ==>
                  && h.under == before + Times(h.value, m) + WalkUnder(t, h.value)
                  && h.count == m + WalkCount(t, h.value))
  {
    match t
    case Leaf =>
    case Node(u, c, l, r) =>
      var start := before + Sum(l) + Times(u, m);
      if code >= start + c + m {
        FoundSlotIsWalked(r, u, hi, code, before + c + Sum(l), m);
      } else if code < start {
        FoundSlotIsWalked(l, lo, u, code, before, m);
      }
  }

  /** A code below the total is always found. */
  lemma {:induction false} CodeIsFound(t: Tree, code: int, before: int, m: minimum)
    requires before <= code < before + Sum(t)
    requires m == 0
    ensures Find(t, code, before, m).Hit?
  {
    match t
    case Leaf =>
    case Node(_, c, l, r) =>
      if code >= before + Sum(l) + c {
        CodeIsFound(r, code, before + c + Sum(l), m);
      } else if code < before + Sum(l) {
        CodeIsFound(l, code, before, m);
      }
  }

  lemma {:induction false} CodeBeyondIsMissed(t: Tree, code: int, before: int, m: minimum)
    requires before + Sum(t) <= code && m == 0
    ensures Find(t, code, before, m) == NoHit
  {
    match t
    case Leaf =>
    case Node(_, c, l, r) =>
      CodeBeyondIsMissed(r, code, before + c + Sum(l), m);
  }

  // ---- updates ----

  lemma {:induction false} InsertAdds(t: Tree, v: byte, update: nat)
    ensures Sum(Insert(t, v, update)) == Sum(t) + update
    ensures Insert(t, v, update).Node?
  {
    match t
    case Leaf =>
    case Node(u, _, l, r) =>
      if v < u {
        InsertAdds(l, v, update);
      } else if v > u {
        InsertAdds(r, v, update);
      }
  }

  /** Only v's own count changes. */
  lemma {:induction false} InsertCounts(t: Tree, v: byte, update: nat, u: byte)
    ensures CountOf(Insert(t, v, update), u) == CountOf(t, u) + if u == v then update else 0
  {
    match t
    case Leaf =>
    case Node(w, _, l, r) =>
      if v < w {
        InsertCounts(l, v, update, u);
      } else if v > w {
        InsertCounts(r, v, update, u);
      }
  }

  lemma {:induction false} InsertHas(t: Tree, v: byte, update: nat, u: byte)
    ensures Has(Insert(t, v, update), u) <==> u == v || Has(t, u)
  {
    match t
    case Leaf =>
    case Node(w, _, l, r) =>
      if v < w {
        InsertHas(l, v, update, u);
      } else if v > w {
        InsertHas(r, v, update, u);
      }
  }

  lemma {:induction false} InsertKeepsOrder(t: Tree, lo: int, hi: int, v: byte, update: nat)
    requires Ordered(t, lo, hi) && lo < v < hi
    ensures Ordered(Insert(t, v, update), lo, hi)
  {
    match t
    case Leaf =>
    case Node(u, _, l, r) =>
      if v < u {
        InsertKeepsOrder(l, lo, u, v, update);
      } else if v > u {
        InsertKeepsOrder(r, u, hi, v, update);
      }
  }

  lemma {:induction false} InsertKeepsCounted(t: Tree, v: byte, update: nat, most: nat, more: nat)
    requires Counted(t, most) && most <= more && 1 <= update <= more
    requires WalkCount(t, v) + update <= more
    ensures Counted(Insert(t, v, update), more)
  {
    match t
    case Leaf =>
    case Node(u, _, l, r) =>
      CountedWeaker(l, most, more);
      CountedWeaker(r, most, more);
      if v < u {
        InsertKeepsCounted(l, v, update, most, more);
      } else if v > u {
        InsertKeepsCounted(r, v, update, most, more);
      }
  }

  lemma {:induction false} CountedWeaker(t: Tree, most: nat, more: nat)
    requires Counted(t, most) && most <= more
    ensures Counted(t, more)
  {
    match t
    case Leaf =>
    case Node(_, _, l, r) =>
      CountedWeaker(l, most, more);
      CountedWeaker(r, most, more);
  }

  /** Rescaling halves every count, rounding up, so no symbol is lost. */
  lemma {:induction false} RescaleHalves(t: Tree, lo: int, hi: int, most: nat)
    requires Ordered(t, lo, hi) && Counted(t, most) && lo < hi
    ensures Ordered(Rescale(t), lo, hi) && Counted(Rescale(t), most - most / 2)
    ensures Sum(Rescale(t)) * 2 <= Sum(t) + hi - lo - 1
    ensures Rescale(t).Leaf? == t.Leaf?
  {
    match t
    case Leaf =>
    case Node(u, _, l, r) =>
      RescaleHalves(l, lo, u, most);
      RescaleHalves(r, u, hi, most);
  }

  lemma {:induction false} RescaleHas(t: Tree, v: byte)
    ensures Has(Rescale(t), v) == Has(t, v)
  {
    match t
    case Leaf =>
    case Node(_, _, l, r) =>
      RescaleHas(l, v);
      RescaleHas(r, v);
  }
}
