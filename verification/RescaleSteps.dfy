/** The rescaling of a context's counts (enet_symbol_rescale) along its loop and recursion. */
module RescaleSteps {
  import opened Words
  import opened FrequencyTree
  import opened PpmModel
  import opened SymbolMemory
  import opened TableUpdates

  /** Every symbol of t outside the subtree cur has been halved; nothing else has changed. */
  ghost predicate HalvedSoFar(mem0: Memory, mem: Memory, at: Places, p: Path, t: Tree, cur: Tree) {
    && |mem| == |mem0|
    && (forall v: byte :: Has(cur, v) ==> Has(t, v) && Subtree(t, v) == Subtree(cur, v))
    && (forall v: byte :: Has(t, v) ==> Sym(p, v) in at && at[Sym(p, v)] < |mem|)
    && (forall v: byte :: Has(t, v) && !Has(cur, v) ==>
          IsHalved(mem[at[Sym(p, v)]], mem0[at[Sym(p, v)]], Subtree(t, v)))
    && (forall q :: q in at && at[q] < |mem| && !(IsChild(q, p) && Has(t, q.value) && !Has(cur, q.value)) ==>
          mem[at[q]] == mem0[at[q]])
  }

  lemma {:induction false} HasPlaces(mem: Memory, at: Places, p: Path, i: nat, t: Tree, v: byte)
    requires TreeAt(mem, at, p, i, t) && Has(t, v)
    ensures Sym(p, v) in at && at[Sym(p, v)] < |mem|
    decreases t
  {
    if v < t.value {
      HasPlaces(mem, at, p, Link(i, mem[i].left), t.left, v);
    } else if v > t.value {
      HasPlaces(mem, at, p, Link(i, mem[i].right), t.right, v);
    }
  }

  lemma NothingHalved(mem: Memory, at: Places, p: Path, i: nat, t: Tree, lo: int, hi: int)
    requires TreeAt(mem, at, p, i, t)
    ensures HalvedSoFar(mem, mem, at, p, t, t)
  {
    hide Has, Subtree, TreeAt;
    forall v: byte | Has(t, v) ensures Sym(p, v) in at && at[Sym(p, v)] < |mem| {
      HasPlaces(mem, at, p, i, t, v);
    }
  }

  lemma AllHalved(mem0: Memory, mem: Memory, at: Places, p: Path, t: Tree, cur: Tree)
    requires HalvedSoFar(mem0, mem, at, p, t, cur) && cur.Leaf?
    ensures RescaledIn(mem0, mem, at, p, t) && OnlyTree(mem0, mem, at, p, t)
  {
    hide Subtree, IsHalved;
    assert forall v: byte :: !Has(cur, v);
  }

  lemma {:induction false} SumShrinks(t: Tree, most: nat)
    requires Counted(t, most)
    ensures Sum(Rescale(t)) <= Sum(t)
  {
    match t
    case Leaf =>
    case Node(_, _, l, r) =>
      SumShrinks(l, most);
      SumShrinks(r, most);
  }

  lemma RescaleUnfolds(mem: Memory, at: Places, p: Path, i: nat, t: Tree, lo: int, hi: int)
    requires t.Node? && TreeAt(mem, at, p, i, t) && Ordered(t, lo, hi) && Counted(t, 0xFF) && Sum(t) <= 0xFFFF
    ensures 0 < i < |mem| && mem[i].value == t.value && mem[i].count == t.count <= 0xFF && Sym(p, t.value) in at
    ensures at[Sym(p, t.value)] == i
    ensures (t.left.Leaf? <==> mem[i].left == 0) && (t.right.Leaf? <==> mem[i].right == 0)
    ensures lo < t.value < hi && Ordered(t.left, lo, t.value) && Ordered(t.right, t.value, hi)
    ensures Counted(t.left, 0xFF) && Counted(t.right, 0xFF) && Sum(t.left) <= 0xFFFF && Sum(t.right) <= 0xFFFF
    ensures Sum(Rescale(t)) == t.count - t.count / 2 + Sum(Rescale(t.left)) + Sum(Rescale(t.right)) <= 0xFFFF
    ensures t.left.Leaf? ==> Sum(Rescale(t.left)) == 0
    ensures t.right.Leaf? ==> Sum(Rescale(t.right)) == 0
  {
    SumShrinks(t, 0xFF);
  }

  predicate HalvedNode(a: Symbol, b: Symbol) {
    var count := b.count - b.count / 2;
    a == b.(count := count, under := count)
  }

  /** Halving a symbol's own count does not disturb its subtrees. */
  lemma LeftAfterHalving(mem: Memory, mem1: Memory, at: Places, p: Path, i: nat, t: Tree, lo: int, hi: int)
    requires t.Node? && TreeAt(mem, at, p, i, t) && Ordered(t, lo, hi) && Separate(at, |mem|)
    requires 0 < i < |mem| == |mem1| && HalvedNode(mem1[i], mem[i]) && mem1 == mem[i := mem1[i]]
    ensures TreeAt(mem1, at, p, Link(i, mem1[i].left), t.left)
  {
    hide Sum;
    TreeFrame(mem, mem1, at, at, p, Link(i, mem[i].left), t.left, lo, t.value);
  }

  /** Nor does rescaling the left subtree disturb the symbol itself. */
  lemma NodeUntouched(mem1: Memory, mem2: Memory, at: Places, p: Path, i: nat, t: Tree, lo: int, hi: int)
    requires t.Node? && Ordered(t, lo, hi) && i < |mem1| == |mem2|
    requires Sym(p, t.value) in at && at[Sym(p, t.value)] == i
    requires OnlyTree(mem1, mem2, at, p, t.left)
    ensures mem2[i] == mem1[i]
  {
    if Has(t.left, t.value) {
      HasInRange(t.left, lo, t.value, t.value);
    }
  }

  lemma {:induction false} HasSplits(t: Tree, lo: int, hi: int, v: byte)
    requires t.Node? && Ordered(t, lo, hi)
    ensures Has(t, v) <==> v == t.value || Has(t.left, v) || Has(t.right, v)
    ensures Has(t.left, v) ==> v < t.value && Subtree(t, v) == Subtree(t.left, v)
    ensures Has(t.right, v) ==> v > t.value && Subtree(t, v) == Subtree(t.right, v)
    ensures v == t.value ==> Subtree(t, v) == t && !Has(t.left, v) && !Has(t.right, v)
  {
    if Has(t.left, v) {
      HasInRange(t.left, lo, t.value, v);
    }
    if Has(t.right, v) {
      HasInRange(t.right, t.value, hi, v);
    }
  }

  lemma NothingBelow(mem: Memory, at: Places, p: Path, t: Tree)
    requires t.Leaf?
    ensures RescaledIn(mem, mem, at, p, t) && OnlyTree(mem, mem, at, p, t)
  {
  }

  /** What one turn of the loop does: mem1 has the symbol's own count halved, mem2 its left subtree
      rescaled, mem3 its count of that subtree brought up to date. */
  ghost predicate Turn(mem: Memory, mem1: Memory, mem2: Memory, mem3: Memory, at: Places, p: Path,
                       i: nat, cur: Tree, lo: int, hi: int) {
    && Separate(at, |mem|) && cur.Node? && Ordered(cur, lo, hi)
    && Sym(p, cur.value) in at && at[Sym(p, cur.value)] == i
    && i < |mem| == |mem1| == |mem2| == |mem3|
    && HalvedNode(mem1[i], mem[i]) && mem1 == mem[i := mem1[i]]
    && RescaledIn(mem1, mem2, at, p, cur.left) && OnlyTree(mem1, mem2, at, p, cur.left)
    && SameButUnder(mem3[i], mem1[i]) && mem3 == mem2[i := mem3[i]]
    && mem3[i].under == mem3[i].count + Sum(Rescale(cur.left))
  }

  predicate SameButUnder(a: Symbol, b: Symbol) {
    a == b.(under := a.under)
  }

  /** Symbols other than the node and those on its left keep their records. */
  lemma TurnKeeps(mem: Memory, mem1: Memory, mem2: Memory, mem3: Memory, at: Places, p: Path,
                  i: nat, cur: Tree, lo: int, hi: int, q: Path)
    requires Turn(mem, mem1, mem2, mem3, at, p, i, cur, lo, hi)
    requires q in at && q != Sym(p, cur.value) && !(IsChild(q, p) && Has(cur.left, q.value))
    ensures mem3[at[q]] == mem[at[q]]
  {
    hide Has, Ordered, RescaledIn, Sum;
    assert at[q] != i;
  }

  lemma TurnHalves(mem: Memory, mem1: Memory, mem2: Memory, mem3: Memory, at: Places, p: Path,
                   i: nat, cur: Tree, lo: int, hi: int, v: byte)
    requires Turn(mem, mem1, mem2, mem3, at, p, i, cur, lo, hi)
    requires v == cur.value || Has(cur.left, v)
    ensures Has(cur, v) && Sym(p, v) in at && at[Sym(p, v)] < |mem|
    ensures IsHalved(mem3[at[Sym(p, v)]], mem[at[Sym(p, v)]], Subtree(cur, v))
  {
    hide Ordered, OnlyTree, Has, Subtree;
    HasSplits(cur, lo, hi, v);
    if v != cur.value {
      assert at[Sym(p, v)] != i;
    }
  }

  lemma TurnKeepsRight(mem: Memory, mem1: Memory, mem2: Memory, mem3: Memory, at: Places, p: Path,
                       i: nat, cur: Tree, lo: int, hi: int)
    requires Turn(mem, mem1, mem2, mem3, at, p, i, cur, lo, hi) && TreeAt(mem, at, p, i, cur)
    ensures TreeAt(mem3, at, p, Link(i, mem3[i].right), cur.right)
  {
    forall q | q in at && Among(q, p, cur.value, hi)
      ensures mem3[at[q]] == mem[at[q]]
    {
      if Has(cur.left, q.value) {
        HasInRange(cur.left, lo, cur.value, q.value);
      }
      TurnKeeps(mem, mem1, mem2, mem3, at, p, i, cur, lo, hi, q);
    }
    hide RescaledIn, OnlyTree, Has;
    TreeFrame(mem, mem3, at, at, p, Link(i, mem[i].right), cur.right, cur.value, hi);
  }

  lemma HalvedOneMoreAt(mem0: Memory, mem: Memory, mem1: Memory, mem2: Memory, mem3: Memory, at: Places, p: Path,
                        t: Tree, i: nat, cur: Tree, lo: int, hi: int, v: byte)
    requires Turn(mem, mem1, mem2, mem3, at, p, i, cur, lo, hi) && HalvedSoFar(mem0, mem, at, p, t, cur)
    requires Has(t, v)
    ensures Sym(p, v) in at && at[Sym(p, v)] < |mem3|
    ensures Has(cur.right, v) ==> Subtree(t, v) == Subtree(cur.right, v)
    ensures !Has(cur.right, v) ==> IsHalved(mem3[at[Sym(p, v)]], mem0[at[Sym(p, v)]], Subtree(t, v))
  {
    assert Has(cur, v) ==> mem[at[Sym(p, v)]] == mem0[at[Sym(p, v)]] && Subtree(t, v) == Subtree(cur, v);
    assert cur.Node? && Ordered(cur, lo, hi);
    assert !Has(cur, v) ==> IsHalved(mem[at[Sym(p, v)]], mem0[at[Sym(p, v)]], Subtree(t, v));
    hide HalvedSoFar, Turn, Has, Subtree, Ordered, IsHalved;
    HasSplits(cur, lo, hi, v);
    if v == cur.value || Has(cur.left, v) {
      TurnHalves(mem, mem1, mem2, mem3, at, p, i, cur, lo, hi, v);
    } else {
      TurnKeeps(mem, mem1, mem2, mem3, at, p, i, cur, lo, hi, Sym(p, v));
    }
  }

  /** One turn of the loop: the symbol itself and its left subtree are now halved too. */
  lemma HalvedOneMore(mem0: Memory, mem: Memory, mem1: Memory, mem2: Memory, mem3: Memory, at: Places, p: Path,
                      t: Tree, i: nat, cur: Tree, lo: int, hi: int)
    requires Turn(mem, mem1, mem2, mem3, at, p, i, cur, lo, hi) && HalvedSoFar(mem0, mem, at, p, t, cur)
    ensures HalvedSoFar(mem0, mem3, at, p, t, cur.right)
  {
    forall v: byte | Has(t, v)
      ensures Sym(p, v) in at && at[Sym(p, v)] < |mem3|
      ensures Has(cur.right, v) ==> Subtree(t, v) == Subtree(cur.right, v)
      ensures !Has(cur.right, v) ==> IsHalved(mem3[at[Sym(p, v)]], mem0[at[Sym(p, v)]], Subtree(t, v))
    {
      HalvedOneMoreAt(mem0, mem, mem1, mem2, mem3, at, p, t, i, cur, lo, hi, v);
    }
    HalvedOnlyMore(mem0, mem, mem1, mem2, mem3, at, p, t, i, cur, lo, hi);
    hide Has, Subtree, IsHalved, Turn;
  }

  lemma HalvedOnlyMore(mem0: Memory, mem: Memory, mem1: Memory, mem2: Memory, mem3: Memory, at: Places, p: Path,
                       t: Tree, i: nat, cur: Tree, lo: int, hi: int)
    requires Turn(mem, mem1, mem2, mem3, at, p, i, cur, lo, hi) && HalvedSoFar(mem0, mem, at, p, t, cur)
    ensures cur.Node? && |mem3| == |mem0|
    ensures forall v: byte :: Has(cur.right, v) ==> Has(t, v)
    ensures forall q :: q in at && at[q] < |mem3| && !(IsChild(q, p) && Has(t, q.value) && !Has(cur.right, q.value)) ==>
              mem3[at[q]] == mem0[at[q]]
  {
    assert cur.Node? && Ordered(cur, lo, hi) && |mem3| == |mem0| == |mem|;
    hide Subtree, IsHalved, Turn, Ordered, Has;
    forall v: byte | Has(cur.right, v) ensures Has(t, v) {
      HasSplits(cur, lo, hi, v);
    }
    forall q | q in at && at[q] < |mem3| && !(IsChild(q, p) && Has(t, q.value) && !Has(cur.right, q.value))
      ensures mem3[at[q]] == mem0[at[q]]
    {
      if q.Sym? {
        HasSplits(cur, lo, hi, q.value);
      }
      TurnKeeps(mem, mem1, mem2, mem3, at, p, i, cur, lo, hi, q);
    }
  }
}
