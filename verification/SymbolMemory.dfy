/** How the symbol table of src/enet/compress.c lays a model out in memory: one fixed array of
    records, linked by offsets, filled in whatever order symbols happen to be met. */
module SymbolMemory {
  import opened Words
  import opened FrequencyTree
  import opened PpmModel

  datatype Symbol = Symbol(
    value: byte, count: byte, under: u16, left: u16, right: u16,
    symbols: u16, escapes: u16, total: u16, parent: u16)

  type Memory = seq<Symbol>

  /** Which index each allocated symbol of the model has. */
  type Places = map<Path, nat>

  function NewSymbol(v: byte, count: byte): Symbol {
    Symbol(v, count, count, 0, 0, 0, 0, 0, 0)
  }

  /** A link is an offset from the linking symbol, 0 for none. */
  function Link(i: nat, offset: nat): nat {
    if offset == 0 then 0 else i + offset
  }

  ghost predicate TreeAt(mem: Memory, at: Places, p: Path, i: nat, t: Tree)
    decreases t
  {
    match t
    case Leaf => i == 0
    case Node(v, c, l, r) =>
      && 0 < i < |mem| && Sym(p, v) in at && at[Sym(p, v)] == i
      && mem[i].value == v && mem[i].count == c && mem[i].under == c + Sum(l)
      && TreeAt(mem, at, p, Link(i, mem[i].left), l)
      && TreeAt(mem, at, p, Link(i, mem[i].right), r)
  }

  predicate SameNode(a: Symbol, b: Symbol) {
    a.value == b.value && a.count == b.count && a.under == b.under && a.left == b.left && a.right == b.right
  }

  /** What an update of a symbol's own counts and links leaves alone. */
  predicate SameContext(a: Symbol, b: Symbol) {
    && a.value == b.value && a.symbols == b.symbols && a.escapes == b.escapes
    && a.total == b.total && a.parent == b.parent
  }

  predicate Among(q: Path, p: Path, lo: int, hi: int) {
    q.Sym? && q.context == p && lo < q.value < hi
  }

  /** A tree only depends on the symbols whose values are in its range. */
  lemma {:induction false} TreeFrame(mem: Memory, mem': Memory, at: Places, at': Places,
                                     p: Path, i: nat, t: Tree, lo: int, hi: int)
    requires TreeAt(mem, at, p, i, t) && Ordered(t, lo, hi) && |mem| == |mem'|
    requires forall q :: q in at && Among(q, p, lo, hi) && at[q] < |mem| ==>
               q in at' && at'[q] == at[q] && SameNode(mem'[at[q]], mem[at[q]])
    ensures TreeAt(mem', at', p, i, t)
    decreases t
  {
    match t
    case Leaf =>
    case Node(v, _, l, r) =>
      assert Among(Sym(p, v), p, lo, hi);
      TreeFrame(mem, mem', at, at', p, Link(i, mem[i].left), l, lo, v);
      TreeFrame(mem, mem', at, at', p, Link(i, mem[i].right), r, v, hi);
  }

  ghost predicate Separate(at: Places, next: nat) {
    && (forall q :: q in at ==> at[q] < next)
    && (forall q, r :: q in at && r in at && at[q] == at[r] ==> q == r)
  }

  // ---- adding to a count, or a symbol, at the end of a search ----

  /** What the encoder's walk needs of the (non-empty) subtree it is at. */
  ghost predicate Walkable(mem: Memory, at: Places, p: Path, i: nat, t: Tree, lo: int, hi: int, v: byte,
                           update: byte, next: nat) {
    && t.Node? && TreeAt(mem, at, p, i, t) && Ordered(t, lo, hi) && lo < v < hi
    && Separate(at, next) && next < |mem|
    && (Has(t, v) || Sym(p, v) !in at)
    && Sum(t) + update <= 0xFFFF && WalkCount(t, v) + update <= 0xFF
  }

  function Passed(n: Symbol, v: byte, update: byte): Symbol
    requires n.under + update <= 0xFFFF && (v == n.value ==> n.count + update <= 0xFF)
  {
    if v < n.value then n.(under := n.under + update)
    else if v > n.value then n
    else n.(under := n.under + update, count := n.count + update)
  }

  /** The node a search for v goes on to, and its index. */
  function Towards(t: Tree, v: byte): Tree
    requires t.Node?
  {
    if v < t.value then t.left else t.right
  }

  function Onward(n: Symbol, i: nat, v: byte): nat {
    Link(i, if v < n.value then n.left else n.right)
  }

  lemma WalkOn(mem: Memory, at: Places, p: Path, i: nat, t: Tree, lo: int, hi: int, v: byte, update: byte, next: nat)
    requires Walkable(mem, at, p, i, t, lo, hi, v, update, next) && v != t.value
    ensures mem[i].under + update <= 0xFFFF && mem[i].value == t.value && 0 < i < next
    ensures Towards(t, v).Leaf? <==> Onward(mem[i], i, v) == 0
    ensures Towards(t, v).Node? ==>
              Walkable(mem[i := Passed(mem[i], v, update)], at, p, Onward(mem[i], i, v), Towards(t, v),
                       Low(t, lo, v), High(t, hi, v), v, update, next)
  {
    SumOfParts(t, v);
    hide Sum, WalkCount, Has;
    var mem' := mem[i := Passed(mem[i], v, update)];
    assert at[Sym(p, t.value)] == i;
    if v < t.value {
      TreeFrame(mem, mem', at, at, p, Link(i, mem[i].left), t.left, lo, t.value);
    } else {
      TreeFrame(mem, mem', at, at, p, Link(i, mem[i].right), t.right, t.value, hi);
    }
  }

  lemma SumOfParts(t: Tree, v: byte)
    requires t.Node?
    ensures Sum(t.left) <= t.count + Sum(t.left) <= Sum(t) && Sum(t.right) <= Sum(t)
    ensures v != t.value ==> WalkCount(t, v) == WalkCount(Towards(t, v), v) && (Has(t, v) <==> Has(Towards(t, v), v))
    ensures v == t.value ==> WalkCount(t, v) == t.count && Has(t, v)
  {
  }

  function Low(t: Tree, lo: int, v: byte): int
    requires t.Node?
  {
    if v < t.value then lo else t.value
  }

  function High(t: Tree, hi: int, v: byte): int
    requires t.Node?
  {
    if v < t.value then t.value else hi
  }

  /** Hang a new symbol, at index next, below the symbol at index i. */
  function Attach(mem: Memory, i: nat, v: byte, update: byte, next: nat): Memory
    requires i < next < |mem| && next <= 0xFFFF
  {
    var mem' := mem[next := NewSymbol(v, update)];
    if v < mem[i].value then mem'[i := mem'[i].(left := next - i)] else mem'[i := mem'[i].(right := next - i)]
  }

  /** The memory after the walk of CONTEXT_ENCODE from the symbol at index i. */
  ghost function InsertAt(mem: Memory, at: Places, p: Path, i: nat, t: Tree, lo: int, hi: int, v: byte,
                          update: byte, next: nat): Memory
    requires Walkable(mem, at, p, i, t, lo, hi, v, update, next) && next <= 0xFFFF
    decreases t
  {
    SumOfParts(t, v);
    var mem' := mem[i := Passed(mem[i], v, update)];
    if v == t.value then mem'
    else
      WalkOn(mem, at, p, i, t, lo, hi, v, update, next);
      if Towards(t, v).Leaf? then Attach(mem', i, v, update, next)
      else InsertAt(mem', at, p, Onward(mem[i], i, v), Towards(t, v), Low(t, lo, v), High(t, hi, v), v, update, next)
  }

  function Grown(at: Places, p: Path, t: Tree, v: byte, next: nat): Places {
    if Has(t, v) then at else at[Sym(p, v) := next]
  }

  ghost predicate OnlyIn(mem: Memory, mem': Memory, at: Places, p: Path, lo: int, hi: int) {
    && |mem'| == |mem|
    && forall q :: q in at && at[q] < |mem| ==>
         && SameContext(mem'[at[q]], mem[at[q]])
         && (Among(q, p, lo, hi) || mem'[at[q]] == mem[at[q]])
  }

  ghost predicate Inserted(mem: Memory, mem': Memory, at: Places, p: Path, i: nat, t: Tree, lo: int, hi: int,
                           v: byte, update: byte, next: nat)
    requires next < |mem|
  {
    && TreeAt(mem', Grown(at, p, t, v, next), p, i, Insert(t, v, update))
    && OnlyIn(mem, mem', at, p, lo, hi)
    && (!Has(t, v) ==> mem'[next] == NewSymbol(v, update))
  }

  lemma FoundHere(mem: Memory, at: Places, p: Path, i: nat, t: Tree, lo: int, hi: int,
                  v: byte, update: byte, next: nat)
    requires Walkable(mem, at, p, i, t, lo, hi, v, update, next) && v == t.value
    ensures mem[i].under + update <= 0xFFFF && mem[i].count + update <= 0xFF
    ensures Inserted(mem, mem[i := Passed(mem[i], v, update)], at, p, i, t, lo, hi, v, update, next)
  {
    hide Sum, WalkCount;
    SumOfParts(t, v);
    var mem' := mem[i := Passed(mem[i], v, update)];
    assert at[Sym(p, v)] == i;
    TreeFrame(mem, mem', at, at, p, Link(i, mem[i].left), t.left, lo, v);
    TreeFrame(mem, mem', at, at, p, Link(i, mem[i].right), t.right, v, hi);
  }

  /** On the other side of t's root than v. */
  predicate Across(q: Path, t: Tree, v: byte)
    requires q.Sym? && t.Node?
  {
    v < t.value < q.value || q.value < t.value < v
  }

  /** The subtree the walk did not take is left alone. */
  lemma OtherSideStays(mem: Memory, mem': Memory, at: Places, at': Places, p: Path, i: nat, t: Tree,
                       lo: int, hi: int, v: byte)
    requires t.Node? && TreeAt(mem, at, p, i, t) && Ordered(t, lo, hi) && lo < v < hi && v != t.value
    requires |mem'| == |mem|
    requires forall q :: q in at && at[q] < |mem| && Among(q, p, lo, hi) && Across(q, t, v) ==>
               q in at' && at'[q] == at[q] && mem'[at[q]] == mem[at[q]]
    ensures v < t.value ==> TreeAt(mem', at', p, Link(i, mem[i].right), t.right)
    ensures v > t.value ==> TreeAt(mem', at', p, Link(i, mem[i].left), t.left)
  {
    hide Sum;
    if v < t.value {
      TreeFrame(mem, mem', at, at', p, Link(i, mem[i].right), t.right, t.value, hi);
    } else {
      TreeFrame(mem, mem', at, at', p, Link(i, mem[i].left), t.left, lo, t.value);
    }
  }

  /** Only the passed symbol itself, and symbols on the side taken, change. */
  lemma OnlyOneSide(mem: Memory, mem': Memory, at: Places, p: Path, i: nat, t: Tree, lo: int, hi: int,
                    v: byte, update: byte, next: nat)
    requires Walkable(mem, at, p, i, t, lo, hi, v, update, next) && v != t.value
    requires mem[i].under + update <= 0xFFFF
    requires OnlyIn(mem[i := Passed(mem[i], v, update)], mem', at, p, Low(t, lo, v), High(t, hi, v))
    ensures OnlyIn(mem, mem', at, p, lo, hi)
    ensures mem'[i] == Passed(mem[i], v, update)
    ensures forall q :: q in at && at[q] < |mem| && Among(q, p, lo, hi) && Across(q, t, v) ==>
              mem'[at[q]] == mem[at[q]]
  {
    hide Sum, WalkCount, Has;
    assert at[Sym(p, t.value)] == i;
  }

  lemma Rejoined(mem: Memory, mem': Memory, at: Places, p: Path, i: nat, t: Tree, lo: int, hi: int,
                 v: byte, update: byte, next: nat)
    requires Walkable(mem, at, p, i, t, lo, hi, v, update, next) && v != t.value && Towards(t, v).Node?
    requires mem[i].under + update <= 0xFFFF
    requires Inserted(mem[i := Passed(mem[i], v, update)], mem', at, p, Onward(mem[i], i, v), Towards(t, v),
                      Low(t, lo, v), High(t, hi, v), v, update, next)
    ensures Inserted(mem, mem', at, p, i, t, lo, hi, v, update, next)
  {
    hide Sum, WalkCount, Has;
    OnlyOneSide(mem, mem', at, p, i, t, lo, hi, v, update, next);
    OtherSideStays(mem, mem', at, Grown(at, p, t, v, next), p, i, t, lo, hi, v);
    SumOfParts(t, v);
    InsertAdds(t.left, v, update);
    assert Grown(at, p, t, v, next) == Grown(at, p, Towards(t, v), v, next);
    if v < t.value {
      assert Insert(t, v, update) == Node(t.value, t.count, Insert(t.left, v, update), t.right);
    } else {
      assert Insert(t, v, update) == Node(t.value, t.count, t.left, Insert(t.right, v, update));
    }
  }

  lemma AttachedHere(mem: Memory, at: Places, p: Path, i: nat, t: Tree, lo: int, hi: int,
                     v: byte, update: byte, next: nat)
    requires Walkable(mem, at, p, i, t, lo, hi, v, update, next) && v != t.value && Towards(t, v).Leaf?
    requires mem[i].under + update <= 0xFFFF && i < next <= 0xFFFF
    ensures Inserted(mem, Attach(mem[i := Passed(mem[i], v, update)], i, v, update, next),
                     at, p, i, t, lo, hi, v, update, next)
  {
    hide WalkCount;
    var mem1 := mem[i := Passed(mem[i], v, update)];
    var mem' := Attach(mem1, i, v, update, next);
    SumOfParts(t, v);
    assert at[Sym(p, t.value)] == i;
    var at' := Grown(at, p, t, v, next);
    assert at'[Sym(p, v)] == next && mem'[next] == NewSymbol(v, update);
    assert TreeAt(mem', at', p, next, Node(v, update, Leaf, Leaf));
    OtherSideStays(mem, mem', at, at', p, i, t, lo, hi, v);
    assert Insert(Leaf, v, update) == Node(v, update, Leaf, Leaf);
    assert Link(i, next - i) == next;
  }

  lemma {:induction false} InsertAtInserts(mem: Memory, at: Places, p: Path, i: nat, t: Tree, lo: int, hi: int,
                                           v: byte, update: byte, next: nat)
    requires Walkable(mem, at, p, i, t, lo, hi, v, update, next) && next <= 0xFFFF
    ensures Inserted(mem, InsertAt(mem, at, p, i, t, lo, hi, v, update, next), at, p, i, t, lo, hi, v, update, next)
    decreases t
  {
    hide Inserted, Passed, Attach, Low, High, Onward, Sum, Has, TreeAt, WalkCount;
    if v == t.value {
      FoundHere(mem, at, p, i, t, lo, hi, v, update, next);
    } else {
      WalkOn(mem, at, p, i, t, lo, hi, v, update, next);
      if Towards(t, v).Leaf? {
        AttachedHere(mem, at, p, i, t, lo, hi, v, update, next);
      } else {
        var mem1 := mem[i := Passed(mem[i], v, update)];
        InsertAtInserts(mem1, at, p, Onward(mem[i], i, v), Towards(t, v), Low(t, lo, v), High(t, hi, v), v, update,
                        next);
        var mem' := InsertAt(mem1, at, p, Onward(mem[i], i, v), Towards(t, v), Low(t, lo, v), High(t, hi, v), v,
                             update, next);
        Rejoined(mem, mem', at, p, i, t, lo, hi, v, update, next);
      }
    }
  }

  // ---- rescaling ----

  /** The node a search for v ends at. */
  function Subtree(t: Tree, v: byte): (r: Tree)
    requires Has(t, v)
    ensures r.Node? && r.value == v
  {
    if v < t.value then Subtree(t.left, v) else if v > t.value then Subtree(t.right, v) else t
  }

  predicate IsHalved(a: Symbol, b: Symbol, t: Tree) {
    && SameContext(a, b) && a.left == b.left && a.right == b.right && t.Node?
    && a.count == b.count - b.count / 2 && a.under == a.count + Sum(Rescale(t.left))
  }

  /** Every symbol of the tree has its count halved, and is counted anew. */
  ghost predicate RescaledIn(mem: Memory, mem': Memory, at: Places, p: Path, t: Tree) {
    && |mem'| == |mem|
    && forall v: byte :: Has(t, v) ==>
         && Sym(p, v) in at && at[Sym(p, v)] < |mem|
         && IsHalved(mem'[at[Sym(p, v)]], mem[at[Sym(p, v)]], Subtree(t, v))
  }

  lemma {:induction false} HasInRange(t: Tree, lo: int, hi: int, v: byte)
    requires Ordered(t, lo, hi) && Has(t, v)
    ensures lo < v < hi
  {
    if v < t.value {
      HasInRange(t.left, lo, t.value, v);
    } else if v > t.value {
      HasInRange(t.right, t.value, hi, v);
    }
  }

  lemma {:induction false} RescaledTree(mem: Memory, mem': Memory, at: Places, p: Path, i: nat, t: Tree, lo: int,
                                        hi: int)
    requires TreeAt(mem, at, p, i, t) && Ordered(t, lo, hi) && RescaledIn(mem, mem', at, p, t)
    ensures TreeAt(mem', at, p, i, Rescale(t))
    decreases t
  {
    match t
    case Leaf =>
    case Node(v, c, l, r) =>
      assert Has(t, v) && Subtree(t, v) == t;
      PartRescaled(mem, mem', at, p, t, lo, hi);
      hide RescaledIn;
      RescaledTree(mem, mem', at, p, Link(i, mem[i].left), l, lo, v);
      RescaledTree(mem, mem', at, p, Link(i, mem[i].right), r, v, hi);
  }

  lemma PartRescaled(mem: Memory, mem': Memory, at: Places, p: Path, t: Tree, lo: int, hi: int)
    requires t.Node? && Ordered(t, lo, hi) && RescaledIn(mem, mem', at, p, t)
    ensures RescaledIn(mem, mem', at, p, t.left) && RescaledIn(mem, mem', at, p, t.right)
  {
    hide IsHalved;
    forall v: byte | Has(t.left, v)
      ensures Has(t, v) && Subtree(t, v) == Subtree(t.left, v)
    {
      HasInRange(t.left, lo, t.value, v);
    }
    forall v: byte | Has(t.right, v)
      ensures Has(t, v) && Subtree(t, v) == Subtree(t.right, v)
    {
      HasInRange(t.right, t.value, hi, v);
    }
  }

  // ---- the whole table ----

  /** One symbol's record, seen as a context. */
  ghost predicate ContextAt(mem: Memory, at: Places, cs: Contexts, q: Path)
    requires q in at && at[q] < |mem|
  {
    var c := ContextOf(cs, q);
    && mem[at[q]].escapes == c.escapes && mem[at[q]].total == c.total
    && (q.Sym? ==> mem[at[q]].value == q.value)
    && Ordered(c.tree, -1, 256)
    && TreeAt(mem, at, q, Link(at[q], mem[at[q]].symbols), c.tree)
  }

  ghost predicate ChildrenAt(at: Places, cs: Contexts, q: Path) {
    forall v: byte :: Sym(q, v) in at <==> Has(ContextOf(cs, q).tree, v)
  }

  ghost predicate Placed(at: Places, next: nat) {
    && Separate(at, next) && Root in at && at[Root] == 0
    && forall q :: q in at && q.Sym? ==> q.context in at
  }

  /** The first next symbols of the table are the contexts cs. */
  ghost predicate Represents(mem: Memory, at: Places, cs: Contexts, next: nat) {
    && Placed(at, next) && next <= |mem|
    && (forall q :: q in cs ==> q in at)
    && (forall q :: q in at ==> ContextAt(mem, at, cs, q))
    && (forall q :: q in at ==> ChildrenAt(at, cs, q))
  }

  /** Every symbol but the pending ones is linked to its parent. */
  ghost predicate ParentsSet(mem: Memory, at: Places, pending: set<Path>) {
    forall q :: q in at && q !in pending ==>
      Parent(q) in at && at[q] < |mem| && mem[at[q]].parent == at[Parent(q)]
  }

  ghost predicate SameParents(mem: Memory, mem': Memory, at: Places) {
    |mem'| == |mem| && forall q :: q in at && at[q] < |mem| ==> mem'[at[q]].parent == mem[at[q]].parent
  }

  predicate IsChild(q: Path, p: Path) {
    q.Sym? && q.context == p
  }

  ghost predicate ChildrenOnly(mem: Memory, mem': Memory, at: Places, p: Path)
    requires |mem'| == |mem|
  {
    && (p in at && at[p] < |mem| ==> SameNode(mem'[at[p]], mem[at[p]]))
    && (forall q :: q in at && at[q] < |mem| && IsChild(q, p) ==> SameContext(mem'[at[q]], mem[at[q]]))
    && (forall q :: q in at && at[q] < |mem| && q != p && !IsChild(q, p) ==> mem'[at[q]] == mem[at[q]])
  }

  lemma ContextStays(mem: Memory, mem': Memory, at: Places, at': Places, cs: Contexts, cs': Contexts, q: Path)
    requires q in at && at[q] < |mem| == |mem'| && q in at' && at'[q] == at[q]
    requires ContextAt(mem, at, cs, q) && ContextOf(cs', q) == ContextOf(cs, q)
    requires SameContext(mem'[at[q]], mem[at[q]])
    requires forall r :: r in at && IsChild(r, q) && at[r] < |mem| ==>
               r in at' && at'[r] == at[r] && SameNode(mem'[at[r]], mem[at[r]])
    ensures ContextAt(mem', at', cs', q)
  {
    hide Ordered;
    TreeFrame(mem, mem', at, at', q, Link(at[q], mem[at[q]].symbols), ContextOf(cs, q).tree, -1, 256);
  }

  lemma SeenFromOutside(mem: Memory, mem': Memory, at: Places, p: Path, q: Path)
    requires |mem'| == |mem| && ChildrenOnly(mem, mem', at, p) && q in at && at[q] < |mem| && q != p
    ensures SameContext(mem'[at[q]], mem[at[q]])
    ensures forall r :: r in at && IsChild(r, q) && at[r] < |mem| ==> SameNode(mem'[at[r]], mem[at[r]])
  {
  }

  lemma OtherContextStays(mem: Memory, mem': Memory, at: Places, cs: Contexts, next: nat, p: Path, c: Context, q: Path)
    requires Represents(mem, at, cs, next) && p in at && q in at && p != q
    requires |mem'| == |mem| && ChildrenOnly(mem, mem', at, p)
    ensures ContextAt(mem', at, cs[p := c], q) && ChildrenAt(at, cs[p := c], q)
  {
    assert ContextAt(mem, at, cs, q) && ChildrenAt(at, cs, q);
    hide ContextAt, ChildrenAt, Represents, ChildrenOnly, SameContext, SameNode;
    ReplaceElsewhere(cs, p, c, q);
    SeenFromOutside(mem, mem', at, p, q);
    ContextStays(mem, mem', at, at, cs, cs[p := c], q);
    ChildrenStay(at, at, cs, cs[p := c], q);
  }

  /** Changing one context, and the counts of its symbols, changes no other. */
  lemma ContextReplaced(mem: Memory, mem': Memory, at: Places, cs: Contexts, next: nat, p: Path, c: Context)
    requires Represents(mem, at, cs, next) && p in at
    requires |mem'| == |mem| && ChildrenOnly(mem, mem', at, p)
    requires ContextAt(mem', at, cs[p := c], p)
    requires forall v: byte :: Has(c.tree, v) <==> Has(ContextOf(cs, p).tree, v)
    ensures Represents(mem', at, cs[p := c], next)
  {
    hide Has, ContextAt, ChildrenAt, ChildrenOnly;
    forall q | q in at
      ensures at[q] < |mem'| && ContextAt(mem', at, cs[p := c], q) && ChildrenAt(at, cs[p := c], q)
    {
      if q == p {
        ReplaceElsewhere(cs, p, c, p);
        ChildrenStay(at, at, cs, cs[p := c], p);
      } else {
        OtherContextStays(mem, mem', at, cs, next, p, c, q);
      }
    }
  }

  lemma ChildrenStay(at: Places, at': Places, cs: Contexts, cs': Contexts, q: Path)
    requires ChildrenAt(at, cs, q)
    requires forall v: byte :: Sym(q, v) in at' <==> Sym(q, v) in at
    requires forall v: byte :: Has(ContextOf(cs', q).tree, v) <==> Has(ContextOf(cs, q).tree, v)
    ensures ChildrenAt(at', cs', q)
  {
  }
}
