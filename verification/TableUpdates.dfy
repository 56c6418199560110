/** What each in-place update of the symbol table does to the model it represents. */
module TableUpdates {
  import opened Words
  import opened RangeInterval
  import opened FrequencyTree
  import opened PpmModel
  import opened SymbolMemory

  /** The model with v counted in p's tree, before p's own totals follow. */
  function TreeBumped(cs: Contexts, p: Path, v: byte, update: nat): Contexts {
    cs[p := ContextOf(cs, p).(tree := Insert(ContextOf(cs, p).tree, v, update))]
  }

  function PlacesAfter(at: Places, cs: Contexts, p: Path, v: byte, next: nat): Places {
    Grown(at, p, ContextOf(cs, p).tree, v, next)
  }

  function NextAfter(cs: Contexts, p: Path, v: byte, next: nat): nat {
    next + IsNew(cs, p, v)
  }

  lemma NewContextIsUnseen(mem: Memory, mem': Memory, at: Places, cs: Contexts, cs': Contexts, next: nat,
                           p: Path, v: byte, update: byte)
    requires Represents(mem, at, cs, next) && p in at && Sym(p, v) !in at && next < |mem'|
    requires mem'[next] == NewSymbol(v, update)
    requires forall q :: q in cs' ==> q == p || q in cs
    ensures var at' := at[Sym(p, v) := next];
            ContextAt(mem', at', cs', Sym(p, v)) && ChildrenAt(at', cs', Sym(p, v))
  {
    hide ContextAt;
    var q := Sym(p, v);
    var at' := at[q := next];
    assert q != p by {
      assert Depth(q) == Depth(p) + 1;
    }
    assert q !in cs' && ContextOf(cs', q) == Unseen(0);
    assert ContextAt(mem', at', cs', q) by {
      UnseenAt(mem', at', cs', q);
    }
    forall u: byte ensures Sym(q, u) !in at' {
      assert Sym(q, u).context == q;
    }
  }

  lemma UnseenAt(mem: Memory, at: Places, cs: Contexts, q: Path)
    requires q in at && at[q] < |mem| && q.Sym? && ContextOf(cs, q) == Unseen(0)
    requires mem[at[q]].value == q.value
    requires mem[at[q]].symbols == 0 && mem[at[q]].escapes == 0 && mem[at[q]].total == 0
    ensures ContextAt(mem, at, cs, q)
  {
  }

  lemma OtherContextAfterAdding(mem: Memory, mem': Memory, at: Places, cs: Contexts, next: nat, p: Path,
                                v: byte, c: Context, q: Path)
    requires Represents(mem, at, cs, next) && p in at && q in at && p != q && Sym(p, v) !in at
    requires |mem'| == |mem| && ChildrenOnly(mem, mem', at, p)
    ensures var at' := at[Sym(p, v) := next];
            ContextAt(mem', at', cs[p := c], q) && ChildrenAt(at', cs[p := c], q)
  {
    assert ContextAt(mem, at, cs, q) && ChildrenAt(at, cs, q);
    hide ContextAt, ChildrenAt, Represents, ChildrenOnly, SameContext, SameNode;
    var at' := at[Sym(p, v) := next];
    ReplaceElsewhere(cs, p, c, q);
    SeenFromOutside(mem, mem', at, p, q);
    ContextStays(mem, mem', at, at', cs, cs[p := c], q);
    ChildrenStay(at, at', cs, cs[p := c], q);
  }

  /** A new symbol in context p leaves every other context as it was. */
  lemma SymbolAdded(mem: Memory, mem': Memory, at: Places, cs: Contexts, next: nat, p: Path, v: byte,
                    c: Context, update: byte)
    requires Represents(mem, at, cs, next) && p in at && Sym(p, v) !in at && next < |mem|
    requires |mem'| == |mem| && ChildrenOnly(mem, mem', at, p) && mem'[next] == NewSymbol(v, update)
    requires ContextAt(mem', at[Sym(p, v) := next], cs[p := c], p)
    requires forall u: byte :: Has(c.tree, u) <==> u == v || Has(ContextOf(cs, p).tree, u)
    ensures Represents(mem', at[Sym(p, v) := next], cs[p := c], next + 1)
  {
    hide Has, ContextAt, ChildrenAt, ChildrenOnly;
    var at' := at[Sym(p, v) := next];
    forall q | q in at'
      ensures at'[q] < |mem'| && ContextAt(mem', at', cs[p := c], q) && ChildrenAt(at', cs[p := c], q)
    {
      if q == Sym(p, v) {
        NewContextIsUnseen(mem, mem', at, cs, cs[p := c], next, p, v, update);
      } else if q == p {
        assert ChildrenAt(at, cs, p);
        ChildrenGrow(at, cs, p, v, c, next);
      } else {
        OtherContextAfterAdding(mem, mem', at, cs, next, p, v, c, q);
      }
    }
  }

  lemma ChildrenGrow(at: Places, cs: Contexts, p: Path, v: byte, c: Context, next: nat)
    requires ChildrenAt(at, cs, p)
    requires forall u: byte :: Has(c.tree, u) <==> u == v || Has(ContextOf(cs, p).tree, u)
    ensures ChildrenAt(at[Sym(p, v) := next], cs[p := c], p)
  {
    hide Has;
  }

  // ---- the end of CONTEXT_ENCODE's walk ----

  /** What the walk needs of the model: no count or total is at its 16- or 8-bit limit. */
  predicate Roomy(c: Context, v: byte, update: byte) {
    Sum(c.tree) + update <= 0xFFFF && WalkCount(c.tree, v) + update <= 0xFF
  }

  lemma ContextIsWalkable(mem: Memory, at: Places, cs: Contexts, next: nat, p: Path, v: byte, update: byte)
    requires Represents(mem, at, cs, next) && p in at && next < |mem|
    requires Roomy(ContextOf(cs, p), v, update)
    ensures at[p] < next
    ensures var t := ContextOf(cs, p).tree;
            var i := Link(at[p], mem[at[p]].symbols);
            && (t.Leaf? <==> mem[at[p]].symbols == 0)
            && (Has(t, v) <==> Sym(p, v) in at)
            && (t.Node? ==> Walkable(mem, at, p, i, t, -1, 256, v, update, next))
  {
    hide Ordered, Sum, Has, WalkCount;
    assert ContextAt(mem, at, cs, p) && ChildrenAt(at, cs, p);
  }

  /** The first symbol of a context. */
  function Begin(mem: Memory, i: nat, v: byte, update: byte, next: nat): Memory
    requires i < next < |mem| && next <= 0xFFFF
  {
    var mem' := mem[next := NewSymbol(v, update)];
    mem'[i := mem'[i].(symbols := next - i)]
  }

  ghost predicate Entered(mem: Memory, mem': Memory, at: Places, cs: Contexts, p: Path, v: byte, update: byte,
                          next: nat) {
    && |mem'| == |mem|
    && Represents(mem', PlacesAfter(at, cs, p, v, next), TreeBumped(cs, p, v, update), NextAfter(cs, p, v, next))
    && (forall q :: q in at && at[q] < |mem| ==> SameTotals(mem'[at[q]], mem[at[q]]))
    && (!Has(ContextOf(cs, p).tree, v) ==> next < |mem| && mem'[next] == NewSymbol(v, update))
  }

  lemma InsertEnters(mem: Memory, at: Places, cs: Contexts, next: nat, p: Path, v: byte, update: byte)
    requires Represents(mem, at, cs, next) && p in at && next < |mem| && next <= 0xFFFF
    requires Roomy(ContextOf(cs, p), v, update) && ContextOf(cs, p).tree.Node?
    requires var i := Link(at[p], mem[at[p]].symbols);
             Walkable(mem, at, p, i, ContextOf(cs, p).tree, -1, 256, v, update, next)
    ensures var i := Link(at[p], mem[at[p]].symbols);
            Entered(mem, InsertAt(mem, at, p, i, ContextOf(cs, p).tree, -1, 256, v, update, next),
                    at, cs, p, v, update, next)
  {
    var c := ContextOf(cs, p);
    var i := Link(at[p], mem[at[p]].symbols);
    var mem' := InsertAt(mem, at, p, i, c.tree, -1, 256, v, update, next);
    InsertAtInserts(mem, at, p, i, c.tree, -1, 256, v, update, next);
    InsertEntersThe(mem, mem', at, cs, next, p, v, update);
  }

  /** The common end of both ways to enter a symbol. */
  lemma Entering(mem: Memory, mem': Memory, at: Places, cs: Contexts, next: nat, p: Path, v: byte, update: byte)
    requires Represents(mem, at, cs, next) && p in at && next < |mem|
    requires |mem'| == |mem| && ChildrenOnly(mem, mem', at, p)
    requires SameTotals(mem'[at[p]], mem[at[p]])
    requires !Has(ContextOf(cs, p).tree, v) ==> Sym(p, v) !in at && mem'[next] == NewSymbol(v, update)
    requires Has(ContextOf(cs, p).tree, v) ==> Sym(p, v) in at
    requires ContextAt(mem', PlacesAfter(at, cs, p, v, next), TreeBumped(cs, p, v, update), p)
    ensures Entered(mem, mem', at, cs, p, v, update, next)
  {
    hide Insert, Has, ContextAt, ChildrenAt;
    var c := ContextOf(cs, p);
    var c' := c.(tree := Insert(c.tree, v, update));
    TotalsKept(mem, mem', at, cs, next, p);
    forall u: byte ensures Has(c'.tree, u) <==> u == v || Has(c.tree, u) {
      InsertHas(c.tree, v, update, u);
    }
    hide ChildrenOnly, SameTotals;
    if Has(c.tree, v) {
      ContextReplaced(mem, mem', at, cs, next, p, c');
    } else {
      SymbolAdded(mem, mem', at, cs, next, p, v, c', update);
    }
  }

  predicate SameTotals(a: Symbol, b: Symbol) {
    a.parent == b.parent && a.escapes == b.escapes && a.total == b.total
  }

  lemma TotalsKept(mem: Memory, mem': Memory, at: Places, cs: Contexts, next: nat, p: Path)
    requires Represents(mem, at, cs, next) && p in at
    requires |mem'| == |mem| && ChildrenOnly(mem, mem', at, p) && SameTotals(mem'[at[p]], mem[at[p]])
    ensures forall q :: q in at && at[q] < |mem| ==> SameTotals(mem'[at[q]], mem[at[q]])
  {
  }

  lemma NotOwnChild(p: Path)
    ensures !IsChild(p, p)
  {
    match p
    case Root =>
    case Sym(c, _) => assert Depth(p) == Depth(c) + 1;
  }

  /** Entering v changes neither p's totals nor anything outside p. */
  lemma InsertOnlyChildren(mem: Memory, mem': Memory, at: Places, next: nat, p: Path)
    requires Placed(at, next) && next <= |mem| && p in at && OnlyIn(mem, mem', at, p, -1, 256)
    ensures mem'[at[p]] == mem[at[p]] && ChildrenOnly(mem, mem', at, p)
  {
    NotOwnChild(p);
  }

  lemma BeginOnlyLinks(mem: Memory, at: Places, next: nat, p: Path, v: byte, update: byte)
    requires Placed(at, next) && next < |mem| && next <= 0xFFFF && p in at
    ensures var mem' := Begin(mem, at[p], v, update, next);
            ChildrenOnly(mem, mem', at, p) && SameTotals(mem'[at[p]], mem[at[p]])
  {
    NotOwnChild(p);
  }

  /** p's own record after entering v, given where its tree now starts. */
  lemma ContextEntered(mem: Memory, mem': Memory, at: Places, at': Places, cs: Contexts, p: Path, v: byte, update: byte)
    requires p in at && at[p] < |mem| == |mem'| && p in at' && at'[p] == at[p]
    requires ContextAt(mem, at, cs, p) && SameTotals(mem'[at[p]], mem[at[p]]) && SameNode(mem'[at[p]], mem[at[p]])
    requires TreeAt(mem', at', p, Link(at[p], mem'[at[p]].symbols), Insert(ContextOf(cs, p).tree, v, update))
    ensures ContextAt(mem', at', TreeBumped(cs, p, v, update), p)
  {
    hide Insert, Ordered, TreeAt;
    InsertKeepsOrder(ContextOf(cs, p).tree, -1, 256, v, update);
    ReplaceElsewhere(cs, p, ContextOf(cs, p).(tree := Insert(ContextOf(cs, p).tree, v, update)), p);
  }

  lemma InsertEntersThe(mem: Memory, mem': Memory, at: Places, cs: Contexts, next: nat, p: Path, v: byte, update: byte)
    requires Represents(mem, at, cs, next) && p in at && next < |mem|
    requires Inserted(mem, mem', at, p, Link(at[p], mem[at[p]].symbols), ContextOf(cs, p).tree, -1, 256, v, update,
                      next)
    ensures Entered(mem, mem', at, cs, p, v, update, next)
  {
    assert ContextAt(mem, at, cs, p) && ChildrenAt(at, cs, p);
    hide Insert, Has, ContextAt, TreeAt, Entered, ChildrenOnly;
    InsertOnlyChildren(mem, mem', at, next, p);
    ContextEntered(mem, mem', at, PlacesAfter(at, cs, p, v, next), cs, p, v, update);
    hide TreeBumped;
    Entering(mem, mem', at, cs, next, p, v, update);
  }

  lemma FirstSymbolTree(mem: Memory, at: Places, p: Path, t: Tree, i: nat, v: byte, update: byte)
    requires 0 < i < |mem| && mem[i] == NewSymbol(v, update) && Sym(p, v) in at && at[Sym(p, v)] == i && t.Leaf?
    ensures TreeAt(mem, at, p, i, Insert(t, v, update))
  {
  }

  lemma BeginEnters(mem: Memory, at: Places, cs: Contexts, next: nat, p: Path, v: byte, update: byte)
    requires Represents(mem, at, cs, next) && p in at && next < |mem| && next <= 0xFFFF
    requires ContextOf(cs, p).tree.Leaf?
    ensures at[p] < next
    ensures Entered(mem, Begin(mem, at[p], v, update, next), at, cs, p, v, update, next)
  {
    assert Placed(at, next) && ContextAt(mem, at, cs, p) && ChildrenAt(at, cs, p);
    hide ContextAt, Entered, ChildrenOnly, Represents, TreeAt, Insert;
    var mem' := Begin(mem, at[p], v, update, next);
    BeginOnlyLinks(mem, at, next, p, v, update);
    var at' := PlacesAfter(at, cs, p, v, next);
    FirstSymbolTree(mem', at', p, ContextOf(cs, p).tree, next, v, update);
    ContextEntered(mem, mem', at, at', cs, p, v, update);
    hide TreeBumped;
    Entering(mem, mem', at, cs, next, p, v, update);
  }

  // ---- the other updates ----

  /** Setting a context's escapes and total. */
  lemma TotalsSet(mem: Memory, at: Places, cs: Contexts, next: nat, p: Path, escapes: u16, total: u16)
    requires Represents(mem, at, cs, next) && p in at
    ensures at[p] < |mem|
    ensures Represents(mem[at[p] := mem[at[p]].(escapes := escapes, total := total)], at,
                       cs[p := ContextOf(cs, p).(escapes := escapes, total := total)], next)
  {
    assert Placed(at, next) && ContextAt(mem, at, cs, p);
    var mem' := mem[at[p] := mem[at[p]].(escapes := escapes, total := total)];
    var c := ContextOf(cs, p).(escapes := escapes, total := total);
    hide Ordered, Represents, Has;
    TotalsSetOnly(mem, at, next, p, escapes, total);
    TotalsSetAt(mem, mem', at, cs, p, c);
    hide ContextAt, ChildrenOnly;
    ReplaceElsewhere(cs, p, c, p);
    ContextReplaced(mem, mem', at, cs, next, p, c);
  }

  lemma TotalsSetOnly(mem: Memory, at: Places, next: nat, p: Path, escapes: u16, total: u16)
    requires Placed(at, next) && next <= |mem| && p in at
    ensures ChildrenOnly(mem, mem[at[p] := mem[at[p]].(escapes := escapes, total := total)], at, p)
    ensures forall q :: q in at && q != p ==>
              mem[at[p] := mem[at[p]].(escapes := escapes, total := total)][at[q]] == mem[at[q]]
  {
    NotOwnChild(p);
  }

  lemma TotalsSetAt(mem: Memory, mem': Memory, at: Places, cs: Contexts, p: Path, c: Context)
    requires p in at && at[p] < |mem| == |mem'| && ContextAt(mem, at, cs, p)
    requires mem'[at[p]] == mem[at[p]].(escapes := mem'[at[p]].escapes, total := mem'[at[p]].total)
    requires c == ContextOf(cs, p).(escapes := mem'[at[p]].escapes, total := mem'[at[p]].total)
    requires forall q :: q in at && q != p && at[q] < |mem| ==> mem'[at[q]] == mem[at[q]]
    ensures ContextAt(mem', at, cs[p := c], p)
  {
    NotOwnChild(p);
    TreeFrame(mem, mem', at, at, p, Link(at[p], mem[at[p]].symbols), c.tree, -1, 256);
  }

  ghost predicate OnlyTree(mem: Memory, mem': Memory, at: Places, p: Path, t: Tree) {
    && |mem'| == |mem|
    && forall q :: q in at && at[q] < |mem| && !(IsChild(q, p) && Has(t, q.value)) ==> mem'[at[q]] == mem[at[q]]
  }

  /** Rescaling a context's tree in place. */
  lemma TreeRescaled(mem: Memory, mem': Memory, at: Places, cs: Contexts, next: nat, p: Path)
    requires Represents(mem, at, cs, next) && p in at
    requires RescaledIn(mem, mem', at, p, ContextOf(cs, p).tree)
    requires OnlyTree(mem, mem', at, p, ContextOf(cs, p).tree)
    ensures Represents(mem', at, cs[p := ContextOf(cs, p).(tree := Rescale(ContextOf(cs, p).tree))], next)
  {
    var t := ContextOf(cs, p).tree;
    var c := ContextOf(cs, p).(tree := Rescale(t));
    assert Placed(at, next) && ContextAt(mem, at, cs, p);
    hide Represents;
    NotOwnChild(p);
    ReplaceElsewhere(cs, p, c, p);
    assert mem'[at[p]] == mem[at[p]];
    RescaledTree(mem, mem', at, p, Link(at[p], mem[at[p]].symbols), t, -1, 256);
    RescaleKeepsOrder(t, -1, 256);
    hide Ordered, Rescale, TreeAt;
    assert ContextAt(mem', at, cs[p := c], p);
    hide ContextAt;
    RescaledChildren(mem, mem', at, p, t);
    forall v: byte ensures Has(c.tree, v) <==> Has(t, v) {
      RescaleHas(t, v);
    }
    hide Has, RescaledIn, OnlyTree, ChildrenOnly;
    ContextReplaced(mem, mem', at, cs, next, p, c);
  }

  lemma RescaledChildren(mem: Memory, mem': Memory, at: Places, p: Path, t: Tree)
    requires p in at && RescaledIn(mem, mem', at, p, t) && OnlyTree(mem, mem', at, p, t)
    ensures ChildrenOnly(mem, mem', at, p)
  {
    hide Has;
    NotOwnChild(p);
    forall q | q in at && at[q] < |mem| && IsChild(q, p)
      ensures SameContext(mem'[at[q]], mem[at[q]])
    {
      assert q == Sym(p, q.value);
    }
  }

  lemma {:induction false} RescaleKeepsOrder(t: Tree, lo: int, hi: int)
    requires Ordered(t, lo, hi)
    ensures Ordered(Rescale(t), lo, hi)
  {
    match t
    case Leaf =>
    case Node(v, _, l, r) =>
      RescaleKeepsOrder(l, lo, v);
      RescaleKeepsOrder(r, v, hi);
  }

  lemma LinkKeepsContext(mem: Memory, at: Places, cs: Contexts, next: nat, q: Path, parent: u16, r: Path)
    requires Represents(mem, at, cs, next) && q in at && r in at
    ensures at[q] < |mem| && at[r] < |mem|
    ensures ContextAt(mem[at[q] := mem[at[q]].(parent := parent)], at, cs, r)
  {
    var mem' := mem[at[q] := mem[at[q]].(parent := parent)];
    assert ContextAt(mem, at, cs, r);
    hide ContextAt;
    LinkedContext(mem, mem', at, cs, r);
  }

  predicate SameButParent(a: Symbol, b: Symbol) {
    a == b.(parent := a.parent)
  }

  lemma LinkedContext(mem: Memory, mem': Memory, at: Places, cs: Contexts, r: Path)
    requires r in at && at[r] < |mem| == |mem'| && ContextAt(mem, at, cs, r)
    requires forall j :: 0 <= j < |mem| ==> SameButParent(mem'[j], mem[j])
    ensures ContextAt(mem', at, cs, r)
  {
    TreeFrame(mem, mem', at, at, r, Link(at[r], mem[at[r]].symbols), ContextOf(cs, r).tree, -1, 256);
  }

  /** Linking a symbol to its parent changes no context. */
  lemma ParentLinked(mem: Memory, at: Places, cs: Contexts, next: nat, q: Path, parent: u16)
    requires Represents(mem, at, cs, next) && q in at
    ensures at[q] < |mem|
    ensures Represents(mem[at[q] := mem[at[q]].(parent := parent)], at, cs, next)
  {
    hide ContextAt, ChildrenAt;
    forall r | r in at
      ensures ContextAt(mem[at[q] := mem[at[q]].(parent := parent)], at, cs, r)
    {
      LinkKeepsContext(mem, at, cs, next, q, parent, r);
    }
  }

  // ---- the end of an update: escapes, total, and rescaling when they grow too large ----

  lemma RescaleKeepsParents(mem: Memory, mem': Memory, at: Places, p: Path, t: Tree)
    requires RescaledIn(mem, mem', at, p, t) && OnlyTree(mem, mem', at, p, t)
    ensures SameParents(mem, mem', at)
  {
    hide Has, Subtree, Sum, Rescale;
    forall q | q in at && at[q] < |mem|
      ensures mem'[at[q]].parent == mem[at[q]].parent
    {
      if IsChild(q, p) && Has(t, q.value) {
        assert q == Sym(p, q.value);
      }
    }
  }

  /** The context once its tree, its escapes and its total have followed. */
  function Accounted(c: Context, v: byte, m: minimum): Context {
    var surprise := if m == 0 && !Has(c.tree, v) then SUBCONTEXT_ESCAPE_DELTA else 0;
    Context(Insert(c.tree, v, Delta(m)), c.escapes + surprise, c.total + surprise + Delta(m))
  }

  lemma TotalsKeepParents(mem: Memory, mem': Memory, at: Places, i: nat, escapes: u16, total: u16)
    requires i < |mem| && mem' == mem[i := mem[i].(escapes := escapes, total := total)]
    ensures SameParents(mem, mem', at)
  {
  }

  lemma SameParentsChain(mem: Memory, mem': Memory, mem'': Memory, at: Places)
    requires SameParents(mem, mem', at) && SameParents(mem', mem'', at)
    ensures SameParents(mem, mem'', at)
  {
  }

  /** What the accounting has to add to a context already counted in the tree. */
  lemma AccountedAt(cs: Contexts, p: Path, v: byte, m: minimum)
    requires m == MinimumOf(p)
    ensures var c := ContextOf(cs, p);
            var g := Accounted(c, v, m);
            var counted := TreeBumped(cs, p, v, Delta(m));
            && g.escapes == c.escapes + (if m == 0 && !Has(c.tree, v) then SUBCONTEXT_ESCAPE_DELTA else 0)
            && g.total - g.escapes == c.total - c.escapes + Delta(m)
            && ContextOf(counted, p) == c.(tree := g.tree) && counted[p := g] == cs[p := g]
            && BumpAt(cs, p, v) == cs[p := if WalkCount(c.tree, v) > 0xFF - 2 * Delta(m) || g.total > BOTTOM - 0x100
                                           then Halved(g, m) else g]
  {
    hide Insert, Has, WalkCount, Halved;
  }

  lemma GrownFits(c: Context, v: byte, m: minimum)
    requires ValidContext(c, m)
    ensures var g := Accounted(c, v, m);
            && g.escapes <= g.total <= BOTTOM - 0x100 + 8 && g.total == g.escapes + Sum(g.tree) + 256 * m
            && g.tree.Node? && Ordered(g.tree, -1, 256) && Counted(g.tree, 0xFF)
            && g.escapes > 0
            && Sum(Rescale(g.tree)) + (g.escapes - g.escapes / 2) + 256 * m <= BOTTOM - 0x100
  {
    hide Insert, Sum, Ordered, Counted, WalkCount, Rescale;
    PresentIsCounted(c.tree, 0xFF - Delta(m), v);
    InsertAdds(c.tree, v, Delta(m));
    InsertKeepsOrder(c.tree, -1, 256, v, Delta(m));
    InsertKeepsCounted(c.tree, v, Delta(m), 0xFF - Delta(m), 0xFF);
    RescaleHalves(Insert(c.tree, v, Delta(m)), -1, 256, 0xFF);
  }

  // ---- parent links ----

  /** A new symbol's parent link is still to be set, unless its parent is the root. */
  function Pending(cs: Contexts, p: Path, v: byte): set<Path> {
    if Has(ContextOf(cs, p).tree, v) || p.Root? then {} else {Sym(p, v)}
  }

  lemma ParentAfterEntry(mem: Memory, mem': Memory, at: Places, at': Places, next: nat, p: Path, v: byte, update: byte,
                         has: bool, pending: set<Path>, q: Path)
    requires Placed(at, next) && next <= |mem| == |mem'| && ParentsSet(mem, at, pending)
    requires at' == if has then at else at[Sym(p, v) := next]
    requires !has ==> Sym(p, v) !in at && next < |mem| && mem'[next] == NewSymbol(v, update)
    requires forall r :: r in at && at[r] < |mem| ==> SameTotals(mem'[at[r]], mem[at[r]])
    requires q in at' && q !in pending && (has || p.Root? || q != Sym(p, v))
    ensures Parent(q) in at' && at'[q] < |mem'| && mem'[at'[q]].parent == at'[Parent(q)]
  {
  }

  lemma PendingIsNew(cs: Contexts, p: Path, v: byte)
    ensures Pending(cs, p, v) <= {Sym(p, v)}
  {
  }

  lemma PlacedIn(mem: Memory, at: Places, cs: Contexts, next: nat, p: Path, v: byte)
    requires Represents(mem, at, cs, next) && p in at
    ensures Placed(at, next) && next <= |mem|
    ensures Sym(p, v) in at <==> Has(ContextOf(cs, p).tree, v)
  {
    hide Has, ContextAt;
    assert ChildrenAt(at, cs, p);
  }

  lemma ParentsAfterEntry(mem: Memory, mem': Memory, at: Places, cs: Contexts, p: Path, v: byte, update: byte,
                          next: nat,
                          pending: set<Path>)
    requires Represents(mem, at, cs, next) && p in at && next < |mem|
    requires Entered(mem, mem', at, cs, p, v, update, next) && ParentsSet(mem, at, pending)
    ensures ParentsSet(mem', PlacesAfter(at, cs, p, v, next), pending + Pending(cs, p, v))
    ensures forall q :: q in at ==> var at' := PlacesAfter(at, cs, p, v, next); q in at' && at'[q] == at[q]
  {
    hide Represents, Has, TreeBumped, Placed, ContextAt, ChildrenAt, SameTotals, Insert;
    PlacedIn(mem, at, cs, next, p, v);
    var at' := PlacesAfter(at, cs, p, v, next);
    forall q | q in at' && q !in pending + Pending(cs, p, v)
      ensures Parent(q) in at' && at'[q] < |mem'| && mem'[at'[q]].parent == at'[Parent(q)]
    {
      ParentAfterEntry(mem, mem', at, at', next, p, v, update, Has(ContextOf(cs, p).tree, v), pending, q);
    }
  }

  lemma ParentsAfterLink(mem: Memory, at: Places, pending: set<Path>, q: Path)
    requires ParentsSet(mem, at, pending) && Separate(at, |mem|) && q in at && Parent(q) in at
    requires at[Parent(q)] <= 0xFFFF
    ensures ParentsSet(mem[at[q] := mem[at[q]].(parent := at[Parent(q)])], at, pending - {q})
  {
  }

  lemma ParentsKept(mem: Memory, mem': Memory, at: Places, pending: set<Path>)
    requires ParentsSet(mem, at, pending) && SameParents(mem, mem', at)
    ensures ParentsSet(mem', at, pending)
  {
  }
}
