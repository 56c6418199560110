/** The searches of CONTEXT_ENCODE and CONTEXT_DECODE, step by step: what each turn of their
    loops leaves to do, and that it ends in the same memory. */
module SymbolSearch {
  import opened Words
  import opened FrequencyTree
  import opened PpmModel
  import opened SymbolMemory
  import opened TableUpdates

  lemma RoomFor(c: Context, m: minimum, v: byte)
    requires ValidContext(c, m)
    ensures Roomy(c, v, Delta(m)) && 1 <= Delta(m)
    ensures c.tree.Leaf? ==> !Has(c.tree, v) && WalkUnder(c.tree, v) == WalkCount(c.tree, v) == 0
    ensures 255 + Sum(c.tree) <= 0xFFFF && 1 + WalkCount(c.tree, v) <= 0xFFFF
    ensures WalkUnder(c.tree, v) + WalkCount(c.tree, v) <= Sum(c.tree)
  {
    SlotFits(c.tree, v);
    PresentIsCounted(c.tree, 0xFF - Delta(m), v);
  }

  lemma NodeFacts(mem: Memory, at: Places, p: Path, i: nat, t: Tree, lo: int, hi: int, v: byte, update: byte, next: nat)
    requires Walkable(mem, at, p, i, t, lo, hi, v, update, next)
    ensures t.Node? && 0 < i < next && mem[i].value == t.value && mem[i].count == t.count
    ensures Sum(t) == Sum(t.left) + t.count + Sum(t.right)
    ensures mem[i].under == t.count + Sum(t.left) && mem[i].under + update <= 0xFFFF
  {
    SumOfParts(t, v);
  }

  lemma WalkEnds(mem: Memory, at: Places, p: Path, i: nat, t: Tree, lo: int, hi: int, v: byte, update: byte, next: nat)
    requires Walkable(mem, at, p, i, t, lo, hi, v, update, next) && next <= 0xFFFF && v == t.value
    ensures mem[i].count + update <= 0xFF && Has(t, v) && Sym(p, v) in at && at[Sym(p, v)] == i
    ensures WalkCount(t, v) == t.count && WalkUnder(t, v) == Sum(t.left)
    ensures mem[i].under + update <= 0xFFFF
    ensures InsertAt(mem, at, p, i, t, lo, hi, v, update, next) == mem[i := Passed(mem[i], v, update)]
  {
    SumOfParts(t, v);
  }

  lemma WalkGoesOn(mem: Memory, at: Places, p: Path, i: nat, t: Tree, lo: int, hi: int, v: byte, update: byte,
                   next: nat)
    requires Walkable(mem, at, p, i, t, lo, hi, v, update, next) && next <= 0xFFFF && v != t.value
    ensures var u := Towards(t, v);
            && WalkCount(t, v) == WalkCount(u, v) && (Has(t, v) <==> Has(u, v))
            && WalkUnder(t, v) == WalkUnder(u, v) + (if v < t.value then 0 else t.count + Sum(t.left))
            && (u.Leaf? <==> Onward(mem[i], i, v) == 0)
            && (u.Leaf? ==> !Has(t, v) && WalkUnder(u, v) == WalkCount(u, v) == 0)
    ensures mem[i].under + update <= 0xFFFF && 0 < i < next && mem[i].value == t.value
    ensures var mem' := mem[i := Passed(mem[i], v, update)];
            if Towards(t, v).Leaf? then
              InsertAt(mem, at, p, i, t, lo, hi, v, update, next) == Attach(mem', i, v, update, next)
            else
              && Walkable(mem', at, p, Onward(mem[i], i, v), Towards(t, v), Low(t, lo, v), High(t, hi, v), v, update,
                          next)
              && InsertAt(mem, at, p, i, t, lo, hi, v, update, next)
                 == InsertAt(mem', at, p, Onward(mem[i], i, v), Towards(t, v), Low(t, lo, v), High(t, hi, v), v,
                             update, next)
  {
    SumOfParts(t, v);
    WalkOn(mem, at, p, i, t, lo, hi, v, update, next);
  }

  lemma TreeOfContext(mem: Memory, at: Places, cs: Contexts, next: nat, p: Path)
    requires Represents(mem, at, cs, next) && p in at
    ensures at[p] < next <= |mem|
    ensures var t := ContextOf(cs, p).tree;
            && (t.Leaf? <==> mem[at[p]].symbols == 0) && Ordered(t, -1, 256)
            && TreeAt(mem, at, p, Link(at[p], mem[at[p]].symbols), t)
            && mem[at[p]].escapes == ContextOf(cs, p).escapes && mem[at[p]].total == ContextOf(cs, p).total
  {
    hide Ordered, Sum;
    assert ContextAt(mem, at, cs, p);
  }

  /** A decoded value is a byte; without one, the code lies beyond all the counts. */
  lemma FoundValue(c: Context, m: minimum, code: nat)
    requires ValidContext(c, m) && (m == 1 ==> code < Sum(c.tree) + 256)
    ensures Sum(c.tree) + 256 <= 0xFFFF
    ensures var hit := Find(c.tree, code, 0, m);
            && (hit.NoHit? ==> m == 0 && Sum(c.tree) <= code)
            && (hit.Hit? ==> 0 <= hit.value < 256 && code < Sum(c.tree) + Times(256, m))
            && (c.tree.Leaf? ==> hit == if m == 0 then NoHit else Hit(code, code, 1))
  {
    assert code + c.escapes - c.escapes == code;
    FoundInContext(c, m, code + c.escapes);
  }

  function AtLeaf(code: int, before: int, m: minimum): Hit {
    if m == 0 then NoHit else Hit(code - before, code, 1)
  }

  lemma DecodeUnfolds(mem: Memory, at: Places, p: Path, i: nat, t: Tree, lo: int, hi: int,
                      code: int, before: int, m: minimum)
    requires t.Node? && TreeAt(mem, at, p, i, t) && Ordered(t, lo, hi)
    ensures 0 < i < |mem| && mem[i].value == t.value && mem[i].count == t.count && mem[i].under == t.count + Sum(t.left)
    ensures Sum(t) == mem[i].under + Sum(t.right)
    ensures TreeAt(mem, at, p, Link(i, mem[i].left), t.left) && TreeAt(mem, at, p, Link(i, mem[i].right), t.right)
    ensures lo < t.value < hi && Ordered(t.left, lo, t.value) && Ordered(t.right, t.value, hi)
    ensures t.left.Leaf? <==> mem[i].left == 0
    ensures t.right.Leaf? <==> mem[i].right == 0
    ensures var after := before + mem[i].under + Times(mem[i].value + 1, m);
            var start := after - (mem[i].count + m);
            && start == before + Sum(t.left) + Times(t.value, m)
            && (code >= after ==> Find(t, code, before, m) == Find(t.right, code, before + mem[i].under, m))
            && (code < start ==> Find(t, code, before, m) == Find(t.left, code, before, m))
            && (t.left.Leaf? ==> Sum(t.left) == 0 && Find(t.left, code, before, m) == AtLeaf(code, before, m))
            && (t.right.Leaf? ==> Find(t.right, code, before + mem[i].under, m)
                                  == AtLeaf(code, before + mem[i].under, m))
            && (start <= code < after ==> Find(t, code, before, m) == Hit(t.value, start, mem[i].count + m))
  {
  }

  /** Where the decoder's walk is: in subtree t at node, with the code's part of the table still
      ahead of it, and with the memory it will leave already settled. */
  ghost predicate Searching(mem0: Memory, mem: Memory, at: Places, p: Path, start: nat, tree: Tree, node: nat, t: Tree,
                            lo: int, hi: int, code: u16, under: nat, min: minimum, update: byte, next: nat) {
    var hit := Find(tree, code, 0, min);
    && t.Node? && TreeAt(mem, at, p, node, t) && Ordered(t, lo, hi) && -1 <= lo && hi <= 256
    && Sum(tree) + 256 <= 0xFFFF && next <= 0xFFFF && Separate(at, next) && next < |mem|
    && Find(t, code, under, min) == hit && under + Sum(t) <= Sum(tree)
    && (hit.NoHit? ==> min == 0 && under + Sum(t) <= code)
    && (hit.Hit? ==> 0 <= hit.value < 256
                     && Settled(mem0, mem, at, p, start, tree, node, t, lo, hi, hit.value, update, next)
                     && under + Times(lo + 1, min) <= code < under + Sum(t) + Times(hi, min))
  }

  ghost predicate Settled(mem0: Memory, mem: Memory, at: Places, p: Path, start: nat, tree: Tree, node: nat, t: Tree,
                          lo: int, hi: int, v: byte, update: byte, next: nat) {
    && next <= 0xFFFF && (Has(t, v) <==> Has(tree, v))
    && Walkable(mem0, at, p, start, tree, -1, 256, v, update, next)
    && Walkable(mem, at, p, node, t, lo, hi, v, update, next)
    && InsertAt(mem, at, p, node, t, lo, hi, v, update, next)
       == InsertAt(mem0, at, p, start, tree, -1, 256, v, update, next)
  }

  lemma SearchFacts(mem0: Memory, mem: Memory, at: Places, p: Path, start: nat, tree: Tree, node: nat, t: Tree,
                    lo: int, hi: int, code: u16, under: nat, min: minimum, update: byte, next: nat)
    requires Searching(mem0, mem, at, p, start, tree, node, t, lo, hi, code, under, min, update, next)
    ensures t.Node? && 0 < node < next < |mem| && next <= 0xFFFF
    ensures under + mem[node].under + 256 <= 0xFFFF && mem[node].count <= mem[node].under
    ensures (mem[node].value + 1) * min == Times(mem[node].value + 1, min)
  {
    hide Find, Settled, Ordered;
    SumOfParts(t, t.value);
  }

  lemma SettledOn(mem0: Memory, mem: Memory, at: Places, p: Path, start: nat, tree: Tree, node: nat, t: Tree,
                  lo: int, hi: int, v: byte, update: byte, next: nat)
    requires Settled(mem0, mem, at, p, start, tree, node, t, lo, hi, v, update, next) && v != t.value
    ensures 0 < node < next && mem[node].value == t.value && mem[node].under + update <= 0xFFFF
    ensures var mem' := mem[node := Passed(mem[node], v, update)];
            if Towards(t, v).Leaf? then
              !Has(tree, v) && InsertAt(mem0, at, p, start, tree, -1, 256, v, update, next)
              == Attach(mem', node, v, update, next)
            else
              Settled(mem0, mem', at, p, start, tree, Onward(mem[node], node, v), Towards(t, v),
                      Low(t, lo, v), High(t, hi, v), v, update, next)
  {
    hide InsertAt, Walkable, Has;
    NodeFacts(mem, at, p, node, t, lo, hi, v, update, next);
    WalkGoesOn(mem, at, p, node, t, lo, hi, v, update, next);
  }

  /** The decoder goes to the side of a symbol that the value it will find is on. */
  lemma SideOfHit(t: Tree, lo: int, hi: int, code: int, before: int, m: minimum, v: byte)
    requires t.Node? && Ordered(t, lo, hi)
    requires before + Times(lo + 1, m) <= code < before + Sum(t) + Times(hi, m)
    requires Find(t, code, before, m).Hit? && Find(t, code, before, m).value == v
    ensures var start := before + Sum(t.left) + Times(t.value, m);
            && (code >= start + t.count + m <==> v > t.value)
            && (code < start <==> v < t.value)
  {
    var start := before + Sum(t.left) + Times(t.value, m);
    if code >= start + t.count + m {
      FoundSlotIsWalked(t.right, t.value, hi, code, before + t.count + Sum(t.left), m);
    } else if code < start {
      FoundSlotIsWalked(t.left, lo, t.value, code, before, m);
    }
  }

  lemma SearchUnfolds(mem0: Memory, mem: Memory, at: Places, p: Path, start: nat, tree: Tree, node: nat, t: Tree,
                      lo: int, hi: int, code: u16, under: nat, min: minimum, update: byte, next: nat)
    requires Searching(mem0, mem, at, p, start, tree, node, t, lo, hi, code, under, min, update, next)
    ensures t.Node? && 0 < node < next && lo < t.value < hi && mem[node].value == t.value
    ensures Sum(t) == mem[node].under + Sum(t.right) && mem[node].under == t.count + Sum(t.left)
    ensures mem[node].count == t.count
    ensures TreeAt(mem, at, p, Link(node, mem[node].left), t.left)
    ensures TreeAt(mem, at, p, Link(node, mem[node].right), t.right)
    ensures Ordered(t.left, lo, t.value) && Ordered(t.right, t.value, hi)
    ensures (t.left.Leaf? <==> mem[node].left == 0) && (t.right.Leaf? <==> mem[node].right == 0)
    ensures var hit := Find(tree, code, 0, min);
            hit.Hit? ==> hit == Find(t, code, under, min) && SideIs(t, code, under, min, hit.value)
  {
    hide Settled;
    DecodeUnfolds(mem, at, p, node, t, lo, hi, code, under, min);
    hide Find, Ordered, TreeAt, Sum;
    var hit := Find(tree, code, 0, min);
    if hit.Hit? {
      SideOfHit(t, lo, hi, code, under, min, hit.value);
    }
  }

  ghost predicate SideIs(t: Tree, code: int, before: int, m: minimum, v: byte)
    requires t.Node?
  {
    var start := before + Sum(t.left) + Times(t.value, m);
    && (code >= start + t.count + m <==> v > t.value)
    && (code < start <==> v < t.value)
  }

  lemma SearchRight(mem0: Memory, mem: Memory, at: Places, p: Path, start: nat, tree: Tree, node: nat, t: Tree,
                    lo: int, hi: int, code: u16, under: nat, min: minimum, update: byte, next: nat)
    requires Searching(mem0, mem, at, p, start, tree, node, t, lo, hi, code, under, min, update, next)
    requires 0 < node < next < |mem| && code >= under + mem[node].under + Times(mem[node].value + 1, min)
    ensures mem[node].right != 0 ==>
              && t.right < t
              && Searching(mem0, mem, at, p, start, tree, node + mem[node].right, t.right, t.value, hi,
                           code, under + mem[node].under, min, update, next)
    ensures var hit := Find(tree, code, 0, min);
            mem[node].right == 0 ==>
              if min == 0 then hit.NoHit? else
                && hit == Hit(code - under - mem[node].under, code, 1) && 0 <= hit.value < 256
                && Walkable(mem0, at, p, start, tree, -1, 256, hit.value, update, next) && !Has(tree, hit.value)
                && InsertAt(mem0, at, p, start, tree, -1, 256, hit.value, update, next)
                   == mem[next := NewSymbol(hit.value, update)][node := mem[node].(right := next - node)]
  {
    hide Find, Sum, InsertAt, Walkable, TreeAt, Ordered, Has;
    SearchUnfolds(mem0, mem, at, p, start, tree, node, t, lo, hi, code, under, min, update, next);
    DecodeUnfolds(mem, at, p, node, t, lo, hi, code, under, min);
    var hit := Find(tree, code, 0, min);
    if hit.Hit? {
      SettledOn(mem0, mem, at, p, start, tree, node, t, lo, hi, hit.value, update, next);
      assert mem[node := Passed(mem[node], hit.value, update)] == mem;
    }
  }

  lemma SearchLeft(mem0: Memory, mem: Memory, at: Places, p: Path, start: nat, tree: Tree, node: nat, t: Tree,
                   lo: int, hi: int, code: u16, under: nat, min: minimum, update: byte, next: nat)
    requires Searching(mem0, mem, at, p, start, tree, node, t, lo, hi, code, under, min, update, next)
    requires 0 < node < next < |mem| && mem[node].count <= mem[node].under
    requires code < under + mem[node].under + Times(mem[node].value + 1, min) - (mem[node].count + min)
    ensures t.Node? && mem[node].under + update <= 0xFFFF
    ensures var mem' := mem[node := mem[node].(under := mem[node].under + update)];
            mem[node].left != 0 ==>
              && t.left < t
              && Searching(mem0, mem', at, p, start, tree, node + mem[node].left, t.left, lo, t.value,
                           code, under, min, update, next)
    ensures var hit := Find(tree, code, 0, min);
            var mem' := mem[node := mem[node].(under := mem[node].under + update)];
            mem[node].left == 0 ==>
              if min == 0 then hit.NoHit? else
                && hit == Hit(code - under, code, 1) && 0 <= hit.value < 256
                && mem[node].under == mem[node].count
                && Walkable(mem0, at, p, start, tree, -1, 256, hit.value, update, next) && !Has(tree, hit.value)
                && InsertAt(mem0, at, p, start, tree, -1, 256, hit.value, update, next)
                   == mem'[next := NewSymbol(hit.value, update)][node := mem'[node].(left := next - node)]
  {
    hide Find, Sum, InsertAt, TreeAt, Ordered, Has;
    SearchUnfolds(mem0, mem, at, p, start, tree, node, t, lo, hi, code, under, min, update, next);
    DecodeUnfolds(mem, at, p, node, t, lo, hi, code, under, min);
    var hit := Find(tree, code, 0, min);
    if hit.Hit? {
      SettledOn(mem0, mem, at, p, start, tree, node, t, lo, hi, hit.value, update, next);
    }
  }

  lemma SearchEnds(mem0: Memory, mem: Memory, at: Places, p: Path, start: nat, tree: Tree, node: nat, t: Tree,
                   lo: int, hi: int, code: u16, under: nat, min: minimum, update: byte, next: nat)
    requires Searching(mem0, mem, at, p, start, tree, node, t, lo, hi, code, under, min, update, next)
    requires 0 < node < next < |mem| && mem[node].count <= mem[node].under
    requires var after := under + mem[node].under + Times(mem[node].value + 1, min);
             after - (mem[node].count + min) <= code < after
    ensures mem[node].under + update <= 0xFFFF && mem[node].count + update <= 0xFF
    ensures var v := mem[node].value;
            && Find(tree, code, 0, min)
               == Hit(v, under + mem[node].under + Times(v + 1, min) - (mem[node].count + min), mem[node].count + min)
            && Walkable(mem0, at, p, start, tree, -1, 256, v, update, next)
            && Has(tree, v) && Sym(p, v) in at && at[Sym(p, v)] == node
            && InsertAt(mem0, at, p, start, tree, -1, 256, v, update, next)
               == mem[node := mem[node].(under := mem[node].under + update, count := mem[node].count + update)]
  {
    hide Find, Sum, InsertAt, TreeAt, Ordered, Has, Walkable;
    SearchUnfolds(mem0, mem, at, p, start, tree, node, t, lo, hi, code, under, min, update, next);
    DecodeUnfolds(mem, at, p, node, t, lo, hi, code, under, min);
    WalkEnds(mem, at, p, node, t, lo, hi, mem[node].value, update, next);
  }

  lemma RepresentsApart(mem: Memory, at: Places, cs: Contexts, next: nat)
    requires Represents(mem, at, cs, next)
    ensures Separate(at, next)
  {
    hide ContextAt, ChildrenAt;
  }

  lemma SettledAtStart(mem: Memory, at: Places, cs: Contexts, next: nat, p: Path, m: minimum, v: byte, update: byte)
    requires Represents(mem, at, cs, next) && next < |mem| && next <= 0xFFFF && p in at && ContextOf(cs, p).tree.Node?
    requires m == MinimumOf(p) && update == Delta(m) && ValidContext(ContextOf(cs, p), m)
    ensures at[p] < next
    ensures var t := ContextOf(cs, p).tree;
            var start := Link(at[p], mem[at[p]].symbols);
            Settled(mem, mem, at, p, start, t, start, t, -1, 256, v, update, next)
  {
    hide Roomy, ValidContext, Represents, Walkable, InsertAt, Has;
    RoomFor(ContextOf(cs, p), m, v);
    ContextIsWalkable(mem, at, cs, next, p, v, update);
  }

  /** The decoder's walk starts at the top of the context's tree. */
  lemma SearchStarts(mem: Memory, at: Places, cs: Contexts, next: nat, p: Path, m: minimum, code: u16, update: byte)
    requires Represents(mem, at, cs, next) && next < |mem| && next <= 0xFFFF && p in at && ContextOf(cs, p).tree.Node?
    requires m == MinimumOf(p) && update == Delta(m) && ValidContext(ContextOf(cs, p), m)
    requires m == 1 ==> code < Sum(ContextOf(cs, p).tree) + 256
    ensures var t := ContextOf(cs, p).tree;
            var start := Link(at[p], mem[at[p]].symbols);
            Searching(mem, mem, at, p, start, t, start, t, -1, 256, code, 0, m, update, next)
  {
    hide Walkable, InsertAt, Represents, ValidContext, Has, TreeAt, Ordered, Find, Sum, Settled, Separate;
    var c := ContextOf(cs, p);
    TreeOfContext(mem, at, cs, next, p);
    RepresentsApart(mem, at, cs, next);
    FoundValue(c, m, code);
    var hit := Find(c.tree, code, 0, m);
    if hit.Hit? {
      SettledAtStart(mem, at, cs, next, p, m, hit.value, update);
    }
  }
}
