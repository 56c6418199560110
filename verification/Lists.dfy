/** The circular doubly linked lists of src/enet/list.c, on nodes that are linked in place. A list
    is a ring of nodes whose first is the list's sentinel. */
module Lists {

  class Node {
    var next: Node
    var previous: Node

    /** enet_list_clear: a sentinel on its own. */
    constructor ()
      ensures Ring([this])
    {
      next, previous := this, this;
    }
  }

  ghost predicate Distinct(s: seq<Node>) {
    forall i, j :: 0 <= i < j < |s| ==> s[i] != s[j]
  }

  /** Every node points to its neighbours in s. */
  ghost predicate Chained(s: seq<Node>)
    reads s
  {
    forall i, j :: 0 <= i && j == i + 1 < |s| ==> s[i].next == s[j] && s[j].previous == s[i]
  }

  /** The chain is closed. */
  ghost predicate Ring(s: seq<Node>)
    reads s
  {
    && |s| > 0 && Distinct(s) && Chained(s)
    && s[|s| - 1].next == s[0] && s[0].previous == s[|s| - 1]
  }

  // ---- rings as values ----

  function Prior(n: nat, k: nat): nat
    requires k < n
  {
    if k == 0 then n - 1 else k - 1
  }

  function After(n: nat, k: nat): nat
    requires k < n
  {
    if k == n - 1 then 0 else k + 1
  }

  ghost predicate Leads(s: seq<Node>, k: nat)
    requires k < |s|
    reads s
  {
    s[k].next == s[After(|s|, k)]
  }

  ghost predicate Follows(s: seq<Node>, k: nat)
    requires k < |s|
    reads s
  {
    s[k].previous == s[Prior(|s|, k)]
  }

  lemma Neighbours(s: seq<Node>, k: nat)
    requires Ring(s) && k < |s|
    ensures Leads(s, k) && Follows(s, k)
  {
    if k > 0 {
      assert s[k - 1].next == s[k];
    }
    if k < |s| - 1 {
      assert s[k].next == s[k + 1];
    }
  }

  /** x put in front of place k; in front of the sentinel is the end of the list. */
  function Inserted(s: seq<Node>, k: nat, x: seq<Node>): seq<Node>
    requires k < |s|
  {
    if k == 0 then s + x else s[..k] + x + s[k..]
  }

  function Cut(s: seq<Node>, i: nat, j: nat): seq<Node>
    requires i <= j <= |s|
  {
    s[..i] + s[j..]
  }

  lemma InsertedIsDistinct(s: seq<Node>, k: nat, x: seq<Node>)
    requires Distinct(s) && Distinct(x) && k < |s| && forall n :: n in x ==> n !in s
    ensures Distinct(Inserted(s, k, x))
  {
    var t := Inserted(s, k, x);
    var at := if k == 0 then |s| else k;
    assert t == s[..at] + x + s[at..];
    forall i, j | 0 <= i < j < |t|
      ensures t[i] != t[j]
    {
      assert at <= i < at + |x| ==> t[i] in x;
      assert at <= j < at + |x| ==> t[j] in x;
      assert !(at <= i < at + |x|) ==> t[i] == s[if i < at then i else i - |x|];
      assert !(at <= j < at + |x|) ==> t[j] == s[if j < at then j else j - |x|];
    }
  }

  /** What the links say when a chain x is tied into a ring in front of place k. */
  ghost predicate Tied(s: seq<Node>, k: nat, x: seq<Node>)
    requires k < |s| && x != []
    reads s, x
  {
    var p := Prior(|s|, k);
    && Chained(x)
    && s[p].next == x[0] && x[0].previous == s[p]
    && x[|x| - 1].next == s[k] && s[k].previous == x[|x| - 1]
    && (forall i: nat :: i < |s| && i != p ==> Leads(s, i))
    && (forall i: nat :: i < |s| && i != k ==> Follows(s, i))
  }

  lemma ChainsJoin(a: seq<Node>, b: seq<Node>)
    requires a != [] && b != [] && Chained(a) && Chained(b)
    requires a[|a| - 1].next == b[0] && b[0].previous == a[|a| - 1]
    ensures Chained(a + b)
  {
    var t := a + b;
    forall i, j | 0 <= i && j == i + 1 < |t|
      ensures t[i].next == t[j] && t[j].previous == t[i]
    {
      if j < |a| {
        assert t[i] == a[i] && t[j] == a[j];
      } else if i >= |a| {
        assert t[i] == b[i - |a|] && t[j] == b[j - |a|];
      }
    }
  }

  /** Away from the place where something is tied in, the ring's own links are intact. */
  lemma TiedParts(s: seq<Node>, k: nat, x: seq<Node>)
    requires k < |s| && x != [] && Tied(s, k, x)
    ensures Chained(s[..k]) && Chained(s[k..])
    ensures k > 0 ==> s[|s| - 1].next == s[0] && s[0].previous == s[|s| - 1]
  {
    forall i, j | 0 <= i && j == i + 1 < |s| && j != k
      ensures s[i].next == s[j] && s[j].previous == s[i]
    {
      assert Leads(s, i) && Follows(s, j);
    }
    if k > 0 {
      assert Leads(s, |s| - 1) && Follows(s, 0);
    }
  }

  lemma TiedIsRing(s: seq<Node>, k: nat, x: seq<Node>)
    requires k < |s| && x != [] && Tied(s, k, x) && Distinct(s) && Distinct(x) && forall n :: n in x ==> n !in s
    ensures Ring(Inserted(s, k, x))
  {
    hide Distinct, Chained, Ring, Inserted;
    InsertedIsDistinct(s, k, x);
    TiedParts(s, k, x);
    if k == 0 {
      TiedAtEnd(s, x);
    } else {
      InsertedInside(s, k, x);
      TiedInside(s[..k], x, s[k..]);
    }
  }

  lemma InsertedInside(s: seq<Node>, k: nat, x: seq<Node>)
    requires 0 < k < |s|
    ensures Inserted(s, k, x) == s[..k] + x + s[k..]
  {
  }

  lemma TiedAtEnd(s: seq<Node>, x: seq<Node>)
    requires s != [] && x != [] && Chained(s[0..]) && Chained(x) && Distinct(Inserted(s, 0, x))
    requires s[|s| - 1].next == x[0] && x[0].previous == s[|s| - 1]
    requires x[|x| - 1].next == s[0] && s[0].previous == x[|x| - 1]
    ensures Ring(Inserted(s, 0, x))
  {
    hide Distinct, Chained;
    assert s[0..] == s;
    ChainsJoin(s, x);
  }

  lemma TiedInside(a: seq<Node>, x: seq<Node>, b: seq<Node>)
    requires a != [] && x != [] && b != [] && Chained(a) && Chained(x) && Chained(b) && Distinct(a + x + b)
    requires a[|a| - 1].next == x[0] && x[0].previous == a[|a| - 1]
    requires x[|x| - 1].next == b[0] && b[0].previous == x[|x| - 1]
    requires b[|b| - 1].next == a[0] && a[0].previous == b[|b| - 1]
    ensures Ring(a + x + b)
  {
    hide Distinct, Chained;
    ChainsJoin(a, x);
    ChainsJoin(a + x, b);
  }

  /** enet_list_insert */
  method Insert(position: Node, data: Node, ghost ring: seq<Node>, ghost k: nat) returns (result: Node)
    requires Ring(ring) && k < |ring| && ring[k] == position && data !in ring
    modifies position, position.previous, data
    ensures result == data && Ring(Inserted(ring, k, [data]))
  {
    assert Distinct([data]);
    hide Distinct;
    AllNeighbours(ring);
    OthersDiffer(ring, Prior(|ring|, k));
    OthersDiffer(ring, k);
    hide Ring;
    assert Follows(ring, k);
    result := data;
    result.previous := position.previous;
    result.next := position;
    result.previous.next := result;
    position.previous := result;
    TiedIsRing(ring, k, [data]);
  }

  // ---- taking nodes out ----

  /** What the links say when places i to j of a ring have been bridged. */
  ghost predicate Bridged(s: seq<Node>, i: nat, j: nat)
    requires 0 < i < j <= |s|
    reads s
  {
    var p, q := i - 1, if j == |s| then 0 else j;
    && s[p].next == s[q] && s[q].previous == s[p]
    && (forall m: nat :: m < |s| && (m < i || m >= j) && m != p ==> Leads(s, m))
    && (forall m: nat :: m < |s| && (m < i || m >= j) && m != q ==> Follows(s, m))
  }

  lemma BridgedIsRing(s: seq<Node>, i: nat, j: nat)
    requires 0 < i < j <= |s| && Bridged(s, i, j) && Distinct(s)
    ensures Ring(Cut(s, i, j)) && Distinct(Cut(s, i, j))
  {
    BridgedParts(s, i, j);
    hide Chained;
    if j == |s| {
      assert Cut(s, i, j) == s[..i];
    } else {
      ChainsJoin(s[..i], s[j..]);
    }
  }

  lemma BridgedParts(s: seq<Node>, i: nat, j: nat)
    requires 0 < i < j <= |s| && Bridged(s, i, j)
    ensures Chained(s[..i]) && Chained(s[j..])
    ensures j < |s| ==> s[|s| - 1].next == s[0] && s[0].previous == s[|s| - 1]
  {
    forall m, n | 0 <= m && n == m + 1 < |s| && (n < i || m >= j)
      ensures s[m].next == s[n] && s[n].previous == s[m]
    {
      assert Leads(s, m) && Follows(s, n);
    }
    if j < |s| {
      assert Leads(s, |s| - 1) && Follows(s, 0);
    }
  }

  lemma OthersDiffer(s: seq<Node>, p: nat)
    requires Distinct(s) && p < |s|
    ensures forall m: nat :: m < |s| && m != p ==> s[m] != s[p]
  {
  }

  /** enet_list_remove: the links of the node itself stay as they are. */
  method Remove(position: Node, ghost ring: seq<Node>, ghost k: nat) returns (result: Node)
    requires Ring(ring) && 0 < k < |ring| && ring[k] == position
    modifies position.previous, position.next
    ensures result == position && Ring(Cut(ring, k, k + 1))
    ensures position.next == old(position.next) && position.previous == old(position.previous)
  {
    hide Distinct;
    AllNeighbours(ring);
    OthersDiffer(ring, Prior(|ring|, k));
    OthersDiffer(ring, After(|ring|, k));
    hide Ring;
    assert Follows(ring, k) && Leads(ring, k);
    position.previous.next := position.next;
    position.next.previous := position.previous;
    BridgedIsRing(ring, k, k + 1);
    result := position;
  }

  lemma AllNeighbours(s: seq<Node>)
    requires Ring(s)
    ensures forall i: nat :: i < |s| ==> Leads(s, i) && Follows(s, i)
  {
    forall i: nat | i < |s|
      ensures Leads(s, i) && Follows(s, i)
    {
      Neighbours(s, i);
    }
  }

  lemma PartOfRing(s: seq<Node>, i: nat, j: nat)
    requires Ring(s) && i < j <= |s|
    ensures Chained(s[i..j]) && Distinct(s[i..j])
  {
  }

  method Bridge(first: Node, last: Node, ghost ring: seq<Node>, ghost i: nat, ghost j: nat)
    requires Ring(ring) && 0 < i < j <= |ring| && first == ring[i] && last == ring[j - 1]
    modifies first.previous, last.next
    ensures Ring(Cut(ring, i, j)) && Chained(ring[i..j])
    ensures old(last.next).previous == old(first.previous)
    ensures old(first.previous) != old(last.next) ==> old(first.previous).previous == old(first.previous.previous)
  {
    hide Distinct;
    AllNeighbours(ring);
    PartOfRing(ring, i, j);
    OthersDiffer(ring, Prior(|ring|, i));
    OthersDiffer(ring, After(|ring|, j - 1));
    hide Ring;
    assert Follows(ring, i) && Leads(ring, j - 1);
    first.previous.next := last.next;
    last.next.previous := first.previous;
    BridgedIsRing(ring, i, j);
  }

  lemma ApartFrom(n: Node, s: seq<Node>)
    requires n !in s
    ensures forall m: nat :: m < |s| ==> s[m] != n
  {
  }

  method Tie(position: Node, first: Node, last: Node, ghost ring: seq<Node>, ghost k: nat, ghost part: seq<Node>)
    requires Ring(ring) && k < |ring| && position == ring[k]
    requires part != [] && Chained(part) && Distinct(part) && first == part[0] && last == part[|part| - 1]
    requires forall n :: n in part ==> n !in ring
    modifies first, last, position, position.previous
    ensures Ring(Inserted(ring, k, part))
  {
    hide Distinct;
    AllNeighbours(ring);
    OthersDiffer(ring, Prior(|ring|, k));
    OthersDiffer(ring, k);
    OthersDiffer(part, 0);
    OthersDiffer(part, |part| - 1);
    ApartFrom(first, ring);
    ApartFrom(last, ring);
    ApartFrom(ring[k], part);
    ApartFrom(ring[Prior(|ring|, k)], part);
    hide Ring;
    assert Follows(ring, k);
    first.previous := position.previous;
    last.next := position;
    first.previous.next := first;
    position.previous := last;
    assert Chained(part);
    assert forall m: nat :: m < |ring| && m != Prior(|ring|, k) ==> Leads(ring, m);
    assert forall m: nat :: m < |ring| && m != k ==> Follows(ring, m);
    TiedIsRing(ring, k, part);
  }

  lemma CutIsApart(s: seq<Node>, i: nat, j: nat)
    requires Distinct(s) && i < j <= |s|
    ensures forall n :: n in Cut(s, i, j) ==> n in s && n !in s[i..j]
  {
  }

  /** enet_list_move: places i to j of ring a go in front of place k of ring b, which is another
      list or what is left of the same one. */
  method Move(position: Node, first: Node, last: Node, ghost a: seq<Node>, ghost i: nat, ghost j: nat,
      ghost b: seq<Node>, ghost k: nat)
    returns (result: Node)
    requires Ring(a) && 0 < i < j <= |a| && first == a[i] && last == a[j - 1]
    requires k < |b| && position == b[k]
    requires b == Cut(a, i, j) || (Ring(b) && forall n :: n in b ==> n !in a)
    modifies first, last, position, first.previous, last.next, position.previous
    ensures result == first && Ring(Inserted(b, k, a[i..j]))
    ensures b != Cut(a, i, j) ==> Ring(Cut(a, i, j))
  {
    PartOfRing(a, i, j);
    Neighbours(a, i);
    Neighbours(a, j - 1);
    assert first.previous in a && last.next in a;
    if b != Cut(a, i, j) {
      Neighbours(b, k);
      assert position.previous in b;
    }
    ghost var q := last.next;
    ghost var was := position.previous;
    ghost var rest := Cut(a, i, j);
    CutIsApart(a, i, j);
    assert first in a[i..j] && last in a[i..j];
    assert b != rest ==> forall n :: n in rest ==> n != position && n != was;
    hide Ring, Distinct, Chained, Cut, Inserted;
    Bridge(first, last, a, i, j);
    assert position != q ==> position.previous == was;
    assert b != rest ==> position.previous == was && Ring(b);
    label Bridged:
    Tie(position, first, last, b, k, a[i..j]);
    if b != rest {
      StaysRing@Bridged(rest);
    }
    result := first;
  }

  twostate lemma StaysRing(s: seq<Node>)
    requires old(Ring(s))
    requires forall i: nat :: i < |s| ==> s[i].next == old(s[i].next) && s[i].previous == old(s[i].previous)
    ensures Ring(s)
  {
  }

  /** enet_list_size */
  method Size(sentinel: Node, ghost ring: seq<Node>) returns (size: nat)
    requires Ring(ring) && sentinel == ring[0]
    ensures size == |ring| - 1
  {
    AllNeighbours(ring);
    OthersDiffer(ring, 0);
    hide Ring, Distinct;
    size := 0;
    assert Leads(ring, 0);
    var position := sentinel.next;
    while position != sentinel
      invariant size < |ring| && position == ring[After(|ring|, size)]
      decreases |ring| - size
    {
      assert Leads(ring, size + 1);
      position := position.next;
      size := size + 1;
    }
  }

  // ---- removing undoes inserting ----

  lemma CutUndoesInserted(s: seq<Node>, k: nat, x: seq<Node>)
    requires k < |s|
    ensures var at := if k == 0 then |s| else k; Cut(Inserted(s, k, x), at, at + |x|) == s
  {
  }

  /** A node put in and taken out again leaves every link of the list as it was. */
  method InsertAndRemove(position: Node, data: Node, ghost ring: seq<Node>, ghost k: nat)
    requires Ring(ring) && k < |ring| && ring[k] == position && data !in ring
    modifies position, position.previous, data
    ensures forall i: nat :: i < |ring| ==> ring[i].next == old(ring[i].next)
                                            && ring[i].previous == old(ring[i].previous)
  {
    AllNeighbours(ring);
    ghost var at := if k == 0 then |ring| else k;
    CutUndoesInserted(ring, k, [data]);
    var node := Insert(position, data, ring, k);
    ghost var longer := Inserted(ring, k, [data]);
    Neighbours(longer, at);
    assert node.next == position && node.previous == old(position.previous);
    node := Remove(node, longer, at);
    AllNeighbours(ring);
    forall i: nat | i < |ring|
      ensures ring[i].next == old(ring[i].next) && ring[i].previous == old(ring[i].previous)
    {
      assert Leads(ring, i) && Follows(ring, i) && old(Leads(ring, i)) && old(Follows(ring, i));
    }
  }
}
