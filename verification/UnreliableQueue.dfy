/** Dispatching unreliable commands (enet_peer_dispatch_incoming_unreliable_commands,
    src/enet/peer.c:703-784): runs of commands due now go out in order, and of the others some
    are freed (UnreliableFreed says which). */
module UnreliableQueue {
  import opened Words
  import opened Windows

  /** node stands for the address of the list node: it tells equal commands apart. */
  datatype UnreliableCommand = UnreliableCommand(node: nat, unsequenced: bool, number: u16, unreliableNumber: u16,
                                                 remaining: nat, data: seq<byte>)

  /** The loop over the list. The list iterators are positions in the list as it is at the time:
      dropped is where the part to be freed ends, start where the run to be moved begins. */
  datatype Walk = Walk(list: seq<UnreliableCommand>, moved: seq<UnreliableCommand>, dropped: nat, start: nat,
                       current: nat,
                       latest: u16, stopped: bool)

  predicate Positioned(w: Walk) {
    w.dropped <= w.start <= w.current <= |w.list|
  }

  /** The run before the current command is moved to the dispatched commands. */
  function MoveRun(w: Walk): (v: Walk)
    requires Positioned(w)
    ensures Positioned(v) && |v.list| - v.current == |w.list| - w.current
  {
    w.(list := w.list[..w.start] + w.list[w.current..], moved := w.moved + w.list[w.start..w.current],
       current := w.start)
  }

  function PassOver(w: Walk): Walk {
    w.(start := w.current + 1, current := w.current + 1)
  }

  /** One turn. A complete command of the current reliable number joins the run; an incomplete one
      ends it, and so does a stale one; a command ahead ends the loop. */
  function Turn(w: Walk, base: u16): (v: Walk)
    requires Positioned(w) && w.current < |w.list|
    ensures Positioned(v)
    ensures !v.stopped ==> |v.list| - v.current < |w.list| - w.current
  {
    var x := w.list[w.current];
    if x.unsequenced then w.(current := w.current + 1)
    else if x.number == base then
      if x.remaining == 0 then w.(latest := x.unreliableNumber, current := w.current + 1)
      else if w.start != w.current then
        var v := MoveRun(w);
        PassOver(v.(dropped := v.current))
      else if w.dropped != w.current then PassOver(w.(dropped := w.current - 1))
      else PassOver(w)
    else if Admits(base, x.number) then w.(stopped := true)
    else
      var v := if w.start != w.current then MoveRun(w) else w;
      PassOver(v).(dropped := v.current + 1)
  }

  function WalkOn(w: Walk, base: u16): (v: Walk)
    requires Positioned(w)
    ensures Positioned(v)
    decreases |w.list| - w.current
  {
    if w.current >= |w.list| then w
    else
      var v := Turn(w, base);
      if v.stopped then v else WalkOn(v, base)
  }

  function LastRun(w: Walk): (v: Walk)
    requires Positioned(w)
    ensures Positioned(v)
  {
    if w.start != w.current then var v := MoveRun(w); v.(dropped := v.current) else w
  }

  /** Freeing spares the one command the caller still works on. */
  function Spared(list: seq<UnreliableCommand>, working: int): seq<UnreliableCommand> {
    if list == [] then [] else (if list[0].node == working then [list[0]] else []) + Spared(list[1..], working)
  }

  datatype Outcome = Outcome(left: seq<UnreliableCommand>, moved: seq<UnreliableCommand>,
      freed: seq<UnreliableCommand>, latest: u16)

  function Freed(list: seq<UnreliableCommand>, working: int): seq<UnreliableCommand> {
    if list == [] then [] else (if list[0].node == working then [] else [list[0]]) + Freed(list[1..], working)
  }

  function DispatchUnreliable(list: seq<UnreliableCommand>, base: u16, latest: u16, working: int): Outcome {
    var w := LastRun(WalkOn(Walk(list, [], 0, 0, 0, latest, false), base));
    Outcome(Spared(w.list[..w.dropped], working) + w.list[w.dropped..], w.moved, Freed(w.list[..w.dropped], working),
            w.latest)
  }

  // ---- order ----

  const HORIZON := 9 * RELIABLE_WINDOW_SIZE

  /** How far a command lies ahead of nine windows behind the receiver: stale ones come first, then
      those due now, at the horizon, then those ahead. */
  function Rank(base: u16, number: u16): nat {
    Distance((base + NUMBERS - HORIZON) % NUMBERS, number)
  }

  lemma RankMeans(base: u16, number: u16)
    ensures Rank(base, number) == HORIZON <==> number == base
    ensures Rank(base, number) < HORIZON ==> !Admits(base, number)
  {
    var far: u16 := (base + NUMBERS - HORIZON) % NUMBERS;
    assert base == (far + HORIZON) % NUMBERS;
    var d := Rank(base, number);
    assert number == (far + d) % NUMBERS;
    if d < HORIZON {
      assert Distance(base, number) == d + NUMBERS - HORIZON;
      DistanceAdmits(base, number);
    }
  }

  lemma DistanceAdmits(base: u16, number: u16)
    requires Distance(base, number) >= 0x7000
    ensures !Admits(base, number)
  {
    var d := Distance(base, number);
    assert d == if number < base then number + NUMBERS - base else number - base;
  }

  predicate Before(a: UnreliableCommand, b: UnreliableCommand, base: u16) {
    || Rank(base, a.number) < Rank(base, b.number)
    || (a.number == b.number && a.unreliableNumber < b.unreliableNumber)
  }

  /** The sequenced commands are sorted, by reliable number and then by unreliable number. */
  predicate Ordered(list: seq<UnreliableCommand>, base: u16) {
    forall i, j :: 0 <= i < j < |list| && !list[i].unsequenced && !list[j].unsequenced ==>
      Before(list[i], list[j], base)
  }

  /** To be dispatched now. */
  predicate Due(x: UnreliableCommand, base: u16) {
    x.unsequenced || (x.number == base && x.remaining == 0)
  }

  predicate AllDue(s: seq<UnreliableCommand>, base: u16) {
    forall i :: 0 <= i < |s| ==> Due(s[i], base)
  }

  predicate Incomplete(x: UnreliableCommand, base: u16) {
    !x.unsequenced && x.number == base && x.remaining > 0
  }

  /** Commands of the current number are newer than lo. */
  predicate Newer(s: seq<UnreliableCommand>, base: u16, lo: int) {
    forall i :: 0 <= i < |s| && !s[i].unsequenced && s[i].number == base ==> s[i].unreliableNumber > lo
  }

  /** The unreliable number of the last sequenced command. */
  function LatestOf(s: seq<UnreliableCommand>, lo: int): int {
    if s == [] then lo
    else if s[|s| - 1].unsequenced then LatestOf(s[..|s| - 1], lo)
    else s[|s| - 1].unreliableNumber
  }

  /** What remains in play: the commands moved, then the part of the list not given up. */
  function InPlay(w: Walk): seq<UnreliableCommand>
    requires Positioned(w)
  {
    w.moved + w.list[w.dropped..]
  }

  /** Unsequenced commands are queued at the front and never wait. */
  predicate OnlyFirstUnsequenced(list: seq<UnreliableCommand>) {
    forall i :: 0 < i < |list| ==> !list[i].unsequenced
  }

  ghost predicate WalkOk(w: Walk, all: seq<UnreliableCommand>, base: u16, lo: int) {
    && Positioned(w) && Ordered(InPlay(w), base) && Newer(InPlay(w), base, lo) && Ordered(w.list, base)
    && multiset(all) == multiset(w.moved) + multiset(w.list)
    && AllDue(w.moved, base) && AllDue(w.list[w.start..w.current], base)
    && (forall i :: w.dropped <= i < w.start ==> Incomplete(w.list[i], base))
    && (forall i :: 0 <= i < w.start ==> !Due(w.list[i], base))
    && (forall i :: w.current < i < |w.list| ==> !w.list[i].unsequenced)
    && w.latest == LatestOf(w.moved + w.list[w.start..w.current], lo)
  }

  lemma OrderedWithout(a: seq<UnreliableCommand>, b: seq<UnreliableCommand>, c: seq<UnreliableCommand>, base: u16,
                       lo: int)
    requires Ordered(a + b + c, base)
    ensures Ordered(a + c, base)
    ensures Newer(a + b + c, base, lo) ==> Newer(a + c, base, lo)
  {
    hide Before;
    var s := a + b + c;
    forall i | 0 <= i < |a + c| ensures (a + c)[i] == s[if i < |a| then i else i + |b|] {
    }
    forall i, j | 0 <= i < j < |a + c| && !(a + c)[i].unsequenced && !(a + c)[j].unsequenced
      ensures Before((a + c)[i], (a + c)[j], base)
    {
      var k := if i < |a| then i else i + |b|;
      var l := if j < |a| then j else j + |b|;
      assert Before(s[k], s[l], base);
    }
  }

  /** Giving up a longer part of the list leaves less in play. */
  lemma GiveUpKeepsOrder(w: Walk, v: Walk, base: u16, lo: int)
    requires Positioned(w) && Positioned(v) && v.moved == w.moved && v.list == w.list && w.dropped <= v.dropped
    requires Ordered(InPlay(w), base) && Newer(InPlay(w), base, lo)
    ensures Ordered(InPlay(v), base) && Newer(InPlay(v), base, lo)
  {
    hide Ordered, Newer;
    assert InPlay(w) == w.moved + w.list[w.dropped..v.dropped] + w.list[v.dropped..];
    OrderedWithout(w.moved, w.list[w.dropped..v.dropped], w.list[v.dropped..], base, lo);
  }

  lemma MoveKeepsOrder(w: Walk, base: u16, lo: int)
    requires Positioned(w) && Ordered(InPlay(w), base) && Newer(InPlay(w), base, lo) && Ordered(w.list, base)
    ensures var v := MoveRun(w).(dropped := w.start);
            && Ordered(InPlay(v), base) && Newer(InPlay(v), base, lo) && Ordered(v.list, base)
            && multiset(w.moved) + multiset(w.list) == multiset(v.moved) + multiset(v.list)
  {
    hide Ordered, Newer;
    var run := w.list[w.start..w.current];
    var v := MoveRun(w).(dropped := w.start);
    var gone := w.list[w.dropped..w.start];
    assert InPlay(w) == w.moved + gone + (run + w.list[w.current..]);
    OrderedWithout(w.moved, gone, run + w.list[w.current..], base, lo);
    assert InPlay(v) == w.moved + (run + w.list[w.current..]);
    assert w.list == w.list[..w.start] + run + w.list[w.current..];
    OrderedWithout(w.list[..w.start], run, w.list[w.current..], base, lo);
  }

  lemma DueJoined(a: seq<UnreliableCommand>, b: seq<UnreliableCommand>, base: u16)
    requires AllDue(a, base) && AllDue(b, base)
    ensures AllDue(a + b, base)
  {
    hide Due;
  }

  lemma MovePositions(w: Walk, base: u16)
    requires Positioned(w)
    requires forall i :: 0 <= i < w.start ==> !Due(w.list[i], base)
    requires forall i :: w.current < i < |w.list| ==> !w.list[i].unsequenced
    ensures var v := MoveRun(w).(dropped := w.start);
            && v.start == v.current == v.dropped && v.list[v.start..v.current] == []
            && (forall i :: 0 <= i < v.start ==> !Due(v.list[i], base))
            && (forall i :: v.current < i < |v.list| ==> !v.list[i].unsequenced)
  {
    hide Due;
    var v := MoveRun(w);
    assert forall i :: v.current < i < |v.list| ==> v.list[i] == w.list[i + w.current - w.start];
  }

  /** Moving the run, and giving up what lies before it. */
  lemma MoveKeepsOk(w: Walk, all: seq<UnreliableCommand>, base: u16, lo: int)
    requires WalkOk(w, all, base, lo)
    ensures var v := MoveRun(w); WalkOk(v.(dropped := v.current), all, base, lo)
  {
    hide Ordered, Newer, LatestOf, Due, Incomplete, AllDue, InPlay;
    MoveKeepsOrder(w, base, lo);
    MovePositions(w, base);
    var run := w.list[w.start..w.current];
    var v := MoveRun(w).(dropped := w.start);
    DueJoined(w.moved, run, base);
    NoneDue(base, v.list[v.start..v.current]);
    hide MoveRun;
    assert v.moved + v.list[v.start..v.current] == w.moved + run;
  }

  lemma NoneDue(base: u16, s: seq<UnreliableCommand>)
    ensures s == [] ==> AllDue(s, base)
  {
  }

  lemma LatestAppends(s: seq<UnreliableCommand>, x: UnreliableCommand, lo: int)
    ensures LatestOf(s + [x], lo) == if x.unsequenced then LatestOf(s, lo) else x.unreliableNumber
  {
    assert (s + [x])[..|s|] == s;
  }

  lemma JoinRun(w: Walk, all: seq<UnreliableCommand>, base: u16, lo: int)
    requires WalkOk(w, all, base, lo) && w.current < |w.list| && Due(w.list[w.current], base)
    ensures var x := w.list[w.current];
            WalkOk(w.(latest := if x.unsequenced then w.latest else x.unreliableNumber, current := w.current + 1), all,
                   base, lo)
  {
    hide Ordered, Newer, Incomplete, LatestOf, Due;
    var x := w.list[w.current];
    assert w.list[w.start..w.current + 1] == w.list[w.start..w.current] + [x];
    assert w.moved + w.list[w.start..w.current + 1] == (w.moved + w.list[w.start..w.current]) + [x];
    LatestAppends(w.moved + w.list[w.start..w.current], x, lo);
  }

  /** Going past a command that does not join the run, with no run before it. */
  lemma PassKeepsOk(w: Walk, all: seq<UnreliableCommand>, base: u16, lo: int, dropped: nat)
    requires WalkOk(w, all, base, lo) && w.start == w.current < |w.list|
    requires w.dropped <= dropped <= w.current || dropped == w.current + 1
    requires dropped <= w.current ==> Incomplete(w.list[w.current], base)
    requires !Due(w.list[w.current], base)
    ensures WalkOk(PassOver(w).(dropped := dropped), all, base, lo)
  {
    hide Ordered, Newer, Incomplete, LatestOf, Due;
    var v := PassOver(w).(dropped := dropped);
    GiveUpKeepsOrder(w, v, base, lo);
    assert v.list[v.start..v.current] == [] && w.list[w.start..w.current] == [];
  }

  lemma MoveOrStay(w: Walk, all: seq<UnreliableCommand>, base: u16, lo: int)
    requires WalkOk(w, all, base, lo) && w.current < |w.list|
    ensures var v := if w.start != w.current then MoveRun(w) else w;
            && WalkOk(if w.start != w.current then v.(dropped := v.current) else v, all, base, lo)
            && v.start == v.current < |v.list| && v.list[v.current] == w.list[w.current]
  {
    hide Ordered, Newer, Incomplete, LatestOf, Due;
    if w.start != w.current {
      MoveKeepsOk(w, all, base, lo);
    }
  }

  lemma TurnKeepsOk(w: Walk, all: seq<UnreliableCommand>, base: u16, lo: int)
    requires WalkOk(w, all, base, lo) && w.current < |w.list|
    ensures WalkOk(Turn(w, base), all, base, lo)
  {
    hide WalkOk, Admits;
    ListPositioned(w, all, base, lo);
    var x := w.list[w.current];
    if Due(x, base) {
      JoinRun(w, all, base, lo);
    } else if x.number != base && Admits(base, x.number) {
      StopKeepsOk(w, all, base, lo);
    } else {
      MoveOrStay(w, all, base, lo);
      var v := if w.start != w.current then MoveRun(w) else w;
      var u := if w.start != w.current then v.(dropped := v.current) else v;
      if x.number != base {
        PassKeepsOk(u, all, base, lo, u.current + 1);
      } else if w.start != w.current || w.dropped == w.current {
        PassKeepsOk(u, all, base, lo, u.current);
      } else {
        PassKeepsOk(u, all, base, lo, u.current - 1);
      }
    }
  }

  lemma StopKeepsOk(w: Walk, all: seq<UnreliableCommand>, base: u16, lo: int)
    requires WalkOk(w, all, base, lo)
    ensures WalkOk(w.(stopped := true), all, base, lo)
  {
    hide Ordered, Newer, Incomplete, LatestOf, Due;
    var v := w.(stopped := true);
    assert InPlay(v) == InPlay(w);
  }

  lemma {:induction false} WalkKeepsOk(w: Walk, all: seq<UnreliableCommand>, base: u16, lo: int)
    requires WalkOk(w, all, base, lo) && !w.stopped
    ensures var v := WalkOn(w, base);
            && WalkOk(v, all, base, lo)
            && (v.stopped || v.current == |v.list|)
            && (v.stopped ==> v.current < |v.list| && !v.list[v.current].unsequenced
                              && v.list[v.current].number != base && Admits(base, v.list[v.current].number))
    decreases |w.list| - w.current
  {
    hide WalkOk, Admits;
    ListPositioned(w, all, base, lo);
    if w.current < |w.list| {
      TurnKeepsOk(w, all, base, lo);
      var v := Turn(w, base);
      if !v.stopped {
        WalkKeepsOk(v, all, base, lo);
      }
    }
  }

  lemma ListPositioned(w: Walk, all: seq<UnreliableCommand>, base: u16, lo: int)
    requires WalkOk(w, all, base, lo)
    ensures Positioned(w)
  {
  }

  // ---- the whole dispatch ----

  /** A command that may stay: incomplete, of the current number and not overtaken; or ahead. */
  predicate Pending(x: UnreliableCommand, base: u16, latest: int) {
    !x.unsequenced && (Rank(base, x.number) > HORIZON || (Incomplete(x, base) && x.unreliableNumber > latest))
  }

  predicate Increasing(s: seq<UnreliableCommand>, lo: int) {
    && (forall i :: 0 <= i < |s| && !s[i].unsequenced ==> s[i].unreliableNumber > lo)
    && (forall i, j :: 0 <= i < j < |s| && !s[i].unsequenced && !s[j].unsequenced ==>
          s[i].unreliableNumber < s[j].unreliableNumber)
  }

  lemma MovedIncrease(s: seq<UnreliableCommand>, base: u16, lo: int)
    requires Ordered(s, base) && Newer(s, base, lo) && AllDue(s, base)
    ensures Increasing(s, lo)
  {
  }

  lemma {:induction false} LatestIsMet(s: seq<UnreliableCommand>, lo: int)
    ensures LatestOf(s, lo) == lo || exists i :: 0 <= i < |s| && !s[i].unsequenced
                                                 && s[i].unreliableNumber == LatestOf(s, lo)
  {
    if s != [] && s[|s| - 1].unsequenced {
      LatestIsMet(s[..|s| - 1], lo);
    }
  }

  /** What stays beyond the part given up is newer than all that was dispatched. */
  lemma LeftIsPending(w: Walk, all: seq<UnreliableCommand>, base: u16, lo: int, i: nat)
    requires WalkOk(w, all, base, lo) && w.start == w.current && w.dropped <= i < |w.list|
    requires w.current < |w.list| ==> !w.list[w.current].unsequenced && w.list[w.current].number != base
                                      && Admits(base, w.list[w.current].number)
    ensures Pending(w.list[i], base, w.latest)
  {
    hide Admits, LatestOf, Rank;
    var s := InPlay(w);
    var k := |w.moved| + i - w.dropped;
    assert s[k] == w.list[i];
    if i < w.current {
      assert w.moved + w.list[w.start..w.current] == w.moved;
      LatestIsMet(w.moved, lo);
      if w.latest != lo {
        var j :| 0 <= j < |w.moved| && !w.moved[j].unsequenced && w.moved[j].unreliableNumber == w.latest;
        assert s[j] == w.moved[j] && Before(s[j], s[k], base);
      }
    } else {
      RankMeans(base, w.list[w.current].number);
      if i > w.current {
        assert Before(w.list[w.current], w.list[i], base);
      }
    }
  }

  lemma {:induction false} SparedOrFreed(list: seq<UnreliableCommand>, working: int)
    ensures multiset(list) == multiset(Spared(list, working)) + multiset(Freed(list, working))
    ensures forall i :: 0 <= i < |Spared(list, working)| ==> Spared(list, working)[i].node == working
  {
    if list != [] {
      assert list == [list[0]] + list[1..];
      SparedOrFreed(list[1..], working);
    }
  }

  lemma WalkStarts(list: seq<UnreliableCommand>, base: u16, latest: u16)
    requires Ordered(list, base) && Newer(list, base, latest) && OnlyFirstUnsequenced(list)
    ensures WalkOk(Walk(list, [], 0, 0, 0, latest, false), list, base, latest)
  {
    hide Ordered, Newer;
    var w := Walk(list, [], 0, 0, 0, latest, false);
    assert InPlay(w) == list;
    assert w.moved + w.list[w.start..w.current] == [];
  }

  lemma LastRunOk(w: Walk, all: seq<UnreliableCommand>, base: u16, lo: int)
    requires WalkOk(w, all, base, lo)
    ensures var v := LastRun(w);
            && WalkOk(v, all, base, lo) && v.start == v.current
            && v.list[v.current..] == w.list[w.current..]
  {
    hide WalkOk;
    ListPositioned(w, all, base, lo);
    if w.start != w.current {
      MoveKeepsOk(w, all, base, lo);
    }
  }

  lemma PendingIsNotDue(x: UnreliableCommand, base: u16, latest: int)
    requires Pending(x, base, latest)
    ensures !Due(x, base)
  {
    RankMeans(base, x.number);
  }

  lemma NotDue(w: Walk, all: seq<UnreliableCommand>, base: u16, lo: int)
    requires WalkOk(w, all, base, lo)
    ensures Ordered(w.list, base) && forall i :: 0 <= i < w.dropped ==> !Due(w.list[i], base)
  {
    hide Ordered, Newer, LatestOf;
  }

  lemma {:induction false} SparedComes(list: seq<UnreliableCommand>, working: int, i: nat)
    requires i < |Spared(list, working)|
    ensures Spared(list, working)[i].node == working && Spared(list, working)[i] in list
  {
    if list[0].node != working {
      SparedComes(list[1..], working, i);
    } else if i > 0 {
      SparedComes(list[1..], working, i - 1);
    }
  }

  lemma {:induction false} SparedIsOrdered(list: seq<UnreliableCommand>, n: nat, working: int, base: u16)
    requires n <= |list| && Ordered(list, base)
    ensures Ordered(Spared(list[..n], working) + list[n..], base)
    decreases n
  {
    hide Ordered;
    if n == 0 {
      assert Spared(list[..0], working) + list[0..] == list;
    } else {
      var x := list[n - 1];
      SparedAppends(list[..n - 1], x, working);
      assert list[..n] == list[..n - 1] + [x];
      var a := Spared(list[..n - 1], working);
      SparedIsOrdered(list, n - 1, working, base);
      assert a + list[n - 1..] == a + [x] + list[n..];
      OrderedWithout(a, [x], list[n..], base, 0);
      if x.node == working {
        assert Spared(list[..n], working) + list[n..] == a + [x] + list[n..];
      } else {
        assert Spared(list[..n], working) == a;
      }
    }
  }

  lemma {:induction false} SparedAppends(list: seq<UnreliableCommand>, x: UnreliableCommand, working: int)
    ensures Spared(list + [x], working) == Spared(list, working) + if x.node == working then [x] else []
  {
    if list != [] {
      assert (list + [x])[1..] == list[1..] + [x];
      SparedAppends(list[1..], x, working);
    }
  }

  lemma LeftFacts(w: Walk, all: seq<UnreliableCommand>, base: u16, lo: int, working: int)
    requires WalkOk(w, all, base, lo) && w.start == w.current
    requires w.current < |w.list| ==> !w.list[w.current].unsequenced && w.list[w.current].number != base
                                      && Admits(base, w.list[w.current].number)
    ensures var left := Spared(w.list[..w.dropped], working) + w.list[w.dropped..];
            && multiset(w.list) == multiset(left) + multiset(Freed(w.list[..w.dropped], working))
            && Ordered(left, base)
            && forall i :: 0 <= i < |left| ==>
                 if left[i].node == working then !Due(left[i], base) else Pending(left[i], base, w.latest)
  {
    hide WalkOk, Pending, Admits, Spared, Freed;
    ListPositioned(w, all, base, lo);
    SparedOrFreed(w.list[..w.dropped], working);
    assert w.list == w.list[..w.dropped] + w.list[w.dropped..];
    var spared := Spared(w.list[..w.dropped], working);
    var left := spared + w.list[w.dropped..];
    NotDue(w, all, base, lo);
    SparedIsOrdered(w.list, w.dropped, working, base);
    forall i | 0 <= i < |left|
      ensures if left[i].node == working then !Due(left[i], base) else Pending(left[i], base, w.latest)
    {
      if i >= |spared| {
        assert left[i] == w.list[w.dropped + i - |spared|];
        LeftIsPending(w, all, base, lo, w.dropped + i - |spared|);
        PendingIsNotDue(left[i], base, w.latest);
      } else {
        SparedComes(w.list[..w.dropped], working, i);
      }
    }
  }

  lemma {:induction false} FreedFrom(list: seq<UnreliableCommand>, working: int)
    ensures forall x :: x in Freed(list, working) ==> x in list && x.node != working
  {
    if list != [] {
      FreedFrom(list[1..], working);
    }
  }

  /** Dispatching frees, keeps or moves each command exactly once. What it moves is due, and its
      unreliable numbers strictly increase beyond the latest dispatched before; what it keeps,
      apart from the command being worked on, still has a chance; what it frees is not due. */
  lemma DispatchIsOrdered(list: seq<UnreliableCommand>, base: u16, latest: u16, working: int)
    requires Ordered(list, base) && Newer(list, base, latest) && OnlyFirstUnsequenced(list)
    ensures var o := DispatchUnreliable(list, base, latest, working);
            && multiset(list) == multiset(o.left) + multiset(o.moved) + multiset(o.freed)
            && AllDue(o.moved, base) && Increasing(o.moved, latest) && o.latest == LatestOf(o.moved, latest)
            && Ordered(o.left, base) && (forall x :: x in o.freed ==> !Due(x, base))
            && forall i :: 0 <= i < |o.left| ==>
                 if o.left[i].node == working then !Due(o.left[i], base) else Pending(o.left[i], base, o.latest)
  {
    hide WalkOk, Pending, Admits, Increasing, AllDue, Due, Ordered, Newer, Spared, Freed, OnlyFirstUnsequenced;
    var start := Walk(list, [], 0, 0, 0, latest, false);
    WalkStarts(list, base, latest);
    WalkKeepsOk(start, list, base, latest);
    var w := WalkOn(start, base);
    LastRunOk(w, list, base, latest);
    var v := LastRun(w);
    if v.current < |v.list| {
      assert v.list[v.current..][0] == w.list[w.current..][0];
    }
    MovedFacts(v, list, base, latest);
    LeftFacts(v, list, base, latest, working);
    NotDue(v, list, base, latest);
    FreedFrom(v.list[..v.dropped], working);
  }

  lemma MovedFacts(w: Walk, all: seq<UnreliableCommand>, base: u16, lo: int)
    requires WalkOk(w, all, base, lo) && w.start == w.current
    ensures multiset(all) == multiset(w.moved) + multiset(w.list)
    ensures AllDue(w.moved, base) && Increasing(w.moved, lo) && w.latest == LatestOf(w.moved, lo)
  {
    hide Increasing, AllDue, LatestOf;
    assert w.moved + w.list[w.start..w.current] == w.moved;
    var tail := w.list[w.dropped..];
    assert w.moved + tail + [] == InPlay(w) && w.moved + [] == w.moved;
    OrderedWithout(w.moved, tail, [], base, lo);
    MovedIncrease(w.moved, base, lo);
  }

  // ---- between reliable dispatches ----

  /** What waits in the queue between calls. */
  predicate Waits(list: seq<UnreliableCommand>, base: u16, latest: u16) {
    Ordered(list, base) && forall i :: 0 <= i < |list| ==> Pending(list[i], base, latest)
                                                           && list[i].unreliableNumber >= 1
  }

  /** Where the backward search for a sequenced command ends. */
  function UnreliablePlace(list: seq<UnreliableCommand>, base: u16, number: u16, unreliableNumber: u16): (p: nat)
    ensures p <= |list|
  {
    if list == [] then 0
    else
      var last := list[|list| - 1];
      if Distance(base, last.number) > Distance(base, number)
         || (last.number == number && last.unreliableNumber > unreliableNumber)
      then UnreliablePlace(list[..|list| - 1], base, number, unreliableNumber)
      else |list|
  }

  predicate UnreliableWanted(list: seq<UnreliableCommand>, base: u16, latest: u16, number: u16, unreliableNumber: u16) {
    && Admits(base, number) && !(number == base && unreliableNumber <= latest)
    && var p := UnreliablePlace(list, base, number, unreliableNumber);
       !(p > 0 && list[p - 1].number == number && list[p - 1].unreliableNumber == unreliableNumber)
  }

  lemma RankOfAhead(base: u16, number: u16)
    requires Rank(base, number) >= HORIZON
    ensures Rank(base, number) == HORIZON + Distance(base, number)
  {
    var far: u16 := (base + NUMBERS - HORIZON) % NUMBERS;
    var d := Rank(base, number);
    assert number == (far + d) % NUMBERS && base == (far + HORIZON) % NUMBERS;
  }

  lemma AdmittedIsAhead(base: u16, number: u16)
    requires Admits(base, number)
    ensures Rank(base, number) == HORIZON + Distance(base, number)
  {
    RankMeans(base, number);
    RankOfAhead(base, number);
  }

  lemma {:induction false} UnreliablePlaceSplits(list: seq<UnreliableCommand>, base: u16, x: UnreliableCommand)
    requires Ordered(list, base)
    requires (forall i :: 0 <= i < |list| ==> !list[i].unsequenced && Rank(base, list[i].number) >= HORIZON)
    requires Admits(base, x.number) && !x.unsequenced
    ensures var p := UnreliablePlace(list, base, x.number, x.unreliableNumber);
            && (forall i :: p <= i < |list| ==> Before(x, list[i], base))
            && (p == 0 || (list[p - 1].number == x.number && list[p - 1].unreliableNumber == x.unreliableNumber)
                || forall i :: 0 <= i < p ==> Before(list[i], x, base))
  {
    hide Rank, Distance, Admits;
    AdmittedIsAhead(base, x.number);
    if list != [] {
      var n := |list| - 1;
      var last := list[n];
      RankOfAhead(base, last.number);
      var p := UnreliablePlace(list, base, x.number, x.unreliableNumber);
      if p <= n {
        UnreliablePlaceSplits(list[..n], base, x);
      } else if !(last.number == x.number && last.unreliableNumber == x.unreliableNumber) {
        SameDistance(base, last.number, x.number);
        forall i | 0 <= i < p ensures Before(list[i], x, base) {
          if i < n {
            assert Before(list[i], last, base);
          }
        }
      }
    }
  }

  lemma SameDistance(base: u16, a: u16, b: u16)
    ensures Distance(base, a) == Distance(base, b) ==> a == b
  {
  }

  lemma InsertedInOrder(list: seq<UnreliableCommand>, p: nat, x: UnreliableCommand, base: u16)
    requires p <= |list| && Ordered(list, base)
    requires forall i :: p <= i < |list| ==> Before(x, list[i], base)
    requires forall i :: 0 <= i < p ==> Before(list[i], x, base)
    ensures Ordered(list[..p] + [x] + list[p..], base)
  {
    hide Before;
    var q := list[..p] + [x] + list[p..];
    forall i | 0 <= i < |q| ensures q[i] == if i < p then list[i] else if i == p then x else list[i - 1] {
    }
  }

  datatype Queued = Queued(list: seq<UnreliableCommand>, moved: seq<UnreliableCommand>, latest: u16)

  function AndDispatch(list: seq<UnreliableCommand>, base: u16, latest: u16, working: int): Queued {
    var o := DispatchUnreliable(list, base, latest, working);
    Queued(o.left, o.moved, o.latest)
  }

  /** An unreliable command arrives: discarded, or put in its place and dispatched from there. */
  function QueueUnreliable(list: seq<UnreliableCommand>, base: u16, latest: u16, x: UnreliableCommand): Queued {
    if x.unsequenced then AndDispatch([x] + list, base, latest, x.node)
    else if !UnreliableWanted(list, base, latest, x.number, x.unreliableNumber) then Queued(list, [], latest)
    else
      var p := UnreliablePlace(list, base, x.number, x.unreliableNumber);
      AndDispatch(list[..p] + [x] + list[p..], base, latest, x.node)
  }

  predicate NewNode(list: seq<UnreliableCommand>, node: nat) {
    forall i :: 0 <= i < |list| ==> list[i].node != node
  }

  lemma WaitingIsNewer(list: seq<UnreliableCommand>, base: u16, latest: u16)
    requires Waits(list, base, latest)
    ensures Newer(list, base, latest) && OnlyFirstUnsequenced(list)
    ensures forall i :: 0 <= i < |list| ==> !list[i].unsequenced && Rank(base, list[i].number) >= HORIZON
  {
    forall i | 0 <= i < |list|
      ensures Rank(base, list[i].number) >= HORIZON && (list[i].number == base ==> list[i].unreliableNumber > latest)
    {
      assert Pending(list[i], base, latest);
      RankMeans(base, list[i].number);
    }
  }

  lemma InList(list: seq<UnreliableCommand>, o: Outcome, i: nat)
    requires multiset(list) == multiset(o.left) + multiset(o.moved) + multiset(o.freed) && i < |o.left|
    ensures o.left[i] in list
  {
    assert o.left[i] in multiset(o.left);
    assert o.left[i] in multiset(list);
  }

  lemma MovedFromList(list: seq<UnreliableCommand>, o: Outcome, i: nat)
    requires multiset(list) == multiset(o.left) + multiset(o.moved) + multiset(o.freed) && i < |o.moved|
    ensures o.moved[i] in list
  {
    assert o.moved[i] in multiset(o.moved);
    assert o.moved[i] in multiset(list);
  }

  /** If only the command worked on is not known to wait, what is left waits. */
  lemma LeftWaits(list: seq<UnreliableCommand>, base: u16, latest: u16, x: UnreliableCommand)
    requires Ordered(list, base) && Newer(list, base, latest) && OnlyFirstUnsequenced(list)
    requires forall y :: y in list ==> y == x
                                       || (y.node != x.node && Pending(y, base, latest) && y.unreliableNumber >= 1)
    requires x.unsequenced || (x.unreliableNumber >= 1 && (Due(x, base) || Pending(x, base, latest)))
    ensures var o := DispatchUnreliable(list, base, latest, x.node);
            Waits(o.left, base, o.latest) && AllDue(o.moved, base) && Increasing(o.moved, latest)
            && o.latest == LatestOf(o.moved, latest)
  {
    hide Pending, Due, Ordered, Newer, Increasing, DispatchUnreliable;
    DispatchIsOrdered(list, base, latest, x.node);
    var o := DispatchUnreliable(list, base, latest, x.node);
    forall i | 0 <= i < |o.left| ensures Pending(o.left[i], base, o.latest) && o.left[i].unreliableNumber >= 1 {
      InList(list, o, i);
      if o.left[i] == x {
        OnlyUnseq(x, base);
        if o.moved != [] {
          MovedFromList(list, o, 0);
          NeitherIsDue(o.moved[0], x, base, latest);
        }
      } else {
        OnlyUnseq(o.left[i], base);
      }
    }
  }

  lemma OnlyUnseq(x: UnreliableCommand, base: u16)
    ensures x.unsequenced ==> Due(x, base)
    ensures forall latest :: Pending(x, base, latest) ==> !Due(x, base)
  {
    RankMeans(base, x.number);
  }

  lemma NeitherIsDue(y: UnreliableCommand, x: UnreliableCommand, base: u16, latest: u16)
    requires !Due(x, base) && (y == x || Pending(y, base, latest))
    ensures !Due(y, base)
  {
    RankMeans(base, y.number);
  }

  lemma WantedIsPending(list: seq<UnreliableCommand>, base: u16, latest: u16, x: UnreliableCommand)
    requires !x.unsequenced && UnreliableWanted(list, base, latest, x.number, x.unreliableNumber)
    ensures Due(x, base) || Pending(x, base, latest)
    ensures x.number == base ==> x.unreliableNumber > latest
  {
    RankMeans(base, x.number);
  }

  /** A command that arrives is dispatched only in its turn: among the sequenced ones, unreliable
      numbers keep increasing from one arrival to the next, and the queue stays sorted. */
  lemma ArrivalKeepsOrder(list: seq<UnreliableCommand>, base: u16, latest: u16, x: UnreliableCommand)
    requires Waits(list, base, latest) && NewNode(list, x.node) && (x.unsequenced || x.unreliableNumber >= 1)
    ensures var q := QueueUnreliable(list, base, latest, x);
            Waits(q.list, base, q.latest) && AllDue(q.moved, base) && Increasing(q.moved, latest)
            && q.latest == LatestOf(q.moved, latest)
  {
    hide Pending, Ordered, Newer, Increasing, DispatchUnreliable, Before, UnreliablePlace;
    WaitingIsNewer(list, base, latest);
    if x.unsequenced {
      UnsequencedFirst(list, base, latest, x);
      LeftWaits([x] + list, base, latest, x);
    } else if UnreliableWanted(list, base, latest, x.number, x.unreliableNumber) {
      UnreliablePlaceSplits(list, base, x);
      var p := UnreliablePlace(list, base, x.number, x.unreliableNumber);
      InsertedInOrder(list, p, x, base);
      WantedIsPending(list, base, latest, x);
      NewerInserted(list, p, x, base, latest);
      LeftWaits(list[..p] + [x] + list[p..], base, latest, x);
    } else {
      NoneIncrease(latest);
    }
  }

  lemma NoneIncrease(lo: int)
    ensures Increasing([], lo) && LatestOf([], lo) == lo
  {
  }

  lemma NewerInserted(list: seq<UnreliableCommand>, p: nat, x: UnreliableCommand, base: u16, lo: int)
    requires p <= |list| && Newer(list, base, lo) && (x.number == base ==> x.unreliableNumber > lo)
    requires !x.unsequenced && forall i :: 0 <= i < |list| ==> !list[i].unsequenced
    ensures Newer(list[..p] + [x] + list[p..], base, lo) && OnlyFirstUnsequenced(list[..p] + [x] + list[p..])
  {
  }

  lemma UnsequencedFirst(list: seq<UnreliableCommand>, base: u16, latest: u16, x: UnreliableCommand)
    requires x.unsequenced && Ordered(list, base) && Newer(list, base, latest) && forall i :: 0 <= i < |list| ==>
               !list[i].unsequenced
    ensures Ordered([x] + list, base) && Newer([x] + list, base, latest) && OnlyFirstUnsequenced([x] + list)
  {
    hide Before;
  }

  lemma RankMoves(base: u16, number: u16, t: nat)
    requires t <= HORIZON <= Rank(base, number)
    ensures Rank((base + t) % NUMBERS, number) == Rank(base, number) - t
  {
    var far: u16 := (base + NUMBERS - HORIZON) % NUMBERS;
    WrapsAdd(base, t, NUMBERS - HORIZON);
    WrapsAdd(base, NUMBERS - HORIZON, t);
    DistanceMoves(far, number, t);
  }

  /** A reliable dispatch that advances by at most nine windows leaves the queue sorted: what has
      become stale comes first, and is freed. */
  lemma AdvanceKeepsOrder(list: seq<UnreliableCommand>, base: u16, latest: u16, t: nat)
    requires Waits(list, base, latest) && t <= HORIZON
    ensures var base' := (base + t) % NUMBERS; var o := DispatchUnreliable(list, base', 0, -1);
            Waits(o.left, base', o.latest) && AllDue(o.moved, base') && Increasing(o.moved, 0)
            && o.latest == LatestOf(o.moved, 0)
  {
    hide Pending, Newer, Increasing, DispatchUnreliable, Rank;
    var base' := (base + t) % NUMBERS;
    WaitingIsNewer(list, base, latest);
    forall i, j | 0 <= i < j < |list| ensures Before(list[i], list[j], base') {
      assert Before(list[i], list[j], base);
      RankMoves(base, list[i].number, t);
      RankMoves(base, list[j].number, t);
    }
    AboveZero(list, base');
    DispatchIsOrdered(list, base', 0, -1);
    var o := DispatchUnreliable(list, base', 0, -1);
    forall i | 0 <= i < |o.left| ensures Pending(o.left[i], base', o.latest) && o.left[i].unreliableNumber >= 1 {
      InList(list, o, i);
    }
  }

  lemma AboveZero(list: seq<UnreliableCommand>, base: u16)
    requires forall i :: 0 <= i < |list| ==> list[i].unreliableNumber >= 1
    ensures Newer(list, base, 0)
  {
  }

  // ---- between two reliable dispatches ----

  /** One more fragment of an incomplete command (src/enet/protocol.c:729-746); the last one starts a
      dispatch. */
  function FillUnreliable(list: seq<UnreliableCommand>, base: u16, latest: u16, i: nat): Queued
    requires i < |list| && list[i].remaining > 0
  {
    var filled := list[i := list[i].(remaining := list[i].remaining - 1)];
    if filled[i].remaining == 0 then AndDispatch(filled, base, latest, -1) else Queued(filled, [], latest)
  }

  lemma FillKeepsOrder(list: seq<UnreliableCommand>, base: u16, latest: u16, i: nat)
    requires Waits(list, base, latest) && i < |list| && list[i].remaining > 0
    ensures var q := FillUnreliable(list, base, latest, i);
            Waits(q.list, base, q.latest) && AllDue(q.moved, base) && Increasing(q.moved, latest)
            && q.latest == LatestOf(q.moved, latest)
  {
    hide Pending, Ordered, Newer, Increasing, DispatchUnreliable, Before, OnlyFirstUnsequenced;
    var filled := list[i := list[i].(remaining := list[i].remaining - 1)];
    NoneIncrease(latest);
    WaitingIsNewer(list, base, latest);
    FilledStays(list, base, latest, i);
    if filled[i].remaining == 0 {
      DispatchIsOrdered(filled, base, latest, -1);
      var o := DispatchUnreliable(filled, base, latest, -1);
      forall j | 0 <= j < |o.left| ensures Pending(o.left[j], base, o.latest) && o.left[j].unreliableNumber >= 1 {
        InList(filled, o, j);
      }
    } else {
      forall j | 0 <= j < |filled| ensures Pending(filled[j], base, latest) {
        assert Pending(list[j], base, latest);
        if j == i {
          StillIncomplete(list[i], filled[i], base, latest);
        }
      }
    }
  }

  lemma FilledStays(list: seq<UnreliableCommand>, base: u16, latest: u16, i: nat)
    requires Ordered(list, base) && Newer(list, base, latest) && OnlyFirstUnsequenced(list) && i < |list|
    requires list[i].remaining > 0
    ensures var filled := list[i := list[i].(remaining := list[i].remaining - 1)];
            Ordered(filled, base) && Newer(filled, base, latest) && OnlyFirstUnsequenced(filled)
  {
    hide Rank;
    var filled := list[i := list[i].(remaining := list[i].remaining - 1)];
    forall j | 0 <= j < |list|
      ensures filled[j].number == list[j].number && filled[j].unreliableNumber == list[j].unreliableNumber
      ensures filled[j].unsequenced == list[j].unsequenced
    {
    }
  }

  lemma StillIncomplete(x: UnreliableCommand, y: UnreliableCommand, base: u16, latest: int)
    requires Pending(x, base, latest) && y.remaining > 0 && y == x.(remaining := y.remaining)
    ensures Pending(y, base, latest)
  {
  }

  datatype UnreliableEvent = Arrives(x: UnreliableCommand) | Fills(i: nat)

  predicate MayHappen(list: seq<UnreliableCommand>, e: UnreliableEvent) {
    match e
    case Arrives(x) => NewNode(list, x.node) && (x.unsequenced || x.unreliableNumber >= 1)
    case Fills(i) => i < |list| && list[i].remaining > 0
  }

  function Happens(list: seq<UnreliableCommand>, base: u16, latest: u16, e: UnreliableEvent): Queued
    requires MayHappen(list, e)
  {
    match e
    case Arrives(x) => QueueUnreliable(list, base, latest, x)
    case Fills(i) => FillUnreliable(list, base, latest, i)
  }

  predicate AllMayHappen(list: seq<UnreliableCommand>, base: u16, latest: u16, events: seq<UnreliableEvent>)
    decreases |events|
  {
    events == [] ||
    (MayHappen(list, events[0])
     && var q := Happens(list, base, latest, events[0]);
        AllMayHappen(q.list, base, q.latest, events[1..]))
  }

  /** The list that is left, all that was moved, and the last number moved. */
  function HappensAll(list: seq<UnreliableCommand>, base: u16, latest: u16, events: seq<UnreliableEvent>): Queued
    requires AllMayHappen(list, base, latest, events)
    decreases |events|
  {
    if events == [] then Queued(list, [], latest)
    else
      var q := Happens(list, base, latest, events[0]);
      var r := HappensAll(q.list, base, q.latest, events[1..]);
      r.(moved := q.moved + r.moved)
  }

  lemma {:induction false} LatestIsMost(s: seq<UnreliableCommand>, lo: int)
    requires Increasing(s, lo)
    ensures LatestOf(s, lo) >= lo
    ensures forall i :: 0 <= i < |s| && !s[i].unsequenced ==> s[i].unreliableNumber <= LatestOf(s, lo)
    decreases |s|
  {
    if s != [] && s[|s| - 1].unsequenced {
      LatestIsMost(s[..|s| - 1], lo);
    }
  }

  lemma {:induction false} LatestJoins(a: seq<UnreliableCommand>, b: seq<UnreliableCommand>, lo: int)
    ensures LatestOf(a + b, lo) == LatestOf(b, LatestOf(a, lo))
    decreases |b|
  {
    if b == [] {
      assert a + b == a;
    } else if b[|b| - 1].unsequenced {
      LatestJoins(a, b[..|b| - 1], lo);
      assert (a + b)[..|a + b| - 1] == a + b[..|b| - 1];
    }
  }

  lemma IncreasingJoins(a: seq<UnreliableCommand>, b: seq<UnreliableCommand>, lo: int)
    requires Increasing(a, lo) && Increasing(b, LatestOf(a, lo))
    ensures Increasing(a + b, lo)
  {
    hide LatestOf;
    LatestIsMost(a, lo);
    var s := a + b;
    assert forall i :: 0 <= i < |s| ==> s[i] == if i < |a| then a[i] else b[i - |a|];
  }

  lemma DueJoins(a: seq<UnreliableCommand>, b: seq<UnreliableCommand>, base: u16)
    requires AllDue(a, base) && AllDue(b, base)
    ensures AllDue(a + b, base)
  {
    hide Due;
  }

  lemma OneKeepsOrder(list: seq<UnreliableCommand>, base: u16, latest: u16, e: UnreliableEvent)
    requires Waits(list, base, latest) && MayHappen(list, e)
    ensures var q := Happens(list, base, latest, e);
            Waits(q.list, base, q.latest) && AllDue(q.moved, base) && Increasing(q.moved, latest)
            && q.latest == LatestOf(q.moved, latest)
  {
    hide Waits, AllDue, Increasing, QueueUnreliable, FillUnreliable;
    match e
    case Arrives(x) => ArrivalKeepsOrder(list, base, latest, x);
    case Fills(i) => FillKeepsOrder(list, base, latest, i);
  }

  /** Whatever arrives between two reliable dispatches, in whatever order, and whichever fragments
      complete what was incomplete: all that is dispatched is due, and the unreliable numbers of the
      sequenced packets strictly increase from the first to the last. */
  lemma {:induction false} DispatchedInOrder(list: seq<UnreliableCommand>, base: u16, latest: u16,
                                             events: seq<UnreliableEvent>)
    requires Waits(list, base, latest) && AllMayHappen(list, base, latest, events)
    ensures var q := HappensAll(list, base, latest, events);
            Waits(q.list, base, q.latest) && AllDue(q.moved, base) && Increasing(q.moved, latest)
            && q.latest == LatestOf(q.moved, latest)
    decreases |events|
  {
    hide Waits, AllDue, Increasing, Happens, MayHappen, LatestOf;
    NoneIncrease(latest);
    if events == [] {
      NoneAreDue(base);
    } else {
      OneKeepsOrder(list, base, latest, events[0]);
      var q := Happens(list, base, latest, events[0]);
      DispatchedInOrder(q.list, base, q.latest, events[1..]);
      var r := HappensAll(q.list, base, q.latest, events[1..]);
      IncreasingJoins(q.moved, r.moved, latest);
      LatestJoins(q.moved, r.moved, latest);
      DueJoins(q.moved, r.moved, base);
    }
  }

  lemma NoneAreDue(base: u16)
    ensures AllDue([], base)
  {
  }
}
