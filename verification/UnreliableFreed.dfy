/** What dispatching unreliable commands frees (src/enet/peer.c:703-784): besides what is stale or
    overtaken, all but the last two of the incomplete commands that still have a chance. */
module UnreliableFreed {
  import opened Words
  import opened Windows
  import opened ReceiveOrder
  import opened UnreliableQueue

  /** Incomplete, of the current number, and newer than all dispatched. */
  predicate Hoped(x: UnreliableCommand, base: u16, latest: int) {
    Incomplete(x, base) && x.unreliableNumber > latest
  }

  function Hopeful(list: seq<UnreliableCommand>, base: u16, latest: int): seq<UnreliableCommand> {
    if list == [] then []
    else (if Hoped(list[0], base, latest) then [list[0]] else []) + Hopeful(list[1..], base, latest)
  }

  predicate Ahead(x: UnreliableCommand, base: u16) {
    !x.unsequenced && x.number != base && Admits(base, x.number)
  }

  predicate Stale(x: UnreliableCommand, base: u16) {
    !x.unsequenced && x.number != base && !Admits(base, x.number)
  }

  /** From the first command ahead on. */
  function AheadOf(list: seq<UnreliableCommand>, base: u16): seq<UnreliableCommand> {
    if list == [] || Ahead(list[0], base) then list else AheadOf(list[1..], base)
  }

  function LastTwo<T>(s: seq<T>): seq<T> {
    if |s| <= 2 then s else s[|s| - 2..]
  }

  /** What is ahead in the queue was taken in, and has not been left behind since. */
  predicate Admitted(list: seq<UnreliableCommand>, base: u16) {
    forall i :: 0 <= i < |list| && Rank(base, list[i].number) > HORIZON ==>
      list[i].unsequenced || Admits(base, list[i].number)
  }

  // ---- filtering ----

  lemma {:induction false} HopefulAdds(a: seq<UnreliableCommand>, b: seq<UnreliableCommand>, base: u16, latest: int)
    ensures Hopeful(a + b, base, latest) == Hopeful(a, base, latest) + Hopeful(b, base, latest)
  {
    hide Hoped, Hopeful;
    HopefulUnfolds(a, base, latest);
    if a == [] {
      assert a + b == b;
    } else {
      HopefulAdds(a[1..], b, base, latest);
      HopefulUnfolds(a + b, base, latest);
      assert (a + b)[1..] == a[1..] + b;
    }
  }

  lemma HopefulUnfolds(a: seq<UnreliableCommand>, base: u16, latest: int)
    ensures Hopeful(a, base, latest)
            == if a == [] then []
               else (if Hoped(a[0], base, latest) then [a[0]] else []) + Hopeful(a[1..], base, latest)
  {
  }

  lemma {:induction false} NoneHoped(a: seq<UnreliableCommand>, base: u16, latest: int)
    requires forall i :: 0 <= i < |a| ==> !Hoped(a[i], base, latest)
    ensures Hopeful(a, base, latest) == []
  {
    hide Hoped;
    if a != [] {
      NoneHoped(a[1..], base, latest);
    }
  }

  lemma {:induction false} AllHoped(a: seq<UnreliableCommand>, base: u16, latest: int)
    requires forall i :: 0 <= i < |a| ==> Hoped(a[i], base, latest)
    ensures Hopeful(a, base, latest) == a
  {
    hide Hoped;
    if a != [] {
      AllHoped(a[1..], base, latest);
    }
  }

  lemma MoveKeepsHopeful(w: Walk, base: u16, latest: int)
    requires Positioned(w) && AllDue(w.list[w.start..w.current], base)
    ensures Hopeful(MoveRun(w).list, base, latest) == Hopeful(w.list, base, latest)
  {
    hide Hopeful;
    var a, run, c := w.list[..w.start], w.list[w.start..w.current], w.list[w.current..];
    assert w.list == a + (run + c);
    HopefulAdds(a, run + c, base, latest);
    HopefulAdds(run, c, base, latest);
    HopefulAdds(a, c, base, latest);
    NoneHoped(run, base, latest);
  }

  // ---- the walk ----

  /** Where freeing is going to end, on the way: what has been given up is stale or overtaken, or two
      incomplete commands stand behind it. last is the latest number dispatched in the end. */
  ghost predicate Gives(w: Walk, all: seq<UnreliableCommand>, base: u16, lo: int, last: int) {
    && Positioned(w) && w.start - w.dropped <= 2
    && (forall i :: 0 <= i < w.start ==> Stale(w.list[i], base) || Incomplete(w.list[i], base))
    && (forall i :: 0 <= i < w.dropped ==>
          Stale(w.list[i], base) || w.list[i].unreliableNumber <= LatestOf(w.moved, lo) || w.start - w.dropped == 2)
    && Hopeful(w.list, base, last) == Hopeful(all, base, last)
    && AheadOf(w.list[w.current..], base) == AheadOf(all, base)
    && Admitted(w.list, base) && OnlyFirstUnsequenced(w.list)
  }

  lemma AheadSteps(list: seq<UnreliableCommand>, k: nat, base: u16)
    requires k < |list| && !Ahead(list[k], base)
    ensures AheadOf(list[k..], base) == AheadOf(list[k + 1..], base)
  {
    assert list[k..][1..] == list[k + 1..];
  }

  lemma AdmittedWithout(list: seq<UnreliableCommand>, some: seq<UnreliableCommand>, base: u16)
    requires Admitted(list, base) && forall x :: x in some ==> x in list
    ensures Admitted(some, base)
  {
    hide Rank, Admits;
    forall i | 0 <= i < |some| && Rank(base, some[i].number) > HORIZON
      ensures some[i].unsequenced || Admits(base, some[i].number)
    {
      assert some[i] in list;
      var j :| 0 <= j < |list| && list[j] == some[i];
    }
  }

  /** All that stands before a run is overtaken by it. */
  lemma MovedOvertakes(w: Walk, all: seq<UnreliableCommand>, base: u16, lo: int, i: nat)
    requires WalkOk(w, all, base, lo) && OnlyFirstUnsequenced(w.list)
    requires w.start < w.current && i < w.start && Incomplete(w.list[i], base)
    ensures w.list[i].unreliableNumber <= LatestOf(w.moved + w.list[w.start..w.current], lo)
  {
    hide Newer, InPlay, Rank;
    var run := w.list[w.start..w.current];
    var x := run[|run| - 1];
    assert x == w.list[w.current - 1] && Due(x, base);
    assert (w.moved + run)[|w.moved + run| - 1] == x;
    assert Before(w.list[i], w.list[w.current - 1], base);
  }

  lemma MoveGives(w: Walk, all: seq<UnreliableCommand>, base: u16, lo: int, last: int)
    requires WalkOk(w, all, base, lo) && Gives(w, all, base, lo, last) && w.start < w.current
    ensures Gives(MoveRun(w).(dropped := w.start), all, base, lo, last)
  {
    hide WalkOk, LatestOf, Hopeful, AheadOf, Admitted, AllDue, Incomplete, Stale, OnlyFirstUnsequenced;
    DueRun(w, all, base, lo);
    MoveKeepsHopeful(w, base, last);
    MoveKeepsFront(w, base);
    var v := MoveRun(w).(dropped := w.start);
    assert v.list[v.current..] == w.list[w.current..];
    forall i | 0 <= i < v.dropped
      ensures Stale(v.list[i], base) || v.list[i].unreliableNumber <= LatestOf(v.moved, lo)
    {
      if Incomplete(w.list[i], base) {
        MovedOvertakes(w, all, base, lo, i);
      }
    }
  }

  lemma MoveKeepsFront(w: Walk, base: u16)
    requires Positioned(w) && OnlyFirstUnsequenced(w.list) && Admitted(w.list, base)
    ensures OnlyFirstUnsequenced(MoveRun(w).list) && Admitted(MoveRun(w).list, base)
  {
    hide Admitted;
    var v := MoveRun(w);
    assert forall i :: 0 <= i < |v.list| ==> v.list[i] == w.list[if i < w.start then i else i + w.current - w.start];
    AdmittedWithout(w.list, v.list, base);
  }

  lemma DueRun(w: Walk, all: seq<UnreliableCommand>, base: u16, lo: int)
    requires WalkOk(w, all, base, lo)
    ensures Positioned(w) && AllDue(w.list[w.start..w.current], base) && Ordered(w.list, base)
  {
    hide Ordered, Newer, LatestOf, Due;
  }

  lemma StepGives(w: Walk, v: Walk, all: seq<UnreliableCommand>, base: u16, lo: int, last: int)
    requires Gives(w, all, base, lo, last) && w.current < |w.list| && !Ahead(w.list[w.current], base)
    requires v.list == w.list && v.moved == w.moved && v.current == w.current + 1 && Positioned(v)
    requires v.start - v.dropped <= 2
    requires forall i :: 0 <= i < v.start ==> Stale(v.list[i], base) || Incomplete(v.list[i], base)
    requires forall i :: 0 <= i < v.dropped ==>
               Stale(v.list[i], base) || v.list[i].unreliableNumber <= LatestOf(v.moved, lo) || v.start - v.dropped == 2
    ensures Gives(v, all, base, lo, last)
  {
    hide Hopeful, AheadOf, LatestOf, Incomplete, Stale, Ahead;
    AheadSteps(w.list, w.current, base);
  }

  lemma StaleIsFirst(w: Walk, all: seq<UnreliableCommand>, base: u16, lo: int, i: nat)
    requires WalkOk(w, all, base, lo) && Admitted(w.list, base) && i < w.start == w.current < |w.list|
    requires Stale(w.list[w.current], base)
    ensures !Incomplete(w.list[i], base)
  {
    hide InPlay, Newer, LatestOf, Admits, Rank;
    RankMeans(base, w.list[w.current].number);
    RankMeans(base, w.list[i].number);
    assert !Due(w.list[i], base);
    assert Before(w.list[i], w.list[w.current], base);
  }

  /** Going past a command that does not join the run, with no run before it. */
  lemma PassGives(w: Walk, dropped: nat, all: seq<UnreliableCommand>, base: u16, lo: int, last: int)
    requires WalkOk(w, all, base, lo) && Gives(w, all, base, lo, last) && w.start == w.current < |w.list|
    requires var x := w.list[w.current];
             || (Incomplete(x, base) && dropped == if w.dropped == w.current then w.current else w.current - 1)
             || (Stale(x, base) && dropped == w.current + 1)
    ensures Gives(PassOver(w).(dropped := dropped), all, base, lo, last)
  {
    hide WalkOk, LatestOf, Hopeful, AheadOf, Admitted, Admits, Rank;
    var x := w.list[w.current];
    if Stale(x, base) {
      forall i | 0 <= i < w.start ensures Stale(w.list[i], base) {
        StaleIsFirst(w, all, base, lo, i);
      }
    }
    StepGives(w, PassOver(w).(dropped := dropped), all, base, lo, last);
  }

  lemma TurnGives(w: Walk, all: seq<UnreliableCommand>, base: u16, lo: int, last: int)
    requires WalkOk(w, all, base, lo) && Gives(w, all, base, lo, last) && w.current < |w.list|
    ensures Gives(Turn(w, base), all, base, lo, last)
  {
    hide WalkOk, Gives, Admits;
    ListPositioned(w, all, base, lo);
    var x := w.list[w.current];
    if Due(x, base) {
      JoinGives(w, Turn(w, base), all, base, lo, last);
    } else if Ahead(x, base) {
      StopGives(w, all, base, lo, last);
    } else {
      MoveOrStay(w, all, base, lo);
      if w.start != w.current {
        MoveGives(w, all, base, lo, last);
        var u := MoveRun(w).(dropped := w.start);
        PassGives(u, if Stale(x, base) then u.current + 1 else u.current, all, base, lo, last);
      } else {
        var dropped := if Stale(x, base) then w.current + 1
                       else if w.dropped == w.current then w.current else w.current - 1;
        PassGives(w, dropped, all, base, lo, last);
      }
    }
  }

  lemma JoinGives(w: Walk, v: Walk, all: seq<UnreliableCommand>, base: u16, lo: int, last: int)
    requires Gives(w, all, base, lo, last) && w.current < |w.list| && Due(w.list[w.current], base)
    requires v == w.(latest := v.latest, current := w.current + 1)
    ensures Gives(v, all, base, lo, last)
  {
    hide Hopeful, AheadOf, LatestOf, Admitted, Admits, Incomplete, Stale;
    StepGives(w, v, all, base, lo, last);
  }

  lemma StopGives(w: Walk, all: seq<UnreliableCommand>, base: u16, lo: int, last: int)
    requires Gives(w, all, base, lo, last)
    ensures Gives(w.(stopped := true), all, base, lo, last)
  {
  }

  lemma {:induction false} WalkGives(w: Walk, all: seq<UnreliableCommand>, base: u16, lo: int, last: int)
    requires WalkOk(w, all, base, lo) && Gives(w, all, base, lo, last) && !w.stopped
    ensures Gives(WalkOn(w, base), all, base, lo, last)
    decreases |w.list| - w.current
  {
    hide WalkOk, Gives, Turn;
    ListPositioned(w, all, base, lo);
    if w.current < |w.list| {
      TurnKeepsOk(w, all, base, lo);
      TurnGives(w, all, base, lo, last);
      var v := Turn(w, base);
      if !v.stopped {
        WalkGives(v, all, base, lo, last);
      }
    }
  }

  lemma StartGives(list: seq<UnreliableCommand>, base: u16, latest: u16, last: int)
    requires OnlyFirstUnsequenced(list) && Admitted(list, base)
    ensures Gives(Walk(list, [], 0, 0, 0, latest, false), list, base, latest, last)
  {
    hide Admitted, AheadOf;
    assert list[0..] == list;
  }

  // ---- what is kept ----

  lemma TailIsAhead(w: Walk, all: seq<UnreliableCommand>, base: u16, lo: int, i: nat)
    requires WalkOk(w, all, base, lo) && w.current <= i < |w.list| && Ahead(w.list[w.current], base)
    ensures w.list[i].number != base
  {
    hide InPlay, Newer, LatestOf, Admits, Rank, Due;
    RankMeans(base, w.list[w.current].number);
    RankMeans(base, w.list[i].number);
    if i > w.current {
      assert Before(w.list[w.current], w.list[i], base);
    }
  }

  lemma KeptIsHoped(w: Walk, all: seq<UnreliableCommand>, base: u16, lo: int, i: nat)
    requires WalkOk(w, all, base, lo) && w.dropped <= i < w.start == w.current
    requires w.current < |w.list| ==> Ahead(w.list[w.current], base)
    ensures Hoped(w.list[i], base, w.latest)
  {
    hide InPlay, Newer, Ordered, LatestOf, Admits, Due, Rank;
    LeftIsPending(w, all, base, lo, i);
    RankMeans(base, w.list[i].number);
  }

  lemma GivenUpIsNot(w: Walk, all: seq<UnreliableCommand>, base: u16, lo: int, i: nat)
    requires Gives(w, all, base, lo, w.latest) && w.latest == LatestOf(w.moved, lo) && w.start - w.dropped < 2
    requires i < w.dropped
    ensures !Hoped(w.list[i], base, w.latest)
  {
    hide LatestOf, Hopeful, AheadOf, Admitted, OnlyFirstUnsequenced;
    assert Stale(w.list[i], base) || w.list[i].unreliableNumber <= LatestOf(w.moved, lo) || w.start - w.dropped == 2;
  }

  lemma AheadHere(w: Walk, all: seq<UnreliableCommand>, base: u16, lo: int, last: int)
    requires Gives(w, all, base, lo, last) && (w.current < |w.list| ==> Ahead(w.list[w.current], base))
    ensures w.list[w.current..] == AheadOf(all, base) && Hopeful(w.list, base, last) == Hopeful(all, base, last)
    ensures w.start - w.dropped <= 2
  {
    hide LatestOf, Hopeful, Admitted, Ahead;
  }

  /** Of those that have a chance the last two are kept. */
  lemma KeptAre(w: Walk, all: seq<UnreliableCommand>, base: u16, lo: int)
    requires WalkOk(w, all, base, lo) && Gives(w, all, base, lo, w.latest) && w.start == w.current
    requires w.latest == LatestOf(w.moved, lo)
    requires w.current < |w.list| ==> Ahead(w.list[w.current], base)
    ensures w.list[w.dropped..] == LastTwo(Hopeful(all, base, w.latest)) + AheadOf(all, base)
  {
    hide WalkOk, Gives, LatestOf, Ahead, Hoped, Hopeful, AheadOf, LastTwo;
    ListPositioned(w, all, base, lo);
    AheadHere(w, all, base, lo, w.latest);
    var front, kept, rest := w.list[..w.dropped], w.list[w.dropped..w.start], w.list[w.start..];
    forall i | w.dropped <= i < w.start ensures Hoped(w.list[i], base, w.latest) {
      KeptIsHoped(w, all, base, lo, i);
    }
    AllHoped(kept, base, w.latest);
    forall i | w.current <= i < |w.list| ensures w.list[i].number != base {
      TailIsAhead(w, all, base, lo, i);
    }
    NoneHopedBeside(rest, base, w.latest);
    assert w.list == front + (kept + rest);
    HopefulAdds(front, kept + rest, base, w.latest);
    HopefulAdds(kept, rest, base, w.latest);
    if |kept| < 2 {
      forall i | 0 <= i < |front| ensures !Hoped(front[i], base, w.latest) {
        GivenUpIsNot(w, all, base, lo, i);
      }
      NoneHoped(front, base, w.latest);
    }
    assert kept + Hopeful(rest, base, w.latest) == kept;
    assert Hopeful(w.list, base, w.latest) == Hopeful(front, base, w.latest) + kept;
    LastTwoOf(Hopeful(front, base, w.latest), kept);
    assert w.list[w.dropped..] == kept + rest;
  }

  lemma NoneHopedBeside(a: seq<UnreliableCommand>, base: u16, latest: int)
    requires forall i :: 0 <= i < |a| ==> a[i].number != base
    ensures Hopeful(a, base, latest) == []
  {
    NoneHoped(a, base, latest);
  }

  lemma LastTwoOf<T>(a: seq<T>, b: seq<T>)
    requires |b| <= 2 && (|b| < 2 ==> a == [])
    ensures LastTwo(a + b) == b
  {
  }

  /** What a dispatch keeps, apart from the command being worked on: of the incomplete commands newer
      than all dispatched the last two, and what is ahead. All else is moved or freed; so it frees an
      incomplete command that has not been overtaken if two such commands stand behind it. What is
      freed is never due. */
  lemma KeepsLastTwo(list: seq<UnreliableCommand>, base: u16, latest: u16, working: int)
    requires Ordered(list, base) && Newer(list, base, latest) && OnlyFirstUnsequenced(list) && Admitted(list, base)
    ensures var o := DispatchUnreliable(list, base, latest, working);
            var kept := LastTwo(Hopeful(list, base, o.latest)) + AheadOf(list, base);
            && |kept| <= |o.left| && o.left[|o.left| - |kept|..] == kept
            && (forall i :: 0 <= i < |o.left| - |kept| ==> o.left[i].node == working)
            && (forall x :: x in o.freed ==> !Due(x, base) && x.node != working)
  {
    hide WalkOk, Gives, Admits, Ordered, Newer, Spared, Freed, OnlyFirstUnsequenced, Due, Hopeful, AheadOf, Admitted,
         LastTwo;
    var start := Walk(list, [], 0, 0, 0, latest, false);
    WalkStarts(list, base, latest);
    WalkKeepsOk(start, list, base, latest);
    var w := WalkOn(start, base);
    LastRunOk(w, list, base, latest);
    var v := LastRun(w);
    StartGives(list, base, latest, v.latest);
    WalkGives(start, list, base, latest, v.latest);
    LastRunGives(w, list, base, latest, v.latest);
    if v.current < |v.list| {
      assert v.list[v.current..][0] == w.list[w.current..][0];
    }
    MovedFacts(v, list, base, latest);
    KeptAre(v, list, base, latest);
    SparedOrFreed(v.list[..v.dropped], working);
    NotDue(v, list, base, latest);
    FreedFrom(v.list[..v.dropped], working);
    var o := DispatchUnreliable(list, base, latest, working);
    var spared := Spared(v.list[..v.dropped], working);
    assert o.left == spared + v.list[v.dropped..];
  }

  lemma LastRunGives(w: Walk, all: seq<UnreliableCommand>, base: u16, lo: int, last: int)
    requires WalkOk(w, all, base, lo) && Gives(w, all, base, lo, last)
    ensures Gives(LastRun(w), all, base, lo, last)
  {
    hide WalkOk, Gives;
    ListPositioned(w, all, base, lo);
    if w.start != w.current {
      MoveGives(w, all, base, lo, last);
    }
  }

  /** Three fragmented packets are under way and nothing is due: the first is freed. */
  lemma FirstOfThreeIsFreed(base: u16, a: UnreliableCommand, b: UnreliableCommand, c: UnreliableCommand, latest: u16)
    requires Incomplete(a, base) && Incomplete(b, base) && Incomplete(c, base)
    requires latest < a.unreliableNumber < b.unreliableNumber < c.unreliableNumber
    ensures var o := DispatchUnreliable([a, b, c], base, latest, -1);
            o.left == [b, c] && o.moved == [] && o.freed == [a]
  {
    var list := [a, b, c];
    var w0 := Walk(list, [], 0, 0, 0, latest, false);
    var w1 := w0.(start := 1, current := 1);
    var w2 := w0.(dropped := 0, start := 2, current := 2);
    var w3 := w0.(dropped := 1, start := 3, current := 3);
    assert Turn(w0, base) == w1 && Turn(w1, base) == w2 && Turn(w2, base) == w3;
    assert WalkOn(w2, base) == WalkOn(w3, base) == w3;
    assert WalkOn(w0, base) == WalkOn(w1, base) == WalkOn(w2, base);
    assert list[..1] == [a] && list[1..] == [b, c];
    GivenUpAlone(a);
  }

  lemma GivenUpAlone(a: UnreliableCommand)
    ensures Spared([a], -1) == [] && Freed([a], -1) == [a]
  {
    assert [a][1..] == [];
  }

  // ---- what is ahead stays admitted ----

  lemma {:induction false} WalkWithin(w: Walk, base: u16)
    requires Positioned(w)
    ensures forall x :: x in WalkOn(w, base).list ==> x in w.list
    decreases |w.list| - w.current
  {
    hide Admits;
    if w.current < |w.list| && !Turn(w, base).stopped {
      WalkWithin(Turn(w, base), base);
    }
  }

  lemma DispatchKeepsAdmitted(list: seq<UnreliableCommand>, base: u16, latest: u16, working: int)
    requires Admitted(list, base)
    ensures Admitted(DispatchUnreliable(list, base, latest, working).left, base)
  {
    hide WalkOn, Admitted;
    var w := WalkOn(Walk(list, [], 0, 0, 0, latest, false), base);
    WalkWithin(Walk(list, [], 0, 0, 0, latest, false), base);
    var v := LastRun(w);
    SparedWithin(v.list[..v.dropped], working);
    AdmittedWithout(list, DispatchUnreliable(list, base, latest, working).left, base);
  }

  lemma {:induction false} SparedWithin(list: seq<UnreliableCommand>, working: int)
    ensures forall x :: x in Spared(list, working) ==> x in list
  {
    if list != [] {
      SparedWithin(list[1..], working);
    }
  }

  /** Whatever arrives or completes. */
  lemma HappensKeepsAdmitted(list: seq<UnreliableCommand>, base: u16, latest: u16, e: UnreliableEvent)
    requires Admitted(list, base) && MayHappen(list, e)
    ensures Admitted(Happens(list, base, latest, e).list, base)
  {
    hide Rank, Admits, DispatchUnreliable, NewNode;
    match e
    case Arrives(x) =>
      if x.unsequenced {
        DispatchKeepsAdmitted([x] + list, base, latest, x.node);
      } else if UnreliableWanted(list, base, latest, x.number, x.unreliableNumber) {
        var p := UnreliablePlace(list, base, x.number, x.unreliableNumber);
        DispatchKeepsAdmitted(list[..p] + [x] + list[p..], base, latest, x.node);
      }
    case Fills(i) =>
      DispatchKeepsAdmitted(list[i := list[i].(remaining := list[i].remaining - 1)], base, latest, -1);
  }

  /** And however the receiver's number advances, by at most nine windows at a time. */
  lemma AdvanceKeepsAdmitted(list: seq<UnreliableCommand>, base: u16, t: nat)
    requires Admitted(list, base) && t <= HORIZON && forall i :: 0 <= i < |list| ==>
               Rank(base, list[i].number) >= HORIZON
    ensures Admitted(list, (base + t) % NUMBERS)
  {
    hide Rank, Admits, Distance;
    var base' := (base + t) % NUMBERS;
    forall i | 0 <= i < |list| && Rank(base', list[i].number) > HORIZON
      ensures list[i].unsequenced || Admits(base', list[i].number)
    {
      var n := list[i].number;
      RankMoves(base, n, t);
      RankOfAhead(base, n);
      if !list[i].unsequenced {
        AdmitsMoves(base, n, t);
      }
    }
  }
}
