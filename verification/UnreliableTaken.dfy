/** Which unreliable commands are taken in, and that those due go out at once (src/enet/peer.c:826-985,
    src/enet/protocol.c:729-746). */
module UnreliableTaken {
  import opened Words
  import opened Windows
  import opened UnreliableQueue

  /** A command with these two numbers waits already. */
  predicate Copied(list: seq<UnreliableCommand>, number: u16, unreliableNumber: u16) {
    exists i :: 0 <= i < |list| && list[i].number == number && list[i].unreliableNumber == unreliableNumber
  }

  /** A sequenced command is turned away exactly if its reliable number is behind or seven windows ahead,
      if it is overtaken, or if it is a copy. */
  lemma WantedIff(list: seq<UnreliableCommand>, base: u16, latest: u16, x: UnreliableCommand)
    requires Waits(list, base, latest) && !x.unsequenced
    ensures UnreliableWanted(list, base, latest, x.number, x.unreliableNumber)
            <==> && Admits(base, x.number) && !(x.number == base && x.unreliableNumber <= latest)
                 && !Copied(list, x.number, x.unreliableNumber)
  {
    hide Pending, Ordered, Admits, Before;
    WaitingIsNewer(list, base, latest);
    if Admits(base, x.number) {
      UnreliablePlaceSplits(list, base, x);
      var p := UnreliablePlace(list, base, x.number, x.unreliableNumber);
      if !(p > 0 && Same(list[p - 1], x)) {
        forall i | 0 <= i < |list| ensures !Same(list[i], x) {
          BeforeDiffers(list[i], x, base);
          BeforeDiffers(x, list[i], base);
        }
      }
    }
  }

  predicate Same(a: UnreliableCommand, b: UnreliableCommand) {
    a.number == b.number && a.unreliableNumber == b.unreliableNumber
  }

  lemma BeforeDiffers(a: UnreliableCommand, b: UnreliableCommand, base: u16)
    ensures Before(a, b, base) ==> !Same(a, b)
  {
  }

  /** What becomes of one command when the queue is dispatched: it goes out exactly if it is due. */
  lemma DueGoesOut(list: seq<UnreliableCommand>, base: u16, latest: u16, x: UnreliableCommand)
    requires Ordered(list, base) && Newer(list, base, latest) && OnlyFirstUnsequenced(list) && x in list
    ensures var q := AndDispatch(list, base, latest, x.node);
            if Due(x, base) then x in q.moved else x in q.list && x !in q.moved
  {
    hide Ordered, Newer, Due, OnlyFirstUnsequenced, DispatchUnreliable;
    SharedOut(list, base, latest, x.node, x);
    FreedSpares(list, base, latest, x);
  }

  /** Due commands go out, others stay or are freed, whichever command is being worked on. */
  lemma SharedOut(list: seq<UnreliableCommand>, base: u16, latest: u16, working: int, x: UnreliableCommand)
    requires Ordered(list, base) && Newer(list, base, latest) && OnlyFirstUnsequenced(list) && x in list
    ensures var o := DispatchUnreliable(list, base, latest, working);
            if Due(x, base) then x in o.moved else x !in o.moved && (x in o.left || x in o.freed)
  {
    hide Ordered, Newer, Due, OnlyFirstUnsequenced, Increasing, Pending;
    DispatchIsOrdered(list, base, latest, working);
    var o := DispatchUnreliable(list, base, latest, working);
    assert x in multiset(o.left) + multiset(o.moved) + multiset(o.freed);
    forall i | 0 <= i < |o.left| ensures !Due(o.left[i], base) {
      if o.left[i].node != working {
        PendingIsNotDue(o.left[i], base, o.latest);
      }
    }
  }

  lemma FreedSpares(list: seq<UnreliableCommand>, base: u16, latest: u16, x: UnreliableCommand)
    ensures x !in DispatchUnreliable(list, base, latest, x.node).freed
  {
    var w := LastRun(WalkOn(Walk(list, [], 0, 0, 0, latest, false), base));
    FreedFrom(w.list[..w.dropped], x.node);
  }

  /** A command that arrives: what is not turned away goes out at once if it is due, unsequenced ones
      always, and waits otherwise. */
  lemma ArrivalIsTaken(list: seq<UnreliableCommand>, base: u16, latest: u16, x: UnreliableCommand)
    requires Waits(list, base, latest) && NewNode(list, x.node) && (x.unsequenced || x.unreliableNumber >= 1)
    ensures var q := QueueUnreliable(list, base, latest, x);
            if !x.unsequenced && (!Admits(base, x.number) || (x.number == base && x.unreliableNumber <= latest)
                                  || Copied(list, x.number, x.unreliableNumber))
            then q == Queued(list, [], latest)
            else if x.unsequenced || (x.number == base && x.remaining == 0) then x in q.moved
            else x in q.list && x !in q.moved
  {
    hide Pending, Ordered, Newer, DispatchUnreliable, Before, UnreliablePlace, Admits, UnreliableWanted, Copied;
    WaitingIsNewer(list, base, latest);
    if x.unsequenced {
      UnsequencedFirst(list, base, latest, x);
      DueGoesOut([x] + list, base, latest, x);
    } else {
      WantedIff(list, base, latest, x);
      if UnreliableWanted(list, base, latest, x.number, x.unreliableNumber) {
        InsertedIsOrdered(list, base, latest, x);
        var p := UnreliablePlace(list, base, x.number, x.unreliableNumber);
        DueGoesOut(list[..p] + [x] + list[p..], base, latest, x);
      }
    }
  }

  lemma InsertedIsOrdered(list: seq<UnreliableCommand>, base: u16, latest: u16, x: UnreliableCommand)
    requires Waits(list, base, latest) && !x.unsequenced
    requires UnreliableWanted(list, base, latest, x.number, x.unreliableNumber)
    ensures var p := UnreliablePlace(list, base, x.number, x.unreliableNumber);
            var all := list[..p] + [x] + list[p..];
            Ordered(all, base) && Newer(all, base, latest) && OnlyFirstUnsequenced(all)
  {
    hide Pending, Ordered, Newer, Before, UnreliablePlace;
    WaitingIsNewer(list, base, latest);
    UnreliablePlaceSplits(list, base, x);
    var p := UnreliablePlace(list, base, x.number, x.unreliableNumber);
    InsertedInOrder(list, p, x, base);
    NewerInserted(list, p, x, base, latest);
  }

  /** The last fragment of a packet whose turn it is sends it out. */
  lemma CompletedGoesOut(list: seq<UnreliableCommand>, base: u16, latest: u16, i: nat)
    requires Waits(list, base, latest) && i < |list| && list[i].remaining == 1 && list[i].number == base
    requires !list[i].unsequenced
    ensures list[i].(remaining := 0) in FillUnreliable(list, base, latest, i).moved
  {
    hide Pending, Ordered, Newer, DispatchUnreliable, OnlyFirstUnsequenced;
    WaitingIsNewer(list, base, latest);
    FilledStays(list, base, latest, i);
    var filled := list[i := list[i].(remaining := 0)];
    var x := filled[i];
    SharedOut(filled, base, latest, -1, x);
  }
}
