/** What a receiver takes in: a command of the channel is refused only for want of room or for its
    size, and once all of the next packet has arrived it is dispatched. */
module Acceptance {
  import opened Words
  import opened Windows
  import opened Outgoing
  import opened SendPass
  import opened Incoming
  import opened ReceiveOrder
  import opened Parcels
  import opened Layout
  import opened Receiving
  import opened Arrivals
  import opened Sending
  import opened DropSafety
  import opened Delivery
  import opened ReliableChannel

  /** A command with that number waits in the queue. */
  predicate Queued(r: Receiver, number: u16) {
    exists i :: 0 <= i < |r.queue| && r.queue[i].number == number
  }

  /** Whether the packet of a command that has not been dispatched is taken in, if its size allows. */
  predicate HasPlace(r: Receiver, ps: seq<Parcel>, n: nat, accepting: bool)
    requires At(ps, n) < |ps|
  {
    accepting || Queued(r, Wire(ps[At(ps, n)].first))
  }

  lemma NumberAhead(r: Receiver, ps: seq<Parcel>, m: nat, n: nat)
    requires Follows(r, ps, m) && Arrivable(ps, m, n) && n > EndOf(ps, m)
    ensures Cuttable(ps[At(ps, n)])
    ensures var p := ps[At(ps, n)];
            && p.first <= n < p.first + Count(p)
            && Wire(p.first) != r.number
            && (Admits(r.number, Wire(p.first)) <==> WindowOf(p.first) <= WindowOf(EndOf(ps, m)) + 6)
  {
    hide Sorted, EndOf, Wire, At, EntriesHold, WindowOf, Count;
    AheadOrBehind(ps, m, n);
    NumberReached(r, ps, m);
    var first := ps[At(ps, n)].first;
    WindowsMonotone(first, n);
    WindowsMonotone(EndOf(ps, m), first);
    WindowsClose(EndOf(ps, m), first);
    AheadOfBase(EndOf(ps, m), first);
    if Wire(first) == r.number {
      WireIsInjective(first, EndOf(ps, m));
    }
  }

  /** An unfragmented command is refused exactly if it is too long, or new and there is no room. */
  lemma WholeIsTaken(r: Receiver, ps: seq<Parcel>, m: nat, n: nat, limit: nat, accepting: bool)
    requires Follows(r, ps, m) && Arrivable(ps, m, n) && Uncut(ps[At(ps, n)]) && n > EndOf(ps, m)
    ensures HandleReliable(r, Wire(n), ps[At(ps, n)].data, limit, accepting).ok
            <==> && |ps[At(ps, n)].data| <= limit
                 && (WindowOf(n) > WindowOf(EndOf(ps, m)) + 6 || HasPlace(r, ps, n, accepting))
  {
    hide Sorted, EndOf, Wire, At, EntriesHold, WindowOf, Count, Place, AlreadyQueued, Admits, Ready;
    NumberAhead(r, ps, m, n);
    CountOfUncut(ps[At(ps, n)]);
    NumberReached(r, ps, m);
    PlaceFinds(r.queue, r.number, Wire(n));
  }

  /** A fragment is refused exactly if it or its packet is too long, or its packet is new and there is
      no room; where the packet begins too far ahead, it is passed over. */
  lemma FragmentIsTaken(r: Receiver, ps: seq<Parcel>, m: nat, n: nat, limit: nat, accepting: bool)
    requires Follows(r, ps, m) && Drained(r.queue, r.number) && Arrivable(ps, m, n) && n > EndOf(ps, m)
    requires Cuttable(ps[At(ps, n)]) && !Uncut(ps[At(ps, n)])
    requires ps[At(ps, n)].first <= n < ps[At(ps, n)].first + Count(ps[At(ps, n)])
    ensures EntriesOk(r)
    ensures var p := ps[At(ps, n)]; var f := FragmentOf(p, n - p.first);
            HandleFragment(r, f, limit, accepting).ok
            <==> && |f.data| <= limit
                 && (WindowOf(p.first) > WindowOf(EndOf(ps, m)) + 6
                     || (|p.data| <= limit && HasPlace(r, ps, n, accepting)))
  {
    hide Sorted, EndOf, Wire, At, EntriesHold, WindowOf, Count, Place, AlreadyQueued, Admits, FragmentOf, FillAt, Blank,
         Drained, Uncut, Holds, SamePacket, EntryOk, Missing, Dispatch;
    var p := ps[At(ps, n)];
    var f := FragmentOf(p, n - p.first);
    NumberAhead(r, ps, m, n);
    NumberReached(r, ps, m);
    FragmentStart(p, n - p.first);
    FragmentFits(p, n - p.first);
    PlaceFinds(r.queue, r.number, f.start);
    var at := Place(r.queue, r.number, f.start);
    if Admits(r.number, f.start) && FragmentOk(f, limit) && AlreadyQueued(r.queue, at, f.start) {
      StartedIsSame(r, ps, m, n, at);
    }
  }

  lemma StartedIsSame(r: Receiver, ps: seq<Parcel>, m: nat, n: nat, at: nat)
    requires Follows(r, ps, m) && Drained(r.queue, r.number) && Arrivable(ps, m, n) && n > EndOf(ps, m)
    requires Cuttable(ps[At(ps, n)]) && !Uncut(ps[At(ps, n)])
    requires ps[At(ps, n)].first <= n < ps[At(ps, n)].first + Count(ps[At(ps, n)])
    requires var f := FragmentOf(ps[At(ps, n)], n - ps[At(ps, n)].first);
             && at == Place(r.queue, r.number, f.start) && AlreadyQueued(r.queue, at, f.start)
    ensures var f := FragmentOf(ps[At(ps, n)], n - ps[At(ps, n)].first);
            && EntryOk(r.queue[at - 1]) && SamePacket(r.queue[at - 1], f) && f.index < f.count
            && f.offset + |f.data| <= f.total && FillAt(r, at - 1, f).ok
  {
    hide Sorted, EndOf, Wire, At, EntriesHold, WindowOf, Count, Place, Admits, FragmentOf, FillAt, Drained, Uncut,
         Holds, EntryOk, Dispatch, Follows, Fill, SamePacket;
    var p := ps[At(ps, n)];
    var f := FragmentOf(p, n - p.first);
    AheadOrBehind(ps, m, n);
    FragmentStart(p, n - p.first);
    WindowsMonotone(p.first, n);
    WindowsClose(EndOf(ps, m), p.first);
    QueuedIsPacket(r, ps, m, at - 1, p.first);
    FillFollows(r, ps, m, at - 1, At(ps, n), n - p.first);
    FragmentFits(p, n - p.first);
    FillIsOk(r, at - 1, f);
  }

  // ---- in the runs of a channel ----

  /** A command not dispatched yet, whose packet is not too long and begins less than seven windows
      ahead, and may arrive from the network. */
  ghost predicate Due(w: World, x: Message, limit: nat)
    requires LaidOut(w.ps) && |w.delivered| <= |w.ps|
  {
    && x in w.air && Known(w.ps, x) && x.serial > Reached(w)
    && var p := w.ps[At(w.ps, x.serial)];
       |p.data| <= limit && WindowOf(p.first) <= WindowOf(Reached(w)) + 6
  }

  lemma DueIsEnabled(w: World, c: byte, x: Message, limit: nat)
    requires Inv(w, c) && Due(w, x, limit)
    ensures Enabled(w, c, Arrive(x, limit, true))
    ensures Arrivable(w.ps, |w.delivered|, x.serial) && x.number == Wire(x.serial)
  {
    hide Valid, Orderly, Known, Follows, LaidOut, EndOf, Settled, Received, WindowOf, Drained;
    SenderStaysNear(w, c);
    ArrivesNear(w, c, x);
  }

  lemma DueIsTaken(r: Receiver, ps: seq<Parcel>, m: nat, x: Message, limit: nat)
    requires Follows(r, ps, m) && Drained(r.queue, r.number) && Arrivable(ps, m, x.serial) && Known(ps, x)
    requires x.serial > EndOf(ps, m)
    requires var p := ps[At(ps, x.serial)]; |p.data| <= limit && WindowOf(p.first) <= WindowOf(EndOf(ps, m)) + 6
    ensures EntriesOk(r) && Respond(r, x, limit, true).ok && Begun(r, ps, m, x.serial)
  {
    hide Follows, Drained, LaidOut, EndOf, Within, At, Count, Uncut, HandleReliable, HandleFragment, WindowOf, Admits;
    var p := ps[At(ps, x.serial)];
    AheadOrBehind(ps, m, x.serial);
    NumberReached(r, ps, m);
    NumberAhead(r, ps, m, x.serial);
    PayloadCases(p, x);
    if Uncut(p) {
      CountOfUncut(p);
      WholeIsTaken(r, ps, m, x.serial, limit, true);
    } else {
      PieceFits(p, x.serial - p.first);
      FragmentIsTaken(r, ps, m, x.serial, limit, true);
    }
  }

  lemma PieceFits(p: Parcel, i: nat)
    requires Cuttable(p) && !Uncut(p) && i < Count(p)
    ensures |FragmentOf(p, i).data| <= |p.data|
  {
    hide Count;
    FragmentFits(p, i);
  }

  lemma HandledReceives(r: Receiver, h: Handled, ps: seq<Parcel>, m: nat, n: nat)
    requires LaidOut(ps) && m <= |ps| && Handles(r, h, ps, m, n) && h.ok && Begun(r, ps, m, n)
    ensures var k := |h.dispatched|;
            && m + k <= |ps| && h.r.number == Wire(EndOf(ps, m + k))
            && Received(h.r, EndOf(ps, m + k), n)
            && (forall x: nat :: Received(r, EndOf(ps, m), x) ==> Received(h.r, EndOf(ps, m + k), x))
  {
    hide Follows, Drained, LaidOut, EndOf, Received, Acknowledges, WindowOf;
    NumberReached(h.r, ps, m + |h.dispatched|);
  }

  /** A number is acknowledged unless it is seven or eight windows ahead, or eight or nine behind. */
  lemma AcknowledgedIff(reached: nat, n: nat)
    requires n < reached + NUMBERS && reached < n + NUMBERS
    ensures Acknowledges(Wire(reached), Wire(n))
            <==> WindowOf(n) - WindowOf(reached) != 7 && WindowOf(n) - WindowOf(reached) != 8
                 && WindowOf(reached) - WindowOf(n) != 8 && WindowOf(reached) - WindowOf(n) != 9
  {
    hide Wire;
    if n >= reached {
      AheadOfBase(reached, n);
      WindowsMonotone(reached, n);
    } else {
      BehindBase(reached, n);
      WindowsMonotone(n, reached);
    }
  }

  /** A command that was ahead before is never so far behind after one arrival that it is not
      acknowledged. */
  lemma LeadIsSmall(w: World, w': World, c: byte, n: nat)
    requires Inv(w, c) && Inv(w', c) && w'.s == w.s && w'.ps == w.ps
    requires Reached(w) < n <= w.s.channels[c].launched && WindowOf(n) <= WindowOf(Reached(w')) + 6
    ensures Acknowledges(Wire(Reached(w')), Wire(n))
  {
    hide Valid, Orderly, Spared, Follows, EndOf, WindowOf, Held, Known, Settled, LaidOut, Drained;
    SenderStaysNear(w, c);
    ShapeOf(w', c);
    var reached := Reached(w');
    assert Received(w'.r, reached, reached);
    WindowsMonotone(reached, w.s.channels[c].launched);
    WindowsMonotone(Reached(w), n);
    WindowsClose(reached, n);
    WindowsClose(n, reached);
    AcknowledgedIff(reached, n);
  }

  /** Where there is room such a command is kept, and acknowledged if it is then less than seven
      windows ahead. */
  lemma DueIsKept(w: World, c: byte, x: Message, limit: nat)
    requires Inv(w, c) && Due(w, x, limit)
    ensures Enabled(w, c, Arrive(x, limit, true))
    ensures var w' := After(w, c, Arrive(x, limit, true));
            && Inv(w', c) && |w.delivered| <= |w'.delivered| && w'.ps == w.ps
            && Received(w'.r, Reached(w'), x.serial)
            && (x.serial in w'.acks <== WindowOf(x.serial) <= WindowOf(Reached(w')) + 6)
            && (forall n :: Received(w.r, Reached(w), n) ==> Received(w'.r, Reached(w'), n))
  {
    hide Valid, Orderly, Held, Known, Follows, LaidOut, EndOf, Settled, Received, WindowOf, Drained, Respond, Handles,
         Spared, Begun;
    DueIsEnabled(w, c, x, limit);
    StepIsDefined(w, c, Arrive(x, limit, true));
    ArriveKeepsInv(w, c, x, limit, true);
    var m := |w.delivered|;
    DueIsTaken(w.r, w.ps, m, x, limit);
    RespondArrives(w.r, w.ps, m, x, limit, true);
    var w' := After(w, c, Arrive(x, limit, true));
    HandledReceives(w.r, Respond(w.r, x, limit, true), w.ps, m, x.serial);
    ShapeOf(w', c);
    if WindowOf(x.serial) <= WindowOf(Reached(w')) + 6 {
      LeadIsSmall(w, w', c, x.serial);
    }
  }

  /** The next packet is dispatched as soon as the last of its commands arrives and there is room. */
  lemma LastMissingDelivers(w: World, c: byte, x: Message, limit: nat)
    requires Inv(w, c) && |w.delivered| < |w.ps| && x in w.air
    requires (ShapeOf(w, c); Reached(w) < x.serial <= EndOf(w.ps, |w.delivered| + 1))
    requires |w.ps[|w.delivered|].data| <= limit
    requires forall n: nat :: Reached(w) < n <= EndOf(w.ps, |w.delivered| + 1) && n != x.serial ==>
               Received(w.r, Reached(w), n)
    ensures Enabled(w, c, Arrive(x, limit, true))
    ensures var w' := After(w, c, Arrive(x, limit, true));
            && |w.delivered| < |w'.delivered| <= |w.ps|
            && forall i :: 0 <= i < |w'.delivered| ==> w'.delivered[i] == w.ps[i].data
  {
    hide Valid, Orderly, Held, Follows, LaidOut, EndOf, Settled, Received, WindowOf, Drained, Respond, Spared;
    ShapeOf(w, c);
    var m := |w.delivered|;
    AtIsUnique(w.ps, x.serial, m);
    EndStep(w.ps, m);
    NextIsNear(Reached(w));
    DueIsKept(w, c, x, limit);
    var w' := After(w, c, Arrive(x, limit, true));
    if |w'.delivered| == m {
      ReceivedIsDispatched(w'.r, w'.ps, m);
    }
  }

  lemma NextIsNear(n: nat)
    ensures WindowOf(n + 1) <= WindowOf(n) + 1
  {
  }

  /** So it is in every state of every run. */
  lemma NextPacketIsDelivered(start: World, c: byte, run: seq<Step>, x: Message, limit: nat)
    requires IsRun(start, c, run)
    requires var w := Outcome(start, c, run);
             && |w.delivered| < |w.ps| && x in w.air && |w.ps[|w.delivered|].data| <= limit
             && AllCuttable(w.ps)
             && Reached(w) < x.serial <= EndOf(w.ps, |w.delivered| + 1)
             && forall n: nat :: Reached(w) < n <= EndOf(w.ps, |w.delivered| + 1) && n != x.serial ==>
                  Received(w.r, Reached(w), n)
    ensures var w := Outcome(start, c, run);
            && Inv(w, c) && Enabled(w, c, Arrive(x, limit, true))
            && var w' := After(w, c, Arrive(x, limit, true));
            && |w.delivered| < |w'.delivered| <= |w.ps|
            && forall i :: 0 <= i < |w'.delivered| ==> w'.delivered[i] == w.ps[i].data
  {
    hide Inv, Starts, EndOf, Received;
    OutcomeInv(start, c, run);
    LastMissingDelivers(Outcome(start, c, run), c, x, limit);
  }
}
