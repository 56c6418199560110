/** A command of the channel arrives: whatever was lost, repeated or reordered before it, the
    receiver goes on holding the channel's packets in their places. */
module Arrivals {
  import opened Words
  import opened Windows
  import opened Incoming
  import opened ReceiveOrder
  import opened Parcels
  import opened Layout
  import opened Receiving

  /** How a serial lies to those dispatched. */
  lemma AheadOrBehind(ps: seq<Parcel>, m: nat, n: nat)
    requires LaidOut(ps) && m <= |ps| && Within(ps, n)
    ensures At(ps, n) < |ps| && Cuttable(ps[At(ps, n)])
    ensures var p := ps[At(ps, n)];
            && p.first <= n < p.first + Count(p)
            && (n > EndOf(ps, m) ==> p.first > EndOf(ps, m))
            && (n <= EndOf(ps, m) ==> p.first + Count(p) <= EndOf(ps, m) + 1)
  {
    hide Count, At, EndOf;
    AtContains(ps, n);
    var j := At(ps, n);
    EndStep(ps, j);
    if j < m {
      EndsGrow(ps, j + 1, m);
    } else {
      EndsGrow(ps, m, j);
    }
  }

  /** What is not taken for new changes nothing. */
  lemma NotNewIsUnwanted(r: Receiver, number: u16)
    requires Sorted(r.queue, r.number) && !TakenForNew(r.number, number)
    ensures !Wanted(r, number)
    ensures Admits(r.number, number) ==> !AlreadyQueued(r.queue, Place(r.queue, r.number, number), number)
  {
    hide Admits, Distance;
    if number == r.number {
      PlaceFinds(r.queue, r.number, number);
      QueueDistances(r.queue, r.number);
      OwnDistance(number);
    }
  }

  lemma OwnDistance(n: u16)
    ensures Distance(n, n) == 0
  {
  }

  lemma EntryPlace(r: Receiver, ps: seq<Parcel>, m: nat, i: nat)
    requires Follows(r, ps, m) && i < |r.queue|
    ensures var n := EndOf(ps, m) + Ahead(r.queue, r.number, i);
            && Entry(ps, r.queue[i], n) && r.queue[i].number == Wire(n) && n < EndOf(ps, m) + NUMBERS
  {
    hide Sorted, At, EndOf, Wire, Within;
  }

  /** A queued command with a packet's first number is that packet. */
  lemma QueuedIsPacket(r: Receiver, ps: seq<Parcel>, m: nat, i: nat, first: nat)
    requires Follows(r, ps, m) && i < |r.queue| && r.queue[i].number == Wire(first)
    requires EndOf(ps, m) < first < EndOf(ps, m) + NUMBERS
    ensures Ahead(r.queue, r.number, i) == first - EndOf(ps, m)
    ensures Entry(ps, r.queue[i], first)
  {
    hide Sorted, At, EndOf, Wire, Within, Entry;
    EntryPlace(r, ps, m, i);
    WireIsInjective(EndOf(ps, m) + Ahead(r.queue, r.number, i), first);
  }

  lemma NewIsApart(r: Receiver, ps: seq<Parcel>, m: nat, j: nat, x: IncomingCommand)
    requires Follows(r, ps, m) && j < |ps| && Cuttable(ps[j]) && Holds(x, ps[j]) && Wanted(r, x.number)
    requires EndOf(ps, m) < ps[j].first < EndOf(ps, m) + NUMBERS
    ensures Distance(r.number, x.number) == ps[j].first - EndOf(ps, m)
    ensures Entry(ps, x, ps[j].first)
    ensures Apart(r.queue, r.number, x)
  {
    hide Sorted, EndOf, Wire, Distance, Admits, Within, At, Count, Span;
    var first := ps[j].first;
    FirstIsAt(ps, j);
    AheadOfBase(EndOf(ps, m), first);
    PlaceFinds(r.queue, r.number, x.number);
    SpanIsCount(ps, x, first);
    forall i | 0 <= i < |r.queue|
      ensures || Ahead(r.queue, r.number, i) + Span(r.queue[i]) <= Distance(r.number, x.number)
              || Distance(r.number, x.number) + Span(x) <= Ahead(r.queue, r.number, i)
    {
      EntryPlace(r, ps, m, i);
      var n := EndOf(ps, m) + Ahead(r.queue, r.number, i);
      SpanIsCount(ps, r.queue[i], n);
      if At(ps, n) != j {
        PacketsApart(ps, At(ps, n), j);
      }
    }
  }

  lemma Shifted<T>(q: seq<T>, p: nat, x: T, i: nat)
    requires p <= |q| && i < |q| + 1
    ensures (q[..p] + [x] + q[p..])[i] == if i < p then q[i] else if i == p then x else q[i - 1]
  {
  }

  /** A wanted command is inserted in its place. */
  lemma InsertFollows(r: Receiver, ps: seq<Parcel>, m: nat, j: nat, x: IncomingCommand)
    requires Follows(r, ps, m) && j < |ps| && Cuttable(ps[j]) && Holds(x, ps[j]) && Wanted(r, x.number)
    requires EndOf(ps, m) < ps[j].first < EndOf(ps, m) + NUMBERS
    ensures var p := Place(r.queue, r.number, x.number); var r' := InsertAt(r, p, x);
            && Follows(r', ps, m)
            && r'.queue[p] == x && Ahead(r'.queue, r'.number, p) == ps[j].first - EndOf(ps, m)
            && (forall n :: Received(r, EndOf(ps, m), n) ==> Received(r', EndOf(ps, m), n))
            && (forall n :: Received(r', EndOf(ps, m), n) ==> Received(r, EndOf(ps, m), n) || Covers(x, ps[j].first, n))
  {
    hide Sorted, EndOf, Wire, Distance, Admits, Entry, At, Apart, EntryOk, Covers, Received;
    NewIsApart(r, ps, m, j, x);
    InsertKeepsSorted(r.queue, r.number, x);
    var p := Place(r.queue, r.number, x.number);
    var r' := InsertAt(r, p, x);
    forall i | 0 <= i < |r'.queue| ensures Entry(ps, r'.queue[i], EndOf(ps, m) + Ahead(r'.queue, r'.number, i)) {
      Shifted(r.queue, p, x, i);
      if i < p {
        EntryPlace(r, ps, m, i);
      } else if i > p {
        EntryPlace(r, ps, m, i - 1);
      }
    }
    forall n: nat | Received(r, EndOf(ps, m), n) ensures Received(r', EndOf(ps, m), n) {
      InsertKeepsReceived(r, p, x, EndOf(ps, m), n);
    }
    forall n: nat | Received(r', EndOf(ps, m), n) ensures Received(r, EndOf(ps, m), n) || Covers(x, ps[j].first, n) {
      InsertReceives(r, p, x, EndOf(ps, m), n);
    }
  }

  lemma InsertReceives(r: Receiver, p: nat, x: IncomingCommand, reached: nat, n: nat)
    requires p <= |r.queue| && Received(InsertAt(r, p, x), reached, n)
    ensures Received(r, reached, n) || Covers(x, reached + Distance(r.number, x.number), n)
  {
    hide Distance, Covers;
    var r' := InsertAt(r, p, x);
    if n > reached {
      var k :| 0 <= k < |r'.queue| && Covers(r'.queue[k], reached + Ahead(r'.queue, r'.number, k), n);
      Shifted(r.queue, p, x, k);
      if k != p {
        var i := if k < p then k else k - 1;
        assert Covers(r.queue[i], reached + Ahead(r.queue, r.number, i), n);
      }
    }
  }

  lemma InsertKeepsReceived(r: Receiver, p: nat, x: IncomingCommand, reached: nat, n: nat)
    requires p <= |r.queue| && Received(r, reached, n)
    ensures Received(InsertAt(r, p, x), reached, n)
  {
    hide Distance, Covers;
    var r' := InsertAt(r, p, x);
    if n > reached {
      var i :| 0 <= i < |r.queue| && Covers(r.queue[i], reached + Ahead(r.queue, r.number, i), n);
      var k := if i < p then i else i + 1;
      Shifted(r.queue, p, x, k);
      assert Covers(r'.queue[k], reached + Ahead(r'.queue, r'.number, k), n);
    }
  }

  /** A fragment completes its packet's command a little more. */
  lemma FillFollows(r: Receiver, ps: seq<Parcel>, m: nat, i: nat, j: nat, k: nat)
    requires Follows(r, ps, m) && i < |r.queue| && j < |ps| && Cuttable(ps[j]) && !Uncut(ps[j]) && k < Count(ps[j])
    requires Ahead(r.queue, r.number, i) == ps[j].first - EndOf(ps, m) && ps[j].first > EndOf(ps, m)
    ensures Entry(ps, r.queue[i], ps[j].first) && Holds(r.queue[i], ps[j])
    ensures var f := FragmentOf(ps[j], k);
            && SamePacket(r.queue[i], f) && f.offset + |f.data| <= |r.queue[i].data| && EntryOk(r.queue[i])
            && var r' := r.(queue := r.queue[i := Fill(r.queue[i], f)]);
            && Follows(r', ps, m)
            && (forall n :: Received(r', EndOf(ps, m), n) <==> Received(r, EndOf(ps, m), n) || n == ps[j].first + k)
  {
    hide EndOf, Wire, Distance, Admits, At, HoldsPart, Count, Fill, Sorted, Within, Covers;
    FirstIsAt(ps, j);
    EntryPlace(r, ps, m, i);
    var x := r.queue[i];
    FillHolds(x, ps[j], k);
    var f := FragmentOf(ps[j], k);
    var y := Fill(x, f);
    var r' := r.(queue := r.queue[i := y]);
    FilledQueue(r, i, y);
    forall h | 0 <= h < |r'.queue| ensures Entry(ps, r'.queue[h], EndOf(ps, m) + Ahead(r'.queue, r'.number, h)) {
      EntryPlace(r, ps, m, h);
    }
    forall n: nat ensures Received(r', EndOf(ps, m), n) ==> Received(r, EndOf(ps, m), n) || n == ps[j].first + k
      ensures Received(r, EndOf(ps, m), n) ==> Received(r', EndOf(ps, m), n)
    {
      FillReceives(r, i, y, k, EndOf(ps, m), n);
    }
    CoversPiece(y, ps[j], k);
    assert Covers(r'.queue[i], EndOf(ps, m) + Ahead(r'.queue, r'.number, i), ps[j].first + k);
  }

  lemma FillReceives(r: Receiver, i: nat, y: IncomingCommand, k: nat, reached: nat, n: nat)
    requires i < |r.queue| && y.number == r.queue[i].number
    requires var x := r.queue[i];
             x.fragmented == y.fragmented && x.count == y.count && k < |x.got| && y.got == x.got[k := true]
    ensures var r' := r.(queue := r.queue[i := y]);
            && (Received(r, reached, n) ==> Received(r', reached, n))
            && (Received(r', reached, n) ==> Received(r, reached, n) || n == reached + Ahead(r.queue, r.number, i) + k)
  {
    hide Distance, Covers;
    var r' := r.(queue := r.queue[i := y]);
    CoversMore(r.queue[i], y, reached + Ahead(r.queue, r.number, i), n, k);
    assert forall h :: 0 <= h < |r.queue| ==> Ahead(r'.queue, r'.number, h) == Ahead(r.queue, r.number, h);
    if n > reached {
      if h :| 0 <= h < |r.queue| && Covers(r.queue[h], reached + Ahead(r.queue, r.number, h), n) {
        assert Covers(r'.queue[h], reached + Ahead(r'.queue, r'.number, h), n);
      }
      if h :| 0 <= h < |r'.queue| && Covers(r'.queue[h], reached + Ahead(r'.queue, r'.number, h), n) {
        assert h != i ==> Covers(r.queue[h], reached + Ahead(r.queue, r.number, h), n);
      }
    }
  }

  lemma CoversMore(x: IncomingCommand, y: IncomingCommand, first: nat, n: nat, k: nat)
    requires x.fragmented == y.fragmented && x.count == y.count && k < |x.got| && y.got == x.got[k := true]
    ensures Covers(x, first, n) ==> Covers(y, first, n)
    ensures Covers(y, first, n) && n != first + k ==> Covers(x, first, n)
  {
  }

  lemma CoversPiece(y: IncomingCommand, p: Parcel, k: nat)
    requires Cuttable(p) && !Uncut(p) && Holds(y, p) && k < Count(p) && y.got[k]
    ensures Covers(y, p.first, p.first + k)
  {
    hide Count, HoldsPart;
  }

  lemma FilledQueue(r: Receiver, i: nat, y: IncomingCommand)
    requires i < |r.queue| && Sorted(r.queue, r.number) && EntriesOk(r) && EntryOk(y)
    requires y.number == r.queue[i].number && y.count == r.queue[i].count
    ensures Sorted(r.queue[i := y], r.number) && EntriesOk(r.(queue := r.queue[i := y]))
    ensures forall h :: 0 <= h < |r.queue| ==> Ahead(r.queue[i := y], r.number, h) == Ahead(r.queue, r.number, h)
  {
    hide Distance, Admits, EntryOk;
    var q := r.queue[i := y];
    forall h, l | 0 <= h < l < |q| ensures Ahead(q, r.number, h) + Span(q[h]) <= Ahead(q, r.number, l) {
      assert Ahead(r.queue, r.number, h) + Span(r.queue[h]) <= Ahead(r.queue, r.number, l);
    }
  }

  // ---- one arrival ----

  /** Nothing received is forgotten, and nothing but n added. */
  ghost predicate Receives(r: Receiver, reached: nat, r': Receiver, reached': nat, n: nat) {
    && (forall x: nat :: Received(r, reached, x) ==> Received(r', reached', x))
    && (forall x: nat :: Received(r', reached', x) ==> Received(r, reached, x) || x == n)
  }

  /** The command is new, and its packet begins where the receiver takes numbers. */
  predicate Begun(r: Receiver, ps: seq<Parcel>, m: nat, n: nat)
    requires LaidOut(ps) && m <= |ps|
  {
    n > EndOf(ps, m) && At(ps, n) < |ps| && Admits(r.number, Wire(ps[At(ps, n)].first))
  }

  /** What handling a command does: the packets dispatched are the next ones, what has been received
      grows by nothing but the command, by that too unless it is refused or its packet begins seven
      windows ahead, and it is acknowledged only if it has been received and is less than seven windows
      ahead. */
  ghost predicate Handles(r: Receiver, h: Handled, ps: seq<Parcel>, m: nat, n: nat) {
    var k := |h.dispatched|;
    && LaidOut(ps) && m + k <= |ps|
    && (forall j :: 0 <= j < k ==> h.dispatched[j].data == ps[m + j].data)
    && Follows(h.r, ps, m + k) && Drained(h.r.queue, h.r.number)
    && EndOf(ps, m) <= EndOf(ps, m + k)
    && Receives(r, EndOf(ps, m), h.r, EndOf(ps, m + k), n)
    && (h.ok && Begun(r, ps, m, n) ==> Received(h.r, EndOf(ps, m + k), n))
    && (h.ok && Acknowledges(h.r.number, Wire(n)) ==>
          Received(h.r, EndOf(ps, m + k), n) && WindowOf(n) <= WindowOf(EndOf(ps, m + k)) + 6)
  }

  /** The command of serial n may arrive: it is at most seven windows ahead of those dispatched,
      and, if its packet has been dispatched, the packet's first number is not taken for a new one. */
  predicate Arrivable(ps: seq<Parcel>, m: nat, n: nat) {
    && LaidOut(ps) && m <= |ps| && Within(ps, n) && At(ps, n) < |ps|
    && WindowOf(n) <= WindowOf(EndOf(ps, m)) + 7
    && (n <= EndOf(ps, m) ==> !TakenForNew(Wire(EndOf(ps, m)), Wire(ps[At(ps, n)].first)))
  }

  /** Silence about windows seven and eight ahead is enough: no other command that has been sent
      is that far ahead. */
  lemma AcknowledgedIsNear(reached: nat, n: nat)
    requires WindowOf(n) <= WindowOf(reached) + 7 && Acknowledges(Wire(reached), Wire(n))
    ensures WindowOf(n) <= WindowOf(reached) + 6
  {
    hide Wire;
    if n > reached {
      WindowsClose(reached, n);
      AheadOfBase(reached, n);
    } else {
      WindowsMonotone(n, reached);
    }
  }

  lemma WindowsClose(a: nat, b: nat)
    requires WindowOf(b) <= WindowOf(a) + 7
    ensures b < a + NUMBERS
  {
  }

  lemma AdmittedWhenNear(reached: nat, n: nat)
    requires reached <= n && WindowOf(n) <= WindowOf(reached) + 6
    ensures Admits(Wire(reached), Wire(n))
  {
    hide Wire;
    WindowsClose(reached, n);
    WindowsMonotone(reached, n);
    AheadOfBase(reached, n);
  }

  /** Nothing changes. */
  lemma LeavingAlone(r: Receiver, h: Handled, ps: seq<Parcel>, m: nat, n: nat)
    requires Follows(r, ps, m) && Drained(r.queue, r.number) && Arrivable(ps, m, n)
    requires h == Handled(r, [], h.ok)
    requires h.ok && Begun(r, ps, m, n) ==> Received(r, EndOf(ps, m), n)
    ensures Handles(r, h, ps, m, n)
  {
    hide Sorted, EndOf, Wire, Acknowledges, At, EntriesHold, Drained, WindowOf, Begun, Received;
    if h.ok && Acknowledges(r.number, Wire(n)) {
      AcknowledgedIsNear(EndOf(ps, m), n);
      if n > EndOf(ps, m) {
        NearIsBegun(r, ps, m, n);
      } else {
        DispatchedIsReceived(r, EndOf(ps, m), n);
      }
    }
  }

  lemma DispatchedIsReceived(r: Receiver, reached: nat, n: nat)
    requires n <= reached
    ensures Received(r, reached, n)
  {
  }

  /** A command less than seven windows ahead belongs to a packet that begins so. */
  lemma NearIsBegun(r: Receiver, ps: seq<Parcel>, m: nat, n: nat)
    requires Follows(r, ps, m) && Arrivable(ps, m, n) && n > EndOf(ps, m)
    requires WindowOf(n) <= WindowOf(EndOf(ps, m)) + 6
    ensures Begun(r, ps, m, n)
  {
    hide Sorted, EndOf, Wire, At, EntriesHold, WindowOf, Admits;
    AheadOrBehind(ps, m, n);
    NumberReached(r, ps, m);
    WindowsMonotone(ps[At(ps, n)].first, n);
    AdmittedWhenNear(EndOf(ps, m), ps[At(ps, n)].first);
  }

  /** Dispatching after the command has been received. */
  lemma DispatchHandles(r: Receiver, r': Receiver, ps: seq<Parcel>, m: nat, n: nat)
    requires Follows(r', ps, m) && Arrivable(ps, m, n)
    requires Receives(r, EndOf(ps, m), r', EndOf(ps, m), n)
    requires Received(r', EndOf(ps, m), n)
    ensures Handles(r, Dispatch(r'), ps, m, n)
  {
    hide Sorted, EndOf, Wire, Acknowledges, At, EntriesHold, Drained, Received, Ready, WindowOf;
    DispatchDelivers(r', ps, m);
    var h := Dispatch(r');
    var reached := EndOf(ps, m + |h.dispatched|);
    WindowsMonotone(EndOf(ps, m), reached);
    if Acknowledges(h.r.number, Wire(n)) {
      AcknowledgedIsNear(reached, n);
    }
  }

  lemma WholeHolds(p: Parcel)
    requires Cuttable(p) && Uncut(p)
    ensures Holds(IncomingCommand(Wire(p.first), false, 0, 0, [], p.data), p)
  {
  }

  /** An unfragmented command arrives. */
  lemma WholeArrives(r: Receiver, ps: seq<Parcel>, m: nat, n: nat, limit: nat, accepting: bool)
    requires Follows(r, ps, m) && Drained(r.queue, r.number) && Arrivable(ps, m, n) && Uncut(ps[At(ps, n)])
    ensures Handles(r, HandleReliable(r, Wire(n), ps[At(ps, n)].data, limit, accepting), ps, m, n)
  {
    hide Sorted, EndOf, Wire, At, EntriesHold, Drained, Place, Wanted, Handles, WindowOf, Follows, Dispatch, Holds;
    var reached := EndOf(ps, m);
    var p := ps[At(ps, n)];
    var h := HandleReliable(r, Wire(n), p.data, limit, accepting);
    AheadOrBehind(ps, m, n);
    CountOfUncut(p);
    NumberReached(r, ps, m);
    if n <= reached {
      NotNewIsUnwanted(r, Wire(n));
      LeavingAlone(r, h, ps, m, n);
    } else {
      WindowsClose(reached, n);
      if |p.data| > limit || !accepting || !Wanted(r, Wire(n)) {
        if !Wanted(r, Wire(n)) && Begun(r, ps, m, n) {
          UnwantedIsQueued(r, ps, m, n);
        }
        LeavingAlone(r, h, ps, m, n);
      } else {
        var x := IncomingCommand(Wire(n), false, 0, 0, [], p.data);
        WholeHolds(p);
        InsertFollows(r, ps, m, At(ps, n), x);
        var at := Place(r.queue, r.number, Wire(n));
        var r' := InsertAt(r, at, x);
        assert Covers(r'.queue[at], reached + Ahead(r'.queue, r'.number, at), n);
        WholeCovers(x, n);
        DispatchHandles(r, r', ps, m, n);
      }
    }
  }

  lemma WholeCovers(x: IncomingCommand, n: nat)
    requires !x.fragmented && x.count == 0
    ensures forall k :: Covers(x, n, k) ==> k == n
  {
  }

  lemma NumberReached(r: Receiver, ps: seq<Parcel>, m: nat)
    requires Follows(r, ps, m)
    ensures r.number == Wire(EndOf(ps, m)) && Sorted(r.queue, r.number) && EntriesOk(r)
  {
    hide Sorted, EndOf, Wire;
  }

  /** A command that is near but not wanted has been queued before. */
  lemma UnwantedIsQueued(r: Receiver, ps: seq<Parcel>, m: nat, n: nat)
    requires Follows(r, ps, m) && Arrivable(ps, m, n) && Uncut(ps[At(ps, n)]) && EndOf(ps, m) < n
    requires !Wanted(r, Wire(n)) && Begun(r, ps, m, n)
    ensures Received(r, EndOf(ps, m), n)
  {
    hide EndOf, Wire, At, EntriesHold, Admits, Distance, WindowOf;
    var reached := EndOf(ps, m);
    NumberReached(r, ps, m);
    WindowsClose(reached, n);
    AheadOfBase(reached, n);
    DistanceToSelf(r.number);
    AheadOrBehind(ps, m, n);
    CountOfUncut(ps[At(ps, n)]);
    var at := Place(r.queue, r.number, Wire(n));
    assert AlreadyQueued(r.queue, at, Wire(n));
    QueuedIsPacket(r, ps, m, at - 1, n);
    assert Covers(r.queue[at - 1], reached + Ahead(r.queue, r.number, at - 1), n);
  }

  lemma DistanceToSelf(n: u16)
    ensures Distance(n, n) == 0
  {
  }

  // ---- fragments ----

  /** Received without dispatching anything. */
  lemma KeptHandles(r: Receiver, r': Receiver, ps: seq<Parcel>, m: nat, n: nat)
    requires Follows(r', ps, m) && Drained(r'.queue, r'.number) && Arrivable(ps, m, n)
    requires Receives(r, EndOf(ps, m), r', EndOf(ps, m), n)
    requires Received(r', EndOf(ps, m), n)
    ensures Handles(r, Handled(r', [], true), ps, m, n)
  {
    hide Sorted, EndOf, Wire, Acknowledges, At, EntriesHold, Drained, Received, WindowOf;
    if Acknowledges(r'.number, Wire(n)) {
      AcknowledgedIsNear(EndOf(ps, m), n);
    }
  }

  lemma IncompleteWaits(r: Receiver, i: nat, y: IncomingCommand)
    requires i < |r.queue| && Drained(r.queue, r.number) && y.remaining > 0
    ensures Drained(r.queue[i := y], r.number)
  {
  }

  lemma FillHandles(r: Receiver, r1: Receiver, ps: seq<Parcel>, m: nat, i: nat, n: nat)
    requires Follows(r1, ps, m) && Drained(r1.queue, r1.number) && Arrivable(ps, m, n) && i < |r1.queue|
    requires Cuttable(ps[At(ps, n)]) && !Uncut(ps[At(ps, n)])
    requires var p := ps[At(ps, n)];
             && EndOf(ps, m) < p.first <= n < p.first + Count(p)
             && Ahead(r1.queue, r1.number, i) == p.first - EndOf(ps, m)
    requires Receives(r, EndOf(ps, m), r1, EndOf(ps, m), n)
    ensures var f := FragmentOf(ps[At(ps, n)], n - ps[At(ps, n)].first);
            && EntryOk(r1.queue[i]) && SamePacket(r1.queue[i], f) && f.index < f.count && f.offset + |f.data| <= f.total
            && Handles(r, FillAt(r1, i, f), ps, m, n)
  {
    hide Sorted, EndOf, Wire, At, EntriesHold, Drained, Received, WindowOf, Follows, Dispatch, Count, Uncut, Holds,
        Fill, Handles;
    var p := ps[At(ps, n)];
    var k: nat := n - p.first;
    FillFollows(r1, ps, m, i, At(ps, n), k);
    FragmentFits(p, k);
    var f := FragmentOf(p, k);
    var y := Fill(r1.queue[i], f);
    var r2 := r1.(queue := r1.queue[i := y]);
    if r1.queue[i].got[k] {
      FillAgain(r1, i, f);
      assert r2 == r1;
      KeptHandles(r, r1, ps, m, n);
    } else if y.remaining == 0 {
      DispatchHandles(r, r2, ps, m, n);
    } else {
      IncompleteWaits(r1, i, y);
      KeptHandles(r, r2, ps, m, n);
    }
  }

  lemma FillAgain(r: Receiver, i: nat, f: Fragment)
    requires i < |r.queue| && r.queue[i].fragmented && EntryOk(r.queue[i]) && f.index < r.queue[i].count
    requires f.offset + |f.data| <= |r.queue[i].data| && r.queue[i].got[f.index]
    ensures r.(queue := r.queue[i := Fill(r.queue[i], f)]) == r
  {
  }

  lemma NothingReady(r: Receiver, p: nat, x: IncomingCommand)
    requires p <= |r.queue| && Drained(r.queue, r.number) && x.remaining > 0
    ensures var r' := InsertAt(r, p, x); Drained(r'.queue, r'.number) && Dispatch(r') == Handled(r', [], true)
  {
    var r' := InsertAt(r, p, x);
    assert r'.queue[0] == if p == 0 then x else r.queue[0];
    assert r'.queue[0..] == r'.queue;
  }

  /** A fragment arrives. */
  lemma FragmentArrives(r: Receiver, ps: seq<Parcel>, m: nat, n: nat, limit: nat, accepting: bool)
    requires Follows(r, ps, m) && Drained(r.queue, r.number) && Arrivable(ps, m, n)
    requires Cuttable(ps[At(ps, n)]) && !Uncut(ps[At(ps, n)])
    requires ps[At(ps, n)].first <= n < ps[At(ps, n)].first + Count(ps[At(ps, n)])
    ensures EntriesOk(r)
    ensures Handles(r, HandleFragment(r, FragmentOf(ps[At(ps, n)], n - ps[At(ps, n)].first), limit, accepting), ps, m,
                    n)
  {
    hide Sorted, EndOf, Wire, At, Drained, Place, Wanted, Handles, WindowOf, Follows, Dispatch, Holds, Count, Uncut,
        FragmentOf, FragmentOk, FillAt, EntryOk, SamePacket, Admits;
    NumberReached(r, ps, m);
    var reached := EndOf(ps, m);
    var p := ps[At(ps, n)];
    var f := FragmentOf(p, n - p.first);
    var h := HandleFragment(r, f, limit, accepting);
    FragmentStart(p, n - p.first);
    AheadOrBehind(ps, m, n);
    if n <= reached {
      NotNewIsUnwanted(r, Wire(p.first));
      LeavingAlone(r, h, ps, m, n);
    } else {
      NewOrFilled(r, ps, m, n, limit, accepting);
    }
  }

  lemma FragmentStart(p: Parcel, k: nat)
    requires Cuttable(p) && !Uncut(p) && k < Count(p)
    ensures FragmentOf(p, k).start == Wire(p.first)
  {
  }

  lemma NewOrFilled(r: Receiver, ps: seq<Parcel>, m: nat, n: nat, limit: nat, accepting: bool)
    requires Follows(r, ps, m) && Drained(r.queue, r.number) && Arrivable(ps, m, n)
    requires Cuttable(ps[At(ps, n)]) && !Uncut(ps[At(ps, n)])
    requires EndOf(ps, m) < ps[At(ps, n)].first <= n < ps[At(ps, n)].first + Count(ps[At(ps, n)])
    ensures EntriesOk(r)
    ensures Handles(r, HandleFragment(r, FragmentOf(ps[At(ps, n)], n - ps[At(ps, n)].first), limit, accepting), ps, m,
                    n)
  {
    hide Sorted, EndOf, Wire, At, Drained, Place, Wanted, Handles, WindowOf, Follows, Dispatch, Holds, Count, Uncut,
        FragmentOf, FragmentOk, FillAt, EntryOk, SamePacket, Admits, Blank, Received;
    NumberReached(r, ps, m);
    var reached := EndOf(ps, m);
    var p := ps[At(ps, n)];
    var f := FragmentOf(p, n - p.first);
    var h := HandleFragment(r, f, limit, accepting);
    FragmentStart(p, n - p.first);
    FragmentFits(p, n - p.first);
    WindowsMonotone(p.first, n);
    WindowsClose(reached, n);
    var at := Place(r.queue, r.number, f.start);
    if |f.data| > limit || (Admits(r.number, f.start) && !FragmentOk(f, limit)) {
      LeavingAlone(r, h, ps, m, n);
    } else if !Admits(r.number, f.start) {
      LeavingAlone(r, h, ps, m, n);
    } else if AlreadyQueued(r.queue, at, f.start) {
      QueuedIsPacket(r, ps, m, at - 1, p.first);
      FillHandles(r, r, ps, m, at - 1, n);
    } else if !Wanted(r, f.start) || !accepting {
      LeavingAlone(r, h, ps, m, n);
    } else {
      StartThenFill(r, ps, m, n, limit);
    }
  }

  lemma StartThenFill(r: Receiver, ps: seq<Parcel>, m: nat, n: nat, limit: nat)
    requires Follows(r, ps, m) && Drained(r.queue, r.number) && Arrivable(ps, m, n) && EntriesOk(r)
    requires Cuttable(ps[At(ps, n)]) && !Uncut(ps[At(ps, n)])
    requires EndOf(ps, m) < ps[At(ps, n)].first <= n < ps[At(ps, n)].first + Count(ps[At(ps, n)])
    requires var f := FragmentOf(ps[At(ps, n)], n - ps[At(ps, n)].first);
             && f.start == Wire(ps[At(ps, n)].first) && |f.data| <= limit && FragmentOk(f, limit)
             && Admits(r.number, f.start) && Wanted(r, f.start)
             && !AlreadyQueued(r.queue, Place(r.queue, r.number, f.start), f.start)
    ensures Handles(r, HandleFragment(r, FragmentOf(ps[At(ps, n)], n - ps[At(ps, n)].first), limit, true), ps, m, n)
  {
    hide Sorted, EndOf, Wire, At, Drained, Place, Wanted, Handles, WindowOf, Follows, Dispatch, Holds, Count, Uncut,
        FragmentOf, FragmentOk, FillAt, EntryOk, SamePacket, Admits, Received;
    var p := ps[At(ps, n)];
    var f := FragmentOf(p, n - p.first);
    var at := Place(r.queue, r.number, f.start);
    BlankHolds(p, n - p.first);
    FragmentFits(p, n - p.first);
    WindowsClose(EndOf(ps, m), n);
    InsertFollows(r, ps, m, At(ps, n), Blank(f));
    var r1 := InsertAt(r, at, Blank(f));
    NothingReady(r, at, Blank(f));
    BlankCovers(f, p.first);
    FillHandles(r, r1, ps, m, at, n);
    assert [] + FillAt(r1, at, f).dispatched == FillAt(r1, at, f).dispatched;
    FillIsOk(r1, at, f);
  }

  lemma BlankCovers(f: Fragment, first: nat)
    ensures forall k :: !Covers(Blank(f), first, k)
  {
  }
}
