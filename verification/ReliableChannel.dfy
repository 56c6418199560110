/** What every run of a channel keeps: the theorems about the steps of Delivery. */
module ReliableChannel {
  import opened Words
  import opened Windows
  import opened Outgoing
  import opened FlightWindow
  import opened SendPass
  import opened PassInvariant
  import opened Resend
  import opened Incoming
  import opened ReceiveOrder
  import opened Parcels
  import opened Layout
  import opened Receiving
  import opened Arrivals
  import opened Delivery

  /** A run of the channel from a fresh connection. */
  ghost predicate IsRun(start: World, c: byte, run: seq<Step>) {
    Starts(start, c) && (StartsInv(start, c); AllEnabled(start, c, run))
  }

  /** Where it leads. */
  ghost function Outcome(start: World, c: byte, run: seq<Step>): World
    requires IsRun(start, c, run)
  {
    StartsInv(start, c);
    AfterAll(start, c, run)
  }

  lemma OutcomeInv(start: World, c: byte, run: seq<Step>)
    requires IsRun(start, c, run)
    ensures Inv(Outcome(start, c, run), c)
  {
    hide Inv, Starts;
    StartsInv(start, c);
    RunKeepsInv(start, c, run);
  }

  /** Reliable delivery: after any run, whatever was lost, repeated and reordered, the packets
      dispatched are the first ones queued, whole and in order. */
  lemma DeliveredIsPrefix(start: World, c: byte, run: seq<Step>)
    requires IsRun(start, c, run)
    ensures var w := Outcome(start, c, run);
            && |w.delivered| <= |w.ps|
            && forall i :: 0 <= i < |w.delivered| ==> w.delivered[i] == w.ps[i].data
  {
    hide IsRun, Outcome, SenderInv, Follows;
    OutcomeInv(start, c, run);
  }

  /** The sender never gets more than seven windows ahead of what the receiver has dispatched, so
      no number is in doubt. */
  lemma SenderNearReceiver(start: World, c: byte, run: seq<Step>)
    requires IsRun(start, c, run)
    ensures var w := Outcome(start, c, run);
            && c < |w.s.channels| && AllCuttable(w.ps) && |w.delivered| <= |w.ps|
            && WindowOf(w.s.channels[c].launched) <= WindowOf(Reached(w)) + 7
  {
    hide IsRun, Outcome, Follows, Valid, WindowOf;
    OutcomeInv(start, c, run);
    SenderStaysNear(Outcome(start, c, run), c);
    PartsOf(Outcome(start, c, run).ps);
  }

  /** So a packet that reaches further beyond those before it is never dispatched, nor is any after
      it: the channel stalls. Every packet of 32768 or more fragments does, although up to 1048576 are
      accepted. */
  lemma LongPacketStalls(start: World, c: byte, run: seq<Step>, i: nat)
    requires IsRun(start, c, run) && i < |Outcome(start, c, run).ps|
    ensures var w := Outcome(start, c, run);
            && AllCuttable(w.ps)
            && (WindowOf(EndOf(w.ps, i + 1)) > WindowOf(EndOf(w.ps, i)) + 7 ==> |w.delivered| <= i)
            && (Count(w.ps[i]) >= 8 * RELIABLE_WINDOW_SIZE ==> |w.delivered| <= i)
  {
    hide Inv, WindowOf, EndOf, Count, Starts;
    StartsInv(start, c);
    ShapeOf(start, c);
    StartsShort(start, c);
    RunKeepsShort(start, c, run);
    OutcomeInv(start, c, run);
    var w := Outcome(start, c, run);
    ShapeOf(w, c);
    EndStep(w.ps, i);
    EightWindows(EndOf(w.ps, i), EndOf(w.ps, i + 1));
  }

  lemma StartsShort(start: World, c: byte)
    requires Starts(start, c)
    ensures start.delivered == [] && start.ps == []
  {
  }

  lemma EightWindows(a: nat, b: nat)
    requires a <= b
    ensures b - a >= 8 * RELIABLE_WINDOW_SIZE ==> WindowOf(b) > WindowOf(a) + 7
  {
  }

  // ---- nothing is lost ----

  lemma {:induction false} WaitingHas(c: nat, a: seq<OutgoingCommand>)
    requires Waiting(c, a) != []
    ensures exists i :: 0 <= i < |a| && Unsent(a[i], c)
  {
    if a != [] && !Unsent(a[0], c) {
      WaitingHas(c, a[1..]);
      var i :| 0 <= i < |a[1..]| && Unsent(a[1..][i], c);
      assert a[i + 1] == a[1..][i];
    }
  }

  ghost predicate HoldsNone(s: Sender, c: nat) {
    forall m :: m in Held(s) ==> !Reliable(m, c)
  }

  lemma NoneInFlight(s: Sender, c: nat)
    requires HoldsNone(s, c)
    ensures InFlight(s, c) == multiset{} && Waiting(c, s.outgoing) == []
  {
    forall n | n in InFlight(s, c) ensures false {
      FlightHas(c, s.outgoing, n);
      FlightHas(c, s.sent, n);
      if n in Flight(c, s.outgoing) {
        var i :| 0 <= i < |s.outgoing| && Attempted(s.outgoing[i], c) && s.outgoing[i].message.serial == n;
        HeldAt(s, s.outgoing[i]);
      } else {
        var i :| 0 <= i < |s.sent| && Attempted(s.sent[i], c) && s.sent[i].message.serial == n;
        HeldAt(s, s.sent[i]);
      }
    }
    if Waiting(c, s.outgoing) != [] {
      WaitingHas(c, s.outgoing);
      var i :| 0 <= i < |s.outgoing| && Unsent(s.outgoing[i], c);
      HeldAt(s, s.outgoing[i]);
    }
  }

  lemma HeldAt(s: Sender, x: OutgoingCommand)
    requires x in s.outgoing || x in s.sent
    ensures x.message in Held(s)
  {
    assert x in s.outgoing + s.sent;
  }

  lemma AllSettled(s: Sender, c: nat, n: nat)
    requires Orderly(s, c) && HoldsNone(s, c) && 1 <= n <= s.channels[c].issued
    ensures Settled(s, c, n)
  {
    hide FlightBound, Flight, HoldsNone;
    NoneInFlight(s, c);
    var ch := s.channels[c];
    assert |Following(ch.launched, ch.issued)| == 0;
  }

  /** The queued command that covers a serial is its packet's. */
  lemma CoverIsPacket(r: Receiver, ps: seq<Parcel>, m: nat, i: nat, n: nat, j: nat)
    requires Follows(r, ps, m) && i < |r.queue| && Covers(r.queue[i], EndOf(ps, m) + Ahead(r.queue, r.number, i), n)
    requires j < |ps| && EndOf(ps, j) < n <= EndOf(ps, j + 1)
    ensures EndOf(ps, m) + Ahead(r.queue, r.number, i) == ps[j].first && Holds(r.queue[i], ps[j])
  {
    hide EndOf, At, Within, Count, Sorted, Wire, Holds;
    EntryPlace(r, ps, m, i);
    var first := EndOf(ps, m) + Ahead(r.queue, r.number, i);
    SpanIsCount(ps, r.queue[i], first);
    AtContains(ps, first);
    EndStep(ps, At(ps, first));
    AtIsUnique(ps, n, At(ps, first));
    AtIsUnique(ps, n, j);
  }

  /** If every command of the packet after those dispatched has been received, it is complete at
      the head of the queue, and would have been dispatched. */
  lemma ReceivedIsDispatched(r: Receiver, ps: seq<Parcel>, m: nat)
    requires Follows(r, ps, m) && m < |ps|
    requires forall n: nat :: EndOf(ps, m) < n <= EndOf(ps, m + 1) ==> Received(r, EndOf(ps, m), n)
    ensures !Drained(r.queue, r.number)
  {
    hide EndOf, At, Within, Count, Sorted, Wire, Covers, HoldsPart, EntriesHold;
    EndStep(ps, m);
    var reached := EndOf(ps, m);
    var p := ps[m];
    assert Received(r, reached, p.first);
    var i :| 0 <= i < |r.queue| && Covers(r.queue[i], reached + Ahead(r.queue, r.number, i), p.first);
    CoverIsPacket(r, ps, m, i, p.first, m);
    HeadOfQueue(r, i);
    var x := r.queue[i];
    if !Uncut(p) {
      forall k: nat | k < Count(p) ensures x.got[k] {
        var n := p.first + k;
        assert Received(r, reached, n);
        var h :| 0 <= h < |r.queue| && Covers(r.queue[h], reached + Ahead(r.queue, r.number, h), n);
        CoverIsPacket(r, ps, m, h, n, m);
        SamePlace(r, i, h);
        GotCovered(x, p.first, n);
      }
      NoneMissing(x.got);
    }
    NextIsOneAhead(x, r.number);
  }

  lemma GotCovered(x: IncomingCommand, first: nat, n: nat)
    requires Covers(x, first, n) && x.fragmented
    ensures first <= n && n - first < |x.got| && x.got[n - first]
  {
  }

  lemma SamePlace(r: Receiver, i: nat, h: nat)
    requires Sorted(r.queue, r.number) && i < |r.queue| && h < |r.queue|
    requires Ahead(r.queue, r.number, i) == Ahead(r.queue, r.number, h)
    ensures i == h
  {
    hide Distance, Admits;
    SpanIsPositive(r.queue[i]);
    SpanIsPositive(r.queue[h]);
  }

  lemma HeadOfQueue(r: Receiver, i: nat)
    requires Sorted(r.queue, r.number) && i < |r.queue| && Ahead(r.queue, r.number, i) == 1
    ensures i == 0
  {
    hide Distance, Admits;
    if i > 0 {
      SpanIsPositive(r.queue[0]);
    }
  }

  /** Nothing is lost: once the sender has no reliable command of the channel left, every packet
      it ever queued has been dispatched. */
  lemma NothingIsLost(start: World, c: byte, run: seq<Step>)
    requires IsRun(start, c, run)
    ensures var w := Outcome(start, c, run);
            HoldsNone(w.s, c) ==> |w.delivered| == |w.ps| && forall i :: 0 <= i < |w.ps| ==>
              w.delivered[i] == w.ps[i].data
  {
    hide IsRun, Outcome, Valid, Follows, HoldsNone, Received, Settled, WindowOf, EndOf, Drained, LaidOut;
    OutcomeInv(start, c, run);
    var w := Outcome(start, c, run);
    var m := |w.delivered|;
    PartsOf(w.ps);
    if HoldsNone(w.s, c) && m < |w.ps| {
      EndsGrow(w.ps, m + 1, |w.ps|);
      forall n: nat | EndOf(w.ps, m) < n <= EndOf(w.ps, m + 1) ensures Received(w.r, EndOf(w.ps, m), n) {
        AllSettled(w.s, c, n);
      }
      ReceivedIsDispatched(w.r, w.ps, m);
    }
  }

  // ---- the hypotheses on stale datagrams are exact ----

  /** The first number ahead of those dispatched that is written as this one. */
  function Alias(reached: nat, first: nat): nat
    requires first <= reached
  {
    first + ((reached - first) / NUMBERS + 1) * NUMBERS
  }

  /** A command behind the receiver, however far, is taken for a new one if and only if the number
      it is mistaken for is at most six windows ahead; within 65536 numbers that is, if and only if
      it is more than nine windows behind. */
  lemma StaleIsTaken(reached: nat, first: nat)
    requires first <= reached
    ensures reached < Alias(reached, first) <= reached + NUMBERS && Wire(Alias(reached, first)) == Wire(first)
    ensures TakenForNew(Wire(reached), Wire(first)) <==> WindowOf(Alias(reached, first)) <= WindowOf(reached) + 6
    ensures reached < first + NUMBERS ==>
              (TakenForNew(Wire(reached), Wire(first)) <==> WindowOf(reached) > WindowOf(first) + 9)
  {
    var alias := Alias(reached, first);
    AliasIsNext(reached, first);
    assert WindowOf(reached + NUMBERS) == WindowOf(reached) + RELIABLE_WINDOWS;
    if reached < first + NUMBERS {
      assert alias == first + NUMBERS && WindowOf(alias) == WindowOf(first) + RELIABLE_WINDOWS;
    }
    hide Wire, WindowOf, Alias;
    if alias < reached + NUMBERS {
      AheadOfBase(reached, alias);
      if Wire(alias) == Wire(reached) {
        WireIsInjective(alias, reached);
        assert false;
      }
      WindowsMonotone(reached, alias);
    } else {
      NextTurnIsSame(reached);
    }
  }

  lemma AliasIsNext(reached: nat, first: nat)
    requires first <= reached
    ensures reached < Alias(reached, first) <= reached + NUMBERS && Wire(Alias(reached, first)) == Wire(first)
  {
    var turns := (reached - first) / NUMBERS;
    Congruent(first + (turns + 1) * NUMBERS, first);
    assert ((turns + 1) * NUMBERS) % NUMBERS == 0;
  }

  lemma NextTurnIsSame(n: nat)
    ensures Wire(n + NUMBERS) == Wire(n)
  {
  }

  /** An acknowledgement settles a command it was not sent for if and only if the command in
      flight is exactly a multiple of 65536 numbers later. */
  lemma StaleAcknowledges(s: Sender, c: byte, n: nat, x: nat)
    requires Orderly(s, c) && 1 <= n <= s.channels[c].launched && x in InFlight(s, c) && x != n
    ensures Names(s, c, Wire(n), x) <==> x > n && (x - n) % NUMBERS == 0
  {
    hide Valid, InFlight, WindowHasGap;
    BoundOf(s, c);
    FlightIsNear(x, s.channels[c].launched);
    SameWire(n, x);
  }

  lemma SameWire(n: nat, x: nat)
    requires x != n && n < x + NUMBERS
    ensures Wire(x) == Wire(n) <==> x > n && (x - n) % NUMBERS == 0
  {
    if x < n {
      if Wire(x) == Wire(n) {
        WireIsInjective(x, n);
        assert false;
      }
    } else {
      Congruent(x, n);
    }
  }

  lemma Congruent(x: nat, n: nat)
    requires n <= x
    ensures Wire(x) == Wire(n) <==> (x - n) % NUMBERS == 0
  {
    assert x - n == (x / NUMBERS - n / NUMBERS) * NUMBERS + (Wire(x) - Wire(n));
  }
}
