/** No channel ever gets stuck: whatever has happened, all that is queued on it can still be delivered, as
    long as no packet is too long. */
module Completion {
  import opened Words
  import opened Windows
  import opened Outgoing
  import opened FlightWindow
  import opened SendPass
  import opened PassInvariant
  import opened FlowControl
  import opened Resend
  import opened Timeouts
  import opened Incoming
  import opened ReceiveOrder
  import opened Parcels
  import opened Layout
  import opened Receiving
  import opened Arrivals
  import opened Sending
  import opened DropSafety
  import opened Delivery
  import opened ReliableChannel
  import opened Acceptance
  import opened OnTheAir

  // ---- continuing a run ----

  lemma {:induction false} RunsJoin(w: World, c: byte, a: seq<Delivery.Step>, b: seq<Delivery.Step>)
    requires Inv(w, c) && AllEnabled(w, c, a)
    requires (RunKeepsInv(w, c, a); AllEnabled(AfterAll(w, c, a), c, b))
    ensures Inv(AfterAll(w, c, a), c) && AllEnabled(w, c, a + b)
    ensures AfterAll(w, c, a + b) == AfterAll(AfterAll(w, c, a), c, b)
    decreases |a|
  {
    hide Inv, Enabled, After;
    RunKeepsInv(w, c, a);
    if a == [] {
      assert a + b == b;
    } else {
      StepKeepsInv(w, c, a[0]);
      RunsJoin(After(w, c, a[0]), c, a[1..], b);
      assert (a + b)[0] == a[0] && (a + b)[1..] == a[1..] + b;
    }
  }

  /** Some run leads from one state to the other. */
  ghost predicate Leads(w: World, c: byte, w': World) {
    Inv(w, c) && exists run :: AllEnabled(w, c, run) && AfterAll(w, c, run) == w'
  }

  lemma LeadsNowhere(w: World, c: byte)
    requires Inv(w, c)
    ensures Leads(w, c, w)
  {
    hide Inv;
    var run: seq<Delivery.Step> := [];
    assert AllEnabled(w, c, run) && AfterAll(w, c, run) == w;
  }

  lemma LeadsOn(w: World, c: byte, v: World, w': World)
    requires Leads(w, c, v) && Leads(v, c, w')
    ensures Leads(w, c, w')
  {
    hide Inv, AllEnabled, AfterAll;
    var a :| AllEnabled(w, c, a) && AfterAll(w, c, a) == v;
    var b :| AllEnabled(v, c, b) && AfterAll(v, c, b) == w';
    RunsJoin(w, c, a, b);
  }

  lemma LeadsByStep(w: World, c: byte, step: Delivery.Step)
    requires Inv(w, c) && Enabled(w, c, step)
    ensures Leads(w, c, After(w, c, step)) && Inv(After(w, c, step), c)
  {
    hide Inv, Enabled, After;
    StepKeepsInv(w, c, step);
    var run := [step];
    assert run[1..] == [];
    assert AllEnabled(w, c, run) && AfterAll(w, c, run) == After(w, c, step);
  }

  // ---- what such a channel is like ----

  const MOST := 3 * 4096

  /** No packet has more than 12288 commands. */
  predicate AllCompact(ps: seq<Parcel>) {
    forall i :: 0 <= i < |ps| ==> 0 < ps[i].fragmentLength && Count(ps[i]) <= MOST
  }

  ghost predicate Fine(w: World, c: byte) {
    Inv(w, c) && c < |w.s.channels| && SentInv(w, c) && AllCompact(w.ps)
  }

  lemma StepStaysFine(w: World, c: byte, step: Delivery.Step)
    requires Fine(w, c) && Enabled(w, c, step) && !step.Send?
    ensures Fine(After(w, c, step), c) && Leads(w, c, After(w, c, step)) && After(w, c, step).ps == w.ps
  {
    hide Inv, Enabled, SentInv, AllCompact;
    LeadsByStep(w, c, step);
    StepCarries(w, c, step);
    PacketsStay(w, c, step);
  }

  lemma PacketsStay(w: World, c: byte, step: Delivery.Step)
    requires Inv(w, c) && Enabled(w, c, step) && !step.Send?
    ensures After(w, c, step).ps == w.ps
  {
    hide Inv, Enabled;
  }

  /** A packet spans at most four windows. */
  lemma CompactSpans(ps: seq<Parcel>, i: nat)
    requires LaidOut(ps) && AllCompact(ps) && i < |ps|
    ensures AllCuttable(ps) && EndOf(ps, i) + 1 == ps[i].first
    ensures WindowOf(EndOf(ps, i + 1)) <= WindowOf(EndOf(ps, i)) + 3
    ensures EndOf(ps, i) < EndOf(ps, i + 1) <= EndOf(ps, i) + MOST
  {
    hide Count, EndOf;
    PartsOf(ps);
    EndStep(ps, i);
  }

  /** A number that has been sent can arrive once more. */
  lemma MessageOf(w: World, c: byte, n: nat) returns (x: Message)
    requires Fine(w, c) && 1 <= n <= w.s.channels[c].launched
    ensures x in w.air && x.serial == n && Known(w.ps, x) && LaidOut(w.ps) && |w.delivered| <= |w.ps|
    ensures Reliable(x, c)
  {
    hide Inv, AllCompact;
    assert Aired(w.air, c, n);
    x :| x in w.air && Reliable(x, c) && x.serial == n;
    AirIsSent(w, c, x);
    ShapeOf(w, c);
  }

  // ---- delivering what has been sent ----

  /** The next packet has been received up to number k, or dispatched. */
  ghost predicate ReceivedUpTo(w: World, w': World, c: byte, k: nat) {
    && Fine(w', c) && Leads(w, c, w') && w'.s == w.s && w'.ps == w.ps
    && |w.delivered| <= |w'.delivered| <= |w.ps|
    && AllCuttable(w.ps)
    && (|w'.delivered| == |w.delivered| ==> forall n: nat :: n <= k ==> Received(w'.r, EndOf(w.ps, |w.delivered|), n))
  }

  lemma ReceiveNothing(w: World, c: byte)
    requires Fine(w, c)
    ensures ReceivedUpTo(w, w, c, (ShapeOf(w, c); Reached(w)))
  {
    hide Inv, AllCompact, SentInv, EndOf;
    ShapeOf(w, c);
    LeadsNowhere(w, c);
    forall n: nat | n <= Reached(w) ensures Received(w.r, Reached(w), n) {
    }
  }

  lemma ReceiveOneMore(w: World, v: World, c: byte, k: nat) returns (w': World)
    requires Fine(w, c) && ReceivedUpTo(w, v, c, k) && |w.delivered| < |w.ps|
    requires k < EndOf(w.ps, |w.delivered| + 1) <= w.s.channels[c].launched && EndOf(w.ps, |w.delivered|) <= k
    ensures ReceivedUpTo(w, w', c, k + 1)
  {
    hide Inv, AllCompact, SentInv, EndOf, Leads, Received, WindowOf, At, LaidOut, Known, After, Enabled;
    if |v.delivered| > |w.delivered| {
      w' := v;
    } else {
      var x := MessageOf(v, c, k + 1);
      ShapeOf(v, c);
      var m := |w.delivered|;
      AtIsUnique(v.ps, k + 1, m);
      EndStep(v.ps, m);
      NextIsNear(Reached(v));
      var limit := |v.ps[m].data|;
      DueIsKept(v, c, x, limit);
      var step := Arrive(x, limit, true);
      w' := After(v, c, step);
      StepStaysFine(v, c, step);
      LeadsOn(w, c, v, w');
      ShapeOf(w', c);
      ArriveKeepsSender(v, c, step);
    }
  }

  lemma ArriveKeepsSender(w: World, c: byte, step: Delivery.Step)
    requires Inv(w, c) && Enabled(w, c, step) && step.Arrive?
    ensures After(w, c, step).s == w.s
  {
    hide Inv, Enabled, Respond;
  }

  lemma {:induction false} ReceiveAll(w: World, c: byte, k: nat) returns (w': World)
    requires Fine(w, c) && LaidOut(w.ps) && |w.delivered| < |w.ps|
    requires EndOf(w.ps, |w.delivered| + 1) <= w.s.channels[c].launched
    requires EndOf(w.ps, |w.delivered|) <= k <= EndOf(w.ps, |w.delivered| + 1)
    ensures ReceivedUpTo(w, w', c, k)
    decreases k
  {
    hide Fine, EndOf, ReceivedUpTo, LaidOut;
    FineShape(w, c);
    if k == EndOf(w.ps, |w.delivered|) {
      ReceiveNothing(w, c);
      w' := w;
    } else {
      var v := ReceiveAll(w, c, k - 1);
      w' := ReceiveOneMore(w, v, c, k - 1);
    }
  }

  lemma FineShape(w: World, c: byte)
    requires Fine(w, c)
    ensures LaidOut(w.ps) && AllCuttable(w.ps) && |w.delivered| <= |w.ps| && c < |w.s.channels|
    ensures EndOf(w.ps, |w.ps|) == w.s.channels[c].issued
  {
    hide Inv, AllCompact, SentInv, EndOf, LaidOut;
    ShapeOf(w, c);
  }

  /** The next packet can be dispatched once all of it has been sent. */
  lemma DeliverNext(w: World, c: byte) returns (w': World)
    requires Fine(w, c) && LaidOut(w.ps) && |w.delivered| < |w.ps|
    requires EndOf(w.ps, |w.delivered| + 1) <= w.s.channels[c].launched
    ensures Fine(w', c) && Leads(w, c, w') && w'.s == w.s && w'.ps == w.ps
    ensures |w.delivered| < |w'.delivered| <= |w.ps|
  {
    hide EndOf, LaidOut, Inv, AllCompact, SentInv, Leads, Received;
    var m := |w.delivered|;
    PartsOf(w.ps);
    EndStep(w.ps, m);
    w' := ReceiveAll(w, c, EndOf(w.ps, m + 1));
    if |w'.delivered| == m {
      SomeIsMissing(w', c);
    }
  }

  /** Of a packet that has not been dispatched some command is missing. */
  lemma SomeIsMissing(w: World, c: byte)
    requires Inv(w, c) && |w.delivered| < |w.ps|
    ensures AllCuttable(w.ps)
    ensures exists n: nat :: n <= EndOf(w.ps, |w.delivered| + 1) && !Received(w.r, EndOf(w.ps, |w.delivered|), n)
  {
    hide Valid, Orderly, Spared, AirInv, AcksInv, ArrivedInv, SettledInv, Held, EndOf, LaidOut, Drained, Received,
         Follows, Known;
    ShapeOf(w, c);
    var m := |w.delivered|;
    if forall n: nat :: n <= EndOf(w.ps, m + 1) ==> Received(w.r, EndOf(w.ps, m), n) {
      ReceivedIsDispatched(w.r, w.ps, m);
    }
  }

  /** Nothing that has been sent completely waits any more. */
  ghost predicate CaughtUp(w: World, c: byte) {
    && c < |w.s.channels| && AllCuttable(w.ps) && |w.delivered| <= |w.ps|
    && (|w.delivered| < |w.ps| ==> w.s.channels[c].launched < EndOf(w.ps, |w.delivered| + 1))
  }

  lemma {:induction false} DeliverSent(w: World, c: byte) returns (w': World)
    requires Fine(w, c)
    ensures Fine(w', c) && Leads(w, c, w') && w'.s == w.s && w'.ps == w.ps && CaughtUp(w', c)
    decreases (FineShape(w, c); |w.ps| - |w.delivered|)
  {
    hide Fine, EndOf, Leads, LaidOut;
    FineShape(w, c);
    if |w.delivered| < |w.ps| && EndOf(w.ps, |w.delivered| + 1) <= w.s.channels[c].launched {
      var v := DeliverNext(w, c);
      w' := DeliverSent(v, c);
      LeadsOn(w, c, v, w');
    } else {
      w' := w;
      LeadsSelf(w, c);
    }
  }

  lemma LeadsSelf(w: World, c: byte)
    requires Fine(w, c)
    ensures Leads(w, c, w)
  {
    LeadsNowhere(w, c);
  }

  // ---- getting it acknowledged ----

  /** A command that was dispatched long ago changes nothing, but is acknowledged again. */
  lemma DispatchedIsOk(r: Receiver, ps: seq<Parcel>, m: nat, x: Message, limit: nat)
    requires Follows(r, ps, m) && Known(ps, x) && x.serial <= EndOf(ps, m) && EndOf(ps, m) < x.serial + NUMBERS
    requires |ps[At(ps, x.serial)].data| <= limit
    requires EndOf(ps, m) < ps[At(ps, x.serial)].first + NUMBERS
    requires !TakenForNew(Wire(EndOf(ps, m)), Wire(ps[At(ps, x.serial)].first))
    ensures EntriesOk(r) && Respond(r, x, limit, true) == Handled(r, [], true)
  {
    hide Sorted, LaidOut, EndOf, Within, At, Count, Wire, Place, AlreadyQueued, EntriesHold, Admits, FragmentOf;
    var p := ps[At(ps, x.serial)];
    AheadOrBehind(ps, m, x.serial);
    NumberReached(r, ps, m);
    PayloadCases(p, x);
    NotNewIsUnwanted(r, Wire(p.first));
    CountOfUncut(p);
    if !Uncut(p) {
      PieceFits(p, x.serial - p.first);
      FragmentStart(p, x.serial - p.first);
      CountIsPositive(|p.data|, p.fragmentLength);
      CutCount(p);
      if Wire(p.first) == r.number {
        WireIsInjective(p.first, EndOf(ps, m));
      }
    }
  }

  lemma CutCount(p: Parcel)
    requires Cuttable(p) && !Uncut(p)
    ensures Count(p) >= 2
  {
    CountIsPositive(|p.data|, p.fragmentLength);
  }

  /** What is in flight is at most nine windows after the beginning of its packet. */
  lemma FlightIsFresh(w: World, c: byte, x: Message)
    requires Fine(w, c) && LaidOut(w.ps) && |w.delivered| <= |w.ps| && Known(w.ps, x)
    requires x.serial in InFlight(w.s, c) && x.serial <= Reached(w)
    ensures var first := w.ps[At(w.ps, x.serial)].first;
            && Reached(w) < first + NUMBERS && Reached(w) < x.serial + NUMBERS
            && WindowOf(Reached(w)) <= WindowOf(x.serial) + 6
            && !TakenForNew(Wire(Reached(w)), Wire(first))
  {
    hide Valid, Spared, AirInv, AcksInv, SettledInv, Held, EndOf, Drained, Follows, At, AllCompact, SentInv, WindowOf,
         LaidOut, Wire, InFlight, WindowHasGap, TakenForNew;
    var n, reached := x.serial, Reached(w);
    BoundOf(w.s, c);
    assert Received(w.r, reached, reached);
    WindowsMonotone(reached, w.s.channels[c].launched);
    AtContains(w.ps, n);
    CompactSpans(w.ps, At(w.ps, n));
    var first := w.ps[At(w.ps, n)].first;
    WindowsMonotone(n, EndOf(w.ps, At(w.ps, n) + 1));
    WindowsMonotone(EndOf(w.ps, At(w.ps, n)), first);
    WindowsNear(reached, first, 9);
    WindowsNear(reached, n, 6);
    if first <= reached {
      StaleIsTaken(reached, first);
    }
  }

  lemma WindowsNear(a: nat, b: nat, k: nat)
    requires WindowOf(a) <= WindowOf(b) + k && k <= 9
    ensures a < b + NUMBERS
  {
  }

  lemma AcknowledgeAgain(w: World, c: byte, n: nat) returns (w': World)
    requires Fine(w, c) && n in InFlight(w.s, c)
    requires (FineShape(w, c); n <= Reached(w))
    ensures Fine(w', c) && Leads(w, c, w') && w'.s == w.s && w'.ps == w.ps && w'.delivered == w.delivered
    ensures n in w'.acks
  {
    hide Valid, Orderly, Spared, AirInv, AcksInv, ArrivedInv, SettledInv, Held, EndOf, Drained, Follows, At, AllCompact,
         SentInv, WindowOf, LaidOut, Wire, InFlight, TakenForNew, Leads, Respond, Within, Acknowledges;
    FineShape(w, c);
    FlightWasSent(w, c, n);
    var x := MessageOf(w, c, n);
    FlightIsFresh(w, c, x);
    var limit := |w.ps[At(w.ps, n)].data|;
    DispatchedIsOk(w.r, w.ps, |w.delivered|, x, limit);
    NumberReached(w.r, w.ps, |w.delivered|);
    var step := Arrive(x, limit, true);
    assert Enabled(w, c, step);
    StepStaysFine(w, c, step);
    w' := After(w, c, step);
    AcknowledgedIff(Reached(w), n);
    WindowsMonotone(n, Reached(w));
    KnownNumber(w.ps, x);
    assert w.delivered + Datas([]) == w.delivered;
  }

  lemma KnownNumber(ps: seq<Parcel>, x: Message)
    requires Known(ps, x)
    ensures x.number == Wire(x.serial)
  {
    hide Within, At, PayloadOf, Count;
  }

  lemma FlightWasSent(w: World, c: byte, n: nat)
    requires Fine(w, c) && n in InFlight(w.s, c)
    ensures 1 <= n <= w.s.channels[c].launched
  {
    hide Valid, Spared, ReceiverInv, AirInv, AcksInv, ArrivedInv, SettledInv, Held, InFlight, WindowHasGap, AllCompact,
         SentInv, WindowOf;
    BoundOf(w.s, c);
  }

  /** While nothing that has been sent completely waits, everything in flight can be got
      acknowledged. */
  lemma GetAcknowledged(w: World, c: byte, n: nat) returns (w': World)
    requires Fine(w, c) && CaughtUp(w, c) && n in InFlight(w.s, c)
    ensures Fine(w', c) && Leads(w, c, w') && w'.s == w.s && w'.ps == w.ps && CaughtUp(w', c)
    ensures n in w'.acks
  {
    hide Inv, AllCompact, SentInv, EndOf, Leads, Received, WindowOf, At, LaidOut, Known, After, Enabled, InFlight;
    FineShape(w, c);
    var m := |w.delivered|;
    if n <= Reached(w) {
      w' := AcknowledgeAgain(w, c, n);
    } else {
      FlightWasSent(w, c, n);
      SentIsQueued(w, c);
      var x := MessageOf(w, c, n);
      AtIsUnique(w.ps, n, m);
      CompactSpans(w.ps, m);
      NextIsNear(Reached(w));
      var limit := |w.ps[m].data|;
      DueIsKept(w, c, x, limit);
      var step := Arrive(x, limit, true);
      w' := After(w, c, step);
      StepStaysFine(w, c, step);
      ArriveKeepsSender(w, c, step);
      FineShape(w', c);
      EndsGrow(w.ps, m, |w'.delivered|);
      WindowsMonotone(n, EndOf(w.ps, m + 1));
      WindowsMonotone(Reached(w), Reached(w'));
      StillCaughtUp(w, w', c);
    }
  }

  lemma SentIsQueued(w: World, c: byte)
    requires Fine(w, c)
    ensures w.s.channels[c].launched <= w.s.channels[c].issued
  {
    hide Valid, Spared, ReceiverInv, AirInv, AcksInv, ArrivedInv, SettledInv, Held, InFlight, FlightBound, AllCompact,
         SentInv;
  }

  lemma StillCaughtUp(w: World, w': World, c: byte)
    requires CaughtUp(w, c) && LaidOut(w.ps) && w'.ps == w.ps && |w.delivered| <= |w'.delivered| <= |w.ps|
    requires |w'.s.channels| == |w.s.channels| && w'.s.channels[c].launched == w.s.channels[c].launched
    ensures CaughtUp(w', c)
  {
    hide EndOf, LaidOut;
    if |w'.delivered| < |w.ps| {
      EndsGrow(w.ps, |w.delivered| + 1, |w'.delivered| + 1);
    }
  }

  // ---- settling it ----

  /** Commands that have never been sent. */
  function Unsents(cmds: seq<OutgoingCommand>): nat {
    if cmds == [] then 0 else (if cmds[0].attempts == 0 then 1 else 0) + Unsents(cmds[1..])
  }

  lemma {:induction false} UnsentsAdd(a: seq<OutgoingCommand>, b: seq<OutgoingCommand>)
    ensures Unsents(a + b) == Unsents(a) + Unsents(b)
  {
    if a == [] {
      assert a + b == b;
    } else {
      UnsentsAdd(a[1..], b);
      assert (a + b)[1..] == a[1..] + b;
    }
  }

  lemma UnsentsWithout(a: seq<OutgoingCommand>, i: nat)
    requires i < |a| && a[i].attempts >= 1
    ensures Unsents(Without(a, i)) == Unsents(a)
  {
    assert a == a[..i] + ([a[i]] + a[i + 1..]);
    UnsentsAdd(a[..i], [a[i]] + a[i + 1..]);
    UnsentsAdd([a[i]], a[i + 1..]);
    UnsentsAdd(a[..i], a[i + 1..]);
    assert [a[i]][1..] == [];
  }

  lemma {:induction false} UnsentsAtMost(a: seq<OutgoingCommand>)
    ensures Unsents(a) <= |a|
    ensures (forall i :: 0 <= i < |a| ==> a[i].attempts == 0) ==> Unsents(a) == |a|
  {
    if a != [] {
      UnsentsAtMost(a[1..]);
      assert forall i :: 0 <= i < |a[1..]| ==> a[1..][i] == a[i + 1];
    }
  }

  /** An acknowledgement takes at most one command out, and none that was never sent. */
  lemma RemovalTakesSent(s: Sender, number: u16, c: byte)
    requires Valid(s) && WindowsCounted(s)
    ensures var r := RemoveSent(s, number, c);
            && Unsents(r.s.outgoing) == Unsents(s.outgoing)
            && |r.s.outgoing| + |r.s.sent| + |r.removed| == |s.outgoing| + |s.sent|
  {
    hide Discounted, AllCount, AttemptedFirst, SearchAgain, SearchSent, Unsents, Without;
    AttemptedAcknowledge(s);
    SearchAgainFinds(s.outgoing, number, c);
    var i, j := SearchSent(s.sent, number, c), SearchAgain(s.outgoing, number, c);
    if i < |s.sent| {
      WithoutOne(s.sent, i);
    } else if j < |s.outgoing| {
      UnsentsWithout(s.outgoing, j);
      WithoutOne(s.outgoing, j);
    }
  }

  lemma WithoutOne<T>(a: seq<T>, i: nat)
    requires i < |a|
    ensures |Without(a, i)| + 1 == |a|
  {
  }

  /** Such an acknowledgement of a number in flight settles one of the channel's commands. */
  lemma SettleOne(w: World, c: byte, n: nat) returns (w': World)
    requires Fine(w, c) && CaughtUp(w, c) && n in InFlight(w.s, c) && n in w.acks
    ensures Fine(w', c) && Leads(w, c, w') && w'.ps == w.ps && CaughtUp(w', c)
    ensures |InFlight(w'.s, c)| < |InFlight(w.s, c)| && Unsents(w'.s.outgoing) == Unsents(w.s.outgoing)
  {
    hide Inv, AllCompact, SentInv, EndOf, Leads, At, LaidOut, After, Enabled, InFlight, RemoveSent, Unsents, TakenOut,
         WindowsCounted;
    FineShape(w, c);
    var step := Acknowledged(n);
    CurrentInFlight(w, c, n);
    StepStaysFine(w, c, step);
    w' := After(w, c, step);
    AfterAcknowledged(w, c, n);
    FineValid(w, c);
    RemoveSentSettles(w.s, Wire(n), c);
    RemovalTakesSent(w.s, Wire(n), c);
    RemovalFinds(w.s, Wire(n), c, n);
    RemovalTakesOut(w.s, Wire(n), c);
    FlightShrinks(w.s, w'.s, c, RemoveSent(w.s, Wire(n), c).removed[0]);
    StillCaughtUp(w, w', c);
  }

  lemma CurrentInFlight(w: World, c: byte, n: nat)
    requires Fine(w, c) && n in InFlight(w.s, c) && n in w.acks
    ensures Enabled(w, c, Acknowledged(n)) && Names(w.s, c, Wire(n), n)
  {
    hide Valid, Spared, ReceiverInv, AirInv, AcksInv, ArrivedInv, SettledInv, Held, InFlight, AllCompact, SentInv, Wire,
         FlightBound;
    BoundOf(w.s, c);
    forall x: nat | Names(w.s, c, Wire(n), x) ensures x <= n {
      FlightIsDistinct(w.s.channels[c].launched, w.s.channels[c].reliableWindows, InFlight(w.s, c), x, n);
    }
  }

  lemma AfterAcknowledged(w: World, c: byte, n: nat)
    requires Inv(w, c) && Enabled(w, c, Acknowledged(n))
    ensures WindowsCounted(w.s)
    ensures After(w, c, Acknowledged(n)) == w.(s := RemoveSent(w.s, Wire(n), c).s)
  {
    hide Inv, Enabled, RemoveSent, WindowsCounted;
    StepIsDefined(w, c, Acknowledged(n));
  }

  lemma FineValid(w: World, c: byte)
    requires Fine(w, c)
    ensures Valid(w.s) && WindowsCounted(w.s) && c < |w.s.channels| <= CONTROL_CHANNEL && Orderly(w.s, c)
  {
    hide Valid, Orderly, Spared, ReceiverInv, AirInv, AcksInv, ArrivedInv, SettledInv, Held, AllCompact, SentInv;
    ValidCounts(w.s);
    ChannelCount(w.s);
  }

  lemma FlightShrinks(s: Sender, t: Sender, c: byte, x: OutgoingCommand)
    requires TakenOut(s, t, x) && x.message.command.channel == c
    ensures |InFlight(t, c)| < |InFlight(s, c)|
  {
    hide InFlight;
    assert InFlight(s, c) == InFlight(t, c) + multiset{x.message.serial};
  }

  lemma {:induction false} SettleAll(w: World, c: byte) returns (w': World)
    requires Fine(w, c) && CaughtUp(w, c)
    ensures Fine(w', c) && Leads(w, c, w') && w'.ps == w.ps && CaughtUp(w', c)
    ensures InFlight(w'.s, c) == multiset{} && Unsents(w'.s.outgoing) == Unsents(w.s.outgoing)
    decreases |InFlight(w.s, c)|
  {
    hide Fine, CaughtUp, InFlight, Leads, Unsents;
    if InFlight(w.s, c) == multiset{} {
      w' := w;
      LeadsSelf(w, c);
    } else {
      var n :| n in InFlight(w.s, c);
      var u := GetAcknowledged(w, c, n);
      var v := SettleOne(u, c, n);
      w' := SettleAll(v, c);
      LeadsOn(w, c, u, v);
      LeadsOn(w, c, v, w');
    }
  }

  // ---- clearing the other channels ----

  /** Nothing is in flight, and nothing waits to be sent again. */
  predicate Clear(s: Sender) {
    s.sent == [] && forall i :: 0 <= i < |s.outgoing| ==> s.outgoing[i].attempts == 0
  }

  /** A command in flight, if there is one. */
  lemma SomeInFlight(w: World, c: byte) returns (x: OutgoingCommand)
    requires Fine(w, c) && InFlight(w.s, c) == multiset{} && !Clear(w.s)
    ensures x in w.s.outgoing + w.s.sent && x.attempts >= 1 && x.message.command.acknowledge
    ensures x.message.command.channel != c
  {
    hide Fine, InFlight, Flight, AllAttempted, AttemptedFirst;
    FineValid(w, c);
    AttemptedAcknowledge(w.s);
    if w.s.sent != [] {
      x := w.s.sent[0];
      SentIsAttempted(w.s.sent, x);
    } else {
      var i :| 0 <= i < |w.s.outgoing| && w.s.outgoing[i].attempts >= 1;
      x := w.s.outgoing[i];
    }
    if x.message.command.channel == c {
      AttemptedIsInFlight(w.s, c, x);
    }
  }

  lemma SentIsAttempted(cmds: seq<OutgoingCommand>, x: OutgoingCommand)
    requires AllAttempted(cmds) && x in cmds
    ensures x.attempts >= 1 && x.message.command.acknowledge
  {
  }

  lemma AttemptedIsInFlight(s: Sender, c: nat, x: OutgoingCommand)
    requires x in s.outgoing + s.sent && Attempted(x, c)
    ensures InFlight(s, c) != multiset{}
  {
    FlightHas(c, s.outgoing, x.message.serial);
    FlightHas(c, s.sent, x.message.serial);
    hide Flight;
    assert x.message.serial in InFlight(s, c);
  }

  /** Its acknowledgement finds it, or another with its number. */
  lemma SomethingIsFound(s: Sender, x: OutgoingCommand)
    requires Valid(s) && WindowsCounted(s) && x in s.outgoing + s.sent && x.attempts >= 1
    ensures RemoveSent(s, x.message.number, x.message.command.channel).removed != []
  {
    hide Discounted, AllCount, AttemptedFirst, SearchAgain, SearchSent;
    var number, c := x.message.number, x.message.command.channel;
    AttemptedAcknowledge(s);
    SearchAgainFinds(s.outgoing, number, c);
    assert Answers(x.message, number, c);
  }

  lemma ClearOne(w: World, c: byte) returns (w': World)
    requires Fine(w, c) && CaughtUp(w, c) && InFlight(w.s, c) == multiset{} && !Clear(w.s)
    ensures Fine(w', c) && Leads(w, c, w') && w'.ps == w.ps && CaughtUp(w', c) && InFlight(w'.s, c) == multiset{}
    ensures Unsents(w'.s.outgoing) == Unsents(w.s.outgoing)
    ensures |w'.s.outgoing| + |w'.s.sent| < |w.s.outgoing| + |w.s.sent|
  {
    hide Inv, AllCompact, SentInv, EndOf, Leads, At, LaidOut, InFlight, RemoveSent, Unsents, TakenOut, Clear,
         WindowsCounted;
    FineShape(w, c);
    FineValid(w, c);
    var x := SomeInFlight(w, c);
    var number, channel := x.message.number, x.message.command.channel;
    var step := OtherAcknowledged(number, channel);
    StepStaysFine(w, c, step);
    w' := After(w, c, step);
    RemoveSentSettles(w.s, number, channel);
    RemovalTakesSent(w.s, number, channel);
    SomethingIsFound(w.s, x);
    RemovalTakesOut(w.s, number, channel);
    StaysEmpty(w.s, w'.s, c, RemoveSent(w.s, number, channel).removed[0]);
    StillCaughtUp(w, w', c);
  }

  lemma StaysEmpty(s: Sender, t: Sender, c: byte, x: OutgoingCommand)
    requires TakenOut(s, t, x) && InFlight(s, c) == multiset{}
    ensures InFlight(t, c) == multiset{}
  {
    hide InFlight;
    assert InFlight(t, c) <= InFlight(s, c);
  }

  lemma {:induction false} ClearAll(w: World, c: byte) returns (w': World)
    requires Fine(w, c) && CaughtUp(w, c) && InFlight(w.s, c) == multiset{}
    ensures Fine(w', c) && Leads(w, c, w') && w'.ps == w.ps && CaughtUp(w', c)
    ensures Clear(w'.s) && Unsents(w'.s.outgoing) == Unsents(w.s.outgoing)
    decreases |w.s.outgoing| + |w.s.sent|
  {
    hide Fine, CaughtUp, InFlight, Leads, Unsents, Clear;
    if Clear(w.s) {
      w' := w;
      LeadsSelf(w, c);
    } else {
      var v := ClearOne(w, c);
      w' := ClearAll(v, c);
      LeadsOn(w, c, v, w');
    }
  }

  // ---- sending something new ----

  lemma {:induction false} NoneFlying(c: nat, v: nat, cmds: seq<OutgoingCommand>)
    requires forall i :: 0 <= i < |cmds| ==> cmds[i].attempts == 0
    ensures Tally(c, v, cmds) == 0
  {
    if cmds != [] {
      assert forall i :: 0 <= i < |cmds[1..]| ==> cmds[1..][i] == cmds[i + 1];
      NoneFlying(c, v, cmds[1..]);
    }
  }

  lemma NothingMustWait(s: Sender, x: OutgoingCommand)
    requires Clear(s)
    ensures !MustWait(s, x)
  {
    var c := x.message.command.channel;
    forall v: nat | v < 16 ensures Flying(s, c, v) == 0 {
      NoneFlying(c, v, s.outgoing);
      NoneFlying(c, v, s.sent);
    }
    hide Flying;
  }

  lemma {:induction false} PassShrinks(p: Pass, e: Settings)
    requires PassShaped(p) && !p.more
    ensures |Finish(p, e).s.outgoing| <= |p.s.outgoing|
    decreases |p.s.outgoing| - p.at
  {
    hide Advance, Shaped, DatagramOk;
    if p.at < |p.s.outgoing| {
      AdvanceKeepsShape(p, e);
      AdvanceShrinks(p, e);
      if !Advance(p, e).more {
        PassShrinks(Advance(p, e), e);
      }
    }
  }

  lemma AdvanceShrinks(p: Pass, e: Settings)
    requires PassShaped(p) && p.at < |p.s.outgoing|
    ensures WindowsCounted(p.s) && p.d.packetSize <= p.s.mtu
    ensures |Advance(p, e).s.outgoing| <= |p.s.outgoing|
  {
    hide Full, OpensBlocked, OverCommitted, Emit, CommandSize;
    var m := p.s.outgoing[p.at].message;
    if !Full(p.d, m, p.s.mtu) {
      EmitKeepsShape(p.(canPing := p.canPing && !m.command.acknowledge), e);
    }
  }

  /** With nothing in flight a pass over an empty datagram takes at least the first command out of the
      queue. */
  lemma PassTakesOne(s: Sender, e: Settings)
    requires Valid(s) && Clear(s) && s.outgoing != []
    ensures DatagramOk(Empty(), s.mtu) && PassShaped(StartPass(s, Empty()))
    ensures |Finish(StartPass(s, Empty()), e).s.outgoing| < |s.outgoing|
  {
    hide MessagesOk, AttemptedFirst, AllAttempted, AllCount, MustWait, Advance, Clear, Shaped, Bytes;
    var p := StartPass(s, Empty());
    ValidIsShaped(p);
    FirstGoesOut(p, e);
    AdvanceKeepsShape(p, e);
    PassShrinks(Advance(p, e), e);
  }

  lemma FirstGoesOut(p: Pass, e: Settings)
    requires PassValid(p) && p == StartPass(p.s, Empty()) && Clear(p.s) && p.s.outgoing != []
    ensures WindowsCounted(p.s) && p.d.packetSize <= p.s.mtu
    ensures var q := Advance(p, e); !q.more && q.at == 0 && |q.s.outgoing| < |p.s.outgoing|
  {
    hide AllCount, MessagesOk, AttemptedFirst, AllAttempted, MustWait, OpensBlocked, Emit, OverCommitted, Full,
         MessageOk;
    var x := p.s.outgoing[0];
    NothingMustWait(p.s, x);
    MustWaitIff(p.s, x);
    FromOutgoing(p.s, 0);
    EmptyIsNotFull(x.message, |p.s.channels|, p.s.mtu);
    ValidIsShaped(p);
    EmitKeepsShape(p.(canPing := p.canPing && !x.message.command.acknowledge), e);
    NotOverCommitted(p.s, x.message, e);
  }

  lemma NotOverCommitted(s: Sender, m: Message, e: Settings)
    requires s.sent == [] && s.inTransit == Bytes(s.sent) && MessageOk(m, |s.channels|, s.mtu)
    ensures !OverCommitted(s, m, e)
  {
  }

  lemma TransmitSome(w: World, c: byte, e: Settings) returns (w': World)
    requires Fine(w, c) && Clear(w.s) && w.s.outgoing != []
    ensures Fine(w', c) && Leads(w, c, w') && w'.ps == w.ps
    ensures Unsents(w'.s.outgoing) < Unsents(w.s.outgoing)
  {
    hide Inv, AllCompact, SentInv, Leads, Unsents, Finish, DatagramOk, PassShaped, Valid;
    FineValid(w, c);
    PassTakesOne(w.s, e);
    var step := Transmit(e, Empty());
    StepStaysFine(w, c, step);
    w' := After(w, c, step);
    UnsentsAtMost(w.s.outgoing);
    UnsentsAtMost(w'.s.outgoing);
  }

  /** Nothing of the channel is left to be sent. */
  lemma AllDelivered(w: World, c: byte)
    requires Fine(w, c) && CaughtUp(w, c) && w.s.outgoing == []
    ensures |w.delivered| == |w.ps|
  {
    hide Valid, Spared, ReceiverInv, AirInv, AcksInv, ArrivedInv, SettledInv, Held, InFlight, FlightBound, AllCompact,
         SentInv, EndOf, LaidOut;
    FineShape(w, c);
    assert |Following(w.s.channels[c].launched, w.s.channels[c].issued)| == 0;
    if |w.delivered| < |w.ps| {
      EndsGrow(w.ps, |w.delivered| + 1, |w.ps|);
    }
  }

  /** By delivering what has been sent, settling it, and sending the rest, a command at a time. */
  lemma {:induction false} Finishes(w: World, c: byte, e: Settings) returns (w': World)
    requires Fine(w, c)
    ensures Fine(w', c) && Leads(w, c, w') && w'.ps == w.ps && |w'.delivered| == |w.ps|
    decreases Unsents(w.s.outgoing)
  {
    hide Fine, CaughtUp, InFlight, Leads, Unsents;
    var a := DeliverSent(w, c);
    var b := SettleAll(a, c);
    var d := ClearAll(b, c);
    LeadsOn(w, c, a, b);
    LeadsOn(w, c, b, d);
    if d.s.outgoing == [] {
      w' := d;
      AllDelivered(d, c);
    } else {
      var f := TransmitSome(d, c, e);
      w' := Finishes(f, c, e);
      LeadsOn(w, c, d, f);
      LeadsOn(w, c, f, w');
    }
  }

  lemma OutcomeIsFine(start: World, c: byte, run: seq<Delivery.Step>)
    requires IsRun(start, c, run) && AllCompact(Outcome(start, c, run).ps)
    ensures Fine(Outcome(start, c, run), c)
  {
    hide Inv, Starts, SentInv;
    StartsInv(start, c);
    OutcomeInv(start, c, run);
    InvChannel(start, c);
    NothingSent(start, c);
    RunCarries(start, c, run);
  }

  /** No channel ever gets stuck: from every state that any run has led to, whatever has been lost,
      refused or held back in it, some continuation of the run delivers all that has been queued, if no
      packet has more than 12288 commands. (LongPacketStalls says what becomes of much longer ones.) */
  lemma AllCanBeDelivered(start: World, c: byte, run: seq<Delivery.Step>, e: Settings)
    returns (more: seq<Delivery.Step>)
    requires IsRun(start, c, run) && AllCompact(Outcome(start, c, run).ps)
    ensures IsRun(start, c, run + more)
    ensures var w, w' := Outcome(start, c, run), Outcome(start, c, run + more);
            && w'.ps == w.ps && |w'.delivered| == |w.ps|
            && forall i :: 0 <= i < |w.ps| ==> w'.delivered[i] == w.ps[i].data
  {
    hide Inv, Starts, AllEnabled, AfterAll, Fine, AllCompact;
    OutcomeIsFine(start, c, run);
    var w := Outcome(start, c, run);
    var w' := Finishes(w, c, e);
    more :| AllEnabled(w, c, more) && AfterAll(w, c, more) == w';
    StartsInv(start, c);
    RunsJoin(start, c, run, more);
    DeliveredIsPrefix(start, c, run + more);
  }
}
