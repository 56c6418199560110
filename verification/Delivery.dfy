/** One channel of one connection, end to end: a sender, a receiver, and between them a network
    that may lose, repeat and reorder whatever was ever put into it. */
module Delivery {
  import opened Words
  import opened Windows
  import opened Outgoing
  import opened FlightWindow
  import opened SendPass
  import opened PassInvariant
  import opened Resend
  import opened Timeouts
  import opened Incoming
  import opened ReceiveOrder
  import opened Parcels
  import opened Layout
  import opened Receiving
  import opened Arrivals
  import opened Sending
  import opened DropSafety
  import SenderRuns

  /** ps are the packets queued reliably on the channel so far, delivered those dispatched; air
      holds every reliable command of the channel ever sent, and acks the serial of every
      acknowledgement ever sent for one. Nothing is ever taken out of the network. */
  datatype World = World(s: Sender, r: Receiver, ps: seq<Parcel>, delivered: seq<seq<byte>>, air: set<Message>,
      acks: set<nat>)

  datatype Step =
    | Send(channel: byte, data: seq<byte>, flags: Flags, host: Host)
    | Control(command: Command)
    | Transmit(settings: Settings, datagram: Datagram)
    | Timeout(clock: Clock)
    | Acknowledged(serial: nat)
    | OtherAcknowledged(number: u16, channel: byte)
    | Arrive(message: Message, limit: nat, accepting: bool)

  predicate Known(ps: seq<Parcel>, m: Message) {
    && AllCuttable(ps) && Within(ps, m.serial) && At(ps, m.serial) < |ps|
    && Carries(ps[At(ps, m.serial)], m)
  }

  function Reached(w: World): nat
    requires AllCuttable(w.ps) && |w.delivered| <= |w.ps|
  {
    EndOf(w.ps, |w.delivered|)
  }

  // ---- what always holds ----

  ghost predicate SenderInv(s: Sender, c: byte, ps: seq<Parcel>) {
    && Valid(s) && c < |s.channels| && Orderly(s, c)
    && LaidOut(ps) && EndOf(ps, |ps|) == s.channels[c].issued
    && (forall m :: m in Held(s) && Reliable(m, c) ==> Known(ps, m))
  }

  ghost predicate ReceiverInv(r: Receiver, ps: seq<Parcel>, delivered: seq<seq<byte>>) {
    && |delivered| <= |ps| && (forall i :: 0 <= i < |delivered| ==> delivered[i] == ps[i].data)
    && Follows(r, ps, |delivered|) && Drained(r.queue, r.number)
  }

  ghost predicate AirInv(air: set<Message>, c: byte, ps: seq<Parcel>, launched: nat) {
    forall m :: m in air ==> Reliable(m, c) && Known(ps, m) && m.serial <= launched
  }

  ghost predicate AcksInv(acks: set<nat>, r: Receiver, reached: nat, launched: nat) {
    forall n :: n in acks ==> n <= launched && Received(r, reached, n) && WindowOf(n) <= WindowOf(reached) + 6
  }

  ghost predicate SettledInv(s: Sender, c: byte, acks: set<nat>)
    requires c < |s.channels|
  {
    forall n :: Settled(s, c, n) ==> n in acks
  }

  /** Only what has been sent has arrived. */
  ghost predicate ArrivedInv(r: Receiver, reached: nat, launched: nat) {
    forall n: nat :: Received(r, reached, n) ==> n <= launched
  }

  ghost predicate Inv(w: World, c: byte) {
    && SenderInv(w.s, c, w.ps) && Spared(w.s, c)
    && ReceiverInv(w.r, w.ps, w.delivered)
    && AirInv(w.air, c, w.ps, w.s.channels[c].launched)
    && AcksInv(w.acks, w.r, Reached(w), w.s.channels[c].launched)
    && ArrivedInv(w.r, Reached(w), w.s.channels[c].launched)
    && SettledInv(w.s, c, w.acks)
  }

  // ---- the steps ----

  /** Not a command of a dispatched packet whose first number would be taken for a new one; within
      65536 numbers those are the packets that begin more than nine windows behind (see
      ReliableChannel.StaleIsTaken). */
  predicate IsFresh(ps: seq<Parcel>, m: nat, x: Message) {
    && Known(ps, x) && m <= |ps|
    && (x.serial <= EndOf(ps, m) ==> !TakenForNew(Wire(EndOf(ps, m)), Wire(ps[At(ps, x.serial)].first)))
  }

  /** No later command in flight is written as n (it would be a multiple of 65536 numbers later, see
      ReliableChannel.StaleAcknowledges). */
  ghost predicate IsCurrent(s: Sender, c: byte, n: nat) {
    forall x: nat :: Names(s, c, Wire(n), x) ==> x <= n
  }

  /** No command arrives so late that it is taken for a new one, and no acknowledgement so late that
      it names another command than its own. No reliable command of the channel is queued that
      throttling might drop together with one before it; on other channels that may happen. */
  ghost predicate Enabled(w: World, c: byte, step: Step)
    requires Inv(w, c)
  {
    match step
    case Send(channel, data, flags, h) => channel == c ==> SendsSafely(w.s, channel, data, flags, h)
    case Control(x) => CommandOk(w.s, x) && TakesNumber(w.s, x) && !(x.acknowledge && x.channel == c)
    case Transmit(_, d) => DatagramOk(d, w.s.mtu)
    case Timeout(_) => true
    case Acknowledged(n) => n in w.acks && IsCurrent(w.s, c, n)
    case OtherAcknowledged(_, channel) => channel != c
    case Arrive(m, _, _) => m in w.air && IsFresh(w.ps, |w.delivered|, m)
  }

  /** What a receiver does with a reliable command. */
  function Respond(r: Receiver, m: Message, limit: nat, accepting: bool): Handled
    requires EntriesOk(r)
  {
    match m.command.payload
    case NoPacket => Handled(r, [], false)
    case Whole(data) => HandleReliable(r, m.number, data, limit, accepting)
    case Piece(start, count, index, total, offset, data) =>
      HandleFragment(r, Fragment(start, count, index, total, offset, data), limit, accepting)
  }

  function Datas(queue: seq<IncomingCommand>): seq<seq<byte>> {
    seq(|queue|, i requires 0 <= i < |queue| => queue[i].data)
  }

  ghost function After(w: World, c: byte, step: Step): World
    requires Inv(w, c) && Enabled(w, c, step)
  {
    StepIsDefined(w, c, step);
    match step
    case Send(channel, data, flags, h) =>
      w.(s := PeerSend(w.s, channel, data, flags, h),
         ps := if channel == c && SentReliably(w.s, channel, data, flags, h)
               then w.ps + [ParcelOf(w.s, channel, data, h)] else w.ps)
    case Control(x) => w.(s := Setup(w.s, x))
    case Transmit(e, d) =>
      var q := Finish(StartPass(w.s, d), e);
      w.(s := q.s, air := w.air + set m | m in q.out && Reliable(m, c))
    case Timeout(t) => w.(s := CheckTimeouts(w.s, t).s)
    case Acknowledged(n) => w.(s := RemoveSent(w.s, Wire(n), c).s)
    case OtherAcknowledged(number, channel) => w.(s := RemoveSent(w.s, number, channel).s)
    case Arrive(m, limit, accepting) =>
      var h := Respond(w.r, m, limit, accepting);
      w.(r := h.r, delivered := w.delivered + Datas(h.dispatched),
         acks := if h.ok && Acknowledges(h.r.number, m.number) then w.acks + {m.serial} else w.acks)
  }

  lemma StepIsDefined(w: World, c: byte, step: Step)
    requires Inv(w, c) && Enabled(w, c, step)
    ensures MINIMUM_MTU <= w.s.mtu && |w.s.channels| <= CONTROL_CHANNEL && WindowsCounted(w.s) && EntriesOk(w.r)
    ensures step.Transmit? ==> PassOk(StartPass(w.s, step.datagram), c)
    ensures step.Send? ==> FragmentLength(w.s, step.host) > 0
  {
    hide Valid, Orderly, AirInv, AcksInv, SettledInv, Sorted, EntriesHold, Known, DatagramOk, Spared, PassOk,
         WindowsCounted;
    SenderIsDefined(w.s);
    if step.Transmit? {
      PassIsDefined(w.s, step.datagram, c);
    }
  }

  lemma SenderIsDefined(s: Sender)
    requires Valid(s)
    ensures MINIMUM_MTU <= s.mtu && |s.channels| <= CONTROL_CHANNEL && WindowsCounted(s)
  {
    hide AllCount, MessagesOk, AttemptedFirst, AllAttempted, Bytes;
    ValidCounts(s);
  }

  lemma PassIsDefined(s: Sender, d: Datagram, c: byte)
    requires Valid(s) && Orderly(s, c) && Spared(s, c) && DatagramOk(d, s.mtu)
    ensures PassOk(StartPass(s, d), c)
  {
    hide Valid, ChannelOk, DatagramOk, Spares, Numbered;
    assert s.outgoing[0..] == s.outgoing;
  }

  // ---- each step keeps it ----

  /** The sender never runs more than seven windows ahead of the receiver. */
  lemma SenderStaysNear(w: World, c: byte)
    requires Inv(w, c)
    ensures WindowOf(w.s.channels[c].launched) <= WindowOf(Reached(w)) + 7
  {
    hide Valid, Orderly, WindowOf, Follows, EndOf, InFlight, Received, AirInv;
    BoundOf(w.s, c);
    var launched := w.s.channels[c].launched;
    var top := WindowOf(launched);
    if top >= 2 {
      assert WindowHasGap(InFlight(w.s, c), top - 1);
      var n: nat :| n !in InFlight(w.s, c) && WindowOf(n) == top - 1;
      InEarlierWindow(n, launched);
      assert Settled(w.s, c, n);
    }
  }

  lemma InEarlierWindow(n: nat, launched: nat)
    requires 1 <= WindowOf(n) < WindowOf(launched)
    ensures 1 <= n <= launched
  {
  }

  lemma SenderMoves(w: World, c: byte, s': Sender, air': set<Message>)
    requires Inv(w, c) && Valid(s') && Orderly(s', c) && Spared(s', c) && |s'.channels| == |w.s.channels|
    requires s'.channels[c].issued == w.s.channels[c].issued && s'.channels[c].launched >= w.s.channels[c].launched
    requires forall m :: m in Held(s') && Reliable(m, c) ==> m in Held(w.s)
    requires forall n :: Settled(s', c, n) ==> n in w.acks
    requires forall m :: m in air' && m !in w.air ==> Reliable(m, c) && m in Held(w.s)
                                                      && m.serial <= s'.channels[c].launched
    ensures Inv(w.(s := s', air := air'), c)
  {
    hide Valid, Orderly, Spared, Held, Known, Follows, LaidOut, EndOf, Settled, Received, WindowOf;
  }

  lemma TransmitKeepsInv(w: World, c: byte, e: Settings, d: Datagram)
    requires Inv(w, c) && Enabled(w, c, Transmit(e, d))
    ensures Inv(After(w, c, Transmit(e, d)), c)
  {
    hide Valid, Orderly, Held, Known, Follows, LaidOut, EndOf, Settled, ReceiverInv, AirInv, AcksInv, DatagramOk,
         Spared, Finish,
        PassShaped;
    StepIsDefined(w, c, Transmit(e, d));
    var p := StartPass(w.s, d);
    ValidIsShaped(p);
    PassSpares(w.s, e, d, c);
    PassKeepsValid(p, e);
    PassKeepsOk(p, e, c);
    var q := Finish(p, e);
    var air' := w.air + set m | m in q.out && Reliable(m, c);
    assert q.out[|p.out|..] == q.out;
    SenderMoves(w, c, q.s, air');
  }

  lemma TimeoutKeepsInv(w: World, c: byte, t: Clock)
    requires Inv(w, c)
    ensures Inv(After(w, c, Timeout(t)), c)
  {
    hide Valid, Orderly, Held, Known, Follows, LaidOut, EndOf, Settled, ReceiverInv, AirInv, AcksInv, SweepOn, Spared;
    TimeoutsSpare(w.s, t, c);
    TimeoutsKeepValid(Sweep(w.s, 0, 0, false), t);
    TimeoutsKeepOrder(Sweep(w.s, 0, 0, false), t, c);
    var s' := CheckTimeouts(w.s, t).s;
    SenderMoves(w, c, s', w.air);
  }

  /** Such an acknowledgement settles the number it was sent for, if any. */
  lemma NamedByCurrent(s: Sender, c: byte, n: nat, x: nat)
    requires Orderly(s, c) && n <= s.channels[c].launched && IsCurrent(s, c, n) && Names(s, c, Wire(n), x)
    ensures x == n
  {
    hide Valid, InFlight, Wire, WindowHasGap;
    BoundOf(s, c);
    FlightIsNear(x, s.channels[c].launched);
    WireIsInjective(x, n);
  }

  lemma FlightIsNear(x: nat, launched: nat)
    requires WindowOf(launched) <= WindowOf(x) + 6
    ensures launched < x + NUMBERS
  {
  }

  lemma AcknowledgedWasSent(acks: set<nat>, r: Receiver, reached: nat, launched: nat, n: nat)
    requires AcksInv(acks, r, reached, launched) && n in acks
    ensures n <= launched
  {
  }

  lemma AcknowledgedKeepsInv(w: World, c: byte, n: nat)
    requires Inv(w, c) && Enabled(w, c, Acknowledged(n))
    ensures Inv(After(w, c, Acknowledged(n)), c)
  {
    hide Valid, Orderly, Held, Known, Follows, LaidOut, EndOf, Settled, AirInv, AcksInv, Drained, RemoveSent, Wire,
         Names, Spared;
    PartsOf(w.ps);
    RemoveSentSettles(w.s, Wire(n), c);
    RemovalSpares(w.s, Wire(n), c, c);
    var s' := RemoveSent(w.s, Wire(n), c).s;
    forall x | Settled(s', c, x) ensures x in w.acks {
      if Names(w.s, c, Wire(n), x) {
        AcknowledgedWasSent(w.acks, w.r, Reached(w), w.s.channels[c].launched, n);
        NamedByCurrent(w.s, c, n, x);
      }
    }
    SenderMoves(w, c, s', w.air);
  }

  lemma OtherAcknowledgedKeepsInv(w: World, c: byte, number: u16, channel: byte)
    requires Inv(w, c) && Enabled(w, c, OtherAcknowledged(number, channel))
    ensures Inv(After(w, c, OtherAcknowledged(number, channel)), c)
  {
    hide Valid, Orderly, Held, Known, Follows, LaidOut, EndOf, Settled, ReceiverInv, AirInv, AcksInv, RemoveSent,
         Names, Spared;
    RemoveSentSettles(w.s, number, channel);
    RemovalSpares(w.s, number, channel, c);
    var t := RemoveSent(w.s, number, channel).s;
    assert t.channels[c].launched == w.s.channels[c].launched && t.channels[c].issued == w.s.channels[c].issued;
    forall n | Settled(t, c, n) ensures n in w.acks {
      assert Settled(w.s, c, n);
    }
    SenderMoves(w, c, t, w.air);
  }

  lemma ControlKeepsInv(w: World, c: byte, x: Command)
    requires Inv(w, c) && Enabled(w, c, Control(x))
    ensures Inv(After(w, c, Control(x)), c)
  {
    hide Valid, Orderly, Held, Known, Follows, LaidOut, EndOf, Settled, ReceiverInv, AirInv, AcksInv, CommandSize,
         Spares, Numbered;
    SetupKeepsValid(w.s, x);
    SetupSparesIff(w.s, x, c);
    SetupNumberedIff(w.s, x);
    ChannelCount(w.s);
    SetupIsElsewhere(w.s, x, c);
    SenderMoves(w, c, Setup(w.s, x), w.air);
  }

  lemma SetupIsElsewhere(s: Sender, x: Command, c: byte)
    requires ChannelExists(s, x) && c < |s.channels| <= CONTROL_CHANNEL && !(x.acknowledge && x.channel == c)
    ensures var s' := Setup(s, x);
            && s'.channels[c].issued == s.channels[c].issued && s'.channels[c].launched == s.channels[c].launched
            && !Reliable(s'.outgoing[|s'.outgoing| - 1].message, c)
  {
  }

  // ---- a packet is queued ----

  lemma KnownStays(ps: seq<Parcel>, p: Parcel, m: Message)
    requires LaidOut(ps) && Cuttable(p) && p.first == EndOf(ps, |ps|) + 1 && Known(ps, m)
    ensures Known(ps + [p], m)
  {
    hide Carries, EndOf, LaidOut, At;
    LayOutMore(ps, p);
  }

  lemma KnownNew(ps: seq<Parcel>, p: Parcel, m: Message)
    requires LaidOut(ps) && Cuttable(p) && p.first == EndOf(ps, |ps|) + 1 && Carries(p, m)
    ensures Known(ps + [p], m)
  {
    hide EndOf, LaidOut, At, PayloadOf, Count;
    LayOutMore(ps, p);
    PartsOf(ps + [p]);
    assert LaidOut(ps + [p]) && EndOf(ps + [p], |ps|) == p.first - 1;
    AtIsUnique(ps + [p], m.serial, |ps|);
  }

  lemma FollowsStays(r: Receiver, ps: seq<Parcel>, p: Parcel, m: nat)
    requires Follows(r, ps, m) && Cuttable(p) && p.first == EndOf(ps, |ps|) + 1
    ensures Follows(r, ps + [p], m) && EndOf(ps + [p], m) == EndOf(ps, m)
  {
    hide EndOf, LaidOut, At, Sorted, Holds, Wire, Within;
    LayOutMore(ps, p);
    PartsOf(ps);
    var reached := EndOf(ps, m);
    forall i | 0 <= i < |r.queue| ensures Entry(ps + [p], r.queue[i], reached + Ahead(r.queue, r.number, i)) {
      assert Entry(ps, r.queue[i], reached + Ahead(r.queue, r.number, i));
    }
  }

  lemma QueueParcelKeepsInv(w: World, c: byte, s': Sender, p: Parcel)
    requires Inv(w, c) && Cuttable(p) && p.first == w.s.channels[c].issued + 1
    requires OnlyQueues(w.s, s') && NewAreCarried(w.s, s', c, p) && Issues(w.s, s', c, Count(p)) && Spared(s', c)
    ensures Inv(w.(s := s', ps := w.ps + [p]), c)
  {
    hide Valid, Orderly, Held, Known, Follows, LaidOut, EndOf, Settled, Received, Carries, Count, WindowOf;
    var ps' := w.ps + [p];
    LayOutMore(w.ps, p);
    FollowsStays(w.r, w.ps, p, |w.delivered|);
    forall m | Known(w.ps, m) ensures Known(ps', m) {
      KnownStays(w.ps, p, m);
    }
    forall m | m in Held(s') && Reliable(m, c) ensures Known(ps', m) {
      if m !in Held(w.s) {
        KnownNew(w.ps, p, m);
      }
    }
  }

  lemma SendKeepsInv(w: World, c: byte, channel: byte, data: seq<byte>, flags: Flags, h: Host)
    requires Inv(w, c) && Enabled(w, c, Send(channel, data, flags, h))
    ensures Inv(After(w, c, Send(channel, data, flags, h)), c)
  {
    hide Valid, Orderly, Held, Known, Follows, LaidOut, EndOf, Settled, Received, Carries, Count, WindowOf, PeerSend,
         RouteOf,
        SentReliably, ReceiverInv, AirInv, AcksInv, Spares, Numbered, Endangers;
    StepIsDefined(w, c, Send(channel, data, flags, h));
    var s' := PeerSend(w.s, channel, data, flags, h);
    SendSparesIff(w.s, channel, data, flags, h, c);
    if SentReliably(w.s, channel, data, flags, h) {
      SendQueuesParcel(w.s, channel, data, flags, h);
      if channel == c {
        QueueParcelKeepsInv(w, c, s', ParcelOf(w.s, c, data, h));
      } else {
        SenderMoves(w, c, s', w.air);
      }
    } else {
      SendPlain(w.s, channel, data, flags, h);
      SenderMoves(w, c, s', w.air);
    }
  }

  // ---- a command arrives ----

  lemma RespondArrives(r: Receiver, ps: seq<Parcel>, m: nat, x: Message, limit: nat, accepting: bool)
    requires Follows(r, ps, m) && Drained(r.queue, r.number) && Arrivable(ps, m, x.serial) && Known(ps, x)
    ensures EntriesOk(r) && Handles(r, Respond(r, x, limit, accepting), ps, m, x.serial)
  {
    hide Follows, Drained, LaidOut, EndOf, Within, At, Count, Uncut, Handles, HandleReliable, HandleFragment;
    var p := ps[At(ps, x.serial)];
    AheadOrBehind(ps, m, x.serial);
    NumberReached(r, ps, m);
    PayloadCases(p, x);
    if Uncut(p) {
      WholeArrives(r, ps, m, x.serial, limit, accepting);
    } else {
      FragmentArrives(r, ps, m, x.serial, limit, accepting);
    }
  }

  lemma PayloadCases(p: Parcel, x: Message)
    requires Cuttable(p) && Carries(p, x)
    ensures x.number == Wire(x.serial)
    ensures Uncut(p) ==> x.command.payload == Whole(p.data)
    ensures !Uncut(p) ==>
              && x.command.payload.Piece?
              && var f := FragmentOf(p, x.serial - p.first); var q := x.command.payload;
              f == Fragment(q.start, q.count, q.index, q.total, q.offset, q.data)
  {
    hide Count, PartEnd;
  }

  lemma ArriveKeepsInv(w: World, c: byte, x: Message, limit: nat, accepting: bool)
    requires Inv(w, c) && Enabled(w, c, Arrive(x, limit, accepting))
    ensures Inv(After(w, c, Arrive(x, limit, accepting)), c)
  {
    hide Valid, Orderly, Held, Known, Follows, LaidOut, EndOf, Settled, Received, WindowOf, Drained, Respond, Handles,
        Spared;
    StepIsDefined(w, c, Arrive(x, limit, accepting));
    var m := |w.delivered|;
    SenderStaysNear(w, c);
    ArrivesNear(w, c, x);
    RespondArrives(w.r, w.ps, m, x, limit, accepting);
    var h := Respond(w.r, x, limit, accepting);
    var w' := After(w, c, Arrive(x, limit, accepting));
    HandledDelivers(w.r, h, w.ps, w.delivered, x.serial);
    HandledAcks(w.r, h, w.ps, m, x, w.acks, w.s.channels[c].launched);
    HandledArrives(w.r, h, w.ps, m, x.serial, w.s.channels[c].launched);
  }

  lemma ArrivesNear(w: World, c: byte, x: Message)
    requires Inv(w, c) && x in w.air && IsFresh(w.ps, |w.delivered|, x)
    requires WindowOf(w.s.channels[c].launched) <= WindowOf(Reached(w)) + 7
    ensures Arrivable(w.ps, |w.delivered|, x.serial) && Known(w.ps, x) && x.number == Wire(x.serial)
    ensures x.serial <= w.s.channels[c].launched
  {
    hide Valid, Held, Follows, EndOf, Settled, Received, Drained, Count, PayloadOf;
    WindowsMonotone(x.serial, w.s.channels[c].launched);
  }

  lemma HandledDelivers(r: Receiver, h: Handled, ps: seq<Parcel>, delivered: seq<seq<byte>>, n: nat)
    requires ReceiverInv(r, ps, delivered) && Handles(r, h, ps, |delivered|, n)
    ensures ReceiverInv(h.r, ps, delivered + Datas(h.dispatched))
  {
    hide Follows, Drained, LaidOut, EndOf, Received, Acknowledges;
  }

  lemma HandledArrives(r: Receiver, h: Handled, ps: seq<Parcel>, m: nat, n: nat, launched: nat)
    requires LaidOut(ps) && m <= |ps| && Handles(r, h, ps, m, n) && ArrivedInv(r, EndOf(ps, m), launched)
    requires n <= launched
    ensures m + |h.dispatched| <= |ps| && ArrivedInv(h.r, EndOf(ps, m + |h.dispatched|), launched)
  {
    hide Follows, Drained, LaidOut, EndOf, Received, Acknowledges, WindowOf;
    PartsOf(ps);
  }

  lemma HandledAcks(r: Receiver, h: Handled, ps: seq<Parcel>, m: nat, x: Message, acks: set<nat>, launched: nat)
    requires LaidOut(ps) && m <= |ps| && Handles(r, h, ps, m, x.serial) && AcksInv(acks, r, EndOf(ps, m), launched)
    requires x.number == Wire(x.serial) && x.serial <= launched
    ensures m + |h.dispatched| <= |ps|
    ensures var acks' := if h.ok && Acknowledges(h.r.number, x.number) then acks + {x.serial} else acks;
            AcksInv(acks', h.r, EndOf(ps, m + |h.dispatched|), launched)
  {
    hide Follows, Drained, LaidOut, EndOf, Received, Acknowledges, WindowOf;
    PartsOf(ps);
    WindowsMonotone(EndOf(ps, m), EndOf(ps, m + |h.dispatched|));
  }

  lemma StepKeepsInv(w: World, c: byte, step: Step)
    requires Inv(w, c) && Enabled(w, c, step)
    ensures Inv(After(w, c, step), c)
  {
    hide Inv, After;
    match step
    case Send(channel, data, flags, h) => SendKeepsInv(w, c, channel, data, flags, h);
    case Control(x) => ControlKeepsInv(w, c, x);
    case Transmit(e, d) => TransmitKeepsInv(w, c, e, d);
    case Timeout(t) => TimeoutKeepsInv(w, c, t);
    case Acknowledged(n) => AcknowledgedKeepsInv(w, c, n);
    case OtherAcknowledged(number, channel) => OtherAcknowledgedKeepsInv(w, c, number, channel);
    case Arrive(m, limit, accepting) => ArriveKeepsInv(w, c, m, limit, accepting);
  }

  // ---- whole runs ----

  ghost predicate AllEnabled(w: World, c: byte, run: seq<Step>)
    requires Inv(w, c)
    decreases |run|
  {
    run == [] ||
    (Enabled(w, c, run[0]) &&
     (StepKeepsInv(w, c, run[0]);
      AllEnabled(After(w, c, run[0]), c, run[1..])))
  }

  ghost function AfterAll(w: World, c: byte, run: seq<Step>): World
    requires Inv(w, c) && AllEnabled(w, c, run)
    decreases |run|
  {
    if run == [] then w else
      StepKeepsInv(w, c, run[0]);
      AfterAll(After(w, c, run[0]), c, run[1..])
  }

  lemma {:induction false} RunKeepsInv(w: World, c: byte, run: seq<Step>)
    requires Inv(w, c) && AllEnabled(w, c, run)
    ensures Inv(AfterAll(w, c, run), c)
    decreases |run|
  {
    hide Inv, After;
    if run != [] {
      StepKeepsInv(w, c, run[0]);
      RunKeepsInv(After(w, c, run[0]), c, run[1..]);
    }
  }

  /** A fresh connection: nothing numbered, nothing sent, nothing received. */
  ghost predicate Starts(w: World, c: byte) {
    && SenderRuns.IsNew(w.s) && c < |w.s.channels|
    && w.r == Receiver(0, []) && w.ps == [] && w.delivered == [] && w.air == {} && w.acks == {}
  }

  lemma StartsInv(w: World, c: byte)
    requires Starts(w, c)
    ensures Inv(w, c)
  {
    SenderRuns.NewIsValid(w.s);
    SenderRuns.NewIsOrderly(w.s, c);
    assert Held(w.s) == {};
  }

  // ---- packets that are too long ----

  /** No packet dispatched ended more than seven windows after those before it. */
  ghost predicate AllShort(ps: seq<Parcel>, m: nat)
    requires AllCuttable(ps) && m <= |ps|
  {
    forall i :: 0 <= i < m ==> WindowOf(EndOf(ps, i + 1)) <= WindowOf(EndOf(ps, i)) + 7
  }

  lemma DispatchedAreShort(w: World, w': World, c: byte)
    requires Inv(w, c) && Inv(w', c) && w'.ps == w.ps && |w.delivered| <= |w'.delivered|
    requires w'.s.channels[c].launched == w.s.channels[c].launched && AllShort(w.ps, |w.delivered|)
    ensures AllShort(w.ps, |w'.delivered|)
  {
    hide Valid, Orderly, Spared, Follows, EndOf, WindowOf, Held, Known, Settled;
    SenderStaysNear(w, c);
    var m, m', launched := |w.delivered|, |w'.delivered|, w.s.channels[c].launched;
    forall i | m <= i < m' ensures WindowOf(EndOf(w.ps, i + 1)) <= WindowOf(EndOf(w.ps, i)) + 7 {
      EndsGrow(w.ps, m, i);
      EndsGrow(w.ps, i + 1, m');
      assert Received(w'.r, Reached(w'), EndOf(w.ps, i + 1));
      WindowsMonotone(EndOf(w.ps, i + 1), launched);
      WindowsMonotone(EndOf(w.ps, m), EndOf(w.ps, i));
    }
  }

  lemma MoreStaysShort(ps: seq<Parcel>, p: Parcel, m: nat)
    requires LaidOut(ps) && Cuttable(p) && p.first == EndOf(ps, |ps|) + 1 && m <= |ps| && AllShort(ps, m)
    ensures AllCuttable(ps + [p]) && AllShort(ps + [p], m)
  {
    hide EndOf, WindowOf, LaidOut;
    LayOutMore(ps, p);
    PartsOf(ps + [p]);
  }

  lemma StepKeepsShort(w: World, c: byte, step: Step)
    requires Inv(w, c) && Enabled(w, c, step) && AllShort(w.ps, |w.delivered|)
    ensures var w' := After(w, c, step); |w'.delivered| <= |w'.ps| && AllCuttable(w'.ps)
                                         && AllShort(w'.ps, |w'.delivered|)
  {
    hide Valid, Orderly, Spared, Follows, EndOf, WindowOf, Held, Known, Settled, PeerSend, Finish, Respond, AllShort,
         ReceiverInv, AirInv, AcksInv, ArrivedInv, SettledInv;
    StepKeepsInv(w, c, step);
    var w' := After(w, c, step);
    ShapeOf(w, c);
    ShapeOf(w', c);
    match step
    case Send(channel, data, flags, h) =>
      StepIsDefined(w, c, step);
      if channel == c && SentReliably(w.s, channel, data, flags, h) {
        SendQueuesParcel(w.s, channel, data, flags, h);
        MoreStaysShort(w.ps, ParcelOf(w.s, channel, data, h), |w.delivered|);
      }
    case Arrive(_, _, _) => DispatchedAreShort(w, w', c);
    case _ =>
  }

  lemma ShapeOf(w: World, c: byte)
    requires Inv(w, c)
    ensures LaidOut(w.ps) && AllCuttable(w.ps) && |w.delivered| <= |w.ps|
    ensures c < |w.s.channels| && EndOf(w.ps, |w.ps|) == w.s.channels[c].issued
  {
    hide Valid, Orderly, Spared, Follows, EndOf, Held, Known, Settled, LaidOut;
    PartsOf(w.ps);
  }

  lemma {:induction false} RunKeepsShort(w: World, c: byte, run: seq<Step>)
    requires Inv(w, c) && AllEnabled(w, c, run)
    requires (ShapeOf(w, c); AllShort(w.ps, |w.delivered|))
    ensures var w' := AfterAll(w, c, run);
            |w'.delivered| <= |w'.ps| && AllCuttable(w'.ps) && AllShort(w'.ps, |w'.delivered|)
    decreases |run|
  {
    hide Inv, After, AllShort, Enabled;
    ShapeOf(w, c);
    if run != [] {
      StepKeepsInv(w, c, run[0]);
      StepKeepsShort(w, c, run[0]);
      RunKeepsShort(After(w, c, run[0]), c, run[1..]);
    }
  }
}
