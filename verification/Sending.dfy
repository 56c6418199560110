/** Queueing a packet (enet_peer_send, src/enet/peer.c:99-215): which commands it becomes, and
    that they are the parcel's, in order, under the next free numbers. */
module Sending {
  import opened Words
  import opened Windows
  import opened Outgoing
  import opened SendPass
  import opened Incoming
  import opened Parcels
  import opened Resend

  function SetupAll(s: Sender, cmds: seq<Command>): Sender
    requires forall i :: 0 <= i < |cmds| ==> ChannelExists(s, cmds[i])
    decreases |cmds|
  {
    if cmds == [] then s else
      assert forall i :: 0 <= i < |cmds| - 1 ==> ChannelExists(s, cmds[1..][i]);
      assert forall i :: 0 <= i < |cmds| - 1 ==> ChannelExists(Setup(s, cmds[0]), cmds[1..][i]);
      SetupAll(Setup(s, cmds[0]), cmds[1..])
  }

  datatype Host = Host(maximumPacketSize: u32, checksum: bool)

  /** The most bytes of a packet one datagram can carry as a fragment. */
  function FragmentLength(s: Sender, h: Host): int {
    s.mtu - HEADER_SIZE - CommandSize(SendFragment) - (if h.checksum then 4 else 0)
  }

  datatype Route = Fails | Single(command: Command) | Cutting(kind: Kind, acknowledge: bool, start: u16, count: u32)

  /** How a packet is sent: unreliable numbers are used up to 0xFFFF, after which packets that
      would take one are sent reliably. */
  function RouteOf(s: Sender, channel: byte, data: seq<byte>, flags: Flags, h: Host): (r: Route)
    requires FragmentLength(s, h) > 0
    ensures r.Cutting? ==> |data| <= h.maximumPacketSize && channel < |s.channels|
    ensures r.Single? ==> channel < |s.channels|
  {
    var fl := FragmentLength(s, h);
    if channel >= |s.channels| || |data| > h.maximumPacketSize then Fails
    else
      var ch := s.channels[channel];
      if |data| > fl then
        var count := (|data| + fl - 1) / fl;
        if count > MAXIMUM_FRAGMENT_COUNT then Fails
        else if flags.unreliableFragment && !flags.reliable && ch.unreliableNumber < 0xFFFF then
          Cutting(SendUnreliableFragment, false, ch.unreliableNumber + 1, count)
        else Cutting(SendFragment, true, (ch.number + 1) % NUMBERS, count)
      else if flags.unsequenced && !flags.reliable then
        Single(Command(SendUnsequenced, false, true, channel, Whole(data)))
      else if flags.reliable || ch.unreliableNumber >= 0xFFFF then
        Single(Command(SendReliable, true, false, channel, Whole(data)))
      else Single(Command(SendUnreliable, false, false, channel, Whole(data)))
  }

  predicate IsPiece(c: Command, kind: Kind, acknowledge: bool, channel: byte, fragmentLength: nat) {
    && c.channel == channel && c.kind == kind && c.acknowledge == acknowledge && !c.unsequenced
    && c.payload.Piece? && |c.payload.data| <= fragmentLength
  }

  predicate ArePieces(cmds: seq<Command>, kind: Kind, acknowledge: bool, channel: byte, fragmentLength: nat) {
    forall i :: 0 <= i < |cmds| ==> IsPiece(cmds[i], kind, acknowledge, channel, fragmentLength)
  }

  lemma {:induction false} CutIsOnChannel(kind: Kind, acknowledge: bool, channel: byte, start: u16, count: u32,
      data: seq<byte>,
                                          fragmentLength: nat, index: nat, offset: nat)
    requires 0 < fragmentLength && offset <= |data| < WORD && index <= offset
    ensures ArePieces(Cut(kind, acknowledge, channel, start, count, data, fragmentLength, index, offset),
                      kind, acknowledge, channel, fragmentLength)
    decreases |data| - offset
  {
    if offset < |data| {
      var n := if |data| - offset < fragmentLength then |data| - offset else fragmentLength;
      CutIsOnChannel(kind, acknowledge, channel, start, count, data, fragmentLength, index + 1, offset + n);
    }
  }

  /** The commands a packet becomes. */
  function CommandsOf(s: Sender, channel: byte, data: seq<byte>, flags: Flags, h: Host): (cmds: seq<Command>)
    requires FragmentLength(s, h) > 0
  {
    match RouteOf(s, channel, data, flags, h)
    case Fails => []
    case Single(c) => [c]
    case Cutting(kind, acknowledge, start, count) =>
      Cut(kind, acknowledge, channel, start, count, data, FragmentLength(s, h), 0, 0)
  }

  lemma CommandsAreOk(s: Sender, channel: byte, data: seq<byte>, flags: Flags, h: Host)
    requires MINIMUM_MTU <= s.mtu && |s.channels| <= CONTROL_CHANNEL
    ensures FragmentLength(s, h) > 0
    ensures var cmds := CommandsOf(s, channel, data, flags, h);
            forall i :: 0 <= i < |cmds| ==> CommandOk(s, cmds[i]) && cmds[i].channel == channel
                                            && channel < |s.channels|
  {
    hide Cut;
    var r := RouteOf(s, channel, data, flags, h);
    if r.Cutting? {
      CutIsOnChannel(r.kind, r.acknowledge, channel, r.start, r.count, data, FragmentLength(s, h), 0, 0);
    }
  }

  function PeerSend(s: Sender, channel: byte, data: seq<byte>, flags: Flags, h: Host): Sender
    requires MINIMUM_MTU <= s.mtu && |s.channels| <= CONTROL_CHANNEL
  {
    CommandsAreOk(s, channel, data, flags, h);
    SetupAll(s, CommandsOf(s, channel, data, flags, h))
  }

  // ---- what that queues ----

  /** m is the parcel's command with its serial. */
  predicate Carries(p: Parcel, m: Message)
    requires Cuttable(p)
  {
    && p.first <= m.serial < p.first + Count(p)
    && m.number == Wire(m.serial)
    && m.command.kind == (if Uncut(p) then SendReliable else SendFragment)
    && m.command.payload == PayloadOf(p, m.serial - p.first)
  }

  /** The parcel a packet is queued as, when it is sent reliably. */
  function ParcelOf(s: Sender, channel: byte, data: seq<byte>, h: Host): Parcel
    requires channel < |s.channels| && FragmentLength(s, h) > 0
  {
    Parcel(s.channels[channel].issued + 1, FragmentLength(s, h), data)
  }

  /** What queueing leaves alone. */
  ghost predicate OnlyQueues(s: Sender, s': Sender) {
    && Valid(s') && |s'.channels| == |s.channels| && s'.mtu == s.mtu
    && Held(s) <= Held(s')
    && (forall k: nat, n :: k < |s.channels| ==> (Settled(s', k, n) <==> Settled(s, k, n)))
    && (forall k: nat :: Orderly(s, k) ==> Orderly(s', k))
  }

  ghost predicate NewAreCarried(s: Sender, s': Sender, c: nat, p: Parcel)
    requires Cuttable(p)
  {
    forall m :: m in Held(s') && m !in Held(s) ==> Reliable(m, c) && Carries(p, m)
  }

  ghost predicate Issues(s: Sender, s': Sender, c: nat, n: nat)
    requires |s'.channels| == |s.channels|
  {
    forall k: nat :: k < |s.channels| ==>
      && s'.channels[k].launched == s.channels[k].launched
      && s'.channels[k].issued == s.channels[k].issued + (if k == c then n else 0)
  }

  /** The parcel's commands from the k-th on take the channel's next numbers. */
  lemma {:induction false} SetupAllReliable(s: Sender, c: byte, p: Parcel, k: nat, cmds: seq<Command>)
    requires Valid(s) && c < |s.channels| && Cuttable(p) && k <= Count(p) && |cmds| == Count(p) - k
    requires s.channels[c].issued + 1 == p.first + k
    requires forall i :: 0 <= i < |cmds| ==>
               && CommandOk(s, cmds[i])
               && cmds[i]
                  == Command(if Uncut(p) then SendReliable else SendFragment, true, false, c, PayloadOf(p, k + i))
    ensures var s' := SetupAll(s, cmds);
            OnlyQueues(s, s') && NewAreCarried(s, s', c, p) && Issues(s, s', c, |cmds|)
    decreases |cmds|
  {
    hide Valid, Orderly, Held, Settled, PayloadOf, Count, Uncut, CommandSize;
    if cmds != [] {
      SetupCarries(s, c, p, k, cmds[0]);
      SetupAllReliable(Setup(s, cmds[0]), c, p, k + 1, cmds[1..]);
    }
  }

  lemma SetupCarries(s: Sender, c: byte, p: Parcel, k: nat, x: Command)
    requires Valid(s) && c < |s.channels| && Cuttable(p) && k < Count(p) && CommandOk(s, x)
    requires s.channels[c].issued + 1 == p.first + k
    requires x == Command(if Uncut(p) then SendReliable else SendFragment, true, false, c, PayloadOf(p, k))
    ensures var s' := Setup(s, x);
            OnlyQueues(s, s') && NewAreCarried(s, s', c, p) && Issues(s, s', c, 1)
  {
    hide Valid, Orderly, Held, Settled, PayloadOf, Count, Uncut;
    ChannelCount(s);
    SetupKeepsValid(s, x);
    NumberedOk(s, x);
    var s' := Setup(s, x);
    forall i: nat | i < |s.channels| ensures s'.channels[i].launched == s.channels[i].launched {
    }
  }

  lemma ChannelCount(s: Sender)
    requires Valid(s)
    ensures |s.channels| <= CONTROL_CHANNEL
  {
  }

  /** Commands that want no acknowledgement take no reliable number. */
  lemma {:induction false} SetupAllPlain(s: Sender, cmds: seq<Command>)
    requires Valid(s)
    requires forall i :: 0 <= i < |cmds| ==> CommandOk(s, cmds[i]) && !cmds[i].acknowledge
                                             && cmds[i].channel < |s.channels|
    ensures var s' := SetupAll(s, cmds);
            && OnlyQueues(s, s') && Issues(s, s', 0, 0)
            && forall m :: m in Held(s') && m !in Held(s) ==> !m.command.acknowledge
    decreases |cmds|
  {
    hide Valid, Orderly, Held, Settled;
    if cmds != [] {
      ChannelCount(s);
      SetupKeepsValid(s, cmds[0]);
      SetupAllPlain(Setup(s, cmds[0]), cmds[1..]);
    }
  }

  /** What is turned away: no such channel, or too many bytes, also for 1048576 fragments. */
  predicate Rejected(s: Sender, channel: byte, data: seq<byte>, h: Host)
    requires FragmentLength(s, h) > 0
  {
    channel >= |s.channels| || |data| > h.maximumPacketSize || |data| > 1048576 * FragmentLength(s, h)
  }

  /** Whether a packet is sent reliably: when it says so; when it has to be cut and does not allow that
      unreliably; and when it would take an unreliable number of which there are none left. */
  predicate SentReliably(s: Sender, channel: byte, data: seq<byte>, flags: Flags, h: Host)
    requires FragmentLength(s, h) > 0
  {
    && !Rejected(s, channel, data, h)
    && (|| flags.reliable
        || (|data| > FragmentLength(s, h) && !flags.unreliableFragment)
        || (s.channels[channel].unreliableNumber >= 0xFFFF && (|data| > FragmentLength(s, h) || !flags.unsequenced)))
  }

  /** The branches of the code decide just that. */
  lemma RouteByFlags(s: Sender, channel: byte, data: seq<byte>, flags: Flags, h: Host)
    requires FragmentLength(s, h) > 0
    ensures var r := RouteOf(s, channel, data, flags, h);
            && (r.Fails? <==> Rejected(s, channel, data, h))
            && (SentReliably(s, channel, data, flags, h)
                <==> (r.Single? && r.command.acknowledge) || (r.Cutting? && r.acknowledge))
  {
    var fl := FragmentLength(s, h);
    var count := (|data| + fl - 1) / fl;
    assert count * fl <= |data| + fl - 1 < count * fl + fl;
    if count > 1048576 {
      Scaled(1048577, count, fl);
    } else {
      Scaled(count, 1048576, fl);
    }
  }

  /** A packet sent reliably is queued whole: as one parcel, under the channel's next numbers. */
  lemma SendQueuesParcel(s: Sender, channel: byte, data: seq<byte>, flags: Flags, h: Host)
    requires Valid(s) && FragmentLength(s, h) > 0 && SentReliably(s, channel, data, flags, h)
    ensures MINIMUM_MTU <= s.mtu && channel < |s.channels| <= CONTROL_CHANNEL
    ensures var p := ParcelOf(s, channel, data, h); var s' := PeerSend(s, channel, data, flags, h);
            && Cuttable(p)
            && OnlyQueues(s, s') && NewAreCarried(s, s', channel, p) && Issues(s, s', channel, Count(p))
  {
    hide OnlyQueues, NewAreCarried, Issues, AllCount, MessagesOk, AttemptedFirst, AllAttempted, Bytes, SentReliably,
         RouteOf,
         CommandsOf, Count, PayloadOf, FragmentLength, CommandOk;
    CommandsAreOk(s, channel, data, flags, h);
    RouteByFlags(s, channel, data, flags, h);
    RouteExists(s, channel, data, flags, h);
    ChannelNumber(s, channel);
    CommandsCarryParcel(s, channel, data, flags, h);
    SetupAllReliable(s, channel, ParcelOf(s, channel, data, h), 0, CommandsOf(s, channel, data, flags, h));
  }

  lemma RouteExists(s: Sender, channel: byte, data: seq<byte>, flags: Flags, h: Host)
    requires FragmentLength(s, h) > 0 && SentReliably(s, channel, data, flags, h)
    ensures channel < |s.channels|
  {
  }

  /** The commands of a packet sent reliably are the packet, or its fragments in order. */
  lemma CommandsCarryParcel(s: Sender, channel: byte, data: seq<byte>, flags: Flags, h: Host)
    requires FragmentLength(s, h) > 0 && SentReliably(s, channel, data, flags, h) && channel < |s.channels|
    requires (s.channels[channel].number + 1) % NUMBERS == Wire(s.channels[channel].issued + 1)
    ensures var p := ParcelOf(s, channel, data, h); var cmds := CommandsOf(s, channel, data, flags, h);
            && Cuttable(p) && |cmds| == Count(p)
            && forall i :: 0 <= i < |cmds| ==>
                 cmds[i]
                 == Command(if Uncut(p) then SendReliable else SendFragment, true, false, channel, PayloadOf(p, i))
  {
    hide Cut, PartStart, FragmentLength, SentReliably;
    RouteByFlags(s, channel, data, flags, h);
    var p := ParcelOf(s, channel, data, h);
    if RouteOf(s, channel, data, flags, h).Cutting? {
      CutFromStart(p);
      CutMeans(SendFragment, true, channel, p, 0);
    }
  }

  lemma CutFromStart(p: Parcel)
    requires 0 < p.fragmentLength && !Uncut(p)
    ensures PartStart(p, 0) == 0 && Count(p) == (|p.data| + p.fragmentLength - 1) / p.fragmentLength
  {
  }

  lemma ChannelNumber(s: Sender, c: nat)
    requires Valid(s) && c < |s.channels|
    ensures s.channels[c].number == Wire(s.channels[c].issued)
    ensures (s.channels[c].number + 1) % NUMBERS == Wire(s.channels[c].issued + 1)
  {
    hide MessagesOk, AttemptedFirst, Bytes, Marks, Tally;
    assert Counts(s, c);
    NextWire(s.channels[c].issued);
  }

  /** Any other packet changes nothing that concerns reliable commands. */
  lemma SendPlain(s: Sender, channel: byte, data: seq<byte>, flags: Flags, h: Host)
    requires Valid(s) && FragmentLength(s, h) > 0 && !SentReliably(s, channel, data, flags, h)
    ensures MINIMUM_MTU <= s.mtu && |s.channels| <= CONTROL_CHANNEL
    ensures var s' := PeerSend(s, channel, data, flags, h);
            && OnlyQueues(s, s') && Issues(s, s', 0, 0)
            && forall m :: m in Held(s') && m !in Held(s) ==> !m.command.acknowledge
  {
    hide OnlyQueues, Issues, AllCount, MessagesOk, AttemptedFirst, Held, Cut, SentReliably;
    CommandsAreOk(s, channel, data, flags, h);
    RouteByFlags(s, channel, data, flags, h);
    var r := RouteOf(s, channel, data, flags, h);
    if r.Cutting? {
      CutIsOnChannel(r.kind, r.acknowledge, channel, r.start, r.count, data, FragmentLength(s, h), 0, 0);
    }
    SetupAllPlain(s, CommandsOf(s, channel, data, flags, h));
  }
}
