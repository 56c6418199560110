/** What enet_peer_send queues, told from the packet's flags and size alone (src/enet/peer.c:99-215). */
module SendFlags {
  import opened Words
  import opened Windows
  import opened Outgoing
  import opened SendPass
  import opened Resend
  import opened Incoming
  import opened Parcels
  import opened Sending

  /** A command as it is queued: never sent, not timed. */
  function Fresh(c: Command, number: u16, unreliableNumber: u16, group: u16, serial: nat): OutgoingCommand {
    OutgoingCommand(Message(c, number, unreliableNumber, group, serial), 0, 0, 0, 0)
  }

  /** The commands of a parcel from the k-th on, under the reliable numbers after n. */
  function ReliableFrom(p: Parcel, c: byte, n: u16, k: nat): (cmds: seq<OutgoingCommand>)
    requires Cuttable(p) && k <= Count(p)
    ensures |cmds| == Count(p) - k
  {
    seq(Count(p) - k, i requires 0 <= i < Count(p) - k =>
      Fresh(Command(if Uncut(p) then SendReliable else SendFragment, true, false, c, PayloadOf(p, k + i)),
            (n + 1 + i) % NUMBERS, 0, 0, p.first + k + i))
  }

  /** The fragments of a packet from the k-th on, all under the reliable number n and the unreliable
      number that names the parcel. */
  function UnreliableFrom(p: Parcel, c: byte, n: u16, u: u16, k: nat): (cmds: seq<OutgoingCommand>)
    requires Cuttable(p) && k <= Count(p)
    ensures |cmds| == Count(p) - k
  {
    seq(Count(p) - k, i requires 0 <= i < Count(p) - k =>
      Fresh(Command(SendUnreliableFragment, false, false, c, PayloadOf(p, k + i)), n, u, 0, 0))
  }

  /** The channel after n more reliable commands. */
  function Numbered(ch: SendChannel, n: nat): SendChannel {
    if n == 0 then ch else ch.(number := (ch.number + n) % NUMBERS, unreliableNumber := 0, issued := ch.issued + n)
  }

  lemma ReliableUnfolds(p: Parcel, c: byte, n: u16, k: nat)
    requires Cuttable(p) && k < Count(p)
    ensures ReliableFrom(p, c, n, k)
         == [Fresh(Command(if Uncut(p) then SendReliable else SendFragment, true, false, c, PayloadOf(p, k)),
                   (n + 1) % NUMBERS, 0, 0, p.first + k)]
            + ReliableFrom(p, c, (n + 1) % NUMBERS, k + 1)
  {
    hide PayloadOf, Count, Uncut;
  }

  lemma SetupOne(s: Sender, c: byte, x: Command)
    requires c < |s.channels| <= CONTROL_CHANNEL && x.channel == c && x.acknowledge
    ensures var ch := s.channels[c];
            Setup(s, x) == s.(channels := s.channels[c := Numbered(ch, 1)],
                              outgoing := s.outgoing + [Fresh(x, (ch.number + 1) % NUMBERS, 0, 0, ch.issued + 1)])
  {
  }

  lemma {:induction false} SetupReliable(s: Sender, c: byte, p: Parcel, k: nat, cmds: seq<Command>)
    requires c < |s.channels| <= CONTROL_CHANNEL && Cuttable(p) && k <= Count(p) && |cmds| == Count(p) - k
    requires s.channels[c].issued + 1 == p.first + k
    requires forall i :: 0 <= i < |cmds| ==>
               cmds[i] == Command(if Uncut(p) then SendReliable else SendFragment, true, false, c, PayloadOf(p, k + i))
    ensures SetupAll(s, cmds)
         == s.(channels := s.channels[c := Numbered(s.channels[c], |cmds|)],
               outgoing := s.outgoing + ReliableFrom(p, c, s.channels[c].number, k))
    decreases |cmds|
  {
    hide PayloadOf, Count, Uncut, Setup, Numbered, Fresh, ReliableFrom;
    var ch := s.channels[c];
    if cmds == [] {
      assert s.channels[c := ch] == s.channels;
      NumberedNone(ch);
    } else {
      SetupOne(s, c, cmds[0]);
      NumberedOnce(ch);
      SetupReliable(Setup(s, cmds[0]), c, p, k + 1, cmds[1..]);
      NumbersAdd(ch, |cmds| - 1);
      ReliableUnfolds(p, c, ch.number, k);
      assert cmds[0].payload == PayloadOf(p, k + 0);
    }
  }

  lemma NumberedNone(ch: SendChannel)
    ensures Numbered(ch, 0) == ch
  {
  }

  lemma NumberedOnce(ch: SendChannel)
    ensures Numbered(ch, 1).number == (ch.number + 1) % NUMBERS && Numbered(ch, 1).issued == ch.issued + 1
  {
  }

  lemma NumbersAdd(ch: SendChannel, n: nat)
    ensures Numbered(Numbered(ch, 1), n) == Numbered(ch, n + 1)
  {
  }

  lemma UnreliableUnfolds(p: Parcel, c: byte, n: u16, u: u16, k: nat)
    requires Cuttable(p) && k < Count(p)
    ensures UnreliableFrom(p, c, n, u, k)
         == [Fresh(Command(SendUnreliableFragment, false, false, c, PayloadOf(p, k)), n, u, 0, 0)]
            + UnreliableFrom(p, c, n, u, k + 1)
  {
    hide PayloadOf, Count;
  }

  lemma SetupFragment(s: Sender, c: byte, p: Parcel, u: u16, k: nat, x: Command)
    requires c < |s.channels| <= CONTROL_CHANNEL && Cuttable(p) && !Uncut(p) && k < Count(p) && u >= 1
    requires s.channels[c].unreliableNumber == if k == 0 then u - 1 else u
    requires x == Command(SendUnreliableFragment, false, false, c, PayloadOf(p, k))
    ensures var ch := s.channels[c];
            Setup(s, x) == s.(channels := s.channels[c := ch.(unreliableNumber := u)],
                              outgoing := s.outgoing + [Fresh(x, ch.number, u, 0, 0)])
  {
    FirstOffset(p, k);
    hide PayloadOf, Count, Uncut;
  }

  lemma {:induction false} SetupFragments(s: Sender, c: byte, p: Parcel, u: u16, k: nat, cmds: seq<Command>)
    requires c < |s.channels| <= CONTROL_CHANNEL && Cuttable(p) && !Uncut(p)
    requires k <= Count(p) && |cmds| == Count(p) - k && u >= 1
    requires s.channels[c].unreliableNumber == if k == 0 then u - 1 else u
    requires forall i :: 0 <= i < |cmds| ==>
               cmds[i] == Command(SendUnreliableFragment, false, false, c, PayloadOf(p, k + i))
    ensures SetupAll(s, cmds)
         == s.(channels := s.channels[c := s.channels[c].(unreliableNumber := u)],
               outgoing := s.outgoing + UnreliableFrom(p, c, s.channels[c].number, u, k))
    decreases |cmds|
  {
    hide Count, Uncut, PayloadOf, Setup, Fresh, UnreliableFrom;
    if cmds == [] {
      assert s.channels[c := s.channels[c]] == s.channels;
    } else {
      assert cmds[0].payload == PayloadOf(p, k + 0);
      SetupFragment(s, c, p, u, k, cmds[0]);
      SetupFragments(Setup(s, cmds[0]), c, p, u, k + 1, cmds[1..]);
      UnreliableUnfolds(p, c, s.channels[c].number, u, k);
    }
  }

  lemma FirstOffset(p: Parcel, k: nat)
    requires Cuttable(p) && !Uncut(p) && k < Count(p)
    ensures OffsetOf(PayloadOf(p, k)) == 0 <==> k == 0
  {
    hide Count;
    PartBounds(p, k);
  }

  // ---- what each kind of packet becomes ----

  /** A datagram's header takes 4 bytes and a fragment's command 24, a checksum 4 more. */
  lemma FragmentSize(s: Sender, h: Host)
    ensures FragmentLength(s, h) == s.mtu - if h.checksum then 32 else 28
  {
  }

  /** A packet that is turned away changes nothing. */
  lemma RejectedIsDropped(s: Sender, channel: byte, data: seq<byte>, flags: Flags, h: Host)
    requires MINIMUM_MTU <= s.mtu && |s.channels| <= CONTROL_CHANNEL
    ensures FragmentLength(s, h) > 0
    ensures Rejected(s, channel, data, h) ==> PeerSend(s, channel, data, flags, h) == s
  {
    CommandsAreOk(s, channel, data, flags, h);
    RouteByFlags(s, channel, data, flags, h);
  }

  /** A packet that says it is reliable, one that may be cut in no other way, and one for which there is
      no unreliable number left: all its commands, each wanting an acknowledgement, under the next
      numbers of its channel. */
  lemma ReliableIsQueued(s: Sender, channel: byte, data: seq<byte>, flags: Flags, h: Host)
    requires MINIMUM_MTU <= s.mtu && |s.channels| <= CONTROL_CHANNEL && FragmentLength(s, h) > 0
    requires !Rejected(s, channel, data, h)
    requires s.channels[channel].number == Wire(s.channels[channel].issued)
    requires || flags.reliable
             || (|data| > FragmentLength(s, h) && !flags.unreliableFragment)
             || (s.channels[channel].unreliableNumber >= 0xFFFF
                 && (|data| > FragmentLength(s, h) || !flags.unsequenced))
    ensures var ch := s.channels[channel]; var p := Parcel(ch.issued + 1, FragmentLength(s, h), data);
            && Cuttable(p)
            && PeerSend(s, channel, data, flags, h)
               == s.(channels := s.channels[channel := Numbered(ch, Count(p))],
                     outgoing := s.outgoing + ReliableFrom(p, channel, ch.number, 0))
  {
    hide Count, PayloadOf, CommandsOf, RouteOf, FragmentLength, SetupAll, Numbered, ReliableFrom;
    assert SentReliably(s, channel, data, flags, h);
    CommandsAreOk(s, channel, data, flags, h);
    NextWire(s.channels[channel].issued);
    CommandsCarryParcel(s, channel, data, flags, h);
    SetupReliable(s, channel, ParcelOf(s, channel, data, h), 0, CommandsOf(s, channel, data, flags, h));
  }

  lemma SetupSingle(s: Sender, c: Command)
    requires ChannelExists(s, c)
    ensures SetupAll(s, [c]) == Setup(s, c)
  {
    assert [c][1..] == [];
  }

  /** An unsequenced packet in one piece: no number, and the peer's next group. */
  lemma UnsequencedIsQueued(s: Sender, channel: byte, data: seq<byte>, flags: Flags, h: Host)
    requires MINIMUM_MTU <= s.mtu && |s.channels| <= CONTROL_CHANNEL && FragmentLength(s, h) > 0
    requires !Rejected(s, channel, data, h) && |data| <= FragmentLength(s, h) && flags.unsequenced && !flags.reliable
    ensures var group := (s.group + 1) % NUMBERS;
            var c := Command(SendUnsequenced, false, true, channel, Whole(data));
            PeerSend(s, channel, data, flags, h)
            == s.(group := group, outgoing := s.outgoing + [Fresh(c, 0, 0, group, 0)])
  {
    CommandsAreOk(s, channel, data, flags, h);
    RouteByFlags(s, channel, data, flags, h);
    SetupSingle(s, RouteOf(s, channel, data, flags, h).command);
  }

  /** A plain packet in one piece: the channel's reliable number, and its next unreliable one. */
  lemma SequencedIsQueued(s: Sender, channel: byte, data: seq<byte>, flags: Flags, h: Host)
    requires MINIMUM_MTU <= s.mtu && |s.channels| <= CONTROL_CHANNEL && FragmentLength(s, h) > 0
    requires !Rejected(s, channel, data, h) && |data| <= FragmentLength(s, h) && !flags.unsequenced && !flags.reliable
    requires s.channels[channel].unreliableNumber < 0xFFFF
    ensures var ch := s.channels[channel]; var u := ch.unreliableNumber + 1;
            var c := Command(SendUnreliable, false, false, channel, Whole(data));
            PeerSend(s, channel, data, flags, h)
            == s.(channels := s.channels[channel := ch.(unreliableNumber := u)],
                  outgoing := s.outgoing + [Fresh(c, ch.number, u, 0, 0)])
  {
    CommandsAreOk(s, channel, data, flags, h);
    RouteByFlags(s, channel, data, flags, h);
    SetupSingle(s, RouteOf(s, channel, data, flags, h).command);
  }

  /** A packet to be cut that allows it unreliably: fragments that are not acknowledged, all under one
      unreliable number, which together are the packet. */
  lemma FragmentsAreQueued(s: Sender, channel: byte, data: seq<byte>, flags: Flags, h: Host)
    requires MINIMUM_MTU <= s.mtu && |s.channels| <= CONTROL_CHANNEL && FragmentLength(s, h) > 0
    requires !Rejected(s, channel, data, h) && |data| > FragmentLength(s, h)
    requires flags.unreliableFragment && !flags.reliable && s.channels[channel].unreliableNumber < 0xFFFF
    ensures var ch := s.channels[channel]; var u := ch.unreliableNumber + 1;
            var p := Parcel(u, FragmentLength(s, h), data);
            && Cuttable(p) && !Uncut(p) && Joined(p, Count(p)) == data
            && PeerSend(s, channel, data, flags, h)
               == s.(channels := s.channels[channel := ch.(unreliableNumber := u)],
                     outgoing := s.outgoing + UnreliableFrom(p, channel, ch.number, u, 0))
  {
    hide PayloadOf, SetupAll, UnreliableFrom, PartEnd, PartStart;
    CommandsAreOk(s, channel, data, flags, h);
    RouteByFlags(s, channel, data, flags, h);
    var u := s.channels[channel].unreliableNumber + 1;
    var p := Parcel(u, FragmentLength(s, h), data);
    CutFromStart(p);
    CutMeans(SendUnreliableFragment, false, channel, p, 0);
    FragmentsPartition(p);
    SetupFragments(s, channel, p, u, 0, CommandsOf(s, channel, data, flags, h));
  }
}
