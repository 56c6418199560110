/** The sending half of a peer, updated in place as src/enet/peer.c and src/enet/protocol.c update
    it, and proved to do what Resend, SendPass and Timeouts specify. */
module SendingPeer {
  import opened Words
  import opened Windows
  import opened Outgoing
  import opened FlightWindow
  import opened SendPass
  import opened Resend
  import opened Timeouts
  import opened Incoming
  import opened Parcels
  import opened Sending

  /** The outgoing fields of a channel. usedReliableWindows is a 16-bit set of windows. */
  class OutgoingChannel {
    var outgoingReliableSequenceNumber: u16
    var outgoingUnreliableSequenceNumber: u16
    var usedReliableWindows: bv32
    var reliableWindows: seq<nat>
    var issued: nat
    var launched: nat

    ghost predicate Valid()
      reads this
    {
      Marks(usedReliableWindows, reliableWindows)
    }

    ghost function State(): SendChannel
      reads this
    {
      SendChannel(outgoingReliableSequenceNumber, outgoingUnreliableSequenceNumber, usedReliableWindows,
                  reliableWindows,
                  issued, launched)
    }

    constructor ()
      ensures Valid() && State() == SendChannel(0, 0, 0, seq(RELIABLE_WINDOWS, i => 0), 0, 0)
    {
      outgoingReliableSequenceNumber, outgoingUnreliableSequenceNumber := 0, 0;
      usedReliableWindows, reliableWindows := 0, seq(16, i => 0);
      issued, launched := 0, 0;
      new;
      NothingMarked();
    }

    method TakeReliableNumber()
      modifies this`outgoingReliableSequenceNumber, this`outgoingUnreliableSequenceNumber, this`issued
      ensures State() == old(State()).(number := (old(outgoingReliableSequenceNumber) + 1) % NUMBERS,
                                                 unreliableNumber := 0,
                                       issued := old(issued) + 1)
    {
      outgoingReliableSequenceNumber := (outgoingReliableSequenceNumber + 1) % NUMBERS;
      outgoingUnreliableSequenceNumber := 0;
      issued := issued + 1;
    }

    method TakeUnreliableNumber()
      modifies this`outgoingUnreliableSequenceNumber
      ensures State() == old(State()).(unreliableNumber := (old(outgoingUnreliableSequenceNumber) + 1) % NUMBERS)
    {
      outgoingUnreliableSequenceNumber := (outgoingUnreliableSequenceNumber + 1) % NUMBERS;
    }

    /** The test before the first command of a window is sent for the first time. */
    method MayNotOpen(w: nat) returns (blocked: bool)
      requires Valid() && w < 16
      ensures |reliableWindows| == RELIABLE_WINDOWS && blocked == Blocked(reliableWindows, w)
    {
      hide NearMask, Near, Bit;
      MaskTestsCounts(usedReliableWindows, reliableWindows, w);
      blocked := reliableWindows[(w + RELIABLE_WINDOWS - 1) % RELIABLE_WINDOWS] >= RELIABLE_WINDOW_SIZE
                 || usedReliableWindows & NearMask(w) != 0;
    }

    method CountLaunch(w: nat)
      requires Valid() && w < |reliableWindows|
      modifies this`usedReliableWindows, this`reliableWindows, this`launched
      ensures |old(reliableWindows)| == RELIABLE_WINDOWS
      ensures Valid() && State() == CountedUp(old(State()), w)
    {
      hide Marked, Bit;
      MarkedCounts(usedReliableWindows, reliableWindows, w);
      usedReliableWindows := Marked(usedReliableWindows, w);
      reliableWindows := reliableWindows[w := reliableWindows[w] + 1];
      launched := launched + 1;
    }

    method CountAcknowledged(w: nat)
      requires Valid() && w < |reliableWindows|
      modifies this`usedReliableWindows, this`reliableWindows
      ensures |old(reliableWindows)| == RELIABLE_WINDOWS
      ensures Valid() && State() == CountedDown(old(State()), w)
    {
      hide Unmarked, Bit;
      if reliableWindows[w] > 0 {
        UnmarkedCounts(usedReliableWindows, reliableWindows, w);
        reliableWindows := reliableWindows[w := reliableWindows[w] - 1];
        if reliableWindows[w] == 0 {
          usedReliableWindows := Unmarked(usedReliableWindows, w);
        }
      }
    }
  }

  ghost function States(chs: seq<OutgoingChannel>): (r: seq<SendChannel>)
    reads chs
    ensures |r| == |chs| && forall i :: 0 <= i < |chs| ==> r[i] == chs[i].State()
  {
    seq(|chs|, i requires 0 <= i < |chs| reads chs => chs[i].State())
  }

  ghost predicate Distinct(chs: seq<OutgoingChannel>) {
    forall i, j :: 0 <= i < j < |chs| ==> chs[i] != chs[j]
  }

  ghost predicate AllValid(chs: seq<OutgoingChannel>)
    reads chs
  {
    forall i :: 0 <= i < |chs| ==> chs[i].Valid()
  }

  class SendingPeer {
    const channels: seq<OutgoingChannel>
    const mtu: nat
    var outgoingCommands: seq<OutgoingCommand>
    var sentReliableCommands: seq<OutgoingCommand>
    var outgoingReliableSequenceNumber: u16
    var outgoingUnsequencedGroup: u16
    var reliableDataInTransit: u32
    var packetThrottleCounter: nat
    var nextTimeout: u32
    var earliestTimeout: u32

    ghost predicate Valid()
      reads this, channels
    {
      && Distinct(channels) && AllValid(channels)
      && |channels| <= CONTROL_CHANNEL && MINIMUM_MTU <= mtu <= MAXIMUM_MTU
      && SizesOk(outgoingCommands, mtu) && SizesOk(sentReliableCommands, mtu)
    }

    ghost function State(): Sender
      reads this, channels
    {
      Sender(outgoingCommands, sentReliableCommands, States(channels), mtu, outgoingReliableSequenceNumber,
             outgoingUnsequencedGroup, reliableDataInTransit, packetThrottleCounter, nextTimeout, earliestTimeout)
    }

    lemma ValidIsShaped()
      requires Valid()
      ensures Shaped(State())
    {
      hide SizesOk, Bit;
      forall c: nat | c < |channels| ensures |State().channels[c].reliableWindows| == RELIABLE_WINDOWS {
        assert channels[c].Valid();
      }
    }

    constructor (count: nat, mtu: nat)
      requires count <= CONTROL_CHANNEL && MINIMUM_MTU <= mtu <= MAXIMUM_MTU
      ensures Valid() && fresh(channels)
      ensures State() == Sender([], [], seq(count, i => SendChannel(0, 0, 0, seq(RELIABLE_WINDOWS, i => 0), 0, 0)),
                                mtu, 0, 0, 0, 0, 0, 0)
    {
      var chs: seq<OutgoingChannel> := [];
      while |chs| < count
        invariant |chs| <= count && fresh(chs) && Distinct(chs) && AllValid(chs)
        invariant forall i :: 0 <= i < |chs| ==>
                    chs[i].State() == SendChannel(0, 0, 0, seq(RELIABLE_WINDOWS, i => 0), 0, 0)
      {
        var ch := new OutgoingChannel();
        chs := chs + [ch];
      }
      channels := chs;
      this.mtu := mtu;
      outgoingCommands, sentReliableCommands := [], [];
      outgoingReliableSequenceNumber, outgoingUnsequencedGroup := 0, 0;
      reliableDataInTransit, packetThrottleCounter, nextTimeout, earliestTimeout := 0, 0, 0, 0;
    }

    lemma OneChannelChanged(before: seq<SendChannel>, c: nat)
      requires Distinct(channels) && c < |channels| == |before|
      requires forall i :: 0 <= i < |channels| && i != c ==> channels[i].State() == before[i]
      ensures States(channels) == before[c := channels[c].State()]
    {
    }

    method NumberCommand(c: Command) returns (m: Message)
      requires Valid() && (c.channel == CONTROL_CHANNEL || c.channel < |channels|)
      modifies this`outgoingReliableSequenceNumber, this`outgoingUnsequencedGroup, channels
      ensures Valid() && m.command == c && Queued(State(), m) == Setup(old(State()), c)
    {
      hide Marks, SizesOk;
      if c.channel == CONTROL_CHANNEL {
        outgoingReliableSequenceNumber := (outgoingReliableSequenceNumber + 1) % NUMBERS;
        m := Message(c, outgoingReliableSequenceNumber, 0, 0, 0);
      } else {
        var ch := channels[c.channel];
        ghost var before := States(channels);
        if c.acknowledge {
          ch.TakeReliableNumber();
          m := Message(c, ch.outgoingReliableSequenceNumber, 0, 0, ch.issued);
        } else if c.unsequenced {
          outgoingUnsequencedGroup := (outgoingUnsequencedGroup + 1) % NUMBERS;
          m := Message(c, 0, 0, outgoingUnsequencedGroup, 0);
        } else {
          if OffsetOf(c.payload) == 0 {
            ch.TakeUnreliableNumber();
          }
          m := Message(c, ch.outgoingReliableSequenceNumber, ch.outgoingUnreliableSequenceNumber, 0, 0);
        }
        OneChannelChanged(before, c.channel);
      }
    }

    /** enet_peer_setup_outgoing_command */
    method SetupOutgoingCommand(c: Command)
      requires Valid() && (c.channel == CONTROL_CHANNEL || c.channel < |channels|)
      requires HEADER_SIZE + CommandSize(c.kind) + |Carried(c.payload)| <= mtu
      modifies this, channels
      ensures Valid() && State() == Setup(old(State()), c)
    {
      hide Marks, CommandSize, Setup;
      var m := NumberCommand(c);
      outgoingCommands := outgoingCommands + [OutgoingCommand(m, 0, 0, 0, 0)];
    }

    /** enet_peer_send: a packet that does not fit is cut first, then its fragments are queued. */
    method Send(channel: byte, data: seq<byte>, flags: Flags, h: Host) returns (ok: bool)
      requires Valid()
      modifies this, channels
      ensures FragmentLength(old(State()), h) > 0
      ensures Valid() && State() == PeerSend(old(State()), channel, data, flags, h)
      ensures ok == !Rejected(old(State()), channel, data, h)
    {
      hide Marks, CommandSize, RouteOf, Setup, Rejected, SentReliably;
      ghost var before := State();
      CommandsAreOk(before, channel, data, flags, h);
      RouteByFlags(before, channel, data, flags, h);
      ghost var all := CommandsOf(before, channel, data, flags, h);
      var fragmentLength := mtu - HEADER_SIZE - CommandSize(SendFragment) - (if h.checksum then 4 else 0);
      var route := Route(channel, data, flags, h);
      match route
      case Fails => ok := false;
      case Single(c) =>
        assert all == [c] && CommandOk(before, all[0]);
        SetupOne(before, c);
        SetupOutgoingCommand(c);
        ok := true;
      case Cutting(kind, acknowledge, start, count) =>
        var fragments := CutPacket(kind, acknowledge, channel, start, count, data, fragmentLength);
        while fragments != []
          invariant Valid() && AllOk(State(), fragments)
          invariant SetupAll(State(), fragments) == SetupAll(before, all)
          decreases |fragments|
        {
          SetupFirst(State(), fragments);
          var fragment := fragments[0];
          fragments := fragments[1..];
          SetupOutgoingCommand(fragment);
        }
        ok := true;
    }

    method Route(channel: byte, data: seq<byte>, flags: Flags, h: Host) returns (r: Route)
      requires Valid()
      ensures FragmentLength(State(), h) > 0 && r == RouteOf(State(), channel, data, flags, h)
    {
      var fl := mtu - HEADER_SIZE - CommandSize(SendFragment) - (if h.checksum then 4 else 0);
      if channel >= |channels| || |data| > h.maximumPacketSize {
        return Fails;
      }
      var ch := channels[channel];
      if |data| > fl {
        var count := (|data| + fl - 1) / fl;
        if count > MAXIMUM_FRAGMENT_COUNT {
          r := Fails;
        } else if flags.unreliableFragment && !flags.reliable && ch.outgoingUnreliableSequenceNumber < 0xFFFF {
          r := Cutting(SendUnreliableFragment, false, ch.outgoingUnreliableSequenceNumber + 1, count);
        } else {
          r := Cutting(SendFragment, true, (ch.outgoingReliableSequenceNumber + 1) % NUMBERS, count);
        }
      } else if flags.unsequenced && !flags.reliable {
        r := Single(Command(SendUnsequenced, false, true, channel, Whole(data)));
      } else if flags.reliable || ch.outgoingUnreliableSequenceNumber >= 0xFFFF {
        r := Single(Command(SendReliable, true, false, channel, Whole(data)));
      } else {
        r := Single(Command(SendUnreliable, false, false, channel, Whole(data)));
      }
    }

    // ---- one pass over the outgoing commands ----

    /** Whether the window rule or the data in transit holds a command back. */
    method HoldBack(at: nat, wrapped: bool, over: bool, e: Settings) returns (skip: bool, windowWrap: bool,
        windowExceeded: bool)
      requires Valid() && at < |outgoingCommands|
      ensures WindowsCounted(State())
      ensures var s := State(); var x := outgoingCommands[at]; var m := x.message;
              var data := m.command.acknowledge && !m.command.payload.NoPacket?;
              && windowWrap == (wrapped || OpensBlocked(s, x))
              && if OnChannel(s, m) && windowWrap then skip && windowExceeded == over
                 else windowExceeded == (over || (data && OverCommitted(s, m, e))) && skip == (data && windowExceeded)
    {
      hide Marks, SizesOk, Blocked;
      ValidIsShaped();
      var x := outgoingCommands[at];
      var m := x.message;
      skip, windowWrap, windowExceeded := false, wrapped, over;
      if m.command.acknowledge {
        if m.command.channel < |channels| {
          if !windowWrap && x.attempts < 1 && m.number % RELIABLE_WINDOW_SIZE == 0 {
            windowWrap := channels[m.command.channel].MayNotOpen(m.number / RELIABLE_WINDOW_SIZE);
          }
          if windowWrap {
            return true, windowWrap, windowExceeded;
          }
        }
        if !m.command.payload.NoPacket? {
          if !windowExceeded {
            var windowSize := e.packetThrottle * e.windowSize / PACKET_THROTTLE_SCALE;
            if reliableDataInTransit + Length(m) > (if windowSize > mtu then windowSize else mtu) {
              windowExceeded := true;
            }
          }
          skip := windowExceeded;
        }
      }
    }

    method CountIfFirst(x: OutgoingCommand)
      requires Valid()
      modifies channels
      ensures Valid() && WindowsCounted(old(State()))
      ensures State() == old(State()).(channels := Counted(old(State()), x))
    {
      hide Marks, SizesOk;
      ValidIsShaped();
      ghost var before := States(channels);
      var m := x.message;
      if m.command.acknowledge && m.command.channel < |channels| && x.attempts < 1 {
        channels[m.command.channel].CountLaunch(m.number / RELIABLE_WINDOW_SIZE);
        OneChannelChanged(before, m.command.channel);
      }
    }

    method StampCommand(x: OutgoingCommand, e: Settings) returns (timed: OutgoingCommand)
      ensures timed == Stamped(x, e)
    {
      timed := x;
      if timed.timeout == 0 {
        var initial: u32 := (e.roundTripTime + 4 * e.roundTripTimeVariance) % WORD;
        timed := timed.(timeout := initial, timeoutLimit := e.timeoutLimit * initial % WORD);
      }
      timed := timed.(attempts := timed.attempts + 1, sentTime := e.serviceTime);
    }

    method LaunchAt(at: nat, e: Settings)
      requires Valid() && at < |outgoingCommands|
      modifies this, channels
      ensures WindowsCounted(old(State()))
      ensures Valid() && State() == Launch(old(State()), at, e)
    {
      hide Marks, SizesOk, CommandSize, Stamped, Counted;
      ValidIsShaped();
      LaunchKeepsShape(State(), at, e);
      var x := outgoingCommands[at];
      CountIfFirst(x);
      var timed := StampCommand(x, e);
      if sentReliableCommands == [] {
        nextTimeout := (e.serviceTime + timed.timeout) % WORD;
      }
      outgoingCommands := outgoingCommands[..at] + outgoingCommands[at + 1..];
      sentReliableCommands := sentReliableCommands + [timed];
      reliableDataInTransit := (reliableDataInTransit + Length(x.message)) % WORD;
    }

    /** Throttling drops all commands from a place on that have the same numbers. */
    method DropFollowing(at: nat, m: Message)
      requires Valid() && at <= |outgoingCommands|
      modifies this`outgoingCommands
      ensures Valid() && outgoingCommands == DropRun(old(outgoingCommands), at, m)
    {
      hide Marks, CommandSize;
      while at < |outgoingCommands| && SameNumbers(outgoingCommands[at].message, m)
        invariant Valid() && at <= |outgoingCommands|
        invariant DropRun(outgoingCommands, at, m) == DropRun(old(outgoingCommands), at, m)
        decreases |outgoingCommands|
      {
        outgoingCommands := outgoingCommands[..at] + outgoingCommands[at + 1..];
      }
    }

    /** A command that wants no acknowledgement is sent and forgotten, or dropped by throttling
        together with those after it that have its numbers. */
    method SendOrDropAt(at: nat, e: Settings) returns (dropped: bool)
      requires Valid() && at < |outgoingCommands|
      modifies this`outgoingCommands, this`packetThrottleCounter
      ensures Valid()
      ensures var s := old(State()); var m := s.outgoing[at].message; var rest := Without(s.outgoing, at);
              var counter := if Throttled(m) then NextCounter(s) else s.throttleCounter;
              && dropped == (Throttled(m) && counter > e.packetThrottle)
              && State() == s.(throttleCounter := counter, outgoing := if dropped then DropRun(rest, at, m) else rest)
    {
      hide Marks, CommandSize, DropRun;
      var m := outgoingCommands[at].message;
      dropped := false;
      if !m.command.payload.NoPacket? && OffsetOf(m.command.payload) == 0 {
        packetThrottleCounter := (packetThrottleCounter + PACKET_THROTTLE_COUNTER) % PACKET_THROTTLE_SCALE;
        dropped := packetThrottleCounter > e.packetThrottle;
      }
      outgoingCommands := outgoingCommands[..at] + outgoingCommands[at + 1..];
      if dropped {
        DropFollowing(at, m);
      }
    }

    method EmitAt(at: nat, e: Settings, ghost p: Pass) returns (kept: bool)
      requires Valid() && at < |outgoingCommands| && p.s == State() && p.at == at
      modifies this, channels
      ensures Valid() && WindowsCounted(p.s)
      ensures var m := p.s.outgoing[at].message;
              Emit(p, e) == p.(s := State(), out := if kept then p.out + [m] else p.out, d := if kept then Put(p.d, m)
                                                                                              else p.d)
    {
      hide Marks, SizesOk, Put, Launch, DropRun, Throttled, NextCounter;
      ValidIsShaped();
      kept := true;
      if outgoingCommands[at].message.command.acknowledge {
        LaunchAt(at, e);
      } else {
        var dropped := SendOrDropAt(at, e);
        kept := !dropped;
      }
    }

    /** enet_protocol_check_outgoing_commands */
    method CheckOutgoingCommands(e: Settings, started: Datagram) returns (out: seq<Message>, d: Datagram,
        canPing: bool, more: bool)
      requires Valid() && DatagramOk(started, mtu)
      modifies this, channels
      ensures PassShaped(StartPass(old(State()), started))
      ensures var q := Finish(StartPass(old(State()), started), e);
              Valid() && State() == q.s && out == q.out && d == q.d && canPing == q.canPing && more == q.more
    {
      hide Valid, Full, Put, OpensBlocked, OverCommitted, Emit, Shaped;
      ghost var start := StartPass(State(), started);
      ValidIsShaped();
      var at: nat, windowWrap, windowExceeded := 0, false, false;
      out, d, canPing, more := [], started, true, false;
      while at < |outgoingCommands| && !more
        invariant Valid() && at <= |outgoingCommands|
        invariant PassShaped(Pass(State(), at, out, d, windowWrap, windowExceeded, canPing, more))
        invariant more ==> Finish(start, e) == Pass(State(), at, out, d, windowWrap, windowExceeded, canPing, true)
        invariant !more ==> Finish(start, e)
                            == Finish(Pass(State(), at, out, d, windowWrap, windowExceeded, canPing, false), e)
        decreases !more, |outgoingCommands| - at
      {
        ghost var p := Pass(State(), at, out, d, windowWrap, windowExceeded, canPing, false);
        AdvanceKeepsShape(p, e);
        CountsAreThere();
        BlockedIsOnChannel(p.s, p.s.outgoing[at]);
        var m := outgoingCommands[at].message;
        var skip;
        skip, windowWrap, windowExceeded := HoldBack(at, windowWrap, windowExceeded, e);
        if skip {
          at := at + 1;
        } else {
          canPing := canPing && !m.command.acknowledge;
          if Full(d, m, mtu) {
            more := true;
          } else {
            var kept := EmitAt(at, e, p.(canPing := canPing));
            if kept {
              out, d := out + [m], Put(d, m);
            }
          }
        }
        assert Pass(State(), at, out, d, windowWrap, windowExceeded, canPing, more) == Advance(p, e);
      }
    }

    // ---- acknowledgements and timeouts ----

    method FindSent(number: u16, c: byte) returns (i: nat)
      ensures i == SearchSent(sentReliableCommands, number, c)
    {
      i := 0;
      assert sentReliableCommands[0..] == sentReliableCommands;
      while i < |sentReliableCommands| && !Answers(sentReliableCommands[i].message, number, c)
        invariant i <= |sentReliableCommands|
        invariant SearchSent(sentReliableCommands, number, c) == i + SearchSent(sentReliableCommands[i..], number, c)
      {
        assert sentReliableCommands[i..][1..] == sentReliableCommands[i + 1..];
        i := i + 1;
      }
    }

    /** The search through the commands to be sent again gives up at the first never sent. */
    method FindAgain(number: u16, c: byte) returns (i: nat)
      ensures i == SearchAgain(outgoingCommands, number, c)
    {
      i := 0;
      assert outgoingCommands[0..] == outgoingCommands;
      while i < |outgoingCommands|
        invariant i <= |outgoingCommands|
        invariant SearchAgain(outgoingCommands, number, c) == i + SearchAgain(outgoingCommands[i..], number, c)
      {
        var x := outgoingCommands[i];
        assert outgoingCommands[i..][1..] == outgoingCommands[i + 1..];
        if x.message.command.acknowledge {
          if x.attempts < 1 {
            return |outgoingCommands|;
          }
          if Answers(x.message, number, c) {
            return;
          }
        }
        i := i + 1;
      }
    }

    method Discount(number: u16, c: byte)
      requires Valid()
      modifies channels
      ensures Valid() && WindowsCounted(old(State()))
      ensures State() == old(State()).(channels := Discounted(old(State()), number, c))
    {
      hide Marks, SizesOk;
      ValidIsShaped();
      ghost var before := States(channels);
      if c < |channels| {
        channels[c].CountAcknowledged(number / RELIABLE_WINDOW_SIZE);
        OneChannelChanged(before, c);
      }
    }

    method Retime()
      requires Valid()
      modifies this`nextTimeout
      ensures Valid() && State() == Retimed(old(State()))
    {
      hide Marks, SizesOk;
      if sentReliableCommands != [] {
        nextTimeout := (sentReliableCommands[0].sentTime + sentReliableCommands[0].timeout) % WORD;
      }
    }

    method TakeSent(i: nat)
      requires Valid() && i < |sentReliableCommands|
      modifies this`sentReliableCommands, this`reliableDataInTransit
      ensures Valid()
      ensures var length := Length(old(sentReliableCommands)[i].message);
              State() == old(State()).(sent := Without(old(sentReliableCommands), i),
                                       inTransit := (old(reliableDataInTransit) - length) % WORD)
    {
      hide Marks, CommandSize;
      var x := sentReliableCommands[i];
      sentReliableCommands := sentReliableCommands[..i] + sentReliableCommands[i + 1..];
      reliableDataInTransit := (reliableDataInTransit - Length(x.message)) % WORD;
    }

    method TakeAgain(j: nat)
      requires Valid() && j < |outgoingCommands|
      modifies this`outgoingCommands
      ensures Valid()
      ensures State() == old(State()).(outgoing := Without(old(outgoingCommands), j))
    {
      hide Marks, CommandSize;
      outgoingCommands := outgoingCommands[..j] + outgoingCommands[j + 1..];
    }

    /** enet_protocol_remove_sent_reliable_command */
    method RemoveSentReliableCommand(number: u16, c: byte) returns (removed: seq<OutgoingCommand>)
      requires Valid()
      modifies this, channels
      ensures Valid() && WindowsCounted(old(State()))
      ensures Removal(State(), removed) == RemoveSent(old(State()), number, c)
    {
      hide Valid, SearchSent, SearchAgain, Discounted, Answers, Without, Retimed;
      removed := [];
      var i := FindSent(number, c);
      if i < |sentReliableCommands| {
        removed := [sentReliableCommands[i]];
        Discount(number, c);
        TakeSent(i);
        Retime();
      } else {
        var j := FindAgain(number, c);
        CountsAreThere();
        if j < |outgoingCommands| {
          removed := [outgoingCommands[j]];
          Discount(number, c);
          TakeAgain(j);
          Retime();
        }
      }
    }

    lemma CountsAreThere()
      requires Valid()
      ensures WindowsCounted(State())
    {
      ValidIsShaped();
    }

    /** enet_protocol_check_timeouts */
    method CheckForTimeouts(t: Clock) returns (gaveUp: bool)
      requires Valid()
      modifies this
      ensures Valid()
      ensures var w := CheckTimeouts(old(State()), t); State() == w.s && gaveUp == w.gaveUp
    {
      hide Valid, Step;
      ghost var start := Sweep(State(), 0, 0, false);
      var at: nat, inserted: nat := 0, 0;
      gaveUp := false;
      while at < |sentReliableCommands| && !gaveUp
        invariant Valid() && at <= |sentReliableCommands| && inserted <= |outgoingCommands|
        invariant !gaveUp ==> SweepOn(start, t) == SweepOn(Sweep(State(), at, inserted, false), t)
        invariant gaveUp ==> SweepOn(start, t) == Sweep(State(), at, inserted, true)
        decreases !gaveUp, |sentReliableCommands| - at
      {
        ghost var w := Sweep(State(), at, inserted, false);
        StepProgress(w, t);
        at, inserted, gaveUp := CheckOne(at, inserted, t);
      }
    }

    method CheckOne(at: nat, inserted: nat, t: Clock) returns (next: nat, moved: nat, gaveUp: bool)
      requires Valid() && at < |sentReliableCommands| && inserted <= |outgoingCommands|
      modifies this
      ensures Valid() && next <= |sentReliableCommands| && moved <= |outgoingCommands|
      ensures Sweep(State(), next, moved, gaveUp) == Step(Sweep(old(State()), at, inserted, false), t)
    {
      hide Marks, CommandSize, Expired, GivenUp, TimeLess, SizesOk;
      next, moved, gaveUp := at, inserted, false;
      var x := sentReliableCommands[at];
      if !Expired(x, t.now) {
        next := at + 1;
      } else {
        if earliestTimeout == 0 || TimeLess(x.sentTime, earliestTimeout) {
          earliestTimeout := x.sentTime;
        }
        if GivenUp(x, earliestTimeout, t) {
          gaveUp := true;
        } else {
          Requeue(at, inserted);
          moved := inserted + 1;
        }
      }
    }

    method Requeue(at: nat, inserted: nat)
      requires Valid() && at < |sentReliableCommands| && inserted <= |outgoingCommands|
      modifies this`sentReliableCommands, this`outgoingCommands, this`reliableDataInTransit, this`nextTimeout
      ensures Valid()
      ensures var s := old(State()); var x := s.sent[at];
              var back := s.(inTransit := (s.inTransit - Length(x.message)) % WORD, sent := Without(s.sent, at),
                             outgoing := s.outgoing[..inserted] + [BackedOff(x)] + s.outgoing[inserted..]);
              State() == if at == 0 then Retimed(back) else back
    {
      hide Marks, CommandSize;
      var x := sentReliableCommands[at];
      reliableDataInTransit := (reliableDataInTransit - Length(x.message)) % WORD;
      sentReliableCommands := sentReliableCommands[..at] + sentReliableCommands[at + 1..];
      outgoingCommands := outgoingCommands[..inserted] + [x.(timeout := x.timeout * 2 % WORD)]
                          + outgoingCommands[inserted..];
      if at == 0 && sentReliableCommands != [] {
        nextTimeout := (sentReliableCommands[0].sentTime + sentReliableCommands[0].timeout) % WORD;
      }
    }
  }

  predicate AllOk(s: Sender, cmds: seq<Command>)
    ensures AllOk(s, cmds) ==> forall i :: 0 <= i < |cmds| ==> ChannelExists(s, cmds[i])
  {
    forall i :: 0 <= i < |cmds| ==> CommandOk(s, cmds[i])
  }

  lemma SetupFirst(s: Sender, cmds: seq<Command>)
    requires AllOk(s, cmds) && cmds != []
    ensures CommandOk(s, cmds[0]) && AllOk(Setup(s, cmds[0]), cmds[1..])
    ensures SetupAll(s, cmds) == SetupAll(Setup(s, cmds[0]), cmds[1..])
  {
  }

  lemma SetupOne(s: Sender, c: Command)
    requires ChannelExists(s, c)
    ensures SetupAll(s, [c]) == Setup(s, c)
  {
    assert [c][1..] == [];
  }

  /** The loop that cuts a packet. */
  method CutPacket(kind: Kind, acknowledge: bool, channel: byte, start: u16, count: u32, data: seq<byte>, length: nat)
    returns (fragments: seq<Command>)
    requires 0 < length && |data| < WORD
    ensures fragments == Cut(kind, acknowledge, channel, start, count, data, length, 0, 0)
  {
    hide Cut;
    var number: nat, offset: nat, fragmentLength := 0, 0, length;
    fragments := [];
    while offset < |data|
      invariant number <= offset <= |data| && fragmentLength > 0
      invariant fragmentLength == length || offset == |data|
      invariant fragments + Cut(kind, acknowledge, channel, start, count, data, length, number, offset)
             == Cut(kind, acknowledge, channel, start, count, data, length, 0, 0)
    {
      if |data| - offset < fragmentLength {
        fragmentLength := |data| - offset;
      }
      var piece := Command(kind, acknowledge, false, channel,
                           Piece(start, count, number, |data|, offset, data[offset..offset + fragmentLength]));
      CutUnfolds(kind, acknowledge, channel, start, count, data, length, number, offset);
      Associates(fragments, [piece], Cut(kind, acknowledge, channel, start, count, data, length, number + 1,
                                         offset + fragmentLength));
      fragments := fragments + [piece];
      number, offset := number + 1, offset + fragmentLength;
    }
    CutUnfolds(kind, acknowledge, channel, start, count, data, length, number, offset);
  }

  lemma CutUnfolds(kind: Kind, acknowledge: bool, channel: byte, start: u16, count: u32, data: seq<byte>, length: nat,
                   number: nat, offset: nat)
    requires 0 < length && number <= offset <= |data| < WORD
    ensures Cut(kind, acknowledge, channel, start, count, data, length, number, offset)
            == if offset == |data| then [] else
                 var n := if |data| - offset < length then |data| - offset else length;
                 [Command(kind, acknowledge, false, channel,
                          Piece(start, count, number, |data|, offset, data[offset..offset + n]))]
                 + Cut(kind, acknowledge, channel, start, count, data, length, number + 1, offset + n)
  {
  }
}
