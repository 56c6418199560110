/** Throttling drops a command and every one after it with the same two numbers
    (src/enet/protocol.c:1498-1517). That can reach a reliable command: what follows says exactly
    when, and shows that it happens. */
module ThrottleDrop {
  import opened Words
  import opened Windows
  import opened Outgoing
  import opened SendPass
  import opened Resend
  import opened PassInvariant
  import opened Sending
  import opened DropSafety

  /** How many commands from a place on have the same numbers as m. */
  function RunLength(cmds: seq<OutgoingCommand>, at: nat, m: Message): (n: nat)
    requires at <= |cmds|
    ensures at + n <= |cmds|
    decreases |cmds| - at
  {
    if at < |cmds| && SameNumbers(cmds[at].message, m) then 1 + RunLength(cmds, at + 1, m) else 0
  }

  /** Dropping takes out exactly that run. */
  lemma {:induction false} DropRunTakes(cmds: seq<OutgoingCommand>, at: nat, m: Message)
    requires at <= |cmds|
    ensures DropRun(cmds, at, m) == cmds[..at] + cmds[at + RunLength(cmds, at, m)..]
    decreases |cmds|
  {
    if at < |cmds| && SameNumbers(cmds[at].message, m) {
      var rest := Without(cmds, at);
      DropRunTakes(rest, at, m);
      RunLengthWithout(cmds, at, at, m);
      assert rest[..at] == cmds[..at];
      assert rest[at + RunLength(rest, at, m)..] == cmds[at + 1 + RunLength(rest, at, m)..];
    }
  }

  lemma {:induction false} RunLengthWithout(cmds: seq<OutgoingCommand>, at: nat, i: nat, m: Message)
    requires at <= i < |cmds|
    ensures RunLength(Without(cmds, at), i, m) == RunLength(cmds, i + 1, m)
    decreases |cmds| - i
  {
    if i + 1 < |cmds| && SameNumbers(cmds[i + 1].message, m) {
      assert Without(cmds, at)[i] == cmds[i + 1];
      RunLengthWithout(cmds, at, i + 1, m);
    }
  }

  lemma {:induction false} RunHasNumbers(cmds: seq<OutgoingCommand>, at: nat, m: Message)
    requires at <= |cmds|
    ensures forall i :: at <= i < at + RunLength(cmds, at, m) ==> SameNumbers(cmds[i].message, m)
    decreases |cmds| - at
  {
    if at < |cmds| && SameNumbers(cmds[at].message, m) {
      RunHasNumbers(cmds, at + 1, m);
    }
  }

  /** A dropped command takes a reliable command of channel k with it if and only if the commands
      dropped with it do not spare k. */
  lemma DropsReliableIff(cmds: seq<OutgoingCommand>, at: nat, last: OutgoingCommand, k: nat)
    requires at <= |cmds| && Droppable(last.message)
    ensures var n := RunLength(cmds, at, last.message);
            (exists i :: at <= i < at + n && Reliable(cmds[i].message, k)) <==> !Spares([last] + cmds[at..at + n], k)
  {
    hide SameNumbers, Droppable;
    var n := RunLength(cmds, at, last.message);
    var a := [last] + cmds[at..at + n];
    RunHasNumbers(cmds, at, last.message);
    assert forall i :: 0 < i < |a| ==> a[i] == cmds[at + i - 1];
    if i :| at <= i < at + n && Reliable(cmds[i].message, k) {
      var j: nat := i - at + 1;
      assert a[j] == cmds[i] && RunsInto(a, 0, j) && a[0] == last;
    }
    if !Spares(a, k) {
      var i, j :| 0 <= i < j < |a| && Droppable(a[i].message) && RunsInto(a, i, j) && Reliable(a[j].message, k);
      assert cmds[at + j - 1] == a[j];
    }
  }

  /** While all channels and the control commands are spared, everything that is dropped carries a
      packet: the loop, which takes it for granted, never follows a null pointer. */
  lemma SparedDropsHavePackets(cmds: seq<OutgoingCommand>, at: nat, last: OutgoingCommand)
    requires at <= |cmds| && Droppable(last.message) && forall k: nat :: Spares([last] + cmds[at..], k)
    requires forall x :: x in cmds && !x.message.command.acknowledge ==> !x.message.command.payload.NoPacket?
    ensures forall i :: at <= i < at + RunLength(cmds, at, last.message) ==> !cmds[i].message.command.payload.NoPacket?
  {
    hide SameNumbers, Spares, Droppable;
    var n := RunLength(cmds, at, last.message);
    assert [last] + cmds[at..at + n] <= [last] + cmds[at..];
    forall i | at <= i < at + n ensures !cmds[i].message.command.payload.NoPacket? {
      var k: nat := cmds[i].message.command.channel;
      SparesBefore([last] + cmds[at..at + n], [last] + cmds[at..], k);
      DropsReliableIff(cmds, at, last, k);
      assert !Reliable(cmds[i].message, k);
    }
  }

  /** Queueing a reliable command right behind an unsequenced one, a ping or any other control command
      included, makes it droppable if and only if its 16-bit number is 0. */
  lemma ReliableBehindUnsequenced(s: Sender, u: Command, x: Command)
    requires ChannelExists(s, u) && ChannelExists(s, x) && Spared(s, x.channel)
    requires u.channel != CONTROL_CHANNEL && !u.acknowledge && u.unsequenced && Throttled(Message(u, 0, 0, 0, 0))
    requires x.acknowledge
    ensures Spares(Setup(Setup(s, u), x).outgoing, x.channel) <==> NextNumber(s, x.channel) != 0
  {
    hide Spares, Numbered;
    SetupSparesIff(s, u, x.channel);
    SetupNumberedIff(s, u);
    QueuedLast(s, u);
    SetupSparesIff(Setup(s, u), x, x.channel);
  }

  /** And then throttling loses it: an unsequenced packet that is throttled out takes the reliable
      command behind it along, which is neither sent nor kept. If that one has no packet, as a ping
      has none, the code follows a null pointer there. */
  lemma ThrottleLosesReliable(s: Sender, u: Command, x: Command, e: Settings)
    requires Valid(s) && s.outgoing == [] && CommandOk(s, u) && CommandOk(s, x)
    requires u.channel < |s.channels| && !u.acknowledge && u.unsequenced && Throttled(Message(u, 0, 0, 0, 0))
    requires x.acknowledge && NextNumber(s, x.channel) == 0
    requires NextCounter(s) > e.packetThrottle
    ensures |s.channels| <= CONTROL_CHANNEL
    ensures var s' := Setup(Setup(s, u), x); var p := StartPass(s', Empty());
            && WindowsCounted(s')
            && Advance(p, e).s.outgoing == [] && Advance(p, e).s.sent == s.sent && Advance(p, e).out == []
  {
    hide AllCount, MessagesOk, AttemptedFirst, Full, DropRun, CommandSize;
    ValidCounts(s);
    var t := Setup(s, u);
    var s' := Setup(t, x);
    assert s'.outgoing == [t.outgoing[0], s'.outgoing[1]];
    var m := s'.outgoing[0].message;
    EmptyFits(m, s'.mtu);
    var rest := Without(s'.outgoing, 0);
    assert rest == [s'.outgoing[1]];
    DropOne(rest[0], m);
  }

  /** The number lost is the first of a window, so the window rule is never tested for that window:
      the next command goes out although its channel has something in flight seven windows back, and
      the flight bound is gone. */
  lemma DropSkipsWindowRule(s: Sender, u: Command, x: Command, y: Command, e: Settings, n: nat)
    requires Valid(s) && Orderly(s, x.channel) && s.outgoing == []
    requires CommandOk(s, u) && CommandOk(s, x) && CommandOk(s, y)
    requires u.channel < |s.channels| && !u.acknowledge && u.unsequenced && Throttled(Message(u, 0, 0, 0, 0))
    requires x.acknowledge && y.acknowledge && x.channel == y.channel < |s.channels| && NextNumber(s, x.channel) == 0
    requires NextCounter(s) > e.packetThrottle && Bytes(s.sent) + |Carried(y.payload)| <= s.mtu
    requires n in InFlight(s, x.channel) && WindowOf(n) + 7 == WindowOf(s.channels[x.channel].issued + 1)
    ensures |s.channels| <= CONTROL_CHANNEL
    ensures var p := StartPass(Setup(Setup(Setup(s, u), x), y), Empty());
            && WindowsCounted(p.s) && p.d.packetSize <= p.s.mtu
            && var q := Advance(p, e);
            && q.at < |q.s.outgoing| && WindowsCounted(q.s) && q.d.packetSize <= q.s.mtu
            && var r := Advance(q, e).s;
            && n in InFlight(r, x.channel) && s.channels[x.channel].issued + 2 in InFlight(r, x.channel)
            && WindowOf(s.channels[x.channel].issued + 2) == WindowOf(n) + 7
            && !Orderly(r, x.channel)
  {
    hide Valid, Orderly, Advance, Setup, InFlight, WindowOf, CommandOk, Bytes, NextNumber, Launch;
    SendersCounts(s);
    DropsTwoOfThree(s, u, x, y, e);
    var q := Advance(StartPass(Setup(Setup(Setup(s, u), x), y), Empty()), e);
    LaunchesThird(s, q, y, e);
    NothingWaits(s, y.channel);
    SameWindowAfterWrap(s, y.channel);
    LaunchBreaksBound(s, q.s, e, y.channel, n);
  }

  lemma SendersCounts(s: Sender)
    requires Valid(s)
    ensures |s.channels| <= CONTROL_CHANNEL && WindowsCounted(s) && MINIMUM_MTU <= s.mtu <= MAXIMUM_MTU
    ensures s.inTransit == Bytes(s.sent)
  {
    hide AllCount, MessagesOk, AttemptedFirst, AllAttempted, Bytes;
    ValidCounts(s);
  }

  /** The three commands queued. */
  lemma ThreeQueued(s: Sender, u: Command, x: Command, y: Command)
    requires |s.channels| <= CONTROL_CHANNEL && WindowsCounted(s)
    requires s.outgoing == [] && CommandOk(s, u) && CommandOk(s, x) && CommandOk(s, y)
    requires u.channel < |s.channels| && !u.acknowledge && u.unsequenced
    requires x.acknowledge && y.acknowledge && x.channel == y.channel < |s.channels| && NextNumber(s, x.channel) == 0
    ensures var t := Setup(Setup(Setup(s, u), x), y);
            && |t.outgoing| == 3 && t.sent == s.sent && t.inTransit == s.inTransit && t.mtu == s.mtu
            && t.throttleCounter == s.throttleCounter && |t.channels| == |s.channels| && WindowsCounted(t)
            && t.outgoing[0].message.command == u
            && t.outgoing[0].message.number == t.outgoing[0].message.unreliableNumber == 0
            && t.outgoing[1].message.number == t.outgoing[1].message.unreliableNumber == 0
            && t.outgoing[2].message == Message(y, 1, 0, 0, s.channels[y.channel].issued + 2)
            && t.outgoing[2].attempts == 0
            && t.channels[y.channel].launched == s.channels[y.channel].launched
  {
    hide CommandSize;
  }

  /** The throttled one takes the second along. */
  lemma DropsTwoOfThree(s: Sender, u: Command, x: Command, y: Command, e: Settings)
    requires |s.channels| <= CONTROL_CHANNEL && WindowsCounted(s) && MINIMUM_MTU <= s.mtu <= MAXIMUM_MTU
    requires s.outgoing == [] && CommandOk(s, u) && CommandOk(s, x) && CommandOk(s, y)
    requires u.channel < |s.channels| && !u.acknowledge && u.unsequenced && Throttled(Message(u, 0, 0, 0, 0))
    requires x.acknowledge && y.acknowledge && x.channel == y.channel < |s.channels| && NextNumber(s, x.channel) == 0
    requires NextCounter(s) > e.packetThrottle
    ensures var p := StartPass(Setup(Setup(Setup(s, u), x), y), Empty());
            && |p.s.outgoing| > 0 && WindowsCounted(p.s) && p.d.packetSize <= p.s.mtu
            && var q := Advance(p, e);
            && q.s.sent == s.sent && q.s.inTransit == s.inTransit && q.s.mtu == s.mtu && |q.s.channels| == |s.channels|
            && WindowsCounted(q.s) && q.d == Empty() && q.at == 0 && !q.wrap && !q.exceeded && !q.more && q.out == []
            && |q.s.outgoing| == 1 && q.s.outgoing[0].attempts == 0
            && q.s.outgoing[0].message == Message(y, 1, 0, 0, s.channels[y.channel].issued + 2)
            && q.s.channels[y.channel].launched == s.channels[y.channel].launched
  {
    hide Setup, NextNumber, CommandOk, Full, Throttled;
    ThreeQueued(s, u, x, y);
    FitsAlone(s, u);
    ThrottledByPacket(Setup(Setup(Setup(s, u), x), y).outgoing[0].message, u);
    AdvanceDrops(Setup(Setup(Setup(s, u), x), y), e);
  }

  lemma FitsAlone(s: Sender, u: Command)
    requires CommandOk(s, u)
    ensures HEADER_SIZE + CommandSize(u.kind) + |Carried(u.payload)| <= s.mtu
  {
  }

  lemma AdvanceDrops(t: Sender, e: Settings)
    requires WindowsCounted(t) && MINIMUM_MTU <= t.mtu <= MAXIMUM_MTU && |t.outgoing| == 3
    requires NextCounter(t) > e.packetThrottle
    requires var m := t.outgoing[0].message;
      && !m.command.acknowledge && Throttled(m) && HEADER_SIZE + CommandSize(m.command.kind) + Length(m) <= t.mtu
    requires SameNumbers(t.outgoing[1].message, t.outgoing[0].message)
    requires !SameNumbers(t.outgoing[2].message, t.outgoing[0].message)
    ensures var p := StartPass(t, Empty());
            && p.d.packetSize <= t.mtu
            && Advance(p, e) == p.(s := t.(outgoing := [t.outgoing[2]], throttleCounter := NextCounter(t)))
  {
    hide Full, DropRun, CommandSize, Throttled, NextCounter, SameNumbers;
    var m := t.outgoing[0].message;
    EmptyFits(m, t.mtu);
    assert Without(t.outgoing, 0) == [t.outgoing[1], t.outgoing[2]];
    DropFirst(t.outgoing[1], t.outgoing[2], m);
  }

  lemma ThrottledByPacket(m: Message, u: Command)
    requires m.command == u && Throttled(Message(u, 0, 0, 0, 0))
    ensures Throttled(m)
  {
  }

  lemma DropFirst(x: OutgoingCommand, y: OutgoingCommand, m: Message)
    requires SameNumbers(x.message, m) && !SameNumbers(y.message, m)
    ensures DropRun([x, y], 0, m) == [y]
  {
    var two := [x, y];
    assert Without(two, 0) == [y];
    assert DropRun([y], 0, m) == [y];
  }

  lemma LaunchesThird(s: Sender, q: Pass, y: Command, e: Settings)
    requires WindowsCounted(q.s) && q.d == Empty() && q.at == 0 && !q.wrap && !q.exceeded && q.s.mtu == s.mtu
    requires MINIMUM_MTU <= s.mtu <= MAXIMUM_MTU && |q.s.channels| == |s.channels| <= CONTROL_CHANNEL && CommandOk(s, y)
    requires y.acknowledge && y.channel < |s.channels| && q.s.inTransit + |Carried(y.payload)| <= s.mtu
    requires |q.s.outgoing| == 1 && q.s.outgoing[0].message == Message(y, 1, 0, 0, s.channels[y.channel].issued + 2)
    ensures q.d.packetSize <= q.s.mtu && Advance(q, e).s == Launch(q.s, 0, e)
  {
    hide Full, CommandSize, Launch;
    EmptyFits(q.s.outgoing[0].message, q.s.mtu);
  }

  lemma NothingWaits(s: Sender, c: nat)
    requires Valid(s) && Orderly(s, c) && s.outgoing == [] && c < |s.channels|
    ensures s.channels[c].launched == s.channels[c].issued && s.channels[c].number == Wire(s.channels[c].issued)
  {
    hide FlightBound, Valid, InFlight;
    ChannelNumber(s, c);
  }

  lemma SameWindowAfterWrap(s: Sender, c: byte)
    requires c != CONTROL_CHANNEL && c < |s.channels| && s.channels[c].number == Wire(s.channels[c].issued)
    requires NextNumber(s, c) == 0
    ensures WindowOf(s.channels[c].issued + 2) == WindowOf(s.channels[c].issued + 1)
  {
    WrapStartsWindow(s.channels[c].issued);
  }

  lemma WrapStartsWindow(i: nat)
    requires Wire(i + 1) == 0
    ensures WindowOf(i + 2) == WindowOf(i + 1)
  {
    SplitSerial(i + 1);
    SplitSerial(i + 2);
    assert Wire(i + 2) == 1;
    hide Wire, WindowOf;
  }

  lemma LaunchBreaksBound(s: Sender, q: Sender, e: Settings, c: byte, n: nat)
    requires WindowsCounted(q) && c < |s.channels| == |q.channels| <= CONTROL_CHANNEL && s.outgoing == []
    requires q.sent == s.sent
    requires n in InFlight(s, c) && |q.outgoing| == 1 && q.outgoing[0].attempts == 0
    requires var m := q.outgoing[0].message; m.command.acknowledge && m.command.channel == c
                                             && m.serial == s.channels[c].issued + 2
    requires q.channels[c].launched == s.channels[c].launched == s.channels[c].issued
    requires WindowOf(s.channels[c].issued + 1) == WindowOf(n) + 7
    ensures var r := Launch(q, 0, e);
            n in InFlight(r, c) && s.channels[c].issued + 2 in InFlight(r, c) && !Orderly(r, c)
  {
    hide Orderly, WindowOf, Stamped, WindowHasGap, Marked;
    LaunchMoves(q, 0, e, c);
    var r := Launch(q, 0, e);
    assert n in Flight(c, s.sent);
    assert r.channels[c].launched == s.channels[c].issued + 1;
    if Orderly(r, c) {
      BoundOf(r, c);
    }
  }

  lemma EmptyFits(m: Message, mtu: nat)
    requires HEADER_SIZE + CommandSize(m.command.kind) + Length(m) <= mtu <= MAXIMUM_MTU
    ensures !Full(Empty(), m, mtu)
  {
  }

  lemma DropOne(x: OutgoingCommand, m: Message)
    requires SameNumbers(x.message, m)
    ensures DropRun([x], 0, m) == []
  {
    var one := [x];
    assert Without(one, 0) == [];
  }

  // ---- there are such senders ----

  function Quiet(ch: SendChannel, sent: seq<OutgoingCommand>): Sender {
    Sender([], sent, [ch], MINIMUM_MTU, 0, 0, 0, PACKET_THROTTLE_SCALE - 1, 0, 0)
  }

  function UnsequencedOne(): Command {
    Command(SendUnsequenced, false, true, 0, Whole([]))
  }

  function ReliableOne(): Command {
    Command(SendReliable, true, false, 0, Whole([]))
  }

  /** A sender to which ThrottleLosesReliable applies: one that has sent 65535 reliable packets on a
      channel and got all of them acknowledged. */
  lemma LosingSender(e: Settings) returns (s: Sender)
    requires e.packetThrottle == 0
    ensures Valid(s) && Orderly(s, 0) && s.outgoing == [] && CommandOk(s, UnsequencedOne())
    ensures CommandOk(s, ReliableOne())
    ensures NextNumber(s, 0) == 0 && NextCounter(s) > e.packetThrottle
    ensures var s' := Setup(Setup(s, UnsequencedOne()), ReliableOne()); var p := StartPass(s', Empty());
            && |s'.outgoing| == 2 && WindowsCounted(s')
            && Advance(p, e).s.outgoing == [] && Advance(p, e).s.sent == [] && Advance(p, e).out == []
  {
    hide Valid, Orderly, Setup, Advance, WindowsCounted;
    s := Quiet(SendChannel(NUMBERS - 1, 0, 0, seq(RELIABLE_WINDOWS, i => 0), NUMBERS - 1, NUMBERS - 1), []);
    QuietIsValid(s);
    QuietTakes(s);
    ThrottleLosesReliable(s, UnsequencedOne(), ReliableOne(), e);
  }

  lemma QuietTakes(s: Sender)
    requires |s.channels| == 1 && s.mtu == MINIMUM_MTU
    ensures CommandOk(s, UnsequencedOne()) && CommandOk(s, ReliableOne())
    ensures |Setup(Setup(s, UnsequencedOne()), ReliableOne()).outgoing| == |s.outgoing| + 2
  {
  }

  lemma QuietIsValid(s: Sender)
    requires s == Quiet(SendChannel(NUMBERS - 1, 0, 0, seq(RELIABLE_WINDOWS, i => 0), NUMBERS - 1, NUMBERS - 1), [])
    ensures Valid(s) && Orderly(s, 0)
  {
    hide Marks;
    NothingMarked();
    forall x: nat ensures InWindow(InFlight(s, 0), x) == {} {
    }
    forall w: nat ensures WindowHasGap(InFlight(s, 0), w) {
      assert WindowOf(w * RELIABLE_WINDOW_SIZE) == w;
    }
  }

  function SentOne(n: nat): OutgoingCommand {
    OutgoingCommand(Message(ReliableOne(), Wire(n), 0, 0, n), 1, 0, 1, 1)
  }

  /** A sender to which DropSkipsWindowRule applies: of those 65535 packets the first of the tenth
      window has not been acknowledged. */
  lemma SkippingSender(e: Settings) returns (s: Sender, n: nat)
    requires e.packetThrottle == 0
    ensures Valid(s) && Orderly(s, 0) && s.outgoing == [] && n in InFlight(s, 0) && |s.channels| == 1
    ensures var p := StartPass(Setup(Setup(Setup(s, UnsequencedOne()), ReliableOne()), ReliableOne()), Empty());
            && |p.s.outgoing| == 3 && WindowsCounted(p.s) && p.d.packetSize <= p.s.mtu
            && var q := Advance(p, e);
            && q.at < |q.s.outgoing| && WindowsCounted(q.s) && q.d.packetSize <= q.s.mtu
            && var r := Advance(q, e).s;
            && n in InFlight(r, 0) && s.channels[0].issued + 2 in InFlight(r, 0)
            && WindowOf(s.channels[0].issued + 2) == WindowOf(n) + 7
  {
    hide Valid, Orderly, Setup, Advance, WindowsCounted, InFlight;
    n := 9 * RELIABLE_WINDOW_SIZE;
    s := Quiet(SkippingChannel(), [SentOne(n)]);
    SkippingIsValid(s, n);
    SkippingIsOrderly(s, n);
    QuietTakes(s);
    ThreeTaken(s);
    SkippingCounts(s, n);
    DropSkipsWindowRule(s, UnsequencedOne(), ReliableOne(), ReliableOne(), e, n);
  }

  function SkippingChannel(): SendChannel {
    SendChannel(NUMBERS - 1, 0, Marked(0, 9), seq(RELIABLE_WINDOWS, i => 0)[9 := 1], NUMBERS - 1, NUMBERS - 1)
  }

  lemma ThreeTaken(s: Sender)
    requires |s.channels| == 1 && s.outgoing == []
    ensures |Setup(Setup(Setup(s, UnsequencedOne()), ReliableOne()), ReliableOne()).outgoing| == 3
  {
  }

  lemma SkippingCounts(s: Sender, n: nat)
    requires s == Quiet(SkippingChannel(), [SentOne(n)]) && n == 9 * RELIABLE_WINDOW_SIZE
    ensures NextNumber(s, 0) == 0 && NextCounter(s) == 6 && Bytes(s.sent) == 0 && InFlight(s, 0) == multiset{n}
    ensures WindowOf(n) + 7 == WindowOf(s.channels[0].issued + 1)
  {
    hide Marked;
    assert s.sent[1..] == [];
  }

  lemma SkippingIsValid(s: Sender, n: nat)
    requires s == Quiet(SkippingChannel(), [SentOne(n)]) && n == 9 * RELIABLE_WINDOW_SIZE
    ensures Valid(s)
  {
    hide Marks, Marked;
    NothingMarked();
    MarkedCounts(0, seq(RELIABLE_WINDOWS, i => 0), 9);
    SkippingCounts(s, n);
    forall w: nat ensures Tally(0, w, s.sent) == if w == 9 then 1 else 0 {
      TallyOfOne(0, w, SentOne(n));
    }
  }

  lemma SkippingIsOrderly(s: Sender, n: nat)
    requires s == Quiet(SkippingChannel(), [SentOne(n)]) && n == 9 * RELIABLE_WINDOW_SIZE
    ensures Orderly(s, 0)
  {
    hide Marked;
    SkippingCounts(s, n);
    forall w: nat ensures InWindow(InFlight(s, 0), w) == if w == 9 then {n} else {} {
    }
    forall w: nat ensures WindowHasGap(InFlight(s, 0), w) {
      assert WindowOf(w * RELIABLE_WINDOW_SIZE) == w && WindowOf(w * RELIABLE_WINDOW_SIZE + 1) == w;
    }
  }
}
