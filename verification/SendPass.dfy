/** One pass over a peer's outgoing commands (enet_protocol_check_outgoing_commands,
    src/enet/protocol.c:1386-1565): which commands go into the datagram, and what that leaves. */
module SendPass {
  import opened Words
  import opened Windows
  import opened Outgoing
  import opened FlightWindow

  const MAXIMUM_PACKET_COMMANDS := 32
  const BUFFER_MAXIMUM := 1 + 2 * MAXIMUM_PACKET_COMMANDS
  const PACKET_THROTTLE_SCALE := 32
  const PACKET_THROTTLE_COUNTER := 7

  type window = n: int | 0 <= n <= MAXIMUM_WINDOW_SIZE
  type throttle = n: int | 0 <= n <= PACKET_THROTTLE_SCALE

  /** What a pass reads and does not change. */
  datatype Settings = Settings(windowSize: window, packetThrottle: throttle, roundTripTime: u32,
                               roundTripTimeVariance: u32,
                               timeoutLimit: u32, serviceTime: u32)

  /** The datagram under construction: how many commands and buffers it has, and its size. */
  datatype Datagram = Datagram(commandCount: nat, bufferCount: nat, packetSize: nat)

  predicate DatagramOk(d: Datagram, mtu: nat) {
    && d.commandCount <= MAXIMUM_PACKET_COMMANDS && 1 <= d.bufferCount <= BUFFER_MAXIMUM
    && HEADER_SIZE <= d.packetSize <= mtu
    && (d.commandCount == 0 ==> d == Empty())
  }

  function Empty(): Datagram {
    Datagram(0, 1, HEADER_SIZE)
  }

  /** The four reasons to leave a command for the next datagram. */
  predicate Full(d: Datagram, m: Message, mtu: nat)
    requires d.packetSize <= mtu
  {
    || d.commandCount >= MAXIMUM_PACKET_COMMANDS
    || d.bufferCount + 1 >= BUFFER_MAXIMUM
    || mtu - d.packetSize < CommandSize(m.command.kind)
    || (!m.command.payload.NoPacket?
        && (mtu - d.packetSize) % 0x1_0000 < (CommandSize(m.command.kind) + Length(m)) % 0x1_0000)
  }

  function Put(d: Datagram, m: Message): Datagram {
    Datagram(d.commandCount + 1, d.bufferCount + if m.command.payload.NoPacket? then 1 else 2,
             d.packetSize + CommandSize(m.command.kind) + Length(m))
  }

  datatype Pass = Pass(s: Sender, at: nat, out: seq<Message>, d: Datagram, wrap: bool, exceeded: bool, canPing: bool,
      more: bool)

  function StartPass(s: Sender, d: Datagram): Pass {
    Pass(s, 0, [], d, false, false, true, false)
  }

  predicate OnChannel(s: Sender, m: Message) {
    m.command.acknowledge && m.command.channel < |s.channels|
  }

  predicate WindowsCounted(s: Sender) {
    forall c: nat :: c < |s.channels| ==> |s.channels[c].reliableWindows| == RELIABLE_WINDOWS
  }

  /** A command opening a window that may not be opened yet. */
  predicate OpensBlocked(s: Sender, x: OutgoingCommand)
    requires WindowsCounted(s)
  {
    && OnChannel(s, x.message) && x.attempts < 1 && x.message.number % RELIABLE_WINDOW_SIZE == 0
    && Blocked(s.channels[x.message.command.channel].reliableWindows, WireWindow(x.message))
  }

  lemma BlockedIsOnChannel(s: Sender, x: OutgoingCommand)
    requires WindowsCounted(s)
    ensures OpensBlocked(s, x) ==> OnChannel(s, x.message)
  {
  }

  predicate OverCommitted(s: Sender, m: Message, e: Settings) {
    var windowSize := e.packetThrottle * e.windowSize / PACKET_THROTTLE_SCALE;
    s.inTransit + Length(m) > if windowSize > s.mtu then windowSize else s.mtu
  }

  function Stamped(x: OutgoingCommand, e: Settings): OutgoingCommand {
    var initial: u32 := (e.roundTripTime + 4 * e.roundTripTimeVariance) % WORD;
    var timed := if x.timeout == 0 then x.(timeout := initial, timeoutLimit := e.timeoutLimit * initial % WORD) else x;
    timed.(attempts := x.attempts + 1, sentTime := e.serviceTime)
  }

  function Counted(s: Sender, x: OutgoingCommand): seq<SendChannel>
    requires WindowsCounted(s)
  {
    var m := x.message;
    if OnChannel(s, m) && x.attempts < 1 then
      s.channels[m.command.channel := CountedUp(s.channels[m.command.channel], WireWindow(m))]
    else s.channels
  }

  /** Sending a command that wants an acknowledgement moves it to the list of those sent. */
  function Launch(s: Sender, at: nat, e: Settings): Sender
    requires at < |s.outgoing| && WindowsCounted(s)
  {
    var x := s.outgoing[at];
    s.(outgoing := Without(s.outgoing, at),
       sent := s.sent + [Stamped(x, e)],
       channels := Counted(s, x),
       inTransit := (s.inTransit + Length(x.message)) % WORD,
       nextTimeout := if s.sent == [] then (e.serviceTime + Stamped(x, e).timeout) % WORD else s.nextTimeout)
  }

  predicate SameNumbers(a: Message, b: Message) {
    a.number == b.number && a.unreliableNumber == b.unreliableNumber
  }

  /** What throttling drops after a dropped command: all that follow with the same numbers. */
  function DropRun(cmds: seq<OutgoingCommand>, at: nat, m: Message): seq<OutgoingCommand>
    decreases |cmds|
  {
    if at < |cmds| && SameNumbers(cmds[at].message, m) then DropRun(Without(cmds, at), at, m) else cmds
  }

  function NextCounter(s: Sender): nat {
    (s.throttleCounter + PACKET_THROTTLE_COUNTER) % PACKET_THROTTLE_SCALE
  }

  predicate Throttled(m: Message) {
    !m.command.payload.NoPacket? && OffsetOf(m.command.payload) == 0
  }

  /** The command at the pass's position, if it fits: sent, or dropped by throttling. */
  function Emit(p: Pass, e: Settings): Pass
    requires p.at < |p.s.outgoing| && WindowsCounted(p.s)
  {
    var s := p.s;
    var m := s.outgoing[p.at].message;
    if m.command.acknowledge then
      p.(s := Launch(s, p.at, e), out := p.out + [m], d := Put(p.d, m))
    else
      var counted := if Throttled(m) then s.(throttleCounter := NextCounter(s)) else s;
      var rest := Without(s.outgoing, p.at);
      if Throttled(m) && counted.throttleCounter > e.packetThrottle then
        p.(s := counted.(outgoing := DropRun(rest, p.at, m)))
      else
        p.(s := counted.(outgoing := rest), out := p.out + [m], d := Put(p.d, m))
  }

  /** One turn of the loop. */
  function Advance(p: Pass, e: Settings): Pass
    requires p.at < |p.s.outgoing| && WindowsCounted(p.s) && p.d.packetSize <= p.s.mtu
  {
    var x := p.s.outgoing[p.at];
    var m := x.message;
    var wrap := p.wrap || OpensBlocked(p.s, x);
    if OnChannel(p.s, m) && wrap then p.(at := p.at + 1, wrap := true)
    else
      var data := m.command.acknowledge && !m.command.payload.NoPacket?;
      var exceeded := p.exceeded || (data && OverCommitted(p.s, m, e));
      if data && exceeded then p.(at := p.at + 1, exceeded := true)
      else
        var q := p.(canPing := p.canPing && !m.command.acknowledge);
        if Full(p.d, m, p.s.mtu) then q.(more := true) else Emit(q, e)
  }

  // ---- the whole pass ----

  /** Every command fits a datagram of its own. */
  predicate SizesOk(cmds: seq<OutgoingCommand>, mtu: nat) {
    forall i :: 0 <= i < |cmds| ==>
      HEADER_SIZE + CommandSize(cmds[i].message.command.kind) + Length(cmds[i].message) <= mtu
  }

  predicate Shaped(s: Sender) {
    && |s.channels| <= CONTROL_CHANNEL && MINIMUM_MTU <= s.mtu <= MAXIMUM_MTU
    && WindowsCounted(s) && SizesOk(s.outgoing, s.mtu) && SizesOk(s.sent, s.mtu)
  }

  predicate PassShaped(p: Pass) {
    Shaped(p.s) && DatagramOk(p.d, p.s.mtu) && p.at <= |p.s.outgoing|
  }

  /** An emitted command fits. */
  lemma PutFits(d: Datagram, m: Message, mtu: nat)
    requires DatagramOk(d, mtu) && !Full(d, m, mtu) && mtu <= MAXIMUM_MTU
    requires HEADER_SIZE + CommandSize(m.command.kind) + Length(m) <= mtu
    ensures DatagramOk(Put(d, m), mtu)
  {
  }

  lemma {:induction false} DropRunShape(cmds: seq<OutgoingCommand>, at: nat, m: Message, mtu: nat)
    requires at <= |cmds| && SizesOk(cmds, mtu)
    ensures at <= |DropRun(cmds, at, m)| <= |cmds| && SizesOk(DropRun(cmds, at, m), mtu)
    decreases |cmds|
  {
    if at < |cmds| && SameNumbers(cmds[at].message, m) {
      DropRunShape(Without(cmds, at), at, m, mtu);
    }
  }

  lemma LaunchKeepsShape(s: Sender, at: nat, e: Settings)
    requires Shaped(s) && at < |s.outgoing|
    ensures Shaped(Launch(s, at, e)) && |Launch(s, at, e).outgoing| == |s.outgoing| - 1 && Launch(s, at, e).mtu == s.mtu
  {
    hide CommandSize;
    assert Stamped(s.outgoing[at], e).message == s.outgoing[at].message;
  }

  lemma EmitKeepsShape(p: Pass, e: Settings)
    requires PassShaped(p) && p.at < |p.s.outgoing| && !Full(p.d, p.s.outgoing[p.at].message, p.s.mtu)
    ensures PassShaped(Emit(p, e)) && |Emit(p, e).s.outgoing| < |p.s.outgoing| && Emit(p, e).at == p.at
    ensures Emit(p, e).more == p.more
  {
    hide DropRun, Full, CommandSize, DatagramOk, Launch;
    var m := p.s.outgoing[p.at].message;
    PutFits(p.d, m, p.s.mtu);
    if m.command.acknowledge {
      LaunchKeepsShape(p.s, p.at, e);
    } else {
      DropRunShape(Without(p.s.outgoing, p.at), p.at, m, p.s.mtu);
    }
  }

  lemma AdvanceKeepsShape(p: Pass, e: Settings)
    requires PassShaped(p) && p.at < |p.s.outgoing|
    ensures PassShaped(Advance(p, e))
    ensures var q := Advance(p, e); !q.more ==> |q.s.outgoing| - q.at < |p.s.outgoing| - p.at
  {
    hide Shaped, OpensBlocked, OverCommitted, Full, Emit;
    var m := p.s.outgoing[p.at].message;
    if !Full(p.d, m, p.s.mtu) {
      EmitKeepsShape(p.(canPing := p.canPing && !m.command.acknowledge), e);
    }
  }

  function Finish(p: Pass, e: Settings): (q: Pass)
    requires PassShaped(p) && !p.more
    decreases |p.s.outgoing| - p.at
  {
    if p.at >= |p.s.outgoing| then p else
      AdvanceKeepsShape(p, e);
      var q := Advance(p, e);
      if q.more then q else Finish(q, e)
  }

  // ---- what a pass keeps ----

  predicate Droppable(m: Message) {
    !m.command.acknowledge && Throttled(m)
  }

  /** All commands after i, up to j, have the numbers of i. */
  predicate RunsInto(cmds: seq<OutgoingCommand>, i: nat, j: nat)
    requires i < |cmds| && j < |cmds|
  {
    forall k :: i < k <= j ==> SameNumbers(cmds[k].message, cmds[i].message)
  }

  /** Throttling never runs on from a command it may drop into a reliable one of channel c. */
  predicate Spares(cmds: seq<OutgoingCommand>, c: nat) {
    forall i, j :: 0 <= i < j < |cmds| && Droppable(cmds[i].message) && RunsInto(cmds, i, j)
                   ==> !Reliable(cmds[j].message, c)
  }

  predicate OutOk(s: Sender, c: nat, out: seq<Message>)
    requires c < |s.channels|
  {
    forall m :: m in out && Reliable(m, c) ==> 1 <= m.serial <= s.channels[c].launched
  }

  /** A pass while it keeps the sender valid. */
  ghost predicate PassValid(p: Pass) {
    && Valid(p.s) && DatagramOk(p.d, p.s.mtu)
    && p.at <= |p.s.outgoing|
  }

  /** And while it spares channel c. */
  ghost predicate PassOk(p: Pass, c: nat) {
    && PassValid(p) && (p.at > 0 ==> p.wrap || p.exceeded)
    && Orderly(p.s, c) && Spares(p.s.outgoing[p.at..], c)
    && OutOk(p.s, c, p.out)
  }

  /** What no step of a pass changes: no command is forgotten but by throttling, and none appears. */
  ghost predicate Keeps(s: Sender, s': Sender) {
    && |s'.channels| == |s.channels| && s'.mtu == s.mtu
    && Held(s') <= Held(s)
  }

  /** And none of channel c is acknowledged or lost. */
  ghost predicate ChannelKeeps(s: Sender, s': Sender, c: nat) {
    && c < |s.channels| && c < |s'.channels|
    && s'.channels[c].issued == s.channels[c].issued
    && s'.channels[c].launched >= s.channels[c].launched
    && (forall n :: Settled(s', c, n) <==> Settled(s, c, n))
  }

  // ---- a command that wants an acknowledgement is launched ----

  lemma LaunchMoves(s: Sender, at: nat, e: Settings, c: nat)
    requires at < |s.outgoing| && WindowsCounted(s) && s.outgoing[at].message.command.acknowledge
    ensures var x := s.outgoing[at];
            InFlight(Launch(s, at, e), c)
            == InFlight(s, c) + if Unsent(x, c) then multiset{x.message.serial} else multiset{}
    ensures Waiting(c, s.outgoing) == Waiting(c, s.outgoing[..at]) + Waiting(c, [s.outgoing[at]])
            + Waiting(c, s.outgoing[at + 1..])
    ensures Waiting(c, Launch(s, at, e).outgoing) == Waiting(c, s.outgoing[..at]) + Waiting(c, s.outgoing[at + 1..])
    ensures Bytes(Launch(s, at, e).sent) == Bytes(s.sent) + Length(s.outgoing[at].message)
  {
    var x := s.outgoing[at];
    RemovedFrom(c, s.outgoing, at);
    FlightAdds(c, s.sent, [Stamped(x, e)]);
    BytesAdd(s.sent, [Stamped(x, e)]);
  }

  lemma FirstWaiting(s: Sender, c: nat)
    requires |s.outgoing| > 0 && Unsent(s.outgoing[0], c) && c < |s.channels|
    requires ChannelOk(s.channels[c], InFlight(s, c), Waiting(c, s.outgoing))
    ensures var ch := s.channels[c];
            && s.outgoing[0].message.serial == ch.launched + 1 <= ch.issued
            && Waiting(c, s.outgoing[1..]) == Following(ch.launched + 1, ch.issued)
  {
    hide FlightBound, Flight;
    var ch := s.channels[c];
    var w := Waiting(c, s.outgoing);
    assert w == [s.outgoing[0].message.serial] + Waiting(c, s.outgoing[1..]);
    assert w[0] == ch.launched + 1;
    assert Waiting(c, s.outgoing[1..]) == w[1..];
    assert Following(ch.launched, ch.issued)[1..] == Following(ch.launched + 1, ch.issued);
  }

  lemma WireWindowOf(n: nat)
    ensures Wire(n) % RELIABLE_WINDOW_SIZE == n % RELIABLE_WINDOW_SIZE
    ensures Wire(n) / RELIABLE_WINDOW_SIZE == WindowOf(n) % RELIABLE_WINDOWS
  {
    SplitSerial(n);
  }

  /** The channel of the command launched, when it is sent for the first time. */
  lemma FirstLaunchKeepsChannel(s: Sender, e: Settings, c: nat)
    requires Valid(s) && Orderly(s, c) && |s.outgoing| > 0 && WindowsCounted(s)
    requires Unsent(s.outgoing[0], c) && !OpensBlocked(s, s.outgoing[0])
    ensures var s' := Launch(s, 0, e); Orderly(s', c) && ChannelKeeps(s, s', c)
  {
    hide FlightBound, CountedUp, Blocked, Flight, Waiting, MessagesOk, AttemptedFirst, Wire, Bytes, AllCount;
    var x := s.outgoing[0];
    var ch := s.channels[c];
    FirstWaiting(s, c);
    MessageIsOk(s, x);
    var n := ch.launched + 1;
    LaunchMoves(s, 0, e, c);
    WireWindowOf(n);
    LaunchKeepsBound(ch.launched, ch.reliableWindows, InFlight(s, c));
    CountedUpOnly(ch, WindowOf(n) % RELIABLE_WINDOWS);
    WaitingOfNone(c);
    assert s.outgoing[..0] == [];
    SettledAfterLaunch(s, Launch(s, 0, e), c);
  }

  lemma CountedUpOnly(ch: SendChannel, w: nat)
    requires w < |ch.reliableWindows| == RELIABLE_WINDOWS
    ensures var ch' := CountedUp(ch, w);
            && ch'.number == ch.number && ch'.issued == ch.issued && ch'.launched == ch.launched + 1
            && ch'.usedReliableWindows == Marked(ch.usedReliableWindows, w)
            && ch'.reliableWindows == ch.reliableWindows[w := ch.reliableWindows[w] + 1]
  {
    hide Marked;
  }

  lemma MessageIsOk(s: Sender, x: OutgoingCommand)
    requires Valid(s) && x in s.outgoing + s.sent
    ensures MessageOk(x.message, |s.channels|, s.mtu)
  {
    hide AllCount, AttemptedFirst, Bytes, MessageOk;
  }

  lemma WaitingOfNone(c: nat)
    ensures Waiting(c, []) == []
  {
  }

  lemma SettledAfterLaunch(s: Sender, s': Sender, c: nat)
    requires c < |s.channels| == |s'.channels|
    requires s'.channels[c].launched == s.channels[c].launched + 1 && s'.channels[c].issued == s.channels[c].issued
    requires InFlight(s', c) == InFlight(s, c) + multiset{s.channels[c].launched + 1}
    ensures ChannelKeeps(s, s', c)
  {
  }

  lemma SameKeepsChannel(s: Sender, s': Sender, c: nat)
    requires Orderly(s, c) && c < |s'.channels| == |s.channels| && s'.channels[c] == s.channels[c]
    requires InFlight(s', c) == InFlight(s, c) && Waiting(c, s'.outgoing) == Waiting(c, s.outgoing)
    ensures Orderly(s', c) && ChannelKeeps(s, s', c)
  {
  }

  lemma LaunchKeepsOrder(s: Sender, at: nat, e: Settings, c: nat)
    requires Valid(s) && Orderly(s, c) && at < |s.outgoing| && WindowsCounted(s)
    requires s.outgoing[at].message.command.acknowledge && !OpensBlocked(s, s.outgoing[at])
    requires at > 0 ==> !OnChannel(s, s.outgoing[at].message)
    ensures Orderly(Launch(s, at, e), c) && ChannelKeeps(s, Launch(s, at, e), c)
  {
    hide FlightBound, Blocked, Flight, MessagesOk, AttemptedFirst, Wire, Bytes, ChannelOk, AllCount;
    var x := s.outgoing[at];
    if Unsent(x, c) {
      assert at == 0;
      FirstLaunchKeepsChannel(s, e, c);
    } else {
      LaunchMoves(s, at, e, c);
      SameKeepsChannel(s, Launch(s, at, e), c);
    }
  }

  lemma MessagesSubset(a: seq<OutgoingCommand>, b: seq<OutgoingCommand>, channels: nat, mtu: nat)
    requires MessagesOk(a, channels, mtu) && forall x :: x in b ==> x in a
    ensures MessagesOk(b, channels, mtu)
  {
  }

  lemma WithoutIsWithin<T>(a: seq<T>, i: nat)
    requires i < |a|
    ensures forall x :: x in Without(a, i) ==> x in a
  {
  }

  lemma WithoutKeepsAttemptedFirst(a: seq<OutgoingCommand>, i: nat)
    requires i < |a| && AttemptedFirst(a)
    ensures AttemptedFirst(Without(a, i))
  {
  }

  lemma LaunchKeepsLists(s: Sender, at: nat, e: Settings)
    requires Valid(s) && at < |s.outgoing| && WindowsCounted(s) && s.outgoing[at].message.command.acknowledge
    ensures var s' := Launch(s, at, e);
            && MessagesOk(s'.outgoing, |s.channels|, s.mtu) && MessagesOk(s'.sent, |s.channels|, s.mtu)
            && AttemptedFirst(s'.outgoing) && AllAttempted(s'.sent)
            && Held(s') <= Held(s)
  {
    hide MessageOk, AllCount, Bytes;
    WithoutIsWithin(s.outgoing, at);
    MessagesSubset(s.outgoing, Without(s.outgoing, at), |s.channels|, s.mtu);
    WithoutKeepsAttemptedFirst(s.outgoing, at);
    var s' := Launch(s, at, e);
    forall x | x in s'.outgoing + s'.sent ensures x.message in Held(s) {
      if x in s'.outgoing || x in s.sent {
        assert x in s.outgoing + s.sent;
      } else {
        assert x == Stamped(s.outgoing[at], e);
        assert s.outgoing[at] in s.outgoing + s.sent;
      }
    }
  }

  lemma TransitStaysBounded(s: Sender, at: nat, e: Settings)
    requires Valid(s) && at < |s.outgoing| && WindowsCounted(s) && s.outgoing[at].message.command.acknowledge
    requires s.outgoing[at].message.command.payload.NoPacket? || !OverCommitted(s, s.outgoing[at].message, e)
    ensures var s' := Launch(s, at, e); s'.inTransit == Bytes(s'.sent) <= MAXIMUM_WINDOW_SIZE
  {
    hide AllCount, MessagesOk, AttemptedFirst, AllAttempted, Bytes;
    LaunchMoves(s, at, e, CONTROL_CHANNEL);
    ScaledWindow(e);
  }

  lemma ScaledWindow(e: Settings)
    ensures e.packetThrottle * e.windowSize / PACKET_THROTTLE_SCALE <= MAXIMUM_WINDOW_SIZE
  {
    assert (PACKET_THROTTLE_SCALE - e.packetThrottle) * e.windowSize >= 0;
    ScaledDown(e.packetThrottle * e.windowSize, e.windowSize);
  }

  lemma ScaledDown(scaled: int, windowSize: window)
    requires scaled <= PACKET_THROTTLE_SCALE * windowSize
    ensures scaled / PACKET_THROTTLE_SCALE <= windowSize
  {
  }

  lemma LaunchTallies(s: Sender, at: nat, e: Settings, c: nat, w: nat)
    requires at < |s.outgoing| && WindowsCounted(s) && s.outgoing[at].message.command.acknowledge
    ensures var s' := Launch(s, at, e); var x := s.outgoing[at];
            Tally(c, w, s'.outgoing) + Tally(c, w, s'.sent)
            == Tally(c, w, s.outgoing) + Tally(c, w, s.sent)
               + if Unsent(x, c) && WireWindow(x.message) == w then 1 else 0
  {
    hide Tally, Counted;
    var x := s.outgoing[at];
    TallyWithout(c, w, s.outgoing, at);
    TallyAdds(c, w, s.sent, [Stamped(x, e)]);
    TallyOfOne(c, w, Stamped(x, e));
  }

  lemma LaunchCounts(s: Sender, at: nat, e: Settings, c: nat)
    requires at < |s.outgoing| && WindowsCounted(s) && s.outgoing[at].message.command.acknowledge
    requires c < |s.channels| && Counts(s, c)
    ensures Counts(Launch(s, at, e), c)
  {
    hide Marks, Marked, Tally, CountedUp;
    var x := s.outgoing[at];
    var s' := Launch(s, at, e);
    forall w: nat | w < RELIABLE_WINDOWS
      ensures Tally(c, w, s'.outgoing) + Tally(c, w, s'.sent)
              == Tally(c, w, s.outgoing) + Tally(c, w, s.sent)
                 + if Unsent(x, c) && WireWindow(x.message) == w then 1 else 0
    {
      LaunchTallies(s, at, e, c, w);
    }
    if Unsent(x, c) {
      CountedUpOnly(s.channels[c], WireWindow(x.message));
      MarkedCounts(s.channels[c].usedReliableWindows, s.channels[c].reliableWindows, WireWindow(x.message));
    }
  }

  /** Sending a command that wants an acknowledgement, a first time or again. */
  lemma LaunchKeepsValid(s: Sender, at: nat, e: Settings)
    requires Valid(s) && at < |s.outgoing| && WindowsCounted(s) && s.outgoing[at].message.command.acknowledge
    requires s.outgoing[at].message.command.payload.NoPacket? || !OverCommitted(s, s.outgoing[at].message, e)
    ensures Valid(Launch(s, at, e)) && Keeps(s, Launch(s, at, e))
  {
    hide MessagesOk, AttemptedFirst, AllAttempted, Bytes, OverCommitted, Counts, Stamped;
    LaunchKeepsLists(s, at, e);
    TransitStaysBounded(s, at, e);
    var s' := Launch(s, at, e);
    forall c: nat | c < |s.channels| ensures Counts(s', c) {
      LaunchCounts(s, at, e, c);
    }
  }

  lemma ValidCounts(s: Sender)
    requires Valid(s)
    ensures WindowsCounted(s)
  {
    hide MessagesOk, AttemptedFirst, AllAttempted, Bytes, Tally;
    forall c: nat | c < |s.channels| ensures |s.channels[c].reliableWindows| == RELIABLE_WINDOWS {
      assert Counts(s, c);
    }
  }

  // ---- other commands leave the list ----

  /** Taking commands never sent off the list. */
  ghost predicate Thinned(s: Sender, s': Sender) {
    && s' == s.(outgoing := s'.outgoing, throttleCounter := s'.throttleCounter)
    && (forall x :: x in s'.outgoing ==> x in s.outgoing)
    && (AttemptedFirst(s.outgoing) ==> AttemptedFirst(s'.outgoing))
    && (forall c: nat, w: nat :: Tally(c, w, s'.outgoing) == Tally(c, w, s.outgoing))
  }

  /** None of them a reliable one of channel c. */
  ghost predicate ThinnedBeside(s: Sender, s': Sender, c: nat) {
    Flight(c, s'.outgoing) == Flight(c, s.outgoing) && Waiting(c, s'.outgoing) == Waiting(c, s.outgoing)
  }

  lemma ThinnedKeepsValid(s: Sender, s': Sender)
    requires Valid(s) && Thinned(s, s')
    ensures Valid(s') && Keeps(s, s')
  {
    hide AttemptedFirst, Bytes, Marks, Tally, AllAttempted, MessagesOk;
    MessagesSubset(s.outgoing, s'.outgoing, |s.channels|, s.mtu);
    forall c: nat | c < |s.channels| ensures Counts(s', c) {
      assert Counts(s, c);
    }
    forall x | x in s'.outgoing + s'.sent ensures x.message in Held(s) {
      assert x in s.outgoing + s.sent;
    }
  }

  lemma RemovalThins(s: Sender, at: nat)
    requires at < |s.outgoing| && s.outgoing[at].attempts == 0
    ensures Thinned(s, s.(outgoing := Without(s.outgoing, at)))
    ensures forall c: nat :: !Reliable(s.outgoing[at].message, c)
              ==> ThinnedBeside(s, s.(outgoing := Without(s.outgoing, at)), c)
  {
    hide AttemptedFirst, Tally;
    WithoutIsWithin(s.outgoing, at);
    if AttemptedFirst(s.outgoing) {
      WithoutKeepsAttemptedFirst(s.outgoing, at);
    }
    forall c: nat, w: nat ensures Tally(c, w, Without(s.outgoing, at)) == Tally(c, w, s.outgoing) {
      TallyWithout(c, w, s.outgoing, at);
    }
    forall c: nat | !Reliable(s.outgoing[at].message, c)
      ensures ThinnedBeside(s, s.(outgoing := Without(s.outgoing, at)), c)
    {
      RemovedFrom(c, s.outgoing, at);
      assert Flight(c, [s.outgoing[at]]) == multiset{} && Waiting(c, [s.outgoing[at]]) == [];
    }
  }

  lemma ThinnedTrans(s: Sender, s': Sender, s'': Sender)
    requires Thinned(s, s') && Thinned(s', s'')
    ensures Thinned(s, s'')
  {
    hide AttemptedFirst, Tally;
  }

  lemma DroppedTail(cmds: seq<OutgoingCommand>, at: nat)
    requires at < |cmds|
    ensures Without(cmds, at)[at..] == cmds[at + 1..]
    ensures Without(cmds, at)[..at] == cmds[..at]
  {
  }

  lemma NoneAttemptedWithout(cmds: seq<OutgoingCommand>, at: nat)
    requires at < |cmds| && forall i :: at <= i < |cmds| ==> cmds[i].attempts == 0
    ensures forall i :: at <= i < |Without(cmds, at)| ==> Without(cmds, at)[i].attempts == 0
  {
  }

  /** What is dropped has never been sent, and stands among the commands the pass has not come to. */
  lemma {:induction false} DropRunThins(s: Sender, at: nat, m: Message)
    requires at <= |s.outgoing| && forall i :: at <= i < |s.outgoing| ==> s.outgoing[i].attempts == 0
    ensures var s' := s.(outgoing := DropRun(s.outgoing, at, m));
            Thinned(s, s') && at <= |s'.outgoing| <= |s.outgoing|
    decreases |s.outgoing|
  {
    hide AttemptedFirst, Tally, SameNumbers;
    if at < |s.outgoing| && SameNumbers(s.outgoing[at].message, m) {
      RemovalThins(s, at);
      NoneAttemptedWithout(s.outgoing, at);
      var t := s.(outgoing := Without(s.outgoing, at));
      DropRunThins(t, at, m);
      ThinnedTrans(s, t, t.(outgoing := DropRun(t.outgoing, at, m)));
    }
  }

  lemma SparesTail(a: seq<OutgoingCommand>, c: nat)
    requires |a| > 0 && Spares(a, c)
    ensures Spares(a[1..], c)
  {
    var t := a[1..];
    assert forall i :: 0 <= i < |t| ==> t[i] == a[i + 1];
    forall i, j | 0 <= i < j < |t| && Droppable(t[i].message) && RunsInto(t, i, j) ensures !Reliable(t[j].message, c) {
      assert RunsInto(a, i + 1, j + 1) by {
        forall k | i + 1 < k <= j + 1 ensures SameNumbers(a[k].message, a[i + 1].message) {
          assert t[k - 1] == a[k];
        }
      }
    }
  }

  /** The command behind a droppable one with its numbers goes with it. */
  lemma SparesSecond(last: OutgoingCommand, x: OutgoingCommand, rest: seq<OutgoingCommand>, c: nat)
    requires Spares([last, x] + rest, c) && Droppable(last.message) && SameNumbers(x.message, last.message)
    ensures !Reliable(x.message, c) && Spares([last] + rest, c)
  {
    var a := [last, x] + rest;
    var b := [last] + rest;
    assert RunsInto(a, 0, 1) && a[0] == last && a[1] == x;
    assert forall i :: 0 < i < |b| ==> b[i] == a[i + 1];
    forall i, j | 0 <= i < j < |b| && Droppable(b[i].message) && RunsInto(b, i, j) ensures !Reliable(b[j].message, c) {
      var i' := if i == 0 then 0 else i + 1;
      assert RunsInto(a, i', j + 1) by {
        forall k | i' < k <= j + 1 ensures SameNumbers(a[k].message, a[i'].message) {
          if k > 1 {
            assert a[k] == b[k - 1];
          }
        }
      }
    }
  }

  /** Where channel c is spared, none of its commands is dropped. */
  lemma {:induction false} DropRunBeside(s: Sender, at: nat, last: OutgoingCommand, c: nat)
    requires at <= |s.outgoing| && Droppable(last.message) && Spares([last] + s.outgoing[at..], c)
    requires forall i :: at <= i < |s.outgoing| ==> s.outgoing[i].attempts == 0
    ensures var s' := s.(outgoing := DropRun(s.outgoing, at, last.message));
            ThinnedBeside(s, s', c) && at <= |s'.outgoing| && Spares(s'.outgoing[at..], c)
    decreases |s.outgoing|
  {
    hide AttemptedFirst, Flight, Waiting, SameNumbers, Spares, Droppable, Thinned;
    if at < |s.outgoing| && SameNumbers(s.outgoing[at].message, last.message) {
      var x := s.outgoing[at];
      assert [last] + s.outgoing[at..] == [last, x] + s.outgoing[at + 1..];
      SparesSecond(last, x, s.outgoing[at + 1..], c);
      RemovalThins(s, at);
      DroppedTail(s.outgoing, at);
      NoneAttemptedWithout(s.outgoing, at);
      DropRunBeside(s.(outgoing := Without(s.outgoing, at)), at, last, c);
    } else {
      SparesTail([last] + s.outgoing[at..], c);
      assert ([last] + s.outgoing[at..])[1..] == s.outgoing[at..];
    }
  }
}
