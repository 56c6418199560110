/** What a peer has queued and what it has in flight: the outgoing lists and counters of
    src/enet/peer.c and src/enet/protocol.c as values, and what is true of them. */
module Outgoing {
  import opened Words
  import opened Windows

  // ---- commands ----

  datatype Kind =
    | Acknowledge | Connect | VerifyConnect | Disconnect | Ping | SendReliable | SendUnreliable
    | SendFragment | SendUnsequenced | BandwidthLimit | ThrottleConfigure | SendUnreliableFragment

  /** The sizes of the packed command records of src/enet/protocol.h. */
  function CommandSize(k: Kind): nat {
    match k
    case Acknowledge => 8
    case Connect => 48
    case VerifyConnect => 44
    case Disconnect => 8
    case Ping => 4
    case SendReliable => 6
    case SendUnreliable => 8
    case SendFragment => 24
    case SendUnsequenced => 8
    case BandwidthLimit => 12
    case ThrottleConfigure => 16
    case SendUnreliableFragment => 24
  }

  /** The bytes of the fields that follow a record's header. */
  function FieldBytes(k: Kind): nat {
    match k
    case Acknowledge => 2 + 2
    case Connect => 2 + 1 + 1 + 10 * 4
    case VerifyConnect => 2 + 1 + 1 + 9 * 4
    case Disconnect => 4
    case Ping => 0
    case SendReliable => 2
    case SendUnreliable => 2 + 2
    case SendFragment => 2 + 2 + 4 * 4
    case SendUnsequenced => 2 + 2
    case BandwidthLimit => 2 * 4
    case ThrottleConfigure => 3 * 4
    case SendUnreliableFragment => 2 + 2 + 4 * 4
  }

  /** The header has one byte for the command, one for the channel and two for the number, and the packed
      records have no room between their fields. */
  lemma RecordsArePacked(k: Kind)
    ensures CommandSize(k) == 1 + 1 + 2 + FieldBytes(k)
  {
  }

  const HEADER_SIZE := 4
  const CONTROL_CHANNEL: byte := 0xFF

  /** The part of a packet that a command carries. */
  datatype Payload =
    | NoPacket
    | Whole(data: seq<byte>)
    | Piece(start: u16, count: u32, index: u32, total: u32, offset: u32, data: seq<byte>)

  function Carried(p: Payload): seq<byte> {
    if p.NoPacket? then [] else p.data
  }

  function OffsetOf(p: Payload): u32 {
    if p.Piece? then p.offset else 0
  }

  datatype Command = Command(kind: Kind, acknowledge: bool, unsequenced: bool, channel: byte, payload: Payload)

  /** A command with the numbers it was queued under. `serial` is its reliable sequence number on
      its channel before that was cut to 16 bits: a history variable that no operation reads. */
  datatype Message = Message(command: Command, number: u16, unreliableNumber: u16, group: u16, serial: nat)

  function Length(m: Message): nat {
    |Carried(m.command.payload)|
  }

  datatype OutgoingCommand = OutgoingCommand(message: Message, attempts: nat, sentTime: u32, timeout: u32,
                                             timeoutLimit: u32)

  /** issued and launched are history variables: how many reliable commands the channel has
      numbered, and how many of them have been sent at least once. */
  datatype SendChannel = SendChannel(number: u16, unreliableNumber: u16, usedReliableWindows: bv32,
                                     reliableWindows: seq<nat>,
      issued: nat, launched: nat)

  /** One more command of a window in flight. */
  function CountedUp(ch: SendChannel, w: nat): SendChannel
    requires w < |ch.reliableWindows| == RELIABLE_WINDOWS
  {
    ch.(usedReliableWindows := Marked(ch.usedReliableWindows, w),
        reliableWindows := ch.reliableWindows[w := ch.reliableWindows[w] + 1],
        launched := ch.launched + 1)
  }

  /** One fewer, if any was counted there. */
  function CountedDown(ch: SendChannel, w: nat): SendChannel
    requires w < |ch.reliableWindows| == RELIABLE_WINDOWS
  {
    if ch.reliableWindows[w] == 0 then ch
    else ch.(usedReliableWindows := if ch.reliableWindows[w] == 1 then Unmarked(ch.usedReliableWindows, w)
                                    else ch.usedReliableWindows,
             reliableWindows := ch.reliableWindows[w := ch.reliableWindows[w] - 1])
  }

  datatype Sender = Sender(
    outgoing: seq<OutgoingCommand>,
    sent: seq<OutgoingCommand>,
    channels: seq<SendChannel>,
    mtu: nat,
    number: u16,
    group: u16,
    inTransit: u32,
    throttleCounter: nat,
    nextTimeout: u32,
    earliestTimeout: u32)

  // ---- what is in flight and what waits ----

  predicate Reliable(m: Message, c: nat) {
    m.command.acknowledge && m.command.channel == c
  }

  predicate Attempted(x: OutgoingCommand, c: nat) {
    Reliable(x.message, c) && x.attempts >= 1
  }

  predicate Unsent(x: OutgoingCommand, c: nat) {
    Reliable(x.message, c) && x.attempts == 0
  }

  /** The serials of a channel's commands that have been sent and not acknowledged. */
  function Flight(c: nat, cmds: seq<OutgoingCommand>): multiset<nat> {
    if cmds == [] then multiset{} else
      (if Attempted(cmds[0], c) then multiset{cmds[0].message.serial} else multiset{}) + Flight(c, cmds[1..])
  }

  /** The serials of a channel's commands that have never been sent, in order. */
  function Waiting(c: nat, cmds: seq<OutgoingCommand>): seq<nat> {
    if cmds == [] then [] else
      (if Unsent(cmds[0], c) then [cmds[0].message.serial] else []) + Waiting(c, cmds[1..])
  }

  /** The window a command's 16-bit number falls into. */
  function WireWindow(m: Message): (w: nat)
    ensures w < RELIABLE_WINDOWS
  {
    m.number / RELIABLE_WINDOW_SIZE
  }

  predicate AttemptedIn(x: OutgoingCommand, c: nat, w: nat) {
    Attempted(x, c) && WireWindow(x.message) == w
  }

  /** How many of a channel's commands with a number in window w have been sent and not acknowledged. */
  function Tally(c: nat, w: nat, cmds: seq<OutgoingCommand>): nat {
    if cmds == [] then 0 else (if AttemptedIn(cmds[0], c, w) then 1 else 0) + Tally(c, w, cmds[1..])
  }

  function Bytes(cmds: seq<OutgoingCommand>): nat {
    if cmds == [] then 0 else Length(cmds[0].message) + Bytes(cmds[1..])
  }

  function InFlight(s: Sender, c: nat): multiset<nat> {
    Flight(c, s.outgoing) + Flight(c, s.sent)
  }

  /** Every message a peer still holds. */
  function Held(s: Sender): set<Message> {
    set x | x in s.outgoing + s.sent :: x.message
  }

  lemma FlightUnfolds(c: nat, a: seq<OutgoingCommand>)
    ensures Flight(c, a) == if a == [] then multiset{} else
                              (if Attempted(a[0], c) then multiset{a[0].message.serial} else multiset{})
                              + Flight(c, a[1..])
  {
  }

  lemma {:induction false} FlightAdds(c: nat, a: seq<OutgoingCommand>, b: seq<OutgoingCommand>)
    ensures Flight(c, a + b) == Flight(c, a) + Flight(c, b)
  {
    hide Flight, Attempted;
    FlightUnfolds(c, a);
    if a == [] {
      assert a + b == b;
    } else {
      FlightAdds(c, a[1..], b);
      FlightUnfolds(c, a + b);
      assert (a + b)[1..] == a[1..] + b;
    }
  }

  lemma Associates<T>(a: seq<T>, b: seq<T>, c: seq<T>)
    ensures a + (b + c) == (a + b) + c
  {
  }

  lemma WaitingUnfolds(c: nat, a: seq<OutgoingCommand>)
    requires a != []
    ensures Waiting(c, a) == (if Unsent(a[0], c) then [a[0].message.serial] else []) + Waiting(c, a[1..])
  {
  }

  lemma {:induction false} WaitingAdds(c: nat, a: seq<OutgoingCommand>, b: seq<OutgoingCommand>)
    ensures Waiting(c, a + b) == Waiting(c, a) + Waiting(c, b)
  {
    if a == [] {
      assert a + b == b;
    } else {
      WaitingAdds(c, a[1..], b);
      assert (a + b)[1..] == a[1..] + b && (a + b)[0] == a[0];
      hide Unsent, Waiting;
      Associates(if Unsent(a[0], c) then [a[0].message.serial] else [], Waiting(c, a[1..]), Waiting(c, b));
      WaitingUnfolds(c, a);
      WaitingUnfolds(c, a + b);
    }
  }

  lemma {:induction false} BytesAdd(a: seq<OutgoingCommand>, b: seq<OutgoingCommand>)
    ensures Bytes(a + b) == Bytes(a) + Bytes(b)
  {
    if a == [] {
      assert a + b == b;
    } else {
      BytesAdd(a[1..], b);
      assert (a + b)[1..] == a[1..] + b;
    }
  }

  lemma {:induction false} TallyAdds(c: nat, w: nat, a: seq<OutgoingCommand>, b: seq<OutgoingCommand>)
    ensures Tally(c, w, a + b) == Tally(c, w, a) + Tally(c, w, b)
  {
    hide AttemptedIn;
    if a == [] {
      assert a + b == b;
    } else {
      TallyAdds(c, w, a[1..], b);
      assert (a + b)[1..] == a[1..] + b;
    }
  }

  function Without<T>(a: seq<T>, i: nat): seq<T>
    requires i < |a|
  {
    a[..i] + a[i + 1..]
  }

  /** What taking one command out of a list changes. */
  lemma RemovedFrom(c: nat, a: seq<OutgoingCommand>, i: nat)
    requires i < |a|
    ensures Flight(c, a) == Flight(c, [a[i]]) + Flight(c, Without(a, i))
    ensures Bytes(a) == Length(a[i].message) + Bytes(Without(a, i))
    ensures Waiting(c, a) == Waiting(c, a[..i]) + Waiting(c, [a[i]]) + Waiting(c, a[i + 1..])
    ensures Waiting(c, Without(a, i)) == Waiting(c, a[..i]) + Waiting(c, a[i + 1..])
  {
    assert a == a[..i] + [a[i]] + a[i + 1..];
    FlightAdds(c, a[..i] + [a[i]], a[i + 1..]);
    FlightAdds(c, a[..i], [a[i]]);
    FlightAdds(c, a[..i], a[i + 1..]);
    BytesAdd(a[..i] + [a[i]], a[i + 1..]);
    BytesAdd(a[..i], [a[i]]);
    BytesAdd(a[..i], a[i + 1..]);
    WaitingAdds(c, a[..i] + [a[i]], a[i + 1..]);
    WaitingAdds(c, a[..i], [a[i]]);
    WaitingAdds(c, a[..i], a[i + 1..]);
  }

  lemma TallyWithout(c: nat, w: nat, a: seq<OutgoingCommand>, i: nat)
    requires i < |a|
    ensures Tally(c, w, a) == Tally(c, w, Without(a, i)) + if AttemptedIn(a[i], c, w) then 1 else 0
  {
    hide AttemptedIn;
    assert a == a[..i] + ([a[i]] + a[i + 1..]);
    TallyAdds(c, w, a[..i], [a[i]] + a[i + 1..]);
    TallyAdds(c, w, [a[i]], a[i + 1..]);
    TallyAdds(c, w, a[..i], a[i + 1..]);
    TallyOfOne(c, w, a[i]);
  }

  lemma TallyOfOne(c: nat, w: nat, x: OutgoingCommand)
    ensures Tally(c, w, [x]) == if AttemptedIn(x, c, w) then 1 else 0
  {
    assert [x][1..] == [];
  }

  lemma {:induction false} FlightHas(c: nat, a: seq<OutgoingCommand>, n: nat)
    ensures n in Flight(c, a) <==> exists i :: 0 <= i < |a| && Attempted(a[i], c) && a[i].message.serial == n
  {
    if a != [] {
      FlightHas(c, a[1..], n);
      if n in Flight(c, a[1..]) {
        var i :| 0 <= i < |a[1..]| && Attempted(a[1..][i], c) && a[1..][i].message.serial == n;
        assert a[i + 1] == a[1..][i];
      }
      if i :| 0 < i < |a| && Attempted(a[i], c) && a[i].message.serial == n {
        assert a[1..][i - 1] == a[i];
      }
    }
  }

  // ---- what holds of a sender ----

  function InWindow(flight: multiset<nat>, w: nat): set<nat> {
    set n | n in flight && WindowOf(n) % RELIABLE_WINDOWS == w
  }

  ghost predicate WindowHasGap(flight: multiset<nat>, w: nat) {
    exists n: nat :: n !in flight && WindowOf(n) == w
  }

  /** The flight bound: what is in flight has distinct numbers in at most seven consecutive
      windows, the counters count it window by window, and every window that has been passed has
      had an acknowledgement. */
  ghost predicate FlightBound(launched: nat, windows: seq<nat>, flight: multiset<nat>) {
    && (forall n :: n in flight ==> flight[n] == 1 && 1 <= n <= launched && WindowOf(launched) <= WindowOf(n) + 6)
    && |windows| == RELIABLE_WINDOWS
    && (forall w: nat :: w < RELIABLE_WINDOWS ==> windows[w] == |InWindow(flight, w)|)
    && (forall w: nat :: 1 <= w < WindowOf(launched) ==> WindowHasGap(flight, w))
  }

  function Following(from: nat, to: nat): seq<nat>
    requires from <= to
  {
    seq(to - from, i requires 0 <= i => from + 1 + i)
  }

  ghost predicate ChannelOk(ch: SendChannel, flight: multiset<nat>, waiting: seq<nat>) {
    && ch.launched <= ch.issued
    && waiting == Following(ch.launched, ch.issued)
    && FlightBound(ch.launched, ch.reliableWindows, flight)
  }

  /** Reliable commands on a channel always carry a packet, those on no channel never do, and
      every command fits a datagram of its own. */
  predicate MessageOk(m: Message, channels: nat, mtu: nat) {
    && HEADER_SIZE + CommandSize(m.command.kind) + Length(m) <= mtu
    && (m.command.acknowledge ==> (m.command.payload.NoPacket? <==> m.command.channel >= channels))
    && (m.command.acknowledge && m.command.channel < channels ==> m.number == Wire(m.serial))
  }

  predicate MessagesOk(cmds: seq<OutgoingCommand>, channels: nat, mtu: nat) {
    forall x :: x in cmds ==> MessageOk(x.message, channels, mtu)
                              && (!x.message.command.acknowledge ==> x.attempts == 0)
  }

  /** The commands waiting to be sent again come before all others. */
  predicate AttemptedFirst(cmds: seq<OutgoingCommand>) {
    forall i, j :: 0 <= i < j < |cmds| && cmds[j].attempts >= 1 ==> cmds[i].attempts >= 1
  }

  predicate AllAttempted(cmds: seq<OutgoingCommand>) {
    forall x :: x in cmds ==> x.message.command.acknowledge && x.attempts >= 1
  }

  const MINIMUM_MTU := 576
  const MAXIMUM_MTU := 4096
  const MAXIMUM_WINDOW_SIZE := 65536

  /** A channel's counters: each counts the commands in flight by the windows of their 16-bit
      numbers, and the bit set shows which are not 0. */
  ghost predicate Counts(s: Sender, c: nat)
    requires c < |s.channels|
  {
    var ch := s.channels[c];
    && ch.number == Wire(ch.issued)
    && Marks(ch.usedReliableWindows, ch.reliableWindows)
    && forall w: nat :: w < RELIABLE_WINDOWS ==>
         ch.reliableWindows[w] == Tally(c, w, s.outgoing) + Tally(c, w, s.sent)
  }

  ghost predicate AllCount(s: Sender) {
    forall c: nat :: c < |s.channels| ==> Counts(s, c)
  }

  /** What holds of a sender whatever is queued and whatever throttling drops. */
  ghost predicate Valid(s: Sender) {
    && |s.channels| <= CONTROL_CHANNEL && MINIMUM_MTU <= s.mtu <= MAXIMUM_MTU
    && MessagesOk(s.outgoing, |s.channels|, s.mtu) && MessagesOk(s.sent, |s.channels|, s.mtu)
    && AttemptedFirst(s.outgoing) && AllAttempted(s.sent)
    && s.inTransit == Bytes(s.sent) <= MAXIMUM_WINDOW_SIZE
    && AllCount(s)
  }

  /** A channel that has lost no command: what has not been sent is queued in order, and the flight
      bound holds. */
  ghost predicate Orderly(s: Sender, c: nat) {
    c < |s.channels| && ChannelOk(s.channels[c], InFlight(s, c), Waiting(c, s.outgoing))
  }

  /** The serials that have been sent and acknowledged. */
  predicate Settled(s: Sender, c: nat, n: nat)
    requires c < |s.channels|
  {
    1 <= n <= s.channels[c].launched && n !in InFlight(s, c)
  }
}
