/** When throttling can run on from a dropped command into a reliable one of a channel
    (src/enet/protocol.c:1496-1517): which queueing steps bring that about, and that nothing else
    does. */
module DropSafety {
  import opened Words
  import opened Windows
  import opened Outgoing
  import opened SendPass
  import opened Resend
  import opened Timeouts
  import opened Parcels
  import opened Sending

  /** The numbers of a command that wants no acknowledgement: unsequenced ones have 0 and 0,
      sequenced ones an unreliable number of at least 1. Control commands carry no packet. */
  predicate PlainlyNumbered(m: Message) {
    m.command.acknowledge ||
    if m.command.channel == CONTROL_CHANNEL then m.command.payload.NoPacket?
    else if m.command.unsequenced then m.number == 0 && m.unreliableNumber == 0
    else m.unreliableNumber >= 1
  }

  predicate Numbered(cmds: seq<OutgoingCommand>) {
    forall i :: 0 <= i < |cmds| ==> PlainlyNumbered(cmds[i].message)
  }

  predicate Spared(s: Sender, k: nat) {
    Spares(s.outgoing, k) && Numbered(s.outgoing)
  }

  /** The number the next acknowledged command of that channel is given. */
  function NextNumber(s: Sender, channel: byte): u16
    requires channel == CONTROL_CHANNEL || channel < |s.channels|
  {
    ((if channel == CONTROL_CHANNEL then s.number else s.channels[channel].number) + 1) % NUMBERS
  }

  /** The queue ends in commands numbered 0 and 0, the first of them one that may be dropped. */
  predicate ZeroTail(cmds: seq<OutgoingCommand>) {
    && cmds != []
    && var m := cmds[|cmds| - 1].message;
       m.number == 0 && m.unreliableNumber == 0 && (Droppable(m) || ZeroTail(cmds[..|cmds| - 1]))
  }

  /** An acknowledged command given that number now would be dropped together with one before it. */
  predicate Endangers(s: Sender, next: u16) {
    next == 0 && ZeroTail(s.outgoing)
  }

  // ---- queueing ----

  /** Some droppable command's run extends to the end. */
  predicate RunsToEnd(cmds: seq<OutgoingCommand>, number: u16) {
    exists i :: 0 <= i < |cmds| && Droppable(cmds[i].message) && RunsInto(cmds, i, |cmds| - 1)
                && cmds[i].message.number == number && cmds[i].message.unreliableNumber == 0
  }

  lemma {:induction false} ZeroTailRuns(cmds: seq<OutgoingCommand>)
    ensures ZeroTail(cmds) <==> RunsToEnd(cmds, 0)
  {
    hide Droppable;
    if cmds != [] {
      var n := |cmds| - 1;
      var front := cmds[..n];
      ZeroTailRuns(front);
      assert forall i :: 0 <= i < n ==> front[i] == cmds[i];
      if Droppable(cmds[n].message) && cmds[n].message.number == 0 && cmds[n].message.unreliableNumber == 0 {
        assert RunsInto(cmds, n, n);
      }
      if i :| 0 <= i < n && Droppable(cmds[i].message) && RunsInto(cmds, i, n)
              && cmds[i].message.number == 0 && cmds[i].message.unreliableNumber == 0 {
        assert SameNumbers(cmds[n].message, cmds[i].message);
        assert RunsInto(front, i, n - 1);
      }
      if i :| 0 <= i < n && Droppable(front[i].message) && RunsInto(front, i, n - 1)
              && front[i].message.number == 0 && front[i].message.unreliableNumber == 0
              && cmds[n].message.number == 0 && cmds[n].message.unreliableNumber == 0 {
        RunGrows(front, cmds[n], i);
        assert front + [cmds[n]] == cmds;
      }
    }
  }

  lemma RunGrows(a: seq<OutgoingCommand>, x: OutgoingCommand, i: nat)
    requires i < |a|
    ensures RunsInto(a + [x], i, |a|) <==> RunsInto(a, i, |a| - 1) && SameNumbers(x.message, a[i].message)
  {
    var b := a + [x];
    assert b[|a|] == x && forall k :: 0 <= k < |a| ==> b[k] == a[k];
  }

  lemma RunWithin(a: seq<OutgoingCommand>, x: OutgoingCommand, i: nat, j: nat)
    requires i < |a| && j < |a|
    ensures RunsInto(a + [x], i, j) <==> RunsInto(a, i, j)
  {
    assert forall k :: 0 <= k < |a| ==> (a + [x])[k] == a[k];
  }

  lemma SparesAppended(a: seq<OutgoingCommand>, x: OutgoingCommand, k: nat)
    requires Spares(a, k) && (x.message.command.acknowledge ==> x.message.unreliableNumber == 0)
    ensures Spares(a + [x], k) <==> !(Reliable(x.message, k) && RunsToEnd(a, x.message.number))
  {
    hide Droppable, RunsInto;
    var b := a + [x];
    assert b[|a|] == x && forall i :: 0 <= i < |a| ==> b[i] == a[i];
    if Reliable(x.message, k) && RunsToEnd(a, x.message.number) {
      var i :| 0 <= i < |a| && Droppable(a[i].message) && RunsInto(a, i, |a| - 1)
               && a[i].message.number == x.message.number && a[i].message.unreliableNumber == 0;
      RunGrows(a, x, i);
      assert !(RunsInto(b, i, |a|) ==> !Reliable(b[|a|].message, k));
    } else {
      forall i, j | 0 <= i < j < |b| && Droppable(b[i].message) && RunsInto(b, i, j)
        ensures !Reliable(b[j].message, k)
      {
        if j < |a| {
          RunWithin(a, x, i, j);
        } else {
          RunGrows(a, x, i);
        }
      }
    }
  }

  lemma DroppableNumbers(cmds: seq<OutgoingCommand>, number: u16)
    requires Numbered(cmds)
    ensures RunsToEnd(cmds, number) ==> number == 0
  {
    if i :| 0 <= i < |cmds| && Droppable(cmds[i].message) && RunsInto(cmds, i, |cmds| - 1)
            && cmds[i].message.number == number && cmds[i].message.unreliableNumber == 0 {
      assert PlainlyNumbered(cmds[i].message);
    }
  }

  /** Queueing any command, on any channel or none, behind any others keeps throttling off the
      reliable commands of channel k unless it is one of them and endangered. */
  lemma SetupSparesIff(s: Sender, c: Command, k: byte)
    requires ChannelExists(s, c) && Spared(s, k)
    ensures Spares(Setup(s, c).outgoing, k)
            <==> !(c.acknowledge && c.channel == k && Endangers(s, NextNumber(s, c.channel)))
  {
    hide Spares, ZeroTail, RunsToEnd, Numbered;
    var s' := Setup(s, c);
    var x := s'.outgoing[|s.outgoing|];
    assert s'.outgoing == s.outgoing + [x];
    SparesAppended(s.outgoing, x, k);
    DroppableNumbers(s.outgoing, x.message.number);
    ZeroTailRuns(s.outgoing);
  }

  /** Behind a sequenced unreliable command nothing is ever endangered. */
  lemma SequencedNeverEndangers(s: Sender, c: Command, k: byte)
    requires ChannelExists(s, c) && Spared(s, k) && s.outgoing != []
    requires var last := s.outgoing[|s.outgoing| - 1].message.command;
             !last.acknowledge && !last.unsequenced && last.channel != CONTROL_CHANNEL
    ensures Spares(Setup(s, c).outgoing, k)
  {
    hide Spares, Droppable, Setup;
    SetupSparesIff(s, c, k);
    assert PlainlyNumbered(s.outgoing[|s.outgoing| - 1].message);
  }

  /** A sequenced unreliable command is given a number above 0: its first part takes the next one,
      before they run out, and its other parts take none. */
  predicate TakesNumber(s: Sender, c: Command)
    requires ChannelExists(s, c)
  {
    || c.acknowledge
    || (c.channel == CONTROL_CHANNEL && c.payload.NoPacket?)
    || (c.channel != CONTROL_CHANNEL
        && (c.unsequenced || if OffsetOf(c.payload) == 0 then s.channels[c.channel].unreliableNumber < 0xFFFF
                             else s.channels[c.channel].unreliableNumber >= 1))
  }

  /** A command that may be queued without being dropped together with one before it. */
  predicate QueuesSafely(s: Sender, c: Command) {
    CommandOk(s, c) && TakesNumber(s, c) && !(c.acknowledge && Endangers(s, NextNumber(s, c.channel)))
  }

  lemma SetupNumberedIff(s: Sender, c: Command)
    requires ChannelExists(s, c) && Numbered(s.outgoing)
    ensures Numbered(Setup(s, c).outgoing) <==> TakesNumber(s, c)
  {
    var s' := Setup(s, c);
    var x := s'.outgoing[|s.outgoing|];
    assert s'.outgoing == s.outgoing + [x];
    assert forall i :: 0 <= i < |s.outgoing| ==> s'.outgoing[i] == s.outgoing[i];
    assert PlainlyNumbered(x.message) <==> TakesNumber(s, c);
  }

  // ---- enet_peer_send ----

  /** The last command queued has taken the channel's last number. */
  predicate LastTookNumber(s: Sender, channel: byte) {
    && channel < |s.channels| && s.outgoing != []
    && s.outgoing[|s.outgoing| - 1].message.number == s.channels[channel].number
  }

  lemma TakesNext(s: Sender, c: Command)
    requires ChannelExists(s, c) && c.acknowledge && c.channel != CONTROL_CHANNEL
    ensures LastTookNumber(Setup(s, c), c.channel)
  {
  }

  lemma NextIsSafe(s: Sender, channel: byte)
    requires LastTookNumber(s, channel) && channel != CONTROL_CHANNEL
    ensures !Endangers(s, NextNumber(s, channel))
  {
    hide Droppable;
  }

  /** The reliable commands of a packet after its first. */
  lemma {:induction false} ReliablesFollow(s: Sender, cmds: seq<Command>, channel: byte, k: byte)
    requires channel != CONTROL_CHANNEL && LastTookNumber(s, channel)
    requires forall i :: 0 <= i < |cmds| ==> cmds[i].channel == channel && cmds[i].acknowledge
    requires Numbered(s.outgoing)
    ensures Numbered(SetupAll(s, cmds).outgoing) && (Spares(s.outgoing, k) ==> Spares(SetupAll(s, cmds).outgoing, k))
    decreases |cmds|
  {
    hide Spares, Numbered, LastTookNumber, Endangers;
    if cmds != [] {
      LastExists(s, channel);
      NextIsSafe(s, channel);
      if Spares(s.outgoing, k) {
        SetupSparesIff(s, cmds[0], k);
      }
      SetupNumberedIff(s, cmds[0]);
      TakesNext(s, cmds[0]);
      LastExists(Setup(s, cmds[0]), channel);
      ReliablesFollow(Setup(s, cmds[0]), cmds[1..], channel, k);
    }
  }

  lemma LastExists(s: Sender, channel: byte)
    requires LastTookNumber(s, channel)
    ensures channel < |s.channels|
  {
  }

  lemma QueuedLast(s: Sender, c: Command)
    requires ChannelExists(s, c)
    ensures var s' := Setup(s, c);
      && |s'.outgoing| == |s.outgoing| + 1 && s'.outgoing[|s.outgoing|].message.command == c
      && s'.outgoing[..|s.outgoing|] == s.outgoing && |s'.channels| == |s.channels|
  {
  }

  /** Parts after the first of an unreliable packet. */
  lemma {:induction false} PartsFollow(s: Sender, cmds: seq<Command>, channel: byte, k: byte)
    requires channel < |s.channels| <= CONTROL_CHANNEL && s.channels[channel].unreliableNumber >= 1
    requires forall i :: 0 <= i < |cmds| ==>
               cmds[i].channel == channel && !cmds[i].acknowledge && !cmds[i].unsequenced
               && OffsetOf(cmds[i].payload) > 0
    requires Numbered(s.outgoing)
    ensures Numbered(SetupAll(s, cmds).outgoing) && (Spares(s.outgoing, k) ==> Spares(SetupAll(s, cmds).outgoing, k))
    decreases |cmds|
  {
    hide Spares, Numbered;
    if cmds != [] {
      if Spares(s.outgoing, k) {
        SetupSparesIff(s, cmds[0], k);
      }
      SetupNumberedIff(s, cmds[0]);
      PartsFollow(Setup(s, cmds[0]), cmds[1..], channel, k);
    }
  }

  predicate IsLater(c: Command, channel: byte, acknowledge: bool) {
    OffsetOf(c.payload) > 0 && !c.unsequenced && c.channel == channel && c.acknowledge == acknowledge
  }

  predicate AreLater(cmds: seq<Command>, channel: byte, acknowledge: bool) {
    forall i :: 0 <= i < |cmds| ==> IsLater(cmds[i], channel, acknowledge)
  }

  lemma LaterPrepended(c: Command, rest: seq<Command>, channel: byte, acknowledge: bool)
    requires IsLater(c, channel, acknowledge) && AreLater(rest, channel, acknowledge)
    ensures AreLater([c] + rest, channel, acknowledge)
  {
  }

  lemma {:induction false} LaterOffsets(kind: Kind, acknowledge: bool, channel: byte, start: u16, count: u32,
                                        data: seq<byte>,
                                        fragmentLength: nat, index: nat, offset: nat)
    requires 0 < fragmentLength && 0 < offset <= |data| < WORD && index <= offset
    ensures AreLater(Cut(kind, acknowledge, channel, start, count, data, fragmentLength, index, offset), channel,
                     acknowledge)
    decreases |data| - offset
  {
    hide AreLater;
    if offset < |data| {
      var n := if |data| - offset < fragmentLength then |data| - offset else fragmentLength;
      LaterOffsets(kind, acknowledge, channel, start, count, data, fragmentLength, index + 1, offset + n);
      var c := Command(kind, acknowledge, false, channel,
                       Piece(start, count, index, |data|, offset, data[offset..offset + n]));
      LaterPrepended(c, Cut(kind, acknowledge, channel, start, count, data, fragmentLength, index + 1, offset + n),
        channel, acknowledge);
    } else {
      NoneLater(channel, acknowledge);
    }
  }

  lemma NoneLater(channel: byte, acknowledge: bool)
    ensures AreLater([], channel, acknowledge)
  {
  }

  lemma {:induction false} QueueGrows(s: Sender, cmds: seq<Command>)
    requires forall i :: 0 <= i < |cmds| ==> ChannelExists(s, cmds[i])
    ensures s.outgoing <= SetupAll(s, cmds).outgoing
    decreases |cmds|
  {
    if cmds != [] {
      QueuedLast(s, cmds[0]);
      QueueGrows(Setup(s, cmds[0]), cmds[1..]);
    }
  }

  lemma SparesBefore(a: seq<OutgoingCommand>, b: seq<OutgoingCommand>, k: nat)
    requires a <= b && Spares(b, k)
    ensures Spares(a, k)
  {
    forall i, j | 0 <= i < j < |a| && Droppable(a[i].message) && RunsInto(a, i, j) ensures !Reliable(a[j].message, k) {
      assert RunsInto(b, i, j);
    }
  }

  /** The first command of a packet and the others. */
  predicate Leads(s: Sender, cmds: seq<Command>, channel: byte, reliable: bool) {
    forall i :: 0 <= i < |cmds| ==>
      && cmds[i].channel == channel && cmds[i].acknowledge == reliable
      && (!cmds[i].acknowledge && i > 0 ==> !cmds[i].unsequenced && OffsetOf(cmds[i].payload) > 0)
      && (!cmds[i].acknowledge && !cmds[i].unsequenced && i == 0 ==>
            OffsetOf(cmds[i].payload) == 0 && channel < |s.channels| && s.channels[channel].unreliableNumber < 0xFFFF)
      && (!cmds[i].acknowledge && cmds[i].unsequenced ==> |cmds| == 1)
  }

  lemma CommandsLead(s: Sender, channel: byte, data: seq<byte>, flags: Flags, h: Host)
    requires MINIMUM_MTU <= s.mtu && |s.channels| <= CONTROL_CHANNEL && FragmentLength(s, h) > 0
    ensures Leads(s, CommandsOf(s, channel, data, flags, h), channel, SentReliably(s, channel, data, flags, h))
    ensures SentReliably(s, channel, data, flags, h) ==> CommandsOf(s, channel, data, flags, h) != []
                                                         && channel < |s.channels|
  {
    hide SentReliably;
    RouteByFlags(s, channel, data, flags, h);
    var fl := FragmentLength(s, h);
    match RouteOf(s, channel, data, flags, h) {
      case Cutting(kind, acknowledge, start, count) =>
        var n := if |data| < fl then |data| else fl;
        LaterOffsets(kind, acknowledge, channel, start, count, data, fl, 1, n);
        var cmds := Cut(kind, acknowledge, channel, start, count, data, fl, 0, 0);
        assert cmds[1..] == Cut(kind, acknowledge, channel, start, count, data, fl, 1, n);
        assert forall i :: 0 < i < |cmds| ==> cmds[i] == cmds[1..][i - 1];
      case _ =>
    }
  }

  /** A packet that may be sent without being dropped together with the command before it. */
  predicate SendsSafely(s: Sender, channel: byte, data: seq<byte>, flags: Flags, h: Host)
  {
    FragmentLength(s, h) > 0 ==> !(SentReliably(s, channel, data, flags, h) && Endangers(s, NextNumber(s, channel)))
  }

  /** Sending a packet, whole or in fragments, keeps throttling off the reliable commands of channel k
      unless it is a reliable packet for k and its first command is endangered. */
  lemma SendSparesIff(s: Sender, channel: byte, data: seq<byte>, flags: Flags, h: Host, k: byte)
    requires MINIMUM_MTU <= s.mtu && |s.channels| <= CONTROL_CHANNEL && FragmentLength(s, h) > 0 && Spared(s, k)
    ensures Numbered(PeerSend(s, channel, data, flags, h).outgoing)
    ensures Spares(PeerSend(s, channel, data, flags, h).outgoing, k)
            <==> (channel == k ==> SendsSafely(s, channel, data, flags, h))
  {
    hide Spares, Numbered, RouteOf, Endangers;
    CommandsAreOk(s, channel, data, flags, h);
    CommandsLead(s, channel, data, flags, h);
    FirstAndRest(s, CommandsOf(s, channel, data, flags, h), channel, SentReliably(s, channel, data, flags, h), k);
  }

  lemma FirstAndRest(s: Sender, cmds: seq<Command>, channel: byte, reliable: bool, k: byte)
    requires Spared(s, k) && |s.channels| <= CONTROL_CHANNEL && Leads(s, cmds, channel, reliable)
    requires cmds != [] ==> channel < |s.channels|
    requires reliable ==> cmds != []
    ensures forall i :: 0 <= i < |cmds| ==> ChannelExists(s, cmds[i])
    ensures Numbered(SetupAll(s, cmds).outgoing)
    ensures Spares(SetupAll(s, cmds).outgoing, k)
            <==> (channel == k ==> !(reliable && Endangers(s, NextNumber(s, channel))))
  {
    hide Spares, Numbered, Endangers;
    if cmds != [] {
      var c := cmds[0];
      var t := Setup(s, c);
      SetupSparesIff(s, c, k);
      SetupNumberedIff(s, c);
      QueuedLast(s, c);
      if reliable {
        TakesNext(s, c);
        ReliablesFollow(t, cmds[1..], channel, k);
      } else if |cmds| > 1 {
        PartsFollow(t, cmds[1..], channel, k);
      }
      QueueGrows(t, cmds[1..]);
      if Spares(SetupAll(t, cmds[1..]).outgoing, k) {
        SparesBefore(t.outgoing, SetupAll(t, cmds[1..]).outgoing, k);
      }
    }
  }

  // ---- nothing else endangers ----

  predicate AcknowledgedUpTo(a: seq<OutgoingCommand>, i: nat)
    requires i <= |a|
  {
    forall j :: 0 <= j < i ==> a[j].message.command.acknowledge
  }

  /** Cutting what comes before a run leaves the run. */
  lemma LaterSpares(a: seq<OutgoingCommand>, b: seq<OutgoingCommand>, i: nat, shift: int, k: nat)
    requires Spares(a, k) && i <= |b| && AcknowledgedUpTo(b, i) && |b| + shift <= |a| && 0 <= i + shift
    requires forall j :: i <= j < |b| ==> b[j] == a[j + shift]
    ensures Spares(b, k)
  {
    forall p, q | 0 <= p < q < |b| && Droppable(b[p].message) && RunsInto(b, p, q) ensures !Reliable(b[q].message, k) {
      assert i <= p;
      forall j | p + shift < j <= q + shift ensures SameNumbers(a[j].message, a[p + shift].message) {
        assert b[j - shift] == a[j];
      }
      assert RunsInto(a, p + shift, q + shift);
    }
  }

  lemma WithoutSpares(a: seq<OutgoingCommand>, i: nat, k: nat)
    requires i < |a| && Spares(a, k) && Numbered(a) && AcknowledgedUpTo(a, i)
    ensures Spares(Without(a, i), k) && Numbered(Without(a, i)) && AcknowledgedUpTo(Without(a, i), i)
  {
    var b := Without(a, i);
    assert forall j :: 0 <= j < |b| ==> b[j] == a[if j < i then j else j + 1];
    LaterSpares(a, b, i, 1, k);
  }

  lemma {:induction false} DropRunSpares(a: seq<OutgoingCommand>, at: nat, m: Message, k: nat)
    requires at <= |a| && Spares(a, k) && Numbered(a) && AcknowledgedUpTo(a, at)
    ensures var b := DropRun(a, at, m);
            at <= |b| && Spares(b, k) && Numbered(b) && AcknowledgedUpTo(b, at)
    decreases |a|
  {
    hide Spares, Numbered, SameNumbers, AcknowledgedUpTo;
    if at < |a| && SameNumbers(a[at].message, m) {
      WithoutSpares(a, at, k);
      DropRunSpares(Without(a, at), at, m, k);
    }
  }

  /** The commands a pass has stepped over want an acknowledgement. */
  predicate Passing(p: Pass, k: nat) {
    p.at <= |p.s.outgoing| && Spared(p.s, k) && AcknowledgedUpTo(p.s.outgoing, p.at)
  }

  lemma EmitSpares(p: Pass, e: Settings, k: nat)
    requires Passing(p, k) && p.at < |p.s.outgoing| && WindowsCounted(p.s)
    ensures Passing(Emit(p, e), k) && Emit(p, e).at == p.at
  {
    hide Spares, Numbered, Counted, Stamped, DropRun, Put, Throttled, AcknowledgedUpTo;
    WithoutSpares(p.s.outgoing, p.at, k);
    DropRunSpares(Without(p.s.outgoing, p.at), p.at, p.s.outgoing[p.at].message, k);
  }

  lemma AdvanceSpares(p: Pass, e: Settings, k: nat)
    requires Passing(p, k) && p.at < |p.s.outgoing| && WindowsCounted(p.s) && p.d.packetSize <= p.s.mtu
    ensures Passing(Advance(p, e), k)
  {
    hide Spares, Numbered, OpensBlocked, OverCommitted, Full, Emit;
    var m := p.s.outgoing[p.at].message;
    var q := p.(canPing := p.canPing && !m.command.acknowledge);
    assert q.s == p.s && q.at == p.at;
    EmitSpares(q, e, k);
  }

  /** A pass that begins with a queue that spares them ends with one. */
  lemma {:induction false} FinishSpares(p: Pass, e: Settings, k: nat)
    requires PassShaped(p) && Passing(p, k) && !p.more
    ensures Passing(Finish(p, e), k)
    decreases |p.s.outgoing| - p.at
  {
    hide Passing, Advance, SizesOk;
    if p.at < |p.s.outgoing| {
      AdvanceSpares(p, e, k);
      AdvanceKeepsShape(p, e);
      if !Advance(p, e).more {
        FinishSpares(Advance(p, e), e, k);
      }
    }
  }

  lemma PassSpares(s: Sender, e: Settings, d: Datagram, k: nat)
    requires PassShaped(StartPass(s, d)) && Spared(s, k)
    ensures Spared(Finish(StartPass(s, d), e).s, k)
  {
    hide Spares, Numbered, Finish, PassShaped;
    FinishSpares(StartPass(s, d), e, k);
  }

  lemma InsertedSpares(a: seq<OutgoingCommand>, i: nat, x: OutgoingCommand, k: nat)
    requires i <= |a| && Spares(a, k) && Numbered(a) && x.message.command.acknowledge && AcknowledgedUpTo(a, i)
    ensures var b := a[..i] + [x] + a[i..]; Spares(b, k) && Numbered(b) && AcknowledgedUpTo(b, i + 1)
  {
    var b := a[..i] + [x] + a[i..];
    assert forall j :: 0 <= j < |b| ==> b[j] == if j < i then a[j] else if j == i then x else a[j - 1];
    LaterSpares(a, b, i + 1, -1, k);
  }

  predicate Sweeping(w: Sweep, k: nat) {
    w.moved <= |w.s.outgoing| && Spared(w.s, k) && AllAttempted(w.s.sent) && AcknowledgedUpTo(w.s.outgoing, w.moved)
  }

  lemma StepSpares(w: Sweep, t: Clock, k: nat)
    requires Sweeping(w, k) && w.at < |w.s.sent|
    ensures Sweeping(Step(w, t), k)
  {
    hide Spares, Numbered, Expired, GivenUp, Earliest, AcknowledgedUpTo;
    assert w.s.sent[w.at] in w.s.sent;
    InsertedSpares(w.s.outgoing, w.moved, BackedOff(w.s.sent[w.at]), k);
  }

  lemma {:induction false} SweepSpares(w: Sweep, t: Clock, k: nat)
    requires Sweeping(w, k)
    ensures Sweeping(SweepOn(w, t), k)
    decreases |w.s.sent| - w.at
  {
    hide Spares, Numbered, AllAttempted, Step;
    if w.at < |w.s.sent| {
      StepSpares(w, t, k);
      StepProgress(w, t);
      if !Step(w, t).gaveUp {
        SweepSpares(Step(w, t), t, k);
      }
    }
  }

  lemma TimeoutsSpare(s: Sender, t: Clock, k: nat)
    requires Valid(s) && Spared(s, k)
    ensures Spared(CheckTimeouts(s, t).s, k)
  {
    hide SweepOn, Spared, MessagesOk, AttemptedFirst, Bytes, AllCount;
    SweepSpares(Sweep(s, 0, 0, false), t, k);
  }

  lemma RemovalSpares(s: Sender, number: u16, c: byte, k: nat)
    requires Valid(s) && WindowsCounted(s) && Spared(s, k)
    ensures Spared(RemoveSent(s, number, c).s, k)
  {
    hide Spares, Numbered, Discounted, SearchSent, SearchAgain, AllCount, Bytes;
    var j := SearchAgain(s.outgoing, number, c);
    if j < |s.outgoing| {
      AttemptedAcknowledge(s);
      SearchAgainFinds(s.outgoing, number, c);
      assert s.outgoing[j].attempts >= 1;
      forall i | 0 <= i < j ensures s.outgoing[i].message.command.acknowledge {
        assert s.outgoing[i].attempts >= 1 && s.outgoing[i] in s.outgoing;
      }
      WithoutSpares(s.outgoing, j, k);
    }
  }
}
