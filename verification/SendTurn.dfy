/** One peer's turn in the send loop (src/enet/protocol.c:1280-1331 and 1584-1615): its
    acknowledgements, its timeouts, its commands, and a ping when nothing else is under way. */
module SendTurn {
  import opened Words
  import opened Windows
  import opened Outgoing
  import opened SendPass
  import opened Resend
  import opened Timeouts

  /** live: in the loop, in whatever state; connected: in the state CONNECTED. acknowledgements says of
      each acknowledgement that is due whether it is that of a disconnection. */
  datatype Peer = Peer(live: bool, connected: bool, s: Sender, acknowledgements: seq<bool>, settings: Settings,
                       clock: Clock,
                       lastReceiveTime: u32, pingInterval: u32)

  const PING := Command(Ping, true, false, CONTROL_CHANNEL, NoPacket)

  // ---- acknowledgements ----

  predicate AcksFull(d: Datagram, mtu: nat)
    requires d.packetSize <= mtu
  {
    d.commandCount >= MAXIMUM_PACKET_COMMANDS || d.bufferCount >= BUFFER_MAXIMUM
    || mtu - d.packetSize < CommandSize(Acknowledge)
  }

  /** zombie: the acknowledgement of a disconnection is among those that went out. */
  datatype Acked = Acked(left: seq<bool>, d: Datagram, more: bool, zombie: bool)

  function WithAcknowledgement(d: Datagram): Datagram {
    Datagram(d.commandCount + 1, d.bufferCount + 1, d.packetSize + CommandSize(Acknowledge))
  }

  /** As many acknowledgements as fit. */
  function SendAcknowledgements(left: seq<bool>, d: Datagram, mtu: nat): (a: Acked)
    requires d.packetSize <= mtu
    ensures a.d.packetSize <= mtu
    decreases |left|
  {
    if left == [] then Acked(left, d, false, false)
    else if AcksFull(d, mtu) then Acked(left, d, true, false)
    else
      var a := SendAcknowledgements(left[1..], WithAcknowledgement(d), mtu);
      a.(zombie := left[0] || a.zombie)
  }

  lemma {:induction false} AcknowledgementsFit(left: seq<bool>, d: Datagram, mtu: nat)
    requires DatagramOk(d, mtu) && MINIMUM_MTU <= mtu
    ensures var a := SendAcknowledgements(left, d, mtu);
            && DatagramOk(a.d, mtu) && |a.left| <= |left| && a.left == left[|left| - |a.left|..]
            && a.d.commandCount - d.commandCount == |left| - |a.left|
            && (a.d == Empty() <==> d == Empty() && a.left == left)
            && (a.more && d == Empty() ==> |a.left| < |left|)
            && (a.zombie <==> true in left[..|left| - |a.left|])
    decreases |left|
  {
    if left != [] && !AcksFull(d, mtu) {
      AcknowledgementsFit(left[1..], WithAcknowledgement(d), mtu);
      var a := SendAcknowledgements(left, d, mtu);
      assert left[..|left| - |a.left|] == [left[0]] + left[1..][..|left| - 1 - |a.left|];
    }
  }

  // ---- the turn ----

  /** What the turn leaves: the peer, the datagram it built, whether to go on sending, and whether the
      connection was given up, in which case the datagram is not sent. */
  datatype Turned = Turned(p: Peer, d: Datagram, more: bool, gaveUp: bool)

  predicate PeerOk(p: Peer) {
    Shaped(p.s) && Timely(p.s, p.settings) && p.settings.serviceTime == p.clock.now
  }

  /** Timeouts are positive: the round trip time is. */
  predicate Timely(s: Sender, e: Settings) {
    && (e.roundTripTime + 4 * e.roundTripTimeVariance) % WORD > 0
    && forall i :: 0 <= i < |s.sent| ==> s.sent[i].timeout > 0 && s.sent[i].message.command.acknowledge
  }

  predicate TimeoutsDue(p: Peer, check: bool) {
    check && p.s.sent != [] && !TimeLess(p.clock.now, p.s.nextTimeout)
  }

  predicate PingDue(p: Peer, s: Sender, d: Datagram) {
    && s.sent == [] && TimeDifference(p.clock.now, p.lastReceiveTime) >= p.pingInterval
    && s.mtu - d.packetSize >= CommandSize(Ping)
  }

  /** A peer being connected or disconnected is not pinged, nor one that has just become a zombie. */
  predicate Pinged(p: Peer) {
    p.live && p.connected
  }

  /** The commands, once acknowledgements and timeouts have been seen to. */
  function SendCommands(p: Peer, s: Sender, d: Datagram): (t: Turned)
    requires Shaped(s) && DatagramOk(d, s.mtu)
  {
    var q := if s.outgoing == [] then StartPass(s, d) else Finish(StartPass(s, d), p.settings);
    PassStaysShaped(StartPass(s, d), p.settings);
    if q.canPing && PingDue(p, q.s, q.d) then
      PingFits(q.s);
      var r := Finish(StartPass(if Pinged(p) then Setup(q.s, PING) else q.s, q.d), p.settings);
      Turned(p.(s := r.s), r.d, q.more || r.more, false)
    else Turned(p.(s := q.s), q.d, q.more, false)
  }

  lemma {:induction false} PassStaysShaped(p: Pass, e: Settings)
    requires PassShaped(p) && !p.more
    ensures PassShaped(Finish(p, e)) && Finish(p, e).s.mtu == p.s.mtu
    decreases |p.s.outgoing| - p.at
  {
    hide Advance, PassShaped;
    PassAt(p);
    if p.at < |p.s.outgoing| {
      AdvanceKeepsShape(p, e);
      AdvanceKeepsMtu(p, e);
      if !Advance(p, e).more {
        PassStaysShaped(Advance(p, e), e);
      }
    }
  }

  lemma PassAt(p: Pass)
    requires PassShaped(p)
    ensures p.at <= |p.s.outgoing| && WindowsCounted(p.s) && p.d.packetSize <= p.s.mtu
  {
  }

  lemma AdvanceKeepsMtu(p: Pass, e: Settings)
    requires PassShaped(p) && p.at < |p.s.outgoing|
    ensures Advance(p, e).s.mtu == p.s.mtu
  {
    hide Full, OpensBlocked, OverCommitted, DropRun, Counted;
  }

  lemma PingFits(s: Sender)
    requires Shaped(s)
    ensures Shaped(Setup(s, PING)) && Setup(s, PING).mtu == s.mtu
    ensures Setup(s, PING).outgoing == s.outgoing + [Setup(s, PING).outgoing[|s.outgoing|]]
  {
  }

  function Turn(p: Peer, check: bool): Turned
    requires PeerOk(p)
  {
    var a := SendAcknowledgements(p.acknowledgements, Empty(), p.s.mtu);
    AcknowledgementsFit(p.acknowledgements, Empty(), p.s.mtu);
    var acked := p.(acknowledgements := a.left, live := p.live && !a.zombie);
    if TimeoutsDue(p, check) then
      var w := CheckTimeouts(p.s, p.clock);
      SweepStaysShaped(Sweep(p.s, 0, 0, false), p.clock);
      if w.gaveUp then Turned(acked.(live := false, s := w.s), a.d, a.more, true)
      else
        var t := SendCommands(acked, w.s, a.d);
        t.(more := t.more || a.more)
    else
      var t := SendCommands(acked, p.s, a.d);
      t.(more := t.more || a.more)
  }

  lemma {:induction false} SweepStaysShaped(w: Sweep, t: Clock)
    requires Shaped(w.s) && w.moved <= |w.s.outgoing|
    ensures Shaped(SweepOn(w, t).s) && SweepOn(w, t).s.mtu == w.s.mtu
    decreases |w.s.sent| - w.at
  {
    hide Shaped, Step;
    if w.at < |w.s.sent| {
      StepProgress(w, t);
      StepStaysShaped(w, t);
      if !Step(w, t).gaveUp {
        SweepStaysShaped(Step(w, t), t);
      }
    }
  }

  lemma StepStaysShaped(w: Sweep, t: Clock)
    requires Shaped(w.s) && w.moved <= |w.s.outgoing| && w.at < |w.s.sent|
    ensures Shaped(Step(w, t).s) && Step(w, t).s.mtu == w.s.mtu
  {
    hide CommandSize, Expired, GivenUp;
  }
}
