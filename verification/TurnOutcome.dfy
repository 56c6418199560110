/** What a peer's turn in the send loop leaves when it does not ask for another one, and when a peer is
    pinged (src/enet/protocol.c:1594-1629). */
module TurnOutcome {
  import opened Words
  import opened Windows
  import opened Outgoing
  import opened SendPass
  import opened PassInvariant
  import opened FlowControl
  import opened Resend
  import opened Timeouts
  import opened SendTurn

  /** Every command left has a reason (see FlowControl). */
  ghost predicate AllHaveReason(s: Sender, e: Settings) {
    forall x :: x in s.outgoing ==> HasReason(s, e, x)
  }

  lemma PassLeavesReasons(s: Sender, d: Datagram, e: Settings)
    requires Valid(s) && DatagramOk(d, s.mtu)
    ensures PassShaped(StartPass(s, d))
    ensures var q := if s.outgoing == [] then StartPass(s, d) else Finish(StartPass(s, d), e);
            Valid(q.s) && q.s.mtu == s.mtu && DatagramOk(q.d, s.mtu) && (!q.more ==> AllHaveReason(q.s, e))
  {
    hide Valid, Finish, DatagramOk, HasReason, PassShaped;
    var p := StartPass(s, d);
    ValidIsShaped(p);
    PassKeepsValid(p, e);
    LeftHasReason(s, d, e);
  }

  lemma PingKeepsValid(s: Sender)
    requires Valid(s)
    ensures Valid(Setup(s, PING)) && Setup(s, PING).mtu == s.mtu && Setup(s, PING).outgoing != []
  {
    hide Valid;
    PingIsOk(s);
    SetupKeepsValid(s, PING);
  }

  lemma PingIsOk(s: Sender)
    requires Valid(s)
    ensures CommandOk(s, PING)
  {
    hide MessagesOk, AttemptedFirst, AllAttempted, Bytes, AllCount;
  }

  lemma CommandsLeaveReasons(p: Peer, s: Sender, d: Datagram)
    requires Shaped(s) && Valid(s) && DatagramOk(d, s.mtu)
    ensures var t := SendCommands(p, s, d);
            Valid(t.p.s) && t.p == p.(s := t.p.s) && !t.gaveUp && (!t.more ==> AllHaveReason(t.p.s, p.settings))
  {
    hide Valid, Finish, DatagramOk, Shaped, PingDue, AllHaveReason, Setup;
    var e := p.settings;
    var q := if s.outgoing == [] then StartPass(s, d) else Finish(StartPass(s, d), e);
    PassStaysShaped(StartPass(s, d), e);
    PassLeavesReasons(s, d, e);
    if q.canPing && PingDue(p, q.s, q.d) {
      PingKeepsValid(q.s);
      PingFits(q.s);
      var s' := if Pinged(p) then Setup(q.s, PING) else q.s;
      PassLeavesReasons(s', q.d, e);
      FinishOfNone(s', q.d, e);
    }
  }

  lemma FinishOfNone(s: Sender, d: Datagram, e: Settings)
    requires PassShaped(StartPass(s, d))
    ensures s.outgoing == [] ==> Finish(StartPass(s, d), e) == StartPass(s, d)
  {
  }

  /** A turn that does not ask for another one has sent all acknowledgements, and of the commands all
      but those that the window rule or the data in transit holds back, as the turn leaves the peer. */
  lemma TurnLeavesReasons(p: Peer, check: bool)
    requires PeerOk(p) && Valid(p.s)
    ensures var t := Turn(p, check);
            && Valid(t.p.s) && (t.gaveUp ==> !t.p.live)
            && (!t.more && !t.gaveUp ==> t.p.acknowledgements == [] && AllHaveReason(t.p.s, t.p.settings))
  {
    hide Valid, SendCommands, SweepOn, AllHaveReason, Shaped, Timely, DatagramOk;
    MtuOf(p);
    AcknowledgementsFit(p.acknowledgements, Empty(), p.s.mtu);
    LeavesNone(p.acknowledgements, Empty(), p.s.mtu);
    var a := SendAcknowledgements(p.acknowledgements, Empty(), p.s.mtu);
    var acked := p.(acknowledgements := a.left, live := p.live && !a.zombie);
    if TimeoutsDue(p, check) {
      TimeoutsKeepValid(Sweep(p.s, 0, 0, false), p.clock);
      SweepStaysShaped(Sweep(p.s, 0, 0, false), p.clock);
      var w := CheckTimeouts(p.s, p.clock);
      if !w.gaveUp {
        CommandsLeaveReasons(acked, w.s, a.d);
      }
    } else {
      CommandsLeaveReasons(acked, p.s, a.d);
    }
  }

  lemma MtuOf(p: Peer)
    requires PeerOk(p)
    ensures MINIMUM_MTU <= p.s.mtu && DatagramOk(Empty(), p.s.mtu)
  {
  }

  lemma {:induction false} LeavesNone(left: seq<bool>, d: Datagram, mtu: nat)
    requires d.packetSize <= mtu
    ensures var a := SendAcknowledgements(left, d, mtu); a.more <==> a.left != []
    decreases |left|
  {
    if left != [] && !AcksFull(d, mtu) {
      LeavesNone(left[1..], WithAcknowledgement(d), mtu);
    }
  }

  // ---- pings ----

  /** Nothing is queued, in flight or to be acknowledged. */
  predicate AtRest(p: Peer) {
    p.live && p.connected && p.s.outgoing == [] && p.s.sent == [] && p.acknowledgements == []
  }

  /** A connected peer at rest is pinged exactly if nothing has been received from it for the interval:
      one ping then goes out alone and is in flight. Otherwise nothing happens. */
  lemma RestingPeerIsPinged(p: Peer, check: bool)
    requires PeerOk(p) && AtRest(p)
    ensures var t := Turn(p, check);
            if TimeDifference(p.clock.now, p.lastReceiveTime) < p.pingInterval then
              t == Turned(p, Empty(), false, false)
            else
              && t.d == Datagram(1, 2, 8) && !t.more && !t.gaveUp
              && t.p.s.outgoing == [] && |t.p.s.sent| == 1
              && t.p.s.sent[0].message == Message(Command(Ping, true, false, 255, NoPacket),
                                                  (p.s.number + 1) % NUMBERS, 0, 0, 0)
  {
    hide DatagramOk;
    var s' := Setup(p.s, PING);
    PingFits(p.s);
    var r := StartPass(s', Empty());
    assert s'.outgoing == [s'.outgoing[0]];
    PingGoesOut(r, p.settings);
    hide Advance, OverCommitted;
  }

  lemma PingGoesOut(p: Pass, e: Settings)
    requires PassShaped(p) && p.at == 0 && |p.s.outgoing| == 1 && p.s.sent == [] && !p.more && p.d == Empty()
    requires p.s.outgoing[0].message.command == PING && p.s.outgoing[0].attempts == 0
    ensures var q := Finish(p, e);
            && q.d == Datagram(1, 2, 8) && !q.more && q.s.outgoing == []
            && |q.s.sent| == 1 && q.s.sent[0].message == p.s.outgoing[0].message
  {
    var q := Advance(p, e);
    assert !OnChannel(p.s, p.s.outgoing[0].message);
    assert q.s.outgoing == [];
  }
}
