/** The send loop ends: each turn that asks for another has used up an acknowledgement, a timeout
    or a command, even counting the ping it may have added. */
module SendProgress {
  import opened Words
  import opened Windows
  import opened Outgoing
  import opened SendPass
  import opened PassInvariant
  import opened Resend
  import opened Timeouts
  import opened SendTurn
  import opened TurnOutcome

  /** Commands that have waited too long. */
  function Late(cmds: seq<OutgoingCommand>, now: u32): nat {
    if cmds == [] then 0 else Late(cmds[..|cmds| - 1], now) + if Expired(cmds[|cmds| - 1], now) then 1 else 0
  }

  /** Commands that want no acknowledgement. */
  function Plain(cmds: seq<OutgoingCommand>): nat {
    if cmds == [] then 0 else (if cmds[0].message.command.acknowledge then 0 else 1) + Plain(cmds[1..])
  }

  lemma {:induction false} PlainAdds(a: seq<OutgoingCommand>, b: seq<OutgoingCommand>)
    ensures Plain(a + b) == Plain(a) + Plain(b)
  {
    if a == [] {
      assert a + b == b;
    } else {
      PlainAdds(a[1..], b);
      assert (a + b)[1..] == a[1..] + b;
    }
  }

  lemma PlainFirst(a: seq<OutgoingCommand>)
    requires a != []
    ensures Plain(a) == Plain(a[1..]) + if a[0].message.command.acknowledge then 0 else 1
  {
  }

  lemma PlainWithout(a: seq<OutgoingCommand>, i: nat)
    requires i < |a|
    ensures Plain(a) == Plain(Without(a, i)) + if a[i].message.command.acknowledge then 0 else 1
  {
    hide Plain;
    assert a == a[..i] + a[i..];
    PlainAdds(a[..i], a[i..]);
    PlainFirst(a[i..]);
    assert a[i..][1..] == a[i + 1..];
    PlainAdds(a[..i], a[i + 1..]);
  }

  lemma {:induction false} DropRunPlain(cmds: seq<OutgoingCommand>, at: nat, m: Message)
    ensures Plain(DropRun(cmds, at, m)) <= Plain(cmds) && |DropRun(cmds, at, m)| <= |cmds|
    decreases |cmds|
  {
    if at < |cmds| && SameNumbers(cmds[at].message, m) {
      PlainWithout(cmds, at);
      DropRunPlain(Without(cmds, at), at, m);
    }
  }

  lemma {:induction false} SplitAppends(cmds: seq<OutgoingCommand>, x: OutgoingCommand, now: u32)
    ensures InTime(cmds + [x], now) == InTime(cmds, now) + (if Expired(x, now) then [] else [x])
    ensures Overdue(cmds + [x], now) == Overdue(cmds, now) + (if Expired(x, now) then [BackedOff(x)] else [])
  {
    hide Expired, BackedOff;
    if cmds == [] {
      assert cmds + [x] == [x];
    } else {
      assert (cmds + [x])[1..] == cmds[1..] + [x];
      SplitAppends(cmds[1..], x, now);
    }
  }

  /** How a pass goes forward: nothing becomes late, and what it sends is gone from the list. Until
      something that wants an acknowledgement is sent, all it sends is plain. */
  ghost predicate Forward(p: Pass, q: Pass, e: Settings) {
    && Late(q.s.sent, e.serviceTime) == Late(p.s.sent, e.serviceTime)
    && Overdue(q.s.sent, e.serviceTime) == Overdue(p.s.sent, e.serviceTime)
    && Plain(q.s.outgoing) <= Plain(p.s.outgoing)
    && |p.out| <= |q.out| && q.d.commandCount - p.d.commandCount == |q.out| - |p.out|
    && |q.s.outgoing| + |q.out| <= |p.s.outgoing| + |p.out|
    && (p.s.sent != [] ==> q.s.sent != []) && (q.canPing ==> p.canPing)
    && (q.canPing || q.s.sent == [] ==> Plain(q.s.outgoing) + |q.out| <= Plain(p.s.outgoing) + |p.out|)
    && (Timely(p.s, e) ==> Timely(q.s, e)) && q.s.mtu == p.s.mtu
  }

  lemma JustSentIsNotLate(x: OutgoingCommand, e: Settings)
    requires (e.roundTripTime + 4 * e.roundTripTimeVariance) % WORD > 0
    ensures Stamped(x, e).timeout > 0 && !Expired(Stamped(x, e), e.serviceTime)
  {
  }

  lemma LateAppends(cmds: seq<OutgoingCommand>, x: OutgoingCommand, now: u32)
    ensures Late(cmds + [x], now) == Late(cmds, now) + if Expired(x, now) then 1 else 0
  {
    assert (cmds + [x])[..|cmds|] == cmds;
  }

  lemma LaunchForward(p: Pass, e: Settings)
    requires PassShaped(p) && Timely(p.s, e) && p.at < |p.s.outgoing| && p.s.outgoing[p.at].message.command.acknowledge
    ensures WindowsCounted(p.s)
    ensures var q := Emit(p.(canPing := false), e); Forward(p, q, e) && q.s.sent != [] && q.more == p.more
  {
    hide Counted, DatagramOk, Expired, Stamped, Shaped, Late, Overdue, InTime, Plain;
    var s := p.s;
    ShapedCounts(s);
    var x := s.outgoing[p.at];
    JustSentIsNotLate(x, e);
    PlainWithout(s.outgoing, p.at);
    LateAppends(s.sent, Stamped(x, e), e.serviceTime);
    SplitAppends(s.sent, Stamped(x, e), e.serviceTime);
    StampedMessage(x, e);
  }

  lemma StampedMessage(x: OutgoingCommand, e: Settings)
    ensures Stamped(x, e).message == x.message
  {
  }

  lemma ShapedCounts(s: Sender)
    requires Shaped(s)
    ensures WindowsCounted(s)
  {
  }

  lemma PlainForward(p: Pass, e: Settings)
    requires PassShaped(p) && p.at < |p.s.outgoing| && !p.s.outgoing[p.at].message.command.acknowledge
    ensures WindowsCounted(p.s) && Forward(p, Emit(p, e), e) && Emit(p, e).more == p.more
  {
    hide DatagramOk, Expired, Shaped, DropRun, Late, Overdue, Plain, Throttled, Timely, Without;
    ShapedCounts(p.s);
    var m := p.s.outgoing[p.at].message;
    PlainWithout(p.s.outgoing, p.at);
    WithoutLength(p.s.outgoing, p.at);
    DropRunPlain(Without(p.s.outgoing, p.at), p.at, m);
    var q := Emit(p, e);
    SentOnly(p.s, q.s, e);
  }

  lemma WithoutLength(a: seq<OutgoingCommand>, i: nat)
    requires i < |a|
    ensures |Without(a, i)| == |a| - 1
  {
  }

  lemma SentOnly(s: Sender, s': Sender, e: Settings)
    requires s'.sent == s.sent
    ensures Timely(s, e) ==> Timely(s', e)
    ensures Late(s'.sent, e.serviceTime) == Late(s.sent, e.serviceTime)
    ensures Overdue(s'.sent, e.serviceTime) == Overdue(s.sent, e.serviceTime)
  {
  }

  lemma AdvanceForward(p: Pass, e: Settings)
    requires PassShaped(p) && Timely(p.s, e) && p.at < |p.s.outgoing| && !p.more
    ensures Forward(p, Advance(p, e), e)
    ensures Advance(p, e).more ==> p.d != Empty() && Advance(p, e).d == p.d
  {
    hide Shaped, DatagramOk, OpensBlocked, OverCommitted, Full, Emit, Late, Overdue, Plain, Timely;
    ShapedCounts(p.s);
    PassAt(p);
    var m := p.s.outgoing[p.at].message;
    var r := p.(canPing := p.canPing && !m.command.acknowledge);
    var q := Advance(p, e);
    if Full(p.d, m, p.s.mtu) {
      FitsAlone(p.s, p.at);
    } else {
      if m.command.acknowledge {
        LaunchForward(p, e);
      } else {
        assert r == p;
        PlainForward(p, e);
      }
    }
  }

  lemma FitsAlone(s: Sender, at: nat)
    requires Shaped(s) && at < |s.outgoing|
    ensures !Full(Empty(), s.outgoing[at].message, s.mtu)
  {
    hide CommandSize;
  }

  lemma ForwardTrans(p: Pass, q: Pass, r: Pass, e: Settings)
    requires Forward(p, q, e) && Forward(q, r, e)
    ensures Forward(p, r, e)
  {
    hide Late, Overdue, Plain, Timely;
  }

  /** A pass goes forward, and one that leaves commands behind has put something in the datagram. */
  lemma {:induction false} FinishForward(p: Pass, e: Settings)
    requires PassShaped(p) && Timely(p.s, e) && !p.more
    ensures var q := Finish(p, e); Forward(p, q, e) && (q.more ==> q.d != Empty()) && DatagramOk(q.d, q.s.mtu)
    decreases |p.s.outgoing| - p.at
  {
    hide Shaped, Advance, Late, Overdue, Plain, Timely, Forward, DatagramOk;
    PassAt(p);
    ForwardSelf(p, e);
    DatagramOf(p);
    if p.at < |p.s.outgoing| {
      AdvanceKeepsShape(p, e);
      AdvanceForward(p, e);
      DatagramOf(Advance(p, e));
      TimelyStays(p, Advance(p, e), e);
      if !Advance(p, e).more {
        FinishForward(Advance(p, e), e);
        ForwardTrans(p, Advance(p, e), Finish(p, e), e);
      }
    }
  }

  lemma DatagramOf(p: Pass)
    requires PassShaped(p)
    ensures DatagramOk(p.d, p.s.mtu)
  {
  }

  lemma ForwardSelf(p: Pass, e: Settings)
    ensures Forward(p, p, e)
  {
  }

  lemma TimelyStays(p: Pass, q: Pass, e: Settings)
    requires Forward(p, q, e) && Timely(p.s, e)
    ensures Timely(q.s, e) && q.s.mtu == p.s.mtu
  {
  }

  // ---- a ping is sent ----

  predicate EndsInPing(s: Sender) {
    s.outgoing != [] && s.outgoing[|s.outgoing| - 1].message.command == PING
  }

  lemma EmissionCounts(p: Pass, e: Settings)
    requires PassShaped(p) && Timely(p.s, e) && p.at < |p.s.outgoing| && !p.more && !Advance(p, e).more
    requires Advance(p, e).at == p.at
    ensures Advance(p, e).s.sent != [] || Plain(Advance(p, e).s.outgoing) < Plain(p.s.outgoing)
  {
    hide Shaped, DatagramOk, OpensBlocked, OverCommitted, Full, Emit, Late, Overdue, Plain, Timely;
    ShapedCounts(p.s);
    PassAt(p);
    if p.s.outgoing[p.at].message.command.acknowledge {
      LaunchForward(p, e);
    } else {
      PlainEmitted(p, e);
    }
  }

  lemma PlainEmitted(p: Pass, e: Settings)
    requires PassShaped(p) && p.at < |p.s.outgoing| && !p.s.outgoing[p.at].message.command.acknowledge
    ensures WindowsCounted(p.s) && Plain(Emit(p, e).s.outgoing) < Plain(p.s.outgoing)
  {
    hide DatagramOk, Shaped, DropRun, Late, Overdue, Plain, Throttled, Timely, Without;
    ShapedCounts(p.s);
    PlainWithout(p.s.outgoing, p.at);
    DropRunPlain(Without(p.s.outgoing, p.at), p.at, p.s.outgoing[p.at].message);
  }

  lemma PingIsNotHeldBack(p: Pass, e: Settings)
    requires PassShaped(p) && p.at == |p.s.outgoing| - 1 && EndsInPing(p.s)
    ensures Advance(p, e).at == p.at
  {
    hide DatagramOk, OverCommitted, Full, DropRun, Launch, OpensBlocked;
    ShapedCounts(p.s);
  }

  lemma SkippingKeepsList(p: Pass, e: Settings)
    requires PassShaped(p) && p.at < |p.s.outgoing| && Advance(p, e).at != p.at
    ensures Advance(p, e).s == p.s && Advance(p, e).at == p.at + 1
  {
    hide DatagramOk, OverCommitted, Full, DropRun, Launch, OpensBlocked, Shaped;
    ShapedCounts(p.s);
  }

  /** A pass over a list that ends in a ping and leaves nothing for another datagram has sent it, or
      something plain. */
  lemma {:induction false} PingIsSent(p: Pass, e: Settings)
    requires PassShaped(p) && Timely(p.s, e) && !p.more && p.at < |p.s.outgoing| && EndsInPing(p.s)
    ensures var q := Finish(p, e); q.more || q.s.sent != [] || Plain(q.s.outgoing) < Plain(p.s.outgoing)
    decreases |p.s.outgoing| - p.at
  {
    hide Shaped, Advance, Late, Overdue, Plain, Timely, DatagramOk;
    PassAt(p);
    AdvanceKeepsShape(p, e);
    AdvanceForward(p, e);
    TimelyStays(p, Advance(p, e), e);
    var q := Advance(p, e);
    if !q.more {
      if q.at == p.at {
        EmissionCounts(p, e);
        FinishForward(q, e);
      } else {
        SkippingKeepsList(p, e);
        if p.at == |p.s.outgoing| - 1 {
          PingIsNotHeldBack(p, e);
          assert false;
        }
        PingIsSent(q, e);
      }
    }
  }

  // ---- a turn ----

  /** What is left to do, most urgent first: late commands, then acknowledgements and plain
      commands, then whether a ping may still be added, then all that is queued. */
  datatype Gauge = Gauge(late: nat, plain: nat, idle: nat, queued: nat)

  predicate Less(a: Gauge, b: Gauge) {
    || a.late < b.late
    || (a.late == b.late && (a.plain < b.plain
         || (a.plain == b.plain && (a.idle < b.idle || (a.idle == b.idle && a.queued < b.queued)))))
  }

  function GaugeOf(s: Sender, acknowledgements: nat, now: u32): Gauge {
    Gauge(Late(s.sent, now), acknowledgements + Plain(s.outgoing), if s.sent == [] then 1 else 0,
          acknowledgements + |s.outgoing|)
  }

  function PeerGauge(p: Peer): Gauge {
    if p.live then GaugeOf(p.s, |p.acknowledgements|, p.clock.now) else Gauge(0, 0, 0, 0)
  }

  lemma FirstPass(s: Sender, d: Datagram, e: Settings)
    requires Shaped(s) && Timely(s, e) && DatagramOk(d, s.mtu)
    ensures var p := StartPass(s, d); var q := if s.outgoing == [] then p else Finish(p, e);
            && PassShaped(p) && PassShaped(q) && Forward(p, q, e) && Timely(q.s, e) && (q.more ==> q.d != Empty())
  {
    hide Shaped, Advance, Late, Overdue, Plain, Timely, DatagramOk;
    var p := StartPass(s, d);
    ForwardSelf(p, e);
    PassStaysShaped(p, e);
    FinishForward(p, e);
    TimelyStays(p, Finish(p, e), e);
  }

  lemma PingAdded(s: Sender, e: Settings)
    requires Shaped(s)
    ensures var s' := Setup(s, PING);
            && Shaped(s') && EndsInPing(s') && s'.sent == s.sent && Plain(s'.outgoing) == Plain(s.outgoing)
            && |s'.outgoing| == |s.outgoing| + 1 && s'.mtu == s.mtu && (Timely(s, e) ==> Timely(s', e))
  {
    PingFits(s);
    var s' := Setup(s, PING);
    PlainAdds(s.outgoing, [s'.outgoing[|s.outgoing|]]);
    assert Plain([s'.outgoing[|s.outgoing|]]) == 0;
  }

  /** Sending commands never makes more to do, however it goes: nothing becomes late, and nothing
      plain is added. */
  lemma CommandsForward(p: Peer, s: Sender, d: Datagram)
    requires Shaped(s) && Timely(s, p.settings) && DatagramOk(d, s.mtu)
    ensures var t := SendCommands(p, s, d); var now := p.settings.serviceTime;
            && Shaped(t.p.s) && Timely(t.p.s, p.settings) && DatagramOk(t.d, s.mtu) && t.p == p.(s := t.p.s)
            && t.p.s.mtu == s.mtu && !t.gaveUp
            && Late(t.p.s.sent, now) == Late(s.sent, now) && Overdue(t.p.s.sent, now) == Overdue(s.sent, now)
            && Plain(t.p.s.outgoing) <= Plain(s.outgoing)
            && (d == Empty() && t.more ==> Less(GaugeOf(t.p.s, 0, now), GaugeOf(s, 0, now)))
            && (d == Empty() ==> !Less(GaugeOf(s, 0, now), GaugeOf(t.p.s, 0, now)))
  {
    hide Shaped, Advance, Late, Overdue, Plain, Timely, Finish;
    var e := p.settings;
    FirstPass(s, d, e);
    var first := StartPass(s, d);
    var q := if s.outgoing == [] then first else Finish(first, e);
    if q.canPing && PingDue(p, q.s, q.d) {
      PingAdded(q.s, e);
      var again := StartPass(if Pinged(p) then Setup(q.s, PING) else q.s, q.d);
      PassStaysShaped(again, e);
      FinishForward(again, e);
      TimelyStays(again, Finish(again, e), e);
      if Pinged(p) {
        PingIsSent(again, e);
      }
    }
  }

  lemma {:induction false} SplitByTime(cmds: seq<OutgoingCommand>, now: u32)
    ensures Late(InTime(cmds, now), now) == 0
    ensures |Overdue(cmds, now)| == Late(cmds, now)
    ensures Late(cmds, now) == 0 ==> InTime(cmds, now) == cmds && Overdue(cmds, now) == []
  {
    hide Expired;
    if cmds != [] {
      var n := |cmds| - 1;
      var x := cmds[n];
      assert cmds == cmds[..n] + [x];
      SplitByTime(cmds[..n], now);
      SplitAppends(cmds[..n], x, now);
      var kept := InTime(cmds[..n], now);
      assert (kept + [x])[..|kept|] == kept;
      assert InTime(cmds, now) == if Expired(x, now) then kept else kept + [x];
    }
  }

  lemma {:induction false} InTimeIsWithin(cmds: seq<OutgoingCommand>, now: u32)
    ensures forall x :: x in InTime(cmds, now) ==> x in cmds
  {
    hide Expired;
    if cmds != [] {
      InTimeIsWithin(cmds[1..], now);
    }
  }

  lemma TimelyWithin(s: Sender, s': Sender, e: Settings)
    requires Timely(s, e) && forall x :: x in s'.sent ==> x in s.sent
    ensures Timely(s', e)
  {
    forall i | 0 <= i < |s'.sent| ensures s'.sent[i].timeout > 0 && s'.sent[i].message.command.acknowledge {
      assert s'.sent[i] in s.sent;
    }
  }

  lemma {:induction false} SweepKeepsTimely(w: Sweep, t: Clock, e: Settings)
    requires w.moved <= |w.s.outgoing| && Timely(w.s, e)
    ensures Timely(SweepOn(w, t).s, e)
    decreases |w.s.sent| - w.at
  {
    hide Timely, Expired, GivenUp;
    if w.at < |w.s.sent| {
      StepProgress(w, t);
      WithoutIsWithin(w.s.sent, w.at);
      TimelyWithin(w.s, Step(w, t).s, e);
      if !Step(w, t).gaveUp {
        SweepKeepsTimely(Step(w, t), t, e);
      }
    }
  }

  lemma {:induction false} OverdueIsNotPlain(cmds: seq<OutgoingCommand>, now: u32)
    requires forall x :: x in cmds ==> x.message.command.acknowledge
    ensures Plain(Overdue(cmds, now)) == 0
  {
    hide Expired;
    if cmds != [] {
      OverdueIsNotPlain(cmds[1..], now);
      PlainAdds(if Expired(cmds[0], now) then [BackedOff(cmds[0])] else [], Overdue(cmds[1..], now));
    }
  }

  /** The sweep for timeouts settles all that is late, or changes no list. */
  lemma TimeoutsForward(s: Sender, t: Clock, e: Settings)
    requires Shaped(s) && Timely(s, e)
    ensures var w := CheckTimeouts(s, t);
            && Shaped(w.s) && Timely(w.s, e) && w.s.mtu == s.mtu
            && (!w.gaveUp && Late(s.sent, t.now) == 0 ==> w.s.sent == s.sent && w.s.outgoing == s.outgoing)
            && (!w.gaveUp && Late(s.sent, t.now) > 0 ==> Late(w.s.sent, t.now) == 0)
  {
    hide Shaped, Expired, SweepOn;
    SweepStaysShaped(Sweep(s, 0, 0, false), t);
    SweepKeepsTimely(Sweep(s, 0, 0, false), t, e);
    SplitByTime(s.sent, t.now);
    if !CheckTimeouts(s, t).gaveUp {
      TimeoutsRequeueOverdue(s, t);
      assert [] + s.outgoing == s.outgoing;
    }
  }

  /** Every turn keeps within its datagram, leaves no more to do, and leaves less whenever it asks
      to go on. */
  lemma TurnGoesForward(p: Peer, check: bool)
    requires PeerOk(p) && p.live
    ensures var t := Turn(p, check);
            && PeerOk(t.p) && DatagramOk(t.d, p.s.mtu) && t.p.s.mtu == p.s.mtu
            && !Less(PeerGauge(p), PeerGauge(t.p))
            && (t.more ==> Less(PeerGauge(t.p), PeerGauge(p)))
  {
    hide Shaped, Late, Overdue, Plain, Timely, SendCommands, SweepOn;
    AcknowledgementsStart(p);
    var a := SendAcknowledgements(p.acknowledgements, Empty(), p.s.mtu);
    var acked := p.(acknowledgements := a.left, live := p.live && !a.zombie);
    if TimeoutsDue(p, check) {
      TimeoutsForward(p.s, p.clock, p.settings);
      var w := CheckTimeouts(p.s, p.clock);
      if !w.gaveUp {
        CommandsForward(acked, w.s, a.d);
      }
    } else {
      CommandsForward(acked, p.s, a.d);
    }
  }

  // ---- no command is put back twice ----

  /** The sweep puts back the overdue commands in order, all of them unless the connection is given up. */
  lemma {:induction false} SweepMoves(w: Sweep, t: Clock)
    requires w.moved <= |w.s.outgoing| && w.at <= |w.s.sent|
    ensures var v := SweepOn(w, t);
            && v.moved <= |v.s.outgoing|
            && v.s.outgoing[..v.moved] <= w.s.outgoing[..w.moved] + Overdue(w.s.sent[w.at..], t.now)
            && (!v.gaveUp ==> v.s.outgoing[..v.moved] == w.s.outgoing[..w.moved] + Overdue(w.s.sent[w.at..], t.now))
    decreases |w.s.sent| - w.at
  {
    hide Expired, GivenUp, Step, BackedOff;
    if w.at >= |w.s.sent| {
      assert w.s.sent[w.at..] == [];
    } else {
      StepProgress(w, t);
      assert w.s.sent[w.at..][1..] == w.s.sent[w.at + 1..] && w.s.sent[w.at..][0] == w.s.sent[w.at];
      if Step(w, t).gaveUp {
        GivingUpMovesNothing(w, t);
      } else {
        StepMeans(w, t);
        SweepMoves(Step(w, t), t);
      }
    }
  }

  lemma GivingUpMovesNothing(w: Sweep, t: Clock)
    requires w.moved <= |w.s.outgoing| && w.at < |w.s.sent| && Step(w, t).gaveUp
    ensures Step(w, t).moved == w.moved && Step(w, t).s.outgoing == w.s.outgoing
  {
    hide Expired, GivenUp;
  }

  /** What a turn puts back into the queue. */
  function Requeued(p: Peer, check: bool): seq<OutgoingCommand> {
    if TimeoutsDue(p, check) then
      var w := CheckTimeouts(p.s, p.clock);
      SweepMoves(Sweep(p.s, 0, 0, false), p.clock);
      w.s.outgoing[..w.moved]
    else []
  }

  /** What a turn puts back was overdue and no longer is; nothing else becomes overdue. */
  lemma TurnRequeues(p: Peer, check: bool)
    requires PeerOk(p) && p.live
    ensures var t := Turn(p, check); var now := p.clock.now;
            && t.p.clock == p.clock && t.p.settings == p.settings && (t.gaveUp ==> !t.p.live)
            && Requeued(p, check) <= Overdue(p.s.sent, now)
            && (!t.gaveUp ==> Requeued(p, check) + Overdue(t.p.s.sent, now) == Overdue(p.s.sent, now))
  {
    hide Shaped, Late, Overdue, Plain, Timely, SendCommands, SweepOn;
    AcknowledgementsStart(p);
    var a := SendAcknowledgements(p.acknowledgements, Empty(), p.s.mtu);
    var acked := p.(acknowledgements := a.left, live := p.live && !a.zombie);
    if TimeoutsDue(p, check) {
      TimeoutsForward(p.s, p.clock, p.settings);
      SweepMoves(Sweep(p.s, 0, 0, false), p.clock);
      assert p.s.sent[0..] == p.s.sent && p.s.outgoing[..0] == [];
      var w := CheckTimeouts(p.s, p.clock);
      if !w.gaveUp {
        NoneOverdue(p.s, p.clock);
        CommandsForward(acked, w.s, a.d);
      }
    } else {
      CommandsForward(acked, p.s, a.d);
    }
  }

  lemma NoneOverdue(s: Sender, t: Clock)
    requires !CheckTimeouts(s, t).gaveUp
    ensures Overdue(CheckTimeouts(s, t).s.sent, t.now) == []
  {
    hide SweepOn, Expired;
    TimeoutsRequeueOverdue(s, t);
    SplitByTime(s.sent, t.now);
    SplitByTime(InTime(s.sent, t.now), t.now);
  }

  /** Once a turn has swept a peer's commands, any later sweep in the same call puts nothing back,
      whatever has been sent in between. */
  lemma LaterSweepIsIdle(p: Peer, q: Peer, check: bool)
    requires PeerOk(p) && p.live && TimeoutsDue(p, check) && !Turn(p, check).gaveUp
    requires PeerOk(q) && q.clock == p.clock
    requires Overdue(q.s.sent, p.clock.now) == Overdue(Turn(p, check).p.s.sent, p.clock.now)
    ensures Requeued(q, check) == []
  {
    hide Turn, Overdue, PeerOk, TimeoutsDue, SweepOn;
    SweptIsClean(p, check);
    if TimeoutsDue(q, check) {
      SweepMoves(Sweep(q.s, 0, 0, false), q.clock);
      assert q.s.sent[0..] == q.s.sent && q.s.outgoing[..0] == [];
    }
  }

  lemma SweptIsClean(p: Peer, check: bool)
    requires PeerOk(p) && p.live && TimeoutsDue(p, check) && !Turn(p, check).gaveUp
    ensures Overdue(Turn(p, check).p.s.sent, p.clock.now) == []
  {
    hide Shaped, Late, Overdue, Plain, Timely, SendCommands, SweepOn;
    AcknowledgementsStart(p);
    var a := SendAcknowledgements(p.acknowledgements, Empty(), p.s.mtu);
    TimeoutsForward(p.s, p.clock, p.settings);
    NoneOverdue(p.s, p.clock);
    CommandsForward(p.(acknowledgements := a.left, live := p.live && !a.zombie), CheckTimeouts(p.s, p.clock).s, a.d);
  }

  /** Each overdue command has been put back at most once, in order, and what is still overdue has not
      been. */
  ghost predicate RequeuedOnce(before: seq<Peer>, now: seq<Peer>, requeued: seq<seq<OutgoingCommand>>) {
    && |now| == |before| == |requeued|
    && forall i :: 0 <= i < |before| ==> RequeuedOnceOf(before[i], now[i], requeued[i])
  }

  ghost predicate RequeuedOnceOf(p: Peer, q: Peer, requeued: seq<OutgoingCommand>) {
    var overdue := Overdue(p.s.sent, p.clock.now);
    && q.clock == p.clock && requeued <= overdue
    && (q.live ==> requeued + Overdue(q.s.sent, p.clock.now) == overdue)
  }

  lemma TurnRequeuesOnce(p: Peer, q: Peer, requeued: seq<OutgoingCommand>, check: bool)
    requires RequeuedOnceOf(p, q, requeued) && PeerOk(q) && q.live
    ensures RequeuedOnceOf(p, Turn(q, check).p, requeued + Requeued(q, check))
  {
    hide Turn, Overdue, PeerOk, Requeued;
    TurnRequeues(q, check);
    var t := Turn(q, check);
    assert (requeued + Requeued(q, check)) + Overdue(t.p.s.sent, q.clock.now)
        == requeued + (Requeued(q, check) + Overdue(t.p.s.sent, q.clock.now));
  }

  lemma AcknowledgementsStart(p: Peer)
    requires PeerOk(p)
    ensures HEADER_SIZE <= p.s.mtu
    ensures var a := SendAcknowledgements(p.acknowledgements, Empty(), p.s.mtu);
            && DatagramOk(a.d, p.s.mtu) && |a.left| <= |p.acknowledgements|
            && (if a.d == Empty() then a.left == p.acknowledgements else |a.left| < |p.acknowledgements|)
            && (a.more || a.zombie ==> |a.left| < |p.acknowledgements|)
  {
    AcknowledgementsFit(p.acknowledgements, Empty(), p.s.mtu);
    var a := SendAcknowledgements(p.acknowledgements, Empty(), p.s.mtu);
    if |a.left| == |p.acknowledgements| {
      assert a.left == p.acknowledgements;
    }
  }

  // ---- the loop over all peers ----

  function Total(peers: seq<Peer>): Gauge {
    if peers == [] then Gauge(0, 0, 0, 0)
    else
      var g := PeerGauge(peers[|peers| - 1]);
      var t := Total(peers[..|peers| - 1]);
      Gauge(t.late + g.late, t.plain + g.plain, t.idle + g.idle, t.queued + g.queued)
  }

  lemma {:induction false} TotalMoves(peers: seq<Peer>, i: nat, p: Peer)
    requires i < |peers|
    ensures var a, b := Total(peers), Total(peers[i := p]); var g, h := PeerGauge(peers[i]), PeerGauge(p);
            b.late - a.late == h.late - g.late && b.plain - a.plain == h.plain - g.plain
            && b.idle - a.idle == h.idle - g.idle && b.queued - a.queued == h.queued - g.queued
    decreases |peers|
  {
    hide PeerGauge;
    var n := |peers| - 1;
    if i < n {
      TotalMoves(peers[..n], i, p);
      assert peers[i := p][..n] == peers[..n][i := p];
    } else {
      assert peers[i := p][..n] == peers[..n];
    }
  }

  class Host {
    var peers: seq<Peer>
    var continueSending: bool

    ghost predicate Valid()
      reads this
    {
      forall i :: 0 <= i < |peers| ==> PeerOk(peers[i]) && Outgoing.Valid(peers[i].s)
    }

    /** enet_protocol_send_outgoing_commands: turns for all peers, again and again, as long as one of
        them asks for it. sent holds the datagrams, each within its peer's limit, and requeued, for
        each peer, the commands put back for being overdue: those overdue before, none twice. At the
        end no acknowledgement is left, and every command left is held back for a reason. */
    method SendOutgoingCommands(checkForTimeouts: bool)
      returns (sent: seq<(nat, Datagram)>, ghost requeued: seq<seq<OutgoingCommand>>)
      requires Valid()
      modifies this
      ensures Valid() && |peers| == |old(peers)| && !continueSending
      ensures !Less(Total(old(peers)), Total(peers))
      ensures RequeuedOnce(old(peers), peers, requeued)
      ensures forall i :: 0 <= i < |peers| ==> Done(peers[i])
      ensures forall k :: 0 <= k < |sent| ==> sent[k].0 < |old(peers)| && 0 < sent[k].1.commandCount
                                              && DatagramOk(sent[k].1, old(peers)[sent[k].0].s.mtu)
    {
      hide PeerOk, PeerGauge, Total, Turn, Overdue, Requeued, RequeuedOnceOf, Outgoing.Valid, Done;
      sent := [];
      requeued := seq(|peers|, i => []);
      NothingRequeued(peers);
      continueSending := true;
      while continueSending
        invariant Valid() && SameMtus(old(peers), peers)
        invariant !Less(Total(old(peers)), Total(peers))
        invariant RequeuedOnce(old(peers), peers, requeued)
        invariant !continueSending ==> forall i :: 0 <= i < |peers| ==> Done(peers[i])
        invariant forall k :: 0 <= k < |sent| ==> sent[k].0 < |old(peers)| && 0 < sent[k].1.commandCount
                                                  && DatagramOk(sent[k].1, old(peers)[sent[k].0].s.mtu)
        decreases Total(peers).late, Total(peers).plain, Total(peers).idle, Total(peers).queued, continueSending
      {
        ghost var before := peers;
        continueSending := false;
        for i := 0 to |peers|
          invariant Valid() && |peers| == |before| && SameMtus(old(peers), peers)
          invariant !Less(Total(before), Total(peers))
          invariant RequeuedOnce(old(peers), peers, requeued)
          invariant continueSending ==> Less(Total(peers), Total(before))
          invariant !continueSending ==> forall j :: 0 <= j < i ==> Done(peers[j])
          invariant forall k :: 0 <= k < |sent| ==> sent[k].0 < |old(peers)| && 0 < sent[k].1.commandCount
                                                    && DatagramOk(sent[k].1, old(peers)[sent[k].0].s.mtu)
        {
          if peers[i].live {
            TurnGoesForward(peers[i], checkForTimeouts);
            TurnIsDone(peers[i], checkForTimeouts);
            var t := Turn(peers[i], checkForTimeouts);
            TotalMoves(peers, i, t.p);
            TurnRequeuesOnce(old(peers)[i], peers[i], requeued[i], checkForTimeouts);
            requeued := requeued[i := requeued[i] + Requeued(peers[i], checkForTimeouts)];
            peers := peers[i := t.p];
            continueSending := continueSending || t.more;
            if !t.gaveUp && t.d.commandCount > 0 {
              sent := sent + [(i, t.d)];
            }
          } else {
            GoneIsDone(peers[i]);
          }
        }
      }
    }
  }

  /** All that may be sent to the peer has been sent. */
  ghost predicate Done(p: Peer) {
    p.live ==> p.acknowledgements == [] && AllHaveReason(p.s, p.settings)
  }

  lemma GoneIsDone(p: Peer)
    requires !p.live
    ensures Done(p)
  {
  }

  lemma TurnIsDone(p: Peer, check: bool)
    requires PeerOk(p) && Outgoing.Valid(p.s)
    ensures Outgoing.Valid(Turn(p, check).p.s) && (!Turn(p, check).more ==> Done(Turn(p, check).p))
  {
    hide Outgoing.Valid, Turn, AllHaveReason, PeerOk;
    TurnLeavesReasons(p, check);
  }

  lemma NothingRequeued(peers: seq<Peer>)
    ensures RequeuedOnce(peers, peers, seq(|peers|, i => []))
  {
    hide Overdue;
  }

  predicate SameMtus(a: seq<Peer>, b: seq<Peer>) {
    |a| == |b| && forall i :: 0 <= i < |a| ==> b[i].s.mtu == a[i].s.mtu
  }
}
