/** What a whole pass over the outgoing commands keeps, and how much it takes off the list. */
module PassInvariant {
  import opened Words
  import opened Windows
  import opened Outgoing
  import opened FlightWindow
  import opened SendPass

  lemma KeepsTrans(s: Sender, s': Sender, s'': Sender)
    requires Keeps(s, s') && Keeps(s', s'')
    ensures Keeps(s, s'')
  {
    hide Held;
  }

  lemma OutStaysOk(s: Sender, s': Sender, c: nat, out: seq<Message>)
    requires ChannelKeeps(s, s', c) && OutOk(s, c, out)
    ensures OutOk(s', c, out)
  {
    hide Settled;
  }

  lemma LaunchedSerial(s: Sender, at: nat, e: Settings, c: nat)
    requires at < |s.outgoing| && WindowsCounted(s) && s.outgoing[at].message.command.acknowledge
    requires Orderly(Launch(s, at, e), c)
    ensures OutOk(Launch(s, at, e), c, [s.outgoing[at].message])
  {
    hide Waiting, WindowHasGap;
    var x := s.outgoing[at];
    var s' := Launch(s, at, e);
    var m := x.message;
    if Reliable(m, c) {
      BoundOf(s', c);
      FlightHas(c, s'.sent, m.serial);
      assert s'.sent[|s'.sent| - 1] == Stamped(x, e);
      assert m.serial in InFlight(s', c);
    }
  }

  lemma BoundOf(s: Sender, c: nat)
    requires Orderly(s, c)
    ensures FlightBound(s.channels[c].launched, s.channels[c].reliableWindows, InFlight(s, c))
  {
    hide FlightBound, Waiting, InFlight;
  }

  lemma EmptyIsNotFull(m: Message, channels: nat, mtu: nat)
    requires MessageOk(m, channels, mtu) && mtu <= MAXIMUM_MTU
    ensures !Full(Empty(), m, mtu)
  {
  }

  /** How a step changes the list, the datagram and what was sent. */
  ghost predicate Drains(p: Pass, q: Pass) {
    && |p.out| <= |q.out| && q.out[..|p.out|] == p.out
    && q.d.commandCount - p.d.commandCount == |q.out| - |p.out|
    && |q.s.outgoing| + |q.out| <= |p.s.outgoing| + |p.out|
    && (q.d == Empty() ==> p.d == Empty())
    && (q.canPing ==> p.canPing)
    && (forall m :: m in q.out[|p.out|..] ==> m in Held(p.s))
  }

  lemma FromOutgoing(s: Sender, at: nat)
    requires Valid(s) && at < |s.outgoing|
    ensures MessageOk(s.outgoing[at].message, |s.channels|, s.mtu) && s.mtu <= MAXIMUM_MTU
    ensures s.outgoing[at].message in Held(s)
    ensures !s.outgoing[at].message.command.acknowledge ==> forall i :: at <= i < |s.outgoing| ==>
              s.outgoing[i].attempts == 0
    ensures |s.channels| <= CONTROL_CHANNEL
  {
    hide MessageOk, Bytes, AllCount;
    assert s.outgoing[at] in s.outgoing + s.sent;
    assert s.outgoing[at] in s.outgoing;
  }

  lemma ThinnedMtu(s: Sender, s': Sender)
    requires Thinned(s, s')
    ensures s'.mtu == s.mtu
  {
  }

  lemma KeepsSelf(s: Sender)
    ensures Keeps(s, s)
  {
  }

  lemma StopDrains(p: Pass, q: Pass)
    requires q == p.(more := q.more, canPing := q.canPing) && (q.canPing ==> p.canPing)
    ensures Drains(p, q)
  {
  }

  lemma DrainsTrans(p: Pass, q: Pass, r: Pass)
    requires Drains(p, q) && Drains(q, r) && Held(q.s) <= Held(p.s)
    ensures Drains(p, r)
  {
    hide Held;
    assert r.out[|p.out|..] == q.out[|p.out|..] + r.out[|q.out|..];
  }

  lemma DrainsSelf(p: Pass)
    ensures Drains(p, p)
  {
  }

  // ---- every pass ----

  lemma LaunchIsValid(p: Pass, e: Settings)
    requires PassValid(p) && p.at < |p.s.outgoing| && WindowsCounted(p.s)
    requires var m := p.s.outgoing[p.at].message;
             m.command.acknowledge && !Full(p.d, m, p.s.mtu)
             && (m.command.payload.NoPacket? || !OverCommitted(p.s, m, e))
    ensures var q := Emit(p, e);
            && PassValid(q) && Keeps(p.s, q.s) && Drains(p, q) && q.more == p.more
            && |q.s.outgoing| - q.at < |p.s.outgoing| - p.at
  {
    hide Valid, Held, OverCommitted, Full, DatagramOk;
    LaunchKeepsValid(p.s, p.at, e);
    FromOutgoing(p.s, p.at);
    PutFits(p.d, p.s.outgoing[p.at].message, p.s.mtu);
  }

  lemma ThinLists(s: Sender, at: nat, counter: nat)
    requires Valid(s) && at < |s.outgoing| && !s.outgoing[at].message.command.acknowledge
    ensures var rest := Without(s.outgoing, at);
            Thinned(s, s.(outgoing := rest, throttleCounter := counter)) && at <= |rest| < |s.outgoing|
    ensures var left := DropRun(Without(s.outgoing, at), at, s.outgoing[at].message);
            Thinned(s, s.(outgoing := left, throttleCounter := counter)) && at <= |left| < |s.outgoing|
  {
    hide Valid, AttemptedFirst, Tally, DropRun, SameNumbers;
    FromOutgoing(s, at);
    RemovalThins(s, at);
    NoneAttemptedWithout(s.outgoing, at);
    var cut := s.(outgoing := Without(s.outgoing, at));
    DropRunThins(cut, at, s.outgoing[at].message);
    ThinnedTrans(s, cut, cut.(outgoing := DropRun(cut.outgoing, at, s.outgoing[at].message)));
  }

  lemma ThinIsValid(p: Pass, e: Settings)
    requires PassValid(p) && p.at < |p.s.outgoing| && WindowsCounted(p.s)
    requires !p.s.outgoing[p.at].message.command.acknowledge && !Full(p.d, p.s.outgoing[p.at].message, p.s.mtu)
    ensures var q := Emit(p, e);
            && PassValid(q) && Keeps(p.s, q.s) && Drains(p, q) && q.more == p.more
            && |q.s.outgoing| - q.at < |p.s.outgoing| - p.at
  {
    hide Valid, Held, Keeps, Full, DatagramOk, Thinned, DropRun, Without;
    var q := Emit(p, e);
    ThinLists(p.s, p.at, q.s.throttleCounter);
    FromOutgoing(p.s, p.at);
    PutFits(p.d, p.s.outgoing[p.at].message, p.s.mtu);
    ThinnedKeepsValid(p.s, q.s);
    ThinnedMtu(p.s, q.s);
  }

  /** One turn of the loop keeps the sender valid, and takes a command off the list or steps over
      it unless the datagram is full. */
  lemma AdvanceKeepsValid(p: Pass, e: Settings)
    requires PassValid(p) && p.at < |p.s.outgoing| && !p.more
    ensures WindowsCounted(p.s) && p.d.packetSize <= p.s.mtu
    ensures var q := Advance(p, e);
            && PassValid(q) && Keeps(p.s, q.s) && Drains(p, q)
            && (if q.more then p.d != Empty() && q == p.(more := true, canPing := q.canPing)
                else |q.s.outgoing| - q.at < |p.s.outgoing| - p.at)
  {
    hide Valid, Held, OpensBlocked, OverCommitted, Full, Emit, Drains, Advance;
    ValidCounts(p.s);
    KeepsSelf(p.s);
    AdvanceCases(p, e);
    var m := p.s.outgoing[p.at].message;
    var r := p.(canPing := p.canPing && !m.command.acknowledge);
    var q := Advance(p, e);
    if Skips(p, q) {
      SkipDrains(p, q);
    } else if q == r.(more := true) && Full(p.d, m, p.s.mtu) {
      FromOutgoing(p.s, p.at);
      EmptyIsNotFull(m, |p.s.channels|, p.s.mtu);
      StopDrains(p, q);
    } else {
      StopDrains(p, r);
      if !m.command.acknowledge {
        ThinIsValid(r, e);
      } else {
        LaunchIsValid(r, e);
      }
      DrainsTrans(p, r, q);
    }
  }

  predicate Skips(p: Pass, q: Pass) {
    q == p.(at := p.at + 1, wrap := q.wrap, exceeded := q.exceeded) && (q.wrap || q.exceeded)
  }

  /** What one turn does: step over the command, stop at it, or emit it. */
  lemma AdvanceCases(p: Pass, e: Settings)
    requires p.at < |p.s.outgoing| && WindowsCounted(p.s) && p.d.packetSize <= p.s.mtu
    ensures var q := Advance(p, e); var x := p.s.outgoing[p.at]; var m := x.message;
            var r := p.(canPing := p.canPing && !m.command.acknowledge);
            || Skips(p, q)
            || (q == r.(more := true) && Full(p.d, m, p.s.mtu))
            || (&& q == Emit(r, e) && !Full(p.d, m, p.s.mtu) && !OpensBlocked(p.s, x) && !(OnChannel(p.s, m) && p.wrap)
                && (m.command.acknowledge && !m.command.payload.NoPacket? ==> !p.exceeded && !OverCommitted(p.s, m, e)))
  {
    hide OverCommitted, Full, Emit, Blocked;
  }

  lemma SkipDrains(p: Pass, q: Pass)
    requires Skips(p, q)
    ensures Drains(p, q)
  {
  }

  lemma ValidIsShaped(p: Pass)
    requires PassValid(p)
    ensures PassShaped(p)
  {
    hide AllCount, AttemptedFirst, Bytes;
    ValidCounts(p.s);
  }

  /** The datagram bound over a whole pass; and a pass that leaves commands for another datagram has
      put at least one into an empty one. */
  lemma {:induction false} PassKeepsValid(p: Pass, e: Settings)
    requires PassValid(p) && !p.more
    ensures PassShaped(p)
    ensures var q := Finish(p, e);
            && PassValid(q) && Keeps(p.s, q.s) && Drains(p, q)
            && (q.more ==> q.d != Empty()) && (!q.more ==> q.at == |q.s.outgoing|)
    decreases |p.s.outgoing| - p.at
  {
    hide Valid, Held, DatagramOk, Advance, Drains;
    ValidIsShaped(p);
    if p.at >= |p.s.outgoing| {
      DrainsSelf(p);
      KeepsSelf(p.s);
    } else {
      AdvanceKeepsValid(p, e);
      var q := Advance(p, e);
      if !q.more {
        PassKeepsValid(q, e);
        KeepsTrans(p.s, q.s, Finish(q, e).s);
        DrainsTrans(p, q, Finish(q, e));
      }
    }
  }

  // ---- passes that spare a channel ----

  lemma ChannelKeepsSelf(s: Sender, c: nat)
    requires c < |s.channels|
    ensures ChannelKeeps(s, s, c)
  {
  }

  lemma ChannelKeepsTrans(s: Sender, s': Sender, s'': Sender, c: nat)
    requires ChannelKeeps(s, s', c) && ChannelKeeps(s', s'', c)
    ensures ChannelKeeps(s, s'', c)
  {
    hide Settled;
  }

  lemma OutsJoin(s: Sender, c: nat, a: seq<Message>, b: seq<Message>)
    requires c < |s.channels| && OutOk(s, c, a) && OutOk(s, c, b)
    ensures OutOk(s, c, a + b)
  {
  }

  lemma LaunchIsOk(p: Pass, e: Settings, c: nat)
    requires PassOk(p, c) && p.at < |p.s.outgoing| && WindowsCounted(p.s)
    requires var x := p.s.outgoing[p.at];
             x.message.command.acknowledge && !OpensBlocked(p.s, x) && (p.at > 0 ==> !OnChannel(p.s, x.message))
    requires PassValid(Emit(p, e))
    ensures PassOk(Emit(p, e), c) && ChannelKeeps(p.s, Emit(p, e).s, c)
  {
    hide Valid, Orderly, OpensBlocked, DatagramOk, OutOk, Spares, ChannelKeeps;
    var x := p.s.outgoing[p.at];
    var s' := Launch(p.s, p.at, e);
    OrderlyExists(p.s, c);
    LaunchKeepsOrder(p.s, p.at, e, c);
    OrderlyExists(s', c);
    LaunchedSerial(p.s, p.at, e, c);
    OutStaysOk(p.s, s', c, p.out);
    OutsJoin(s', c, p.out, [x.message]);
    SparesTail(p.s.outgoing[p.at..], c);
    DroppedTail(p.s.outgoing, p.at);
    assert p.s.outgoing[p.at..][1..] == p.s.outgoing[p.at + 1..];
  }

  lemma OrderlyExists(s: Sender, c: nat)
    requires Orderly(s, c)
    ensures c < |s.channels|
  {
  }

  /** A plain command leaves the list, and takes no reliable one of the channel along. */
  lemma ThinBeside(s: Sender, at: nat, c: nat)
    requires Valid(s) && at < |s.outgoing| && !s.outgoing[at].message.command.acknowledge && Spares(s.outgoing[at..], c)
    ensures var s' := s.(outgoing := Without(s.outgoing, at));
            ThinnedBeside(s, s', c) && at <= |s'.outgoing| && Spares(s'.outgoing[at..], c)
    ensures Throttled(s.outgoing[at].message) ==>
              var s' := s.(outgoing := DropRun(Without(s.outgoing, at), at, s.outgoing[at].message));
              ThinnedBeside(s, s', c) && at <= |s'.outgoing| && Spares(s'.outgoing[at..], c)
  {
    hide Valid, Spares, Flight, Waiting, DropRun, SameNumbers, Throttled, Thinned;
    var x := s.outgoing[at];
    FromOutgoing(s, at);
    RemovalThins(s, at);
    NoneAttemptedWithout(s.outgoing, at);
    DroppedTail(s.outgoing, at);
    SparesTail(s.outgoing[at..], c);
    assert s.outgoing[at..][1..] == s.outgoing[at + 1..];
    assert s.outgoing[at..] == [x] + s.outgoing[at + 1..];
    var cut := s.(outgoing := Without(s.outgoing, at));
    if Throttled(x.message) {
      DropRunBeside(cut, at, x, c);
    }
  }

  lemma BesideKeepsOrder(s: Sender, s': Sender, c: nat)
    requires Orderly(s, c) && ThinnedBeside(s, s', c)
    requires s' == s.(outgoing := s'.outgoing, throttleCounter := s'.throttleCounter)
    ensures Orderly(s', c) && ChannelKeeps(s, s', c)
  {
    hide ChannelOk, Flight, Waiting, Settled;
    SameKeepsChannel(s, s', c);
  }

  lemma ThinIsOk(p: Pass, e: Settings, c: nat)
    requires PassOk(p, c) && p.at < |p.s.outgoing| && WindowsCounted(p.s)
    requires !p.s.outgoing[p.at].message.command.acknowledge && PassValid(Emit(p, e))
    ensures PassOk(Emit(p, e), c) && ChannelKeeps(p.s, Emit(p, e).s, c)
  {
    hide Valid, Orderly, DatagramOk, OutOk, Spares, ChannelKeeps, Flight, Waiting, DropRun, Without, Throttled;
    var x := p.s.outgoing[p.at];
    var s' := Emit(p, e).s;
    OrderlyExists(p.s, c);
    ThinBeside(p.s, p.at, c);
    BesideKeepsOrder(p.s, s', c);
    OrderlyExists(s', c);
    OutStaysOk(p.s, s', c, p.out);
    PlainOut(s', c, x.message);
    OutsJoin(s', c, p.out, [x.message]);
  }

  lemma PlainOut(s: Sender, c: nat, m: Message)
    requires c < |s.channels| && !m.command.acknowledge
    ensures OutOk(s, c, [m])
  {
  }

  lemma MessageTyped(s: Sender, at: nat)
    requires Valid(s) && at < |s.outgoing|
    ensures var m := s.outgoing[at].message; m.command.acknowledge ==>
              (OnChannel(s, m) <==> !m.command.payload.NoPacket?)
  {
    hide AllCount, Bytes, AttemptedFirst;
    MessageIsOk(s, s.outgoing[at]);
  }

  lemma SkipIsOk(p: Pass, q: Pass, c: nat)
    requires PassOk(p, c) && p.at < |p.s.outgoing|
    requires Skips(p, q)
    ensures PassOk(q, c) && ChannelKeeps(p.s, q.s, c)
  {
    hide Valid, DatagramOk, OutOk, Spares, ChannelKeeps, ChannelOk;
    ChannelKeepsSelf(p.s, c);
    SparesTail(p.s.outgoing[p.at..], c);
    assert p.s.outgoing[p.at..][1..] == p.s.outgoing[p.at + 1..];
  }

  /** One turn of the loop keeps the order and the flight bound of a channel that it spares. */
  lemma AdvanceKeepsOk(p: Pass, e: Settings, c: nat)
    requires PassOk(p, c) && p.at < |p.s.outgoing| && !p.more
    ensures WindowsCounted(p.s) && p.d.packetSize <= p.s.mtu
    ensures PassOk(Advance(p, e), c) && ChannelKeeps(p.s, Advance(p, e).s, c)
  {
    hide Valid, Orderly, OpensBlocked, OverCommitted, Full, OutOk, Spares, Emit, ChannelKeeps, DatagramOk, Keeps,
         Drains, Advance;
    AdvanceKeepsValid(p, e);
    OrderlyExists(p.s, c);
    ChannelKeepsSelf(p.s, c);
    AdvanceCases(p, e);
    var m := p.s.outgoing[p.at].message;
    var q := Advance(p, e);
    var r := p.(canPing := p.canPing && !m.command.acknowledge);
    if Skips(p, q) {
      SkipIsOk(p, q, c);
    } else if q != r.(more := true) {
      MessageTyped(p.s, p.at);
      if m.command.acknowledge {
        LaunchIsOk(r, e, c);
      } else {
        ThinIsOk(r, e, c);
      }
    }
  }

  /** So does a whole pass. */
  lemma {:induction false} PassKeepsOk(p: Pass, e: Settings, c: nat)
    requires PassOk(p, c) && !p.more
    ensures PassShaped(p)
    ensures PassOk(Finish(p, e), c) && ChannelKeeps(p.s, Finish(p, e).s, c)
    decreases |p.s.outgoing| - p.at
  {
    hide Valid, Orderly, DatagramOk, OutOk, Spares, Advance, ChannelKeeps, Drains, Keeps;
    OrderlyExists(p.s, c);
    ValidIsShaped(p);
    if p.at >= |p.s.outgoing| {
      ChannelKeepsSelf(p.s, c);
    } else {
      AdvanceKeepsValid(p, e);
      AdvanceKeepsOk(p, e, c);
      var q := Advance(p, e);
      OrderlyExists(q.s, c);
      if !q.more {
        PassKeepsOk(q, e, c);
        OrderlyExists(Finish(q, e).s, c);
        ChannelKeepsTrans(p.s, q.s, Finish(q, e).s, c);
      }
    }
  }
}
