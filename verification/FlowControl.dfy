/** What a pass sends and what it holds back: every command it leaves has a reason that can be read
    off the sender afterwards (src/enet/protocol.c:1400-1457). */
module FlowControl {
  import opened Words
  import opened Windows
  import opened Outgoing
  import opened FlightWindow
  import opened SendPass
  import opened PassInvariant

  /** A command that wants an acknowledgement and carries part of a packet. */
  predicate IsData(m: Message) {
    m.command.acknowledge && !m.command.payload.NoPacket?
  }

  /** How much reliable data may be in transit: the window of the receiver, cut by the throttle, but
      never less than a datagram. */
  function Allowed(s: Sender, e: Settings): nat {
    if e.packetThrottle * e.windowSize / 32 > s.mtu then e.packetThrottle * e.windowSize / 32 else s.mtu
  }

  /** There is a place for it in the datagram. */
  predicate Fits(d: Datagram, m: Message, mtu: nat) {
    && d.commandCount < 32 && d.bufferCount < 64
    && d.packetSize + CommandSize(m.command.kind) + Length(m) <= mtu
  }

  lemma FitsIff(d: Datagram, m: Message, mtu: nat)
    requires DatagramOk(d, mtu) && mtu <= MAXIMUM_MTU && HEADER_SIZE + CommandSize(m.command.kind) + Length(m) <= mtu
    ensures Fits(d, m, mtu) <==> !Full(d, m, mtu)
  {
    hide CommandSize;
  }

  /** How many commands of window w are in flight on the channel. */
  function Flying(s: Sender, c: nat, w: nat): nat {
    Tally(c, w, s.outgoing) + Tally(c, w, s.sent)
  }

  /** The first command of a window waits while all 4096 of the window before are in flight, or any of
      its own window and the nine that follow it around the circle of sixteen. */
  ghost predicate MustWait(s: Sender, x: OutgoingCommand) {
    var m := x.message;
    var c, w := m.command.channel, m.number / 4096;
    && m.command.acknowledge && c < |s.channels| && x.attempts == 0 && m.number % 4096 == 0
    && (Flying(s, c, (w + 15) % 16) >= 4096 || exists v: nat :: v < 16 && (v - w) % 16 <= 9 && Flying(s, c, v) > 0)
  }

  lemma MustWaitIff(s: Sender, x: OutgoingCommand)
    requires Valid(s)
    ensures WindowsCounted(s) && (OpensBlocked(s, x) <==> MustWait(s, x))
  {
    hide MessagesOk, AttemptedFirst, AllAttempted, Bytes, Tally, Marks;
    ValidCounts(s);
    var m := x.message;
    if OnChannel(s, m) {
      var c, w := m.command.channel, WireWindow(m);
      assert Counts(s, c);
      CountsFly(s, c);
      forall v: nat | v < 16 ensures Near(w, v) <==> (v - w) % 16 <= 9 {
        NearIsAround(w, v);
      }
      hide Near;
    }
  }

  lemma CountsFly(s: Sender, c: nat)
    requires c < |s.channels| && Counts(s, c)
    ensures |s.channels[c].reliableWindows| == 16
    ensures forall w: nat :: w < 16 ==> s.channels[c].reliableWindows[w] == Flying(s, c, w)
  {
    hide Tally;
  }

  lemma NearIsAround(w: nat, v: nat)
    requires w < 16 && v < 16
    ensures Near(w, v) <==> (v - w) % 16 <= 9
  {
  }

  // ---- one command ----

  /** A reliable command with data that no window rule holds back: it waits if with it more would be in
      transit than allowed, and then so does all data behind it; otherwise it is sent, if the datagram
      has a place for it. */
  lemma DataIsSentIff(p: Pass, e: Settings)
    requires PassValid(p) && p.at < |p.s.outgoing|
    requires var x := p.s.outgoing[p.at];
             IsData(x.message) && !(x.message.command.channel < |p.s.channels| && (p.wrap || MustWait(p.s, x)))
    ensures WindowsCounted(p.s) && p.d.packetSize <= p.s.mtu
    ensures var q := Advance(p, e); var m := p.s.outgoing[p.at].message;
            if p.exceeded || p.s.inTransit + Length(m) > Allowed(p.s, e) then
              q == p.(at := p.at + 1, exceeded := true)
            else if !Fits(p.d, m, p.s.mtu) then q == p.(more := true, canPing := false)
            else
              && q.out == p.out + [m] && !q.canPing && !q.exceeded
              && q.s.outgoing == Without(p.s.outgoing, p.at)
              && |q.s.sent| == |p.s.sent| + 1 && q.s.sent[..|p.s.sent|] == p.s.sent
              && q.s.sent[|p.s.sent|].message == m
              && q.s.inTransit == (p.s.inTransit + Length(m)) % WORD
  {
    hide Valid, MustWait, Full, CommandSize, OpensBlocked;
    var x := p.s.outgoing[p.at];
    MustWaitIff(p.s, x);
    FromOutgoing(p.s, p.at);
    FitsIff(p.d, x.message, p.s.mtu);
  }

  /** A command without data is never held back for what is in transit. */
  lemma OthersAreSent(p: Pass, e: Settings)
    requires PassValid(p) && p.at < |p.s.outgoing|
    requires var x := p.s.outgoing[p.at];
             !IsData(x.message) && !(OnChannel(p.s, x.message) && (p.wrap || MustWait(p.s, x)))
    ensures WindowsCounted(p.s) && p.d.packetSize <= p.s.mtu
    ensures var q := Advance(p, e); var m := p.s.outgoing[p.at].message;
            var throttled := !m.command.acknowledge && !m.command.payload.NoPacket? && OffsetOf(m.command.payload) == 0;
            var counter := (p.s.throttleCounter + 7) % 32;
            if !Fits(p.d, m, p.s.mtu) then q == p.(more := true, canPing := p.canPing && !m.command.acknowledge)
            else
              && q.s.throttleCounter == (if throttled then counter else p.s.throttleCounter)
              && q.out == (if throttled && counter > e.packetThrottle then p.out else p.out + [m])
              && (!(throttled && counter > e.packetThrottle) ==> q.s.outgoing == Without(p.s.outgoing, p.at))
  {
    hide Valid, MustWait, Full, CommandSize, OpensBlocked, OverCommitted, DropRun;
    var x := p.s.outgoing[p.at];
    MustWaitIff(p.s, x);
    FromOutgoing(p.s, p.at);
    FitsIff(p.d, x.message, p.s.mtu);
  }

  /** A command on a channel is stepped over exactly when one before it, or itself, must wait. */
  lemma WaitingHoldsBack(p: Pass, e: Settings)
    requires PassValid(p) && p.at < |p.s.outgoing|
    requires OnChannel(p.s, p.s.outgoing[p.at].message) && (p.wrap || MustWait(p.s, p.s.outgoing[p.at]))
    ensures WindowsCounted(p.s) && p.d.packetSize <= p.s.mtu
    ensures Advance(p, e) == p.(at := p.at + 1, wrap := true)
  {
    hide Valid, MustWait, Full, CommandSize, OpensBlocked, OverCommitted;
    MustWaitIff(p.s, p.s.outgoing[p.at]);
  }

  // ---- a whole pass ----

  predicate Exceeds(s: Sender, e: Settings, x: OutgoingCommand) {
    IsData(x.message) && s.inTransit + Length(x.message) > Allowed(s, e)
  }

  predicate SteppedOver(p: Pass, x: OutgoingCommand) {
    (OnChannel(p.s, x.message) && p.wrap) || (IsData(x.message) && p.exceeded)
  }

  predicate SomeBlocked(s: Sender, at: nat)
    requires WindowsCounted(s) && at <= |s.outgoing|
  {
    exists i :: 0 <= i < at && OpensBlocked(s, s.outgoing[i])
  }

  predicate SomeExceeds(s: Sender, e: Settings, at: nat)
    requires at <= |s.outgoing|
  {
    exists i :: 0 <= i < at && Exceeds(s, e, s.outgoing[i])
  }

  /** What has been stepped over so far, and why. */
  predicate Explained(p: Pass, e: Settings)
    requires WindowsCounted(p.s) && p.at <= |p.s.outgoing|
  {
    && (forall i :: 0 <= i < p.at ==> SteppedOver(p, p.s.outgoing[i]))
    && (p.wrap ==> SomeBlocked(p.s, p.at)) && (p.exceeded ==> SomeExceeds(p.s, e, p.at))
  }

  /** What sending or dropping one command leaves of the reasons. */
  ghost predicate LeavesReasons(s: Sender, s': Sender, at: nat) {
    && WindowsCounted(s) && WindowsCounted(s') && |s'.channels| == |s.channels| && s'.mtu == s.mtu
    && at <= |s.outgoing| && at <= |s'.outgoing| && s'.outgoing[..at] == s.outgoing[..at]
    && s'.inTransit >= s.inTransit
    && forall x :: OpensBlocked(s, x) ==> OpensBlocked(s', x)
  }

  lemma BlockedStays(windows: seq<nat>, v: nat, w: nat)
    requires |windows| == RELIABLE_WINDOWS && v < RELIABLE_WINDOWS && w < RELIABLE_WINDOWS
    ensures Blocked(windows, w) ==> Blocked(windows[v := windows[v] + 1], w)
  {
    hide Near;
    var more := windows[v := windows[v] + 1];
    if k: nat :| k < RELIABLE_WINDOWS && Near(w, k) && windows[k] > 0 {
      assert more[k] > 0;
    }
  }

  lemma {:induction false} DropRunFront(cmds: seq<OutgoingCommand>, at: nat, m: Message)
    requires at <= |cmds|
    ensures at <= |DropRun(cmds, at, m)| && DropRun(cmds, at, m)[..at] == cmds[..at]
    decreases |cmds|
  {
    if at < |cmds| && SameNumbers(cmds[at].message, m) {
      DropRunFront(Without(cmds, at), at, m);
      assert Without(cmds, at)[..at] == cmds[..at];
    }
  }

  lemma LaunchLeaves(s: Sender, at: nat, e: Settings)
    requires Valid(s) && WindowsCounted(s) && at < |s.outgoing|
    ensures LeavesReasons(s, Launch(s, at, e), at)
  {
    hide Marked, Blocked, MessagesOk, AttemptedFirst, AllAttempted, Bytes, AllCount, CommandSize;
    var s' := Launch(s, at, e);
    var x := s.outgoing[at];
    FromOutgoing(s, at);
    assert Length(x.message) <= MAXIMUM_MTU;
    forall y | OpensBlocked(s, y) ensures OpensBlocked(s', y) {
      var c := y.message.command.channel;
      if s'.channels[c] != s.channels[c] {
        BlockedStays(s.channels[c].reliableWindows, WireWindow(x.message), WireWindow(y.message));
      }
    }
  }

  lemma EmitLeaves(p: Pass, e: Settings)
    requires PassValid(p) && WindowsCounted(p.s) && p.at < |p.s.outgoing|
    ensures LeavesReasons(p.s, Emit(p, e).s, p.at)
  {
    hide Valid, OpensBlocked, DropRun, Launch;
    var m := p.s.outgoing[p.at].message;
    if m.command.acknowledge {
      LaunchLeaves(p.s, p.at, e);
    } else {
      var rest := Without(p.s.outgoing, p.at);
      assert rest[..p.at] == p.s.outgoing[..p.at];
      DropRunFront(rest, p.at, m);
      SameBlocked(p.s, Emit(p, e).s);
    }
  }

  lemma SameBlocked(s: Sender, s': Sender)
    requires WindowsCounted(s) && s'.channels == s.channels
    ensures WindowsCounted(s') && forall x :: OpensBlocked(s, x) <==> OpensBlocked(s', x)
  {
  }

  lemma ExplainedStays(p: Pass, q: Pass, e: Settings)
    requires WindowsCounted(p.s) && p.at <= |p.s.outgoing| && Explained(p, e) && LeavesReasons(p.s, q.s, p.at)
    requires q.at == p.at && q.wrap == p.wrap && q.exceeded == p.exceeded
    ensures Explained(q, e)
  {
    hide OpensBlocked, WindowsCounted;
    forall i | 0 <= i < p.at ensures q.s.outgoing[i] == p.s.outgoing[i] {
      assert q.s.outgoing[..p.at][i] == p.s.outgoing[..p.at][i];
    }
    forall i | 0 <= i < q.at ensures SteppedOver(q, q.s.outgoing[i]) {
      assert SteppedOver(p, p.s.outgoing[i]);
    }
    if p.wrap {
      var i :| 0 <= i < p.at && OpensBlocked(p.s, p.s.outgoing[i]);
      assert OpensBlocked(q.s, q.s.outgoing[i]);
    }
    if p.exceeded {
      var i :| 0 <= i < p.at && Exceeds(p.s, e, p.s.outgoing[i]);
      assert Exceeds(q.s, e, q.s.outgoing[i]);
    }
  }

  lemma StepExplains(p: Pass, q: Pass, e: Settings)
    requires WindowsCounted(p.s) && p.at < |p.s.outgoing| && Explained(p, e)
    requires q == p.(at := p.at + 1, wrap := q.wrap, exceeded := q.exceeded)
    requires (p.wrap ==> q.wrap) && (p.exceeded ==> q.exceeded)
    requires var x := p.s.outgoing[p.at];
             && (q.wrap ==> p.wrap || OpensBlocked(p.s, x)) && (q.exceeded ==> p.exceeded || Exceeds(p.s, e, x))
             && SteppedOver(q, x)
    ensures Explained(q, e)
  {
    hide OpensBlocked, WindowsCounted, Exceeds;
    forall i | 0 <= i < q.at ensures SteppedOver(q, q.s.outgoing[i]) {
      assert i < p.at ==> SteppedOver(p, p.s.outgoing[i]);
    }
    if q.wrap && !OpensBlocked(p.s, p.s.outgoing[p.at]) {
      var i :| 0 <= i < p.at && OpensBlocked(p.s, p.s.outgoing[i]);
      assert OpensBlocked(q.s, q.s.outgoing[i]);
    }
    if q.exceeded && !Exceeds(p.s, e, p.s.outgoing[p.at]) {
      var i :| 0 <= i < p.at && Exceeds(p.s, e, p.s.outgoing[i]);
      assert Exceeds(q.s, e, q.s.outgoing[i]);
    }
  }

  lemma EmitPlace(p: Pass, e: Settings)
    requires p.at < |p.s.outgoing| && WindowsCounted(p.s)
    ensures var q := Emit(p, e); q.at == p.at && q.wrap == p.wrap && q.exceeded == p.exceeded && q.more == p.more
  {
    hide Launch, DropRun;
  }

  lemma AdvanceExplains(p: Pass, e: Settings)
    requires PassValid(p) && WindowsCounted(p.s) && p.at < |p.s.outgoing| && !p.more && Explained(p, e)
    ensures p.d.packetSize <= p.s.mtu
    ensures var q := Advance(p, e); PassValid(q) && WindowsCounted(q.s) && (!q.more ==> Explained(q, e))
  {
    hide Valid, OpensBlocked, DropRun, Launch, Full, Emit, DatagramOk, Explained;
    AdvanceKeepsValid(p, e);
    var m := p.s.outgoing[p.at].message;
    var r := p.(canPing := p.canPing && !m.command.acknowledge);
    var q := Advance(p, e);
    ValidCounts(q.s);
    EmitPlace(r, e);
    if q == Emit(r, e) {
      EmitLeaves(r, e);
      ExplainedStays(p, q, e);
    } else if !q.more {
      StepExplains(p, q, e);
    }
  }

  lemma {:induction false} PassExplains(p: Pass, e: Settings)
    requires PassValid(p) && WindowsCounted(p.s) && !p.more && Explained(p, e)
    ensures PassShaped(p)
    ensures var q := Finish(p, e);
            && PassValid(q) && WindowsCounted(q.s)
            && if q.more then q.at < |q.s.outgoing| && !Fits(q.d, q.s.outgoing[q.at].message, q.s.mtu)
               else q.at == |q.s.outgoing| && Explained(q, e)
    decreases |p.s.outgoing| - p.at
  {
    hide Valid, Explained, Advance, DatagramOk, Fits, WindowsCounted;
    ValidIsShaped(p);
    if p.at < |p.s.outgoing| {
      AdvanceKeepsShape(p, e);
      AdvanceKeepsValid(p, e);
      AdvanceExplains(p, e);
      if Advance(p, e).more {
        StopsWhenFull(p, e);
      } else {
        PassExplains(Advance(p, e), e);
      }
    }
  }

  lemma StopsWhenFull(p: Pass, e: Settings)
    requires PassValid(p) && WindowsCounted(p.s) && p.at < |p.s.outgoing| && !p.more && p.d.packetSize <= p.s.mtu
    requires Advance(p, e).more
    ensures var q := Advance(p, e);
            q.s == p.s && q.at == p.at && q.d == p.d && !Fits(q.d, q.s.outgoing[q.at].message, q.s.mtu)
  {
    hide Valid, OpensBlocked, OverCommitted, Launch, DropRun, CommandSize;
    var m := p.s.outgoing[p.at].message;
    FromOutgoing(p.s, p.at);
    FitsIff(p.d, m, p.s.mtu);
  }

  /** Why a command may be left: it is on a channel and one in the queue has to wait for a window, or
      it carries reliable data and one in the queue would put more in transit than allowed. */
  ghost predicate HasReason(s: Sender, e: Settings, x: OutgoingCommand) {
    || (OnChannel(s, x.message) && exists y :: y in s.outgoing && MustWait(s, y))
    || (IsData(x.message) && exists y :: y in s.outgoing && Exceeds(s, e, y))
  }

  /** A pass goes on until the datagram has no place for a command, or until every command left has a
      reason that holds of the sender as the pass leaves it. */
  lemma LeftHasReason(s: Sender, d: Datagram, e: Settings)
    requires Valid(s) && DatagramOk(d, s.mtu)
    ensures PassShaped(StartPass(s, d))
    ensures var q := Finish(StartPass(s, d), e);
            if q.more then exists x :: x in q.s.outgoing && !Fits(q.d, x.message, q.s.mtu)
            else forall x :: x in q.s.outgoing ==> HasReason(q.s, e, x)
  {
    hide Valid, Finish, MustWait, OpensBlocked, DatagramOk, Fits, WindowsCounted, Exceeds, OnChannel, IsData;
    var p := StartPass(s, d);
    ValidIsShaped(p);
    ValidCounts(s);
    PassExplains(p, e);
    var q := Finish(p, e);
    if q.more {
      assert q.s.outgoing[q.at] in q.s.outgoing;
    } else {
      forall x | x in q.s.outgoing ensures HasReason(q.s, e, x) {
        var i :| 0 <= i < |q.s.outgoing| && q.s.outgoing[i] == x;
        if q.wrap {
          assert SomeBlocked(q.s, q.at);
          var j :| 0 <= j < q.at && OpensBlocked(q.s, q.s.outgoing[j]);
          MustWaitIff(q.s, q.s.outgoing[j]);
          assert q.s.outgoing[j] in q.s.outgoing;
        }
        if q.exceeded {
          var j :| 0 <= j < q.at && Exceeds(q.s, e, q.s.outgoing[j]);
          assert q.s.outgoing[j] in q.s.outgoing;
        }
      }
    }
  }
}
