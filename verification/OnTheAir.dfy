/** What counts as sent has been in a datagram: in every state of every run of a channel, each number the
    sender has passed is on the air. */
module OnTheAir {
  import opened Words
  import opened Windows
  import opened Outgoing
  import opened FlightWindow
  import opened SendPass
  import opened PassInvariant
  import opened Resend
  import opened Timeouts
  import opened Parcels
  import opened Layout
  import opened Receiving
  import opened Sending
  import opened DropSafety
  import opened Delivery
  import opened ReliableChannel

  ghost predicate Aired(out: set<Message>, c: nat, n: nat) {
    exists m :: m in out && Reliable(m, c) && m.serial == n
  }

  /** Every number sent so far is among these commands. */
  ghost predicate AllAired(out: set<Message>, c: nat, launched: nat) {
    forall n: nat :: 1 <= n <= launched ==> Aired(out, c, n)
  }

  // ---- a pass ----

  function OutOf(p: Pass): set<Message> {
    set m | m in p.out
  }

  /** A pass sends a number for the first time only by putting its command into the datagram. */
  ghost predicate PutsOut(p: Pass, q: Pass, c: nat) {
    && c < |p.s.channels| && c < |q.s.channels| && OutOf(p) <= OutOf(q)
    && forall n: nat :: p.s.channels[c].launched < n <= q.s.channels[c].launched ==> Aired(OutOf(q), c, n)
  }

  lemma LaunchPutsOut(p: Pass, e: Settings, c: nat)
    requires PassOk(p, c) && p.at < |p.s.outgoing| && WindowsCounted(p.s)
    requires var x := p.s.outgoing[p.at]; x.message.command.acknowledge && (Unsent(x, c) ==> p.at == 0)
    ensures PutsOut(p, Emit(p, e), c)
  {
    hide Valid, DatagramOk, Spares, FlightBound, Marked, Flight, Waiting;
    var x := p.s.outgoing[p.at];
    var q := Emit(p, e);
    assert q.out == p.out + [x.message];
    if Unsent(x, c) {
      FirstWaiting(p.s, c);
      assert x.message in OutOf(q);
    }
  }

  lemma AdvancePutsOut(p: Pass, e: Settings, c: nat)
    requires PassOk(p, c) && p.at < |p.s.outgoing| && !p.more
    ensures WindowsCounted(p.s) && p.d.packetSize <= p.s.mtu
    ensures PutsOut(p, Advance(p, e), c)
  {
    hide Valid, Orderly, OpensBlocked, OverCommitted, Full, OutOk, Spares, Emit, DatagramOk, Keeps, Drains, Advance,
         PutsOut;
    AdvanceKeepsValid(p, e);
    OrderlyExists(p.s, c);
    AdvanceCases(p, e);
    MessageTyped(p.s, p.at);
    var m := p.s.outgoing[p.at].message;
    var q := Advance(p, e);
    var r := p.(canPing := p.canPing && !m.command.acknowledge);
    PutsNothing(p, q, c);
    if !Skips(p, q) && q != r.(more := true) {
      if m.command.acknowledge {
        LaunchPutsOut(r, e, c);
        SamePuts(p, r, q, c);
      } else {
        PlainPutsOut(r, e, c);
        SamePuts(p, r, q, c);
      }
    }
  }

  lemma PutsNothing(p: Pass, q: Pass, c: nat)
    requires c < |p.s.channels|
    ensures q.s == p.s && q.out == p.out ==> PutsOut(p, q, c)
  {
  }

  lemma SamePuts(p: Pass, r: Pass, q: Pass, c: nat)
    requires r.s == p.s && r.out == p.out && PutsOut(r, q, c)
    ensures PutsOut(p, q, c)
  {
  }

  lemma PlainPutsOut(p: Pass, e: Settings, c: nat)
    requires p.at < |p.s.outgoing| && WindowsCounted(p.s) && c < |p.s.channels|
    requires !p.s.outgoing[p.at].message.command.acknowledge
    ensures PutsOut(p, Emit(p, e), c)
  {
    hide DropRun;
  }

  lemma PutsJoin(p: Pass, q: Pass, r: Pass, c: nat)
    requires PutsOut(p, q, c) && PutsOut(q, r, c)
    ensures PutsOut(p, r, c)
  {
    forall n: nat | p.s.channels[c].launched < n <= r.s.channels[c].launched ensures Aired(OutOf(r), c, n) {
      if n <= q.s.channels[c].launched {
        assert Aired(OutOf(q), c, n);
      }
    }
  }

  lemma {:induction false} PassPutsOut(p: Pass, e: Settings, c: nat)
    requires PassOk(p, c) && !p.more
    ensures PassShaped(p)
    ensures PutsOut(p, Finish(p, e), c)
    decreases |p.s.outgoing| - p.at
  {
    hide Valid, Orderly, DatagramOk, OutOk, Spares, Advance, Drains, Keeps, PutsOut, ChannelKeeps;
    OrderlyExists(p.s, c);
    ValidIsShaped(p);
    PutsNothing(p, p, c);
    if p.at < |p.s.outgoing| {
      AdvanceKeepsValid(p, e);
      AdvanceKeepsOk(p, e, c);
      AdvancePutsOut(p, e, c);
      if !Advance(p, e).more {
        PassPutsOut(Advance(p, e), e, c);
        PutsJoin(p, Advance(p, e), Finish(p, e), c);
      }
    }
  }

  // ---- the other steps send nothing ----

  lemma StepKeepsChannels(w: Sweep, t: Clock)
    requires w.at < |w.s.sent| && w.moved <= |w.s.outgoing|
    ensures Timeouts.Step(w, t).s.channels == w.s.channels
  {
    hide Expired, GivenUp;
  }

  lemma {:induction false} SweepKeepsChannels(w: Sweep, t: Clock)
    requires w.moved <= |w.s.outgoing|
    ensures SweepOn(w, t).s.channels == w.s.channels
    decreases |w.s.sent| - w.at
  {
    hide Timeouts.Step;
    if w.at < |w.s.sent| {
      StepKeepsChannels(w, t);
      StepProgress(w, t);
      if !Timeouts.Step(w, t).gaveUp {
        SweepKeepsChannels(Timeouts.Step(w, t), t);
      }
    }
  }

  // ---- runs ----

  ghost predicate SentInv(w: World, c: byte)
    requires c < |w.s.channels|
  {
    AllAired(w.air, c, w.s.channels[c].launched)
  }

  lemma AiredStays(a: set<Message>, b: set<Message>, c: nat, launched: nat)
    requires AllAired(a, c, launched) && a <= b
    ensures AllAired(b, c, launched)
  {
    forall n: nat | 1 <= n <= launched ensures Aired(b, c, n) {
      assert Aired(a, c, n);
    }
  }

  lemma TransmitCarries(w: World, c: byte, e: Settings, d: Datagram)
    requires Inv(w, c) && Enabled(w, c, Transmit(e, d)) && SentInv(w, c)
    ensures var w' := After(w, c, Transmit(e, d)); c < |w'.s.channels| && SentInv(w', c)
  {
    hide Valid, Orderly, Held, Known, Follows, LaidOut, EndOf, Settled, ReceiverInv, AirInv, AcksInv, DatagramOk,
         Spared, Finish, PassShaped, ArrivedInv, AllAired;
    StepIsDefined(w, c, Transmit(e, d));
    var p := StartPass(w.s, d);
    PassPutsOut(p, e, c);
    var q := Finish(p, e);
    var air' := After(w, c, Transmit(e, d)).air;
    AiredStays(w.air, air', c, w.s.channels[c].launched);
    hide PutsOut;
    NewAreOut(p, q, c, w.s.channels[c].launched, air');
  }

  lemma NewAreOut(p: Pass, q: Pass, c: nat, launched: nat, air: set<Message>)
    requires PutsOut(p, q, c) && launched == p.s.channels[c].launched && AllAired(air, c, launched)
    requires forall m :: m in q.out && Reliable(m, c) ==> m in air
    ensures AllAired(air, c, q.s.channels[c].launched)
  {
    forall n: nat | 1 <= n <= q.s.channels[c].launched ensures Aired(air, c, n) {
      if n > launched {
        assert Aired(OutOf(q), c, n);
      }
    }
  }

  /** No other step counts a command as sent. */
  lemma LaunchedStays(w: World, c: byte, step: Delivery.Step)
    requires Inv(w, c) && Enabled(w, c, step) && !step.Transmit?
    ensures var w' := After(w, c, step);
            c < |w'.s.channels| && w'.s.channels[c].launched == w.s.channels[c].launched && w'.air == w.air
  {
    hide Valid, Orderly, Held, Known, Follows, LaidOut, EndOf, Settled, ReceiverInv, AirInv, AcksInv, Spared, PeerSend,
         SweepOn, RemoveSent, Respond, SentReliably, NewAreCarried, Names, TakesNumber, SendsSafely, CommandOk,
         ArrivedInv, SettledInv, Setup;
    StepIsDefined(w, c, step);
    match step
    case Send(channel, data, flags, h) =>
      if SentReliably(w.s, channel, data, flags, h) {
        SendQueuesParcel(w.s, channel, data, flags, h);
      } else {
        SendPlain(w.s, channel, data, flags, h);
      }
    case Control(x) => ControlLaunches(w, c, x);
    case Timeout(t) => SweepKeepsChannels(Sweep(w.s, 0, 0, false), t);
    case Acknowledged(n) => RemoveSentSettles(w.s, Wire(n), c);
    case OtherAcknowledged(number, channel) => RemoveSentSettles(w.s, number, channel);
    case Arrive(m, limit, accepting) =>
  }

  lemma ControlLaunches(w: World, c: byte, x: Command)
    requires Inv(w, c) && Enabled(w, c, Control(x))
    ensures var s' := Setup(w.s, x); c < |s'.channels| && s'.channels[c].launched == w.s.channels[c].launched
  {
    hide Valid, Orderly, Spared, ReceiverInv, AirInv, AcksInv, ArrivedInv, SettledInv, Held, TakesNumber, CommandSize;
    ChannelCount(w.s);
    SetupIsElsewhere(w.s, x, c);
  }

  lemma StepCarries(w: World, c: byte, step: Delivery.Step)
    requires Inv(w, c) && Enabled(w, c, step) && SentInv(w, c)
    ensures var w' := After(w, c, step); c < |w'.s.channels| && SentInv(w', c)
  {
    hide Inv, Enabled, After, SentInv;
    InvChannel(w, c);
    if step.Transmit? {
      TransmitCarries(w, c, step.settings, step.datagram);
    } else {
      LaunchedStays(w, c, step);
      SameAired(w, After(w, c, step), c);
    }
  }

  lemma SameAired(w: World, w': World, c: byte)
    requires c < |w.s.channels| && c < |w'.s.channels| && SentInv(w, c)
    requires w'.s.channels[c].launched == w.s.channels[c].launched && w'.air == w.air
    ensures SentInv(w', c)
  {
  }

  lemma InvChannel(w: World, c: byte)
    requires Inv(w, c)
    ensures c < |w.s.channels|
  {
    hide Valid, Orderly, Spared, ReceiverInv, AirInv, AcksInv, ArrivedInv, SettledInv, Held;
  }

  lemma {:induction false} RunCarries(w: World, c: byte, run: seq<Delivery.Step>)
    requires Inv(w, c) && AllEnabled(w, c, run)
    requires (InvChannel(w, c); SentInv(w, c))
    ensures var w' := AfterAll(w, c, run); c < |w'.s.channels| && SentInv(w', c)
    decreases |run|
  {
    hide Inv, Enabled, After, SentInv;
    InvChannel(w, c);
    if run != [] {
      StepKeepsInv(w, c, run[0]);
      StepCarries(w, c, run[0]);
      RunCarries(After(w, c, run[0]), c, run[1..]);
    }
  }

  /** In every state of every run: the numbers counted as sent are those of commands that have been in a
      datagram. */
  lemma SentIsOnTheAir(start: World, c: byte, run: seq<Delivery.Step>, n: nat)
    requires IsRun(start, c, run)
    ensures c < |Outcome(start, c, run).s.channels|
    ensures var w := Outcome(start, c, run);
            1 <= n <= w.s.channels[c].launched <==> exists m :: m in w.air && m.serial == n
  {
    hide Inv, Starts;
    StartsInv(start, c);
    OutcomeInv(start, c, run);
    InvChannel(start, c);
    NothingSent(start, c);
    RunCarries(start, c, run);
    var w := Outcome(start, c, run);
    if 1 <= n <= w.s.channels[c].launched {
      assert Aired(w.air, c, n);
    }
    if m :| m in w.air && m.serial == n {
      AirIsSent(w, c, m);
    }
  }

  lemma NothingSent(start: World, c: byte)
    requires Starts(start, c)
    ensures c < |start.s.channels| && SentInv(start, c)
  {
  }

  lemma AirIsSent(w: World, c: byte, m: Message)
    requires Inv(w, c) && m in w.air
    ensures c < |w.s.channels| && Reliable(m, c) && Known(w.ps, m) && 1 <= m.serial <= w.s.channels[c].launched
  {
    hide Valid, Orderly, Spared, ReceiverInv, AcksInv, ArrivedInv, SettledInv, Held, Carries, EndOf, At, LaidOut;
  }
}
