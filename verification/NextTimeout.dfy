/** When a sender looks for overdue commands: the time it keeps is when the first command in flight falls
    due, in every state of every run (src/enet/protocol.c:277-280, 1372-1379, 1473-1474, 1600-1603). */
module NextTimeout {
  import opened Words
  import opened Windows
  import opened Outgoing
  import opened SendPass
  import opened PassInvariant
  import opened Resend
  import opened Timeouts
  import opened GivingUp
  import opened Parcels
  import opened Sending
  import opened SenderRuns
  import SendTurn

  /** nextTimeout is when the first command in flight falls due. */
  predicate Timed(s: Sender) {
    s.sent != [] ==> s.nextTimeout == (s.sent[0].sentTime + s.sent[0].timeout) % WORD
  }

  lemma {:induction false} SetupAllTimes(s: Sender, cmds: seq<Command>)
    requires forall i :: 0 <= i < |cmds| ==> ChannelExists(s, cmds[i])
    ensures SetupAll(s, cmds).sent == s.sent && SetupAll(s, cmds).nextTimeout == s.nextTimeout
    decreases |cmds|
  {
    if cmds != [] {
      SetupAllTimes(Setup(s, cmds[0]), cmds[1..]);
    }
  }

  lemma LaunchTimes(s: Sender, at: nat, e: Settings)
    requires at < |s.outgoing| && WindowsCounted(s) && Timed(s)
    ensures Timed(Launch(s, at, e))
  {
    hide Counted;
  }

  lemma AdvanceTimes(p: Pass, e: Settings)
    requires p.at < |p.s.outgoing| && WindowsCounted(p.s) && p.d.packetSize <= p.s.mtu && Timed(p.s)
    ensures Timed(Advance(p, e).s)
  {
    hide Launch, DropRun, Full, OpensBlocked, OverCommitted;
    LaunchTimes(p.s, p.at, e);
  }

  lemma {:induction false} PassTimes(p: Pass, e: Settings)
    requires PassShaped(p) && !p.more && Timed(p.s)
    ensures Timed(Finish(p, e).s)
    decreases |p.s.outgoing| - p.at
  {
    hide Advance, Shaped, DatagramOk, Timed;
    SendTurn.PassAt(p);
    if p.at < |p.s.outgoing| {
      AdvanceKeepsShape(p, e);
      AdvanceTimes(p, e);
      if !Advance(p, e).more {
        PassTimes(Advance(p, e), e);
      }
    }
  }

  lemma RemovalTimes(s: Sender, number: u16, c: byte)
    requires WindowsCounted(s) && Timed(s)
    ensures Timed(RemoveSent(s, number, c).s)
  {
    hide Discounted;
  }

  lemma StepTimes(w: Sweep, t: Clock)
    requires w.at < |w.s.sent| && w.moved <= |w.s.outgoing| && Timed(w.s)
    ensures Timed(Step(w, t).s)
  {
    hide Expired, GivenUp;
  }

  lemma {:induction false} SweepTimes(w: Sweep, t: Clock)
    requires w.moved <= |w.s.outgoing| && Timed(w.s)
    ensures Timed(SweepOn(w, t).s)
    decreases |w.s.sent| - w.at
  {
    hide Step, Timed;
    if w.at < |w.s.sent| {
      StepTimes(w, t);
      StepProgress(w, t);
      if !Step(w, t).gaveUp {
        SweepTimes(Step(w, t), t);
      }
    }
  }

  lemma ActionTimes(s: Sender, a: Action)
    requires Valid(s) && Allowed(s, a) && Timed(s)
    ensures Timed(After(s, a))
  {
    hide Valid, DatagramOk, Finish, SweepOn, RemoveSent, Setup, SetupAll, PassShaped, WindowsCounted, PassValid;
    ActionIsDefined(s, a);
    match a
    case Sends(channel, data, flags, h) =>
      CommandsAreOk(s, channel, data, flags, h);
      SetupAllTimes(s, CommandsOf(s, channel, data, flags, h));
    case Queues(c) => SetupTimes(s, c);
    case Passes(e, d) => PassTimes(StartPass(s, d), e);
    case TimesOut(t) => SweepTimes(Sweep(s, 0, 0, false), t);
    case Acknowledged(number, channel) => RemovalTimes(s, number, channel);
  }

  lemma SetupTimes(s: Sender, c: Command)
    requires ChannelExists(s, c) && Timed(s)
    ensures Timed(Setup(s, c))
  {
  }

  lemma {:induction false} AllTime(s: Sender, run: seq<Action>)
    requires Valid(s) && AllAllowed(s, run) && Timed(s)
    ensures Timed(AfterAll(s, run))
    decreases |run|
  {
    hide Valid, After, Allowed, Timed;
    if run != [] {
      ActionKeepsValid(s, run[0]);
      ActionTimes(s, run[0]);
      AllTime(After(s, run[0]), run[1..]);
    }
  }

  /** In every state of every run. */
  lemma NextTimeoutIsFirst(start: Sender, run: seq<Action>)
    requires IsRun(start, run)
    ensures var s := Outcome(start, run);
            s.sent != [] ==> s.nextTimeout == (s.sent[0].sentTime + s.sent[0].timeout) % WORD
  {
    hide Valid;
    NewIsValid(start);
    AllTime(start, run);
  }

  /** So a turn looks for overdue commands exactly when the first in flight is overdue, whatever the
      others are. */
  lemma SweepsWhenFirstIsOverdue(p: SendTurn.Peer, check: bool, sent: nat, now: nat)
    requires Timed(p.s) && p.s.sent != [] && p.clock.now == now % WORD
    requires p.s.sent[0].sentTime == sent % WORD && sent <= now < sent + 86400000
    requires p.s.sent[0].timeout < 86400000
    ensures SendTurn.TimeoutsDue(p, check) <==> check && Expired(p.s.sent[0], p.clock.now)
  {
    var due := sent + p.s.sent[0].timeout;
    OverdueIff(p.s.sent[0], sent, now);
    ClockTells(now, due);
    SumWraps(sent, p.s.sent[0].timeout);
  }

  lemma SumWraps(a: nat, b: nat)
    ensures (a % WORD + b) % WORD == (a + b) % WORD
  {
  }
}
