/** Everything that happens to a sender, whatever the other side does: acknowledgements may carry
    any number for any channel, at any time. */
module SenderRuns {
  import opened Words
  import opened Windows
  import opened Outgoing
  import opened FlightWindow
  import opened SendPass
  import opened PassInvariant
  import opened Resend
  import opened Timeouts
  import opened Parcels
  import opened Sending
  import opened DropSafety

  datatype Action =
    | Sends(channel: byte, data: seq<byte>, flags: Flags, host: Host)
    | Queues(command: Command)
    | Passes(settings: Settings, datagram: Datagram)
    | TimesOut(clock: Clock)
    | Acknowledged(number: u16, channel: byte)

  /** Commands are well formed and datagrams not overfull. */
  predicate Allowed(s: Sender, a: Action) {
    match a
    case Queues(c) => CommandOk(s, c)
    case Passes(_, d) => DatagramOk(d, s.mtu)
    case _ => true
  }

  ghost function After(s: Sender, a: Action): Sender
    requires Valid(s) && Allowed(s, a)
  {
    ActionIsDefined(s, a);
    match a
    case Sends(channel, data, flags, h) => PeerSend(s, channel, data, flags, h)
    case Queues(c) => Setup(s, c)
    case Passes(e, d) => Finish(StartPass(s, d), e).s
    case TimesOut(t) => CheckTimeouts(s, t).s
    case Acknowledged(number, channel) => RemoveSent(s, number, channel).s
  }

  lemma ActionIsDefined(s: Sender, a: Action)
    requires Valid(s) && Allowed(s, a)
    ensures MINIMUM_MTU <= s.mtu && |s.channels| <= CONTROL_CHANNEL && WindowsCounted(s)
    ensures a.Passes? ==> PassValid(StartPass(s, a.datagram)) && PassShaped(StartPass(s, a.datagram))
    ensures a.Sends? ==> FragmentLength(s, a.host) > 0
  {
    hide AllCount, MessagesOk, AttemptedFirst, AllAttempted, Bytes, DatagramOk, PassShaped;
    ValidCounts(s);
    if a.Passes? {
      ValidIsShaped(StartPass(s, a.datagram));
    }
  }

  /** Every action keeps the sender valid. */
  lemma ActionKeepsValid(s: Sender, a: Action)
    requires Valid(s) && Allowed(s, a)
    ensures Valid(After(s, a)) && |After(s, a).channels| == |s.channels|
  {
    hide Valid, DatagramOk, PeerSend, Finish, SweepOn, RemoveSent, SentReliably, NewAreCarried, Issues, Held, Orderly,
         Settled;
    ActionIsDefined(s, a);
    match a
    case Sends(channel, data, flags, h) =>
      if SentReliably(s, channel, data, flags, h) {
        SendQueuesParcel(s, channel, data, flags, h);
      } else {
        SendPlain(s, channel, data, flags, h);
      }
    case Queues(c) => SetupKeepsValid(s, c);
    case Passes(e, d) => PassKeepsValid(StartPass(s, d), e);
    case TimesOut(t) => TimeoutsKeepValid(Sweep(s, 0, 0, false), t);
    case Acknowledged(number, channel) => RemoveSentSettles(s, number, channel);
  }

  ghost predicate AllAllowed(s: Sender, run: seq<Action>)
    requires Valid(s)
    decreases |run|
  {
    run == [] || (Allowed(s, run[0]) && (ActionKeepsValid(s, run[0]); AllAllowed(After(s, run[0]), run[1..])))
  }

  ghost function AfterAll(s: Sender, run: seq<Action>): Sender
    requires Valid(s) && AllAllowed(s, run)
    decreases |run|
  {
    if run == [] then s else
      ActionKeepsValid(s, run[0]);
      AfterAll(After(s, run[0]), run[1..])
  }

  lemma {:induction false} RunKeepsValid(s: Sender, run: seq<Action>)
    requires Valid(s) && AllAllowed(s, run)
    ensures Valid(AfterAll(s, run)) && |AfterAll(s, run).channels| == |s.channels|
    decreases |run|
  {
    hide Valid, After, Allowed;
    if run != [] {
      ActionKeepsValid(s, run[0]);
      RunKeepsValid(After(s, run[0]), run[1..]);
    }
  }

  /** Nothing numbered, nothing sent. */
  ghost predicate IsNew(s: Sender) {
    && |s.channels| <= CONTROL_CHANNEL && MINIMUM_MTU <= s.mtu <= MAXIMUM_MTU
    && s.outgoing == [] && s.sent == [] && s.inTransit == 0
    && (forall k: nat :: k < |s.channels| ==>
          s.channels[k] == SendChannel(0, 0, 0, seq(RELIABLE_WINDOWS, i => 0), 0, 0))
  }

  lemma NewIsValid(s: Sender)
    requires IsNew(s)
    ensures Valid(s)
  {
    hide Marks;
    NothingMarked();
  }

  lemma NewIsOrderly(s: Sender, k: nat)
    requires IsNew(s) && k < |s.channels|
    ensures Orderly(s, k)
  {
    forall x: nat ensures InWindow(InFlight(s, k), x) == {} {
    }
  }

  /** A run from a fresh connection, and where it leads. */
  ghost predicate IsRun(start: Sender, run: seq<Action>) {
    IsNew(start) && (NewIsValid(start); AllAllowed(start, run))
  }

  ghost function Outcome(start: Sender, run: seq<Action>): Sender
    requires IsRun(start, run)
  {
    NewIsValid(start);
    AfterAll(start, run)
  }

  lemma OutcomeIsValid(start: Sender, run: seq<Action>)
    requires IsRun(start, run)
    ensures Valid(Outcome(start, run)) && |Outcome(start, run).channels| == |start.channels|
  {
    hide Valid, IsNew;
    NewIsValid(start);
    RunKeepsValid(start, run);
  }

  // ---- what holds after every run ----

  /** Transit accounting: reliableDataInTransit is the sum over the commands sent and not
      acknowledged, and those that wait to be sent again come before all that were never sent. */
  lemma TransitIsExact(start: Sender, run: seq<Action>)
    requires IsRun(start, run)
    ensures var s := Outcome(start, run);
            && s.inTransit == Bytes(s.sent) <= MAXIMUM_WINDOW_SIZE && AttemptedFirst(s.outgoing) && AllAttempted(s.sent)
  {
    hide IsRun, Outcome, Bytes, AttemptedFirst, AllAttempted, MessagesOk, AllCount;
    OutcomeIsValid(start, run);
  }

  /** Each counter of a window is exactly the number of the channel's sent and unacknowledged
      commands whose 16-bit number lies in it, and its bit is set just while it is not 0. */
  lemma CountersAreExact(start: Sender, run: seq<Action>, k: nat, w: nat)
    requires IsRun(start, run) && k < |start.channels| && w < RELIABLE_WINDOWS
    ensures k < |Outcome(start, run).channels|
    ensures var s := Outcome(start, run); var ch := s.channels[k];
            && |ch.reliableWindows| == RELIABLE_WINDOWS
            && ch.reliableWindows[w] == Tally(k, w, s.outgoing) + Tally(k, w, s.sent)
            && (Bit(ch.usedReliableWindows, w) <==> ch.reliableWindows[w] > 0)
  {
    hide IsRun, Outcome, Bytes, AttemptedFirst, AllAttempted, MessagesOk, Tally, Bit;
    OutcomeIsValid(start, run);
    assert Counts(Outcome(start, run), k);
  }

  /** An acknowledgement finds a command if and only if its number is in flight, although the search
      of those waiting to be sent again gives up at the first one never sent. */
  lemma AcknowledgementFinds(start: Sender, run: seq<Action>, number: u16, c: byte)
    requires IsRun(start, run) && c < |start.channels|
    ensures var s := Outcome(start, run);
            && WindowsCounted(s)
            && (RemoveSent(s, number, c).removed != [] <==> exists n :: Names(s, c, number, n))
  {
    hide IsRun, Outcome, Valid, RemoveSent, Names;
    OutcomeIsValid(start, run);
    var s := Outcome(start, run);
    ValidCounts(s);
    if RemoveSent(s, number, c).removed != [] {
      RemovalTakesOut(s, number, c);
      RemovedIsNamed(s, RemoveSent(s, number, c).s, RemoveSent(s, number, c).removed[0], c, number);
    }
    if n :| Names(s, c, number, n) {
      RemovalFinds(s, number, c, n);
    }
  }

  // ---- what holds of a channel that is never endangered ----

  ghost predicate Safe(s: Sender, k: byte) {
    Valid(s) && Orderly(s, k) && Spared(s, k)
  }

  /** Not the queueing of a command of channel k that throttling might drop with one before it (where
      that happens the flight bound is lost, see ThrottleDrop). */
  predicate Harmless(s: Sender, a: Action, k: byte)
    requires |s.channels| <= CONTROL_CHANNEL && MINIMUM_MTU <= s.mtu && Allowed(s, a)
  {
    match a
    case Sends(channel, data, flags, h) => channel == k ==> SendsSafely(s, channel, data, flags, h)
    case Queues(c) => TakesNumber(s, c) && (c.channel == k ==> QueuesSafely(s, c))
    case _ => true
  }

  lemma ActionKeepsOrder(s: Sender, a: Action, k: byte)
    requires Safe(s, k) && Allowed(s, a)
    ensures Orderly(After(s, a), k)
  {
    hide Valid, DatagramOk, PeerSend, Finish, SweepOn, RemoveSent, SentReliably, NewAreCarried, Issues, Held, Orderly,
         Settled,
         Spares, Numbered, ChannelKeeps;
    ActionIsDefined(s, a);
    OrderlyExists(s, k);
    match a
    case Sends(channel, data, flags, h) =>
      if SentReliably(s, channel, data, flags, h) {
        SendQueuesParcel(s, channel, data, flags, h);
      } else {
        SendPlain(s, channel, data, flags, h);
      }
    case Queues(c) => SetupKeepsValid(s, c);
    case Passes(e, d) =>
      assert s.outgoing[0..] == s.outgoing;
      PassKeepsOk(StartPass(s, d), e, k);
    case TimesOut(t) => TimeoutsKeepOrder(Sweep(s, 0, 0, false), t, k);
    case Acknowledged(number, channel) => RemoveSentSettles(s, number, channel);
  }

  lemma ActionKeepsSpared(s: Sender, a: Action, k: byte)
    requires Valid(s) && Spared(s, k) && Allowed(s, a)
    requires (ActionIsDefined(s, a); Harmless(s, a, k))
    ensures Spared(After(s, a), k)
  {
    hide Valid, DatagramOk, Spares, Numbered, PeerSend, Finish, SweepOn, RemoveSent, SentReliably, Endangers, Setup,
         PassShaped;
    ActionIsDefined(s, a);
    match a
    case Sends(channel, data, flags, h) => SendSparesIff(s, channel, data, flags, h, k);
    case Queues(c) =>
      SetupSparesIff(s, c, k);
      SetupNumberedIff(s, c);
    case Passes(e, d) => PassSpares(s, e, d, k);
    case TimesOut(t) => TimeoutsSpare(s, t, k);
    case Acknowledged(number, channel) => RemovalSpares(s, number, channel, k);
  }

  /** Every harmless action keeps the channel in order and its commands safe from throttling. */
  lemma ActionKeepsSafe(s: Sender, a: Action, k: byte)
    requires Safe(s, k) && Allowed(s, a)
    requires (ActionIsDefined(s, a); Harmless(s, a, k))
    ensures Safe(After(s, a), k) && |After(s, a).channels| == |s.channels|
  {
    hide Valid, Orderly, Spared, After, Allowed, Harmless;
    ActionKeepsValid(s, a);
    ActionKeepsOrder(s, a, k);
    ActionKeepsSpared(s, a, k);
  }

  /** No step of the run endangers a command of channel k. */
  ghost predicate NeverEndangers(s: Sender, run: seq<Action>, k: byte)
    requires Valid(s) && AllAllowed(s, run)
    decreases |run|
  {
    run == [] ||
    (ActionIsDefined(s, run[0]); ActionKeepsValid(s, run[0]);
     Harmless(s, run[0], k) && NeverEndangers(After(s, run[0]), run[1..], k))
  }

  lemma {:induction false} RunKeepsSafe(s: Sender, run: seq<Action>, k: byte)
    requires Safe(s, k) && AllAllowed(s, run) && NeverEndangers(s, run, k)
    ensures Safe(AfterAll(s, run), k)
    decreases |run|
  {
    hide Valid, Orderly, Spared, After, Allowed, Harmless;
    if run != [] {
      ActionIsDefined(s, run[0]);
      ActionKeepsSafe(s, run[0], k);
      RunKeepsSafe(After(s, run[0]), run[1..], k);
    }
  }

  /** A run from a fresh connection that never endangers a command of channel k. */
  ghost predicate IsSafeRun(start: Sender, run: seq<Action>, k: byte) {
    IsRun(start, run) && k < |start.channels| && (NewIsValid(start); NeverEndangers(start, run, k))
  }

  lemma OutcomeIsSafe(start: Sender, run: seq<Action>, k: byte)
    requires IsSafeRun(start, run, k)
    ensures Safe(Outcome(start, run), k) && |Outcome(start, run).channels| == |start.channels|
  {
    hide Valid, Orderly;
    NewIsValid(start);
    NewIsOrderly(start, k);
    RunKeepsSafe(start, run, k);
    OutcomeIsValid(start, run);
  }

  /** The flight bound, over all runs that endanger no command of the channel: whatever is
      acknowledged when, what it has in flight has distinct 16-bit numbers in at most seven
      consecutive windows; each counter of a window is exactly their number there, at most 4096, and
      its bit is set just while it is not 0. */
  lemma FlightIsBounded(start: Sender, run: seq<Action>, k: byte, a: nat, b: nat)
    requires IsSafeRun(start, run, k)
    ensures k < |Outcome(start, run).channels|
    ensures var s := Outcome(start, run); var ch := s.channels[k];
            && |ch.reliableWindows| == RELIABLE_WINDOWS
            && (forall v: nat :: v < RELIABLE_WINDOWS ==>
                  && ch.reliableWindows[v] == |InWindow(InFlight(s, k), v)| <= RELIABLE_WINDOW_SIZE
                  && (Bit(ch.usedReliableWindows, v) <==> ch.reliableWindows[v] > 0))
            && (a in InFlight(s, k) && b in InFlight(s, k) ==>
                  && (Wire(a) == Wire(b) ==> a == b) && InFlight(s, k)[a] == 1
                  && WindowOf(a) <= WindowOf(b) + 6)
  {
    hide IsRun, Outcome, Valid, Spared, InFlight, Wire, WindowHasGap, WindowOf, Bit;
    OutcomeIsSafe(start, run, k);
    var s := Outcome(start, run);
    var ch := s.channels[k];
    BoundOf(s, k);
    forall v: nat | v < RELIABLE_WINDOWS ensures ch.reliableWindows[v] <= RELIABLE_WINDOW_SIZE {
      CountFits(ch.launched, ch.reliableWindows, InFlight(s, k), v);
    }
    MarksOf(s, k);
    if a in InFlight(s, k) && b in InFlight(s, k) {
      WindowsMonotone(a, ch.launched);
      if Wire(a) == Wire(b) {
        FlightIsDistinct(ch.launched, ch.reliableWindows, InFlight(s, k), a, b);
      }
    }
  }

  lemma MarksOf(s: Sender, c: nat)
    requires Valid(s) && c < |s.channels|
    ensures Marks(s.channels[c].usedReliableWindows, s.channels[c].reliableWindows)
  {
    hide Marks, Tally, MessagesOk, AttemptedFirst, AllAttempted, Bytes;
    assert Counts(s, c);
  }
}
