/** The other operations on a sender: numbering a new command (enet_peer_setup_outgoing_command),
    acknowledgements (enet_protocol_remove_sent_reliable_command) and timeouts
    (enet_protocol_check_timeouts). */
module Resend {
  import opened Words
  import opened Windows
  import opened Outgoing
  import opened FlightWindow
  import opened SendPass
  import opened PassInvariant

  // ---- a new command is numbered and queued ----

  predicate ChannelExists(s: Sender, c: Command) {
    c.channel == CONTROL_CHANNEL || c.channel < |s.channels|
  }

  function Queued(s: Sender, m: Message): Sender {
    s.(outgoing := s.outgoing + [OutgoingCommand(m, 0, 0, 0, 0)])
  }

  /** A reliable command takes the channel's next number and restarts its unreliable ones; an
      unreliable one takes the next unreliable number, all pieces of a packet the same; commands
      on no channel are numbered by the peer, and unsequenced ones are grouped by it. */
  function Setup(s: Sender, c: Command): (s': Sender)
    requires ChannelExists(s, c)
    ensures |s'.channels| == |s.channels|
  {
    if c.channel == CONTROL_CHANNEL then
      var number: u16 := (s.number + 1) % NUMBERS;
      Queued(s.(number := number), Message(c, number, 0, 0, 0))
    else
      var ch := s.channels[c.channel];
      if c.acknowledge then
        var number: u16 := (ch.number + 1) % NUMBERS;
        Queued(s.(channels := s.channels[c.channel :=
                                           ch.(number := number, unreliableNumber := 0, issued := ch.issued + 1)]),
               Message(c, number, 0, 0, ch.issued + 1))
      else if c.unsequenced then
        var group: u16 := (s.group + 1) % NUMBERS;
        Queued(s.(group := group), Message(c, 0, 0, group, 0))
      else
        var unreliable: u16 := if OffsetOf(c.payload) == 0 then (ch.unreliableNumber + 1) % NUMBERS
                               else ch.unreliableNumber;
        Queued(s.(channels := s.channels[c.channel := ch.(unreliableNumber := unreliable)]),
               Message(c, ch.number, unreliable, 0, 0))
  }

  predicate CommandOk(s: Sender, c: Command) {
    && ChannelExists(s, c)
    && HEADER_SIZE + CommandSize(c.kind) + |Carried(c.payload)| <= s.mtu
    && (c.acknowledge ==> (c.payload.NoPacket? <==> c.channel == CONTROL_CHANNEL))
  }

  lemma QueuedLists(s: Sender, m: Message, c: nat)
    ensures var s' := Queued(s, m);
            && InFlight(s', c) == InFlight(s, c)
            && Waiting(c, s'.outgoing) == Waiting(c, s.outgoing) + (if Reliable(m, c) then [m.serial] else [])
            && Held(s') == Held(s) + {m}
  {
    var x := OutgoingCommand(m, 0, 0, 0, 0);
    FlightAdds(c, s.outgoing, [x]);
    WaitingAdds(c, s.outgoing, [x]);
    assert Flight(c, [x]) == multiset{};
    var s' := Queued(s, m);
    forall y | y in s'.outgoing + s'.sent ensures y.message in Held(s) + {m} {
      if y in s.outgoing || y in s.sent {
        assert y in s.outgoing + s.sent;
      }
    }
    forall k | k in Held(s) + {m} ensures k in Held(s') {
      if k == m {
        assert x in s'.outgoing + s'.sent;
      } else {
        var y :| y in s.outgoing + s.sent && y.message == k;
        assert y in s'.outgoing + s'.sent;
      }
    }
  }

  lemma QueuedMessages(s: Sender, m: Message)
    requires Valid(s) && MessageOk(m, |s.channels|, s.mtu)
    ensures var s' := Queued(s, m);
            && MessagesOk(s'.outgoing, |s.channels|, s.mtu) && AttemptedFirst(s'.outgoing)
  {
    hide MessageOk, Bytes, AllCount;
  }

  lemma SameFlight(s: Sender, t: Sender, k: nat)
    requires s.outgoing == t.outgoing && s.sent == t.sent
    ensures InFlight(s, k) == InFlight(t, k)
  {
  }

  /** Queueing keeps the order of a channel. */
  lemma SetupKeepsChannel(s: Sender, c: Command, k: nat)
    requires Orderly(s, k) && ChannelExists(s, c) && |s.channels| <= CONTROL_CHANNEL
    ensures Orderly(Setup(s, c), k)
  {
    hide FlightBound, InFlight, Waiting;
    var s' := Setup(s, c);
    var x := s'.outgoing[|s'.outgoing| - 1];
    assert s'.outgoing == s.outgoing + [x];
    QueuedLists(s, x.message, k);
    SameFlight(Queued(s, x.message), s', k);
    var ch := s.channels[k];
    assert Following(ch.launched, ch.issued) + [ch.issued + 1] == Following(ch.launched, ch.issued + 1);
  }

  lemma SetupKeepsFlight(s: Sender, c: Command, k: nat)
    requires ChannelExists(s, c) && k < |s.channels|
    ensures var s' := Setup(s, c); s'.channels[k].launched == s.channels[k].launched
                                   && InFlight(s', k) == InFlight(s, k)
  {
    hide Flight, Waiting;
    var s' := Setup(s, c);
    var x := s'.outgoing[|s'.outgoing| - 1];
    assert s'.outgoing == s.outgoing + [x];
    QueuedLists(s, x.message, k);
    SameFlight(Queued(s, x.message), s', k);
  }

  lemma SetupCounts(s: Sender, c: Command, k: nat)
    requires ChannelExists(s, c) && k < |s.channels| && Counts(s, k)
    ensures Counts(Setup(s, c), k)
  {
    hide Marks, Tally, AttemptedIn;
    var s' := Setup(s, c);
    var x := s'.outgoing[|s.outgoing|];
    forall w: nat ensures Tally(k, w, s'.outgoing) == Tally(k, w, s.outgoing) {
      assert Without(s'.outgoing, |s.outgoing|) == s.outgoing;
      TallyWithout(k, w, s'.outgoing, |s.outgoing|);
      UnsentIsNotCounted(x, k, w);
    }
    NextWire(s.channels[k].issued);
  }

  lemma UnsentIsNotCounted(x: OutgoingCommand, c: nat, w: nat)
    requires x.attempts == 0
    ensures !AttemptedIn(x, c, w)
  {
  }

  lemma NextWire(n: nat)
    ensures (Wire(n) + 1) % NUMBERS == Wire(n + 1)
  {
  }

  /** Queueing keeps the sender valid; nothing is acknowledged or forgotten by it. */
  lemma SetupKeepsValid(s: Sender, c: Command)
    requires Valid(s) && CommandOk(s, c)
    ensures var s' := Setup(s, c);
            && Valid(s') && |s'.channels| == |s.channels| && s'.mtu == s.mtu
            && (forall k: nat, n :: k < |s.channels| ==> (Settled(s', k, n) <==> Settled(s, k, n)))
            && (forall k: nat :: Orderly(s, k) ==> Orderly(s', k))
            && Held(s') == Held(s) + {s'.outgoing[|s'.outgoing| - 1].message}
            && s'.outgoing[..|s.outgoing|] == s.outgoing && |s'.outgoing| == |s.outgoing| + 1
  {
    hide MessagesOk, AttemptedFirst, AllAttempted, Bytes, Counts, Waiting, InFlight, Held, Orderly;
    var s' := Setup(s, c);
    var x := s'.outgoing[|s'.outgoing| - 1];
    forall k: nat | k < |s.channels|
      ensures Counts(s', k)
      ensures s'.channels[k].launched == s.channels[k].launched && InFlight(s', k) == InFlight(s, k)
    {
      assert Counts(s, k);
      SetupCounts(s, c, k);
      SetupKeepsFlight(s, c, k);
    }
    forall k: nat | Orderly(s, k) ensures Orderly(s', k) {
      SetupKeepsChannel(s, c, k);
    }
    NumberedOk(s, c);
    QueuedMessages(s, x.message);
    QueuedLists(s, x.message, 0);
    assert Queued(s, x.message).outgoing == s'.outgoing;
    SameHeld(Queued(s, x.message), s');
  }

  lemma SameHeld(s: Sender, s': Sender)
    requires s'.outgoing == s.outgoing && s'.sent == s.sent
    ensures Held(s') == Held(s)
  {
  }

  lemma NumberedOk(s: Sender, c: Command)
    requires Valid(s) && CommandOk(s, c)
    ensures var s' := Setup(s, c); MessageOk(s'.outgoing[|s'.outgoing| - 1].message, |s.channels|, s.mtu)
  {
    hide MessagesOk, AttemptedFirst, AllAttempted, Bytes, Marks, Tally, CommandSize;
    if c.channel < |s.channels| {
      assert Counts(s, c.channel);
      NextWire(s.channels[c.channel].issued);
    }
  }

  // ---- an acknowledgement arrives ----

  predicate Answers(m: Message, number: u16, c: byte) {
    m.number == number && m.command.channel == c
  }

  /** The first of the sent commands with that number and channel, or the end. */
  function SearchSent(cmds: seq<OutgoingCommand>, number: u16, c: byte): (i: nat)
    ensures i <= |cmds| && (i < |cmds| ==> Answers(cmds[i].message, number, c))
    ensures forall j :: 0 <= j < i ==> !Answers(cmds[j].message, number, c)
  {
    if cmds == [] || Answers(cmds[0].message, number, c) then 0 else 1 + SearchSent(cmds[1..], number, c)
  }

  /** The first command waiting to be sent again with that number and channel, or the end: the
      search gives up at the first one that has never been sent. */
  function SearchAgain(cmds: seq<OutgoingCommand>, number: u16, c: byte): (i: nat)
    ensures i <= |cmds|
  {
    if cmds == [] then 0
    else if !cmds[0].message.command.acknowledge then 1 + SearchAgain(cmds[1..], number, c)
    else if cmds[0].attempts < 1 then |cmds|
    else if Answers(cmds[0].message, number, c) then 0
    else 1 + SearchAgain(cmds[1..], number, c)
  }

  /** One command fewer in flight in that window, if any was counted there. */
  function Discounted(s: Sender, number: u16, c: byte): seq<SendChannel>
    requires WindowsCounted(s)
  {
    if c < |s.channels| then
      s.channels[c := CountedDown(s.channels[c], number / RELIABLE_WINDOW_SIZE)]
    else s.channels
  }

  function Retimed(s: Sender): Sender {
    if s.sent == [] then s else s.(nextTimeout := (s.sent[0].sentTime + s.sent[0].timeout) % WORD)
  }

  datatype Removal = Removal(s: Sender, removed: seq<OutgoingCommand>)

  /** Forgetting the command an acknowledgement names; removed holds it, if there is one. */
  function RemoveSent(s: Sender, number: u16, c: byte): Removal
    requires WindowsCounted(s)
  {
    var i := SearchSent(s.sent, number, c);
    if i < |s.sent| then
      var x := s.sent[i];
      Removal(Retimed(s.(sent := Without(s.sent, i), channels := Discounted(s, number, c),
                         inTransit := (s.inTransit - Length(x.message)) % WORD)), [x])
    else
      var j := SearchAgain(s.outgoing, number, c);
      if j < |s.outgoing| then
        Removal(Retimed(s.(outgoing := Without(s.outgoing, j), channels := Discounted(s, number, c))), [s.outgoing[j]])
      else Removal(s, [])
  }

  lemma {:induction false} SearchAgainFinds(cmds: seq<OutgoingCommand>, number: u16, c: byte)
    requires AttemptedFirst(cmds) && forall x :: x in cmds && x.attempts >= 1 ==> x.message.command.acknowledge
    ensures var i := SearchAgain(cmds, number, c);
            && (i < |cmds| ==> Answers(cmds[i].message, number, c) && cmds[i].attempts >= 1)
            && (i == |cmds| ==> forall j :: 0 <= j < |cmds| && cmds[j].attempts >= 1 ==>
                  !Answers(cmds[j].message, number, c))
  {
    if cmds != [] {
      var t := cmds[1..];
      SearchAgainFinds(t, number, c);
      var i := SearchAgain(cmds, number, c);
      assert forall j :: 0 <= j < |t| ==> t[j] == cmds[j + 1];
      forall j | i == |cmds| && 0 <= j < |cmds| && cmds[j].attempts >= 1 ensures !Answers(cmds[j].message, number, c) {
        if j > 0 {
          assert cmds[0].attempts >= 1;
          assert t[j - 1] == cmds[j];
        }
      }
    }
  }

  /** The number in flight that an acknowledgement names, if there is one. */
  ghost predicate Names(s: Sender, c: byte, number: u16, n: nat) {
    n in InFlight(s, c) && Wire(n) == number
  }

  function Tallied(s: Sender, k: nat, w: nat): nat {
    Tally(k, w, s.outgoing) + Tally(k, w, s.sent)
  }

  /** A command x in flight on its channel leaves the lists. */
  ghost predicate TakenOut(s: Sender, t: Sender, x: OutgoingCommand) {
    && x in s.outgoing + s.sent && x.attempts >= 1 && x.message.command.acknowledge
    && |t.channels| == |s.channels| && t.mtu == s.mtu
    && (forall y :: y in t.outgoing ==> y in s.outgoing) && (forall y :: y in t.sent ==> y in s.sent)
    && (AttemptedFirst(s.outgoing) ==> AttemptedFirst(t.outgoing))
    && t.inTransit == Bytes(t.sent) <= Bytes(s.sent)
    && (forall k: nat :: InFlight(s, k) == InFlight(t, k)
                         + (if Reliable(x.message, k) then multiset{x.message.serial} else multiset{}))
    && (forall k: nat :: Waiting(k, t.outgoing) == Waiting(k, s.outgoing))
    && (forall k: nat, w: nat :: Tallied(s, k, w) == Tallied(t, k, w) + if AttemptedIn(x, k, w) then 1 else 0)
  }

  lemma RemovalTakesOut(s: Sender, number: u16, c: byte)
    requires Valid(s) && WindowsCounted(s)
    ensures var r := RemoveSent(s, number, c);
            r.removed != [] ==> |r.removed| == 1 && TakenOut(s, r.s, r.removed[0])
                                && Answers(r.removed[0].message, number, c)
  {
    hide Discounted, Valid, AttemptedFirst, SearchAgain, SearchSent, TakenOut, Bytes, AllAttempted, Retimed, Without;
    AttemptedAcknowledge(s);
    SearchAgainFinds(s.outgoing, number, c);
    var i := SearchSent(s.sent, number, c);
    if i < |s.sent| {
      SentTakenOut(s, i, RemoveSent(s, number, c).s, Discounted(s, number, c));
    } else {
      var j := SearchAgain(s.outgoing, number, c);
      if j < |s.outgoing| {
        OutgoingTakenOut(s, j, RemoveSent(s, number, c).s, Discounted(s, number, c));
      }
    }
    DiscountedCount(s, number, c);
  }

  lemma DiscountedCount(s: Sender, number: u16, c: byte)
    requires WindowsCounted(s)
    ensures |Discounted(s, number, c)| == |s.channels|
  {
  }

  lemma SentTakenOut(s: Sender, i: nat, t: Sender, channels: seq<SendChannel>)
    requires i < |s.sent| && AllAttempted(s.sent) && s.inTransit == Bytes(s.sent) < WORD
    requires t == Retimed(s.(sent := Without(s.sent, i), channels := channels,
                             inTransit := (s.inTransit - Length(s.sent[i].message)) % WORD))
    ensures |channels| == |s.channels| ==> TakenOut(s, t, s.sent[i])
  {
    hide AttemptedFirst, Flight, Waiting, Bytes, Tally, AttemptedIn;
    var x := s.sent[i];
    assert x in s.outgoing + s.sent;
    WithoutIsWithin(s.sent, i);
    BytesWithout(s.sent, i);
    forall k: nat
      ensures InFlight(s, k) == InFlight(t, k)
              + (if Reliable(x.message, k) then multiset{x.message.serial} else multiset{})
    {
      AttemptedAlone(s.sent, i, k);
    }
    forall k: nat, w: nat ensures Tallied(s, k, w) == Tallied(t, k, w) + if AttemptedIn(x, k, w) then 1 else 0 {
      TallyWithout(k, w, s.sent, i);
    }
  }

  lemma OutgoingTakenOut(s: Sender, j: nat, t: Sender, channels: seq<SendChannel>)
    requires j < |s.outgoing| && s.outgoing[j].attempts >= 1 && s.outgoing[j].message.command.acknowledge
    requires s.inTransit == Bytes(s.sent)
    requires t == Retimed(s.(outgoing := Without(s.outgoing, j), channels := channels))
    ensures |channels| == |s.channels| ==> TakenOut(s, t, s.outgoing[j])
  {
    hide AttemptedFirst, Flight, Waiting, Bytes, Tally, AttemptedIn;
    var x := s.outgoing[j];
    assert x in s.outgoing + s.sent;
    WithoutIsWithin(s.outgoing, j);
    if AttemptedFirst(s.outgoing) {
      WithoutKeepsAttemptedFirst(s.outgoing, j);
    }
    forall k: nat
      ensures InFlight(s, k) == InFlight(t, k)
              + (if Reliable(x.message, k) then multiset{x.message.serial} else multiset{})
      ensures Waiting(k, t.outgoing) == Waiting(k, s.outgoing)
    {
      AttemptedAlone(s.outgoing, j, k);
    }
    forall k: nat, w: nat ensures Tallied(s, k, w) == Tallied(t, k, w) + if AttemptedIn(x, k, w) then 1 else 0 {
      TallyWithout(k, w, s.outgoing, j);
    }
  }

  lemma AttemptedAcknowledge(s: Sender)
    requires Valid(s)
    ensures forall x :: x in s.outgoing && x.attempts >= 1 ==> x.message.command.acknowledge
    ensures s.inTransit == Bytes(s.sent) < WORD && AttemptedFirst(s.outgoing) && AllAttempted(s.sent)
  {
    hide MessageOk, AllCount, AttemptedFirst, Bytes, AllAttempted;
  }

  lemma BytesWithout(a: seq<OutgoingCommand>, i: nat)
    requires i < |a|
    ensures Bytes(a) == Length(a[i].message) + Bytes(Without(a, i))
  {
    RemovedFrom(0, a, i);
  }

  lemma AttemptedAlone(a: seq<OutgoingCommand>, i: nat, k: nat)
    requires i < |a| && a[i].attempts >= 1
    ensures Flight(k, a) == Flight(k, Without(a, i))
            + (if Reliable(a[i].message, k) then multiset{a[i].message.serial} else multiset{})
    ensures Waiting(k, Without(a, i)) == Waiting(k, a)
  {
    RemovedFrom(k, a, i);
    assert Flight(k, [a[i]]) == if Reliable(a[i].message, k) then multiset{a[i].message.serial} else multiset{};
    assert Waiting(k, [a[i]]) == [];
  }

  /** A command waiting to be sent again cannot be missed: if an acknowledgement's number is in
      flight, the search finds the command. */
  lemma RemovalFinds(s: Sender, number: u16, c: byte, n: nat)
    requires Valid(s) && WindowsCounted(s) && c < |s.channels| && Names(s, c, number, n)
    ensures RemoveSent(s, number, c).removed != []
  {
    hide Discounted, AllCount, AttemptedFirst, SearchAgain, SearchSent, Flight;
    AttemptedAcknowledge(s);
    SearchAgainFinds(s.outgoing, number, c);
    FlightHas(c, s.outgoing, n);
    FlightHas(c, s.sent, n);
    if n in Flight(c, s.sent) {
      var i :| 0 <= i < |s.sent| && Attempted(s.sent[i], c) && s.sent[i].message.serial == n;
      MessageIsOk(s, s.sent[i]);
      assert Answers(s.sent[i].message, number, c);
    } else {
      var j :| 0 <= j < |s.outgoing| && Attempted(s.outgoing[j], c) && s.outgoing[j].message.serial == n;
      MessageIsOk(s, s.outgoing[j]);
      assert Answers(s.outgoing[j].message, number, c);
    }
  }

  lemma RemovedIsNamed(s: Sender, t: Sender, x: OutgoingCommand, c: byte, number: u16)
    requires Valid(s) && c < |s.channels| && TakenOut(s, t, x) && Answers(x.message, number, c)
    ensures Names(s, c, number, x.message.serial)
    ensures Reliable(x.message, c)
    ensures number / RELIABLE_WINDOW_SIZE == WindowOf(x.message.serial) % RELIABLE_WINDOWS
  {
    hide AllCount, AttemptedFirst, MessagesOk, AllAttempted, InFlight, Waiting, Bytes;
    MessageIsOk(s, x);
    WireWindowOf(x.message.serial);
    assert x.message.serial in InFlight(t, c) + multiset{x.message.serial};
  }

  lemma TakenOutLists(s: Sender, t: Sender, x: OutgoingCommand)
    requires Valid(s) && TakenOut(s, t, x)
    ensures MessagesOk(t.outgoing, |s.channels|, s.mtu) && MessagesOk(t.sent, |s.channels|, s.mtu)
    ensures AllAttempted(t.sent)
    ensures Held(t) <= Held(s)
  {
    hide AllCount, AttemptedFirst, InFlight, Waiting, Bytes, MessageOk;
    forall y | y in t.outgoing + t.sent ensures y.message in Held(s) {
      assert y in s.outgoing + s.sent;
    }
  }

  lemma RemovalDiscounts(s: Sender, number: u16, c: byte)
    requires WindowsCounted(s)
    ensures var r := RemoveSent(s, number, c); r.removed != [] ==> r.s.channels == Discounted(s, number, c)
  {
    hide Discounted, SearchAgain, SearchSent, Without;
  }

  lemma CountedDownOnly(ch: SendChannel, w: nat)
    requires w < |ch.reliableWindows| == RELIABLE_WINDOWS
    ensures var ch' := CountedDown(ch, w);
            ch'.number == ch.number && ch'.issued == ch.issued && ch'.launched == ch.launched
  {
    hide Unmarked;
  }

  lemma CountedDownMarks(ch: SendChannel, w: nat)
    requires Marks(ch.usedReliableWindows, ch.reliableWindows) && w < RELIABLE_WINDOWS && ch.reliableWindows[w] > 0
    ensures var ch' := CountedDown(ch, w);
            Marks(ch'.usedReliableWindows, ch'.reliableWindows)
            && ch'.reliableWindows == ch.reliableWindows[w := ch.reliableWindows[w] - 1]
  {
    hide Unmarked, Bit;
    UnmarkedCounts(ch.usedReliableWindows, ch.reliableWindows, w);
  }

  lemma TakenOutCounts(s: Sender, number: u16, c: byte, k: nat)
    requires Valid(s) && WindowsCounted(s) && k < |s.channels| && RemoveSent(s, number, c).removed != []
    ensures Counts(RemoveSent(s, number, c).s, k)
  {
    hide CountedDown, Marks, Tally, InFlight, Waiting, MessagesOk, AttemptedFirst, AllAttempted, Bytes, RemoveSent,
         Wire;
    RemovalTakesOut(s, number, c);
    RemovalDiscounts(s, number, c);
    var t := RemoveSent(s, number, c).s;
    var x := RemoveSent(s, number, c).removed[0];
    assert Counts(s, k);
    assert forall w: nat :: AttemptedIn(x, k, w) <==> k == c && w == number / RELIABLE_WINDOW_SIZE;
    forall w: nat
      ensures Tally(k, w, s.outgoing) + Tally(k, w, s.sent)
              == Tally(k, w, t.outgoing) + Tally(k, w, t.sent) + if AttemptedIn(x, k, w) then 1 else 0
    {
      assert Tallied(s, k, w) == Tallied(t, k, w) + if AttemptedIn(x, k, w) then 1 else 0;
    }
    if k == c {
      var w := number / RELIABLE_WINDOW_SIZE;
      assert s.channels[k].reliableWindows[w] == Tallied(s, k, w);
      CountedDownOnly(s.channels[c], w);
      CountedDownMarks(s.channels[c], w);
    }
  }

  lemma TakenOutKeepsChannel(s: Sender, number: u16, c: byte, k: nat)
    requires Valid(s) && WindowsCounted(s) && Orderly(s, k) && RemoveSent(s, number, c).removed != []
    ensures Orderly(RemoveSent(s, number, c).s, k)
  {
    hide FlightBound, Marks, CountedDown, InFlight, Waiting, MessagesOk, AttemptedFirst, AllAttempted, Bytes,
         RemoveSent,
        Wire, AllCount;
    RemovalTakesOut(s, number, c);
    RemovalDiscounts(s, number, c);
    var t := RemoveSent(s, number, c).s;
    var x := RemoveSent(s, number, c).removed[0];
    if k == c {
      RemovedIsNamed(s, t, x, c, number);
      SettleKeepsBound(s.channels[c].launched, s.channels[c].reliableWindows, InFlight(s, c), x.message.serial);
      CountedDownWindows(s.channels[c], number / RELIABLE_WINDOW_SIZE);
      CountedDownOnly(s.channels[c], number / RELIABLE_WINDOW_SIZE);
      assert InFlight(t, c) == InFlight(s, c) - multiset{x.message.serial};
    } else {
      assert InFlight(t, k) == InFlight(s, k);
    }
  }

  lemma CountedDownWindows(ch: SendChannel, w: nat)
    requires w < |ch.reliableWindows| == RELIABLE_WINDOWS && ch.reliableWindows[w] > 0
    ensures CountedDown(ch, w).reliableWindows == ch.reliableWindows[w := ch.reliableWindows[w] - 1]
  {
    hide Unmarked;
  }

  lemma RemovalKeepsHistory(s: Sender, number: u16, c: byte)
    requires WindowsCounted(s)
    ensures var t := RemoveSent(s, number, c).s;
            && |t.channels| == |s.channels|
            && forall k: nat :: k < |s.channels| ==>
                 t.channels[k].launched == s.channels[k].launched && t.channels[k].issued == s.channels[k].issued
  {
    hide CountedDown, SearchAgain, SearchSent, Without;
    if c < |s.channels| {
      CountedDownOnly(s.channels[c], number / RELIABLE_WINDOW_SIZE);
    }
  }

  /** An acknowledgement takes out of flight exactly the one command whose number it carries, if
      any is in flight, and changes nothing otherwise. */
  lemma RemoveSentSettles(s: Sender, number: u16, c: byte)
    requires Valid(s)
    ensures WindowsCounted(s)
    ensures var t := RemoveSent(s, number, c).s;
            && Valid(t) && |t.channels| == |s.channels| && t.mtu == s.mtu && Held(t) <= Held(s)
            && (forall k: nat :: k < |s.channels| ==>
                  t.channels[k].launched == s.channels[k].launched && t.channels[k].issued == s.channels[k].issued)
            && (forall k: nat :: k < |s.channels| && Orderly(s, k) ==> Orderly(t, k))
            && (forall k: nat, n :: k < |s.channels| && Orderly(s, k) ==>
                  (Settled(t, k, n) <==> Settled(s, k, n) || (k == c && Names(s, c, number, n))))
  {
    hide MessagesOk, AttemptedFirst, AllAttempted, Bytes, Counts, Waiting, Held, RemoveSent, InFlight, Orderly;
    ValidCounts(s);
    RemovalKeepsHistory(s, number, c);
    var r := RemoveSent(s, number, c);
    if r.removed != [] {
      var x := r.removed[0];
      RemovalTakesOut(s, number, c);
      TakenOutLists(s, r.s, x);
      forall k: nat | k < |s.channels| ensures Counts(r.s, k) {
        TakenOutCounts(s, number, c, k);
      }
      forall k: nat | k < |s.channels| && Orderly(s, k)
        ensures Orderly(r.s, k)
        ensures forall n :: Settled(r.s, k, n) <==> Settled(s, k, n) || (k == c && Names(s, c, number, n))
      {
        TakenOutKeepsChannel(s, number, c, k);
        OrderlyExists(s, k);
        SettledByRemoval(s, r.s, x, number, c, k);
      }
    } else {
      NothingRemoved(s, number, c);
    }
  }

  lemma NothingRemoved(s: Sender, number: u16, c: byte)
    requires Valid(s) && WindowsCounted(s) && RemoveSent(s, number, c).removed == []
    ensures RemoveSent(s, number, c).s == s
    ensures c < |s.channels| ==> forall n :: !Names(s, c, number, n)
  {
    hide Valid, Names, SearchAgain, SearchSent;
    if c < |s.channels| {
      forall n ensures !Names(s, c, number, n) {
        if Names(s, c, number, n) {
          RemovalFinds(s, number, c, n);
        }
      }
    }
  }

  lemma SettledByRemoval(s: Sender, t: Sender, x: OutgoingCommand, number: u16, c: byte, k: nat)
    requires Valid(s) && Orderly(s, k) && TakenOut(s, t, x) && Answers(x.message, number, c)
    requires t.channels[k].launched == s.channels[k].launched
    ensures forall n :: Settled(t, k, n) <==> Settled(s, k, n) || (k == c && Names(s, c, number, n))
  {
    hide MessagesOk, AttemptedFirst, AllAttempted, Bytes, Waiting, InFlight, AllCount;
    BoundOf(s, k);
    if k == c {
      RemovedIsNamed(s, t, x, c, number);
      forall n | Names(s, c, number, n) ensures n == x.message.serial {
        FlightIsDistinct(s.channels[k].launched, s.channels[k].reliableWindows, InFlight(s, k), n, x.message.serial);
      }
    }
  }
}
