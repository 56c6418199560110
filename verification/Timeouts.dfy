/** Commands that have waited too long for their acknowledgement (enet_protocol_check_timeouts,
    src/enet/protocol.c:1333-1384, with the time arithmetic of src/enet/times.h). */
module Timeouts {
  import opened Words
  import opened Windows
  import opened Outgoing
  import opened SendPass
  import opened PassInvariant
  import opened Resend

  const TIME_OVERFLOW := 86400000

  function Elapsed(a: u32, b: u32): u32 {
    (a - b) % WORD
  }

  predicate TimeLess(a: u32, b: u32) {
    Elapsed(a, b) >= TIME_OVERFLOW
  }

  function TimeDifference(a: u32, b: u32): u32 {
    if Elapsed(a, b) >= TIME_OVERFLOW then Elapsed(b, a) else Elapsed(a, b)
  }

  datatype Clock = Clock(now: u32, minimum: u32, maximum: u32)

  predicate Expired(x: OutgoingCommand, now: u32) {
    TimeDifference(now, x.sentTime) >= x.timeout
  }

  function Earliest(x: OutgoingCommand, earliest: u32): u32 {
    if earliest == 0 || TimeLess(x.sentTime, earliest) then x.sentTime else earliest
  }

  /** The connection is given up: too long without an answer, or at the limit of the backoff. */
  predicate GivenUp(x: OutgoingCommand, earliest: u32, t: Clock) {
    && earliest != 0
    && (|| TimeDifference(t.now, earliest) >= t.maximum
        || (x.timeout >= x.timeoutLimit && TimeDifference(t.now, earliest) >= t.minimum))
  }

  function BackedOff(x: OutgoingCommand): OutgoingCommand {
    x.(timeout := x.timeout * 2 % WORD)
  }

  /** The loop: `at` walks the sent commands, `moved` of them have been put back at the front. */
  datatype Sweep = Sweep(s: Sender, at: nat, moved: nat, gaveUp: bool)

  function Step(w: Sweep, t: Clock): Sweep
    requires w.at < |w.s.sent| && w.moved <= |w.s.outgoing|
  {
    var x := w.s.sent[w.at];
    if !Expired(x, t.now) then w.(at := w.at + 1)
    else
      var s := w.s.(earliestTimeout := Earliest(x, w.s.earliestTimeout));
      if GivenUp(x, s.earliestTimeout, t) then w.(s := s, gaveUp := true)
      else
        var back := s.(inTransit := (s.inTransit - Length(x.message)) % WORD,
                       sent := Without(s.sent, w.at),
                       outgoing := s.outgoing[..w.moved] + [BackedOff(x)] + s.outgoing[w.moved..]);
        Sweep(if w.at == 0 then Retimed(back) else back, w.at, w.moved + 1, false)
  }

  function SweepOn(w: Sweep, t: Clock): Sweep
    requires w.moved <= |w.s.outgoing|
    decreases |w.s.sent| - w.at
  {
    if w.at >= |w.s.sent| then w else
      var v := Step(w, t);
      if v.gaveUp then v else SweepOn(v, t)
  }

  function CheckTimeouts(s: Sender, t: Clock): Sweep {
    SweepOn(Sweep(s, 0, 0, false), t)
  }

  // ---- what the sweep keeps ----

  ghost predicate SweepOk(w: Sweep) {
    && Valid(w.s) && w.moved <= |w.s.outgoing| && w.at <= |w.s.sent|
    && forall i :: 0 <= i < w.moved ==> w.s.outgoing[i].attempts >= 1
  }

  function Inserted(a: seq<OutgoingCommand>, i: nat, x: OutgoingCommand): seq<OutgoingCommand>
    requires i <= |a|
  {
    a[..i] + [x] + a[i..]
  }

  lemma InsertedLists(a: seq<OutgoingCommand>, i: nat, x: OutgoingCommand, c: nat)
    requires i <= |a| && x.attempts >= 1
    ensures Flight(c, Inserted(a, i, x)) == Flight(c, a)
            + (if Reliable(x.message, c) then multiset{x.message.serial} else multiset{})
    ensures Waiting(c, Inserted(a, i, x)) == Waiting(c, a)
  {
    var b := Inserted(a, i, x);
    assert Without(b, i) == a;
    assert b[i] == x;
    AttemptedAlone(b, i, c);
  }

  lemma InsertedAttempted(a: seq<OutgoingCommand>, i: nat, x: OutgoingCommand)
    requires i <= |a| && x.attempts >= 1 && AttemptedFirst(a) && forall j :: 0 <= j < i ==> a[j].attempts >= 1
    ensures AttemptedFirst(Inserted(a, i, x))
    ensures forall j :: 0 <= j < i + 1 ==> Inserted(a, i, x)[j].attempts >= 1
    ensures forall y :: y in Inserted(a, i, x) ==> y == x || y in a
  {
  }

  lemma ExpiredMoves(w: Sweep, s': Sender, k: nat)
    requires SweepOk(w) && w.at < |w.s.sent|
    requires var x := w.s.sent[w.at];
             s'.sent == Without(w.s.sent, w.at) && s'.outgoing == Inserted(w.s.outgoing, w.moved, BackedOff(x))
    ensures InFlight(s', k) == InFlight(w.s, k) && Waiting(k, s'.outgoing) == Waiting(k, w.s.outgoing)
  {
    hide Valid, Flight, Waiting;
    var x := w.s.sent[w.at];
    AttemptedAcknowledge(w.s);
    AttemptedAlone(w.s.sent, w.at, k);
    InsertedLists(w.s.outgoing, w.moved, BackedOff(x), k);
  }

  lemma ExpiredTallies(w: Sweep, s': Sender, k: nat, v: nat)
    requires SweepOk(w) && w.at < |w.s.sent|
    requires var x := w.s.sent[w.at];
             s'.sent == Without(w.s.sent, w.at) && s'.outgoing == Inserted(w.s.outgoing, w.moved, BackedOff(x))
    ensures Tally(k, v, s'.outgoing) + Tally(k, v, s'.sent) == Tally(k, v, w.s.outgoing) + Tally(k, v, w.s.sent)
  {
    hide Valid, Tally;
    var x := w.s.sent[w.at];
    TallyWithout(k, v, w.s.sent, w.at);
    TallyWithout(k, v, s'.outgoing, w.moved);
    assert Without(s'.outgoing, w.moved) == w.s.outgoing;
  }

  lemma RequeueKeepsOk(w: Sweep, s': Sender)
    requires SweepOk(w) && w.at < |w.s.sent|
    requires var x := w.s.sent[w.at];
             && s'.sent == Without(w.s.sent, w.at) && s'.outgoing == Inserted(w.s.outgoing, w.moved, BackedOff(x))
             && s'.channels == w.s.channels && s'.mtu == w.s.mtu
             && s'.inTransit == (w.s.inTransit - Length(x.message)) % WORD
    ensures SweepOk(Sweep(s', w.at, w.moved + 1, false)) && Keeps(w.s, s')
  {
    hide MessagesOk, AttemptedFirst, Bytes, Marks, Tally;
    RequeuedLists(w, s');
    BytesWithout(w.s.sent, w.at);
    forall k: nat | k < |w.s.channels| ensures Counts(s', k) {
      assert Counts(w.s, k);
      forall v: nat
        ensures Tally(k, v, s'.outgoing) + Tally(k, v, s'.sent) == Tally(k, v, w.s.outgoing) + Tally(k, v, w.s.sent)
      {
        ExpiredTallies(w, s', k, v);
      }
    }
  }

  lemma RequeuedLists(w: Sweep, s': Sender)
    requires SweepOk(w) && w.at < |w.s.sent|
    requires s'.sent == Without(w.s.sent, w.at)
    requires s'.outgoing == Inserted(w.s.outgoing, w.moved, BackedOff(w.s.sent[w.at]))
    ensures var n := |w.s.channels|; MessagesOk(s'.outgoing, n, w.s.mtu) && MessagesOk(s'.sent, n, w.s.mtu)
    ensures AttemptedFirst(s'.outgoing) && AllAttempted(s'.sent) && Held(s') <= Held(w.s)
    ensures forall i :: 0 <= i < w.moved + 1 ==> s'.outgoing[i].attempts >= 1
  {
    hide AttemptedFirst, Bytes, AllCount, MessageOk, Inserted, Without;
    var x := w.s.sent[w.at];
    InsertedAttempted(w.s.outgoing, w.moved, BackedOff(x));
    WithoutIsWithin(w.s.sent, w.at);
    forall y | y in s'.outgoing + s'.sent ensures y.message in Held(w.s) {
      if y == BackedOff(x) {
        assert x in w.s.outgoing + w.s.sent;
      } else {
        assert y in w.s.outgoing + w.s.sent;
      }
    }
  }

  lemma StepKeepsOk(w: Sweep, t: Clock)
    requires SweepOk(w) && w.at < |w.s.sent|
    ensures SweepOk(Step(w, t)) && Keeps(w.s, Step(w, t).s)
  {
    hide Keeps, MessagesOk, AttemptedFirst, Bytes, Counts, Held, AllAttempted, Expired, GivenUp;
    var x := w.s.sent[w.at];
    KeepsSelf(w.s);
    var s := w.s.(earliestTimeout := Earliest(x, w.s.earliestTimeout));
    TimesDoNotMatter(w.s, s);
    if Expired(x, t.now) && !GivenUp(x, s.earliestTimeout, t) {
      RequeueKeepsOk(w, Step(w, t).s);
    }
  }

  lemma TimesDoNotMatter(s: Sender, s': Sender)
    requires s' == s.(earliestTimeout := s'.earliestTimeout)
    ensures Valid(s) ==> Valid(s')
    ensures Keeps(s, s')
  {
    hide MessagesOk, AttemptedFirst, Bytes, AllAttempted, Tally, Marks;
    forall c: nat | c < |s.channels| && Valid(s) ensures Counts(s', c) {
      assert Counts(s, c);
    }
    SameHeld(s, s');
  }

  /** Timeouts put commands back without losing, acknowledging or reordering past any. */
  lemma {:induction false} TimeoutsKeepValid(w: Sweep, t: Clock)
    requires SweepOk(w)
    ensures SweepOk(SweepOn(w, t)) && Keeps(w.s, SweepOn(w, t).s)
    decreases |w.s.sent| - w.at
  {
    hide Valid, Keeps, Step;
    KeepsSelf(w.s);
    if w.at < |w.s.sent| {
      StepKeepsOk(w, t);
      StepProgress(w, t);
      if !Step(w, t).gaveUp {
        TimeoutsKeepValid(Step(w, t), t);
        KeepsTrans(w.s, Step(w, t).s, SweepOn(w, t).s);
      }
    }
  }

  lemma StepKeepsOrder(w: Sweep, t: Clock, c: nat)
    requires SweepOk(w) && w.at < |w.s.sent| && Orderly(w.s, c)
    ensures Orderly(Step(w, t).s, c) && ChannelKeeps(w.s, Step(w, t).s, c)
  {
    hide Valid, ChannelOk, Flight, Waiting, Settled, Expired, GivenUp, Without, BackedOff;
    var x := w.s.sent[w.at];
    var s' := Step(w, t).s;
    if Expired(x, t.now) && !GivenUp(x, Earliest(x, w.s.earliestTimeout), t) {
      ExpiredMoves(w, s', c);
    }
    SameKeepsChannel(w.s, s', c);
  }

  /** And the order of every channel. */
  lemma {:induction false} TimeoutsKeepOrder(w: Sweep, t: Clock, c: nat)
    requires SweepOk(w) && Orderly(w.s, c)
    ensures Orderly(SweepOn(w, t).s, c) && ChannelKeeps(w.s, SweepOn(w, t).s, c)
    decreases |w.s.sent| - w.at
  {
    hide Valid, Orderly, ChannelKeeps, Step;
    OrderlyExists(w.s, c);
    ChannelKeepsSelf(w.s, c);
    if w.at < |w.s.sent| {
      StepKeepsOk(w, t);
      StepKeepsOrder(w, t, c);
      StepProgress(w, t);
      if !Step(w, t).gaveUp {
        TimeoutsKeepOrder(Step(w, t), t, c);
        ChannelKeepsTrans(w.s, Step(w, t).s, SweepOn(w, t).s, c);
      }
    }
  }

  lemma StepProgress(w: Sweep, t: Clock)
    requires w.at < |w.s.sent| && w.moved <= |w.s.outgoing|
    ensures var v := Step(w, t);
            && v.moved <= |v.s.outgoing|
            && (!v.gaveUp ==> |v.s.sent| - v.at == |w.s.sent| - w.at - 1)
  {
  }

  // ---- what the sweep does ----

  function Overdue(cmds: seq<OutgoingCommand>, now: u32): seq<OutgoingCommand> {
    if cmds == [] then [] else (if Expired(cmds[0], now) then [BackedOff(cmds[0])] else []) + Overdue(cmds[1..], now)
  }

  function InTime(cmds: seq<OutgoingCommand>, now: u32): seq<OutgoingCommand> {
    if cmds == [] then [] else (if Expired(cmds[0], now) then [] else [cmds[0]]) + InTime(cmds[1..], now)
  }

  lemma StepMeans(w: Sweep, t: Clock)
    requires w.moved <= |w.s.outgoing| && w.at < |w.s.sent| && !Step(w, t).gaveUp
    ensures var v := Step(w, t); var late := Expired(w.s.sent[w.at], t.now);
            && v.moved <= |v.s.outgoing| && v.at <= |v.s.sent|
            && v.s.sent[v.at..] == w.s.sent[w.at + 1..]
            && v.s.sent[..v.at] == w.s.sent[..w.at] + (if late then [] else [w.s.sent[w.at]])
            && v.s.outgoing[..v.moved] == w.s.outgoing[..w.moved] + (if late then [BackedOff(w.s.sent[w.at])] else [])
            && v.s.outgoing[v.moved..] == w.s.outgoing[w.moved..]
  {
    hide Expired, GivenUp, BackedOff;
  }

  lemma {:induction false} SweepMeans(w: Sweep, t: Clock)
    requires w.moved <= |w.s.outgoing| && w.at <= |w.s.sent| && !SweepOn(w, t).gaveUp
    ensures var v := SweepOn(w, t);
            && v.s.sent == w.s.sent[..w.at] + InTime(w.s.sent[w.at..], t.now)
            && v.s.outgoing == w.s.outgoing[..w.moved] + Overdue(w.s.sent[w.at..], t.now) + w.s.outgoing[w.moved..]
    decreases |w.s.sent| - w.at
  {
    hide Expired, GivenUp, Step, BackedOff;
    if w.at >= |w.s.sent| {
      assert w.s.sent[w.at..] == [];
    } else {
      var x := w.s.sent[w.at];
      StepProgress(w, t);
      StepMeans(w, t);
      assert w.s.sent[w.at..][1..] == w.s.sent[w.at + 1..] && w.s.sent[w.at..][0] == x;
      SweepMeans(Step(w, t), t);
    }
  }

  /** Unless the connection is given up, the overdue commands, in order and with doubled timeouts,
      come to stand before all that was queued, and the others stay in flight. */
  lemma TimeoutsRequeueOverdue(s: Sender, t: Clock)
    requires !CheckTimeouts(s, t).gaveUp
    ensures var s' := CheckTimeouts(s, t).s;
            s'.sent == InTime(s.sent, t.now) && s'.outgoing == Overdue(s.sent, t.now) + s.outgoing
  {
    SweepMeans(Sweep(s, 0, 0, false), t);
    assert s.sent[0..] == s.sent && s.outgoing[0..] == s.outgoing;
  }
}
