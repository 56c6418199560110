/** When a command counts as overdue, how its timeout grows, and when a sweep gives the connection up
    (src/enet/protocol.c:1333-1384, src/enet/times.h), in times that do not wrap around. */
module GivingUp {
  import opened Words
  import opened Windows
  import opened Outgoing
  import opened SendPass
  import opened Resend
  import opened Timeouts

  // ---- the clock ----

  /** As long as two times are less than a day apart, the 32-bit clock tells their distance and their
      order, across the wrap-around of the clock. */
  lemma ClockTells(a: nat, b: nat)
    requires a < b + 86400000 && b < a + 86400000
    ensures TimeDifference(a % WORD, b % WORD) == if a >= b then a - b else b - a
    ensures TimeLess(a % WORD, b % WORD) <==> a < b
  {
    ModOfDifference(a, b);
    ModOfDifference(b, a);
  }

  lemma ModOfDifference(a: nat, b: nat)
    requires a < b + 86400000 && b < a + 86400000
    ensures (a % WORD - b % WORD) % WORD == if a >= b then a - b else a - b + WORD
  {
    assert a % WORD - b % WORD == a - b - (a / WORD - b / WORD) * WORD;
    Shifts(a - b, a / WORD - b / WORD);
  }

  lemma Shifts(n: int, k: int)
    ensures (n - k * WORD) % WORD == n % WORD
  {
  }

  /** A command is overdue once it has been out for its timeout. */
  lemma OverdueIff(x: OutgoingCommand, sent: nat, now: nat)
    requires x.sentTime == sent % WORD && sent <= now < sent + 86400000
    ensures Expired(x, now % WORD) <==> now - sent >= x.timeout
  {
    ClockTells(now, sent);
  }

  // ---- the backoff ----

  /** A command sent with each of the settings in turn, and overdue every time. */
  function Retried(x: OutgoingCommand, es: seq<Settings>): OutgoingCommand {
    if es == [] then x else BackedOff(Stamped(Retried(x, es[..|es| - 1]), es[|es| - 1]))
  }

  function Doubled(n: nat, k: nat): nat {
    if k == 0 then n else 2 * Doubled(n, k - 1)
  }

  lemma {:induction false} DoubledGrows(n: nat, a: nat, b: nat)
    requires a <= b
    ensures Doubled(n, a) <= Doubled(n, b)
  {
    if a < b {
      DoubledGrows(n, a, b - 1);
    }
  }

  /** The first timeout is the round-trip time and four times its variance, as they are then, and every
      time the command is overdue it doubles; the limit is fixed at the first sending. */
  lemma {:induction false} TimeoutDoubles(x: OutgoingCommand, es: seq<Settings>)
    requires x.attempts == 0 && x.timeout == 0 && es != []
    requires var first := es[0].roundTripTime + 4 * es[0].roundTripTimeVariance;
             0 < first && Doubled(first, |es|) < WORD && es[0].timeoutLimit * first < WORD
    ensures var first := es[0].roundTripTime + 4 * es[0].roundTripTimeVariance;
            && Retried(x, es).timeout == Doubled(first, |es|)
            && Retried(x, es).timeoutLimit == es[0].timeoutLimit * first
            && Retried(x, es).attempts == |es|
            && Retried(x, es).message == x.message
  {
    hide Stamped, BackedOff;
    var n := |es| - 1;
    var first := es[0].roundTripTime + 4 * es[0].roundTripTimeVariance;
    DoubledGrows(first, 1, |es|);
    if n == 0 {
      assert es[..0] == [];
      FirstRound(x, es[0]);
    } else {
      DoubledGrows(first, n, |es|);
      DoubledGrows(first, 0, n);
      TimeoutDoubles(x, es[..n]);
      NextRound(Retried(x, es[..n]), es[n]);
    }
  }

  lemma FirstRound(x: OutgoingCommand, e: Settings)
    requires x.timeout == 0
    requires var first := e.roundTripTime + 4 * e.roundTripTimeVariance;
             2 * first < WORD && e.timeoutLimit * first < WORD
    ensures var first := e.roundTripTime + 4 * e.roundTripTimeVariance; var y := BackedOff(Stamped(x, e));
            && y.timeout == 2 * first && y.timeoutLimit == e.timeoutLimit * first
            && y.attempts == x.attempts + 1 && y.message == x.message
  {
    var first := e.roundTripTime + 4 * e.roundTripTimeVariance;
    NoWrap(first);
    NoWrap(2 * first);
    var limit := e.timeoutLimit * first;
    assert limit >= 0;
    NoWrap(limit);
    assert Stamped(x, e).timeout == first && Stamped(x, e).timeoutLimit == limit % WORD;
  }

  lemma NoWrap(n: nat)
    requires n < WORD
    ensures n % WORD == n
  {
  }

  lemma NextRound(x: OutgoingCommand, e: Settings)
    requires 0 < x.timeout && 2 * x.timeout < WORD
    ensures var y := BackedOff(Stamped(x, e));
            && y.timeout == 2 * x.timeout && y.timeoutLimit == x.timeoutLimit
            && y.attempts == x.attempts + 1 && y.message == x.message
  {
  }

  /** With the usual limit of 32 it is reached when the command has been sent five times. */
  lemma LimitAfterFive(x: OutgoingCommand, es: seq<Settings>)
    requires x.attempts == 0 && x.timeout == 0 && es != [] && es[0].timeoutLimit == 32
    requires var first := es[0].roundTripTime + 4 * es[0].roundTripTimeVariance;
             0 < first && Doubled(first, |es|) < WORD && 32 * first < WORD
    ensures Retried(x, es).timeout >= Retried(x, es).timeoutLimit <==> |es| >= 5
  {
    var first := es[0].roundTripTime + 4 * es[0].roundTripTimeVariance;
    TimeoutDoubles(x, es);
    assert Doubled(first, 1) == 2 * first;
    assert Doubled(first, 2) == 4 * first;
    assert Doubled(first, 3) == 8 * first;
    assert Doubled(first, 4) == 16 * first;
    assert Doubled(first, 5) == 32 * first;
    if |es| >= 5 {
      DoubledGrows(first, 5, |es|);
    } else {
      DoubledGrows(first, |es|, 4);
    }
  }

  // ---- giving up ----

  /** The earliest sending among the overdue commands and the ones before them; 0 stands for none. */
  function EarliestOverdue(earliest: u32, cmds: seq<OutgoingCommand>, now: u32): u32
    decreases |cmds|
  {
    if cmds == [] then earliest
    else
      EarliestOverdue(if Expired(cmds[0], now) then Earliest(cmds[0], earliest) else earliest, cmds[1..], now)
  }

  /** Too long without an answer: the maximum has passed since then, or the minimum and the command is
      at the limit of its backoff. */
  predicate TooLong(x: OutgoingCommand, since: u32, t: Clock) {
    since != 0 && (|| TimeDifference(t.now, since) >= t.maximum
                   || (TimeDifference(t.now, since) >= t.minimum && x.timeout >= x.timeoutLimit))
  }

  /** Some overdue command has been without an answer too long. */
  ghost predicate Hopeless(earliest: u32, cmds: seq<OutgoingCommand>, t: Clock) {
    exists i :: 0 <= i < |cmds| && Expired(cmds[i], t.now)
                && TooLong(cmds[i], EarliestOverdue(earliest, cmds[..i + 1], t.now), t)
  }

  lemma HopelessUnfolds(earliest: u32, cmds: seq<OutgoingCommand>, t: Clock)
    requires cmds != []
    ensures var first := if Expired(cmds[0], t.now) then Earliest(cmds[0], earliest) else earliest;
            Hopeless(earliest, cmds, t) <==> (Expired(cmds[0], t.now) && TooLong(cmds[0], first, t))
                                             || Hopeless(first, cmds[1..], t)
  {
    hide Expired, Earliest, TooLong;
    var first := if Expired(cmds[0], t.now) then Earliest(cmds[0], earliest) else earliest;
    var rest := cmds[1..];
    forall i: nat | i < |cmds|
      ensures EarliestOverdue(earliest, cmds[..i + 1], t.now) == EarliestOverdue(first, rest[..i], t.now)
    {
      assert cmds[..i + 1][1..] == rest[..i];
    }
    assert rest[..0] == [];
    if Hopeless(first, rest, t) {
      var i :| 0 <= i < |rest| && Expired(rest[i], t.now)
               && TooLong(rest[i], EarliestOverdue(first, rest[..i + 1], t.now), t);
      assert rest[i] == cmds[i + 1];
    }
    if Hopeless(earliest, cmds, t) {
      var i :| 0 <= i < |cmds| && Expired(cmds[i], t.now)
               && TooLong(cmds[i], EarliestOverdue(earliest, cmds[..i + 1], t.now), t);
      assert i > 0 ==> rest[i - 1] == cmds[i];
    }
  }

  /** One turn of the sweep leaves the commands it has not come to, and remembers the earliest. */
  lemma StepRemembers(w: Sweep, t: Clock)
    requires w.at < |w.s.sent| && w.moved <= |w.s.outgoing| && !w.gaveUp
    ensures var x := w.s.sent[w.at];
            var first := if Expired(x, t.now) then Earliest(x, w.s.earliestTimeout) else w.s.earliestTimeout;
            var v := Step(w, t);
            && v.gaveUp == (Expired(x, t.now) && TooLong(x, first, t))
            && v.s.earliestTimeout == first
            && (!v.gaveUp ==> v.at <= |v.s.sent| && v.s.sent[v.at..] == w.s.sent[w.at..][1..])
  {
    hide Expired, Earliest, TimeDifference;
  }

  lemma {:induction false} SweepGivesUpIff(w: Sweep, t: Clock)
    requires w.at <= |w.s.sent| && w.moved <= |w.s.outgoing| && !w.gaveUp
    ensures SweepOn(w, t).gaveUp <==> Hopeless(w.s.earliestTimeout, w.s.sent[w.at..], t)
    decreases |w.s.sent| - w.at
  {
    hide Step, Expired, Earliest, TooLong;
    if w.at < |w.s.sent| {
      StepRemembers(w, t);
      StepProgress(w, t);
      HopelessUnfolds(w.s.earliestTimeout, w.s.sent[w.at..], t);
      if !Step(w, t).gaveUp {
        SweepGivesUpIff(Step(w, t), t);
      }
    }
  }

  /** A sweep gives the connection up if and only if one of the overdue commands has been without an
      answer too long. */
  lemma GivesUpIff(s: Sender, t: Clock)
    ensures CheckTimeouts(s, t).gaveUp <==> Hopeless(s.earliestTimeout, s.sent, t)
  {
    assert s.sent[0..] == s.sent;
    SweepGivesUpIff(Sweep(s, 0, 0, false), t);
  }

  // ---- the same in times that do not wrap ----

  /** times[i] is when cmds[i] was sent: less than a day ago, and not when the clock stood at 0. */
  predicate SentAt(cmds: seq<OutgoingCommand>, times: seq<nat>, now: nat) {
    && |times| == |cmds|
    && forall i :: 0 <= i < |cmds| ==>
         cmds[i].sentTime == times[i] % WORD != 0 && times[i] <= now < times[i] + 86400000
  }

  predicate Late(x: OutgoingCommand, sent: nat, now: nat) {
    now - sent >= x.timeout
  }

  /** The earliest of start and the sendings of the overdue commands. */
  ghost predicate IsFirst(first: nat, start: nat, cmds: seq<OutgoingCommand>, times: seq<nat>, now: nat)
    requires |times| == |cmds|
  {
    && first <= start <= now < first + 86400000
    && (forall i :: 0 <= i < |cmds| && Late(cmds[i], times[i], now) ==> first <= times[i])
    && (first == start || exists i :: 0 <= i < |cmds| && Late(cmds[i], times[i], now) && first == times[i])
  }

  lemma FirstOfMore(first: nat, start: nat, cmds: seq<OutgoingCommand>, times: seq<nat>, now: nat)
    requires |times| == |cmds| && cmds != [] && start <= now
    requires var next := if Late(cmds[0], times[0], now) && times[0] < start then times[0] else start;
             IsFirst(first, next, cmds[1..], times[1..], now)
    ensures IsFirst(first, start, cmds, times, now)
  {
    hide Late;
    var next := if Late(cmds[0], times[0], now) && times[0] < start then times[0] else start;
    forall i | 0 <= i < |cmds| && Late(cmds[i], times[i], now) ensures first <= times[i] {
      if i > 0 {
        assert cmds[1..][i - 1] == cmds[i] && times[1..][i - 1] == times[i];
      }
    }
    if first != next {
      var i :| 0 <= i < |cmds[1..]| && Late(cmds[1..][i], times[1..][i], now) && first == times[1..][i];
      assert cmds[i + 1] == cmds[1..][i] && times[i + 1] == times[1..][i];
    }
  }

  /** The earliest overdue command is the one sent first. */
  lemma {:induction false} EarliestIsFirst(start: nat, cmds: seq<OutgoingCommand>, times: seq<nat>, now: nat)
    returns (first: nat)
    requires SentAt(cmds, times, now)
    requires start % WORD != 0 && start <= now < start + 86400000
    ensures IsFirst(first, start, cmds, times, now)
    ensures EarliestOverdue(start % WORD, cmds, now % WORD) == first % WORD != 0
  {
    if cmds == [] {
      first := start;
    } else {
      hide Late, Expired;
      NextEarliest(start, cmds[0], times[0], now);
      var next := if Late(cmds[0], times[0], now) && times[0] < start then times[0] else start;
      first := EarliestIsFirst(next, cmds[1..], times[1..], now);
      FirstOfMore(first, start, cmds, times, now);
    }
  }

  lemma NextEarliest(start: nat, x: OutgoingCommand, sent: nat, now: nat)
    requires x.sentTime == sent % WORD && sent <= now < sent + 86400000
    requires start % WORD != 0 && start <= now < start + 86400000
    ensures var next := if Late(x, sent, now) && sent < start then sent else start;
            (if Expired(x, now % WORD) then Earliest(x, start % WORD) else start % WORD) == next % WORD
  {
    OverdueIff(x, sent, now);
    ClockTells(sent, start);
  }
}
