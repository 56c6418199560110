/** What the packet throttle does over time: of every 32 unreliable packets in a row it lets a fixed number
    through, whatever came before (src/enet/protocol.c:1489-1494). */
module ThrottleShare {
  import opened Words
  import opened Outgoing
  import opened SendPass

  /** The counter at the n-th packet from one on. */
  function CounterAt(c: nat, n: nat): nat {
    if n == 0 then c else (CounterAt(c, n - 1) + PACKET_THROTTLE_COUNTER) % PACKET_THROTTLE_SCALE
  }

  /** How many of the first n packets go through. */
  function Through(c: nat, n: nat, limit: int): nat {
    if n == 0 then 0 else Through(c, n - 1, limit) + if CounterAt(c, n) <= limit then 1 else 0
  }

  /** How many of the first n meet the counter at r. */
  function Meeting(c: nat, n: nat, r: nat): nat {
    if n == 0 then 0 else Meeting(c, n - 1, r) + if CounterAt(c, n) == r then 1 else 0
  }

  lemma {:induction false} CounterIs(c: nat, n: nat)
    requires c < 32
    ensures CounterAt(c, n) == (c + 7 * n) % 32
  {
    if n > 0 {
      CounterIs(c, n - 1);
      StepsBy(c + 7 * (n - 1));
    }
  }

  lemma StepsBy(a: nat)
    ensures (a % 32 + 7) % 32 == (a + 7) % 32
  {
  }

  /** The packet that meets the counter at r. */
  function Meets(c: nat, r: nat): (n: nat)
    requires c < 32 && r < 32
    ensures 1 <= n <= 32
  {
    (23 * (r + 32 - c) + 31) % 32 + 1
  }

  /** Adding 7 modulo 32 goes through all remainders. */
  lemma MeetsOnce(c: nat, n: nat, r: nat)
    requires c < 32 && r < 32 && 1 <= n <= 32
    ensures (c + 7 * n) % 32 == r <==> n == Meets(c, r)
  {
    var m := Meets(c, r);
    var y := 23 * (r + 32 - c) + 31;
    RemainderIs(c + 7 * m, 5 * r + 168 - 5 * c - 7 * (y / 32), r);
    var q := (c + 7 * n) / 32;
    if (c + 7 * n) % 32 == r {
      SevenIsPrime(n - m, q - (5 * r + 168 - 5 * c - 7 * (y / 32)));
    }
  }

  lemma RemainderIs(a: int, q: int, r: nat)
    requires a == q * 32 + r && r < 32
    ensures a % 32 == r
  {
  }

  lemma SevenIsPrime(a: int, b: int)
    requires -32 < a < 32 && 7 * a == 32 * b
    ensures a == 0
  {
  }

  lemma {:induction false} MeetingIs(c: nat, n: nat, r: nat)
    requires c < 32 && r < 32 && n <= 32
    ensures Meeting(c, n, r) == if Meets(c, r) <= n then 1 else 0
  {
    if n > 0 {
      MeetingIs(c, n - 1, r);
      CounterIs(c, n);
      MeetsOnce(c, n, r);
    }
  }

  lemma {:induction false} ThroughAdds(c: nat, n: nat, limit: nat)
    ensures Through(c, n, limit) == Through(c, n, limit - 1) + Meeting(c, n, limit)
  {
    if n > 0 {
      ThroughAdds(c, n - 1, limit);
    }
  }

  lemma {:induction false} ThroughNone(c: nat, n: nat, limit: int)
    requires limit < 0
    ensures Through(c, n, limit) == 0
  {
    if n > 0 {
      ThroughNone(c, n - 1, limit);
    }
  }

  lemma {:induction false} ThroughIs(c: nat, n: nat, limit: int)
    requires c < 32 && n == 32 && -1 <= limit < 32
    ensures Through(c, n, limit) == limit + 1
    decreases limit
  {
    if limit < 0 {
      ThroughNone(c, n, limit);
    } else {
      ThroughIs(c, n, limit - 1);
      ThroughAdds(c, n, limit);
      MeetingIs(c, n, limit);
    }
  }

  lemma {:induction false} ThroughAll(c: nat, n: nat, limit: int)
    requires c < 32 && limit >= 31
    ensures Through(c, n, limit) == n
  {
    if n > 0 {
      ThroughAll(c, n - 1, limit);
      CounterIs(c, n);
    }
  }

  /** A throttle of t lets t + 1 of any 32 packets in a row through, and 31 or 32 all of them. */
  lemma ThrottleLetsThrough(s: Sender, e: Settings)
    requires s.throttleCounter < 32
    ensures Through(s.throttleCounter, 32, e.packetThrottle) == if e.packetThrottle < 32 then e.packetThrottle + 1
                                                                else 32
    ensures NextCounter(s) == CounterAt(s.throttleCounter, 1)
  {
    if e.packetThrottle < 32 {
      ThroughIs(s.throttleCounter, 32, e.packetThrottle);
    } else {
      ThroughAll(s.throttleCounter, 32, e.packetThrottle);
    }
    assert CounterAt(s.throttleCounter, 0) == s.throttleCounter;
  }
}
