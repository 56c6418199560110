/** The fair division of a host's bandwidth among its peers (enet_host_bandwidth_throttle,
    src/enet/host.c:336-499), over unbounded integers. */
module Bandwidth {
  import opened Words

  const THROTTLE_SCALE := 32
  const THROTTLE_INTERVAL := 1000

  datatype Peer = Peer(connected: bool, incomingBandwidth: nat, outgoingBandwidth: nat, outgoingDataTotal: nat,
      incomingDataTotal: nat,
                       packetThrottle: nat, packetThrottleLimit: nat, outgoingEpoch: u32, incomingEpoch: u32)

  /** What a peer may be sent in the time that has passed. */
  function Allowance(p: Peer, elapsed: nat): nat {
    p.incomingBandwidth * elapsed / 1000
  }

  function Throttle(bandwidth: int, dataTotal: int): (t: nat)
    requires 0 <= bandwidth || dataTotal <= bandwidth
    ensures t <= THROTTLE_SCALE
    ensures dataTotal <= bandwidth ==> t == THROTTLE_SCALE
    ensures 0 <= dataTotal ==> t * dataTotal <= bandwidth * THROTTLE_SCALE
    ensures dataTotal > bandwidth ==> bandwidth * 32 < (t + 1) * dataTotal
  {
    if dataTotal <= bandwidth then THROTTLE_SCALE
    else
      QuotientFits(bandwidth * THROTTLE_SCALE, dataTotal);
      ShareIsSmall(bandwidth, dataTotal);
      bandwidth * THROTTLE_SCALE / dataTotal
  }

  lemma QuotientFits(a: nat, b: nat)
    requires b > 0
    ensures a / b * b <= a < (a / b + 1) * b
  {
  }

  lemma ShareIsSmall(a: int, b: int)
    requires 0 <= a < b
    ensures 0 <= a * THROTTLE_SCALE / b <= THROTTLE_SCALE
  {
  }

  /** All of it, or as many 32nds of the data as the bandwidth allows: one more would be too many. */
  predicate IsCommon(throttle: nat, bandwidth: int, data: int) {
    if data <= bandwidth then throttle == 32
    else throttle <= 32 && throttle * data <= bandwidth * 32 < (throttle + 1) * data
  }

  /** A peer that its own limit holds back further than the common throttle. */
  predicate Exceeds(p: Peer, throttle: nat, elapsed: nat) {
    throttle * p.outgoingDataTotal / THROTTLE_SCALE > Allowance(p, elapsed)
  }

  predicate Adjustable(p: Peer, now: u32) {
    p.connected && p.incomingBandwidth != 0 && p.outgoingEpoch != now
  }

  function Limited(p: Peer, limit: nat): Peer {
    p.(packetThrottleLimit := limit, packetThrottle := if p.packetThrottle > limit then limit else p.packetThrottle,
       incomingDataTotal := 0, outgoingDataTotal := 0)
  }

  function OwnLimit(p: Peer, elapsed: nat): nat
    requires p.outgoingDataTotal > 0
  {
    Allowance(p, elapsed) * THROTTLE_SCALE / p.outgoingDataTotal
  }

  /** Held to its own limit, but to at least 1. */
  function Settled(p: Peer, now: u32, elapsed: nat): Peer
    requires p.outgoingDataTotal > 0
  {
    Limited(p, if OwnLimit(p, elapsed) == 0 then 1 else OwnLimit(p, elapsed)).(outgoingEpoch := now)
  }

  // ---- sums ----

  function Unsettled(ps: seq<Peer>, now: u32): nat {
    if ps == [] then 0
    else
      var p := ps[|ps| - 1];
      Unsettled(ps[..|ps| - 1], now) + if p.connected && p.outgoingEpoch != now then p.outgoingDataTotal else 0
  }

  function UnsettledCount(ps: seq<Peer>, now: u32): nat {
    if ps == [] then 0
    else
      var p := ps[|ps| - 1];
      UnsettledCount(ps[..|ps| - 1], now) + if p.connected && p.outgoingEpoch != now then 1 else 0
  }

  /** 32 times what the settled peers may be sent, leaving out those whose own limit is nothing. */
  function Granted(before: seq<Peer>, after: seq<Peer>, now: u32, elapsed: nat): nat
    requires |before| == |after|
  {
    if before == [] then 0
    else
      var n := |before| - 1;
      Granted(before[..n], after[..n], now, elapsed)
      + if before[n].connected && after[n].outgoingEpoch == now && before[n].outgoingDataTotal > 0
           && OwnLimit(before[n], elapsed) > 0
        then after[n].packetThrottleLimit * before[n].outgoingDataTotal else 0
  }

  /** What the settled peers may be sent by their own figures. */
  function Spent(before: seq<Peer>, after: seq<Peer>, now: u32, elapsed: nat): nat
    requires |before| == |after|
  {
    if before == [] then 0
    else
      var n := |before| - 1;
      Spent(before[..n], after[..n], now, elapsed)
      + if before[n].connected && after[n].outgoingEpoch == now then Allowance(before[n], elapsed) else 0
  }

  lemma {:induction false} SpentMoves(before: seq<Peer>, after: seq<Peer>, i: nat, q: Peer, now: u32, elapsed: nat)
    requires |before| == |after| && i < |after| && after[i].outgoingEpoch != now
    requires before[i].connected && q.outgoingEpoch == now
    ensures Spent(before, after[i := q], now, elapsed)
         == Spent(before, after, now, elapsed) + Allowance(before[i], elapsed)
    decreases |before|
  {
    hide Allowance;
    var n := |before| - 1;
    if i < n {
      SpentMoves(before[..n], after[..n], i, q, now, elapsed);
      assert after[i := q][..n] == after[..n][i := q];
    } else {
      assert after[i := q][..n] == after[..n];
    }
  }

  lemma {:induction false} NothingSpent(ps: seq<Peer>, now: u32, elapsed: nat)
    requires Unstamped(ps, now)
    ensures Spent(ps, ps, now, elapsed) == 0
  {
    if ps != [] {
      NothingSpent(ps[..|ps| - 1], now, elapsed);
    }
  }

  lemma {:induction false} SpentByStamps(before: seq<Peer>, mid: seq<Peer>, after: seq<Peer>, now: u32, elapsed: nat)
    requires |before| == |mid| == |after|
    requires forall i :: 0 <= i < |mid| ==> after[i].outgoingEpoch == mid[i].outgoingEpoch
    ensures Spent(before, after, now, elapsed) == Spent(before, mid, now, elapsed)
  {
    hide Allowance;
    if before != [] {
      var n := |before| - 1;
      SpentByStamps(before[..n], mid[..n], after[..n], now, elapsed);
    }
  }

  lemma {:induction false} UnsettledMoves(ps: seq<Peer>, i: nat, q: Peer, now: u32)
    requires i < |ps| && ps[i].connected && ps[i].outgoingEpoch != now && q.outgoingEpoch == now
    ensures Unsettled(ps[i := q], now) + ps[i].outgoingDataTotal == Unsettled(ps, now)
    ensures UnsettledCount(ps[i := q], now) + 1 == UnsettledCount(ps, now)
    decreases |ps|
  {
    var n := |ps| - 1;
    if i < n {
      UnsettledMoves(ps[..n], i, q, now);
      assert ps[i := q][..n] == ps[..n][i := q];
    } else {
      assert ps[i := q][..n] == ps[..n];
    }
  }

  lemma {:induction false} GrantedMoves(before: seq<Peer>, after: seq<Peer>, i: nat, q: Peer, now: u32, elapsed: nat)
    requires |before| == |after| && i < |after| && after[i] == before[i] && before[i].outgoingEpoch != now
    requires before[i].connected && before[i].outgoingDataTotal > 0 && q == Settled(before[i], now, elapsed)
    ensures Granted(before, after[i := q], now, elapsed) <= Granted(before, after, now, elapsed)
            + Allowance(before[i], elapsed) * THROTTLE_SCALE
    decreases |before|
  {
    var n := |before| - 1;
    if i < n {
      GrantedMoves(before[..n], after[..n], i, q, now, elapsed);
      assert after[i := q][..n] == after[..n][i := q];
    } else {
      assert after[i := q][..n] == after[..n];
      OwnLimitFits(before[i], elapsed);
    }
  }

  lemma OwnLimitFits(p: Peer, elapsed: nat)
    requires p.outgoingDataTotal > 0
    ensures OwnLimit(p, elapsed) * p.outgoingDataTotal <= Allowance(p, elapsed) * THROTTLE_SCALE
  {
    var a := Allowance(p, elapsed) * THROTTLE_SCALE;
    assert a / p.outgoingDataTotal * p.outgoingDataTotal + a % p.outgoingDataTotal == a;
  }

  /** A peer that exceeds its allowance has more data than that, so it can be subtracted. */
  lemma ExceedingFits(p: Peer, throttle: nat, elapsed: nat)
    requires throttle <= THROTTLE_SCALE && Exceeds(p, throttle, elapsed)
    ensures Allowance(p, elapsed) < p.outgoingDataTotal
    ensures Allowance(p, elapsed) * THROTTLE_SCALE < throttle * p.outgoingDataTotal
    ensures p.outgoingDataTotal > 0 && OwnLimit(p, elapsed) < THROTTLE_SCALE
  {
    var d := p.outgoingDataTotal;
    assert throttle * d <= THROTTLE_SCALE * d;
  }

  // ---- what is left unused ----

  /** What the settled peers have to send beyond their own figures. It stays in the data that the common
      throttle is a share of, although they will not send it. */
  function Excess(before: seq<Peer>, after: seq<Peer>, now: u32, elapsed: nat): int
    requires |before| == |after|
  {
    if before == [] then 0
    else
      var n := |before| - 1;
      Excess(before[..n], after[..n], now, elapsed)
      + if before[n].connected && after[n].outgoingEpoch == now
        then before[n].outgoingDataTotal - Allowance(before[n], elapsed) else 0
  }

  /** The data the common throttle is a share of is what the unsettled peers have to send and that
      excess, which is 0 only as long as nobody is settled. */
  lemma {:induction false} ExcessAddsUp(before: seq<Peer>, mid: seq<Peer>, now: u32, elapsed: nat)
    requires AllAdjusted(before, mid, now, elapsed) && Unstamped(before, now)
    ensures Unsettled(before, now) - Spent(before, mid, now, elapsed)
         == Unsettled(mid, now) + Excess(before, mid, now, elapsed)
    ensures Excess(before, mid, now, elapsed) >= 0
    ensures Excess(before, mid, now, elapsed) == 0 <==> mid == before
  {
    hide Allowance;
    if before != [] {
      var n := |before| - 1;
      ExcessAddsUp(before[..n], mid[..n], now, elapsed);
      assert Adjusted(before[n], mid[n], now, elapsed);
      assert before == before[..n] + [before[n]] && mid == mid[..n] + [mid[n]];
    }
  }

  /** So one step more for the unsettled peers would still be within the bandwidth if and only if the
      excess makes the quotient smaller. */
  lemma UnusedIff(throttle: nat, bandwidth: nat, unsettled: nat, excess: nat)
    requires IsCommon(throttle, bandwidth, unsettled + excess) && unsettled > 0 && throttle < 32
    ensures (throttle + 1) * unsettled <= bandwidth * 32
            <==> bandwidth * 32 / (unsettled + excess) < bandwidth * 32 / unsettled
  {
    var b := bandwidth * 32;
    QuotientFits(b, unsettled);
    QuotientFits(b, unsettled + excess);
    QuotientIs(b, unsettled + excess, throttle);
    var q := b / unsettled;
    if throttle + 1 <= q {
      Multiplied(throttle + 1, q, unsettled);
    } else {
      Multiplied(q + 1, throttle + 1, unsettled);
    }
  }

  lemma Multiplied(a: nat, b: nat, c: nat)
    requires a <= b
    ensures a * c <= b * c
  {
  }

  lemma QuotientIs(a: nat, b: nat, q: nat)
    requires b > 0 && q * b <= a < (q + 1) * b
    ensures a / b == q
  {
    if a / b < q {
      Multiplied(a / b + 1, q, b);
    } else if a / b > q {
      Multiplied(q + 1, a / b, b);
    }
  }

  /** Two peers have 100 bytes each for a host that may send 100; one of them takes no more than 10. The
      other is then held to 15/32, although 28/32 would do. */
  lemma LeavesUnused(limited: Peer, other: Peer, after: seq<Peer>, throttle: nat, now: u32)
    requires limited.connected && limited.incomingBandwidth == 10 && limited.outgoingDataTotal == 100
    requires other.connected && other.incomingBandwidth == 0 && other.outgoingDataTotal == 100
    requires limited.outgoingEpoch != now && other.outgoingEpoch != now
    requires AllLots([limited, other], after, throttle, now, 1000)
    requires var spent := Spent([limited, other], after, now, 1000);
             IsCommon(throttle, 100 - spent, Unsettled([limited, other], now) - spent)
    ensures after[1].packetThrottleLimit == 15
    ensures var spent := Spent([limited, other], after, now, 1000); IsCommon(28, 100 - spent, other.outgoingDataTotal)
  {
    var before := [limited, other];
    assert Lot(before[0], after[0], throttle, now, 1000) && Lot(before[1], after[1], throttle, now, 1000);
    TwoPeers(limited, other, after, now);
    assert Allowance(limited, 1000) == 10;
  }

  lemma TwoPeers(a: Peer, b: Peer, after: seq<Peer>, now: u32)
    requires |after| == 2
    ensures Spent([a, b], after, now, 1000)
         == (if a.connected && after[0].outgoingEpoch == now then Allowance(a, 1000) else 0)
            + (if b.connected && after[1].outgoingEpoch == now then Allowance(b, 1000) else 0)
    ensures Unsettled([a, b], now) == (if a.connected && a.outgoingEpoch != now then a.outgoingDataTotal else 0)
                                      + (if b.connected && b.outgoingEpoch != now then b.outgoingDataTotal else 0)
  {
    hide Allowance;
    var before := [a, b];
    assert before[..1] == [a] && [a][..0] == [] && after[..1][..0] == [];
    assert Unsettled([a], now) == if a.connected && a.outgoingEpoch != now then a.outgoingDataTotal else 0;
    assert Spent([a], after[..1], now, 1000)
        == if a.connected && after[0].outgoingEpoch == now then Allowance(a, 1000) else 0;
  }

  // ---- one peer's lot ----

  /** What the adjustment makes of a peer: left alone, or held to its own limit, which is less than
      what it has to send. */
  predicate Adjusted(p: Peer, q: Peer, now: u32, elapsed: nat) {
    || q == p
    || (p.connected && p.incomingBandwidth != 0 && p.outgoingEpoch != now
        && Allowance(p, elapsed) < p.outgoingDataTotal && q == Settled(p, now, elapsed))
  }

  predicate AllAdjusted(before: seq<Peer>, after: seq<Peer>, now: u32, elapsed: nat) {
    |before| == |after| && forall i :: 0 <= i < |before| ==> Adjusted(before[i], after[i], now, elapsed)
  }

  predicate Unstamped(ps: seq<Peer>, now: u32) {
    forall i :: 0 <= i < |ps| ==> ps[i].connected ==> ps[i].outgoingEpoch != now
  }

  /** The account of the adjustment: nothing is overdrawn, and what has been granted is paid for. */
  ghost predicate Balanced(before: seq<Peer>, after: seq<Peer>, now: u32, elapsed: nat, start: int, bandwidth: int,
      dataTotal: int) {
    && 0 <= bandwidth && Unsettled(after, now) <= dataTotal
    && |before| == |after|
    && Granted(before, after, now, elapsed) + bandwidth * THROTTLE_SCALE <= start * THROTTLE_SCALE
  }

  lemma SettlingBalances(before: seq<Peer>, after: seq<Peer>, i: nat, now: u32, elapsed: nat, start: int,
      bandwidth: int, dataTotal: int, throttle: nat)
    requires Balanced(before, after, now, elapsed, start, bandwidth, dataTotal)
    requires i < |after| && after[i] == before[i] && Adjustable(after[i], now)
    requires throttle <= THROTTLE_SCALE && Exceeds(after[i], throttle, elapsed)
    requires throttle * Unsettled(after, now) <= bandwidth * THROTTLE_SCALE
    ensures after[i].outgoingDataTotal > 0
    ensures var a := Allowance(after[i], elapsed); var q := Settled(after[i], now, elapsed);
            && Balanced(before, after[i := q], now, elapsed, start, bandwidth - a, dataTotal - a)
            && throttle * Unsettled(after[i := q], now) <= (bandwidth - a) * THROTTLE_SCALE
  {
    hide Granted, Unsettled, Exceeds, Allowance, Settled;
    ExceedingFits(after[i], throttle, elapsed);
    var q := Settled(after[i], now, elapsed);
    SettledStamp(after[i], now, elapsed);
    UnsettledMoves(after, i, q, now);
    GrantedMoves(before, after, i, q, now, elapsed);
    Distributes(throttle, Unsettled(after[i := q], now), after[i].outgoingDataTotal);
  }

  lemma Distributes(t: nat, a: nat, b: nat)
    ensures t * (a + b) == t * a + t * b && t * a >= 0
  {
  }

  lemma {:induction false} NothingGranted(ps: seq<Peer>, now: u32, elapsed: nat)
    requires Unstamped(ps, now)
    ensures Granted(ps, ps, now, elapsed) == 0
  {
    if ps != [] {
      NothingGranted(ps[..|ps| - 1], now, elapsed);
    }
  }

  /** What the division makes of a peer: held to its own limit, or given the common throttle, which
      is then within what it may be sent. */
  predicate Lot(p: Peer, q: Peer, throttle: nat, now: u32, elapsed: nat) {
    if !p.connected then q == p
    else
      || (p.incomingBandwidth != 0 && Allowance(p, elapsed) < p.outgoingDataTotal && q == Settled(p, now, elapsed))
      || (q == Limited(p, throttle) && (p.incomingBandwidth != 0 ==> !Exceeds(p, throttle, elapsed)))
  }

  predicate AllLots(before: seq<Peer>, after: seq<Peer>, throttle: nat, now: u32, elapsed: nat) {
    |before| == |after| && forall i :: 0 <= i < |before| ==> Lot(before[i], after[i], throttle, now, elapsed)
  }

  /** Raised from nothing to 1: such a peer may get more than its share. */
  predicate Raised(p: Peer, q: Peer, now: u32, elapsed: nat) {
    p.outgoingDataTotal > 0 && q.outgoingEpoch == now && OwnLimit(p, elapsed) == 0
  }

  /** 32 times what all peers may be sent, but for those raised. */
  function Rates(before: seq<Peer>, after: seq<Peer>, now: u32, elapsed: nat): nat
    requires |before| == |after|
  {
    if before == [] then 0
    else
      var n := |before| - 1;
      Rates(before[..n], after[..n], now, elapsed)
      + if before[n].connected && !Raised(before[n], after[n], now, elapsed)
        then after[n].packetThrottleLimit * before[n].outgoingDataTotal else 0
  }

  /** The throttle is given to all that have not been settled. */
  function Throttled(p: Peer, throttle: nat, now: u32): Peer {
    if p.connected && p.outgoingEpoch != now then Limited(p, throttle) else p
  }

  lemma {:induction false} RatesAddUp(before: seq<Peer>, mid: seq<Peer>, after: seq<Peer>, throttle: nat, now: u32,
      elapsed: nat)
    requires AllAdjusted(before, mid, now, elapsed) && Unstamped(before, now) && |after| == |mid|
    requires forall i :: 0 <= i < |mid| ==> after[i] == Throttled(mid[i], throttle, now)
    ensures Rates(before, after, now, elapsed) == Granted(before, mid, now, elapsed) + throttle * Unsettled(mid, now)
  {
    if before != [] {
      var n := |before| - 1;
      RatesAddUp(before[..n], mid[..n], after[..n], throttle, now, elapsed);
      RateOfOne(before[n], mid[n], after[n], throttle, now, elapsed);
      Distributes(throttle, Unsettled(mid[..n], now),
                  if mid[n].connected && mid[n].outgoingEpoch != now then mid[n].outgoingDataTotal else 0);
    }
  }

  lemma RateOfOne(p: Peer, m: Peer, q: Peer, throttle: nat, now: u32, elapsed: nat)
    requires Adjusted(p, m, now, elapsed) && (p.connected ==> p.outgoingEpoch != now)
    requires q == Throttled(m, throttle, now)
    ensures (if p.connected && !Raised(p, q, now, elapsed) then q.packetThrottleLimit * p.outgoingDataTotal else 0)
         == (if p.connected && m.outgoingEpoch == now && p.outgoingDataTotal > 0 && OwnLimit(p, elapsed) > 0
             then m.packetThrottleLimit * p.outgoingDataTotal else 0)
            + throttle * (if m.connected && m.outgoingEpoch != now then m.outgoingDataTotal else 0)
  {
    hide OwnLimit, Allowance;
  }

  lemma LotOfOne(p: Peer, m: Peer, throttle: nat, now: u32, elapsed: nat)
    requires Adjusted(p, m, now, elapsed) && (p.connected ==> p.outgoingEpoch != now)
    requires Adjustable(m, now) ==> !Exceeds(m, throttle, elapsed)
    ensures Lot(p, Throttled(m, throttle, now), throttle, now, elapsed)
  {
    hide OwnLimit, Allowance, Exceeds;
  }

  function ConnectedCount(ps: seq<Peer>): nat {
    if ps == [] then 0 else ConnectedCount(ps[..|ps| - 1]) + if ps[|ps| - 1].connected then 1 else 0
  }

  lemma {:induction false} AllUnsettled(ps: seq<Peer>, now: u32)
    requires Unstamped(ps, now)
    ensures UnsettledCount(ps, now) == ConnectedCount(ps)
  {
    if ps != [] {
      AllUnsettled(ps[..|ps| - 1], now);
    }
  }

  class Host {
    const peers: array<Peer>
    var connectedPeers: nat
    var bandwidthLimitedPeers: nat
    var incomingBandwidth: nat
    var outgoingBandwidth: nat
    var bandwidthThrottleEpoch: u32
    var recalculateBandwidthLimits: bool

    constructor (peers: array<Peer>)
      ensures this.peers == peers
    {
      this.peers := peers;
    }

    /** The counters the host keeps of its peers (see HostCounters). */
    ghost predicate Counts()
      reads this, peers
    {
      && connectedPeers == ConnectedCount(peers[..])
      && (bandwidthLimitedPeers == 0 ==> forall i :: 0 <= i < peers.Length && peers[i].connected ==>
            peers[i].incomingBandwidth == 0)
    }

    /** What connected peers have to send. */
    method DataTotal(now: u32) returns (total: nat)
      requires Unstamped(peers[..], now)
      ensures total == Unsettled(peers[..], now)
    {
      total := 0;
      for i := 0 to peers.Length
        invariant total == Unsettled(peers[..i], now)
      {
        assert peers[..i + 1][..i] == peers[..i];
        if peers[i].connected {
          total := total + peers[i].outgoingDataTotal;
        }
      }
      assert peers[..peers.Length] == peers[..];
    }

    /** One round: every peer that its own limit holds back further than the common throttle is
        settled, and its allowance taken out of the common account. */
    method SettleRound(now: u32, elapsed: nat, throttle: nat, b: int, d: int, left: nat, unlimited: bool,
        ghost before: seq<Peer>, ghost start: int, ghost data: int)
      returns (bandwidth: int, dataTotal: int, remaining: nat, settled: bool)
      requires |before| == peers.Length && b == start - Spent(before, peers[..], now, elapsed)
      requires d == data - Spent(before, peers[..], now, elapsed)
      requires throttle <= THROTTLE_SCALE && AllAdjusted(before, peers[..], now, elapsed) && Unstamped(before, now)
      requires left == UnsettledCount(peers[..], now)
      requires if unlimited then b == d else
                 Balanced(before, peers[..], now, elapsed, start, b, d)
                 && throttle * Unsettled(peers[..], now) <= b * THROTTLE_SCALE
      modifies peers
      ensures AllAdjusted(before, peers[..], now, elapsed) && remaining == UnsettledCount(peers[..], now)
      ensures if unlimited then bandwidth == dataTotal
              else Balanced(before, peers[..], now, elapsed, start, bandwidth, dataTotal)
      ensures bandwidth == start - Spent(before, peers[..], now, elapsed)
      ensures dataTotal == data - Spent(before, peers[..], now, elapsed)
      ensures settled ==> remaining < left
      ensures !settled ==> peers[..] == old(peers[..]) && bandwidth == b && dataTotal == d
      ensures !settled ==> forall i :: 0 <= i < peers.Length && Adjustable(peers[i], now) ==>
                !Exceeds(peers[i], throttle, elapsed)
    {
      hide Granted, Unsettled, UnsettledCount, Exceeds, Settled, Balanced, Allowance, Spent;
      bandwidth, dataTotal, remaining, settled := b, d, left, false;
      for i := 0 to peers.Length
        invariant AllAdjusted(before, peers[..], now, elapsed) && remaining == UnsettledCount(peers[..], now) <= left
        invariant if unlimited then bandwidth == dataTotal else
                    Balanced(before, peers[..], now, elapsed, start, bandwidth, dataTotal)
                    && throttle * Unsettled(peers[..], now) <= bandwidth * THROTTLE_SCALE
        invariant bandwidth == start - Spent(before, peers[..], now, elapsed)
        invariant dataTotal == data - Spent(before, peers[..], now, elapsed)
        invariant settled ==> remaining < left
        invariant !settled ==> peers[..] == old(peers[..]) && bandwidth == b && dataTotal == d
        invariant !settled ==> forall j :: 0 <= j < i && Adjustable(peers[j], now) ==>
                    !Exceeds(peers[j], throttle, elapsed)
      {
        if Adjustable(peers[i], now) && Exceeds(peers[i], throttle, elapsed) {
          ghost var after := peers[..];
          assert Adjusted(before[i], after[i], now, elapsed);
          StillUntouched(before[i], after[i], now, elapsed);
          ExceedingFits(peers[i], throttle, elapsed);
          SettledStamp(peers[i], now, elapsed);
          UnsettledMoves(after, i, Settled(peers[i], now, elapsed), now);
          SpentMoves(before, after, i, Settled(peers[i], now, elapsed), now, elapsed);
          if !unlimited {
            SettlingBalances(before, after, i, now, elapsed, start, bandwidth, dataTotal, throttle);
          }
          var allowance := Allowance(peers[i], elapsed);
          peers[i] := Settled(peers[i], now, elapsed);
          assert peers[..] == after[i := peers[i]];
          settled, remaining := true, remaining - 1;
          bandwidth, dataTotal := bandwidth - allowance, dataTotal - allowance;
        }
      }
    }

    /** The rounds end: each one but the last settles a peer. */
    method SettlePeers(now: u32, elapsed: nat, b: int, d: int, count: nat, unlimited: bool)
      returns (bandwidth: int, dataTotal: int, remaining: nat)
      requires Unstamped(peers[..], now) && count == UnsettledCount(peers[..], now)
      requires bandwidthLimitedPeers == 0 ==> forall i :: 0 <= i < peers.Length && peers[i].connected ==>
                 peers[i].incomingBandwidth == 0
      requires if unlimited then b == d else 0 <= b && Unsettled(peers[..], now) <= d
      modifies peers
      ensures AllAdjusted(old(peers[..]), peers[..], now, elapsed) && remaining == UnsettledCount(peers[..], now)
      ensures if unlimited then bandwidth == dataTotal
              else Balanced(old(peers[..]), peers[..], now, elapsed, b, bandwidth, dataTotal)
      ensures bandwidth == b - Spent(old(peers[..]), peers[..], now, elapsed)
      ensures dataTotal == d - Spent(old(peers[..]), peers[..], now, elapsed)
      ensures remaining > 0 ==> forall i :: 0 <= i < peers.Length && Adjustable(peers[i], now) ==>
                !Exceeds(peers[i], Throttle(bandwidth, dataTotal), elapsed)
    {
      hide Granted, Unsettled, UnsettledCount, Exceeds, Settled, Allowance, Spent;
      ghost var before := peers[..];
      NothingGranted(before, now, elapsed);
      NothingSpent(before, now, elapsed);
      bandwidth, dataTotal, remaining := b, d, count;
      var needsAdjustment := bandwidthLimitedPeers > 0;
      while remaining > 0 && needsAdjustment
        invariant AllAdjusted(before, peers[..], now, elapsed) && remaining == UnsettledCount(peers[..], now)
        invariant if unlimited then bandwidth == dataTotal
                  else Balanced(before, peers[..], now, elapsed, b, bandwidth, dataTotal)
        invariant bandwidth == b - Spent(before, peers[..], now, elapsed)
        invariant dataTotal == d - Spent(before, peers[..], now, elapsed)
        invariant needsAdjustment || forall i :: 0 <= i < peers.Length && Adjustable(peers[i], now) ==>
                    !Exceeds(peers[i], Throttle(bandwidth, dataTotal), elapsed)
        decreases remaining, needsAdjustment
      {
        var throttle := Throttle(bandwidth, dataTotal);
        if !unlimited {
          Affordable(throttle, Unsettled(peers[..], now), bandwidth, dataTotal);
        }
        bandwidth, dataTotal, remaining, needsAdjustment :=
          SettleRound(now, elapsed, throttle, bandwidth, dataTotal, remaining, unlimited, before, b, d);
      }
    }

    /** The outgoing half: after it every connected peer has its lot, no limit is above 32, and what
        the peers may be sent together is within the host's bandwidth, but for peers raised to 1. */
    method ThrottleOutgoing(now: u32, elapsed: nat) returns (ghost throttle: nat)
      requires Unstamped(peers[..], now) && Counts()
      modifies peers
      ensures throttle <= THROTTLE_SCALE && AllLots(old(peers[..]), peers[..], throttle, now, elapsed)
      ensures outgoingBandwidth != 0 ==>
                Rates(old(peers[..]), peers[..], now, elapsed) <= outgoingBandwidth * elapsed / 1000 * THROTTLE_SCALE
      ensures if outgoingBandwidth == 0 then throttle == THROTTLE_SCALE
              else
                var spent := Spent(old(peers[..]), peers[..], now, elapsed);
                IsCommon(throttle, outgoingBandwidth * elapsed / 1000 - spent, Unsettled(old(peers[..]), now) - spent)
    {
      hide Granted, Unsettled, UnsettledCount, Exceeds, Settled, Allowance, Rates, Spent;
      ghost var before := peers[..];
      AllUnsettled(before, now);
      var bandwidth: int, dataTotal: int := WORD - 1, WORD - 1;
      if outgoingBandwidth != 0 {
        dataTotal := DataTotal(now);
        bandwidth := outgoingBandwidth * elapsed / 1000;
      }
      var remaining;
      bandwidth, dataTotal, remaining :=
        SettlePeers(now, elapsed, bandwidth, dataTotal, connectedPeers, outgoingBandwidth == 0);
      ghost var mid := peers[..];
      var common := Throttle(bandwidth, dataTotal);
      throttle := common;
      NoneLeft(mid, now);
      if remaining > 0 {
        for i := 0 to peers.Length
          invariant forall j :: 0 <= j < i ==> peers[j] == Throttled(mid[j], common, now)
          invariant forall j :: i <= j < peers.Length ==> peers[j] == mid[j]
        {
          if peers[i].connected && peers[i].outgoingEpoch != now {
            peers[i] := Limited(peers[i], common);
          }
        }
      }
      forall i | 0 <= i < peers.Length ensures Lot(before[i], peers[i], common, now, elapsed) {
        assert Adjusted(before[i], mid[i], now, elapsed);
        LotOfOne(before[i], mid[i], common, now, elapsed);
      }
      RatesAddUp(before, mid, peers[..], common, now, elapsed);
      SpentByStamps(before, mid, peers[..], now, elapsed);
      if outgoingBandwidth != 0 {
        Affordable(common, Unsettled(mid, now), bandwidth, dataTotal);
      }
    }

    // ---- the incoming half ----

    /** One round: every peer that sends less than an equal share is stamped, and what it sends taken
        out of the account. */
    method StampRound(now: u32, share: nat, b: int, left: nat, ghost start: nat, ghost before: seq<Peer>)
      returns (bandwidth: int, remaining: nat, stamped: bool)
      requires Stamping(before, peers[..], now) && left == Unstamping(peers[..], now)
      requires share * left <= b && b + Taken(peers[..], now) == start
      requires StampedWithin(peers[..], now, share)
      modifies peers
      ensures Stamping(before, peers[..], now) && remaining == Unstamping(peers[..], now)
      ensures StampedWithin(peers[..], now, share)
      ensures share * remaining <= bandwidth && bandwidth + Taken(peers[..], now) == start
      ensures stamped ==> remaining < left
      ensures !stamped ==> bandwidth == b && remaining == left
      ensures !stamped ==> forall i :: 0 <= i < peers.Length && peers[i].connected && peers[i].incomingEpoch != now ==>
                             peers[i].outgoingBandwidth > 0 && peers[i].outgoingBandwidth >= share
    {
      hide Unstamping, Taken;
      bandwidth, remaining, stamped := b, left, false;
      for i := 0 to peers.Length
        invariant Stamping(before, peers[..], now) && remaining == Unstamping(peers[..], now) <= left
        invariant StampedWithin(peers[..], now, share)
        invariant share * remaining <= bandwidth && bandwidth + Taken(peers[..], now) == start
        invariant stamped ==> remaining < left
        invariant !stamped ==> bandwidth == b && remaining == left
        invariant !stamped ==> forall j :: 0 <= j < i && peers[j].connected && peers[j].incomingEpoch != now ==>
                                 peers[j].outgoingBandwidth > 0 && peers[j].outgoingBandwidth >= share
      {
        if peers[i].connected && peers[i].incomingEpoch != now
           && !(peers[i].outgoingBandwidth > 0 && peers[i].outgoingBandwidth >= share) {
          ghost var was := peers[..];
          StampMoves(was, i, now);
          SharesLeft(share, remaining);
          peers[i] := peers[i].(incomingEpoch := now);
          assert peers[..] == was[i := was[i].(incomingEpoch := now)];
          stamped, remaining, bandwidth := true, remaining - 1, bandwidth - peers[i].outgoingBandwidth;
        }
      }
    }

    /** What each peer is told it may send: its own figure if that is less than a fair share, else the
        share. The share grows from round to round, and all that is told together is within the host's
        bandwidth. */
    method LimitIncoming(now: u32) returns (share: nat, told: seq<(nat, nat)>)
      requires connectedPeers == ConnectedCount(peers[..]) > 0
      requires forall i :: 0 <= i < peers.Length && peers[i].connected ==> peers[i].incomingEpoch != now
      modifies peers
      ensures Stamping(old(peers[..]), peers[..], now) && told == Told(peers[..], now, share)
      ensures incomingBandwidth == 0 ==> share == 0 && peers[..] == old(peers[..])
      ensures incomingBandwidth != 0 ==> FairShare(peers[..], now, share, incomingBandwidth)
    {
      hide Unstamping, Taken, Told;
      NoneStamped(peers[..], now);
      ghost var before := peers[..];
      var remaining := connectedPeers;
      var bandwidth: int := incomingBandwidth;
      var needsAdjustment := true;
      share := 0;
      if incomingBandwidth != 0 {
        while remaining > 0 && needsAdjustment
          invariant Stamping(before, peers[..], now) && remaining == Unstamping(peers[..], now)
          invariant StampedWithin(peers[..], now, share)
          invariant share * remaining <= bandwidth && bandwidth + Taken(peers[..], now) == incomingBandwidth
          invariant needsAdjustment || bandwidth < (share + 1) * remaining
          invariant needsAdjustment || forall i :: 0 <= i < peers.Length && peers[i].connected
                                                   && peers[i].incomingEpoch != now ==>
                                         peers[i].outgoingBandwidth > 0 && peers[i].outgoingBandwidth >= share
          decreases remaining, needsAdjustment
        {
          SharesFit(share, remaining, bandwidth);
          share := bandwidth / remaining;
          bandwidth, remaining, needsAdjustment :=
            StampRound(now, share, bandwidth, remaining, incomingBandwidth, before);
        }
        AllStamped(peers[..], now);
      }
      told := TellPeers(now, share);
    }

    /** enet_host_bandwidth_throttle, at most once a second. mid is the state between its halves. */
    method BandwidthThrottle(now: u32) returns (told: seq<(nat, nat)>, ghost mid: seq<Peer>, ghost throttle: nat)
      requires Counts() && Unstamped(peers[..], now)
      requires forall i :: 0 <= i < peers.Length && peers[i].connected ==> peers[i].incomingEpoch != now
      modifies this`bandwidthThrottleEpoch, this`recalculateBandwidthLimits, peers
      ensures var elapsed := (now - old(bandwidthThrottleEpoch)) % WORD;
              if elapsed < THROTTLE_INTERVAL || connectedPeers == 0 then peers[..] == old(peers[..]) && told == []
              else
                && throttle <= THROTTLE_SCALE && AllLots(old(peers[..]), mid, throttle, now, elapsed)
                && (outgoingBandwidth != 0 ==>
                      Rates(old(peers[..]), mid, now, elapsed) <= outgoingBandwidth * elapsed / 1000 * THROTTLE_SCALE)
                && (if outgoingBandwidth == 0 then throttle == THROTTLE_SCALE
                    else
                      var spent := Spent(old(peers[..]), mid, now, elapsed);
                      IsCommon(throttle, outgoingBandwidth * elapsed / 1000 - spent,
                               Unsettled(old(peers[..]), now) - spent))
                && Stamping(mid, peers[..], now)
                && if old(recalculateBandwidthLimits) then
                     exists share :: told == Told(peers[..], now, share)
                       && if incomingBandwidth == 0 then share == 0
                          else FairShare(peers[..], now, share, incomingBandwidth)
                   else told == [] && mid == peers[..]
    {
      hide Rates, Lot, Told, ConnectedCount, FairShare, Spent, Unsettled, IsCommon;
      told, mid, throttle := [], peers[..], 0;
      var elapsed: u32 := (now - bandwidthThrottleEpoch) % WORD;
      if elapsed < THROTTLE_INTERVAL {
        return;
      }
      bandwidthThrottleEpoch := now;
      if connectedPeers == 0 {
        return;
      }
      throttle := ThrottleOutgoing(now, elapsed);
      mid := peers[..];
      LotsKeepStamps(old(peers[..]), mid, throttle, now, elapsed);
      if recalculateBandwidthLimits {
        recalculateBandwidthLimits := false;
        var share;
        share, told := LimitIncoming(now);
      }
    }

    method TellPeers(now: u32, share: nat) returns (told: seq<(nat, nat)>)
      ensures told == Told(peers[..], now, share)
    {
      told := [];
      for i := 0 to peers.Length
        invariant told == Told(peers[..i], now, share)
      {
        assert peers[..i + 1][..i] == peers[..i];
        if peers[i].connected {
          told := told + [(i, if peers[i].incomingEpoch == now then peers[i].outgoingBandwidth else share)];
        }
      }
      assert peers[..peers.Length] == peers[..];
    }
  }

  /** Only stamps on connected peers have changed. */
  predicate Stamping(before: seq<Peer>, after: seq<Peer>, now: u32) {
    |before| == |after| && forall i :: 0 <= i < |before| ==>
      after[i] == before[i] || (before[i].connected && after[i] == before[i].(incomingEpoch := now))
  }

  function Unstamping(ps: seq<Peer>, now: u32): nat {
    if ps == [] then 0
    else Unstamping(ps[..|ps| - 1], now) + if ps[|ps| - 1].connected && ps[|ps| - 1].incomingEpoch != now then 1 else 0
  }

  /** What the stamped peers send. */
  function Taken(ps: seq<Peer>, now: u32): nat {
    if ps == [] then 0
    else
      var p := ps[|ps| - 1];
      Taken(ps[..|ps| - 1], now) + if p.connected && p.incomingEpoch == now then p.outgoingBandwidth else 0
  }

  predicate StampedWithin(ps: seq<Peer>, now: u32, share: nat) {
    forall i :: 0 <= i < |ps| && ps[i].connected && ps[i].incomingEpoch == now ==> ps[i].outgoingBandwidth <= share
  }

  /** Those stamped send no more than the share, those not stamped want at least the share, and what
      all are told together is within the bandwidth, but would not be with a larger share. */
  predicate FairShare(ps: seq<Peer>, now: u32, share: nat, bandwidth: nat) {
    && Taken(ps, now) + share * Unstamping(ps, now) <= bandwidth
    && (Unstamping(ps, now) > 0 ==> bandwidth < Taken(ps, now) + (share + 1) * Unstamping(ps, now))
    && StampedWithin(ps, now, share)
    && forall i :: 0 <= i < |ps| && ps[i].connected && ps[i].incomingEpoch != now ==>
         ps[i].outgoingBandwidth > 0 && ps[i].outgoingBandwidth >= share
  }

  function Told(ps: seq<Peer>, now: u32, share: nat): seq<(nat, nat)> {
    if ps == [] then []
    else
      var n := |ps| - 1;
      Told(ps[..n], now, share)
      + if ps[n].connected then [(n as nat, if ps[n].incomingEpoch == now then ps[n].outgoingBandwidth else share)]
        else []
  }

  function Smaller(a: nat, b: nat): nat {
    if a <= b then a else b
  }

  function ToldTogether(told: seq<(nat, nat)>): nat {
    if told == [] then 0 else ToldTogether(told[..|told| - 1]) + told[|told| - 1].1
  }

  /** Every connected peer is told the smaller of its own figure and the share (0 for one without a figure,
      which it takes for no limit), and all together no more than the bandwidth. */
  lemma ToldIsFair(ps: seq<Peer>, now: u32, share: nat, bandwidth: nat)
    requires FairShare(ps, now, share, bandwidth)
    ensures var told := Told(ps, now, share);
            && |told| == ConnectedCount(ps) && ToldTogether(told) <= bandwidth
            && forall k :: 0 <= k < |told| ==>
                 && told[k].0 < |ps| && ps[told[k].0].connected
                 && told[k].1 == Smaller(ps[told[k].0].outgoingBandwidth, share)
  {
    ToldEach(ps, now, share);
    ToldAddsUp(ps, now, share);
  }

  lemma {:induction false} ToldEach(ps: seq<Peer>, now: u32, share: nat)
    requires StampedWithin(ps, now, share)
    requires forall i :: 0 <= i < |ps| && ps[i].connected && ps[i].incomingEpoch != now ==>
               ps[i].outgoingBandwidth >= share
    ensures var told := Told(ps, now, share);
            && |told| == ConnectedCount(ps)
            && forall k :: 0 <= k < |told| ==>
                 && told[k].0 < |ps| && ps[told[k].0].connected
                 && told[k].1 == Smaller(ps[told[k].0].outgoingBandwidth, share)
  {
    if ps != [] {
      ToldEach(ps[..|ps| - 1], now, share);
    }
  }

  lemma {:induction false} ToldAddsUp(ps: seq<Peer>, now: u32, share: nat)
    ensures ToldTogether(Told(ps, now, share)) == Taken(ps, now) + share * Unstamping(ps, now)
  {
    if ps != [] {
      var n := |ps| - 1;
      var front := Told(ps[..n], now, share);
      ToldAddsUp(ps[..n], now, share);
      if ps[n].connected {
        ToldLast(front, (n, if ps[n].incomingEpoch == now then ps[n].outgoingBandwidth else share));
      } else {
        assert Told(ps, now, share) == front;
      }
      var u := Unstamping(ps[..n], now);
      SharesLeft(share, u + 1);
      assert Unstamping(ps, now) == if ps[n].connected && ps[n].incomingEpoch != now then u + 1 else u;
      assert share * Unstamping(ps, now)
          == share * u + if ps[n].connected && ps[n].incomingEpoch != now then share else 0;
    }
  }

  lemma ToldLast(front: seq<(nat, nat)>, last: (nat, nat))
    ensures ToldTogether(front + [last]) == ToldTogether(front) + last.1
  {
    assert (front + [last])[..|front|] == front;
  }

  lemma {:induction false} StampMoves(ps: seq<Peer>, i: nat, now: u32)
    requires i < |ps| && ps[i].connected && ps[i].incomingEpoch != now
    ensures var after := ps[i := ps[i].(incomingEpoch := now)];
            Unstamping(after, now) + 1 == Unstamping(ps, now)
            && Taken(after, now) == Taken(ps, now) + ps[i].outgoingBandwidth
    decreases |ps|
  {
    var n := |ps| - 1;
    var q := ps[i].(incomingEpoch := now);
    if i < n {
      StampMoves(ps[..n], i, now);
      assert ps[i := q][..n] == ps[..n][i := q];
    } else {
      assert ps[i := q][..n] == ps[..n];
    }
  }

  lemma {:induction false} NoneStamped(ps: seq<Peer>, now: u32)
    requires forall i :: 0 <= i < |ps| && ps[i].connected ==> ps[i].incomingEpoch != now
    ensures Unstamping(ps, now) == ConnectedCount(ps) && Taken(ps, now) == 0
  {
    if ps != [] {
      NoneStamped(ps[..|ps| - 1], now);
    }
  }

  lemma {:induction false} AllStamped(ps: seq<Peer>, now: u32)
    ensures Unstamping(ps, now) == 0 ==> forall i :: 0 <= i < |ps| && ps[i].connected ==> ps[i].incomingEpoch == now
  {
    if ps != [] {
      AllStamped(ps[..|ps| - 1], now);
    }
  }

  lemma SharesLeft(share: nat, n: nat)
    requires n > 0
    ensures share * n == share * (n - 1) + share
  {
  }

  /** The share of a later round is no smaller. */
  lemma SharesFit(share: nat, n: nat, bandwidth: int)
    requires n > 0 && share * n <= bandwidth
    ensures 0 <= bandwidth && share <= bandwidth / n && bandwidth / n * n <= bandwidth < (bandwidth / n + 1) * n
  {
    assert share * n >= 0;
    QuotientFits(bandwidth, n);
    if bandwidth / n < share {
      SharesBelow(bandwidth / n + 1, share, n);
    }
  }

  lemma SharesBelow(a: int, b: int, n: nat)
    requires a <= b
    ensures a * n <= b * n
  {
  }

  lemma {:induction false} LotsKeepStamps(before: seq<Peer>, after: seq<Peer>, throttle: nat, now: u32, elapsed: nat)
    requires AllLots(before, after, throttle, now, elapsed)
    ensures ConnectedCount(after) == ConnectedCount(before)
    ensures forall i :: 0 <= i < |before| ==> after[i].connected == before[i].connected
                                              && after[i].incomingEpoch == before[i].incomingEpoch
  {
    forall i | 0 <= i < |before|
      ensures after[i].connected == before[i].connected && after[i].incomingEpoch == before[i].incomingEpoch
    {
      assert Lot(before[i], after[i], throttle, now, elapsed);
    }
    hide Lot;
    SameConnected(before, after);
  }

  lemma {:induction false} SameConnected(a: seq<Peer>, b: seq<Peer>)
    requires |a| == |b| && forall i :: 0 <= i < |a| ==> a[i].connected == b[i].connected
    ensures ConnectedCount(a) == ConnectedCount(b)
  {
    if a != [] {
      SameConnected(a[..|a| - 1], b[..|b| - 1]);
    }
  }

  lemma Affordable(throttle: nat, unsettled: nat, bandwidth: int, dataTotal: int)
    requires 0 <= bandwidth && unsettled <= dataTotal && throttle == Throttle(bandwidth, dataTotal)
    ensures throttle * unsettled <= bandwidth * THROTTLE_SCALE
  {
    assert throttle * unsettled <= throttle * dataTotal;
  }

  lemma {:induction false} NoneLeft(ps: seq<Peer>, now: u32)
    ensures UnsettledCount(ps, now) == 0 ==> forall i :: 0 <= i < |ps| && ps[i].connected ==> ps[i].outgoingEpoch == now
  {
    if ps != [] {
      NoneLeft(ps[..|ps| - 1], now);
    }
  }

  /** No limit is above 32 or below 1, unless the throttle all share is 0. */
  lemma LotIsBounded(p: Peer, q: Peer, throttle: nat, now: u32, elapsed: nat)
    requires Lot(p, q, throttle, now, elapsed) && p.connected && throttle <= THROTTLE_SCALE
    ensures q.packetThrottleLimit <= THROTTLE_SCALE && q.packetThrottle <= q.packetThrottleLimit
    ensures q.packetThrottleLimit > 0 || throttle == 0
  {
    if Allowance(p, elapsed) < p.outgoingDataTotal {
      ShareIsSmall(Allowance(p, elapsed), p.outgoingDataTotal);
    }
  }

  /** What a peer is given, in numbers: the most that its own figure allows, which is less than what it
      has to send, or 1 where that is nothing; or the common throttle, if that stays within its figure. */
  lemma LotInNumbers(p: Peer, q: Peer, throttle: nat, now: u32, elapsed: nat)
    requires Lot(p, q, throttle, now, elapsed) && p.connected
    ensures var own := p.incomingBandwidth * elapsed / 1000; var data := p.outgoingDataTotal;
            var limit := q.packetThrottleLimit;
            && (|| (&& q.outgoingEpoch == now && p.incomingBandwidth != 0 && own < data
                    && own * 32 < (limit + 1) * data && (limit * data <= own * 32 || limit == 1))
                || (limit == throttle && (p.incomingBandwidth != 0 ==> throttle * data / 32 <= own)))
            && q.packetThrottle == (if p.packetThrottle > limit then limit else p.packetThrottle)
            && q.incomingDataTotal == 0 && q.outgoingDataTotal == 0
  {
    var own := p.incomingBandwidth * elapsed / 1000;
    if own < p.outgoingDataTotal {
      QuotientFits(own * 32, p.outgoingDataTotal);
      assert own * 32 / p.outgoingDataTotal == 0 ==> own * 32 < 2 * p.outgoingDataTotal;
    }
  }

  lemma StillUntouched(p: Peer, q: Peer, now: u32, elapsed: nat)
    requires Adjusted(p, q, now, elapsed) && q.outgoingEpoch != now
    ensures q == p
  {
  }

  lemma SettledStamp(p: Peer, now: u32, elapsed: nat)
    requires p.outgoingDataTotal > 0
    ensures Settled(p, now, elapsed).outgoingEpoch == now
  {
  }
}
