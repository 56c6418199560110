/** What a receiver that is sent a channel's packets holds: every queued command is one of them,
    in its place, and dispatching delivers the next ones in order. */
module Receiving {
  import opened Words
  import opened Windows
  import opened Incoming
  import opened ReceiveOrder
  import opened Parcels
  import opened Layout

  /** x is the packet that begins at serial n, as far as it has arrived. */
  predicate Entry(ps: seq<Parcel>, x: IncomingCommand, n: nat)
    requires AllCuttable(ps)
  {
    Within(ps, n) && At(ps, n) < |ps| && ps[At(ps, n)].first == n && Holds(x, ps[At(ps, n)])
  }

  predicate EntriesHold(queue: seq<IncomingCommand>, base: u16, ps: seq<Parcel>, reached: nat)
    requires AllCuttable(ps)
  {
    forall i :: 0 <= i < |queue| ==> Entry(ps, queue[i], reached + Ahead(queue, base, i))
  }

  /** The receiver has dispatched the first m packets and queued some of the others. */
  ghost predicate Follows(r: Receiver, ps: seq<Parcel>, m: nat) {
    && LaidOut(ps) && m <= |ps|
    && r.number == Wire(EndOf(ps, m))
    && Sorted(r.queue, r.number) && EntriesOk(r)
    && EntriesHold(r.queue, r.number, ps, EndOf(ps, m))
  }

  predicate Covers(x: IncomingCommand, first: nat, n: nat) {
    first <= n < first + Span(x) && (x.fragmented ==> n - first < |x.got| && x.got[n - first])
  }

  /** Serial n has arrived and been kept. */
  ghost predicate Received(r: Receiver, reached: nat, n: nat) {
    n <= reached || exists i :: 0 <= i < |r.queue| && Covers(r.queue[i], reached + Ahead(r.queue, r.number, i), n)
  }

  lemma SpanIsCount(ps: seq<Parcel>, x: IncomingCommand, n: nat)
    requires LaidOut(ps) && Entry(ps, x, n)
    ensures Span(x) == Count(ps[At(ps, n)])
    ensures x.remaining == 0 ==> x.data == ps[At(ps, n)].data
  {
    hide Within, At, HoldsPart;
    var p := ps[At(ps, n)];
    CountOfUncut(p);
    if x.remaining == 0 {
      CompleteHolds(x, p);
    }
  }

  lemma CountOfUncut(p: Parcel)
    requires Cuttable(p)
    ensures Uncut(p) ==> Count(p) == 1
  {
  }

  lemma RunEntry(r: Receiver, ps: seq<Parcel>, m: nat, i: nat)
    requires Follows(r, ps, m) && i < Ready(r.queue, r.number)
    ensures r.queue[i].remaining == 0 && Entry(ps, r.queue[i], EndOf(ps, m) + 1 + Spans(r.queue[..i]))
  {
    hide Count, Sorted, Entry, Ready, At, Within, EndOf, Spans, Distance, Wire;
    DispatchTakesRun(r.queue, r.number);
    assert Continues(r.queue, r.number, i);
    assert Entry(ps, r.queue[i], EndOf(ps, m) + Ahead(r.queue, r.number, i));
  }

  /** The commands a dispatch takes are the next packets, complete. */
  lemma {:induction false} RunIsNextPackets(r: Receiver, ps: seq<Parcel>, m: nat, i: nat)
    requires Follows(r, ps, m) && i <= Ready(r.queue, r.number)
    ensures m + i <= |ps| && EndOf(ps, m + i) == EndOf(ps, m) + Spans(r.queue[..i])
    ensures forall j :: 0 <= j < i ==> r.queue[j].data == ps[m + j].data
  {
    hide Count, Sorted, Entry, Ready, At, Within, EndOf, EntriesHold, EntryOk, Wire;
    if i > 0 {
      RunIsNextPackets(r, ps, m, i - 1);
      RunEntry(r, ps, m, i - 1);
      NextPacket(ps, m + i - 1, r.queue[i - 1], EndOf(ps, m) + 1 + Spans(r.queue[..i - 1]));
      SpansAppend(r.queue, i - 1);
    } else {
      assert r.queue[..0] == [];
    }
  }

  lemma NextPacket(ps: seq<Parcel>, j: nat, x: IncomingCommand, n: nat)
    requires LaidOut(ps) && j <= |ps| && Entry(ps, x, n) && n == EndOf(ps, j) + 1 && x.remaining == 0
    ensures j < |ps| && x.data == ps[j].data && EndOf(ps, j + 1) == EndOf(ps, j) + Span(x)
  {
    hide Count, At, EndOf, Holds;
    SpanIsCount(ps, x, n);
    if j < |ps| {
      EndStep(ps, j);
      AtIsUnique(ps, n, j);
    }
  }

  lemma {:induction false} SpansAppend(queue: seq<IncomingCommand>, i: nat)
    requires i < |queue|
    ensures Spans(queue[..i + 1]) == Spans(queue[..i]) + Span(queue[i])
  {
    hide Span;
    if i > 0 {
      SpansTail(queue, i + 1);
      SpansTail(queue, i);
      SpansAppend(queue[1..], i - 1);
    } else {
      assert queue[..1][1..] == [];
      assert queue[..0] == [];
    }
  }

  lemma LeftInPlace(r: Receiver, i: nat)
    requires Sorted(r.queue, r.number) && i < |Dispatch(r).r.queue|
    ensures var h := Dispatch(r); var k := |h.dispatched|;
            && h.r.queue[i] == r.queue[k + i]
            && Spans(r.queue[..k]) < Ahead(r.queue, r.number, k + i)
            && Ahead(h.r.queue, h.r.number, i) == Ahead(r.queue, r.number, k + i) - Spans(r.queue[..k])
  {
    hide Sorted, Distance, Ready, Spans, NumberAfter;
    DispatchTakesRun(r.queue, r.number);
    var k := Ready(r.queue, r.number);
    assert Spans(r.queue[..k]) < Ahead(r.queue, r.number, k + i);
    DistanceMoves(r.number, r.queue[k + i].number, Spans(r.queue[..k]));
  }

  lemma WireAdds(n: nat, t: nat)
    ensures (Wire(n) + t) % NUMBERS == Wire(n + t)
  {
  }

  /** Dispatching delivers the next packets and leaves a queue that waits for the one after. */
  lemma DispatchDelivers(r: Receiver, ps: seq<Parcel>, m: nat)
    requires Follows(r, ps, m)
    ensures var h := Dispatch(r); var k := |h.dispatched|;
            && m + k <= |ps|
            && (forall j :: 0 <= j < k ==> h.dispatched[j].data == ps[m + j].data)
            && Follows(h.r, ps, m + k) && Drained(h.r.queue, h.r.number)
            && EndOf(ps, m) <= EndOf(ps, m + k)
            && (forall n :: Received(h.r, EndOf(ps, m + k), n) <==> Received(r, EndOf(ps, m), n))
  {
    hide Sorted, Entry, Distance, EndOf, EntryOk, Drained, Covers, Spans, Ready, Wire, LaidOut, AllCuttable,
        Received, NumberAfter;
    var h := Dispatch(r);
    var k := |h.dispatched|;
    var t := Spans(r.queue[..k]);
    PartsOf(ps);
    RunIsNextPackets(r, ps, m, k);
    DispatchTakesRun(r.queue, r.number);
    WireAdds(EndOf(ps, m), t);
    LeftSorted(r.queue, r.number);
    forall i | 0 <= i < |h.r.queue|
      ensures Entry(ps, h.r.queue[i], EndOf(ps, m + k) + Ahead(h.r.queue, h.r.number, i))
    {
      LeftInPlace(r, i);
    }
    forall n ensures Received(h.r, EndOf(ps, m + k), n) <==> Received(r, EndOf(ps, m), n) {
      if Received(r, EndOf(ps, m), n) {
        StaysReceived(r, EndOf(ps, m), n);
      }
      if Received(h.r, EndOf(ps, m + k), n) {
        WasReceived(r, EndOf(ps, m), n);
      }
    }
  }

  /** What counts as received after a dispatch was received before. */
  lemma WasReceived(r: Receiver, reached: nat, n: nat)
    requires Sorted(r.queue, r.number) && EntriesOk(r)
    requires var h := Dispatch(r); Received(h.r, reached + Spans(r.queue[..|h.dispatched|]), n)
    ensures Received(r, reached, n)
  {
    hide Distance, Ready, Spans, NumberAfter, Sorted, Covers, Ahead, EntryOk, Continues;
    var h := Dispatch(r);
    var k := |h.dispatched|;
    DispatchTakesRun(r.queue, r.number);
    if n > reached + Spans(r.queue[..k]) {
      var i :| 0 <= i < |h.r.queue|
               && Covers(h.r.queue[i], reached + Spans(r.queue[..k]) + Ahead(h.r.queue, h.r.number, i), n);
      LeftInPlace(r, i);
      assert Covers(r.queue[k + i], reached + Ahead(r.queue, r.number, k + i), n);
    } else {
      RunCovers(r, reached, k, n);
    }
  }

  lemma {:induction false} RunCovers(r: Receiver, reached: nat, k: nat, n: nat)
    requires k <= |r.queue| && EntriesOk(r) && forall i :: 0 <= i < k ==> Continues(r.queue, r.number, i)
    requires n <= reached + Spans(r.queue[..k])
    ensures Received(r, reached, n)
  {
    hide Distance, Spans, Covers, Ahead, EntryOk;
    if k == 0 {
      SpansOfNone(r.queue[..0]);
    } else {
      SpansAppend(r.queue, k - 1);
      if n <= reached + Spans(r.queue[..k - 1]) {
        RunCovers(r, reached, k - 1, n);
      } else {
        var x := r.queue[k - 1];
        assert x in r.queue && Continues(r.queue, r.number, k - 1);
        CompleteCovers(x, reached + Ahead(r.queue, r.number, k - 1), n);
      }
    }
  }

  lemma SpansOfNone(queue: seq<IncomingCommand>)
    requires queue == []
    ensures Spans(queue) == 0
  {
  }

  lemma CompleteCovers(x: IncomingCommand, first: nat, n: nat)
    requires EntryOk(x) && x.remaining == 0 && first <= n < first + Span(x)
    ensures Covers(x, first, n)
  {
    NoneMissing(x.got);
  }

  lemma StaysReceived(r: Receiver, reached: nat, n: nat)
    requires Sorted(r.queue, r.number) && Received(r, reached, n)
    ensures var h := Dispatch(r); Received(h.r, reached + Spans(r.queue[..|h.dispatched|]), n)
  {
    hide Distance, Ready, Spans, NumberAfter, Sorted, Covers, Ahead;
    var h := Dispatch(r);
    var k := |h.dispatched|;
    if n > reached {
      var i :| 0 <= i < |r.queue| && Covers(r.queue[i], reached + Ahead(r.queue, r.number, i), n);
      if i >= k {
        LeftInPlace(r, i - k);
        assert Covers(h.r.queue[i - k], reached + Spans(r.queue[..k]) + Ahead(h.r.queue, h.r.number, i - k), n);
      } else {
        CoveredInRun(r, reached, i, n);
      }
    }
  }

  lemma CoveredInRun(r: Receiver, reached: nat, i: nat, n: nat)
    requires Sorted(r.queue, r.number) && i < Ready(r.queue, r.number)
    requires Covers(r.queue[i], reached + Ahead(r.queue, r.number, i), n)
    ensures n <= reached + Spans(r.queue[..Ready(r.queue, r.number)])
  {
    hide Distance, Ready, Spans, NumberAfter, Sorted, Span;
    DispatchTakesRun(r.queue, r.number);
    var k := Ready(r.queue, r.number);
    assert Continues(r.queue, r.number, i);
    SpansAppend(r.queue, i);
    SpansGrow(r.queue, i + 1, k);
  }

  lemma {:induction false} SpansGrow(queue: seq<IncomingCommand>, a: nat, b: nat)
    requires a <= b <= |queue|
    ensures Spans(queue[..a]) <= Spans(queue[..b])
  {
    hide Spans;
    if a < b {
      SpansGrow(queue, a, b - 1);
      SpansAppend(queue, b - 1);
    }
  }
}
