/** The receive queue stays sorted across wrap-around, and dispatching takes exactly the longest
    complete contiguous run from its front. */
module ReceiveOrder {
  import opened Words
  import opened Windows
  import opened Incoming

  /** How many reliable numbers a command takes. */
  function Span(x: IncomingCommand): nat {
    if x.count > 0 then x.count else 1
  }

  function Spans(queue: seq<IncomingCommand>): nat {
    if queue == [] then 0 else Span(queue[0]) + Spans(queue[1..])
  }

  function Ahead(queue: seq<IncomingCommand>, base: u16, i: nat): nat
    requires i < |queue|
  {
    Distance(base, queue[i].number)
  }

  /** Every command lies ahead of the last number dispatched and within the window, and begins
      after the one before it ends. */
  predicate Sorted(queue: seq<IncomingCommand>, base: u16) {
    && (forall i :: 0 <= i < |queue| ==> 1 <= Ahead(queue, base, i) && Admits(base, queue[i].number))
    && (forall i, j :: 0 <= i < j < |queue| ==> Ahead(queue, base, i) + Span(queue[i]) <= Ahead(queue, base, j))
  }

  predicate Drained(queue: seq<IncomingCommand>, base: u16) {
    queue == [] || !IsNext(queue[0], base)
  }

  predicate QueueOk(r: Receiver) {
    Sorted(r.queue, r.number) && Drained(r.queue, r.number) && EntriesOk(r)
  }

  lemma AdmitsMeans(base: u16, n: u16)
    ensures Admits(base, n) <==> Distance(base, n) + base % RELIABLE_WINDOW_SIZE < 0x7000
  {
    WindowsAheadMeans(base, n);
  }

  lemma WindowsAheadMeans(base: u16, n: u16)
    ensures WindowsAhead(base, n) == (base % RELIABLE_WINDOW_SIZE + Distance(base, n)) / RELIABLE_WINDOW_SIZE
  {
    var d := Distance(base, n);
    assert d == if n < base then n + NUMBERS - base else n - base;
  }

  /** Moving forward, but not past a number, keeps it admitted. */
  lemma AdmitsMoves(base: u16, n: u16, t: nat)
    requires Admits(base, n) && t <= Distance(base, n)
    ensures Admits((base + t) % NUMBERS, n)
  {
    hide WindowsAhead, Admits, Distance;
    AdmitsMeans(base, n);
    AdmitsMeans((base + t) % NUMBERS, n);
    DistanceMoves(base, n, t);
    WindowPart(base, t);
  }

  lemma WindowPart(base: u16, t: nat)
    ensures (base + t) % NUMBERS % RELIABLE_WINDOW_SIZE <= base % RELIABLE_WINDOW_SIZE + t
  {
    assert (base + t) % NUMBERS % RELIABLE_WINDOW_SIZE == (base % RELIABLE_WINDOW_SIZE + t) % RELIABLE_WINDOW_SIZE;
  }

  /** Every distance in the queue is between 1 and 0x6FFF, and no number is queued twice. */
  lemma QueueDistances(queue: seq<IncomingCommand>, base: u16)
    requires Sorted(queue, base)
    ensures forall i :: 0 <= i < |queue| ==> 1 <= Ahead(queue, base, i) <= 0x6FFF
    ensures forall i, j :: 0 <= i < j < |queue| ==> queue[i].number != queue[j].number
  {
    forall i | 0 <= i < |queue| ensures Ahead(queue, base, i) <= 0x6FFF {
      AdmitsMeans(base, queue[i].number);
    }
    hide WindowsAhead, Admits, Distance;
    forall i, j | 0 <= i < j < |queue| ensures queue[i].number != queue[j].number {
      assert Ahead(queue, base, i) + Span(queue[i]) <= Ahead(queue, base, j);
    }
  }

  // ---- finding the place ----

  lemma {:induction false} PlaceSplits(queue: seq<IncomingCommand>, base: u16, number: u16)
    requires Sorted(queue, base)
    ensures var p := Place(queue, base, number);
            && (forall i :: 0 <= i < p ==> Ahead(queue, base, i) <= Distance(base, number))
            && (forall i :: p <= i < |queue| ==> Ahead(queue, base, i) > Distance(base, number))
  {
    hide Distance, Admits;
    if queue != [] {
      var last := |queue| - 1;
      if Ahead(queue, base, last) > Distance(base, number) {
        var front := queue[..last];
        assert forall i :: 0 <= i < last ==> front[i] == queue[i] && Ahead(front, base, i) == Ahead(queue, base, i);
        PlaceSplits(front, base, number);
      } else {
        forall i | 0 <= i < |queue| ensures Ahead(queue, base, i) <= Distance(base, number) {
          if i < last {
            assert Ahead(queue, base, i) + Span(queue[i]) <= Ahead(queue, base, last);
          }
        }
      }
    }
  }

  /** The search misses no command with that number. */
  lemma PlaceFinds(queue: seq<IncomingCommand>, base: u16, number: u16)
    requires Sorted(queue, base)
    ensures AlreadyQueued(queue, Place(queue, base, number), number) <==> exists i :: 0 <= i < |queue|
                                                                                      && queue[i].number == number
  {
    hide Distance, Admits;
    PlaceSplits(queue, base, number);
    var p := Place(queue, base, number);
    if i :| 0 <= i < |queue| && queue[i].number == number {
      assert Ahead(queue, base, i) == Distance(base, number);
      if i < p - 1 {
        assert false;
      }
    }
  }

  predicate Apart(queue: seq<IncomingCommand>, base: u16, x: IncomingCommand) {
    forall i :: 0 <= i < |queue| ==>
      || Ahead(queue, base, i) + Span(queue[i]) <= Distance(base, x.number)
      || Distance(base, x.number) + Span(x) <= Ahead(queue, base, i)
  }

  lemma Inserted(queue: seq<IncomingCommand>, base: u16, p: nat, x: IncomingCommand, i: nat)
    requires p <= |queue| && i <= |queue|
    ensures var q := queue[..p] + [x] + queue[p..];
            && q[i] == (if i < p then queue[i] else if i == p then x else queue[i - 1])
            && Ahead(q, base, i) == (if i < p then Ahead(queue, base, i) else if i == p then Distance(base, x.number)
                                                                              else Ahead(queue, base, i - 1))
  {
  }

  /** Putting a new command in its place keeps the queue sorted, if it takes none of the numbers of
      the others. */
  lemma InsertKeepsSorted(queue: seq<IncomingCommand>, base: u16, x: IncomingCommand)
    requires Sorted(queue, base) && Admits(base, x.number) && x.number != base && Apart(queue, base, x)
    ensures var p := Place(queue, base, x.number); Sorted(queue[..p] + [x] + queue[p..], base)
  {
    hide Admits, Span, Distance, Ahead, Place;
    var p := Place(queue, base, x.number);
    PlaceSplits(queue, base, x.number);
    DistanceIsPositive(base, x.number);
    SpanIsPositive(x);
    var q := queue[..p] + [x] + queue[p..];
    forall i | 0 <= i < |q| ensures 1 <= Ahead(q, base, i) && Admits(base, q[i].number) {
      Inserted(queue, base, p, x, i);
    }
    forall i, j | 0 <= i < j < |q| ensures Ahead(q, base, i) + Span(q[i]) <= Ahead(q, base, j) {
      Inserted(queue, base, p, x, i);
      Inserted(queue, base, p, x, j);
      if i == p {
        SpanIsPositive(queue[j - 1]);
      } else if j == p {
        SpanIsPositive(queue[i]);
      }
    }
  }

  lemma DistanceIsPositive(base: u16, n: u16)
    ensures n != base ==> Distance(base, n) >= 1
  {
  }

  lemma SpanIsPositive(x: IncomingCommand)
    ensures Span(x) >= 1
  {
  }

  // ---- dispatching ----

  lemma LastNumberMeans(x: IncomingCommand)
    ensures LastNumber(x) == (x.number + Span(x) - 1) % NUMBERS
  {
  }

  lemma NextIsOneAhead(x: IncomingCommand, base: u16)
    ensures IsNext(x, base) <==> x.remaining == 0 && Distance(base, x.number) == 1
    ensures IsNext(x, base) ==> LastNumber(x) == (base + Span(x)) % NUMBERS
  {
    LastNumberMeans(x);
  }

  lemma SortedTail(queue: seq<IncomingCommand>, base: u16)
    requires Sorted(queue, base) && queue != [] && IsNext(queue[0], base)
    ensures var base' := LastNumber(queue[0]);
            && Sorted(queue[1..], base')
            && forall i :: 0 <= i < |queue| - 1 ==>
                 Ahead(queue[1..], base', i) == Ahead(queue, base, i + 1) - Span(queue[0])
  {
    hide Admits, Distance, Span;
    var t := queue[1..];
    var x := queue[0];
    var base' := LastNumber(x);
    NextIsOneAhead(x, base);
    forall i | 0 <= i < |t|
      ensures Ahead(t, base', i) == Ahead(queue, base, i + 1) - Span(x) && 1 <= Ahead(t, base', i)
      ensures Admits(base', t[i].number)
    {
      assert t[i] == queue[i + 1];
      assert Ahead(queue, base, 0) + Span(x) <= Ahead(queue, base, i + 1);
      DistanceMoves(base, t[i].number, Span(x));
      AdmitsMoves(base, t[i].number, Span(x));
    }
    forall i, j | 0 <= i < j < |t| ensures Ahead(t, base', i) + Span(t[i]) <= Ahead(t, base', j) {
      assert Ahead(queue, base, i + 1) + Span(queue[i + 1]) <= Ahead(queue, base, j + 1);
    }
  }

  lemma SpansTail(queue: seq<IncomingCommand>, i: nat)
    requires 1 <= i <= |queue|
    ensures Spans(queue[..i]) == Span(queue[0]) + Spans(queue[1..][..i - 1])
  {
    assert queue[..i][1..] == queue[1..][..i - 1];
  }

  /** A command begins right after the first i commands, if these are contiguous. */
  predicate Continues(queue: seq<IncomingCommand>, base: u16, i: nat)
    requires i < |queue|
  {
    queue[i].remaining == 0 && Ahead(queue, base, i) == 1 + Spans(queue[..i])
  }

  lemma ContinuesTail(queue: seq<IncomingCommand>, base: u16, i: nat)
    requires Sorted(queue, base) && 0 < i < |queue| && IsNext(queue[0], base)
    ensures Continues(queue, base, i) <==> Continues(queue[1..], LastNumber(queue[0]), i - 1)
    ensures Ahead(queue, base, i) == Ahead(queue[1..], LastNumber(queue[0]), i - 1) + Span(queue[0])
  {
    hide Distance, Span, IsNext;
    SortedTail(queue, base);
    SpansTail(queue, i);
    assert queue[1..][i - 1] == queue[i];
    assert Ahead(queue[1..], LastNumber(queue[0]), i - 1) == Ahead(queue, base, i) - Span(queue[0]);
  }

  /** Dispatching takes commands as long as they are complete and each begins right after the one
      before, and no longer; what is left lies beyond them. */
  lemma {:induction false} DispatchTakesRun(queue: seq<IncomingCommand>, base: u16)
    requires Sorted(queue, base)
    ensures var k := Ready(queue, base);
            && (forall i :: 0 <= i < k ==> Continues(queue, base, i))
            && (k < |queue| ==> !Continues(queue, base, k))
            && (forall i :: k <= i < |queue| ==> Spans(queue[..k]) < Ahead(queue, base, i))
            && NumberAfter(queue, base, k) == (base + Spans(queue[..k])) % NUMBERS
  {
    hide Sorted, Distance, Span, Continues, NumberAfter, Ahead;
    if queue != [] {
      FirstContinues(queue, base);
      if IsNext(queue[0], base) {
        var t := queue[1..];
        var base' := LastNumber(queue[0]);
        SortedTail(queue, base);
        DispatchTakesRun(t, base');
        var k := Ready(queue, base);
        forall i | 0 < i < |queue|
          ensures Continues(queue, base, i) <==> Continues(t, base', i - 1)
          ensures Ahead(queue, base, i) == Ahead(t, base', i - 1) + Span(queue[0])
        {
          ContinuesTail(queue, base, i);
        }
        SpansTail(queue, k);
        NumberAfterMoves(queue, base, k);
        NextIsOneAhead(queue[0], base);
        WrapsAdd(base, Span(queue[0]), Spans(t[..k - 1]));
      } else {
        NumberBefore(queue, base);
      }
    } else {
      NumberBefore(queue, base);
    }
  }

  lemma NumberBefore(queue: seq<IncomingCommand>, base: u16)
    ensures NumberAfter(queue, base, 0) == base == (base + Spans(queue[..0])) % NUMBERS
    ensures Sorted(queue, base) ==> forall i :: 0 <= i < |queue| ==> Spans(queue[..0]) < Ahead(queue, base, i)
  {
    hide Distance;
  }

  lemma FirstContinues(queue: seq<IncomingCommand>, base: u16)
    requires queue != []
    ensures Continues(queue, base, 0) <==> IsNext(queue[0], base)
  {
    NextIsOneAhead(queue[0], base);
    assert queue[..0] == [];
  }

  lemma NumberAfterMoves(queue: seq<IncomingCommand>, base: u16, k: nat)
    requires 0 < k <= |queue|
    ensures NumberAfter(queue, base, k) == NumberAfter(queue[1..], LastNumber(queue[0]), k - 1)
  {
  }

  lemma {:induction false} LeftSorted(queue: seq<IncomingCommand>, base: u16)
    requires Sorted(queue, base)
    ensures var k := Ready(queue, base);
            Sorted(queue[k..], NumberAfter(queue, base, k)) && Drained(queue[k..], NumberAfter(queue, base, k))
  {
    hide Sorted, IsNext, LastNumber;
    if queue != [] && IsNext(queue[0], base) {
      SortedTail(queue, base);
      LeftSorted(queue[1..], LastNumber(queue[0]));
      var k := Ready(queue, base);
      NumberAfterMoves(queue, base, k);
      assert queue[k..] == queue[1..][k - 1..];
    } else {
      assert queue[0..] == queue;
    }
  }

  /** After dispatching, the queue is sorted again and its head has to wait. */
  lemma DispatchKeepsQueueOk(r: Receiver)
    requires Sorted(r.queue, r.number) && EntriesOk(r)
    ensures QueueOk(Dispatch(r).r)
  {
    hide Sorted, Drained, Ready, NumberAfter, EntryOk;
    LeftSorted(r.queue, r.number);
  }
}
