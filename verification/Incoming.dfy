/** A channel's receiving half: the sorted queue of reliable commands that wait for those before
    them (enet_peer_queue_incoming_command and enet_peer_dispatch_incoming_reliable_commands of
    src/enet/peer.c, enet_protocol_handle_send_fragment of src/enet/protocol.c). */
module Incoming {
  import opened Words
  import opened Windows

  /** count is the number of fragments, 0 for a command that was not fragmented; got says which
      have arrived, and data is the packet as far as it has been put together. */
  datatype IncomingCommand = IncomingCommand(number: u16, fragmented: bool, count: nat, remaining: nat,
      got: seq<bool>, data: seq<byte>)

  /** number is the last reliable number dispatched. */
  datatype Receiver = Receiver(number: u16, queue: seq<IncomingCommand>)

  const MAXIMUM_FRAGMENT_COUNT := 1024 * 1024

  // ---- operations ----

  /** Where the backward search for a number ends: after the last command not beyond it. */
  function Place(queue: seq<IncomingCommand>, base: u16, number: u16): (p: nat)
    ensures p <= |queue|
  {
    if queue == [] then 0
    else if Distance(base, queue[|queue| - 1].number) > Distance(base, number)
         then Place(queue[..|queue| - 1], base, number)
    else |queue|
  }

  predicate AlreadyQueued(queue: seq<IncomingCommand>, p: nat, number: u16)
    requires p <= |queue|
  {
    p > 0 && queue[p - 1].number == number
  }

  function LastNumber(x: IncomingCommand): u16 {
    if x.count > 0 then (x.number + x.count - 1) % NUMBERS else x.number
  }

  predicate IsNext(x: IncomingCommand, base: u16) {
    x.remaining == 0 && x.number == (base + 1) % NUMBERS
  }

  /** How many commands can be dispatched at once. */
  function Ready(queue: seq<IncomingCommand>, base: u16): (k: nat)
    ensures k <= |queue|
  {
    if queue == [] || !IsNext(queue[0], base) then 0 else 1 + Ready(queue[1..], LastNumber(queue[0]))
  }

  function NumberAfter(queue: seq<IncomingCommand>, base: u16, k: nat): u16
    requires k <= |queue|
  {
    if k == 0 then base else LastNumber(queue[k - 1])
  }

  datatype Handled = Handled(r: Receiver, dispatched: seq<IncomingCommand>, ok: bool)

  function Dispatch(r: Receiver): Handled {
    var k := Ready(r.queue, r.number);
    Handled(Receiver(NumberAfter(r.queue, r.number, k), r.queue[k..]), r.queue[..k], true)
  }

  function InsertAt(r: Receiver, p: nat, x: IncomingCommand): Receiver
    requires p <= |r.queue|
  {
    r.(queue := r.queue[..p] + [x] + r.queue[p..])
  }

  /** Whether a command is new to the queue. */
  predicate Wanted(r: Receiver, number: u16) {
    && Admits(r.number, number) && number != r.number
    && !AlreadyQueued(r.queue, Place(r.queue, r.number, number), number)
  }

  /** An unfragmented reliable command. A command that is not wanted is dropped without complaint;
      one there is no room for is an error, after which it is not acknowledged. */
  function HandleReliable(r: Receiver, number: u16, data: seq<byte>, limit: nat, accepting: bool): Handled {
    if |data| > limit then Handled(r, [], false)
    else if !Wanted(r, number) then Handled(r, [], true)
    else if !accepting then Handled(r, [], false)
    else Dispatch(InsertAt(r, Place(r.queue, r.number, number), IncomingCommand(number, false, 0, 0, [], data)))
  }

  datatype Fragment = Fragment(start: u16, count: u32, index: u32, total: u32, offset: u32, data: seq<byte>)

  predicate FragmentOk(f: Fragment, limit: nat) {
    && f.count <= MAXIMUM_FRAGMENT_COUNT && f.index < f.count
    && f.total <= limit && f.offset < f.total && |f.data| <= f.total - f.offset
  }

  function Blank(f: Fragment): IncomingCommand {
    IncomingCommand(f.start, true, f.count, f.count, seq(f.count, i => false), seq(f.total, i => 0))
  }

  predicate SamePacket(x: IncomingCommand, f: Fragment) {
    x.fragmented && |x.data| == f.total && x.count == f.count
  }

  /** What the queue keeps of each command. */
  predicate EntryOk(x: IncomingCommand) {
    if x.fragmented then x.count >= 1 && |x.got| == x.count && x.remaining == Missing(x.got)
    else x.count == 0 && x.remaining == 0 && x.got == []
  }

  function Missing(got: seq<bool>): (n: nat)
    ensures n <= |got|
  {
    if got == [] then 0 else (if got[0] then 0 else 1) + Missing(got[1..])
  }

  predicate EntriesOk(r: Receiver) {
    forall x :: x in r.queue ==> EntryOk(x)
  }

  /** Copying a fragment into its place, once. */
  function Fill(x: IncomingCommand, f: Fragment): (y: IncomingCommand)
    requires x.fragmented && EntryOk(x) && f.index < x.count && f.offset + |f.data| <= |x.data|
    ensures EntryOk(y) && y.fragmented && y.count == x.count && |y.data| == |x.data|
  {
    MissingSome(x.got, f.index);
    if x.got[f.index] then x
    else x.(remaining := x.remaining - 1, got := x.got[f.index := true],
            data := x.data[..f.offset] + f.data + x.data[f.offset + |f.data|..])
  }

  /** Filling in the command at a place of the queue, and dispatching when that completes it. */
  function FillAt(r: Receiver, at: nat, f: Fragment): Handled
    requires at < |r.queue| && EntryOk(r.queue[at]) && SamePacket(r.queue[at], f) && f.index < f.count
    requires f.offset + |f.data| <= f.total
  {
    var x := r.queue[at];
    if x.got[f.index] then Handled(r, [], true)
    else
      var y := Fill(x, f);
      var r' := r.(queue := r.queue[at := y]);
      if y.remaining == 0 then Dispatch(r') else Handled(r', [], true)
  }

  lemma {:induction false} MissingSome(got: seq<bool>, i: nat)
    requires i < |got|
    ensures !got[i] ==> Missing(got) > 0 && Missing(got[i := true]) == Missing(got) - 1
  {
    if i > 0 {
      MissingSome(got[1..], i - 1);
      assert got[i := true][1..] == got[1..][i - 1 := true];
    } else {
      assert got[i := true][1..] == got[1..];
    }
  }

  /** A fragment: its packet is found by the number of its first fragment, and started if it is
      not there. */
  function HandleFragment(r: Receiver, f: Fragment, limit: nat, accepting: bool): Handled
    requires EntriesOk(r)
  {
    if |f.data| > limit then Handled(r, [], false)
    else if !Admits(r.number, f.start) then Handled(r, [], true)
    else if !FragmentOk(f, limit) then Handled(r, [], false)
    else
      var p := Place(r.queue, r.number, f.start);
      if AlreadyQueued(r.queue, p, f.start) then
        if SamePacket(r.queue[p - 1], f) then FillAt(r, p - 1, f) else Handled(r, [], false)
      else if !Wanted(r, f.start) || !accepting then Handled(r, [], false)
      else
        MissingAll(f.count);
        var started := Dispatch(InsertAt(r, p, Blank(f)));
        ReadyBefore(InsertAt(r, p, Blank(f)).queue, r.number, p);
        var filled := FillAt(started.r, p - |started.dispatched|, f);
        Handled(filled.r, started.dispatched + filled.dispatched, true)
  }

  lemma {:induction false} MissingAll(n: nat)
    ensures Missing(seq(n, i => false)) == n
  {
    if n > 0 {
      MissingAll(n - 1);
      assert seq(n, i => false)[1..] == seq((n - 1) as nat, i => false);
    }
  }

  /** An incomplete command is never dispatched, nor anything behind it. */
  lemma {:induction false} ReadyBefore(queue: seq<IncomingCommand>, base: u16, p: nat)
    requires p < |queue| && queue[p].remaining > 0
    ensures Ready(queue, base) <= p
  {
    if IsNext(queue[0], base) {
      ReadyBefore(queue[1..], LastNumber(queue[0]), p - 1);
    }
  }

  lemma FillIsOk(r: Receiver, at: nat, f: Fragment)
    requires at < |r.queue| && EntryOk(r.queue[at]) && SamePacket(r.queue[at], f) && f.index < f.count
    requires f.offset + |f.data| <= f.total
    ensures FillAt(r, at, f).ok
  {
  }

  lemma DispatchIsOk(r: Receiver)
    ensures Dispatch(r).ok
  {
  }
}
