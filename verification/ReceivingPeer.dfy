/** The receiving half of a peer, updated in place as src/enet/peer.c and src/enet/protocol.c
    update it, and proved to do what Incoming and UnreliableQueue specify. */
module ReceivingPeer {
  import opened Words
  import opened Windows
  import opened Incoming
  import opened UnreliableQueue
  import opened Outgoing
  import opened Delivery

  datatype Dispatched = Reliably(command: IncomingCommand) | Unreliably(plain: UnreliableCommand)

  function Reliables(s: seq<Dispatched>): seq<IncomingCommand> {
    if s == [] then [] else Reliables(s[..|s| - 1]) + (if s[|s| - 1].Reliably? then [s[|s| - 1].command] else [])
  }

  function Unreliables(s: seq<Dispatched>): seq<UnreliableCommand> {
    if s == [] then [] else Unreliables(s[..|s| - 1]) + (if s[|s| - 1].Reliably? then [] else [s[|s| - 1].plain])
  }

  lemma {:induction false} AppendReliables(s: seq<Dispatched>, queue: seq<IncomingCommand>)
    ensures var t := s + seq(|queue|, i requires 0 <= i < |queue| => Reliably(queue[i]));
            Reliables(t) == Reliables(s) + queue && Unreliables(t) == Unreliables(s)
  {
    var t := seq(|queue|, i requires 0 <= i < |queue| => Reliably(queue[i]));
    if queue == [] {
      assert s + t == s;
    } else {
      var n := |queue| - 1;
      AppendReliables(s, queue[..n]);
      assert (s + t)[..|s + t| - 1] == s + seq(n, i requires 0 <= i < n => Reliably(queue[..n][i]));
      assert queue == queue[..n] + [queue[n]];
    }
  }

  lemma {:induction false} AppendUnreliables(s: seq<Dispatched>, list: seq<UnreliableCommand>)
    ensures var t := s + seq(|list|, i requires 0 <= i < |list| => Unreliably(list[i]));
            Reliables(t) == Reliables(s) && Unreliables(t) == Unreliables(s) + list
  {
    var t := seq(|list|, i requires 0 <= i < |list| => Unreliably(list[i]));
    if list == [] {
      assert s + t == s;
    } else {
      var n := |list| - 1;
      AppendUnreliables(s, list[..n]);
      assert (s + t)[..|s + t| - 1] == s + seq(n, i requires 0 <= i < n => Unreliably(list[..n][i]));
      assert list == list[..n] + [list[n]];
    }
  }

  class IncomingChannel {
    var incomingReliableSequenceNumber: u16
    var incomingUnreliableSequenceNumber: u16
    var incomingReliableCommands: seq<IncomingCommand>
    var incomingUnreliableCommands: seq<UnreliableCommand>

    ghost function State(): Receiver
      reads this
    {
      Receiver(incomingReliableSequenceNumber, incomingReliableCommands)
    }

    constructor ()
      ensures State() == Receiver(0, []) && EntriesOk(State())
      ensures incomingUnreliableSequenceNumber == 0 && incomingUnreliableCommands == []
    {
      incomingReliableSequenceNumber, incomingUnreliableSequenceNumber := 0, 0;
      incomingReliableCommands, incomingUnreliableCommands := [], [];
    }

    /** The backward search of enet_peer_queue_incoming_command for a reliable command, with its
        comparisons of wrapped numbers. */
    method FindPlace(number: u16) returns (p: nat)
      ensures p == Place(incomingReliableCommands, incomingReliableSequenceNumber, number)
    {
      p := |incomingReliableCommands|;
      assert incomingReliableCommands[..p] == incomingReliableCommands;
      while p > 0
        invariant p <= |incomingReliableCommands|
        invariant Place(incomingReliableCommands, incomingReliableSequenceNumber, number)
               == Place(incomingReliableCommands[..p], incomingReliableSequenceNumber, number)
      {
        var queued := incomingReliableCommands[p - 1].number;
        ComparesDistances(incomingReliableSequenceNumber, number, queued);
        assert incomingReliableCommands[..p][..p - 1] == incomingReliableCommands[..p - 1];
        if number >= incomingReliableSequenceNumber {
          if queued >= incomingReliableSequenceNumber && queued <= number {
            return;
          }
        } else if queued >= incomingReliableSequenceNumber || queued <= number {
          return;
        }
        p := p - 1;
      }
    }

    /** The backward search for a sequenced unreliable command. */
    method FindUnreliablePlace(number: u16, unreliableNumber: u16) returns (p: nat)
      ensures p == UnreliablePlace(incomingUnreliableCommands, incomingReliableSequenceNumber, number, unreliableNumber)
    {
      p := |incomingUnreliableCommands|;
      assert incomingUnreliableCommands[..p] == incomingUnreliableCommands;
      while p > 0
        invariant p <= |incomingUnreliableCommands|
        invariant UnreliablePlace(incomingUnreliableCommands, incomingReliableSequenceNumber, number, unreliableNumber)
               == UnreliablePlace(incomingUnreliableCommands[..p], incomingReliableSequenceNumber, number,
                                  unreliableNumber)
      {
        var x := incomingUnreliableCommands[p - 1];
        ComparesDistances(incomingReliableSequenceNumber, number, x.number);
        assert incomingUnreliableCommands[..p][..p - 1] == incomingUnreliableCommands[..p - 1];
        var later := if number >= incomingReliableSequenceNumber then x.number < incomingReliableSequenceNumber
                                                                      || x.number > number
                     else x.number < incomingReliableSequenceNumber && x.number > number;
        if !later && (x.number != number || x.unreliableNumber <= unreliableNumber) {
          return;
        }
        p := p - 1;
      }
    }
  }

  /** Comparing wrapped numbers case by case compares their distances. */
  lemma ComparesDistances(base: u16, number: u16, queued: u16)
    ensures Distance(base, queued) <= Distance(base, number) <==>
            if number >= base then queued >= base && queued <= number
            else queued >= base || queued <= number
  {
  }

  datatype Acknowledgement = Acknowledgement(channel: byte, number: u16, sentTime: u16, disconnects: bool)

  class ReceivingPeer {
    const channels: seq<IncomingChannel>
    var dispatchedCommands: seq<Dispatched>
    var acknowledgements: seq<Acknowledgement>
    var totalWaitingData: nat

    ghost predicate Valid()
      reads this, channels
    {
      && (forall i, j :: 0 <= i < j < |channels| ==> channels[i] != channels[j])
      && forall i :: 0 <= i < |channels| ==> EntriesOk(channels[i].State())
    }

    /** One turn of the loop over the unreliable commands; moved collects those dispatched. */
    method ConsiderUnreliable(ch: IncomingChannel, dropped0: nat, start0: nat, current0: nat,
        ghost moved0: seq<UnreliableCommand>)
      returns (dropped: nat, start: nat, current: nat, stopped: bool, ghost moved: seq<UnreliableCommand>)
      requires dropped0 <= start0 <= current0 < |ch.incomingUnreliableCommands|
      modifies this`dispatchedCommands, ch`incomingUnreliableCommands, ch`incomingUnreliableSequenceNumber
      ensures moved0 <= moved
      ensures Unreliables(dispatchedCommands) == Unreliables(old(dispatchedCommands)) + moved[|moved0|..]
      ensures Reliables(dispatchedCommands) == Reliables(old(dispatchedCommands))
      ensures Walk(ch.incomingUnreliableCommands, moved, dropped, start, current, ch.incomingUnreliableSequenceNumber,
                   stopped)
           == Turn(Walk(old(ch.incomingUnreliableCommands), moved0, dropped0, start0, current0,
                        old(ch.incomingUnreliableSequenceNumber), false), ch.incomingReliableSequenceNumber)
    {
      hide Admits, Reliables, Unreliables;
      dropped, start, current, stopped, moved := dropped0, start0, current0, false, moved0;
      var base := ch.incomingReliableSequenceNumber;
      var x := ch.incomingUnreliableCommands[current];
      if x.unsequenced {
        current := current + 1;
      } else if x.number == base && x.remaining == 0 {
        ch.incomingUnreliableSequenceNumber := x.unreliableNumber;
        current := current + 1;
      } else if x.number != base && Admits(base, x.number) {
        stopped := true;
      } else {
        var ran := start != current;
        if ran {
          moved := moved + ch.incomingUnreliableCommands[start..current];
          MoveToDispatched(ch, start, current);
          current := start;
        }
        if x.number != base {
          dropped := current + 1;
        } else if ran {
          dropped := current;
        } else if dropped != current {
          dropped := current - 1;
        }
        start, current := current + 1, current + 1;
      }
    }

    /** enet_peer_dispatch_incoming_unreliable_commands; working is the command not to be freed. */
    method DispatchIncomingUnreliableCommands(ch: IncomingChannel, working: int)
      modifies this`dispatchedCommands, ch`incomingUnreliableCommands, ch`incomingUnreliableSequenceNumber
      ensures var o := DispatchUnreliable(old(ch.incomingUnreliableCommands), ch.incomingReliableSequenceNumber,
                                          old(ch.incomingUnreliableSequenceNumber), working);
              && ch.incomingUnreliableCommands == o.left && ch.incomingUnreliableSequenceNumber == o.latest
              && Unreliables(dispatchedCommands) == Unreliables(old(dispatchedCommands)) + o.moved
              && Reliables(dispatchedCommands) == Reliables(old(dispatchedCommands))
    {
      hide Turn, Reliables, Unreliables, Spared;
      ghost var first := Walk(ch.incomingUnreliableCommands, [], 0, 0, 0, ch.incomingUnreliableSequenceNumber, false);
      ghost var moved: seq<UnreliableCommand> := [];
      var base := ch.incomingReliableSequenceNumber;
      var dropped: nat, start: nat, current: nat, stopped := 0, 0, 0, false;
      while current < |ch.incomingUnreliableCommands| && !stopped
        invariant dropped <= start <= current <= |ch.incomingUnreliableCommands|
        invariant Unreliables(dispatchedCommands) == Unreliables(old(dispatchedCommands)) + moved
        invariant Reliables(dispatchedCommands) == Reliables(old(dispatchedCommands))
        invariant var w := Walk(ch.incomingUnreliableCommands, moved, dropped, start, current,
                                ch.incomingUnreliableSequenceNumber, stopped);
                  WalkOn(first, base) == if stopped then w else WalkOn(w, base)
        decreases !stopped, |ch.incomingUnreliableCommands| - current
      {
        ghost var before := moved;
        dropped, start, current, stopped, moved := ConsiderUnreliable(ch, dropped, start, current, moved);
        assert moved == before + moved[|before|..];
      }
      if start != current {
        moved := moved + ch.incomingUnreliableCommands[start..current];
        MoveToDispatched(ch, start, current);
        current := start;
        dropped := current;
      }
      FreeCommands(ch, dropped, working);
    }

    method MoveToDispatched(ch: IncomingChannel, start: nat, end: nat)
      requires start <= end <= |ch.incomingUnreliableCommands|
      modifies this`dispatchedCommands, ch`incomingUnreliableCommands
      ensures ch.incomingUnreliableCommands == old(ch.incomingUnreliableCommands)[..start]
              + old(ch.incomingUnreliableCommands)[end..]
      ensures Unreliables(dispatchedCommands) == Unreliables(old(dispatchedCommands))
              + old(ch.incomingUnreliableCommands)[start..end]
      ensures Reliables(dispatchedCommands) == Reliables(old(dispatchedCommands))
    {
      var run := ch.incomingUnreliableCommands[start..end];
      AppendUnreliables(dispatchedCommands, run);
      dispatchedCommands := dispatchedCommands + seq(|run|, i requires 0 <= i < |run| => Unreliably(run[i]));
      ch.incomingUnreliableCommands := ch.incomingUnreliableCommands[..start] + ch.incomingUnreliableCommands[end..];
    }

    /** enet_peer_remove_incoming_commands, from the front of the list. */
    method FreeCommands(ch: IncomingChannel, end: nat, working: int)
      requires end <= |ch.incomingUnreliableCommands|
      modifies ch`incomingUnreliableCommands
      ensures var list := old(ch.incomingUnreliableCommands);
              ch.incomingUnreliableCommands == Spared(list[..end], working) + list[end..]
    {
      ghost var list := ch.incomingUnreliableCommands;
      var kept: nat, seen: nat := 0, 0;
      assert Spared(list[..0], working) + list[0..] == list;
      hide Spared;
      while seen < end
        invariant kept <= seen <= end
        invariant kept == |Spared(list[..seen], working)|
        invariant ch.incomingUnreliableCommands == Spared(list[..seen], working) + list[seen..]
      {
        SparesNext(list, seen, working);
        Takes(Spared(list[..seen], working), list[seen], list[seen + 1..], list[seen..], ch.incomingUnreliableCommands);
        if ch.incomingUnreliableCommands[kept].node == working {
          kept := kept + 1;
        } else {
          ch.incomingUnreliableCommands := ch.incomingUnreliableCommands[..kept]
                                           + ch.incomingUnreliableCommands[kept + 1..];
        }
        seen := seen + 1;
      }
    }
  
    method ReadyRun(ch: IncomingChannel) returns (k: nat)
      modifies ch`incomingReliableSequenceNumber
      ensures k == Ready(old(ch.incomingReliableCommands), old(ch.incomingReliableSequenceNumber))
      ensures ch.incomingReliableSequenceNumber
              == NumberAfter(ch.incomingReliableCommands, old(ch.incomingReliableSequenceNumber), k)
    {
      hide IsNext;
      ghost var base := ch.incomingReliableSequenceNumber;
      var queue := ch.incomingReliableCommands;
      k := 0;
      assert queue[0..] == queue;
      while k < |queue| && IsNext(queue[k], ch.incomingReliableSequenceNumber)
        invariant k <= |queue|
        invariant Ready(queue, base) == k + Ready(queue[k..], ch.incomingReliableSequenceNumber)
        invariant ch.incomingReliableSequenceNumber == NumberAfter(queue, base, k)
      {
        assert queue[k..][1..] == queue[k + 1..] && queue[k..][0] == queue[k];
        ch.incomingReliableSequenceNumber := queue[k].number;
        if queue[k].count > 0 {
          ch.incomingReliableSequenceNumber := (ch.incomingReliableSequenceNumber + queue[k].count - 1) % NUMBERS;
        }
        k := k + 1;
      }
    }

    /** enet_peer_dispatch_incoming_reliable_commands */
    method DispatchIncomingReliableCommands(ch: IncomingChannel, working: int)
      modifies this`dispatchedCommands, ch
      ensures var h := Dispatch(old(ch.State()));
              && ch.State() == h.r && Reliables(dispatchedCommands) == Reliables(old(dispatchedCommands)) + h.dispatched
              && if h.dispatched == [] then
                   && Unreliables(dispatchedCommands) == Unreliables(old(dispatchedCommands))
                   && ch.incomingUnreliableCommands == old(ch.incomingUnreliableCommands)
                   && ch.incomingUnreliableSequenceNumber == old(ch.incomingUnreliableSequenceNumber)
                 else
                   var o := DispatchUnreliable(old(ch.incomingUnreliableCommands), h.r.number, 0, working);
                   && ch.incomingUnreliableCommands == o.left && ch.incomingUnreliableSequenceNumber == o.latest
                   && Unreliables(dispatchedCommands) == Unreliables(old(dispatchedCommands)) + o.moved
    {
      hide Ready, NumberAfter, Reliables, Unreliables, WalkOn, LastRun, Spared, Freed;
      var k := ReadyRun(ch);
      if k == 0 {
        NumberUnmoved(old(ch.incomingReliableCommands), old(ch.incomingReliableSequenceNumber));
        assert ch.incomingReliableCommands[0..] == ch.incomingReliableCommands;
        return;
      }
      ch.incomingUnreliableSequenceNumber := 0;
      var run := ch.incomingReliableCommands[..k];
      AppendReliables(dispatchedCommands, run);
      dispatchedCommands := dispatchedCommands + seq(|run|, i requires 0 <= i < |run| => Reliably(run[i]));
      ch.incomingReliableCommands := ch.incomingReliableCommands[k..];
      if ch.incomingUnreliableCommands != [] {
        DispatchIncomingUnreliableCommands(ch, working);
      } else {
        NothingUnreliable(ch.incomingReliableSequenceNumber, working);
      }
    }

    // ---- a reliable command arrives ----

    /** Inserting a command and dispatching what that makes ready. at is where the command stands
        afterwards, if it is incomplete. */
    method InsertAndDispatch(ch: IncomingChannel, p: nat, x: IncomingCommand) returns (at: nat)
      requires p <= |ch.incomingReliableCommands|
      modifies this`dispatchedCommands, ch
      ensures var h := Dispatch(InsertAt(old(ch.State()), p, x));
              && ch.State() == h.r && Reliables(dispatchedCommands) == Reliables(old(dispatchedCommands)) + h.dispatched
              && (x.remaining > 0 ==> |h.dispatched| <= p && at == p - |h.dispatched|)
    {
      hide Reliables, Ready, NumberAfter, DispatchUnreliable;
      at := 0;
      ch.incomingReliableCommands := ch.incomingReliableCommands[..p] + [x] + ch.incomingReliableCommands[p..];
      var before := |ch.incomingReliableCommands|;
      if x.remaining > 0 {
        assert ch.incomingReliableCommands[p] == x;
        ReadyBefore(ch.incomingReliableCommands, ch.incomingReliableSequenceNumber, p);
      }
      DispatchIncomingReliableCommands(ch, -1);
      if x.remaining > 0 {
        at := p - (before - |ch.incomingReliableCommands|);
      }
    }

    /** enet_peer_queue_incoming_command, for a reliable command or the first fragment of a packet. */
    method QueueIncomingReliable(ch: IncomingChannel, x: IncomingCommand, maximumWaitingData: nat)
      returns (wanted: bool, queued: bool, at: nat)
      requires EntriesOk(ch.State()) && EntryOk(x)
      modifies this`dispatchedCommands, this`totalWaitingData, ch
      ensures wanted == Wanted(old(ch.State()), x.number)
      ensures queued == (wanted && old(totalWaitingData) < maximumWaitingData)
      ensures var p := Place(old(ch.incomingReliableCommands), old(ch.incomingReliableSequenceNumber), x.number);
              var h := if queued then Dispatch(InsertAt(old(ch.State()), p, x)) else Handled(old(ch.State()), [], true);
              && ch.State() == h.r && EntriesOk(h.r)
              && Reliables(dispatchedCommands) == Reliables(old(dispatchedCommands)) + h.dispatched
              && totalWaitingData == old(totalWaitingData) + (if queued then |x.data| else 0)
              && (queued && x.remaining > 0 ==> |h.dispatched| <= p && at == p - |h.dispatched|)
    {
      hide Place, EntryOk, Admits, Reliables, Ready, NumberAfter, DispatchUnreliable;
      at := 0;
      var p := ch.FindPlace(x.number);
      wanted := Admits(ch.incomingReliableSequenceNumber, x.number) && x.number != ch.incomingReliableSequenceNumber
                && !(p > 0 && ch.incomingReliableCommands[p - 1].number == x.number);
      queued := wanted && totalWaitingData < maximumWaitingData;
      if queued {
        totalWaitingData := totalWaitingData + |x.data|;
        at := InsertAndDispatch(ch, p, x);
      }
    }

    /** enet_peer_queue_incoming_command, for an unreliable or unsequenced command. */
    method QueueIncomingUnreliable(ch: IncomingChannel, x: UnreliableCommand,
                                   maximumWaitingData: nat) returns (queued: bool)
      modifies this`dispatchedCommands, this`totalWaitingData, ch`incomingUnreliableCommands,
               ch`incomingUnreliableSequenceNumber
      ensures queued == (old(totalWaitingData) < maximumWaitingData
                         && (x.unsequenced || UnreliableWanted(old(ch.incomingUnreliableCommands),
                                                               ch.incomingReliableSequenceNumber,
                                                               old(ch.incomingUnreliableSequenceNumber), x.number,
                                                               x.unreliableNumber)))
      ensures var q := if queued
                then QueueUnreliable(old(ch.incomingUnreliableCommands), ch.incomingReliableSequenceNumber,
                                     old(ch.incomingUnreliableSequenceNumber), x)
                else Queued(old(ch.incomingUnreliableCommands), [], old(ch.incomingUnreliableSequenceNumber));
              && ch.incomingUnreliableCommands == q.list && ch.incomingUnreliableSequenceNumber == q.latest
              && Unreliables(dispatchedCommands) == Unreliables(old(dispatchedCommands)) + q.moved
              && Reliables(dispatchedCommands) == Reliables(old(dispatchedCommands))
              && totalWaitingData == old(totalWaitingData) + (if queued then |x.data| else 0)
    {
      hide Reliables, Unreliables, DispatchUnreliable, UnreliablePlace, Admits;
      queued := false;
      var p := 0;
      if !x.unsequenced {
        if !Admits(ch.incomingReliableSequenceNumber, x.number)
           || (x.number == ch.incomingReliableSequenceNumber
               && x.unreliableNumber <= ch.incomingUnreliableSequenceNumber) {
          return;
        }
        p := ch.FindUnreliablePlace(x.number, x.unreliableNumber);
        if p > 0 && ch.incomingUnreliableCommands[p - 1].number == x.number
           && ch.incomingUnreliableCommands[p - 1].unreliableNumber == x.unreliableNumber {
          return;
        }
      }
      if totalWaitingData >= maximumWaitingData {
        return;
      }
      totalWaitingData := totalWaitingData + |x.data|;
      ghost var list := ch.incomingUnreliableCommands;
      ch.incomingUnreliableCommands := ch.incomingUnreliableCommands[..p] + [x] + ch.incomingUnreliableCommands[p..];
      assert x.unsequenced ==> ch.incomingUnreliableCommands == [x] + list;
      DispatchIncomingUnreliableCommands(ch, x.node);
      queued := true;
    }

    /** enet_protocol_handle_send_reliable */
    method HandleSendReliable(ch: IncomingChannel, number: u16, data: seq<byte>, limit: nat,
        maximumWaitingData: nat) returns (ok: bool)
      requires EntriesOk(ch.State())
      modifies this`dispatchedCommands, this`totalWaitingData, ch
      ensures var h := HandleReliable(old(ch.State()), number, data, limit, old(totalWaitingData) < maximumWaitingData);
              && ch.State() == h.r && ok == h.ok && EntriesOk(h.r)
              && Reliables(dispatchedCommands) == Reliables(old(dispatchedCommands)) + h.dispatched
    {
      hide Wanted, Place, EntriesOk, Reliables, Dispatch;
      if |data| > limit {
        return false;
      }
      var x := IncomingCommand(number, false, 0, 0, [], data);
      DispatchIsOk(InsertAt(ch.State(), Place(ch.incomingReliableCommands, ch.incomingReliableSequenceNumber, number),
                            x));
      var wanted, queued, at := QueueIncomingReliable(ch, x, maximumWaitingData);
      ok := !wanted || queued;
    }

    /** The part of enet_protocol_handle_send_fragment that copies a fragment into its packet. */
    method FillFragment(ch: IncomingChannel, at: nat, f: Fragment)
      requires EntriesOk(ch.State()) && at < |ch.incomingReliableCommands|
      requires SamePacket(ch.incomingReliableCommands[at], f) && f.index < f.count && f.offset + |f.data| <= f.total
      modifies this`dispatchedCommands, ch
      ensures EntryOk(old(ch.incomingReliableCommands)[at])
      ensures var h := FillAt(old(ch.State()), at, f);
              && ch.State() == h.r && EntriesOk(h.r)
              && Reliables(dispatchedCommands) == Reliables(old(dispatchedCommands)) + h.dispatched
    {
      hide Reliables, Ready, NumberAfter, DispatchUnreliable, EntryOk;
      var x := ch.incomingReliableCommands[at];
      EntryThere(ch.State(), at);
      EntrySizes(x);
      if !x.got[f.index] {
        MissingSome(x.got, f.index);
        var y := x.(remaining := x.remaining - 1, got := x.got[f.index := true],
                    data := x.data[..f.offset] + f.data + x.data[f.offset + |f.data|..]);
        assert y == Fill(x, f);
        ch.incomingReliableCommands := ch.incomingReliableCommands[at := y];
        if y.remaining == 0 {
          DispatchIncomingReliableCommands(ch, -1);
        }
      }
    }

    /** enet_protocol_handle_send_fragment */
    method HandleSendFragment(ch: IncomingChannel, f: Fragment, limit: nat, maximumWaitingData: nat) returns (ok: bool)
      requires EntriesOk(ch.State())
      modifies this`dispatchedCommands, this`totalWaitingData, ch
      ensures var h := HandleFragment(old(ch.State()), f, limit, old(totalWaitingData) < maximumWaitingData);
              && ch.State() == h.r && ok == h.ok && EntriesOk(h.r)
              && Reliables(dispatchedCommands) == Reliables(old(dispatchedCommands)) + h.dispatched
    {
      hide Place, EntryOk, Admits, Reliables, Dispatch, FillAt, Blank, Wanted;
      if |f.data| > limit {
        return false;
      }
      if !Admits(ch.incomingReliableSequenceNumber, f.start) {
        return true;
      }
      if !FragmentOk(f, limit) {
        return false;
      }
      var p := ch.FindPlace(f.start);
      if p > 0 && ch.incomingReliableCommands[p - 1].number == f.start {
        EntryThere(ch.State(), p - 1);
        if !SamePacket(ch.incomingReliableCommands[p - 1], f) {
          return false;
        }
        FillIsOk(ch.State(), p - 1, f);
        FillFragment(ch, p - 1, f);
      } else {
        BlankIsOk(f);
        var wanted, queued, at := QueueIncomingReliable(ch, Blank(f), maximumWaitingData);
        if !queued {
          return false;
        }
        BlankWaits(old(ch.State()), p, f);
        FillFragment(ch, at, f);
      }
      ok := true;
    }

    // ---- acknowledging ----

    /** enet_peer_queue_acknowledgement: no acknowledgement for the two windows right after those
        that are admitted. */
    method QueueAcknowledgement(channel: byte, number: u16, sentTime: u16, disconnects: bool) returns (queued: bool)
      modifies this`acknowledgements
      ensures queued == (channel >= |channels|
                         || Acknowledges(channels[channel].incomingReliableSequenceNumber, number))
      ensures acknowledgements == old(acknowledgements)
              + (if queued then [Acknowledgement(channel, number, sentTime, disconnects)] else [])
    {
      if channel < |channels| {
        var base := channels[channel].incomingReliableSequenceNumber;
        var reliableWindow := number / RELIABLE_WINDOW_SIZE;
        var currentWindow := base / RELIABLE_WINDOW_SIZE;
        if number < base {
          reliableWindow := reliableWindow + RELIABLE_WINDOWS;
        }
        if currentWindow + FREE_RELIABLE_WINDOWS - 1 <= reliableWindow <= currentWindow + FREE_RELIABLE_WINDOWS {
          return false;
        }
      }
      acknowledgements := acknowledgements + [Acknowledgement(channel, number, sentTime, disconnects)];
      queued := true;
    }

    /** A reliable command of a received datagram: it is handled, and acknowledged unless handling it
        failed. */
    method ReceiveReliable(m: Message, sentTime: u16, limit: nat, maximumWaitingData: nat) returns (acknowledged: bool)
      requires Valid() && m.command.channel < |channels|
      modifies this, channels[m.command.channel]
      ensures Valid() && EntriesOk(old(channels[m.command.channel].State()))
      ensures var ch := channels[m.command.channel];
              var h := Respond(old(ch.State()), m, limit, old(totalWaitingData) < maximumWaitingData);
              && ch.State() == h.r && Reliables(dispatchedCommands) == Reliables(old(dispatchedCommands)) + h.dispatched
              && acknowledged == (h.ok && Acknowledges(h.r.number, m.number))
              && acknowledgements == old(acknowledgements)
                   + (if acknowledged then [Acknowledgement(m.command.channel, m.number, sentTime, false)] else [])
    {
      hide EntriesOk, HandleReliable, HandleFragment, Reliables;
      var ch := channels[m.command.channel];
      var ok := false;
      match m.command.payload {
        case NoPacket =>
        case Whole(data) => ok := HandleSendReliable(ch, m.number, data, limit, maximumWaitingData);
        case Piece(start, count, index, total, offset, data) =>
          ok := HandleSendFragment(ch, Fragment(start, count, index, total, offset, data), limit, maximumWaitingData);
      }
      acknowledged := false;
      if ok {
        acknowledged := QueueAcknowledgement(m.command.channel, m.number, sentTime, false);
      }
    }
  }

  lemma SparesNext(list: seq<UnreliableCommand>, seen: nat, working: int)
    requires seen < |list|
    ensures Spared(list[..seen + 1], working)
            == Spared(list[..seen], working) + if list[seen].node == working then [list[seen]] else []
    ensures list[seen..] == [list[seen]] + list[seen + 1..]
  {
    assert list[..seen + 1] == list[..seen] + [list[seen]];
    SparedAppends(list[..seen], list[seen], working);
  }

  lemma Takes<T>(a: seq<T>, x: T, b: seq<T>, xb: seq<T>, all: seq<T>)
    requires xb == [x] + b && all == a + xb
    ensures |all| > |a| && all[|a|] == x && all == (a + [x]) + b
    ensures all[..|a|] + all[|a| + 1..] == (a + []) + b
  {
  }

  lemma EntryThere(r: Receiver, i: nat)
    requires EntriesOk(r) && i < |r.queue|
    ensures EntryOk(r.queue[i])
  {
  }

  lemma EntrySizes(x: IncomingCommand)
    requires EntryOk(x) && x.fragmented
    ensures |x.got| == x.count && x.remaining == Missing(x.got)
  {
  }

  lemma BlankIsOk(f: Fragment)
    requires 0 < f.count
    ensures EntryOk(Blank(f)) && Blank(f).remaining > 0 && Blank(f).number == f.start
  {
    MissingAll(f.count);
  }

  lemma BlankWaits(r: Receiver, p: nat, f: Fragment)
    requires p <= |r.queue| && 0 < f.count
    ensures var h := Dispatch(InsertAt(r, p, Blank(f)));
            && |h.dispatched| <= p && p - |h.dispatched| < |h.r.queue| && h.r.queue[p - |h.dispatched|] == Blank(f)
            && SamePacket(Blank(f), f)
  {
    ReadyBefore(InsertAt(r, p, Blank(f)).queue, r.number, p);
  }

  lemma NumberUnmoved(queue: seq<IncomingCommand>, base: u16)
    ensures NumberAfter(queue, base, 0) == base
  {
  }

  lemma NothingUnreliable(base: u16, working: int)
    ensures DispatchUnreliable([], base, 0, working) == Outcome([], [], [], 0)
  {
  }
}
