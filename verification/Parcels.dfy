/** Packets as the commands that carry them: how enet_peer_send cuts a packet into fragments
    (src/enet/peer.c:111-215), and how the receiver puts it together again. */
module Parcels {
  import opened Words
  import opened Windows
  import opened Outgoing
  import opened Incoming

  /** A packet queued reliably: the serial of its first command, the size it was cut to, and its
      bytes. */
  datatype Parcel = Parcel(first: nat, fragmentLength: nat, data: seq<byte>)

  predicate Cuttable(p: Parcel) {
    0 < p.fragmentLength && |p.data| < WORD && Count(p) <= MAXIMUM_FRAGMENT_COUNT
  }

  predicate Uncut(p: Parcel) {
    |p.data| <= p.fragmentLength
  }

  function Count(p: Parcel): (n: nat)
    requires 0 < p.fragmentLength
    ensures n >= 1
  {
    if Uncut(p) then 1 else
      CountIsPositive(|p.data|, p.fragmentLength);
      (|p.data| + p.fragmentLength - 1) / p.fragmentLength
  }

  lemma CountIsPositive(n: nat, fl: nat)
    requires 0 < fl < n
    ensures (n + fl - 1) / fl >= 2
  {
    assert (n - 1) / fl >= 1;
    assert n + fl - 1 == fl + (n - 1);
  }

  /** Where fragment i begins. */
  function PartStart(p: Parcel, i: nat): nat {
    i * p.fragmentLength
  }

  function PartEnd(p: Parcel, i: nat): nat {
    if PartStart(p, i) + p.fragmentLength <= |p.data| then PartStart(p, i) + p.fragmentLength else |p.data|
  }

  /** Every fragment has bytes, and all but the last are full. */
  lemma PartBounds(p: Parcel, i: nat)
    requires 0 < p.fragmentLength && !Uncut(p)
    ensures i < Count(p) <==> PartStart(p, i) < |p.data|
    ensures i + 1 < Count(p) ==> PartEnd(p, i) == PartStart(p, i + 1)
    ensures i + 1 == Count(p) ==> PartEnd(p, i) == |p.data|
  {
    var n, fl := |p.data|, p.fragmentLength;
    var c := Count(p);
    assert c * fl <= n + fl - 1 < c * fl + fl;
    assert (i + 1) * fl == i * fl + fl;
    if i < c {
      Scaled(i + 1, c, fl);
    } else {
      Scaled(c, i, fl);
    }
    if i + 1 < c {
      Scaled(i + 2, c, fl);
      assert (i + 2) * fl == i * fl + 2 * fl;
    }
  }

  lemma Scaled(a: nat, b: nat, fl: nat)
    requires a <= b
    ensures a * fl <= b * fl
  {
  }

  function Part(p: Parcel, i: nat): seq<byte>
    requires 0 < p.fragmentLength && !Uncut(p) && i < Count(p)
  {
    PartBounds(p, i);
    p.data[PartStart(p, i)..PartEnd(p, i)]
  }

  /** The payload of the parcel's i-th command. */
  function PayloadOf(p: Parcel, i: nat): Payload
    requires Cuttable(p) && i < Count(p)
  {
    if Uncut(p) then Whole(p.data)
    else
      PartBounds(p, i);
      Piece(Wire(p.first), Count(p), i, |p.data|, PartStart(p, i), Part(p, i))
  }

  // ---- cutting ----

  datatype Flags = Flags(reliable: bool, unsequenced: bool, unreliableFragment: bool)

  /** The loop that cuts a packet, from one fragment on. */
  function Cut(kind: Kind, acknowledge: bool, channel: byte, start: u16, count: u32, data: seq<byte>,
               fragmentLength: nat,
               index: nat, offset: nat): seq<Command>
    requires 0 < fragmentLength && offset <= |data| < WORD && index <= offset
    decreases |data| - offset
  {
    if offset >= |data| then []
    else
      var n := if |data| - offset < fragmentLength then |data| - offset else fragmentLength;
      [Command(kind, acknowledge, false, channel, Piece(start, count, index, |data|, offset, data[offset..offset + n]))]
      + Cut(kind, acknowledge, channel, start, count, data, fragmentLength, index + 1, offset + n)
  }

  /** Cutting yields exactly the parcel's fragments. */
  lemma {:induction false} CutMeans(kind: Kind, acknowledge: bool, channel: byte, p: Parcel, index: nat)
    requires Cuttable(p) && !Uncut(p) && index <= Count(p)
    ensures var offset := if index < Count(p) then PartStart(p, index) else |p.data|;
            && index <= offset <= |p.data|
            && var cmds := Cut(kind, acknowledge, channel, Wire(p.first), Count(p), p.data, p.fragmentLength, index,
                               offset);
            && |cmds| == Count(p) - index
            && forall k :: 0 <= k < |cmds| ==>
                 cmds[k] == Command(kind, acknowledge, false, channel, PayloadOf(p, index + k))
    decreases Count(p) - index
  {
    hide Count, PartStart, PartEnd, Uncut;
    PartBounds(p, index);
    OffsetIsBeyond(p, index);
    if index < Count(p) {
      CutMeans(kind, acknowledge, channel, p, index + 1);
      CutOne(kind, acknowledge, channel, p, index);
      var rest := if index + 1 < Count(p) then PartStart(p, index + 1) else |p.data|;
      var tail := Cut(kind, acknowledge, channel, Wire(p.first), Count(p), p.data, p.fragmentLength, index + 1, rest);
      var cmds := [Command(kind, acknowledge, false, channel, PayloadOf(p, index))] + tail;
      forall k | 0 <= k < |cmds|
        ensures cmds[k] == Command(kind, acknowledge, false, channel, PayloadOf(p, index + k))
      {
        if k > 0 {
          assert cmds[k] == tail[k - 1];
        }
      }
    }
  }

  lemma OffsetIsBeyond(p: Parcel, index: nat)
    requires 0 < p.fragmentLength && !Uncut(p) && index <= Count(p)
    ensures var offset := if index < Count(p) then PartStart(p, index) else |p.data|; index <= offset <= |p.data|
  {
    PartBounds(p, index);
    if index < Count(p) {
      Scaled(1, p.fragmentLength, index);
    } else {
      PartBounds(p, index - 1);
      Scaled(1, p.fragmentLength, index - 1);
    }
  }

  lemma CutOne(kind: Kind, acknowledge: bool, channel: byte, p: Parcel, index: nat)
    requires Cuttable(p) && !Uncut(p) && index < Count(p)
    ensures index <= PartStart(p, index) < |p.data|
    ensures var next := if index + 1 < Count(p) then PartStart(p, index + 1) else |p.data|;
            && index + 1 <= next <= |p.data|
            && Cut(kind, acknowledge, channel, Wire(p.first), Count(p), p.data, p.fragmentLength, index,
                   PartStart(p, index))
               == [Command(kind, acknowledge, false, channel, PayloadOf(p, index))]
                  + Cut(kind, acknowledge, channel, Wire(p.first), Count(p), p.data, p.fragmentLength, index + 1, next)
  {
    hide Count, Uncut;
    PartBounds(p, index);
    OffsetIsBeyond(p, index);
    OffsetIsBeyond(p, index + 1);
    var offset := PartStart(p, index);
    assert PartEnd(p, index) == if index + 1 < Count(p) then PartStart(p, index + 1) else |p.data|;
    assert Part(p, index) == p.data[offset..PartEnd(p, index)];
  }

  /** The fragments, one after the other, are the packet. */
  function Joined(p: Parcel, n: nat): seq<byte>
    requires 0 < p.fragmentLength && !Uncut(p) && n <= Count(p)
  {
    if n == 0 then [] else Joined(p, n - 1) + Part(p, n - 1)
  }

  lemma {:induction false} JoinedIsPrefix(p: Parcel, n: nat)
    requires 0 < p.fragmentLength && !Uncut(p) && 0 < n <= Count(p)
    ensures PartEnd(p, n - 1) <= |p.data| && Joined(p, n) == p.data[..PartEnd(p, n - 1)]
  {
    hide Count;
    PartBounds(p, n - 1);
    if n > 1 {
      PartBounds(p, n - 2);
      JoinedIsPrefix(p, n - 1);
      var a, b := PartStart(p, n - 1), PartEnd(p, n - 1);
      assert p.data[..a] + p.data[a..b] == p.data[..b];
    } else {
      assert Joined(p, 0) == [];
      assert p.data[0..PartEnd(p, 0)] == p.data[..PartEnd(p, 0)];
    }
  }

  lemma FragmentsPartition(p: Parcel)
    requires 0 < p.fragmentLength && !Uncut(p)
    ensures Joined(p, Count(p)) == p.data
  {
    JoinedIsPrefix(p, Count(p));
    PartBounds(p, Count(p) - 1);
  }

  // ---- putting together ----

  /** A queued command is the parcel as far as it has arrived. */
  predicate Holds(x: IncomingCommand, p: Parcel)
    requires Cuttable(p)
  {
    && x.number == Wire(p.first) && EntryOk(x) && x.fragmented == !Uncut(p) && |x.data| == |p.data|
    && if Uncut(p) then x.data == p.data
       else x.count == Count(p) && forall i: nat :: i < Count(p) && x.got[i] ==> HoldsPart(x.data, p, i)
  }

  predicate HoldsPart(data: seq<byte>, p: Parcel, i: nat)
    requires 0 < p.fragmentLength && !Uncut(p) && i < Count(p) && |data| == |p.data|
  {
    PartBounds(p, i);
    data[PartStart(p, i)..PartEnd(p, i)] == Part(p, i)
  }

  /** The fragment that the parcel's i-th command carries. */
  function FragmentOf(p: Parcel, i: nat): (f: Fragment)
    requires Cuttable(p) && !Uncut(p) && i < Count(p)
  {
    var q := PayloadOf(p, i);
    Fragment(q.start, q.count, q.index, q.total, q.offset, q.data)
  }

  lemma FragmentFits(p: Parcel, i: nat)
    requires Cuttable(p) && !Uncut(p) && i < Count(p)
    ensures var f := FragmentOf(p, i);
            && f.index == i < f.count == Count(p) && f.offset < f.total == |p.data| && f.offset + |f.data| <= f.total
            && FragmentOk(f, |p.data|)
  {
    hide Count;
    PartBounds(p, i);
  }

  lemma BlankHolds(p: Parcel, i: nat)
    requires Cuttable(p) && !Uncut(p) && i < Count(p)
    ensures Holds(Blank(FragmentOf(p, i)), p)
  {
    hide Count, HoldsPart;
    FragmentFits(p, i);
    MissingAll(Count(p));
  }

  lemma PartsApart(p: Parcel, i: nat, j: nat)
    requires 0 < p.fragmentLength && !Uncut(p) && i < j < Count(p)
    ensures PartEnd(p, i) <= PartStart(p, j)
  {
    PartBounds(p, i);
    Scaled(i + 1, j, p.fragmentLength);
  }

  lemma Spliced(data: seq<byte>, at: nat, piece: seq<byte>, a: nat, b: nat)
    requires at + |piece| <= |data| && a <= b <= |data|
    ensures var filled := data[..at] + piece + data[at + |piece|..];
            && |filled| == |data|
            && (b <= at || at + |piece| <= a ==> filled[a..b] == data[a..b])
            && (a == at && b == at + |piece| ==> filled[a..b] == piece)
  {
    var filled := data[..at] + piece + data[at + |piece|..];
    if b <= at || at + |piece| <= a {
      forall k | a <= k < b ensures filled[k] == data[k] {
      }
    }
  }

  lemma FillPart(p: Parcel, data: seq<byte>, i: nat, j: nat)
    requires Cuttable(p) && !Uncut(p) && i < Count(p) && j < Count(p) && |data| == |p.data|
    requires j != i ==> HoldsPart(data, p, j)
    ensures var f := FragmentOf(p, i);
            && f.offset + |f.data| <= |data|
            && HoldsPart(data[..f.offset] + f.data + data[f.offset + |f.data|..], p, j)
  {
    hide Count, Uncut, PartStart, PartEnd;
    PartBounds(p, i);
    PartBounds(p, j);
    if i < j {
      PartsApart(p, i, j);
    } else if j < i {
      PartsApart(p, j, i);
    }
    FragmentSpan(p, i);
    FragmentSpan(p, j);
    var f := FragmentOf(p, i);
    Spliced(data, f.offset, f.data, PartStart(p, j), PartEnd(p, j));
  }

  lemma FragmentSpan(p: Parcel, i: nat)
    requires Cuttable(p) && !Uncut(p) && i < Count(p)
    ensures var f := FragmentOf(p, i); f.offset == PartStart(p, i) && f.offset + |f.data| == PartEnd(p, i) <= |p.data|
                                       && f.data == Part(p, i)
  {
    hide Count;
    PartBounds(p, i);
  }

  lemma FillHolds(x: IncomingCommand, p: Parcel, i: nat)
    requires Cuttable(p) && !Uncut(p) && i < Count(p) && Holds(x, p)
    ensures var f := FragmentOf(p, i);
            && SamePacket(x, f) && f.offset + |f.data| <= |x.data|
            && Holds(Fill(x, f), p) && Fill(x, f).got == x.got[i := true]
  {
    hide Count, HoldsPart, Part;
    FragmentFits(p, i);
    var f := FragmentOf(p, i);
    var y := Fill(x, f);
    if x.got[i] {
      assert x.got[i := true] == x.got;
    } else {
      forall j: nat | j < Count(p) && y.got[j] ensures HoldsPart(y.data, p, j) {
        FillPart(p, x.data, i, j);
      }
    }
  }

  lemma {:induction false} NoneMissing(got: seq<bool>)
    ensures Missing(got) == 0 <==> forall i :: 0 <= i < |got| ==> got[i]
  {
    if got != [] {
      NoneMissing(got[1..]);
      assert forall i :: 0 < i < |got| ==> got[i] == got[1..][i - 1];
    }
  }

  /** A complete command holds the packet. */
  lemma CompleteHolds(x: IncomingCommand, p: Parcel)
    requires Cuttable(p) && Holds(x, p) && x.remaining == 0
    ensures x.data == p.data
  {
    hide HoldsPart, Count;
    if !Uncut(p) {
      NoneMissing(x.got);
      forall k: nat | k < |p.data| ensures x.data[k] == p.data[k] {
        AllPartsHold(x, p, k);
      }
    }
  }

  lemma AllPartsHold(x: IncomingCommand, p: Parcel, k: nat)
    requires Cuttable(p) && !Uncut(p) && |x.data| == |p.data| && k < |p.data|
    requires forall i: nat :: i < Count(p) ==> HoldsPart(x.data, p, i)
    ensures x.data[k] == p.data[k]
  {
    hide Count, PartStart, PartEnd;
    var i: nat := k / p.fragmentLength;
    InQuotient(k, p.fragmentLength);
    PartOf(p, k, i);
    assert HoldsPart(x.data, p, i);
    var a, b := PartStart(p, i), PartEnd(p, i);
    assert x.data[a..b][k - a] == p.data[a..b][k - a];
  }

  lemma PartOf(p: Parcel, k: nat, i: nat)
    requires Cuttable(p) && !Uncut(p) && i * p.fragmentLength <= k < |p.data|
    requires k < i * p.fragmentLength + p.fragmentLength
    ensures i < Count(p) && PartStart(p, i) <= k < PartEnd(p, i) <= |p.data|
  {
    hide Count;
    PartBounds(p, i);
  }

  lemma InQuotient(k: nat, d: nat)
    requires d > 0
    ensures k / d * d <= k < k / d * d + d
  {
    assert k == d * (k / d) + k % d;
  }

  predicate Indices(order: seq<nat>, n: nat) {
    forall k :: 0 <= k < |order| ==> order[k] < n
  }

  /** Fragments in any order, each any number of times. */
  function FillAll(x: IncomingCommand, p: Parcel, order: seq<nat>): IncomingCommand
    requires Cuttable(p) && !Uncut(p) && Holds(x, p) && Indices(order, Count(p))
    decreases |order|
  {
    hide Count, Fill, Holds;
    if order == [] then x else
      FillHolds(x, p, order[0]);
      FillAll(Fill(x, FragmentOf(p, order[0])), p, order[1..])
  }

  lemma {:induction false} FillAllHolds(x: IncomingCommand, p: Parcel, order: seq<nat>)
    requires Cuttable(p) && !Uncut(p) && Holds(x, p) && Indices(order, Count(p))
    ensures var y := FillAll(x, p, order);
            && Holds(y, p)
            && forall i: nat :: i < Count(p) ==> (y.got[i] <==> x.got[i] || i in order)
    decreases |order|
  {
    hide Count, Fill, HoldsPart;
    if order != [] {
      FillHolds(x, p, order[0]);
      FillAllHolds(Fill(x, FragmentOf(p, order[0])), p, order[1..]);
    }
  }

  lemma {:induction false} MissingCounts(got: seq<bool>)
    ensures Missing(got) == |got| - |set i | 0 <= i < |got| && got[i]|
  {
    var s := set i | 0 <= i < |got| && got[i];
    if got == [] {
      assert s == {};
    } else {
      var front := got[..|got| - 1];
      var last := |got| - 1;
      var t := set i | 0 <= i < |front| && front[i];
      MissingCounts(front);
      assert got == front + [got[last]];
      MissingAppends(front, got[last]);
      assert s == if got[last] then t + {last} else t;
    }
  }

  lemma {:induction false} MissingAppends(got: seq<bool>, b: bool)
    ensures Missing(got + [b]) == Missing(got) + if b then 0 else 1
  {
    if got != [] {
      assert (got + [b])[1..] == got[1..] + [b];
      MissingAppends(got[1..], b);
    }
  }

  /** Reassembly: whatever order the fragments arrive in and however often, the count of missing
      ones is exact, it reaches 0 exactly when all have arrived, and then the buffer is the packet. */
  lemma Reassembles(p: Parcel, first: nat, order: seq<nat>)
    requires Cuttable(p) && !Uncut(p) && first < Count(p) && Indices(order, Count(p))
    ensures Holds(Blank(FragmentOf(p, first)), p)
    ensures var x := FillAll(Blank(FragmentOf(p, first)), p, order);
            && x.remaining == Count(p) - |set i | i in order|
            && (x.remaining == 0 <==> forall i: nat :: i < Count(p) ==> i in order)
            && (x.remaining == 0 ==> x.data == p.data)
  {
    hide Count, Fill, HoldsPart;
    BlankHolds(p, first);
    var blank := Blank(FragmentOf(p, first));
    FillAllHolds(blank, p, order);
    var x := FillAll(blank, p, order);
    NoneMissing(x.got);
    MissingCounts(x.got);
    assert (set i | 0 <= i < |x.got| && x.got[i]) == (set i | i in order);
    if x.remaining == 0 {
      CompleteHolds(x, p);
    }
  }
}
