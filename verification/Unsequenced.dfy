/** Unsequenced packets, src/enet/protocol.c:457-501: the receiver remembers which groups of its
    current window of 1024 it has accepted, and takes a group at most 32 windows ahead. */
module Unsequenced {
  import opened Words

  const WINDOW := 1024
  const FREE := 32

  /** The window begins at base; seen holds the accepted places in it. turned is history: by how
      many windows the base has moved since the connection began. */
  datatype Window = Window(base: u16, seen: set<nat>, turned: nat)

  predicate Valid(w: Window) {
    w.base % WINDOW == 0 && forall k :: k in w.seen ==> k < WINDOW
  }

  /** How far a group is ahead, counted in 16 bits. */
  function Ahead(base: u16, group: u16): (d: u16)
    ensures (base + d) % 0x1_0000 == group
  {
    if group < base then group + 0x1_0000 - base else group - base
  }

  /** One arrival. queued says whether enet_peer_queue_incoming_command took the packet. */
  function Take(w: Window, group: u16, queued: bool): (r: (Window, bool))
    requires Valid(w)
    ensures Valid(r.0)
  {
    var place := group % WINDOW;
    if Ahead(w.base, group) >= FREE * WINDOW then (w, false)
    else if group - place == w.base && place in w.seen then (w, false)
    else
      var turned := if group - place == w.base then w
                    else Window(group - place, {}, w.turned + Ahead(w.base, group - place) / WINDOW);
      if queued then (turned.(seen := turned.seen + {place}), true) else (turned, false)
  }

  datatype Arrival = Arrival(group: u16, queued: bool)

  function Run(w: Window, arrivals: seq<Arrival>): (r: Window)
    requires Valid(w)
    ensures Valid(r)
    decreases |arrivals|
  {
    if arrivals == [] then w else Run(Take(w, arrivals[0].group, arrivals[0].queued).0, arrivals[1..])
  }

  /** The groups accepted in a run. */
  function Accepted(w: Window, arrivals: seq<Arrival>): set<u16>
    requires Valid(w)
    decreases |arrivals|
  {
    if arrivals == [] then {}
    else
      var (next, taken) := Take(w, arrivals[0].group, arrivals[0].queued);
      (if taken then {arrivals[0].group} else {}) + Accepted(next, arrivals[1..])
  }

  /** What the window still knows of a group it accepted when the base had turned t windows. */
  predicate Remembers(w: Window, group: u16, t: nat) {
    && t <= w.turned
    && w.base == (group - group % WINDOW + WINDOW * (w.turned - t)) % 0x1_0000
    && (w.turned == t ==> group % WINDOW in w.seen)
  }

  lemma TurnsForward(base: u16, group: u16)
    requires base % WINDOW == 0 && Ahead(base, group) < FREE * WINDOW
    ensures var start := group - group % WINDOW;
      && Ahead(base, start) % WINDOW == 0 && start == (base + Ahead(base, start)) % 0x1_0000
      && Ahead(base, start) / WINDOW < FREE
      && (start != base ==> Ahead(base, start) >= WINDOW)
  {
  }

  lemma AcceptedIsRemembered(w: Window, group: u16, queued: bool)
    requires Valid(w) && Take(w, group, queued).1
    ensures Remembers(Take(w, group, queued).0, group, Take(w, group, queued).0.turned)
  {
  }

  lemma TakeRemembers(w: Window, group: u16, t: nat, other: u16, queued: bool)
    requires Valid(w) && Remembers(w, group, t)
    ensures Remembers(Take(w, other, queued).0, group, t)
  {
    if Ahead(w.base, other) < FREE * WINDOW && other - other % WINDOW != w.base {
      TurnsForward(w.base, other);
      var start := other - other % WINDOW;
      var step := Ahead(w.base, start) / WINDOW;
      assert Ahead(w.base, start) == WINDOW * step;
      MovesOn(group - group % WINDOW, WINDOW * (w.turned - t), WINDOW * step);
    }
  }

  lemma MovesOn(a: int, b: int, c: int)
    ensures ((a + b) % 0x1_0000 + c) % 0x1_0000 == (a + (b + c)) % 0x1_0000
  {
  }

  lemma {:induction false} RunRemembers(w: Window, group: u16, t: nat, arrivals: seq<Arrival>)
    requires Valid(w) && Remembers(w, group, t)
    ensures Remembers(Run(w, arrivals), group, t)
    decreases |arrivals|
  {
    hide Remembers, Take;
    if arrivals != [] {
      var group0, queued := arrivals[0].group, arrivals[0].queued;
      TakeRemembers(w, group, t, group0, queued);
      RunRemembers(Take(w, group0, queued).0, group, t, arrivals[1..]);
    }
  }

  /** How far ahead a remembered group is now. */
  lemma RememberedIsBehind(w: Window, group: u16, t: nat)
    requires Valid(w) && Remembers(w, group, t) && w.turned - t < 64
    ensures Ahead(w.base, group - group % WINDOW) == (64 - (w.turned - t)) % 64 * WINDOW
    ensures Ahead(w.base, group) == (64 - (w.turned - t)) % 64 * WINDOW + group % WINDOW
  {
    var start := group - group % WINDOW;
    var moved := w.turned - t;
    assert start / WINDOW * WINDOW == start && 0 <= start / WINDOW < 64;
    if start + WINDOW * moved < 0x1_0000 {
      assert w.base == start + WINDOW * moved;
    } else {
      assert w.base == start + WINDOW * moved - 0x1_0000;
    }
  }

  /** Whatever arrives after a group was accepted, in any order: while the base has moved less than
      64 windows since, another copy of it is accepted exactly if that is more than 32. */
  lemma AcceptedAgainIff(w: Window, group: u16, arrivals: seq<Arrival>)
    requires Valid(w) && Take(w, group, true).1
    ensures var first := Take(w, group, true).0;
      var later := Run(first, arrivals);
      && first.turned <= later.turned
      && (later.turned - first.turned < 64 ==> (Take(later, group, true).1 <==> later.turned - first.turned > 32))
  {
    hide Remembers, Take, Run;
    var first := Take(w, group, true).0;
    AcceptedIsRemembered(w, group, true);
    RunRemembers(first, group, first.turned, arrivals);
    TakesAgainIff(Run(first, arrivals), group, first.turned);
  }

  lemma TakesAgainIff(w: Window, group: u16, t: nat)
    requires Valid(w) && Remembers(w, group, t)
    ensures t <= w.turned
    ensures w.turned - t < 64 ==> (Take(w, group, true).1 <==> w.turned - t > 32)
  {
    if w.turned - t < 64 {
      RememberedIsBehind(w, group, t);
    }
  }

  /** A group that is refused although it is in reach has been accepted before. */
  lemma RefusedWasAccepted(base: u16, arrivals: seq<Arrival>, group: u16)
    requires base % WINDOW == 0
    requires var w := Run(Window(base, {}, 0), arrivals);
      Ahead(w.base, group) < FREE * WINDOW && !Take(w, group, true).1
    ensures group in Accepted(Window(base, {}, 0), arrivals)
  {
    SeenWasAccepted(Window(base, {}, 0), arrivals, {});
  }

  predicate SeenAmong(w: Window, accepted: set<u16>) {
    forall k :: k in w.seen ==> w.base + k in accepted
  }

  lemma TakeSeesAmong(w: Window, group: u16, queued: bool, before: set<u16>)
    requires Valid(w) && SeenAmong(w, before)
    ensures SeenAmong(Take(w, group, queued).0, before + (if Take(w, group, queued).1 then {group} else {}))
  {
  }

  lemma {:induction false} SeenWasAccepted(w: Window, arrivals: seq<Arrival>, before: set<u16>)
    requires Valid(w) && SeenAmong(w, before)
    ensures SeenAmong(Run(w, arrivals), before + Accepted(w, arrivals))
    decreases |arrivals|
  {
    hide SeenAmong, Take;
    if arrivals == [] {
      assert before + Accepted(w, arrivals) == before;
    } else {
      var (next, taken) := Take(w, arrivals[0].group, arrivals[0].queued);
      var now := before + (if taken then {arrivals[0].group} else {});
      TakeSeesAmong(w, arrivals[0].group, arrivals[0].queued, before);
      SeenWasAccepted(next, arrivals[1..], now);
      assert before + Accepted(w, arrivals) == now + Accepted(next, arrivals[1..]);
    }
  }

  // ---- the code ----

  function Bit(k: nat): bv32
    requires k < 32
  {
    1 << k
  }

  function With(w: bv32, mask: bv32): bv32 {
    w | mask
  }

  predicate Meets(w: bv32, mask: bv32) {
    w & mask != 0
  }

  predicate Has(words: seq<bv32>, k: nat)
    requires |words| == WINDOW / 32 && k < WINDOW
  {
    Meets(words[k / 32], Bit(k % 32))
  }

  lemma BitIsOwn(k: nat)
    requires k < 32
    ensures Bit(k) != 0
  {
  }

  lemma BitsDiffer(j: nat, k: nat)
    requires j < 32 && k < 32 && j != k
    ensures Bit(j) & Bit(k) == 0
  {
  }

  lemma OtherBitStays(w: bv32, a: bv32, b: bv32)
    requires a & b == 0
    ensures Meets(With(w, a), b) <==> Meets(w, b)
  {
  }

  lemma OwnBitIsSet(w: bv32, b: bv32)
    requires b != 0
    ensures Meets(With(w, b), b)
  {
  }

  lemma SetTests(words: seq<bv32>, k: nat, j: nat)
    requires |words| == WINDOW / 32 && k < WINDOW && j < WINDOW
    ensures Has(words[k / 32 := With(words[k / 32], Bit(k % 32))], j) <==> j == k || Has(words, j)
  {
    hide Bit, With, Meets;
    if j == k {
      BitIsOwn(k % 32);
      OwnBitIsSet(words[k / 32], Bit(k % 32));
    } else if j / 32 == k / 32 {
      assert j % 32 != k % 32;
      BitsDiffer(k % 32, j % 32);
      OtherBitStays(words[k / 32], Bit(k % 32), Bit(j % 32));
    }
  }

  lemma ClearTests(k: nat)
    requires k < WINDOW
    ensures !Has(seq(WINDOW / 32, i => 0), k)
  {
    hide Bit, Meets;
    NothingIn(Bit(k % 32));
  }

  lemma NothingIn(a: bv32)
    ensures !Meets(0, a)
  {
  }

  ghost function Places(words: seq<bv32>): set<nat>
    requires |words| == WINDOW / 32
  {
    set k: nat | k < WINDOW && Has(words, k)
  }

  lemma SetPlaces(words: seq<bv32>, k: nat)
    requires |words| == WINDOW / 32 && k < WINDOW
    ensures Places(words[k / 32 := With(words[k / 32], Bit(k % 32))]) == Places(words) + {k}
  {
    hide Has, Bit, With;
    forall j: nat | j < WINDOW
      ensures Has(words[k / 32 := With(words[k / 32], Bit(k % 32))], j) <==> j == k || Has(words, j)
    {
      SetTests(words, k, j);
    }
  }

  lemma ClearPlaces(words: seq<bv32>)
    requires words == seq(WINDOW / 32, i => 0)
    ensures Places(words) == {}
  {
    hide Has;
    forall k: nat | k < WINDOW
      ensures !Has(words, k)
    {
      ClearTests(k);
    }
  }

  class Receiver {
    var incomingUnsequencedGroup: u16
    const unsequencedWindow: array<bv32>
    ghost var turned: nat

    ghost predicate Ready()
      reads this, unsequencedWindow
    {
      unsequencedWindow.Length == WINDOW / 32 && incomingUnsequencedGroup % WINDOW == 0
    }

    ghost function Memory(): (w: Window)
      requires Ready()
      reads this, unsequencedWindow
      ensures Valid(w)
    {
      Window(incomingUnsequencedGroup, Places(unsequencedWindow[..]), turned)
    }

    constructor ()
      ensures Ready() && fresh(unsequencedWindow) && Memory() == Window(0, {}, 0)
    {
      incomingUnsequencedGroup := 0;
      unsequencedWindow := new bv32[WINDOW / 32](i => 0);
      turned := 0;
      new;
      ClearPlaces(unsequencedWindow[..]);
    }

    method ClearWindow()
      requires unsequencedWindow.Length == WINDOW / 32
      modifies unsequencedWindow
      ensures Places(unsequencedWindow[..]) == {}
    {
      for i := 0 to WINDOW / 32
        invariant forall j: nat :: j < i ==> unsequencedWindow[j] == 0
      {
        unsequencedWindow[i] := 0;
      }
      ClearPlaces(unsequencedWindow[..]);
    }

    /** enet_protocol_handle_send_unsequenced once the command is well-formed and its channel
        exists; true if the packet went into the queue. */
    method HandleSendUnsequenced(group: u16, queued: bool) returns (taken: bool)
      requires Ready()
      modifies this, unsequencedWindow
      ensures Ready() && (Memory(), taken) == Take(old(Memory()), group, queued)
    {
      hide Places, Bit, Meets;
      var unsequencedGroup: u32 := group;
      var index := unsequencedGroup % WINDOW;
      if unsequencedGroup < incomingUnsequencedGroup {
        unsequencedGroup := unsequencedGroup + 0x1_0000;
      }
      if unsequencedGroup >= incomingUnsequencedGroup + FREE * WINDOW {
        return false;
      }
      unsequencedGroup := unsequencedGroup % 0x1_0000;
      assert unsequencedGroup == group;
      if unsequencedGroup - index != incomingUnsequencedGroup {
        turned := turned + Ahead(incomingUnsequencedGroup, unsequencedGroup - index) / WINDOW;
        incomingUnsequencedGroup := unsequencedGroup - index;
        ClearWindow();
      } else {
        InPlaces(unsequencedWindow[..], index);
        if Meets(unsequencedWindow[index / 32], Bit(index % 32)) {
          return false;
        }
      }
      if !queued {
        return false;
      }
      MarkPlace(index);
      return true;
    }

    method MarkPlace(index: nat)
      requires unsequencedWindow.Length == WINDOW / 32 && index < WINDOW
      modifies unsequencedWindow
      ensures Places(unsequencedWindow[..]) == old(Places(unsequencedWindow[..])) + {index}
    {
      hide Places, Bit, With;
      ghost var words := unsequencedWindow[..];
      SetPlaces(words, index);
      unsequencedWindow[index / 32] := With(unsequencedWindow[index / 32], Bit(index % 32));
      assert unsequencedWindow[..] == words[index / 32 := With(words[index / 32], Bit(index % 32))];
    }
  }

  lemma InPlaces(words: seq<bv32>, k: nat)
    requires |words| == WINDOW / 32 && k < WINDOW
    ensures k in Places(words) <==> Meets(words[k / 32], Bit(k % 32))
  {
    hide Bit, Meets;
  }
}
