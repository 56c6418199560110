/** The model of the coder by counting alone: which bytes a context has counted is read off the
    text before it, what the coder writes follows from how often they occur. No tree, table, path or
    update of PpmModel is used in saying so. */
module PpmCounting {
  import opened Words
  import opened RangeInterval
  import opened CodeStream
  import opened FrequencyTree
  import opened PpmModel
  import opened PpmCodec

  // ---- one context in numbers ----

  /** What a context that has counted the bytes l, in that order, has for v: 3 for every occurrence in
      the root (m = 1) and 2 elsewhere, halved upward now and then. */
  function CountAfter(l: seq<byte>, m: minimum, v: byte): nat
    decreases |l|, 2
  {
    if l == [] then 0 else
      var n := |l| - 1;
      var count := CountAfter(l[..n], m, v) + if v != l[n] then 0 else if m == 1 then 3 else 2;
      if HalvedBy(l, m) then count - count / 2 else count
  }

  /** Everything is halved when the last byte had more than 249, or 251, before, or when the total
      would exceed 65280. */
  predicate HalvedBy(l: seq<byte>, m: minimum)
    requires l != []
    decreases |l|, 1
  {
    var n := |l| - 1;
    var total := TotalAfter(l[..n], m);
    if m == 1 then CountAfter(l[..n], m, l[n]) > 249 || total + 3 > 65280
    else CountAfter(l[..n], m, l[n]) > 251 || total + (if l[n] in l[..n] then 2 else 7) > 65280
  }

  /** 1 in the root, elsewhere 5 for every byte seen for the first time. */
  function EscapesAfter(l: seq<byte>, m: minimum): nat
    decreases |l|, 2
  {
    if l == [] then m else
      var n := |l| - 1;
      var escapes := EscapesAfter(l[..n], m) + if m == 0 && l[n] !in l[..n] then 5 else 0;
      if HalvedBy(l, m) then escapes - escapes / 2 else escapes
  }

  function BelowAfter(l: seq<byte>, m: minimum, v: nat): nat
    requires v <= 256
    decreases |l|, 3, v
  {
    if v == 0 then 0 else BelowAfter(l, m, v - 1) + CountAfter(l, m, v - 1)
  }

  function TotalAfter(l: seq<byte>, m: minimum): nat
    decreases |l|, 4
  {
    EscapesAfter(l, m) + BelowAfter(l, m, 256) + 256 * m
  }

  function Different(l: seq<byte>): set<byte> {
    set v | v in l
  }

  /** Until the first halving these are the occurrences themselves: in the root 3k + 1 out of
      257 + 3n, the one being what every byte has from the start; elsewhere 2k, with 5 to escape for
      every different byte. */
  lemma {:induction false} FiguresAreOccurrences(l: seq<byte>, m: minimum)
    requires forall v: byte :: multiset(l)[v] <= if m == 1 then 84 else 126
    requires (if m == 1 then 257 + 3 * |l| else 2 * |l| + 5 * |Different(l)|) <= 65280
    ensures forall v: byte :: CountAfter(l, m, v) == multiset(l)[v] * if m == 1 then 3 else 2
    ensures EscapesAfter(l, m) == if m == 1 then 1 else 5 * |Different(l)|
    ensures TotalAfter(l, m) == if m == 1 then 257 + 3 * |l| else 2 * |l| + 5 * |Different(l)|
  {
    hide HalvedBy;
    if l == [] {
      NothingBelow(l, m, 256);
    } else {
      var n := |l| - 1;
      var front: seq<byte> := l[..n];
      OneMore(l, front);
      FiguresAreOccurrences(front, m);
      NotYetHalved(l, m);
      BelowGrows(l, m, 256);
    }
  }

  lemma OneMore(l: seq<byte>, front: seq<byte>)
    requires l != [] && front == l[..|l| - 1]
    ensures var last := l[|l| - 1];
            && Different(l) == Different(front) + {last}
            && |Different(l)| == |Different(front)| + (if last in front then 0 else 1)
            && (forall v: byte :: multiset(l)[v] == multiset(front)[v] + if v == last then 1 else 0)
  {
    var last: byte := l[|l| - 1];
    assert l == front + [last];
    assert Different(l) == Different(front) + {last};
    assert last in front ==> Different(l) == Different(front);
  }

  lemma NotYetHalved(l: seq<byte>, m: minimum)
    requires l != []
    requires CountAfter(l[..|l| - 1], m, l[|l| - 1]) <= if m == 1 then 249 else 251
    requires TotalAfter(l[..|l| - 1], m)
             + (if m == 1 then 3 else if l[|l| - 1] in l[..|l| - 1] then 2 else 7) <= 65280
    ensures !HalvedBy(l, m)
  {
    hide CountAfter, TotalAfter;
  }

  lemma {:induction false} NothingBelow(l: seq<byte>, m: minimum, v: nat)
    requires v <= 256 && l == []
    ensures BelowAfter(l, m, v) == 0
  {
    if v > 0 {
      NothingBelow(l, m, v - 1);
    }
  }

  lemma {:induction false} BelowGrows(l: seq<byte>, m: minimum, v: nat)
    requires v <= 256 && l != [] && !HalvedBy(l, m)
    ensures BelowAfter(l, m, v) == BelowAfter(l[..|l| - 1], m, v)
                                   + if l[|l| - 1] >= v then 0 else if m == 1 then 3 else 2
  {
    hide HalvedBy;
    if v > 0 {
      BelowGrows(l, m, v - 1);
    }
  }

  // ---- what each context counts ----

  /** How many of the bytes before it a byte is looked up under, at most. */
  function Order(text: seq<byte>): nat {
    if |text| < 2 then |text| else 2
  }

  function Ending(text: seq<byte>, d: nat): seq<byte>
    requires d <= |text|
  {
    text[|text| - d..]
  }

  /** A byte after the text is counted under the last d bytes unless a longer context knows it. */
  predicate CountedAt(text: seq<byte>, d: nat, v: byte)
    requires d <= Order(text)
    decreases |text|, 1
  {
    forall e :: d < e <= Order(text) ==> v !in Seen(text, Ending(text, e))
  }

  /** All that has been counted under the bytes w, in order. */
  function Seen(text: seq<byte>, w: seq<byte>): seq<byte>
    decreases |text|, 0
  {
    if text == [] then [] else
      var n := |text| - 1;
      var front := text[..n];
      Seen(front, w)
      + if |w| <= Order(front) && w == Ending(front, |w|) && CountedAt(front, |w|, text[n]) then [text[n]] else []
  }

  /** How many contexts of at most d bytes v is new to and counted in. */
  function NewAt(text: seq<byte>, d: nat, v: byte): nat
    requires d <= Order(text)
  {
    (if CountedAt(text, d, v) && v !in Seen(text, Ending(text, d)) then 1 else 0)
    + if d == 0 then 0 else NewAt(text, d - 1, v)
  }

  /** The records that takes, one of them the root's. */
  function Used(text: seq<byte>): nat {
    if text == [] then 1 else
      var front := text[..|text| - 1];
      Used(front) + NewAt(front, Order(front), text[|text| - 1])
  }

  /** The text from the last fresh start on: 4094 records are too many. */
  function Extended(text: seq<byte>, v: byte): seq<byte> {
    if Used(text + [v]) >= 4094 then [] else text + [v]
  }

  // ---- what is written ----

  function RootOnly(d: nat): minimum {
    if d == 0 then 1 else 0
  }

  /** The slots of a byte after the text, from the context of d bytes down: an escape from every
      context that has counted something but not this byte, then the byte's own. */
  function SlotsOf(text: seq<byte>, d: nat, v: byte): seq<Slot>
    requires d <= Order(text)
  {
    var l := Seen(text, Ending(text, d));
    var m := RootOnly(d);
    var escapes, total := EscapesAfter(l, m), TotalAfter(l, m);
    if d == 0 || v in l then
      [Slot(escapes + (if d == 0 then v else 0) + BelowAfter(l, m, v), m + CountAfter(l, m, v), total)]
    else
      (if l == [] then [] else [Slot(0, escapes, total)]) + SlotsOf(text, d - 1, v)
  }

  function AllSlots(text: seq<byte>, input: seq<byte>): seq<Slot>
    decreases |input|
  {
    if input == [] then []
    else SlotsOf(text, Order(text), input[0]) + AllSlots(Extended(text, input[0]), input[1..])
  }

  /** The bytes are those that narrowing the interval by the slots, one after the other, settles,
      and at the end those of its lower end. */
  ghost predicate Writes(low: int, range: int, slots: seq<Slot>, bytes: seq<byte>)
    requires Ready(low, range)
    decreases |slots|
  {
    if slots == [] then bytes == Flush(low)
    else
      slots[0].Valid()
      && (NarrowNests(low, range, slots[0]);
          var n := Normalize(NarrowLow(low, range, slots[0]), NarrowRange(range, slots[0]));
          n.emitted <= bytes && Writes(n.low, n.range, slots[1..], bytes[|n.emitted|..]))
  }
}
