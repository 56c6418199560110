/** 16-bit reliable sequence numbers and the sixteen windows of 4096 they fall into
    (src/enet/enet.h). A `serial` is a number before it is cut to 16 bits. */
module Windows {
  import opened Words

  const NUMBERS := 0x1_0000
  const RELIABLE_WINDOW_SIZE := 0x1000
  const RELIABLE_WINDOWS := 16
  const FREE_RELIABLE_WINDOWS := 8

  function Wire(serial: nat): u16 {
    serial % NUMBERS
  }

  function WindowOf(serial: nat): nat {
    serial / RELIABLE_WINDOW_SIZE
  }

  /** How many windows n lies ahead of base, in the receiver's arithmetic: a number below base is
      taken to have wrapped. */
  function WindowsAhead(base: u16, n: u16): int {
    n / RELIABLE_WINDOW_SIZE + (if n < base then RELIABLE_WINDOWS else 0) - base / RELIABLE_WINDOW_SIZE
  }

  function Distance(base: u16, n: u16): (d: nat)
    ensures d < NUMBERS
  {
    (n - base) % NUMBERS
  }

  lemma AheadOfBase(base: nat, serial: nat)
    requires base <= serial < base + NUMBERS
    ensures WindowsAhead(Wire(base), Wire(serial)) == WindowOf(serial) - WindowOf(base)
    ensures Distance(Wire(base), Wire(serial)) == serial - base
  {
    SplitSerial(base);
    SplitSerial(serial);
    hide Wire, WindowOf;
    var wraps: nat := serial / NUMBERS;
    assert base / NUMBERS <= wraps <= base / NUMBERS + 1;
  }

  lemma WindowsMonotone(a: nat, b: nat)
    requires a <= b
    ensures WindowOf(a) <= WindowOf(b)
  {
  }

  lemma SplitSerial(n: nat)
    ensures n == NUMBERS * (n / NUMBERS) + Wire(n)
    ensures WindowOf(n) == RELIABLE_WINDOWS * (n / NUMBERS) + Wire(n) / RELIABLE_WINDOW_SIZE
  {
  }

  lemma BehindBase(base: nat, serial: nat)
    requires serial < base <= serial + NUMBERS
    ensures WindowsAhead(Wire(base), Wire(serial)) == WindowOf(serial) + RELIABLE_WINDOWS - WindowOf(base)
    ensures Distance(Wire(base), Wire(serial)) == serial + NUMBERS - base
  {
    assert Wire(serial) == Wire(serial + NUMBERS);
    AheadOfBase(base, serial + NUMBERS);
  }

  /** Two serials closer than 65536 with the same 16-bit number are the same. */
  lemma WireIsInjective(a: nat, b: nat)
    requires a < b + NUMBERS && b < a + NUMBERS && Wire(a) == Wire(b)
    ensures a == b
  {
  }

  lemma DistanceMoves(base: u16, n: u16, t: nat)
    requires t <= Distance(base, n)
    ensures Distance((base + t) % NUMBERS, n) == Distance(base, n) - t
  {
  }

  lemma WrapsAdd(base: u16, a: nat, b: nat)
    ensures ((base + a) % NUMBERS + b) % NUMBERS == (base + (a + b)) % NUMBERS
  {
  }

  /** The receiver takes only numbers less than seven windows ahead of its own. */
  predicate Admits(base: u16, n: u16) {
    0 <= WindowsAhead(base, n) < FREE_RELIABLE_WINDOWS - 1
  }

  /** Not the number last dispatched, and one the receiver takes: whatever its serial, it is
      handled as a command not yet dispatched. */
  predicate TakenForNew(base: u16, n: u16) {
    n != base && Admits(base, n)
  }

  /** The receiver stays silent about numbers seven and eight windows ahead, and acknowledges all
      others, those behind it included. */
  predicate Acknowledges(base: u16, n: u16) {
    !(FREE_RELIABLE_WINDOWS - 1 <= WindowsAhead(base, n) <= FREE_RELIABLE_WINDOWS)
  }

  // ---- the bit set of used windows ----

  /** The bit of one window. */
  function Flag(w: nat): bv32
    requires w < 16
  {
    1 << w
  }

  function Common(x: bv32, y: bv32): bv32 {
    x & y
  }

  function Added(x: bv32, f: bv32): bv32 {
    x | f
  }

  function Cleared(x: bv32, f: bv32): bv32 {
    x & !f
  }

  predicate Touches(bits: bv32, f: bv32) {
    bits & f != 0
  }

  predicate Bit(bits: bv32, w: nat)
    requires w < 16
  {
    Touches(bits, Flag(w))
  }

  predicate SingleBit(f: bv32) {
    f != 0 && f & (f - 1) == 0
  }

  /** Shifts are known to the verifier for literal distances only: this makes it take them one by one. */
  lemma EachWindow(w: nat)
    requires w < 16
    ensures w == 0 || w == 1 || w == 2 || w == 3 || w == 4 || w == 5 || w == 6 || w == 7
            || w == 8 || w == 9 || w == 10 || w == 11 || w == 12 || w == 13 || w == 14 || w == 15
  {
  }

  lemma FlagIsSingle(w: nat)
    requires w < 16
    ensures SingleBit(Flag(w)) && Flag(w) < 0x1_0000
  {
    EachWindow(w);
  }

  lemma FlagsDiffer(w: nat, k: nat)
    requires w < 16 && k < 16 && w != k
    ensures Flag(w) != Flag(k)
  {
    EachWindow(w);
  }

  lemma AndSingle(x: bv32, y: bv32, f: bv32)
    requires SingleBit(f)
    ensures Touches(Common(x, y), f) <==> Touches(x, f) && Touches(y, f)
  {
    AllOrNothing(x, f);
    AllOrNothing(y, f);
    assert (x & y) & f == (x & f) & (y & f);
  }

  lemma AllOrNothing(x: bv32, f: bv32)
    requires SingleBit(f)
    ensures x & f == 0 || x & f == f
  {
  }

  lemma SinglesMeet(f: bv32, g: bv32)
    requires SingleBit(f) && SingleBit(g)
    ensures g & f == if f == g then f else 0
  {
  }

  lemma OrSingle(x: bv32, g: bv32, f: bv32)
    requires SingleBit(f) && SingleBit(g)
    ensures Touches(Added(x, g), f) <==> f == g || Touches(x, f)
  {
    assert (x | g) & f == (x & f) | (g & f);
    SinglesMeet(f, g);
  }

  lemma ClearSingle(x: bv32, g: bv32, f: bv32)
    requires SingleBit(f) && SingleBit(g)
    ensures Touches(Cleared(x, g), f) <==> f != g && Touches(x, f)
  {
    SinglesMeet(f, g);
    assert (x & !g) & f == (x & f) & !(g & f);
  }

  lemma SetBit(used: bv32, w: nat, k: nat)
    requires w < 16 && k < 16
    ensures Bit(Added(used, Flag(w)), k) <==> k == w || Bit(used, k)
  {
    hide Flag, SingleBit, Touches, Added;
    FlagIsSingle(w);
    FlagIsSingle(k);
    OrSingle(used, Flag(w), Flag(k));
    if w != k {
      FlagsDiffer(w, k);
    }
  }

  lemma ClearBit(used: bv32, w: nat, k: nat)
    requires w < 16 && k < 16
    ensures Bit(Cleared(used, Flag(w)), k) <==> k != w && Bit(used, k)
  {
    hide Flag, SingleBit, Touches, Cleared;
    FlagIsSingle(w);
    FlagIsSingle(k);
    ClearSingle(used, Flag(w), Flag(k));
    if w != k {
      FlagsDiffer(w, k);
    }
  }

  /** The windows from w to w + 9, modulo 16, as the sender's mask. */
  function NearMask(w: nat): bv32
    requires w < 16
  {
    (0x3FF << w) | (0x3FF >> (16 - w))
  }

  predicate Near(w: nat, k: nat) {
    w <= k < w + FREE_RELIABLE_WINDOWS + 2 || w <= k + 16 < w + FREE_RELIABLE_WINDOWS + 2
  }

  lemma NearMaskBits(w: nat, k: nat)
    requires w < 16 && k < 16
    ensures Bit(NearMask(w), k) <==> Near(w, k)
  {
    EachWindow(w);
  }

  lemma OneOfTheBits(x: bv32)
    requires 0 != x < 0x1_0000
    ensures Bit(x, 0) || Bit(x, 1) || Bit(x, 2) || Bit(x, 3) || Bit(x, 4) || Bit(x, 5) || Bit(x, 6) || Bit(x, 7)
            || Bit(x, 8) || Bit(x, 9) || Bit(x, 10) || Bit(x, 11) || Bit(x, 12) || Bit(x, 13) || Bit(x, 14)
            || Bit(x, 15)
  {
  }

  lemma SomeBit(x: bv32)
    requires 0 != x < 0x1_0000
    ensures exists k: nat :: k < 16 && Bit(x, k)
  {
    hide Bit;
    OneOfTheBits(x);
  }

  lemma NoBits(x: bv32, k: nat)
    requires k < 16 && Bit(x, k)
    ensures x != 0
  {
    hide Flag;
    assert 0 & Flag(k) == 0;
  }

  lemma SmallOr(x: bv32, w: nat)
    requires w < 16 && x < 0x1_0000
    ensures x | Flag(w) < 0x1_0000
  {
    hide Flag;
    FlagIsSingle(w);
    SmallEither(x, Flag(w));
  }

  lemma SmallEither(x: bv32, y: bv32)
    requires x < 0x1_0000 && y < 0x1_0000
    ensures x | y < 0x1_0000
  {
  }

  lemma SmallAnd(x: bv32, y: bv32)
    requires x < 0x1_0000
    ensures x & y < 0x1_0000
  {
  }

  /** The mask test asks whether one of the ten windows from w on is used. */
  lemma MaskTestsNearWindows(used: bv32, w: nat)
    requires w < 16 && used < 0x1_0000
    ensures used & NearMask(w) == 0 <==> forall k: nat | k < 16 && Near(w, k) :: !Bit(used, k)
  {
    hide NearMask, Near, Bit;
    forall k: nat | k < 16 ensures Bit(Common(used, NearMask(w)), k) <==> Bit(used, k) && Near(w, k) {
      MaskedBit(used, w, k);
    }
    SmallAnd(used, NearMask(w));
    if used & NearMask(w) != 0 {
      SomeBit(used & NearMask(w));
      var k: nat :| k < 16 && Bit(used & NearMask(w), k);
      assert Near(w, k) && Bit(used, k);
    } else {
      forall k: nat | k < 16 && Near(w, k) ensures !Bit(used, k) {
        if Bit(used, k) {
          NoBits(used & NearMask(w), k);
        }
      }
    }
  }

  lemma MaskedBit(used: bv32, w: nat, k: nat)
    requires w < 16 && k < 16
    ensures Bit(Common(used, NearMask(w)), k) <==> Bit(used, k) && Near(w, k)
  {
    hide Common, NearMask, Near, Flag, Touches, SingleBit;
    FlagIsSingle(k);
    AndSingle(used, NearMask(w), Flag(k));
    NearMaskBits(w, k);
  }

  /** A window's bit is set exactly while something is counted in it. */
  ghost predicate Marks(used: bv32, counts: seq<nat>) {
    && used < 0x1_0000 && |counts| == 16
    && forall w: nat :: w < 16 ==> (Bit(used, w) <==> counts[w] > 0)
  }

  function Marked(used: bv32, w: nat): bv32
    requires w < 16
  {
    Added(used, Flag(w))
  }

  function Unmarked(used: bv32, w: nat): bv32
    requires w < 16
  {
    Cleared(used, Flag(w))
  }

  lemma NothingMarked()
    ensures Marks(0, seq(16, i => 0))
  {
    forall w: nat | w < 16 ensures !Bit(0, w) {
      if Bit(0, w) {
        NoBits(0, w);
      }
    }
  }

  lemma MarkedCounts(used: bv32, counts: seq<nat>, w: nat)
    requires Marks(used, counts) && w < 16
    ensures Marks(Marked(used, w), counts[w := counts[w] + 1])
  {
    hide Bit, Flag;
    SmallOr(used, w);
    forall v: nat | v < 16 ensures Bit(Marked(used, w), v) <==> v == w || Bit(used, v) {
      SetBit(used, w, v);
    }
  }

  lemma UnmarkedCounts(used: bv32, counts: seq<nat>, w: nat)
    requires Marks(used, counts) && w < 16 && counts[w] > 0
    ensures Marks(if counts[w] == 1 then Unmarked(used, w) else used, counts[w := counts[w] - 1])
  {
    hide Bit, Flag;
    SmallAnd(used, !Flag(w));
    forall v: nat | v < 16 ensures Bit(Unmarked(used, w), v) <==> v != w && Bit(used, v) {
      ClearBit(used, w, v);
    }
  }

  lemma MaskTestsCounts(used: bv32, counts: seq<nat>, w: nat)
    requires Marks(used, counts) && w < 16
    ensures used & NearMask(w) != 0 <==> exists k: nat :: k < 16 && Near(w, k) && counts[k] > 0
  {
    hide Bit, NearMask, Near;
    MaskTestsNearWindows(used, w);
  }
}
