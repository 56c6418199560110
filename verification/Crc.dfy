/** The table-driven checksum of src/enet/packet.c:101-163 and the CRC-32 it computes, taken one
    bit at a time as section 8 of RFC 1952 does. */
module Crc {

  // ---- words ----

  function Xor(a: bv32, b: bv32): bv32 {
    a ^ b
  }

  function Union(a: bv32, b: bv32): bv32 {
    a | b
  }

  function Both(a: bv32, b: bv32): bv32 {
    a & b
  }

  function Half(a: bv32): bv32 {
    a >> 1
  }

  function Double(a: bv32): bv32 {
    a << 1
  }

  /** All but the lowest byte, moved down. */
  function Rest(a: bv32): bv32 {
    a >> 8
  }

  function LowByte(a: bv32): bv32 {
    a & 0xFF
  }

  function HighBytes(a: bv32): bv32 {
    a & 0xFFFFFF00
  }

  predicate Odd(a: bv32) {
    a & 1 == 1
  }

  predicate HasTop(a: bv32) {
    a & 0x80000000 != 0
  }

  // ---- the reference ----

  const POLYNOMIAL: bv32 := 0xEDB88320

  /** One bit of the reflected CRC. */
  function Step(c: bv32): bv32 {
    if Odd(c) then Xor(Half(c), POLYNOMIAL) else Half(c)
  }

  function Steps(c: bv32, n: nat): bv32
    decreases n
  {
    if n == 0 then c else Steps(Step(c), n - 1)
  }

  function Update(c: bv32, b: bv8): bv32 {
    Steps(Xor(c, b as bv32), 8)
  }

  function UpdateAll(c: bv32, data: seq<bv8>): bv32
    decreases |data|
  {
    if data == [] then c else UpdateAll(Update(c, data[0]), data[1..])
  }

  function Crc32(data: seq<bv8>): bv32 {
    !UpdateAll(0xFFFFFFFF, data)
  }

  lemma UpdatesAt(c: bv32, data: seq<bv8>, k: nat)
    requires k < |data|
    ensures UpdateAll(c, data[k..]) == UpdateAll(Update(c, data[k]), data[k + 1..])
  {
    hide Update;
    assert data[k..][1..] == data[k + 1..];
  }

  /** The checksum of the digits "123456789" is the check value by which the algorithm is known. */
  lemma CheckValue()
    ensures Crc32([0x31, 0x32, 0x33, 0x34, 0x35, 0x36, 0x37, 0x38, 0x39]) == 0xCBF43926
  {
    hide UpdateAll, Update;
    var digits: seq<bv8> := [0x31, 0x32, 0x33, 0x34, 0x35, 0x36, 0x37, 0x38, 0x39];
    assert digits[0..] == digits && digits[9..] == [];
    FirstDigits();
    LastDigits();
    UpdatesAt(0xFFFFFFFF, digits, 0);
    UpdatesAt(0x7C231048, digits, 1);
    UpdatesAt(0xB0ACBB32, digits, 2);
    UpdatesAt(0x77B79C2D, digits, 3);
    UpdatesAt(0x641C1F5C, digits, 4);
    UpdatesAt(0x340AC5E3, digits, 5);
    UpdatesAt(0xF68D2C9E, digits, 6);
    UpdatesAt(0xAFFC9660, digits, 7);
    UpdatesAt(0x651F2550, digits, 8);
    UpdatesNothing(0x340BC6D9);
  }

  lemma FirstDigits()
    ensures Update(0xFFFFFFFF, 0x31) == 0x7C231048 && Update(0x7C231048, 0x32) == 0xB0ACBB32
    ensures Update(0xB0ACBB32, 0x33) == 0x77B79C2D && Update(0x77B79C2D, 0x34) == 0x641C1F5C
  {
  }

  lemma LastDigits()
    ensures Update(0x641C1F5C, 0x35) == 0x340AC5E3 && Update(0x340AC5E3, 0x36) == 0xF68D2C9E
    ensures Update(0xF68D2C9E, 0x37) == 0xAFFC9660 && Update(0xAFFC9660, 0x38) == 0x651F2550
    ensures Update(0x651F2550, 0x39) == 0x340BC6D9
  {
  }

  // ---- reflection ----

  /** All 32 bits in reverse order. */
  function Reflected(x: bv32): bv32 {
    var a := ((x >> 1) & 0x55555555) | ((x & 0x55555555) << 1);
    var b := ((a >> 2) & 0x33333333) | ((a & 0x33333333) << 2);
    var c := ((b >> 4) & 0x0F0F0F0F) | ((b & 0x0F0F0F0F) << 4);
    var d := ((c >> 8) & 0x00FF00FF) | ((c & 0x00FF00FF) << 8);
    (d >> 16) | (d << 16)
  }

  lemma ReflectsTwice(x: bv32)
    ensures Reflected(Reflected(x)) == x
  {
  }

  lemma ReflectsXor(x: bv32, y: bv32)
    ensures Reflected(Xor(x, y)) == Xor(Reflected(x), Reflected(y))
  {
  }

  lemma ReflectsHalf(x: bv32)
    ensures Double(Reflected(x)) == Reflected(Half(x))
  {
    ReflectsShift(x);
    hide Reflected;
  }

  lemma ReflectsShift(x: bv32)
    ensures Reflected(x) << 1 == Reflected(x >> 1)
  {
  }

  lemma ReflectsOdd(x: bv32)
    ensures HasTop(Reflected(x)) <==> Odd(x)
  {
  }

  /** The lowest bit comes first, and the rest one place further down. */
  lemma ReflectsLowBit(x: bv32)
    ensures Reflected(x) == Union(if Odd(x) then 0x80000000 else 0, Half(Reflected(Half(x))))
  {
  }

  lemma ReflectsPolynomial()
    ensures Reflected(POLYNOMIAL) == 0x04C11DB7
  {
  }

  /** The terms of the polynomial, x^32 left out: the unreflected form has a bit for each. */
  lemma PolynomialTerms()
    ensures Reflected(POLYNOMIAL)
         == (1 << 26) | (1 << 23) | (1 << 22) | (1 << 16) | (1 << 12) | (1 << 11) | (1 << 10) | (1 << 8)
            | (1 << 7) | (1 << 5) | (1 << 4) | (1 << 2) | (1 << 1) | 1
  {
  }

  /** One bit of the unreflected CRC, as the table is computed. */
  function LeftStep(c: bv32): bv32 {
    if HasTop(c) then Xor(Double(c), 0x04C11DB7) else Double(c)
  }

  function LeftSteps(c: bv32, n: nat): bv32
    decreases n
  {
    if n == 0 then c else LeftSteps(LeftStep(c), n - 1)
  }

  lemma StepsReflect(x: bv32)
    ensures LeftStep(Reflected(x)) == Reflected(Step(x))
  {
    hide Reflected, HasTop, Odd, Double, Half, Xor;
    ReflectsHalf(x);
    ReflectsOdd(x);
    ReflectsPolynomial();
    ReflectsXor(Half(x), POLYNOMIAL);
  }

  lemma {:induction false} AllStepsReflect(x: bv32, n: nat)
    ensures LeftSteps(Reflected(x), n) == Reflected(Steps(x, n))
    decreases n
  {
    hide Reflected, Step, LeftStep;
    if n > 0 {
      StepsReflect(x);
      AllStepsReflect(Step(x), n - 1);
    }
  }

  // ---- a table entry advances by a whole byte ----

  lemma HalfOfXor(x: bv32, y: bv32)
    ensures Half(Xor(x, y)) == Xor(Half(x), Half(y))
  {
  }

  lemma OddXor(x: bv32, y: bv32)
    ensures Odd(Xor(x, y)) <==> Odd(x) != Odd(y)
  {
  }

  lemma XorCommutes(a: bv32, b: bv32)
    ensures Xor(a, b) == Xor(b, a)
  {
  }

  lemma XorAssociates(a: bv32, b: bv32, p: bv32)
    ensures Xor(a, Xor(b, p)) == Xor(Xor(a, b), p)
  {
  }

  lemma XorTwice(a: bv32)
    ensures Xor(a, a) == 0 && Xor(a, 0) == a
  {
  }

  lemma XorMoves(a: bv32, b: bv32, p: bv32)
    ensures Xor(Xor(a, p), b) == Xor(Xor(a, b), p)
  {
    hide Xor;
    XorAssociates(a, p, b);
    XorCommutes(p, b);
    XorAssociates(a, b, p);
  }

  lemma XorCancels(a: bv32, b: bv32, p: bv32)
    ensures Xor(Xor(a, p), Xor(b, p)) == Xor(a, b)
  {
    hide Xor;
    XorMoves(a, Xor(b, p), p);
    XorAssociates(a, b, p);
    XorAssociates(Xor(a, b), p, p);
    XorTwice(p);
    XorTwice(Xor(a, b));
  }

  lemma StepIsLinear(x: bv32, y: bv32)
    ensures Step(Xor(x, y)) == Xor(Step(x), Step(y))
  {
    hide Xor, Half, Odd;
    HalfOfXor(x, y);
    OddXor(x, y);
    XorCancels(Half(x), Half(y), POLYNOMIAL);
    XorMoves(Half(x), Half(y), POLYNOMIAL);
    XorAssociates(Half(x), Half(y), POLYNOMIAL);
  }

  lemma {:induction false} StepsAreLinear(x: bv32, y: bv32, n: nat)
    ensures Steps(Xor(x, y), n) == Xor(Steps(x, n), Steps(y, n))
    decreases n
  {
    hide Step, Xor;
    if n > 0 {
      StepIsLinear(x, y);
      StepsAreLinear(Step(x), Step(y), n - 1);
    }
  }

  /** Moving down by n places, one at a time. */
  function Down(x: bv32, n: nat): bv32
    decreases n
  {
    if n == 0 then x else Down(Half(x), n - 1)
  }

  lemma EightHalves(x: bv32)
    ensures Rest(x) == Half(Half(Half(Half(Half(Half(Half(Half(x))))))))
  {
  }

  lemma DownEight(x: bv32)
    ensures Down(x, 8) == Rest(x)
  {
    hide Half, Rest;
    EightHalves(x);
    DownThree(x, 8);
    var y := Half(Half(Half(x)));
    DownThree(y, 5);
    DownTwo(Half(Half(Half(y))));
  }

  lemma DownThree(x: bv32, n: nat)
    requires n >= 3
    ensures Down(x, n) == Down(Half(Half(Half(x))), n - 3)
  {
    hide Half;
    assert Down(x, n) == Down(Half(x), n - 1) == Down(Half(Half(x)), n - 2);
  }

  lemma DownTwo(x: bv32)
    ensures Down(x, 2) == Half(Half(x))
  {
    hide Half;
    assert Down(x, 2) == Down(Half(x), 1);
  }

  /** The n lowest bits, for n up to 8. */
  function Ones(n: nat): bv32 {
    if n == 0 then 0 else if n == 1 then 1 else if n == 2 then 3 else if n == 3 then 7 else if n == 4 then 15
    else if n == 5 then 31 else if n == 6 then 63 else if n == 7 then 127 else 255
  }

  lemma OnesBelow(n: nat)
    requires 0 < n <= 8
    ensures Half(Ones(n)) == Ones(n - 1) && Odd(Ones(n))
  {
  }

  lemma EvenBelow(x: bv32, ones: bv32)
    requires Both(x, ones) == 0 && Odd(ones)
    ensures !Odd(x) && Both(Half(x), Half(ones)) == 0
  {
  }

  /** While the low bits are 0, a step is a shift. */
  lemma {:induction false} ZerosShift(x: bv32, n: nat)
    requires n <= 8 && Both(x, Ones(n)) == 0
    ensures Steps(x, n) == Down(x, n)
    decreases n
  {
    hide Both, Ones, Half, Odd, Xor;
    if n > 0 {
      OnesBelow(n);
      EvenBelow(x, Ones(n));
      ZerosShift(Half(x), n - 1);
    }
  }

  lemma SplitsByte(x: bv32)
    ensures x == Xor(HighBytes(x), LowByte(x))
  {
  }

  lemma HighBytesEnd(x: bv32)
    ensures Both(HighBytes(x), Ones(8)) == 0
  {
  }

  lemma RestOfHighBytes(x: bv32)
    ensures Rest(HighBytes(x)) == Rest(x)
  {
  }

  /** Eight steps are one look-up. */
  lemma LooksUpByte(x: bv32)
    ensures Steps(x, 8) == Xor(Rest(x), Steps(LowByte(x), 8))
  {
    hide Steps, Down, Xor, Both, Ones, Rest, HighBytes, LowByte;
    SplitsByte(x);
    StepsAreLinear(HighBytes(x), LowByte(x), 8);
    HighBytesEnd(x);
    ZerosShift(HighBytes(x), 8);
    DownEight(HighBytes(x));
    RestOfHighBytes(x);
  }

  lemma RestOfXor(c: bv32, b: bv8)
    ensures Rest(Xor(c, b as bv32)) == Rest(c)
  {
  }

  lemma LowByteOfXor(c: bv32, b: bv8)
    ensures LowByte(Xor(c, b as bv32)) == LowByte(c) ^ (b as bv32) < 256
  {
  }

  // ---- reversing bit by bit ----

  /** The n lowest bits of x in reverse order, at the top. */
  function Reversed(x: bv32, n: nat): bv32
    decreases n
  {
    if n == 0 then 0 else Union(if Odd(x) then 0x80000000 else 0, Half(Reversed(Half(x), n - 1)))
  }

  /** The n highest bits. */
  function High(n: nat): bv32 {
    if n == 0 then 0 else Union(0x80000000, Half(High(n - 1)))
  }

  lemma {:induction false} ReversedIsReflected(x: bv32, n: nat)
    ensures Reversed(x, n) == Both(Reflected(x), High(n))
    decreases n
  {
    hide Reflected, Both, Union, Half, Odd;
    NothingOf(Reflected(x));
    if n > 0 {
      ReversedIsReflected(Half(x), n - 1);
      ReflectsLowBit(x);
      TopOf(Reflected(Half(x)), High(n - 1), if Odd(x) then 0x80000000 else 0);
    }
  }

  lemma NothingOf(x: bv32)
    ensures Both(x, 0) == 0
  {
  }

  lemma TopOf(f: bv32, h: bv32, t: bv32)
    requires t == 0 || t == 0x80000000
    ensures Both(Union(t, Half(f)), Union(0x80000000, Half(h))) == Union(t, Half(Both(f, h)))
  {
  }

  /** Each place further down is one more bit. */
  lemma {:induction false} HighAdds(a: nat, b: nat)
    ensures High(a + b) == Union(High(a), Down(High(b), a))
  {
    hide Union, Half;
    if a == 0 {
      UnionZero(High(b));
    } else {
      HighAdds(a - 1, b);
      HalfOfUnion(High(a - 1), Down(High(b), a - 1));
      UnionAssociates(0x80000000, Half(High(a - 1)), Half(Down(High(b), a - 1)));
      DownLast(High(b), a);
    }
  }

  lemma UnionZero(x: bv32)
    ensures Union(0, x) == x
  {
  }

  lemma HalfOfUnion(x: bv32, y: bv32)
    ensures Half(Union(x, y)) == Union(Half(x), Half(y))
  {
  }

  lemma UnionAssociates(x: bv32, y: bv32, z: bv32)
    ensures Union(x, Union(y, z)) == Union(Union(x, y), z)
  {
  }

  lemma {:induction false} DownLast(x: bv32, n: nat)
    requires n > 0
    ensures Down(x, n) == Half(Down(x, n - 1))
    decreases n
  {
    hide Half;
    if n > 1 {
      DownLast(Half(x), n - 1);
    }
  }

  lemma HighFour()
    ensures High(4) == 0xF0000000
  {
    hide Union, Half;
    HighSteps();
    assert High(1) == 0x80000000 && High(2) == 0xC0000000 && High(3) == 0xE0000000;
  }

  lemma HighSteps()
    ensures Union(0x80000000, Half(0)) == 0x80000000 && Union(0x80000000, Half(0x80000000)) == 0xC0000000
    ensures Union(0x80000000, Half(0xC0000000)) == 0xE0000000 && Union(0x80000000, Half(0xE0000000)) == 0xF0000000
  {
  }

  /** The 8 and the 32 highest bits. */
  lemma HighMasks()
    ensures High(8) == 0xFF000000 && High(32) == 0xFFFFFFFF
  {
    hide High, Down, Union, Rest;
    HighFour();
    HighAdds(4, 4);
    DownFour(0xF0000000);
    HighAdds(8, 8);
    DownEight(0xFF000000);
    HighAdds(16, 16);
    DownSixteen(0xFFFF0000);
    HighUnions();
  }

  lemma HighUnions()
    ensures Union(0xF0000000, 0xF0000000 >> 4) == 0xFF000000
    ensures Union(0xFF000000, Rest(0xFF000000)) == 0xFFFF0000
    ensures Union(0xFFFF0000, Rest(Rest(0xFFFF0000))) == 0xFFFFFFFF
  {
  }

  lemma DownFour(x: bv32)
    ensures Down(x, 4) == x >> 4
  {
    FourHalves(x);
    hide Half;
    DownThree(x, 4);
    assert Down(Half(Half(Half(x))), 1) == Half(Half(Half(Half(x))));
  }

  lemma FourHalves(x: bv32)
    ensures x >> 4 == Half(Half(Half(Half(x))))
  {
  }

  lemma {:induction false} DownAdds(x: bv32, a: nat, b: nat)
    ensures Down(x, a + b) == Down(Down(x, a), b)
    decreases a
  {
    hide Half;
    if a > 0 {
      DownAdds(Half(x), a - 1, b);
    }
  }

  lemma DownSixteen(x: bv32)
    ensures Down(x, 16) == Rest(Rest(x))
  {
    hide Down, Rest;
    DownAdds(x, 8, 8);
    DownEight(x);
    DownEight(Rest(x));
  }

  lemma DownTwentyFour(x: bv32)
    ensures Down(x, 24) == Rest(Rest(Rest(x)))
  {
    hide Down, Rest;
    DownAdds(x, 16, 8);
    DownSixteen(x);
    DownEight(Rest(Rest(x)));
  }

  lemma ThreeRests(x: bv32)
    ensures Rest(Rest(Rest(x))) == x >> 24
  {
  }

  // ---- the code ----

  class Checksum {
    const crcTable: array<bv32>

    /** Each entry is what eight bits make of its index. */
    ghost predicate Initialized()
      reads crcTable
    {
      crcTable.Length == 256 && forall i: nat :: i < 256 ==> crcTable[i] == Steps(i as bv32, 8)
    }

    constructor ()
      ensures fresh(crcTable) && Initialized()
    {
      crcTable := new bv32[256];
      new;
      InitializeCrc32();
    }

    /** initialize_crc32 */
    method InitializeCrc32()
      requires crcTable.Length == 256
      modifies crcTable
      ensures Initialized()
    {
      hide Steps;
      for i := 0 to 256
        invariant forall j: nat :: j < i ==> crcTable[j] == Steps(j as bv32, 8)
      {
        var entry := TableEntry(i as bv32);
        crcTable[i] := entry;
      }
    }

    /** enet_crc32, up to the final conversion to network byte order: the table-driven loop over all
        buffers computes the CRC-32 of their concatenation. */
    method Crc32Of(buffers: seq<seq<bv8>>) returns (crc: bv32)
      requires Initialized()
      ensures crc == Crc32(Concatenated(buffers))
    {
      hide Update, Steps, UpdateAll;
      crc := 0xFFFFFFFF;
      var left := buffers;
      while left != []
        invariant UpdateAll(crc, Concatenated(left)) == UpdateAll(0xFFFFFFFF, Concatenated(buffers))
        decreases |left|
      {
        UpdatesInTurn(crc, left[0], Concatenated(left[1..]));
        crc := AddBuffer(crc, left[0]);
        left := left[1..];
      }
      UpdatesNothing(crc);
      crc := !crc;
    }

    method AddBuffer(start: bv32, data: seq<bv8>) returns (crc: bv32)
      requires Initialized()
      ensures crc == UpdateAll(start, data)
    {
      hide Update, Steps, UpdateAll;
      crc := start;
      var i := 0;
      assert data[0..] == data;
      while i < |data|
        invariant 0 <= i <= |data| && UpdateAll(crc, data[i..]) == UpdateAll(start, data)
      {
        UpdatesNext(crc, data[i..]);
        assert data[i..][1..] == data[i + 1..];
        crc := AddByte(crc, data[i]);
        i := i + 1;
      }
      UpdatesNothing(crc);
    }

    method AddByte(start: bv32, b: bv8) returns (crc: bv32)
      requires Initialized()
      ensures crc == Update(start, b)
    {
      hide Steps, Xor, Rest, LowByte;
      LooksUpByte(Xor(start, b as bv32));
      RestOfXor(start, b);
      LowByteOfXor(start, b);
      var index := LowByte(start) ^ (b as bv32);
      crc := Xor(Rest(start), crcTable[index as int]);
    }
  }

  function Concatenated(buffers: seq<seq<bv8>>): seq<bv8> {
    if buffers == [] then [] else buffers[0] + Concatenated(buffers[1..])
  }

  lemma {:induction false} UpdatesInTurn(c: bv32, a: seq<bv8>, b: seq<bv8>)
    ensures UpdateAll(c, a + b) == UpdateAll(UpdateAll(c, a), b)
    decreases |a|
  {
    hide Update;
    if a == [] {
      assert a + b == b;
    } else {
      assert (a + b)[1..] == a[1..] + b;
      UpdatesInTurn(Update(c, a[0]), a[1..], b);
    }
  }

  lemma UpdatesNext(c: bv32, data: seq<bv8>)
    requires data != []
    ensures UpdateAll(c, data) == UpdateAll(Update(c, data[0]), data[1..])
  {
    hide Update;
  }

  lemma UpdatesNothing(c: bv32)
    ensures UpdateAll(c, []) == c
  {
  }

  method TableEntry(index: bv32) returns (entry: bv32)
    requires index < 256
    ensures entry == Steps(index, 8)
  {
    hide Reflected, LeftStep, Step, Steps;
    var crc := ReflectCrc(index, 8);
    crc := crc << 24;
    ByteReflects(index);
    AllStepsReflect(index, 8);
    for offset := 0 to 8
      invariant LeftSteps(crc, 8 - offset) == LeftSteps(Reflected(index), 8)
    {
      crc := ShiftOnce(crc);
    }
    entry := ReflectCrc(crc, 32);
    ReflectsTwice(Steps(index, 8));
  }

  method ShiftOnce(crc: bv32) returns (r: bv32)
    ensures r == LeftStep(crc)
  {
    hide Xor, Double, HasTop;
    if HasTop(crc) {
      r := Xor(Double(crc), 0x04C11DB7);
    } else {
      r := Double(crc);
    }
  }

  lemma ByteReflects(x: bv32)
    requires x < 256
    ensures (Reflected(x) >> 24) << 24 == Reflected(x)
  {
  }

  /** reflect_crc, for 8 and for 32 bits: the bits in reverse order. */
  method ReflectCrc(val: bv32, bits: nat) returns (result: bv32)
    requires bits == 8 || bits == 32
    ensures bits == 8 ==> result == Reflected(val) >> 24
    ensures bits == 32 ==> result == Reflected(val)
  {
    hide Reflected, Reversed, Down, Union, Half, Odd;
    result := 0;
    var v := val;
    UnionZero(Down(Reversed(val, bits), 32 - bits));
    for bit := 0 to bits
      invariant Union(result, Down(Reversed(v, bits - bit), 32 - bits + bit)) == Down(Reversed(val, bits), 32 - bits)
    {
      BitGoesTo(v, bits - bit, 32 - bits + bit, result);
      if Odd(v) {
        result := Union(result, 1 << (bits - 1 - bit));
      }
      v := Half(v);
    }
    NoBitsLeft(v, result);
    WholeReversed(val, bits);
  }

  /** The next bit goes to its place. */
  lemma BitGoesTo(v: bv32, n: nat, s: nat, result: bv32)
    requires n > 0 && n + s == 32
    ensures Union(result, Down(Reversed(v, n), s))
         == Union(if Odd(v) then Union(result, 1 << (n - 1)) else result, Down(Reversed(Half(v), n - 1), s + 1))
  {
    hide Union, Half, Odd, Down;
    var rest := Half(Reversed(Half(v), n - 1));
    DownStep(Reversed(Half(v), n - 1), s);
    if Odd(v) {
      DownUnion(0x80000000, rest, s);
      TopGoesDown(s);
      UnionAssociates(result, 1 << (n - 1), Down(rest, s));
    } else {
      UnionZero(rest);
    }
  }

  lemma DownStep(x: bv32, s: nat)
    ensures Down(Half(x), s) == Down(x, s + 1)
  {
  }

  lemma {:induction false} DownUnion(x: bv32, y: bv32, n: nat)
    ensures Down(Union(x, y), n) == Union(Down(x, n), Down(y, n))
    decreases n
  {
    hide Union, Half;
    if n > 0 {
      HalfOfUnion(x, y);
      DownUnion(Half(x), Half(y), n - 1);
    }
  }

  lemma {:induction false} TopGoesDown(s: nat)
    requires s < 32
    ensures Down(0x80000000, s) == 1 << (31 - s)
  {
    hide Half;
    if s == 0 {
      TopBit();
    } else {
      TopGoesDown(s - 1);
      DownLast(0x80000000, s);
      BitHalves(32 - s);
    }
  }

  lemma TopBit()
    ensures (1 as bv32) << 31 == 0x80000000
  {
  }

  lemma BitHalves(m: nat)
    requires 0 < m < 32
    ensures Half(1 << m) == 1 << (m - 1)
  {
    // the shift distances are taken one by one, in four groups
    if m < 16 {
      assert m < 8 || m >= 8;
    } else {
      assert m < 24 || m >= 24;
    }
  }

  lemma NoBitsLeft(v: bv32, result: bv32)
    ensures Union(result, Down(Reversed(v, 0), 32)) == result
  {
    hide Down;
    DownOfZero(32);
    UnionWithZero(result);
  }

  lemma {:induction false} DownOfZero(n: nat)
    ensures Down(0, n) == 0
    decreases n
  {
    if n > 0 {
      DownOfZero(n - 1);
    }
  }

  lemma UnionWithZero(x: bv32)
    ensures Union(x, 0) == x
  {
  }

  lemma WholeReversed(x: bv32, bits: nat)
    requires bits == 8 || bits == 32
    ensures bits == 8 ==> Down(Reversed(x, 8), 24) == Reflected(x) >> 24
    ensures bits == 32 ==> Down(Reversed(x, 32), 0) == Reflected(x)
  {
    hide Reflected, Reversed, High, Down, Both, Rest;
    HighMasks();
    ReversedIsReflected(x, bits);
    if bits == 8 {
      DownTwentyFour(Both(Reflected(x), 0xFF000000));
      ThreeRests(Both(Reflected(x), 0xFF000000));
      TopByteOf(Reflected(x));
    } else {
      AllOf(Reflected(x));
      DownNone(Reflected(x));
    }
  }

  lemma TopByteOf(x: bv32)
    ensures Both(x, 0xFF000000) >> 24 == x >> 24
  {
  }

  lemma AllOf(x: bv32)
    ensures Both(x, 0xFFFFFFFF) == x
  {
  }

  lemma DownNone(x: bv32)
    ensures Down(x, 0) == x
  {
  }
}
