/** The two base64 encoders, src/string_codec/string_codec.cpp:260-304 (whole blocks, padded in
    place) and src/httplib/httplib.h:1877-1909 (a bit accumulator), and the decoder
    (src/string_codec/string_codec.cpp:332-399), against section 4 of RFC 4648. */
module Base64 {

  const ALPHABET := "ABCDEFGHIJKLMNOPQRSTUVWXYZ" + ("abcdefghijklmnopqrstuvwxyz" + "0123456789+/")

  function Symbol(v: bv8): char
    requires v < 64
  {
    assert v as int < 64 by { FitsTable(v); }
    ALPHABET[v as int]
  }

  lemma FitsTable(v: bv8)
    requires v < 64
    ensures v as int < 64
  {
  }

  /** base64_index: 64 stands for a character outside the alphabet. */
  function Index(symbol: char): nat {
    if 'A' <= symbol <= 'Z' then symbol as int - 'A' as int
    else if 'a' <= symbol <= 'z' then symbol as int - 'a' as int + 26
    else if '0' <= symbol <= '9' then symbol as int - '0' as int + 52
    else if symbol == '+' then 62
    else if symbol == '/' then 63
    else if symbol == '=' then 0
    else 64
  }

  lemma TableIsIndexed(i: nat)
    requires i < 64
    ensures Index(ALPHABET[i]) == i && ALPHABET[i] != '='
  {
    if i < 26 {
      UpperCase(i);
    } else if i < 52 {
      LowerCase(i);
    } else {
      OtherSymbols(i);
    }
  }

  lemma UpperCase(i: nat)
    requires i < 26
    ensures ALPHABET[i] as int == 'A' as int + i
  {
  }

  lemma LowerCase(i: nat)
    requires 26 <= i < 52
    ensures ALPHABET[i] as int == 'a' as int + i - 26
  {
  }

  lemma OtherSymbols(i: nat)
    requires 52 <= i < 64
    ensures i < 62 ==> ALPHABET[i] as int == '0' as int + i - 52
    ensures i == 62 ==> ALPHABET[i] == '+'
    ensures i == 63 ==> ALPHABET[i] == '/'
  {
  }

  lemma IndexIsTabled(c: char)
    requires Index(c) < 64 && c != '='
    ensures ALPHABET[Index(c)] == c
  {
    var i := Index(c);
    if i < 26 {
      UpperCase(i);
    } else if i < 52 {
      LowerCase(i);
    } else {
      OtherSymbols(i);
    }
  }

  // ---- the encoding of section 4: 24-bit groups taken six bits at a time ----

  function Group(a: bv8, b: bv8, c: bv8): bv24 {
    ((a as bv24) << 16) | ((b as bv24) << 8) | (c as bv24)
  }

  /** The four sextets of a group, most significant first. */
  function First(g: bv24): (v: bv8)
    ensures v < 64
  {
    (g >> 18) as bv8
  }

  function Second(g: bv24): (v: bv8)
    ensures v < 64
  {
    ((g >> 12) & 0x3F) as bv8
  }

  function Third(g: bv24): (v: bv8)
    ensures v < 64
  {
    ((g >> 6) & 0x3F) as bv8
  }

  function Fourth(g: bv24): (v: bv8)
    ensures v < 64
  {
    (g & 0x3F) as bv8
  }

  function Quad(g: bv24): (q: string)
    ensures |q| == 4
  {
    [Symbol(First(g)), Symbol(Second(g)), Symbol(Third(g)), Symbol(Fourth(g))]
  }

  /** The last group is filled up with zero bits and the symbols it does not need are '='. */
  function Encoded(data: seq<bv8>): (text: string)
    decreases |data|
  {
    if data == [] then ""
    else if |data| == 1 then Quad(Group(data[0], 0, 0))[..2] + "=="
    else if |data| == 2 then Quad(Group(data[0], data[1], 0))[..3] + "="
    else Quad(Group(data[0], data[1], data[2])) + Encoded(data[3..])
  }

  lemma SymbolOf(v: bv8, i: nat)
    requires v < 64 && v as int == i
    ensures Symbol(v) == ALPHABET[i]
  {
  }

  /** The first three test vectors of section 10 of RFC 4648: "f", "fo" and "foo". */
  lemma TestVectors()
    ensures Encoded([0x66]) == "Zg=="
    ensures Encoded([0x66, 0x6F]) == "Zm8="
    ensures Encoded([0x66, 0x6F, 0x6F]) == "Zm9v"
  {
    var f: bv8, o: bv8 := 0x66, 0x6F;
    assert First(Group(f, 0, 0)) == 25 && Second(Group(f, 0, 0)) == 32;
    assert First(Group(f, o, 0)) == 25 && Second(Group(f, o, 0)) == 38 && Third(Group(f, o, 0)) == 60;
    assert First(Group(f, o, o)) == 25 && Second(Group(f, o, o)) == 38;
    assert Third(Group(f, o, o)) == 61 && Fourth(Group(f, o, o)) == 47;
    UpperCase(25);
    LowerCase(32);
    LowerCase(38);
    OtherSymbols(60);
    OtherSymbols(61);
    LowerCase(47);
    SymbolOf(25, 25);
    SymbolOf(32, 32);
    SymbolOf(38, 38);
    SymbolOf(60, 60);
    SymbolOf(61, 61);
    SymbolOf(47, 47);
  }

  lemma {:induction false} EncodedLength(data: seq<bv8>)
    ensures |Encoded(data)| == (|data| + 2) / 3 * 4
    decreases |data|
  {
    hide Group, First, Second, Third, Fourth, Symbol;
    if |data| > 2 {
      EncodedLength(data[3..]);
      assert (|data| + 2) / 3 == (|data| - 3 + 2) / 3 + 1;
    }
  }

  // ---- whole blocks with padding in place ----

  /** The sextets as the block encoder cuts them. */
  function BlockFirst(a: bv8): bv8 {
    (a >> 2) & 0x3F
  }

  function BlockSecond(a: bv8, b: bv8): bv8 {
    ((a << 4) & 0x30) | ((b >> 4) & 0x0F)
  }

  function BlockThird(b: bv8, c: bv8): bv8 {
    ((b << 2) & 0x3C) | ((c >> 6) & 0x03)
  }

  function BlockFourth(c: bv8): bv8 {
    c & 0x3F
  }

  lemma CutsFirst(a: bv8, b: bv8, c: bv8)
    ensures BlockFirst(a) == First(Group(a, b, c))
  {
  }

  lemma CutsSecond(a: bv8, b: bv8, c: bv8)
    ensures BlockSecond(a, b) == Second(Group(a, b, c))
  {
  }

  lemma CutsThird(a: bv8, b: bv8, c: bv8)
    ensures BlockThird(b, c) == Third(Group(a, b, c))
  {
  }

  lemma CutsFourth(a: bv8, b: bv8, c: bv8)
    ensures BlockFourth(c) == Fourth(Group(a, b, c))
  {
  }

  lemma BlockCuts(a: bv8, b: bv8, c: bv8)
    ensures BlockFirst(a) == First(Group(a, b, c)) && BlockSecond(a, b) == Second(Group(a, b, c))
    ensures BlockThird(b, c) == Third(Group(a, b, c)) && BlockFourth(c) == Fourth(Group(a, b, c))
  {
    hide Group, First, Second, Third, Fourth, BlockFirst, BlockSecond, BlockThird, BlockFourth;
    CutsFirst(a, b, c);
    CutsSecond(a, b, c);
    CutsThird(a, b, c);
    CutsFourth(a, b, c);
  }

  /** Byte k of a block, 0 past the end of the data. */
  function ByteOr0(data: seq<bv8>, k: nat): bv8 {
    if k < |data| then data[k] else 0
  }

  /** The encoding before the padding is written over its end. */
  function Blocks(data: seq<bv8>): string
    decreases |data|
  {
    if data == [] then ""
    else Quad(Group(data[0], ByteOr0(data, 1), ByteOr0(data, 2))) + Blocks(if |data| < 3 then [] else data[3..])
  }

  function Padding(n: nat): nat {
    if n % 3 == 0 then 0 else 3 - n % 3
  }

  lemma {:induction false} PaddingIsWrittenOver(data: seq<bv8>)
    ensures |Blocks(data)| == (|data| + 2) / 3 * 4 && |Blocks(data)| >= Padding(|data|)
    ensures Encoded(data) == Blocks(data)[..|Blocks(data)| - Padding(|data|)] + seq(Padding(|data|), i => '=')
    decreases |data|
  {
    hide Quad, Group, Encoded, Blocks, Padding;
    if |data| > 2 {
      var rest := data[3..];
      PaddingIsWrittenOver(rest);
      SplitsGroup(data);
      PaddingGoesOn(|data|);
      TakesFront(Quad(Group(data[0], data[1], data[2])), Blocks(rest), Padding(|data|));
    } else {
      LastBlock(data);
    }
  }

  lemma LastBlock(data: seq<bv8>)
    requires |data| <= 2
    ensures |Blocks(data)| == (|data| + 2) / 3 * 4 && |Blocks(data)| >= Padding(|data|)
    ensures Encoded(data) == Blocks(data)[..|Blocks(data)| - Padding(|data|)] + seq(Padding(|data|), i => '=')
  {
    hide Quad, Group;
    assert Blocks([]) == "";
  }

  lemma TakesFront(a: string, b: string, n: nat)
    requires n <= |b|
    ensures (a + b)[..|a + b| - n] == a + b[..|b| - n]
  {
  }

  lemma PaddingGoesOn(n: nat)
    requires n > 2
    ensures Padding(n - 3) == Padding(n) && (n + 2) / 3 * 4 == (n - 3 + 2) / 3 * 4 + 4
  {
  }

  lemma SplitsGroup(data: seq<bv8>)
    requires |data| > 2
    ensures Encoded(data) == Quad(Group(data[0], data[1], data[2])) + Encoded(data[3..])
    ensures Blocks(data) == Quad(Group(data[0], data[1], data[2])) + Blocks(data[3..])
  {
    hide Quad, Group;
  }

  /** Symbols for n bytes, and for the blocks of the first i. */
  function Room(n: nat): nat {
    (n + 2) / 3 * 4
  }

  lemma RoomGrows(n: nat, i: nat)
    requires i < n && i % 3 == 0
    ensures Room(i) + 4 == Room(i + 3) <= Room(n) && (i + 3 >= n ==> Room(i + 3) == Room(n))
  {
  }

  lemma Extends(before: string, quad: string, rest: string, after: string, whole: string)
    requires before + after == whole && after == quad + rest
    ensures (before + quad) + rest == whole
  {
  }

  /** base64_encode of the string codec. */
  method EncodeBlocks(src: seq<bv8>) returns (dst: string)
    ensures dst == Encoded(src)
  {
    hide Blocks, Encoded, Quad, Group, Padding, ByteOr0, From, Room;
    if |src| == 0 {
      EncodedNothing();
      return "";
    }
    dst := FillBlocks(src);
    PaddingIsWrittenOver(src);
    dst := PadEnd(dst, |src|);
  }

  method FillBlocks(src: seq<bv8>) returns (dst: string)
    ensures dst == Blocks(src)
  {
    hide Blocks, Quad, Group, ByteOr0, From, Room;
    var a := new char[Room(|src|)];
    BlocksStart(src);
    var i: nat, j: nat := 0, 0;
    while i < |src|
      invariant i % 3 == 0 && j == Room(i) <= Room(|src|) && (i >= |src| ==> j == Room(|src|))
      invariant a[..j] + Blocks(From(src, i)) == Blocks(src)
    {
      ghost var before := a[..j];
      RoomGrows(|src|, i);
      BlocksNext(src, i);
      PutBlock(a, j, src[i], ByteOr0(src, i + 1), ByteOr0(src, i + 2));
      ghost var quad := Quad(Group(src[i], ByteOr0(src, i + 1), ByteOr0(src, i + 2)));
      assert a[..j + 4] == before + quad;
      Extends(before, quad, Blocks(From(src, i + 3)), Blocks(From(src, i)), Blocks(src));
      i := i + 3;
      j := j + 4;
    }
    BlocksEnd(src, i);
    assert a[..] == a[..j] + Blocks(From(src, i));
    dst := a[..];
  }

  lemma BlocksStart(src: seq<bv8>)
    ensures From(src, 0) == src && Room(0) == 0 && Room(|src|) >= 0
    ensures src == [] ==> Room(|src|) == 0
  {
  }

  function From(data: seq<bv8>, i: nat): seq<bv8> {
    if i < |data| then data[i..] else []
  }

  lemma BlocksNext(data: seq<bv8>, i: nat)
    requires i < |data|
    ensures Blocks(From(data, i)) == Quad(Group(data[i], ByteOr0(data, i + 1), ByteOr0(data, i + 2)))
            + Blocks(From(data, i + 3))
  {
    hide Quad, Group;
    var rest := data[i..];
    assert ByteOr0(rest, 1) == ByteOr0(data, i + 1) && ByteOr0(rest, 2) == ByteOr0(data, i + 2);
    assert (if |rest| < 3 then [] else rest[3..]) == From(data, i + 3);
  }

  lemma BlocksEnd(data: seq<bv8>, i: nat)
    requires i >= |data|
    ensures Blocks(From(data, i)) == ""
  {
  }

  /** One pass of the loop: four symbols for three bytes. */
  method PutBlock(a: array<char>, j: nat, t0: bv8, t1: bv8, t2: bv8)
    requires j + 4 <= a.Length
    modifies a
    ensures a[..] == old(a[..j]) + Quad(Group(t0, t1, t2)) + old(a[j + 4..])
  {
    hide Group, First, Second, Third, Fourth, Symbol, BlockFirst, BlockSecond, BlockThird, BlockFourth;
    BlockCuts(t0, t1, t2);
    a[j] := Symbol(BlockFirst(t0));
    a[j + 1] := Symbol(BlockSecond(t0, t1));
    a[j + 2] := Symbol(BlockThird(t1, t2));
    a[j + 3] := Symbol(BlockFourth(t2));
    assert Quad(Group(t0, t1, t2)) == a[j..j + 4];
  }

  /** The fall-through switch over the length of the last block. */
  method PadEnd(text: string, n: nat) returns (dst: string)
    requires Padding(n) <= |text|
    ensures dst == text[..|text| - Padding(n)] + seq(Padding(n), i => '=')
  {
    dst := text;
    var j := |text|;
    if n % 3 == 1 {
      j := j - 1;
      dst := dst[j := '='];
    }
    if n % 3 == 1 || n % 3 == 2 {
      j := j - 1;
      dst := dst[j := '='];
    }
  }

  lemma EncodedNothing()
    ensures Encoded([]) == ""
  {
  }

  // ---- the bit accumulator ----

  /** The 32-bit int shifted right with its sign, for the shifts the encoder makes. */
  function ShiftRight(v: bv32, n: nat): bv32
    requires n <= 6
  {
    match n
    case 0 => v
    case 2 => (v >> 2) | (if v >= 0x80000000 then 0xC0000000 else 0)
    case 4 => (v >> 4) | (if v >= 0x80000000 then 0xF0000000 else 0)
    case 6 => (v >> 6) | (if v >= 0x80000000 then 0xFC000000 else 0)
    case _ => 0
  }

  function LowSix(v: bv32): (s: bv8)
    ensures s < 64
  {
    (v & 0x3F) as bv8
  }

  function Push(v: bv32, c: bv8): bv32 {
    (v << 8) + (c as bv32)
  }

  /** The bytes not all of whose bits are out yet, at the low end of the accumulator; everything
      above them is left over from earlier bytes or shifted out. */
  predicate Pending(v: bv32, left: seq<bv8>) {
    && |left| <= 2
    && (|left| == 1 ==> v & 0xFF == left[0] as bv32)
    && (|left| == 2 ==> v & 0xFFFF == ((left[0] as bv32) << 8) | (left[1] as bv32))
  }

  /** The symbols already out for them. */
  function Heads(left: seq<bv8>): string
    requires |left| <= 2
  {
    if left == [] then ""
    else if |left| == 1 then [Symbol(First(Group(left[0], 0, 0)))]
    else [Symbol(First(Group(left[0], left[1], 0))), Symbol(Second(Group(left[0], left[1], 0)))]
  }

  lemma PushOne(v: bv32, c: bv8)
    ensures Pending(Push(v, c), [c]) && LowSix(ShiftRight(Push(v, c), 2)) == First(Group(c, 0, 0))
  {
  }

  lemma PushTwo(v: bv32, a: bv8, c: bv8)
    requires Pending(v, [a])
    ensures Pending(Push(v, c), [a, c])
    ensures First(Group(a, c, 0)) == First(Group(a, 0, 0))
    ensures LowSix(ShiftRight(Push(v, c), 4)) == Second(Group(a, c, 0))
  {
  }

  lemma PushThree(v: bv32, a: bv8, b: bv8, c: bv8)
    requires Pending(v, [a, b])
    ensures First(Group(a, b, 0)) == First(Group(a, b, c)) && Second(Group(a, b, 0)) == Second(Group(a, b, c))
    ensures LowSix(ShiftRight(Push(v, c), 6)) == Third(Group(a, b, c))
    ensures LowSix(ShiftRight(Push(v, c), 0)) == Fourth(Group(a, b, c))
  {
  }

  lemma FlushOne(v: bv32, a: bv8)
    requires Pending(v, [a])
    ensures LowSix(ShiftRight(v << 8, 4)) == Second(Group(a, 0, 0))
  {
  }

  lemma FlushTwo(v: bv32, a: bv8, b: bv8)
    requires Pending(v, [a, b])
    ensures LowSix(ShiftRight(v << 8, 6)) == Third(Group(a, b, 0))
  {
  }

  /** The symbols that can go out while valb is not negative. */
  function Drained(val: bv32, valb: int): string
    requires valb == -6 || valb == -4 || valb == -2 || valb == 0 || valb == 2 || valb == 4 || valb == 6
    decreases valb + 6
  {
    if valb < 0 then "" else [Symbol(LowSix(ShiftRight(val, valb)))] + Drained(val, valb - 6)
  }

  /** The inner loop. */
  method Drain(val: bv32, start: int) returns (out: string, valb: int)
    requires start == 2 || start == 4 || start == 6
    ensures out == Drained(val, start)
    ensures valb == if start == 6 then -6 else start - 6
  {
    hide Symbol, LowSix, ShiftRight;
    valb := start;
    out := "";
    while valb >= 0
      invariant valb == start || (valb == start - 6 && out != "") || (valb == -6 && start == 6)
      invariant out + Drained(val, valb) == Drained(val, start)
    {
      DrainsOne(val, valb);
      out := out + [Symbol(LowSix(ShiftRight(val, valb)))];
      valb := valb - 6;
    }
  }

  lemma DrainsOne(val: bv32, valb: int)
    requires valb == 0 || valb == 2 || valb == 4 || valb == 6
    ensures Drained(val, valb) == [Symbol(LowSix(ShiftRight(val, valb)))] + Drained(val, valb - 6)
  {
  }

  /** What is still pending after one more byte. */
  function Next(left: seq<bv8>, c: bv8): seq<bv8> {
    if |left| < 2 then left + [c] else []
  }

  /** What goes out for one more byte completes the group or leaves it pending. */
  lemma TakesByte(v: bv32, left: seq<bv8>, c: bv8)
    requires |left| <= 2 && Pending(v, left)
    ensures Pending(Push(v, c), Next(left, c))
    ensures |left| < 2 ==> Heads(left) + Drained(Push(v, c), 2 * |left| + 2) == Heads(Next(left, c))
    ensures |left| == 2 ==> Heads(left) + Drained(Push(v, c), 6) == Quad(Group(left[0], left[1], c))
  {
    hide Pending, Push, Drained, Heads, Quad, Group;
    if |left| == 0 {
      assert left == [] && Next(left, c) == [c];
      TakesFirst(v, c);
    } else if |left| == 1 {
      assert left == [left[0]] && Next(left, c) == [left[0], c];
      TakesSecond(v, left[0], c);
    } else {
      assert left == [left[0], left[1]];
      TakesThird(v, left[0], left[1], c);
    }
  }

  lemma TakesFirst(v: bv32, c: bv8)
    ensures Pending(Push(v, c), [c]) && Heads([]) + Drained(Push(v, c), 2) == Heads([c])
  {
    hide Pending, Push, ShiftRight, LowSix, Group, First, Second, Symbol;
    PushOne(v, c);
    DrainsOne(Push(v, c), 2);
  }

  lemma TakesSecond(v: bv32, a: bv8, c: bv8)
    requires Pending(v, [a])
    ensures Pending(Push(v, c), [a, c]) && Heads([a]) + Drained(Push(v, c), 4) == Heads([a, c])
  {
    hide Pending, Push, ShiftRight, LowSix, Group, First, Second, Symbol;
    PushTwo(v, a, c);
    DrainsOne(Push(v, c), 4);
  }

  lemma TakesThird(v: bv32, a: bv8, b: bv8, c: bv8)
    requires Pending(v, [a, b])
    ensures Pending(Push(v, c), []) && Heads([a, b]) + Drained(Push(v, c), 6) == Quad(Group(a, b, c))
  {
    hide Pending, Push, ShiftRight, LowSix, Group, First, Second, Third, Fourth, Symbol;
    PushThree(v, a, b, c);
    DrainsOne(Push(v, c), 6);
    DrainsOne(Push(v, c), 0);
    NothingPends(Push(v, c));
  }

  lemma NothingPends(v: bv32)
    ensures Pending(v, [])
  {
  }

  /** What the flush adds to what is pending is the end of the text. */
  function Tail(val: bv32, valb: int): string
    requires valb == -6 || valb == -4 || valb == -2
  {
    if valb > -6 then [Symbol(LowSix(ShiftRight(val << 8, valb + 8)))] else ""
  }

  /** all is text with as few '=' as fill it up to a multiple of 4. */
  predicate PaddedUp(text: string, all: string) {
    text <= all && |all| % 4 == 0 && |all| - |text| < 4 && forall i: nat :: |text| <= i < |all| ==> all[i] == '='
  }

  lemma FlushEnds(v: bv32, left: seq<bv8>)
    requires |left| <= 2 && Pending(v, left)
    ensures PaddedUp(Heads(left) + Tail(v, 2 * |left| - 6), Encoded(left))
  {
    hide Pending, ShiftRight, LowSix, Group, Symbol, PaddedUp, Encoded, Tail, First, Second, Third;
    if |left| == 0 {
      EndsWhole(v);
    } else if |left| == 1 {
      assert left == [left[0]];
      EndsWithOne(v, left[0]);
    } else {
      assert left == [left[0], left[1]];
      EndsWithTwo(v, left[0], left[1]);
    }
  }

  lemma EndsWhole(v: bv32)
    ensures PaddedUp(Heads([]) + Tail(v, -6), Encoded([]))
  {
  }

  lemma EndsWithOne(v: bv32, a: bv8)
    requires Pending(v, [a])
    ensures PaddedUp(Heads([a]) + Tail(v, -4), Encoded([a]))
  {
    hide Pending, ShiftRight, LowSix, Group, First, Second, Third, Fourth, Symbol;
    FlushOne(v, a);
    assert Encoded([a]) == Heads([a]) + Tail(v, -4) + ['=', '='];
  }

  lemma EndsWithTwo(v: bv32, a: bv8, b: bv8)
    requires Pending(v, [a, b])
    ensures PaddedUp(Heads([a, b]) + Tail(v, -2), Encoded([a, b]))
  {
    hide Pending, ShiftRight, LowSix, Group, First, Second, Third, Fourth, Symbol;
    FlushTwo(v, a, b);
    assert Encoded([a, b]) == Heads([a, b]) + Tail(v, -2) + ['='];
  }

  lemma EncodesGroup(left: seq<bv8>, rest: seq<bv8>)
    requires |left| == 2 && rest != []
    ensures Encoded(left + rest) == Quad(Group(left[0], left[1], rest[0])) + Encoded(rest[1..])
  {
    hide Quad, Group;
    assert (left + rest)[3..] == rest[1..];
  }

  /** The groups that are out after one more byte. */
  function Whole(done: string, left: seq<bv8>, c: bv8): string
    requires |left| <= 2
  {
    if |left| < 2 then done else done + Quad(Group(left[0], left[1], c))
  }

  lemma KeepsWhole(done: string, left: seq<bv8>, rest: seq<bv8>, all: string)
    requires |left| <= 2 && rest != [] && |done| % 4 == 0 && done + Encoded(left + rest) == all
    ensures |Whole(done, left, rest[0])| % 4 == 0
    ensures Whole(done, left, rest[0]) + Encoded(Next(left, rest[0]) + rest[1..]) == all
  {
    hide Encoded, Quad, Group;
    if |left| == 2 {
      EncodesGroup(left, rest);
      Extends(done, Quad(Group(left[0], left[1], rest[0])), Encoded(rest[1..]), Encoded(left + rest), all);
      assert [] + rest[1..] == rest[1..];
    } else {
      assert Next(left, rest[0]) + rest[1..] == left + rest;
    }
  }

  lemma KeepsOut(out: string, done: string, v: bv32, left: seq<bv8>, c: bv8)
    requires |left| <= 2 && Pending(v, left) && out == done + Heads(left)
    ensures Pending(Push(v, c), Next(left, c))
    ensures out + Drained(Push(v, c), 2 * |left| + 2) == Whole(done, left, c) + Heads(Next(left, c))
  {
    hide Pending, Heads, Push, Drained, Quad, Group;
    TakesByte(v, left, c);
    NoHeads();
    if |left| == 2 {
      Extends(done, Heads(left), Drained(Push(v, c), 6), Quad(Group(left[0], left[1], c)), Whole(done, left, c));
    } else {
      Extends(done, Heads(left), Drained(Push(v, c), 2 * |left| + 2), Heads(Next(left, c)),
              done + Heads(Next(left, c)));
    }
  }

  /** base64_encode of the HTTP library. */
  method EncodeBits(text: seq<bv8>) returns (out: string)
    ensures out == Encoded(text)
  {
    hide Encoded, Pending, Heads, Push, ShiftRight, LowSix, Group, Quad, Symbol, Drained, Whole;
    out := "";
    var val: bv32 := 0;
    var valb := -6;
    ghost var left: seq<bv8> := [];
    ghost var done := "";
    NothingPends(0);
    NoHeads();
    assert left + text[0..] == text;
    for i := 0 to |text|
      invariant |left| <= 2 && valb == 2 * |left| - 6 && Pending(val, left)
      invariant |done| % 4 == 0 && out == done + Heads(left)
      invariant done + Encoded(left + text[i..]) == Encoded(text)
    {
      KeepsOut(out, done, val, left, text[i]);
      KeepsWhole(done, left, text[i..], Encoded(text));
      assert text[i..][1..] == text[i + 1..];
      val := Push(val, text[i]);
      var more;
      more, valb := Drain(val, valb + 8);
      out := out + more;
      done := Whole(done, left, text[i]);
      left := Next(left, text[i]);
    }
    assert left + text[|text|..] == left;
    out := Flush(out, val, valb, done, left);
  }

  method Flush(start: string, val: bv32, valb: int, ghost done: string, ghost left: seq<bv8>) returns (out: string)
    requires |left| <= 2 && valb == 2 * |left| - 6 && Pending(val, left)
    requires |done| % 4 == 0 && start == done + Heads(left)
    ensures out == done + Encoded(left)
  {
    hide Encoded, Pending, Heads, ShiftRight, LowSix, Symbol, PaddedUp;
    out := start;
    FlushEnds(val, left);
    if valb > -6 {
      out := out + [Symbol(LowSix(ShiftRight(val << 8, valb + 8)))];
    }
    ghost var end := Heads(left) + Tail(val, valb);
    assert out == done + end;
    PadsBehind(done, end, Encoded(left));
    out := FillUp(out, done + Encoded(left));
  }

  lemma PadsBehind(done: string, text: string, all: string)
    requires |done| % 4 == 0 && PaddedUp(text, all)
    ensures PaddedUp(done + text, done + all)
  {
  }

  method FillUp(start: string, ghost all: string) returns (out: string)
    requires PaddedUp(start, all)
    ensures out == all
  {
    out := start;
    while |out| % 4 != 0
      invariant PaddedUp(out, all)
      decreases |all| - |out|
    {
      out := out + "=";
    }
  }

  lemma NoHeads()
    ensures Heads([]) == ""
  {
  }

  /** Both encoders give the same string for every input. */
  method EncodersAgree(data: seq<bv8>) returns (blocks: string, bits: string)
    ensures blocks == bits
  {
    blocks := EncodeBlocks(data);
    bits := EncodeBits(data);
  }

  // ---- decoding ----

  /** The index of a symbol as the byte the decoder keeps of it. */
  function Value(symbol: char): bv8 {
    Index(symbol) as bv8
  }

  /** The three bytes of four indices, each cut to 8 bits. */
  function OutFirst(t0: bv8, t1: bv8): bv8 {
    (t0 << 2) | (t1 >> 4)
  }

  function OutSecond(t1: bv8, t2: bv8): bv8 {
    (t1 << 4) | (t2 >> 2)
  }

  function OutThird(t2: bv8, t3: bv8): bv8 {
    (t2 << 6) | t3
  }

  function Triple(q: string): (t: seq<bv8>)
    requires |q| == 4
    ensures |t| == 3
  {
    var t0, t1, t2, t3 := Value(q[0]), Value(q[1]), Value(q[2]), Value(q[3]);
    [OutFirst(t0, t1), OutSecond(t1, t2), OutThird(t2, t3)]
  }

  /** All blocks, the last one with its padding taken as zero bits. */
  function Triples(text: string): (data: seq<bv8>)
    decreases |text|
  {
    if |text| < 4 then [] else Triple(text[..4]) + Triples(text[4..])
  }

  /** The texts base64_decode takes. */
  predicate Accepted(text: string) {
    && |text| % 4 == 0
    && (text != [] ==>
        && '=' !in text[..|text| - 2]
        && Index(text[|text| - 1]) < 64 && Index(text[|text| - 2]) < 64
        && (text[|text| - 2] == '=' ==> text[|text| - 1] == '='))
  }

  function PadLength(text: string): nat
    requires Accepted(text)
  {
    if text == [] || text[|text| - 1] != '=' then 0 else if text[|text| - 2] != '=' then 1 else 2
  }

  lemma {:induction false} TriplesLength(text: string)
    requires |text| % 4 == 0
    ensures |Triples(text)| == |text| / 4 * 3
    decreases |text|
  {
    hide Triple;
    if |text| >= 4 {
      TriplesLength(text[4..]);
      assert |text| / 4 == |text[4..]| / 4 + 1;
    }
  }

  function Decoded(text: string): seq<bv8>
    requires Accepted(text)
  {
    TriplesLength(text);
    Triples(text)[..|text| / 4 * 3 - PadLength(text)]
  }

  /** base64_decode; the target is left empty when the text is refused. */
  method Decode(src: string) returns (ok: bool, dst: seq<bv8>)
    ensures ok <==> Accepted(src)
    ensures dst == if ok then Decoded(src) else []
  {
    hide Triple, Triples;
    if |src| % 4 != 0 {
      return false, [];
    }
    if |src| == 0 {
      TriplesLength(src);
      return true, [];
    }
    if '=' in src[..|src| - 2] {
      return false, [];
    }
    if Index(src[|src| - 1]) > 63 || Index(src[|src| - 2]) > 63 {
      return false, [];
    }
    var padLen := 0;
    if src[|src| - 1] == '=' {
      if src[|src| - 2] == '=' {
        padLen := 2;
      } else {
        padLen := 1;
      }
    } else if src[|src| - 2] == '=' {
      return false, [];
    }
    TriplesLength(src);
    dst := JoinTriples(src);
    return true, dst[..|dst| - padLen];
  }

  method JoinTriples(src: string) returns (dst: seq<bv8>)
    requires |src| % 4 == 0
    ensures dst == Triples(src)
  {
    hide Triples, Triple;
    var a := new bv8[(|src| + 3) / 4 * 3];
    var i, j := 0, 0;
    assert src[0..] == src;
    while i < |src|
      invariant 0 <= i <= |src| && i % 4 == 0 && j == i / 4 * 3
      invariant a[..j] + Triples(src[i..]) == Triples(src)
    {
      NextTriple(src, i);
      ghost var before := a[..j];
      PutTriple(a, j, src[i..i + 4]);
      assert a[..j + 3] == before + Triple(src[i..i + 4]);
      i := i + 4;
      j := j + 3;
    }
    NoTriples();
    assert src[i..] == [] && a[..] == a[..j];
    dst := a[..];
  }

  /** One pass of the loop: three bytes for four symbols. */
  method PutTriple(a: array<bv8>, j: nat, q: string)
    requires j + 3 <= a.Length && |q| == 4
    modifies a
    ensures a[..] == old(a[..j]) + Triple(q) + old(a[j + 3..])
  {
    hide Value, OutFirst, OutSecond, OutThird;
    var t0, t1, t2, t3 := Value(q[0]), Value(q[1]), Value(q[2]), Value(q[3]);
    a[j] := OutFirst(t0, t1);
    a[j + 1] := OutSecond(t1, t2);
    a[j + 2] := OutThird(t2, t3);
    assert Triple(q) == a[j..j + 3];
  }

  lemma NextTriple(src: string, i: nat)
    requires i + 4 <= |src|
    ensures Triples(src[i..]) == Triple(src[i..i + 4]) + Triples(src[i + 4..])
  {
    hide Triple;
    assert src[i..][..4] == src[i..i + 4] && src[i..][4..] == src[i + 4..];
  }

  lemma NoTriples()
    ensures Triples([]) == []
  {
  }

  // ---- decoding what was encoded ----

  lemma ValueOfSymbol(v: bv8)
    requires v < 64
    ensures Value(Symbol(v)) == v && Symbol(v) != '=' && Index(Symbol(v)) < 64
  {
    FitsTable(v);
    hide Index, ALPHABET;
    TableIsIndexed(v as int);
    assert (v as int) as bv8 == v;
  }

  lemma OutFirstIs(a: bv8, b: bv8, c: bv8)
    ensures OutFirst(First(Group(a, b, c)), Second(Group(a, b, c))) == a
  {
  }

  lemma OutSecondIs(a: bv8, b: bv8, c: bv8)
    ensures OutSecond(Second(Group(a, b, c)), Third(Group(a, b, c))) == b
  {
  }

  lemma OutThirdIs(a: bv8, b: bv8, c: bv8)
    ensures OutThird(Third(Group(a, b, c)), Fourth(Group(a, b, c))) == c
  {
  }

  lemma TripleOfQuad(a: bv8, b: bv8, c: bv8)
    ensures Triple(Quad(Group(a, b, c))) == [a, b, c]
    ensures forall i: nat :: i < 4 ==> Quad(Group(a, b, c))[i] != '=' && Index(Quad(Group(a, b, c))[i]) < 64
  {
    hide Group, First, Second, Third, Fourth, OutFirst, OutSecond, OutThird, Value, Symbol, Index;
    OutFirstIs(a, b, c);
    OutSecondIs(a, b, c);
    OutThirdIs(a, b, c);
    ValueOfSymbol(First(Group(a, b, c)));
    ValueOfSymbol(Second(Group(a, b, c)));
    ValueOfSymbol(Third(Group(a, b, c)));
    ValueOfSymbol(Fourth(Group(a, b, c)));
  }

  /** Padding decodes as the zero bits it stands for. */
  lemma TripleOfTail(data: seq<bv8>)
    requires |data| == 1 || |data| == 2
    ensures Triple(Encoded(data))[..|data|] == data
  {
    hide Group, First, Second, Third, Fourth, OutFirst, OutSecond, OutThird, Symbol, Index;
    TripleOfQuad(data[0], ByteOr0(data, 1), 0);
    PaddingIsZero();
    ZeroSextets(data[0], ByteOr0(data, 1));
    ValueOfSymbol(0);
  }

  lemma ZeroSextets(a: bv8, b: bv8)
    ensures Fourth(Group(a, b, 0)) == 0 && (b == 0 ==> Third(Group(a, b, 0)) == 0)
  {
  }

  lemma PaddingIsZero()
    ensures Value('=') == 0 && Index('=') == 0
  {
  }

  /** A whole block in front changes neither whether a text is taken nor its padding. */
  lemma AcceptsBlock(q: string, rest: string)
    requires |q| == 4 && Accepted(rest)
    requires forall i: nat :: i < 4 ==> q[i] != '=' && Index(q[i]) < 64
    ensures Accepted(q + rest) && PadLength(q + rest) == PadLength(rest)
  {
    hide Index;
    if rest == [] {
      assert q + rest == q;
    } else {
      assert (q + rest)[..|q + rest| - 2] == q + rest[..|rest| - 2];
    }
  }

  lemma {:induction false} EncodedIsAccepted(data: seq<bv8>)
    ensures Accepted(Encoded(data)) && PadLength(Encoded(data)) == Padding(|data|)
    decreases |data|
  {
    hide Index, Quad, Group, Symbol;
    if |data| > 2 {
      SplitsGroup(data);
      EncodedIsAccepted(data[3..]);
      PaddingGoesOn(|data|);
      TripleOfQuad(data[0], data[1], data[2]);
      AcceptsBlock(Quad(Group(data[0], data[1], data[2])), Encoded(data[3..]));
    } else if data != [] {
      TailIsAccepted(data);
    }
  }

  lemma TailIsAccepted(data: seq<bv8>)
    requires |data| == 1 || |data| == 2
    ensures Accepted(Encoded(data)) && PadLength(Encoded(data)) == Padding(|data|)
  {
    hide Index, Quad, Group;
    TripleOfQuad(data[0], ByteOr0(data, 1), 0);
    PaddingIsZero();
  }

  lemma {:induction false} TriplesOfEncoded(data: seq<bv8>)
    ensures data <= Triples(Encoded(data))
    decreases |data|
  {
    hide Index, Quad, Group, Triple;
    if |data| > 2 {
      SplitsGroup(data);
      TriplesOfEncoded(data[3..]);
      TripleOfQuad(data[0], data[1], data[2]);
      var q := Quad(Group(data[0], data[1], data[2]));
      assert Encoded(data)[..4] == q && Encoded(data)[4..] == Encoded(data[3..]);
      assert data == data[..3] + data[3..] && data[..3] == [data[0], data[1], data[2]];
    } else if data != [] {
      TripleOfTail(data);
      TailIsAccepted(data);
      EncodedLength(data);
      assert Encoded(data)[..4] == Encoded(data);
    }
  }

  /** Decoding what either encoder wrote gives back the input, for every input. */
  lemma DecodesEncoded(data: seq<bv8>)
    ensures Accepted(Encoded(data)) && Decoded(Encoded(data)) == data
  {
    hide Accepted, PadLength, Triples, Encoded;
    EncodedIsAccepted(data);
    TriplesOfEncoded(data);
    EncodedLength(data);
    TriplesLength(Encoded(data));
    assert (|data| + 2) / 3 * 3 - Padding(|data|) == |data|;
  }

  // ---- encoding what was decoded ----

  /** No symbol outside the alphabet before the padding, and no bit set that is not encoded. */
  predicate Canonical(text: string)
    requires Accepted(text)
  {
    && (forall k: nat :: k < |text| - PadLength(text) ==> Index(text[k]) < 64)
    && (PadLength(text) == 1 ==> Value(text[|text| - 2]) & 0x03 == 0)
    && (PadLength(text) == 2 ==> Value(text[|text| - 3]) & 0x0F == 0)
  }

  lemma ByteKeeps(i: nat)
    requires i < 64
    ensures (i as bv8) as int == i
  {
  }

  lemma ByteFits(v: bv8)
    requires v as int < 64
    ensures v < 64
  {
  }

  lemma SymbolOfValue(c: char)
    requires Index(c) < 64 && c != '='
    ensures Value(c) < 64 && Symbol(Value(c)) == c
  {
    IndexIsTabled(c);
    hide Index, ALPHABET;
    ByteKeeps(Index(c));
    ByteFits(Value(c));
  }

  lemma FirstOf(t0: bv8, t1: bv8, b: bv8, c: bv8)
    requires t0 < 64 && t1 < 64
    ensures First(Group(OutFirst(t0, t1), b, c)) == t0
  {
  }

  lemma SecondOf(t0: bv8, t1: bv8, t2: bv8, c: bv8)
    requires t1 < 64 && t2 < 64
    ensures Second(Group(OutFirst(t0, t1), OutSecond(t1, t2), c)) == t1
  {
  }

  lemma ThirdOf(a: bv8, t1: bv8, t2: bv8, t3: bv8)
    requires t2 < 64 && t3 < 64
    ensures Third(Group(a, OutSecond(t1, t2), OutThird(t2, t3))) == t2
  {
  }

  lemma FourthOf(a: bv8, b: bv8, t2: bv8, t3: bv8)
    requires t3 < 64
    ensures Fourth(Group(a, b, OutThird(t2, t3))) == t3
  {
  }

  lemma SecondAlone(t0: bv8, t1: bv8)
    requires t1 < 64
    ensures Second(Group(OutFirst(t0, t1), 0, 0)) == t1 <==> t1 & 0x0F == 0
  {
  }

  lemma ThirdAlone(a: bv8, t1: bv8, t2: bv8)
    requires t2 < 64
    ensures Third(Group(a, OutSecond(t1, t2), 0)) == t2 <==> t2 & 0x03 == 0
  {
  }

  lemma SameSymbol(v: bv8, c: char)
    requires v < 64
    ensures Symbol(v) == c ==> Index(c) < 64 && c != '='
    ensures Index(c) < 64 && c != '=' ==> (Symbol(v) == c <==> v == Value(c))
  {
    hide Symbol, Value, Index;
    ValueOfSymbol(v);
    if Index(c) < 64 && c != '=' {
      SymbolOfValue(c);
    }
  }

  lemma QuadOfTriple(q: string)
    requires |q| == 4 && '=' !in q
    ensures var t := Triple(q);
      Quad(Group(t[0], t[1], t[2])) == q <==> forall k: nat :: k < 4 ==> Index(q[k]) < 64
  {
    hide Group, First, Second, Third, Fourth, OutFirst, OutSecond, OutThird, Symbol, Index, Value;
    var t := Triple(q);
    var g := Group(t[0], t[1], t[2]);
    SameSymbol(First(g), q[0]);
    SameSymbol(Second(g), q[1]);
    SameSymbol(Third(g), q[2]);
    SameSymbol(Fourth(g), q[3]);
    if forall k: nat :: k < 4 ==> Index(q[k]) < 64 {
      SymbolOfValue(q[0]);
      SymbolOfValue(q[1]);
      SymbolOfValue(q[2]);
      SymbolOfValue(q[3]);
      FirstOf(Value(q[0]), Value(q[1]), t[1], t[2]);
      SecondOf(Value(q[0]), Value(q[1]), Value(q[2]), t[2]);
      ThirdOf(t[0], Value(q[1]), Value(q[2]), Value(q[3]));
      FourthOf(t[0], t[1], Value(q[2]), Value(q[3]));
    }
  }

  lemma QuadOfPadded(q: string)
    requires |q| == 4 && Accepted(q) && PadLength(q) > 0
    ensures Encoded(Decoded(q)) == q <==> Canonical(q)
  {
    hide Group, First, Second, Third, Fourth, OutFirst, OutSecond, OutThird, Symbol, Index, Value;
    PaddingIsZero();
    LastTriple(q);
    assert q[0] == q[..2][0] && q[1] == q[..2][1];
    var t := Triple(q);
    if PadLength(q) == 1 {
      PaddedOnce(q, Group(t[0], t[1], 0));
    } else {
      PaddedTwice(q, Group(t[0], 0, 0));
    }
  }

  lemma LastTriple(q: string)
    requires |q| == 4 && Accepted(q)
    ensures Triples(q) == Triple(q) && Decoded(q) == Triple(q)[..3 - PadLength(q)]
  {
    hide Triple, Accepted, PadLength;
    assert q[..4] == q && Triples(q[4..]) == [];
    TriplesLength(q);
  }

  lemma PaddedOnce(q: string, g: bv24)
    requires |q| == 4 && Accepted(q) && PadLength(q) == 1 && q[0] != '=' && q[1] != '='
    requires g == Group(Triple(q)[0], Triple(q)[1], 0)
    ensures Quad(g)[..3] + "=" == q <==> Canonical(q)
  {
    hide Group, First, Second, Third, Fourth, OutFirst, OutSecond, OutThird, Symbol, Index, Value;
    var t := Triple(q);
    SameSymbol(First(g), q[0]);
    SameSymbol(Second(g), q[1]);
    SameSymbol(Third(g), q[2]);
    SymbolOfValue(q[2]);
    ThirdAlone(t[0], Value(q[1]), Value(q[2]));
    if Index(q[0]) < 64 && Index(q[1]) < 64 {
      SymbolOfValue(q[0]);
      SymbolOfValue(q[1]);
      FirstOf(Value(q[0]), Value(q[1]), t[1], 0);
      SecondOf(Value(q[0]), Value(q[1]), Value(q[2]), 0);
    }
    assert Quad(g)[..3] + "=" == [Symbol(First(g)), Symbol(Second(g)), Symbol(Third(g)), '='];
    assert q == [q[0], q[1], q[2], '='];
  }

  lemma PaddedTwice(q: string, g: bv24)
    requires |q| == 4 && Accepted(q) && PadLength(q) == 2 && q[0] != '=' && q[1] != '='
    requires g == Group(Triple(q)[0], 0, 0)
    ensures Quad(g)[..2] + "==" == q <==> Canonical(q)
  {
    hide Group, First, Second, Third, Fourth, OutFirst, OutSecond, OutThird, Symbol, Index, Value;
    SameSymbol(First(g), q[0]);
    SameSymbol(Second(g), q[1]);
    if Index(q[0]) < 64 && Index(q[1]) < 64 {
      SymbolOfValue(q[0]);
      SymbolOfValue(q[1]);
      FirstOf(Value(q[0]), Value(q[1]), 0, 0);
      SecondAlone(Value(q[0]), Value(q[1]));
    }
    assert Quad(g)[..2] + "==" == [Symbol(First(g)), Symbol(Second(g)), '=', '='];
    assert q == [q[0], q[1], '=', '='];
  }

  /** Exactly the canonical texts among those the decoder takes are encoded back to themselves. */
  lemma {:induction false} EncodesDecoded(text: string)
    requires Accepted(text)
    ensures Encoded(Decoded(text)) == text <==> Canonical(text)
    decreases |text|
  {
    hide Group, Quad, Triple, Index, Value;
    if text == [] {
      assert Decoded(text) == [];
    } else if |text| == 4 {
      if PadLength(text) > 0 {
        QuadOfPadded(text);
      } else {
        UnpaddedQuad(text);
      }
    } else {
      var q, rest := text[..4], text[4..];
      RestIsAccepted(text);
      EncodesDecoded(rest);
      QuadOfTriple(q);
      DecodedSplits(text);
      var t := Triple(q);
      SplitsGroup(t + Decoded(rest));
      assert (t + Decoded(rest))[3..] == Decoded(rest);
      assert text == q + rest;
      CanonicalSplits(text);
    }
  }

  lemma UnpaddedQuad(q: string)
    requires |q| == 4 && Accepted(q) && PadLength(q) == 0
    ensures Encoded(Decoded(q)) == q <==> Canonical(q)
  {
    hide Group, Quad, Triple, Index, Value;
    LastTriple(q);
    assert q[0] == q[..2][0] && q[1] == q[..2][1];
    QuadOfTriple(q);
    SplitsGroup(Triple(q));
    assert Encoded(Triple(q)[3..]) == "";
  }

  lemma RestIsAccepted(text: string)
    requires Accepted(text) && |text| > 4
    ensures Accepted(text[4..]) && PadLength(text[4..]) == PadLength(text) && '=' !in text[..4]
  {
    hide Index;
    var rest := text[4..];
    assert text[..|text| - 2] == text[..4] + rest[..|rest| - 2];
  }

  lemma DecodedSplits(text: string)
    requires Accepted(text) && |text| > 4 && Accepted(text[4..]) && PadLength(text[4..]) == PadLength(text)
    ensures Decoded(text) == Triple(text[..4]) + Decoded(text[4..])
  {
    hide PadLength, Triple, Index;
    TriplesLength(text);
    TriplesLength(text[4..]);
    PadAtMostTwo(text);
    assert |text| / 4 == |text[4..]| / 4 + 1;
  }

  lemma PadAtMostTwo(text: string)
    requires Accepted(text)
    ensures PadLength(text) <= 2
  {
  }

  lemma CanonicalSplits(text: string)
    requires Accepted(text) && |text| > 4 && Accepted(text[4..]) && PadLength(text[4..]) == PadLength(text)
    ensures Canonical(text) <==> (forall k: nat :: k < 4 ==> Index(text[..4][k]) < 64) && Canonical(text[4..])
  {
    hide Index, Value, PadLength;
    PadAtMostTwo(text);
    var q, rest := text[..4], text[4..];
    if (forall k: nat :: k < 4 ==> Index(q[k]) < 64) && Canonical(rest) {
      forall k: nat | k < |text| - PadLength(text)
        ensures Index(text[k]) < 64
      {
        if k < 4 {
          assert q[k] == text[k];
        } else {
          assert rest[k - 4] == text[k];
        }
      }
    }
    assert rest[|rest| - 2] == text[|text| - 2] && rest[|rest| - 3] == text[|text| - 3];
    if Canonical(text) {
      assert forall k: nat :: k < |rest| - PadLength(rest) ==> rest[k] == text[k + 4];
    }
  }
}
