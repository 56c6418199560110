/** The steps between the range coder's loops and the model they keep: what a loop may assume of
    the table, and what each READ of the decompressor means. */
module CoderSteps {
  import opened Words
  import opened RangeInterval
  import opened CodeStream
  import opened FrequencyTree
  import opened PpmModel
  import opened PpmCodec
  import opened SymbolMemory
  import opened TableUpdates
  import opened TrainingOrder

  /** The verdict of a search that went through every context. */
  ghost predicate FindsAs(verdict: Verdict, value: byte, level: nat, low: int, range: int, upTo: nat, step: Step) {
    match step
    case Found(v, l, low', range', at') =>
      verdict == Decoded && value == v && level == l && low == low' && range == range' && upTo == at'
    case End => verdict == Escaped
    case Reject => verdict == NotFound
    case Beyond => verdict == BeyondInterval
  }

  lemma DecodeUnfoldsAt(cs: Contexts, g: Path, low: int, range: int, s: seq<byte>, from: nat)
    requires ValidContexts(cs) && Ready(low, range)
    ensures g.Root? ==> Escapes(ContextOf(cs, g))
    ensures g.Sym? && !Escapes(ContextOf(cs, g)) ==>
              DecodeSymbol(cs, g, low, range, s, from) == DecodeSymbol(cs, Parent(g), low, range, s, from)
    ensures Escapes(ContextOf(cs, g)) ==>
              forall verdict, value, low', range', upTo ::
                DecodesAs(verdict, value, low', range', upTo, cs, g, low, range, s, from) ==>
                if verdict.Escaped? && g.Sym? then
                  Ready(low', range') && DecodeSymbol(cs, g, low, range, s, from)
                  == DecodeSymbol(cs, Parent(g), low', range', s, upTo)
                else FindsAs(verdict, value, Depth(g), low', range', upTo, DecodeSymbol(cs, g, low, range, s, from))
  {
    hide EncodeSlot, Ready, ValidContext, Slot.Valid, Window, ReadCode, Interpret;
    assert ValidAt(cs, g);
    EscapeIsValid(ContextOf(cs, g), MinimumOf(g));
  }

  lemma OnePlace(mem: Memory, at: Places, cs: Contexts, next: nat, f: Path, g: Path)
    requires Represents(mem, at, cs, next) && f in at && g in at
    ensures at[f] == at[g] ==> f == g
    ensures at[f] < |mem|
  {
  }

  lemma ParentsRelaxed(mem: Memory, at: Places, pending: set<Path>, more: set<Path>)
    requires ParentsSet(mem, at, pending) && pending <= more
    ensures ParentsSet(mem, at, more)
  {
  }

  lemma AncestorOnly(f: Path, g: Path)
    requires Depth(g) <= Depth(f) && g == Ancestor(f, Depth(g)) && f != g
    ensures Depth(g) < Depth(f)
  {
  }

  lemma PatchFacts(cs0: Contexts, h: Path, stop: nat, v: byte, next0: nat, cs: Contexts, f: Path, next: nat)
    requires Patched(cs0, h, stop, v, next0, cs, f, next) && next0 < MAXIMUM_SYMBOLS - SUBCONTEXT_ORDER
    requires Depth(h) <= SUBCONTEXT_ORDER
    ensures ValidContext(ContextOf(cs, f), MinimumOf(f)) && stop <= Depth(f) && Ancestor(f, stop) == Ancestor(h, stop)
    ensures Depth(f) > stop ==> next < MAXIMUM_SYMBOLS
  {
    hide ValidContext, Train, Patch, Fresh;
    assert ValidAt(cs, f);
  }

  datatype Verdict = Escaped | Decoded | NotFound | BeyondInterval

  ghost predicate DecodesAs(verdict: Verdict, value: byte, low: int, range: int, upTo: nat, cs: Contexts, g: Path,
                            low0: int, range0: int, s: seq<byte>, from: nat)
    requires ValidContexts(cs) && Ready(low0, range0) && Escapes(ContextOf(cs, g))
  {
    hide ValidContext, Slot.Valid;
    assert ValidAt(cs, g);
    var c := ContextOf(cs, g);
    EscapeIsValid(c, MinimumOf(g));
    match Interpret(c, MinimumOf(g), ReadCode(low0, range0, c, Window(s, from)))
    case EscapeRead =>
      var n := EncodeSlot(low0, range0, EscapeSlot(c));
      verdict == Escaped && low == n.low && range == n.range && upTo == from + |n.emitted|
    case NoSymbol => verdict == NotFound
    case TooLarge => verdict == BeyondInterval
    case SymbolRead(v, slot) =>
      var n := EncodeSlot(low0, range0, slot);
      verdict == Decoded && value == v && low == n.low && range == n.range && upTo == from + |n.emitted|
  }

  lemma ReadUnfolds(cs: Contexts, g: Path, low: int, range: int, code: int)
    requires ValidContexts(cs) && Ready(low, range) && Escapes(ContextOf(cs, g))
    ensures var c := ContextOf(cs, g);
            && ValidContext(c, MinimumOf(g)) && EscapeSlot(c).Valid() && 0 < c.total && 1 <= range / c.total
            && ReadCode(low, range, c, code) == (code - low) % WORD / (range / c.total) % 0x1_0000
            && c.escapes <= c.total <= BOTTOM - 0x100
            && (MinimumOf(g) == 1 ==> c.total == c.escapes + Sum(c.tree) + 256)
  {
    hide WellFormed;
    assert ValidAt(cs, g);
    EscapeIsValid(ContextOf(cs, g), MinimumOf(g));
    UnitIsPositive(range, ContextOf(cs, g));
  }

  lemma InterpretUnfolds(c: Context, m: minimum, code: nat)
    requires ValidContext(c, m) && 0 < c.total
    ensures var r := Interpret(c, m, code);
            if code < c.escapes then r == EscapeRead
            else if m == 1 && c.total <= code then r == TooLarge
            else
              var hit := Find(c.tree, code - c.escapes, 0, m);
              if hit.NoHit? then r == NoSymbol
              else
                && 0 <= hit.value < 256 && (m == 0 ==> Has(c.tree, hit.value)) && c.escapes + hit.under <= 0xFFFF
                && Slot(c.escapes + hit.under, hit.count, c.total).Valid()
                && r == SymbolRead(hit.value, Slot(c.escapes + hit.under, hit.count, c.total))
  {
    hide WellFormed, Sum, Find;
    if c.escapes <= code && (m == 1 ==> code < c.total) {
      FoundInContext(c, m, code);
    }
  }

  function Concatenated(buffers: seq<seq<byte>>): seq<byte> {
    if buffers == [] then [] else buffers[0] + Concatenated(buffers[1..])
  }

  lemma FreshRepresents(mem: Memory, at: Places, cs: Contexts)
    requires |mem| > 0 && cs == map[] && at == map[Root := 0]
    requires mem[0] == NewSymbol(0, 0).(escapes := ESCAPE_MINIMUM, total := ESCAPE_MINIMUM + 256 * SYMBOL_MINIMUM)
    ensures Represents(mem, at, cs, 1) && ParentsSet(mem, at, {})
  {
    assert ContextAt(mem, at, cs, Root) && ChildrenAt(at, cs, Root);
  }

  lemma EncodeUnfolds(p: Model, low: int, range: int, input: seq<byte>)
    requires ValidModel(p) && Ready(low, range)
    ensures 0 <= low < WORD
    ensures input == [] ==> Encode(p, low, range, input) == Flush(low)
    ensures input != [] ==>
              var n := EncodeSymbol(p.contexts, p.history, low, range, input[0]);
              && ValidModel(LearnSymbol(p, input[0])) && Ready(n.low, n.range)
              && Encode(p, low, range, input)
                 == n.emitted + Encode(LearnSymbol(p, input[0]), n.low, n.range, input[1..])
  {
    if input != [] {
      LearnKeepsValid(p, HitLevel(p.contexts, p.history, input[0]), input[0]);
    }
  }

  lemma EntryRepresents(mem: Memory, mem': Memory, at: Places, cs: Contexts, p: Path, v: byte, update: byte, next: nat)
    requires Entered(mem, mem', at, cs, p, v, update, next)
    ensures Represents(mem', PlacesAfter(at, cs, p, v, next), TreeBumped(cs, p, v, update), NextAfter(cs, p, v, next))
  {
  }

  lemma SeparateInTable(mem: Memory, at: Places, cs: Contexts, next: nat)
    requires Represents(mem, at, cs, next)
    ensures Separate(at, |mem|)
  {
  }

  lemma RootIsFirst(mem: Memory, at: Places, cs: Contexts, next: nat, g: Path)
    requires Represents(mem, at, cs, next) && g in at
    ensures at[g] == 0 <==> g.Root?
  {
  }

  lemma ParentIndex(mem: Memory, at: Places, pending: set<Path>, g: Path)
    requires ParentsSet(mem, at, pending) && g in at && g !in pending
    ensures Parent(g) in at && at[g] < |mem| && mem[at[g]].parent == at[Parent(g)]
  {
  }

  function Prefixed(done: seq<byte>, o: Outcome): Outcome {
    match o
    case Done(output) => Done(done + output)
    case Failed => Failed
    case Outside => Outside
  }

  lemma PrefixedDone(done: seq<byte>, o: Outcome)
    ensures o == Failed || o == Outside ==> Prefixed(done, o) == o
    ensures done == [] ==> Prefixed(done, o) == o
  {
    if o.Done? && done == [] {
      assert done + o.output == o.output;
    }
  }

  lemma DecompressedStarts(s: seq<byte>, limit: nat, p: Model, low: int, range: int, from: nat, done: seq<byte>)
    requires p == FRESH && low == 0 && range == WORD - 1 && from == 0 && done == []
    ensures ValidModel(p) && Ready(low, range)
    ensures Decompressed(s, limit) == Prefixed(done, Decode(p, low, range, s, from, limit))
  {
    hide Decode, Prefixed;
    FreshIsValid();
    PrefixedDone(done, Decompressed(s, limit));
  }

  /** One turn of the decompressor's loop, with `done` already written. */
  lemma TurnUnfolds(p: Model, low: int, range: int, s: seq<byte>, from: nat, limit: nat, done: seq<byte>)
    requires ValidModel(p) && Ready(low, range)
    ensures match DecodeSymbol(p.contexts, p.history, low, range, s, from)
            case End => Prefixed(done, Decode(p, low, range, s, from, limit)) == Done(done)
            case Reject => Prefixed(done, Decode(p, low, range, s, from, limit)) == Failed
            case Beyond => Prefixed(done, Decode(p, low, range, s, from, limit)) == Outside
            case Found(value, level, low', range', upTo) =>
              if limit == 0 then Prefixed(done, Decode(p, low, range, s, from, limit)) == Failed
              else
                && level <= Depth(p.history) && ValidModel(Learn(p, level, value)) && Ready(low', range')
                && Prefixed(done, Decode(p, low, range, s, from, limit))
                   == Prefixed(done + [value], Decode(Learn(p, level, value), low', range', s, upTo, limit - 1))
  {
    hide DecodeSymbol, Learn, Ready, Window;
    DecodeSymbolContinues(p.contexts, p.history, low, range, s, from);
    match DecodeSymbol(p.contexts, p.history, low, range, s, from)
    case Found(value, level, low', range', upTo) =>
      LearnKeepsValid(p, level, value);
      if limit > 0 {
        match Decode(Learn(p, level, value), low', range', s, upTo, limit - 1)
        case Done(output) => assert done + ([value] + output) == done + [value] + output;
        case _ =>
      }
    case _ =>
  }
}
