/** The range coder object of src/enet/compress.c: its symbol table, updated in place. */
module RangeCoder {
  import opened Words
  import opened RangeInterval
  import opened CodeStream
  import opened FrequencyTree
  import opened PpmModel
  import opened PpmCodec
  import opened SymbolMemory
  import opened TableUpdates
  import opened SymbolSearch
  import opened RescaleSteps
  import opened RangeLoops
  import opened TrainingOrder
  import opened Climbing
  import opened CoderSteps

  class RangeCoder {
    const symbols: array<Symbol>
    /** The model the table holds, and where in the table it holds it. */
    ghost var contexts: Contexts
    ghost var at: Places

    ghost predicate Holds(next: nat)
      reads this, symbols
    {
      symbols.Length == MAXIMUM_SYMBOLS && Represents(symbols[..], at, contexts, next)
    }

    constructor ()
      ensures symbols.Length == MAXIMUM_SYMBOLS && fresh(symbols)
    {
      symbols := new Symbol[MAXIMUM_SYMBOLS](_ => NewSymbol(0, 0));
    }

    method CreateSymbol(next: nat, value: byte, count: byte)
      requires next < symbols.Length
      modifies symbols
      ensures symbols[..] == old(symbols[..])[next := NewSymbol(value, count)]
    {
      symbols[next] := NewSymbol(value, count);
    }

    /** CONTEXT_ENCODE: find or create the symbol for value in context p, and count it. */
    method ContextEncode(context: nat, ghost p: Path, value: byte, update: byte, min: minimum, nextSymbol: nat)
      returns (symbol: nat, under: u16, count: u16, next: nat)
      requires Holds(nextSymbol) && nextSymbol < MAXIMUM_SYMBOLS
      requires p in at && at[p] == context
      requires min == MinimumOf(p) && update == Delta(min) && ValidContext(ContextOf(contexts, p), min)
      modifies symbols, `contexts, `at
      ensures Entered(old(symbols[..]), symbols[..], old(at), old(contexts), p, value, update, nextSymbol)
      ensures at == PlacesAfter(old(at), old(contexts), p, value, nextSymbol)
      ensures contexts == TreeBumped(old(contexts), p, value, update)
      ensures next == NextAfter(old(contexts), p, value, nextSymbol)
      ensures Sym(p, value) in at && at[Sym(p, value)] == symbol
      ensures under == Times(value, min) + WalkUnder(ContextOf(old(contexts), p).tree, value)
      ensures count == min + WalkCount(ContextOf(old(contexts), p).tree, value)
    {
      hide Entered, Walkable, InsertAt, Represents, ValidContext, TreeBumped, Sum, Has, WalkUnder, WalkCount, Roomy;
      ghost var mem := symbols[..];
      ghost var tree := ContextOf(contexts, p).tree;
      RoomFor(ContextOf(contexts, p), min, value);
      ContextIsWalkable(mem, at, contexts, nextSymbol, p, value, update);
      under, count, next := value * min, min, nextSymbol;
      if symbols[context].symbols == 0 {
        BeginEnters(mem, at, contexts, nextSymbol, p, value, update);
        CreateSymbol(next, value, update);
        symbol, next := next, next + 1;
        symbols[context] := symbols[context].(symbols := symbol - context);
        assert symbols[..] == Begin(mem, context, value, update, nextSymbol);
      } else {
        var node := context + symbols[context].symbols;
        InsertEnters(mem, at, contexts, nextSymbol, p, value, update);
        symbol, under, count, next := WalkEncode(node, p, tree, value, update, under, count, next);
      }
      at, contexts := PlacesAfter(at, contexts, p, value, nextSymbol), TreeBumped(contexts, p, value, update);
    }

    method WalkEncode(start: nat, ghost p: Path, ghost tree: Tree, value: byte, update: byte,
                      under0: u16, count0: u16, nextSymbol: nat)
      returns (symbol: nat, under: u16, count: u16, next: nat)
      requires symbols.Length == MAXIMUM_SYMBOLS && nextSymbol < MAXIMUM_SYMBOLS
      requires Walkable(symbols[..], at, p, start, tree, -1, 256, value, update, nextSymbol)
      requires under0 + Sum(tree) <= 0xFFFF && count0 + WalkCount(tree, value) <= 0xFFFF
      modifies symbols
      ensures symbols[..] == InsertAt(old(symbols[..]), at, p, start, tree, -1, 256, value, update, nextSymbol)
      ensures Has(tree, value) ==> Sym(p, value) in at && symbol == at[Sym(p, value)]
      ensures !Has(tree, value) ==> symbol == nextSymbol
      ensures next == if Has(tree, value) then nextSymbol else nextSymbol + 1
      ensures under == under0 + WalkUnder(tree, value) && count == count0 + WalkCount(tree, value)
    {
      hide InsertAt, Walkable, Sum, Has, WalkUnder, WalkCount, TreeAt, Ordered;
      under, count, next := under0, count0, nextSymbol;
      var node: nat := start;
      ghost var t: Tree, lo: int, hi: int := tree, -1, 256;
      while true
        invariant under + WalkUnder(t, value) == under0 + WalkUnder(tree, value) && under + Sum(t) <= 0xFFFF
        invariant count == count0 && next == nextSymbol
        invariant WalkCount(t, value) == WalkCount(tree, value) && (Has(t, value) <==> Has(tree, value))
        invariant Walkable(symbols[..], at, p, node, t, lo, hi, value, update, nextSymbol)
        invariant InsertAt(symbols[..], at, p, node, t, lo, hi, value, update, nextSymbol)
               == InsertAt(old(symbols[..]), at, p, start, tree, -1, 256, value, update, nextSymbol)
        decreases t
      {
        ghost var mem := symbols[..];
        NodeFacts(mem, at, p, node, t, lo, hi, value, update, nextSymbol);
        if value < symbols[node].value {
          WalkGoesOn(mem, at, p, node, t, lo, hi, value, update, nextSymbol);
          symbols[node] := symbols[node].(under := symbols[node].under + update);
          assert symbols[..] == mem[node := Passed(mem[node], value, update)];
          if symbols[node].left != 0 {
            node := node + symbols[node].left;
            t, hi := t.left, t.value;
            continue;
          }
          CreateSymbol(next, value, update);
          symbol, next := next, next + 1;
          symbols[node] := symbols[node].(left := symbol - node);
        } else if value > symbols[node].value {
          WalkGoesOn(mem, at, p, node, t, lo, hi, value, update, nextSymbol);
          under := under + symbols[node].under;
          assert symbols[..] == mem[node := Passed(mem[node], value, update)];
          if symbols[node].right != 0 {
            node := node + symbols[node].right;
            t, lo := t.right, t.value;
            continue;
          }
          CreateSymbol(next, value, update);
          symbol, next := next, next + 1;
          symbols[node] := symbols[node].(right := symbol - node);
        } else {
          WalkEnds(mem, at, p, node, t, lo, hi, value, update, nextSymbol);
          count := count + symbols[node].count;
          under := under + (symbols[node].under - symbols[node].count);
          symbols[node] := symbols[node].(under := symbols[node].under + update);
          symbols[node] := symbols[node].(count := symbols[node].count + update);
          symbol := node;
          assert symbols[..] == mem[node := Passed(mem[node], value, update)];
        }
        break;
      }
    }

    /** CONTEXT_DECODE: find, create or give up on the symbol that code selects, and count it. */
    method ContextDecode(context: nat, ghost p: Path, code: u16, update: byte, min: minimum, nextSymbol: nat)
      returns (found: bool, symbol: nat, value: byte, under: u16, count: u16, next: nat)
      requires Holds(nextSymbol) && nextSymbol < MAXIMUM_SYMBOLS
      requires p in at && at[p] == context
      requires min == MinimumOf(p) && update == Delta(min) && ValidContext(ContextOf(contexts, p), min)
      requires min == 1 ==> code < Sum(ContextOf(contexts, p).tree) + 256
      modifies symbols, `contexts, `at
      ensures var hit := Find(ContextOf(old(contexts), p).tree, code, 0, min);
              found == hit.Hit? && (found ==> value == hit.value && under == hit.under && count == hit.count)
      ensures found ==> Entered(old(symbols[..]), symbols[..], old(at), old(contexts), p, value, update, nextSymbol)
      ensures found ==> at == PlacesAfter(old(at), old(contexts), p, value, nextSymbol)
      ensures found ==> contexts == TreeBumped(old(contexts), p, value, update)
      ensures found ==> next == NextAfter(old(contexts), p, value, nextSymbol)
      ensures found ==> Sym(p, value) in at && at[Sym(p, value)] == symbol
    {
      hide Entered, Walkable, InsertAt, Represents, ValidContext, TreeBumped, Sum, Has, WalkUnder, WalkCount, Roomy;
      ghost var mem := symbols[..];
      ghost var c := ContextOf(contexts, p);
      symbol, value, under, count, next := 0, 0, 0, min, nextSymbol;
      TreeOfContext(mem, at, contexts, nextSymbol, p);
      FoundValue(c, min, code);
      if symbols[context].symbols == 0 {
        if min == 0 {
          return false, symbol, value, under, count, next;
        }
        value := code / min;
        under := code - code % min;
        RoomFor(c, min, value);
        BeginEnters(mem, at, contexts, nextSymbol, p, value, update);
        CreateSymbol(next, value, update);
        symbol, next := next, next + 1;
        symbols[context] := symbols[context].(symbols := symbol - context);
        assert symbols[..] == Begin(mem, context, value, update, nextSymbol);
      } else {
        var node := context + symbols[context].symbols;
        SearchStarts(mem, at, contexts, nextSymbol, p, min, code, update);
        found, symbol, value, under, count, next := WalkDecode(node, p, c.tree, code, update, min, next);
        if found {
          RoomFor(c, min, value);
          InsertEnters(mem, at, contexts, nextSymbol, p, value, update);
        }
        if !found {
          return;
        }
      }
      found := true;
      at, contexts := PlacesAfter(at, contexts, p, value, nextSymbol), TreeBumped(contexts, p, value, update);
    }

    method WalkDecode(start: nat, ghost p: Path, ghost tree: Tree, code: u16, update: byte, min: minimum,
                      nextSymbol: nat)
      returns (found: bool, symbol: nat, value: byte, under: u16, count: u16, next: nat)
      requires symbols.Length == MAXIMUM_SYMBOLS && nextSymbol < MAXIMUM_SYMBOLS
      requires Searching(symbols[..], symbols[..], at, p, start, tree, start, tree, -1, 256, code, 0, min, update,
                         nextSymbol)
      modifies symbols
      ensures var hit := Find(tree, code, 0, min);
              found == hit.Hit? && (found ==> value == hit.value && under == hit.under && count == hit.count)
      ensures found ==> Walkable(old(symbols[..]), at, p, start, tree, -1, 256, value, update, nextSymbol)
      ensures found ==>
                symbols[..] == InsertAt(old(symbols[..]), at, p, start, tree, -1, 256, value, update, nextSymbol)
      ensures found && Has(tree, value) ==> Sym(p, value) in at && symbol == at[Sym(p, value)]
      ensures found && !Has(tree, value) ==> symbol == nextSymbol
      ensures found ==> next == if Has(tree, value) then nextSymbol else nextSymbol + 1
    {
      hide Searching, InsertAt, Walkable, Find, Has;
      ghost var mem0 := symbols[..];
      symbol, value, under, count, next := 0, 0, 0, min, nextSymbol;
      var node: nat := start;
      ghost var t: Tree, lo: int, hi: int := tree, -1, 256;
      while true
        invariant count == min && next == nextSymbol
        invariant Searching(mem0, symbols[..], at, p, start, tree, node, t, lo, hi, code, under, min, update,
                            nextSymbol)
        decreases t
      {
        ghost var mem := symbols[..];
        SearchFacts(mem0, mem, at, p, start, tree, node, t, lo, hi, code, under, min, update, next);
        var after: u16 := under + symbols[node].under + (symbols[node].value + 1) * min;
        var before: u16 := symbols[node].count + min;
        if code >= after {
          SearchRight(mem0, mem, at, p, start, tree, node, t, lo, hi, code, under, min, update, next);
          under := under + symbols[node].under;
          if symbols[node].right != 0 {
            node := node + symbols[node].right;
            t, lo := t.right, t.value;
            continue;
          }
          if min == 0 {
            return false, symbol, value, under, count, next;
          }
          value := symbols[node].value + 1 + (code - after) / min;
          under := code - (code - after) % min;
          CreateSymbol(next, value, update);
          symbol, next := next, next + 1;
          symbols[node] := symbols[node].(right := symbol - node);
        } else if code < after - before {
          SearchLeft(mem0, mem, at, p, start, tree, node, t, lo, hi, code, under, min, update, next);
          symbols[node] := symbols[node].(under := symbols[node].under + update);
          if symbols[node].left != 0 {
            node := node + symbols[node].left;
            t, hi := t.left, t.value;
            continue;
          }
          if min == 0 {
            return false, symbol, value, under, count, next;
          }
          value := symbols[node].value - 1 - (after - before - code - 1) / min;
          under := code - (after - before - code - 1) % min;
          CreateSymbol(next, value, update);
          symbol, next := next, next + 1;
          symbols[node] := symbols[node].(left := symbol - node);
        } else {
          SearchEnds(mem0, mem, at, p, start, tree, node, t, lo, hi, code, under, min, update, next);
          value := symbols[node].value;
          count := count + symbols[node].count;
          under := after - before;
          symbols[node] := symbols[node].(under := symbols[node].under + update);
          symbols[node] := symbols[node].(count := symbols[node].count + update);
          symbol := node;
        }
        break;
      }
      found := true;
    }

    /** enet_symbol_rescale: halve every count of a subtree, and count it anew. */
    method Rescale(start: nat, ghost p: Path, ghost t: Tree, ghost lo: int, ghost hi: int) returns (total: u16)
      requires symbols.Length == MAXIMUM_SYMBOLS && Separate(at, MAXIMUM_SYMBOLS)
      requires t.Node? && TreeAt(symbols[..], at, p, start, t) && Ordered(t, lo, hi) && Counted(t, 0xFF)
      requires Sum(t) <= 0xFFFF
      modifies symbols
      ensures RescaledIn(old(symbols[..]), symbols[..], at, p, t)
      ensures OnlyTree(old(symbols[..]), symbols[..], at, p, t)
      ensures total == Sum(FrequencyTree.Rescale(t))
      decreases t
    {
      hide FrequencyTree.Rescale, HalvedSoFar, RescaledIn, OnlyTree, TreeAt, Ordered, Counted, Has, Subtree;
      ghost var mem0 := symbols[..];
      total := 0;
      var symbol: nat := start;
      ghost var cur: Tree, low: int := t, lo;
      SumShrinks(t, 0xFF);
      NothingHalved(mem0, at, p, start, t, lo, hi);
      while true
        invariant cur.Node? && TreeAt(symbols[..], at, p, symbol, cur) && Ordered(cur, low, hi) && Counted(cur, 0xFF)
        invariant Sum(cur) <= 0xFFFF
        invariant total + Sum(FrequencyTree.Rescale(cur)) == Sum(FrequencyTree.Rescale(t)) <= 0xFFFF
        invariant HalvedSoFar(mem0, symbols[..], at, p, t, cur)
        decreases cur
      {
        ghost var mem := symbols[..];
        RescaleUnfolds(mem, at, p, symbol, cur, low, hi);
        symbols[symbol] := symbols[symbol].(count := symbols[symbol].count - symbols[symbol].count / 2);
        symbols[symbol] := symbols[symbol].(under := symbols[symbol].count);
        ghost var mem1 := symbols[..];
        LeftAfterHalving(mem, mem1, at, p, symbol, cur, low, hi);
        ghost var mem2 := mem1;
        if symbols[symbol].left != 0 {
          var below := Rescale(symbol + symbols[symbol].left, p, cur.left, low, cur.value);
          mem2 := symbols[..];
          NodeUntouched(mem1, mem2, at, p, symbol, cur, low, hi);
          symbols[symbol] := symbols[symbol].(under := symbols[symbol].under + below);
        } else {
          NothingBelow(mem1, at, p, cur.left);
        }
        assert Turn(mem, mem1, mem2, symbols[..], at, p, symbol, cur, low, hi);
        HalvedOneMore(mem0, mem, mem1, mem2, symbols[..], at, p, t, symbol, cur, low, hi);
        TurnKeepsRight(mem, mem1, mem2, symbols[..], at, p, symbol, cur, low, hi);
        total := total + symbols[symbol].under;
        if symbols[symbol].right == 0 {
          break;
        }
        symbol := symbol + symbols[symbol].right;
        cur, low := cur.right, cur.value;
      }
      AllHalved(mem0, symbols[..], at, p, t, cur.right);
    }

    /** CONTEXT_RESCALE. */
    method ContextRescale(context: nat, ghost p: Path, min: minimum, ghost next: nat)
      requires Holds(next) && p in at && at[p] == context
      requires var c := ContextOf(contexts, p);
               && c.tree.Node? && Counted(c.tree, 0xFF) && Sum(c.tree) <= 0xFFFF
               && Sum(FrequencyTree.Rescale(c.tree)) + (c.escapes - c.escapes / 2) + 256 * min <= 0xFFFF
      modifies symbols, `contexts
      ensures Holds(next) && SameParents(old(symbols[..]), symbols[..], at)
      ensures contexts == old(contexts)[p := Halved(ContextOf(old(contexts), p), min)]
    {
      hide Represents, FrequencyTree.Rescale, RescaledIn, OnlyTree, TreeAt, Ordered, Counted, Sum;
      ghost var mem := symbols[..];
      ghost var c := ContextOf(contexts, p);
      TreeOfContext(mem, at, contexts, next, p);
      SeparateInTable(mem, at, contexts, next);
      var total: u16 := 0;
      if symbols[context].symbols != 0 {
        total := Rescale(context + symbols[context].symbols, p, c.tree, -1, 256);
      }
      RescaleKeepsParents(mem, symbols[..], at, p, c.tree);
      TreeRescaled(mem, symbols[..], at, contexts, next, p);
      contexts := contexts[p := c.(tree := FrequencyTree.Rescale(c.tree))];
      TreeOfContext(symbols[..], at, contexts, next, p);
      var escapes := symbols[context].escapes - symbols[context].escapes / 2;
      TotalsSet(symbols[..], at, contexts, next, p, escapes, total + escapes + 256 * min);
      symbols[context] := symbols[context].(escapes := escapes, total := total + escapes + 256 * min);
      contexts := contexts[p := Halved(c, min)];
    }

    /** What follows CONTEXT_ENCODE and the coding of its slot: the escapes and the total of the
        context grow, and it is rescaled when a count or the total has become too large. */
    method Account(context: nat, ghost p: Path, ghost value: byte, count: u16, update: byte, min: minimum,
                   ghost before: Contexts, ghost next: nat)
      requires Holds(next) && p in at && at[p] == context
      requires min == MinimumOf(p) && update == Delta(min) && ValidContext(ContextOf(before, p), min)
      requires contexts == TreeBumped(before, p, value, update)
      requires count == min + WalkCount(ContextOf(before, p).tree, value)
      modifies symbols, `contexts
      ensures Holds(next) && SameParents(old(symbols[..]), symbols[..], at)
      ensures contexts == BumpAt(before, p, value)
    {
      hide Represents, FrequencyTree.Rescale, ValidContext, Ordered, Counted, Sum, Insert, WalkCount, Has,
           TreeBumped, BumpAt, Accounted, Halved, SameParents;
      ghost var mem := symbols[..];
      ghost var c := ContextOf(before, p);
      TreeOfContext(mem, at, contexts, next, p);
      AccountedAt(before, p, value, min);
      GrownFits(c, value, min);
      CountedWhenSeen(c, min, value);
      var escapes, total := symbols[context].escapes, symbols[context].total;
      if count == 0 {
        escapes := escapes + SUBCONTEXT_ESCAPE_DELTA;
        total := total + SUBCONTEXT_ESCAPE_DELTA;
      }
      total := total + update;
      TotalsSet(mem, at, contexts, next, p, escapes, total);
      symbols[context] := symbols[context].(escapes := escapes, total := total);
      contexts := contexts[p := Accounted(c, value, min)];
      ghost var mem' := symbols[..];
      TotalsKeepParents(mem, mem', at, context, escapes, total);
      if count > 0xFF - 2 * update + min || total > BOTTOM - 0x100 {
        ContextRescale(context, p, min, next);
        SameParentsChain(mem, mem', symbols[..], at);
      }
    }

    /** CONTEXT_ENCODE in context g, and linking the symbol one context longer to what it found:
        pending is that symbol's index, or -1 at the longest context. */
    method Enter(context: nat, ghost g: Path, value: byte, min: minimum, pending: int, ghost above: Path,
                 nextSymbol: nat)
      returns (symbol: nat, under: u16, count: u16, next: nat)
      requires Holds(nextSymbol) && nextSymbol < MAXIMUM_SYMBOLS
      requires g in at && at[g] == context && min == MinimumOf(g) && ValidContext(ContextOf(contexts, g), min)
      requires pending >= 0 ==> above in at && at[above] == pending && Parent(above) == Sym(g, value)
      requires ParentsSet(symbols[..], at, if pending >= 0 then {above} else {})
      modifies symbols, `contexts, `at
      ensures Holds(next) && contexts == TreeBumped(old(contexts), g, value, Delta(min))
      ensures next == NextAfter(old(contexts), g, value, nextSymbol)
      ensures Sym(g, value) in at && at[Sym(g, value)] == symbol
      ensures under == Times(value, min) + WalkUnder(ContextOf(old(contexts), g).tree, value)
      ensures count == min + WalkCount(ContextOf(old(contexts), g).tree, value)
      ensures ParentsSet(symbols[..], at, Pending(old(contexts), g, value))
      ensures forall q :: q in old(at) ==> q in at && at[q] == old(at)[q]
    {
      hide Represents, ParentsSet, ValidContext, TreeBumped, WalkUnder, WalkCount, Has;
      ghost var mem, cs, places := symbols[..], contexts, at;
      symbol, under, count, next := ContextEncode(context, g, value, Delta(min), min, nextSymbol);
      ParentsAfterEntry(mem, symbols[..], places, cs, g, value, Delta(min), nextSymbol,
                        if pending >= 0 then {above} else {});
      EntryRepresents(mem, symbols[..], places, cs, g, value, Delta(min), nextSymbol);
      if pending >= 0 {
        SeparateInTable(symbols[..], at, contexts, next);
        ParentsAfterLink(symbols[..], at, {above} + Pending(cs, g, value), above);
        ParentLinked(symbols[..], at, contexts, next, above, symbol);
        assert Pending(cs, g, value) - {above} == Pending(cs, g, value) by {
          assert Sym(g, value) != above;
        }
        assert {above} + Pending(cs, g, value) - {above} == Pending(cs, g, value) - {above};
        symbols[pending] := symbols[pending].(parent := symbol);
      } else {
        assert {} + Pending(cs, g, value) == Pending(cs, g, value);
      }
    }

    /** One context's part in encoding a byte: enter the value, code its slot or an escape, and
        account for it; false if the output limit is reached. */
    method EncodeIn(context: nat, ghost g: Path, value: byte, update: byte, min: minimum, pending: int,
                    ghost above: Path,
                    low0: u32, range0: u32, outData: array<byte>, outPos: nat, nextSymbol: nat)
      returns (ok: bool, hit: bool, symbol: nat, low: u32, range: u32, pos: nat, next: nat)
      requires Holds(nextSymbol) && nextSymbol < MAXIMUM_SYMBOLS && ValidContexts(contexts)
      requires g in at && at[g] == context && min == MinimumOf(g) && update == Delta(min)
      requires pending >= 0 ==> above in at && at[above] == pending && Parent(above) == Sym(g, value)
      requires ParentsSet(symbols[..], at, if pending >= 0 then {above} else {})
      requires Ready(low0, range0) && outPos <= outData.Length
      modifies symbols, `contexts, `at, outData
      ensures outPos <= pos <= outData.Length && outData[..outPos] == old(outData[..outPos])
      ensures var n := CodedAt(old(contexts), g, value, low0, range0);
              && ok == (outPos + |n.emitted| <= outData.Length)
              && (ok ==> low == n.low && range == n.range && outData[outPos..pos] == n.emitted)
      ensures hit == !Misses(old(contexts), g, value)
      ensures ok ==> Holds(next) && contexts == BumpAt(old(contexts), g, value)
      ensures next == NextAfter(old(contexts), g, value, nextSymbol)
      ensures ok ==> ParentsSet(symbols[..], at, Pending(old(contexts), g, value))
      ensures Sym(g, value) in at && at[Sym(g, value)] == symbol
      ensures forall q :: q in old(at) ==> q in at && at[q] == old(at)[q]
    {
      hide Represents, ParentsSet, ValidContexts, EncodeSlot, Ready, BumpAt, CodedAt, Misses,
           WalkUnder, WalkCount, Slot.Valid, ValidContext, Has, Insert, NextAfter, Pending, Times, Normalize,
           SameParents;
      ghost var cs := contexts;
      low, range, pos := low0, range0, outPos;
      CodedAtUnfolds(cs, g, value, low0, range0);
      var under, count;
      symbol, under, count, next := Enter(context, g, value, min, pending, above, nextSymbol);
      TreeOfContext(symbols[..], at, contexts, next, g);
      var escapes, total := symbols[context].escapes, symbols[context].total;
      hit := count > 0;
      ok := true;
      assert outData[outPos..pos] == [];
      if count > 0 {
        ok, low, range, pos := RangeEncode(low, range, escapes + under, count, total, outData, pos);
      } else if 0 < escapes < total {
        ok, low, range, pos := RangeEncode(low, range, 0, escapes, total, outData, pos);
      }
      if !ok {
        return;
      }
      ghost var mem := symbols[..];
      Account(context, g, value, count, update, min, cs, next);
      ParentsKept(mem, symbols[..], at, Pending(cs, g, value));
    }

    /** One byte of enet_range_coder_compress; false if the output limit is reached. */
    method EncodeByte(value: byte, predicted0: nat, ghost h: Path, low0: u32, range0: u32,
                      outData: array<byte>, outPos: nat, nextSymbol: nat)
      returns (ok: bool, predicted: nat, low: u32, range: u32, pos: nat, next: nat)
      requires Holds(nextSymbol) && nextSymbol < MAXIMUM_SYMBOLS - SUBCONTEXT_ORDER && Depth(h) <= SUBCONTEXT_ORDER
      requires h in at && at[h] == predicted0 && ParentsSet(symbols[..], at, {}) && ValidContexts(contexts)
      requires Ready(low0, range0) && outPos <= outData.Length
      modifies symbols, `contexts, `at, outData
      ensures outPos <= pos <= outData.Length && outData[..outPos] == old(outData[..outPos])
      ensures var n := EncodeSymbol(old(contexts), h, low0, range0, value);
              && ok == (outPos + |n.emitted| <= outData.Length)
              && (ok ==> low == n.low && range == n.range && outData[outPos..pos] == n.emitted)
      ensures ok ==> Holds(next) && ParentsSet(symbols[..], at, {})
      ensures var level := HitLevel(old(contexts), h, value);
              ok ==> contexts == Train(old(contexts), h, level, value)
                     && next == nextSymbol + Fresh(old(contexts), h, level, value)
      ensures ok ==> Sym(h, value) in at && at[Sym(h, value)] == predicted
    {
      hide Represents, ParentsSet, ValidContexts, Climbed, EncodeSymbol, HitLevel, Train, Fresh, Ready, BumpAt,
           CodedAt, Has;
      ghost var cs0 := contexts;
      predicted, low, range, pos, next := predicted0, low0, range0, outPos, nextSymbol;
      var context: nat, pending: int := predicted0, -1;
      ghost var g, above := h, Root;
      ClimbStart(contexts, h, low, range, value, next);
      assert outData[outPos..pos] == [];
      var hit, symbol;
      while context != 0
        invariant Holds(next) && next + Depth(g) < MAXIMUM_SYMBOLS && g in at && at[g] == context
        invariant outPos <= pos <= outData.Length && outData[..outPos] == old(outData[..outPos])
        invariant Climbed(cs0, h, low0, range0, value, nextSymbol, contexts, g, low, range, next, outData[outPos..pos])
        invariant -1 <= pending
        invariant pending >= 0 ==> above in at && at[above] == pending && Parent(above) == Sym(g, value)
        invariant ParentsSet(symbols[..], at, if pending >= 0 then {above} else {})
        invariant pending >= 0 ==> Sym(h, value) in at && at[Sym(h, value)] == predicted
        invariant pending == -1 ==> g == h
        decreases Depth(g)
      {
        ghost var written, from := outData[outPos..pos], pos;
        ClimbOn(cs0, h, low0, range0, value, nextSymbol, contexts, g, low, range, next, written);
        RootIsFirst(symbols[..], at, contexts, next, g);
        ok, hit, symbol, low, range, pos, next :=
          EncodeIn(context, g, value, SUBCONTEXT_SYMBOL_DELTA, 0, pending, above, low, range, outData, pos, next);
        if pending == -1 {
          predicted := symbol;
        }
        if !ok {
          return;
        }
        assert outData[outPos..pos] == written + outData[from..pos];
        if hit {
          return;
        }
        pending, above := symbol, Sym(g, value);
        ParentIndex(symbols[..], at, {above}, g);
        context := symbols[context].parent;
        g := Parent(g);
      }
      ghost var written, from := outData[outPos..pos], pos;
      ClimbOn(cs0, h, low0, range0, value, nextSymbol, contexts, g, low, range, next, written);
      RootIsFirst(symbols[..], at, contexts, next, g);
      ok, hit, symbol, low, range, pos, next :=
        EncodeIn(context, g, value, SYMBOL_DELTA, SYMBOL_MINIMUM, pending, above, low, range, outData, pos, next);
      if pending == -1 {
        predicted := symbol;
      }
      if ok {
        assert outData[outPos..pos] == written + outData[from..pos];
      }
    }

    /** The table and the registers hold exactly this model. */
    ghost predicate Models(p: Model, predicted: nat, order: nat, nextSymbol: nat)
      reads this, symbols
    {
      && Holds(nextSymbol) && ValidModel(p) && contexts == p.contexts && nextSymbol == p.used
      && ParentsSet(symbols[..], at, {})
      && p.history in at && at[p.history] == predicted && order == Depth(p.history)
    }

    /** CONTEXT_CREATE for the root, as the first symbol. */
    method CreateRoot() returns (next: nat)
      requires symbols.Length == MAXIMUM_SYMBOLS
      modifies symbols, `contexts, `at
      ensures Models(FRESH, 0, 0, next)
    {
      CreateSymbol(0, 0, 0);
      symbols[0] := symbols[0].(escapes := ESCAPE_MINIMUM, total := ESCAPE_MINIMUM + 256 * SYMBOL_MINIMUM);
      contexts, at, next := map[], map[Root := 0], 1;
      FreshIsValid();
      FreshRepresents(symbols[..], at, contexts);
    }

    /** From one byte to the next: step to the context it leaves, and start afresh when fewer
        symbols are left than one byte may need (FREE_SYMBOLS). */
    method NextInput(predicted0: nat, order0: nat, nextSymbol: nat, ghost p: Model, ghost level: nat, ghost value: byte)
      returns (predicted: nat, order: nat, next: nat)
      requires ValidModel(p) && level <= Depth(p.history) && order0 == Depth(p.history)
      requires Holds(nextSymbol) && ParentsSet(symbols[..], at, {})
      requires contexts == Train(p.contexts, p.history, level, value)
      requires nextSymbol == p.used + Fresh(p.contexts, p.history, level, value)
      requires Sym(p.history, value) in at && at[Sym(p.history, value)] == predicted0
      modifies symbols, `contexts, `at
      ensures Models(Learn(p, level, value), predicted, order, next)
    {
      hide Represents, ParentsSet, ValidModel, Train, Fresh;
      LearnKeepsValid(p, level, value);
      predicted, order, next := predicted0, order0, nextSymbol;
      ParentIndex(symbols[..], at, {}, Sym(p.history, value));
      if order >= SUBCONTEXT_ORDER {
        predicted := symbols[predicted].parent;
      } else {
        order := order + 1;
      }
      if next >= MAXIMUM_SYMBOLS - SUBCONTEXT_ORDER {
        next := CreateRoot();
        predicted, order := 0, 0;
      }
    }

    /** One turn of the compressor's loop: encode a byte and learn it. */
    method EncodeNext(value: byte, predicted0: nat, order0: nat, low0: u32, range0: u32,
                      outData: array<byte>, outPos: nat, nextSymbol: nat, ghost p: Model)
      returns (ok: bool, predicted: nat, order: nat, low: u32, range: u32, pos: nat, next: nat)
      requires Models(p, predicted0, order0, nextSymbol) && ValidModel(p) && Ready(low0, range0)
      requires outPos <= outData.Length
      modifies symbols, `contexts, `at, outData
      ensures outPos <= pos <= outData.Length && outData[..outPos] == old(outData[..outPos])
      ensures var n := EncodeSymbol(p.contexts, p.history, low0, range0, value);
              && ok == (outPos + |n.emitted| <= outData.Length)
              && (ok ==> low == n.low && range == n.range && outData[outPos..pos] == n.emitted)
      ensures ok ==> Models(LearnSymbol(p, value), predicted, order, next)
    {
      hide Represents, ParentsSet, ValidContexts, EncodeSymbol, Train, Fresh, HitLevel, Learn, Ready;
      order, next := order0, nextSymbol;
      ok, predicted, low, range, pos, next :=
        EncodeByte(value, predicted0, p.history, low0, range0, outData, outPos, nextSymbol);
      if ok {
        predicted, order, next := NextInput(predicted, order, next, p, HitLevel(p.contexts, p.history, value), value);
      }
    }

    /** enet_range_coder_compress. No buffer may be empty: each fetch takes a byte unchecked. */
    method Compress(inBuffers: seq<seq<byte>>, inLimit: nat, outData: array<byte>) returns (written: nat)
      requires symbols.Length == MAXIMUM_SYMBOLS
      requires forall b :: b in inBuffers ==> b != []
      modifies symbols, `contexts, `at, outData
      ensures inBuffers == [] || inLimit == 0 ==> written == 0
      ensures var full := Compressed(Concatenated(inBuffers));
              inBuffers != [] && inLimit > 0 ==>
                if |full| <= outData.Length then written == |full| && outData[..written] == full
                else written == 0
    {
      hide Models, Encode, Learn, LearnSymbol, EncodeSymbol, ValidModel, Flush, Ready, Unread, Concatenated, Compressed;
      if |inBuffers| == 0 || inLimit <= 0 {
        return 0;
      }
      ghost var input := Concatenated(inBuffers);
      var inData, inPos, buffer := inBuffers[0], 0, 1;
      var low: u32, range: u32, predicted: nat, order: nat := 0, WORD - 1, 0, 0;
      var nextSymbol := CreateRoot();
      var pos, ok := 0, true;
      ghost var p := FRESH;
      CompressedStarts(inBuffers, outData[..pos]);
      while true
        invariant 0 < buffer <= |inBuffers| && 0 <= inPos <= |inData| && 0 <= pos <= outData.Length
        invariant ValidModel(p) && Ready(low, range) && Models(p, predicted, order, nextSymbol)
        invariant Compressed(input) == outData[..pos] + Encode(p, low, range, Unread(inBuffers, buffer, inData, inPos))
        decreases |inBuffers| - buffer, |inData| - inPos
      {
        ghost var rest := Unread(inBuffers, buffer, inData, inPos);
        if inPos >= |inData| {
          if buffer >= |inBuffers| {
            NothingUnread(inBuffers, buffer, inData, inPos);
            break;
          }
          assert inBuffers[buffer] in inBuffers;
          NextUnread(inBuffers, buffer, inData, inPos);
          inData, inPos, buffer := inBuffers[buffer], 0, buffer + 1;
        }
        UnreadByte(inBuffers, buffer, inData, inPos);
        var value := inData[inPos];
        inPos := inPos + 1;
        EncodeUnfolds(p, low, range, rest);
        ghost var done, from := outData[..pos], pos;
        ok, predicted, order, low, range, pos, nextSymbol :=
          EncodeNext(value, predicted, order, low, range, outData, pos, nextSymbol, p);
        if !ok {
          return 0;
        }
        assert outData[..pos] == done + outData[from..pos];
        p := LearnSymbol(p, value);
      }
      EncodeUnfolds(p, low, range, []);
      ghost var done := outData[..pos];
      ghost var from := pos;
      ok, pos := RangeFlush(low, outData, pos);
      if !ok {
        return 0;
      }
      assert outData[..pos] == done + outData[from..pos];
      written := pos;
    }

    // ---- decompression ----

    /** READ in one context, and what follows from it: an escape, a symbol found and counted, a code
        no symbol has, or (in the root) a code beyond the interval. */
    method DecodeIn(context: nat, ghost g: Path, update: byte, min: minimum, low0: u32, range0: u32, code0: u32,
                    inData: seq<byte>, inPos: nat, ghost from: nat, nextSymbol: nat)
      returns (verdict: Verdict, value: byte, symbol: nat, low: u32, range: u32, code: u32, pos: nat, ghost upTo: nat,
               next: nat)
      requires Holds(nextSymbol) && nextSymbol < MAXIMUM_SYMBOLS && ValidContexts(contexts)
      requires g in at && at[g] == context && min == MinimumOf(g) && update == Delta(min)
      requires Escapes(ContextOf(contexts, g)) && ParentsSet(symbols[..], at, {})
      requires Ready(low0, range0) && code0 == Window(inData, from) && inPos == Reached(inData, from)
      modifies symbols, `contexts, `at
      ensures DecodesAs(verdict, value, low, range, upTo, old(contexts), g, low0, range0, inData, from)
      ensures verdict.Escaped? || verdict.Decoded? ==> code == Window(inData, upTo) && pos == Reached(inData, upTo)
      ensures verdict.Escaped? ==>
                symbols[..] == old(symbols[..]) && contexts == old(contexts) && at == old(at) && next == nextSymbol
      ensures verdict.Decoded? ==>
                && Holds(next) && contexts == BumpAt(old(contexts), g, value) && ParentsSet(symbols[..], at, {})
                && next == NextAfter(old(contexts), g, value, nextSymbol)
                && Sym(g, value) in at && at[Sym(g, value)] == symbol
                && forall q :: q in old(at) ==> q in at && at[q] == old(at)[q]
    {
      hide Represents, ParentsSet, ValidContexts, EncodeSlot, Ready, BumpAt, WalkUnder, WalkCount, ValidContext, Has,
           Insert,
           Window, Find, Sum, Slot.Valid, Interpret, ReadCode, SameParents;
      ghost var cs, c, places, mem := contexts, ContextOf(contexts, g), at, symbols[..];
      low, range, code, pos, upTo, next, value, symbol := low0, range0, code0, inPos, from, nextSymbol, 0, 0;
      TreeOfContext(symbols[..], at, contexts, next, g);
      ReadUnfolds(cs, g, low0, range0, code0);
      var escapes, total := symbols[context].escapes, symbols[context].total;
      var read: u16 := (code - low) % WORD / (range / total) % 0x1_0000;
      InterpretUnfolds(c, min, read);
      if read < escapes {
        low, range, code, pos, upTo := RangeDecode(low, range, code, pos, 0, escapes, total, inData, upTo);
        return Escaped, value, symbol, low, range, code, pos, upTo, next;
      }
      if min == 1 && read >= total {
        return BeyondInterval, value, symbol, low, range, code, pos, upTo, next;
      }
      var found, under, count;
      found, symbol, value, under, count, next := ContextDecode(context, g, read - escapes, update, min, next);
      if !found {
        return NotFound, value, symbol, low, range, code, pos, upTo, next;
      }
      low, range, code, pos, upTo := RangeDecode(low, range, code, pos, escapes + under, count, total, inData, upTo);
      ParentsAfterEntry(mem, symbols[..], places, cs, g, value, update, nextSymbol, {});
      EntryRepresents(mem, symbols[..], places, cs, g, value, update, nextSymbol);
      mem := symbols[..];
      Account(context, g, value, count, update, min, cs, next);
      assert {} + Pending(cs, g, value) == {};
      ParentsKept(mem, symbols[..], at, {});
      verdict := Decoded;
    }

    /** Find the next symbol, from the longest context down. */
    method DecodeSearch(predicted: nat, ghost h: Path, low0: u32, range0: u32, code0: u32,
                        inData: seq<byte>, inPos: nat, ghost from: nat, nextSymbol: nat)
      returns (verdict: Verdict, value: byte, context: nat, ghost g: Path, symbol: nat,
               low: u32, range: u32, code: u32, pos: nat, ghost upTo: nat, next: nat)
      requires Holds(nextSymbol) && nextSymbol < MAXIMUM_SYMBOLS && ValidContexts(contexts)
      requires h in at && at[h] == predicted && ParentsSet(symbols[..], at, {})
      requires Ready(low0, range0) && code0 == Window(inData, from) && inPos == Reached(inData, from)
      modifies symbols, `contexts, `at
      ensures FindsAs(verdict, value, Depth(g), low, range, upTo,
                      DecodeSymbol(old(contexts), h, low0, range0, inData, from))
      ensures verdict.Decoded? ==>
                && Depth(g) <= Depth(h) && g == Ancestor(h, Depth(g)) && g in old(at) && old(at)[g] == context
                && code == Window(inData, upTo) && pos == Reached(inData, upTo)
                && Holds(next) && contexts == BumpAt(old(contexts), g, value) && ParentsSet(symbols[..], at, {})
                && next == NextAfter(old(contexts), g, value, nextSymbol)
                && Sym(g, value) in at && at[Sym(g, value)] == symbol
                && forall q :: q in old(at) ==> q in at && at[q] == old(at)[q]
    {
      hide Represents, ParentsSet, ValidContexts, DecodeSymbol, Ready, BumpAt, Has, Window, DecodesAs, Reached;
      context, g, low, range, code, pos, upTo, next := predicted, h, low0, range0, code0, inPos, from, nextSymbol;
      while context != 0
        invariant Holds(next) && next == nextSymbol && contexts == old(contexts) && at == old(at)
        invariant symbols[..] == old(symbols[..])
        invariant g in at && at[g] == context && Depth(g) <= Depth(h) && g == Ancestor(h, Depth(g))
        invariant Ready(low, range) && code == Window(inData, upTo) && pos == Reached(inData, upTo)
        invariant DecodeSymbol(contexts, g, low, range, inData, upTo)
                  == DecodeSymbol(contexts, h, low0, range0, inData, from)
        decreases Depth(g)
      {
        RootIsFirst(symbols[..], at, contexts, next, g);
        TreeOfContext(symbols[..], at, contexts, next, g);
        ParentIndex(symbols[..], at, {}, g);
        DecodeUnfoldsAt(contexts, g, low, range, inData, upTo);
        AncestorStep(h, Depth(g));
        if 0 < symbols[context].escapes < symbols[context].total {
          verdict, value, symbol, low, range, code, pos, upTo, next :=
            DecodeIn(context, g, SUBCONTEXT_SYMBOL_DELTA, 0, low, range, code, inData, pos, upTo, next);
          if !verdict.Escaped? {
            return;
          }
        }
        context := symbols[context].parent;
        g := Parent(g);
      }
      RootIsFirst(symbols[..], at, contexts, next, g);
      DecodeUnfoldsAt(contexts, g, low, range, inData, upTo);
      verdict, value, symbol, low, range, code, pos, upTo, next :=
        DecodeIn(context, g, SYMBOL_DELTA, SYMBOL_MINIMUM, low, range, code, inData, pos, upTo, next);
    }

    /** One context's part of that: enter the value and account for it. */
    method PatchIn(patch: nat, ghost f: Path, value: byte, pending: int, ghost above: Path, nextSymbol: nat)
      returns (symbol: nat, next: nat)
      requires Holds(nextSymbol) && nextSymbol < MAXIMUM_SYMBOLS && f.Sym?
      requires ValidContext(ContextOf(contexts, f), MinimumOf(f))
      requires f in at && at[f] == patch
      requires pending >= 0 ==> above in at && at[above] == pending && Parent(above) == Sym(f, value)
      requires ParentsSet(symbols[..], at, if pending >= 0 then {above} else {})
      modifies symbols, `contexts, `at
      ensures Holds(next) && contexts == BumpAt(old(contexts), f, value)
      ensures next == nextSymbol + IsNew(old(contexts), f, value)
      ensures Sym(f, value) in at && at[Sym(f, value)] == symbol
      ensures ParentsSet(symbols[..], at, {Sym(f, value)})
      ensures forall q :: q in old(at) ==> q in at && at[q] == old(at)[q]
    {
      hide Represents, ParentsSet, BumpAt, TreeBumped, Has, WalkCount, WalkUnder, ValidContext, Pending, SameParents;
      ghost var cs := contexts;
      var under, count;
      symbol, under, count, next := Enter(patch, f, value, 0, pending, above, nextSymbol);
      ghost var mem := symbols[..];
      Account(patch, f, value, count, SUBCONTEXT_SYMBOL_DELTA, 0, cs, next);
      ParentsKept(mem, symbols[..], at, Pending(cs, f, value));
      PendingIsNew(cs, f, value);
      ParentsRelaxed(symbols[..], at, Pending(cs, f, value), {Sym(f, value)});
    }

    method LinkParent(pending: nat, ghost above: Path, parent: u16, ghost next: nat)
      requires Holds(next) && above in at && at[above] == pending && Parent(above) in at && at[Parent(above)] == parent
      requires ParentsSet(symbols[..], at, {above})
      modifies symbols
      ensures Holds(next) && ParentsSet(symbols[..], at, {})
    {
      hide Represents, ParentsSet;
      SeparateInTable(symbols[..], at, contexts, next);
      ParentsAfterLink(symbols[..], at, {above}, above);
      ParentLinked(symbols[..], at, contexts, next, above, parent);
      assert {above} - {above} == {};
      symbols[pending] := symbols[pending].(parent := parent);
    }

    /** Enter the found value in the longer contexts too, and link its symbols up to the found one. */
    method PatchContexts(value: byte, predicted0: nat, ghost h: Path, context: nat, ghost g: Path, bottom: nat,
                         ghost cs0: Contexts, ghost next0: nat, nextSymbol: nat)
      returns (predicted: nat, next: nat)
      requires Holds(nextSymbol) && next0 < MAXIMUM_SYMBOLS - SUBCONTEXT_ORDER && Depth(h) <= SUBCONTEXT_ORDER
      requires h in at && at[h] == predicted0 && g in at && at[g] == context
      requires Depth(g) <= Depth(h) && g == Ancestor(h, Depth(g))
      requires ParentsSet(symbols[..], at, {}) && ValidContexts(cs0)
      requires Patched(cs0, h, Depth(g), value, next0, contexts, h, nextSymbol)
      requires Sym(g, value) in at && at[Sym(g, value)] == bottom
      modifies symbols, `contexts, `at
      ensures Holds(next) && ParentsSet(symbols[..], at, {})
      ensures contexts == Train(cs0, h, Depth(g), value) && next == next0 + Fresh(cs0, h, Depth(g), value)
      ensures Sym(h, value) in at && at[Sym(h, value)] == predicted
    {
      hide Represents, ParentsSet, ValidContexts, Patched, Train, Fresh, BumpAt, IsNew, ValidContext, Ancestor;
      predicted, next := predicted0, nextSymbol;
      var patch: nat, pending: int := predicted0, -1;
      ghost var f, above := h, Root;
      while patch != context
        invariant Holds(next) && f in at && at[f] == patch && g in at && at[g] == context && Depth(g) <= Depth(f)
        invariant Patched(cs0, h, Depth(g), value, next0, contexts, f, next)
        invariant -1 <= pending
        invariant pending >= 0 ==> above in at && at[above] == pending && Parent(above) == Sym(f, value)
        invariant ParentsSet(symbols[..], at, if pending >= 0 then {above} else {})
        invariant pending >= 0 ==> Sym(h, value) in at && at[Sym(h, value)] == predicted
        invariant pending == -1 ==> f == h
        invariant Sym(g, value) in at && at[Sym(g, value)] == bottom
        decreases Depth(f)
      {
        PatchFacts(cs0, h, Depth(g), value, next0, contexts, f, next);
        AncestorOnly(f, g);
        PatchOn(cs0, h, Depth(g), value, next0, contexts, f, next);
        var symbol;
        symbol, next := PatchIn(patch, f, value, pending, above, next);
        if pending == -1 {
          predicted := symbol;
        }
        pending, above := symbol, Sym(f, value);
        ParentIndex(symbols[..], at, {above}, f);
        patch := symbols[patch].parent;
        f := Parent(f);
      }
      OnePlace(symbols[..], at, contexts, next, f, g);
      OnePlace(symbols[..], at, contexts, next, Sym(g, value), g);
      PatchEnd(cs0, h, Depth(g), value, next0, contexts, f, next);
      if pending == -1 {
        predicted := bottom;
      } else {
        LinkParent(pending, above, bottom, next);
      }
    }

    /** One byte of enet_range_coder_decompress: find it, and bring the model up to date. */
    method DecodeByte(predicted0: nat, ghost h: Path, low0: u32, range0: u32, code0: u32,
                      inData: seq<byte>, inPos: nat, ghost from: nat, nextSymbol: nat)
      returns (verdict: Verdict, value: byte, ghost level: nat, predicted: nat,
               low: u32, range: u32, code: u32, pos: nat, ghost upTo: nat, next: nat)
      requires Holds(nextSymbol) && nextSymbol < MAXIMUM_SYMBOLS - SUBCONTEXT_ORDER && Depth(h) <= SUBCONTEXT_ORDER
      requires h in at && at[h] == predicted0 && ParentsSet(symbols[..], at, {}) && ValidContexts(contexts)
      requires Ready(low0, range0) && code0 == Window(inData, from) && inPos == Reached(inData, from)
      modifies symbols, `contexts, `at
      ensures FindsAs(verdict, value, level, low, range, upTo,
                      DecodeSymbol(old(contexts), h, low0, range0, inData, from))
      ensures verdict.Decoded? ==>
                && level <= Depth(h) && code == Window(inData, upTo) && pos == Reached(inData, upTo)
                && Holds(next) && ParentsSet(symbols[..], at, {})
                && contexts == Train(old(contexts), h, level, value)
                && next == nextSymbol + Fresh(old(contexts), h, level, value)
                && Sym(h, value) in at && at[Sym(h, value)] == predicted
    {
      hide Represents, ParentsSet, ValidContexts, DecodeSymbol, Ready, BumpAt, Window, FindsAs, Reached, Patched,
          Train, Fresh, IsNew;
      ghost var cs, g := contexts, h;
      predicted, next := predicted0, nextSymbol;
      var context, symbol;
      verdict, value, context, g, symbol, low, range, code, pos, upTo, next :=
        DecodeSearch(predicted, h, low0, range0, code0, inData, inPos, from, next);
      level := Depth(g);
      if verdict.Decoded? {
        PatchStart(cs, h, level, value, nextSymbol);
        predicted, next := PatchContexts(value, predicted, h, context, g, symbol, cs, nextSymbol, next);
      }
    }

    /** One turn of the decompressor's loop; full if there is no room left for the byte. */
    method DecodeNext(predicted0: nat, order0: nat, low0: u32, range0: u32, code0: u32, inData: seq<byte>, inPos: nat,
                      ghost from: nat, outData: array<byte>, outPos: nat, nextSymbol: nat, ghost p: Model)
      returns (verdict: Verdict, full: bool, predicted: nat, order: nat,
               low: u32, range: u32, code: u32, pos: nat, ghost upTo: nat, next: nat)
      requires Models(p, predicted0, order0, nextSymbol) && ValidModel(p) && Ready(low0, range0)
      requires outPos <= outData.Length
      requires code0 == Window(inData, from) && inPos == Reached(inData, from)
      modifies symbols, `contexts, `at, outData
      ensures var step := DecodeSymbol(p.contexts, p.history, low0, range0, inData, from);
              match step
              case End => verdict == Escaped
              case Reject => verdict == NotFound
              case Beyond => verdict == BeyondInterval
              case Found(value, level, low', range', at') =>
                && verdict == Decoded && full == (outPos >= outData.Length) && level <= Depth(p.history)
                && (!full ==>
                      && outData[..outPos + 1] == old(outData[..outPos]) + [value]
                      && low == low' && range == range' && upTo == at'
                      && code == Window(inData, upTo) && pos == Reached(inData, upTo)
                      && Models(Learn(p, level, value), predicted, order, next))
      ensures !(verdict.Decoded? && !full) ==> outData[..] == old(outData[..])
    {
      hide Represents, ParentsSet, ValidContexts, DecodeSymbol, Ready, Window, Reached, Train, Fresh, Learn;
      order, full := order0, false;
      var value;
      ghost var level;
      verdict, value, level, predicted, low, range, code, pos, upTo, next :=
        DecodeByte(predicted0, p.history, low0, range0, code0, inData, inPos, from, nextSymbol);
      if verdict.Decoded? {
        if outPos >= outData.Length {
          full := true;
          return;
        }
        outData[outPos] := value;
        predicted, order, next := NextInput(predicted, order, next, p, level, value);
      }
    }

    /** enet_range_coder_decompress. Once READ has given a code beyond the interval, which no output
        of the compressor does, the model stops with `beyond`. */
    method Decompress(inData: seq<byte>, outData: array<byte>) returns (written: nat, beyond: bool)
      requires symbols.Length == MAXIMUM_SYMBOLS
      modifies symbols, `contexts, `at, outData
      ensures inData == [] ==> written == 0 && !beyond
      ensures inData != [] ==>
                match Decompressed(inData, outData.Length)
                case Done(output) => !beyond && written == |output| <= outData.Length && outData[..written] == output
                case Failed => !beyond && written == 0
                case Outside => beyond && written == 0
    {
      hide Models, Decode, Decompressed, Learn, DecodeSymbol, ValidContexts, Window, Reached, Prefixed;
      if |inData| <= 0 {
        return 0, false;
      }
      var low: u32, range: u32, predicted: nat, order: nat := 0, WORD - 1, 0, 0;
      var nextSymbol := CreateRoot();
      var code, inPos := RangeSeed(inData);
      var verdict, full, pos := Decoded, false, 0;
      ghost var p, at := FRESH, 0;
      FreshIsValid();
      DecompressedStarts(inData, outData.Length, p, low, range, at, outData[..pos]);
      while true
        invariant 0 <= pos <= outData.Length && ValidModel(p) && Ready(low, range)
        invariant Models(p, predicted, order, nextSymbol)
        invariant code == Window(inData, at) && inPos == Reached(inData, at)
        invariant Decompressed(inData, outData.Length)
               == Prefixed(outData[..pos], Decode(p, low, range, inData, at, outData.Length - pos))
        decreases outData.Length - pos
      {
        ghost var step := DecodeSymbol(p.contexts, p.history, low, range, inData, at);
        TurnUnfolds(p, low, range, inData, at, outData.Length - pos, outData[..pos]);
        verdict, full, predicted, order, low, range, code, inPos, at, nextSymbol :=
          DecodeNext(predicted, order, low, range, code, inData, inPos, at, outData, pos, nextSymbol, p);
        match verdict {
          case Escaped => break;
          case NotFound => return 0, false;
          case BeyondInterval => return 0, true;
          case Decoded =>
            if full {
              return 0, false;
            }
            pos := pos + 1;
            p := Learn(p, step.level, step.value);
        }
      }
      written, beyond := pos, false;
    }
  }

  /** What compressing has not fetched yet. */
  function Unread(inBuffers: seq<seq<byte>>, buffer: nat, inData: seq<byte>, inPos: nat): seq<byte>
    requires buffer <= |inBuffers| && inPos <= |inData|
  {
    inData[inPos..] + Concatenated(inBuffers[buffer..])
  }

  lemma CompressedStarts(inBuffers: seq<seq<byte>>, done: seq<byte>)
    requires inBuffers != [] && done == []
    ensures ValidModel(FRESH) && Ready(0, WORD - 1)
    ensures Compressed(Concatenated(inBuffers)) == done
            + Encode(FRESH, 0, WORD - 1, Unread(inBuffers, 1, inBuffers[0], 0))
  {
    hide Encode;
    FreshIsValid();
    assert inBuffers[0][0..] == inBuffers[0];
  }

  lemma NothingUnread(inBuffers: seq<seq<byte>>, buffer: nat, inData: seq<byte>, inPos: nat)
    requires buffer == |inBuffers| && inPos == |inData|
    ensures Unread(inBuffers, buffer, inData, inPos) == []
  {
  }

  lemma NextUnread(inBuffers: seq<seq<byte>>, buffer: nat, inData: seq<byte>, inPos: nat)
    requires buffer < |inBuffers| && inPos == |inData|
    ensures Unread(inBuffers, buffer, inData, inPos) == Unread(inBuffers, buffer + 1, inBuffers[buffer], 0)
  {
    assert inBuffers[buffer..][1..] == inBuffers[buffer + 1..];
  }

  lemma UnreadByte(inBuffers: seq<seq<byte>>, buffer: nat, inData: seq<byte>, inPos: nat)
    requires buffer <= |inBuffers| && inPos < |inData|
    ensures var rest := Unread(inBuffers, buffer, inData, inPos);
      rest != [] && rest[0] == inData[inPos] && rest[1..] == Unread(inBuffers, buffer, inData, inPos + 1)
  {
  }

  /** Whenever compressing succeeds, decompressing what it wrote gives the input back and stops
      there, if there is room for it. The two may use the same coder. */
  method CompressAndDecompress(coder: RangeCoder, inBuffers: seq<seq<byte>>, inLimit: nat, packed: array<byte>,
      unpacked: array<byte>)
    returns (n: nat, written: nat, beyond: bool)
    requires coder.symbols.Length == MAXIMUM_SYMBOLS
    requires forall b :: b in inBuffers ==> b != []
    requires |Concatenated(inBuffers)| <= unpacked.Length
    modifies coder, coder.symbols, packed, unpacked
    ensures n <= packed.Length
    ensures n > 0 ==> !beyond && written == |Concatenated(inBuffers)| && unpacked[..written] == Concatenated(inBuffers)
    ensures n == 0 && inBuffers != [] && inLimit > 0 ==> packed.Length < |Compressed(Concatenated(inBuffers))|
  {
    hide Compressed, Decompressed;
    if inBuffers != [] {
      assert inBuffers[0] in inBuffers && Concatenated(inBuffers)[..|inBuffers[0]|] == inBuffers[0];
      CompressedIsNotEmpty(Concatenated(inBuffers));
    }
    RoundTrip(Concatenated(inBuffers), unpacked.Length);
    n := coder.Compress(inBuffers, inLimit, packed);
    written, beyond := coder.Decompress(packed[..n], unpacked);
  }
}
