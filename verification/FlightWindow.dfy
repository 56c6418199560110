/** The sender's window rule (src/enet/protocol.c:1410-1416) and the flight bound it keeps. */
module FlightWindow {
  import opened Words
  import opened Windows
  import opened Outgoing

  /** The test made before the first command of a window is sent for the first time. */
  predicate Blocked(windows: seq<nat>, w: nat)
    requires |windows| == RELIABLE_WINDOWS && w < RELIABLE_WINDOWS
  {
    || windows[(w + RELIABLE_WINDOWS - 1) % RELIABLE_WINDOWS] >= RELIABLE_WINDOW_SIZE
    || exists k: nat :: k < RELIABLE_WINDOWS && Near(w, k) && windows[k] > 0
  }

  lemma NinthIsNear(w: nat, k: nat)
    requires w < 16 && k == (w + 9) % 16
    ensures Near(w, k)
  {
  }

  lemma InWindowGrows(flight: multiset<nat>, n: nat, w: nat)
    requires n !in flight
    ensures InWindow(flight + multiset{n}, w) == InWindow(flight, w)
            + if WindowOf(n) % RELIABLE_WINDOWS == w then {n} else {}
    ensures |InWindow(flight + multiset{n}, w)| == |InWindow(flight, w)|
            + if WindowOf(n) % RELIABLE_WINDOWS == w then 1 else 0
  {
    assert n !in InWindow(flight, w);
    assert InWindow(flight + multiset{n}, w) == InWindow(flight, w)
            + if WindowOf(n) % RELIABLE_WINDOWS == w then {n} else {};
  }

  lemma InWindowShrinks(flight: multiset<nat>, n: nat, w: nat)
    requires flight[n] == 1
    ensures |InWindow(flight, w)| == |InWindow(flight - multiset{n}, w)|
            + if WindowOf(n) % RELIABLE_WINDOWS == w then 1 else 0
  {
    var rest := flight - multiset{n};
    assert n !in rest;
    assert flight == rest + multiset{n};
    InWindowGrows(rest, n, w);
  }

  lemma {:induction false} Interval(from: nat, count: nat, s: set<nat>)
    requires forall n :: from <= n < from + count ==> n in s
    ensures |s| >= count
    decreases count
  {
    if count > 0 {
      Interval(from, count - 1, s - {from + count - 1});
    }
  }

  /** A window with fewer than 4096 commands in flight has a number that is not in flight. */
  lemma CountShowsGap(flight: multiset<nat>, w: nat)
    requires |InWindow(flight, w % RELIABLE_WINDOWS)| < RELIABLE_WINDOW_SIZE
    ensures WindowHasGap(flight, w)
  {
    var from := w * RELIABLE_WINDOW_SIZE;
    if forall n :: from <= n < from + RELIABLE_WINDOW_SIZE ==> n in flight {
      forall n | from <= n < from + RELIABLE_WINDOW_SIZE ensures n in InWindow(flight, w % RELIABLE_WINDOWS) {
        assert WindowOf(n) == w;
      }
      Interval(from, RELIABLE_WINDOW_SIZE, InWindow(flight, w % RELIABLE_WINDOWS));
    } else {
      var n :| from <= n < from + RELIABLE_WINDOW_SIZE && n !in flight;
      assert WindowOf(n) == w;
    }
  }

  lemma GapsStay(flight: multiset<nat>, n: nat)
    requires forall w: nat :: 1 <= w < WindowOf(n) ==> WindowHasGap(flight, w)
    ensures forall w: nat :: 1 <= w < WindowOf(n) ==> WindowHasGap(flight + multiset{n}, w)
  {
    forall w: nat | 1 <= w < WindowOf(n) ensures WindowHasGap(flight + multiset{n}, w) {
      assert WindowHasGap(flight, w);
      var g: nat :| g !in flight && WindowOf(g) == w;
      assert g !in flight + multiset{n};
    }
  }

  /** A command seven windows behind the next one blocks it: its window is sixteen minus seven
      ahead. */
  lemma SeventhBehindBlocks(windows: seq<nat>, flight: multiset<nat>, n: nat, next: nat)
    requires |windows| == RELIABLE_WINDOWS && n in flight && next == WindowOf(n) + 7
    requires windows[WindowOf(n) % RELIABLE_WINDOWS] == |InWindow(flight, WindowOf(n) % RELIABLE_WINDOWS)|
    ensures Blocked(windows, next % RELIABLE_WINDOWS)
  {
    hide Near, WindowOf;
    var k := WindowOf(n) % RELIABLE_WINDOWS;
    var w: nat := next % RELIABLE_WINDOWS;
    assert k == (w + 9) % 16;
    NinthIsNear(w, k);
    assert n in InWindow(flight, k);
  }

  lemma WindowBefore(next: nat)
    requires next >= 1
    ensures (next % RELIABLE_WINDOWS + RELIABLE_WINDOWS - 1) % RELIABLE_WINDOWS == (next - 1) % RELIABLE_WINDOWS
  {
  }

  /** Entering a new window past the test: nothing is in flight seven windows behind it, and the
      window just left has had an acknowledgement. */
  lemma EnterWindow(launched: nat, windows: seq<nat>, flight: multiset<nat>)
    requires FlightBound(launched, windows, flight)
    requires (launched + 1) % RELIABLE_WINDOW_SIZE == 0
    requires !Blocked(windows, WindowOf(launched + 1) % RELIABLE_WINDOWS)
    ensures forall n :: n in flight ==> WindowOf(launched + 1) <= WindowOf(n) + 6
    ensures forall w: nat :: 1 <= w < WindowOf(launched + 1) ==> WindowHasGap(flight, w)
  {
    hide WindowOf, InWindow, WindowHasGap;
    var next := WindowOf(launched + 1);
    WindowSteps(launched);
    forall n | n in flight ensures next <= WindowOf(n) + 6 {
      if WindowOf(n) + 7 == next {
        var k: nat := WindowOf(n) % RELIABLE_WINDOWS;
        assert windows[k] == |InWindow(flight, k)|;
        SeventhBehindBlocks(windows, flight, n, next);
      }
    }
    WindowBefore(next);
    CountShowsGap(flight, next - 1);
  }

  /** Sending the next number for the first time keeps the flight bound. */
  lemma LaunchKeepsBound(launched: nat, windows: seq<nat>, flight: multiset<nat>)
    requires FlightBound(launched, windows, flight)
    requires (launched + 1) % RELIABLE_WINDOW_SIZE == 0 ==> !Blocked(windows, WindowOf(launched + 1) % RELIABLE_WINDOWS)
    ensures var w := WindowOf(launched + 1) % RELIABLE_WINDOWS;
            FlightBound(launched + 1, windows[w := windows[w] + 1], flight + multiset{launched + 1})
  {
    hide Blocked, InWindow, WindowHasGap, WindowOf;
    var n := launched + 1;
    assert n !in flight;
    forall w: nat
      ensures |InWindow(flight + multiset{n}, w)| == |InWindow(flight, w)|
            + if WindowOf(n) % RELIABLE_WINDOWS == w then 1 else 0
    {
      InWindowGrows(flight, n, w);
    }
    WindowSteps(launched);
    if n % RELIABLE_WINDOW_SIZE == 0 {
      EnterWindow(launched, windows, flight);
    }
    GapsStay(flight, n);
  }

  lemma WindowSteps(n: nat)
    ensures WindowOf(n + 1) == WindowOf(n) + if (n + 1) % RELIABLE_WINDOW_SIZE == 0 then 1 else 0
  {
  }

  /** So does taking an acknowledged command out of flight. */
  lemma SettleKeepsBound(launched: nat, windows: seq<nat>, flight: multiset<nat>, n: nat)
    requires FlightBound(launched, windows, flight) && n in flight
    ensures var w := WindowOf(n) % RELIABLE_WINDOWS;
            && windows[w] > 0
            && FlightBound(launched, windows[w := windows[w] - 1], flight - multiset{n})
  {
    hide InWindow, WindowOf;
    forall w: nat
      ensures |InWindow(flight, w)| == |InWindow(flight - multiset{n}, w)|
            + if WindowOf(n) % RELIABLE_WINDOWS == w then 1 else 0
    {
      InWindowShrinks(flight, n, w);
    }
    var rest := flight - multiset{n};
    forall w: nat | 1 <= w < WindowOf(launched) ensures WindowHasGap(rest, w) {
      assert WindowHasGap(flight, w);
      var g: nat :| g !in flight && WindowOf(g) == w;
      assert g !in rest;
    }
  }

  /** Numbers in flight are told apart by their 16-bit form. */
  lemma FlightIsDistinct(launched: nat, windows: seq<nat>, flight: multiset<nat>, a: nat, b: nat)
    requires FlightBound(launched, windows, flight) && a in flight && b in flight && Wire(a) == Wire(b)
    ensures a == b
  {
    WireIsInjective(a, b);
  }

  lemma {:induction false} AtMost(from: nat, count: nat, s: set<nat>)
    requires forall n :: n in s ==> from <= n < from + count
    ensures |s| <= count
    decreases count
  {
    if count == 0 {
      assert s == {};
    } else {
      AtMost(from, count - 1, s - {from + count - 1});
    }
  }

  lemma SameWindow(a: nat, b: nat, w: nat)
    requires WindowOf(a) % RELIABLE_WINDOWS == w && WindowOf(b) % RELIABLE_WINDOWS == w
    requires WindowOf(a) <= WindowOf(b) + 6 && WindowOf(b) <= WindowOf(a) + 6
    ensures WindowOf(a) == WindowOf(b)
  {
  }

  /** No counter exceeds the size of a window, so the 16-bit counters never wrap. */
  lemma CountFits(launched: nat, windows: seq<nat>, flight: multiset<nat>, w: nat)
    requires FlightBound(launched, windows, flight) && w < RELIABLE_WINDOWS
    ensures windows[w] <= RELIABLE_WINDOW_SIZE
  {
    hide WindowHasGap;
    var s := InWindow(flight, w);
    if a :| a in s {
      var from := WindowOf(a) * RELIABLE_WINDOW_SIZE;
      forall n | n in s ensures from <= n < from + RELIABLE_WINDOW_SIZE {
        WindowsMonotone(a, launched);
        WindowsMonotone(n, launched);
        SameWindow(a, n, w);
      }
      AtMost(from, RELIABLE_WINDOW_SIZE, s);
    }
  }
}
