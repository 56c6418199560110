/** The packets queued reliably on a channel, laid end to end over its serials. */
module Layout {
  import opened Words
  import opened Windows
  import opened Incoming
  import opened Parcels

  /** The serial of the last command of the first m packets. */
  function EndOf(ps: seq<Parcel>, m: nat): nat
    requires m <= |ps| && AllCuttable(ps)
  {
    if m == 0 then 0 else ps[m - 1].first + Count(ps[m - 1]) - 1
  }

  predicate AllCuttable(ps: seq<Parcel>) {
    forall i :: 0 <= i < |ps| ==> Cuttable(ps[i])
  }

  predicate LaidOut(ps: seq<Parcel>) {
    && AllCuttable(ps)
    && forall i :: 0 <= i < |ps| ==> ps[i].first == EndOf(ps, i) + 1
  }

  lemma EndStep(ps: seq<Parcel>, i: nat)
    requires LaidOut(ps) && i < |ps|
    ensures Cuttable(ps[i]) && EndOf(ps, i) + 1 == ps[i].first
    ensures EndOf(ps, i + 1) == EndOf(ps, i) + Count(ps[i]) >= EndOf(ps, i) + 1
  {
    hide Count;
  }

  lemma PartsOf(ps: seq<Parcel>)
    requires LaidOut(ps)
    ensures AllCuttable(ps)
  {
    hide AllCuttable;
  }

  lemma {:induction false} EndsGrow(ps: seq<Parcel>, a: nat, b: nat)
    requires LaidOut(ps) && a <= b <= |ps|
    ensures AllCuttable(ps) && EndOf(ps, a) + (b - a) <= EndOf(ps, b)
  {
    hide Count, EndOf, AllCuttable;
    if a < b {
      EndsGrow(ps, a, b - 1);
      EndStep(ps, b - 1);
    }
  }

  /** Which packet a serial belongs to. */
  function At(ps: seq<Parcel>, n: nat): (i: nat)
    ensures ps != [] ==> i < |ps|
  {
    if |ps| <= 1 || n >= ps[|ps| - 1].first then (if ps == [] then 0 else |ps| - 1) else At(ps[..|ps| - 1], n)
  }

  predicate Within(ps: seq<Parcel>, n: nat)
    requires AllCuttable(ps)
  {
    1 <= n <= EndOf(ps, |ps|)
  }

  lemma LaidOutFront(ps: seq<Parcel>, k: nat)
    requires LaidOut(ps) && k <= |ps|
    ensures LaidOut(ps[..k])
    ensures forall m: nat :: m <= k ==> EndOf(ps[..k], m) == EndOf(ps, m)
  {
    hide Count;
    var front := ps[..k];
    forall m: nat | m <= k ensures EndOf(front, m) == EndOf(ps, m) {
    }
  }

  lemma {:induction false} AtContains(ps: seq<Parcel>, n: nat)
    requires LaidOut(ps) && Within(ps, n)
    ensures var i := At(ps, n); i < |ps| && EndOf(ps, i) < n <= EndOf(ps, i + 1)
    decreases |ps|
  {
    hide Count, LaidOut, AllCuttable;
    var last := |ps| - 1;
    EndStep(ps, last);
    if |ps| > 1 && n < ps[last].first {
      LaidOutFront(ps, last);
      PartsOf(ps[..last]);
      hide EndOf;
      AtContains(ps[..last], n);
    }
  }

  /** No other packet contains it. */
  lemma AtIsUnique(ps: seq<Parcel>, n: nat, i: nat)
    requires LaidOut(ps) && i < |ps| && EndOf(ps, i) < n <= EndOf(ps, i + 1)
    ensures Within(ps, n) && At(ps, n) == i
  {
    hide Count, EndOf, At, AllCuttable;
    PartsOf(ps);
    EndsGrow(ps, i + 1, |ps|);
    AtContains(ps, n);
    var j := At(ps, n);
    if i < j {
      EndsGrow(ps, i + 1, j);
    } else if j < i {
      EndsGrow(ps, j + 1, i);
    }
  }

  lemma FirstIsAt(ps: seq<Parcel>, i: nat)
    requires LaidOut(ps) && i < |ps|
    ensures Within(ps, ps[i].first) && At(ps, ps[i].first) == i
  {
    hide Count, EndOf, At, AllCuttable;
    EndStep(ps, i);
    AtIsUnique(ps, ps[i].first, i);
  }

  lemma LayOutEnds(ps: seq<Parcel>, p: Parcel)
    requires LaidOut(ps) && Cuttable(p)
    ensures AllCuttable(ps + [p])
    ensures forall m: nat :: m <= |ps| ==> EndOf(ps + [p], m) == EndOf(ps, m)
    ensures EndOf(ps + [p], |ps| + 1) == p.first + Count(p) - 1
  {
    hide Count;
    forall m: nat | m <= |ps| ensures EndOf(ps + [p], m) == EndOf(ps, m) {
    }
  }

  /** A new packet takes the serials right after all others and moves none. */
  lemma LayOutMore(ps: seq<Parcel>, p: Parcel)
    requires LaidOut(ps) && Cuttable(p) && p.first == EndOf(ps, |ps|) + 1
    ensures LaidOut(ps + [p])
    ensures forall m: nat :: m <= |ps| ==> EndOf(ps + [p], m) == EndOf(ps, m)
    ensures EndOf(ps + [p], |ps| + 1) == EndOf(ps, |ps|) + Count(p)
    ensures forall n: nat :: Within(ps, n) ==> Within(ps + [p], n) && At(ps + [p], n) == At(ps, n)
  {
    hide Count, At, EndOf, AllCuttable;
    LayOutEnds(ps, p);
    var qs := ps + [p];
    forall i | 0 <= i < |qs| ensures qs[i].first == EndOf(qs, i) + 1 {
      if i < |ps| {
        EndStep(ps, i);
      }
    }
    forall n: nat | Within(ps, n) ensures Within(qs, n) && At(qs, n) == At(ps, n) {
      AtContains(ps, n);
      AtIsUnique(qs, n, At(ps, n));
    }
  }

  /** Packets do not overlap. */
  lemma PacketsApart(ps: seq<Parcel>, i: nat, j: nat)
    requires LaidOut(ps) && i < |ps| && j < |ps| && i != j
    ensures AllCuttable(ps) && (ps[i].first + Count(ps[i]) <= ps[j].first || ps[j].first + Count(ps[j]) <= ps[i].first)
  {
    hide Count, EndOf, AllCuttable;
    EndStep(ps, i);
    EndStep(ps, j);
    if i < j {
      EndsGrow(ps, i + 1, j);
    } else {
      EndsGrow(ps, j + 1, i);
    }
  }
}
