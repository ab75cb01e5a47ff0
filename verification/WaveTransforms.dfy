/** How the waves answer to their input: what they conserve, and what happens when the input is
    reordered, the gap is changed, or the waves are grouped again. */
module WaveTransforms {
  import opened Text
  import opened Waves
  import opened WaveLaws

  // ----- Conservation -----

  lemma StepKeepsCount(ws: seq<WaveSpan>, p: Point, gap: int)
    ensures SumWaveCounts(Step(ws, p, gap)) == SumWaveCounts(ws) + p.count
  {
    var next := Step(ws, p, gap);
    assert next[..|next| - 1] == if StartsWave(ws, p, gap) then ws else ws[..|ws| - 1];
  }

  lemma StepKeepsKeys(ws: seq<WaveSpan>, p: Point, gap: int)
    ensures WaveKeys(Step(ws, p, gap)) == WaveKeys(ws) + [p.key]
  {
    var next := Step(ws, p, gap);
    assert next[..|next| - 1] == if StartsWave(ws, p, gap) then ws else ws[..|ws| - 1];
  }

  lemma {:induction false} SweepConserves(s: seq<Point>, gap: int)
    ensures SumWaveCounts(Sweep(s, gap)) == SumCounts(s)
    ensures WaveKeys(Sweep(s, gap)) == Keys(s)
  {
    if s != [] {
      var front, p := s[..|s| - 1], s[|s| - 1];
      SweepConserves(front, gap);
      StepKeepsCount(Sweep(front, gap), p, gap);
      StepKeepsKeys(Sweep(front, gap), p, gap);
    }
  }

  lemma {:induction false} SweepNumbers(s: seq<Point>, gap: int)
    ensures forall k :: 0 <= k < |Sweep(s, gap)| ==> Sweep(s, gap)[k].n == k + 1
  {
    if s != [] {
      SweepNumbers(s[..|s| - 1], gap);
    }
  }

  lemma {:induction false} InsertAddsCount(s: seq<Point>, p: Point)
    ensures SumCounts(Insert(s, p)) == SumCounts(s) + p.count
  {
    var r := Insert(s, p);
    if s == [] {
      assert r[..0] == [];
    } else if Before(s[|s| - 1], p) {
      assert r[..|s|] == s;
    } else {
      InsertAddsCount(s[..|s| - 1], p);
      assert r[..|s|] == Insert(s[..|s| - 1], p);
    }
  }

  lemma {:induction false} SortKeepsCounts(ps: seq<Point>)
    ensures SumCounts(Sort(ps)) == SumCounts(ps)
  {
    if ps != [] {
      SortKeepsCounts(ps[..|ps| - 1]);
      InsertAddsCount(Sort(ps[..|ps| - 1]), ps[|ps| - 1]);
    }
  }

  /** Waves are numbered from 1, lose no count and no key, list the keys in sorted order, and lie
      more than the gap apart. This holds for every gap. */
  lemma WavesConserve(ps: seq<Point>, gap: int)
    ensures forall k :: 0 <= k < |WavesOf(ps, gap)| ==> WavesOf(ps, gap)[k].n == k + 1
    ensures SumWaveCounts(WavesOf(ps, gap)) == SumCounts(ps)
    ensures WaveKeys(WavesOf(ps, gap)) == Keys(Sort(ps))
    ensures forall k :: 0 < k < |WavesOf(ps, gap)| ==>
      WavesOf(ps, gap)[k].start - WavesOf(ps, gap)[k - 1].end > gap
  {
    SweepConserves(Sort(ps), gap);
    SweepNumbers(Sort(ps), gap);
    SortKeepsCounts(ps);
    NeighboursAreApart(Sort(ps), gap);
  }

  /** The keys of all waves, one after the other, are those of the points in order of (start, key). */
  lemma KeysInOrder(ps: seq<Point>, gap: int) returns (s: seq<Point>)
    ensures InOrder(ps, s) && |WaveKeys(WavesOf(ps, gap))| == |s|
    ensures forall i :: 0 <= i < |s| ==> WaveKeys(WavesOf(ps, gap))[i] == s[i].key
  {
    s := Sort(ps);
    SortInOrder(ps);
    WavesConserve(ps, gap);
    KeysAt(s);
  }

  /** The points inside a wave, in order. */
  ghost function Members(s: seq<Point>, w: WaveSpan): seq<Point> {
    if s == [] then []
    else
      var p := s[|s| - 1];
      Members(s[..|s| - 1], w) + (if Inside(p, w) then [p] else [])
  }

  /** All of these points are inside the wave, or none is. */
  ghost predicate AllOrNone(g: seq<Point>, w: WaveSpan, all: bool) {
    forall p :: p in g ==> (Inside(p, w) <==> all)
  }

  lemma {:induction false} MembersAppend(a: seq<Point>, b: seq<Point>, w: WaveSpan, all: bool)
    requires AllOrNone(b, w, all)
    ensures Members(a + b, w) == Members(a, w) + (if all then b else [])
  {
    if b == [] {
      assert a + b == a;
    } else {
      var front, p := b[..|b| - 1], b[|b| - 1];
      assert p in b;
      assert (a + b)[..|a + b| - 1] == a + front && (a + b)[|a + b| - 1] == p;
      MembersAppend(a, front, w, all);
    }
  }

  lemma {:induction false} MembersOfGroups(gs: seq<seq<Point>>, w: WaveSpan, k: nat)
    requires forall j :: 0 <= j < |gs| ==> AllOrNone(gs[j], w, j == k)
    ensures Members(Flatten(gs), w) == if k < |gs| then gs[k] else []
  {
    if gs != [] {
      MembersOfGroups(gs[..|gs| - 1], w, k);
      MembersAppend(Flatten(gs[..|gs| - 1]), gs[|gs| - 1], w, k == |gs| - 1);
    }
  }

  /** No group but its own has points inside a wave. */
  lemma GroupInWave(s: seq<Point>, gap: int, j: nat, k: nat)
    requires gap >= 0 && Sorted(s) && j < |Groups(s, gap)| && k < |Sweep(s, gap)|
    ensures AllOrNone(Groups(s, gap)[j], Sweep(s, gap)[k], j == k)
  {
    GroupBounds(s, gap, j);
    WavesAreApart(s, gap);
  }

  /** A wave says of the points inside it: the smallest start, the largest effective end, the sum of
      their counts, and their keys in sorted order. */
  lemma WaveContents(ps: seq<Point>, gap: int, k: nat)
    requires gap >= 0 && k < |WavesOf(ps, gap)|
    ensures var w, m := WavesOf(ps, gap)[k], Members(Sort(ps), WavesOf(ps, gap)[k]);
      && w.count == SumCounts(m) && w.keys == Keys(m)
      && (exists p :: p in m && p.start == w.start) && (forall p :: p in m ==> w.start <= p.start)
      && (exists p :: p in m && p.EffectiveEnd() == w.end) && (forall p :: p in m ==> p.EffectiveEnd() <= w.end)
  {
    var s := Sort(ps);
    SortSorts(ps);
    SweepInStep(s, gap);
    SweepSummarisesGroups(s, gap, k);
    var gs := Groups(s, gap);
    forall j | 0 <= j < |gs| ensures AllOrNone(gs[j], Sweep(s, gap)[k], j == k) {
      GroupInWave(s, gap, j, k);
    }
    GroupsFlatten(s, gap);
    MembersOfGroups(gs, Sweep(s, gap)[k], k);
    GroupBounds(s, gap, k);
  }

  // ----- Order independence -----

  /** Two tied points that begin a wave. */
  lemma TwoBegin(ws: seq<WaveSpan>, p: Point, q: Point, gap: int)
    requires gap >= 0 && Tied(p, q) && StartsWave(ws, p, gap)
    ensures Step(Step(ws, p, gap), q, gap) ==
      ws + [WaveSpan(|ws| + 1, p.start, Max(p.EffectiveEnd(), q.EffectiveEnd()), p.count + q.count, [p.key, p.key])]
  {
    StepOnOpen(ws, WaveSpan(|ws| + 1, p.start, p.EffectiveEnd(), p.count, [p.key]), q, gap);
    assert [p.key] + [q.key] == [p.key, p.key];
  }

  /** Two tied points that go into the last wave. */
  lemma TwoJoin(closed: seq<WaveSpan>, w: WaveSpan, p: Point, q: Point, gap: int)
    requires Tied(p, q) && p.start - w.end <= gap
    ensures Step(Step(closed + [w], p, gap), q, gap) ==
      closed + [WaveSpan(w.n, w.start, Max(Max(w.end, p.EffectiveEnd()), q.EffectiveEnd()),
                         w.count + p.count + q.count, w.keys + [p.key] + [p.key])]
  {
    StepOnOpen(closed, w, p, gap);
    var grown := WaveSpan(w.n, w.start, Max(w.end, p.EffectiveEnd()), w.count + p.count, w.keys + [p.key]);
    StepOnOpen(closed, grown, q, gap);
  }

  /** Two points that tie on (start, key) may be swept in either order. */
  lemma TiesCommute(ws: seq<WaveSpan>, p: Point, q: Point, gap: int)
    requires gap >= 0 && Tied(p, q)
    ensures Step(Step(ws, p, gap), q, gap) == Step(Step(ws, q, gap), p, gap)
  {
    if StartsWave(ws, p, gap) {
      TwoBegin(ws, p, q, gap);
      TwoBegin(ws, q, p, gap);
    } else {
      var closed, w := ws[..|ws| - 1], ws[|ws| - 1];
      assert ws == closed + [w];
      TwoJoin(closed, w, p, q, gap);
      TwoJoin(closed, w, q, p, gap);
    }
  }

  /** Two sorted arrangements of the same points agree on the sort key of their last point. */
  lemma LastsTie(s: seq<Point>, t: seq<Point>)
    requires s != [] && Sorted(s) && Sorted(t) && multiset(s) == multiset(t)
    ensures |s| == |t| && Tied(s[|s| - 1], t[|t| - 1])
  {
    SameMembers(s, t);
    assert |s| == |multiset(s)| == |multiset(t)| == |t|;
    var p, q := s[|s| - 1], t[|t| - 1];
    assert p in t && q in s;
    BeforeOrder(p, p, p);
    BeforeOrder(q, q, q);
    BeforeOrder(p, q, p);
  }

  lemma SortedWithout(s: seq<Point>, i: nat)
    requires Sorted(s) && i < |s|
    ensures Sorted(s[..i] + s[i + 1..])
  {
    var r := s[..i] + s[i + 1..];
    assert forall j :: 0 <= j < |r| ==> r[j] == s[if j < i then j else j + 1];
  }

  lemma MultisetWithout(s: seq<Point>, i: nat)
    requires i < |s|
    ensures multiset(s[..i] + s[i + 1..]) == multiset(s) - multiset{s[i]}
  {
    assert s == s[..i] + [s[i]] + s[i + 1..];
  }

  lemma TakeOut(s: seq<Point>, p: Point) returns (r: seq<Point>)
    requires Sorted(s) && p in s
    ensures Sorted(r) && multiset(r) == multiset(s) - multiset{p} && |r| == |s| - 1
  {
    var i :| 0 <= i < |s| && s[i] == p;
    r := s[..i] + s[i + 1..];
    SortedWithout(s, i);
    MultisetWithout(s, i);
  }

  lemma SortedAppend(r: seq<Point>, p: Point)
    requires Sorted(r) && forall q :: q in r ==> Before(q, p)
    ensures Sorted(r + [p])
  {
  }

  lemma SweepSnoc(s: seq<Point>, p: Point, gap: int)
    ensures Sweep(s + [p], gap) == Step(Sweep(s, gap), p, gap)
  {
    assert (s + [p])[..|s|] == s;
  }

  ghost predicate Rearranged(s: seq<Point>, t: seq<Point>) {
    Sorted(s) && Sorted(t) && multiset(s) == multiset(t)
  }

  lemma WithoutLast(s: seq<Point>)
    requires s != []
    ensures multiset(s[..|s| - 1]) == multiset(s) - multiset{s[|s| - 1]}
  {
    assert s == s[..|s| - 1] + [s[|s| - 1]];
  }

  lemma FrontSorted(s: seq<Point>)
    requires s != [] && Sorted(s)
    ensures Sorted(s[..|s| - 1])
  {
  }

  lemma EqualLasts(s: seq<Point>, t: seq<Point>)
    requires Rearranged(s, t) && |s| == |t| > 0 && s[|s| - 1] == t[|t| - 1]
    ensures Rearranged(s[..|s| - 1], t[..|t| - 1])
  {
    WithoutLast(s);
    WithoutLast(t);
    FrontSorted(s);
    FrontSorted(t);
  }

  /** What is left of two arrangements with different last points when both points are taken out. */
  lemma DifferentLasts(s: seq<Point>, t: seq<Point>) returns (u: seq<Point>)
    requires Rearranged(s, t) && |s| == |t| > 0 && s[|s| - 1] != t[|t| - 1]
    requires Tied(s[|s| - 1], t[|t| - 1])
    ensures |u| == |s| - 2
    ensures Rearranged(s[..|s| - 1], u + [t[|t| - 1]])
    ensures Rearranged(t[..|t| - 1], u + [s[|s| - 1]])
  {
    var s1, p, t1, q := s[..|s| - 1], s[|s| - 1], t[..|t| - 1], t[|t| - 1];
    FrontSorted(s);
    u := TakeOutOther(s, t, s1, p, t1, q);
    forall x | x in u ensures Before(x, p) && Before(x, q) {
      assert x in multiset(u) && x in multiset(s1) && x in s1;
      var i :| 0 <= i < |s1| && s1[i] == x;
      assert Before(s[i], s[|s| - 1]);
      BeforeOrder(x, p, q);
      BeforeOrder(q, p, q);
    }
    SortedAppend(u, p);
    SortedAppend(u, q);
    FrontSorted(t);
  }

  lemma BagSnoc(s: seq<Point>, p: Point)
    ensures multiset(s + [p]) == multiset(s) + multiset{p}
  {
  }

  lemma BagSwap(a: multiset<Point>, b: multiset<Point>, p: Point, q: Point)
    requires a + multiset{p} == b + multiset{q} && p != q
    ensures q in a && a - multiset{q} + multiset{q} == a && a - multiset{q} + multiset{p} == b
  {
    assert (a + multiset{p})[q] == (b + multiset{q})[q] > 0;
    assert b == b + multiset{q} - multiset{q} == a + multiset{p} - multiset{q};
  }

  lemma TakeOutOther(s: seq<Point>, t: seq<Point>, s1: seq<Point>, p: Point, t1: seq<Point>, q: Point)
    returns (u: seq<Point>)
    requires s == s1 + [p] && t == t1 + [q] && p != q && multiset(s) == multiset(t) && Sorted(s1)
    ensures Sorted(u) && |u| == |s1| - 1 && multiset(u) == multiset(s1) - multiset{q}
    ensures multiset(u + [q]) == multiset(s1) && multiset(u + [p]) == multiset(t1)
  {
    BagSnoc(s1, p);
    BagSnoc(t1, q);
    BagSwap(multiset(s1), multiset(t1), p, q);
    u := TakeOut(s1, q);
    BagSnoc(u, q);
    BagSnoc(u, p);
  }

  lemma {:induction false} SweepPermutes(s: seq<Point>, t: seq<Point>, gap: int)
    requires gap >= 0 && Rearranged(s, t)
    ensures Sweep(s, gap) == Sweep(t, gap)
    decreases |s|
  {
    if s == [] {
      SameMembers(s, t);
      assert t == [];
    } else {
      LastsTie(s, t);
      var s1, p, t1, q := s[..|s| - 1], s[|s| - 1], t[..|t| - 1], t[|t| - 1];
      assert Sweep(s, gap) == Step(Sweep(s1, gap), p, gap);
      assert Sweep(t, gap) == Step(Sweep(t1, gap), q, gap);
      if p == q {
        EqualLasts(s, t);
        SweepPermutes(s1, t1, gap);
      } else {
        var u := DifferentLasts(s, t);
        SweepPermutes(s1, u + [q], gap);
        SweepPermutes(t1, u + [p], gap);
        SweepSnoc(u, q, gap);
        SweepSnoc(u, p, gap);
        TiesCommute(Sweep(u, gap), q, p, gap);
      }
    }
  }

  lemma WavesIgnoreOrder(ps: seq<Point>, qs: seq<Point>, gap: int)
    requires gap >= 0 && multiset(ps) == multiset(qs)
    ensures WavesOf(ps, gap) == WavesOf(qs, gap)
  {
    SortSorts(ps);
    SortSorts(qs);
    SweepPermutes(Sort(ps), Sort(qs), gap);
  }

  lemma SwapPair(p: Point, q: Point)
    ensures multiset([p, q]) == multiset([q, p])
  {
  }

  /** With a gap below zero a long and a short point with one sort key show the input order. */
  lemma NegativeGapShowsOrder(gap: int) returns (ps: seq<Point>, qs: seq<Point>)
    requires gap < 0
    ensures multiset(ps) == multiset(qs) && WavesOf(ps, gap) != WavesOf(qs, gap)
  {
    var long: Point := Point("", 0, Some(-gap), 1);
    var short: Point := Point("", 0, None, 1);
    ps, qs := [long, short], [short, long];
    SwapPair(long, short);
    TwoPoints(long, short, gap);
    TwoPoints(short, long, gap);
    assert |WavesOf(ps, gap)| == 1 && |WavesOf(qs, gap)| == 2;
  }

  ghost predicate OrderIndependent(gap: int) {
    forall ps: seq<Point>, qs: seq<Point> ::
      multiset(ps) == multiset(qs) ==> WavesOf(ps, gap) == WavesOf(qs, gap)
  }

  /** Main result: the grouping ignores the order of its input exactly when the gap is at least zero. */
  lemma OrderIndependentExactly(gap: int)
    ensures OrderIndependent(gap) <==> gap >= 0
  {
    if gap >= 0 {
      forall ps: seq<Point>, qs: seq<Point> | multiset(ps) == multiset(qs)
        ensures WavesOf(ps, gap) == WavesOf(qs, gap)
      {
        WavesIgnoreOrder(ps, qs, gap);
      }
    } else {
      var ps, qs := NegativeGapShowsOrder(gap);
    }
  }

  /** Two points with one sort key are swept in input order. */
  lemma TwoPoints(p: Point, q: Point, gap: int)
    requires Tied(p, q)
    ensures |WavesOf([p, q], gap)| == if q.start - p.EffectiveEnd() > gap then 2 else 1
  {
    BeforeOrder(p, q, p);
    StrLeTotal(p.key, q.key);
    SortOfSorted([p, q]);
    assert [p, q][..1] == [p] && [p][..0] == [];
    assert Sweep([p], gap) == Step([], p, gap);
  }

  // ----- A larger gap -----

  /** Each coarse part is a run of consecutive fine parts. */
  ghost predicate Coarsens<T>(fine: seq<seq<T>>, coarse: seq<seq<T>>) {
    if coarse == [] then fine == []
    else exists k :: 0 <= k < |fine| && EndsWith(fine, coarse, k) && Coarsens(fine[..k], coarse[..|coarse| - 1])
  }

  ghost predicate EndsWith<T>(fine: seq<seq<T>>, coarse: seq<seq<T>>, k: nat)
    requires k < |fine| && coarse != []
  {
    coarse[|coarse| - 1] == Flatten(fine[k..])
  }

  lemma CoarsensStep<T>(fine: seq<seq<T>>, coarse: seq<seq<T>>, k: nat)
    requires k < |fine| && coarse != [] && EndsWith(fine, coarse, k)
    requires Coarsens(fine[..k], coarse[..|coarse| - 1])
    ensures Coarsens(fine, coarse)
  {
  }

  /** The end of a run of groups is at least the end of its last group. */
  lemma RunEndsLast(fine: seq<seq<Point>>, last: seq<Point>)
    requires fine != [] && fine[|fine| - 1] != [] && last == Flatten(fine)
    ensures last != [] && MaxEnd(fine[|fine| - 1]) <= MaxEnd(last)
  {
    var g := fine[|fine| - 1];
    MaxEndIsMax(g);
    var m :| m in g && m.EffectiveEnd() == MaxEnd(g);
    assert m in last;
    MaxEndIsMax(last);
  }

  lemma {:induction false} GroupsCoarsen(s: seq<Point>, small: int, large: int)
    requires small <= large
    ensures Coarsens(Groups(s, small), Groups(s, large))
  {
    if s != [] {
      var front, p := s[..|s| - 1], s[|s| - 1];
      GroupsCoarsen(front, small, large);
      var fine, coarse := Groups(front, small), Groups(front, large);
      if coarse == [] {
        CoarsenNewPart(fine, coarse, p);
      } else {
        CoarsenOnePoint(fine, coarse, p, small, large);
      }
    }
  }

  /** The larger gap starts a part only where the smaller one does. */
  lemma CoarsenOnePoint(fine: seq<seq<Point>>, coarse: seq<seq<Point>>, p: Point, small: int, large: int)
    requires Coarsens(fine, coarse) && coarse != [] && small <= large
    requires forall k :: 0 <= k < |fine| ==> fine[k] != []
    ensures fine != [] && coarse[|coarse| - 1] != []
    ensures Coarsens(AddPoint(fine, p, p.start - MaxEnd(fine[|fine| - 1]) > small),
                     AddPoint(coarse, p, p.start - MaxEnd(coarse[|coarse| - 1]) > large))
  {
    var k :| 0 <= k < |fine| && EndsWith(fine, coarse, k) && Coarsens(fine[..k], coarse[..|coarse| - 1]);
    RunEndsLast(fine[k..], coarse[|coarse| - 1]);
    if p.start - MaxEnd(coarse[|coarse| - 1]) > large {
      CoarsenNewPart(fine, coarse, p);
    } else {
      CoarsenGrow(fine, coarse, k, p, p.start - MaxEnd(fine[|fine| - 1]) > small);
    }
  }

  lemma CoarsenNewPart(fine: seq<seq<Point>>, coarse: seq<seq<Point>>, p: Point)
    requires Coarsens(fine, coarse)
    ensures Coarsens(fine + [[p]], coarse + [[p]])
  {
    var fine', coarse' := fine + [[p]], coarse + [[p]];
    assert fine'[..|fine|] == fine && coarse'[..|coarse|] == coarse && fine'[|fine|..] == [] + [[p]];
    FlattenAppend([], [p]);
    assert [] + [p] == [p];
    CoarsensStep(fine', coarse', |fine|);
  }

  lemma CoarsenGrow(fine: seq<seq<Point>>, coarse: seq<seq<Point>>, k: nat, p: Point, starts: bool)
    requires coarse != [] && k < |fine| && EndsWith(fine, coarse, k)
    requires Coarsens(fine[..k], coarse[..|coarse| - 1])
    ensures Coarsens(AddPoint(fine, p, starts), AddPoint(coarse, p, false))
  {
    var fine', coarse' := AddPoint(fine, p, starts), AddPoint(coarse, p, false);
    RunGrows(fine[k..], p, starts);
    assert fine'[k..] == AddPoint(fine[k..], p, starts);
    assert fine'[..k] == fine[..k] && coarse'[..|coarse'| - 1] == coarse[..|coarse| - 1];
    CoarsensStep(fine', coarse', k);
  }

  lemma {:induction false} CoarseIsShorter<T>(fine: seq<seq<T>>, coarse: seq<seq<T>>)
    requires Coarsens(fine, coarse)
    ensures |coarse| <= |fine|
    decreases |coarse|
  {
    if coarse != [] {
      var k :| 0 <= k < |fine| && EndsWith(fine, coarse, k) && Coarsens(fine[..k], coarse[..|coarse| - 1]);
      CoarseIsShorter(fine[..k], coarse[..|coarse| - 1]);
    }
  }

  lemma LastPartHolds<T>(fine: seq<seq<T>>, coarse: seq<seq<T>>, k: nat, i: nat, x: T)
    requires k <= i < |fine| && coarse != [] && EndsWith(fine, coarse, k) && x in fine[i]
    ensures x in coarse[|coarse| - 1]
  {
    assert fine[k..][i - k] == fine[i];
    InFlatten(fine[k..], x);
  }

  lemma {:induction false} CoarsePartOf<T>(fine: seq<seq<T>>, coarse: seq<seq<T>>, i: nat) returns (m: nat)
    requires Coarsens(fine, coarse) && i < |fine|
    ensures m < |coarse| && forall x :: x in fine[i] ==> x in coarse[m]
    decreases |coarse|
  {
    var k :| 0 <= k < |fine| && EndsWith(fine, coarse, k) && Coarsens(fine[..k], coarse[..|coarse| - 1]);
    if i < k {
      m := CoarsePartOf(fine[..k], coarse[..|coarse| - 1], i);
    } else {
      m := |coarse| - 1;
      forall x | x in fine[i] ensures x in coarse[m] {
        LastPartHolds(fine, coarse, k, i, x);
      }
    }
  }

  ghost predicate WithinOne(w: WaveSpan, ws: seq<WaveSpan>) {
    exists m :: 0 <= m < |ws| && ws[m].start <= w.start && w.end <= ws[m].end
  }

  lemma PartWithin(s: seq<Point>, small: int, large: int, i: nat)
    requires Sorted(s) && small <= large && i < |Groups(s, small)|
    ensures |Groups(s, large)| <= |Groups(s, small)|
    ensures i < |Sweep(s, small)| && WithinOne(Sweep(s, small)[i], Sweep(s, large))
  {
    GroupsCoarsen(s, small, large);
    CoarseIsShorter(Groups(s, small), Groups(s, large));
    var m := CoarsePartOf(Groups(s, small), Groups(s, large), i);
    GroupBounds(s, small, i);
    GroupBounds(s, large, m);
    assert Sweep(s, large)[m].start <= Sweep(s, small)[i].start;
  }

  /** Main result: every wave for the smaller gap lies inside one wave for the larger gap, so the
      number of waves does not grow. */
  lemma LargerGapCoarsens(ps: seq<Point>, small: int, large: int)
    requires small <= large
    ensures |WavesOf(ps, large)| <= |WavesOf(ps, small)|
    ensures forall i :: 0 <= i < |WavesOf(ps, small)| ==> WithinOne(WavesOf(ps, small)[i], WavesOf(ps, large))
  {
    var s := Sort(ps);
    SortSorts(ps);
    SweepInStep(s, small);
    SweepInStep(s, large);
    forall i | 0 <= i < |Sweep(s, small)| ensures WithinOne(Sweep(s, small)[i], Sweep(s, large)) {
      PartWithin(s, small, large, i);
    }
    if s != [] {
      PartWithin(s, small, large, 0);
    }
  }

  // ----- Grouping the waves again -----

  /** Each wave taken as one point, under any key. */
  ghost predicate AsPoints(ws: seq<WaveSpan>, ps: seq<Point>) {
    |ps| == |ws| && forall k :: 0 <= k < |ws| ==>
      ps[k].start == ws[k].start && ps[k].end == Some(ws[k].end) && ps[k].count == ws[k].count
  }

  lemma {:induction false} SweepApart(ws: seq<WaveSpan>, ps: seq<Point>, gap: int)
    requires AsPoints(ws, ps)
    requires forall k :: 0 <= k < |ws| ==> ws[k].start <= ws[k].end
    requires forall k :: 0 < k < |ws| ==> ws[k].start - ws[k - 1].end > gap
    ensures |Sweep(ps, gap)| == |ws|
    ensures forall k :: 0 <= k < |ws| ==>
      Sweep(ps, gap)[k] == WaveSpan(k + 1, ws[k].start, ws[k].end, ws[k].count, [ps[k].key])
  {
    if ps != [] {
      SweepApart(ws[..|ws| - 1], ps[..|ps| - 1], gap);
    }
  }

  lemma StartsSorted(ps: seq<Point>)
    requires forall i, j :: 0 <= i < j < |ps| ==> ps[i].start < ps[j].start
    ensures Sorted(ps)
  {
  }

  lemma RegroupInOrder(s: seq<Point>, gap: int, again: seq<Point>)
    requires gap >= 0 && AsPoints(Sweep(s, gap), again)
    ensures Sorted(again) && AsPoints(Sweep(again, gap), again)
  {
    NeighboursAreApart(s, gap);
    WavesAreApart(s, gap);
    StartsBeforeEnds(s, gap);
    StartsSorted(again);
    SweepApart(Sweep(s, gap), again, gap);
  }

  /** Main result: grouping the waves again, in any order, returns their starts, ends and counts. */
  lemma RegroupIsIdentity(ps: seq<Point>, gap: int, again: seq<Point>, shuffled: seq<Point>)
    requires gap >= 0 && AsPoints(WavesOf(ps, gap), again) && multiset(shuffled) == multiset(again)
    ensures AsPoints(WavesOf(shuffled, gap), again)
  {
    RegroupInOrder(Sort(ps), gap, again);
    SortSorts(shuffled);
    SweepPermutes(Sort(shuffled), again, gap);
  }
}
