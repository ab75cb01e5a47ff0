/** Grouping timed points into waves: the sweep of soc_ai/event_time.py, its meaning as connected
    components, and how it behaves under a change of order, of gap, and when run on its own output.

    Instants and gaps are whole microseconds, the resolution of the program's times. */
module Waves {
  import opened Text

  /** One timed thing to group. `end` may lie before `start`, and `count` may be any number. */
  datatype Point = Point(key: string, start: int, end: Option<int>, count: int)
  {
    function EffectiveEnd(): (e: int)
      ensures start <= e && (end.Some? ==> end.value <= e) && (e == start || Some(e) == end)
    {
      if end.Some? then Max(start, end.value) else start
    }
  }

  datatype WaveSpan = WaveSpan(n: nat, start: int, end: int, count: int, keys: seq<string>)

  function Max(a: int, b: int): int {
    if a < b then b else a
  }

  // ----- Sorting by (start, key) -----

  predicate Before(p: Point, q: Point) {
    p.start < q.start || (p.start == q.start && StrLe(p.key, q.key))
  }

  predicate Tied(p: Point, q: Point) {
    p.start == q.start && p.key == q.key
  }

  ghost predicate Sorted(s: seq<Point>) {
    forall i, j :: 0 <= i < j < |s| ==> Before(s[i], s[j])
  }

  lemma BeforeOrder(p: Point, q: Point, r: Point)
    ensures Before(p, q) || Before(q, p)
    ensures Before(p, q) && Before(q, p) ==> Tied(p, q)
    ensures Before(p, q) && Before(q, r) ==> Before(p, r)
  {
    StrLeTotal(p.key, q.key);
    if StrLe(p.key, q.key) && StrLe(q.key, r.key) {
      StrLeTransitive(p.key, q.key, r.key);
    }
  }

  /** `p` goes behind every element that is not above it. */
  function Insert(s: seq<Point>, p: Point): (r: seq<Point>)
    ensures multiset(r) == multiset(s) + multiset{p} && |r| == |s| + 1
  {
    if s == [] then [p]
    else
      assert s == s[..|s| - 1] + [s[|s| - 1]];
      if Before(s[|s| - 1], p) then s + [p]
      else Insert(s[..|s| - 1], p) + [s[|s| - 1]]
  }

  /** A stable sort by (start, key). */
  function Sort(ps: seq<Point>): (s: seq<Point>)
    ensures multiset(s) == multiset(ps) && |s| == |ps|
  {
    if ps == [] then []
    else
      assert ps == ps[..|ps| - 1] + [ps[|ps| - 1]];
      Insert(Sort(ps[..|ps| - 1]), ps[|ps| - 1])
  }

  lemma {:induction false} InsertSorted(s: seq<Point>, p: Point)
    requires Sorted(s)
    ensures Sorted(Insert(s, p))
  {
    if s != [] {
      var front, last := s[..|s| - 1], s[|s| - 1];
      if Before(last, p) {
        forall i | 0 <= i < |s| ensures Before(s[i], p) {
          BeforeOrder(s[i], last, p);
        }
      } else {
        InsertSorted(front, p);
        BeforeOrder(last, p, p);
        forall i | 0 <= i < |s| ensures Before(Insert(front, p)[i], last) {
          assert Insert(front, p)[i] in multiset(front) + multiset{p};
        }
      }
    }
  }

  lemma {:induction false} SortSorts(ps: seq<Point>)
    ensures Sorted(Sort(ps))
  {
    if ps != [] {
      SortSorts(ps[..|ps| - 1]);
      InsertSorted(Sort(ps[..|ps| - 1]), ps[|ps| - 1]);
    }
  }

  /** These points in order of (start, key), with keys in dictionary order. */
  ghost predicate InOrder(ps: seq<Point>, s: seq<Point>) {
    && multiset(s) == multiset(ps)
    && forall i, j :: 0 <= i < j < |s| ==>
         s[i].start < s[j].start || (s[i].start == s[j].start && Precedes(s[i].key, s[j].key))
  }

  lemma SortInOrder(ps: seq<Point>)
    ensures InOrder(ps, Sort(ps))
  {
    var s := Sort(ps);
    SortSorts(ps);
    forall i, j | 0 <= i < j < |s|
      ensures s[i].start < s[j].start || (s[i].start == s[j].start && Precedes(s[i].key, s[j].key))
    {
      assert Before(s[i], s[j]);
      StrLePrecedes(s[i].key, s[j].key);
    }
  }

  lemma InsertLast(s: seq<Point>, p: Point)
    requires s != [] ==> Before(s[|s| - 1], p)
    ensures Insert(s, p) == s + [p]
  {
  }

  lemma {:induction false} SortOfSorted(s: seq<Point>)
    requires Sorted(s)
    ensures Sort(s) == s
  {
    if s != [] {
      var n := |s| - 1;
      SortOfSorted(s[..n]);
      if n > 0 {
        assert Before(s[n - 1], s[n]);
      }
      InsertLast(s[..n], s[n]);
    }
  }

  /** The points that tie with `t`, in their order. */
  function TiedWith(ps: seq<Point>, t: Point): seq<Point> {
    if ps == [] then []
    else
      var p := ps[|ps| - 1];
      TiedWith(ps[..|ps| - 1], t) + (if Tied(p, t) then [p] else [])
  }

  lemma {:induction false} InsertKeepsTies(s: seq<Point>, p: Point, t: Point)
    requires Sorted(s)
    ensures TiedWith(Insert(s, p), t) == TiedWith(s, t) + (if Tied(p, t) then [p] else [])
  {
    var r := Insert(s, p);
    if s == [] {
      assert TiedWith([], t) == [];
    } else if Before(s[|s| - 1], p) {
      assert r[..|s|] == s;
    } else {
      var front, last := s[..|s| - 1], s[|s| - 1];
      InsertKeepsTies(front, p, t);
      assert r[..|s|] == Insert(front, p) && r[|s|] == last;
      if Tied(p, t) && Tied(last, t) {
        StrLeTotal(p.key, last.key);
        assert false;
      }
    }
  }

  /** Python's promise for `sorted`: points with equal sort keys keep their input order. */
  lemma {:induction false} SortIsStable(ps: seq<Point>, t: Point)
    ensures TiedWith(Sort(ps), t) == TiedWith(ps, t)
  {
    if ps != [] {
      SortIsStable(ps[..|ps| - 1], t);
      SortSorts(ps[..|ps| - 1]);
      InsertKeepsTies(Sort(ps[..|ps| - 1]), ps[|ps| - 1], t);
    }
  }

  // ----- The sweep -----

  predicate StartsWave(waves: seq<WaveSpan>, p: Point, gap: int) {
    waves == [] || p.start - waves[|waves| - 1].end > gap
  }

  /** One step of the sweep: the waves after the next point in sorted order. */
  function Step(waves: seq<WaveSpan>, p: Point, gap: int): seq<WaveSpan> {
    if StartsWave(waves, p, gap)
    then waves + [WaveSpan(|waves| + 1, p.start, p.EffectiveEnd(), p.count, [p.key])]
    else
      var w := waves[|waves| - 1];
      waves[..|waves| - 1]
      + [w.(end := Max(w.end, p.EffectiveEnd()), count := w.count + p.count, keys := w.keys + [p.key])]
  }

  function Sweep(s: seq<Point>, gap: int): (waves: seq<WaveSpan>)
    ensures s == [] <==> waves == []
  {
    if s == [] then [] else Step(Sweep(s[..|s| - 1], gap), s[|s| - 1], gap)
  }

  function WavesOf(ps: seq<Point>, gap: int): seq<WaveSpan> {
    Sweep(Sort(ps), gap)
  }

  lemma StepOnOpen(closed: seq<WaveSpan>, w: WaveSpan, p: Point, gap: int)
    ensures Step(closed + [w], p, gap) ==
      if p.start - w.end > gap
      then closed + [w, WaveSpan(|closed| + 2, p.start, p.EffectiveEnd(), p.count, [p.key])]
      else closed + [WaveSpan(w.n, w.start, Max(w.end, p.EffectiveEnd()), w.count + p.count, w.keys + [p.key])]
  {
    assert (closed + [w])[..|closed|] == closed;
  }

  /** After `i` points the closed waves are `closed` and the running one is `w`. */
  ghost predicate Running(s: seq<Point>, i: nat, gap: int, closed: seq<WaveSpan>, w: WaveSpan) {
    i <= |s| && Sweep(s[..i], gap) == closed + [w]
  }

  lemma RunFirst(s: seq<Point>, gap: int)
    requires s != []
    ensures Running(s, 1, gap, [], WaveSpan(1, s[0].start, s[0].EffectiveEnd(), s[0].count, [s[0].key]))
  {
    assert s[..1][..0] == [];
  }

  lemma RunOn(s: seq<Point>, i: nat, gap: int, closed: seq<WaveSpan>, w: WaveSpan)
    requires i < |s| && Running(s, i, gap, closed, w)
    ensures s[i].start - w.end > gap ==>
      Running(s, i + 1, gap, closed + [w],
              WaveSpan(|closed| + 2, s[i].start, s[i].EffectiveEnd(), s[i].count, [s[i].key]))
    ensures s[i].start - w.end <= gap ==>
      Running(s, i + 1, gap, closed,
              WaveSpan(w.n, w.start, Max(w.end, s[i].EffectiveEnd()), w.count + s[i].count, w.keys + [s[i].key]))
  {
    assert s[..i + 1][..i] == s[..i];
    StepOnOpen(closed, w, s[i], gap);
  }

  /** The points are sorted and swept. */
  method GroupWaves(points: seq<Point>, gap: int) returns (waves: seq<WaveSpan>)
    ensures waves == WavesOf(points, gap)
    ensures exists s :: InOrder(points, s) && waves == Sweep(s, gap)
  {
    SortInOrder(points);
    waves := SweepSorted(Sort(points), gap);
  }

  /** The loop over the sorted points, with the running wave in four variables. */
  method SweepSorted(s: seq<Point>, gap: int) returns (waves: seq<WaveSpan>)
    ensures waves == Sweep(s, gap)
  {
    waves := [];
    var keys: seq<string> := [];
    var start: Option<int> := None;
    var end: Option<int> := None;
    var count := 0;
    for i := 0 to |s|
      invariant start.Some? == end.Some? == (i > 0)
      invariant i == 0 ==> waves == []
      invariant i > 0 ==>
        Running(s, i, gap, waves, WaveSpan(|waves| + 1, start.value, end.value, count, keys))
    {
      var p := s[i];
      if i == 0 {
        RunFirst(s, gap);
      } else {
        RunOn(s, i, gap, waves, WaveSpan(|waves| + 1, start.value, end.value, count, keys));
      }
      var pEnd := p.EffectiveEnd();
      if start.None? || end.None? {
        start, end, keys, count := Some(p.start), Some(pEnd), [p.key], p.count;
      } else if p.start - end.value > gap {
        waves := waves + [WaveSpan(|waves| + 1, start.value, end.value, count, keys)];
        start, end, keys, count := Some(p.start), Some(pEnd), [p.key], p.count;
      } else {
        keys := keys + [p.key];
        count := count + p.count;
        end := Some(Max(end.value, pEnd));
      }
    }
    assert s[..|s|] == s;
    if start.Some? && end.Some? {
      waves := waves + [WaveSpan(|waves| + 1, start.value, end.value, count, keys)];
    }
  }
}
