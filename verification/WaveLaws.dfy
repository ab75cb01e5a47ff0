/** What the waves of a set of points are, independently of the sweep that finds them. */
module WaveLaws {
  import opened Text
  import opened Waves

  // ----- The points behind each wave -----

  function MaxEnd(g: seq<Point>): int
    requires g != []
  {
    var e := g[|g| - 1].EffectiveEnd();
    if |g| == 1 then e else Max(MaxEnd(g[..|g| - 1]), e)
  }

  function SumCounts(g: seq<Point>): int {
    if g == [] then 0 else SumCounts(g[..|g| - 1]) + g[|g| - 1].count
  }

  function SumWaveCounts(ws: seq<WaveSpan>): int {
    if ws == [] then 0 else SumWaveCounts(ws[..|ws| - 1]) + ws[|ws| - 1].count
  }

  function Keys(g: seq<Point>): seq<string> {
    if g == [] then [] else Keys(g[..|g| - 1]) + [g[|g| - 1].key]
  }

  lemma {:induction false} KeysAt(s: seq<Point>)
    ensures |Keys(s)| == |s| && forall i :: 0 <= i < |s| ==> Keys(s)[i] == s[i].key
  {
    if s != [] {
      KeysAt(s[..|s| - 1]);
    }
  }

  function WaveKeys(ws: seq<WaveSpan>): seq<string> {
    if ws == [] then [] else WaveKeys(ws[..|ws| - 1]) + ws[|ws| - 1].keys
  }

  function SpanOf(n: nat, g: seq<Point>): WaveSpan
    requires g != []
  {
    WaveSpan(n, g[0].start, MaxEnd(g), SumCounts(g), Keys(g))
  }

  function Flatten<T>(gs: seq<seq<T>>): seq<T> {
    if gs == [] then [] else Flatten(gs[..|gs| - 1]) + gs[|gs| - 1]
  }

  /** One more point starts a group, or goes into the last one. */
  ghost function AddPoint(gs: seq<seq<Point>>, p: Point, starts: bool): (r: seq<seq<Point>>)
    requires gs != []
    ensures r != []
  {
    if starts then gs + [[p]] else gs[..|gs| - 1] + [gs[|gs| - 1] + [p]]
  }

  ghost predicate NoneEmpty(gs: seq<seq<Point>>) {
    forall k :: 0 <= k < |gs| ==> gs[k] != []
  }

  /** The sorted points cut into groups: a group ends where the next start is more than the gap
      after the largest end in the group. */
  ghost function Groups(s: seq<Point>, gap: int): (gs: seq<seq<Point>>)
    ensures NoneEmpty(gs)
    ensures s == [] <==> gs == []
  {
    if s == [] then []
    else
      var before := Groups(s[..|s| - 1], gap);
      var p := s[|s| - 1];
      if before == [] then [[p]] else AddPoint(before, p, p.start - MaxEnd(before[|before| - 1]) > gap)
  }

  lemma FlattenAppend<T>(gs: seq<seq<T>>, g: seq<T>)
    ensures Flatten(gs + [g]) == Flatten(gs) + g
  {
    assert (gs + [g])[..|gs|] == gs;
  }

  lemma RunGrows(run: seq<seq<Point>>, p: Point, starts: bool)
    requires run != []
    ensures Flatten(AddPoint(run, p, starts)) == Flatten(run) + [p]
  {
    if starts {
      FlattenAppend(run, [p]);
    } else {
      var front, last := run[..|run| - 1], run[|run| - 1];
      assert run == front + [last];
      FlattenAppend(front, last);
      FlattenAppend(front, last + [p]);
      assert Flatten(front) + (last + [p]) == Flatten(front) + last + [p];
    }
  }

  lemma AppendToGroup(g: seq<Point>, p: Point)
    ensures SumCounts(g + [p]) == SumCounts(g) + p.count
    ensures Keys(g + [p]) == Keys(g) + [p.key]
    ensures MaxEnd(g + [p]) == if g == [] then p.EffectiveEnd() else Max(MaxEnd(g), p.EffectiveEnd())
  {
    assert (g + [p])[..|g|] == g;
  }

  lemma {:induction false} MaxEndIsMax(g: seq<Point>)
    requires g != []
    ensures forall p :: p in g ==> p.EffectiveEnd() <= MaxEnd(g)
    ensures exists p :: p in g && p.EffectiveEnd() == MaxEnd(g)
  {
    var front, last := g[..|g| - 1], g[|g| - 1];
    assert g == front + [last];
    if front != [] {
      MaxEndIsMax(front);
      var m :| m in front && m.EffectiveEnd() == MaxEnd(front);
      assert m in g && last in g;
    } else {
      assert last in g;
    }
  }

  lemma SpanOfOne(n: nat, p: Point)
    ensures SpanOf(n, [p]) == WaveSpan(n, p.start, p.EffectiveEnd(), p.count, [p.key])
  {
    AppendToGroup([], p);
    assert [] + [p] == [p] && [] + [p.key] == [p.key];
  }

  lemma SpanGrows(n: nat, g: seq<Point>, p: Point)
    requires g != []
    ensures var w := SpanOf(n, g);
      SpanOf(n, g + [p]) ==
        WaveSpan(n, w.start, Max(w.end, p.EffectiveEnd()), w.count + p.count, w.keys + [p.key])
  {
    AppendToGroup(g, p);
  }

  /** There are as many waves as groups, and the last ones end together. */
  ghost predicate InStep(ws: seq<WaveSpan>, gs: seq<seq<Point>>) {
    |ws| == |gs| && (gs != [] ==> gs[|gs| - 1] != [] && ws[|ws| - 1].end == MaxEnd(gs[|gs| - 1]))
  }

  /** One step of the sweep, when wave `k` is the summary of group `k` before it. */
  lemma StepSummarises(ws: seq<WaveSpan>, gs: seq<seq<Point>>, p: Point, gap: int, k: nat)
    requires gs != [] && NoneEmpty(gs) && InStep(ws, gs)
    requires k < |gs| ==> ws[k] == SpanOf(k + 1, gs[k])
    requires k == |gs| ==> StartsWave(ws, p, gap)
    requires k <= |gs|
    ensures var now, groups := Step(ws, p, gap), AddPoint(gs, p, StartsWave(ws, p, gap));
      && InStep(now, groups) && k < |groups| && groups[k] != [] && now[k] == SpanOf(k + 1, groups[k])
  {
    SpanOfOne(k + 1, p);
    AppendToGroup([], p);
    AppendToGroup(gs[|gs| - 1], p);
    if k < |gs| {
      SpanGrows(k + 1, gs[k], p);
    }
  }

  lemma StepInStep(ws: seq<WaveSpan>, gs: seq<seq<Point>>, p: Point, gap: int)
    requires gs != [] && InStep(ws, gs)
    ensures InStep(Step(ws, p, gap), AddPoint(gs, p, StartsWave(ws, p, gap)))
  {
    SpanOfOne(1, p);
    AppendToGroup(gs[|gs| - 1], p);
  }

  lemma FirstStep(p: Point, gap: int)
    ensures Step([], p, gap) == [SpanOf(1, [p])] && InStep(Step([], p, gap), [[p]])
  {
    SpanOfOne(1, p);
  }

  lemma {:induction false} SweepInStep(s: seq<Point>, gap: int)
    ensures InStep(Sweep(s, gap), Groups(s, gap))
  {
    if s != [] {
      var front, p := s[..|s| - 1], s[|s| - 1];
      SweepInStep(front, gap);
      if front == [] {
        FirstStep(p, gap);
      } else {
        StepInStep(Sweep(front, gap), Groups(front, gap), p, gap);
      }
    }
  }

  /** Every wave is the summary of its group. */
  lemma {:induction false} SweepSummarisesGroups(s: seq<Point>, gap: int, k: nat)
    requires k < |Groups(s, gap)|
    ensures |Sweep(s, gap)| == |Groups(s, gap)|
    ensures Sweep(s, gap)[k] == SpanOf(k + 1, Groups(s, gap)[k])
  {
    var front, p := s[..|s| - 1], s[|s| - 1];
    SweepInStep(front, gap);
    if front == [] {
      FirstStep(p, gap);
    } else {
      if k < |Groups(front, gap)| {
        SweepSummarisesGroups(front, gap, k);
      }
      StepSummarises(Sweep(front, gap), Groups(front, gap), p, gap, k);
    }
  }

  lemma {:induction false} GroupsFlatten(s: seq<Point>, gap: int)
    ensures Flatten(Groups(s, gap)) == s
  {
    if s != [] {
      var front, p := s[..|s| - 1], s[|s| - 1];
      var before := Groups(front, gap);
      GroupsFlatten(front, gap);
      if before == [] {
        FlattenAppend([], [p]);
        assert [] + [[p]] == [[p]] && s == [p];
      } else {
        RunGrows(before, p, p.start - MaxEnd(before[|before| - 1]) > gap);
        assert s == front + [p];
      }
    }
  }

  lemma {:induction false} InFlatten<T>(gs: seq<seq<T>>, x: T)
    ensures x in Flatten(gs) <==> exists k :: 0 <= k < |gs| && x in gs[k]
  {
    if gs != [] {
      var front := gs[..|gs| - 1];
      InFlatten(front, x);
      if exists k :: 0 <= k < |gs| && x in gs[k] {
        var k :| 0 <= k < |gs| && x in gs[k];
        if k < |gs| - 1 {
          assert x in front[k];
        }
      }
      if x in Flatten(front) {
        var k :| 0 <= k < |front| && x in front[k];
        assert x in gs[k];
      }
    }
  }

  // ----- Shape of the waves -----

  ghost predicate Inside(p: Point, w: WaveSpan) {
    w.start <= p.start && p.EffectiveEnd() <= w.end
  }

  lemma {:induction false} StartsBeforeEnds(s: seq<Point>, gap: int)
    ensures forall k :: 0 <= k < |Sweep(s, gap)| ==> Sweep(s, gap)[k].start <= Sweep(s, gap)[k].end
  {
    if s != [] {
      StartsBeforeEnds(s[..|s| - 1], gap);
    }
  }

  /** Consecutive waves are more than the gap apart. */
  lemma {:induction false} NeighboursAreApart(s: seq<Point>, gap: int)
    ensures forall k :: 0 < k < |Sweep(s, gap)| ==> Sweep(s, gap)[k].start - Sweep(s, gap)[k - 1].end > gap
  {
    if s != [] {
      NeighboursAreApart(s[..|s| - 1], gap);
      StepKeepsApart(Sweep(s[..|s| - 1], gap), s[|s| - 1], gap);
    }
  }

  lemma StepKeepsApart(ws: seq<WaveSpan>, p: Point, gap: int)
    requires forall k :: 0 < k < |ws| ==> ws[k].start - ws[k - 1].end > gap
    ensures forall k :: 0 < k < |Step(ws, p, gap)| ==> Step(ws, p, gap)[k].start - Step(ws, p, gap)[k - 1].end > gap
  {
    var now := Step(ws, p, gap);
    if !StartsWave(ws, p, gap) {
      assert forall k :: 0 <= k < |now| ==> now[k].start == ws[k].start;
      assert forall k :: 0 <= k < |now| - 1 ==> now[k] == ws[k];
    }
  }

  /** With a gap of at least zero, any two waves are. */
  lemma WavesAreApart(s: seq<Point>, gap: int)
    requires gap >= 0
    ensures forall i, j :: 0 <= i < j < |Sweep(s, gap)| ==> Sweep(s, gap)[j].start - Sweep(s, gap)[i].end > gap
  {
    NeighboursAreApart(s, gap);
    StartsBeforeEnds(s, gap);
    forall i, j | 0 <= i < j < |Sweep(s, gap)| ensures Sweep(s, gap)[j].start - Sweep(s, gap)[i].end > gap {
      ApartInChain(Sweep(s, gap), gap, i, j);
    }
  }

  lemma {:induction false} ApartInChain(ws: seq<WaveSpan>, gap: int, i: nat, j: nat)
    requires gap >= 0 && i < j < |ws|
    requires forall k :: 0 < k < |ws| ==> ws[k].start - ws[k - 1].end > gap
    requires forall k :: 0 <= k < |ws| ==> ws[k].start <= ws[k].end
    ensures ws[j].start - ws[i].end > gap
    decreases j
  {
    if i < j - 1 {
      ApartInChain(ws, gap, i, j - 1);
    }
  }

  lemma GroupMember(s: seq<Point>, gap: int, k: nat, p: Point)
    requires Sorted(s) && k < |Groups(s, gap)| && p in Groups(s, gap)[k]
    ensures k < |Sweep(s, gap)| && p in s && Inside(p, Sweep(s, gap)[k])
  {
    SweepSummarisesGroups(s, gap, k);
    MaxEndIsMax(Groups(s, gap)[k]);
    GroupsFlatten(s, gap);
    InFlatten(Groups(s, gap), p);
    GroupStartsAreLeast(s, gap, k, p);
  }

  lemma GroupEnds(s: seq<Point>, gap: int, k: nat)
    requires k < |Groups(s, gap)|
    ensures k < |Sweep(s, gap)|
    ensures exists p :: p in Groups(s, gap)[k] && p.start == Sweep(s, gap)[k].start
    ensures exists p :: p in Groups(s, gap)[k] && p.EffectiveEnd() == Sweep(s, gap)[k].end
  {
    SweepSummarisesGroups(s, gap, k);
    var g := Groups(s, gap)[k];
    MaxEndIsMax(g);
    assert g[0] in g;
  }

  /** A wave starts at its smallest start and ends at its largest effective end. */
  lemma GroupBounds(s: seq<Point>, gap: int, k: nat)
    requires Sorted(s) && k < |Groups(s, gap)|
    ensures k < |Sweep(s, gap)|
    ensures forall p :: p in Groups(s, gap)[k] ==> p in s && Inside(p, Sweep(s, gap)[k])
    ensures exists p :: p in Groups(s, gap)[k] && p.start == Sweep(s, gap)[k].start
    ensures exists p :: p in Groups(s, gap)[k] && p.EffectiveEnd() == Sweep(s, gap)[k].end
  {
    GroupEnds(s, gap, k);
    forall p | p in Groups(s, gap)[k] ensures p in s && Inside(p, Sweep(s, gap)[k]) {
      GroupMember(s, gap, k, p);
    }
  }

  lemma {:induction false} GroupStartsAreLeast(s: seq<Point>, gap: int, k: nat, p: Point)
    requires Sorted(s) && k < |Groups(s, gap)| && p in Groups(s, gap)[k]
    ensures Groups(s, gap)[k][0].start <= p.start
  {
    var front, q := s[..|s| - 1], s[|s| - 1];
    var before, gs := Groups(front, gap), Groups(s, gap);
    if k < |before| {
      if p in before[k] {
        GroupStartsAreLeast(front, gap, k, p);
      } else {
        assert p == q && gs[k][0] == before[k][0];
        GroupsFlatten(front, gap);
        assert gs[k][0] in before[k];
        InFlatten(before, gs[k][0]);
        var i :| 0 <= i < |front| && front[i] == gs[k][0];
        assert Before(s[i], s[|s| - 1]);
      }
    }
  }

  /** A point that is not the first of its group starts at most the gap after the end of an earlier one. */
  lemma {:induction false} GroupIsChained(s: seq<Point>, gap: int, k: nat, i: nat) returns (j: nat)
    requires k < |Groups(s, gap)| && 0 < i < |Groups(s, gap)[k]|
    ensures j < i && Groups(s, gap)[k][i].start - Groups(s, gap)[k][j].EffectiveEnd() <= gap
  {
    var front, p := s[..|s| - 1], s[|s| - 1];
    var before := Groups(front, gap);
    if k < |before| && i < |before[k]| {
      j := GroupIsChained(front, gap, k, i);
    } else {
      assert k == |before| - 1 && Groups(s, gap)[k] == before[k] + [p] && i == |before[k]|;
      MaxEndIsMax(before[k]);
      var q: Point :| q in before[k] && q.EffectiveEnd() == MaxEnd(before[k]);
      j :| 0 <= j < |before[k]| && before[k][j] == q;
    }
  }

  // ----- Connected components -----

  /** The later start is at most `gap` after the effective end of the earlier point. */
  ghost predicate Linked(p: Point, q: Point, gap: int) {
    || (p.start <= q.start && q.start - p.EffectiveEnd() <= gap)
    || (q.start <= p.start && p.start - q.EffectiveEnd() <= gap)
  }

  ghost predicate IsPath(ps: seq<Point>, gap: int, path: seq<Point>) {
    && path != []
    && (forall i :: 0 <= i < |path| ==> path[i] in ps)
    && (forall i :: 0 < i < |path| ==> Linked(path[i - 1], path[i], gap))
  }

  ghost predicate Connected(ps: seq<Point>, gap: int, p: Point, q: Point) {
    exists path :: IsPath(ps, gap, path) && path[0] == p && path[|path| - 1] == q
  }

  lemma ConnectedSymmetric(ps: seq<Point>, gap: int, p: Point, q: Point)
    requires Connected(ps, gap, p, q)
    ensures Connected(ps, gap, q, p)
  {
    var path :| IsPath(ps, gap, path) && path[0] == p && path[|path| - 1] == q;
    var back := seq(|path|, i requires 0 <= i < |path| => path[|path| - 1 - i]);
    forall i | 0 < i < |back| ensures Linked(back[i - 1], back[i], gap) {
      assert Linked(path[|path| - 1 - i], path[|path| - i], gap);
    }
    assert IsPath(ps, gap, back);
  }

  lemma ConnectedTransitive(ps: seq<Point>, gap: int, p: Point, q: Point, r: Point)
    requires Connected(ps, gap, p, q) && Connected(ps, gap, q, r)
    ensures Connected(ps, gap, p, r)
  {
    var a :| IsPath(ps, gap, a) && a[0] == p && a[|a| - 1] == q;
    var b :| IsPath(ps, gap, b) && b[0] == q && b[|b| - 1] == r;
    assert IsPath(ps, gap, a + b[1..]);
  }

  lemma ConnectedSelf(ps: seq<Point>, gap: int, p: Point)
    requires p in ps
    ensures Connected(ps, gap, p, p)
  {
    assert IsPath(ps, gap, [p]);
  }

  lemma LinkedIsConnected(ps: seq<Point>, gap: int, p: Point, q: Point)
    requires p in ps && q in ps && Linked(p, q, gap)
    ensures Connected(ps, gap, p, q)
  {
    assert IsPath(ps, gap, [p, q]);
  }

  /** A point that joins a group is linked to the member that ends last. */
  lemma JoinIsLinked(s: seq<Point>, gap: int, k: nat, p: Point) returns (m: Point)
    requires s != [] && p == s[|s| - 1] && Sorted(s)
    requires k < |Groups(s[..|s| - 1], gap)|
    requires p.start - MaxEnd(Groups(s[..|s| - 1], gap)[k]) <= gap
    ensures m in Groups(s[..|s| - 1], gap)[k] && m in s && Linked(m, p, gap)
  {
    var front := s[..|s| - 1];
    var g := Groups(front, gap)[k];
    MaxEndIsMax(g);
    m :| m in g && m.EffectiveEnd() == MaxEnd(g);
    GroupsFlatten(front, gap);
    InFlatten(Groups(front, gap), m);
    var i :| 0 <= i < |front| && front[i] == m;
    assert Before(s[i], s[|s| - 1]);
    assert s[i] == m;
  }

  /** Inside one group every point can be reached from the first. */
  lemma {:induction false} GroupIsConnected(ps: seq<Point>, s: seq<Point>, gap: int, k: nat, p: Point)
    requires Sorted(s) && k < |Groups(s, gap)| && p in Groups(s, gap)[k]
    requires forall q :: q in s ==> q in ps
    ensures Connected(ps, gap, Groups(s, gap)[k][0], p)
  {
    var front, q := s[..|s| - 1], s[|s| - 1];
    var before, gs := Groups(front, gap), Groups(s, gap);
    if k < |before| && p in before[k] {
      GroupIsConnected(ps, front, gap, k, p);
    } else if k == |before| {
      assert gs[k] == [q];
      ConnectedSelf(ps, gap, p);
    } else {
      assert k == |before| - 1 && gs[k] == before[k] + [q] && p == q;
      var m := JoinIsLinked(s, gap, k, q);
      GroupIsConnected(ps, front, gap, k, m);
      LinkedIsConnected(ps, gap, m, q);
      ConnectedTransitive(ps, gap, before[k][0], m, q);
    }
  }

  ghost predicate HeldBy(p: Point, waves: seq<WaveSpan>, k: nat) {
    k < |waves| && Inside(p, waves[k])
  }

  ghost predicate SameWave(p: Point, q: Point, waves: seq<WaveSpan>) {
    exists k: nat :: HeldBy(p, waves, k) && HeldBy(q, waves, k)
  }

  /** Every point lies inside exactly one wave, and that wave is the one of its group. */
  lemma WaveOfPoint(s: seq<Point>, gap: int, p: Point) returns (k: nat)
    requires gap >= 0 && Sorted(s) && p in s
    ensures k < |Groups(s, gap)| && p in Groups(s, gap)[k]
    ensures forall j: nat :: HeldBy(p, Sweep(s, gap), j) <==> j == k
  {
    GroupsFlatten(s, gap);
    InFlatten(Groups(s, gap), p);
    k :| 0 <= k < |Groups(s, gap)| && p in Groups(s, gap)[k];
    GroupBounds(s, gap, k);
    WavesAreApart(s, gap);
  }

  /** With a gap of at least zero no chain of links leaves a wave. */
  lemma {:induction false} PathStaysInWave(s: seq<Point>, gap: int, path: seq<Point>, k: nat)
    requires gap >= 0 && Sorted(s) && IsPath(s, gap, path) && HeldBy(path[0], Sweep(s, gap), k)
    ensures HeldBy(path[|path| - 1], Sweep(s, gap), k)
  {
    if |path| > 1 {
      PathStaysInWave(s, gap, path[..|path| - 1], k);
      var j := WaveOfPoint(s, gap, path[|path| - 1]);
      assert HeldBy(path[|path| - 1], Sweep(s, gap), j);
      assert Linked(path[|path| - 2], path[|path| - 1], gap);
      WavesAreApart(s, gap);
    }
  }

  lemma GroupMatesAreConnected(ps: seq<Point>, s: seq<Point>, gap: int, k: nat, p: Point, q: Point)
    requires Sorted(s) && k < |Groups(s, gap)| && p in Groups(s, gap)[k] && q in Groups(s, gap)[k]
    requires forall r :: r in s ==> r in ps
    ensures Connected(ps, gap, p, q)
  {
    var first := Groups(s, gap)[k][0];
    GroupIsConnected(ps, s, gap, k, p);
    GroupIsConnected(ps, s, gap, k, q);
    ConnectedSymmetric(ps, gap, first, p);
    ConnectedTransitive(ps, gap, p, first, q);
  }

  /** Main result: two points lie in one wave exactly when a chain of links joins them, whatever the
      order of the input; and exactly one wave holds a point. */
  lemma WavesAreComponents(ps: seq<Point>, gap: int, p: Point, q: Point)
    requires gap >= 0 && p in ps && q in ps
    ensures Connected(ps, gap, p, q) <==> SameWave(p, q, WavesOf(ps, gap))
    ensures exists k: nat :: HeldBy(p, WavesOf(ps, gap), k)
    ensures forall i: nat, j: nat :: HeldBy(p, WavesOf(ps, gap), i) && HeldBy(p, WavesOf(ps, gap), j) ==> i == j
  {
    var s := Sort(ps);
    SortSorts(ps);
    SameMembers(s, ps);
    var a := WaveOfPoint(s, gap, p);
    var b := WaveOfPoint(s, gap, q);
    assert HeldBy(p, WavesOf(ps, gap), a) && HeldBy(q, WavesOf(ps, gap), b);
    if Connected(ps, gap, p, q) {
      var path :| IsPath(ps, gap, path) && path[0] == p && path[|path| - 1] == q;
      assert IsPath(s, gap, path);
      PathStaysInWave(s, gap, path, a);
    }
    if a == b {
      GroupMatesAreConnected(ps, s, gap, a, p, q);
    }
  }

  lemma SameMembers<T>(a: seq<T>, b: seq<T>)
    requires multiset(a) == multiset(b)
    ensures forall x :: x in a <==> x in b
  {
    forall x ensures x in a <==> x in b {
      assert x in a <==> x in multiset(a);
      assert x in b <==> x in multiset(b);
    }
  }
}
