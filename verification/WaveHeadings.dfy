/** What the headings and gap lines of an Event timeline block print, soc_ai/event_time.py: the bounds
    and sources of the rows below a heading, and the silence between two waves. */
module WaveHeadings {
  import opened Text
  import opened Waves
  import opened WaveLaws
  import opened Timeline
  import WaveTransforms
  import GapWords

  /** The rows of the row lines at the front. */
  function RowsUnder(lines: seq<Line>): seq<Row> {
    if lines == [] || !lines[0].RowLine? then [] else [lines[0].row] + RowsUnder(lines[1..])
  }

  /** The last wave heading. */
  function LastHead(lines: seq<Line>): Option<Line> {
    if lines == [] then None
    else if lines[|lines| - 1].WaveHead? then Some(lines[|lines| - 1])
    else LastHead(lines[..|lines| - 1])
  }

  function EndOf(r: Row): int {
    Point(r.key, r.at, r.end, 1).EffectiveEnd()
  }

  /** Some row has the first source, and no row up to it has the second. */
  ghost predicate SeenBefore(rows: seq<Row>, a: string, b: string) {
    exists k :: 0 <= k < |rows| && rows[k].fields.source == Some(a) && NotUpTo(rows, k, b)
  }

  ghost predicate NotUpTo(rows: seq<Row>, k: int, source: string) {
    forall i :: 0 <= i <= k && i < |rows| ==> rows[i].fields.source != Some(source)
  }

  /** Each source of some rows once, in the order they first appear, and nothing else. */
  ghost predicate ListsSources(sources: seq<string>, rows: seq<Row>) {
    && (forall i, j :: 0 <= i < j < |sources| ==> sources[i] != sources[j] && SeenBefore(rows, sources[i], sources[j]))
    && (forall s :: s in sources <==> s != "" && exists r :: r in rows && r.fields.source == Some(s))
  }

  /** These are the tight bounds of the rows. */
  ghost predicate Bounds(start: int, end: int, rows: seq<Row>) {
    && (forall r :: r in rows ==> start <= r.at && EndOf(r) <= end)
    && (exists r :: r in rows && r.at == start)
    && (exists r :: r in rows && EndOf(r) == end)
  }

  /** Every row but the first starts at most 30 minutes after the end of an earlier one. */
  ghost predicate Chained(rows: seq<Row>) {
    forall i :: 0 < i < |rows| ==> ChainedAt(rows, i)
  }

  ghost predicate ChainedAt(rows: seq<Row>, i: nat)
    requires i < |rows|
  {
    exists j :: 0 <= j < i && rows[i].at - EndOf(rows[j]) <= 1_800_000_000
  }

  ghost predicate HeadingFits(head: Line, rows: seq<Row>)
    requires head.WaveHead?
  {
    Bounds(head.start, head.end, rows) && ListsSources(head.sources, rows) && Chained(rows)
  }

  /** The first heading is of wave 1, and a gap line stands before every other. */
  ghost predicate HeadingFollows(lines: seq<Line>, i: nat)
    requires i < |lines| && lines[i].WaveHead?
  {
    if LastHead(lines[..i]).None? then lines[i].wave == 1 else i > 0 && lines[i - 1].GapLine?
  }

  /** A gap line stands before the heading of its wave, follows the wave before it, and gives the words
      for the time between them, which is more than 30 minutes. */
  ghost predicate GapFits(gap: Line, before: Option<Line>, after: Line)
    requires gap.GapLine?
  {
    && before.Some? && before.value.WaveHead? && after.WaveHead?
    && after.wave == gap.n == gap.previous + 1 && before.value.wave == gap.previous
    && after.start - before.value.end > 1_800_000_000
    && gap.gap == GapWords.Words((after.start - before.value.end) as real / 1_000_000.0)
  }

  ghost predicate LineFits(lines: seq<Line>, i: nat)
    requires i < |lines|
  {
    && (lines[i].WaveHead? ==> HeadingFits(lines[i], RowsUnder(lines[i + 1..])) && HeadingFollows(lines, i))
    && (lines[i].GapLine? ==> i + 1 < |lines| && GapFits(lines[i], LastHead(lines[..i]), lines[i + 1]))
  }

  /** Every heading and every gap line is true of the lines around it. */
  ghost predicate Fits(lines: seq<Line>) {
    forall i :: 0 <= i < |lines| ==> LineFits(lines, i)
  }

  ghost predicate FitsFrom(lines: seq<Line>, k: nat) {
    forall i :: k <= i < |lines| ==> LineFits(lines, i)
  }

  predicate StartsFresh(lines: seq<Line>) {
    lines == [] || !lines[0].RowLine?
  }

  // ----- Joining lines -----

  lemma {:induction false} RowsUnderAppend(a: seq<Line>, b: seq<Line>)
    requires StartsFresh(b)
    ensures RowsUnder(a + b) == RowsUnder(a)
  {
    if a == [] {
      assert a + b == b;
    } else {
      assert (a + b)[1..] == a[1..] + b;
      RowsUnderAppend(a[1..], b);
    }
  }

  lemma {:induction false} RowsUnderRows(rows: seq<Row>)
    ensures RowsUnder(RowLines(rows)) == rows
  {
    if rows != [] {
      RowsUnderRows(rows[1..]);
      assert RowLines(rows)[1..] == RowLines(rows[1..]);
    }
  }

  lemma {:induction false} LastHeadAppend(a: seq<Line>, b: seq<Line>)
    ensures LastHead(a + b) == if LastHead(b).Some? then LastHead(b) else LastHead(a)
  {
    if b == [] {
      assert a + b == a;
    } else {
      assert (a + b)[..|a + b| - 1] == a + b[..|b| - 1];
      LastHeadAppend(a, b[..|b| - 1]);
    }
  }

  lemma FitsInFront(a: seq<Line>, b: seq<Line>, i: nat)
    requires i < |a| && LineFits(a, i) && StartsFresh(b)
    ensures LineFits(a + b, i)
  {
    assert (a + b)[i + 1..] == a[i + 1..] + b;
    assert (a + b)[..i] == a[..i];
    RowsUnderAppend(a[i + 1..], b);
  }

  lemma FitsBehind(a: seq<Line>, b: seq<Line>, j: nat)
    requires j < |b| && LineFits(b, j) && (LastHead(a).None? || !b[j].WaveHead?)
    ensures LineFits(a + b, |a| + j)
  {
    assert (a + b)[|a| + j + 1..] == b[j + 1..];
    assert (a + b)[..|a| + j] == a + b[..j];
    LastHeadAppend(a, b[..j]);
  }

  lemma FitsOn(a: seq<Line>, b: seq<Line>, all: seq<Line>)
    requires Fits(a) && StartsFresh(b) && all == a + b && FitsFrom(all, |a|)
    ensures Fits(all)
  {
    forall i | 0 <= i < |a| ensures LineFits(all, i) {
      FitsInFront(a, b, i);
    }
  }

  lemma FitsAppend(a: seq<Line>, b: seq<Line>)
    requires Fits(a) && Fits(b) && StartsFresh(b) && (LastHead(a).None? || Plain(b))
    ensures Fits(a + b)
  {
    var all := a + b;
    forall i | |a| <= i < |all| ensures LineFits(all, i) {
      assert LineFits(b, i - |a|);
      FitsBehind(a, b, i - |a|);
    }
    FitsOn(a, b, all);
  }

  ghost predicate Plain(lines: seq<Line>) {
    StartsFresh(lines) && forall i :: 0 <= i < |lines| ==> !lines[i].WaveHead? && !lines[i].GapLine?
  }

  lemma PlainFits(lines: seq<Line>)
    requires Plain(lines)
    ensures Fits(lines) && StartsFresh(lines)
  {
  }

  lemma {:induction false} NoHead(lines: seq<Line>)
    requires forall i :: 0 <= i < |lines| ==> !lines[i].WaveHead?
    ensures LastHead(lines).None?
  {
    if lines != [] {
      NoHead(lines[..|lines| - 1]);
    }
  }

  /** A heading may come next: it is the first, or a gap line stands last. */
  ghost predicate Expects(lines: seq<Line>, head: Line)
    requires head.WaveHead?
  {
    if LastHead(lines).None? then head.wave == 1 else lines != [] && lines[|lines| - 1].GapLine?
  }

  // ----- One wave -----

  lemma HeadFitsAt(front: seq<Line>, head: Line, rows: seq<Row>, all: seq<Line>)
    requires all == front + ([head] + RowLines(rows))
    requires head.WaveHead? && HeadingFits(head, rows) && Expects(front, head)
    ensures LineFits(all, |front|)
  {
    assert all[|front|] == head && all[|front| + 1..] == RowLines(rows) && all[..|front|] == front;
    RowsUnderRows(rows);
  }

  lemma GapFitsAt(a: seq<Line>, gap: Line, head: Line, tail: seq<Line>, all: seq<Line>)
    requires all == a + ([gap, head] + tail) && gap.GapLine? && GapFits(gap, LastHead(a), head)
    ensures LineFits(all, |a|)
  {
    assert all[|a|] == gap && all[|a| + 1] == head && all[..|a|] == a;
  }

  lemma RowsFitFrom(front: seq<Line>, rows: seq<Row>, all: seq<Line>)
    requires all == front + RowLines(rows)
    ensures FitsFrom(all, |front|)
  {
    assert forall i :: |front| <= i < |all| ==> all[i] == RowLines(rows)[i - |front|];
  }

  lemma HeadedFitFrom(front: seq<Line>, head: Line, rows: seq<Row>, all: seq<Line>)
    requires all == front + ([head] + RowLines(rows))
    requires head.WaveHead? && HeadingFits(head, rows) && Expects(front, head)
    ensures FitsFrom(all, |front|)
  {
    assert all == front + [head] + RowLines(rows);
    RowsFitFrom(front + [head], rows, all);
    HeadFitsAt(front, head, rows, all);
  }

  lemma GapBlockFits(a: seq<Line>, gap: Line, head: Line, rows: seq<Row>)
    requires Fits(a) && head.WaveHead? && HeadingFits(head, rows)
    requires gap.GapLine? && GapFits(gap, LastHead(a), head)
    ensures Fits(a + ([gap] + ([head] + RowLines(rows))))
  {
    var all := a + ([gap] + ([head] + RowLines(rows)));
    assert all == a + [gap] + ([head] + RowLines(rows));
    LastHeadAppend(a, [gap]);
    HeadedFitFrom(a + [gap], head, rows, all);
    assert all == a + ([gap, head] + RowLines(rows));
    GapFitsAt(a, gap, head, RowLines(rows), all);
    FitsOn(a, [gap] + ([head] + RowLines(rows)), all);
  }

  /** Behind the gap line, if there is one, come a heading and its rows. */
  lemma BlockFits(a: seq<Line>, gaps: seq<Line>, head: Line, rows: seq<Row>)
    requires Fits(a) && head.WaveHead? && HeadingFits(head, rows)
    requires gaps == [] || (|gaps| == 1 && gaps[0].GapLine? && GapFits(gaps[0], LastHead(a), head))
    requires gaps == [] ==> Expects(a, head)
    ensures Fits(a + (gaps + ([head] + RowLines(rows))))
  {
    var body := [head] + RowLines(rows);
    if gaps == [] {
      HeadedFitFrom(a, head, rows, a + body);
      FitsOn(a, body, a + body);
      assert gaps + body == body;
    } else {
      assert gaps == [gaps[0]];
      GapBlockFits(a, gaps[0], head, rows);
    }
  }

  lemma {:induction false} RowsHaveNoHead(a: seq<Line>, head: Line, rows: seq<Row>)
    requires head.WaveHead?
    ensures LastHead(a + ([head] + RowLines(rows))) == Some(head)
  {
    var all := a + ([head] + RowLines(rows));
    if rows == [] {
      assert all[|all| - 1] == head;
    } else {
      RowsHaveNoHead(a, head, rows[..|rows| - 1]);
      assert all[..|all| - 1] == a + ([head] + RowLines(rows[..|rows| - 1]));
    }
  }

  /** Wave `k` is numbered in order, is the bounds of its rows, holds no long gap, and stands apart from
      the one before. */
  ghost predicate WaveFits(waves: seq<WaveSpan>, k: nat, m: map<string, Row>)
    requires k < |waves| && AllIn(waves[k].keys, m)
  {
    && waves[k].n == k + 1 && Bounds(waves[k].start, waves[k].end, Lookup(waves[k].keys, m))
    && Chained(Lookup(waves[k].keys, m))
    && (k > 0 ==> waves[k].start - waves[k - 1].end > 1_800_000_000)
  }

  lemma {:induction false} SourcesListed(rows: seq<Row>)
    ensures ListsSources(Sources(rows), rows)
  {
    if rows != [] {
      var front, last := rows[..|rows| - 1], rows[|rows| - 1];
      assert rows == front + [last];
      SourcesListed(front);
      SourcesNext(front, last);
    }
  }

  ghost predicate HasSource(rows: seq<Row>, source: string) {
    exists r :: r in rows && r.fields.source == Some(source)
  }

  lemma HasSourceSnoc(rows: seq<Row>, last: Row, source: string)
    ensures HasSource(rows + [last], source) <==> HasSource(rows, source) || last.fields.source == Some(source)
  {
    if r :| r in rows && r.fields.source == Some(source) {
      assert r in rows + [last];
    }
    assert last in rows + [last];
  }

  lemma SeenSnoc(rows: seq<Row>, last: Row, a: string, b: string)
    requires SeenBefore(rows, a, b)
    ensures SeenBefore(rows + [last], a, b)
  {
    var k :| 0 <= k < |rows| && rows[k].fields.source == Some(a) && NotUpTo(rows, k, b);
    assert (rows + [last])[k] == rows[k] && NotUpTo(rows + [last], k, b);
  }

  /** A source in the rows was seen before one that only the last row has. */
  lemma SeenBeforeLast(rows: seq<Row>, last: Row, a: string, b: string)
    requires HasSource(rows, a) && !HasSource(rows, b)
    ensures SeenBefore(rows + [last], a, b)
  {
    var r :| r in rows && r.fields.source == Some(a);
    var k :| 0 <= k < |rows| && rows[k] == r;
    forall i | 0 <= i < |rows| ensures rows[i].fields.source != Some(b) {
      assert rows[i] in rows;
    }
    assert (rows + [last])[k] == r && NotUpTo(rows + [last], k, b);
  }

  lemma SourcesNext(rows: seq<Row>, last: Row)
    requires ListsSources(Sources(rows), rows)
    ensures ListsSources(Sources(rows + [last]), rows + [last])
  {
    assert (rows + [last])[..|rows|] == rows;
    var before, after := Sources(rows), Sources(rows + [last]);
    forall s ensures s in before <==> s != "" && HasSource(rows, s) {
    }
    forall s ensures s in after <==> s != "" && HasSource(rows + [last], s) {
      HasSourceSnoc(rows, last, s);
    }
    forall i, j | 0 <= i < j < |after| ensures after[i] != after[j] && SeenBefore(rows + [last], after[i], after[j]) {
      if j < |before| {
        SeenSnoc(rows, last, after[i], after[j]);
      } else {
        assert after[i] in before && after[j] !in before;
        SeenBeforeLast(rows, last, after[i], after[j]);
      }
    }
  }

  function HeadOf(waves: seq<WaveSpan>, k: nat, m: map<string, Row>): Line
    requires k < |waves| && AllIn(waves[k].keys, m)
  {
    Heading(waves[k], Lookup(waves[k].keys, m))
  }

  function Gaps(waves: seq<WaveSpan>, k: nat): seq<Line>
    requires k < |waves|
  {
    if k > 0 then [GapLine(waves[k].n, GapBetween(waves[k - 1], waves[k]), waves[k - 1].n)] else []
  }

  lemma BlockParts(waves: seq<WaveSpan>, k: nat, m: map<string, Row>)
    requires k < |waves| && AllIn(waves[k].keys, m)
    ensures Block(waves, k, m) == Gaps(waves, k) + ([HeadOf(waves, k, m)] + RowLines(Lookup(waves[k].keys, m)))
  {
  }

  /** The lines before wave `k` fit, and end in the wave before it. */
  ghost predicate FitsUpTo(lines: seq<Line>, waves: seq<WaveSpan>, k: nat, m: map<string, Row>)
    requires k <= |waves| && Known(waves, m)
  {
    Fits(lines) && LastHead(lines) == if k > 0 then Some(HeadOf(waves, k - 1, m)) else None
  }

  ghost predicate AllFit(waves: seq<WaveSpan>, m: map<string, Row>)
    requires Known(waves, m)
  {
    forall k :: 0 <= k < |waves| ==> WaveFits(waves, k, m)
  }

  lemma GapOfWaves(before: WaveSpan, wave: WaveSpan, rowsBefore: seq<Row>, rows: seq<Row>)
    requires wave.n == before.n + 1 && wave.start - before.end > 1_800_000_000
    ensures GapFits(GapLine(wave.n, GapBetween(before, wave), before.n), Some(Heading(before, rowsBefore)),
                    Heading(wave, rows))
  {
  }

  lemma GapIsTrue(waves: seq<WaveSpan>, k: nat, m: map<string, Row>)
    requires 0 < k < |waves| && Known(waves, m) && WaveFits(waves, k, m) && WaveFits(waves, k - 1, m)
    ensures GapFits(Gaps(waves, k)[0], Some(HeadOf(waves, k - 1, m)), HeadOf(waves, k, m))
  {
    GapOfWaves(waves[k - 1], waves[k], Lookup(waves[k - 1].keys, m), Lookup(waves[k].keys, m));
  }

  lemma HeadIsTrue(waves: seq<WaveSpan>, k: nat, m: map<string, Row>)
    requires k < |waves| && Known(waves, m) && WaveFits(waves, k, m)
    ensures HeadingFits(HeadOf(waves, k, m), Lookup(waves[k].keys, m))
  {
    SourcesListed(Lookup(waves[k].keys, m));
  }

  lemma NextWaveFits(a: seq<Line>, waves: seq<WaveSpan>, k: nat, m: map<string, Row>)
    requires k < |waves| && Known(waves, m) && AllFit(waves, m) && FitsUpTo(a, waves, k, m)
    ensures Fits(a + Block(waves, k, m))
  {
    if k > 0 {
      GapIsTrue(waves, k, m);
    }
    HeadIsTrue(waves, k, m);
    BlockParts(waves, k, m);
    BlockFits(a, Gaps(waves, k), HeadOf(waves, k, m), Lookup(waves[k].keys, m));
  }

  lemma NextWaveLast(a: seq<Line>, waves: seq<WaveSpan>, k: nat, m: map<string, Row>)
    requires k < |waves| && Known(waves, m)
    ensures LastHead(a + Block(waves, k, m)) == Some(HeadOf(waves, k, m))
  {
    var gaps, body := Gaps(waves, k), [HeadOf(waves, k, m)] + RowLines(Lookup(waves[k].keys, m));
    BlockParts(waves, k, m);
    RowsHaveNoHead(a + gaps, HeadOf(waves, k, m), Lookup(waves[k].keys, m));
    assert a + gaps + body == a + (gaps + body);
  }

  lemma NextWave(waves: seq<WaveSpan>, k: nat, m: map<string, Row>)
    requires k < |waves| && Known(waves, m) && AllFit(waves, m)
    requires FitsUpTo(LinesOf(waves[..k], m), waves, k, m)
    ensures FitsUpTo(LinesOf(waves[..k + 1], m), waves, k + 1, m)
  {
    NextWaveFits(LinesOf(waves[..k], m), waves, k, m);
    NextWaveLast(LinesOf(waves[..k], m), waves, k, m);
    LinesNext(waves, k, m);
  }

  lemma {:induction false} WavesFit(waves: seq<WaveSpan>, n: nat, m: map<string, Row>)
    requires n <= |waves| && Known(waves, m) && AllFit(waves, m)
    ensures FitsUpTo(LinesOf(waves[..n], m), waves, n, m)
  {
    if n > 0 {
      WavesFit(waves, n - 1, m);
      NextWave(waves, n - 1, m);
    }
  }

  // ----- The waves of some rows -----

  lemma {:induction false} ByKeyFinds(rows: seq<Row>, r: Row)
    requires DistinctKeys(rows) && r in rows
    ensures ByKey(rows)[r.key] == r
  {
    var front, last := rows[..|rows| - 1], rows[|rows| - 1];
    if r != last {
      var i :| 0 <= i < |rows| && rows[i] == r;
      assert front[i] == r;
      ByKeyFinds(front, r);
    }
  }

  lemma {:induction false} PointOfRow(rows: seq<Row>, p: Point) returns (r: Row)
    requires p in Points(rows)
    ensures r in rows && p == Point(r.key, r.at, r.end, 1)
  {
    r := rows[|rows| - 1];
    if p != Point(r.key, r.at, r.end, 1) {
      r := PointOfRow(rows[..|rows| - 1], p);
    }
  }

  /** The rows looked up for some points of the rows are the rows of those points. */
  ghost predicate RowsOfPoints(group: seq<Point>, rows: seq<Row>) {
    |group| == |rows| && forall i :: 0 <= i < |group| ==> group[i] == Point(rows[i].key, rows[i].at, rows[i].end, 1)
  }

  lemma RowsLookedUp(rows: seq<Row>, group: seq<Point>)
    requires DistinctKeys(rows) && AllIn(Keys(group), ByKey(rows))
    requires forall p :: p in group ==> p in Points(rows)
    ensures RowsOfPoints(group, Lookup(Keys(group), ByKey(rows)))
  {
    KeysAt(group);
    forall i | 0 <= i < |group|
      ensures var r := Lookup(Keys(group), ByKey(rows))[i]; group[i] == Point(r.key, r.at, r.end, 1)
    {
      var r := PointOfRow(rows, group[i]);
      ByKeyFinds(rows, r);
    }
  }

  lemma BoundsOfPoints(group: seq<Point>, rows: seq<Row>, w: WaveSpan)
    requires RowsOfPoints(group, rows)
    requires forall p :: p in group ==> Inside(p, w)
    requires exists p :: p in group && p.start == w.start
    requires exists p :: p in group && p.EffectiveEnd() == w.end
    ensures Bounds(w.start, w.end, rows)
  {
    forall r | r in rows ensures w.start <= r.at && EndOf(r) <= w.end {
      var i :| 0 <= i < |rows| && rows[i] == r;
      assert group[i] in group;
    }
    var p :| p in group && p.start == w.start;
    var i :| 0 <= i < |group| && group[i] == p;
    assert rows[i] in rows && rows[i].at == w.start;
    var q :| q in group && q.EffectiveEnd() == w.end;
    var j :| 0 <= j < |group| && group[j] == q;
    assert rows[j] in rows && EndOf(rows[j]) == w.end;
  }

  lemma ChainOfPoints(group: seq<Point>, rows: seq<Row>, s: seq<Point>, k: nat)
    requires RowsOfPoints(group, rows)
    requires k < |Groups(s, WAVE_GAP)| && group == Groups(s, WAVE_GAP)[k]
    ensures Chained(rows)
  {
    forall i | 0 < i < |rows| ensures ChainedAt(rows, i) {
      var j := GroupIsChained(s, WAVE_GAP, k, i);
      assert rows[i].at - EndOf(rows[j]) <= 1_800_000_000;
    }
  }

  lemma WaveOfRowsFits(rows: seq<Row>, k: nat)
    requires DistinctKeys(rows) && k < |WavesOf(Points(rows), WAVE_GAP)|
    ensures Known(WavesOf(Points(rows), WAVE_GAP), ByKey(rows))
    ensures WaveFits(WavesOf(Points(rows), WAVE_GAP), k, ByKey(rows))
  {
    var s := Sort(Points(rows));
    RowWavesKnown(rows);
    WaveTransforms.WavesConserve(Points(rows), WAVE_GAP);
    NeighboursAreApart(s, WAVE_GAP);
    SortSorts(Points(rows));
    SameMembers(s, Points(rows));
    SweepInStep(s, WAVE_GAP);
    SweepSummarisesGroups(s, WAVE_GAP, k);
    GroupBounds(s, WAVE_GAP, k);
    var w, group := Sweep(s, WAVE_GAP)[k], Groups(s, WAVE_GAP)[k];
    assert w.keys == Keys(group);
    RowsLookedUp(rows, group);
    BoundsOfPoints(group, Lookup(w.keys, ByKey(rows)), w);
    ChainOfPoints(group, Lookup(w.keys, ByKey(rows)), s, k);
  }

  lemma WavesOfRowsFit(rows: seq<Row>)
    requires DistinctKeys(rows)
    ensures Known(WavesOf(Points(rows), WAVE_GAP), ByKey(rows))
    ensures AllFit(WavesOf(Points(rows), WAVE_GAP), ByKey(rows))
  {
    RowWavesKnown(rows);
    forall k | 0 <= k < |WavesOf(Points(rows), WAVE_GAP)|
      ensures WaveFits(WavesOf(Points(rows), WAVE_GAP), k, ByKey(rows))
    {
      WaveOfRowsFits(rows, k);
    }
  }

  lemma AllWavesFit(waves: seq<WaveSpan>, m: map<string, Row>)
    requires Known(waves, m) && AllFit(waves, m)
    ensures Fits(LinesOf(waves, m))
  {
    WavesFit(waves, |waves|, m);
    assert waves[..|waves|] == waves;
  }

  /** Main result: in the wave lines of some rows every heading gives the tight bounds and the sources
      of the rows directly below it, and every gap line the time since the wave before. */
  lemma WaveLinesFit(rows: seq<Row>)
    requires DistinctKeys(rows)
    ensures Fits(WaveLinesOf(rows))
  {
    WavesOfRowsFit(rows);
    AllWavesFit(WavesOf(Points(rows), WAVE_GAP), ByKey(rows));
  }

  /** A gap line reads back to at least thirty minutes. */
  lemma GapReadsLong(lines: seq<Line>, i: nat)
    requires Fits(lines) && i < |lines| && lines[i].GapLine?
    ensures GapWords.Read(lines[i].gap).Some? && GapWords.Read(lines[i].gap).value >= 1800
  {
    assert LineFits(lines, i);
    var apart := (lines[i + 1].start - LastHead(lines[..i]).value.end) as real / 1_000_000.0;
    GapWords.SpanTextReads(GapWords.WholeSeconds(apart));
  }
}
