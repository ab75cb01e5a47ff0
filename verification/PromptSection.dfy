/** The Event timeline block of a hunt prompt: which lines it has, and what they account for. */
module PromptSection {
  import opened Text
  import opened Waves
  import opened WaveLaws
  import opened Timeline
  import opened WaveHeadings
  import opened SectionLayout
  import WaveTransforms

  // ----- The rows in time order are the rows -----

  lemma LookupSnoc(s: seq<Point>, p: Point, m: map<string, Row>)
    ensures AllIn(Keys(s + [p]), m) <==> AllIn(Keys(s), m) && p.key in m
    ensures AllIn(Keys(s), m) && p.key in m ==> Lookup(Keys(s + [p]), m) == Lookup(Keys(s), m) + [m[p.key]]
  {
    assert (s + [p])[..|s|] == s;
    var k := Keys(s + [p]);
    assert k == Keys(s) + [p.key];
    assert k[|k| - 1] == p.key && forall i :: 0 <= i < |k| - 1 ==> k[i] == Keys(s)[i];
  }

  lemma {:induction false} LookupInsert(s: seq<Point>, p: Point, m: map<string, Row>)
    requires AllIn(Keys(s), m) && p.key in m
    ensures AllIn(Keys(Insert(s, p)), m)
    ensures multiset(Lookup(Keys(Insert(s, p)), m)) == multiset(Lookup(Keys(s), m)) + multiset{m[p.key]}
  {
    if s == [] || Before(s[|s| - 1], p) {
      assert Insert(s, p) == s + [p];
      LookupSnoc(s, p, m);
    } else {
      var front, last := s[..|s| - 1], s[|s| - 1];
      assert s == front + [last];
      LookupSnoc(front, last, m);
      LookupInsert(front, p, m);
      LookupSnoc(Insert(front, p), last, m);
    }
  }

  lemma {:induction false} LookupSort(ps: seq<Point>, m: map<string, Row>)
    requires AllIn(Keys(ps), m)
    ensures AllIn(Keys(Sort(ps)), m)
    ensures multiset(Lookup(Keys(Sort(ps)), m)) == multiset(Lookup(Keys(ps), m))
  {
    if ps != [] {
      var front, p := ps[..|ps| - 1], ps[|ps| - 1];
      assert ps == front + [p];
      LookupSnoc(front, p, m);
      LookupSort(front, m);
      LookupInsert(Sort(front), p, m);
    }
  }

  lemma {:induction false} LookupPoints(rows: seq<Row>, m: map<string, Row>)
    requires forall r :: r in rows ==> r.key in m && m[r.key] == r
    ensures AllIn(Keys(Points(rows)), m) && Lookup(Keys(Points(rows)), m) == rows
  {
    if rows != [] {
      var front, r := rows[..|rows| - 1], rows[|rows| - 1];
      assert rows == front + [r];
      LookupPoints(front, m);
      LookupSnoc(Points(front), Point(r.key, r.at, r.end, 1), m);
    }
  }

  lemma RowsByTimeAreRows(rows: seq<Row>)
    requires DistinctKeys(rows)
    ensures multiset(RowsByTime(rows)) == multiset(rows)
  {
    forall r | r in rows ensures r.key in ByKey(rows) && ByKey(rows)[r.key] == r {
      ByKeyFinds(rows, r);
    }
    LookupPoints(rows, ByKey(rows));
    LookupSort(Points(rows), ByKey(rows));
  }

  /** Earlier times come first; rows of one time come in the order of their ids. */
  lemma RowsByTimeSorted(rows: seq<Row>, i: nat, j: nat)
    requires DistinctKeys(rows) && i < j < |RowsByTime(rows)|
    ensures var a, b := RowsByTime(rows)[i], RowsByTime(rows)[j];
      a.at < b.at || (a.at == b.at && Precedes(a.key, b.key))
  {
    var s := Sort(Points(rows));
    SortSorts(Points(rows));
    SameMembers(s, Points(rows));
    KeysAt(s);
    assert Before(s[i], s[j]);
    assert s[i] in s && s[j] in s;
    var a := PointOfRow(rows, s[i]);
    var b := PointOfRow(rows, s[j]);
    ByKeyFinds(rows, a);
    ByKeyFinds(rows, b);
    StrLePrecedes(a.key, b.key);
  }

  // ----- Headings -----

  /** Every wave heading states the number of row lines that directly follow it. */
  predicate HeadingsTrue(lines: seq<Line>) {
    lines == []
    || ((lines[0].WaveHead? ==> lines[0].documents == |RowsUnder(lines[1..])|) && HeadingsTrue(lines[1..]))
  }

  /** The documents without a time that the lines speak of. */
  function UntimedShown(lines: seq<Line>): nat {
    if lines == [] then 0
    else
      var last := lines[|lines| - 1];
      UntimedShown(lines[..|lines| - 1]) + (if last.Untimed? then last.untimed else 0)
  }

  /** Lines that show these rows in this order under true headings, and speak of so many untimed documents. */
  ghost predicate Shows(lines: seq<Line>, rows: seq<Row>, untimed: nat) {
    && RowsIn(lines) == rows
    && HeadingsTrue(lines)
    && UntimedShown(lines) == untimed
    && StartsFresh(lines)
  }

  lemma {:induction false} HeadingsAppend(a: seq<Line>, b: seq<Line>)
    requires HeadingsTrue(a) && HeadingsTrue(b) && StartsFresh(b)
    ensures HeadingsTrue(a + b)
  {
    if a == [] {
      assert a + b == b;
    } else {
      assert (a + b)[1..] == a[1..] + b;
      RowsUnderAppend(a[1..], b);
      HeadingsAppend(a[1..], b);
    }
  }

  lemma {:induction false} OnlyRows(rows: seq<Row>)
    ensures HeadingsTrue(RowLines(rows))
  {
    if rows != [] {
      OnlyRows(rows[1..]);
      assert RowLines(rows)[1..] == RowLines(rows[1..]);
    }
  }

  lemma {:induction false} UntimedAppend(a: seq<Line>, b: seq<Line>)
    ensures UntimedShown(a + b) == UntimedShown(a) + UntimedShown(b)
  {
    if b == [] {
      assert a + b == a;
    } else {
      UntimedAppend(a, b[..|b| - 1]);
      assert (a + b)[..|a + b| - 1] == a + b[..|b| - 1];
    }
  }

  lemma ShowsAppend(a: seq<Line>, b: seq<Line>, ra: seq<Row>, rb: seq<Row>, ua: nat, ub: nat)
    requires Shows(a, ra, ua) && Shows(b, rb, ub)
    ensures Shows(a + b, ra + rb, ua + ub)
  {
    HeadingsAppend(a, b);
    RowsInAppend(a, b);
    UntimedAppend(a, b);
  }

  lemma {:induction false} NoUntimed(lines: seq<Line>)
    requires forall i :: 0 <= i < |lines| ==> !lines[i].Untimed?
    ensures UntimedShown(lines) == 0
  {
    if lines != [] {
      NoUntimed(lines[..|lines| - 1]);
    }
  }

  /** A head without rows, then rows: true when the head ends in their heading, or holds none. */
  lemma BlockShows(head: seq<Line>, rows: seq<Row>)
    requires head != [] && forall i :: 0 <= i < |head| ==> !head[i].RowLine? && !head[i].Untimed?
    requires forall i :: 0 <= i < |head| && head[i].WaveHead? ==> i == |head| - 1 && head[i].documents == |rows|
    ensures Shows(head + RowLines(rows), rows, 0)
  {
    var lines := RowLines(rows);
    BlockRows(head, lines, rows);
    NoUntimed(head + lines);
    BlockHeadings(head, rows);
  }

  lemma BlockRows(head: seq<Line>, lines: seq<Line>, rows: seq<Row>)
    requires forall i :: 0 <= i < |head| ==> !head[i].RowLine?
    requires lines == RowLines(rows)
    ensures RowsIn(head + lines) == rows
  {
    NoRows(head);
    RowsInRowLines(rows);
    RowsInAppend(head, lines);
  }

  lemma {:induction false} BlockHeadings(head: seq<Line>, rows: seq<Row>)
    requires forall i :: 0 <= i < |head| && head[i].WaveHead? ==> i == |head| - 1 && head[i].documents == |rows|
    ensures HeadingsTrue(head + RowLines(rows))
  {
    var all := head + RowLines(rows);
    OnlyRows(rows);
    RowsUnderRows(rows);
    if head == [] {
      assert all == RowLines(rows);
    } else {
      var rest := head[1..];
      assert all[1..] == rest + RowLines(rows);
      forall i | 0 <= i < |rest| && rest[i].WaveHead? ensures i == |rest| - 1 && rest[i].documents == |rows| {
        assert head[i + 1] == rest[i];
      }
      BlockHeadings(rest, rows);
      assert all[0].WaveHead? ==> rest == [] && all[1..] == RowLines(rows);
    }
  }

  lemma BlockOfWaveShows(waves: seq<WaveSpan>, k: nat, m: map<string, Row>)
    requires k < |waves| && AllIn(waves[k].keys, m)
    ensures Shows(Block(waves, k, m), Lookup(waves[k].keys, m), 0)
  {
    BlockShows(BlockHead(waves, k, m), Lookup(waves[k].keys, m));
  }

  lemma LookupWaves(waves: seq<WaveSpan>, m: map<string, Row>)
    requires waves != [] && Known(waves, m) && AllIn(WaveKeys(waves), m)
    ensures AllIn(WaveKeys(waves[..|waves| - 1]), m)
    ensures Lookup(WaveKeys(waves), m)
         == Lookup(WaveKeys(waves[..|waves| - 1]), m) + Lookup(waves[|waves| - 1].keys, m)
  {
    var before, keys := WaveKeys(waves[..|waves| - 1]), waves[|waves| - 1].keys;
    assert WaveKeys(waves) == before + keys;
    KnownParts(before, keys, m);
    LookupAppend(before, keys, m);
  }

  lemma {:induction false} WavesShow(waves: seq<WaveSpan>, m: map<string, Row>)
    requires Known(waves, m) && AllIn(WaveKeys(waves), m)
    ensures Shows(LinesOf(waves, m), Lookup(WaveKeys(waves), m), 0)
  {
    if waves != [] {
      var n := |waves| - 1;
      LookupWaves(waves, m);
      WavesShow(waves[..n], m);
      BlockOfWaveShows(waves, n, m);
      ShowsAppend(LinesOf(waves[..n], m), Block(waves, n, m),
                  Lookup(WaveKeys(waves[..n]), m), Lookup(waves[n].keys, m), 0, 0);
    }
  }

  /** The wave lines of some rows show those rows in time order under true headings. */
  lemma WaveLinesShow(rows: seq<Row>)
    ensures Shows(WaveLinesOf(rows), RowsByTime(rows), 0)
  {
    RowWavesKnown(rows);
    WaveTransforms.WavesConserve(Points(rows), WAVE_GAP);
    WavesShow(WavesOf(Points(rows), WAVE_GAP), ByKey(rows));
  }

  // ----- The section -----

  function Select(rows: seq<Row>, wanted: set<string>, keep: bool): (r: seq<Row>)
    ensures forall x :: x in r ==> x in rows && (x.key in wanted <==> keep)
  {
    if rows == [] then []
    else
      var last := rows[|rows| - 1];
      assert rows == rows[..|rows| - 1] + [last];
      Select(rows[..|rows| - 1], wanted, keep) + (if (last.key in wanted) == keep then [last] else [])
  }

  function FocusRows(rows: seq<Row>, focusIds: Option<set<string>>): seq<Row> {
    if focusIds.None? then rows else Select(rows, focusIds.value, true)
  }

  function OtherRows(rows: seq<Row>, focusIds: Option<set<string>>): seq<Row> {
    if focusIds.None? then [] else Select(rows, focusIds.value, false)
  }

  function IntroFor(rows: seq<Row>, focusIds: Option<set<string>>): Intro {
    if focusIds.Some? && FocusRows(rows, focusIds) == [] then NoFocusTime
    else if OtherRows(rows, focusIds) != [] then FocusFirst
    else Everything
  }

  predicate CitedByLead(others: seq<Row>, leadIds: set<string>) {
    exists r :: r in others && r.key in leadIds
  }

  function OthersLines(others: seq<Row>, leadIds: set<string>): seq<Line> {
    if others == [] then []
    else [OthersTitle, OthersNote(CitedByLead(others, leadIds))] + RowLines(RowsByTime(others))
  }

  function Notes(untimed: nat, omitted: int, cap: int): seq<Line> {
    (if untimed > 0 then [Untimed(untimed)] else []) + (if omitted > 0 then [Omitted(cap, omitted)] else [])
  }

  lemma SelectSnoc(rows: seq<Row>, last: Row, wanted: set<string>, keep: bool)
    ensures multiset(Select(rows + [last], wanted, keep))
         == multiset(Select(rows, wanted, keep)) + (if (last.key in wanted) == keep then multiset{last} else multiset{})
  {
    assert (rows + [last])[..|rows|] == rows;
  }

  lemma {:induction false} SelectSplits(rows: seq<Row>, wanted: set<string>)
    ensures multiset(Select(rows, wanted, true)) + multiset(Select(rows, wanted, false)) == multiset(rows)
  {
    if rows != [] {
      var front, last := rows[..|rows| - 1], rows[|rows| - 1];
      assert rows == front + [last];
      SelectSplits(front, wanted);
      SelectSnoc(front, last, wanted, true);
      SelectSnoc(front, last, wanted, false);
    }
  }

  lemma {:induction false} SelectDistinct(rows: seq<Row>, wanted: set<string>, keep: bool)
    requires DistinctKeys(rows)
    ensures DistinctKeys(Select(rows, wanted, keep))
  {
    if rows != [] {
      var front, last := rows[..|rows| - 1], rows[|rows| - 1];
      assert rows == front + [last];
      DistinctSnoc(front, last);
      SelectDistinct(front, wanted, keep);
      DistinctSnoc(Select(front, wanted, keep), last);
    }
  }

  lemma SplitRows(rows: seq<Row>, focusIds: Option<set<string>>)
    requires DistinctKeys(rows)
    ensures multiset(FocusRows(rows, focusIds)) + multiset(OtherRows(rows, focusIds)) == multiset(rows)
    ensures DistinctKeys(FocusRows(rows, focusIds)) && DistinctKeys(OtherRows(rows, focusIds))
  {
    if focusIds.Some? {
      SelectSplits(rows, focusIds.value);
      SelectDistinct(rows, focusIds.value, true);
      SelectDistinct(rows, focusIds.value, false);
    }
  }

  function Opening(intro: Intro): seq<Line> {
    [Title, IntroLine(intro)]
  }

  ghost function SectionLines(rows: seq<Row>, focusIds: Option<set<string>>, leadIds: set<string>,
                        untimed: nat, omitted: int, cap: int): seq<Line> {
    Opening(IntroFor(rows, focusIds)) + WaveLinesOf(FocusRows(rows, focusIds))
    + OthersLines(OtherRows(rows, focusIds), leadIds) + Notes(untimed, omitted, cap)
  }

  /** The section shows the focus rows and then the others, each part in time order. */
  lemma SectionShows(rows: seq<Row>, focusIds: Option<set<string>>, leadIds: set<string>,
                     untimed: nat, omitted: int, cap: int)
    ensures Shows(SectionLines(rows, focusIds, leadIds, untimed, omitted, cap),
                  RowsByTime(FocusRows(rows, focusIds)) + RowsByTime(OtherRows(rows, focusIds)), untimed)
  {
    var focus, others := FocusRows(rows, focusIds), OtherRows(rows, focusIds);
    OpeningShows(IntroFor(rows, focusIds));
    WaveLinesShow(focus);
    OthersShow(others, leadIds);
    NotesShow(untimed, omitted, cap);
    FourShow(Opening(IntroFor(rows, focusIds)), WaveLinesOf(focus), OthersLines(others, leadIds),
             Notes(untimed, omitted, cap), RowsByTime(focus), RowsByTime(others), untimed);
  }

  lemma FourShow(a: seq<Line>, w: seq<Line>, o: seq<Line>, n: seq<Line>,
                 focus: seq<Row>, others: seq<Row>, untimed: nat)
    requires Shows(a, [], 0) && Shows(w, focus, 0) && Shows(o, others, 0) && Shows(n, [], untimed)
    ensures Shows(a + w + o + n, focus + others, untimed)
  {
    ShowsAppend(a, w, [], focus, 0, 0);
    ShowsAppend(a + w, o, [] + focus, others, 0, 0);
    ShowsAppend(a + w + o, n, [] + focus + others, [], 0, untimed);
    assert [] + focus + others + [] == focus + others;
  }

  lemma OpeningShows(intro: Intro)
    ensures Shows(Opening(intro), [], 0)
  {
    BlockShows(Opening(intro), []);
    assert Opening(intro) + RowLines([]) == Opening(intro);
  }

  lemma HeadedRowsShow(note: Line, rows: seq<Row>)
    requires note.OthersNote?
    ensures Shows([OthersTitle, note] + RowLines(rows), rows, 0)
  {
    BlockShows([OthersTitle, note], rows);
  }

  lemma OthersShow(others: seq<Row>, leadIds: set<string>)
    ensures Shows(OthersLines(others, leadIds), RowsByTime(others), 0)
  {
    if others != [] {
      HeadedRowsShow(OthersNote(CitedByLead(others, leadIds)), RowsByTime(others));
    }
  }

  lemma NotesShow(untimed: nat, omitted: int, cap: int)
    ensures Shows(Notes(untimed, omitted, cap), [], untimed)
  {
    var first: seq<Line> := if untimed > 0 then [Untimed(untimed)] else [];
    var last: seq<Line> := if omitted > 0 then [Omitted(cap, omitted)] else [];
    NoRows(first);
    NoRows(last);
    NoUntimed(last);
    assert first != [] ==> first[..0] == [];
    var none: seq<Row> := [];
    ShowsAppend(first, last, none, none, untimed, 0);
    assert none + none == none;
  }

  /** The rows of the section are the rows of the documents, each once. */
  lemma SectionRows(rows: seq<Row>, focusIds: Option<set<string>>)
    requires DistinctKeys(rows)
    ensures multiset(RowsByTime(FocusRows(rows, focusIds)) + RowsByTime(OtherRows(rows, focusIds))) == multiset(rows)
    ensures |RowsByTime(FocusRows(rows, focusIds)) + RowsByTime(OtherRows(rows, focusIds))| == |rows|
  {
    SplitRows(rows, focusIds);
    RowsByTimeAreRows(FocusRows(rows, focusIds));
    RowsByTimeAreRows(OtherRows(rows, focusIds));
    SameLength(RowsByTime(FocusRows(rows, focusIds)) + RowsByTime(OtherRows(rows, focusIds)), rows);
  }

  /** The lines show the rows of the documents, each once, with true headings and gap lines, and rows and
      untimed documents together are the distinct ids. */
  ghost predicate AccountsFor(lines: seq<Line>, documents: seq<Document>) {
    && multiset(RowsIn(lines)) == multiset(RowsOf(documents))
    && HeadingsTrue(lines) && Fits(lines)
    && |RowsIn(lines)| + UntimedShown(lines) == |Ids(documents)|
  }

  lemma SectionAccounts(documents: seq<Document>, focusIds: Option<set<string>>, leadIds: set<string>,
                        omitted: int, cap: int)
    ensures AccountsFor(SectionLines(RowsOf(documents), focusIds, leadIds, UntimedOf(documents), omitted, cap),
                        documents)
  {
    SectionShows(RowsOf(documents), focusIds, leadIds, UntimedOf(documents), omitted, cap);
    RowsAndUntimed(documents);
    SectionRows(RowsOf(documents), focusIds);
    SectionFits(RowsOf(documents), focusIds, leadIds, UntimedOf(documents), omitted, cap);
  }

  lemma WaveLinesFresh(rows: seq<Row>)
    ensures StartsFresh(WaveLinesOf(rows))
  {
    WaveLinesShow(rows);
  }

  lemma OpeningPlain(intro: Intro)
    ensures Plain(Opening(intro))
  {
  }

  lemma PlainBehind(head: seq<Line>, rows: seq<Row>)
    requires head != [] && Plain(head)
    ensures Plain(head + RowLines(rows))
  {
  }

  lemma OthersPlain(others: seq<Row>, leadIds: set<string>)
    ensures Plain(OthersLines(others, leadIds))
  {
    if others != [] {
      PlainBehind([OthersTitle, OthersNote(CitedByLead(others, leadIds))], RowsByTime(others));
    }
  }

  lemma NotesPlain(untimed: nat, omitted: int, cap: int)
    ensures Plain(Notes(untimed, omitted, cap))
  {
  }

  /** Every heading and gap line of the section is true of the lines around it. */
  lemma SectionFits(rows: seq<Row>, focusIds: Option<set<string>>, leadIds: set<string>,
                    untimed: nat, omitted: int, cap: int)
    requires DistinctKeys(rows)
    ensures Fits(SectionLines(rows, focusIds, leadIds, untimed, omitted, cap))
  {
    var intro, focus, others := IntroFor(rows, focusIds), FocusRows(rows, focusIds), OtherRows(rows, focusIds);
    SplitRows(rows, focusIds);
    WaveLinesFresh(focus);
    WaveLinesFit(focus);
    OpeningPlain(intro);
    OthersPlain(others, leadIds);
    NotesPlain(untimed, omitted, cap);
    FourFit(Opening(intro), WaveLinesOf(focus), OthersLines(others, leadIds), Notes(untimed, omitted, cap));
  }

  lemma FourFit(a: seq<Line>, w: seq<Line>, o: seq<Line>, n: seq<Line>)
    requires Plain(a) && Fits(w) && StartsFresh(w) && Plain(o) && Plain(n)
    ensures Fits(a + w + o + n)
  {
    PlainFits(a);
    PlainFits(o);
    PlainFits(n);
    NoHead(a);
    FitsAppend(a, w);
    FitsAppend(a + w, o);
    FitsAppend(a + w + o, n);
  }

  // ----- The layout of the section -----

  lemma UnderHeadKept(a: seq<Line>, b: seq<Line>, i: nat)
    requires i < |a| && UnderHead(a, i)
    ensures UnderHead(a + b, i)
  {
    var j :| 0 <= j < i && a[j].WaveHead? && RowsFrom(a, j + 1, i);
    assert (a + b)[j].WaveHead? && RowsFrom(a + b, j + 1, i);
  }

  lemma UnderHeadNew(front: seq<Line>, head: Line, rows: seq<Row>, k: nat)
    requires head.WaveHead? && k < |rows|
    ensures UnderHead(front + ([head] + RowLines(rows)), |front| + 1 + k)
  {
    var all := front + ([head] + RowLines(rows));
    forall i | |front| + 1 <= i <= |front| + 1 + k ensures all[i].RowLine? {
      assert all[i] == RowLines(rows)[i - |front| - 1];
    }
    assert all[|front|].WaveHead? && RowsFrom(all, |front| + 1, |front| + 1 + k);
  }

  lemma WavesOnlyOn(a: seq<Line>, gaps: seq<Line>, head: Line, rows: seq<Row>)
    requires WavesOnly(a) && head.WaveHead? && forall i :: 0 <= i < |gaps| ==> gaps[i].GapLine?
    ensures WavesOnly(a + (gaps + ([head] + RowLines(rows))))
  {
    var body := [head] + RowLines(rows);
    var all := a + (gaps + body);
    assert all == a + gaps + body;
    forall i: nat | i < |all| ensures all[i].WaveHead? || all[i].GapLine? || (all[i].RowLine? && UnderHead(all, i)) {
      if i < |a| {
        if a[i].RowLine? {
          UnderHeadKept(a, gaps + body, i);
        }
      } else if i > |a + gaps| {
        UnderHeadNew(a + gaps, head, rows, i - |a + gaps| - 1);
      }
    }
  }

  ghost predicate WavesOnlyTo(waves: seq<WaveSpan>, n: nat, m: map<string, Row>)
    requires n <= |waves| && Known(waves, m)
  {
    WavesOnly(LinesOf(waves[..n], m))
  }

  lemma NextIsWave(waves: seq<WaveSpan>, k: nat, m: map<string, Row>)
    requires k < |waves| && Known(waves, m) && WavesOnlyTo(waves, k, m)
    ensures WavesOnlyTo(waves, k + 1, m)
  {
    LinesNext(waves, k, m);
    BlockParts(waves, k, m);
    WavesOnlyOn(LinesOf(waves[..k], m), Gaps(waves, k), HeadOf(waves, k, m), Lookup(waves[k].keys, m));
  }

  lemma {:induction false} LinesAreWaves(waves: seq<WaveSpan>, n: nat, m: map<string, Row>)
    requires n <= |waves| && Known(waves, m)
    ensures WavesOnlyTo(waves, n, m)
  {
    if n > 0 {
      LinesAreWaves(waves, n - 1, m);
      NextIsWave(waves, n - 1, m);
    }
  }

  lemma WaveLinesAreWaves(rows: seq<Row>)
    ensures WavesOnly(WaveLinesOf(rows))
  {
    RowWavesKnown(rows);
    var waves := WavesOf(Points(rows), WAVE_GAP);
    LinesAreWaves(waves, |waves|, ByKey(rows));
    assert waves[..|waves|] == waves;
  }

  /** Where the row of line `i` stands among the rows shown. */
  lemma RowAtLine(lines: seq<Line>, i: nat) returns (k: nat)
    requires i < |lines| && lines[i].RowLine?
    ensures k == |RowsIn(lines[..i])| < |RowsIn(lines)| && RowsIn(lines)[k] == lines[i].row
    ensures |RowsIn(lines[..i + 1])| == k + 1
  {
    var front, rest := lines[..i], lines[i + 1..];
    k := |RowsIn(front)|;
    assert lines[..i + 1][..i] == front;
    assert lines == lines[..i + 1] + rest;
    RowsInAppend(lines[..i + 1], rest);
  }

  lemma RowsInGrows(lines: seq<Line>, i: nat, j: nat)
    requires i <= j <= |lines|
    ensures |RowsIn(lines[..i])| <= |RowsIn(lines[..j])|
  {
    assert lines[..j] == lines[..i] + lines[i..j];
    RowsInAppend(lines[..i], lines[i..j]);
  }

  lemma AscendingLines(lines: seq<Line>, rows: seq<Row>)
    requires RowsIn(lines) == rows && Ascending(rows)
    ensures LinesAscending(lines)
  {
    forall i, j | 0 <= i < j < |lines| && lines[i].RowLine? && lines[j].RowLine?
      ensures Earlier(lines[i].row, lines[j].row)
    {
      var a := RowAtLine(lines, i);
      var b := RowAtLine(lines, j);
      RowsInGrows(lines, i + 1, j);
    }
  }

  lemma RowsByTimeAscend(rows: seq<Row>)
    requires DistinctKeys(rows)
    ensures Ascending(RowsByTime(rows))
  {
    forall i, j | 0 <= i < j < |RowsByTime(rows)| ensures Earlier(RowsByTime(rows)[i], RowsByTime(rows)[j]) {
      RowsByTimeSorted(rows, i, j);
    }
  }

  lemma RowsByTimeMembers(rows: seq<Row>)
    requires DistinctKeys(rows)
    ensures |RowsByTime(rows)| == |rows| && forall r :: r in RowsByTime(rows) <==> r in rows
  {
    RowsByTimeAreRows(rows);
    SameMembers(RowsByTime(rows), rows);
    SameLength(RowsByTime(rows), rows);
  }

  lemma WaveRowsWanted(rows: seq<Row>, focusIds: Option<set<string>>)
    requires DistinctKeys(rows) && forall r :: r in rows ==> Wanted(focusIds, r.key)
    ensures var w := WaveLinesOf(rows);
      && (forall k :: 0 <= k < |w| && w[k].RowLine? ==> Wanted(focusIds, w[k].row.key))
      && (rows != [] ==> exists k :: 0 <= k < |w| && w[k].RowLine?)
  {
    var w := WaveLinesOf(rows);
    WaveLinesShow(rows);
    RowsByTimeMembers(rows);
    forall k | 0 <= k < |w| && w[k].RowLine? ensures Wanted(focusIds, w[k].row.key) {
      var i := RowAtLine(w, k);
      assert RowsIn(w)[i] in RowsByTime(rows);
    }
    if forall k :: 0 <= k < |w| ==> !w[k].RowLine? {
      NoRows(w);
    }
  }

  lemma OthersAreParts(others: seq<Row>, leadIds: set<string>)
    requires DistinctKeys(others)
    ensures OthersLines(others, leadIds) == OthersPart(RowsByTime(others), CitedByLead(others, leadIds))
    ensures CitedByLead(others, leadIds) <==>
      exists k :: 0 <= k < |RowsByTime(others)| && RowsByTime(others)[k].key in leadIds
  {
    var sorted := RowsByTime(others);
    RowsByTimeMembers(others);
    if r :| r in others && r.key in leadIds {
      assert r in sorted;
      var k :| 0 <= k < |sorted| && sorted[k] == r;
    }
    if k :| 0 <= k < |sorted| && sorted[k].key in leadIds {
      assert sorted[k] in others;
    }
  }

  /** Wave lines that show wanted rows in order, and some row if there are any. */
  ghost predicate FocusReady(waves: seq<Line>, focusIds: Option<set<string>>) {
    && WavesOnly(waves) && LinesAscending(waves)
    && (forall k :: 0 <= k < |waves| && waves[k].RowLine? ==> Wanted(focusIds, waves[k].row.key))
    && (waves != [] ==> exists k :: 0 <= k < |waves| && waves[k].RowLine?)
  }

  /** Unwanted rows in order, and whether the lead cites one. */
  ghost predicate OthersReady(rows: seq<Row>, cited: bool, focusIds: Option<set<string>>, leadIds: set<string>) {
    && Ascending(rows)
    && (forall k :: 0 <= k < |rows| ==> !Wanted(focusIds, rows[k].key))
    && (cited <==> exists k :: 0 <= k < |rows| && rows[k].key in leadIds)
  }

  lemma FourLaidOut(lines: seq<Line>, intro: Intro, waves: seq<Line>, rows: seq<Row>, cited: bool, notes: seq<Line>,
                    focusIds: Option<set<string>>, leadIds: set<string>, untimed: nat, omitted: int, cap: int)
    requires FocusReady(waves, focusIds) && OthersReady(rows, cited, focusIds, leadIds)
    requires intro ==
      if focusIds.Some? && waves == [] then NoFocusTime else if rows != [] then FocusFirst else Everything
    requires notes == Notes(untimed, omitted, cap)
    requires lines == [Title, IntroLine(intro)] + waves + OthersPart(rows, cited) + notes
    ensures LaidOut(lines, focusIds, leadIds, untimed, omitted, cap)
  {
    PartsPlaced(lines, intro, waves, rows, cited, notes, focusIds);
    PartsHeaded(lines, intro, waves, rows, cited, notes, leadIds);
    PartsIntroduced(lines, intro, waves, rows, cited, notes, focusIds);
    PartsNoted(lines, intro, waves, rows, cited, notes, untimed, omitted, cap);
  }

  lemma FocusIsReady(focus: seq<Row>, focusIds: Option<set<string>>)
    requires DistinctKeys(focus) && forall r :: r in focus ==> Wanted(focusIds, r.key)
    ensures FocusReady(WaveLinesOf(focus), focusIds) && (WaveLinesOf(focus) == [] <==> focus == [])
  {
    NoWaves();
    WaveLinesShow(focus);
    WaveLinesAreWaves(focus);
    RowsByTimeAscend(focus);
    AscendingLines(WaveLinesOf(focus), RowsByTime(focus));
    WaveRowsWanted(focus, focusIds);
  }

  lemma OthersAreReady(others: seq<Row>, focusIds: Option<set<string>>, leadIds: set<string>)
    requires DistinctKeys(others) && forall r :: r in others ==> !Wanted(focusIds, r.key)
    ensures OthersReady(RowsByTime(others), CitedByLead(others, leadIds), focusIds, leadIds)
    ensures RowsByTime(others) == [] <==> others == []
  {
    RowsByTimeAscend(others);
    RowsByTimeMembers(others);
    OthersAreParts(others, leadIds);
  }

  lemma SectionIsFour(rows: seq<Row>, focusIds: Option<set<string>>, leadIds: set<string>,
                      untimed: nat, omitted: int, cap: int)
    requires DistinctKeys(OtherRows(rows, focusIds))
    ensures var others := OtherRows(rows, focusIds);
      SectionLines(rows, focusIds, leadIds, untimed, omitted, cap) ==
        [Title, IntroLine(IntroFor(rows, focusIds))] + WaveLinesOf(FocusRows(rows, focusIds))
        + OthersPart(RowsByTime(others), CitedByLead(others, leadIds)) + Notes(untimed, omitted, cap)
  {
    OthersAreParts(OtherRows(rows, focusIds), leadIds);
  }

  /** The focus rows stand in the waves and the other rows behind them, whatever the ids. */
  lemma SectionLaidOut(rows: seq<Row>, focusIds: Option<set<string>>, leadIds: set<string>,
                       untimed: nat, omitted: int, cap: int)
    requires DistinctKeys(rows)
    ensures LaidOut(SectionLines(rows, focusIds, leadIds, untimed, omitted, cap),
                    focusIds, leadIds, untimed, omitted, cap)
  {
    var focus, others := FocusRows(rows, focusIds), OtherRows(rows, focusIds);
    SplitRows(rows, focusIds);
    FocusIsReady(focus, focusIds);
    OthersAreReady(others, focusIds, leadIds);
    SectionIsFour(rows, focusIds, leadIds, untimed, omitted, cap);
    FourLaidOut(SectionLines(rows, focusIds, leadIds, untimed, omitted, cap), IntroFor(rows, focusIds),
                WaveLinesOf(focus), RowsByTime(others), CitedByLead(others, leadIds), Notes(untimed, omitted, cap),
                focusIds, leadIds, untimed, omitted, cap);
  }

  /** The row lines are those of the first documents with a time, each once. */
  ghost predicate ShowsFirsts(lines: seq<Line>, documents: seq<Document>) {
    && (forall r :: RowLine(r) in lines <==>
          exists i: nat :: FirstAndTimed(documents, i, r.key) && RowShows(documents[i], r))
    && (forall i, j :: 0 <= i < j < |lines| && lines[i].RowLine? && lines[j].RowLine? ==>
          lines[i].row.key != lines[j].row.key)
  }

  lemma {:induction false} InRows(lines: seq<Line>, r: Row)
    ensures RowLine(r) in lines <==> r in RowsIn(lines)
  {
    if lines != [] {
      InRows(lines[..|lines| - 1], r);
      assert lines == lines[..|lines| - 1] + [lines[|lines| - 1]];
    }
  }

  lemma AccountedShows(lines: seq<Line>, documents: seq<Document>)
    requires AccountsFor(lines, documents)
    ensures ShowsFirsts(lines, documents)
  {
    var shown := RowsIn(lines);
    RowsAndUntimed(documents);
    DistinctRearranged(RowsOf(documents), shown);
    SameMembers(shown, RowsOf(documents));
    forall r
      ensures RowLine(r) in lines <==> exists i: nat :: FirstAndTimed(documents, i, r.key) && RowShows(documents[i], r)
    {
      InRows(lines, r);
      RowForId(documents, r);
    }
    forall i, j | 0 <= i < j < |lines| && lines[i].RowLine? && lines[j].RowLine?
      ensures lines[i].row.key != lines[j].row.key
    {
      var a := RowAtLine(lines, i);
      var b := RowAtLine(lines, j);
      RowsInGrows(lines, i + 1, j);
    }
  }

  /** The block, or nothing with fewer than two timed documents. */
  method EventTimeline(documents: seq<Document>, focusIds: Option<set<string>>, omitted: int, cap: int,
                       leadIds: set<string>)
    returns (section: Option<seq<Line>>)
    ensures section.None? <==> |Firsts(documents, true)| < 2
    // The rows shown are those of the first documents with a time, each once.
    ensures section.Some? ==> ShowsFirsts(section.value, documents)
    // Which stand in the waves and which behind them, in which order, and what the other lines say.
    ensures section.Some? ==>
      LaidOut(section.value, focusIds, leadIds, |Firsts(documents, false)|, omitted, cap)
    // Every heading and gap line is true of the rows around it, and every id is accounted for.
    ensures section.Some? ==> AccountsFor(section.value, documents)
    ensures section.Some? ==>
      section.value == SectionLines(RowsOf(documents), focusIds, leadIds, UntimedOf(documents), omitted, cap)
  {
    var rows, untimed := TimedRows(documents);
    FirstsCounted(documents);
    if |rows| < 2 {
      return None;
    }
    var lines := Section(rows, focusIds, leadIds, untimed, omitted, cap);
    section := Some(lines);
    RowsAndUntimed(documents);
    SectionAccounts(documents, focusIds, leadIds, omitted, cap);
    SectionLaidOut(rows, focusIds, leadIds, untimed, omitted, cap);
    AccountedShows(lines, documents);
  }

  /** The lines of the block, part by part. */
  method Section(rows: seq<Row>, focusIds: Option<set<string>>, leadIds: set<string>,
                 untimed: nat, omitted: int, cap: int)
    returns (lines: seq<Line>)
    ensures lines == SectionLines(rows, focusIds, leadIds, untimed, omitted, cap)
  {
    var focus := if focusIds.None? then rows else Select(rows, focusIds.value, true);
    var others := if focusIds.None? then [] else Select(rows, focusIds.value, false);
    var intro := if focusIds.Some? && focus == [] then NoFocusTime else if others != [] then FocusFirst else Everything;
    var waves: seq<Line> := [];
    NoWaves();
    if focus != [] {
      waves := WaveLines(focus);
    }
    lines := [Title, IntroLine(intro)] + waves + OthersLines(others, leadIds) + Notes(untimed, omitted, cap);
  }

  lemma NoWaves()
    ensures WaveLinesOf([]) == []
  {
    assert Sort([]) == [] && WavesOf(Points([]), WAVE_GAP) == [];
  }

  lemma SameLength<T>(a: seq<T>, b: seq<T>)
    requires multiset(a) == multiset(b)
    ensures |a| == |b|
  {
    assert |multiset(a)| == |a| && |multiset(b)| == |b|;
  }

  // ----- Ids -----

  lemma {:induction false} DistinctOccurOnce(rows: seq<Row>, r: Row)
    requires DistinctKeys(rows)
    ensures multiset(rows)[r] <= 1
  {
    if rows != [] {
      var front, last := rows[..|rows| - 1], rows[|rows| - 1];
      assert rows == front + [last];
      DistinctSnoc(front, last);
      DistinctOccurOnce(front, r);
      assert last in multiset(front) <==> last in front;
    }
  }

  lemma OccursTwice<T>(s: seq<T>, i: nat, j: nat)
    requires i < j < |s|
    ensures s[i] == s[j] ==> multiset(s)[s[i]] >= 2
  {
    var a, b := s[..j], s[j..];
    assert s == a + b;
    assert a[i] in multiset(a) && b[0] in multiset(b);
  }

  lemma DistinctRearranged(rows: seq<Row>, shown: seq<Row>)
    requires DistinctKeys(rows) && multiset(shown) == multiset(rows)
    ensures DistinctKeys(shown)
  {
    SameMembers(shown, rows);
    forall i, j | 0 <= i < j < |shown| ensures shown[i].key != shown[j].key {
      assert shown[i] in rows && shown[j] in rows;
      ByKeyFinds(rows, shown[i]);
      ByKeyFinds(rows, shown[j]);
      DistinctOccurOnce(rows, shown[i]);
      OccursTwice(shown, i, j);
    }
  }

  /** Main result about ids: in lines that show the rows of the documents, no id has two row lines,
      and an id has one exactly when the first document with that id has a time. */
  lemma EachTimedIdOnce(documents: seq<Document>, lines: seq<Line>, id: string)
    requires multiset(RowsIn(lines)) == multiset(RowsOf(documents))
    ensures DistinctKeys(RowsIn(lines))
    ensures (exists r :: r in RowsIn(lines) && r.key == id) <==>
      exists i: nat :: FirstAndTimed(documents, i, id)
  {
    var shown := RowsIn(lines);
    RowsAndUntimed(documents);
    DistinctRearranged(RowsOf(documents), shown);
    SameMembers(shown, RowsOf(documents));
    if exists r :: r in shown && r.key == id {
      var r :| r in shown && r.key == id;
      RowForId(documents, r);
    }
    if exists i: nat :: FirstAndTimed(documents, i, id) {
      var i: nat :| FirstAndTimed(documents, i, id);
      var r := RowOf(documents[i]);
      RowOfShows(documents[i], r);
      RowForId(documents, r);
      assert r in shown && r.key == id;
    }
  }
}
