/** How soc_ai/event_time.py turns documents into rows, and rows into the printed lines of their waves. A
    line is kept as the facts it prints; the wording around them is not part of this model. */
module Timeline {
  import opened Text
  import opened Waves
  import opened WaveLaws
  import WaveTransforms
  import GapWords

  const WAVE_GAP := 30 * 60 * 1_000_000
  /** The last instant a time can hold, in microseconds from the first. */
  const LATEST := 3_652_059 * 86_400_000_000 - 1

  datatype Fields = Fields(id: Option<string>, timestamp: Option<int>, duration: Option<int>, source: Option<string>)

  /** A document, or something that has no fields. */
  datatype Document = Unreadable | Document(fields: Fields)

  datatype Row = Row(key: string, at: int, end: Option<int>, fields: Fields)

  datatype Intro = NoFocusTime | FocusFirst | Everything

  datatype Line =
    | Title
    | IntroLine(intro: Intro)
    | GapLine(n: nat, gap: string, previous: nat)
    | WaveHead(wave: nat, start: int, end: int, documents: nat, sources: seq<string>)
    | RowLine(row: Row)
    | OthersTitle
    | OthersNote(leads: bool)
    | Untimed(untimed: nat)
    | Omitted(cap: int, omitted: int)

  // ----- Documents with a time -----

  function DurationEnd(at: int, duration: Option<int>): (end: Option<int>)
    ensures end.Some? <==> duration.Some? && duration.value > 0 && at + duration.value <= LATEST
    ensures end.Some? ==> end.value - at == duration.value
  {
    if duration.None? || duration.value <= 0 || at + duration.value > LATEST then None
    else Some(at + duration.value)
  }

  function IdOf(d: Document): Option<string> {
    if d.Unreadable? then None else d.fields.id
  }

  function Ids(documents: seq<Document>): set<string> {
    set d | d in documents && IdOf(d).Some? :: IdOf(d).value
  }

  predicate IsNew(earlier: seq<Document>, d: Document) {
    IdOf(d).Some? && IdOf(d).value !in Ids(earlier)
  }

  function RowOf(d: Document): Row
    requires IdOf(d).Some? && d.fields.timestamp.Some?
  {
    var at := d.fields.timestamp.value;
    Row(d.fields.id.value, at, DurationEnd(at, d.fields.duration), d.fields)
  }

  /** The first document of each id, when it has a time. */
  function RowsOf(documents: seq<Document>): seq<Row> {
    if documents == [] then []
    else
      var front, d := documents[..|documents| - 1], documents[|documents| - 1];
      RowsOf(front) + (if IsNew(front, d) && d.fields.timestamp.Some? then [RowOf(d)] else [])
  }

  function UntimedOf(documents: seq<Document>): nat {
    if documents == [] then 0
    else
      var front, d := documents[..|documents| - 1], documents[|documents| - 1];
      UntimedOf(front) + (if IsNew(front, d) && d.fields.timestamp.None? then 1 else 0)
  }

  lemma IdsGrow(front: seq<Document>, d: Document)
    ensures Ids(front + [d]) == Ids(front) + (if IdOf(d).Some? then {IdOf(d).value} else {})
  {
    assert forall x :: x in front + [d] <==> x in front || x == d;
  }

  lemma RowsNext(documents: seq<Document>, i: nat)
    requires i < |documents|
    ensures Ids(documents[..i + 1]) ==
      Ids(documents[..i]) + (if IdOf(documents[i]).Some? then {IdOf(documents[i]).value} else {})
    ensures RowsOf(documents[..i + 1]) == RowsOf(documents[..i]) +
      (if IsNew(documents[..i], documents[i]) && documents[i].fields.timestamp.Some? then [RowOf(documents[i])] else [])
    ensures UntimedOf(documents[..i + 1]) == UntimedOf(documents[..i]) +
      (if IsNew(documents[..i], documents[i]) && documents[i].fields.timestamp.None? then 1 else 0)
  {
    assert documents[..i + 1][..i] == documents[..i];
    assert documents[..i + 1] == documents[..i] + [documents[i]];
    IdsGrow(documents[..i], documents[i]);
  }

  method TimedRows(documents: seq<Document>) returns (rows: seq<Row>, untimed: nat)
    ensures rows == RowsOf(documents) && untimed == UntimedOf(documents)
  {
    rows, untimed := [], 0;
    var seen: set<string> := {};
    for i := 0 to |documents|
      invariant rows == RowsOf(documents[..i]) && untimed == UntimedOf(documents[..i])
      invariant seen == Ids(documents[..i])
    {
      var d := documents[i];
      RowsNext(documents, i);
      if d.Unreadable? || d.fields.id.None? || d.fields.id.value in seen {
        continue;
      }
      seen := seen + {d.fields.id.value};
      if d.fields.timestamp.None? {
        untimed := untimed + 1;
        continue;
      }
      var at := d.fields.timestamp.value;
      rows := rows + [Row(d.fields.id.value, at, DurationEnd(at, d.fields.duration), d.fields)];
    }
    assert documents[..|documents|] == documents;
  }

  ghost predicate DistinctKeys(rows: seq<Row>) {
    forall i, j :: 0 <= i < j < |rows| ==> rows[i].key != rows[j].key
  }

  lemma DistinctSnoc(rows: seq<Row>, r: Row)
    ensures DistinctKeys(rows + [r]) <==> DistinctKeys(rows) && forall x :: x in rows ==> x.key != r.key
  {
    var all := rows + [r];
    assert forall i :: 0 <= i < |rows| ==> all[i] == rows[i];
    if DistinctKeys(all) {
      forall x | x in rows ensures x.key != r.key {
        var i :| 0 <= i < |rows| && rows[i] == x;
        assert all[i].key != all[|rows|].key;
      }
      forall i, j | 0 <= i < j < |rows| ensures rows[i].key != rows[j].key {
        assert all[i].key != all[j].key;
      }
    }
  }

  /** Every distinct id is counted once, as a row or as untimed; no two rows share an id. */
  lemma {:induction false} RowsAndUntimed(documents: seq<Document>)
    ensures |RowsOf(documents)| + UntimedOf(documents) == |Ids(documents)|
    ensures DistinctKeys(RowsOf(documents))
    ensures forall r :: r in RowsOf(documents) ==> r.key in Ids(documents)
  {
    if documents != [] {
      var front, d := documents[..|documents| - 1], documents[|documents| - 1];
      RowsAndUntimed(front);
      assert documents == front + [d];
      IdsGrow(front, d);
      if IsNew(front, d) && d.fields.timestamp.Some? {
        DistinctSnoc(RowsOf(front), RowOf(d));
      }
    }
  }

  ghost predicate HasId(d: Document, id: string) {
    d.Document? && d.fields.id == Some(id)
  }

  /** Document `i` is the first with this id. */
  ghost predicate IsFirst(documents: seq<Document>, i: nat, id: string) {
    i < |documents| && HasId(documents[i], id) && forall k :: 0 <= k < i ==> !HasId(documents[k], id)
  }

  /** Document `i` is the first with this id, and has a time. */
  ghost predicate FirstAndTimed(documents: seq<Document>, i: nat, id: string) {
    IsFirst(documents, i, id) && documents[i].fields.timestamp.Some?
  }

  /** The row of a document: its id, its time, and its time plus its duration, when that is positive and
      still within the calendar. */
  ghost predicate RowShows(d: Document, r: Row) {
    && d.Document? && d.fields.id == Some(r.key) && d.fields.timestamp == Some(r.at) && r.fields == d.fields
    && var duration := d.fields.duration;
    r.end ==
      if duration.Some? && duration.value > 0 && r.at + duration.value < 315_537_897_600_000_000
      then Some(r.at + duration.value) else None
  }

  ghost predicate RowAt(documents: seq<Document>, i: nat, r: Row) {
    FirstAndTimed(documents, i, r.key) && RowShows(documents[i], r)
  }

  lemma RowAtFront(documents: seq<Document>, n: nat, i: nat, r: Row)
    requires i < n <= |documents|
    ensures RowAt(documents, i, r) <==> RowAt(documents[..n], i, r)
  {
  }

  lemma {:induction false} InIds(documents: seq<Document>, id: string)
    ensures id in Ids(documents) <==> exists k :: 0 <= k < |documents| && HasId(documents[k], id)
  {
    if id in Ids(documents) {
      var d :| d in documents && IdOf(d) == Some(id);
      var k :| 0 <= k < |documents| && documents[k] == d;
      assert HasId(documents[k], id);
    }
    if k :| 0 <= k < |documents| && HasId(documents[k], id) {
      assert documents[k] in documents && IdOf(documents[k]) == Some(id);
    }
  }

  lemma NewIsFirst(documents: seq<Document>, n: nat, id: string)
    requires n < |documents|
    ensures IsFirst(documents, n, id) <==> IsNew(documents[..n], documents[n]) && documents[n].fields.id == Some(id)
  {
    InIds(documents[..n], id);
    assert forall k :: 0 <= k < n ==> documents[..n][k] == documents[k];
    if IsFirst(documents, n, id) {
      assert forall k :: 0 <= k < n ==> !HasId(documents[..n][k], id);
    } else if k :| 0 <= k < n && HasId(documents[k], id) {
      assert HasId(documents[..n][k], id);
    }
  }

  lemma RowOfShows(d: Document, r: Row)
    requires IdOf(d).Some? && d.fields.timestamp.Some?
    ensures r == RowOf(d) <==> RowShows(d, r)
  {
  }

  lemma RowsLast(documents: seq<Document>, r: Row)
    requires documents != []
    ensures var front, d := documents[..|documents| - 1], documents[|documents| - 1];
      r in RowsOf(documents) <==>
        r in RowsOf(front) || (IsNew(front, d) && d.fields.timestamp.Some? && r == RowOf(d))
  {
  }

  lemma RowAtLast(documents: seq<Document>, r: Row)
    requires documents != []
    ensures var n := |documents| - 1;
      r in RowsOf(documents) <==> r in RowsOf(documents[..n]) || RowAt(documents, n, r)
  {
    var n := |documents| - 1;
    var d := documents[n];
    RowsLast(documents, r);
    NewIsFirst(documents, n, r.key);
    if IdOf(d).Some? && d.fields.timestamp.Some? {
      RowOfShows(d, r);
    }
  }

  /** A row is there exactly when it is the row of the first document with its id, and that has a time. */
  lemma RowForId(documents: seq<Document>, r: Row)
    ensures r in RowsOf(documents) <==>
      exists i: nat :: FirstAndTimed(documents, i, r.key) && RowShows(documents[i], r)
  {
    RowIsThere(documents, r);
    if i: nat :| FirstAndTimed(documents, i, r.key) && RowShows(documents[i], r) {
      assert RowAt(documents, i, r);
    }
    if i: nat :| RowAt(documents, i, r) {
      assert FirstAndTimed(documents, i, r.key);
    }
  }

  lemma {:induction false} RowIsThere(documents: seq<Document>, r: Row)
    ensures r in RowsOf(documents) <==> exists i: nat :: RowAt(documents, i, r)
  {
    if documents != [] {
      var n := |documents| - 1;
      RowIsThere(documents[..n], r);
      RowAtLast(documents, r);
      if i: nat :| RowAt(documents[..n], i, r) {
        RowAtFront(documents, n, i, r);
      }
      if i: nat :| RowAt(documents, i, r) {
        if i < n {
          RowAtFront(documents, n, i, r);
        }
      }
    }
  }

  /** The documents that are the first with their id and have a time, or have none. */
  ghost function Firsts(documents: seq<Document>, timed: bool): set<int> {
    set i | 0 <= i < |documents| && IsFirstOf(documents, i, timed)
  }

  ghost predicate IsFirstOf(documents: seq<Document>, i: nat, timed: bool)
    requires i < |documents|
  {
    && documents[i].Document? && documents[i].fields.id.Some?
    && IsFirst(documents, i, documents[i].fields.id.value) && documents[i].fields.timestamp.Some? == timed
  }

  lemma FirstsNext(documents: seq<Document>, timed: bool)
    requires documents != []
    ensures var n := |documents| - 1;
      Firsts(documents, timed) == Firsts(documents[..n], timed) + (if IsFirstOf(documents, n, timed) then {n} else {})
  {
    var n := |documents| - 1;
    forall i | 0 <= i < n ensures IsFirstOf(documents, i, timed) <==> IsFirstOf(documents[..n], i, timed) {
    }
  }

  /** There are as many rows as first documents with a time, and as many untimed as without. */
  lemma {:induction false} FirstsCounted(documents: seq<Document>)
    ensures |RowsOf(documents)| == |Firsts(documents, true)|
    ensures UntimedOf(documents) == |Firsts(documents, false)|
  {
    if documents != [] {
      var n := |documents| - 1;
      var d := documents[n];
      FirstsCounted(documents[..n]);
      FirstsNext(documents, true);
      FirstsNext(documents, false);
      if d.Document? && d.fields.id.Some? {
        NewIsFirst(documents, n, d.fields.id.value);
      }
    }
  }

  // ----- Lines of the waves -----

  function Points(rows: seq<Row>): seq<Point> {
    if rows == [] then []
    else
      var r := rows[|rows| - 1];
      Points(rows[..|rows| - 1]) + [Point(r.key, r.at, r.end, 1)]
  }

  function ByKey(rows: seq<Row>): (m: map<string, Row>)
    ensures forall k :: k in m ==> m[k].key == k && m[k] in rows
    ensures forall r :: r in rows ==> r.key in m
  {
    if rows == [] then map[]
    else
      var r := rows[|rows| - 1];
      assert rows == rows[..|rows| - 1] + [r];
      ByKey(rows[..|rows| - 1])[r.key := r]
  }

  ghost predicate AllIn(keys: seq<string>, m: map<string, Row>) {
    forall i :: 0 <= i < |keys| ==> keys[i] in m
  }

  function Lookup(keys: seq<string>, m: map<string, Row>): (rows: seq<Row>)
    requires AllIn(keys, m)
    ensures |rows| == |keys| && forall i :: 0 <= i < |keys| ==> rows[i] == m[keys[i]]
  {
    if keys == [] then [] else Lookup(keys[..|keys| - 1], m) + [m[keys[|keys| - 1]]]
  }

  function RowLines(rows: seq<Row>): (lines: seq<Line>)
    ensures |lines| == |rows| && forall i :: 0 <= i < |rows| ==> lines[i] == RowLine(rows[i])
  {
    seq(|rows|, i requires 0 <= i < |rows| => RowLine(rows[i]))
  }

  /** The sources of some rows, each once, in the order they first appear. */
  function Sources(rows: seq<Row>): seq<string> {
    if rows == [] then []
    else
      var front, src := Sources(rows[..|rows| - 1]), rows[|rows| - 1].fields.source;
      if src.Some? && src.value != "" && src.value !in front then front + [src.value] else front
  }

  function GapBetween(previous: WaveSpan, wave: WaveSpan): string {
    GapWords.Words((wave.start - previous.end) as real / 1_000_000.0)
  }

  function Heading(wave: WaveSpan, rows: seq<Row>): Line {
    WaveHead(wave.n, wave.start, wave.end, |rows|, Sources(rows))
  }

  ghost predicate Known(waves: seq<WaveSpan>, m: map<string, Row>) {
    forall k :: 0 <= k < |waves| ==> AllIn(waves[k].keys, m)
  }

  /** The lines of wave `k` before its rows. */
  function BlockHead(waves: seq<WaveSpan>, k: nat, m: map<string, Row>): seq<Line>
    requires k < |waves| && AllIn(waves[k].keys, m)
  {
    (if k > 0 then [GapLine(waves[k].n, GapBetween(waves[k - 1], waves[k]), waves[k - 1].n)] else [])
    + [Heading(waves[k], Lookup(waves[k].keys, m))]
  }

  function Block(waves: seq<WaveSpan>, k: nat, m: map<string, Row>): seq<Line>
    requires k < |waves| && AllIn(waves[k].keys, m)
  {
    BlockHead(waves, k, m) + RowLines(Lookup(waves[k].keys, m))
  }

  function LinesOf(waves: seq<WaveSpan>, m: map<string, Row>): seq<Line>
    requires Known(waves, m)
  {
    if waves == [] then []
    else
      var n := |waves| - 1;
      LinesOf(waves[..n], m) + Block(waves, n, m)
  }

  lemma {:induction false} PointsOfRows(rows: seq<Row>, p: Point)
    requires p in Points(rows)
    ensures p.key in ByKey(rows)
  {
    var r := rows[|rows| - 1];
    if p != Point(r.key, r.at, r.end, 1) {
      PointsOfRows(rows[..|rows| - 1], p);
    }
  }

  lemma {:induction false} KeysOfPoints(ps: seq<Point>, key: string)
    requires key in Keys(ps)
    ensures exists p :: p in ps && p.key == key
  {
    var p := ps[|ps| - 1];
    if key != p.key {
      KeysOfPoints(ps[..|ps| - 1], key);
    }
  }

  lemma KeysKnown(rows: seq<Row>)
    ensures AllIn(Keys(Sort(Points(rows))), ByKey(rows))
  {
    var s := Sort(Points(rows));
    forall i | 0 <= i < |Keys(s)| ensures Keys(s)[i] in ByKey(rows) {
      KeysOfPoints(s, Keys(s)[i]);
      var p :| p in s && p.key == Keys(s)[i];
      SameMembers(s, Points(rows));
      PointsOfRows(rows, p);
    }
  }

  lemma {:induction false} WaveKeysKnown(waves: seq<WaveSpan>, m: map<string, Row>)
    requires AllIn(WaveKeys(waves), m)
    ensures Known(waves, m)
  {
    if waves != [] {
      var n := |waves| - 1;
      KnownParts(WaveKeys(waves[..n]), waves[n].keys, m);
      WaveKeysKnown(waves[..n], m);
    }
  }

  ghost function WaveLinesOf(rows: seq<Row>): seq<Line> {
    RowWavesKnown(rows);
    LinesOf(WavesOf(Points(rows), WAVE_GAP), ByKey(rows))
  }

  lemma RowWavesKnown(rows: seq<Row>)
    ensures AllIn(WaveKeys(WavesOf(Points(rows), WAVE_GAP)), ByKey(rows))
    ensures Known(WavesOf(Points(rows), WAVE_GAP), ByKey(rows))
  {
    WaveTransforms.WavesConserve(Points(rows), WAVE_GAP);
    KeysKnown(rows);
    WaveKeysKnown(WavesOf(Points(rows), WAVE_GAP), ByKey(rows));
  }

  method ListSources(rows: seq<Row>) returns (sources: seq<string>)
    ensures sources == Sources(rows)
  {
    sources := [];
    for i := 0 to |rows|
      invariant sources == Sources(rows[..i])
    {
      assert rows[..i + 1][..i] == rows[..i];
      var src := rows[i].fields.source;
      if src.Some? && src.value != "" && src.value !in sources {
        sources := sources + [src.value];
      }
    }
    assert rows[..|rows|] == rows;
  }

  lemma LinesNext(waves: seq<WaveSpan>, k: nat, m: map<string, Row>)
    requires Known(waves, m) && k < |waves|
    ensures LinesOf(waves[..k + 1], m) == LinesOf(waves[..k], m) + Block(waves, k, m)
  {
    assert waves[..k + 1][..k] == waves[..k];
    assert Block(waves[..k + 1], k, m) == Block(waves, k, m);
  }

  method WaveLines(rows: seq<Row>) returns (lines: seq<Line>)
    ensures lines == WaveLinesOf(rows)
  {
    lines := [];
    var byKey := ByKey(rows);
    var waves := GroupWaves(Points(rows), WAVE_GAP);
    RowWavesKnown(rows);
    for k := 0 to |waves|
      invariant lines == LinesOf(waves[..k], byKey)
    {
      var wave := waves[k];
      var head: seq<Line> := [];
      if k > 0 {
        var previous := waves[k - 1];
        head := [GapLine(wave.n, GapBetween(previous, wave), previous.n)];
      }
      var members := Lookup(wave.keys, byKey);
      var sources := ListSources(members);
      head := head + [WaveHead(wave.n, wave.start, wave.end, |wave.keys|, sources)];
      assert head == BlockHead(waves, k, byKey);
      LinesNext(waves, k, byKey);
      lines := lines + (head + RowLines(members));
    }
    assert waves[..|waves|] == waves;
  }

  // ----- What the lines show -----

  /** The rows shown, in order. */
  function RowsIn(lines: seq<Line>): seq<Row> {
    if lines == [] then []
    else
      var last := lines[|lines| - 1];
      RowsIn(lines[..|lines| - 1]) + (if last.RowLine? then [last.row] else [])
  }

  lemma {:induction false} RowsInAppend(a: seq<Line>, b: seq<Line>)
    ensures RowsIn(a + b) == RowsIn(a) + RowsIn(b)
  {
    if b == [] {
      assert a + b == a;
    } else {
      RowsInAppend(a, b[..|b| - 1]);
      assert (a + b)[..|a + b| - 1] == a + b[..|b| - 1];
    }
  }

  lemma {:induction false} RowsInRowLines(rows: seq<Row>)
    ensures RowsIn(RowLines(rows)) == rows
  {
    if rows != [] {
      RowsInRowLines(rows[..|rows| - 1]);
      assert RowLines(rows)[..|rows| - 1] == RowLines(rows[..|rows| - 1]);
    }
  }

  lemma {:induction false} LookupAppend(a: seq<string>, b: seq<string>, m: map<string, Row>)
    requires AllIn(a, m) && AllIn(b, m)
    ensures AllIn(a + b, m) && Lookup(a + b, m) == Lookup(a, m) + Lookup(b, m)
  {
  }

  lemma KnownParts(a: seq<string>, b: seq<string>, m: map<string, Row>)
    requires AllIn(a + b, m)
    ensures AllIn(a, m) && AllIn(b, m)
  {
    assert forall i :: 0 <= i < |a| ==> (a + b)[i] == a[i];
    assert forall i :: 0 <= i < |b| ==> (a + b)[|a| + i] == b[i];
  }

  lemma {:induction false} NoRows(lines: seq<Line>)
    requires forall i :: 0 <= i < |lines| ==> !lines[i].RowLine?
    ensures RowsIn(lines) == []
  {
    if lines != [] {
      NoRows(lines[..|lines| - 1]);
    }
  }

  /** The rows in order of (time, id), looked up by id: wherever rows are listed their ids are distinct. */
  function RowsByTime(rows: seq<Row>): seq<Row> {
    KeysKnown(rows);
    Lookup(Keys(Sort(Points(rows))), ByKey(rows))
  }
}
