/** Where the lines of an Event timeline block stand, soc_ai/event_time.py: which rows are under a wave
    heading, which behind the title of the other documents, and in which order. */
module SectionLayout {
  import opened Text
  import opened Timeline

  // ----- What a reader of the lines can tell -----

  /** The title of the other documents stands before line `i`. */
  ghost predicate Behind(lines: seq<Line>, i: int) {
    exists j :: 0 <= j < i && j < |lines| && lines[j] == OthersTitle
  }

  /** Line `i` is a row in the list directly under a wave heading. */
  ghost predicate UnderHead(lines: seq<Line>, i: int) {
    exists j :: 0 <= j < i < |lines| && lines[j].WaveHead? && RowsFrom(lines, j + 1, i)
  }

  ghost predicate RowsFrom(lines: seq<Line>, j: int, i: int)
    requires 0 <= j && i < |lines|
  {
    forall k :: j <= k <= i ==> lines[k].RowLine?
  }

  predicate Wanted(focusIds: Option<set<string>>, key: string) {
    focusIds.None? || key in focusIds.value
  }

  /** The rows to judge stand under wave headings, before the title of the other documents, and all
      other rows behind it. */
  ghost predicate RowsPlaced(lines: seq<Line>, focusIds: Option<set<string>>) {
    forall i :: 0 <= i < |lines| && lines[i].RowLine? ==> RowPlaced(lines, i, focusIds)
  }

  ghost predicate RowPlaced(lines: seq<Line>, i: int, focusIds: Option<set<string>>)
    requires 0 <= i < |lines| && lines[i].RowLine?
  {
    if focusIds.None? || lines[i].row.key in focusIds.value then !Behind(lines, i) && UnderHead(lines, i)
    else Behind(lines, i)
  }

  ghost predicate Earlier(a: Row, b: Row) {
    a.at < b.at || (a.at == b.at && Precedes(a.key, b.key))
  }

  /** Rows on one side of the title are in order of (time, id). */
  ghost predicate RowsOrdered(lines: seq<Line>) {
    forall i, j :: 0 <= i < j < |lines| && lines[i].RowLine? && lines[j].RowLine? ==>
      (Behind(lines, i) <==> Behind(lines, j)) ==> Earlier(lines[i].row, lines[j].row)
  }

  /** No row stands before the title of the other documents. */
  ghost predicate RowsBehind(lines: seq<Line>) {
    forall i :: 0 <= i < |lines| && lines[i].RowLine? ==> Behind(lines, i)
  }

  /** A block begins with its title and the words that fit the rows it shows. */
  ghost predicate Introduced(lines: seq<Line>, focusIds: Option<set<string>>) {
    && |lines| >= 2 && lines[0] == Title
    && lines[1] == IntroLine(
         if focusIds.Some? && RowsBehind(lines) then NoFocusTime
         else if OthersTitle in lines then FocusFirst
         else Everything)
  }

  /** The title of the other documents is there for their rows, says whether the lead cites one of them, and
      has no waves behind it. */
  ghost predicate OthersHeaded(lines: seq<Line>, leadIds: set<string>) {
    forall i :: 0 <= i < |lines| && lines[i] == OthersTitle ==> OthersHeadedAt(lines, i, leadIds)
  }

  /** The lead cites the document of some row behind line `t`. */
  ghost predicate CitedFrom(lines: seq<Line>, t: nat, leadIds: set<string>) {
    exists k :: t < k < |lines| && lines[k].RowLine? && lines[k].row.key in leadIds
  }

  ghost predicate OthersHeadedAt(lines: seq<Line>, i: int, leadIds: set<string>)
    requires 0 <= i < |lines|
  {
    && i + 2 < |lines| && lines[i + 2].RowLine?
    && lines[i + 1] == OthersNote(CitedFrom(lines, i, leadIds))
    && forall k :: i < k < |lines| ==> !lines[k].WaveHead? && !lines[k].GapLine? && lines[k] != OthersTitle
  }

  predicate IsNote(line: Line) {
    line.Untimed? || line.Omitted?
  }

  /** The notes come last: one about untimed documents and one about omitted ones, if there are any. */
  ghost predicate NotesLast(lines: seq<Line>, untimed: nat, omitted: int, cap: int) {
    && (forall n :: Untimed(n) in lines <==> n == untimed > 0)
    && (forall c, o :: Omitted(c, o) in lines <==> c == cap && o == omitted > 0)
    && (forall i, k :: 0 <= i < k < |lines| && IsNote(lines[i]) ==> lines[i].Untimed? && lines[k].Omitted?)
  }

  /** The layout of a block for these focus ids, lead ids and counts. */
  ghost predicate LaidOut(lines: seq<Line>, focusIds: Option<set<string>>, leadIds: set<string>,
                          untimed: nat, omitted: int, cap: int) {
    && Introduced(lines, focusIds) && RowsPlaced(lines, focusIds) && RowsOrdered(lines)
    && OthersHeaded(lines, leadIds) && NotesLast(lines, untimed, omitted, cap)
  }

  // ----- Four parts -----

  /** Wave lines only, every row under a heading. */
  ghost predicate WavesOnly(lines: seq<Line>) {
    forall i :: 0 <= i < |lines| ==>
      (lines[i].WaveHead? || lines[i].GapLine? || (lines[i].RowLine? && UnderHead(lines, i)))
  }

  ghost predicate Ascending(rows: seq<Row>) {
    forall i, j :: 0 <= i < j < |rows| ==> Earlier(rows[i], rows[j])
  }

  ghost predicate LinesAscending(lines: seq<Line>) {
    forall i, j :: 0 <= i < j < |lines| && lines[i].RowLine? && lines[j].RowLine? ==>
      Earlier(lines[i].row, lines[j].row)
  }

  function OthersPart(rows: seq<Row>, cited: bool): seq<Line> {
    if rows == [] then [] else [OthersTitle, OthersNote(cited)] + RowLines(rows)
  }

  /** Opening, wave lines, other rows and notes. */
  ghost predicate Parts(lines: seq<Line>, intro: Intro, waves: seq<Line>, rows: seq<Row>, cited: bool,
                        notes: seq<Line>)
  {
    && lines == [Title, IntroLine(intro)] + waves + OthersPart(rows, cited) + notes
    && WavesOnly(waves) && forall i :: 0 <= i < |notes| ==> IsNote(notes[i])
  }

  /** Where the title of the other documents stands, when there are any. */
  function TitleAt(waves: seq<Line>): nat {
    2 + |waves|
  }

  lemma ConcatAt(a: seq<Line>, b: seq<Line>, i: nat)
    requires i < |a + b|
    ensures (a + b)[i] == if i < |a| then a[i] else b[i - |a|]
  {
  }

  lemma LineAt(lines: seq<Line>, intro: Intro, waves: seq<Line>, rows: seq<Row>, cited: bool, notes: seq<Line>, i: nat)
    requires Parts(lines, intro, waves, rows, cited, notes) && i < |lines|
    ensures var t := TitleAt(waves); var e := t + |OthersPart(rows, cited)|;
      lines[i] ==
        if i == 0 then Title else if i == 1 then IntroLine(intro) else if i < t then waves[i - 2]
        else if i < e then
          if i == t then OthersTitle else if i == t + 1 then OthersNote(cited) else RowLine(rows[i - t - 2])
        else notes[i - e]
  {
    var opening, others := [Title, IntroLine(intro)], OthersPart(rows, cited);
    ConcatAt(opening + waves + others, notes, i);
    if i < |opening + waves + others| {
      ConcatAt(opening + waves, others, i);
      if i < |opening + waves| {
        ConcatAt(opening, waves, i);
      } else {
        ConcatAt([OthersTitle, OthersNote(cited)], RowLines(rows), i - TitleAt(waves));
      }
    }
  }

  lemma BehindExactly(lines: seq<Line>, intro: Intro, waves: seq<Line>, rows: seq<Row>, cited: bool,
                      notes: seq<Line>, i: nat)
    requires Parts(lines, intro, waves, rows, cited, notes) && i < |lines|
    ensures Behind(lines, i) <==> rows != [] && i > TitleAt(waves)
    ensures lines[i] == OthersTitle <==> rows != [] && i == TitleAt(waves)
  {
    forall j: nat | j < |lines| ensures lines[j] == OthersTitle <==> rows != [] && j == TitleAt(waves) {
      LineAt(lines, intro, waves, rows, cited, notes, j);
    }
    if rows != [] && i > TitleAt(waves) {
      assert lines[TitleAt(waves)] == OthersTitle;
    }
  }

  lemma UnderHeadShifted(lines: seq<Line>, waves: seq<Line>, i: nat)
    requires 2 + |waves| <= |lines| && lines[2..2 + |waves|] == waves && i < |waves| && UnderHead(waves, i)
    ensures UnderHead(lines, i + 2)
  {
    assert forall k :: 0 <= k < |waves| ==> lines[k + 2] == waves[k];
    var j :| 0 <= j < i && waves[j].WaveHead? && RowsFrom(waves, j + 1, i);
    forall k | j + 3 <= k <= i + 2 ensures lines[k].RowLine? {
      assert waves[k - 2].RowLine?;
    }
    assert lines[j + 2].WaveHead? && RowsFrom(lines, j + 3, i + 2);
  }

  lemma PlacedAt(lines: seq<Line>, intro: Intro, waves: seq<Line>, rows: seq<Row>, cited: bool, notes: seq<Line>,
                 focusIds: Option<set<string>>, i: nat)
    requires Parts(lines, intro, waves, rows, cited, notes) && i < |lines| && lines[i].RowLine?
    requires forall k :: 0 <= k < |waves| && waves[k].RowLine? ==> Wanted(focusIds, waves[k].row.key)
    requires forall k :: 0 <= k < |rows| ==> !Wanted(focusIds, rows[k].key)
    ensures RowPlaced(lines, i, focusIds)
  {
    LineAt(lines, intro, waves, rows, cited, notes, i);
    BehindExactly(lines, intro, waves, rows, cited, notes, i);
    if i < TitleAt(waves) {
      assert lines[2..2 + |waves|] == waves;
      assert UnderHead(waves, i - 2);
      UnderHeadShifted(lines, waves, i - 2);
    }
  }

  lemma OrderedAt(lines: seq<Line>, intro: Intro, waves: seq<Line>, rows: seq<Row>, cited: bool, notes: seq<Line>,
                  i: nat, j: nat)
    requires Parts(lines, intro, waves, rows, cited, notes) && LinesAscending(waves) && Ascending(rows)
    requires i < j < |lines| && lines[i].RowLine? && lines[j].RowLine? && (Behind(lines, i) <==> Behind(lines, j))
    ensures Earlier(lines[i].row, lines[j].row)
  {
    LineAt(lines, intro, waves, rows, cited, notes, i);
    LineAt(lines, intro, waves, rows, cited, notes, j);
    BehindExactly(lines, intro, waves, rows, cited, notes, i);
    BehindExactly(lines, intro, waves, rows, cited, notes, j);
  }

  lemma PartsPlaced(lines: seq<Line>, intro: Intro, waves: seq<Line>, rows: seq<Row>, cited: bool, notes: seq<Line>,
                    focusIds: Option<set<string>>)
    requires Parts(lines, intro, waves, rows, cited, notes) && LinesAscending(waves) && Ascending(rows)
    requires forall k :: 0 <= k < |waves| && waves[k].RowLine? ==> Wanted(focusIds, waves[k].row.key)
    requires forall k :: 0 <= k < |rows| ==> !Wanted(focusIds, rows[k].key)
    ensures RowsPlaced(lines, focusIds) && RowsOrdered(lines)
  {
    forall i | 0 <= i < |lines| && lines[i].RowLine? ensures RowPlaced(lines, i, focusIds) {
      PlacedAt(lines, intro, waves, rows, cited, notes, focusIds, i);
    }
    forall i, j | 0 <= i < j < |lines| && lines[i].RowLine? && lines[j].RowLine?
        && (Behind(lines, i) <==> Behind(lines, j))
      ensures Earlier(lines[i].row, lines[j].row)
    {
      OrderedAt(lines, intro, waves, rows, cited, notes, i, j);
    }
  }

  lemma PartsHeaded(lines: seq<Line>, intro: Intro, waves: seq<Line>, rows: seq<Row>, cited: bool, notes: seq<Line>,
                    leadIds: set<string>)
    requires Parts(lines, intro, waves, rows, cited, notes)
    requires cited <==> exists k :: 0 <= k < |rows| && rows[k].key in leadIds
    ensures OthersHeaded(lines, leadIds)
  {
    forall i | 0 <= i < |lines| && lines[i] == OthersTitle ensures OthersHeadedAt(lines, i, leadIds) {
      BehindExactly(lines, intro, waves, rows, cited, notes, i);
      TitleTail(lines, intro, waves, rows, cited, notes);
      HeadedAtTitle(lines, i, rows, cited, leadIds);
    }
  }

  /** What stands behind the title at `t`: its note, the rows, and the notes of the block. */
  ghost predicate BehindTitle(lines: seq<Line>, t: nat, rows: seq<Row>, cited: bool) {
    && t + 2 + |rows| <= |lines| && rows != [] && lines[t + 1] == OthersNote(cited)
    && (forall i :: t + 2 <= i < t + 2 + |rows| ==> lines[i] == RowLine(rows[i - t - 2]))
    && (forall i :: t + 2 + |rows| <= i < |lines| ==> IsNote(lines[i]))
  }

  /** The line that stands `k` lines behind the note of the title. */
  ghost predicate TailFits(line: Line, rows: seq<Row>, cited: bool, k: int) {
    if k == 0 then line == OthersNote(cited) else if 0 < k <= |rows| then line == RowLine(rows[k - 1]) else IsNote(line)
  }

  lemma TailAt(lines: seq<Line>, intro: Intro, waves: seq<Line>, rows: seq<Row>, cited: bool, notes: seq<Line>, i: nat)
    requires Parts(lines, intro, waves, rows, cited, notes) && rows != [] && TitleAt(waves) < i < |lines|
    ensures TailFits(lines[i], rows, cited, i - TitleAt(waves) - 1)
  {
    LineAt(lines, intro, waves, rows, cited, notes, i);
  }

  lemma TailFrom(lines: seq<Line>, t: nat, rows: seq<Row>, cited: bool)
    requires t + 2 + |rows| <= |lines| && rows != []
    requires forall i :: t < i < |lines| ==> TailFits(lines[i], rows, cited, i - t - 1)
    ensures BehindTitle(lines, t, rows, cited)
  {
  }

  lemma TitleTail(lines: seq<Line>, intro: Intro, waves: seq<Line>, rows: seq<Row>, cited: bool, notes: seq<Line>)
    requires Parts(lines, intro, waves, rows, cited, notes) && rows != []
    ensures BehindTitle(lines, TitleAt(waves), rows, cited)
  {
    forall i | TitleAt(waves) < i < |lines| ensures TailFits(lines[i], rows, cited, i - TitleAt(waves) - 1) {
      TailAt(lines, intro, waves, rows, cited, notes, i);
    }
    TailFrom(lines, TitleAt(waves), rows, cited);
  }

  lemma CitedBehind(lines: seq<Line>, t: nat, rows: seq<Row>, cited: bool, leadIds: set<string>)
    requires BehindTitle(lines, t, rows, cited)
    ensures CitedFrom(lines, t, leadIds) <==> exists k :: 0 <= k < |rows| && rows[k].key in leadIds
  {
    if k :| t < k < |lines| && lines[k].RowLine? && lines[k].row.key in leadIds {
      assert k < t + 2 + |rows| && lines[k] == RowLine(rows[k - t - 2]);
    }
    if k :| 0 <= k < |rows| && rows[k].key in leadIds {
      assert lines[t + 2 + k] == RowLine(rows[k]);
    }
  }

  lemma HeadedAtTitle(lines: seq<Line>, t: nat, rows: seq<Row>, cited: bool, leadIds: set<string>)
    requires BehindTitle(lines, t, rows, cited)
    requires cited <==> exists k :: 0 <= k < |rows| && rows[k].key in leadIds
    ensures OthersHeadedAt(lines, t, leadIds)
  {
    CitedBehind(lines, t, rows, cited, leadIds);
    assert lines[t + 2] == RowLine(rows[0]);
  }

  lemma RowsBehindExactly(lines: seq<Line>, intro: Intro, waves: seq<Line>, rows: seq<Row>, cited: bool,
                          notes: seq<Line>)
    requires Parts(lines, intro, waves, rows, cited, notes)
    requires waves != [] ==> exists k :: 0 <= k < |waves| && waves[k].RowLine?
    ensures RowsBehind(lines) <==> waves == []
  {
    if k :| 0 <= k < |waves| && waves[k].RowLine? {
      LineAt(lines, intro, waves, rows, cited, notes, k + 2);
      BehindExactly(lines, intro, waves, rows, cited, notes, k + 2);
      assert lines[k + 2].RowLine? && !Behind(lines, k + 2);
    } else {
      forall i: nat | i < |lines| && lines[i].RowLine? ensures Behind(lines, i) {
        LineAt(lines, intro, waves, rows, cited, notes, i);
        BehindExactly(lines, intro, waves, rows, cited, notes, i);
      }
    }
  }

  lemma PartsIntroduced(lines: seq<Line>, intro: Intro, waves: seq<Line>, rows: seq<Row>, cited: bool,
                        notes: seq<Line>, focusIds: Option<set<string>>)
    requires Parts(lines, intro, waves, rows, cited, notes)
    requires waves != [] ==> exists k :: 0 <= k < |waves| && waves[k].RowLine?
    requires intro ==
      if focusIds.Some? && waves == [] then NoFocusTime else if rows != [] then FocusFirst else Everything
    ensures Introduced(lines, focusIds)
  {
    LineAt(lines, intro, waves, rows, cited, notes, 0);
    LineAt(lines, intro, waves, rows, cited, notes, 1);
    RowsBehindExactly(lines, intro, waves, rows, cited, notes);
    TitleThere(lines, intro, waves, rows, cited, notes);
  }

  lemma TitleThere(lines: seq<Line>, intro: Intro, waves: seq<Line>, rows: seq<Row>, cited: bool, notes: seq<Line>)
    requires Parts(lines, intro, waves, rows, cited, notes)
    ensures OthersTitle in lines <==> rows != []
  {
    if rows != [] {
      LineAt(lines, intro, waves, rows, cited, notes, TitleAt(waves));
      assert lines[TitleAt(waves)] == OthersTitle;
    }
    if OthersTitle in lines {
      var i :| 0 <= i < |lines| && lines[i] == OthersTitle;
      BehindExactly(lines, intro, waves, rows, cited, notes, i);
    }
  }

  lemma PartsNoted(lines: seq<Line>, intro: Intro, waves: seq<Line>, rows: seq<Row>, cited: bool, notes: seq<Line>,
                   untimed: nat, omitted: int, cap: int)
    requires Parts(lines, intro, waves, rows, cited, notes)
    requires notes ==
      (if untimed > 0 then [Untimed(untimed)] else []) + (if omitted > 0 then [Omitted(cap, omitted)] else [])
    ensures NotesLast(lines, untimed, omitted, cap)
  {
    var e := |lines| - |notes|;
    forall i: nat | i < |lines| ensures IsNote(lines[i]) <==> i >= e {
      LineAt(lines, intro, waves, rows, cited, notes, i);
    }
    NotesThere(lines, e, notes);
    NotesInOrder(lines, e, notes);
  }

  lemma NotesInOrder(lines: seq<Line>, e: nat, notes: seq<Line>)
    requires e <= |lines| && lines[e..] == notes && |notes| <= 2
    requires forall i :: 0 <= i < e ==> !IsNote(lines[i])
    requires |notes| == 2 ==> notes[0].Untimed? && notes[1].Omitted?
    ensures forall i, k :: 0 <= i < k < |lines| && IsNote(lines[i]) ==> lines[i].Untimed? && lines[k].Omitted?
  {
    forall i, k | 0 <= i < k < |lines| && IsNote(lines[i]) ensures lines[i].Untimed? && lines[k].Omitted? {
      assert lines[i] == notes[i - e] && lines[k] == notes[k - e];
    }
  }

  lemma NotesThere(lines: seq<Line>, e: nat, notes: seq<Line>)
    requires e <= |lines| && lines[e..] == notes
    requires forall i :: 0 <= i < e ==> !IsNote(lines[i])
    ensures forall line :: IsNote(line) ==> (line in lines <==> line in notes)
  {
    forall line | IsNote(line) ensures line in lines <==> line in notes {
      if line in lines {
        var i :| 0 <= i < |lines| && lines[i] == line;
        assert lines[e..][i - e] == line;
      }
      if line in notes {
        var i :| 0 <= i < |notes| && notes[i] == line;
        assert lines[e + i] == line;
      }
    }
  }
}
