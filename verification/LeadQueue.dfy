/** Which waiting leads one wake of the hunt loop reads: the page query of
    soc_ai/hunting/lead_hunt.py and the paged search of soc_ai/main.py over it. */
module LeadQueue {
  import opened Text

  const BATCH: nat := 50
  const PAGES: nat := 20
  const RETRY_LIMIT: nat := 2

  /** An open lead, the number of the loop's hunts on it that did not run, and whether its
      observations cite a document. */
  datatype Lead = Lead(id: int, formedAt: int, failures: nat, cites: bool)

  datatype Cursor = Cursor(formedAt: int, id: int)

  predicate Behind(c: Cursor, l: Lead) {
    l.formedAt > c.formedAt || (l.formedAt == c.formedAt && l.id > c.id)
  }

  function CursorOf(l: Lead): Cursor {
    Cursor(l.formedAt, l.id)
  }

  /** The table in order of (formed_at, id), with unique ids. */
  ghost predicate Ordered(table: seq<Lead>) {
    forall i, j :: 0 <= i < j < |table| ==> Behind(CursorOf(table[i]), table[j])
  }

  // ----- Filters -----

  function After(table: seq<Lead>, c: Option<Cursor>): seq<Lead> {
    if c.None? then table
    else if table == [] then []
    else
      var l := table[|table| - 1];
      After(table[..|table| - 1], c) + (if Behind(c.value, l) then [l] else [])
  }

  /** The leads the loop has not given up on. */
  function Keep(table: seq<Lead>): seq<Lead> {
    if table == [] then []
    else
      var l := table[|table| - 1];
      Keep(table[..|table| - 1]) + (if l.failures < RETRY_LIMIT then [l] else [])
  }

  /** The ids of the leads that cite a document, or of those that do not. */
  function IdsWhere(leads: seq<Lead>, cites: bool): seq<int> {
    if leads == [] then []
    else
      var l := leads[|leads| - 1];
      IdsWhere(leads[..|leads| - 1], cites) + (if l.cites == cites then [l.id] else [])
  }

  function Take<T>(s: seq<T>, n: nat): seq<T> {
    if |s| <= n then s else s[..n]
  }

  lemma {:induction false} KeepSplit(a: seq<Lead>, b: seq<Lead>)
    ensures Keep(a + b) == Keep(a) + Keep(b)
  {
    if b == [] {
      assert a + b == a;
    } else {
      assert (a + b)[..|a + b| - 1] == a + b[..|b| - 1];
      KeepSplit(a, b[..|b| - 1]);
    }
  }

  lemma {:induction false} IdsSplit(a: seq<Lead>, b: seq<Lead>, cites: bool)
    ensures IdsWhere(a + b, cites) == IdsWhere(a, cites) + IdsWhere(b, cites)
  {
    if b == [] {
      assert a + b == a;
    } else {
      assert (a + b)[..|a + b| - 1] == a + b[..|b| - 1];
      IdsSplit(a, b[..|b| - 1], cites);
    }
  }

  lemma {:induction false} KeepMembers(table: seq<Lead>, l: Lead)
    ensures l in Keep(table) <==> l in table && l.failures < RETRY_LIMIT
  {
    if table != [] {
      KeepMembers(table[..|table| - 1], l);
      assert table == table[..|table| - 1] + [table[|table| - 1]];
    }
  }

  lemma {:induction false} KeepOrdered(table: seq<Lead>)
    requires Ordered(table)
    ensures Ordered(Keep(table))
  {
    if table != [] {
      var front, l := table[..|table| - 1], table[|table| - 1];
      KeepOrdered(front);
      forall i | 0 <= i < |Keep(front)| ensures Behind(CursorOf(Keep(front)[i]), l) {
        KeepMembers(front, Keep(front)[i]);
        var j :| 0 <= j < |front| && front[j] == Keep(front)[i];
        assert Behind(CursorOf(table[j]), table[|table| - 1]);
      }
    }
  }

  lemma KeepSnoc(s: seq<Lead>, l: Lead)
    ensures Keep(s + [l]) == Keep(s) + (if l.failures < RETRY_LIMIT then [l] else [])
  {
    assert (s + [l])[..|s|] == s;
  }

  lemma AfterSnoc(s: seq<Lead>, c: Cursor, l: Lead)
    ensures After(s + [l], Some(c)) == After(s, Some(c)) + (if Behind(c, l) then [l] else [])
  {
    assert (s + [l])[..|s|] == s;
  }

  /** The retry rule and the cursor may be applied in either order. */
  lemma {:induction false} KeepAfter(table: seq<Lead>, c: Option<Cursor>)
    ensures Keep(After(table, c)) == After(Keep(table), c)
  {
    if c.Some? && table != [] {
      var front, l := table[..|table| - 1], table[|table| - 1];
      KeepAfter(front, c);
      KeepSnoc(After(front, c), l);
      AfterSnoc(Keep(front), c.value, l);
      assert After(table, c) == if Behind(c.value, l) then After(front, c) + [l] else After(front, c);
      assert Keep(table) == if l.failures < RETRY_LIMIT then Keep(front) + [l] else Keep(front);
    }
  }

  /** In an ordered table the rows after the cursor of a row are the rows behind it. */
  lemma {:induction false} AfterRow(table: seq<Lead>, i: nat)
    requires Ordered(table) && i < |table|
    ensures After(table, Some(CursorOf(table[i]))) == table[i + 1..]
  {
    var c := CursorOf(table[i]);
    var front, l := table[..|table| - 1], table[|table| - 1];
    if i == |table| - 1 {
      NoneAfter(front, c, l);
      assert table[i + 1..] == [];
    } else {
      AfterRow(front, i);
      assert table[i + 1..] == front[i + 1..] + [l];
    }
  }

  lemma {:induction false} NoneAfter(front: seq<Lead>, c: Cursor, l: Lead)
    requires c == CursorOf(l) && forall i :: 0 <= i < |front| ==> Behind(CursorOf(front[i]), l)
    ensures After(front, Some(c)) == []
  {
    if front != [] {
      NoneAfter(front[..|front| - 1], c, l);
    }
  }

  /** The rows after any cursor keep the order, and the rows after one of them are those behind it. */
  lemma {:induction false} AfterTwice(table: seq<Lead>, c: Option<Cursor>, i: nat)
    requires Ordered(table) && i < |After(table, c)|
    ensures After(table, Some(CursorOf(After(table, c)[i]))) == After(table, c)[i + 1..]
  {
    if c.None? {
      AfterRow(table, i);
    } else {
      var front, l := table[..|table| - 1], table[|table| - 1];
      var all := After(table, c);
      if i < |After(front, c)| {
        AfterTwice(front, c, i);
        AfterMembers(front, c, i);
        var j :| 0 <= j < |front| && front[j] == all[i];
        assert Behind(CursorOf(table[j]), table[|table| - 1]);
        assert Behind(c.value, l);
        assert all[i + 1..] == After(front, c)[i + 1..] + [l];
      } else {
        NoneAfter(front, CursorOf(l), l);
        assert all[i + 1..] == [];
      }
    }
  }

  lemma {:induction false} AfterMembers(table: seq<Lead>, c: Option<Cursor>, i: nat)
    requires c.Some? && i < |After(table, c)|
    ensures After(table, c)[i] in table && Behind(c.value, After(table, c)[i])
  {
    if i < |After(table[..|table| - 1], c)| {
      AfterMembers(table[..|table| - 1], c, i);
    }
  }

  // ----- One page -----

  lemma KeepTake(all: seq<Lead>, i: nat, limit: nat)
    requires i <= |all| && (|Keep(all[..i])| >= limit || i == |all|)
    ensures Take(Keep(all[..i]), limit) == Take(Keep(all), limit)
  {
    assert all == all[..i] + all[i..];
    KeepSplit(all[..i], all[i..]);
    if i == |all| {
      assert all[..i] == all;
    }
  }

  /** One query: the rows read are the next of all, and the cursor moves behind them. */
  lemma Refill(table: seq<Lead>, after: Option<Cursor>, i: nat, rows: seq<Lead>)
    requires Ordered(table) && i <= |After(table, after)| && rows != [] && rows <= After(table, after)[i..]
    ensures Keep(After(table, after)[..i + |rows|]) == Keep(After(table, after)[..i]) + Keep(rows)
    ensures After(table, Some(CursorOf(rows[|rows| - 1]))) == After(table, after)[i + |rows|..]
  {
    var all := After(table, after);
    assert rows == all[i..i + |rows|];
    assert all[..i + |rows|] == all[..i] + rows;
    KeepSplit(all[..i], rows);
    assert rows[|rows| - 1] == all[i + |rows| - 1];
    AfterTwice(table, after, i + |rows| - 1);
  }

  /** The leads kept of the first `i` rows. */
  ghost predicate KeptOf(all: seq<Lead>, i: int, kept: seq<Lead>) {
    0 <= i <= |all| && kept == Keep(all[..i])
  }

  lemma ShortTake(all: seq<Lead>, i: nat, n: nat)
    requires i <= |all| && n > 0
    ensures Take(all[i..], n) <= all[i..]
    ensures |Take(all[i..], n)| < n ==> i + |Take(all[i..], n)| == |all|
  {
  }

  /** One query of a page, when the queries before have read `i` rows. */
  lemma Query(table: seq<Lead>, after: Option<Cursor>, i: int, kept: seq<Lead>, n: nat, rows: seq<Lead>)
    requires Ordered(table) && n > 0 && KeptOf(After(table, after), i, kept)
    requires rows == Take(After(table, after)[i..], n)
    ensures |rows| < n ==> i + |rows| == |After(table, after)|
    ensures rows != [] ==> KeptOf(After(table, after), i + |rows|, kept + Keep(rows))
    ensures rows != [] ==> After(table, Some(CursorOf(rows[|rows| - 1]))) == After(table, after)[i + |rows|..]
  {
    ShortTake(After(table, after), i, n);
    if rows != [] {
      Refill(table, after, i, rows);
    }
  }

  /** The next `limit` leads after a cursor that the loop may hunt. Queries go on behind the rows of the
      one before until enough leads are kept, so only the end of the table leaves a page short. */
  method LeadsAwaitingAHunt(table: seq<Lead>, limit: int, after: Option<Cursor>) returns (page: seq<Lead>)
    requires Ordered(table)
    ensures IsPage(table, after, if limit < 1 then 1 else limit, page)
    ensures page == Take(Keep(After(table, after)), if limit < 1 then 1 else limit)
  {
    var n := if limit < 1 then 1 else limit;
    var kept: seq<Lead> := [];
    var cursor := after;
    ghost var all := After(table, after);
    ghost var i := 0;
    while |kept| < n
      invariant KeptOf(all, i, kept) && After(table, cursor) == all[i..]
      decreases |all| - i
    {
      var rows := Take(After(table, cursor), n);
      Query(table, after, i, kept, n, rows);
      if rows == [] {
        break;
      }
      kept := kept + Keep(rows);
      i := i + |rows|;
      if |rows| < n {
        break;
      }
      cursor := Some(CursorOf(rows[|rows| - 1]));
    }
    KeepTake(all, i, n);
    page := Take(kept, n);
    TakenIsPage(table, after, n);
  }

  // ----- What a page is, told from the table alone -----

  predicate FormedBefore(formedAt: int, id: int, l: Lead) {
    formedAt < l.formedAt || (formedAt == l.formedAt && id < l.id)
  }

  /** The loop may hunt this lead and has not read it: fewer than two of its hunts failed, and it is newer
      than the cursor. */
  predicate Awaits(table: seq<Lead>, after: Option<Cursor>, l: Lead) {
    l in table && l.failures < 2 && (after.Some? ==> FormedBefore(after.value.formedAt, after.value.id, l))
  }

  /** Up to `n` waiting leads, oldest first; a lead is left out only behind a full page. */
  ghost predicate IsPage(table: seq<Lead>, after: Option<Cursor>, n: int, page: seq<Lead>) {
    && |page| <= n
    && (forall i :: 0 <= i < |page| ==> Awaits(table, after, page[i]))
    && (forall i, j :: 0 <= i < j < |page| ==> FormedBefore(page[i].formedAt, page[i].id, page[j]))
    && (forall l :: Awaits(table, after, l) && l !in page ==> |page| == n && BehindAll(page, l))
  }

  ghost predicate BehindAll(page: seq<Lead>, l: Lead) {
    forall i :: 0 <= i < |page| ==> FormedBefore(page[i].formedAt, page[i].id, l)
  }

  lemma {:induction false} InAfter(table: seq<Lead>, c: Cursor, l: Lead)
    ensures l in After(table, Some(c)) <==> l in table && Behind(c, l)
  {
    if table != [] {
      var front, last := table[..|table| - 1], table[|table| - 1];
      InAfter(front, c, l);
      assert table == front + [last];
    }
  }

  lemma AwaitsExactly(table: seq<Lead>, after: Option<Cursor>, l: Lead)
    ensures l in Keep(After(table, after)) <==> Awaits(table, after, l)
  {
    KeepMembers(After(table, after), l);
    if after.Some? {
      InAfter(table, after.value, l);
    }
  }

  lemma {:induction false} AfterOrdered(table: seq<Lead>, c: Option<Cursor>)
    requires Ordered(table)
    ensures Ordered(After(table, c))
  {
    if c.Some? && table != [] {
      var front, last := table[..|table| - 1], table[|table| - 1];
      AfterOrdered(front, c);
      forall i | 0 <= i < |After(front, c)| ensures Behind(CursorOf(After(front, c)[i]), last) {
        AfterMembers(front, c, i);
        var j :| 0 <= j < |front| && front[j] == After(front, c)[i];
        assert Behind(CursorOf(table[j]), table[|table| - 1]);
      }
    }
  }

  lemma TakenMember(queue: seq<Lead>, n: nat, j: nat)
    requires j < |queue|
    ensures j < |Take(queue, n)| ==> queue[j] in Take(queue, n)
  {
    if j < |Take(queue, n)| {
      assert Take(queue, n)[j] == queue[j];
    }
  }

  lemma TakenIsPage(table: seq<Lead>, after: Option<Cursor>, n: nat)
    requires Ordered(table)
    ensures IsPage(table, after, n, Take(Keep(After(table, after)), n))
  {
    var queue := Keep(After(table, after));
    var page := Take(queue, n);
    AfterOrdered(table, after);
    KeepOrdered(After(table, after));
    forall i | 0 <= i < |page| ensures Awaits(table, after, page[i]) {
      assert page[i] == queue[i] && queue[i] in queue;
      AwaitsExactly(table, after, page[i]);
    }
    forall i, j | 0 <= i < j < |page| ensures FormedBefore(page[i].formedAt, page[i].id, page[j]) {
      assert Behind(CursorOf(queue[i]), queue[j]);
    }
    forall l | Awaits(table, after, l) && l !in page ensures |page| == n && BehindAll(page, l) {
      AwaitsExactly(table, after, l);
      var j :| 0 <= j < |queue| && queue[j] == l;
      TakenMember(queue, n, j);
      forall i | 0 <= i < |page| ensures FormedBefore(page[i].formedAt, page[i].id, l) {
        assert Behind(CursorOf(queue[i]), queue[j]);
      }
    }
  }

  // ----- The paged search -----

  method SplitPage(page: seq<Lead>) returns (cited: seq<int>, bare: seq<int>)
    ensures cited == IdsWhere(page, true) && bare == IdsWhere(page, false)
  {
    cited, bare := [], [];
    for i := 0 to |page|
      invariant cited == IdsWhere(page[..i], true) && bare == IdsWhere(page[..i], false)
    {
      assert page[..i + 1][..i] == page[..i];
      if page[i].cites {
        cited := cited + [page[i].id];
      } else {
        bare := bare + [page[i].id];
      }
    }
    assert page[..|page|] == page;
  }

  /** The leads of the first `pages` pages of the queue, and how many of them cite a document. */
  function FirstPages(queue: seq<Lead>, pages: nat): seq<Lead> {
    Take(queue, pages * BATCH)
  }

  function CitedIn(queue: seq<Lead>, pages: nat): nat {
    |IdsWhere(FirstPages(queue, pages), true)|
  }

  lemma {:induction false} IdsCount(leads: seq<Lead>)
    ensures |IdsWhere(leads, true)| + |IdsWhere(leads, false)| == |leads|
  {
    if leads != [] {
      IdsCount(leads[..|leads| - 1]);
    }
  }

  /** After the first `pages` pages the search has to go on: too few cited leads, and no short page. */
  ghost predicate MustGoOn(queue: seq<Lead>, pages: nat, need: int) {
    pages > 0 ==> CitedIn(queue, pages) < need && pages * BATCH <= |queue|
  }

  /** How many pages a search that stands before page `n` reads in all. */
  function PagesFrom(queue: seq<Lead>, need: int, n: nat): (pages: nat)
    requires 0 < n <= PAGES
    ensures n <= pages <= PAGES
    ensures CitedIn(queue, pages) >= need || |queue| < pages * BATCH || pages == PAGES
    decreases PAGES - n
  {
    if n == PAGES || CitedIn(queue, n) >= need || |queue| < n * BATCH then n else PagesFrom(queue, need, n + 1)
  }

  /** Before page `n` the search has not stopped. */
  ghost predicate Searching(queue: seq<Lead>, need: int, n: nat) {
    && n <= PAGES && MustGoOn(queue, n, need) && (n > 0 ==> MustGoOn(queue, n - 1, need))
    && PagesFrom(queue, need, 1) == if n < PAGES then PagesFrom(queue, need, n + 1) else PAGES
  }

  lemma SearchOn(queue: seq<Lead>, need: int, n: nat)
    requires n < PAGES && Searching(queue, need, n)
    ensures CitedIn(queue, n + 1) >= need || |queue| < (n + 1) * BATCH ==> PagesFrom(queue, need, 1) == n + 1
    ensures CitedIn(queue, n + 1) < need && |queue| >= (n + 1) * BATCH ==> Searching(queue, need, n + 1)
  {
  }

  /** The leads that cite no document among those a wake reads. */
  function Skipped(table: seq<Lead>, need: int): seq<int> {
    IdsWhere(FirstPages(Keep(table), PagesFrom(Keep(table), need, 1)), false)
  }

  lemma TakeMore(queue: seq<Lead>, read: nat, page: seq<Lead>)
    requires read <= |queue| && page == Take(queue[read..], BATCH)
    ensures Take(queue, read + BATCH) == Take(queue, read) + page
    ensures |page| <= BATCH && (|page| < BATCH <==> |queue| < read + BATCH)
    ensures |page| == BATCH ==> page[BATCH - 1] == queue[read + BATCH - 1]
  {
  }

  /** The search stands behind the first `pages` full pages with these two lists. */
  ghost predicate StandsAfter(table: seq<Lead>, pages: nat, after: Option<Cursor>, cited: seq<int>, bare: seq<int>) {
    && pages * BATCH <= |Keep(table)|
    && After(Keep(table), after) == Keep(table)[pages * BATCH..]
    && Splits(Keep(table), pages, cited, bare)
  }

  /** The two lists hold the ids of the first pages of the queue, each in queue order. */
  ghost predicate Splits(queue: seq<Lead>, pages: nat, cited: seq<int>, bare: seq<int>) {
    cited == IdsWhere(FirstPages(queue, pages), true) && bare == IdsWhere(FirstPages(queue, pages), false)
  }

  lemma SplitsMore(queue: seq<Lead>, pages: nat, cited: seq<int>, bare: seq<int>, page: seq<Lead>)
    requires Splits(queue, pages, cited, bare) && FirstPages(queue, pages + 1) == FirstPages(queue, pages) + page
    ensures Splits(queue, pages + 1, cited + IdsWhere(page, true), bare + IdsWhere(page, false))
  {
    IdsSplit(FirstPages(queue, pages), page, true);
    IdsSplit(FirstPages(queue, pages), page, false);
  }

  /** One more page: the lists grow by its ids, and behind a full page the cursor stands after it. */
  lemma NextPage(table: seq<Lead>, pages: nat, after: Option<Cursor>, cited: seq<int>, bare: seq<int>, page: seq<Lead>)
    requires Ordered(table) && StandsAfter(table, pages, after, cited, bare)
    requires page == Take(Keep(After(table, after)), BATCH)
    ensures |page| <= BATCH && (|page| < BATCH <==> |Keep(table)| < (pages + 1) * BATCH)
    ensures var c, b := cited + IdsWhere(page, true), bare + IdsWhere(page, false);
      && Splits(Keep(table), pages + 1, c, b)
      && (|page| == BATCH ==> StandsAfter(table, pages + 1, Some(CursorOf(page[BATCH - 1])), c, b))
  {
    var queue, read := Keep(table), pages * BATCH;
    KeepAfter(table, after);
    TakeMore(queue, read, page);
    SplitsMore(queue, pages, cited, bare, page);
    if |page| == BATCH {
      KeepOrdered(table);
      AfterRow(queue, read + BATCH - 1);
    }
  }

  /** What the search has found when it ends after so many pages. */
  ghost predicate Stopped(queue: seq<Lead>, need: int, pages: nat, cited: seq<int>, bare: seq<int>) {
    && pages == PagesFrom(queue, need, 1)
    && Splits(queue, pages, cited, bare) && MustGoOn(queue, pages - 1, need)
  }

  /** The search goes on before page `n`, and stands where it should. */
  ghost predicate GoesOn(table: seq<Lead>, need: int, n: nat, after: Option<Cursor>, cited: seq<int>, bare: seq<int>) {
    StandsAfter(table, n, after, cited, bare) && Searching(Keep(table), need, n)
  }

  /** The search after one more page, which may be its last. */
  lemma AfterPage(table: seq<Lead>, need: int, n: nat, after: Option<Cursor>, cited: seq<int>, bare: seq<int>,
                  page: seq<Lead>)
    requires Ordered(table) && n < PAGES && GoesOn(table, need, n, after, cited, bare)
    requires page == Take(Keep(After(table, after)), BATCH)
    ensures var c, b := cited + IdsWhere(page, true), bare + IdsWhere(page, false);
      if |c| >= need || |page| < BATCH then Stopped(Keep(table), need, n + 1, c, b)
      else GoesOn(table, need, n + 1, Some(CursorOf(page[|page| - 1])), c, b)
  {
    NextPage(table, n, after, cited, bare, page);
    SearchOn(Keep(table), need, n);
  }

  lemma PagesSpent(table: seq<Lead>, need: int, after: Option<Cursor>, cited: seq<int>, bare: seq<int>)
    requires GoesOn(table, need, PAGES, after, cited, bare)
    ensures Stopped(Keep(table), need, PAGES, cited, bare)
  {
  }

  lemma SearchBegins(table: seq<Lead>, need: int)
    ensures GoesOn(table, need, 0, None, [], [])
  {
    assert FirstPages(Keep(table), 0) == [];
  }

  /** The waiting leads read by one wake, split by whether they cite a document. `pages` is how many
      pages of the queue were read. */
  method LeadsTheLoopMayHunt(table: seq<Lead>, need: int) returns (cited: seq<int>, bare: seq<int>, pages: nat)
    requires Ordered(table)
    // The two lists split the leads of the first pages, each in queue order.
    ensures 0 < pages <= 20 && pages == PagesFrom(Keep(table), need, 1)
    ensures Splits(Keep(table), pages, cited, bare)
    ensures |cited| + |bare| == if |Keep(table)| <= pages * 50 then |Keep(table)| else pages * 50
    ensures bare == Skipped(table, need)
    // Too few leads only at the end of the queue, or when the page bound is spent.
    ensures |cited| < need ==> |Keep(table)| < pages * 50 || pages == 20
    // No page was read that was not needed.
    ensures MustGoOn(Keep(table), pages - 1, need)
  {
    cited, bare, pages := [], [], 0;
    var after: Option<Cursor> := None;
    ghost var stopped := false;
    SearchBegins(table, need);
    for n := 0 to PAGES
      invariant pages == n && !stopped && GoesOn(table, need, n, after, cited, bare)
    {
      var page := LeadsAwaitingAHunt(table, BATCH, after);
      AfterPage(table, need, n, after, cited, bare, page);
      var someCited, someBare := SplitPage(page);
      cited, bare, pages := cited + someCited, bare + someBare, n + 1;
      if |cited| >= need || |page| < BATCH {
        stopped := true;
        break;
      }
      after := Some(CursorOf(page[|page| - 1]));
    }
    if !stopped {
      PagesSpent(table, need, after, cited, bare);
    }
    IdsCount(FirstPages(Keep(table), pages));
  }

  // ----- What the lists hold -----

  lemma {:induction false} IdsMembers(leads: seq<Lead>, i: nat)
    requires i < |leads|
    ensures leads[i].id in IdsWhere(leads, leads[i].cites)
  {
    if i < |leads| - 1 {
      IdsMembers(leads[..|leads| - 1], i);
    }
  }

  lemma {:induction false} IdsAreOfMembers(leads: seq<Lead>, cites: bool, id: int)
    requires id in IdsWhere(leads, cites)
    ensures exists i :: 0 <= i < |leads| && leads[i].id == id && leads[i].cites == cites
  {
    var n := |leads| - 1;
    if id in IdsWhere(leads[..n], cites) {
      IdsAreOfMembers(leads[..n], cites, id);
      var i :| 0 <= i < n && leads[..n][i].id == id && leads[..n][i].cites == cites;
      assert leads[i].id == id;
    } else {
      assert leads[n].id == id;
    }
  }

  lemma {:induction false} KeepAll(table: seq<Lead>)
    requires forall i :: 0 <= i < |table| ==> table[i].failures < RETRY_LIMIT
    ensures Keep(table) == table
  {
    if table != [] {
      KeepAll(table[..|table| - 1]);
    }
  }

  lemma {:induction false} NoneCited(leads: seq<Lead>)
    requires forall i :: 0 <= i < |leads| ==> !leads[i].cites
    ensures IdsWhere(leads, true) == []
  {
    if leads != [] {
      NoneCited(leads[..|leads| - 1]);
    }
  }
}
