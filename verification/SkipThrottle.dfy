/** The hourly throttle of the line about a skipped lead, soc_ai/main.py, over runs of wakes. */
module SkipThrottle {
  import LeadQueue

  const QUIET := 3600 * 1_000_000

  /** The leads one wake skips, and its time in microseconds. */
  datatype Wake = Wake(skipped: seq<int>, now: int)

  /** The line about this lead is due: it was not said, or said at least an hour ago. */
  predicate Due(said: map<int, int>, lead: int, now: int) {
    lead in said ==> now - said[lead] >= QUIET
  }

  /** The times to keep after a wake. */
  function Kept(said: map<int, int>, w: Wake): map<int, int> {
    map lead | lead in w.skipped :: if Due(said, lead, w.now) then w.now else said[lead]
  }

  /** The leads a wake logs, each once, in the order it skips them. */
  function Logged(said: map<int, int>, w: Wake): seq<int>
    decreases |w.skipped|
  {
    if w.skipped == [] then []
    else
      var front, lead := Logged(said, Wake(w.skipped[..|w.skipped| - 1], w.now)), w.skipped[|w.skipped| - 1];
      if Due(said, lead, w.now) && lead !in front then front + [lead] else front
  }

  /** The times in the loop of a wake, when it has come to some of the leads. */
  function KeptSoFar(said: map<int, int>, w: Wake, done: seq<int>): map<int, int> {
    map lead | lead in w.skipped && (lead in said || lead in done) ::
      if lead in done && Due(said, lead, w.now) then w.now else said[lead]
  }

  /** The loop of one wake. */
  method Say(said: map<int, int>, w: Wake) returns (kept: map<int, int>, logged: seq<int>)
    ensures kept == Kept(said, w) && logged == Logged(said, w)
  {
    kept := map lead | lead in said && lead in w.skipped :: said[lead];
    logged := [];
    assert kept == KeptSoFar(said, w, []);
    for i := 0 to |w.skipped|
      invariant kept == KeptSoFar(said, w, w.skipped[..i])
      invariant logged == Logged(said, Wake(w.skipped[..i], w.now))
    {
      var lead := w.skipped[i];
      assert w.skipped[..i + 1] == w.skipped[..i] + [lead];
      SaySnoc(said, w, w.skipped[..i], lead);
      LoggedSnoc(said, w.skipped[..i], lead, w.now);
      if lead !in kept || w.now - kept[lead] >= QUIET {
        kept := kept[lead := w.now];
        logged := logged + [lead];
      }
    }
    assert w.skipped[..|w.skipped|] == w.skipped;
    assert KeptSoFar(said, w, w.skipped) == Kept(said, w);
  }

  /** What the loop does with the next lead. */
  lemma SaySnoc(said: map<int, int>, w: Wake, done: seq<int>, lead: int)
    requires lead in w.skipped && forall x :: x in done ==> x in w.skipped
    ensures var kept := KeptSoFar(said, w, done);
      var logs := lead !in kept || w.now - kept[lead] >= QUIET;
      && (logs <==> Due(said, lead, w.now) && lead !in Logged(said, Wake(done, w.now)))
      && KeptSoFar(said, w, done + [lead]) == if logs then kept[lead := w.now] else kept
  {
    LoggedMembers(said, Wake(done, w.now), lead);
    assert forall x :: x in done + [lead] <==> x in done || x == lead;
  }

  lemma LoggedSnoc(said: map<int, int>, skipped: seq<int>, lead: int, now: int)
    ensures var front := Logged(said, Wake(skipped, now));
      Logged(said, Wake(skipped + [lead], now)) ==
        if Due(said, lead, now) && lead !in front then front + [lead] else front
  {
    assert (skipped + [lead])[..|skipped|] == skipped;
  }

  lemma {:induction false} LoggedMembers(said: map<int, int>, w: Wake, lead: int)
    ensures lead in Logged(said, w) <==> lead in w.skipped && Due(said, lead, w.now)
    ensures multiset(Logged(said, w))[lead] <= 1
    decreases |w.skipped|
  {
    if w.skipped != [] {
      var front := Wake(w.skipped[..|w.skipped| - 1], w.now);
      LoggedMembers(said, front, lead);
      assert w.skipped == front.skipped + [w.skipped[|w.skipped| - 1]];
    }
  }

  // ----- Runs -----

  function SaidAfter(ws: seq<Wake>): map<int, int> {
    if ws == [] then map[] else Kept(SaidAfter(ws[..|ws| - 1]), ws[|ws| - 1])
  }

  /** Wake `i` of the run logs the lead. */
  ghost predicate Logs(ws: seq<Wake>, i: nat, lead: int) {
    i < |ws| && lead in Logged(SaidAfter(ws[..i]), ws[i])
  }

  /** Every wake from `i` to `j` skips the lead. */
  ghost predicate SkippedThrough(ws: seq<Wake>, i: nat, j: nat, lead: int) {
    i <= j < |ws| && forall k :: i <= k <= j ==> lead in ws[k].skipped
  }

  ghost predicate InTimeOrder(ws: seq<Wake>) {
    forall i, j :: 0 <= i < j < |ws| ==> ws[i].now <= ws[j].now
  }

  lemma LogsExactlyWhenDue(ws: seq<Wake>, i: nat, lead: int)
    requires i < |ws|
    ensures Logs(ws, i, lead) <==> lead in ws[i].skipped && Due(SaidAfter(ws[..i]), lead, ws[i].now)
  {
    LoggedMembers(SaidAfter(ws[..i]), ws[i], lead);
  }

  lemma LogsInFront(ws: seq<Wake>, n: nat, j: nat, lead: int)
    requires j < n <= |ws|
    ensures Logs(ws[..n], j, lead) <==> Logs(ws, j, lead)
  {
    assert ws[..n][..j] == ws[..j];
  }

  /** Main result about the map: it has exactly the leads of the last wake as its domain, and each
      value is the time of the last log of that lead, after which every wake skipped it in silence. */
  lemma {:induction false} MapIsLastLog(ws: seq<Wake>, lead: int) returns (i: nat)
    requires ws != [] && lead in ws[|ws| - 1].skipped
    ensures lead in SaidAfter(ws)
    ensures Logs(ws, i, lead) && SaidAfter(ws)[lead] == ws[i].now
    ensures SkippedThrough(ws, i, |ws| - 1, lead)
    ensures forall j: nat :: i < j < |ws| ==> !Logs(ws, j, lead)
  {
    var n := |ws| - 1;
    LogsExactlyWhenDue(ws, n, lead);
    if Due(SaidAfter(ws[..n]), lead, ws[n].now) {
      i := n;
    } else {
      DomainIsLastWake(ws[..n], lead);
      i := MapIsLastLog(ws[..n], lead);
      forall j: nat | j < n ensures Logs(ws[..n], j, lead) <==> Logs(ws, j, lead) {
        LogsInFront(ws, n, j, lead);
      }
      assert forall k :: i <= k < n ==> ws[..n][k] == ws[k];
    }
  }

  lemma DomainIsLastWake(ws: seq<Wake>, lead: int)
    ensures lead in SaidAfter(ws) <==> ws != [] && lead in ws[|ws| - 1].skipped
  {
  }

  /** Wake `k` logged the lead, and every wake since skipped it, less than an hour ago at wake `i`. */
  ghost predicate JustSaid(ws: seq<Wake>, k: nat, i: nat, lead: int) {
    k < i && Logs(ws, k, lead) && SkippedThrough(ws, k, i, lead) && ws[i].now - ws[k].now < 3_600_000_000
  }

  /** The last log of an unbroken run of skips, seen from the wake after it. */
  lemma LastLogBefore(ws: seq<Wake>, i: nat, lead: int) returns (last: nat)
    requires 0 < i < |ws| && lead in ws[i].skipped && lead in ws[i - 1].skipped
    ensures last < i && Logs(ws, last, lead) && SkippedThrough(ws, last, i, lead)
    ensures lead in SaidAfter(ws[..i]) && SaidAfter(ws[..i])[lead] == ws[last].now
    ensures forall j: nat :: last < j < i ==> !Logs(ws, j, lead)
  {
    var front := ws[..i];
    assert front[i - 1] == ws[i - 1];
    last := MapIsLastLog(front, lead);
    forall j: nat | j < i ensures Logs(front, j, lead) <==> Logs(ws, j, lead) {
      assert front[..j] == ws[..j];
    }
    assert forall k :: last <= k < i ==> front[k] == ws[k];
  }

  /** Main result about the log: a wake logs a skipped lead exactly when no wake of the unbroken run
      of skips before it logged the lead less than an hour earlier. */
  lemma LogsExactly(ws: seq<Wake>, i: nat, lead: int)
    requires InTimeOrder(ws) && i < |ws|
    ensures Logs(ws, i, lead) <==> lead in ws[i].skipped && !exists k: nat :: JustSaid(ws, k, i, lead)
  {
    LogsExactlyWhenDue(ws, i, lead);
    DomainIsLastWake(ws[..i], lead);
    if lead in ws[i].skipped && i > 0 && lead in ws[i - 1].skipped {
      var last := LastLogBefore(ws, i, lead);
      forall k: nat | JustSaid(ws, k, i, lead) ensures ws[k].now <= ws[last].now {
        assert k <= last;
      }
      if ws[i].now - ws[last].now < QUIET {
        assert JustSaid(ws, last, i, lead);
      }
    }
  }

  /** Two log lines for a lead skipped at every wake between them are at least one hour apart. */
  lemma HourApart(ws: seq<Wake>, i: nat, j: nat, lead: int)
    requires InTimeOrder(ws) && i < j && Logs(ws, i, lead) && Logs(ws, j, lead) && SkippedThrough(ws, i, j, lead)
    ensures ws[j].now - ws[i].now >= 3_600_000_000
  {
    LogsExactly(ws, j, lead);
    assert !JustSaid(ws, i, j, lead);
  }

  // ----- When a lead is logged twice within the hour -----

  ghost predicate RepeatsAt(ws: seq<Wake>, i: nat, j: nat, lead: int) {
    i < j < |ws| && Logs(ws, i, lead) && Logs(ws, j, lead) && ws[j].now - ws[i].now < QUIET
  }

  /** Wake `i` logs the lead, a wake `k` does not read or skip it, and wake `j` skips it within the hour. */
  ghost predicate ReturnsAt(ws: seq<Wake>, i: nat, k: nat, j: nat, lead: int) {
    && i < k < j < |ws| && Logs(ws, i, lead)
    && lead !in ws[k].skipped && lead in ws[j].skipped && ws[j].now - ws[i].now < QUIET
  }

  /** The first wake after `k` that skips the lead again, and so logs it. */
  lemma {:induction false} LogsOnReturn(ws: seq<Wake>, k: nat, j: nat, lead: int) returns (back: nat)
    requires k < j < |ws| && lead !in ws[k].skipped && lead in ws[j].skipped
    ensures k < back <= j && Logs(ws, back, lead)
    decreases j - k
  {
    if lead in ws[k + 1].skipped {
      back := k + 1;
      DomainIsLastWake(ws[..back], lead);
      LogsExactlyWhenDue(ws, back, lead);
    } else {
      back := LogsOnReturn(ws, k + 1, j, lead);
    }
  }

  lemma WakeWithout(ws: seq<Wake>, i: nat, j: nat, lead: int) returns (k: nat)
    requires InTimeOrder(ws) && RepeatsAt(ws, i, j, lead)
    ensures ReturnsAt(ws, i, k, j, lead)
  {
    LogsExactlyWhenDue(ws, i, lead);
    LogsExactlyWhenDue(ws, j, lead);
    if SkippedThrough(ws, i, j, lead) {
      HourApart(ws, i, j, lead);
    }
    k :| i <= k <= j && lead !in ws[k].skipped;
  }

  /** Main result about "once an hour per lead": a run breaks it exactly when a lead it has logged drops
      out of a wake and is skipped again within the hour. */
  lemma RepeatsExactly(ws: seq<Wake>, lead: int)
    requires InTimeOrder(ws)
    ensures (exists i, j :: RepeatsAt(ws, i, j, lead)) <==> (exists i, k, j :: ReturnsAt(ws, i, k, j, lead))
  {
    if i: nat, j: nat :| RepeatsAt(ws, i, j, lead) {
      var k := WakeWithout(ws, i, j, lead);
      assert ReturnsAt(ws, i, k, j, lead);
    }
    if i: nat, k: nat, j: nat :| ReturnsAt(ws, i, k, j, lead) {
      var back := LogsOnReturn(ws, k, j, lead);
      assert RepeatsAt(ws, i, back, lead);
    }
  }

  // ----- A lead behind the point where a wake stops reading -----

  /** The wake of the hunt loop over a table, when it can start `need` hunts. */
  function WakeOn(table: seq<LeadQueue.Lead>, need: int, now: int): Wake {
    Wake(LeadQueue.Skipped(table, need), now)
  }

  const MINUTE := 60 * 1_000_000

  /** A full page of leads and one behind it, the first citing a document or not. */
  function PageAndOne(firstCites: bool): (table: seq<LeadQueue.Lead>)
    ensures |table| == LeadQueue.BATCH + 1 && LeadQueue.Ordered(table)
    ensures forall i :: 0 <= i < |table| ==> table[i] == LeadQueue.Lead(i, i, 0, firstCites && i == 0)
  {
    seq(LeadQueue.BATCH + 1, i requires 0 <= i => LeadQueue.Lead(i, i, 0, firstCites && i == 0))
  }

  lemma ReadsToTheEnd(table: seq<LeadQueue.Lead>)
    requires LeadQueue.BATCH <= |table| < 2 * LeadQueue.BATCH
    requires forall i :: 0 <= i < |table| ==> !table[i].cites && table[i].failures == 0
    ensures table[|table| - 1].id in LeadQueue.Skipped(table, 1)
  {
    LeadQueue.KeepAll(table);
    LeadQueue.NoneCited(LeadQueue.FirstPages(table, 1));
    assert LeadQueue.PagesFrom(table, 1, 2) == 2;
    LeadQueue.IdsMembers(table, |table| - 1);
  }

  lemma StopsAfterOnePage()
    ensures LeadQueue.BATCH !in LeadQueue.Skipped(PageAndOne(true), 1)
  {
    var table := PageAndOne(true);
    LeadQueue.KeepAll(table);
    var page := LeadQueue.FirstPages(table, 1);
    LeadQueue.IdsMembers(page, 0);
    assert LeadQueue.PagesFrom(table, 1, 1) == 1;
    if LeadQueue.BATCH in LeadQueue.IdsWhere(page, false) {
      LeadQueue.IdsAreOfMembers(page, false, LeadQueue.BATCH);
      assert false;
    }
  }

  lemma OutAndBack(ws: seq<Wake>, lead: int)
    requires |ws| == 3 && ws[2].now - ws[0].now < QUIET
    requires lead in ws[0].skipped && lead !in ws[1].skipped && lead in ws[2].skipped
    ensures RepeatsAt(ws, 0, 2, lead)
  {
    LogsExactlyWhenDue(ws, 0, lead);
    assert ws[..0] == [];
    var back := LogsOnReturn(ws, 1, 2, lead);
  }

  /** One wake over each table, a minute apart, that can start one hunt. */
  function WakesOn(a: seq<LeadQueue.Lead>, b: seq<LeadQueue.Lead>, c: seq<LeadQueue.Lead>): seq<Wake> {
    [WakeOn(a, 1, 0), WakeOn(b, 1, MINUTE), WakeOn(c, 1, 2 * MINUTE)]
  }

  lemma WakesRepeat(a: seq<LeadQueue.Lead>, b: seq<LeadQueue.Lead>, c: seq<LeadQueue.Lead>, lead: int)
    requires lead in LeadQueue.Skipped(a, 1) && lead !in LeadQueue.Skipped(b, 1) && lead in LeadQueue.Skipped(c, 1)
    ensures InTimeOrder(WakesOn(a, b, c)) && RepeatsAt(WakesOn(a, b, c), 0, 2, lead)
  {
    OutAndBack(WakesOn(a, b, c), lead);
  }

  /** Such a run: the last lead is skipped and logged; then the first cites a document and the wake stops
      at the first page; its hunt takes it out of the queue, and the next wake logs the last lead again. */
  lemma LoggedTwiceInTwoMinutes()
    ensures var all, cited := PageAndOne(false), PageAndOne(true);
      && InTimeOrder(WakesOn(all, cited, all[1..]))
      && RepeatsAt(WakesOn(all, cited, all[1..]), 0, 2, LeadQueue.BATCH)
  {
    var all := PageAndOne(false);
    ReadsToTheEnd(all);
    StopsAfterOnePage();
    ReadsToTheEnd(all[1..]);
    WakesRepeat(all, PageAndOne(true), all[1..], LeadQueue.BATCH);
  }
}
