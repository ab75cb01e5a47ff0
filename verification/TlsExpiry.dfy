/** The certificate expiry alarm of soc_ai/main.py and the bands of soc_ai/tls_status.py: one
    webhook per band, across checks and restarts. Times are microseconds. */
module TlsExpiry {
  import opened Text

  const DAY := 86_400_000_000
  const BANDS: seq<int> := [30, 14, 7]

  // ----- Bands -----

  /** Whole days left, or -1 once the certificate has expired. */
  function DaysLeft(notAfter: int, now: int): (d: int)
    ensures d == -1 <==> now > notAfter
    ensures d >= 0 ==> d * DAY <= notAfter - now < (d + 1) * DAY
  {
    if notAfter - now < 0 then -1 else (notAfter - now) / DAY
  }

  /** 0 once expired, else the smallest threshold at or above the days left. */
  function Band(daysLeft: int): Option<int> {
    if daysLeft < 0 then Some(0)
    else if daysLeft <= 7 then Some(7)
    else if daysLeft <= 14 then Some(14)
    else if daysLeft <= 30 then Some(30)
    else None
  }

  method ExpiryBand(daysLeft: int) returns (band: Option<int>)
    ensures band == Band(daysLeft)
    ensures daysLeft < 0 ==> band == Some(0)
    ensures daysLeft >= 0 && band.Some? ==> band.value in BANDS && daysLeft <= band.value
    ensures daysLeft >= 0 ==> forall t :: t in BANDS && daysLeft <= t ==> band.Some? && band.value <= t
  {
    if daysLeft < 0 {
      return Some(0);
    }
    band := None;
    for i := 0 to |BANDS|
      invariant band == if i > 2 && daysLeft <= 7 then Some(7) else if i > 1 && daysLeft <= 14 then Some(14)
                        else if i > 0 && daysLeft <= 30 then Some(30) else None
    {
      if daysLeft <= BANDS[i] {
        band := Some(BANDS[i]);
      }
    }
  }

  /** Where a band stands on the way to expiry: none, 30, 14, 7, expired. */
  function Stage(band: Option<int>): nat {
    if band.None? then 0
    else if band.value == 30 then 1
    else if band.value == 14 then 2
    else if band.value == 7 then 3
    else 4
  }

  function BandAt(notAfter: int, now: int): Option<int> {
    Band(DaysLeft(notAfter, now))
  }

  /** As time passes the band only moves on. */
  lemma BandsMoveOn(notAfter: int, early: int, late: int)
    requires early <= late
    ensures Stage(BandAt(notAfter, early)) <= Stage(BandAt(notAfter, late))
  {
  }

  /** The band of a certificate, told from the times: 0 once it has expired, else the least of 30, 14 and
      7 that is at least the whole days left. */
  ghost predicate IsBand(notAfter: int, now: int, band: int) {
    if now > notAfter then band == 0
    else InReach(notAfter, now, band) && forall b :: InReach(notAfter, now, b) ==> band <= b
  }

  predicate InReach(notAfter: int, now: int, band: int) {
    band in {30, 14, 7} && notAfter - now < (band + 1) * 86_400_000_000
  }

  lemma BandExactly(notAfter: int, now: int, band: int)
    ensures BandAt(notAfter, now) == Some(band) <==> IsBand(notAfter, now, band)
  {
    var days := DaysLeft(notAfter, now);
    if now <= notAfter {
      assert InReach(notAfter, now, 30) <==> days <= 30;
      assert InReach(notAfter, now, 14) <==> days <= 14;
      assert InReach(notAfter, now, 7) <==> days <= 7;
      assert InReach(notAfter, now, band) ==> band == 30 || band == 14 || band == 7;
    }
  }

  // ----- The state -----

  datatype Served = Served(off: bool, notAfter: Option<int>, fingerprint: string, subject: string)

  datatype Alarm = Alarm(band: int, daysLeft: int, subject: string, since: int, fingerprint: string, diskDiffers: bool)

  /** The pair in the state file. */
  datatype Fired = Fired(fingerprint: string, band: int)

  /** What a check meets beside the state: the time, the certificate on disk, whether an event is built
      for an expiry, and whether the state file can be written. */
  datatype Env = Env(now: int, onDisk: string, eventOn: bool, writable: bool)

  /** A running process, and the state file it finds. */
  datatype Proc = Proc(served: Served, alarm: Option<Alarm>, file: Option<Fired>)

  class TlsAlarm {
    var served: Served
    var alarm: Option<Alarm>
    var file: Option<Fired>

    constructor (served: Served, file: Option<Fired>)
      ensures State() == Proc(served, None, file)
    {
      this.served, this.file, alarm := served, file, None;
    }

    ghost function State(): Proc
      reads this
    {
      Proc(served, alarm, file)
    }

    /** One check. `fired` is the certificate and the band an event is handed on for, if one is. The
        file is written once the event is handed on, whatever becomes of its delivery. */
    method Check(env: Env) returns (fired: Option<Fired>)
      modifies this
      ensures Answers(old(State()), env, State(), fired)
      ensures State() == Checked(old(State()), env)
      ensures fired == Fires(old(State()), env)
    {
      CheckAnswers(State(), env);
      fired := None;
      if served.off || served.notAfter.None? || served.fingerprint == "" {
        alarm := None;
        return;
      }
      var daysLeft := DaysLeft(served.notAfter.value, env.now);
      var band := ExpiryBand(daysLeft);
      if band.None? {
        alarm := None;
        return;
      }
      var same := alarm.Some? && alarm.value.band == band.value && alarm.value.fingerprint == served.fingerprint;
      alarm := Some(Alarm(band.value, daysLeft, served.subject, if same then alarm.value.since else env.now,
                          served.fingerprint, env.onDisk != served.fingerprint));
      if same || file == Some(Fired(served.fingerprint, band.value)) {
        return;
      }
      if env.eventOn {
        fired := Some(Fired(served.fingerprint, band.value));
        if env.writable {
          file := fired;
        }
      }
    }

    /** The process starts again with the certificate it now serves. The file survives. */
    method Restart(served: Served)
      modifies this
      ensures this.served == served && alarm == None && file == old(file)
      ensures State() == Restarted(old(State()), served)
    {
      this.served, alarm := served, None;
    }
  }

  /** The band a check finds for the served certificate. */
  function BandOf(served: Served, now: int): Option<int> {
    if served.off || served.notAfter.None? || served.fingerprint == "" then None
    else BandAt(served.notAfter.value, now)
  }

  function Found(p: Proc, now: int): Option<Fired> {
    if BandOf(p.served, now).None? then None else Some(Fired(p.served.fingerprint, BandOf(p.served, now).value))
  }

  predicate Stands(p: Proc, f: Fired) {
    p.alarm.Some? && p.alarm.value.band == f.band && p.alarm.value.fingerprint == f.fingerprint
  }

  function Fires(p: Proc, env: Env): Option<Fired> {
    var found := Found(p, env.now);
    if found.Some? && env.eventOn && !Stands(p, found.value) && p.file != found then found else None
  }

  function Checked(p: Proc, env: Env): Proc {
    var found := Found(p, env.now);
    if found.None? then p.(alarm := None)
    else
      var since := if Stands(p, found.value) then p.alarm.value.since else env.now;
      p.(alarm := Some(Alarm(found.value.band, DaysLeft(p.served.notAfter.value, env.now), p.served.subject, since,
                             p.served.fingerprint, env.onDisk != p.served.fingerprint)),
         file := if Fires(p, env).Some? && env.writable then found else p.file)
  }

  function Restarted(p: Proc, served: Served): Proc {
    Proc(served, None, p.file)
  }

  // ----- What one check does, told from the old state and the surroundings alone -----

  /** The alarm of the process stands for this pair. */
  predicate StoodFor(p: Proc, fingerprint: string, band: int) {
    p.alarm.Some? && p.alarm.value.band == band && p.alarm.value.fingerprint == fingerprint
  }

  ghost predicate AlarmFits(p: Proc, env: Env, notAfter: int, a: Alarm) {
    && IsBand(notAfter, env.now, a.band)
    && (env.now > notAfter ==> a.daysLeft == -1)
    && (env.now <= notAfter ==>
          a.daysLeft * 86_400_000_000 <= notAfter - env.now < (a.daysLeft + 1) * 86_400_000_000)
    && a.subject == p.served.subject && a.fingerprint == p.served.fingerprint
    && (a.diskDiffers <==> env.onDisk != p.served.fingerprint)
    && a.since == if StoodFor(p, a.fingerprint, a.band) then p.alarm.value.since else env.now
  }

  /** Without a certificate to watch, or in no band, the alarm goes and nothing is handed on. In a band the
      alarm is raised or kept; its pair is handed on when events are on, no alarm stood for it and the file
      does not hold it; and what is handed on is written, if it can be. */
  ghost predicate Answers(p: Proc, env: Env, q: Proc, fired: Option<Fired>) {
    && q.served == p.served
    && q.file == (if fired.Some? && env.writable then fired else p.file)
    && if p.served.off || p.served.notAfter.None? || p.served.fingerprint == "" then q.alarm == None && fired == None
       else
         && (q.alarm.Some? <==> exists band :: IsBand(p.served.notAfter.value, env.now, band))
         && (q.alarm.Some? ==> AlarmFits(p, env, p.served.notAfter.value, q.alarm.value))
         && fired ==
              if q.alarm.Some? && env.eventOn && !StoodFor(p, p.served.fingerprint, q.alarm.value.band)
                 && p.file != Some(Fired(p.served.fingerprint, q.alarm.value.band))
              then Some(Fired(p.served.fingerprint, q.alarm.value.band)) else None
  }

  lemma CheckAnswers(p: Proc, env: Env)
    ensures Answers(p, env, Checked(p, env), Fires(p, env))
  {
    if BandOf(p.served, env.now).Some? {
      BandExactly(p.served.notAfter.value, env.now, BandOf(p.served, env.now).value);
    } else if !p.served.off && p.served.notAfter.Some? && p.served.fingerprint != "" {
      forall band ensures !IsBand(p.served.notAfter.value, env.now, band) {
        BandExactly(p.served.notAfter.value, env.now, band);
      }
    }
  }

  // ----- Runs of checks and restarts, each restart with the certificate it then serves -----

  datatype Event = CheckNow(env: Env) | RestartWith(served: Served)

  function Next(p: Proc, e: Event): Proc {
    if e.RestartWith? then Restarted(p, e.served) else Checked(p, e.env)
  }

  function After(p: Proc, run: seq<Event>): Proc {
    if run == [] then p else Next(After(p, run[..|run| - 1]), run[|run| - 1])
  }

  /** The state event `n` of the run meets. */
  function Before(p: Proc, run: seq<Event>, n: nat): Proc
    requires n <= |run|
  {
    After(p, run[..n])
  }

  /** What event `i` finds, and what it fires. */
  function FoundAt(p: Proc, run: seq<Event>, i: nat): Option<Fired>
    requires i < |run|
  {
    if run[i].RestartWith? then None else Found(Before(p, run, i), run[i].env.now)
  }

  function FiredAt(p: Proc, run: seq<Event>, i: nat): Option<Fired>
    requires i < |run|
  {
    if run[i].RestartWith? then None else Fires(Before(p, run, i), run[i].env)
  }

  lemma Step(p: Proc, run: seq<Event>, n: nat)
    requires n < |run|
    ensures Before(p, run, n + 1) == Next(Before(p, run, n), run[n])
  {
    assert run[..n + 1][..n] == run[..n];
  }

  /** The certificate served at event `n`: that of the last restart. */
  function ServedAt(p: Proc, run: seq<Event>, n: nat): Served
    requires n <= |run|
  {
    if n == 0 then p.served else if run[n - 1].RestartWith? then run[n - 1].served else ServedAt(p, run, n - 1)
  }

  lemma {:induction false} ServedIs(p: Proc, run: seq<Event>, n: nat)
    requires n <= |run|
    ensures Before(p, run, n).served == ServedAt(p, run, n)
  {
    if n == 0 {
      assert run[..0] == [];
    } else {
      ServedIs(p, run, n - 1);
      Step(p, run, n - 1);
    }
  }

  /** What a check of a run finds, told from the run: the band of the certificate served then. */
  lemma FoundExactly(p: Proc, run: seq<Event>, j: nat, f: Fired)
    requires j < |run|
    ensures FoundAt(p, run, j) == Some(f) <==>
      var s := ServedAt(p, run, j);
      && run[j].CheckNow? && !s.off && s.notAfter.Some? && s.fingerprint != "" && f.fingerprint == s.fingerprint
      && IsBand(s.notAfter.value, run[j].env.now, f.band)
  {
    ServedIs(p, run, j);
    var s := ServedAt(p, run, j);
    if run[j].CheckNow? && s.notAfter.Some? {
      BandExactly(s.notAfter.value, run[j].env.now, f.band);
    }
  }

  ghost predicate InTimeOrder(run: seq<Event>) {
    forall i, j :: 0 <= i < j < |run| && run[i].CheckNow? && run[j].CheckNow? ==> run[i].env.now <= run[j].env.now
  }

  /** A fingerprint stands for one certificate, so it determines when the certificate expires. */
  ghost predicate OneExpiry(p: Proc, run: seq<Event>) {
    forall i, j :: 0 <= i < |run| && 0 <= j < |run| && run[i].CheckNow? && run[j].CheckNow? ==>
      SameExpiry(Before(p, run, i).served, Before(p, run, j).served)
  }

  predicate SameExpiry(a: Served, b: Served) {
    a.fingerprint == b.fingerprint && !a.off && !b.off && a.notAfter.Some? && b.notAfter.Some? ==>
      a.notAfter == b.notAfter
  }

  ghost predicate Lawful(p: Proc, run: seq<Event>) {
    InTimeOrder(run) && OneExpiry(p, run)
  }

  ghost predicate NoRestart(run: seq<Event>, i: nat, n: nat)
    requires n <= |run|
  {
    forall k :: i <= k < n ==> run[k].CheckNow?
  }

  /** Since the last start some check before `n` found this pair. */
  ghost predicate FoundSince(p: Proc, run: seq<Event>, n: nat, f: Fired)
    requires n <= |run|
  {
    exists i :: 0 <= i < n && FoundAt(p, run, i) == Some(f) && NoRestart(run, i, n)
  }

  /** Check `j` is the first since the last start to find this pair, and the alarm that stands when the
      run begins is not of it. */
  ghost predicate FirstFind(p: Proc, run: seq<Event>, j: nat, f: Fired)
    requires j < |run|
  {
    FoundAt(p, run, j) == Some(f) && !FoundSince(p, run, j, f) && (j == 0 ==> !Stands(p, f))
  }

  // ----- The pairs that are due, told from the checks and restarts alone -----

  /** The pair a check puts into the file, or finds there. */
  ghost function Noted(p: Proc, run: seq<Event>, k: nat): Option<Fired>
    requires k < |run|
  {
    var found := FoundAt(p, run, k);
    if found.Some? && FirstFind(p, run, k, found.value) && run[k].env.eventOn && run[k].env.writable then found
    else None
  }

  /** The last pair noted, or the one in the file when the run begins. */
  ghost function Remembered(p: Proc, run: seq<Event>, n: nat): Option<Fired>
    requires n <= |run|
  {
    if n == 0 then p.file
    else if Noted(p, run, n - 1).Some? then Noted(p, run, n - 1)
    else Remembered(p, run, n - 1)
  }

  /** A pair is due when a start first finds it with events on, and it is not the one remembered. */
  ghost predicate Due(p: Proc, run: seq<Event>, j: nat, f: Fired)
    requires j < |run|
  {
    FirstFind(p, run, j, f) && run[j].env.eventOn && Remembered(p, run, j) != Some(f)
  }

  /** A pair of another certificate is due and written between two events. */
  ghost predicate Overwritten(p: Proc, run: seq<Event>, i: nat, j: nat, f: Fired)
    requires j <= |run|
  {
    exists k, g: Fired ::
      i < k < j && Due(p, run, k, g) && run[k].env.writable && g.fingerprint != f.fingerprint
  }

  // ----- Single checks -----

  /** For one certificate the bands found only move on. */
  lemma NoWayBack(p: Proc, run: seq<Event>, i: nat, j: nat, f: Fired, g: Fired)
    requires Lawful(p, run) && i < j < |run|
    requires FoundAt(p, run, i) == Some(f) && FoundAt(p, run, j) == Some(g) && f.fingerprint == g.fingerprint
    ensures Stage(Some(f.band)) <= Stage(Some(g.band))
  {
    var a, b := Before(p, run, i).served, Before(p, run, j).served;
    assert SameExpiry(a, b);
    BandsMoveOn(a.notAfter.value, run[i].env.now, run[j].env.now);
  }

  lemma BandsAreStages(p: Proc, q: Proc, now: int, later: int)
    requires Found(p, now).Some? && Found(q, later).Some?
    ensures Stage(Some(Found(p, now).value.band)) > 0
    ensures Stage(Some(Found(p, now).value.band)) == Stage(Some(Found(q, later).value.band)) ==>
      Found(p, now).value.band == Found(q, later).value.band
  {
  }

  lemma {:induction false} SameServed(p: Proc, run: seq<Event>, i: nat, n: nat)
    requires i <= n <= |run| && NoRestart(run, i, n)
    ensures Before(p, run, i).served == Before(p, run, n).served
  {
    if i < n {
      SameServed(p, run, i, n - 1);
      Step(p, run, n - 1);
    }
  }

  /** Between two finds of a pair in one process every check finds it. */
  lemma FoundBetween(p: Proc, run: seq<Event>, i: nat, m: nat, j: nat, f: Fired)
    requires InTimeOrder(run) && i <= m <= j < |run| && NoRestart(run, i, j)
    requires FoundAt(p, run, i) == Some(f) && FoundAt(p, run, j) == Some(f)
    ensures FoundAt(p, run, m) == Some(f)
  {
    SameServed(p, run, i, m);
    SameServed(p, run, i, j);
    var notAfter := Before(p, run, i).served.notAfter.value;
    BandsMoveOn(notAfter, run[i].env.now, run[m].env.now);
    BandsMoveOn(notAfter, run[m].env.now, run[j].env.now);
    StageIsBand(notAfter, run[i].env.now, run[m].env.now);
  }

  lemma StageIsBand(notAfter: int, now: int, later: int)
    ensures Stage(BandAt(notAfter, now)) == Stage(BandAt(notAfter, later)) ==>
      BandAt(notAfter, now) == BandAt(notAfter, later)
  {
  }

  lemma AlarmStands(p: Proc, run: seq<Event>, n: nat, f: Fired)
    requires n < |run|
    ensures run[n].CheckNow? ==> (Stands(Before(p, run, n + 1), f) <==> FoundAt(p, run, n) == Some(f))
    ensures run[n].RestartWith? ==> !Stands(Before(p, run, n + 1), f)
  {
    Step(p, run, n);
  }

  /** A check that finds a pair is the first since the last start to do so exactly when no alarm stands
      for it yet. */
  lemma FirstFindExactly(p: Proc, run: seq<Event>, j: nat, f: Fired)
    requires InTimeOrder(run) && j < |run| && FoundAt(p, run, j) == Some(f)
    ensures FirstFind(p, run, j, f) <==> !Stands(Before(p, run, j), f)
  {
    if j == 0 {
      assert run[..0] == [];
    } else {
      AlarmStands(p, run, j - 1, f);
      if FoundSince(p, run, j, f) {
        var i :| 0 <= i < j && FoundAt(p, run, i) == Some(f) && NoRestart(run, i, j);
        FoundBetween(p, run, i, j - 1, j, f);
      } else if run[j - 1].CheckNow? {
        assert NoRestart(run, j - 1, j);
      }
    }
  }

  /** The file holds what is remembered. */
  lemma {:induction false} FileIsRemembered(p: Proc, run: seq<Event>, n: nat)
    requires InTimeOrder(run) && n <= |run|
    ensures Before(p, run, n).file == Remembered(p, run, n)
  {
    if n == 0 {
      assert run[..0] == [];
    } else {
      FileIsRemembered(p, run, n - 1);
      Step(p, run, n - 1);
      var found := FoundAt(p, run, n - 1);
      if found.Some? {
        FirstFindExactly(p, run, n - 1, found.value);
      }
    }
  }

  /** Main result check by check: the pairs fired are the pairs due. */
  lemma FiresExactly(p: Proc, run: seq<Event>, j: nat, f: Fired)
    requires InTimeOrder(run) && j < |run|
    ensures FiredAt(p, run, j) == Some(f) <==> Due(p, run, j, f)
  {
    FileIsRemembered(p, run, j);
    if FoundAt(p, run, j) == Some(f) {
      FirstFindExactly(p, run, j, f);
    }
  }

  // ----- What is remembered -----

  /** A pair that is remembered and was not before was due in between. */
  lemma {:induction false} DueBetween(p: Proc, run: seq<Event>, m: nat, n: nat, f: Fired) returns (k: nat)
    requires m <= n <= |run| && Remembered(p, run, m) != Some(f) && Remembered(p, run, n) == Some(f)
    ensures m <= k < n && Due(p, run, k, f) && run[k].env.writable
  {
    if Remembered(p, run, n - 1) == Some(f) {
      k := DueBetween(p, run, m, n - 1, f);
    } else {
      k := n - 1;
    }
  }

  /** A pair that is remembered and later no more was written over. */
  lemma {:induction false} NotedBetween(p: Proc, run: seq<Event>, m: nat, n: nat, f: Fired) returns (k: nat, g: Fired)
    requires m <= n <= |run| && Remembered(p, run, m) == Some(f) && Remembered(p, run, n) != Some(f)
    ensures m <= k < n && Due(p, run, k, g) && run[k].env.writable && g != f
  {
    if Remembered(p, run, n - 1) != Some(f) {
      k, g := NotedBetween(p, run, m, n - 1, f);
    } else {
      k, g := n - 1, Noted(p, run, n - 1).value;
    }
  }

  /** Between two finds of one pair a check of the same certificate finds that pair. */
  lemma NothingElseBetween(p: Proc, run: seq<Event>, i: nat, m: nat, j: nat, f: Fired)
    requires Lawful(p, run) && i < m < j < |run|
    requires FoundAt(p, run, i) == Some(f) && FoundAt(p, run, j) == Some(f)
    requires FoundAt(p, run, m).Some? && FoundAt(p, run, m).value.fingerprint == f.fingerprint
    ensures FoundAt(p, run, m) == Some(f)
  {
    var g := FoundAt(p, run, m).value;
    NoWayBack(p, run, i, m, f, g);
    NoWayBack(p, run, m, j, g, f);
    BandsAreStages(Before(p, run, i), Before(p, run, m), run[i].env.now, run[m].env.now);
  }

  // ----- Once per certificate and band -----

  ghost predicate OnceFor(p: Proc, run: seq<Event>, f: Fired) {
    forall i, j :: 0 <= i < j < |run| && FiredAt(p, run, i) == Some(f) ==> FiredAt(p, run, j) != Some(f)
  }

  /** The pair is due at `i`, and at `j` a start first finds it again with the file no longer holding
      it: the write failed, or the file went to another certificate since. */
  ghost predicate Forgotten(p: Proc, run: seq<Event>, i: nat, j: nat, f: Fired)
    requires i < |run| && j < |run|
  {
    && Due(p, run, i, f)
    && FirstFind(p, run, j, f) && run[j].env.eventOn
    && (!run[i].env.writable || Overwritten(p, run, i, j, f))
  }

  /** Main result, run by run: a pair is paged at most once exactly when no later start finds it
      forgotten. Writes may fail at some checks and succeed at others. */
  lemma OnceExactly(p: Proc, run: seq<Event>, f: Fired)
    requires Lawful(p, run)
    ensures OnceFor(p, run, f) <==> !exists i, j :: 0 <= i < j < |run| && Forgotten(p, run, i, j, f)
  {
    if !OnceFor(p, run, f) {
      var i, j :| 0 <= i < j < |run| && FiredAt(p, run, i) == Some(f) && FiredAt(p, run, j) == Some(f);
      RepeatedIsForgotten(p, run, i, j, f);
    }
    forall i, j | 0 <= i < j < |run| && Forgotten(p, run, i, j, f) ensures !OnceFor(p, run, f) {
      ForgottenIsRepeated(p, run, i, j, f);
    }
  }

  lemma RepeatedIsForgotten(p: Proc, run: seq<Event>, i: nat, j: nat, f: Fired)
    requires Lawful(p, run) && i < j < |run| && FiredAt(p, run, i) == Some(f) && FiredAt(p, run, j) == Some(f)
    ensures Forgotten(p, run, i, j, f)
  {
    FiresExactly(p, run, i, f);
    FiresExactly(p, run, j, f);
    if run[i].env.writable {
      assert Remembered(p, run, i + 1) == Some(f);
      var k, g := NotedBetween(p, run, i + 1, j, f);
      if g.fingerprint == f.fingerprint {
        NothingElseBetween(p, run, i, k, j, f);
      }
    }
  }

  lemma ForgottenIsRepeated(p: Proc, run: seq<Event>, i: nat, j: nat, f: Fired)
    requires Lawful(p, run) && i < j < |run| && Forgotten(p, run, i, j, f)
    ensures !OnceFor(p, run, f)
  {
    var m := ForgottenBy(p, run, i, j, f);
    var again := j;
    if Remembered(p, run, j) == Some(f) {
      again := DueBetween(p, run, m, j, f);
    }
    FiresExactly(p, run, i, f);
    FiresExactly(p, run, again, f);
  }

  lemma ForgottenBy(p: Proc, run: seq<Event>, i: nat, j: nat, f: Fired) returns (m: nat)
    requires i < j < |run| && Forgotten(p, run, i, j, f)
    ensures i < m <= j && Remembered(p, run, m) != Some(f)
  {
    if run[i].env.writable {
      var k, g: Fired :| i < k < j && Due(p, run, k, g) && run[k].env.writable && g.fingerprint != f.fingerprint;
      assert Noted(p, run, k) == Some(g);
      m := k + 1;
    } else {
      assert Noted(p, run, i) == None;
      m := i + 1;
    }
  }

  /** Whether the state file can be written is the same at every check. */
  ghost predicate WritableIs(run: seq<Event>, writable: bool) {
    forall i :: 0 <= i < |run| && run[i].CheckNow? ==> run[i].env.writable == writable
  }

  /** The run goes back to a certificate after a pair of another one was due. */
  ghost predicate Returns(p: Proc, run: seq<Event>) {
    exists i, k, j, f, g :: 0 <= i < k < j < |run| && ReturnsWith(p, run, i, k, j, f, g)
  }

  ghost predicate ReturnsWith(p: Proc, run: seq<Event>, i: nat, k: nat, j: nat, f: Fired, g: Fired)
    requires i < |run| && k < |run| && j < |run|
  {
    && Due(p, run, i, f) && Due(p, run, k, g) && f.fingerprint != g.fingerprint
    && FoundAt(p, run, j).Some? && FoundAt(p, run, j).value.fingerprint == f.fingerprint
  }

  lemma ForgottenReturns(p: Proc, run: seq<Event>, i: nat, j: nat, f: Fired)
    requires i < j < |run| && Forgotten(p, run, i, j, f) && WritableIs(run, true)
    ensures Returns(p, run)
  {
    var k, g: Fired :| i < k < j && Due(p, run, k, g) && run[k].env.writable && g.fingerprint != f.fingerprint;
    assert ReturnsWith(p, run, i, k, j, f, g);
  }

  lemma OnceWithoutReturn(p: Proc, run: seq<Event>, f: Fired)
    requires Lawful(p, run) && WritableIs(run, true) && !Returns(p, run)
    ensures OnceFor(p, run, f)
  {
    OnceExactly(p, run, f);
    if i, j :| 0 <= i < j < |run| && Forgotten(p, run, i, j, f) {
      ForgottenReturns(p, run, i, j, f);
    }
  }

  // ----- Counts -----

  /** How many of the first `n` events fire a pair, or any band of a certificate. */
  function Count(p: Proc, run: seq<Event>, n: nat, f: Fired): nat
    requires n <= |run|
  {
    if n == 0 then 0 else Count(p, run, n - 1, f) + (if FiredAt(p, run, n - 1) == Some(f) then 1 else 0)
  }

  function Total(p: Proc, run: seq<Event>, n: nat, fingerprint: string): nat
    requires n <= |run|
  {
    if n == 0 then 0
    else
      var f := FiredAt(p, run, n - 1);
      Total(p, run, n - 1, fingerprint) + (if f.Some? && f.value.fingerprint == fingerprint then 1 else 0)
  }

  lemma {:induction false} CountIsPositive(p: Proc, run: seq<Event>, n: nat, f: Fired)
    requires n <= |run|
    ensures Count(p, run, n, f) > 0 <==> exists i :: 0 <= i < n && FiredAt(p, run, i) == Some(f)
  {
    if n > 0 {
      CountIsPositive(p, run, n - 1, f);
    }
  }

  lemma {:induction false} OnceCounts(p: Proc, run: seq<Event>, n: nat, f: Fired)
    requires n <= |run| && OnceFor(p, run, f)
    ensures Count(p, run, n, f) <= 1
  {
    if n > 0 {
      OnceCounts(p, run, n - 1, f);
      CountIsPositive(p, run, n - 1, f);
    }
  }

  lemma {:induction false} TotalIsSum(p: Proc, run: seq<Event>, n: nat, fp: string)
    requires n <= |run|
    ensures Total(p, run, n, fp) ==
      Count(p, run, n, Fired(fp, 30)) + Count(p, run, n, Fired(fp, 14))
      + Count(p, run, n, Fired(fp, 7)) + Count(p, run, n, Fired(fp, 0))
  {
    if n > 0 {
      TotalIsSum(p, run, n - 1, fp);
    }
  }

  /** Main result: over any checks and restarts in time order, from any state, with a file that can be
      written and no return to an earlier certificate, every certificate gets at most one webhook per
      band and four in all. */
  lemma OncePerBand(p: Proc, run: seq<Event>)
    requires Lawful(p, run) && WritableIs(run, true) && !Returns(p, run)
    ensures forall f :: Count(p, run, |run|, f) <= 1
    ensures forall fingerprint :: Total(p, run, |run|, fingerprint) <= 4
  {
    forall f ensures Count(p, run, |run|, f) <= 1 {
      OnceWithoutReturn(p, run, f);
      OnceCounts(p, run, |run|, f);
    }
    forall fingerprint ensures Total(p, run, |run|, fingerprint) <= 4 {
      TotalIsSum(p, run, |run|, fingerprint);
    }
  }

  lemma {:induction false} TwiceCounts(p: Proc, run: seq<Event>, i: nat, j: nat, n: nat, f: Fired)
    requires i < j < n <= |run| && FiredAt(p, run, i) == Some(f) && FiredAt(p, run, j) == Some(f)
    ensures Count(p, run, n, f) >= 2
  {
    if j < n - 1 {
      TwiceCounts(p, run, i, j, n - 1, f);
    } else {
      CountIsPositive(p, run, j, f);
    }
  }

  // ----- Exactly once -----

  ghost predicate Finds(p: Proc, run: seq<Event>, n: nat, f: Fired)
    requires n <= |run|
  {
    exists i :: 0 <= i < n && FoundAt(p, run, i) == Some(f)
  }

  /** Some start first finds the pair while events are on. */
  ghost predicate Heard(p: Proc, run: seq<Event>, n: nat, f: Fired)
    requires n <= |run|
  {
    exists j :: 0 <= j < n && FirstFind(p, run, j, f) && run[j].env.eventOn
  }

  ghost predicate NeverForgotten(p: Proc, run: seq<Event>, f: Fired) {
    forall i, j :: 0 <= i < j < |run| ==> !Forgotten(p, run, i, j, f)
  }

  /** At least once: a pair the file does not hold is handed on exactly when some start first finds it
      while events are on. A later check of the same start does not make up for it. */
  lemma HeardExactly(p: Proc, run: seq<Event>, n: nat, f: Fired)
    requires InTimeOrder(run) && n <= |run| && p.file != Some(f)
    ensures Count(p, run, n, f) > 0 <==> Heard(p, run, n, f)
  {
    CountIsPositive(p, run, n, f);
    if i :| 0 <= i < n && FiredAt(p, run, i) == Some(f) {
      FiresExactly(p, run, i, f);
    }
    if j :| 0 <= j < n && FirstFind(p, run, j, f) && run[j].env.eventOn {
      var k := j;
      if Remembered(p, run, j) == Some(f) {
        k := DueBetween(p, run, 0, j, f);
      }
      FiresExactly(p, run, k, f);
    }
  }

  /** Main result, run by run: exactly the pairs that some check finds are handed on, once each, if and
      only if every pair found is heard and none is forgotten. */
  lemma EveryBandOnce(p: Proc, run: seq<Event>, f: Fired)
    requires Lawful(p, run) && p.file != Some(f)
    ensures Count(p, run, |run|, f) == (if Finds(p, run, |run|, f) then 1 else 0) <==>
      (Finds(p, run, |run|, f) ==> Heard(p, run, |run|, f)) && NeverForgotten(p, run, f)
  {
    HeardExactly(p, run, |run|, f);
    OnceExactly(p, run, f);
    assert Heard(p, run, |run|, f) ==> Finds(p, run, |run|, f);
    if OnceFor(p, run, f) {
      OnceCounts(p, run, |run|, f);
    } else {
      var i, j :| 0 <= i < j < |run| && FiredAt(p, run, i) == Some(f) && FiredAt(p, run, j) == Some(f);
      TwiceCounts(p, run, i, j, |run|, f);
    }
  }

  /** Check `k` notes another pair than this, and then a start first finds this one with events on. */
  ghost predicate Replaced(p: Proc, run: seq<Event>, k: nat, j: nat, f: Fired)
    requires k < |run| && j < |run|
  {
    && Noted(p, run, k).Some? && Noted(p, run, k) != Some(f)
    && FirstFind(p, run, j, f) && run[j].env.eventOn
  }

  lemma ReplacedIsFired(p: Proc, run: seq<Event>, k: nat, j: nat, f: Fired)
    requires InTimeOrder(run) && k < j < |run| && Replaced(p, run, k, j, f)
    ensures exists i :: 0 <= i < |run| && FiredAt(p, run, i) == Some(f)
  {
    assert Remembered(p, run, k + 1) != Some(f);
    var again := j;
    if Remembered(p, run, j) == Some(f) {
      again := DueBetween(p, run, k + 1, j, f);
    }
    FiresExactly(p, run, again, f);
  }

  lemma FiredWasReplaced(p: Proc, run: seq<Event>, j: nat, f: Fired) returns (k: nat)
    requires InTimeOrder(run) && j < |run| && p.file == Some(f) && FiredAt(p, run, j) == Some(f)
    ensures k < j && Replaced(p, run, k, j, f)
  {
    FiresExactly(p, run, j, f);
    var g;
    k, g := NotedBetween(p, run, 0, j, f);
  }

  /** A pair that the file holds when the run begins is handed on again exactly when it is written over
      and a start then first finds it while events are on. */
  lemma NotAgainExactly(p: Proc, run: seq<Event>, f: Fired)
    requires InTimeOrder(run) && p.file == Some(f)
    ensures Count(p, run, |run|, f) > 0 <==> exists k, j :: 0 <= k < j < |run| && Replaced(p, run, k, j, f)
  {
    CountIsPositive(p, run, |run|, f);
    if j :| 0 <= j < |run| && FiredAt(p, run, j) == Some(f) {
      var k := FiredWasReplaced(p, run, j, f);
    }
    if k, j :| 0 <= k < j < |run| && Replaced(p, run, k, j, f) {
      ReplacedIsFired(p, run, k, j, f);
    }
  }

  // ----- Classes of runs -----

  /** An event is built at every check. */
  ghost predicate SwitchedOn(run: seq<Event>) {
    forall i :: 0 <= i < |run| && run[i].CheckNow? ==> run[i].env.eventOn
  }

  lemma {:induction false} FoundIsFirstFound(p: Proc, run: seq<Event>, n: nat, f: Fired) returns (j: nat)
    requires n <= |run| && Finds(p, run, n, f) && !Stands(p, f)
    ensures j < n && FirstFind(p, run, j, f)
  {
    if Finds(p, run, n - 1, f) {
      j := FoundIsFirstFound(p, run, n - 1, f);
    } else {
      j := n - 1;
    }
  }

  /** A run from a process start, with a pair that was not handed on before, in a class: the file can be
      written or not, the run may go back to a certificate, the switch may be off at some checks. */
  ghost predicate InClass(p: Proc, run: seq<Event>, f: Fired, writable: bool, mayReturn: bool, maySwitch: bool) {
    && Lawful(p, run) && p.alarm.None? && p.file != Some(f)
    && WritableIs(run, writable) && (mayReturn || !Returns(p, run)) && (maySwitch || SwitchedOn(run))
  }

  /** Every pair found is handed on, once. */
  ghost predicate PromiseHolds(writable: bool, mayReturn: bool, maySwitch: bool) {
    forall p: Proc, run: seq<Event>, f: Fired :: InClass(p, run, f, writable, mayReturn, maySwitch) ==>
      Count(p, run, |run|, f) == if Finds(p, run, |run|, f) then 1 else 0
  }

  /** No pair is handed on twice. */
  ghost predicate NeverTwice(writable: bool, mayReturn: bool) {
    forall p: Proc, run: seq<Event>, f: Fired ::
      Lawful(p, run) && WritableIs(run, writable) && (mayReturn || !Returns(p, run)) ==> OnceFor(p, run, f)
  }

  // ----- Runs that break the promise -----

  function CertA(): Served {
    Served(false, Some(0), "a", "")
  }

  function CertB(): Served {
    Served(false, Some(0), "b", "")
  }

  function Prompt(eventOn: bool, writable: bool): Event {
    CheckNow(Env(0, "", eventOn, writable))
  }

  function StartA(): Proc {
    Proc(CertA(), None, None)
  }

  const A7 := Fired("a", 7)

  lemma OneCertificate(p: Proc, run: seq<Event>)
    requires forall j :: 0 <= j < |run| && FoundAt(p, run, j).Some? ==> FoundAt(p, run, j).value.fingerprint == "a"
    ensures !Returns(p, run)
  {
    forall i: nat, k: nat, j: nat, f, g | i < k < j < |run| ensures !ReturnsWith(p, run, i, k, j, f, g) {
      assert Due(p, run, i, f) ==> FoundAt(p, run, i) == Some(f);
      assert Due(p, run, k, g) ==> FoundAt(p, run, k) == Some(g);
    }
  }

  /** Without a file that can be written, a restart repeats the webhook. */
  lemma LostWriteRepeats() returns (p: Proc, run: seq<Event>, f: Fired)
    ensures InClass(p, run, f, false, false, false) && !OnceFor(p, run, f)
  {
    var c := Prompt(true, false);
    p, run, f := StartA(), [c, RestartWith(CertA()), c], A7;
    assert run[..0] == [];
    Step(p, run, 0);
    Step(p, run, 1);
    assert FiredAt(p, run, 0) == Some(f) && FiredAt(p, run, 2) == Some(f);
    OneCertificate(p, run);
  }

  /** With every write succeeding, a run that serves A, then B, then A again repeats the webhook of A. */
  lemma ReturnRepeats() returns (p: Proc, run: seq<Event>, f: Fired)
    ensures InClass(p, run, f, true, true, false) && Returns(p, run) && !OnceFor(p, run, f)
  {
    var c := Prompt(true, true);
    p, f := StartA(), A7;
    run := [c, RestartWith(CertB()), c, RestartWith(CertA()), c];
    assert run[..0] == [];
    Step(p, run, 0);
    Step(p, run, 1);
    Step(p, run, 2);
    Step(p, run, 3);
    var g := Fired("b", 7);
    assert FiredAt(p, run, 0) == Some(f) && FiredAt(p, run, 2) == Some(g) && FiredAt(p, run, 4) == Some(f);
    FiresExactly(p, run, 0, f);
    FiresExactly(p, run, 2, g);
    assert ReturnsWith(p, run, 0, 2, 4, f, g);
  }

  /** A band found while the switch is off is not handed on when it is on at the next check. */
  lemma LateSwitchIsSilent() returns (p: Proc, run: seq<Event>, f: Fired)
    ensures InClass(p, run, f, true, false, true)
    ensures run == [Prompt(false, true), Prompt(true, true)]
    ensures Finds(p, run, 2, f) && Count(p, run, 2, f) == 0
  {
    p, run, f := StartA(), [Prompt(false, true), Prompt(true, true)], A7;
    assert run[..0] == [];
    Step(p, run, 0);
    assert FoundAt(p, run, 0) == Some(f) && FoundAt(p, run, 1) == Some(f);
    assert FiredAt(p, run, 0) == None && FiredAt(p, run, 1) == None;
    OneCertificate(p, run);
  }

  // ----- When the promise holds -----

  /** At most once: no run of a class repeats a pair exactly when the file can be written and no run goes
      back to a certificate after another one fired. */
  lemma NeverTwiceExactly(writable: bool, mayReturn: bool)
    ensures NeverTwice(writable, mayReturn) <==> writable && !mayReturn
  {
    if writable && !mayReturn {
      forall p: Proc, run: seq<Event>, f: Fired
        | Lawful(p, run) && WritableIs(run, writable) && !Returns(p, run)
        ensures OnceFor(p, run, f)
      {
        OnceWithoutReturn(p, run, f);
      }
    } else if writable {
      var p, run, f := ReturnRepeats();
    } else {
      var p, run, f := LostWriteRepeats();
    }
  }

  lemma KeptInClass(p: Proc, run: seq<Event>, f: Fired)
    requires InClass(p, run, f, true, false, false)
    ensures Count(p, run, |run|, f) == if Finds(p, run, |run|, f) then 1 else 0
  {
    HeardExactly(p, run, |run|, f);
    OnceWithoutReturn(p, run, f);
    OnceCounts(p, run, |run|, f);
    if Finds(p, run, |run|, f) {
      var j := FoundIsFirstFound(p, run, |run|, f);
      assert Heard(p, run, |run|, f);
    } else {
      assert !Heard(p, run, |run|, f);
    }
  }

  lemma RepeatBreaks(p: Proc, run: seq<Event>, f: Fired)
    requires !OnceFor(p, run, f)
    ensures Count(p, run, |run|, f) >= 2
  {
    var i, j :| 0 <= i < j < |run| && FiredAt(p, run, i) == Some(f) && FiredAt(p, run, j) == Some(f);
    TwiceCounts(p, run, i, j, |run|, f);
  }

  /** Main result over classes of runs: every pair found is handed on exactly once if and only if the file
      can be written, no run goes back to a certificate after another one fired, and the switch stays on. */
  lemma PromiseHoldsExactly(writable: bool, mayReturn: bool, maySwitch: bool)
    ensures PromiseHolds(writable, mayReturn, maySwitch) <==> writable && !mayReturn && !maySwitch
  {
    if writable && !mayReturn && !maySwitch {
      forall p: Proc, run: seq<Event>, f: Fired | InClass(p, run, f, writable, mayReturn, maySwitch)
        ensures Count(p, run, |run|, f) == if Finds(p, run, |run|, f) then 1 else 0
      {
        KeptInClass(p, run, f);
      }
    } else {
      var p, run, f;
      if !writable {
        p, run, f := LostWriteRepeats();
        RepeatBreaks(p, run, f);
      } else if mayReturn {
        p, run, f := ReturnRepeats();
        RepeatBreaks(p, run, f);
      } else {
        p, run, f := LateSwitchIsSilent();
      }
      assert InClass(p, run, f, writable, mayReturn, maySwitch);
    }
  }

  // ----- Starts -----

  function Restarts(run: seq<Event>, n: nat): nat
    requires n <= |run|
  {
    if n == 0 then 0 else Restarts(run, n - 1) + (if run[n - 1].RestartWith? then 1 else 0)
  }

  lemma FoundSinceNext(p: Proc, run: seq<Event>, n: nat, f: Fired)
    requires n < |run|
    ensures FoundSince(p, run, n + 1, f) <==>
      run[n].CheckNow? && (FoundSince(p, run, n, f) || FoundAt(p, run, n) == Some(f))
  {
    if run[n].CheckNow? && FoundSince(p, run, n, f) {
      var i :| 0 <= i < n && FoundAt(p, run, i) == Some(f) && NoRestart(run, i, n);
      assert NoRestart(run, i, n + 1);
    }
    if run[n].CheckNow? && FoundAt(p, run, n) == Some(f) {
      assert NoRestart(run, n, n + 1);
    }
    if FoundSince(p, run, n + 1, f) {
      var i :| 0 <= i < n + 1 && FoundAt(p, run, i) == Some(f) && NoRestart(run, i, n + 1);
      assert run[n].CheckNow?;
      assert i < n ==> NoRestart(run, i, n);
    }
  }

  /** Whatever the writes, the switch and the certificates do, one process hands a pair on at most once. */
  lemma OnceInOneStart(p: Proc, run: seq<Event>, i: nat, j: nat, f: Fired)
    requires InTimeOrder(run) && i < j < |run| && NoRestart(run, i, j) && FiredAt(p, run, i) == Some(f)
    ensures FiredAt(p, run, j) != Some(f)
  {
    FiresExactly(p, run, i, f);
    FiresExactly(p, run, j, f);
    assert FoundSince(p, run, j, f);
  }

  /** So in all a pair is handed on at most as often as the process started. */
  lemma {:induction false} OncePerStart(p: Proc, run: seq<Event>, n: nat, f: Fired)
    requires Lawful(p, run) && n <= |run|
    ensures Count(p, run, n, f) <= Restarts(run, n) + (if FoundSince(p, run, n, f) then 1 else 0)
  {
    if n > 0 {
      OncePerStart(p, run, n - 1, f);
      FoundSinceNext(p, run, n - 1, f);
      FiresExactly(p, run, n - 1, f);
    }
  }
}
