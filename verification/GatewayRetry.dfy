/** The retrying gateway transport of soc_ai/agent/_gateway_retry.py: one attempt counter shared by
    errors and retryable statuses, the closing of discarded responses, and the sleeps between. */
module GatewayRetry {
  import opened Text

  const RETRYABLE_STATUS := {429, 502, 503, 504}
  const MAX_RETRY_AFTER := 30.0

  // ----- Retry-After -----

  /** What Python's float() makes of the header text. */
  datatype Number = NaN | MinusInf | Finite(value: real) | PlusInf

  /** Comparison of floats: false whenever one side is not a number. */
  predicate Less(a: Number, b: Number) {
    match (a, b)
    case (NaN, _) => false
    case (_, NaN) => false
    case (Finite(x), Finite(y)) => x < y
    case (MinusInf, _) => b != MinusInf
    case (_, PlusInf) => a != PlusInf
    case _ => false
  }

  /** Python's min and max of two values keep the first unless the second is strictly better. */
  function PyMin(a: Number, b: Number): Number {
    if Less(b, a) then b else a
  }

  function PyMax(a: Number, b: Number): Number {
    if Less(a, b) then b else a
  }

  /** The wait a header asks for. None: absent, empty, or not a number. */
  function ParseRetryAfter(header: Option<Number>): (secs: Option<real>)
    ensures secs.Some? <==> header.Some?
    ensures secs.Some? ==> 0.0 <= secs.value <= MAX_RETRY_AFTER
    ensures header.Some? && header.value.Finite? && 0.0 <= header.value.value <= MAX_RETRY_AFTER ==>
      secs == Some(header.value.value)
  {
    if header.None? then None
    else Some(PyMax(Finite(0.0), PyMin(header.value, Finite(MAX_RETRY_AFTER))).value)
  }

  // ----- Attempts -----

  /** What the inner transport does with one attempt. `backend` is the non-empty attribution headers. */
  datatype Outcome =
    | Failure(retryable: bool)
    | Response(status: int, retryAfter: Option<Number>, backend: map<string, string>)

  datatype Result = Returned(attempt: nat) | Raised(attempt: nat)

  /** What the transport does, in order: call the inner transport, close a response, sleep. */
  datatype Action = Call(attempt: nat) | Close(attempt: nat) | Sleep(seconds: real)

  predicate Transient(o: Outcome) {
    match o
    case Failure(retryable) => retryable
    case Response(status, _, _) => status in RETRYABLE_STATUS
  }

  /** How the transport retries: at most so many times, from a base delay doubling up to a cap. */
  datatype Policy = Policy(maxRetries: nat, base: real, cap: real)

  /** base * 2^n */
  function Doubled(base: real, n: nat): real {
    if n == 0 then base else 2.0 * Doubled(base, n - 1)
  }

  function Pow2(n: nat): nat {
    if n == 0 then 1 else 2 * Pow2(n - 1)
  }

  lemma {:induction false} DoubledIsPower(base: real, n: nat)
    ensures Doubled(base, n) == base * (Pow2(n) as real)
  {
    if n > 0 {
      DoubledIsPower(base, n - 1);
    }
  }

  function Ceiling(p: Policy, attempt: nat): real {
    if Doubled(p.base, attempt) < p.cap then Doubled(p.base, attempt) else p.cap
  }

  /** Full jitter: a draw from [0, 1) scales the ceiling. */
  function Backoff(p: Policy, attempt: nat, draw: real): (d: real)
    ensures 0.0 <= draw < 1.0 && 0.0 <= Ceiling(p, attempt) ==> 0.0 <= d <= Ceiling(p, attempt)
  {
    ScaledWithin(draw, Ceiling(p, attempt));
    draw * Ceiling(p, attempt)
  }

  lemma ScaledWithin(draw: real, ceiling: real)
    ensures 0.0 <= draw < 1.0 && 0.0 <= ceiling ==> 0.0 <= draw * ceiling <= ceiling
  {
  }

  function Delay(p: Policy, o: Outcome, attempt: nat, draw: real): real {
    if o.Response? && ParseRetryAfter(o.retryAfter).Some? then ParseRetryAfter(o.retryAfter).value
    else Backoff(p, attempt, draw)
  }

  function Delays(p: Policy, outcomes: seq<Outcome>, draws: seq<real>, n: nat): (ds: seq<real>)
    requires n <= |outcomes| && n <= |draws|
    ensures |ds| == n && forall i :: 0 <= i < n ==> ds[i] == Delay(p, outcomes[i], i, draws[i])
  {
    if n == 0 then []
    else Delays(p, outcomes, draws, n - 1) + [Delay(p, outcomes[n - 1], n - 1, draws[n - 1])]
  }

  /** The actions of an attempt that is retried after a delay. */
  function Retry(o: Outcome, attempt: nat, delay: real): seq<Action> {
    if o.Response? then [Call(attempt), Close(attempt), Sleep(delay)] else [Call(attempt), Sleep(delay)]
  }

  /** The actions of attempts that are all retried, one for each delay. */
  function Retried(outcomes: seq<Outcome>, delays: seq<real>): seq<Action>
    requires |delays| <= |outcomes|
  {
    if delays == [] then []
    else
      var k := |delays| - 1;
      Retried(outcomes, delays[..k]) + Retry(outcomes[k], k, delays[k])
  }

  /** The first attempt from `i` on that is not retried. */
  function LastAttempt(p: Policy, outcomes: seq<Outcome>, i: nat): (last: nat)
    requires i <= p.maxRetries < |outcomes|
    ensures i <= last <= p.maxRetries
    ensures forall j :: i <= j < last ==> Transient(outcomes[j])
    ensures Transient(outcomes[last]) ==> last == p.maxRetries
    decreases p.maxRetries - i
  {
    if Transient(outcomes[i]) && i < p.maxRetries then LastAttempt(p, outcomes, i + 1) else i
  }

  lemma RetriedNext(outcomes: seq<Outcome>, delays: seq<real>, delay: real)
    requires |delays| < |outcomes|
    ensures Retried(outcomes, delays + [delay])
         == Retried(outcomes, delays) + Retry(outcomes[|delays|], |delays|, delay)
  {
    assert (delays + [delay])[..|delays|] == delays;
  }

  /** The sink after some outcomes: later headers replace earlier ones, key by key. */
  function SinkAfter(outcomes: seq<Outcome>, sink: map<string, string>): map<string, string> {
    if outcomes == [] then sink
    else
      var o := outcomes[|outcomes| - 1];
      var before := SinkAfter(outcomes[..|outcomes| - 1], sink);
      if o.Response? then before + o.backend else before
  }

  /** The first attempts are retried, one for each delay: what was done, and what the sink holds. */
  ghost predicate Midway(p: Policy, outcomes: seq<Outcome>, delays: seq<real>, sink: map<string, string>,
                         trace: seq<Action>, attribution: map<string, string>)
    requires |delays| <= p.maxRetries < |outcomes|
  {
    && LastAttempt(p, outcomes, |delays|) == LastAttempt(p, outcomes, 0)
    && trace == Retried(outcomes, delays)
    && attribution == SinkAfter(outcomes[..|delays|], sink)
  }

  function SinkNext(o: Outcome, sink: map<string, string>): map<string, string> {
    if o.Response? then sink + o.backend else sink
  }

  lemma SinkOn(outcomes: seq<Outcome>, i: nat, sink: map<string, string>)
    requires i < |outcomes|
    ensures SinkAfter(outcomes[..i + 1], sink) == SinkNext(outcomes[i], SinkAfter(outcomes[..i], sink))
  {
    assert outcomes[..i + 1][..i] == outcomes[..i];
  }

  lemma Onward(p: Policy, outcomes: seq<Outcome>, delays: seq<real>, delay: real, sink: map<string, string>,
               trace: seq<Action>, attribution: map<string, string>)
    requires |delays| < p.maxRetries < |outcomes| && Transient(outcomes[|delays|])
    requires Midway(p, outcomes, delays, sink, trace, attribution)
    ensures var i := |delays|;
      Midway(p, outcomes, delays + [delay], sink, trace + Retry(outcomes[i], i, delay),
             SinkNext(outcomes[i], attribution))
  {
    RetriedNext(outcomes, delays, delay);
    SinkOn(outcomes, |delays|, sink);
  }

  /** How a request ends after these delays: with the answer of its last attempt, after the actions of
      the attempts before. */
  ghost predicate EndsAfter(p: Policy, outcomes: seq<Outcome>, delays: seq<real>, sink: map<string, string>,
                            result: Result, trace: seq<Action>, attribution: map<string, string>)
    requires p.maxRetries < |outcomes|
  {
    && result.attempt == LastAttempt(p, outcomes, 0) == |delays|
    && (result.Returned? <==> outcomes[result.attempt].Response?)
    && trace == Retried(outcomes, delays) + [Call(result.attempt)]
    && attribution == SinkAfter(outcomes[..result.attempt + 1], sink)
  }

  /** How a request ends, with these outcomes and draws. */
  ghost predicate Ends(p: Policy, outcomes: seq<Outcome>, draws: seq<real>, sink: map<string, string>,
                       result: Result, trace: seq<Action>, attribution: map<string, string>)
    requires p.maxRetries < |outcomes| && p.maxRetries <= |draws|
  {
    EndsAfter(p, outcomes, Delays(p, outcomes, draws, LastAttempt(p, outcomes, 0)), sink, result, trace, attribution)
  }

  lemma Finally(p: Policy, outcomes: seq<Outcome>, delays: seq<real>, sink: map<string, string>,
                trace: seq<Action>, attribution: map<string, string>)
    requires |delays| <= p.maxRetries < |outcomes|
    requires !Transient(outcomes[|delays|]) || |delays| == p.maxRetries
    requires Midway(p, outcomes, delays, sink, trace, attribution)
    ensures var i := |delays|;
      EndsAfter(p, outcomes, delays, sink, if outcomes[i].Response? then Returned(i) else Raised(i),
                trace + [Call(i)], SinkNext(outcomes[i], attribution))
  {
    SinkOn(outcomes, |delays|, sink);
  }

  // ----- What a request does, told from the outcomes and draws alone -----

  predicate Retryable(o: Outcome) {
    match o
    case Failure(retryable) => retryable
    case Response(status, _, _) => status == 429 || status == 502 || status == 503 || status == 504
  }

  /** The wait after an attempt: the Retry-After in seconds, between 0 and 30, when the response has one;
      else the draw times the lesser of the cap and base * 2^i. */
  ghost predicate WaitIs(p: Policy, o: Outcome, i: nat, draw: real, seconds: real) {
    match o
    case Response(_, Some(Finite(x)), _) => seconds == if x < 0.0 then 0.0 else if x > 30.0 then 30.0 else x
    case Response(_, Some(PlusInf), _) => seconds == 30.0
    case Response(_, Some(_), _) => seconds == 0.0
    case _ =>
      var grown := p.base * (Pow2(i) as real);
      seconds == draw * (if grown < p.cap then grown else p.cap)
  }

  lemma DelayExactly(p: Policy, o: Outcome, i: nat, draw: real)
    ensures WaitIs(p, o, i, draw, Delay(p, o, i, draw))
  {
    DoubledIsPower(p.base, i);
  }

  /** Where the actions of attempt `i` begin, when all before it are retried. */
  function Start(outcomes: seq<Outcome>, i: nat): nat
    requires i <= |outcomes|
  {
    if i == 0 then 0 else Start(outcomes, i - 1) + (if outcomes[i - 1].Response? then 3 else 2)
  }

  /** Attempt `i` is called, its response closed if it has one, and directly then the wait is slept. */
  ghost predicate RetriedAt(p: Policy, outcomes: seq<Outcome>, draws: seq<real>, trace: seq<Action>, i: nat)
    requires i < |outcomes| && i < |draws|
  {
    var at := Start(outcomes, i);
    var sleep := if outcomes[i].Response? then at + 2 else at + 1;
    && sleep < |trace| && trace[at] == Call(i) && (outcomes[i].Response? ==> trace[at + 1] == Close(i))
    && trace[sleep].Sleep? && WaitIs(p, outcomes[i], i, draws[i], trace[sleep].seconds)
  }

  ghost predicate Names(o: Outcome, key: string) {
    o.Response? && key in o.backend
  }

  /** Attempt `i` is the last that names the header. */
  ghost predicate NamesLast(outcomes: seq<Outcome>, i: nat, key: string) {
    i < |outcomes| && Names(outcomes[i], key) && forall j :: i < j < |outcomes| ==> !Names(outcomes[j], key)
  }

  ghost predicate NeverNames(outcomes: seq<Outcome>, key: string) {
    forall j :: 0 <= j < |outcomes| ==> !Names(outcomes[j], key)
  }

  ghost predicate SameEntry(a: map<string, string>, b: map<string, string>, key: string) {
    (key in a <==> key in b) && (key in a ==> a[key] == b[key])
  }

  /** An attribution has for each header the value named last, or that of the sink if none names it. */
  ghost predicate Attributed(outcomes: seq<Outcome>, sink: map<string, string>, attribution: map<string, string>) {
    && (forall i: nat, key :: NamesLast(outcomes, i, key) ==> SameEntry(attribution, outcomes[i].backend, key))
    && (forall key :: NeverNames(outcomes, key) ==> SameEntry(attribution, sink, key))
  }

  /** A request ends with the first attempt that may not be retried, or the last allowed; every attempt
      before it is retried after its wait; and the headers named last are recorded. */
  ghost predicate Handled(p: Policy, outcomes: seq<Outcome>, draws: seq<real>, sink: map<string, string>,
                          result: Result, trace: seq<Action>, attribution: map<string, string>)
    requires p.maxRetries < |outcomes| && p.maxRetries <= |draws|
  {
    var last := result.attempt;
    && last <= p.maxRetries && (Retryable(outcomes[last]) ==> last == p.maxRetries)
    && (result.Returned? <==> outcomes[last].Response?)
    && (forall i :: 0 <= i < last ==> Retryable(outcomes[i]) && RetriedAt(p, outcomes, draws, trace, i))
    && |trace| == Start(outcomes, last) + 1 && trace[|trace| - 1] == Call(last)
    && Attributed(outcomes[..last + 1], sink, attribution)
  }

  lemma {:induction false} RetriedLength(outcomes: seq<Outcome>, delays: seq<real>)
    requires |delays| <= |outcomes|
    ensures |Retried(outcomes, delays)| == Start(outcomes, |delays|)
  {
    if delays != [] {
      RetriedLength(outcomes, delays[..|delays| - 1]);
    }
  }

  lemma {:induction false} RetriedPart(outcomes: seq<Outcome>, delays: seq<real>, i: nat)
    requires i < |delays| <= |outcomes|
    ensures Retried(outcomes, delays[..i]) + Retry(outcomes[i], i, delays[i]) <= Retried(outcomes, delays)
  {
    var k := |delays| - 1;
    if i < k {
      RetriedPart(outcomes, delays[..k], i);
      assert delays[..k][..i] == delays[..i];
    }
  }

  lemma ActionsAt(trace: seq<Action>, front: seq<Action>, part: seq<Action>, i: nat)
    requires front + part <= trace && i < |part|
    ensures |front| + i < |trace| && trace[|front| + i] == part[i]
  {
    assert (front + part)[|front| + i] == part[i];
  }

  lemma RetriedThere(p: Policy, outcomes: seq<Outcome>, draws: seq<real>, delays: seq<real>, trace: seq<Action>, i: nat)
    requires i < |delays| <= |outcomes| && i < |draws| && Retried(outcomes, delays) <= trace
    requires WaitIs(p, outcomes[i], i, draws[i], delays[i])
    ensures RetriedAt(p, outcomes, draws, trace, i)
  {
    var front, part := Retried(outcomes, delays[..i]), Retry(outcomes[i], i, delays[i]);
    RetriedLength(outcomes, delays[..i]);
    RetriedPart(outcomes, delays, i);
    ActionsAt(trace, front, part, 0);
    ActionsAt(trace, front, part, 1);
    ActionsAt(trace, front, part, |part| - 1);
  }

  lemma TransientExactly(o: Outcome)
    ensures Transient(o) <==> Retryable(o)
  {
  }

  /** The recorded backend is the one named last, even when the final attempt raised. */
  lemma {:induction false} LastNamedWins(outcomes: seq<Outcome>, sink: map<string, string>, i: nat, key: string)
    requires i < |outcomes| && Names(outcomes[i], key)
    requires forall j :: i < j < |outcomes| ==> !Names(outcomes[j], key)
    ensures key in SinkAfter(outcomes, sink) && SinkAfter(outcomes, sink)[key] == outcomes[i].backend[key]
  {
    if i < |outcomes| - 1 {
      assert !Names(outcomes[|outcomes| - 1], key);
      LastNamedWins(outcomes[..|outcomes| - 1], sink, i, key);
    }
  }

  lemma {:induction false} NeverNamed(outcomes: seq<Outcome>, sink: map<string, string>, key: string)
    requires NeverNames(outcomes, key)
    ensures SameEntry(SinkAfter(outcomes, sink), sink, key)
  {
    if outcomes != [] {
      assert !Names(outcomes[|outcomes| - 1], key);
      NeverNamed(outcomes[..|outcomes| - 1], sink, key);
    }
  }

  lemma SinkAttributes(outcomes: seq<Outcome>, sink: map<string, string>)
    ensures Attributed(outcomes, sink, SinkAfter(outcomes, sink))
  {
    forall i: nat, key | NamesLast(outcomes, i, key)
      ensures SameEntry(SinkAfter(outcomes, sink), outcomes[i].backend, key)
    {
      LastNamedWins(outcomes, sink, i, key);
    }
    forall key | NeverNames(outcomes, key) ensures SameEntry(SinkAfter(outcomes, sink), sink, key) {
      NeverNamed(outcomes, sink, key);
    }
  }

  lemma EndsAreHandled(p: Policy, outcomes: seq<Outcome>, draws: seq<real>, sink: map<string, string>,
                       result: Result, trace: seq<Action>, attribution: map<string, string>)
    requires p.maxRetries < |outcomes| && p.maxRetries <= |draws|
    requires Ends(p, outcomes, draws, sink, result, trace, attribution)
    ensures Handled(p, outcomes, draws, sink, result, trace, attribution)
  {
    var last := result.attempt;
    var delays := Delays(p, outcomes, draws, last);
    forall i | 0 <= i < last ensures Retryable(outcomes[i]) && RetriedAt(p, outcomes, draws, trace, i) {
      TransientExactly(outcomes[i]);
      DelayExactly(p, outcomes[i], i, draws[i]);
      RetriedThere(p, outcomes, draws, delays, trace, i);
    }
    TransientExactly(outcomes[last]);
    RetriedLength(outcomes, delays);
    SinkAttributes(outcomes[..last + 1], sink);
  }

  class RetryingTransport {
    const policy: Policy

    constructor (maxRetries: int, base: real, cap: real)
      ensures policy == Policy(if maxRetries < 0 then 0 else maxRetries, base, cap)
    {
      policy := Policy(if maxRetries < 0 then 0 else maxRetries, base, cap);
    }

    /** The sleep before the next attempt: what the response asks for, else a backoff. */
    method Wait(o: Outcome, attempt: nat, draw: real) returns (delay: real)
      ensures delay == Delay(policy, o, attempt, draw)
    {
      delay := Backoff(policy, attempt, draw);
      if o.Response? {
        var retryAfter := ParseRetryAfter(o.retryAfter);
        if retryAfter.Some? {
          delay := retryAfter.value;
        }
      }
    }

    /** One request. `outcomes[i]` and `draws[i]` are what attempt `i` meets: the answer of the inner
        transport and the random draw of its backoff. */
    method HandleRequest(outcomes: seq<Outcome>, draws: seq<real>, sink: map<string, string>)
      returns (result: Result, trace: seq<Action>, attribution: map<string, string>)
      requires |outcomes| > policy.maxRetries && |draws| >= policy.maxRetries
      ensures Handled(policy, outcomes, draws, sink, result, trace, attribution)
      ensures Ends(policy, outcomes, draws, sink, result, trace, attribution)
    {
      var attempt := 0;
      trace, attribution := [], sink;
      ghost var delays := [];
      assert outcomes[..0] == [];
      while true
        invariant attempt <= policy.maxRetries
        invariant delays == Delays(policy, outcomes, draws, attempt)
        invariant Midway(policy, outcomes, delays, sink, trace, attribution)
        decreases policy.maxRetries - attempt
      {
        var o := outcomes[attempt];
        ghost var before := attribution;
        if o.Response? {
          // A discarded response names its backend too.
          attribution := attribution + o.backend;
        }
        if !Transient(o) || attempt >= policy.maxRetries {
          Finally(policy, outcomes, delays, sink, trace, before);
          result := if o.Failure? then Raised(attempt) else Returned(attempt);
          trace := trace + [Call(attempt)];
          EndsAreHandled(policy, outcomes, draws, sink, result, trace, attribution);
          return;
        }
        var delay := Wait(o, attempt, draws[attempt]);
        Onward(policy, outcomes, delays, delay, sink, trace, before);
        trace := trace + (if o.Response? then [Call(attempt), Close(attempt), Sleep(delay)]
                          else [Call(attempt), Sleep(delay)]);
        delays, attempt := delays + [delay], attempt + 1;
      }
    }
  }

  // ----- Closing -----

  /** How often an action occurs. */
  function Times(trace: seq<Action>, a: Action): nat {
    if trace == [] then 0
    else Times(trace[..|trace| - 1], a) + (if trace[|trace| - 1] == a then 1 else 0)
  }

  lemma TimesSnoc(trace: seq<Action>, b: Action, a: Action)
    ensures Times(trace + [b], a) == Times(trace, a) + (if b == a then 1 else 0)
  {
    assert (trace + [b])[..|trace|] == trace;
  }

  ghost predicate AllClosed(outcomes: seq<Outcome>, trace: seq<Action>, n: nat)
    requires n <= |outcomes|
  {
    forall i :: 0 <= i < n ==> Times(trace, Close(i)) == if outcomes[i].Response? then 1 else 0
  }

  /** What a retried attempt adds to the count of an action that is not a sleep. */
  function Adds(o: Outcome, k: nat, a: Action): nat {
    if a == Call(k) || (a == Close(k) && o.Response?) then 1 else 0
  }

  lemma SleepAdds(trace: seq<Action>, delay: real, a: Action)
    requires !a.Sleep?
    ensures Times(trace + [Sleep(delay)], a) == Times(trace, a)
  {
    TimesSnoc(trace, Sleep(delay), a);
  }

  lemma FailureAdds(trace: seq<Action>, k: nat, delay: real, a: Action)
    requires !a.Sleep?
    ensures Times(trace + [Call(k), Sleep(delay)], a) == Times(trace, a) + (if a == Call(k) then 1 else 0)
  {
    TimesSnoc(trace, Call(k), a);
    SleepAdds(trace + [Call(k)], delay, a);
    assert trace + [Call(k), Sleep(delay)] == trace + [Call(k)] + [Sleep(delay)];
  }

  lemma ResponseAdds(trace: seq<Action>, k: nat, delay: real, a: Action)
    requires !a.Sleep?
    ensures Times(trace + [Call(k), Close(k), Sleep(delay)], a)
         == Times(trace, a) + (if a == Call(k) || a == Close(k) then 1 else 0)
  {
    var called := trace + [Call(k)];
    TimesSnoc(trace, Call(k), a);
    TimesSnoc(called, Close(k), a);
    SleepAdds(called + [Close(k)], delay, a);
    assert trace + [Call(k), Close(k), Sleep(delay)] == called + [Close(k)] + [Sleep(delay)];
  }

  lemma RetryAdds(trace: seq<Action>, o: Outcome, k: nat, delay: real, a: Action)
    requires !a.Sleep?
    ensures Times(trace + Retry(o, k, delay), a) == Times(trace, a) + Adds(o, k, a)
  {
    if o.Response? {
      ResponseAdds(trace, k, delay, a);
    } else {
      FailureAdds(trace, k, delay, a);
    }
  }

  /** Every retried attempt is called once and its response closed once, and nothing else is. */
  lemma {:induction false} RetriedTimes(outcomes: seq<Outcome>, delays: seq<real>, a: Action)
    requires |delays| <= |outcomes| && !a.Sleep?
    ensures Times(Retried(outcomes, delays), a) ==
      if a.attempt < |delays| then Adds(outcomes[a.attempt], a.attempt, a) else 0
  {
    if delays != [] {
      var k := |delays| - 1;
      RetriedTimes(outcomes, delays[..k], a);
      RetryAdds(Retried(outcomes, delays[..k]), outcomes[k], k, delays[k], a);
    }
  }

  lemma {:induction false} RetriedPrefix(outcomes: seq<Outcome>, delays: seq<real>, j: nat)
    requires j < |delays| <= |outcomes|
    ensures Retried(outcomes, delays[..j]) + [Call(j)] <= Retried(outcomes, delays)
  {
    var k := |delays| - 1;
    if j < k {
      RetriedPrefix(outcomes, delays[..k], j);
      assert delays[..k][..j] == delays[..j];
    }
  }

  lemma AllRetriedClosed(outcomes: seq<Outcome>, delays: seq<real>)
    requires |delays| <= |outcomes|
    ensures AllClosed(outcomes, Retried(outcomes, delays), |delays|)
  {
    forall i | 0 <= i < |delays|
      ensures Times(Retried(outcomes, delays), Close(i)) == if outcomes[i].Response? then 1 else 0
    {
      RetriedTimes(outcomes, delays, Close(i));
    }
  }

  lemma CalledOnce(outcomes: seq<Outcome>, delays: seq<real>, j: nat)
    requires j <= |delays| < |outcomes|
    ensures var last := |delays|; var trace := Retried(outcomes, delays) + [Call(last)];
      Times(trace, Call(j)) == 1 && Times(trace, Close(last)) == 0
  {
    var last, body := |delays|, Retried(outcomes, delays);
    RetriedTimes(outcomes, delays, Call(j));
    RetriedTimes(outcomes, delays, Close(last));
    TimesSnoc(body, Call(last), Call(j));
    TimesSnoc(body, Call(last), Close(last));
  }

  /** Where attempt `j` is called: behind the actions of the attempts before it. */
  lemma CalledAt(outcomes: seq<Outcome>, delays: seq<real>, j: nat) returns (at: nat)
    requires j <= |delays| < |outcomes|
    ensures var trace := Retried(outcomes, delays) + [Call(|delays|)];
      at < |trace| && trace[at] == Call(j) && trace[..at] == Retried(outcomes, delays[..j])
  {
    var body, front := Retried(outcomes, delays), Retried(outcomes, delays[..j]);
    if j < |delays| {
      RetriedPrefix(outcomes, delays, j);
    } else {
      assert delays[..j] == delays;
    }
    PrefixAt(body + [Call(|delays|)], front, Call(j));
    at := |front|;
  }

  /** Main result about closing: each attempt is called once; when it is called, every earlier response
      is already closed, exactly once; and the response of the last attempt stays open. */
  lemma ClosedBeforeNextCall(outcomes: seq<Outcome>, delays: seq<real>, j: nat) returns (at: nat)
    requires j <= |delays| < |outcomes|
    ensures var last := |delays|; var trace := Retried(outcomes, delays) + [Call(last)];
      && Times(trace, Call(j)) == 1
      && Times(trace, Close(last)) == 0
      && at < |trace| && trace[at] == Call(j) && AllClosed(outcomes, trace[..at], j)
  {
    CalledOnce(outcomes, delays, j);
    at := CalledAt(outcomes, delays, j);
    AllRetriedClosed(outcomes, delays[..j]);
  }

  lemma PrefixAt(trace: seq<Action>, front: seq<Action>, a: Action)
    requires front + [a] <= trace
    ensures |front| < |trace| && trace[|front|] == a && trace[..|front|] == front
  {
    assert trace[|front|] == (front + [a])[|front|];
    assert forall i :: 0 <= i < |front| ==> trace[i] == (front + [a])[i];
  }

  // ----- Sleeping -----

  function TotalSleep(trace: seq<Action>): real {
    if trace == [] then 0.0
    else
      var a := trace[|trace| - 1];
      TotalSleep(trace[..|trace| - 1]) + (if a.Sleep? then a.seconds else 0.0)
  }

  function CeilingSum(p: Policy, n: nat): real {
    if n == 0 then 0.0 else CeilingSum(p, n - 1) + Ceiling(p, n - 1)
  }

  /** x added up n times. */
  function Multiple(n: nat, x: real): (r: real)
    ensures r == n as real * x
  {
    if n == 0 then 0.0 else Multiple(n - 1, x) + x
  }

  lemma SleepSnoc(trace: seq<Action>, a: Action)
    ensures TotalSleep(trace + [a]) == TotalSleep(trace) + (if a.Sleep? then a.seconds else 0.0)
  {
    assert (trace + [a])[..|trace|] == trace;
  }

  function Sum(xs: seq<real>): real {
    if xs == [] then 0.0 else Sum(xs[..|xs| - 1]) + xs[|xs| - 1]
  }

  lemma SleepOfRetry(trace: seq<Action>, o: Outcome, i: nat, delay: real)
    ensures TotalSleep(trace + Retry(o, i, delay)) == TotalSleep(trace) + delay
  {
    var called := trace + [Call(i)];
    SleepSnoc(trace, Call(i));
    SleepSnoc(called, Close(i));
    var done := if o.Response? then called + [Close(i)] else called;
    SleepSnoc(done, Sleep(delay));
    assert trace + Retry(o, i, delay) == done + [Sleep(delay)];
  }

  /** The transport sleeps the delays, and nothing else. */
  lemma {:induction false} SleepsAreDelays(outcomes: seq<Outcome>, delays: seq<real>)
    requires |delays| <= |outcomes|
    ensures TotalSleep(Retried(outcomes, delays)) == Sum(delays)
  {
    if delays != [] {
      var k := |delays| - 1;
      SleepsAreDelays(outcomes, delays[..k]);
      SleepOfRetry(Retried(outcomes, delays[..k]), outcomes[k], k, delays[k]);
    }
  }

  lemma {:induction false} DoubledGrows(base: real, i: nat, j: nat)
    requires 0.0 <= base && i <= j
    ensures 0.0 <= Doubled(base, i) <= Doubled(base, j)
  {
    if i < j {
      DoubledGrows(base, i, j - 1);
    } else if i > 0 {
      DoubledGrows(base, i - 1, i - 1);
    }
  }

  /** `k` is the first index at which the doubling meets the cap, or `n` when it does not by then. */
  ghost predicate MeetsCapAt(p: Policy, n: nat, k: nat) {
    && k <= n
    && (forall i: nat :: i < k ==> Doubled(p.base, i) < p.cap)
    && (k < n ==> Doubled(p.base, k) >= p.cap)
  }

  /** Every policy has such an index. */
  lemma {:induction false} CapIndexExists(p: Policy, n: nat) returns (k: nat)
    ensures MeetsCapAt(p, n, k)
  {
    if n == 0 {
      k := 0;
    } else {
      k := CapIndexExists(p, n - 1);
      if k == n - 1 && Doubled(p.base, k) < p.cap {
        k := n;
      }
    }
  }

  /** The ceilings double until they meet the cap, and then stay there. */
  lemma {:induction false} CeilingSumClosed(p: Policy, n: nat, k: nat)
    requires 0.0 <= p.base && MeetsCapAt(p, n, k)
    ensures CeilingSum(p, n) == Doubled(p.base, k) - p.base + Multiple(n - k, p.cap)
  {
    if n > 0 {
      if k == n {
        CeilingSumClosed(p, n - 1, k - 1);
      } else {
        CeilingSumClosed(p, n - 1, k);
        DoubledGrows(p.base, k, n - 1);
      }
    }
  }

  ghost predicate ValidPolicy(p: Policy) {
    0.0 <= p.base && 0.0 <= p.cap
  }

  ghost predicate ValidDraws(draws: seq<real>) {
    forall i :: 0 <= i < |draws| ==> 0.0 <= draws[i] < 1.0
  }

  lemma DelayBounds(p: Policy, o: Outcome, i: nat, draw: real)
    requires ValidPolicy(p) && 0.0 <= draw < 1.0
    ensures 0.0 <= Ceiling(p, i) <= p.cap
    ensures 0.0 <= Delay(p, o, i, draw) <= Longest(p)
    ensures o.Failure? || o.retryAfter.None? ==> Delay(p, o, i, draw) <= Ceiling(p, i)
  {
    DoubledGrows(p.base, i, i);
  }

  lemma {:induction false} SumWithin(p: Policy, delays: seq<real>)
    requires forall i :: 0 <= i < |delays| ==> 0.0 <= delays[i] <= Ceiling(p, i)
    ensures 0.0 <= Sum(delays) <= CeilingSum(p, |delays|)
  {
    if delays != [] {
      SumWithin(p, delays[..|delays| - 1]);
    }
  }

  lemma {:induction false} SumBounded(delays: seq<real>, longest: real)
    requires forall i :: 0 <= i < |delays| ==> 0.0 <= delays[i] <= longest
    ensures 0.0 <= Sum(delays) <= Multiple(|delays|, longest)
  {
    if delays != [] {
      SumBounded(delays[..|delays| - 1], longest);
    }
  }

  lemma DelaysWithinCeilings(p: Policy, outcomes: seq<Outcome>, draws: seq<real>, n: nat)
    requires n <= |outcomes| && n <= |draws| && ValidPolicy(p) && ValidDraws(draws)
    requires forall i :: 0 <= i < n ==> outcomes[i].Failure? || outcomes[i].retryAfter.None?
    ensures 0.0 <= Sum(Delays(p, outcomes, draws, n)) <= CeilingSum(p, n)
  {
    var delays := Delays(p, outcomes, draws, n);
    forall i | 0 <= i < n ensures 0.0 <= delays[i] <= Ceiling(p, i) {
      DelayBounds(p, outcomes[i], i, draws[i]);
    }
    SumWithin(p, delays);
  }

  /** Main result about backoff: without Retry-After the sleeps of `n` retries add up to at most
      base * 2^k - base + (n - k) * cap, where `k` is where the doubling meets the cap. */
  lemma SleepBound(p: Policy, outcomes: seq<Outcome>, draws: seq<real>, n: nat, k: nat)
    requires n <= |outcomes| && n <= |draws| && ValidPolicy(p) && ValidDraws(draws) && MeetsCapAt(p, n, k)
    requires forall i :: 0 <= i < n ==> outcomes[i].Failure? || outcomes[i].retryAfter.None?
    ensures 0.0 <= TotalSleep(Retried(outcomes, Delays(p, outcomes, draws, n)))
         <= Doubled(p.base, k) - p.base + Multiple(n - k, p.cap)
  {
    SleepsAreDelays(outcomes, Delays(p, outcomes, draws, n));
    DelaysWithinCeilings(p, outcomes, draws, n);
    CeilingSumClosed(p, n, k);
  }

  /** The longest single sleep there can be. */
  function Longest(p: Policy): real {
    if p.cap > MAX_RETRY_AFTER then p.cap else MAX_RETRY_AFTER
  }

  lemma DelaysBounded(p: Policy, outcomes: seq<Outcome>, draws: seq<real>, n: nat)
    requires n <= |outcomes| && n <= |draws| && ValidPolicy(p) && ValidDraws(draws)
    ensures forall i :: 0 <= i < n ==> 0.0 <= Delays(p, outcomes, draws, n)[i] <= Longest(p)
    ensures 0.0 <= Sum(Delays(p, outcomes, draws, n)) <= Multiple(n, Longest(p))
  {
    var delays := Delays(p, outcomes, draws, n);
    forall i | 0 <= i < n ensures 0.0 <= delays[i] <= Longest(p) {
      DelayBounds(p, outcomes[i], i, draws[i]);
    }
    SumBounded(delays, Longest(p));
  }

  /** Main result with Retry-After: the sleeps of `n` retries add up to at most `n` times the larger of
      the cap and 30 seconds. */
  lemma SleepsBounded(p: Policy, outcomes: seq<Outcome>, draws: seq<real>, n: nat)
    requires n <= |outcomes| && n <= |draws| && ValidPolicy(p) && ValidDraws(draws)
    ensures 0.0 <= TotalSleep(Retried(outcomes, Delays(p, outcomes, draws, n))) <= Multiple(n, Longest(p))
  {
    SleepsAreDelays(outcomes, Delays(p, outcomes, draws, n));
    DelaysBounded(p, outcomes, draws, n);
  }
}
