/** The per-address request limiter of soc_ai/main.py, against an exact count of requests. */
module RateLimiter {
  import opened Text

  const MAX_BUCKETS: nat := 8192

  /** `window` is the minute of the monotonic clock. */
  datatype Request = Request(path: string, ip: string, window: nat)

  datatype Bucket = Bucket(window: nat, count: nat)

  predicate Exempt(path: string) {
    path == "/healthz" || path == "/app" || "/app/" <= path
  }

  predicate Opens(buckets: map<string, Bucket>, r: Request) {
    r.ip !in buckets || buckets[r.ip].window != r.window
  }

  /** The request empties the table before it opens its bucket. */
  predicate Clears(buckets: map<string, Bucket>, r: Request) {
    !Exempt(r.path) && Opens(buckets, r) && |buckets| > MAX_BUCKETS
  }

  function Next(buckets: map<string, Bucket>, r: Request): map<string, Bucket> {
    if Exempt(r.path) then buckets
    else if Opens(buckets, r) then
      (if |buckets| > MAX_BUCKETS then map[] else buckets)[r.ip := Bucket(r.window, 1)]
    else buckets[r.ip := Bucket(r.window, buckets[r.ip].count + 1)]
  }

  function BucketsAfter(h: seq<Request>): map<string, Bucket> {
    if h == [] then map[] else Next(BucketsAfter(h[..|h| - 1]), h[|h| - 1])
  }

  /** Whether the last request of a run is let through. */
  predicate LastPasses(h: seq<Request>, limit: nat)
    requires h != []
  {
    var before, r := BucketsAfter(h[..|h| - 1]), h[|h| - 1];
    Exempt(r.path) || Opens(before, r) || before[r.ip].count + 1 <= limit
  }

  class Limiter {
    const limit: nat
    var buckets: map<string, Bucket>
    ghost var history: seq<Request>

    ghost predicate Valid()
      reads this
    {
      limit > 0 && buckets == BucketsAfter(history)
    }

    constructor (limit: nat)
      requires limit > 0
      ensures Valid() && history == [] && this.limit == limit
    {
      this.limit := limit;
      buckets, history := map[], [];
    }

    /** True when the request reaches the application, false when it is answered 429. */
    method Admit(r: Request) returns (passes: bool)
      requires Valid()
      modifies this
      ensures Valid() && history == old(history) + [r]
      // Health checks and pages of the application are not counted.
      ensures r.path == "/healthz" || r.path == "/app" || "/app/" <= r.path ==> passes && buckets == old(buckets)
      // Any other request opens a bucket, in an emptied table if more than 8192 are held, or counts in its own.
      ensures !(r.path == "/healthz" || r.path == "/app" || "/app/" <= r.path) ==>
        if r.ip !in old(buckets) || old(buckets)[r.ip].window != r.window
        then passes && buckets == (if |old(buckets)| > 8192 then map[] else old(buckets))[r.ip := Bucket(r.window, 1)]
        else
          && buckets == old(buckets)[r.ip := Bucket(r.window, old(buckets)[r.ip].count + 1)]
          && (passes <==> old(buckets)[r.ip].count < limit)
      ensures passes <==> LastPasses(history, limit)
      ensures !passes ==> Requests(old(history), r.ip, r.window) >= limit
      ensures |buckets| <= 8193
    {
      history := history + [r];
      assert history[..|history| - 1] == old(history);
      FirstRequestsPass(history, limit);
      TableIsBounded(history);
      if Exempt(r.path) {
        return true;
      }
      if r.ip !in buckets || buckets[r.ip].window != r.window {
        if |buckets| > MAX_BUCKETS {
          buckets := map[];
        }
        buckets := buckets[r.ip := Bucket(r.window, 1)];
      } else {
        buckets := buckets[r.ip := Bucket(r.window, buckets[r.ip].count + 1)];
        if buckets[r.ip].count > limit {
          return false;
        }
      }
      return true;
    }
  }

  // ----- Exact counts over a run -----

  predicate Counts(r: Request, ip: string, window: nat) {
    !Exempt(r.path) && r.ip == ip && r.window == window
  }

  /** The requests of one address in one window. */
  function Requests(h: seq<Request>, ip: string, window: nat): nat {
    if h == [] then 0
    else Requests(h[..|h| - 1], ip, window) + (if Counts(h[|h| - 1], ip, window) then 1 else 0)
  }

  /** Those of them that were let through. */
  function Passed(h: seq<Request>, ip: string, window: nat, limit: nat): nat {
    if h == [] then 0
    else
      Passed(h[..|h| - 1], ip, window, limit)
      + (if Counts(h[|h| - 1], ip, window) && LastPasses(h, limit) then 1 else 0)
  }

  /** Those of them since the table was last emptied. */
  function SinceClear(h: seq<Request>, ip: string, window: nat): nat {
    if h == [] then 0
    else
      var r := h[|h| - 1];
      (if Clears(BucketsAfter(h[..|h| - 1]), r) then 0 else SinceClear(h[..|h| - 1], ip, window))
      + (if Counts(r, ip, window) then 1 else 0)
  }

  /** How often the table was emptied in one window. */
  function ClearsIn(h: seq<Request>, window: nat): nat {
    if h == [] then 0
    else
      var r := h[|h| - 1];
      ClearsIn(h[..|h| - 1], window) + (if r.window == window && Clears(BucketsAfter(h[..|h| - 1]), r) then 1 else 0)
  }

  ghost predicate InTimeOrder(h: seq<Request>) {
    forall i, j :: 0 <= i < j < |h| ==> h[i].window <= h[j].window
  }

  // ----- On every run -----

  lemma {:induction false} TableIsBounded(h: seq<Request>)
    ensures |BucketsAfter(h)| <= 8193
  {
    if h != [] {
      var before, r := BucketsAfter(h[..|h| - 1]), h[|h| - 1];
      TableIsBounded(h[..|h| - 1]);
      var kept := if Clears(before, r) then map[] else before;
      assert kept[r.ip := Bucket(r.window, 1)].Keys == kept.Keys + {r.ip};
      if !Exempt(r.path) && !Opens(before, r) {
        assert before[r.ip := Bucket(r.window, before[r.ip].count + 1)].Keys == before.Keys;
      }
    }
  }

  lemma {:induction false} BucketNeverOvercounts(h: seq<Request>, ip: string)
    ensures var b := BucketsAfter(h); ip in b ==> b[ip].count <= Requests(h, ip, b[ip].window)
  {
    if h != [] {
      BucketNeverOvercounts(h[..|h| - 1], ip);
    }
  }

  /** A refused address has sent at least `limit` requests in the window before: clears and clock
      jumps can only help it. */
  lemma FirstRequestsPass(h: seq<Request>, limit: nat)
    requires h != []
    ensures var r := h[|h| - 1]; !LastPasses(h, limit) ==> Requests(h[..|h| - 1], r.ip, r.window) >= limit
  {
    BucketNeverOvercounts(h[..|h| - 1], h[|h| - 1].ip);
  }

  // ----- In time order -----

  lemma {:induction false} BucketSeen(h: seq<Request>, ip: string)
    ensures var b := BucketsAfter(h); ip in b ==> exists i :: 0 <= i < |h| && h[i].window == b[ip].window
  {
    if h != [] {
      var front, r := h[..|h| - 1], h[|h| - 1];
      BucketSeen(front, ip);
      assert forall i :: 0 <= i < |front| ==> h[i] == front[i];
      assert h[|h| - 1].window == r.window;
    }
  }

  /** No bucket lies ahead of the last request. */
  lemma BucketNotAhead(h: seq<Request>, r: Request)
    requires InTimeOrder(h + [r])
    ensures var b := BucketsAfter(h); r.ip in b ==> b[r.ip].window <= r.window
  {
    var b := BucketsAfter(h);
    if r.ip in b {
      BucketSeen(h, r.ip);
      var i :| 0 <= i < |h| && h[i].window == b[r.ip].window;
      assert (h + [r])[i] == h[i] && (h + [r])[|h|] == r;
    }
  }

  ghost predicate IsSinceClear(h: seq<Request>, ip: string) {
    var b := BucketsAfter(h);
    && (ip in b ==> b[ip].count == SinceClear(h, ip, b[ip].window) > 0)
    && forall w: nat :: SinceClear(h, ip, w) > 0 ==> ip in b && w <= b[ip].window
  }

  lemma SinceClearSnoc(h: seq<Request>, r: Request, ip: string, w: nat)
    ensures SinceClear(h + [r], ip, w) ==
      (if Clears(BucketsAfter(h), r) then 0 else SinceClear(h, ip, w)) + (if Counts(r, ip, w) then 1 else 0)
  {
    assert (h + [r])[..|h|] == h;
  }

  lemma BucketsSnoc(h: seq<Request>, r: Request)
    ensures BucketsAfter(h + [r]) == Next(BucketsAfter(h), r)
  {
    assert (h + [r])[..|h|] == h;
  }

  lemma SinceClearOn(h: seq<Request>, r: Request, ip: string)
    requires InTimeOrder(h + [r]) && IsSinceClear(h, ip)
    ensures IsSinceClear(h + [r], ip)
  {
    BucketNotAhead(h, r);
    BucketsSnoc(h, r);
    forall w: nat ensures SinceClear(h + [r], ip, w) ==
      (if Clears(BucketsAfter(h), r) then 0 else SinceClear(h, ip, w)) + (if Counts(r, ip, w) then 1 else 0)
    {
      SinceClearSnoc(h, r, ip, w);
    }
  }

  /** In time order the bucket of an address is exactly its requests in the newest window since the
      table was last emptied. */
  lemma {:induction false} BucketIsSinceClear(h: seq<Request>, ip: string)
    requires InTimeOrder(h)
    ensures var b := BucketsAfter(h);
      ip in b ==> b[ip].count == SinceClear(h, ip, b[ip].window) > 0
    ensures var b := BucketsAfter(h);
      forall w: nat :: SinceClear(h, ip, w) > 0 ==> ip in b && w <= b[ip].window
  {
    assert IsSinceClear(h, ip) by {
      if h != [] {
        var front, r := h[..|h| - 1], h[|h| - 1];
        assert h == front + [r];
        BucketIsSinceClear(front, ip);
        SinceClearOn(front, r, ip);
      }
    }
  }

  /** Main result: in time order a request passes exactly when it is among the first `limit` of its
      address in its window since the table was last emptied. */
  lemma PassesExactly(h: seq<Request>, limit: nat)
    requires h != [] && InTimeOrder(h) && limit > 0
    ensures var r := h[|h| - 1];
      LastPasses(h, limit) <==> Exempt(r.path) || SinceClear(h, r.ip, r.window) <= limit
  {
    var front, r := h[..|h| - 1], h[|h| - 1];
    assert h == front + [r];
    BucketIsSinceClear(front, r.ip);
    BucketNotAhead(front, r);
  }

  /** `limit` for every clear. */
  function Refills(limit: nat, clears: nat): (n: nat)
    ensures n == limit * clears
  {
    if clears == 0 then 0 else Refills(limit, clears - 1) + limit
  }

  /** Every clear in a window can give an address one more budget. While the window lasts, the
      budget in use is the requests since the last clear. */
  lemma {:induction false} PassedAtMost(h: seq<Request>, ip: string, window: nat, limit: nat)
    requires InTimeOrder(h) && limit > 0
    ensures Passed(h, ip, window, limit) <= Refills(limit, ClearsIn(h, window)) + limit
    ensures h == [] || h[|h| - 1].window <= window ==>
      Passed(h, ip, window, limit) <= Refills(limit, ClearsIn(h, window)) + Min(SinceClear(h, ip, window), limit)
  {
    if h != [] {
      var front, r := h[..|h| - 1], h[|h| - 1];
      PassedAtMost(front, ip, window, limit);
      if Counts(r, ip, window) {
        PassesExactly(h, limit);
      }
      var c := ClearsIn(front, window);
      assert Refills(limit, c + 1) == Refills(limit, c) + limit;
      if front != [] {
        assert h[|h| - 2].window <= h[|h| - 1].window && h[|h| - 2] == front[|front| - 1];
      }
      if h[|h| - 1].window < window {
        NoneYet(h, ip, window, limit);
      }
    }
  }

  lemma {:induction false} NoneYet(h: seq<Request>, ip: string, window: nat, limit: nat)
    requires InTimeOrder(h) && (h != [] ==> h[|h| - 1].window < window)
    ensures Passed(h, ip, window, limit) == 0
  {
    if h != [] {
      assert |h| > 1 ==> h[|h| - 2].window <= h[|h| - 1].window;
      NoneYet(h[..|h| - 1], ip, window, limit);
    }
  }

  lemma {:induction false} PassedAtLeast(h: seq<Request>, ip: string, window: nat, limit: nat)
    requires limit > 0
    ensures Passed(h, ip, window, limit) >= Min(Requests(h, ip, window), limit)
  {
    if h != [] {
      PassedAtLeast(h[..|h| - 1], ip, window, limit);
      FirstRequestsPass(h, limit);
    }
  }

  function Min(a: nat, b: nat): nat {
    if a < b then a else b
  }

  /** Main result: of `n` requests of one address in one window at least min(n, limit) pass, at most
      limit * (1 + c) when the table was emptied `c` times in the window, and exactly min(n, limit)
      when it was not. */
  lemma PassedInWindow(h: seq<Request>, ip: string, window: nat, limit: nat)
    requires InTimeOrder(h) && limit > 0
    ensures var n, c, passed := Requests(h, ip, window), ClearsIn(h, window), Passed(h, ip, window, limit);
      && Min(n, limit) <= passed <= Min(n, Refills(limit, 1 + c))
      && (c == 0 ==> passed == Min(n, limit))
  {
    PassedAtMost(h, ip, window, limit);
    PassedAtLeast(h, ip, window, limit);
    PassedAreRequests(h, ip, window, limit);
    assert Refills(limit, 1 + ClearsIn(h, window)) == Refills(limit, ClearsIn(h, window)) + limit;
  }

  lemma {:induction false} PassedAreRequests(h: seq<Request>, ip: string, window: nat, limit: nat)
    ensures Passed(h, ip, window, limit) <= Requests(h, ip, window)
  {
    if h != [] {
      PassedAreRequests(h[..|h| - 1], ip, window, limit);
    }
  }

  // ----- Stretches between clears, told from the requests alone -----

  /** The addresses with a request that is limited. */
  function Addresses(h: seq<Request>): set<string> {
    set r | r in h && !Exempt(r.path) :: r.ip
  }

  /** A request starts over when more than 8192 addresses came in the current stretch and its own
      address has no request in its window there. */
  predicate StartsOver(current: seq<Request>, r: Request) {
    !Exempt(r.path) && |Addresses(current)| > MAX_BUCKETS && Requests(current, r.ip, r.window) == 0
  }

  /** The requests from the last one that started over. */
  function Current(h: seq<Request>): seq<Request> {
    if h == [] then []
    else
      var current, r := Current(h[..|h| - 1]), h[|h| - 1];
      if StartsOver(current, r) then [r] else current + [r]
  }

  /** The next request begins a new stretch or goes into the last one. */
  function Grown(stretches: seq<seq<Request>>, r: Request, starts: bool): (grown: seq<seq<Request>>)
    requires stretches != []
    ensures grown != []
  {
    var n := |stretches| - 1;
    if starts then stretches + [[r]] else stretches[..n] + [stretches[n] + [r]]
  }

  /** A run cut before every request that starts over. */
  function Stretches(h: seq<Request>): (stretches: seq<seq<Request>>)
    ensures stretches != [] && stretches[|stretches| - 1] == Current(h)
  {
    if h == [] then [[]]
    else
      var r := h[|h| - 1];
      Grown(Stretches(h[..|h| - 1]), r, StartsOver(Current(h[..|h| - 1]), r))
  }

  function Joined(stretches: seq<seq<Request>>): seq<Request> {
    if stretches == [] then [] else Joined(stretches[..|stretches| - 1]) + stretches[|stretches| - 1]
  }

  /** The sum of min(requests in a stretch, limit). */
  function Budget(stretches: seq<seq<Request>>, ip: string, window: nat, limit: nat): nat {
    if stretches == [] then 0
    else
      var last := stretches[|stretches| - 1];
      Budget(stretches[..|stretches| - 1], ip, window, limit) + Min(Requests(last, ip, window), limit)
  }

  lemma RequestsSnoc(h: seq<Request>, r: Request, ip: string, window: nat)
    ensures Requests(h + [r], ip, window) == Requests(h, ip, window) + (if Counts(r, ip, window) then 1 else 0)
  {
    assert (h + [r])[..|h|] == h;
  }

  lemma CurrentNext(h: seq<Request>, r: Request, ip: string, window: nat)
    ensures Requests(Current(h + [r]), ip, window) ==
      (if StartsOver(Current(h), r) then 0 else Requests(Current(h), ip, window))
      + (if Counts(r, ip, window) then 1 else 0)
  {
    assert (h + [r])[..|h|] == h;
    RequestsSnoc(Current(h), r, ip, window);
    RequestsSnoc([], r, ip, window);
    assert [] + [r] == [r];
  }

  lemma AddressesSnoc(h: seq<Request>, r: Request)
    ensures Addresses(h + [r]) == Addresses(h) + (if Exempt(r.path) then {} else {r.ip})
  {
    assert forall x :: x in h + [r] <==> x in h || x == r;
    var seen, seenNow := Addresses(h), Addresses(h + [r]);
    forall ip ensures ip in seenNow <==> ip in seen || (!Exempt(r.path) && ip == r.ip) {
      if ip in seen {
        var x :| x in h && !Exempt(x.path) && x.ip == ip;
        assert x in h + [r];
      }
      if !Exempt(r.path) && ip == r.ip {
        assert r in h + [r];
      }
    }
  }

  /** The table holds the addresses of the current stretch. */
  ghost predicate HoldsCurrent(h: seq<Request>, current: seq<Request>) {
    && BucketsAfter(h).Keys == Addresses(current)
    && forall ip, window: nat :: SinceClear(h, ip, window) == Requests(current, ip, window)
  }

  lemma KeysNext(buckets: map<string, Bucket>, r: Request)
    ensures Next(buckets, r).Keys ==
      (if Clears(buckets, r) then {} else buckets.Keys) + (if Exempt(r.path) then {} else {r.ip})
  {
  }

  lemma OpensExactly(h: seq<Request>, r: Request)
    requires InTimeOrder(h + [r])
    ensures !Exempt(r.path) ==> (Opens(BucketsAfter(h), r) <==> SinceClear(h, r.ip, r.window) == 0)
  {
    assert forall i :: 0 <= i < |h| ==> h[i] == (h + [r])[i];
    BucketIsSinceClear(h, r.ip);
    BucketNotAhead(h, r);
  }

  /** In time order the table is emptied exactly when a request starts over. */
  lemma {:induction false} ClearsExactly(h: seq<Request>, r: Request)
    requires InTimeOrder(h + [r])
    ensures HoldsCurrent(h, Current(h))
    ensures Clears(BucketsAfter(h), r) <==> StartsOver(Current(h), r)
  {
    var b := BucketsAfter(h);
    if h == [] {
      assert b.Keys == Addresses([]);
    } else {
      var front, last := h[..|h| - 1], h[|h| - 1];
      assert h == front + [last];
      assert forall i :: 0 <= i < |h| ==> h[i] == (h + [r])[i];
      ClearsExactly(front, last);
      HoldsNext(front, last);
    }
    OpensExactly(h, r);
    assert |b| == |b.Keys|;
  }

  lemma SinceClearNext(h: seq<Request>, r: Request, ip: string, window: nat)
    requires SinceClear(h, ip, window) == Requests(Current(h), ip, window)
    requires Clears(BucketsAfter(h), r) <==> StartsOver(Current(h), r)
    ensures SinceClear(h + [r], ip, window) == Requests(Current(h + [r]), ip, window)
  {
    assert (h + [r])[..|h|] == h;
    CurrentNext(h, r, ip, window);
  }

  lemma HoldsNext(h: seq<Request>, r: Request)
    requires HoldsCurrent(h, Current(h))
    requires Clears(BucketsAfter(h), r) <==> StartsOver(Current(h), r)
    ensures HoldsCurrent(h + [r], Current(h + [r]))
  {
    var current := if StartsOver(Current(h), r) then [] else Current(h);
    assert (h + [r])[..|h|] == h;
    assert Current(h + [r]) == current + [r];
    KeysNext(BucketsAfter(h), r);
    AddressesSnoc(current, r);
    assert Addresses([]) == {};
    forall ip, window: nat ensures SinceClear(h + [r], ip, window) == Requests(current + [r], ip, window) {
      SinceClearNext(h, r, ip, window);
    }
  }

  /** The same request by request: it passes exactly when it is among the first `limit` of its stretch. */
  lemma PassesInStretch(h: seq<Request>, limit: nat)
    requires h != [] && InTimeOrder(h) && limit > 0
    ensures var r := h[|h| - 1];
      LastPasses(h, limit) <==> Exempt(r.path) || Requests(Current(h), r.ip, r.window) <= limit
  {
    var front, r := h[..|h| - 1], h[|h| - 1];
    assert h == front + [r];
    ClearsExactly(front, r);
    HoldsNext(front, r);
    assert SinceClear(h, r.ip, r.window) == Requests(Current(h), r.ip, r.window);
    PassesExactly(h, limit);
  }

  lemma PassedNext(h: seq<Request>, r: Request, ip: string, window: nat, limit: nat)
    requires InTimeOrder(h + [r]) && limit > 0
    ensures Passed(h + [r], ip, window, limit) == Passed(h, ip, window, limit)
      + (if Counts(r, ip, window) && Requests(Current(h + [r]), ip, window) <= limit then 1 else 0)
  {
    PassesInStretch(h + [r], limit);
    assert (h + [r])[..|h|] == h;
  }

  lemma JoinedSnoc(stretches: seq<seq<Request>>, last: seq<Request>)
    ensures Joined(stretches + [last]) == Joined(stretches) + last
  {
    assert (stretches + [last])[..|stretches|] == stretches;
  }

  lemma JoinedGrown(stretches: seq<seq<Request>>, r: Request, starts: bool)
    requires stretches != []
    ensures Joined(Grown(stretches, r, starts)) == Joined(stretches) + [r]
  {
    if starts {
      JoinedSnoc(stretches, [r]);
    } else {
      var over, last := stretches[..|stretches| - 1], stretches[|stretches| - 1];
      assert stretches == over + [last];
      JoinedSnoc(over, last);
      JoinedSnoc(over, last + [r]);
    }
  }

  lemma {:induction false} StretchesJoined(h: seq<Request>)
    ensures Joined(Stretches(h)) == h
  {
    if h == [] {
      JoinedSnoc([], []);
      assert [] + [[]] == Stretches(h);
    } else {
      var front, r := h[..|h| - 1], h[|h| - 1];
      StretchesJoined(front);
      JoinedGrown(Stretches(front), r, StartsOver(Current(front), r));
    }
  }

  lemma BudgetSnoc(stretches: seq<seq<Request>>, last: seq<Request>, ip: string, window: nat, limit: nat)
    ensures Budget(stretches + [last], ip, window, limit)
         == Budget(stretches, ip, window, limit) + Min(Requests(last, ip, window), limit)
  {
    assert (stretches + [last])[..|stretches|] == stretches;
  }

  lemma BudgetGrown(stretches: seq<seq<Request>>, r: Request, starts: bool, ip: string, window: nat, limit: nat)
    requires stretches != [] && limit > 0
    ensures var grown := Grown(stretches, r, starts);
      Budget(grown, ip, window, limit) == Budget(stretches, ip, window, limit)
        + (if Counts(r, ip, window) && Requests(grown[|grown| - 1], ip, window) <= limit then 1 else 0)
  {
    if starts {
      BudgetSnoc(stretches, [r], ip, window, limit);
      RequestsSnoc([], r, ip, window);
      assert [] + [r] == [r];
    } else {
      var over, last := stretches[..|stretches| - 1], stretches[|stretches| - 1];
      assert stretches == over + [last];
      BudgetSnoc(over, last, ip, window, limit);
      BudgetSnoc(over, last + [r], ip, window, limit);
      RequestsSnoc(last, r, ip, window);
    }
  }

  lemma BudgetNext(h: seq<Request>, r: Request, ip: string, window: nat, limit: nat)
    requires limit > 0
    ensures Budget(Stretches(h + [r]), ip, window, limit) == Budget(Stretches(h), ip, window, limit)
      + (if Counts(r, ip, window) && Requests(Current(h + [r]), ip, window) <= limit then 1 else 0)
  {
    assert (h + [r])[..|h|] == h;
    BudgetGrown(Stretches(h), r, StartsOver(Current(h), r), ip, window, limit);
  }

  ghost predicate PassedIsBudget(h: seq<Request>, ip: string, window: nat, limit: nat) {
    Passed(h, ip, window, limit) == Budget(Stretches(h), ip, window, limit)
  }

  lemma PassedIsBudgetNext(h: seq<Request>, r: Request, ip: string, window: nat, limit: nat)
    requires InTimeOrder(h + [r]) && limit > 0 && PassedIsBudget(h, ip, window, limit)
    ensures PassedIsBudget(h + [r], ip, window, limit)
  {
    BudgetNext(h, r, ip, window, limit);
    PassedNext(h, r, ip, window, limit);
  }

  lemma {:induction false} StretchByStretch(h: seq<Request>, ip: string, window: nat, limit: nat)
    requires InTimeOrder(h) && limit > 0
    ensures PassedIsBudget(h, ip, window, limit)
  {
    if h == [] {
      assert Budget([[]][..0], ip, window, limit) == 0;
    } else {
      var front, r := h[..|h| - 1], h[|h| - 1];
      assert h == front + [r];
      StretchByStretch(front, ip, window, limit);
      PassedIsBudgetNext(front, r, ip, window, limit);
    }
  }

  /** Main result, the exact total: every stretch lets through min(its requests, limit). */
  lemma PassedByStretch(h: seq<Request>, ip: string, window: nat, limit: nat)
    requires InTimeOrder(h) && limit > 0
    ensures Joined(Stretches(h)) == h
    ensures Passed(h, ip, window, limit) == Budget(Stretches(h), ip, window, limit)
  {
    StretchesJoined(h);
    StretchByStretch(h, ip, window, limit);
  }

  // ----- When the budget is kept -----

  ghost predicate StartsOverAt(h: seq<Request>, k: nat)
    requires k < |h|
  {
    StartsOver(Current(h[..k]), h[k])
  }

  /** Some request of the address lies in a stretch that is over. */
  ghost predicate Forgotten(h: seq<Request>, ip: string, window: nat) {
    exists i, k :: ForgottenAt(h, ip, window, i, k)
  }

  ghost predicate ForgottenAt(h: seq<Request>, ip: string, window: nat, i: nat, k: nat) {
    i < k < |h| && Counts(h[i], ip, window) && StartsOverAt(h, k)
  }

  /** The table is emptied between two requests of the address, or by the later one. */
  ghost predicate Parted(h: seq<Request>, ip: string, window: nat) {
    exists i, k, j :: PartedAt(h, ip, window, i, k, j)
  }

  ghost predicate PartedAt(h: seq<Request>, ip: string, window: nat, i: nat, k: nat, j: nat) {
    ForgottenAt(h, ip, window, i, k) && k <= j < |h| && Counts(h[j], ip, window)
  }

  lemma StartsOverSnoc(h: seq<Request>, r: Request)
    ensures forall k :: 0 <= k < |h| ==> (StartsOverAt(h + [r], k) <==> StartsOverAt(h, k))
    ensures StartsOverAt(h + [r], |h|) <==> StartsOver(Current(h), r)
  {
    assert (h + [r])[..|h|] == h;
    forall k | 0 <= k < |h| ensures (h + [r])[..k] == h[..k] {
    }
  }

  lemma {:induction false} SomeRequest(h: seq<Request>, ip: string, window: nat)
    ensures Requests(h, ip, window) > 0 <==> exists i :: 0 <= i < |h| && Counts(h[i], ip, window)
  {
    if h != [] {
      var front := h[..|h| - 1];
      SomeRequest(front, ip, window);
      if i :| 0 <= i < |front| && Counts(front[i], ip, window) {
        assert Counts(h[i], ip, window);
      }
      if i :| 0 <= i < |h| && Counts(h[i], ip, window) {
        assert i < |front| ==> Counts(front[i], ip, window);
      }
    }
  }

  lemma ForgottenAtSnoc(h: seq<Request>, r: Request, ip: string, window: nat, i: nat, k: nat)
    ensures ForgottenAt(h + [r], ip, window, i, k) <==>
      ForgottenAt(h, ip, window, i, k) || (i < k == |h| && Counts(h[i], ip, window) && StartsOver(Current(h), r))
  {
    StartsOverSnoc(h, r);
  }

  lemma ForgottenSnoc(h: seq<Request>, r: Request, ip: string, window: nat)
    ensures Forgotten(h + [r], ip, window) <==>
      Forgotten(h, ip, window) || (Requests(h, ip, window) > 0 && StartsOver(Current(h), r))
  {
    SomeRequest(h, ip, window);
    if i, k :| ForgottenAt(h + [r], ip, window, i, k) {
      ForgottenAtSnoc(h, r, ip, window, i, k);
    }
    if i, k :| ForgottenAt(h, ip, window, i, k) {
      ForgottenAtSnoc(h, r, ip, window, i, k);
    }
    if StartsOver(Current(h), r) {
      if i: nat :| i < |h| && Counts(h[i], ip, window) {
        ForgottenAtSnoc(h, r, ip, window, i, |h|);
      }
    }
  }

  lemma PartedAtSnoc(h: seq<Request>, r: Request, ip: string, window: nat, i: nat, k: nat, j: nat)
    ensures j < |h| ==> (PartedAt(h + [r], ip, window, i, k, j) <==> PartedAt(h, ip, window, i, k, j))
    ensures PartedAt(h + [r], ip, window, i, k, |h|) <==>
      ForgottenAt(h + [r], ip, window, i, k) && Counts(r, ip, window)
  {
    ForgottenAtSnoc(h, r, ip, window, i, k);
  }

  lemma PartedSnoc(h: seq<Request>, r: Request, ip: string, window: nat)
    ensures Parted(h + [r], ip, window) <==>
      Parted(h, ip, window) || (Counts(r, ip, window) && Forgotten(h + [r], ip, window))
  {
    if i, k, j :| PartedAt(h + [r], ip, window, i, k, j) {
      PartedAtSnoc(h, r, ip, window, i, k, j);
    }
    if i, k, j :| PartedAt(h, ip, window, i, k, j) {
      PartedAtSnoc(h, r, ip, window, i, k, j);
    }
    if i, k :| ForgottenAt(h + [r], ip, window, i, k) {
      PartedAtSnoc(h, r, ip, window, i, k, |h|);
    }
  }

  lemma {:induction false} ForgottenExactly(h: seq<Request>, ip: string, window: nat)
    ensures Requests(Current(h), ip, window) <= Requests(h, ip, window)
    ensures Forgotten(h, ip, window) <==> Requests(Current(h), ip, window) < Requests(h, ip, window)
  {
    if h != [] {
      var front, r := h[..|h| - 1], h[|h| - 1];
      assert h == front + [r];
      ForgottenExactly(front, ip, window);
      ForgottenSnoc(front, r, ip, window);
      CurrentNext(front, r, ip, window);
    }
  }

  /** How far the count of passed requests is determined by the `n` requests, the `c` of them in the
      current stretch, and whether the table was emptied between two. */
  ghost predicate Kept(n: nat, c: nat, passed: nat, limit: nat, parted: bool) {
    if parted then c < n && passed >= Min(n, limit + 1) else (c == 0 || c == n) && passed == Min(n, limit)
  }

  lemma KeptNext(n: nat, c: nat, passed: nat, limit: nat, parted: bool, counts: bool, starts: bool)
    requires limit > 0 && Kept(n, c, passed, limit, parted)
    ensures var one := if counts then 1 else 0;
      var cNext := (if starts then 0 else c) + one;
      Kept(n + one, cNext, if counts && cNext <= limit then passed + 1 else passed, limit,
           parted || (counts && cNext < n + one))
  {
  }

  ghost predicate KeptOn(h: seq<Request>, ip: string, window: nat, limit: nat) {
    Kept(Requests(h, ip, window), Requests(Current(h), ip, window), Passed(h, ip, window, limit), limit,
         Parted(h, ip, window))
  }

  lemma PartedNext(h: seq<Request>, r: Request, ip: string, window: nat)
    ensures Parted(h + [r], ip, window) <==>
      Parted(h, ip, window)
      || (Counts(r, ip, window) && Requests(Current(h + [r]), ip, window) < Requests(h + [r], ip, window))
  {
    PartedSnoc(h, r, ip, window);
    ForgottenExactly(h + [r], ip, window);
  }

  lemma KeptSnoc(h: seq<Request>, r: Request, ip: string, window: nat, limit: nat)
    requires InTimeOrder(h + [r]) && limit > 0 && KeptOn(h, ip, window, limit)
    ensures KeptOn(h + [r], ip, window, limit)
  {
    PartedNext(h, r, ip, window);
    CurrentNext(h, r, ip, window);
    RequestsSnoc(h, r, ip, window);
    PassedNext(h, r, ip, window, limit);
    KeptNext(Requests(h, ip, window), Requests(Current(h), ip, window), Passed(h, ip, window, limit), limit,
             Parted(h, ip, window), Counts(r, ip, window), StartsOver(Current(h), r));
  }

  lemma {:induction false} KeptOnRun(h: seq<Request>, ip: string, window: nat, limit: nat)
    requires InTimeOrder(h) && limit > 0
    ensures KeptOn(h, ip, window, limit)
  {
    if h != [] {
      var front, r := h[..|h| - 1], h[|h| - 1];
      assert h == front + [r];
      KeptOnRun(front, ip, window, limit);
      KeptSnoc(front, r, ip, window, limit);
    }
  }

  /** Main result, exactly when the budget is kept: an address gets no more than its limit in a window
      if and only if it asks for no more, or the table is never emptied between two of its requests. */
  lemma BudgetKeptExactly(h: seq<Request>, ip: string, window: nat, limit: nat)
    requires InTimeOrder(h) && limit > 0
    ensures Passed(h, ip, window, limit) == Min(Requests(h, ip, window), limit) <==>
      Requests(h, ip, window) <= limit || !Parted(h, ip, window)
  {
    KeptOnRun(h, ip, window, limit);
    PassedAreRequests(h, ip, window, limit);
    PassedAtLeast(h, ip, window, limit);
  }

  lemma {:induction false} CurrentAddresses(h: seq<Request>)
    ensures Addresses(Current(h)) <= Addresses(h)
  {
    if h != [] {
      var front, r := h[..|h| - 1], h[|h| - 1];
      CurrentAddresses(front);
      assert h == front + [r];
      AddressesSnoc(front, r);
      AddressesSnoc(Current(front), r);
      AddressesSnoc([], r);
      assert [] + [r] == [r] && Addresses([]) == {};
    }
  }

  lemma FewNeverStartOver(h: seq<Request>, k: nat)
    requires k < |h| && |Addresses(h)| <= MAX_BUCKETS
    ensures !StartsOverAt(h, k)
  {
    CurrentAddresses(h[..k]);
    assert Addresses(h[..k]) <= Addresses(h);
    SubsetSize(Addresses(Current(h[..k])), Addresses(h));
  }

  lemma SubsetSize(a: set<string>, b: set<string>)
    requires a <= b
    ensures |a| <= |b|
  {
    assert b == a + (b - a);
  }

  /** What a caller can see: with at most 8192 addresses in all, every budget is kept. */
  lemma FewAddressesKeepBudget(h: seq<Request>, ip: string, window: nat, limit: nat)
    requires InTimeOrder(h) && limit > 0 && |Addresses(h)| <= 8192
    ensures Passed(h, ip, window, limit) == Min(Requests(h, ip, window), limit)
  {
    forall k | 0 <= k < |h| ensures !StartsOverAt(h, k) {
      FewNeverStartOver(h, k);
    }
    BudgetKeptExactly(h, ip, window, limit);
  }

  // ----- The bound and the excess are reached -----

  function From(ip: string): (r: Request)
    ensures !Exempt(r.path)
  {
    var path := "/api/v1/me";
    assert path[3] != "/app/"[3];
    Request(path, ip, 0)
  }

  lemma AppendRun(h: seq<Request>, r: Request)
    ensures BucketsAfter(h + [r]) == Next(BucketsAfter(h), r)
    ensures forall limit :: LastPasses(h + [r], limit) <==>
      Exempt(r.path) || Opens(BucketsAfter(h), r) || BucketsAfter(h)[r.ip].count + 1 <= limit
    ensures forall ip, w, limit ::
      Passed(h + [r], ip, w, limit) ==
        Passed(h, ip, w, limit) + (if Counts(r, ip, w) && LastPasses(h + [r], limit) then 1 else 0)
  {
    assert (h + [r])[..|h|] == h;
  }

  /** One address uses up its budget. */
  lemma {:induction false} UseBudget(limit: nat, k: nat) returns (h: seq<Request>)
    requires k <= limit && limit > 0
    ensures forall i :: 0 <= i < |h| ==> h[i] == From("a")
    ensures BucketsAfter(h) == if k == 0 then map[] else map["a" := Bucket(0, k)]
    ensures Passed(h, "a", 0, limit) == k
  {
    if k == 0 {
      h := [];
    } else {
      var front := UseBudget(limit, k - 1);
      AppendRun(front, From("a"));
      h := front + [From("a")];
    }
  }

  /** Then `k` further addresses come, each once. */
  lemma {:induction false} Flood(limit: nat, k: nat) returns (h: seq<Request>)
    requires limit > 0 && k <= MAX_BUCKETS
    ensures forall i :: 0 <= i < |h| ==> h[i].window == 0
    ensures "a" in BucketsAfter(h) && BucketsAfter(h)["a"] == Bucket(0, limit)
    ensures |BucketsAfter(h)| == k + 1 && forall j: nat :: Digits(j) in BucketsAfter(h) ==> j < k
    ensures Passed(h, "a", 0, limit) == limit
  {
    AIsNoNumber();
    if k == 0 {
      h := UseBudget(limit, limit);
      assert BucketsAfter(h).Keys == {"a"};
    } else {
      var front := Flood(limit, k - 1);
      var r := From(Digits(k - 1));
      AppendRun(front, r);
      h := front + [r];
      assert BucketsAfter(h).Keys == BucketsAfter(front).Keys + {r.ip};
      forall j: nat | Digits(j) in BucketsAfter(h) ensures j < k {
        ParseDigits(j);
        ParseDigits(k - 1);
      }
    }
  }

  lemma AIsNoNumber()
    ensures forall j: nat :: Digits(j) != "a"
  {
    forall j: nat ensures Digits(j) != "a" {
      assert IsDigit(Digits(j)[0]);
    }
  }

  /** The table can hold 8193 buckets, and one more address then gives a used-up address a new
      budget in the same window: the limit is exceeded. */
  lemma ClearRefillsBudget(limit: nat) returns (full: seq<Request>, h: seq<Request>)
    requires limit > 0
    ensures InTimeOrder(full) && |BucketsAfter(full)| == MAX_BUCKETS + 1
    ensures InTimeOrder(h) && Passed(h, "a", 0, limit) == limit + 1
  {
    full := Flood(limit, MAX_BUCKETS);
    var r := From(Digits(MAX_BUCKETS));
    AIsNoNumber();
    AppendRun(full, r);
    AppendRun(full + [r], From("a"));
    h := full + [r] + [From("a")];
  }
}
