/** The request body cap of soc_ai/main.py: counting a body as it streams in, and replaying it. */
module BodyCap {
  import opened Text

  /** The cap of a route without its own, unless the handler is built with another. */
  const MAX_BODY_BYTES: nat := 1024 * 1024
  const LOGIN_BYTES: nat := 8 * 1024
  const TOURS_BYTES: nat := 8 * 1024

  type Bytes = seq<bv8>

  /** What the server hands to an application. `Request` with `more` false ends the body; anything
      else than a request message counts as a disconnect. */
  datatype Message = Request(body: Bytes, more: bool) | Disconnect

  /** The parts of a scope the cap reads: a header that is absent is None. */
  datatype Scope = Scope(isHttp: bool, path: string, contentLength: Option<string>, hasTransferEncoding: bool)

  datatype Outcome =
    | PassThrough            // the application reads the stream itself
    | TooLarge               // answered 413
    | Dropped                // nothing is called
    | Replayed(body: Bytes)  // the application gets the buffered body
    | Waiting                // the stream has not decided yet

  // ----- What the stream means -----

  function BodyPart(m: Message): Bytes {
    if m.Request? then m.body else []
  }

  function Total(chunks: seq<Message>): nat {
    if chunks == [] then 0
    else Total(chunks[..|chunks| - 1]) + |BodyPart(chunks[|chunks| - 1])|
  }

  function Joined(chunks: seq<Message>): Bytes {
    if chunks == [] then []
    else Joined(chunks[..|chunks| - 1]) + BodyPart(chunks[|chunks| - 1])
  }

  /** The first `k` messages are request messages that leave the body open. */
  ghost predicate OpenUpTo(stream: seq<Message>, k: nat)
    requires k <= |stream|
  {
    forall i :: 0 <= i < k ==> stream[i].Request? && stream[i].more
  }

  /** The body ends with message `k`. */
  ghost predicate EndsAt(stream: seq<Message>, k: nat) {
    k < |stream| && OpenUpTo(stream, k) && stream[k].Request? && !stream[k].more
  }

  /** The body goes over the limit with message `k` and not before. */
  ghost predicate ExceedsAt(stream: seq<Message>, k: nat, limit: nat) {
    && k < |stream| && OpenUpTo(stream, k) && stream[k].Request?
    && Total(stream[..k]) <= limit < Total(stream[..k + 1])
  }

  /** The client goes away with message `k`, before the body ends. */
  ghost predicate DisconnectsAt(stream: seq<Message>, k: nat) {
    k < |stream| && OpenUpTo(stream, k) && stream[k].Disconnect?
  }

  lemma {:induction false} TotalGrows(stream: seq<Message>, i: nat, j: nat)
    requires i <= j <= |stream|
    ensures Total(stream[..i]) <= Total(stream[..j])
  {
    if i < j {
      TotalGrows(stream, i, j - 1);
      assert stream[..j][..j - 1] == stream[..j - 1];
    }
  }

  lemma {:induction false} JoinedLength(chunks: seq<Message>)
    ensures |Joined(chunks)| == Total(chunks)
  {
    if chunks != [] {
      JoinedLength(chunks[..|chunks| - 1]);
    }
  }

  /** The body ends with message `k`, within the limit. */
  ghost predicate CompletesAt(stream: seq<Message>, k: nat, limit: nat) {
    EndsAt(stream, k) && Total(stream[..k + 1]) <= limit
  }

  /** The client goes away with message `k`, and the body so far is within the limit. */
  ghost predicate AbortsAt(stream: seq<Message>, k: nat, limit: nat) {
    DisconnectsAt(stream, k) && Total(stream[..k]) <= limit
  }

  /** What an outcome of the loop says of the stream. */
  ghost predicate Explains(out: Outcome, stream: seq<Message>, used: nat, limit: nat)
    requires used <= |stream|
  {
    match out
    case PassThrough => false
    case Replayed(body) => used > 0 && CompletesAt(stream, used - 1, limit) && body == Joined(stream[..used])
    case TooLarge => used > 0 && ExceedsAt(stream, used - 1, limit)
    case Dropped => used > 0 && AbortsAt(stream, used - 1, limit)
    case Waiting => used == |stream| && OpenUpTo(stream, used) && Total(stream) <= limit
  }

  lemma OneMore(stream: seq<Message>, k: nat)
    requires k < |stream|
    ensures Total(stream[..k + 1]) == Total(stream[..k]) + |BodyPart(stream[k])|
    ensures Joined(stream[..k + 1]) == Joined(stream[..k]) + BodyPart(stream[k])
  {
    assert stream[..k + 1][..k] == stream[..k];
  }

  function Concat(chunks: seq<Bytes>): Bytes {
    if chunks == [] then [] else Concat(chunks[..|chunks| - 1]) + chunks[|chunks| - 1]
  }

  lemma ConcatMore(chunks: seq<Bytes>, b: Bytes)
    ensures Concat(chunks + [b]) == Concat(chunks) + b
  {
    assert (chunks + [b])[..|chunks|] == chunks;
  }

  /** The loop stands after `k` messages of an open body, with these chunks. */
  ghost predicate Reading(stream: seq<Message>, k: nat, limit: nat, chunks: seq<Bytes>, total: nat) {
    && k <= |stream| && OpenUpTo(stream, k)
    && total == Total(stream[..k]) <= limit
    && Concat(chunks) == Joined(stream[..k])
  }

  lemma ReadingStops(stream: seq<Message>, k: nat, limit: nat, chunks: seq<Bytes>, total: nat)
    requires Reading(stream, k, limit, chunks, total)
    ensures k == |stream| ==> Explains(Waiting, stream, k, limit)
    ensures k < |stream| && stream[k].Disconnect? ==> Explains(Dropped, stream, k + 1, limit)
    ensures k < |stream| && stream[k].Request? && total + |stream[k].body| > limit ==>
      Explains(TooLarge, stream, k + 1, limit)
  {
    if k < |stream| {
      OneMore(stream, k);
    } else {
      assert stream[..k] == stream;
    }
  }

  lemma ReadingGoesOn(stream: seq<Message>, k: nat, limit: nat, chunks: seq<Bytes>, total: nat)
    requires Reading(stream, k, limit, chunks, total) && k < |stream| && stream[k].Request?
    requires total + |stream[k].body| <= limit
    ensures stream[k].more ==>
      Reading(stream, k + 1, limit, chunks + [stream[k].body], total + |stream[k].body|)
    ensures !stream[k].more ==> Explains(Replayed(Concat(chunks + [stream[k].body])), stream, k + 1, limit)
  {
    OneMore(stream, k);
    ConcatMore(chunks, stream[k].body);
  }

  /** The buffering loop. `used` messages are taken from the stream, and `peak` is the largest number
      of bytes held. */
  method Buffer(stream: seq<Message>, limit: nat) returns (out: Outcome, used: nat, peak: nat)
    ensures used <= |stream| && peak <= limit
    ensures Explains(out, stream, used, limit)
  {
    var chunks: seq<Bytes> := [];
    var total: nat := 0;
    used, peak := 0, 0;
    while used < |stream|
      invariant Reading(stream, used, limit, chunks, total) && peak <= total
    {
      var message := stream[used];
      ghost var before := total;
      ReadingStops(stream, used, limit, chunks, total);
      used := used + 1;
      if message.Disconnect? {
        return Dropped, used, peak;
      }
      total := total + |message.body|;
      if total > limit {
        return TooLarge, used, peak;
      }
      ReadingGoesOn(stream, used - 1, limit, chunks, before);
      chunks := chunks + [message.body];
      peak := total;
      if !message.more {
        return Replayed(Concat(chunks)), used, peak;
      }
    }
    ReadingStops(stream, used, limit, chunks, total);
    out := Waiting;
  }

  /** A message decides the stream when the body completes, exceeds the limit or aborts with it. */
  ghost predicate DecidesAt(stream: seq<Message>, k: nat, limit: nat) {
    CompletesAt(stream, k, limit) || ExceedsAt(stream, k, limit) || AbortsAt(stream, k, limit)
  }

  /** At most one message decides, and no stream is both decided and still open within the limit. */
  lemma OneDecision(stream: seq<Message>, limit: nat, k: nat, j: nat)
    requires DecidesAt(stream, k, limit)
    ensures DecidesAt(stream, j, limit) ==> j == k
    ensures !(OpenUpTo(stream, |stream|) && Total(stream) <= limit)
  {
    if DecidesAt(stream, j, limit) {
      NoEarlierDecision(stream, limit, k, j);
      NoEarlierDecision(stream, limit, j, k);
    }
    if ExceedsAt(stream, k, limit) {
      TotalGrows(stream, k + 1, |stream|);
      assert stream[..|stream|] == stream;
    }
  }

  lemma NoEarlierDecision(stream: seq<Message>, limit: nat, k: nat, j: nat)
    requires DecidesAt(stream, k, limit) && DecidesAt(stream, j, limit)
    ensures j >= k
  {
    if j < k {
      assert stream[j].Request? && stream[j].more;
      TotalGrows(stream, j + 1, k);
      TotalGrows(stream, k, if CompletesAt(stream, k, limit) then k + 1 else k);
    }
  }

  /** Nothing but the message an outcome ends with decides the stream. */
  lemma DecidedBy(out: Outcome, stream: seq<Message>, used: nat, limit: nat, k: nat)
    requires used <= |stream| && Explains(out, stream, used, limit)
    ensures DecidesAt(stream, k, limit) ==> !out.Waiting? && k == used - 1
  {
    if DecidesAt(stream, k, limit) {
      OneDecision(stream, limit, k, if out.Waiting? then k else used - 1);
    }
  }

  lemma DecidedInOneWay(out: Outcome, stream: seq<Message>, used: nat, limit: nat, k: nat)
    requires used <= |stream| && Explains(out, stream, used, limit)
    ensures CompletesAt(stream, k, limit) ==> out.Replayed?
    ensures ExceedsAt(stream, k, limit) ==> out.TooLarge?
    ensures AbortsAt(stream, k, limit) ==> out.Dropped?
  {
    DecidedBy(out, stream, used, limit, k);
    OneKind(stream, k, limit);
  }

  /** Main result: the application is called exactly when the body completes within the limit, 413 is
      the answer exactly when it exceeds the limit, and nothing happens exactly when the client goes
      away first. */
  lemma OutcomeExactly(out: Outcome, stream: seq<Message>, used: nat, limit: nat)
    requires used <= |stream| && Explains(out, stream, used, limit)
    ensures out.Replayed? <==> exists k: nat :: CompletesAt(stream, k, limit)
    ensures out.TooLarge? <==> exists k: nat :: ExceedsAt(stream, k, limit)
    ensures out.Dropped? <==> exists k: nat :: AbortsAt(stream, k, limit)
  {
    forall k: nat
      ensures CompletesAt(stream, k, limit) ==> out.Replayed?
      ensures ExceedsAt(stream, k, limit) ==> out.TooLarge?
      ensures AbortsAt(stream, k, limit) ==> out.Dropped?
    {
      DecidedInOneWay(out, stream, used, limit, k);
    }
  }

  lemma OneKind(stream: seq<Message>, k: nat, limit: nat)
    ensures CompletesAt(stream, k, limit) ==> !ExceedsAt(stream, k, limit) && !AbortsAt(stream, k, limit)
    ensures ExceedsAt(stream, k, limit) ==> !AbortsAt(stream, k, limit)
  {
  }

  // ----- The whole request -----

  function LimitFor(path: string, maxBytes: nat): nat {
    if path == "/api/v1/login" then LOGIN_BYTES
    else if path == "/api/v1/me/tours" then TOURS_BYTES
    else maxBytes
  }

  /** The length a client declares, when the header is a plain number. */
  function Declared(scope: Scope): Option<nat> {
    if scope.contentLength.None? then None else ParseNat(scope.contentLength.value)
  }

  /** No length is declared, so the cap has to count. */
  predicate MustCount(scope: Scope) {
    && scope.isHttp && scope.contentLength.None? && scope.hasTransferEncoding
    && scope.path != "/api/v1/login"
  }

  method Handle(scope: Scope, stream: seq<Message>, maxBytes: nat := MAX_BODY_BYTES) returns (out: Outcome, used: nat)
    ensures used <= |stream|
    // Only requests are capped; a declared length decides alone, and login refuses undeclared ones itself.
    ensures !scope.isHttp ==> out == PassThrough
    ensures scope.isHttp && scope.contentLength.Some? ==>
      var length := ParseNat(scope.contentLength.value);
      var limit := if scope.path in {"/api/v1/login", "/api/v1/me/tours"} then 8192 else maxBytes;
      out == if length.Some? && length.value > limit then TooLarge else PassThrough
    ensures scope.isHttp && scope.contentLength.None? ==>
      (!scope.hasTransferEncoding || scope.path == "/api/v1/login") ==> out == PassThrough
    // Any other body is counted as it comes.
    ensures scope.isHttp && scope.contentLength.None? && scope.hasTransferEncoding && scope.path != "/api/v1/login" ==>
      Explains(out, stream, used, if scope.path == "/api/v1/me/tours" then 8192 else maxBytes)
    ensures out.TooLarge? <==>
      || (scope.isHttp && Declared(scope).Some? && Declared(scope).value > LimitFor(scope.path, maxBytes))
      || (MustCount(scope) && exists k: nat :: ExceedsAt(stream, k, LimitFor(scope.path, maxBytes)))
    ensures !MustCount(scope) ==> used == 0 && (out.TooLarge? || out.PassThrough?)
    ensures MustCount(scope) ==> !out.PassThrough?
    ensures out.Replayed? <==>
      (MustCount(scope) && exists k: nat :: CompletesAt(stream, k, LimitFor(scope.path, maxBytes)))
    ensures BodyOf(AppView(out, stream, used)) == if out.PassThrough? || out.Replayed? then BodyOf(stream) else []
    ensures out.Replayed? ==> |out.body| <= LimitFor(scope.path, maxBytes)
  {
    if !scope.isHttp {
      return PassThrough, 0;
    }
    var limit := LimitFor(scope.path, maxBytes);
    if scope.contentLength.Some? {
      var length := ParseNat(scope.contentLength.value);
      if length.Some? && length.value > limit {
        return TooLarge, 0;
      }
      return PassThrough, 0;
    }
    if !scope.hasTransferEncoding || scope.path == "/api/v1/login" {
      return PassThrough, 0;
    }
    var peak;
    out, used, peak := Buffer(stream, limit);
    OutcomeExactly(out, stream, used, limit);
    if out.Replayed? {
      WholeBody(stream, used - 1);
      JoinedLength(stream[..used]);
    }
  }

  // ----- The body an application reads -----

  /** The bytes of the first body of a stream, as far as the stream goes. */
  function BodyOf(stream: seq<Message>): Bytes {
    if stream == [] || stream[0].Disconnect? then []
    else stream[0].body + (if stream[0].more then BodyOf(stream[1..]) else [])
  }

  function AppView(out: Outcome, stream: seq<Message>, used: nat): seq<Message>
    requires used <= |stream|
  {
    match out
    case PassThrough => stream
    case Replayed(body) => [Request(body, false)] + stream[used..]
    case _ => []
  }

  lemma {:induction false} JoinedFirst(m: Message, rest: seq<Message>)
    ensures Joined([m] + rest) == BodyPart(m) + Joined(rest)
  {
    var all := [m] + rest;
    if rest == [] {
      assert all[..0] == [] && Joined(all) == [] + BodyPart(m);
    } else {
      var n := |rest| - 1;
      JoinedFirst(m, rest[..n]);
      assert all[..|all| - 1] == [m] + rest[..n];
      Regroup(BodyPart(m), Joined(rest[..n]), BodyPart(rest[n]));
    }
  }

  lemma Regroup(a: Bytes, b: Bytes, c: Bytes)
    ensures a + b + c == a + (b + c)
  {
  }

  lemma {:induction false} WholeBody(stream: seq<Message>, k: nat)
    requires EndsAt(stream, k)
    ensures BodyOf(stream) == Joined(stream[..k + 1])
  {
    JoinedFirst(stream[0], stream[1..][..k]);
    assert stream[..k + 1] == [stream[0]] + stream[1..][..k];
    if k == 0 {
      assert stream[1..][..0] == [];
    } else {
      assert stream[0].more;
      WholeBody(stream[1..], k - 1);
    }
  }

  /** The receive function handed to the application: the buffered body once, then the stream. */
  class Replay {
    const buffered: Bytes
    var replayed: bool
    var stream: seq<Message>
    ghost const start: seq<Message>
    ghost var delivered: seq<Message>

    ghost predicate Valid()
      reads this
    {
      if replayed
      then exists k :: 0 <= k <= |start| && stream == start[k..]
                       && delivered == [Request(buffered, false)] + start[..k]
      else stream == start && delivered == []
    }

    constructor (body: Bytes, rest: seq<Message>)
      ensures Valid() && buffered == body && stream == start == rest && delivered == []
    {
      buffered, replayed, stream := body, false, rest;
      start, delivered := rest, [];
    }

    /** The next message; None when the stream has none yet. What was delivered is always a prefix of
        the view of the application. */
    method Receive() returns (message: Option<Message>)
      requires Valid()
      modifies this
      ensures Valid()
      ensures message.None? ==> delivered == old(delivered) == [Request(buffered, false)] + start
      ensures message.Some? ==> delivered == old(delivered) + [message.value]
      ensures delivered <= [Request(buffered, false)] + start
    {
      if !replayed {
        replayed := true;
        delivered := [Request(buffered, false)];
        assert stream == start[0..] && delivered == [Request(buffered, false)] + start[..0];
        return Some(Request(buffered, false));
      }
      ghost var k :| 0 <= k <= |start| && stream == start[k..]
                     && delivered == [Request(buffered, false)] + start[..k];
      if stream == [] {
        assert start[..k] == start;
        return None;
      }
      message := Some(stream[0]);
      delivered := delivered + [stream[0]];
      stream := stream[1..];
      assert stream == start[k + 1..] && delivered == [Request(buffered, false)] + start[..k + 1];
    }
  }
}
