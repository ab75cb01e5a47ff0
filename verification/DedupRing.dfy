/** The webhook dedup ring of soc_ai/notify.py: an ordered dictionary used as a bounded LRU set,
    against the plain history of the keys that were asked about. */
module DedupRing {
  import opened Text

  const DEDUP_MAX: nat := 512

  // ----- The key of an event -----

  /** `hour` is the eleven-character text of the current hour. */
  datatype Event = Event(kind: string, title: string, url: string, hour: string)

  /** The characters Python's strip removes. */
  predicate IsSpace(c: char) {
    || '\t' <= c <= '\r' || '\U{1C}' <= c <= ' ' || c == '\U{85}' || c == '\U{A0}' || c == '\U{1680}'
    || '\U{2000}' <= c <= '\U{200A}' || '\U{2028}' <= c <= '\U{2029}' || c == '\U{202F}' || c == '\U{205F}'
    || c == '\U{3000}'
  }

  function Strip(s: string): (r: string)
    ensures r != "" ==> !IsSpace(r[0]) && !IsSpace(r[|r| - 1])
    decreases |s|
  {
    if s != "" && IsSpace(s[0]) then Strip(s[1..])
    else if s != "" && IsSpace(s[|s| - 1]) then Strip(s[..|s| - 1])
    else s
  }

  lemma SpacesExactly(c: char)
    ensures IsSpace(c) <==> c in {'\t', '\n', '\U{0B}', '\U{0C}', '\r', '\U{1C}', '\U{1D}', '\U{1E}', '\U{1F}', ' ',
      '\U{85}', '\U{A0}', '\U{1680}', '\U{2000}', '\U{2001}', '\U{2002}', '\U{2003}', '\U{2004}', '\U{2005}',
      '\U{2006}', '\U{2007}', '\U{2008}', '\U{2009}', '\U{200A}', '\U{2028}', '\U{2029}', '\U{202F}', '\U{205F}',
      '\U{3000}'}
  {
  }

  predicate AllSpace(s: string) {
    forall i :: 0 <= i < |s| ==> IsSpace(s[i])
  }

  /** What is left of a text when the spaces at both ends are cut off. */
  ghost predicate Trims(s: string, r: string) {
    && (r != "" ==> !IsSpace(r[0]) && !IsSpace(r[|r| - 1]))
    && exists before, after :: AllSpace(before) && AllSpace(after) && s == before + r + after
  }

  lemma TrimsFront(s: string, r: string)
    requires s != "" && IsSpace(s[0]) && Trims(s[1..], r)
    ensures Trims(s, r)
  {
    var before, after :| AllSpace(before) && AllSpace(after) && s[1..] == before + r + after;
    assert s == [s[0]] + before + r + after;
    assert AllSpace([s[0]] + before);
  }

  lemma TrimsBack(s: string, r: string)
    requires s != "" && IsSpace(s[|s| - 1]) && Trims(s[..|s| - 1], r)
    ensures Trims(s, r)
  {
    var last := s[|s| - 1];
    var before, after :| AllSpace(before) && AllSpace(after) && s[..|s| - 1] == before + r + after;
    assert s == before + r + (after + [last]);
    assert AllSpace(after + [last]);
  }

  lemma TrimsNothing(s: string)
    requires s == "" || (!IsSpace(s[0]) && !IsSpace(s[|s| - 1]))
    ensures Trims(s, s)
  {
    assert AllSpace("") && s == "" + s + "";
  }

  lemma {:induction false} StripTrims(s: string)
    ensures Trims(s, Strip(s))
    decreases |s|
  {
    if s != "" && IsSpace(s[0]) {
      StripTrims(s[1..]);
      TrimsFront(s, Strip(s));
    } else if s != "" && IsSpace(s[|s| - 1]) {
      StripTrims(s[..|s| - 1]);
      TrimsBack(s, Strip(s));
    } else {
      TrimsNothing(s);
    }
  }

  /** Nothing is left exactly of spaces. */
  lemma TrimsToNothing(s: string, r: string)
    requires Trims(s, r)
    ensures r == "" <==> AllSpace(s)
  {
    var before, after :| AllSpace(before) && AllSpace(after) && s == before + r + after;
    if r == "" {
      assert forall i :: 0 <= i < |s| ==> s[i] == (before + after)[i];
    } else {
      assert s[|before|] == r[0];
    }
  }

  /** The permalink tells events apart, and the title only where there is none. */
  ghost predicate IsEntity(e: Event, entity: string) {
    if AllSpace(e.url) then Trims(e.title, entity) else entity != "" && Trims(e.url, entity)
  }

  lemma EntityKeyExactly(e: Event)
    ensures IsEntity(e, EntityKey(e))
    ensures DedupKey(e) == e.kind + ":" + EntityKey(e) + ":" + e.hour
  {
    StripTrims(e.url);
    StripTrims(e.title);
    TrimsToNothing(e.url, Strip(e.url));
  }

  function EntityKey(e: Event): string {
    if Strip(e.url) != "" then Strip(e.url) else Strip(e.title)
  }

  function DedupKey(e: Event): string {
    e.kind + ":" + EntityKey(e) + ":" + e.hour
  }

  lemma {:induction false} CutAtColon(a: string, x: string, b: string, y: string)
    requires ':' !in a && ':' !in b && a + ":" + x == b + ":" + y
    ensures a == b && x == y
  {
    if a == "" || b == "" {
      assert (a + ":" + x)[0] == (b + ":" + y)[0];
      assert a == "" ==> (a + ":" + x)[0] == ':';
      assert b == "" ==> (b + ":" + y)[0] == ':';
      assert a == b == "";
      assert (a + ":" + x)[1..] == x && (b + ":" + y)[1..] == y;
    } else {
      assert (a + ":" + x)[0] == a[0] && (b + ":" + y)[0] == b[0];
      assert (a + ":" + x)[1..] == a[1..] + ":" + x && (b + ":" + y)[1..] == b[1..] + ":" + y;
      CutAtColon(a[1..], x, b[1..], y);
      assert a == [a[0]] + a[1..] && b == [b[0]] + b[1..];
    }
  }

  /** Kinds hold no colon and hour texts have one length, so the joined key tells apart what its three
      parts tell apart, whatever colons the entity holds. */
  lemma DedupKeyIsInjective(e: Event, f: Event)
    requires ':' !in e.kind && ':' !in f.kind && |e.hour| == |f.hour|
    ensures DedupKey(e) == DedupKey(f) <==> e.kind == f.kind && EntityKey(e) == EntityKey(f) && e.hour == f.hour
  {
    if DedupKey(e) == DedupKey(f) {
      var x, y := EntityKey(e) + ":" + e.hour, EntityKey(f) + ":" + f.hour;
      assert DedupKey(e) == e.kind + ":" + x && DedupKey(f) == f.kind + ":" + y;
      CutAtColon(e.kind, x, f.kind, y);
      assert |EntityKey(e)| == |EntityKey(f)|;
      assert x[..|EntityKey(e)|] == EntityKey(e) && y[..|EntityKey(f)|] == EntityKey(f);
      assert x[|EntityKey(e)| + 1..] == e.hour && y[|EntityKey(f)| + 1..] == f.hour;
    }
  }

  // ----- The history of touches -----

  function Without(s: seq<string>, k: string): seq<string> {
    if s == [] then []
    else Without(s[..|s| - 1], k) + (if s[|s| - 1] == k then [] else [s[|s| - 1]])
  }

  /** All keys ever touched, each once, the most recently touched last. */
  function ByRecency(history: seq<string>): seq<string> {
    if history == [] then []
    else Without(ByRecency(history[..|history| - 1]), history[|history| - 1]) + [history[|history| - 1]]
  }

  function LastN(s: seq<string>, n: nat): seq<string> {
    if |s| <= n then s else s[|s| - n..]
  }

  /** The keys touched, as a set. */
  function Touched(history: seq<string>): set<string> {
    set k | k in history
  }

  /** The touches after the last touch of `k`. */
  function Since(history: seq<string>, k: string): seq<string>
    requires k in history
  {
    if history[|history| - 1] == k then []
    else Since(history[..|history| - 1], k) + [history[|history| - 1]]
  }

  ghost predicate Distinct(s: seq<string>) {
    forall i, j :: 0 <= i < j < |s| ==> s[i] != s[j]
  }

  // ----- The ring -----

  class Ring {
    var seen: seq<string>
    ghost var history: seq<string>

    ghost predicate Valid()
      reads this
    {
      seen == LastN(ByRecency(history), DEDUP_MAX)
    }

    constructor ()
      ensures Valid() && history == [] && seen == []
    {
      seen, history := [], [];
    }

    /** Whether a ping for this event may go out; every call touches the key of its event. */
    method ShouldSend(event: Event) returns (send: bool)
      requires Valid()
      modifies this
      ensures Valid() && history == old(history) + [DedupKey(event)]
      // The key is the kind, the permalink or else the title, and the hour.
      ensures exists entity ::
        IsEntity(event, entity) && DedupKey(event) == event.kind + ":" + entity + ":" + event.hour
      // It is suppressed when it was touched before and fewer than 512 keys came since.
      ensures !send <==> exists i ::
        LastTouch(old(history), i, DedupKey(event)) && |Touched(old(history)[i + 1..])| < 512
      ensures send <==> Sends(history, |history| - 1, DEDUP_MAX)
      ensures !send <==>
        DedupKey(event) in old(history) && |Touched(Since(old(history), DedupKey(event)))| < DEDUP_MAX
      ensures |seen| <= DEDUP_MAX && Distinct(seen) && |seen| > 0 && seen[|seen| - 1] == DedupKey(event)
    {
      var key := DedupKey(event);
      EntityKeyExactly(event);
      SuppressedExactly(history, key, 512);
      send := Touch(key);
      assert history[..|history| - 1] == old(history);
    }

    method Touch(key: string) returns (send: bool)
      requires Valid()
      modifies this
      ensures Valid() && history == old(history) + [key]
      ensures !send <==> key in old(history) && |Touched(Since(old(history), key))| < DEDUP_MAX
      ensures |seen| <= DEDUP_MAX && Distinct(seen) && |seen| > 0 && seen[|seen| - 1] == key
    {
      RingHolds(history, key, DEDUP_MAX);
      RingNext(history, key, DEDUP_MAX);
      RingHolds(history + [key], key, DEDUP_MAX);
      history := history + [key];
      if key in seen {
        seen := Without(seen, key) + [key];
        return false;
      }
      seen := Bounded(seen + [key], DEDUP_MAX);
      return true;
    }
  }

  /** The oldest keys are dropped while there are too many. */
  method Bounded(keys: seq<string>, cap: nat) returns (kept: seq<string>)
    ensures kept == LastN(keys, cap)
  {
    kept := keys;
    while |kept| > cap
      invariant kept == LastN(keys, |kept|) && (|kept| >= cap || kept == keys)
    {
      kept := kept[1..];
    }
  }

  // ----- Why the ring holds the most recent keys -----

  lemma {:induction false} WithoutSplit(a: seq<string>, b: seq<string>, k: string)
    ensures Without(a + b, k) == Without(a, k) + Without(b, k)
  {
    if b == [] {
      assert a + b == a;
    } else {
      assert (a + b)[..|a + b| - 1] == a + b[..|b| - 1];
      WithoutSplit(a, b[..|b| - 1], k);
    }
  }

  lemma {:induction false} WithoutAbsent(s: seq<string>, k: string)
    ensures k !in s ==> Without(s, k) == s
    ensures forall x :: x in Without(s, k) <==> x in s && x != k
    ensures Distinct(s) ==> Distinct(Without(s, k))
    ensures Distinct(s) ==> |Without(s, k)| == if k in s then |s| - 1 else |s|
  {
    if s != [] {
      var front := s[..|s| - 1];
      WithoutAbsent(front, k);
      assert s == front + [s[|s| - 1]];
      if Distinct(s) {
        assert s[|s| - 1] !in front;
      }
    }
  }

  lemma {:induction false} RecencyMembers(history: seq<string>)
    ensures forall k :: k in ByRecency(history) <==> k in history
  {
    if history != [] {
      var front, k := history[..|history| - 1], history[|history| - 1];
      RecencyMembers(front);
      WithoutAbsent(ByRecency(front), k);
      assert history == front + [k];
    }
  }

  lemma {:induction false} RecencyDistinct(history: seq<string>)
    ensures Distinct(ByRecency(history))
  {
    if history != [] {
      var front, k := history[..|history| - 1], history[|history| - 1];
      RecencyDistinct(front);
      WithoutAbsent(ByRecency(front), k);
    }
  }

  /** Where `k` and what stands behind it go when another key is taken out and put last. */
  lemma MoveBehind(before: seq<string>, i: nat, last: string) returns (j: nat)
    requires i < |before| && before[i] != last
    ensures j < |Without(before, last)| && Without(before, last)[j] == before[i]
    ensures Without(before, last)[j + 1..] == Without(before[i + 1..], last)
  {
    var a, k, b := before[..i], before[i], before[i + 1..];
    assert before == a + [k] + b;
    WithoutSplit(a + [k], b, last);
    WithoutSplit(a, [k], last);
    assert [k][..0] == [];
    assert Without([k], last) == [] + [k] == [k];
    j := |Without(a, last)|;
  }

  /** The LRU stack property: behind a key stand exactly the distinct keys touched since. */
  lemma {:induction false} RecencyPosition(history: seq<string>, k: string) returns (i: nat)
    requires k in history
    ensures i < |ByRecency(history)| && ByRecency(history)[i] == k
    ensures Touched(ByRecency(history)[i + 1..]) == Touched(Since(history, k))
  {
    var front, last := history[..|history| - 1], history[|history| - 1];
    assert history == front + [last];
    var before, r := ByRecency(front), ByRecency(history);
    assert r == Without(before, last) + [last];
    if last == k {
      i := |r| - 1;
      assert r[i + 1..] == [];
    } else {
      var p := RecencyPosition(front, k);
      i := MoveBehind(before, p, last);
      assert r[i + 1..] == Without(before[p + 1..], last) + [last];
      WithoutAbsent(before[p + 1..], last);
      SameTouched(before[p + 1..], Since(front, k), last);
    }
  }

  lemma SameTouched(b: seq<string>, since: seq<string>, last: string)
    requires Touched(b) == Touched(since)
    requires forall x :: x in Without(b, last) <==> x in b && x != last
    ensures Touched(Without(b, last) + [last]) == Touched(since + [last])
  {
    forall x ensures x in Touched(Without(b, last) + [last]) <==> x in Touched(since + [last]) {
      assert x in Touched(b) <==> x in Touched(since);
      assert x in since + [last] <==> x in since || x == last;
      assert x in Without(b, last) + [last] <==> x in Without(b, last) || x == last;
    }
  }

  lemma {:induction false} DistinctCount(s: seq<string>)
    requires Distinct(s)
    ensures |Touched(s)| == |s|
  {
    if s != [] {
      var front, last := s[..|s| - 1], s[|s| - 1];
      DistinctCount(front);
      assert s == front + [last];
      assert Touched(s) == Touched(front) + {last};
    }
  }

  /** Order of the ring: of two keys, the one touched last stands later. */
  lemma RecencyOrder(history: seq<string>, i: nat, j: nat)
    requires i < j < |ByRecency(history)|
    ensures ByRecency(history)[i] in history && ByRecency(history)[j] in Since(history, ByRecency(history)[i])
  {
    var r := ByRecency(history);
    RecencyDistinct(history);
    RecencyMembers(history);
    assert r[i] in ByRecency(history) && r[i] in history;
    var p := RecencyPosition(history, r[i]);
    assert p == i;
    assert r[j] in r[i + 1..];
    assert r[j] in Touched(r[i + 1..]);
  }

  /** A ring of `cap` places holds a key exactly when fewer than `cap` other keys came since. */
  lemma RingHolds(history: seq<string>, key: string, cap: nat)
    ensures key in LastN(ByRecency(history), cap) <==> key in history && |Touched(Since(history, key))| < cap
    ensures Distinct(LastN(ByRecency(history), cap))
  {
    var r := ByRecency(history);
    RecencyDistinct(history);
    RecencyMembers(history);
    if key in history {
      var i := RecencyPosition(history, key);
      DistinctCount(r[i + 1..]);
      assert |r| - i - 1 == |Touched(Since(history, key))|;
      if i >= |r| - cap {
        assert |r| > cap ==> r[|r| - cap..][i - (|r| - cap)] == key;
      }
    }
  }

  lemma LastOfLonger(a: seq<string>, b: seq<string>, n: nat)
    requires |b| >= n
    ensures LastN(a + b, n) == LastN(b, n)
  {
  }

  lemma DistinctTail(s: seq<string>, n: nat)
    requires Distinct(s) && n <= |s|
    ensures Distinct(s[n..])
  {
  }

  lemma WithoutShorter(s: seq<string>, k: string)
    requires Distinct(s)
    ensures if k in s then |Without(s, k)| < |s| else Without(s, k) == s
  {
    WithoutAbsent(s, k);
  }

  /** A held key moves to the end; a new key is added and the oldest dropped. */
  function Moved(held: seq<string>, key: string, cap: nat): seq<string> {
    if key in held then Without(held, key) + [key] else LastN(held + [key], cap)
  }

  lemma MoveInShort(r: seq<string>, key: string, cap: nat)
    requires 0 < cap && |r| <= cap && Distinct(r)
    ensures LastN(Without(r, key) + [key], cap) == Moved(r, key, cap)
  {
    WithoutShorter(r, key);
  }

  lemma MoveToEnd(r: seq<string>, key: string, cap: nat)
    requires 0 < cap < |r| && Distinct(r)
    ensures LastN(Without(r, key) + [key], cap) == Moved(r[|r| - cap..], key, cap)
  {
    var dropped, held := r[..|r| - cap], r[|r| - cap..];
    assert r == dropped + held;
    DistinctTail(r, |r| - cap);
    WithoutSplit(dropped, held, key);
    WithoutAbsent(held, key);
    var d, h := Without(dropped, key), Without(held, key);
    assert d + h + [key] == d + (h + [key]);
    LastOfLonger(d, h + [key], cap);
  }

  /** What a touch does to the most recent `cap` keys of a list. */
  lemma MoveInRing(r: seq<string>, key: string, cap: nat)
    requires 0 < cap && Distinct(r)
    ensures LastN(Without(r, key) + [key], cap) == Moved(LastN(r, cap), key, cap)
  {
    if |r| <= cap {
      MoveInShort(r, key, cap);
    } else {
      MoveToEnd(r, key, cap);
    }
  }

  lemma RecencyNext(history: seq<string>, key: string)
    ensures ByRecency(history + [key]) == Without(ByRecency(history), key) + [key]
  {
    assert (history + [key])[..|history|] == history;
  }

  /** Moving a held key to the end, or adding a new key and dropping the oldest, keeps the ring the
      most recent `cap` keys. */
  lemma RingNext(history: seq<string>, key: string, cap: nat)
    requires cap > 0
    ensures LastN(ByRecency(history + [key]), cap) == Moved(LastN(ByRecency(history), cap), key, cap)
  {
    RecencyDistinct(history);
    RecencyNext(history, key);
    MoveInRing(ByRecency(history), key, cap);
  }

  // ----- Whole histories -----

  /** Touch `i` of a history lets a ping out of a ring of `cap` places. */
  ghost predicate Sends(history: seq<string>, i: nat, cap: nat)
    requires i < |history|
  {
    !(history[i] in history[..i] && |Touched(Since(history[..i], history[i]))| < cap)
  }

  /** Touches `i` and `j` are of one key, with no touch of it between. */
  ghost predicate Neighbours(history: seq<string>, i: nat, j: nat)
    requires i < j < |history|
  {
    history[i] == history[j] && history[j] !in history[i + 1..j]
  }

  /** No touch of a key comes so late that `cap` other keys pushed it out of the ring. */
  ghost predicate NoWideGap(history: seq<string>, cap: nat) {
    forall i, j :: 0 <= i < j < |history| && Neighbours(history, i, j) ==> |Touched(history[i + 1..j])| < cap
  }

  ghost predicate NoneTwice(history: seq<string>, cap: nat) {
    forall i, j :: 0 <= i < j < |history| && history[i] == history[j] && Sends(history, i, cap) ==>
      !Sends(history, j, cap)
  }

  lemma {:induction false} SinceNeighbour(history: seq<string>, i: nat, j: nat)
    requires i < j <= |history| && history[i] !in history[i + 1..j]
    ensures Since(history[..j], history[i]) == history[i + 1..j]
  {
    if j == i + 1 {
      assert history[..j][|history[..j]| - 1] == history[i];
    } else {
      var last := history[j - 1];
      assert history[i + 1..j][j - i - 2] == last;
      forall k | i + 1 <= k < j - 1 ensures history[k] != history[i] {
        assert history[i + 1..j][k - i - 1] == history[k];
      }
      assert history[..j][..j - 1] == history[..j - 1];
      SinceNeighbour(history, i, j - 1);
      assert history[i + 1..j] == history[i + 1..j - 1] + [last];
    }
  }

  /** Touch `i` is the last of this key. */
  ghost predicate LastTouch(history: seq<string>, i: int, key: string) {
    0 <= i < |history| && history[i] == key && key !in history[i + 1..]
  }

  lemma {:induction false} SomeLastTouch(history: seq<string>, key: string) returns (i: nat)
    requires key in history
    ensures LastTouch(history, i, key)
  {
    var n := |history| - 1;
    if history[n] == key {
      i := n;
    } else {
      i := SomeLastTouch(history[..n], key);
      assert history[i + 1..] == history[..n][i + 1..] + [history[n]];
    }
  }

  lemma SuppressedExactly(history: seq<string>, key: string, cap: nat)
    ensures (key in history && |Touched(Since(history, key))| < cap) <==>
      exists i :: LastTouch(history, i, key) && |Touched(history[i + 1..])| < cap
  {
    assert history[..|history|] == history;
    forall i: nat | LastTouch(history, i, key) ensures key in history && Since(history, key) == history[i + 1..] {
      SinceNeighbour(history, i, |history|);
    }
    if key in history {
      var i := SomeLastTouch(history, key);
    }
  }

  lemma SendsAgain(history: seq<string>, i: nat, j: nat, cap: nat)
    requires i < j < |history| && Neighbours(history, i, j)
    ensures Sends(history, j, cap) <==> |Touched(history[i + 1..j])| >= cap
  {
    SinceNeighbour(history, i, j);
    assert history[..j][i] == history[j];
  }

  /** The touch of the same key before touch `j`. */
  lemma {:induction false} TouchBefore(history: seq<string>, i: nat, j: nat) returns (p: nat)
    requires i < j < |history| && history[i] == history[j]
    ensures i <= p < j && Neighbours(history, p, j)
    decreases j - i
  {
    if history[j] in history[i + 1..j] {
      var k :| 0 <= k < j - i - 1 && history[i + 1..j][k] == history[j];
      p := TouchBefore(history, i + 1 + k, j);
    } else {
      p := i;
    }
  }

  lemma {:induction false} FirstTouch(history: seq<string>, p: nat) returns (i: nat)
    requires p < |history|
    ensures i <= p && history[i] == history[p] && history[p] !in history[..i]
    decreases p
  {
    if history[p] in history[..p] {
      var k :| 0 <= k < p && history[..p][k] == history[p];
      i := FirstTouch(history, k);
    } else {
      i := p;
    }
  }

  /** Main result over a whole history: no key is sent twice exactly when no two neighbouring touches of
      a key have `cap` distinct keys between them. */
  lemma NoneTwiceExactly(history: seq<string>, cap: nat)
    ensures NoneTwice(history, cap) <==> NoWideGap(history, cap)
  {
    if NoWideGap(history, cap) {
      forall i, j | 0 <= i < j < |history| && history[i] == history[j] ensures !Sends(history, j, cap) {
        var p := TouchBefore(history, i, j);
        SendsAgain(history, p, j, cap);
      }
    }
    if NoneTwice(history, cap) {
      forall p, j | 0 <= p < j < |history| && Neighbours(history, p, j) ensures |Touched(history[p + 1..j])| < cap {
        SendsAgain(history, p, j, cap);
        var i := FirstTouch(history, p);
        assert Sends(history, i, cap);
      }
    }
  }

  // ----- Restarts -----

  /** How many pings for a key a history lets out. */
  ghost function Sent(history: seq<string>, n: nat, key: string, cap: nat): nat
    requires n <= |history|
  {
    if n == 0 then 0
    else Sent(history, n - 1, key, cap) + (if history[n - 1] == key && Sends(history, n - 1, cap) then 1 else 0)
  }

  /** The same over process lives: a restart begins an empty ring. */
  ghost function SentInAll(lives: seq<seq<string>>, key: string, cap: nat): nat {
    if lives == [] then 0
    else
      var life := lives[|lives| - 1];
      SentInAll(lives[..|lives| - 1], key, cap) + Sent(life, |life|, key, cap)
  }

  function LivesWith(lives: seq<seq<string>>, key: string): nat {
    if lives == [] then 0
    else LivesWith(lives[..|lives| - 1], key) + (if key in lives[|lives| - 1] then 1 else 0)
  }

  lemma {:induction false} SentOnce(history: seq<string>, n: nat, key: string, cap: nat)
    requires n <= |history| && NoneTwice(history, cap)
    ensures Sent(history, n, key, cap) == if key in history[..n] then 1 else 0
  {
    if n > 0 {
      SentOnce(history, n - 1, key, cap);
      assert history[..n] == history[..n - 1] + [history[n - 1]];
      if history[n - 1] == key && key in history[..n - 1] {
        var k :| 0 <= k < n - 1 && history[k] == key;
        var i := FirstTouch(history, k);
        assert Sends(history, i, cap);
      }
    }
  }

  /** Main result with restarts: when no life has a wide gap, a key is sent once in every life that
      touches it, so every restart lets at most one duplicate through. */
  lemma {:induction false} OneDuplicatePerRestart(lives: seq<seq<string>>, key: string, cap: nat)
    requires forall i :: 0 <= i < |lives| ==> NoWideGap(lives[i], cap)
    ensures SentInAll(lives, key, cap) == LivesWith(lives, key) <= |lives|
  {
    if lives != [] {
      var life := lives[|lives| - 1];
      OneDuplicatePerRestart(lives[..|lives| - 1], key, cap);
      NoneTwiceExactly(life, cap);
      SentOnce(life, |life|, key, cap);
      assert life[..|life|] == life;
    }
  }

  // ----- The promise of one ping an hour fails -----

  const HOUR := "20260101T00"

  function Titled(title: string): Event {
    Event("test", title, "", HOUR)
  }

  predicate Trimmed(s: string) {
    s != "" && !IsSpace(s[0]) && !IsSpace(s[|s| - 1])
  }

  lemma TitledKeys(a: string, b: string)
    requires Trimmed(a) && Trimmed(b)
    ensures DedupKey(Titled(a)) == DedupKey(Titled(b)) <==> a == b
  {
    assert Strip("") == "" && EntityKey(Titled(a)) == a && EntityKey(Titled(b)) == b;
    assert forall i :: 0 <= i < |"test"| ==> "test"[i] != ':';
    DedupKeyIsInjective(Titled(a), Titled(b));
  }

  function Name(i: nat): string {
    if i == 0 then "a" else Digits(i)
  }

  lemma NamesDiffer(i: nat, j: nat)
    requires i < j
    ensures Name(i) != Name(j) && Trimmed(Name(i)) && Trimmed(Name(j))
  {
    ParseDigits(i);
    ParseDigits(j);
    assert !IsDigit("a"[0]) && IsDigit(Digits(j)[0]);
  }

  function Keys(events: seq<Event>): (keys: seq<string>)
    ensures |keys| == |events| && forall i :: 0 <= i < |events| ==> keys[i] == DedupKey(events[i])
  {
    seq(|events|, i requires 0 <= i < |events| => DedupKey(events[i]))
  }

  /** One event, `n` other events of the same hour, and the first event again. */
  function Burst(n: nat): (events: seq<Event>)
    ensures |events| == n + 2 && events[0] == events[n + 1]
    ensures forall i :: 0 <= i <= n ==> events[i] == Titled(Name(i))
    ensures forall i :: 0 <= i < n + 2 ==> events[i].hour == HOUR
  {
    seq(n + 1, i requires 0 <= i < n + 1 => Titled(Name(i))) + [Titled(Name(0))]
  }

  /** A key, `cap` distinct other keys, and the key again. */
  ghost predicate WideBurst(keys: seq<string>, cap: nat) {
    && |keys| == cap + 2 && keys[0] == keys[cap + 1]
    && forall i, j :: 0 <= i < j <= cap ==> keys[i] != keys[j]
  }

  lemma BurstIsWide(n: nat)
    ensures WideBurst(Keys(Burst(n)), n)
  {
    forall i, j | 0 <= i < j <= n ensures Keys(Burst(n))[i] != Keys(Burst(n))[j] {
      NamesDiffer(i, j);
      TitledKeys(Name(i), Name(j));
    }
  }

  lemma WideIsRepeated(keys: seq<string>, cap: nat)
    requires cap > 0 && WideBurst(keys, cap)
    ensures Sends(keys, 0, cap) && Sends(keys, cap + 1, cap)
  {
    var between := keys[1..cap + 1];
    assert forall i :: 0 <= i < |between| ==> between[i] == keys[i + 1];
    assert Distinct(between) && keys[0] !in between;
    DistinctCount(between);
    SendsAgain(keys, 0, cap + 1, cap);
    assert keys[..0] == [];
  }

  /** As many other keys as the ring has places push a key out: it is sent twice in one hour. */
  lemma PushedOutIsRepeated(cap: nat) returns (events: seq<Event>)
    requires cap > 0
    ensures |events| == cap + 2 && events[0] == events[cap + 1]
    ensures forall i :: 0 <= i < |events| ==> events[i].hour == HOUR
    ensures Sends(Keys(events), 0, cap) && Sends(Keys(events), cap + 1, cap)
  {
    events := Burst(cap);
    BurstIsWide(cap);
    WideIsRepeated(Keys(events), cap);
  }
}
