/** Two counters fed by one event stream: the process metrics of soc_ai/metrics.py and the meter of
    one run of soc_ai/run_meter.py. */
module Meters {
  import opened Text

  const OUTPUT_TOOL := "final_result"

  /** The payload fields the two counters read; None when the event does not carry the field. */
  datatype Payload = Payload(
    toolName: Option<string>, phase: Option<string>, requests: Option<int>,
    inputTokens: Option<int>, outputTokens: Option<int>, runClass: Option<string>)

  datatype Event = Event(kind: string, payload: Payload)

  function OrElse(s: Option<string>, default: string): string {
    if s.Some? && s.value != "" then s.value else default
  }

  function OrZero(n: Option<int>): int {
    if n.Some? then n.value else 0
  }

  // ----- The process metrics -----

  type Phase = (string, string)

  datatype Snapshot = Snapshot(
    investigations: nat, errors: nat, retasks: nat, fallbacks: nat, zeroTools: nat, refusals: nat,
    tools: map<string, int>, tokens: map<Phase, int>)

  function Get<K>(m: map<K, int>, k: K): int {
    if k in m then m[k] else 0
  }

  /** The addition to one entry of a dictionary with default 0. */
  function Add<K>(m: map<K, int>, k: K, n: int): map<K, int> {
    m[k := Get(m, k) + n]
  }

  function Record(s: Snapshot, e: Event): Snapshot {
    var p := e.payload;
    if e.kind == "tool_call" then s.(tools := Add(s.tools, OrElse(p.toolName, "unknown"), 1))
    else if e.kind == "usage" then
      var phase := OrElse(p.phase, "unknown");
      var input := Add(s.tokens, (phase, "input"), OrZero(p.inputTokens));
      s.(tokens := Add(input, (phase, "output"), OrZero(p.outputTokens)))
    else if e.kind == "retask" then s.(retasks := s.retasks + 1)
    else if e.kind == "fallback_verdict" then s.(fallbacks := s.fallbacks + 1)
    else if e.kind == "zero_tool_verdict_blocked" then s.(zeroTools := s.zeroTools + 1)
    else if e.kind == "error" then s.(errors := s.errors + 1)
    else if e.kind == "done" then s.(investigations := s.investigations + 1)
    else s
  }

  // ----- What one event records, told from its payload alone -----

  /** The name of the tool called, or "unknown" without one. */
  predicate CallsTool(e: Event, tool: string) {
    && e.kind == "tool_call"
    && if e.payload.toolName == None || e.payload.toolName == Some("") then tool == "unknown"
       else e.payload.toolName == Some(tool)
  }

  /** The phase of a usage event, or "unknown" without one. */
  predicate UsesPhase(e: Event, phase: string) {
    && e.kind == "usage"
    && if e.payload.phase == None || e.payload.phase == Some("") then phase == "unknown"
       else e.payload.phase == Some(phase)
  }

  /** The number a usage event states in a field; one that is not stated is none. */
  function Stated(e: Event, field: Option<int>): int {
    match field
    case Some(n) => if e.kind == "usage" then n else 0
    case None => 0
  }

  /** The tokens a usage event states for a phase and direction. */
  function TokensIn(e: Event, k: Phase): int {
    if !UsesPhase(e, k.0) then 0
    else if k.1 == "input" then Stated(e, e.payload.inputTokens)
    else if k.1 == "output" then Stated(e, e.payload.outputTokens)
    else 0
  }

  predicate Raised<K>(before: map<K, int>, after: map<K, int>, k: K, n: int) {
    (if k in after then after[k] else 0) == (if k in before then before[k] else 0) + n
  }

  /** The counter of the event's kind goes up by one, the entry of its tool by one, the entries of its phase
      by its tokens, and nothing else moves. */
  ghost predicate Recorded(s: Snapshot, e: Event, t: Snapshot) {
    && t.investigations == s.investigations + (if e.kind == "done" then 1 else 0)
    && t.errors == s.errors + (if e.kind == "error" then 1 else 0)
    && t.retasks == s.retasks + (if e.kind == "retask" then 1 else 0)
    && t.fallbacks == s.fallbacks + (if e.kind == "fallback_verdict" then 1 else 0)
    && t.zeroTools == s.zeroTools + (if e.kind == "zero_tool_verdict_blocked" then 1 else 0)
    && t.refusals == s.refusals
    && (forall tool :: Raised(s.tools, t.tools, tool, if CallsTool(e, tool) then 1 else 0))
    && (forall k :: Raised(s.tokens, t.tokens, k, TokensIn(e, k)))
    && (forall tool :: tool in t.tools <==> tool in s.tools || CallsTool(e, tool))
    && (forall k :: k in t.tokens <==> k in s.tokens || (UsesPhase(e, k.0) && k.1 in {"input", "output"}))
  }

  lemma KindsDiffer()
    ensures "retask" !in {"tool_call", "usage", "fallback_verdict", "zero_tool_verdict_blocked", "error", "done"}
    ensures "fallback_verdict" !in {"tool_call", "usage", "zero_tool_verdict_blocked", "error", "done"}
    ensures "zero_tool_verdict_blocked" !in {"tool_call", "usage", "error", "done"}
    ensures "error" !in {"tool_call", "usage", "done"} && "done" !in {"tool_call", "usage"} && "tool_call" != "usage"
  {
    assert |"retask"| == 6 && |"tool_call"| == 9 && |"usage"| == 5 && |"fallback_verdict"| == 16;
    assert |"zero_tool_verdict_blocked"| == 25 && |"error"| == 5 && |"done"| == 4;
    assert "error"[0] != "usage"[0];
  }

  lemma ScalarsRecorded(s: Snapshot, e: Event)
    ensures var t := Record(s, e);
      && t.investigations == s.investigations + (if e.kind == "done" then 1 else 0)
      && t.errors == s.errors + (if e.kind == "error" then 1 else 0)
      && t.retasks == s.retasks + (if e.kind == "retask" then 1 else 0)
      && t.fallbacks == s.fallbacks + (if e.kind == "fallback_verdict" then 1 else 0)
      && t.zeroTools == s.zeroTools + (if e.kind == "zero_tool_verdict_blocked" then 1 else 0)
      && t.refusals == s.refusals
      && (e.kind != "tool_call" ==> t.tools == s.tools) && (e.kind != "usage" ==> t.tokens == s.tokens)
  {
    KindsDiffer();
  }

  lemma ToolsRecorded(s: Snapshot, e: Event, tool: string)
    ensures var t := Record(s, e);
      && Raised(s.tools, t.tools, tool, if CallsTool(e, tool) then 1 else 0)
      && (tool in t.tools <==> tool in s.tools || CallsTool(e, tool))
  {
    ScalarsRecorded(s, e);
  }

  lemma TokensRecorded(s: Snapshot, e: Event, k: Phase)
    ensures var t := Record(s, e);
      && Raised(s.tokens, t.tokens, k, TokensIn(e, k))
      && (k in t.tokens <==> k in s.tokens || (UsesPhase(e, k.0) && k.1 in {"input", "output"}))
  {
    KindsDiffer();
    ScalarsRecorded(s, e);
    assert "input"[0] != "output"[0];
  }

  lemma RecordExactly(s: Snapshot, e: Event)
    ensures Recorded(s, e, Record(s, e))
  {
    ScalarsRecorded(s, e);
    forall tool ensures Raised(s.tools, Record(s, e).tools, tool, if CallsTool(e, tool) then 1 else 0)
      ensures tool in Record(s, e).tools <==> tool in s.tools || CallsTool(e, tool)
    {
      ToolsRecorded(s, e, tool);
    }
    forall k ensures Raised(s.tokens, Record(s, e).tokens, k, TokensIn(e, k))
      ensures k in Record(s, e).tokens <==> k in s.tokens || (UsesPhase(e, k.0) && k.1 in {"input", "output"})
    {
      TokensRecorded(s, e, k);
    }
  }

  lemma UsageRaises(s: Snapshot, e: Event)
    ensures var p := e.payload; e.kind == "usage" && p.phase.Some? && p.phase.value != "" ==>
      && (p.inputTokens.Some? ==>
            Raised(s.tokens, Record(s, e).tokens, (p.phase.value, "input"), p.inputTokens.value))
      && (p.outputTokens.Some? ==>
            Raised(s.tokens, Record(s, e).tokens, (p.phase.value, "output"), p.outputTokens.value))
  {
    if e.kind == "usage" && e.payload.phase.Some? && e.payload.phase.value != "" {
      TokensRecorded(s, e, (e.payload.phase.value, "input"));
      TokensRecorded(s, e, (e.payload.phase.value, "output"));
      assert "input"[0] != "output"[0];
    }
  }

  const NOTHING := Snapshot(0, 0, 0, 0, 0, 0, map[], map[])

  class Metrics {
    var investigationsTotal: nat
    var errorsTotal: nat
    var retasksTotal: nat
    var fallbackVerdictsTotal: nat
    var zeroToolVerdictsTotal: nat
    var oracleRefusalsTotal: nat
    var toolCallsTotal: map<string, int>
    var llmTokensTotal: map<Phase, int>

    constructor ()
      ensures Snap() == NOTHING
    {
      investigationsTotal, errorsTotal, retasksTotal, fallbackVerdictsTotal := 0, 0, 0, 0;
      zeroToolVerdictsTotal, oracleRefusalsTotal := 0, 0;
      toolCallsTotal, llmTokensTotal := map[], map[];
    }

    function Snap(): Snapshot
      reads this
    {
      Snapshot(investigationsTotal, errorsTotal, retasksTotal, fallbackVerdictsTotal,
               zeroToolVerdictsTotal, oracleRefusalsTotal, toolCallsTotal, llmTokensTotal)
    }

    method RecordEvent(kind: string, payload: Payload)
      modifies this
      // A usage event raises the entries of its phase by exactly the tokens it states.
      ensures kind == "usage" && payload.phase.Some? && payload.phase.value != "" && payload.inputTokens.Some? ==>
        Raised(old(llmTokensTotal), llmTokensTotal, (payload.phase.value, "input"), payload.inputTokens.value)
      ensures kind == "usage" && payload.phase.Some? && payload.phase.value != "" && payload.outputTokens.Some? ==>
        Raised(old(llmTokensTotal), llmTokensTotal, (payload.phase.value, "output"), payload.outputTokens.value)
      ensures Recorded(old(Snap()), Event(kind, payload), Snap())
      ensures Snap() == Record(old(Snap()), Event(kind, payload))
    {
      RecordExactly(Snap(), Event(kind, payload));
      UsageRaises(Snap(), Event(kind, payload));
      if kind == "tool_call" {
        var tool := OrElse(payload.toolName, "unknown");
        toolCallsTotal := Add(toolCallsTotal, tool, 1);
      } else if kind == "usage" {
        var phase := OrElse(payload.phase, "unknown");
        llmTokensTotal := Add(llmTokensTotal, (phase, "input"), OrZero(payload.inputTokens));
        llmTokensTotal := Add(llmTokensTotal, (phase, "output"), OrZero(payload.outputTokens));
      } else if kind == "retask" {
        retasksTotal := retasksTotal + 1;
      } else if kind == "fallback_verdict" {
        fallbackVerdictsTotal := fallbackVerdictsTotal + 1;
      } else if kind == "zero_tool_verdict_blocked" {
        zeroToolVerdictsTotal := zeroToolVerdictsTotal + 1;
      } else if kind == "error" {
        errorsTotal := errorsTotal + 1;
      } else if kind == "done" {
        investigationsTotal := investigationsTotal + 1;
      }
    }

    method RecordOracleRefusal()
      modifies this
      ensures Snap() == old(Snap()).(refusals := old(Snap()).refusals + 1)
    {
      oracleRefusalsTotal := oracleRefusalsTotal + 1;
    }
  }

  // ----- The meter of one run -----

  datatype Counts = Counts(
    modelRequests: int, inputTokens: int, outputTokens: int, toolCalls: int,
    esSearches: Option<nat>, wallMs: int, runClass: Option<string>)

  const NO_COUNTS := Counts(0, 0, 0, 0, None, 0, None)

  function Counted(c: Counts, e: Event): Counts {
    var p := e.payload;
    if e.kind == "usage" then
      c.(modelRequests := c.modelRequests + OrZero(p.requests),
         inputTokens := c.inputTokens + OrZero(p.inputTokens),
         outputTokens := c.outputTokens + OrZero(p.outputTokens))
    else if e.kind == "tool_call" then
      if p.toolName == Some(OUTPUT_TOOL) then c else c.(toolCalls := c.toolCalls + 1)
    else if e.kind == "targeted_dispatch" then c.(toolCalls := c.toolCalls + 1)
    else c
  }

  function Classified(c: Counts, p: Payload): Counts {
    if p.runClass.Some? && p.runClass.value != "" then c.(runClass := p.runClass) else c
  }

  function Observed(c: Counts, e: Event): Counts {
    Classified(Counted(c, e), e.payload)
  }

  /** An event adds its requests and tokens, and a call if it ran a tool; the last class stated stands. */
  ghost predicate Metered(c: Counts, e: Event, d: Counts) {
    && d.modelRequests == c.modelRequests + Stated(e, e.payload.requests)
    && d.inputTokens == c.inputTokens + Stated(e, e.payload.inputTokens)
    && d.outputTokens == c.outputTokens + Stated(e, e.payload.outputTokens)
    && d.toolCalls == c.toolCalls
         + (if (e.kind == "tool_call" && e.payload.toolName != Some("final_result")) || e.kind == "targeted_dispatch"
            then 1 else 0)
    && d.runClass == (if e.payload.runClass in {None, Some("")} then c.runClass else e.payload.runClass)
    && d.esSearches == c.esSearches && d.wallMs == c.wallMs
  }

  /** A usage event raises each counter by exactly the number it states. */
  ghost predicate RaisedAsStated(c: Counts, p: Payload, d: Counts) {
    && (p.requests.Some? ==> d.modelRequests == c.modelRequests + p.requests.value)
    && (p.inputTokens.Some? ==> d.inputTokens == c.inputTokens + p.inputTokens.value)
    && (p.outputTokens.Some? ==> d.outputTokens == c.outputTokens + p.outputTokens.value)
  }

  lemma UsageRaisesCounts(c: Counts, e: Event)
    ensures e.kind == "usage" ==> RaisedAsStated(c, e.payload, Observed(c, e))
  {
  }

  lemma ObservedExactly(c: Counts, e: Event)
    ensures Metered(c, e, Observed(c, e))
  {
    assert |"tool_call"| == 9 && |"usage"| == 5 && |"targeted_dispatch"| == 17;
  }

  class SearchMeter {
    var searches: nat
    constructor ()
      ensures searches == 0
    {
      searches := 0;
    }

    method CountSearch()
      modifies this
      ensures searches == old(searches) + 1
    {
      searches := searches + 1;
    }
  }

  class RunCounters {
    var modelRequests: int
    var inputTokens: int
    var outputTokens: int
    var toolCalls: int
    var esSearches: Option<nat>
    var wallMs: int
    var runClass: Option<string>

    constructor ()
      ensures Value() == NO_COUNTS
    {
      modelRequests, inputTokens, outputTokens, toolCalls := 0, 0, 0, 0;
      esSearches, wallMs, runClass := None, 0, None;
    }

    function Value(): Counts
      reads this
    {
      Counts(modelRequests, inputTokens, outputTokens, toolCalls, esSearches, wallMs, runClass)
    }

    method Count(kind: string, payload: Payload)
      modifies this
      ensures Value() == Counted(old(Value()), Event(kind, payload))
    {
      if kind == "usage" {
        modelRequests := modelRequests + OrZero(payload.requests);
        inputTokens := inputTokens + OrZero(payload.inputTokens);
        outputTokens := outputTokens + OrZero(payload.outputTokens);
      } else if kind == "tool_call" {
        if payload.toolName != Some(OUTPUT_TOOL) {
          toolCalls := toolCalls + 1;
        }
      } else if kind == "targeted_dispatch" {
        toolCalls := toolCalls + 1;
      }
    }

    /** The last class stated wins. */
    method Classify(payload: Payload)
      modifies this
      ensures Value() == Classified(old(Value()), payload)
    {
      if payload.runClass.Some? && payload.runClass.value != "" {
        runClass := payload.runClass;
      }
    }
  }

  /** What the events alone determine: everything but the readings a finish takes. */
  function Tally(c: Counts): Counts {
    c.(esSearches := None, wallMs := 0)
  }

  lemma TallyNext(seen: seq<Event>, c: Counts, e: Event)
    requires Tally(c) == ObserveAll(seen)
    ensures Tally(Observed(c, e)) == ObserveAll(seen + [e])
  {
    assert (seen + [e])[..|seen|] == seen;
  }

  /** `seen` is every event the meter was shown, before or after any finish. */
  class RunMeter {
    const started: int
    const counters: RunCounters
    var search: SearchMeter?
    ghost var seen: seq<Event>

    ghost predicate Valid()
      reads this, counters
    {
      Tally(counters.Value()) == ObserveAll(seen)
    }

    constructor (now: int)
      ensures Valid() && seen == [] && started == now && search == null
      ensures fresh(counters) && counters.Value() == NO_COUNTS
    {
      started, search, seen := now, null, [];
      counters := new RunCounters();
    }

    method AttachSearchMeter(meter: SearchMeter)
      requires Valid()
      modifies this`search
      ensures Valid() && search == meter
    {
      search := meter;
    }

    method Observe(kind: string, payload: Payload)
      requires Valid()
      modifies this`seen, counters
      ensures Valid() && seen == old(seen) + [Event(kind, payload)]
      ensures kind == "usage" ==> RaisedAsStated(old(counters.Value()), payload, counters.Value())
      ensures Metered(old(counters.Value()), Event(kind, payload), counters.Value())
      ensures counters.Value() == Observed(old(counters.Value()), Event(kind, payload))
    {
      ObservedExactly(counters.Value(), Event(kind, payload));
      UsageRaisesCounts(counters.Value(), Event(kind, payload));
      TallyNext(seen, counters.Value(), Event(kind, payload));
      counters.Count(kind, payload);
      counters.Classify(payload);
      seen := seen + [Event(kind, payload)];
    }

    /** The counters as of now, in the meter's own object, so a later event still reaches them: the
        tally of every event seen, the wall time, and the reads of the attached meter. Finishing again
        with no event between therefore changes no more than these two readings. `now` is
        microseconds, not before the start. */
    method Finish(now: int) returns (c: RunCounters)
      requires Valid() && started <= now
      modifies counters
      ensures Valid() && c == counters
      ensures c.Value() == ObserveAll(seen).(
        wallMs := (now - started) / 1000,
        esSearches := if search == null then None else Some(search.searches))
      ensures Tally(c.Value()) == old(Tally(c.Value()))
    {
      c := counters;
      c.wallMs := (now - started) / 1000;
      c.esSearches := if search == null then None else Some(search.searches);
    }
  }

  // ----- Both over one stream -----

  function RecordAll(events: seq<Event>): Snapshot {
    if events == [] then NOTHING else Record(RecordAll(events[..|events| - 1]), events[|events| - 1])
  }

  function ObserveAll(events: seq<Event>): Counts {
    if events == [] then NO_COUNTS else Observed(ObserveAll(events[..|events| - 1]), events[|events| - 1])
  }

  function Dispatches(events: seq<Event>): nat {
    if events == [] then 0
    else Dispatches(events[..|events| - 1]) + (if events[|events| - 1].kind == "targeted_dispatch" then 1 else 0)
  }

  /** The sum of the values of a map. */
  ghost function Sum<K>(m: map<K, int>): int {
    if m == map[] then 0
    else
      var k :| k in m;
      m[k] + Sum(m - {k})
  }

  lemma {:induction false} SumSplit<K>(m: map<K, int>, k: K)
    requires k in m
    ensures Sum(m) == m[k] + Sum(m - {k})
    decreases |m|
  {
    var j :| j in m && Sum(m) == m[j] + Sum(m - {j});
    if j != k {
      SumSplit(m - {j}, k);
      SumSplit(m - {k}, j);
      assert m - {j} - {k} == m - {k} - {j};
    }
  }

  lemma SumAdd<K>(m: map<K, int>, k: K, n: int)
    ensures Sum(Add(m, k, n)) == Sum(m) + n
  {
    var m' := Add(m, k, n);
    SumSplit(m', k);
    if k in m {
      SumSplit(m, k);
      assert m' - {k} == m - {k};
    } else {
      assert m' - {k} == m;
    }
  }

  ghost function TokensOf(tokens: map<Phase, int>, direction: string): map<Phase, int> {
    map k | k in tokens && k.1 == direction :: tokens[k]
  }

  lemma TokensAdd(tokens: map<Phase, int>, k: Phase, n: int, direction: string)
    ensures Sum(TokensOf(Add(tokens, k, n), direction)) ==
      Sum(TokensOf(tokens, direction)) + (if k.1 == direction then n else 0)
  {
    if k.1 == direction {
      SumAdd(TokensOf(tokens, direction), k, n);
      assert TokensOf(Add(tokens, k, n), direction) == Add(TokensOf(tokens, direction), k, n);
    } else {
      assert TokensOf(Add(tokens, k, n), direction) == TokensOf(tokens, direction);
    }
  }

  ghost function ToolsRun(tools: map<string, int>): map<string, int> {
    tools - {OUTPUT_TOOL}
  }

  lemma ToolsAdd(tools: map<string, int>, tool: string)
    ensures Sum(ToolsRun(Add(tools, tool, 1))) == Sum(ToolsRun(tools)) + (if tool == OUTPUT_TOOL then 0 else 1)
  {
    if tool == OUTPUT_TOOL {
      assert ToolsRun(Add(tools, tool, 1)) == ToolsRun(tools);
    } else {
      SumAdd(ToolsRun(tools), tool, 1);
      assert ToolsRun(Add(tools, tool, 1)) == Add(ToolsRun(tools), tool, 1);
    }
  }

  ghost predicate Agree(s: Snapshot, c: Counts, dispatches: nat) {
    && c.toolCalls == Sum(ToolsRun(s.tools)) + dispatches
    && c.inputTokens == Sum(TokensOf(s.tokens, "input"))
    && c.outputTokens == Sum(TokensOf(s.tokens, "output"))
  }

  lemma ToolCallAgrees(s: Snapshot, c: Counts, dispatches: nat, p: Payload)
    requires Agree(s, c, dispatches)
    ensures Agree(Record(s, Event("tool_call", p)), Observed(c, Event("tool_call", p)), dispatches)
  {
    ToolsAdd(s.tools, OrElse(p.toolName, "unknown"));
    assert OrElse(p.toolName, "unknown") == OUTPUT_TOOL <==> p.toolName == Some(OUTPUT_TOOL);
  }

  lemma UsageAgrees(s: Snapshot, c: Counts, dispatches: nat, p: Payload)
    requires Agree(s, c, dispatches)
    ensures Agree(Record(s, Event("usage", p)), Observed(c, Event("usage", p)), dispatches)
  {
    assert "usage"[0] != "tool_call"[0];
    UsageAdds(s.tokens, OrElse(p.phase, "unknown"), OrZero(p.inputTokens), OrZero(p.outputTokens));
  }

  lemma DispatchAgrees(s: Snapshot, c: Counts, dispatches: nat, p: Payload)
    requires Agree(s, c, dispatches)
    ensures var e := Event("targeted_dispatch", p); Agree(Record(s, e), Observed(c, e), dispatches + 1)
  {
    KindsApart();
  }

  lemma OtherAgrees(s: Snapshot, c: Counts, dispatches: nat, e: Event)
    requires Agree(s, c, dispatches) && e.kind !in {"tool_call", "usage", "targeted_dispatch"}
    ensures Agree(Record(s, e), Observed(c, e), dispatches)
  {
  }

  lemma KindsApart()
    ensures "tool_call" != "targeted_dispatch" && "usage" != "targeted_dispatch" && "tool_call" != "usage"
    ensures "targeted_dispatch" !in {"retask", "fallback_verdict", "zero_tool_verdict_blocked", "error", "done"}
  {
    assert |"tool_call"| == 9 && |"usage"| == 5 && |"targeted_dispatch"| == 17;
    assert |"retask"| == 6 && |"fallback_verdict"| == 16 && |"error"| == 5 && |"done"| == 4;
    assert |"zero_tool_verdict_blocked"| == 25;
  }

  lemma StepAgrees(s: Snapshot, c: Counts, dispatches: nat, e: Event)
    requires Agree(s, c, dispatches)
    ensures Agree(Record(s, e), Observed(c, e), dispatches + (if e.kind == "targeted_dispatch" then 1 else 0))
  {
    KindsApart();
    if e.kind == "tool_call" {
      ToolCallAgrees(s, c, dispatches, e.payload);
    } else if e.kind == "usage" {
      UsageAgrees(s, c, dispatches, e.payload);
    } else if e.kind == "targeted_dispatch" {
      DispatchAgrees(s, c, dispatches, e.payload);
    } else {
      OtherAgrees(s, c, dispatches, e);
    }
  }

  /** Main result: on every stream the run meter's tool calls are the metrics' tool counts without the
      output tool plus the dispatches, and its token totals are theirs summed over the phases. */
  lemma {:induction false} FoldsAgree(events: seq<Event>)
    ensures Agree(RecordAll(events), ObserveAll(events), Dispatches(events))
  {
    if events == [] {
      assert ToolsRun(map[]) == map[];
    } else {
      var front := events[..|events| - 1];
      FoldsAgree(front);
      StepAgrees(RecordAll(front), ObserveAll(front), Dispatches(front), events[|events| - 1]);
    }
  }

  lemma UsageAdds(tokens: map<Phase, int>, phase: string, input: int, output: int)
    ensures var after := Add(Add(tokens, (phase, "input"), input), (phase, "output"), output);
      && Sum(TokensOf(after, "input")) == Sum(TokensOf(tokens, "input")) + input
      && Sum(TokensOf(after, "output")) == Sum(TokensOf(tokens, "output")) + output
  {
    var half := Add(tokens, (phase, "input"), input);
    TokensAdd(tokens, (phase, "input"), input, "input");
    TokensAdd(tokens, (phase, "input"), input, "output");
    TokensAdd(half, (phase, "output"), output, "input");
    TokensAdd(half, (phase, "output"), output, "output");
    assert "input"[0] != "output"[0];
  }

  function KindCount(events: seq<Event>, kind: string): nat {
    if events == [] then 0
    else KindCount(events[..|events| - 1], kind) + (if events[|events| - 1].kind == kind then 1 else 0)
  }

  /** The calls of one tool; a call without a name is one of the tool "unknown". */
  function CallCount(events: seq<Event>, tool: string): nat {
    if events == [] then 0
    else
      var e := events[|events| - 1];
      CallCount(events[..|events| - 1], tool)
      + (if CallsTool(e, tool) then 1 else 0)
  }

  function TokenSum(events: seq<Event>, k: Phase): int {
    if events == [] then 0 else TokenSum(events[..|events| - 1], k) + TokensIn(events[|events| - 1], k)
  }

  lemma {:induction false} TokensAreSums(events: seq<Event>, k: Phase)
    ensures Get(RecordAll(events).tokens, k) == TokenSum(events, k)
  {
    if events != [] {
      TokensAreSums(events[..|events| - 1], k);
      TokensRecorded(RecordAll(events[..|events| - 1]), events[|events| - 1], k);
    }
  }

  ghost predicate CountsKinds(s: Snapshot, events: seq<Event>) {
    && s.investigations == KindCount(events, "done") && s.errors == KindCount(events, "error")
    && s.retasks == KindCount(events, "retask") && s.fallbacks == KindCount(events, "fallback_verdict")
    && s.zeroTools == KindCount(events, "zero_tool_verdict_blocked") && s.refusals == 0
  }

  lemma RecordCountsKinds(s: Snapshot, events: seq<Event>, e: Event)
    requires CountsKinds(s, events)
    ensures CountsKinds(Record(s, e), events + [e])
  {
    KindsDiffer();
    assert (events + [e])[..|events|] == events;
  }

  lemma {:induction false} KindsAreCounted(events: seq<Event>)
    ensures CountsKinds(RecordAll(events), events)
  {
    if events != [] {
      var front, e := events[..|events| - 1], events[|events| - 1];
      KindsAreCounted(front);
      RecordCountsKinds(RecordAll(front), front, e);
      assert events == front + [e];
    }
  }

  lemma {:induction false} CallsAreCounted(events: seq<Event>, tool: string)
    ensures Get(RecordAll(events).tools, tool) == CallCount(events, tool)
  {
    if events != [] {
      CallsAreCounted(events[..|events| - 1], tool);
    }
  }

  /** Every counter is the number of events of its kind, every tool entry the calls of that tool, and
      every token entry the sum of that field over the usage events of its phase. */
  lemma CountersCountEvents(events: seq<Event>, tool: string, k: Phase)
    ensures var s := RecordAll(events);
      && s.investigations == KindCount(events, "done") && s.errors == KindCount(events, "error")
      && s.retasks == KindCount(events, "retask") && s.fallbacks == KindCount(events, "fallback_verdict")
      && s.zeroTools == KindCount(events, "zero_tool_verdict_blocked") && s.refusals == 0
      && Get(s.tools, tool) == CallCount(events, tool)
      && Get(s.tokens, k) == TokenSum(events, k)
  {
    KindsAreCounted(events);
    CallsAreCounted(events, tool);
    TokensAreSums(events, k);
  }

  /** The counts of two streams, before any finish. */
  function Together(x: Counts, y: Counts): Counts {
    Counts(x.modelRequests + y.modelRequests, x.inputTokens + y.inputTokens, x.outputTokens + y.outputTokens,
           x.toolCalls + y.toolCalls, None, 0, if y.runClass.Some? then y.runClass else x.runClass)
  }

  lemma TogetherNext(x: Counts, y: Counts, e: Event)
    ensures Observed(Together(x, y), e) == Together(x, Observed(y, e))
  {
  }

  function RequestSum(events: seq<Event>): int {
    if events == [] then 0
    else
      var e := events[|events| - 1];
      RequestSum(events[..|events| - 1]) + Stated(e, e.payload.requests)
  }

  /** The model requests of a run are those its usage events state. */
  lemma {:induction false} RequestsAreSums(events: seq<Event>)
    ensures ObserveAll(events).modelRequests == RequestSum(events)
  {
    if events != [] {
      RequestsAreSums(events[..|events| - 1]);
      ObservedExactly(ObserveAll(events[..|events| - 1]), events[|events| - 1]);
    }
  }

  /** Observing two streams one after the other adds the counters and keeps the last class stated. */
  lemma {:induction false} ObserveAppend(a: seq<Event>, b: seq<Event>)
    ensures ObserveAll(a + b) == Together(ObserveAll(a), ObserveAll(b))
  {
    if b == [] {
      assert a + b == a;
      NeverFinished(a);
    } else {
      var front := b[..|b| - 1];
      assert (a + b)[..|a + b| - 1] == a + front;
      ObserveAppend(a, front);
      TogetherNext(ObserveAll(a), ObserveAll(front), b[|b| - 1]);
    }
  }

  lemma {:induction false} NeverFinished(events: seq<Event>)
    ensures ObserveAll(events).esSearches == None && ObserveAll(events).wallMs == 0
    ensures ObserveAll(events).runClass.Some? ==> ObserveAll(events).runClass.value != ""
  {
    if events != [] {
      NeverFinished(events[..|events| - 1]);
    }
  }
}
