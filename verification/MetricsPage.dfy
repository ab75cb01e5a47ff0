/** The whole metrics page: what it prints for a state of the counters, and reading it back. */
module MetricsPage {
  import opened Text
  import opened Meters
  import opened Exposition

  const BUILD_INFO := "socai_build_info"
  const UPTIME := "socai_uptime_seconds"
  const INVESTIGATIONS := "socai_investigations_total"
  const ERRORS := "socai_investigation_errors_total"
  const RETASKS := "socai_investigation_retasks_total"
  const FALLBACKS := "socai_investigation_fallback_verdicts_total"
  const ZERO_TOOLS := "socai_investigation_zero_tool_verdicts_total"
  const REFUSALS := "socai_oracle_refusals_total"
  const TOOL_CALLS := "socai_tool_calls_total"
  const TOKENS := "socai_llm_tokens_total"

  // ----- Sorted keys -----

  predicate PhaseLe(a: Phase, b: Phase) {
    if a.0 == b.0 then StrLe(a.1, b.1) else StrLe(a.0, b.0)
  }

  ghost predicate TotalOrder<K(!new)>(le: (K, K) -> bool) {
    && (forall a, b :: le(a, b) || le(b, a))
    && (forall a, b :: le(a, b) && le(b, a) ==> a == b)
    && (forall a, b, c :: le(a, b) && le(b, c) ==> le(a, c))
  }

  lemma StringsOrdered()
    ensures TotalOrder(StrLe)
  {
    forall a, b ensures StrLe(a, b) || StrLe(b, a)
      ensures StrLe(a, b) && StrLe(b, a) ==> a == b
    {
      StrLeTotal(a, b);
    }
    forall a, b, c | StrLe(a, b) && StrLe(b, c) ensures StrLe(a, c) {
      StrLeTransitive(a, b, c);
    }
  }

  lemma PhasesOrdered()
    ensures TotalOrder(PhaseLe)
  {
    forall a: Phase, b: Phase ensures PhaseLe(a, b) || PhaseLe(b, a)
      ensures PhaseLe(a, b) && PhaseLe(b, a) ==> a == b
    {
      StrLeTotal(a.0, b.0);
      StrLeTotal(a.1, b.1);
    }
    forall a: Phase, b: Phase, c: Phase | PhaseLe(a, b) && PhaseLe(b, c) ensures PhaseLe(a, c) {
      StrLeTotal(a.0, b.0);
      StrLeTotal(b.0, c.0);
      if a.0 == b.0 == c.0 {
        StrLeTransitive(a.1, b.1, c.1);
      } else {
        StrLeTransitive(a.0, b.0, c.0);
      }
    }
  }

  /** Keys of two parts are ordered by the first, and by the second where the first are equal. */
  ghost predicate PhasePrecedes(a: Phase, b: Phase) {
    if a.0 == b.0 then Precedes(a.1, b.1) else Precedes(a.0, b.0)
  }

  lemma PhaseLePrecedes(a: Phase, b: Phase)
    ensures PhaseLe(a, b) <==> PhasePrecedes(a, b)
  {
    StrLePrecedes(a.0, b.0);
    StrLePrecedes(a.1, b.1);
  }

  lemma InDictionaryOrder(tools: seq<string>, phases: seq<Phase>, toolKeys: set<string>, phaseKeys: set<Phase>)
    requires Enumerates(tools, toolKeys, StrLe) && Enumerates(phases, phaseKeys, PhaseLe)
    ensures forall i, j :: 0 <= i < j < |tools| ==> tools[i] != tools[j] && Precedes(tools[i], tools[j])
    ensures forall i, j :: 0 <= i < j < |phases| ==> phases[i] != phases[j] && PhasePrecedes(phases[i], phases[j])
  {
    forall i, j | 0 <= i < j < |tools| ensures tools[i] != tools[j] && Precedes(tools[i], tools[j]) {
      StrLePrecedes(tools[i], tools[j]);
    }
    forall i, j | 0 <= i < j < |phases| ensures phases[i] != phases[j] && PhasePrecedes(phases[i], phases[j]) {
      PhaseLePrecedes(phases[i], phases[j]);
    }
  }

  /** All of the keys, each once, in order. */
  ghost predicate Enumerates<K(!new)>(s: seq<K>, keys: set<K>, le: (K, K) -> bool) {
    && (forall k :: k in s <==> k in keys)
    && (forall i, j :: 0 <= i < j < |s| ==> le(s[i], s[j]) && s[i] != s[j])
  }

  lemma {:induction false} LeastKey<K(!new)>(keys: set<K>, le: (K, K) -> bool) returns (least: K)
    requires TotalOrder(le) && keys != {}
    ensures least in keys && forall k :: k in keys ==> le(least, k)
    decreases |keys|
  {
    var k :| k in keys;
    if keys == {k} {
      least := k;
    } else {
      var m := LeastKey(keys - {k}, le);
      least := if le(m, k) then m else k;
      assert forall x :: x in keys ==> x == k || x in keys - {k};
    }
  }

  method SortKeys<K(!new, ==)>(keys: set<K>, le: (K, K) -> bool) returns (s: seq<K>)
    requires TotalOrder(le)
    ensures Enumerates(s, keys, le)
  {
    s := [];
    var left := keys;
    while left != {}
      invariant left <= keys && (forall k :: k in s <==> k in keys - left)
      invariant forall i, j :: 0 <= i < j < |s| ==> le(s[i], s[j]) && s[i] != s[j]
      invariant forall i :: 0 <= i < |s| ==> s[i] !in left
      invariant forall i, k :: 0 <= i < |s| && k in left ==> le(s[i], k)
      decreases left
    {
      ghost var least := LeastKey(left, le);
      var k :| k in left && forall x :: x in left ==> le(k, x);
      s := s + [k];
      left := left - {k};
    }
  }

  // ----- The samples of a state -----

  function Plain(name: string, value: int): Sample {
    Sample(name, [], value)
  }

  function ToolSamples(tools: map<string, int>, keys: seq<string>): (ss: seq<Sample>)
    requires forall k :: k in keys ==> k in tools
    ensures |ss| == |keys|
    ensures forall i :: 0 <= i < |keys| ==> ss[i] == Sample(TOOL_CALLS, [Label("tool", keys[i])], tools[keys[i]])
  {
    if keys == [] then []
    else [Sample(TOOL_CALLS, [Label("tool", keys[0])], tools[keys[0]])] + ToolSamples(tools, keys[1..])
  }

  function TokenSamples(tokens: map<Phase, int>, keys: seq<Phase>): (ss: seq<Sample>)
    requires forall k :: k in keys ==> k in tokens
    ensures |ss| == |keys|
    ensures forall i :: 0 <= i < |keys| ==>
      ss[i] == Sample(TOKENS, [Label("phase", keys[i].0), Label("direction", keys[i].1)], tokens[keys[i]])
  {
    if keys == [] then []
    else
      [Sample(TOKENS, [Label("phase", keys[0].0), Label("direction", keys[0].1)], tokens[keys[0]])]
      + TokenSamples(tokens, keys[1..])
  }

  // ----- The page -----

  function Head(name: string, help: string, kind: string): seq<string> {
    ["# HELP " + (name + (" " + help)), "# TYPE " + (name + (" " + kind))]
  }

  function Printed(samples: seq<Sample>): (lines: seq<string>)
    ensures |lines| == |samples| && forall i :: 0 <= i < |lines| ==> lines[i] == PrintSample(samples[i])
  {
    seq(|samples|, i requires 0 <= i < |samples| => PrintSample(samples[i]))
  }

  /** One metric: two comment lines and its samples. */
  datatype Family = Family(name: string, help: string, kind: string, samples: seq<Sample>)

  function FamilyLines(f: Family): seq<string> {
    Head(f.name, f.help, f.kind) + Printed(f.samples)
  }

  function LinesOf(fs: seq<Family>): seq<string> {
    if fs == [] then [] else FamilyLines(fs[0]) + LinesOf(fs[1..])
  }

  function SamplesOf(fs: seq<Family>): seq<Sample> {
    if fs == [] then [] else fs[0].samples + SamplesOf(fs[1..])
  }

  /** The ten metrics in page order. The wording of the help lines is left open. */
  function Families(s: Snapshot, version: string, uptime: int,
                    tools: seq<string>, phases: seq<Phase>, helps: seq<string>): seq<Family>
    requires (forall k :: k in tools ==> k in s.tools) && (forall k :: k in phases ==> k in s.tokens)
    requires |helps| == 10
  {
    [ Family(BUILD_INFO, helps[0], "gauge", [Sample(BUILD_INFO, [Label("version", version)], 1)]),
      Family(UPTIME, helps[1], "gauge", [Plain(UPTIME, uptime)]),
      Family(INVESTIGATIONS, helps[2], "counter", [Plain(INVESTIGATIONS, s.investigations)]),
      Family(ERRORS, helps[3], "counter", [Plain(ERRORS, s.errors)]),
      Family(RETASKS, helps[4], "counter", [Plain(RETASKS, s.retasks)]),
      Family(FALLBACKS, helps[5], "counter", [Plain(FALLBACKS, s.fallbacks)]),
      Family(ZERO_TOOLS, helps[6], "counter", [Plain(ZERO_TOOLS, s.zeroTools)]),
      Family(REFUSALS, helps[7], "counter", [Plain(REFUSALS, s.refusals)]),
      Family(TOOL_CALLS, helps[8], "counter", ToolSamples(s.tools, tools)),
      Family(TOKENS, helps[9], "counter", TokenSamples(s.tokens, phases)) ]
  }

  /** Lines joined by newlines, with one at the end. */
  function PageOf(fs: seq<Family>): string {
    Join(LinesOf(fs) + [""], '\n')
  }

  /** The page for the current state. `tools` and `phases` are the sorted keys of the two maps. */
  method Render(m: Metrics, version: string, uptime: int, helps: seq<string>)
    returns (text: string, tools: seq<string>, phases: seq<Phase>)
    requires |helps| == 10
    ensures forall i, j :: 0 <= i < j < |tools| ==> tools[i] != tools[j] && Precedes(tools[i], tools[j])
    ensures forall i, j :: 0 <= i < j < |phases| ==> phases[i] != phases[j] && PhasePrecedes(phases[i], phases[j])
    ensures Enumerates(tools, m.toolCallsTotal.Keys, StrLe)
    ensures Enumerates(phases, m.llmTokensTotal.Keys, PhaseLe)
    ensures text == PageOf(Families(m.Snap(), version, uptime, tools, phases, helps))
  {
    StringsOrdered();
    PhasesOrdered();
    var s := m.Snap();
    tools := SortKeys(s.tools.Keys, StrLe);
    phases := SortKeys(s.tokens.Keys, PhaseLe);
    InDictionaryOrder(tools, phases, s.tools.Keys, s.tokens.Keys);
    text := RenderFamilies(Families(s, version, uptime, tools, phases, helps));
  }

  method RenderFamilies(families: seq<Family>) returns (text: string)
    ensures text == PageOf(families)
  {
    var lines: seq<string> := [];
    for i := 0 to |families|
      invariant lines + LinesOf(families[i..]) == LinesOf(families)
    {
      var block := RenderFamily(families[i]);
      LinesOn(lines, families, i);
      lines := lines + block;
    }
    assert families[|families|..] == [] && lines + [] == lines;
    text := Join(lines + [""], '\n');
  }

  lemma LinesNext(fs: seq<Family>, i: nat)
    requires i < |fs|
    ensures LinesOf(fs[i..]) == FamilyLines(fs[i]) + LinesOf(fs[i + 1..])
  {
    assert fs[i..][1..] == fs[i + 1..];
  }

  /** One family moves from the lines to come to the lines done. */
  lemma LinesOn(lines: seq<string>, fs: seq<Family>, i: nat)
    requires i < |fs|
    ensures lines + LinesOf(fs[i..]) == lines + FamilyLines(fs[i]) + LinesOf(fs[i + 1..])
  {
    LinesNext(fs, i);
  }

  lemma PrintedNext(samples: seq<Sample>, j: nat)
    requires j < |samples|
    ensures Printed(samples)[..j + 1] == Printed(samples)[..j] + [PrintSample(samples[j])]
  {
  }

  method RenderFamily(f: Family) returns (block: seq<string>)
    ensures |block| == 2 + |f.samples|
    ensures block[0] == "# HELP " + (f.name + (" " + f.help)) && block[1] == "# TYPE " + (f.name + (" " + f.kind))
    ensures block == FamilyLines(f)
  {
    block := ["# HELP " + (f.name + (" " + f.help)), "# TYPE " + (f.name + (" " + f.kind))];
    ghost var printed := Printed(f.samples);
    for j := 0 to |f.samples|
      invariant block == Head(f.name, f.help, f.kind) + printed[..j]
    {
      PrintedNext(f.samples, j);
      block := block + [PrintSample(f.samples[j])];
    }
    assert printed[..|f.samples|] == printed;
  }

  // ----- Reading the page -----

  /** The samples of some lines; comments and empty lines hold none. */
  function ReadLines(lines: seq<string>): Option<seq<Sample>> {
    if lines == [] then Some([])
    else
      var rest := ReadLines(lines[1..]);
      if lines[0] == "" || lines[0][0] == '#' then rest
      else
        var s := ReadSample(lines[0]);
        if s.None? || rest.None? then None else Some([s.value] + rest.value)
  }

  function ReadPage(text: string): Option<seq<Sample>> {
    ReadLines(Split(text, '\n'))
  }

  ghost predicate GoodFamily(f: Family) {
    && '\n' !in f.name && '\n' !in f.help && '\n' !in f.kind
    && forall i :: 0 <= i < |f.samples| ==> PlainSample(f.samples[i])
  }

  lemma ReadFirstLine(line: string, rest: seq<string>)
    requires ReadLines(rest).Some?
    ensures line != "" && line[0] == '#' ==> ReadLines([line] + rest) == ReadLines(rest)
    ensures line != "" && line[0] != '#' && ReadSample(line).Some? ==>
      ReadLines([line] + rest) == Some([ReadSample(line).value] + ReadLines(rest).value)
  {
    assert ([line] + rest)[1..] == rest;
  }

  ghost predicate Holds(line: string, s: Sample) {
    line != "" && line[0] != '#' && ReadSample(line) == Some(s)
  }

  lemma {:induction false} SampleLinesRead(lines: seq<string>, samples: seq<Sample>, rest: seq<string>)
    requires |lines| == |samples| && forall i :: 0 <= i < |lines| ==> Holds(lines[i], samples[i])
    requires ReadLines(rest).Some?
    ensures ReadLines(lines + rest) == Some(samples + ReadLines(rest).value)
  {
    if lines == [] {
      assert lines + rest == rest;
      assert samples + ReadLines(rest).value == ReadLines(rest).value;
    } else {
      assert Holds(lines[0], samples[0]);
      SampleLinesRead(lines[1..], samples[1..], rest);
      ReadFirstLine(lines[0], lines[1..] + rest);
      assert lines + rest == [lines[0]] + (lines[1..] + rest);
      HeadFirst(samples, ReadLines(rest).value);
    }
  }

  lemma HeadFirst(a: seq<Sample>, b: seq<Sample>)
    requires a != []
    ensures a + b == [a[0]] + (a[1..] + b)
  {
  }

  lemma PrintedReadBack(samples: seq<Sample>, rest: seq<string>)
    requires forall i :: 0 <= i < |samples| ==> PlainSample(samples[i])
    requires ReadLines(rest).Some?
    ensures ReadLines(Printed(samples) + rest) == Some(samples + ReadLines(rest).value)
  {
    forall i | 0 <= i < |samples| ensures Holds(Printed(samples)[i], samples[i]) {
      SampleIsOneLine(samples[i]);
      SampleReadsBack(samples[i]);
    }
    SampleLinesRead(Printed(samples), samples, rest);
  }

  predicate IsComment(line: string) {
    line != "" && line[0] == '#'
  }

  lemma HeadIsComment(name: string, help: string, kind: string)
    ensures var head := Head(name, help, kind); |head| == 2 && IsComment(head[0]) && IsComment(head[1])
  {
  }

  lemma FamilyReadsBack(f: Family, rest: seq<string>)
    requires GoodFamily(f) && ReadLines(rest).Some?
    ensures ReadLines(FamilyLines(f) + rest) == Some(f.samples + ReadLines(rest).value)
  {
    PrintedReadBack(f.samples, rest);
    HeadIsComment(f.name, f.help, f.kind);
    CommentedReads(Head(f.name, f.help, f.kind), Printed(f.samples), rest);
  }

  lemma CommentedReads(head: seq<string>, printed: seq<string>, rest: seq<string>)
    requires |head| == 2 && IsComment(head[0]) && IsComment(head[1]) && ReadLines(printed + rest).Some?
    ensures ReadLines(head + printed + rest) == ReadLines(printed + rest)
  {
    CommentsSkipped(head, printed + rest);
    assert head + printed + rest == head + (printed + rest);
  }

  lemma CommentsSkipped(head: seq<string>, rest: seq<string>)
    requires |head| == 2 && IsComment(head[0]) && IsComment(head[1]) && ReadLines(rest).Some?
    ensures ReadLines(head + rest) == ReadLines(rest)
  {
    ReadFirstLine(head[1], rest);
    ReadFirstLine(head[0], [head[1]] + rest);
    assert head + rest == [head[0]] + ([head[1]] + rest);
  }

  lemma {:induction false} FamiliesReadBack(fs: seq<Family>)
    requires forall i :: 0 <= i < |fs| ==> GoodFamily(fs[i])
    ensures ReadLines(LinesOf(fs) + [""]) == Some(SamplesOf(fs))
  {
    if fs == [] {
      assert [] + [""] == [""] && [""][1..] == [];
    } else {
      FamiliesReadBack(fs[1..]);
      FamilyReadsBack(fs[0], LinesOf(fs[1..]) + [""]);
      assert LinesOf(fs) + [""] == FamilyLines(fs[0]) + (LinesOf(fs[1..]) + [""]);
    }
  }

  lemma PrintedAreOneLine(samples: seq<Sample>)
    requires forall i :: 0 <= i < |samples| ==> PlainSample(samples[i])
    ensures forall i :: 0 <= i < |Printed(samples)| ==> '\n' !in Printed(samples)[i]
  {
    forall i | 0 <= i < |samples| ensures '\n' !in PrintSample(samples[i]) {
      SampleIsOneLine(samples[i]);
    }
  }

  lemma {:induction false} LinesAreOneLine(fs: seq<Family>)
    requires forall i :: 0 <= i < |fs| ==> GoodFamily(fs[i])
    ensures forall i :: 0 <= i < |LinesOf(fs)| ==> '\n' !in LinesOf(fs)[i]
  {
    if fs != [] {
      PrintedAreOneLine(fs[0].samples);
      LinesAreOneLine(fs[1..]);
    }
  }

  /** Parsing a page gives back its samples, in order. */
  lemma PageReadsBack(fs: seq<Family>)
    requires forall i :: 0 <= i < |fs| ==> GoodFamily(fs[i])
    ensures ReadPage(PageOf(fs)) == Some(SamplesOf(fs))
  {
    var lines := LinesOf(fs) + [""];
    LinesAreOneLine(fs);
    SplitJoin(lines, '\n');
    FamiliesReadBack(fs);
  }

  // ----- The types the page declares -----

  /** The metrics and types declared in comment lines: "# TYPE name type". */
  function ReadTypes(lines: seq<string>): seq<(string, string)> {
    if lines == [] then []
    else
      var words := Split(lines[0], ' ');
      (if |words| == 4 && words[0] == "#" && words[1] == "TYPE" then [(words[2], words[3])] else [])
      + ReadTypes(lines[1..])
  }

  function TypesOf(fs: seq<Family>): seq<(string, string)> {
    if fs == [] then [] else [(fs[0].name, fs[0].kind)] + TypesOf(fs[1..])
  }

  ghost predicate OneWord(s: string) {
    s != "" && ' ' !in s
  }

  ghost predicate Declares(f: Family) {
    GoodFamily(f) && OneWord(f.name) && OneWord(f.kind)
  }

  lemma {:induction false} ReadTypesAppend(a: seq<string>, b: seq<string>)
    ensures ReadTypes(a + b) == ReadTypes(a) + ReadTypes(b)
  {
    if a == [] {
      assert a + b == b;
    } else {
      assert (a + b)[1..] == a[1..] + b;
      ReadTypesAppend(a[1..], b);
    }
  }

  lemma FirstWord(line: string)
    requires line != "" && line[0] != ' ' && line[0] != '#'
    ensures Split(line, ' ')[0] != "#"
  {
    assert Split(line, ' ')[0][0] == line[0];
  }

  lemma {:induction false} SamplesDeclareNothing(lines: seq<string>)
    requires forall i :: 0 <= i < |lines| ==> lines[i] != "" && lines[i][0] != ' ' && lines[i][0] != '#'
    ensures ReadTypes(lines) == []
  {
    if lines != [] {
      FirstWord(lines[0]);
      SamplesDeclareNothing(lines[1..]);
    }
  }

  lemma SplitComment(word: string, rest: string)
    requires ' ' !in word
    ensures Split("# " + word + " " + rest, ' ') == ["#", word] + Split(rest, ' ')
  {
    assert "# " + word + " " + rest == "#" + ([' '] + (word + ([' '] + rest)));
    SplitFirst("#", ' ', word + ([' '] + rest));
    SplitFirst(word, ' ', rest);
  }

  lemma HeadDeclares(name: string, help: string, kind: string)
    requires OneWord(name) && OneWord(kind)
    ensures ReadTypes(Head(name, help, kind)) == [(name, kind)]
  {
    var head := Head(name, help, kind);
    assert head[0] == "# " + "HELP" + " " + (name + (" " + help));
    assert head[1] == "# " + "TYPE" + " " + (name + (" " + kind));
    SplitComment("HELP", name + (" " + help));
    SplitComment("TYPE", name + (" " + kind));
    SplitFirst(name, ' ', kind);
    SplitWord(kind, ' ');
    assert name + (" " + kind) == name + ([' '] + kind);
    TwoLines(head, name, kind);
  }

  lemma TwoLines(head: seq<string>, name: string, kind: string)
    requires |head| == 2
    requires |Split(head[0], ' ')| >= 2 && Split(head[0], ' ')[1] == "HELP"
    requires Split(head[1], ' ') == ["#", "TYPE", name, kind]
    ensures ReadTypes(head) == [(name, kind)]
  {
    assert "HELP"[0] != "TYPE"[0];
    assert head[1..][0] == head[1] && head[1..][1..] == [];
    assert ReadTypes(head[1..]) == [(name, kind)] + [];
    assert [] + [(name, kind)] == [(name, kind)];
  }

  lemma FamilyDeclares(f: Family)
    requires Declares(f)
    ensures ReadTypes(FamilyLines(f)) == [(f.name, f.kind)]
  {
    forall i | 0 <= i < |Printed(f.samples)|
      ensures var line := Printed(f.samples)[i]; line != "" && line[0] != ' ' && line[0] != '#'
    {
      SampleIsOneLine(f.samples[i]);
      SampleStarts(f.samples[i]);
    }
    SamplesDeclareNothing(Printed(f.samples));
    HeadDeclares(f.name, f.help, f.kind);
    ReadTypesAppend(Head(f.name, f.help, f.kind), Printed(f.samples));
  }

  lemma SampleStarts(s: Sample)
    requires PlainSample(s)
    ensures PrintSample(s) != "" && PrintSample(s)[0] != ' '
  {
    assert NameChar(s.name[0]);
    assert PrintSample(s)[0] == s.name[0];
  }

  lemma {:induction false} TypesReadBack(fs: seq<Family>)
    requires forall i :: 0 <= i < |fs| ==> Declares(fs[i])
    ensures ReadTypes(LinesOf(fs)) == TypesOf(fs)
  {
    if fs != [] {
      FamilyDeclares(fs[0]);
      TypesReadBack(fs[1..]);
      ReadTypesAppend(FamilyLines(fs[0]), LinesOf(fs[1..]));
    }
  }

  lemma EmptyLineDeclaresNothing(lines: seq<string>)
    ensures ReadTypes(lines + [""]) == ReadTypes(lines)
  {
    ReadTypesAppend(lines, [""]);
    assert Split("", ' ') == [""] && [""][1..] == [];
    assert ReadTypes([""]) == [];
  }

  /** A page is its lines, each ended by a newline. */
  lemma PageIsLines(fs: seq<Family>)
    requires forall i :: 0 <= i < |fs| ==> GoodFamily(fs[i])
    ensures Split(PageOf(fs), '\n') == LinesOf(fs) + [""]
  {
    LinesAreOneLine(fs);
    SplitLines(LinesOf(fs));
  }

  lemma SplitLines(lines: seq<string>)
    requires forall i :: 0 <= i < |lines| ==> '\n' !in lines[i]
    ensures Split(Join(lines + [""], '\n'), '\n') == lines + [""]
  {
    SplitJoin(lines + [""], '\n');
  }

  /** A page declares the type of each metric. */
  lemma PageDeclares(fs: seq<Family>)
    requires forall i :: 0 <= i < |fs| ==> Declares(fs[i])
    ensures ReadTypes(Split(PageOf(fs), '\n')) == TypesOf(fs)
  {
    PageIsLines(fs);
    TypesReadBack(fs);
    EmptyLineDeclaresNothing(LinesOf(fs));
  }

  // ----- What the samples say -----

  datatype Reading = Reading(
    build: int, version: string, uptime: int, investigations: int, errors: int, retasks: int, fallbacks: int,
    zeroTools: int, refusals: int, tools: map<string, int>, tokens: map<Phase, int>)

  const BLANK := Reading(0, "", 0, 0, 0, 0, 0, 0, 0, map[], map[])

  predicate Labelled(s: Sample, names: seq<string>) {
    |s.labels| == |names| && forall i :: 0 <= i < |names| ==> s.labels[i].name == names[i]
  }

  /** What one sample tells a reader who knows the metrics by name. */
  function Learn(r: Reading, s: Sample): Reading {
    if s.name == "socai_build_info" && Labelled(s, ["version"]) then
      r.(build := s.value, version := s.labels[0].value)
    else if s.name == "socai_uptime_seconds" then r.(uptime := s.value)
    else if s.name == "socai_investigations_total" then r.(investigations := s.value)
    else if s.name == "socai_investigation_errors_total" then r.(errors := s.value)
    else if s.name == "socai_investigation_retasks_total" then r.(retasks := s.value)
    else if s.name == "socai_investigation_fallback_verdicts_total" then r.(fallbacks := s.value)
    else if s.name == "socai_investigation_zero_tool_verdicts_total" then r.(zeroTools := s.value)
    else if s.name == "socai_oracle_refusals_total" then r.(refusals := s.value)
    else if s.name == "socai_tool_calls_total" && Labelled(s, ["tool"]) then
      r.(tools := r.tools[s.labels[0].value := s.value])
    else if s.name == "socai_llm_tokens_total" && Labelled(s, ["phase", "direction"]) then
      r.(tokens := r.tokens[(s.labels[0].value, s.labels[1].value) := s.value])
    else r
  }

  function Decode(r: Reading, samples: seq<Sample>): Reading
    decreases |samples|
  {
    if samples == [] then r else Decode(Learn(r, samples[0]), samples[1..])
  }

  function ReadingOf(s: Snapshot, version: string, uptime: int): Reading {
    Reading(1, version, uptime, s.investigations, s.errors, s.retasks, s.fallbacks, s.zeroTools, s.refusals,
            s.tools, s.tokens)
  }

  lemma {:induction false} DecodeAppend(r: Reading, a: seq<Sample>, b: seq<Sample>)
    ensures Decode(r, a + b) == Decode(Decode(r, a), b)
    decreases |a|
  {
    if a == [] {
      assert a + b == b;
    } else {
      assert (a + b)[1..] == a[1..] + b;
      DecodeAppend(Learn(r, a[0]), a[1..], b);
    }
  }

  /** The names have different lengths, but for two that differ in their seventh character. */
  lemma NameLengths()
    ensures |BUILD_INFO| == 16 && |UPTIME| == 20 && |INVESTIGATIONS| == 26 && |ERRORS| == 32 && |RETASKS| == 33
    ensures |FALLBACKS| == 43 && |ZERO_TOOLS| == 44 && |REFUSALS| == 27 && |TOOL_CALLS| == 22 && |TOKENS| == 22
    ensures TOOL_CALLS != TOKENS
  {
    assert TOOL_CALLS[6] != TOKENS[6];
  }

  lemma LearnScalar(r: Reading, name: string, v: int)
    ensures name == UPTIME ==> Learn(r, Plain(name, v)) == r.(uptime := v)
    ensures name == INVESTIGATIONS ==> Learn(r, Plain(name, v)) == r.(investigations := v)
    ensures name == ERRORS ==> Learn(r, Plain(name, v)) == r.(errors := v)
    ensures name == RETASKS ==> Learn(r, Plain(name, v)) == r.(retasks := v)
    ensures name == FALLBACKS ==> Learn(r, Plain(name, v)) == r.(fallbacks := v)
    ensures name == ZERO_TOOLS ==> Learn(r, Plain(name, v)) == r.(zeroTools := v)
    ensures name == REFUSALS ==> Learn(r, Plain(name, v)) == r.(refusals := v)
  {
    NameLengths();
  }

  lemma LearnTool(r: Reading, tool: string, v: int)
    ensures Learn(r, Sample(TOOL_CALLS, [Label("tool", tool)], v)) == r.(tools := r.tools[tool := v])
  {
    NameLengths();
  }

  lemma LearnTokens(r: Reading, phase: Phase, v: int)
    ensures Learn(r, Sample(TOKENS, [Label("phase", phase.0), Label("direction", phase.1)], v))
         == r.(tokens := r.tokens[phase := v])
  {
    NameLengths();
  }

  function Restrict<K>(m: map<K, int>, keys: seq<K>): map<K, int>
    requires forall k :: k in keys ==> k in m
  {
    map k | k in keys :: m[k]
  }

  lemma RestrictFirst<K>(known: map<K, int>, m: map<K, int>, keys: seq<K>)
    requires keys != [] && forall k :: k in keys ==> k in m
    ensures known[keys[0] := m[keys[0]]] + Restrict(m, keys[1..]) == known + Restrict(m, keys)
  {
    assert keys == [keys[0]] + keys[1..];
  }

  lemma FirstTool(r: Reading, tools: map<string, int>, keys: seq<string>)
    requires keys != [] && forall k :: k in keys ==> k in tools
    ensures Decode(r, ToolSamples(tools, keys))
         == Decode(r.(tools := r.tools[keys[0] := tools[keys[0]]]), ToolSamples(tools, keys[1..]))
  {
    var all := ToolSamples(tools, keys);
    DecodeFirst(r, all);
    LearnTool(r, keys[0], tools[keys[0]]);
    assert all[1..] == ToolSamples(tools, keys[1..]);
  }

  lemma FirstTokens(r: Reading, tokens: map<Phase, int>, keys: seq<Phase>)
    requires keys != [] && forall k :: k in keys ==> k in tokens
    ensures Decode(r, TokenSamples(tokens, keys))
         == Decode(r.(tokens := r.tokens[keys[0] := tokens[keys[0]]]), TokenSamples(tokens, keys[1..]))
  {
    var all := TokenSamples(tokens, keys);
    DecodeFirst(r, all);
    LearnTokens(r, keys[0], tokens[keys[0]]);
    assert all[1..] == TokenSamples(tokens, keys[1..]);
  }

  lemma {:induction false} ToolsDecode(r: Reading, tools: map<string, int>, keys: seq<string>)
    requires forall k :: k in keys ==> k in tools
    ensures Decode(r, ToolSamples(tools, keys)) == r.(tools := r.tools + Restrict(tools, keys))
    decreases |keys|
  {
    if keys == [] {
      assert r.tools + Restrict(tools, keys) == r.tools;
    } else {
      FirstTool(r, tools, keys);
      ToolsDecode(r.(tools := r.tools[keys[0] := tools[keys[0]]]), tools, keys[1..]);
      RestrictFirst(r.tools, tools, keys);
    }
  }

  lemma {:induction false} TokensDecode(r: Reading, tokens: map<Phase, int>, keys: seq<Phase>)
    requires forall k :: k in keys ==> k in tokens
    ensures Decode(r, TokenSamples(tokens, keys)) == r.(tokens := r.tokens + Restrict(tokens, keys))
    decreases |keys|
  {
    if keys == [] {
      assert r.tokens + Restrict(tokens, keys) == r.tokens;
    } else {
      FirstTokens(r, tokens, keys);
      TokensDecode(r.(tokens := r.tokens[keys[0] := tokens[keys[0]]]), tokens, keys[1..]);
      RestrictFirst(r.tokens, tokens, keys);
    }
  }

  lemma DecodeFirst(r: Reading, samples: seq<Sample>)
    requires samples != []
    ensures Decode(r, samples) == Decode(Learn(r, samples[0]), samples[1..])
  {
  }

  /** Decoding family by family. */
  lemma FamilyDecodes(r: Reading, fs: seq<Family>, i: nat)
    requires i < |fs|
    ensures Decode(r, SamplesOf(fs[i..])) == Decode(Decode(r, fs[i].samples), SamplesOf(fs[i + 1..]))
  {
    assert fs[i..][1..] == fs[i + 1..];
    DecodeAppend(r, fs[i].samples, SamplesOf(fs[i + 1..]));
  }

  lemma ScalarDecodes(r: Reading, fs: seq<Family>, i: nat, name: string, v: int)
    requires i < |fs| && fs[i].samples == [Plain(name, v)]
    ensures Decode(r, SamplesOf(fs[i..])) == Decode(Learn(r, Plain(name, v)), SamplesOf(fs[i + 1..]))
  {
    FamilyDecodes(r, fs, i);
    DecodeFirst(r, fs[i].samples);
    assert fs[i].samples[1..] == [];
  }

  /** The ten families, by their samples alone. */
  ghost predicate IsPage(fs: seq<Family>, s: Snapshot, version: string, uptime: int,
                         tools: seq<string>, phases: seq<Phase>)
    requires (forall k :: k in tools ==> k in s.tools) && (forall k :: k in phases ==> k in s.tokens)
  {
    && |fs| == 10
    && fs[0].samples == [Sample(BUILD_INFO, [Label("version", version)], 1)]
    && fs[1].samples == [Plain(UPTIME, uptime)]
    && fs[2].samples == [Plain(INVESTIGATIONS, s.investigations)]
    && fs[3].samples == [Plain(ERRORS, s.errors)]
    && fs[4].samples == [Plain(RETASKS, s.retasks)]
    && fs[5].samples == [Plain(FALLBACKS, s.fallbacks)]
    && fs[6].samples == [Plain(ZERO_TOOLS, s.zeroTools)]
    && fs[7].samples == [Plain(REFUSALS, s.refusals)]
    && fs[8].samples == ToolSamples(s.tools, tools)
    && fs[9].samples == TokenSamples(s.tokens, phases)
  }

  lemma ScalarsDecode(r: Reading, fs: seq<Family>, s: Snapshot, version: string, uptime: int,
                      tools: seq<string>, phases: seq<Phase>)
    requires (forall k :: k in tools ==> k in s.tools) && (forall k :: k in phases ==> k in s.tokens)
    requires IsPage(fs, s, version, uptime, tools, phases)
    ensures Decode(r, SamplesOf(fs[1..])) ==
      Decode(Reading(r.build, r.version, uptime, s.investigations, s.errors, s.retasks, s.fallbacks, s.zeroTools,
                     s.refusals, r.tools, r.tokens), SamplesOf(fs[8..]))
  {
    ScalarDecodes(r, fs, 1, UPTIME, uptime);
    LearnScalar(r, UPTIME, uptime);
    var r1 := r.(uptime := uptime);
    ScalarDecodes(r1, fs, 2, INVESTIGATIONS, s.investigations);
    LearnScalar(r1, INVESTIGATIONS, s.investigations);
    var r2 := r1.(investigations := s.investigations);
    ScalarDecodes(r2, fs, 3, ERRORS, s.errors);
    LearnScalar(r2, ERRORS, s.errors);
    var r3 := r2.(errors := s.errors);
    ScalarDecodes(r3, fs, 4, RETASKS, s.retasks);
    LearnScalar(r3, RETASKS, s.retasks);
    var r4 := r3.(retasks := s.retasks);
    ScalarDecodes(r4, fs, 5, FALLBACKS, s.fallbacks);
    LearnScalar(r4, FALLBACKS, s.fallbacks);
    var r5 := r4.(fallbacks := s.fallbacks);
    ScalarDecodes(r5, fs, 6, ZERO_TOOLS, s.zeroTools);
    LearnScalar(r5, ZERO_TOOLS, s.zeroTools);
    var r6 := r5.(zeroTools := s.zeroTools);
    ScalarDecodes(r6, fs, 7, REFUSALS, s.refusals);
    LearnScalar(r6, REFUSALS, s.refusals);
  }

  lemma ToolFamilyDecodes(r: Reading, fs: seq<Family>, tools: map<string, int>, keys: seq<string>)
    requires Enumerates(keys, tools.Keys, StrLe) && |fs| == 10 && fs[8].samples == ToolSamples(tools, keys)
    requires r.tools == map[]
    ensures Decode(r, SamplesOf(fs[8..])) == Decode(r.(tools := tools), SamplesOf(fs[9..]))
  {
    FamilyDecodes(r, fs, 8);
    ToolsDecode(r, tools, keys);
    RestrictAll(tools, keys);
  }

  lemma TokenFamilyDecodes(r: Reading, fs: seq<Family>, tokens: map<Phase, int>, keys: seq<Phase>)
    requires Enumerates(keys, tokens.Keys, PhaseLe) && |fs| == 10 && fs[9].samples == TokenSamples(tokens, keys)
    requires r.tokens == map[]
    ensures Decode(r, SamplesOf(fs[9..])) == r.(tokens := tokens)
  {
    FamilyDecodes(r, fs, 9);
    TokensDecode(r, tokens, keys);
    RestrictAll(tokens, keys);
    assert fs[10..] == [];
  }

  lemma RestrictAll<K(!new)>(m: map<K, int>, keys: seq<K>)
    requires forall k :: k in keys <==> k in m.Keys
    ensures map[] + Restrict(m, keys) == m
  {
    assert forall k :: k in m.Keys <==> k in m;
  }

  lemma PageDecodes(fs: seq<Family>, s: Snapshot, version: string, uptime: int, tools: seq<string>, phases: seq<Phase>)
    requires Enumerates(tools, s.tools.Keys, StrLe) && Enumerates(phases, s.tokens.Keys, PhaseLe)
    requires IsPage(fs, s, version, uptime, tools, phases)
    ensures Decode(BLANK, SamplesOf(fs)) == ReadingOf(s, version, uptime)
  {
    assert fs[0..] == fs;
    FamilyDecodes(BLANK, fs, 0);
    DecodeFirst(BLANK, fs[0].samples);
    assert fs[0].samples[1..] == [];
    var r := BLANK.(build := 1, version := version);
    ScalarsDecode(r, fs, s, version, uptime, tools, phases);
    var scalars := ReadingOf(s, version, uptime).(tools := map[], tokens := map[]);
    ToolFamilyDecodes(scalars, fs, s.tools, tools);
    TokenFamilyDecodes(scalars.(tools := s.tools), fs, s.tokens, phases);
  }

  lemma FallbacksArePlain()
    ensures PlainName(FALLBACKS)
  {
  }

  lemma ZeroToolsIsPlain()
    ensures PlainName(ZERO_TOOLS)
  {
  }

  lemma ErrorsArePlain()
    ensures PlainName(ERRORS) && PlainName(RETASKS)
  {
  }

  lemma CountersArePlain()
    ensures PlainName(INVESTIGATIONS) && PlainName(REFUSALS)
  {
  }

  lemma ShortNamesArePlain()
    ensures PlainName(BUILD_INFO) && PlainName(UPTIME) && PlainName(TOOL_CALLS) && PlainName(TOKENS)
  {
  }

  lemma LabelNamesArePlain()
    ensures PlainName("version") && PlainName("tool") && PlainName("phase") && PlainName("direction")
  {
  }

  lemma PlainFamily(f: Family)
    requires PlainName(f.name) && '\n' !in f.help && (f.kind == "gauge" || f.kind == "counter")
    requires forall i :: 0 <= i < |f.samples| ==> PlainSample(f.samples[i])
    ensures GoodFamily(f)
  {
    forall i | 0 <= i < |f.name| ensures f.name[i] != '\n' {
      assert NameChar(f.name[i]);
    }
  }

  lemma MetricIsGood(name: string, help: string, kind: string, value: int)
    requires PlainName(name) && '\n' !in help && (kind == "gauge" || kind == "counter")
    ensures GoodFamily(Family(name, help, kind, [Plain(name, value)]))
  {
    PlainFamily(Family(name, help, kind, [Plain(name, value)]));
  }

  lemma LabelledAreGood(s: Snapshot, version: string, tools: seq<string>, phases: seq<Phase>, helps: seq<string>)
    requires (forall k :: k in tools ==> k in s.tools) && (forall k :: k in phases ==> k in s.tokens)
    requires |helps| == 10 && forall i :: 0 <= i < 10 ==> '\n' !in helps[i]
    ensures GoodFamily(Family(BUILD_INFO, helps[0], "gauge", [Sample(BUILD_INFO, [Label("version", version)], 1)]))
    ensures GoodFamily(Family(TOOL_CALLS, helps[8], "counter", ToolSamples(s.tools, tools)))
    ensures GoodFamily(Family(TOKENS, helps[9], "counter", TokenSamples(s.tokens, phases)))
  {
    ShortNamesArePlain();
    LabelNamesArePlain();
    PlainFamily(Family(BUILD_INFO, helps[0], "gauge", [Sample(BUILD_INFO, [Label("version", version)], 1)]));
    PlainFamily(Family(TOOL_CALLS, helps[8], "counter", ToolSamples(s.tools, tools)));
    PlainFamily(Family(TOKENS, helps[9], "counter", TokenSamples(s.tokens, phases)));
  }

  lemma FamiliesAreGood(s: Snapshot, version: string, uptime: int,
                        tools: seq<string>, phases: seq<Phase>, helps: seq<string>)
    requires (forall k :: k in tools ==> k in s.tools) && (forall k :: k in phases ==> k in s.tokens)
    requires |helps| == 10 && forall i :: 0 <= i < 10 ==> '\n' !in helps[i]
    ensures forall i :: 0 <= i < 10 ==> GoodFamily(Families(s, version, uptime, tools, phases, helps)[i])
  {
    LabelledAreGood(s, version, tools, phases, helps);
    ShortNamesArePlain();
    CountersArePlain();
    ErrorsArePlain();
    FallbacksArePlain();
    ZeroToolsIsPlain();
    MetricIsGood(UPTIME, helps[1], "gauge", uptime);
    MetricIsGood(INVESTIGATIONS, helps[2], "counter", s.investigations);
    MetricIsGood(ERRORS, helps[3], "counter", s.errors);
    MetricIsGood(RETASKS, helps[4], "counter", s.retasks);
    MetricIsGood(FALLBACKS, helps[5], "counter", s.fallbacks);
    MetricIsGood(ZERO_TOOLS, helps[6], "counter", s.zeroTools);
    MetricIsGood(REFUSALS, helps[7], "counter", s.refusals);
  }

  lemma FamiliesArePage(s: Snapshot, version: string, uptime: int,
                        tools: seq<string>, phases: seq<Phase>, helps: seq<string>)
    requires (forall k :: k in tools ==> k in s.tools) && (forall k :: k in phases ==> k in s.tokens)
    requires |helps| == 10
    ensures IsPage(Families(s, version, uptime, tools, phases, helps), s, version, uptime, tools, phases)
  {
  }

  ghost predicate AllGood(fs: seq<Family>) {
    forall i :: 0 <= i < |fs| ==> GoodFamily(fs[i])
  }

  lemma PageRecovers(fs: seq<Family>, s: Snapshot, version: string, uptime: int,
                     tools: seq<string>, phases: seq<Phase>)
    requires Enumerates(tools, s.tools.Keys, StrLe) && Enumerates(phases, s.tokens.Keys, PhaseLe)
    requires IsPage(fs, s, version, uptime, tools, phases) && AllGood(fs)
    ensures ReadPage(PageOf(fs)).Some? && Decode(BLANK, ReadPage(PageOf(fs)).value) == ReadingOf(s, version, uptime)
  {
    PageReadsBack(fs);
    PageDecodes(fs, s, version, uptime, tools, phases);
  }

  /** Main result: parsing the page of any state gives back the version, the uptime, every counter and
      every entry of both maps, whatever characters the tools, phases and version hold. */
  lemma PageRecoversState(s: Snapshot, version: string, uptime: int,
                          tools: seq<string>, phases: seq<Phase>, helps: seq<string>)
    requires Enumerates(tools, s.tools.Keys, StrLe) && Enumerates(phases, s.tokens.Keys, PhaseLe)
    requires |helps| == 10 && forall i :: 0 <= i < 10 ==> '\n' !in helps[i]
    ensures var samples := ReadPage(PageOf(Families(s, version, uptime, tools, phases, helps)));
      samples.Some? && Decode(BLANK, samples.value) == ReadingOf(s, version, uptime)
  {
    FamiliesAreGood(s, version, uptime, tools, phases, helps);
    FamiliesArePage(s, version, uptime, tools, phases, helps);
    PageRecovers(Families(s, version, uptime, tools, phases, helps), s, version, uptime, tools, phases);
  }

  lemma PlainIsOneWord(s: string)
    requires PlainName(s)
    ensures OneWord(s)
  {
    forall i | 0 <= i < |s| ensures s[i] != ' ' {
      assert NameChar(s[i]);
    }
  }

  lemma NamesAreWords()
    ensures OneWord(BUILD_INFO) && OneWord(UPTIME) && OneWord(INVESTIGATIONS) && OneWord(ERRORS) && OneWord(RETASKS)
    ensures OneWord(FALLBACKS) && OneWord(ZERO_TOOLS) && OneWord(REFUSALS) && OneWord(TOOL_CALLS) && OneWord(TOKENS)
  {
    ShortNamesArePlain();
    CountersArePlain();
    ErrorsArePlain();
    FallbacksArePlain();
    ZeroToolsIsPlain();
    PlainIsOneWord(BUILD_INFO);
    PlainIsOneWord(UPTIME);
    PlainIsOneWord(INVESTIGATIONS);
    PlainIsOneWord(ERRORS);
    PlainIsOneWord(RETASKS);
    PlainIsOneWord(FALLBACKS);
    PlainIsOneWord(ZERO_TOOLS);
    PlainIsOneWord(REFUSALS);
    PlainIsOneWord(TOOL_CALLS);
    PlainIsOneWord(TOKENS);
  }

  lemma FamiliesDeclare(s: Snapshot, version: string, uptime: int,
                        tools: seq<string>, phases: seq<Phase>, helps: seq<string>)
    requires (forall k :: k in tools ==> k in s.tools) && (forall k :: k in phases ==> k in s.tokens)
    requires |helps| == 10 && forall i :: 0 <= i < 10 ==> '\n' !in helps[i]
    ensures forall i :: 0 <= i < 10 ==> Declares(Families(s, version, uptime, tools, phases, helps)[i])
  {
    FamiliesAreGood(s, version, uptime, tools, phases, helps);
    NamesAreWords();
    assert OneWord("gauge") && OneWord("counter");
  }

  const PAGE_TYPES := [
    ("socai_build_info", "gauge"), ("socai_uptime_seconds", "gauge"), ("socai_investigations_total", "counter"),
    ("socai_investigation_errors_total", "counter"), ("socai_investigation_retasks_total", "counter"),
    ("socai_investigation_fallback_verdicts_total", "counter"),
    ("socai_investigation_zero_tool_verdicts_total", "counter"), ("socai_oracle_refusals_total", "counter"),
    ("socai_tool_calls_total", "counter"), ("socai_llm_tokens_total", "counter")]

  lemma FamilyTypes(s: Snapshot, version: string, uptime: int,
                    tools: seq<string>, phases: seq<Phase>, helps: seq<string>)
    requires (forall k :: k in tools ==> k in s.tools) && (forall k :: k in phases ==> k in s.tokens)
    requires |helps| == 10
    ensures TypesOf(Families(s, version, uptime, tools, phases, helps)) == PAGE_TYPES
  {
    TypesLength(Families(s, version, uptime, tools, phases, helps));
  }

  /** The page declares the build info and the uptime as gauges and everything else as counters, in this
      order. */
  lemma PageTypes(s: Snapshot, version: string, uptime: int, tools: seq<string>, phases: seq<Phase>, helps: seq<string>)
    requires (forall k :: k in tools ==> k in s.tools) && (forall k :: k in phases ==> k in s.tokens)
    requires |helps| == 10 && forall i :: 0 <= i < 10 ==> '\n' !in helps[i]
    ensures ReadTypes(Split(PageOf(Families(s, version, uptime, tools, phases, helps)), '\n')) == PAGE_TYPES
  {
    FamiliesDeclare(s, version, uptime, tools, phases, helps);
    FamilyTypes(s, version, uptime, tools, phases, helps);
    TenDeclare(Families(s, version, uptime, tools, phases, helps));
  }

  lemma TenDeclare(fs: seq<Family>)
    requires |fs| == 10 && forall i :: 0 <= i < 10 ==> Declares(fs[i])
    ensures ReadTypes(Split(PageOf(fs), '\n')) == TypesOf(fs)
  {
    PageDeclares(fs);
  }

  lemma {:induction false} TypesLength(fs: seq<Family>)
    ensures |TypesOf(fs)| == |fs| && forall i :: 0 <= i < |fs| ==> TypesOf(fs)[i] == (fs[i].name, fs[i].kind)
  {
    if fs != [] {
      TypesLength(fs[1..]);
    }
  }
}
