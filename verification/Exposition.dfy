/** The metrics page of soc_ai/metrics.py in the Prometheus text format 0.0.4, and a parser for that
    format that recovers every value. */
module Exposition {
  import opened Text
  import opened Meters

  // ----- Escaping -----

  /** Every occurrence of one character replaced by a string. */
  function Replace(s: string, c: char, with: string): string {
    if s == "" then "" else (if s[0] == c then with else [s[0]]) + Replace(s[1..], c, with)
  }

  /** A label value as the page writes it: three replacements, one after the other. */
  function Esc(s: string): string {
    Replace(Replace(Replace(s, '\\', "\\\\"), '"', "\\\""), '\n', "\\n")
  }

  function EscChar(c: char): string {
    if c == '\\' then "\\\\" else if c == '"' then "\\\"" else if c == '\n' then "\\n" else [c]
  }

  function EscChars(s: string): string {
    if s == "" then "" else EscChar(s[0]) + EscChars(s[1..])
  }

  lemma {:induction false} ReplaceAppend(a: string, b: string, c: char, with: string)
    ensures Replace(a + b, c, with) == Replace(a, c, with) + Replace(b, c, with)
  {
    if a == "" {
      assert a + b == b;
    } else {
      assert (a + b)[1..] == a[1..] + b;
      ReplaceAppend(a[1..], b, c, with);
    }
  }

  lemma EscOne(c: char)
    ensures Esc([c]) == EscChar(c)
  {
    ReplaceOne(c, '\\', "\\\\");
    ReplaceOne(c, '"', "\\\"");
    ReplaceOne(c, '\n', "\\n");
    ReplaceTwo('\\', '\\', '"', "\\\"");
    ReplaceTwo('\\', '\\', '\n', "\\n");
    ReplaceTwo('\\', '"', '\n', "\\n");
  }

  lemma ReplaceOne(x: char, c: char, with: string)
    ensures Replace([x], c, with) == if x == c then with else [x]
  {
    assert [x][1..] == "";
    assert Replace("", c, with) == "";
  }

  lemma ReplaceTwo(x: char, y: char, c: char, with: string)
    requires x != c && y != c
    ensures Replace([x, y], c, with) == [x, y]
  {
    assert [x, y][1..] == [y];
    ReplaceOne(y, c, with);
  }

  /** The three sequential replacements are one escape per character. */
  lemma {:induction false} EscIsPerCharacter(s: string)
    ensures Esc(s) == EscChars(s)
  {
    if s != "" {
      var a, b := [s[0]], s[1..];
      assert s == a + b;
      EscIsPerCharacter(b);
      EscOne(s[0]);
      ReplaceAppend(a, b, '\\', "\\\\");
      var a1, b1 := Replace(a, '\\', "\\\\"), Replace(b, '\\', "\\\\");
      ReplaceAppend(a1, b1, '"', "\\\"");
      ReplaceAppend(Replace(a1, '"', "\\\""), Replace(b1, '"', "\\\""), '\n', "\\n");
    }
  }

  // ----- Reading one quoted value -----

  /** The value up to the closing quote, and the text behind it. */
  function ReadQuoted(s: string): (r: Option<(string, string)>)
    ensures r.Some? ==> |r.value.1| < |s|
  {
    if s == "" then None
    else if s[0] == '"' then Some(("", s[1..]))
    else if s[0] == '\\' then
      if |s| == 1 || s[1] !in {'\\', '"', 'n'} then None
      else
        var rest := ReadQuoted(s[2..]);
        if rest.None? then None
        else Some(([if s[1] == 'n' then '\n' else s[1]] + rest.value.0, rest.value.1))
    else
      var rest := ReadQuoted(s[1..]);
      if rest.None? then None else Some(([s[0]] + rest.value.0, rest.value.1))
  }

  lemma {:induction false} ReadEscaped(v: string, rest: string)
    ensures ReadQuoted(EscChars(v) + "\"" + rest) == Some((v, rest))
  {
    var s := EscChars(v) + "\"" + rest;
    if v == "" {
      assert s == "\"" + rest && s[1..] == rest;
    } else {
      ReadEscaped(v[1..], rest);
      var tail := EscChars(v[1..]) + "\"" + rest;
      assert s == EscChar(v[0]) + tail;
      if |EscChar(v[0])| == 2 {
        assert s[2..] == tail;
      } else {
        assert s[1..] == tail;
      }
      assert [v[0]] + v[1..] == v;
    }
  }

  /** Escaping loses nothing, ends at the first bare quote, and leaves no raw newline. */
  lemma EscReadsBack(v: string, w: string, rest: string)
    ensures ReadQuoted(Esc(v) + "\"" + rest) == Some((v, rest))
    ensures Esc(v) == Esc(w) <==> v == w
    ensures '\n' !in Esc(v)
  {
    EscIsPerCharacter(v);
    EscIsPerCharacter(w);
    ReadEscaped(v, rest);
    ReadEscaped(v, "");
    ReadEscaped(w, "");
    NoNewline(v);
  }

  lemma {:induction false} NoNewline(v: string)
    ensures '\n' !in EscChars(v)
  {
    if v != "" {
      NoNewline(v[1..]);
    }
  }

  // ----- Samples -----

  datatype Label = Label(name: string, value: string)

  datatype Sample = Sample(name: string, labels: seq<Label>, value: int)

  predicate NameChar(c: char) {
    'a' <= c <= 'z' || 'A' <= c <= 'Z' || c == '_' || c == ':' || IsDigit(c)
  }

  /** The names of the format: letters, digits, underscores and colons. */
  predicate PlainName(s: string) {
    s != "" && forall i :: 0 <= i < |s| ==> NameChar(s[i])
  }

  ghost predicate PlainSample(s: Sample) {
    PlainName(s.name) && forall i :: 0 <= i < |s.labels| ==> PlainName(s.labels[i].name)
  }

  function PrintLabel(l: Label): string {
    l.name + ("=\"" + (Esc(l.value) + "\""))
  }

  function PrintLabels(labels: seq<Label>): string
    requires labels != []
  {
    if |labels| == 1 then PrintLabel(labels[0])
    else PrintLabel(labels[0]) + "," + PrintLabels(labels[1..])
  }

  function PrintSample(s: Sample): string {
    s.name + (if s.labels == [] then "" else "{" + PrintLabels(s.labels) + "}") + " " + PrintInt(s.value)
  }

  /** The text before the first of some characters, and the rest from it on. */
  function Until(s: string, stops: set<char>): (r: (string, string))
    ensures |r.1| <= |s|
    ensures r.0 == "" ==> |r.1| == |s|
  {
    if s == "" || s[0] in stops then ("", s)
    else
      var r := Until(s[1..], stops);
      ([s[0]] + r.0, r.1)
  }

  /** One label, and the text behind it. */
  function ReadLabel(s: string): (r: Option<(Label, string)>)
    ensures r.Some? ==> |r.value.1| < |s|
  {
    var (name, rest) := Until(s, {'='});
    if |rest| < 2 || rest[0] != '=' || rest[1] != '"' then None
    else
      var q := ReadQuoted(rest[2..]);
      if q.None? then None else Some((Label(name, q.value.0), q.value.1))
  }

  /** The labels up to the closing brace, and the text behind it. */
  function ReadLabels(s: string): (r: Option<(seq<Label>, string)>)
    decreases |s|
  {
    var l := ReadLabel(s);
    if l.None? || l.value.1 == "" then None
    else
      var (first, rest) := l.value;
      if rest[0] == '}' then Some(([first], rest[1..]))
      else if rest[0] != ',' then None
      else
        var more := ReadLabels(rest[1..]);
        if more.None? then None else Some(([first] + more.value.0, more.value.1))
  }

  function ReadSample(line: string): Option<Sample> {
    var (name, rest) := Until(line, {'{', ' '});
    if rest == "" then None
    else if rest[0] == ' ' then ReadValue(name, [], rest)
    else
      var labels := ReadLabels(rest[1..]);
      if labels.None? then None else ReadValue(name, labels.value.0, labels.value.1)
  }

  function ReadValue(name: string, labels: seq<Label>, rest: string): Option<Sample> {
    if rest == "" || rest[0] != ' ' then None
    else
      var n := ParseInt(rest[1..]);
      if n.None? then None else Some(Sample(name, labels, n.value))
  }

  lemma {:induction false} UntilStop(word: string, stops: set<char>, rest: string)
    requires forall i :: 0 <= i < |word| ==> word[i] !in stops
    requires rest != "" && rest[0] in stops
    ensures Until(word + rest, stops) == (word, rest)
  {
    if word == "" {
      assert word + rest == rest;
    } else {
      UntilStop(word[1..], stops, rest);
      assert (word + rest)[1..] == word[1..] + rest;
      assert [word[0]] + word[1..] == word;
    }
  }

  lemma LabelReadsBack(l: Label, tail: string)
    requires PlainName(l.name)
    ensures ReadLabel(PrintLabel(l) + tail) == Some((l, tail))
  {
    var quoted := Esc(l.value) + "\"" + tail;
    assert PrintLabel(l) + tail == l.name + ("=\"" + quoted);
    UntilStop(l.name, {'='}, "=\"" + quoted);
    assert ("=\"" + quoted)[2..] == quoted;
    EscReadsBack(l.value, l.value, tail);
  }

  lemma Regroup(a: string, b: string, c: string)
    ensures a + b + c == a + (b + c)
  {
  }

  /** What the reader does behind one printed label. */
  lemma LabelsStep(l: Label, stop: string, rest: string)
    requires PlainName(l.name) && (stop == "}" || stop == ",")
    ensures ReadLabels(PrintLabel(l) + stop + rest) ==
      if stop == "}" then Some(([l], rest))
      else if ReadLabels(rest).None? then None
      else Some(([l] + ReadLabels(rest).value.0, ReadLabels(rest).value.1))
  {
    Regroup(PrintLabel(l), stop, rest);
    LabelReadsBack(l, stop + rest);
    assert (stop + rest)[1..] == rest;
  }

  lemma {:induction false} LabelsReadBack(labels: seq<Label>, rest: string)
    requires labels != [] && forall i :: 0 <= i < |labels| ==> PlainName(labels[i].name)
    ensures ReadLabels(PrintLabels(labels) + "}" + rest) == Some((labels, rest))
  {
    var l := labels[0];
    if |labels| == 1 {
      assert labels == [l];
      LabelsStep(l, "}", rest);
    } else {
      var first, more := PrintLabel(l) + ",", PrintLabels(labels[1..]);
      LabelsReadBack(labels[1..], rest);
      Regroup(first + more, "}", rest);
      Regroup(first, more, "}" + rest);
      Regroup(more, "}", rest);
      LabelsStep(l, ",", more + "}" + rest);
      assert labels == [l] + labels[1..];
    }
  }

  /** Main result for one line: reading undoes printing, for any label values. */
  lemma SampleReadsBack(s: Sample)
    requires PlainSample(s)
    ensures ReadSample(PrintSample(s)) == Some(s)
  {
    var number := PrintInt(s.value);
    ValueReadsBack(s.name, s.labels, s.value);
    if s.labels == [] {
      assert s.name + "" == s.name;
      Regroup(s.name, " ", number);
      UntilStop(s.name, {'{', ' '}, " " + number);
    } else {
      var labels := PrintLabels(s.labels);
      LabelledLine(s.name, labels, number);
      UntilStop(s.name, {'{', ' '}, "{" + (labels + "}" + (" " + number)));
      assert ("{" + (labels + "}" + (" " + number)))[1..] == labels + "}" + (" " + number);
      LabelsReadBack(s.labels, " " + number);
    }
  }

  lemma LabelledLine(name: string, labels: string, number: string)
    ensures name + ("{" + labels + "}") + " " + number == name + ("{" + (labels + "}" + (" " + number)))
  {
  }

  lemma ValueReadsBack(name: string, labels: seq<Label>, n: int)
    ensures ReadValue(name, labels, " " + PrintInt(n)) == Some(Sample(name, labels, n))
  {
    ParsePrintInt(n);
    assert (" " + PrintInt(n))[1..] == PrintInt(n);
  }

  lemma SampleIsOneLine(s: Sample)
    requires PlainSample(s)
    ensures '\n' !in PrintSample(s) && PrintSample(s) != "" && PrintSample(s)[0] != '#'
  {
    var labels := if s.labels == [] then "" else "{" + PrintLabels(s.labels) + "}";
    assert '\n' !in labels by {
      if s.labels != [] {
        LabelsAreOneLine(s.labels);
      }
    }
    assert '\n' !in PrintInt(s.value) by {
      if '\n' in PrintInt(s.value) {
        PrintIntChars(s.value, '\n');
      }
    }
    assert PrintSample(s) == s.name + (labels + (" " + PrintInt(s.value)));
    OneLineParts(labels, " " + PrintInt(s.value));
    OneLineParts(s.name, labels + (" " + PrintInt(s.value)));
  }

  lemma OneLineParts(a: string, b: string)
    requires '\n' !in a && '\n' !in b
    ensures '\n' !in a + b
  {
  }

  lemma {:induction false} LabelsAreOneLine(labels: seq<Label>)
    requires labels != [] && forall i :: 0 <= i < |labels| ==> PlainName(labels[i].name)
    ensures '\n' !in PrintLabels(labels)
  {
    EscReadsBack(labels[0].value, "", "");
    if |labels| > 1 {
      LabelsAreOneLine(labels[1..]);
    }
  }
}
