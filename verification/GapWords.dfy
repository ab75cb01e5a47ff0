/** The words for a span of time in soc_ai/event_time.py, and how to read them back. */
module GapWords {
  import opened Text

  /** The span in whole seconds, truncated toward zero and never negative. */
  function WholeSeconds(seconds: real): (t: nat)
    ensures seconds >= 0.0 ==> t as real <= seconds < t as real + 1.0
    ensures seconds < 0.0 ==> t == 0
  {
    if seconds < 0.0 then 0 else seconds.Floor
  }

  function Words(seconds: real): string {
    SpanText(WholeSeconds(seconds))
  }

  function Two(n: nat, unit: string): string {
    Digits(n) + (" " + unit)
  }

  function Four(n: nat, unit: string, m: nat, small: string): string {
    Digits(n) + (" " + (unit + (" " + Two(m, small))))
  }

  function DayWord(days: nat): string {
    if days == 1 then "day" else "days"
  }

  function SpanText(total: nat): string {
    if total < 60 then Two(total, "s")
    else
      var minutes := total / 60;
      if minutes < 60 then Two(minutes, "min")
      else
        var hours, m := minutes / 60, minutes % 60;
        if hours < 24 then
          if m != 0 then Four(hours, "h", m, "min") else Two(hours, "h")
        else
          var days, h := hours / 24, hours % 24;
          if h != 0 then Four(days, DayWord(days), h, "h") else Two(days, DayWord(days))
  }

  // ----- A reader that knows nothing of how the text was made -----

  function UnitSeconds(word: string): Option<nat> {
    match word
    case "s" => Some(1)
    case "min" => Some(60)
    case "h" => Some(3600)
    case "day" => Some(86400)
    case "days" => Some(86400)
    case _ => None
  }

  /** The sum of "number unit" pairs. */
  function ReadPairs(words: seq<string>): Option<nat> {
    if words == [] then Some(0)
    else if |words| == 1 then None
    else
      var n, u, rest := ParseNat(words[0]), UnitSeconds(words[1]), ReadPairs(words[2..]);
      if n.None? || u.None? || rest.None? then None else Some(n.value * u.value + rest.value)
  }

  function Read(text: string): Option<nat> {
    ReadPairs(Split(text, ' '))
  }

  lemma DigitsOf(n: nat)
    ensures n < 10 ==> Digits(n) == [DigitChar(n)]
    ensures 10 <= n < 100 ==> Digits(n) == [DigitChar(n / 10), DigitChar(n % 10)]
  {
    if 10 <= n < 100 {
      assert Digits(n / 10) == [DigitChar(n / 10)];
    }
  }

  lemma TwoSpelled()
    ensures Two(42, "s") == "42 s" && Two(45, "min") == "45 min"
  {
    DigitsOf(42);
    DigitsOf(45);
  }

  lemma FourSpelled()
    ensures Four(22, "h", 27, "min") == "22 h 27 min"
  {
    DigitsOf(22);
    DigitsOf(27);
  }

  lemma DaysSpelled()
    ensures Four(3, "days", 2, "h") == "3 days 2 h"
  {
    DigitsOf(3);
    DigitsOf(2);
  }

  /** The spelling, by example. */
  lemma WordsSpelled()
    ensures Words(42.0) == "42 s" && Words(2700.0) == "45 min"
    ensures Words(80820.0) == "22 h 27 min" && Words(266400.0) == "3 days 2 h"
  {
    TwoSpelled();
    FourSpelled();
    DaysSpelled();
    assert WholeSeconds(42.0) == 42 && WholeSeconds(2700.0) == 2700;
    assert WholeSeconds(80820.0) == 80820 && WholeSeconds(266400.0) == 266400;
  }

  // ----- What can be read back -----

  /** The resolution of the words: a second below a minute, a minute below a day, then an hour. */
  function Unit(t: nat): nat {
    if t < 60 then 1 else if t < 86400 then 60 else 3600
  }

  function RoundDown(t: nat): (r: nat)
    ensures r <= t < r + Unit(t) && r % Unit(t) == 0
  {
    if t < 60 then t else if t < 86400 then 60 * (t / 60) else 3600 * (t / 3600)
  }

  ghost predicate IsUnit(unit: string) {
    UnitSeconds(unit).Some? && ' ' !in unit
  }

  lemma UnitsAreWords()
    ensures IsUnit("s") && IsUnit("min") && IsUnit("h") && IsUnit("day") && IsUnit("days")
  {
  }

  lemma ReadFirst(words: seq<string>, n: nat)
    requires |words| >= 2 && words[0] == Digits(n) && UnitSeconds(words[1]).Some? && ReadPairs(words[2..]).Some?
    ensures ReadPairs(words) == Some(n * UnitSeconds(words[1]).value + ReadPairs(words[2..]).value)
  {
    ParseDigits(n);
  }

  lemma ReadTwo(n: nat, unit: string)
    requires IsUnit(unit)
    ensures Read(Two(n, unit)) == Some(n * UnitSeconds(unit).value)
    ensures ReadPairs([Digits(n), unit]) == Some(n * UnitSeconds(unit).value)
    ensures Join([Digits(n), unit], ' ') == Two(n, unit)
  {
    var words := [Digits(n), unit];
    assert words[1..] == [unit] && words[2..] == [];
    SplitJoin(words, ' ');
    ReadFirst(words, n);
  }

  lemma JoinFour(n: nat, unit: string, m: nat, small: string)
    requires IsUnit(small)
    ensures Join([Digits(n), unit, Digits(m), small], ' ') == Four(n, unit, m, small)
  {
    var words, tail := [Digits(n), unit, Digits(m), small], [Digits(m), small];
    ReadTwo(m, small);
    assert words[1..] == [unit] + tail && words[1..][1..] == tail;
    assert Join(words[1..], ' ') == unit + ([' '] + Join(tail, ' '));
  }

  lemma PairsFour(n: nat, unit: string, m: nat, small: string)
    requires IsUnit(unit) && IsUnit(small)
    ensures ReadPairs([Digits(n), unit, Digits(m), small])
         == Some(n * UnitSeconds(unit).value + m * UnitSeconds(small).value)
  {
    var words := [Digits(n), unit, Digits(m), small];
    assert words[2..] == [Digits(m), small];
    ReadTwo(m, small);
    ReadFirst(words, n);
  }

  lemma ReadFour(n: nat, unit: string, m: nat, small: string)
    requires IsUnit(unit) && IsUnit(small)
    ensures Read(Four(n, unit, m, small)) == Some(n * UnitSeconds(unit).value + m * UnitSeconds(small).value)
  {
    JoinFour(n, unit, m, small);
    PairsFour(n, unit, m, small);
    SplitJoin([Digits(n), unit, Digits(m), small], ' ');
  }

  lemma HourParts(t: nat)
    requires 3600 <= t < 86400
    ensures RoundDown(t) == t / 60 / 60 * 3600 + t / 60 % 60 * 60
    ensures t / 60 >= 60 && t / 60 / 60 < 24
  {
  }

  lemma DayParts(t: nat)
    requires 86400 <= t
    ensures RoundDown(t) == t / 60 / 60 / 24 * 86400 + t / 60 / 60 % 24 * 3600
    ensures t / 60 >= 60 && t / 60 / 60 >= 24
  {
    WholeHours(t);
    var hours := t / 3600;
    assert hours == hours / 24 * 24 + hours % 24;
  }

  lemma WholeHours(t: nat)
    ensures t / 60 / 60 == t / 3600
  {
  }

  lemma ReadHours(hours: nat, m: nat)
    ensures Read(if m != 0 then Four(hours, "h", m, "min") else Two(hours, "h")) == Some(hours * 3600 + m * 60)
  {
    UnitsAreWords();
    if m != 0 {
      ReadFour(hours, "h", m, "min");
    } else {
      ReadTwo(hours, "h");
    }
  }

  lemma ReadDays(days: nat, h: nat)
    ensures Read(if h != 0 then Four(days, DayWord(days), h, "h") else Two(days, DayWord(days)))
         == Some(days * 86400 + h * 3600)
  {
    UnitsAreWords();
    if h != 0 {
      ReadFour(days, DayWord(days), h, "h");
    } else {
      ReadTwo(days, DayWord(days));
    }
  }

  lemma HoursRead(t: nat)
    requires 3600 <= t < 86400
    ensures Read(SpanText(t)) == Some(RoundDown(t))
  {
    HourParts(t);
    ReadHours(t / 60 / 60, t / 60 % 60);
  }

  lemma DaysRead(t: nat)
    requires 86400 <= t
    ensures Read(SpanText(t)) == Some(RoundDown(t))
  {
    DayParts(t);
    ReadDays(t / 60 / 60 / 24, t / 60 / 60 % 24);
  }

  lemma SpanTextReads(t: nat)
    ensures Read(SpanText(t)) == Some(RoundDown(t))
  {
    if t < 3600 {
      UnitsAreWords();
      ReadTwo(t, "s");
      ReadTwo(t / 60, "min");
    } else if t < 86400 {
      HoursRead(t);
    } else {
      DaysRead(t);
    }
  }

  /** Main result: the words give back the span, rounded down to the unit of its size. */
  lemma WordsReadBack(seconds: real)
    ensures var t, v := WholeSeconds(seconds), Read(Words(seconds));
      v.Some? && v.value <= t < v.value + Unit(t)
  {
    SpanTextReads(WholeSeconds(seconds));
  }

  /** Two spans have the same words exactly when they round down to the same value. */
  lemma SameWordsExactly(a: real, b: real)
    ensures Words(a) == Words(b) <==> RoundDown(WholeSeconds(a)) == RoundDown(WholeSeconds(b))
  {
    var s, t := WholeSeconds(a), WholeSeconds(b);
    SpanTextReads(s);
    SpanTextReads(t);
    RoundedSpanText(s);
    RoundedSpanText(t);
  }

  /** Rounding a span down does not change its words. */
  lemma RoundedSpanText(t: nat)
    ensures SpanText(t) == SpanText(RoundDown(t))
  {
    var r := RoundDown(t);
    if 60 <= t < 86400 {
      assert r / 60 == t / 60;
    } else if t >= 86400 {
      assert r / 60 / 60 == t / 3600 == t / 60 / 60;
    }
  }
}
