/** Strings as the repository's printers and sorts use them: the order Python gives strings, decimal
    numbers, and splitting at a separator character. */
module Text {

  datatype Option<+T> = None | Some(value: T)

  // ----- Order: strings compare code point by code point -----

  predicate StrLe(a: string, b: string) {
    a == "" || (b != "" && (a[0] < b[0] || (a[0] == b[0] && StrLe(a[1..], b[1..]))))
  }

  lemma StrLeTotal(a: string, b: string)
    ensures StrLe(a, b) || StrLe(b, a)
    ensures StrLe(a, b) && StrLe(b, a) ==> a == b
  {
    if a != "" && b != "" && a[0] == b[0] {
      StrLeTotal(a[1..], b[1..]);
      assert a == [a[0]] + a[1..] && b == [b[0]] + b[1..];
    }
  }

  lemma StrLeTransitive(a: string, b: string, c: string)
    requires StrLe(a, b) && StrLe(b, c)
    ensures StrLe(a, c)
  {
    if a != "" && b != "" && c != "" && a[0] == b[0] == c[0] {
      StrLeTransitive(a[1..], b[1..], c[1..]);
    }
  }

  /** The same order told from the characters: `a` is a prefix, or smaller where the two first differ. */
  ghost predicate Precedes(a: string, b: string) {
    a <= b || exists i :: SmallerAt(a, b, i)
  }

  ghost predicate SmallerAt(a: string, b: string, i: nat) {
    i < |a| && i < |b| && a[..i] == b[..i] && a[i] < b[i]
  }

  lemma SmallerLater(a: string, b: string, i: nat)
    requires a != "" && b != "" && a[0] == b[0]
    ensures SmallerAt(a, b, i + 1) <==> SmallerAt(a[1..], b[1..], i)
  {
    if i < |a| - 1 && i < |b| - 1 {
      assert a[..i + 1] == [a[0]] + a[1..][..i] && b[..i + 1] == [b[0]] + b[1..][..i];
      assert a[..i + 1] == b[..i + 1] ==> a[1..][..i] == a[..i + 1][1..] == b[..i + 1][1..] == b[1..][..i];
    }
  }

  lemma FirstDecides(a: string, b: string, i: nat)
    requires SmallerAt(a, b, i)
    ensures a[0] < b[0] || (a[0] == b[0] && i > 0)
  {
    if i > 0 {
      assert a[..i][0] == b[..i][0];
    }
  }

  lemma {:induction false} StrLePrecedes(a: string, b: string)
    ensures StrLe(a, b) <==> Precedes(a, b)
  {
    if a != "" && b != "" {
      if a[0] == b[0] {
        StrLePrecedes(a[1..], b[1..]);
        assert a == [a[0]] + a[1..] && b == [b[0]] + b[1..];
        if i: nat :| SmallerAt(a[1..], b[1..], i) {
          SmallerLater(a, b, i);
        }
        if i: nat :| SmallerAt(a, b, i) {
          assert i > 0;
          SmallerLater(a, b, i - 1);
        }
      } else if a[0] < b[0] {
        assert SmallerAt(a, b, 0);
      } else if i: nat :| SmallerAt(a, b, i) {
        FirstDecides(a, b, i);
      }
    }
  }

  /** What the order means, for all strings. */
  lemma StrLeExactly(a: string, b: string)
    ensures StrLe(a, b) <==> a <= b || exists i: nat :: i < |a| && i < |b| && a[..i] == b[..i] && a[i] < b[i]
  {
    StrLePrecedes(a, b);
    if i: nat :| SmallerAt(a, b, i) {
      assert a[..i] == b[..i];
    }
    if i: nat :| i < |a| && i < |b| && a[..i] == b[..i] && a[i] < b[i] {
      assert SmallerAt(a, b, i);
    }
  }

  // ----- Decimal numbers -----

  predicate IsDigit(c: char) {
    '0' <= c <= '9'
  }

  function DigitChar(d: nat): (c: char)
    requires d < 10
    ensures IsDigit(c) && c as int - '0' as int == d
  {
    (d + '0' as int) as char
  }

  /** A number as Python prints it. */
  function Digits(n: nat): (s: string)
    ensures s != "" && forall i :: 0 <= i < |s| ==> IsDigit(s[i])
    ensures |s| > 1 ==> s[0] != '0'
  {
    if n < 10 then [DigitChar(n)] else Digits(n / 10) + [DigitChar(n % 10)]
  }

  function PrintInt(n: int): string {
    if n < 0 then "-" + Digits(-n) else Digits(n)
  }

  function ParseNat(s: string): Option<nat> {
    if s == "" || !IsDigit(s[|s| - 1]) then None
    else
      var d := s[|s| - 1] as int - '0' as int;
      if |s| == 1 then Some(d)
      else
        var r := ParseNat(s[..|s| - 1]);
        if r.None? then None else Some(10 * r.value + d)
  }

  function ParseInt(s: string): Option<int> {
    var negative := s != "" && s[0] == '-';
    var r := ParseNat(if negative then s[1..] else s);
    if r.None? then None
    else
      var n: int := r.value;
      Some(if negative then -n else n)
  }

  lemma {:induction false} ParseDigits(n: nat)
    ensures ParseNat(Digits(n)) == Some(n)
  {
    var s := Digits(n);
    if n >= 10 {
      ParseDigits(n / 10);
      assert s[..|s| - 1] == Digits(n / 10);
      assert |s| > 1;
    }
  }

  lemma ParsePrintInt(n: int)
    ensures ParseInt(PrintInt(n)) == Some(n)
  {
    if n < 0 {
      ParseDigits(-n);
      assert PrintInt(n)[1..] == Digits(-n);
    } else {
      ParseDigits(n);
    }
  }

  /** Exactly the non-empty strings of digits are read, the last digit being the units. */
  lemma {:induction false} ParseNatExactly(s: string)
    ensures ParseNat(s).Some? <==> s != "" && forall i :: 0 <= i < |s| ==> '0' <= s[i] <= '9'
    ensures |s| == 1 && ParseNat(s).Some? ==> ParseNat(s).value == s[0] as int - '0' as int
    ensures |s| > 1 && ParseNat(s).Some? ==>
      && ParseNat(s[..|s| - 1]).Some?
      && ParseNat(s).value == 10 * ParseNat(s[..|s| - 1]).value + (s[|s| - 1] as int - '0' as int)
  {
    if |s| > 1 {
      var front := s[..|s| - 1];
      ParseNatExactly(front);
      assert s == front + [s[|s| - 1]];
    }
  }

  /** A printed number holds digits and a sign only. */
  lemma PrintIntChars(n: int, c: char)
    requires c in PrintInt(n)
    ensures IsDigit(c) || c == '-'
  {
    if n < 0 {
      var i :| 0 <= i < |PrintInt(n)| && PrintInt(n)[i] == c;
      assert i == 0 || PrintInt(n)[i] == Digits(-n)[i - 1];
    }
  }

  // ----- Splitting at a separator -----

  function Split(s: string, sep: char): (parts: seq<string>)
    ensures parts != []
  {
    if s == "" then [""]
    else
      var rest := Split(s[1..], sep);
      if s[0] == sep then [""] + rest else [[s[0]] + rest[0]] + rest[1..]
  }

  function Join(parts: seq<string>, sep: char): string {
    if parts == [] then ""
    else if |parts| == 1 then parts[0]
    else parts[0] + ([sep] + Join(parts[1..], sep))
  }

  lemma {:induction false} SplitWord(word: string, sep: char)
    requires sep !in word
    ensures Split(word, sep) == [word]
  {
    if word != "" {
      SplitWord(word[1..], sep);
      assert [word[0]] + word[1..] == word;
    }
  }

  lemma {:induction false} SplitFirst(word: string, sep: char, rest: string)
    requires sep !in word
    ensures Split(word + ([sep] + rest), sep) == [word] + Split(rest, sep)
  {
    var s := word + ([sep] + rest);
    if word == "" {
      assert s[1..] == rest;
    } else {
      SplitFirst(word[1..], sep, rest);
      assert s[1..] == word[1..] + ([sep] + rest);
      assert [word[0]] + word[1..] == word;
    }
  }

  /** Splitting undoes joining, when no part holds the separator. */
  lemma {:induction false} SplitJoin(parts: seq<string>, sep: char)
    requires parts != [] && forall i :: 0 <= i < |parts| ==> sep !in parts[i]
    ensures Split(Join(parts, sep), sep) == parts
  {
    if |parts| == 1 {
      SplitWord(parts[0], sep);
    } else {
      SplitFirst(parts[0], sep, Join(parts[1..], sep));
      SplitJoin(parts[1..], sep);
      assert [parts[0]] + parts[1..] == parts;
    }
  }
}
