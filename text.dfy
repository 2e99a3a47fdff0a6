/**
 * The string handling that callback tokens rely on: Python's str() of a
 * non-negative int, Python's int() of a numeral, str.replace of one
 * character, and str.split / rsplit / "_".join on a one-character separator.
 */
module Text {
  import opened Common
  import opened Seqs

  predicate IsDigit(c: char) { '0' <= c <= '9' }

  predicate AllDigits(s: string) { forall i :: 0 <= i < |s| ==> IsDigit(s[i]) }

  function DigitValue(c: char): nat
    requires IsDigit(c)
  {
    c as int - '0' as int
  }

  function DigitChar(d: nat): (c: char)
    requires d < 10
    ensures IsDigit(c) && DigitValue(c) == d
  {
    ('0' as int + d) as char
  }

  function Pow10(k: nat): (p: nat)
    ensures p >= 1
  {
    if k == 0 then 1 else 10 * Pow10(k - 1)
  }

  /** The value of a string of decimal digits, most significant first. */
  function DigitsValue(s: string): nat
    requires AllDigits(s)
  {
    if s == [] then 0 else DigitsValue(s[..|s| - 1]) * 10 + DigitValue(s[|s| - 1])
  }

  /** Python's str() of a non-negative int: decimal digits, no leading zero. */
  function NatToString(n: nat): (s: string)
    ensures |s| >= 1 && AllDigits(s)
    ensures DigitsValue(s) == n
    ensures n == 0 ==> s == "0"
    ensures n > 0 ==> s[0] != '0'
    decreases n
  {
    if n < 10 then [DigitChar(n)]
    else
      var prefix := NatToString(n / 10);
      var s := prefix + [DigitChar(n % 10)];
      assert s[..|s| - 1] == prefix;
      s
  }

  /**
   * A string Python's int() accepts in this model: ASCII digits, where a
   * single underscore may stand between two digits (PEP 515 grouping).
   */
  predicate IsNumeral(s: string) {
    && |s| > 0
    && IsDigit(s[0]) && IsDigit(s[|s| - 1])
    && (forall i :: 0 <= i < |s| ==> IsDigit(s[i]) || s[i] == '_')
    && (forall i :: 0 <= i < |s| - 1 ==> IsDigit(s[i]) || IsDigit(s[i + 1]))
  }

  /** The digits of a numeral with its grouping underscores dropped. */
  function WithoutUnderscores(s: string): (r: string)
    ensures (forall i :: 0 <= i < |s| ==> IsDigit(s[i]) || s[i] == '_') ==> AllDigits(r)
    ensures AllDigits(s) ==> r == s
  {
    if s == [] then [] else (if s[0] == '_' then [] else [s[0]]) + WithoutUnderscores(s[1..])
  }

  /** Python's int(s): the value of a numeral, None where int() raises ValueError. */
  function PyInt(s: string): (r: Option<nat>)
    ensures r.Some? <==> IsNumeral(s)
    ensures AllDigits(s) && s != [] ==> r == Some(DigitsValue(s))
  {
    if IsNumeral(s) then Some(DigitsValue(WithoutUnderscores(s))) else None
  }

  lemma PyIntOfNatToString(n: nat)
    ensures PyInt(NatToString(n)) == Some(n)
  {
  }

  lemma {:induction false} DigitsValueConcat(a: string, b: string)
    requires AllDigits(a) && AllDigits(b)
    ensures AllDigits(a + b)
    ensures DigitsValue(a + b) == DigitsValue(a) * Pow10(|b|) + DigitsValue(b)
    decreases |b|
  {
    if b == [] {
      assert a + b == a;
    } else {
      var b' := b[..|b| - 1];
      var d := DigitValue(b[|b| - 1]);
      assert (a + b)[..|a + b| - 1] == a + b' && (a + b)[|a + b| - 1] == b[|b| - 1];
      DigitsValueConcat(a, b');
      assert DigitsValue(a + b) == DigitsValue(a + b') * 10 + d;
      assert DigitsValue(b) == DigitsValue(b') * 10 + d;
      assert Pow10(|b|) == 10 * Pow10(|b'|);
      ShiftDigit(DigitsValue(a), Pow10(|b'|), DigitsValue(b'), d);
    }
  }

  /** Appending a digit to both halves of x * p + y. */
  lemma ShiftDigit(x: nat, p: nat, y: nat, d: nat)
    ensures (x * p + y) * 10 + d == x * (10 * p) + (y * 10 + d)
  {
  }

  lemma {:induction false} WithoutUnderscoresConcat(a: string, b: string)
    ensures WithoutUnderscores(a + b) == WithoutUnderscores(a) + WithoutUnderscores(b)
  {
    if a == [] {
      assert a + b == b;
    } else {
      var h := if a[0] == '_' then "" else [a[0]];
      assert (a + b)[0] == a[0] && (a + b)[1..] == a[1..] + b;
      assert WithoutUnderscores(a + b) == h + WithoutUnderscores(a[1..] + b);
      WithoutUnderscoresConcat(a[1..], b);
      assert WithoutUnderscores(a) == h + WithoutUnderscores(a[1..]);
    }
  }

  lemma NumeralOfJoinedDigits(a: string, b: string)
    requires |a| > 0 && AllDigits(a) && |b| > 0 && AllDigits(b)
    ensures IsNumeral(a + "_" + b)
  {
    var s := a + "_" + b;
    assert forall i :: 0 <= i < |a| ==> s[i] == a[i];
    assert forall i :: |a| < i < |s| ==> s[i] == b[i - |a| - 1];
  }

  lemma WithoutUnderscoresJoined(a: string, b: string)
    requires AllDigits(a) && AllDigits(b)
    ensures WithoutUnderscores(a + "_" + b) == a + b
  {
    var tail := "_" + b;
    assert tail[0] == '_' && tail[1..] == b;
    assert WithoutUnderscores(tail) == b;
    assert a + "_" + b == a + tail;
    WithoutUnderscoresConcat(a, tail);
  }

  lemma PyIntJoinedIsConcat(a: string, b: string)
    requires |a| > 0 && AllDigits(a) && |b| > 0 && AllDigits(b)
    ensures AllDigits(a + b) && PyInt(a + "_" + b) == Some(DigitsValue(a + b))
  {
    NumeralOfJoinedDigits(a, b);
    WithoutUnderscoresJoined(a, b);
  }

  /**
   * int() of two digit strings joined by one underscore reads them as one
   * number: the first string's digits followed by the second's.
   */
  lemma PyIntOfJoinedDigits(a: string, b: string)
    requires |a| > 0 && AllDigits(a) && |b| > 0 && AllDigits(b)
    ensures PyInt(a + "_" + b) == Some(DigitsValue(a) * Pow10(|b|) + DigitsValue(b))
  {
    PyIntJoinedIsConcat(a, b);
    var v := DigitsValue(a + b);
    assert PyInt(a + "_" + b) == Some(v);
    DigitsValueConcat(a, b);
    assert v == DigitsValue(a) * Pow10(|b|) + DigitsValue(b);
  }

  /** `s.split(sep)`: the fields between the separators. */
  function Split(s: string, sep: char): (parts: seq<string>)
    ensures |parts| >= 1
    ensures forall k :: 0 <= k < |parts| ==> sep !in parts[k]
    decreases |s|
  {
    if sep !in s then [s]
    else
      var i := FirstIndex(s, sep);
      [s[..i]] + Split(s[i + 1..], sep)
  }

  /** `sep.join(parts)` */
  function Join(parts: seq<string>, sep: char): string
  {
    if |parts| == 0 then ""
    else if |parts| == 1 then parts[0]
    else parts[0] + [sep] + Join(parts[1..], sep)
  }

  /** `s.split(sep)[-1]`: whatever follows the last separator, or all of s. */
  function LastSegment(s: string, sep: char): string
  {
    if sep in s then s[LastIndex(s, sep) + 1..] else s
  }

  /** `s.split(sep, 1)` when it yields two fields, None when it yields one. */
  function SplitFirst(s: string, sep: char): Option<(string, string)>
  {
    if sep in s then
      var i := FirstIndex(s, sep);
      Some((s[..i], s[i + 1..]))
    else None
  }

  /** `s.rsplit(sep, 1)` when it yields two fields, None when it yields one. */
  function SplitLast(s: string, sep: char): Option<(string, string)>
  {
    if sep in s then
      var i := LastIndex(s, sep);
      Some((s[..i], s[i + 1..]))
    else None
  }

  lemma FirstSeparator(a: string, b: string, sep: char)
    requires sep !in a
    ensures sep in a + [sep] + b && FirstIndex(a + [sep] + b, sep) == |a|
  {
    var s := a + [sep] + b;
    assert s[|a|] == sep;
  }

  lemma LastSeparator(a: string, b: string, sep: char)
    requires sep !in b
    ensures sep in a + [sep] + b && LastIndex(a + [sep] + b, sep) == |a|
  {
    var s := a + [sep] + b;
    assert s[|a|] == sep;
  }

  lemma SplitFirstOf(a: string, b: string, sep: char)
    requires sep !in a
    ensures SplitFirst(a + [sep] + b, sep) == Some((a, b))
  {
    var s := a + [sep] + b;
    FirstSeparator(a, b, sep);
    assert s[..|a|] == a && s[|a| + 1..] == b;
  }

  lemma SplitLastOf(a: string, b: string, sep: char)
    requires sep !in b
    ensures SplitLast(a + [sep] + b, sep) == Some((a, b))
  {
    var s := a + [sep] + b;
    LastSeparator(a, b, sep);
    assert s[..|a|] == a && s[|a| + 1..] == b;
  }

  lemma SplitOf(a: string, b: string, sep: char)
    requires sep !in a
    ensures Split(a + [sep] + b, sep) == [a] + Split(b, sep)
  {
    var s := a + [sep] + b;
    FirstSeparator(a, b, sep);
    assert s[..|a|] == a && s[|a| + 1..] == b;
  }

  /** Splitting at the first separator: the head holds none, the rest is split again. */
  lemma SplitAtFirst(s: string, sep: char)
    requires sep in s
    ensures var i := FirstIndex(s, sep);
      && sep !in s[..i]
      && s == s[..i] + [sep] + s[i + 1..]
      && Split(s, sep) == [s[..i]] + Split(s[i + 1..], sep)
  {
    var i := FirstIndex(s, sep);
    assert s == s[..i] + [sep] + s[i + 1..];
  }

  lemma JoinCons(head: string, parts: seq<string>, sep: char)
    requires |parts| >= 1
    ensures Join([head] + parts, sep) == head + [sep] + Join(parts, sep)
  {
    assert ([head] + parts)[1..] == parts;
  }

  /** Joining the fields of a split with the same separator gives the string back. */
  lemma {:induction false} JoinSplit(s: string, sep: char)
    ensures Join(Split(s, sep), sep) == s
    decreases |s|
  {
    if sep in s {
      var i := FirstIndex(s, sep);
      var rest := s[i + 1..];
      SplitAtFirst(s, sep);
      JoinCons(s[..i], Split(rest, sep), sep);
      JoinSplit(rest, sep);
    } else {
      assert Split(s, sep) == [s];
    }
  }

  /** The last field is whatever follows the last separator. */
  lemma LastSegmentOf(a: string, b: string, sep: char)
    requires sep !in b
    ensures LastSegment(a + [sep] + b, sep) == b
  {
    var s := a + [sep] + b;
    LastSeparator(a, b, sep);
    assert s[|a| + 1..] == b;
  }

  /** `s.replace(x, y)` for single characters. */
  function Replace(s: string, x: char, y: char): (r: string)
    ensures |r| == |s|
    ensures forall i :: 0 <= i < |s| ==> r[i] == (if s[i] == x then y else s[i])
  {
    seq(|s|, i requires 0 <= i < |s| => if s[i] == x then y else s[i])
  }

  /**
   * Replacing x by y and then y by x gives the string back exactly when y
   * did not occur in it to begin with.
   */
  lemma ReplaceRoundTrip(s: string, x: char, y: char)
    requires x != y
    ensures Replace(Replace(s, x, y), y, x) == s <==> y !in s
  {
    var back := Replace(Replace(s, x, y), y, x);
    if y in s {
      var k := FirstIndex(s, y);
      assert back[k] == x != s[k];
    } else {
      assert forall i :: 0 <= i < |s| ==> back[i] == s[i];
    }
  }

  lemma ReplaceAtSeparator(head: string, rest: string, x: char, y: char)
    requires x !in head
    ensures Replace(head + [x] + rest, x, y) == head + [y] + Replace(rest, x, y)
  {
    var l, r := Replace(head + [x] + rest, x, y), head + [y] + Replace(rest, x, y);
    assert |l| == |r|;
    forall i | 0 <= i < |l|
      ensures l[i] == r[i]
    {
      if i < |head| {
        assert (head + [x] + rest)[i] == head[i];
      } else if i > |head| {
        assert (head + [x] + rest)[i] == rest[i - |head| - 1];
      }
    }
  }

  /** `sep2.join(s.split(sep1))` is `s.replace(sep1, sep2)`. */
  lemma {:induction false} JoinSplitIsReplace(s: string, sep1: char, sep2: char)
    ensures Join(Split(s, sep1), sep2) == Replace(s, sep1, sep2)
    decreases |s|
  {
    if sep1 in s {
      var i := FirstIndex(s, sep1);
      var head, rest := s[..i], s[i + 1..];
      SplitAtFirst(s, sep1);
      JoinCons(head, Split(rest, sep1), sep2);
      JoinSplitIsReplace(rest, sep1, sep2);
      ReplaceAtSeparator(head, rest, sep1, sep2);
    } else {
      assert Split(s, sep1) == [s];
      assert Replace(s, sep1, sep2) == s;
    }
  }
}
