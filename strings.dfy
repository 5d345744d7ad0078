/** The few Python `str` operations the builders and the validator rely on. */
module Strings {
  import opened Wrappers

  /** The characters Python's `str.isspace()` accepts, which `str.strip()` removes. */
  predicate IsSpace(c: char) {
    ('\t' <= c <= '\r') || ('\U{1C}' <= c <= ' ') || c == '\U{85}' || c == '\U{A0}'
    || c == '\U{1680}' || ('\U{2000}' <= c <= '\U{200A}') || c == '\U{2028}' || c == '\U{2029}'
    || c == '\U{202F}' || c == '\U{205F}' || c == '\U{3000}'
  }

  predicate AllSpace(s: string) {
    forall i :: 0 <= i < |s| ==> IsSpace(s[i])
  }

  /** Neither the first nor the last character is whitespace. */
  predicate Stripped(s: string) {
    s == [] || (!IsSpace(s[0]) && !IsSpace(s[|s| - 1]))
  }

  function LStrip(s: string): string {
    if s != [] && IsSpace(s[0]) then LStrip(s[1..]) else s
  }

  function RStrip(s: string): string {
    if s != [] && IsSpace(s[|s| - 1]) then RStrip(s[..|s| - 1]) else s
  }

  /** Python's `s.strip()`: drop leading and trailing whitespace. */
  function Strip(s: string): string {
    RStrip(LStrip(s))
  }

  lemma {:induction false} LStripFacts(s: string)
    ensures var r := LStrip(s);
      |r| <= |s| && r == s[|s| - |r|..] && AllSpace(s[..|s| - |r|]) && (r == [] || !IsSpace(r[0]))
  {
    if s != [] && IsSpace(s[0]) {
      LStripFacts(s[1..]);
      var r := LStrip(s[1..]);
      assert s[..|s| - |r|] == [s[0]] + s[1..][..|s| - 1 - |r|];
    }
  }

  lemma {:induction false} RStripFacts(s: string)
    ensures var r := RStrip(s);
      |r| <= |s| && r == s[..|r|] && AllSpace(s[|r|..]) && (r == [] || !IsSpace(r[|r| - 1]))
  {
    if s != [] && IsSpace(s[|s| - 1]) {
      RStripFacts(s[..|s| - 1]);
      var r := RStrip(s[..|s| - 1]);
      assert s[|r|..] == s[..|s| - 1][|r|..] + [s[|s| - 1]];
    }
  }

  lemma StripShape(s: string)
    ensures |Strip(s)| <= |s|
    ensures Stripped(Strip(s))
    ensures Strip(s) == [] <==> AllSpace(s)
  {
    var l := LStrip(s);
    var r := RStrip(l);
    LStripFacts(s);
    RStripFacts(l);
    var i := |s| - |l|;
    if r == [] {
      assert l[0..] == l;
      assert s == s[..i] + l;
    } else {
      assert r[0] == l[0] == s[i];
    }
  }

  lemma StripRun(s: string)
    ensures |LStrip(s)| <= |s|
    ensures var i := |s| - |LStrip(s)|;
      i + |Strip(s)| <= |s| && s[i..i + |Strip(s)|] == Strip(s)
      && AllSpace(s[..i]) && AllSpace(s[i + |Strip(s)|..])
  {
    var l := LStrip(s);
    var r := RStrip(l);
    LStripFacts(s);
    RStripFacts(l);
    var i := |s| - |l|;
    assert s[i..i + |r|] == l[..|r|];
    assert s[i + |r|..] == l[|r|..];
  }

  /**
   * What `strip()` promises: the result is no longer than the input, starts and ends
   * with a non-space character, is a run of the input with whitespace on either side,
   * and is empty exactly when the input is all whitespace.
   */
  lemma StripFacts(s: string)
    ensures |Strip(s)| <= |s|
    ensures Stripped(Strip(s))
    ensures Strip(s) == [] <==> AllSpace(s)
    ensures |LStrip(s)| <= |s|
    ensures var i := |s| - |LStrip(s)|;
      i + |Strip(s)| <= |s| && s[i..i + |Strip(s)|] == Strip(s)
      && AllSpace(s[..i]) && AllSpace(s[i + |Strip(s)|..])
  {
    StripShape(s);
    StripRun(s);
  }

  /** Text that is already stripped is left alone, so `Strip` is idempotent. */
  lemma StripOfStripped(s: string)
    requires Stripped(s)
    ensures Strip(s) == s
  {
  }

  function LowerChar(c: char): char {
    if 'A' <= c <= 'Z' then (c as int + 32) as char else c
  }

  /** Python's `s.lower()`, restricted to the ASCII letters. */
  function Lower(s: string): string {
    if s == [] then [] else [LowerChar(s[0])] + Lower(s[1..])
  }

  /** Python's `s.replace(a, b)` for one-character `a` and `b`. */
  function ReplaceChar(s: string, a: char, b: char): string {
    if s == [] then [] else [if s[0] == a then b else s[0]] + ReplaceChar(s[1..], a, b)
  }

  lemma {:induction false} LowerAt(s: string)
    ensures |Lower(s)| == |s|
    ensures forall i :: 0 <= i < |s| ==> Lower(s)[i] == LowerChar(s[i])
  {
    if s != [] {
      LowerAt(s[1..]);
      assert forall i :: 1 <= i < |s| ==> Lower(s)[i] == Lower(s[1..])[i - 1];
    }
  }

  lemma {:induction false} ReplaceCharAt(s: string, a: char, b: char)
    ensures |ReplaceChar(s, a, b)| == |s|
    ensures forall i :: 0 <= i < |s| ==> ReplaceChar(s, a, b)[i] == if s[i] == a then b else s[i]
  {
    if s != [] {
      ReplaceCharAt(s[1..], a, b);
      assert forall i :: 1 <= i < |s| ==> ReplaceChar(s, a, b)[i] == ReplaceChar(s[1..], a, b)[i - 1];
    }
  }

  /** Python's `s.find(c)` for a one-character needle: the first index, or -1. */
  function FindChar(s: string, c: char): (r: int)
    ensures -1 <= r < |s|
    ensures r == -1 <==> c !in s
    ensures r >= 0 ==> s[r] == c && c !in s[..r]
  {
    if s == [] then -1
    else if s[0] == c then 0
    else
      var k := FindChar(s[1..], c);
      assert k >= 0 ==> s[..k + 1] == [s[0]] + s[1..][..k];
      if k < 0 then -1 else k + 1
  }

  /** The first occurrence is the one with no occurrence before it. */
  lemma FindCharAt(s: string, c: char, k: nat)
    requires k < |s| && s[k] == c && c !in s[..k]
    ensures FindChar(s, c) == k
  {
    assert s[..k + 1][k] == c;
  }

  /** Python's `sep.join(parts)`. */
  function Join(parts: seq<string>, sep: string): string {
    if |parts| == 0 then ""
    else if |parts| == 1 then parts[0]
    else parts[0] + sep + Join(parts[1..], sep)
  }

  /** Joining two non-empty lists puts one separator between their joins. */
  lemma {:induction false} JoinAppend(a: seq<string>, b: seq<string>, sep: string)
    requires a != [] && b != []
    ensures Join(a + b, sep) == Join(a, sep) + sep + Join(b, sep)
  {
    assert (a + b)[0] == a[0];
    if |a| == 1 {
      assert (a + b)[1..] == b;
    } else {
      assert (a + b)[1..] == a[1..] + b;
      JoinAppend(a[1..], b, sep);
    }
  }

  /** A character in neither the parts nor the separator is not in the join. */
  lemma {:induction false} JoinAvoids(parts: seq<string>, sep: string, c: char)
    requires c !in sep && forall k :: 0 <= k < |parts| ==> c !in parts[k]
    ensures c !in Join(parts, sep)
  {
    if |parts| > 1 {
      JoinAvoids(parts[1..], sep, c);
    }
  }

  /** The join starts with the first part. */
  lemma JoinStartsWithFirst(parts: seq<string>, sep: string)
    requires parts != []
    ensures |parts[0]| <= |Join(parts, sep)| && Join(parts, sep)[..|parts[0]|] == parts[0]
  {
  }

  /** The pieces between the separators, as Python's `s.split(c)`. */
  function SplitOn(s: string, c: char): (r: seq<string>)
    ensures |r| >= 1
    ensures forall k :: 0 <= k < |r| ==> c !in r[k]
    decreases |s|
  {
    var i := FindChar(s, c);
    if i < 0 then [s] else [s[..i]] + SplitOn(s[i + 1..], c)
  }

  /** Python's `s.splitlines()` with "\n" as the only line break. */
  function SplitLines(s: string): seq<string> {
    if s == [] then []
    else
      var pieces := SplitOn(s, '\n');
      if s[|s| - 1] == '\n' then pieces[..|pieces| - 1] else pieces
  }

  /**
   * When `s` does not start with a line break, its first line is non-empty and
   * starts with `s[0]`.
   */
  lemma SplitLinesFirst(s: string)
    requires s != [] && s[0] != '\n'
    ensures SplitLines(s) != [] && SplitLines(s)[0] != [] && SplitLines(s)[0][0] == s[0]
  {
    var i := FindChar(s, '\n');
    var pieces := SplitOn(s, '\n');
    if i < 0 {
      assert pieces == [s];
    } else {
      assert pieces == [s[..i]] + SplitOn(s[i + 1..], '\n');
      assert i > 0;
      if s[|s| - 1] == '\n' {
        assert |pieces| >= 2;
      }
    }
  }

  /** Text without a line break is its own single line. */
  lemma SplitLinesSingle(s: string)
    requires s != [] && '\n' !in s
    ensures SplitLines(s) == [s]
  {
    assert s[|s| - 1] in s;
  }

  /** No line contains a line break. */
  lemma SplitLinesAvoid(s: string)
    ensures forall k :: 0 <= k < |SplitLines(s)| ==> '\n' !in SplitLines(s)[k]
  {
  }

  /** Python's `s.startswith(p)`. */
  predicate StartsWith(s: string, p: string) {
    |p| <= |s| && s[..|p|] == p
  }

  /** Python's `s.endswith(p)`. */
  predicate EndsWith(s: string, p: string) {
    |p| <= |s| && s[|s| - |p|..] == p
  }

  /** A list comprehension `[f(x) for x in s]`. */
  function Map<A, B>(f: A -> B, s: seq<A>): (r: seq<B>)
    ensures |r| == |s| && forall i :: 0 <= i < |s| ==> r[i] == f(s[i])
  {
    seq(|s|, i requires 0 <= i < |s| => f(s[i]))
  }

  lemma MapAppend<A, B>(f: A -> B, a: seq<A>, b: seq<A>)
    ensures Map(f, a + b) == Map(f, a) + Map(f, b)
  {
    assert forall i :: 0 <= i < |a| + |b| ==> Map(f, a + b)[i] == (Map(f, a) + Map(f, b))[i];
  }

  /** Python's `s[:n]`. */
  function Take<T>(s: seq<T>, n: nat): (r: seq<T>)
    ensures |r| <= n && r <= s
    ensures |s| <= n ==> r == s
  {
    if |s| <= n then s else s[..n]
  }

  predicate IsDigit(c: char) {
    '0' <= c <= '9'
  }

  predicate AllDigits(s: string) {
    forall i :: 0 <= i < |s| ==> IsDigit(s[i])
  }

  function DigitChar(d: nat): (c: char)
    requires d < 10
    ensures IsDigit(c) && c as int - '0' as int == d
  {
    ('0' as int + d) as char
  }

  /** The decimal digits of `n`, as Python's `str(n)`. */
  function NatToString(n: nat): (r: string)
    ensures r != [] && AllDigits(r)
  {
    if n < 10 then [DigitChar(n)] else NatToString(n / 10) + [DigitChar(n % 10)]
  }

  /** Python's `str(i)` for an integer. */
  function IntToString(i: int): string {
    if i < 0 then "-" + NatToString(-i) else NatToString(i)
  }

  function DigitsValue(s: string): nat
    requires AllDigits(s)
  {
    if s == [] then 0 else DigitsValue(s[..|s| - 1]) * 10 + (s[|s| - 1] as int - '0' as int)
  }

  /**
   * The integers Python's `float(s)` accepts from a string: surrounding whitespace,
   * an optional sign, decimal digits.
   */
  function ParseInt(s: string): Option<int> {
    var t := Strip(s);
    if |t| > 1 && (t[0] == '-' || t[0] == '+') && AllDigits(t[1..]) then
      var v: int := DigitsValue(t[1..]);
      Some(if t[0] == '-' then -v else v)
    else if |t| > 0 && AllDigits(t) then Some(DigitsValue(t))
    else None
  }

  lemma {:induction false} DigitsValueOfNatToString(n: nat)
    ensures DigitsValue(NatToString(n)) == n
  {
    if n >= 10 {
      var s := NatToString(n / 10) + [DigitChar(n % 10)];
      assert s[..|s| - 1] == NatToString(n / 10);
      DigitsValueOfNatToString(n / 10);
    }
  }

  /** Reading back the text of an integer gives the integer. */
  lemma ParseIntOfIntToString(i: int)
    ensures ParseInt(IntToString(i)) == Some(i)
  {
    var s := IntToString(i);
    var n: nat := if i < 0 then -i else i;
    var d := NatToString(n);
    assert !IsSpace(d[|d| - 1]) && !IsSpace(d[0]);
    assert Stripped(s);
    StripOfStripped(s);
    DigitsValueOfNatToString(n);
    if i < 0 {
      assert s[1..] == d;
    } else {
      assert s == d;
      assert s[0] != '-' && s[0] != '+';
    }
  }
}
