/** String operations that the scripts use through Python built-ins. */
module Strings {

  /** Python's `s.startswith(prefix)`. */
  predicate StartsWith(s: string, prefix: string) {
    |prefix| <= |s| && s[..|prefix|] == prefix
  }

  /** Python's `s.endswith(suffix)`. */
  predicate EndsWith(s: string, suffix: string) {
    |suffix| <= |s| && s[|s| - |suffix|..] == suffix
  }

  /** Python's `s.endswith(suffixes)` with a tuple of suffixes: some suffix matches. */
  predicate EndsWithAny(s: string, suffixes: seq<string>) {
    exists i :: 0 <= i < |suffixes| && EndsWith(s, suffixes[i])
  }

  /** Python's `str.lower()` restricted to ASCII: A-Z become a-z, every other character is kept. */
  function LowerChar(c: char): char {
    if 'A' <= c <= 'Z' then (c as int - 'A' as int + 'a' as int) as char else c
  }

  function Lower(s: string): (r: string)
    ensures |r| == |s|
    ensures forall i :: 0 <= i < |s| ==> r[i] == LowerChar(s[i])
  {
    seq(|s|, i requires 0 <= i < |s| => LowerChar(s[i]))
  }

  /**
   * Lower-casing leaves no capital letter, moves each capital 32 code points up to its
   * small letter, and keeps every other character.
   */
  lemma LowerSpec(s: string)
    ensures forall i :: 0 <= i < |s| ==> !('A' <= Lower(s)[i] <= 'Z')
    ensures forall i :: 0 <= i < |s| && 'A' <= s[i] <= 'Z' ==> Lower(s)[i] as int == s[i] as int + 32
    ensures forall i :: 0 <= i < |s| && !('A' <= s[i] <= 'Z') ==> Lower(s)[i] == s[i]
  {
  }

  /** Lower-casing twice is lower-casing once. */
  lemma LowerIdempotent(s: string)
    ensures Lower(Lower(s)) == Lower(s)
  {
    LowerSpec(s);
  }

  /** `sub` occurs in `s` starting at index `i`. */
  predicate OccursAt(s: string, sub: string, i: int) {
    0 <= i && i + |sub| <= |s| && s[i..i + |sub|] == sub
  }

  /** Python's `sub in s`, computed by trying every start position from the left. */
  function Contains(s: string, sub: string): bool
    decreases |s|
  {
    StartsWith(s, sub) || (|s| > 0 && Contains(s[1..], sub))
  }

  /** The left-to-right scan finds `sub` exactly when it occurs somewhere in `s`. */
  lemma {:induction false} ContainsIff(s: string, sub: string)
    ensures Contains(s, sub) <==> exists i :: OccursAt(s, sub, i)
    decreases |s|
  {
    if StartsWith(s, sub) {
      assert OccursAt(s, sub, 0);
    } else if |s| == 0 {
      assert !exists i :: OccursAt(s, sub, i);
    } else {
      ContainsIff(s[1..], sub);
      if Contains(s[1..], sub) {
        var i :| OccursAt(s[1..], sub, i);
        assert s[1..][i..i + |sub|] == s[i + 1..i + 1 + |sub|];
        assert OccursAt(s, sub, i + 1);
      }
      if exists i :: OccursAt(s, sub, i) {
        var i :| OccursAt(s, sub, i);
        assert i != 0;
        assert s[1..][i - 1..i - 1 + |sub|] == s[i..i + |sub|];
        assert OccursAt(s[1..], sub, i - 1);
      }
    }
  }

  /** Index of the first occurrence of `c` in `s`. */
  function IndexOf(s: string, c: char): (i: nat)
    requires c in s
    ensures i < |s| && s[i] == c && c !in s[..i]
  {
    if s[0] == c then 0 else 1 + IndexOf(s[1..], c)
  }

  /** Index of the last occurrence of `c`, or -1. */
  function LastIndexOf(p: string, c: char): (i: int)
    ensures -1 <= i < |p|
    ensures i >= 0 ==> p[i] == c
    ensures forall j :: i < j < |p| ==> p[j] != c
  {
    if p == [] then -1
    else if p[|p| - 1] == c then |p| - 1
    else LastIndexOf(p[..|p| - 1], c)
  }

  /** Python's `s.split(sep)` for a one-character separator. */
  function Split(s: string, sep: char): (parts: seq<string>)
    ensures |parts| >= 1
    ensures forall k :: 0 <= k < |parts| ==> sep !in parts[k]
    ensures |parts| > 1 <==> sep in s
    decreases |s|
  {
    if sep !in s then [s]
    else
      var i := IndexOf(s, sep);
      [s[..i]] + Split(s[i + 1..], sep)
  }

  /** Python's `sep.join(parts)` for a one-character separator. */
  function Join(parts: seq<string>, sep: char): string {
    if |parts| == 0 then ""
    else if |parts| == 1 then parts[0]
    else parts[0] + [sep] + Join(parts[1..], sep)
  }

  /** Joining the parts of a split gives back the original string. */
  lemma {:induction false} JoinSplit(s: string, sep: char)
    ensures Join(Split(s, sep), sep) == s
    decreases |s|
  {
    if sep in s {
      var i := IndexOf(s, sep);
      var rest := Split(s[i + 1..], sep);
      JoinSplit(s[i + 1..], sep);
      assert Split(s, sep) == [s[..i]] + rest;
      assert s == s[..i] + [sep] + s[i + 1..];
    }
  }

  /** Joining all parts equals joining all but the last, the separator, and the last part. */
  lemma {:induction false} JoinDropLast(parts: seq<string>, sep: char)
    requires |parts| >= 2
    ensures Join(parts, sep) == Join(parts[..|parts| - 1], sep) + [sep] + parts[|parts| - 1]
    decreases |parts|
  {
    if |parts| > 2 {
      JoinDropLast(parts[1..], sep);
      assert parts[1..][..|parts| - 2] == parts[..|parts| - 1][1..];
    } else {
      assert parts[..1] == [parts[0]];
    }
  }

  /** The character for a decimal digit. */
  function DigitChar(d: nat): char
    requires d < 10
  {
    ('0' as int + d) as char
  }

  predicate IsDigit(c: char) {
    '0' <= c <= '9'
  }

  predicate AllDigits(s: string) {
    forall i :: 0 <= i < |s| ==> IsDigit(s[i])
  }

  /** Python's `str(n)` for a non-negative integer: decimal digits, no leading zeros. */
  function NatToString(n: nat): (r: string)
    decreases n
  {
    if n < 10 then [DigitChar(n)] else NatToString(n / 10) + [DigitChar(n % 10)]
  }

  /** Python's `str(i)` for any integer. */
  function IntToString(i: int): string {
    if i < 0 then "-" + NatToString(-i) else NatToString(i)
  }

  /** The value of a string of decimal digits. */
  function DigitsValue(s: string): nat
    requires AllDigits(s)
  {
    if s == [] then 0
    else DigitsValue(s[..|s| - 1]) * 10 + (s[|s| - 1] as int - '0' as int)
  }

  /** Reading back the digits of `str(n)` gives `n`. */
  lemma {:induction false} NatToStringRoundTrip(n: nat)
    ensures |NatToString(n)| >= 1 && AllDigits(NatToString(n))
    ensures DigitsValue(NatToString(n)) == n
    decreases n
  {
    if n >= 10 {
      NatToStringRoundTrip(n / 10);
      var s := NatToString(n);
      assert s[..|s| - 1] == NatToString(n / 10);
    }
  }

  /** Different integers print differently. */
  lemma IntToStringInjective(a: int, b: int)
    ensures IntToString(a) == IntToString(b) <==> a == b
  {
    NatToStringRoundTrip(if a < 0 then -a else a);
    NatToStringRoundTrip(if b < 0 then -b else b);
    if IntToString(a) == IntToString(b) {
      var sa := NatToString(if a < 0 then -a else a);
      var sb := NatToString(if b < 0 then -b else b);
      assert sa[0] != '-' && sb[0] != '-';
      if a < 0 && b < 0 {
        assert sa == IntToString(a)[1..] == IntToString(b)[1..] == sb;
      }
    }
  }

  /** Lower-casing keeps a matching suffix matching once the suffix is lower-cased too. */
  lemma LowerEndsWith(s: string, suffix: string)
    requires EndsWith(s, suffix)
    ensures EndsWith(Lower(s), Lower(suffix))
  {
    var start := |s| - |suffix|;
    forall i | 0 <= i < |suffix| ensures Lower(s)[start + i] == Lower(suffix)[i] {
      assert s[start + i] == suffix[i];
    }
  }

  /** The last occurrence of a character is the one after which it no longer occurs. */
  lemma {:induction false} LastIndexOfAt(front: string, c: char, back: string)
    requires c !in back
    ensures LastIndexOf(front + [c] + back, c) == |front|
    decreases |back|
  {
    var s := front + [c] + back;
    if back == [] {
      assert s[|s| - 1] == c;
    } else {
      var init := back[..|back| - 1];
      assert back[|back| - 1] in back;
      assert s[..|s| - 1] == front + [c] + init;
      LastIndexOfAt(front, c, init);
    }
  }

  /** Dropping the last part of a split and joining the rest cuts the string at the separator's last occurrence. */
  lemma JoinAllButLast(s: string, sep: char)
    requires sep in s
    ensures var parts := Split(s, sep);
      Join(parts[..|parts| - 1], sep) == s[..LastIndexOf(s, sep)]
  {
    var parts := Split(s, sep);
    var front := Join(parts[..|parts| - 1], sep);
    var back := parts[|parts| - 1];
    assert sep !in back;
    JoinSplit(s, sep);
    JoinDropLast(parts, sep);
    assert s == front + [sep] + back;
    LastIndexOfAt(front, sep, back);
    assert LastIndexOf(s, sep) == |front|;
    assert s[..|front|] == front;
  }

  /** Matching some suffix of a list carries over to any list holding all of those suffixes. */
  lemma EndsWithAnyMonotone(s: string, xs: seq<string>, ys: seq<string>)
    requires forall i :: 0 <= i < |xs| ==> xs[i] in ys
    ensures EndsWithAny(s, xs) ==> EndsWithAny(s, ys)
  {
    if EndsWithAny(s, xs) {
      var i :| 0 <= i < |xs| && EndsWith(s, xs[i]);
      var j :| 0 <= j < |ys| && ys[j] == xs[i];
    }
  }

  /** Matching some suffix carries over to the lower-cased string when every lower-cased suffix is listed. */
  lemma EndsWithAnyLower(s: string, xs: seq<string>, ys: seq<string>)
    requires forall i :: 0 <= i < |xs| ==> Lower(xs[i]) in ys
    ensures EndsWithAny(s, xs) ==> EndsWithAny(Lower(s), ys)
  {
    if EndsWithAny(s, xs) {
      var i :| 0 <= i < |xs| && EndsWith(s, xs[i]);
      LowerEndsWith(s, xs[i]);
      var j :| 0 <= j < |ys| && ys[j] == Lower(xs[i]);
    }
  }
}
