/** The Python string operations the scraper relies on, over `string` (a sequence of
    code points): `str(n)` of an int, `in` on strings, `replace(c, "")`, slicing `[:n]`,
    `split(sep)`, `strip()` and `capitalize()`. */
module Text {

  import opened Wrappers

  predicate IsDigit(c: char) {
    '0' <= c <= '9'
  }

  predicate AllDigits(s: string) {
    forall i :: 0 <= i < |s| ==> IsDigit(s[i])
  }

  function DigitValue(c: char): nat
    requires IsDigit(c)
  {
    c as int - '0' as int
  }

  function DigitChar(d: nat): (c: char)
    requires d < 10
    ensures IsDigit(c) && DigitValue(c) == d
  {
    (48 + d) as char
  }

  // ---------------------------------------------------------------------------
  // Decimal rendering of integers, as f'{n}' / str(n) does it

  /** `str(n)` for a non-negative int: decimal digits without padding or sign. */
  function NatToString(n: nat): (s: string)
    ensures 1 <= |s| && AllDigits(s)
    ensures s[0] == '0' ==> n == 0
    ensures n < 10 <==> |s| == 1
    decreases n
  {
    if n < 10 then [DigitChar(n)] else NatToString(n / 10) + [DigitChar(n % 10)]
  }

  /** `str(i)` for any int: a minus sign in front of negative numbers. */
  function IntToString(i: int): (s: string)
    ensures 1 <= |s|
    ensures i >= 0 ==> s == NatToString(i)
  {
    if i < 0 then "-" + NatToString(-i) else NatToString(i)
  }

  /** `int(s)` for a string of decimal digits (the inverse of NatToString). */
  function ParseNat(s: string): nat
    requires AllDigits(s)
  {
    if s == [] then 0 else 10 * ParseNat(s[..|s| - 1]) + DigitValue(s[|s| - 1])
  }

  lemma {:induction false} ParseNatToString(n: nat)
    ensures ParseNat(NatToString(n)) == n
    decreases n
  {
    if n >= 10 {
      var s := NatToString(n);
      assert s[..|s| - 1] == NatToString(n / 10);
      ParseNatToString(n / 10);
    }
  }

  lemma NatToStringInjective(a: nat, b: nat)
    requires NatToString(a) == NatToString(b)
    ensures a == b
  {
    ParseNatToString(a);
    ParseNatToString(b);
  }

  lemma IntToStringInjective(a: int, b: int)
    requires IntToString(a) == IntToString(b)
    ensures a == b
  {
    var s := IntToString(a);
    if a < 0 && b < 0 {
      assert NatToString(-a) == s[1..] == NatToString(-b);
      NatToStringInjective(-a, -b);
    } else if a >= 0 && b >= 0 {
      NatToStringInjective(a, b);
    }
  }

  /** Years of this century: the decimal of 2000 + k is "20" followed by that of k, for two-digit k. */
  lemma TwoDigitYear(k: nat)
    requires 10 <= k < 100
    ensures NatToString(2000 + k) == "20" + NatToString(k)
  {
    var d1, d0 := k / 10, k % 10;
    assert (2000 + k) / 10 == 200 + d1 && (2000 + k) % 10 == d0;
    assert (200 + d1) / 10 == 20 && (200 + d1) % 10 == d1;
    assert NatToString(20) == "20" by {
      assert NatToString(2) == "2";
    }
    assert NatToString(2000 + k) == "20" + [DigitChar(d1)] + [DigitChar(d0)];
    assert NatToString(k) == [DigitChar(d1)] + [DigitChar(d0)];
  }

  /** Position of the first occurrence of c in s (|s| when there is none). */
  function FirstIndex(s: string, c: char): (i: nat)
    ensures i <= |s|
  {
    if s == [] || s[0] == c then 0 else 1 + FirstIndex(s[1..], c)
  }

  lemma {:induction false} FirstIndexOfField(x: string, y: string, sep: char)
    requires sep !in x
    ensures FirstIndex(x + [sep] + y, sep) == |x|
  {
    if x != [] {
      assert (x + [sep] + y)[1..] == x[1..] + [sep] + y;
      FirstIndexOfField(x[1..], y, sep);
    }
  }

  /** Two strings that each start with a separator-free field split the same way. */
  lemma SplitAtSeparator(x1: string, y1: string, x2: string, y2: string, sep: char)
    requires sep !in x1 && sep !in x2
    requires x1 + [sep] + y1 == x2 + [sep] + y2
    ensures x1 == x2 && y1 == y2
  {
    var s := x1 + [sep] + y1;
    FirstIndexOfField(x1, y1, sep);
    FirstIndexOfField(x2, y2, sep);
    assert x1 == s[..|x1|] == x2;
    assert y1 == s[|x1| + 1..] == y2;
  }

  // ---------------------------------------------------------------------------
  // Substring test

  predicate IsPrefix(p: string, s: string) {
    |p| <= |s| && s[..|p|] == p
  }

  /** Python's `sub in s`. */
  predicate Contains(s: string, sub: string)
    decreases |s|
  {
    IsPrefix(sub, s) || (|s| > 0 && Contains(s[1..], sub))
  }

  // ---------------------------------------------------------------------------
  // replace, slicing and split

  /** `s.replace(c, "")`. */
  function RemoveChar(s: string, c: char): (r: string)
    ensures c !in r
    ensures |r| <= |s|
  {
    if s == [] then [] else (if s[0] == c then [] else [s[0]]) + RemoveChar(s[1..], c)
  }

  /** `s[:n]`: at most the first n characters. */
  function Take(s: string, n: nat): (r: string)
    ensures |r| <= n && IsPrefix(r, s)
  {
    if |s| <= n then s else s[..n]
  }

  /** `s.split(sep)` for a one-character separator: the pieces between separators,
      empty pieces included, so there is always one more piece than separators. */
  function Split(s: string, sep: char): (parts: seq<string>)
    ensures |parts| >= 1
    ensures forall i :: 0 <= i < |parts| ==> sep !in parts[i]
  {
    if s == [] then [[]]
    else
      var rest := Split(s[1..], sep);
      if s[0] == sep then [[]] + rest else [[s[0]] + rest[0]] + rest[1..]
  }

  /** `sep.join(parts)`. */
  function Join(parts: seq<string>, sep: char): string
    requires |parts| >= 1
  {
    if |parts| == 1 then parts[0] else parts[0] + [sep] + Join(parts[1..], sep)
  }

  /** Joining one more piece appends the separator and the piece. */
  lemma {:induction false} JoinAppend(parts: seq<string>, p: string, sep: char)
    requires |parts| >= 1
    ensures Join(parts + [p], sep) == Join(parts, sep) + [sep] + p
  {
    if |parts| == 1 {
      assert (parts + [p])[1..] == [p];
    } else {
      assert (parts + [p])[1..] == parts[1..] + [p];
      JoinAppend(parts[1..], p, sep);
    }
  }

  /** Splitting loses nothing: joining the pieces gives back the string. */
  lemma {:induction false} JoinSplit(s: string, sep: char)
    ensures Join(Split(s, sep), sep) == s
  {
    if s != [] {
      var rest := Split(s[1..], sep);
      JoinSplit(s[1..], sep);
      var parts := Split(s, sep);
      if s[0] == sep {
        assert parts[1..] == rest;
      } else if |rest| > 1 {
        assert parts[1..] == rest[1..];
        assert Join(rest, sep) == rest[0] + [sep] + Join(rest[1..], sep);
      }
    }
  }

  /** A string without the separator is a single piece. */
  lemma {:induction false} SplitWithoutSeparator(s: string, sep: char)
    requires sep !in s
    ensures Split(s, sep) == [s]
  {
    if s != [] {
      assert sep !in s[1..];
      SplitWithoutSeparator(s[1..], sep);
      assert s == [s[0]] + s[1..];
    }
  }

  /** `s.split(sep)[-1]`: what follows the last separator (all of s when there is none). */
  function LastSegment(s: string, sep: char): string {
    var parts := Split(s, sep);
    parts[|parts| - 1]
  }

  /** `s.split(sep)[-2]`, which raises IndexError when s has no separator. */
  function SecondToLastSegment(s: string, sep: char): Option<string> {
    var parts := Split(s, sep);
    if |parts| < 2 then None else Some(parts[|parts| - 2])
  }

  /** The last segment is a separator-free suffix, preceded by a separator unless it is all of s. */
  lemma {:induction false} LastSegmentIsSuffix(s: string, sep: char)
    ensures var last := LastSegment(s, sep);
      sep !in last && |last| <= |s| && s[|s| - |last|..] == last &&
      (|last| < |s| ==> s[|s| - |last| - 1] == sep)
  {
    if s != [] {
      var t := s[1..];
      LastSegmentIsSuffix(t, sep);
      var rest := Split(t, sep);
      if s[0] != sep && |rest| == 1 {
        JoinSplit(t, sep);
        assert LastSegment(s, sep) == [s[0]] + t;
        assert [s[0]] + t == s;
      } else {
        var last := LastSegment(t, sep);
        assert LastSegment(s, sep) == last;
        assert s[|s| - |last|..] == t[|t| - |last|..];
        if |last| == |t| {
          assert last == t;
          if s[0] != sep {
            SplitWithoutSeparator(t, sep);
            assert false;
          }
        } else {
          assert s[|s| - |last| - 1] == t[|t| - |last| - 1];
        }
      }
    }
  }

  // ---------------------------------------------------------------------------
  // strip

  /** Python's `str.isspace` for one character. */
  predicate IsSpace(c: char) {
    ('\t' <= c <= '\r') || ('\U{1C}' <= c <= ' ') || c == '\U{85}' || c == '\U{A0}' ||
    c == '\U{1680}' || ('\U{2000}' <= c <= '\U{200A}') || c == '\U{2028}' ||
    c == '\U{2029}' || c == '\U{202F}' || c == '\U{205F}' || c == '\U{3000}'
  }

  function TrimStart(s: string): string {
    if s != [] && IsSpace(s[0]) then TrimStart(s[1..]) else s
  }

  function TrimEnd(s: string): string {
    if s != [] && IsSpace(s[|s| - 1]) then TrimEnd(s[..|s| - 1]) else s
  }

  lemma {:induction false} TrimStartSpec(s: string)
    ensures var r := TrimStart(s);
      |r| <= |s| && r == s[|s| - |r|..] && (r == [] || !IsSpace(r[0]))
  {
    if s != [] && IsSpace(s[0]) {
      TrimStartSpec(s[1..]);
    }
  }

  lemma {:induction false} TrimEndSpec(s: string)
    ensures var r := TrimEnd(s);
      IsPrefix(r, s) && (r == [] || !IsSpace(r[|r| - 1]))
  {
    if s != [] && IsSpace(s[|s| - 1]) {
      TrimEndSpec(s[..|s| - 1]);
    }
  }

  /** `s.strip()`: whitespace removed from both ends. */
  function Strip(s: string): string {
    TrimEnd(TrimStart(s))
  }

  /** The stripped string is a piece of s with no whitespace at either end. */
  lemma StripSpec(s: string)
    ensures var r := Strip(s);
      (r == [] || (!IsSpace(r[0]) && !IsSpace(r[|r| - 1]))) &&
      exists i, j :: 0 <= i <= j <= |s| && r == s[i..j]
  {
    var t := TrimStart(s);
    var r := TrimEnd(t);
    TrimStartSpec(s);
    TrimEndSpec(t);
    assert r == s[|s| - |t|..][..|r|] == s[|s| - |t|..|s| - |t| + |r|];
    if r != [] {
      assert r[0] == t[0];
    }
  }

  // ---------------------------------------------------------------------------
  // capitalize

  /** Upper case of ASCII and Latin-1 lower-case letters; every other character is kept. */
  function ToUpper(c: char): char {
    if 'a' <= c <= 'z' || ('\U{E0}' <= c <= '\U{FE}' && c != '\U{F7}') then (c as int - 32) as char else c
  }

  /** Lower case of ASCII and Latin-1 upper-case letters; every other character is kept. */
  function ToLower(c: char): char {
    if 'A' <= c <= 'Z' || ('\U{C0}' <= c <= '\U{DE}' && c != '\U{D7}') then (c as int + 32) as char else c
  }

  function Lower(s: string): (r: string)
    ensures |r| == |s|
  {
    seq(|s|, i requires 0 <= i < |s| => ToLower(s[i]))
  }

  /** `s.capitalize()`: first character upper case, the rest lower case. */
  function Capitalize(s: string): (r: string)
    ensures |r| == |s|
    ensures r != [] ==> r[0] == ToUpper(s[0]) && r[1..] == Lower(s[1..])
  {
    if s == [] then [] else [ToUpper(s[0])] + Lower(s[1..])
  }

  /** Capitalising twice is capitalising once, so capitalised keys are fixed points. */
  lemma CapitalizeIdempotent(s: string)
    ensures Capitalize(Capitalize(s)) == Capitalize(s)
  {
    if s != [] {
      var c := Capitalize(s);
      assert Lower(c[1..]) == Lower(s[1..]);
    }
  }
}
