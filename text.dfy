/**
 * The Python string builtins the scripts rely on: `str.strip()` with no
 * argument, `str.find`, `str.rfind` and `str(int)`.
 */
module Text {

  /** Python's `str.isspace()` for one character: the characters `str.strip()` removes by default. */
  predicate IsSpace(c: char)
  {
    || ('\t' <= c <= '\r')
    || ('\U{1C}' <= c <= ' ')
    || c == '\U{85}' || c == '\U{A0}' || c == '\U{1680}'
    || ('\U{2000}' <= c <= '\U{200A}')
    || c == '\U{2028}' || c == '\U{2029}' || c == '\U{202F}' || c == '\U{205F}' || c == '\U{3000}'
  }

  predicate AllSpace(s: string)
  {
    forall k :: 0 <= k < |s| ==> IsSpace(s[k])
  }

  /** Neither the first nor the last character is whitespace. */
  predicate Trimmed(s: string)
  {
    s == [] || (!IsSpace(s[0]) && !IsSpace(s[|s| - 1]))
  }

  /** `s.lstrip()`: `s` without its leading whitespace. */
  function TrimStart(s: string): string
  {
    if s != [] && IsSpace(s[0]) then TrimStart(s[1..]) else s
  }

  /** `s.rstrip()`: `s` without its trailing whitespace. */
  function TrimEnd(s: string): string
  {
    if s != [] && IsSpace(s[|s| - 1]) then TrimEnd(s[..|s| - 1]) else s
  }

  /** `s.strip()`: `s` without its leading and trailing whitespace. */
  function Strip(s: string): string
  {
    TrimEnd(TrimStart(s))
  }

  /** `lstrip` drops a whitespace prefix and leaves a suffix that does not start with whitespace. */
  lemma {:induction false} TrimStartShape(s: string)
    ensures var r := TrimStart(s);
      |r| <= |s| && r == s[|s| - |r|..] && AllSpace(s[..|s| - |r|]) && (r == [] || !IsSpace(r[0]))
  {
    if s != [] && IsSpace(s[0]) {
      TrimStartShape(s[1..]);
      var r := TrimStart(s);
      assert r == TrimStart(s[1..]);
      assert s[..|s| - |r|] == [s[0]] + s[1..][..|s| - 1 - |r|];
    }
  }

  /** `rstrip` drops a whitespace suffix and leaves a prefix that does not end with whitespace. */
  lemma {:induction false} TrimEndShape(s: string)
    ensures var r := TrimEnd(s);
      |r| <= |s| && r == s[..|r|] && AllSpace(s[|r|..]) && (r == [] || !IsSpace(r[|r| - 1]))
  {
    if s != [] && IsSpace(s[|s| - 1]) {
      var init := s[..|s| - 1];
      TrimEndShape(init);
      var r := TrimEnd(s);
      assert r == TrimEnd(init);
      assert s[|r|..] == init[|r|..] + [s[|s| - 1]];
    }
  }

  /** Stripping splits `s` into whitespace, a trimmed middle part and whitespace. */
  lemma StripSplits(s: string)
    ensures Trimmed(Strip(s)) && |Strip(s)| <= |s|
    ensures exists p, q :: s == p + Strip(s) + q && AllSpace(p) && AllSpace(q)
  {
    var t := TrimStart(s);
    TrimStartShape(s);
    var p := s[..|s| - |t|];
    var r := TrimEnd(t);
    TrimEndShape(t);
    var q := t[|r|..];
    assert t == r + q;
    assert s == p + t;
    assert s == p + r + q;
    if r != [] {
      assert r[0] == t[0];
    }
  }

  /**
   * The split is unique: any way of writing `s` as whitespace, a trimmed
   * middle part and whitespace has `Strip(s)` as its middle part.
   */
  lemma {:induction false} StripUnique(s: string, p: string, m: string, q: string)
    requires s == p + m + q && AllSpace(p) && AllSpace(q) && Trimmed(m)
    ensures m == Strip(s)
  {
    if m == [] {
      assert AllSpace(s) by {
        forall k | 0 <= k < |s| ensures IsSpace(s[k]) {
          if k < |p| { assert s[k] == p[k]; } else { assert s[k] == q[k - |p|]; }
        }
      }
      AllSpaceStrip(s);
    } else {
      TrimStartOfPadded(p, m + q);
      assert s == p + (m + q);
      assert TrimStart(s) == m + q;
      TrimEndOfPadded(m, q);
    }
  }

  lemma {:induction false} AllSpaceStrip(s: string)
    requires AllSpace(s)
    ensures TrimStart(s) == [] && Strip(s) == []
    decreases |s|
  {
    if s != [] {
      assert AllSpace(s[1..]) by {
        forall k | 0 <= k < |s[1..]| ensures IsSpace(s[1..][k]) { assert s[1..][k] == s[k + 1]; }
      }
      AllSpaceStrip(s[1..]);
    }
  }

  lemma {:induction false} TrimStartOfPadded(p: string, t: string)
    requires AllSpace(p) && t != [] && !IsSpace(t[0])
    ensures TrimStart(p + t) == t
    decreases |p|
  {
    if p == [] {
      assert p + t == t;
    } else {
      assert (p + t)[1..] == p[1..] + t;
      TrimStartOfPadded(p[1..], t);
    }
  }

  lemma {:induction false} TrimEndOfPadded(t: string, q: string)
    requires AllSpace(q) && t != [] && !IsSpace(t[|t| - 1])
    ensures TrimEnd(t + q) == t
    decreases |q|
  {
    if q == [] {
      assert t + q == t;
    } else {
      assert (t + q)[..|t + q| - 1] == t + q[..|q| - 1];
      TrimEndOfPadded(t, q[..|q| - 1]);
    }
  }

  /** A string with no surrounding whitespace strips to itself. */
  lemma StripTrimmed(s: string)
    requires Trimmed(s)
    ensures Strip(s) == s
  {
    assert s == [] + s + [];
    StripUnique(s, [], s, []);
  }

  /** Stripping twice is stripping once. */
  lemma StripIdempotent(s: string)
    ensures Strip(Strip(s)) == Strip(s)
  {
    StripSplits(s);
    StripTrimmed(Strip(s));
  }

  /** `s.find(c)` (and `list.index` without the exception): the index of the first `c` in `s`, or -1 when there is none. */
  function Find<T(==)>(s: seq<T>, c: T): (r: int)
    ensures -1 <= r < |s|
    ensures r == -1 <==> c !in s
    ensures r >= 0 ==> s[r] == c && c !in s[..r]
  {
    if s == [] then -1
    else if s[0] == c then 0
    else
      var k := Find(s[1..], c);
      assert s[1..][..if k < 0 then 0 else k] == s[1..if k < 0 then 1 else k + 1];
      if k < 0 then -1 else k + 1
  }

  /** The index of a `c` with no `c` before it is what `s.find(c)` returns. */
  lemma FindAt<T>(s: seq<T>, c: T, i: int)
    requires 0 <= i < |s| && s[i] == c && c !in s[..i]
    ensures Find(s, c) == i
  {
  }

  /** `s.find(c)` is at or before every `c` in `s`. */
  lemma {:induction false} FindFirst<T>(s: seq<T>, c: T, i: int)
    requires 0 <= i < |s| && s[i] == c
    ensures 0 <= Find(s, c) <= i
  {
    if s[0] != c {
      FindFirst(s[1..], c, i - 1);
    }
  }

  /** `s.rfind(c)`: the index of the last `c` in `s`, or -1 when there is none. */
  function RFind(s: string, c: char): (r: int)
    ensures -1 <= r < |s|
    ensures r == -1 <==> c !in s
    ensures r >= 0 ==> s[r] == c && c !in s[r + 1..]
  {
    if s == [] then -1
    else if s[|s| - 1] == c then |s| - 1
    else
      var init := s[..|s| - 1];
      var k := RFind(init, c);
      assert s == init + [s[|s| - 1]];
      assert k >= 0 ==> s[k + 1..] == init[k + 1..] + [s[|s| - 1]];
      k
  }

  /** `s.rfind(c)` is at or after every `c` in `s`. */
  lemma {:induction false} RFindLast(s: string, c: char, i: int)
    requires 0 <= i < |s| && s[i] == c
    ensures i <= RFind(s, c) < |s|
  {
    if s[|s| - 1] != c {
      RFindLast(s[..|s| - 1], c, i);
    }
  }

  function DigitChar(d: nat): (c: char)
    requires d < 10
    ensures '0' <= c <= '9' && (c as int) - ('0' as int) == d
  {
    ['0', '1', '2', '3', '4', '5', '6', '7', '8', '9'][d]
  }

  predicate IsDigit(c: char) { '0' <= c <= '9' }

  /** Decimal digits of `n`, most significant first, with no leading zero. */
  function NatToString(n: nat): (r: string)
    ensures r != [] && forall k :: 0 <= k < |r| ==> IsDigit(r[k])
    ensures r[0] == '0' ==> n == 0 && r == "0"
  {
    if n < 10 then [DigitChar(n)] else NatToString(n / 10) + [DigitChar(n % 10)]
  }

  /** Python's `str(i)` for an int: an optional minus sign, then the decimal digits. */
  function IntToString(i: int): string
  {
    if i < 0 then "-" + NatToString(-i) else NatToString(i)
  }

  /** The value of a string of decimal digits. */
  function DigitsValue(s: string): nat
    requires forall k :: 0 <= k < |s| ==> IsDigit(s[k])
  {
    if s == [] then 0
    else
      var last := s[|s| - 1];
      assert IsDigit(last);
      10 * DigitsValue(s[..|s| - 1]) + ((last as int) - ('0' as int))
  }

  /** Reading the digits of `str(n)` back gives `n`. */
  lemma {:induction false} NatToStringRoundTrip(n: nat)
    ensures DigitsValue(NatToString(n)) == n
  {
    if n >= 10 {
      var s := NatToString(n);
      assert s[..|s| - 1] == NatToString(n / 10);
      NatToStringRoundTrip(n / 10);
    }
  }

  /** Python's `int(s)` on the text `str(i)` prints: an optional minus sign, then digits. */
  function IntValue(s: string): int
    requires s != [] && (s[0] == '-' || IsDigit(s[0]))
    requires forall k :: 1 <= k < |s| ==> IsDigit(s[k])
  {
    if s[0] == '-' then 0 - DigitsValue(s[1..]) as int else DigitsValue(s)
  }

  /** Reading `str(i)` back gives `i`; in particular distinct ints print differently. */
  lemma IntToStringRoundTrip(i: int)
    ensures var s := IntToString(i);
      s != [] && (s[0] == '-' || IsDigit(s[0])) && (forall k :: 1 <= k < |s| ==> IsDigit(s[k])) &&
      IntValue(s) == i
  {
    var n := if i < 0 then -i else i;
    var d := NatToString(n);
    NatToStringRoundTrip(n);
    if i < 0 {
      assert IntToString(i)[1..] == d;
    }
  }
}
