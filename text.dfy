/** String helpers that mirror the Python `str` methods the core calls. */
module Text {

  /** ASCII upper-casing of one character (`str.upper` on the symbol alphabet). */
  function UpperChar(c: char): char
  {
    if 'a' <= c <= 'z' then (c as int - 'a' as int + 'A' as int) as char else c
  }

  predicate IsLower(c: char)
  {
    'a' <= c <= 'z'
  }

  /** `s.upper()`. */
  function Upper(s: string): (r: string)
    ensures |r| == |s|
    ensures forall i :: 0 <= i < |s| ==> r[i] == UpperChar(s[i])
    ensures forall i :: 0 <= i < |r| ==> !IsLower(r[i])
  {
    seq(|s|, i requires 0 <= i < |s| => UpperChar(s[i]))
  }

  lemma UpperIdempotent(s: string)
    ensures Upper(Upper(s)) == Upper(s)
  {
  }

  predicate StartsWith(s: string, prefix: string)
  {
    |prefix| <= |s| && s[..|prefix|] == prefix
  }

  /** A prefix put in front of both a string and its prefix keeps it a prefix. */
  lemma StartsWithConcat(a: string, b: string, p: string)
    requires StartsWith(b, p)
    ensures StartsWith(a + b, a + p)
  {
    assert (a + b)[..|a + p|] == a + b[..|p|];
  }

  predicate EndsWith(s: string, suffix: string)
  {
    |suffix| <= |s| && s[|s| - |suffix|..] == suffix
  }

  /** `s.replace(pat, rep)`: one left-to-right pass replacing every
      non-overlapping occurrence of a non-empty `pat`. */
  function ReplaceAll(s: string, pat: string, rep: string): (r: string)
    requires |pat| > 0
    ensures rep == pat ==> r == s
    decreases |s|
  {
    if |s| < |pat| then s
    else if s[..|pat|] == pat then rep + ReplaceAll(s[|pat|..], pat, rep)
    else [s[0]] + ReplaceAll(s[1..], pat, rep)
  }

  /** Number of occurrences the same left-to-right pass finds. */
  function Occurrences(s: string, pat: string): nat
    requires |pat| > 0
    decreases |s|
  {
    if |s| < |pat| then 0
    else if s[..|pat|] == pat then 1 + Occurrences(s[|pat|..], pat)
    else Occurrences(s[1..], pat)
  }

  /** Every occurrence is replaced: the length changes by exactly
      |rep| - |pat| per occurrence. */
  lemma {:induction false} ReplaceAllLength(s: string, pat: string, rep: string)
    requires |pat| > 0
    ensures |ReplaceAll(s, pat, rep)| == |s| + Occurrences(s, pat) * (|rep| - |pat|)
    decreases |s|
  {
    if |s| < |pat| {
    } else if s[..|pat|] == pat {
      var rest := s[|pat|..];
      ReplaceAllLength(rest, pat, rep);
      MulStep(Occurrences(rest, pat), |rep| - |pat|);
    } else {
      ReplaceAllLength(s[1..], pat, rep);
    }
  }

  lemma MulStep(o: int, d: int)
    ensures (o + 1) * d == o * d + d
  {
  }

  /** A string without an occurrence of `pat` is left as it is. */
  lemma {:induction false} ReplaceAllAbsent(s: string, pat: string, rep: string)
    requires |pat| > 0 && Occurrences(s, pat) == 0
    ensures ReplaceAll(s, pat, rep) == s
    decreases |s|
  {
    if |s| < |pat| {
    } else {
      assert s[..|pat|] != pat;
      ReplaceAllAbsent(s[1..], pat, rep);
      assert [s[0]] + s[1..] == s;
    }
  }

  /** No proper suffix of `p` is also a prefix of it, so two occurrences of
      `p` can never overlap. */
  predicate Unbordered(p: string)
  {
    forall k :: 0 < k < |p| ==> p[k..] != p[..|p| - k]
  }

  /** Appending an unbordered pattern appends exactly one replacement: the
      pass never matches across the junction. */
  lemma {:induction false} ReplaceAllAppend(x: string, p: string, rep: string)
    requires |p| > 0 && Unbordered(p)
    ensures ReplaceAll(x + p, p, rep) == ReplaceAll(x, p, rep) + rep
    decreases |x|
  {
    var s := x + p;
    if |x| == 0 {
      assert s == p && s[|p|..] == [];
    } else if s[..|p|] == p {
      if |x| >= |p| {
        assert x[..|p|] == p;
        assert s[|p|..] == x[|p|..] + p;
        ReplaceAllAppend(x[|p|..], p, rep);
      } else {
        NoMatchAcrossJunction(x, p);
        assert false;
      }
    } else {
      assert s[1..] == x[1..] + p;
      ReplaceAllAppend(x[1..], p, rep);
      if |x| < |p| {
        ReplaceAllShort(x[1..], p, rep);
        assert [x[0]] + x[1..] == x;
      } else {
        assert x[..|p|] == s[..|p|];
      }
    }
  }

  lemma NoMatchAcrossJunction(x: string, p: string)
    requires 0 < |x| < |p| && Unbordered(p)
    ensures (x + p)[..|p|] != p
  {
    var s, k := x + p, |x|;
    assert s[..|p|][k..] == p[..|p| - k];
    assert p[k..] != p[..|p| - k];
  }

  lemma ReplaceAllShort(s: string, p: string, rep: string)
    requires 0 < |p| && |s| < |p|
    ensures ReplaceAll(s, p, rep) == s
  {
  }

  function DigitChar(d: nat): char
    requires d < 10
  {
    ('0' as int + d) as char
  }

  function DigitValue(c: char): int
  {
    c as int - '0' as int
  }

  /** Decimal rendering of a natural number, as `str(n)` does. */
  function NatToString(n: nat): (r: string)
    ensures |r| > 0
    ensures forall i :: 0 <= i < |r| ==> '0' <= r[i] <= '9'
  {
    if n < 10 then [DigitChar(n)] else NatToString(n / 10) + [DigitChar(n % 10)]
  }

  /** Decimal rendering of an integer, as an f-string `{score}` does. */
  function IntToString(i: int): string
  {
    if i < 0 then "-" + NatToString(-i) else NatToString(i)
  }

  /** Reads a string of decimal digits back. */
  function DigitsValue(s: string): int
  {
    if |s| == 0 then 0 else DigitsValue(s[..|s| - 1]) * 10 + DigitValue(s[|s| - 1])
  }

  /** Reads an optional minus sign followed by digits. */
  function ParseInt(s: string): int
  {
    if |s| > 0 && s[0] == '-' then -DigitsValue(s[1..]) else DigitsValue(s)
  }

  lemma {:induction false} NatToStringRoundTrip(n: nat)
    ensures DigitsValue(NatToString(n)) == n
  {
    if n >= 10 {
      var r := NatToString(n / 10) + [DigitChar(n % 10)];
      assert r[..|r| - 1] == NatToString(n / 10);
      NatToStringRoundTrip(n / 10);
    }
  }

  /** The rendered score reads back as the score. */
  lemma IntToStringRoundTrip(i: int)
    ensures ParseInt(IntToString(i)) == i
  {
    if i < 0 {
      NatToStringRoundTrip(-i);
      assert IntToString(i)[1..] == NatToString(-i);
    } else {
      NatToStringRoundTrip(i);
    }
  }
}
