/** The few operations on Python `str` values that the benchmark uses:
    `startswith`, `sep.join`, repetition `c * n`, `replace` and `str(int)`. */
module Strings {

  /** `s.startswith(prefix)` */
  predicate StartsWith(s: string, prefix: string)
  {
    |prefix| <= |s| && s[..|prefix|] == prefix
  }

  /** The string `[c] * n` of Python: `n` copies of `c`, empty when `n <= 0`. */
  function Repeat(c: char, n: int): string
  {
    if n <= 0 then "" else seq(n, _ => c)
  }

  /** `sep.join(xs)` */
  function Join(sep: string, xs: seq<string>): string
  {
    if |xs| == 0 then ""
    else if |xs| == 1 then xs[0]
    else xs[0] + sep + Join(sep, xs[1..])
  }

  /** Appending one more element to a non-empty join adds the separator and the element. */
  lemma {:induction false} JoinSnoc(sep: string, xs: seq<string>, x: string)
    requires |xs| >= 1
    ensures Join(sep, xs + [x]) == Join(sep, xs) + sep + x
  {
    if |xs| == 1 {
      assert xs + [x] == [xs[0], x];
      assert (xs + [x])[1..] == [x];
    } else {
      assert (xs + [x])[1..] == xs[1..] + [x];
      JoinSnoc(sep, xs[1..], x);
    }
  }

  /** Joining `n >= 1` strings of one length `len` gives `n * len` characters plus `n - 1` separators. */
  lemma {:induction false} JoinUniformLength(sep: string, xs: seq<string>, len: nat)
    requires |xs| >= 1
    requires forall i :: 0 <= i < |xs| ==> |xs[i]| == len
    ensures |Join(sep, xs)| == |xs| * len + (|xs| - 1) * |sep|
  {
    if |xs| > 1 {
      JoinUniformLength(sep, xs[1..], len);
      assert |Join(sep, xs)| == len + |sep| + (|xs| - 1) * len + (|xs| - 2) * |sep|;
    }
  }

  /** `pat` occurs in `s` starting at index `i`. */
  predicate OccursAt(s: string, pat: string, i: int)
  {
    0 <= i && i + |pat| <= |s| && s[i..i + |pat|] == pat
  }

  /** `pat in s` */
  predicate Contains(s: string, pat: string)
  {
    exists i | 0 <= i <= |s| :: OccursAt(s, pat, i)
  }

  /** No non-empty proper prefix of `pat` is also a suffix of it, so occurrences cannot overlap. */
  predicate Unbordered(pat: string)
  {
    forall k :: 0 < k < |pat| ==> pat[..k] != pat[|pat| - k..]
  }

  /** `s.replace(pat, rep)`: scans left to right, replaces every non-overlapping occurrence. */
  function ReplaceAll(s: string, pat: string, rep: string): string
    requires pat != ""
    decreases |s|
  {
    if |s| < |pat| then s
    else if s[..|pat|] == pat then rep + ReplaceAll(s[|pat|..], pat, rep)
    else [s[0]] + ReplaceAll(s[1..], pat, rep)
  }

  /** An occurrence in the tail of `s` is an occurrence in `s`, one place further on. */
  lemma OccursInTail(s: string, pat: string, i: int)
    requires |s| >= 1 && OccursAt(s[1..], pat, i)
    ensures OccursAt(s, pat, i + 1)
  {
    assert s[1..][i..i + |pat|] == s[i + 1..i + 1 + |pat|];
  }

  /** A string without the pattern comes back unchanged. */
  lemma {:induction false} ReplaceAbsent(s: string, pat: string, rep: string)
    requires pat != ""
    requires !Contains(s, pat)
    ensures ReplaceAll(s, pat, rep) == s
    decreases |s|
  {
    if |s| >= |pat| {
      assert !OccursAt(s, pat, 0);
      forall i | 0 <= i <= |s[1..]|
        ensures !OccursAt(s[1..], pat, i)
      {
        if OccursAt(s[1..], pat, i) {
          OccursInTail(s, pat, i);
        }
      }
      ReplaceAbsent(s[1..], pat, rep);
      assert [s[0]] + s[1..] == s;
    }
  }

  /** When no occurrence starts inside `p`, replacing in `p + t` leaves `p` as it is. */
  lemma {:induction false} ReplaceKeepsCleanPrefix(p: string, t: string, pat: string, rep: string)
    requires pat != ""
    requires forall i :: 0 <= i < |p| ==> !OccursAt(p + t, pat, i)
    ensures ReplaceAll(p + t, pat, rep) == p + ReplaceAll(t, pat, rep)
    decreases |p|
  {
    if p != [] {
      var s := p + t;
      if |s| >= |pat| {
        assert !OccursAt(s, pat, 0);
        assert s[0..|pat|] == s[..|pat|];
        assert s[1..] == p[1..] + t;
        forall i | 0 <= i < |p[1..]|
          ensures !OccursAt(p[1..] + t, pat, i)
        {
          if OccursAt(s[1..], pat, i) {
            OccursInTail(s, pat, i);
          }
        }
        ReplaceKeepsCleanPrefix(p[1..], t, pat, rep);
        calc {
          ReplaceAll(s, pat, rep);
          [s[0]] + ReplaceAll(s[1..], pat, rep);
          [p[0]] + (p[1..] + ReplaceAll(t, pat, rep));
          { assert [p[0]] + p[1..] == p; }
          p + ReplaceAll(t, pat, rep);
        }
      } else {
        ReplaceAbsentShort(t, pat, rep);
      }
    } else {
      assert p + t == t;
    }
  }

  /** A string shorter than the pattern is left alone. */
  lemma ReplaceAbsentShort(t: string, pat: string, rep: string)
    requires pat != "" && |t| < |pat|
    ensures ReplaceAll(t, pat, rep) == t
  {
  }

  /** If `p` has no occurrence and `t` starts with an unbordered pattern, no occurrence starts inside `p`. */
  lemma NoStraddle(p: string, t: string, pat: string)
    requires Unbordered(pat)
    requires !Contains(p, pat)
    requires StartsWith(t, pat)
    ensures forall i :: 0 <= i < |p| ==> !OccursAt(p + t, pat, i)
  {
    var s := p + t;
    forall i | 0 <= i < |p|
      ensures !OccursAt(s, pat, i)
    {
      if i + |pat| > |s| {
      } else if i + |pat| <= |p| {
        assert s[i..i + |pat|] == p[i..i + |pat|];
        assert !OccursAt(p, pat, i);
      } else {
        var d := |p| - i;
        var k := |pat| - d;
        assert pat[..k] != pat[|pat| - k..];
        assert s[i..i + |pat|][d..] == t[..k] == pat[..k];
      }
    }
  }

  /** Replacing in pieces joined by the pattern swaps every joint for the replacement and keeps
      the pieces, in order, when no piece holds the pattern and occurrences cannot overlap. */
  lemma {:induction false} ReplaceJoined(pieces: seq<string>, pat: string, rep: string)
    requires pat != "" && Unbordered(pat)
    requires |pieces| >= 1
    requires forall i :: 0 <= i < |pieces| ==> !Contains(pieces[i], pat)
    ensures ReplaceAll(Join(pat, pieces), pat, rep) == Join(rep, pieces)
  {
    if |pieces| == 1 {
      ReplaceAbsent(pieces[0], pat, rep);
    } else {
      var rest := Join(pat, pieces[1..]);
      var t := pat + rest;
      assert Join(pat, pieces) == pieces[0] + t;
      assert t[..|pat|] == pat;
      NoStraddle(pieces[0], t, pat);
      ReplaceKeepsCleanPrefix(pieces[0], t, pat, rep);
      assert t[|pat|..] == rest;
      ReplaceJoined(pieces[1..], pat, rep);
    }
  }

  function DigitChar(d: int): char
    requires 0 <= d < 10
  {
    "0123456789"[d]
  }

  /** `str(n)` for a non-negative integer. */
  function NatToDecimal(n: nat): (r: string)
    ensures |r| >= 1
    decreases n
  {
    if n < 10 then [DigitChar(n)] else NatToDecimal(n / 10) + [DigitChar(n % 10)]
  }

  /** `str(n)` for any integer. */
  function IntToDecimal(n: int): (r: string)
    ensures |r| >= 1
  {
    if n < 0 then "-" + NatToDecimal(-n) else NatToDecimal(n)
  }
}
