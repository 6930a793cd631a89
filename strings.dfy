/** Python string operations the model needs: `str` of a non-negative int,
    and `str.replace`, which replaces every non-overlapping occurrence of a
    pattern scanning from the left. */
module Strings {

  predicate IsDigit(c: char) {
    '0' <= c <= '9'
  }

  function DigitChar(d: nat): (c: char)
    requires d < 10
    ensures IsDigit(c)
  {
    ('0' as int + d) as char
  }

  function DigitValue(c: char): (d: nat)
    requires IsDigit(c)
    ensures d < 10
  {
    c as int - '0' as int
  }

  /** `str(n)` for `n >= 0`: decimal digits, most significant first. */
  function NatToString(n: nat): (s: string)
    ensures |s| > 0 && forall i :: 0 <= i < |s| ==> IsDigit(s[i])
    decreases n
  {
    if n < 10 then [DigitChar(n)] else NatToString(n / 10) + [DigitChar(n % 10)]
  }

  /** The value of a string of decimal digits. */
  function ParseNat(s: string): nat
    requires forall i :: 0 <= i < |s| ==> IsDigit(s[i])
  {
    if |s| == 0 then 0 else ParseNat(s[..|s| - 1]) * 10 + DigitValue(s[|s| - 1])
  }

  lemma {:induction false} ParseNatToString(n: nat)
    ensures ParseNat(NatToString(n)) == n
    decreases n
  {
    var s := NatToString(n);
    if n >= 10 {
      ParseNatToString(n / 10);
      assert s[..|s| - 1] == NatToString(n / 10);
      assert DigitValue(s[|s| - 1]) == n % 10;
    } else {
      assert s[..|s| - 1] == [];
    }
  }

  /** Distinct numbers have distinct decimal forms. */
  lemma {:induction false} NatToStringInjective(m: nat, n: nat)
    requires m != n
    ensures NatToString(m) != NatToString(n)
  {
    ParseNatToString(m);
    ParseNatToString(n);
  }

  predicate StartsWith(s: string, w: string) {
    |w| <= |s| && s[..|w|] == w
  }

  /** `w in s`. */
  predicate Contains(s: string, w: string)
    decreases |s|
  {
    StartsWith(s, w) || (|s| > 0 && Contains(s[1..], w))
  }

  /** `s.replace(pat, rep)` for a non-empty `pat`. */
  function Replace(s: string, pat: string, rep: string): string
    requires |pat| > 0
    decreases |s|
  {
    if |s| < |pat| then s
    else if s[..|pat|] == pat then rep + Replace(s[|pat|..], pat, rep)
    else [s[0]] + Replace(s[1..], pat, rep)
  }

  lemma {:induction false} ContainsFits(s: string, w: string)
    requires Contains(s, w)
    ensures |w| <= |s|
    decreases |s|
  {
    if !StartsWith(s, w) {
      ContainsFits(s[1..], w);
    }
  }

  /** A string without `w` has no suffix with `w`. */
  lemma {:induction false} NotContainsSuffix(s: string, w: string, k: nat)
    requires k <= |s| && !Contains(s, w)
    ensures !Contains(s[k..], w)
    decreases k
  {
    if k > 0 {
      NotContainsSuffix(s[1..], w, k - 1);
      assert s[1..][k - 1..] == s[k..];
    }
  }

  /** A string without the pattern is left as it is. */
  lemma {:induction false} ReplaceAbsent(s: string, pat: string, rep: string)
    requires |pat| > 0 && !Contains(s, pat)
    ensures Replace(s, pat, rep) == s
    decreases |s|
  {
    if |s| >= |pat| {
      ReplaceAbsent(s[1..], pat, rep);
    }
  }

  /** Characters that cannot start `w` add no occurrence of it in front. */
  lemma {:induction false} ContainsSkip(a: string, b: string, w: string)
    requires |w| > 0 && forall j :: 0 <= j < |a| ==> a[j] != w[0]
    ensures Contains(a + b, w) == Contains(b, w)
    decreases |a|
  {
    if |a| > 0 {
      assert (a + b)[1..] == a[1..] + b;
      assert !StartsWith(a + b, w) by {
        if StartsWith(a + b, w) {
          StartsWithHead(a + b, w);
        }
      }
      ContainsSkip(a[1..], b, w);
    } else {
      assert a + b == b;
    }
  }

  lemma {:induction false} StartsWithHead(s: string, v: string)
    requires StartsWith(s, v) && |v| > 0
    ensures s[0] == v[0]
  {
    assert s[..|v|][0] == s[0];
  }

  /** Where the pattern starts the input, the output starts with `rep`. */
  lemma {:induction false} ReplaceHead(x: string, pat: string, rep: string)
    requires |pat| > 0 && StartsWith(x, pat)
    ensures Replace(x, pat, rep) == rep + Replace(x[|pat|..], pat, rep)
  {
  }

  /** A prefix free of the first character of `rep` comes from the input:
      the replacement never produces it. */
  lemma {:induction false} ReplacePrefix(x: string, pat: string, rep: string, v: string)
    requires |pat| > 0 && |rep| > 0 && forall j :: 0 <= j < |v| ==> v[j] != rep[0]
    requires StartsWith(Replace(x, pat, rep), v)
    ensures StartsWith(x, v)
    decreases |x|
  {
    if |v| == 0 {
      assert x[..0] == v;
    } else if |x| < |pat| {
    } else if x[..|pat|] == pat {
      ReplaceHead(x, pat, rep);
      StartsWithHead(Replace(x, pat, rep), v);
      assert false;
    } else {
      var tail := Replace(x[1..], pat, rep);
      assert Replace(x, pat, rep) == [x[0]] + tail;
      assert StartsWith(tail, v[1..]) by {
        assert tail[..|v| - 1] == Replace(x, pat, rep)[1..|v|];
      }
      ReplacePrefix(x[1..], pat, rep, v[1..]);
      assert x[..|v|] == [x[0]] + x[1..][..|v| - 1];
    }
  }
}
