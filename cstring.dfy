/** The C library string routines the core relies on, over `string` (no embedded NUL):
    `atoi`/`atol`, `printf`'s `%d`/`%i`/`%li`, `strstr`, `strnicmp` as a prefix test and
    `stricmp`. Integers are unbounded; the targets' `int`/`long` widths are not modelled. */
module CString {

  predicate IsDigit(c: char)
  {
    '0' <= c <= '9'
  }

  /** The characters `isspace` accepts: space, \t, \n, \v, \f, \r. */
  predicate IsSpace(c: char)
  {
    c == ' ' || (9 <= c as int <= 13)
  }

  function DigitValue(c: char): (d: nat)
    requires IsDigit(c)
    ensures d < 10
  {
    c as int - '0' as int
  }

  function DigitChar(d: nat): (c: char)
    requires d < 10
    ensures IsDigit(c) && DigitValue(c) == d
  {
    ('0' as int + d) as char
  }

  predicate AllDigits(s: string)
  {
    forall i :: 0 <= i < |s| ==> IsDigit(s[i])
  }

  /** The value of a run of decimal digits, most significant first. */
  function DigitsValue(s: string): nat
    requires AllDigits(s)
  {
    if |s| == 0 then 0 else DigitsValue(s[..|s| - 1]) * 10 + DigitValue(s[|s| - 1])
  }

  /** The number of leading digits of `s`. */
  function DigitRun(s: string): (n: nat)
    ensures n <= |s| && AllDigits(s[..n])
    ensures n < |s| ==> !IsDigit(s[n])
  {
    if |s| > 0 && IsDigit(s[0]) then
      var n := 1 + DigitRun(s[1..]);
      assert s[..n] == [s[0]] + s[1..][..n - 1];
      n
    else 0
  }

  function SkipSpaces(s: string): (t: string)
    ensures |t| <= |s| && t == s[|s| - |t|..]
    ensures |t| > 0 ==> !IsSpace(t[0])
  {
    if |s| > 0 && IsSpace(s[0]) then SkipSpaces(s[1..]) else s
  }

  /** The value of the leading digits of `s`, 0 when there are none. */
  function LeadingValue(s: string): nat
  {
    DigitsValue(s[..DigitRun(s)])
  }

  /** `atoi`: leading white space, an optional sign, then decimal digits; anything that is
      not a number reads as 0. */
  function Atoi(s: string): int
  {
    var t := SkipSpaces(s);
    if |t| > 0 && t[0] == '-' then 0 - LeadingValue(t[1..]) as int
    else if |t| > 0 && t[0] == '+' then LeadingValue(t[1..])
    else LeadingValue(t)
  }

  /** `atol` reads the same syntax as `atoi`; only the result width differs in C. */
  function Atol(s: string): int
  {
    Atoi(s)
  }

  /** Decimal digits of a natural number, without leading zeros. */
  function NatToDecimal(n: nat): (s: string)
    ensures |s| > 0 && AllDigits(s)
  {
    if n < 10 then [DigitChar(n)] else NatToDecimal(n / 10) + [DigitChar(n % 10)]
  }

  /** `printf("%d", i)` (also `%i` and `%li`). */
  function IntToDecimal(i: int): (s: string)
    ensures |s| > 0
  {
    if i < 0 then "-" + NatToDecimal(-i) else NatToDecimal(i)
  }

  /** `%d` of a positive number does not start with 0. */
  lemma {:induction false} NoLeadingZero(n: nat)
    requires n > 0
    ensures NatToDecimal(n)[0] != '0'
  {
    if n >= 10 {
      NoLeadingZero(n / 10);
    }
  }

  lemma {:induction false} DigitsValueOfDecimal(n: nat)
    ensures DigitsValue(NatToDecimal(n)) == n
  {
    if n >= 10 {
      DigitsValueOfDecimal(n / 10);
      var s := NatToDecimal(n);
      assert s[..|s| - 1] == NatToDecimal(n / 10);
    }
  }

  lemma {:induction false} DigitRunOfDigits(s: string)
    requires AllDigits(s)
    ensures DigitRun(s) == |s|
  {
    if |s| > 0 {
      DigitRunOfDigits(s[1..]);
    }
  }

  lemma LeadingValueOfDecimal(n: nat)
    ensures LeadingValue(NatToDecimal(n)) == n
  {
    var d := NatToDecimal(n);
    DigitsValueOfDecimal(n);
    DigitRunOfDigits(d);
    assert d[..|d|] == d;
  }

  /** What `%d` prints, `atoi` reads back: the index, bookmark and config files rely on it. */
  lemma AtoiOfDecimal(i: int)
    ensures Atoi(IntToDecimal(i)) == i
  {
    if i < 0 {
      var d := NatToDecimal(-i);
      var s := "-" + d;
      assert s[0] == '-' && !IsSpace(s[0]);
      assert SkipSpaces(s) == s;
      assert s[1..] == d;
      LeadingValueOfDecimal(-i);
    } else {
      var d := NatToDecimal(i);
      assert IsDigit(d[0]) && !IsSpace(d[0]);
      assert SkipSpaces(d) == d;
      LeadingValueOfDecimal(i);
    }
  }

  /** A run of digits stops at the first character that is not one. */
  lemma {:induction false} DigitRunOfDigitsThen(s: string, rest: string)
    requires AllDigits(s) && (rest == [] || !IsDigit(rest[0]))
    ensures DigitRun(s + rest) == |s|
  {
    if |s| > 0 {
      assert (s + rest)[0] == s[0] && (s + rest)[1..] == s[1..] + rest;
      DigitRunOfDigitsThen(s[1..], rest);
    } else {
      assert s + rest == rest;
    }
  }

  /** `atol` of a number that `%d` printed, followed by text that does not start with a
      digit (the rest of a header line, say), reads the number. */
  lemma AtolOfDecimalThen(n: nat, rest: string)
    requires rest == [] || !IsDigit(rest[0])
    ensures Atol(NatToDecimal(n) + rest) == n
  {
    var d := NatToDecimal(n);
    var t := d + rest;
    assert t[0] == d[0] && IsDigit(t[0]) && !IsSpace(t[0]);
    assert SkipSpaces(t) == t;
    DigitRunOfDigitsThen(d, rest);
    assert t[..|d|] == d;
    DigitsValueOfDecimal(n);
  }

  /** `strstr(s, pat)` finds `pat` at position `k`. */
  predicate OccursAt(s: string, pat: string, k: int)
  {
    0 <= k && k + |pat| <= |s| && s[k..k + |pat|] == pat
  }

  /** `strstr(s, pat)` as the index of the first occurrence at or after `from`, -1 for NULL. */
  function FindFrom(s: string, pat: string, from: nat): (r: int)
    ensures r == -1 || (from <= r && OccursAt(s, pat, r))
    ensures forall k :: from <= k && (r == -1 || k < r) ==> !OccursAt(s, pat, k)
    decreases |s| - from
  {
    if from + |pat| > |s| then -1
    else if s[from..from + |pat|] == pat then from
    else FindFrom(s, pat, from + 1)
  }

  /** An occurrence fixes every character it covers. */
  lemma OccursAtChars(s: string, pat: string, k: int, i: int)
    requires OccursAt(s, pat, k) && 0 <= i < |pat|
    ensures s[k + i] == pat[i]
  {
    assert s[k..k + |pat|][i] == s[k + i];
  }

  /** `strstr(s, pat)`: the first position of `pat` in `s`, or -1. */
  function Find(s: string, pat: string): (r: int)
    ensures r == -1 || OccursAt(s, pat, r)
    ensures forall k :: 0 <= k && (r == -1 || k < r) ==> !OccursAt(s, pat, k)
  {
    FindFrom(s, pat, 0)
  }

  predicate Contains(s: string, pat: string)
  {
    Find(s, pat) >= 0
  }

  /** `tolower` on ASCII. */
  function Lower(c: char): char
  {
    if 'A' <= c <= 'Z' then (c as int + 32) as char else c
  }

  /** `strnicmp(pre, s, strlen(pre)) == 0`: `s` starts with `pre`, ignoring ASCII case. */
  predicate PrefixIgnoringCase(pre: string, s: string)
  {
    |pre| <= |s| && forall i :: 0 <= i < |pre| ==> Lower(pre[i]) == Lower(s[i])
  }

  /** `stricmp(a, b) == 0`. */
  predicate EqualIgnoringCase(a: string, b: string)
  {
    |a| == |b| && PrefixIgnoringCase(a, b)
  }
}
