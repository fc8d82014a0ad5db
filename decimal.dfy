/** Decimal digit strings: what `{}` prints for a `usize` and what `str::parse::<usize>` reads back. */
module Decimal {
  import opened Wrappers

  /** The largest `usize` on a 64-bit target. */
  const USIZE_MAX: nat := 0xFFFF_FFFF_FFFF_FFFF

  predicate IsDigit(c: char) {
    '0' <= c <= '9'
  }

  predicate AllDigits(s: string) {
    forall i :: 0 <= i < |s| ==> IsDigit(s[i])
  }

  function DigitValue(c: char): nat
    requires IsDigit(c)
  {
    c as int - '0' as int
  }

  function DigitChar(d: nat): (c: char)
    requires d < 10
    ensures IsDigit(c) && DigitValue(c) == d
  {
    ('0' as int + d) as char
  }

  /** The number a digit string denotes, most significant digit first; leading zeros are allowed. */
  function Value(s: string): nat
    requires AllDigits(s)
  {
    if s == [] then 0 else Value(s[..|s| - 1]) * 10 + DigitValue(s[|s| - 1])
  }

  /** The shortest decimal representation of `n`, as Rust's `Display` for unsigned integers writes it. */
  function Show(n: nat): (r: string)
    ensures |r| >= 1 && AllDigits(r)
    ensures Value(r) == n
    ensures |r| > 1 ==> r[0] != '0'
  {
    if n < 10 then [DigitChar(n)]
    else
      var r := Show(n / 10) + [DigitChar(n % 10)];
      assert r[..|r| - 1] == Show(n / 10);
      r
  }

  /** The digits `str::parse::<usize>` reads: an unsigned type takes one leading `+` and no sign else. */
  function Unsigned(s: string): (d: string)
    ensures |d| <= |s| && d == s[|s| - |d|..]
    ensures d != s <==> (s != [] && s[0] == '+')
  {
    if s != [] && s[0] == '+' then s[1..] else s
  }

  /** The digit loop of `str::parse::<usize>`: `acc` is the value of the digits before `k`; a
      character that is not a digit fails, and so does a step whose `acc * 10 + d` passes
      `USIZE_MAX` (the checked multiplication or the checked addition overflows). */
  function Accumulate(d: string, k: nat, acc: nat): Option<nat>
    requires k <= |d|
    decreases |d| - k
  {
    if k == |d| then Some(acc)
    else if !IsDigit(d[k]) then None
    else if acc * 10 + DigitValue(d[k]) > USIZE_MAX then None
    else Accumulate(d, k + 1, acc * 10 + DigitValue(d[k]))
  }

  /** Appending a digit multiplies the value by ten and adds the digit. */
  lemma ValueSnoc(s: string, k: nat)
    requires k < |s| && AllDigits(s)
    ensures Value(s[..k + 1]) == Value(s[..k]) * 10 + DigitValue(s[k])
  {
    assert s[..k + 1][..k] == s[..k];
  }

  /** A prefix of a digit string is worth no more than the whole string. */
  lemma {:induction false} ValuePrefix(s: string, k: nat)
    requires k <= |s| && AllDigits(s)
    ensures Value(s[..k]) <= Value(s)
    decreases |s| - k
  {
    if k < |s| {
      ValuePrefix(s, k + 1);
      ValueSnoc(s, k);
    } else {
      assert s[..k] == s;
    }
  }

  /** Run from a prefix that is all digits and within range, the digit loop yields the value of
      the whole string exactly when it is all digits and within range. */
  lemma {:induction false} AccumulateValue(d: string, k: nat, acc: nat)
    requires k <= |d| && AllDigits(d[..k]) && acc == Value(d[..k]) && acc <= USIZE_MAX
    ensures Accumulate(d, k, acc) == if AllDigits(d) && Value(d) <= USIZE_MAX then Some(Value(d)) else None
    decreases |d| - k
  {
    if k == |d| {
      assert d[..k] == d;
    } else if IsDigit(d[k]) {
      assert AllDigits(d[..k + 1]);
      assert Value(d[..k + 1]) == acc * 10 + DigitValue(d[k]) by {
        assert d[..k + 1][..k] == d[..k];
      }
      if acc * 10 + DigitValue(d[k]) > USIZE_MAX {
        if AllDigits(d) {
          ValuePrefix(d, k + 1);
        }
      } else {
        AccumulateValue(d, k + 1, acc * 10 + DigitValue(d[k]));
      }
    } else {
      assert !AllDigits(d);
    }
  }

  /** `str::parse::<usize>`: an empty string, a lone `+`, a character that is not a digit and a
      value past `USIZE_MAX` fail; otherwise the result is the value of the digits after the
      optional `+`. */
  function ParseUsize(s: string): (r: Option<nat>)
    ensures var d := Unsigned(s);
      r.Some? <==> d != [] && AllDigits(d) && Value(d) <= USIZE_MAX
    ensures r.Some? ==> r.value == Value(Unsigned(s))
    ensures AllDigits(s) ==> (r.Some? <==> s != [] && Value(s) <= USIZE_MAX)
  {
    var d := Unsigned(s);
    if d == [] then None
    else
      AccumulateValue(d, 0, 0);
      Accumulate(d, 0, 0)
  }

  /** Every number a `usize` can hold survives printing and parsing back. */
  lemma ShowParseRoundTrip(n: nat)
    requires n <= USIZE_MAX
    ensures ParseUsize(Show(n)) == Some(n)
  {
  }
}
