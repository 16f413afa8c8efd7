/** Decimal rendering of integers, as Python's `f"{n}"` writes them, and a
    reader that takes the rendering back. The reader is what makes a
    rendered number recoverable from the middle of a longer message. */
module Decimal {
  import opened Wrappers

  predicate IsDigit(c: char) {
    '0' <= c <= '9'
  }

  function DigitChar(d: nat): (c: char)
    requires d < 10
    ensures IsDigit(c)
  {
    "0123456789"[d]
  }

  function DigitValue(c: char): (d: nat)
    requires IsDigit(c)
    ensures d < 10
  {
    (c as int - '0' as int) as nat
  }

  lemma DigitRoundTrip(d: nat)
    requires d < 10
    ensures DigitValue(DigitChar(d)) == d
  {
  }

  /** The digits of `n`, most significant first, without leading zeros. */
  function NatDigits(n: nat): (s: string)
    ensures |s| > 0 && forall i :: 0 <= i < |s| ==> IsDigit(s[i])
    decreases n
  {
    if n < 10 then [DigitChar(n)] else NatDigits(n / 10) + [DigitChar(n % 10)]
  }

  /** Python's `str(n)`: a minus sign and the digits of |n|. */
  function ShowInt(n: int): string {
    if n < 0 then "-" + NatDigits(-n) else NatDigits(n)
  }

  /** The value of a run of digits. */
  function DigitsValue(s: string): nat
    requires forall i :: 0 <= i < |s| ==> IsDigit(s[i])
    decreases |s|
  {
    if |s| == 0 then 0 else DigitsValue(s[..|s| - 1]) * 10 + DigitValue(s[|s| - 1])
  }

  lemma {:induction false} NatDigitsValue(n: nat)
    ensures DigitsValue(NatDigits(n)) == n
    decreases n
  {
    var s := NatDigits(n);
    if n < 10 {
      DigitRoundTrip(n);
    } else {
      NatDigitsValue(n / 10);
      assert s[..|s| - 1] == NatDigits(n / 10);
      DigitRoundTrip(n % 10);
    }
  }

  /** The length of the longest run of digits at the start of `s`. */
  function DigitRun(s: string): (k: nat)
    ensures k <= |s| && forall i :: 0 <= i < k ==> IsDigit(s[i])
    ensures k < |s| ==> !IsDigit(s[k])
    decreases |s|
  {
    if |s| > 0 && IsDigit(s[0]) then 1 + DigitRun(s[1..]) else 0
  }

  lemma {:induction false} DigitRunOver(d: string, rest: string)
    requires forall i :: 0 <= i < |d| ==> IsDigit(d[i])
    requires |rest| == 0 || !IsDigit(rest[0])
    ensures DigitRun(d + rest) == |d|
    decreases |d|
  {
    if |d| > 0 {
      assert (d + rest)[1..] == d[1..] + rest;
      DigitRunOver(d[1..], rest);
    } else {
      assert d + rest == rest;
    }
  }

  /** Reads a non-empty run of digits from the front of `s`; yields its
      value and what follows it. */
  function ReadNat(s: string): (r: Option<(nat, string)>)
    ensures r.Some? ==> |r.value.1| < |s| && r.value.1 == s[|s| - |r.value.1|..]
  {
    var k := DigitRun(s);
    if k == 0 then None else Some((DigitsValue(s[..k]), s[k..]))
  }

  /** Reads an optional minus sign and a non-empty run of digits from the
      front of `s`; yields the number and what follows it. */
  function ReadInt(s: string): (r: Option<(int, string)>)
    ensures r.Some? ==> |r.value.1| < |s| && r.value.1 == s[|s| - |r.value.1|..]
  {
    if |s| > 0 && s[0] == '-' then
      match ReadNat(s[1..])
      case None => None
      case Some((v, rest)) => Some((-(v as int), rest))
    else
      match ReadNat(s)
      case None => None
      case Some((v, rest)) => Some((v, rest))
  }

  /** The digits of a natural number followed by a non-digit read back
      as that number. */
  lemma ReadShownNat(m: nat, rest: string)
    requires |rest| == 0 || !IsDigit(rest[0])
    ensures ReadNat(NatDigits(m) + rest) == Some((m, rest))
  {
    var d := NatDigits(m);
    NatDigitsValue(m);
    DigitRunOver(d, rest);
    assert (d + rest)[..|d|] == d;
    assert (d + rest)[|d|..] == rest;
  }

  /** A rendered number followed by anything that does not start with a
      digit reads back as that number and that remainder. */
  lemma ReadShownInt(n: int, rest: string)
    requires |rest| == 0 || !IsDigit(rest[0])
    ensures ReadInt(ShowInt(n) + rest) == Some((n, rest))
  {
    if n < 0 {
      ReadShownNegative(n, rest);
    } else {
      ReadShownNonNegative(n, rest);
    }
  }

  lemma ReadShownNegative(n: int, rest: string)
    requires n < 0
    requires |rest| == 0 || !IsDigit(rest[0])
    ensures ReadInt(ShowInt(n) + rest) == Some((n, rest))
  {
    calc {
      ReadInt(ShowInt(n) + rest);
      == { ShowNegative(n, rest); }
      ReadInt("-" + (NatDigits(-n) + rest));
      == { ReadMinusShown(-n, rest); }
      Some((n, rest));
    }
  }

  lemma ShowNegative(n: int, rest: string)
    requires n < 0
    ensures ShowInt(n) + rest == "-" + (NatDigits(-n) + rest)
  {
  }

  lemma ReadMinusShown(m: nat, rest: string)
    requires |rest| == 0 || !IsDigit(rest[0])
    ensures ReadInt("-" + (NatDigits(m) + rest)) == Some((-(m as int), rest))
  {
    var t := NatDigits(m) + rest;
    assert ReadNat(t) == Some((m, rest)) by {
      ReadShownNat(m, rest);
    }
    ReadIntMinus(t);
  }

  /** A minus sign in front of digits negates what they read as. */
  lemma ReadIntMinus(t: string)
    ensures ReadInt("-" + t) == match ReadNat(t)
                               case None => None
                               case Some((v, rest)) => Some((-(v as int), rest))
  {
    assert ("-" + t)[0] == '-' && ("-" + t)[1..] == t;
  }

  lemma ReadShownNonNegative(n: nat, rest: string)
    requires |rest| == 0 || !IsDigit(rest[0])
    ensures ReadInt(ShowInt(n) + rest) == Some((n, rest))
  {
    var s := ShowInt(n) + rest;
    ReadShownNat(n, rest);
    assert s == NatDigits(n) + rest;
    assert IsDigit(s[0]);
  }

  /** Different integers render differently. */
  lemma ShowIntInjective(m: int, n: int)
    requires ShowInt(m) == ShowInt(n)
    ensures m == n
  {
    ReadShownInt(m, "");
    ReadShownInt(n, "");
    assert ShowInt(m) + "" == ShowInt(m);
    assert ShowInt(n) + "" == ShowInt(n);
  }
}
