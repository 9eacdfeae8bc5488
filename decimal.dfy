/** `parseInt(t, 10)` on the digit runs the parser's patterns capture. */
module Numerals {
  import opened Chars

  function DigitValue(c: char): nat {
    if IsDigit(c) then c as int - '0' as int else 0
  }

  /** The value of a run of decimal digits, most significant first. */
  function NatOf(t: string): nat {
    if t == [] then 0 else 10 * NatOf(t[..|t| - 1]) + DigitValue(t[|t| - 1])
  }

  /** The value of `-?\d+`: an optional minus sign before a digit run. */
  function IntOf(t: string): int {
    if |t| > 0 && t[0] == '-' then -(NatOf(t[1..]) as int) else NatOf(t)
  }

  function DigitChar(d: nat): (c: char)
    requires d < 10
    ensures IsDigit(c) && DigitValue(c) == d
  {
    ('0' as int + d) as char
  }

  /** The decimal spelling of `n` without leading zeros, as the kernel prints it. */
  function Decimal(n: nat): (t: string)
    ensures |t| >= 1
    ensures forall k :: 0 <= k < |t| ==> IsDigit(t[k])
    decreases n
  {
    if n < 10 then [DigitChar(n)] else Decimal(n / 10) + [DigitChar(n % 10)]
  }

  /** The spelling of a signed value as `-?\d+`. */
  function SignedDecimal(z: int): (t: string)
    ensures |t| >= 1 && (t[0] == '-' || IsDigit(t[0]))
  {
    if z < 0 then "-" + Decimal(-z) else Decimal(z)
  }

  /** Reading back a printed number gives the number. */
  lemma {:induction false} NatOfDecimal(n: nat)
    ensures NatOf(Decimal(n)) == n
    decreases n
  {
    if n >= 10 {
      var t := Decimal(n);
      assert t[..|t| - 1] == Decimal(n / 10);
      NatOfDecimal(n / 10);
    }
  }

  /** The same for signed values (the `oom_score_adj` columns). */
  lemma {:induction false} IntOfSignedDecimal(z: int)
    ensures IntOf(SignedDecimal(z)) == z
  {
    if z < 0 {
      assert SignedDecimal(z)[1..] == Decimal(-z);
      NatOfDecimal(-z);
    } else {
      NatOfDecimal(z);
    }
  }

  /** A printed number holds no character other than digits. */
  lemma NonDigitNotInDecimal(c: char, n: nat)
    requires !IsDigit(c)
    ensures c !in Decimal(n)
  {
  }

  /** A printed signed number holds no character other than digits and its minus sign. */
  lemma NonDigitNotInSignedDecimal(c: char, z: int)
    requires !IsDigit(c) && c != '-'
    ensures c !in SignedDecimal(z)
  {
    if z < 0 {
      NonDigitNotInDecimal(c, -z);
    } else {
      NonDigitNotInDecimal(c, z);
    }
  }
}
