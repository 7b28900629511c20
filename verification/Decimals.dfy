/** Decimal digits: printed to a width or in full, and read back. */
module Decimals {
  import opened Options

  function Digit(d: int): char
    requires 0 <= d < 10
  {
    ('0' as int + d) as char
  }

  predicate IsDigit(c: char) {
    '0' <= c <= '9'
  }

  /** The last `width` digits of `n`. */
  function Pad(n: nat, width: nat): (s: string)
    ensures |s| == width
  {
    if width == 0 then "" else Pad(n / 10, width - 1) + [Digit(n % 10)]
  }

  /** All digits of `n`. */
  function Decimal(n: nat): string {
    if n < 10 then [Digit(n)] else Decimal(n / 10) + [Digit(n % 10)]
  }

  function ParseDigits(s: string): Option<nat> {
    if s == "" then Some(0)
    else
      var c := s[|s| - 1];
      var front := ParseDigits(s[..|s| - 1]);
      if front.None? || !IsDigit(c) then None else Some(10 * front.value + (c as int - '0' as int))
  }

  function Pow10(k: nat): nat {
    if k == 0 then 1 else 10 * Pow10(k - 1)
  }

  lemma {:induction false} PadParses(n: nat, width: nat)
    requires n < Pow10(width)
    ensures ParseDigits(Pad(n, width)) == Some(n)
    decreases width
  {
    if width > 0 {
      PadParses(n / 10, width - 1);
      var s := Pad(n, width);
      assert s[..|s| - 1] == Pad(n / 10, width - 1);
    }
  }

  lemma {:induction false} DecimalIsPad(n: nat, width: nat)
    requires width > 0 && n < Pow10(width) && (width == 1 || Pow10(width - 1) <= n)
    ensures Decimal(n) == Pad(n, width)
    decreases width
  {
    if width == 1 {
      assert Pad(n / 10, 0) == "";
    } else {
      DecimalIsPad(n / 10, width - 1);
    }
  }
}
