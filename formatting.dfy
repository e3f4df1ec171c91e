/**
  The text forms the token-stream flattener gives to JSON scalars
  (`int.ToString()`, `bool.ToString()`), and the parse that reads an integer setting
  back (`int.Parse`, used when a setting is bound to an `int`). Integer text is the
  form with an ASCII `-` sign, which `int.ToString()` gives under cultures whose
  negative sign is that character.
*/
module Formatting {
  import opened Wrappers

  newtype Int32 = x: int | -0x8000_0000 <= x < 0x8000_0000

  function DigitChar(d: nat): char
    requires d < 10
  {
    ('0' as int + d) as char
  }

  predicate IsDigit(c: char)
  {
    '0' <= c <= '9'
  }

  function DigitValue(c: char): nat
    requires IsDigit(c)
  {
    c as int - '0' as int
  }

  /** Decimal digits of `n`, most significant first, without leading zeros. */
  function NatToString(n: nat): (s: string)
    ensures |s| > 0
    ensures forall i :: 0 <= i < |s| ==> IsDigit(s[i])
    ensures |s| > 1 ==> s[0] != '0'
  {
    if n < 10 then [DigitChar(n)] else NatToString(n / 10) + [DigitChar(n % 10)]
  }

  /** `Int32.ToString()`: an optional minus sign followed by the digits of the magnitude. */
  function IntToString(n: Int32): string
  {
    if n < 0 then "-" + NatToString(-(n as int)) else NatToString(n as int)
  }

  /** `Boolean.ToString()`: `True` or `False`, capitalised. */
  function BoolToString(b: bool): string
  {
    if b then "True" else "False"
  }

  /** The value of a non-empty string of decimal digits. */
  function ParseDigits(s: string): nat
    requires forall i :: 0 <= i < |s| ==> IsDigit(s[i])
    decreases |s|
  {
    if s == [] then 0 else 10 * ParseDigits(s[..|s| - 1]) + DigitValue(s[|s| - 1])
  }

  /** `int.Parse` on an optional minus sign and digits; anything else is rejected. */
  function ParseInt(s: string): Option<int>
  {
    if |s| > 0 && s[0] == '-' then
      if |s| > 1 && forall i :: 1 <= i < |s| ==> IsDigit(s[i]) then Some(-(ParseDigits(s[1..]) as int)) else None
    else if |s| > 0 && forall i :: 0 <= i < |s| ==> IsDigit(s[i]) then Some(ParseDigits(s) as int)
    else None
  }

  lemma {:induction false} ParseNatToString(n: nat)
    ensures ParseDigits(NatToString(n)) == n
  {
    var s := NatToString(n);
    if n >= 10 {
      ParseNatToString(n / 10);
      assert s[..|s| - 1] == NatToString(n / 10);
    }
  }

  /** Reading back the text of an Int32 gives the same integer. */
  lemma IntToStringRoundTrip(n: Int32)
    ensures ParseInt(IntToString(n)) == Some(n as int)
  {
    if n < 0 {
      var s := IntToString(n);
      assert s[1..] == NatToString(-(n as int));
      ParseNatToString(-(n as int));
    } else {
      ParseNatToString(n as int);
    }
  }

  /** The text of an Int32 is canonical: no leading zero, a minus sign only for negatives. */
  lemma IntToStringCanonical(n: Int32)
    ensures var s := IntToString(n);
      && |s| > 0
      && (s[0] == '-' <==> n < 0)
      && (n >= 0 ==> forall i :: 0 <= i < |s| ==> IsDigit(s[i]))
      && (n < 0 ==> |s| > 1 && s[1] != '0' && forall i :: 1 <= i < |s| ==> IsDigit(s[i]))
      && (|s| > 1 && s[0] == '0' ==> false)
  {
    if n < 0 {
      var s := IntToString(n);
      assert s[1..] == NatToString(-(n as int));
      assert forall i :: 1 <= i < |s| ==> s[i] == s[1..][i - 1];
    }
  }
}
