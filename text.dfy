/** Zero-padded decimal text, as written by `%02d`, `%04d` and `isoformat`, and its read-back. */
module Text {
  import opened Common

  predicate IsDigit(c: char)
  {
    '0' <= c <= '9'
  }

  function DigitChar(n: nat): (c: char)
    requires n < 10
    ensures IsDigit(c) && c as int - '0' as int == n
  {
    ('0' as int + n) as char
  }

  /** The decimal value of a string of digits, most significant first. */
  function ReadDigits(s: string): (r: Option<nat>)
    ensures r.Some? <==> |s| > 0 && forall i :: 0 <= i < |s| ==> IsDigit(s[i])
  {
    if |s| == 0 || !IsDigit(s[|s| - 1]) then None
    else if |s| == 1 then Some(s[0] as int - '0' as int)
    else match ReadDigits(s[..|s| - 1])
      case None => None
      case Some(high) => Some(high * 10 + (s[|s| - 1] as int - '0' as int))
  }

  /** `n` written with exactly two digits (`f"{n:02d}"` for n < 100). */
  function Pad2(n: nat): (s: string)
    requires n < 100
    ensures |s| == 2
  {
    [DigitChar(n / 10), DigitChar(n % 10)]
  }

  /** Two-digit padding reads back as the number written. */
  lemma ReadPad2(n: nat)
    requires n < 100
    ensures ReadDigits(Pad2(n)) == Some(n)
  {
    var s := Pad2(n);
    assert ReadDigits(s[..1]) == Some(n / 10);
  }

  /** `n` written with exactly four digits (`%04d` for n < 10000). */
  function Pad4(n: nat): (s: string)
    requires n < 10000
    ensures |s| == 4
  {
    [DigitChar(n / 1000), DigitChar(n / 100 % 10), DigitChar(n / 10 % 10), DigitChar(n % 10)]
  }

  /** Four-digit padding reads back as the number written. */
  lemma ReadPad4(n: nat)
    requires n < 10000
    ensures ReadDigits(Pad4(n)) == Some(n)
  {
    var s := Pad4(n);
    assert ReadDigits(s[..1]) == Some(n / 1000);
    assert s[..2][..1] == s[..1];
    assert ReadDigits(s[..2]) == Some(n / 100);
    assert s[..3][..2] == s[..2];
    assert ReadDigits(s[..3]) == Some(n / 10);
  }
}
