/** The text form of an encoding: the scripts print every probe with
    `'0x%016x' % newcode` and `dump` reads it back with `int(newcode, 16)`;
    the corpus's encoding token is read with the same `int(..., 16)`. */
module Hex {
  import opened Errors

  /** 2^64: the encodings `struct.pack('Q', ...)` accepts are [0, Word). */
  const Word: int := 0x1_0000_0000_0000_0000

  /** The value of a hexadecimal digit of either case, or -1. */
  function DigitValue(c: char): (d: int)
    ensures -1 <= d < 16
  {
    if '0' <= c <= '9' then c as int - '0' as int
    else if 'a' <= c <= 'f' then c as int - 'a' as int + 10
    else if 'A' <= c <= 'F' then c as int - 'A' as int + 10
    else -1
  }

  predicate AllHex(ds: string)
  {
    forall j :: 0 <= j < |ds| ==> DigitValue(ds[j]) >= 0
  }

  /** The number a string of hexadecimal digits denotes, most significant first. */
  function ValueOf(ds: string): nat
    requires AllHex(ds)
  {
    if ds == [] then 0 else ValueOf(ds[..|ds| - 1]) * 16 + DigitValue(ds[|ds| - 1])
  }

  /** Python 2's `int(s, 16)`: an optional sign, an optional `0x`/`0X`,
      then at least one hexadecimal digit; anything else is a ValueError.
      (The tokens it is applied to never hold whitespace.) */
  function ParseInt16(s: string): Result<int>
  {
    var neg := |s| > 0 && s[0] == '-';
    var body := if |s| > 0 && (s[0] == '-' || s[0] == '+') then s[1..] else s;
    var ds := if |body| >= 2 && body[0] == '0' && (body[1] == 'x' || body[1] == 'X') then body[2..] else body;
    if |ds| == 0 || !AllHex(ds) then Fail(ValueError)
    else var v: int := ValueOf(ds); Ok(if neg then -v else v)
  }

  /** The lower-case digit `'%x'` prints for a value below 16. */
  function HexChar(d: nat): (c: char)
    requires d < 16
    ensures DigitValue(c) == d
  {
    if d < 10 then ('0' as int + d) as char else ('a' as int + d - 10) as char
  }

  /** Python's `'%x' % n` for n >= 0: lower-case digits, no leading zeros. */
  function HexDigits(n: nat): (ds: string)
    ensures |ds| >= 1 && AllHex(ds)
  {
    if n < 16 then [HexChar(n)] else HexDigits(n / 16) + [HexChar(n % 16)]
  }

  /** `ds` left-padded with '0' to at least `width` characters. */
  function ZeroPad(ds: string, width: nat): string
  {
    if |ds| >= width then ds else seq(width - |ds|, _ => '0') + ds
  }

  /** Python's `'0x%016x' % n`.  For a negative `n` the sign is printed after
      the literal `0x` and counts toward the width of 16. */
  function Format016(n: int): string
  {
    if n >= 0 then "0x" + ZeroPad(HexDigits(n), 16)
    else "0x-" + ZeroPad(HexDigits(-n), 15)
  }

  function Pow16(k: nat): nat
  {
    if k == 0 then 1 else 16 * Pow16(k - 1)
  }

  lemma {:induction false} ValueOfHexDigits(n: nat)
    ensures ValueOf(HexDigits(n)) == n
  {
    var ds := HexDigits(n);
    if n >= 16 {
      ValueOfHexDigits(n / 16);
      assert ds[..|ds| - 1] == HexDigits(n / 16);
    }
  }

  lemma {:induction false} ValueOfZeros(z: nat)
    ensures AllHex(seq(z, _ => '0')) && ValueOf(seq(z, _ => '0')) == 0
  {
    if z > 0 {
      ValueOfZeros(z - 1);
      assert seq(z, _ => '0')[..z - 1] == seq(z - 1, _ => '0');
    }
  }

  /** Leading zeros do not change the value. */
  lemma {:induction false} ValueOfPadded(z: nat, ds: string)
    requires AllHex(ds)
    ensures AllHex(seq(z, _ => '0') + ds) && ValueOf(seq(z, _ => '0') + ds) == ValueOf(ds)
  {
    var zs := seq(z, _ => '0');
    ValueOfZeros(z);
    if ds != [] {
      ValueOfPadded(z, ds[..|ds| - 1]);
      assert (zs + ds)[..|zs + ds| - 1] == zs + ds[..|ds| - 1];
    } else {
      assert zs + ds == zs;
    }
  }

  lemma {:induction false} HexDigitsLength(n: nat, k: nat)
    requires n < Pow16(k)
    ensures |HexDigits(n)| <= k || (k == 0 && |HexDigits(n)| == 1)
  {
    if n >= 16 {
      assert k >= 2;
      HexDigitsLength(n / 16, k - 1);
    }
  }

  /** Reading back what `'0x%016x'` printed: a non-negative value comes back
      unchanged, and a negative one is refused (its '-' follows the `0x`). */
  lemma ParseFormat(n: int)
    ensures n >= 0 ==> ParseInt16(Format016(n)) == Ok(n)
    ensures n < 0 ==> ParseInt16(Format016(n)) == Fail(ValueError)
  {
    if n >= 0 {
      ParseFormatNonNegative(n);
    } else {
      var s := Format016(n);
      assert s[0] == '0' && s[1] == 'x';
      assert s[2..][0] == '-';
      assert DigitValue(s[2..][0]) < 0;
    }
  }

  lemma ParseFormatNonNegative(n: nat)
    ensures ParseInt16(Format016(n)) == Ok(n)
  {
    var ds := HexDigits(n);
    var z := if |ds| >= 16 then 0 else 16 - |ds|;
    var padded := seq(z, _ => '0') + ds;
    assert ZeroPad(ds, 16) == padded;
    ValueOfPadded(z, ds);
    ValueOfHexDigits(n);
    ParsePrefixed(padded);
  }

  /** `int('0x' + ds, 16)` for a non-empty string of digits. */
  lemma ParsePrefixed(ds: string)
    requires |ds| >= 1 && AllHex(ds)
    ensures ParseInt16("0x" + ds) == Ok(ValueOf(ds))
  {
    var s := "0x" + ds;
    assert s[0] == '0' && s[1] == 'x' && s[2..] == ds;
  }

  lemma PowWord()
    ensures Pow16(16) == Word
  {
    assert Pow16(4) == 0x1_0000;
    assert Pow16(8) == 0x1_0000_0000 by {
      assert Pow16(8) == 16 * 16 * 16 * 16 * Pow16(4);
    }
    assert Pow16(12) == 0x1_0000_0000_0000 by {
      assert Pow16(12) == 16 * 16 * 16 * 16 * Pow16(8);
    }
    assert Pow16(16) == 16 * 16 * 16 * 16 * Pow16(12);
  }

  /** An encoding below 2^64 prints as exactly 16 digits after `0x`. */
  lemma FormatWidth(n: int)
    requires 0 <= n < Word
    ensures |Format016(n)| == 18
  {
    PowWord();
    HexDigitsLength(n, 16);
  }
}
