/** Numbers as text: the decimal and hexadecimal forms that user/libc/ulib.c and
    kernel/drivers/uart/uart_core.c print, and ulib_atoi, which reads them back. */
module Text {
  import opened Tasks

  // ------------------------------------------------------------------ decimal

  predicate IsDigit(c: char) {
    '0' <= c <= '9'
  }

  function Digit(d: nat): (c: char)
    requires d < 10
    ensures IsDigit(c)
  {
    '0' + d as char
  }

  function DigitValue(c: char): (d: nat)
    requires IsDigit(c)
    ensures d < 10
  {
    (c - '0') as nat
  }

  /** The decimal text of v. */
  function Dec(v: nat): (s: string)
    ensures |s| > 0 && forall i :: 0 <= i < |s| ==> IsDigit(s[i])
  {
    if v < 10 then [Digit(v)] else Dec(v / 10) + [Digit(v % 10)]
  }

  function Pow(b: nat, k: nat): nat {
    if k == 0 then 1 else b * Pow(b, k - 1)
  }

  lemma {:induction false} DecLength(v: nat, k: nat)
    requires k > 0 && v < Pow(10, k)
    ensures |Dec(v)| <= k
  {
    if v >= 10 {
      assert k > 1 by {
        assert Pow(10, 1) == 10 * Pow(10, 0);
      }
      DecLength(v / 10, k - 1);
    }
  }

  /** The 10-byte scratch buffers hold every 32-bit number. */
  lemma WordHasTenDigits(v: Word)
    ensures |Dec(v)| <= 10
  {
    assert Pow(10, 10) == 10_000_000_000 by {
      assert Pow(10, 5) == 100_000;
      assert Pow(10, 6) == 1_000_000;
      assert Pow(10, 8) == 100_000_000;
    }
    DecLength(v, 10);
  }

  /** No superfluous zero in front. */
  lemma {:induction false} DecHasNoLeadingZero(v: nat)
    ensures |Dec(v)| > 1 ==> Dec(v)[0] != '0'
    ensures v > 0 ==> Dec(v)[0] != '0'
  {
    if v >= 10 {
      DecHasNoLeadingZero(v / 10);
      assert Dec(v)[0] == Dec(v / 10)[0];
    }
  }

  /** Value of a digit string, as atoi accumulates it. */
  function Value(s: string): nat
    requires forall i :: 0 <= i < |s| ==> IsDigit(s[i])
  {
    if s == [] then 0 else Value(s[..|s| - 1]) * 10 + DigitValue(s[|s| - 1])
  }

  lemma {:induction false} ValueOfDec(v: nat)
    ensures Value(Dec(v)) == v
  {
    if v < 10 {
      assert Dec(v)[..0] == [];
    } else {
      ValueOfDec(v / 10);
      assert Dec(v)[..|Dec(v)| - 1] == Dec(v / 10);
    }
  }

  /** The digits atoi looks at: everything before the first other character. */
  function LeadingDigits(s: string): (r: string)
    ensures r <= s && forall i :: 0 <= i < |r| ==> IsDigit(r[i])
    ensures |r| < |s| ==> !IsDigit(s[|r|])
  {
    if s == [] || !IsDigit(s[0]) then [] else [s[0]] + LeadingDigits(s[1..])
  }

  const INT_MAX := 0x7FFF_FFFF

  /** ulib_atoi; beyond INT_MAX the source's signed arithmetic is undefined. */
  method Atoi(s: string) returns (v: int)
    requires Value(LeadingDigits(s)) <= INT_MAX
    ensures v == Value(LeadingDigits(s))
  {
    v := 0;
    var i := 0;
    ghost var d := LeadingDigits(s);
    while i < |s| && IsDigit(s[i])
      invariant 0 <= i <= |d| && v == Value(d[..i])
    {
      assert d[..i + 1][..i] == d[..i];
      v := v * 10 + DigitValue(s[i]);
      i := i + 1;
    }
    assert d[..i] == d;
  }

  /** atoi inverts the decimal writers, whatever text follows the number. */
  lemma AtoiInvertsDec(v: nat, rest: string)
    requires rest == [] || !IsDigit(rest[0])
    ensures LeadingDigits(Dec(v) + rest) == Dec(v)
    ensures Value(LeadingDigits(Dec(v) + rest)) == v
  {
    DigitsThenRest(Dec(v), rest);
    ValueOfDec(v);
  }

  lemma {:induction false} DigitsThenRest(d: string, rest: string)
    requires forall i :: 0 <= i < |d| ==> IsDigit(d[i])
    requires rest == [] || !IsDigit(rest[0])
    ensures LeadingDigits(d + rest) == d
  {
    if d == [] {
      assert d + rest == rest;
    } else {
      assert (d + rest)[1..] == d[1..] + rest;
      DigitsThenRest(d[1..], rest);
    }
  }

  // -------------------------------------------------------- signed decimal

  const INT_MIN := -0x8000_0000

  /** uart_print_int: the magnitude of a negative number is computed without ever
      negating INT_MIN. */
  function IntText(v: int): string
    requires INT_MIN <= v <= INT_MAX
  {
    if v < 0 then ['-'] + Dec((-(v + 1) % WORD + 1) % WORD) else Dec(v)
  }

  function ParseInt(s: string): int
    requires s != [] && forall i :: 0 < i < |s| ==> IsDigit(s[i])
    requires s[0] == '-' || IsDigit(s[0])
  {
    if s[0] == '-' then -(Value(s[1..]) as int) else Value(s)
  }

  /** Every 32-bit signed number reads back as itself, INT_MIN included. */
  lemma IntTextRoundTrip(v: int)
    requires INT_MIN <= v <= INT_MAX
    ensures var s := IntText(v);
            && s != [] && (s[0] == '-' || IsDigit(s[0])) && (forall i :: 0 < i < |s| ==> IsDigit(s[i]))
            && ParseInt(s) == v
  {
    if v < 0 {
      assert (-(v + 1) % WORD + 1) % WORD == -v;
      ValueOfDec(-v);
      assert IntText(v)[1..] == Dec(-v);
    } else {
      ValueOfDec(v);
    }
  }

  // ---------------------------------------------------------------- hexadecimal

  const HEX_DIGITS := "0123456789abcdef"

  function HexDigit(d: nat): (c: char)
    requires d < 16
    ensures c == '0' <==> d == 0
  {
    HEX_DIGITS[d]
  }

  /** (v >> 4 * i) & 0xF, shifting four bits at a time. */
  function Nibble(v: nat, i: nat): (d: nat)
    ensures d < 16
  {
    if i == 0 then v % 16 else Nibble(v / 16, i - 1)
  }

  /** The last k hexadecimal digits of v. */
  function HexPadded(v: nat, k: nat): (s: string)
    ensures |s| == k
  {
    if k == 0 then [] else HexPadded(v / 16, k - 1) + [HexDigit(v % 16)]
  }

  /** Leading zeros dropped, down to a single digit. */
  function Trim(s: string): (r: string)
    ensures |r| > 1 ==> r[0] != '0'
    ensures |s| > 0 ==> |r| > 0
  {
    if |s| > 1 && s[0] == '0' then Trim(s[1..]) else s
  }

  function Hex(v: Word, pad8: bool): string {
    if pad8 then HexPadded(v, 8) else Trim(HexPadded(v, 8))
  }

  function HexDigitValue(c: char): nat {
    if IsDigit(c) then (c - '0') as nat else if 'a' <= c <= 'f' then (c - 'a') as nat + 10 else 0
  }

  function HexValue(s: string): nat {
    if s == [] then 0 else HexValue(s[..|s| - 1]) * 16 + HexDigitValue(s[|s| - 1])
  }

  /** Digit j of the text is the nibble the source shifts out for it. */
  lemma {:induction false} DigitIsNibble(v: nat, k: nat, j: nat)
    requires j < k
    ensures HexPadded(v, k)[j] == HexDigit(Nibble(v, k - 1 - j))
  {
    if j < k - 1 {
      DigitIsNibble(v / 16, k - 1, j);
    }
  }

  lemma {:induction false} HexPaddedValue(v: nat, k: nat)
    requires v < Pow(16, k)
    ensures HexValue(HexPadded(v, k)) == v
  {
    if k > 0 {
      assert v / 16 < Pow(16, k - 1);
      HexPaddedValue(v / 16, k - 1);
      assert HexPadded(v, k)[..k - 1] == HexPadded(v / 16, k - 1);
      DigitBack(v % 16);
    }
  }

  lemma DigitBack(d: nat)
    requires d < 16
    ensures HexDigitValue(HexDigit(d)) == d
  {
  }

  lemma {:induction false} LeadingZero(s: string)
    ensures HexValue(['0'] + s) == HexValue(s)
  {
    if s == [] {
      assert (['0'] + s)[..0] == [];
    } else {
      assert (['0'] + s)[..|s|] == ['0'] + s[..|s| - 1];
      LeadingZero(s[..|s| - 1]);
    }
  }

  lemma {:induction false} TrimValue(s: string)
    ensures HexValue(Trim(s)) == HexValue(s)
  {
    if |s| > 1 && s[0] == '0' {
      TrimValue(s[1..]);
      LeadingZero(s[1..]);
      assert s == ['0'] + s[1..];
    }
  }

  /** Hexadecimal text reads back as the same number; padded it is always 8 digits,
      unpadded it has no superfluous zero in front. */
  lemma HexRoundTrip(v: Word, pad8: bool)
    ensures HexValue(Hex(v, pad8)) == v
    ensures pad8 ==> |Hex(v, pad8)| == 8
    ensures !pad8 && |Hex(v, pad8)| > 1 ==> Hex(v, pad8)[0] != '0'
  {
    assert Pow(16, 8) == WORD by {
      assert Pow(16, 4) == 0x1_0000;
      assert Pow(16, 6) == 0x100_0000;
    }
    HexPaddedValue(v, 8);
    TrimValue(HexPadded(v, 8));
  }

  /** Some numbers as they appear on the console. */
  lemma NumbersOnConsole()
    ensures Dec(0) == "0" && Dec(7) == "7" && Dec(42) == "42" && Dec(190) == "190"
    ensures Hex(0, false) == "0" && Hex(0x1f, false) == "1f" && Hex(0x4010_0000, true) == "40100000"
  {
    assert Dec(4) == "4" && Dec(19) == "19" by {
      assert Dec(1) == "1";
    }
    HexOf0();
    HexOf1f();
    HexOfTop();
  }

  lemma HexOf0()
    ensures Hex(0, false) == "0"
  {
    assert HexPadded(0, 4) == "0000" by {
      assert HexPadded(0, 2) == "00";
    }
    assert HexPadded(0, 8) == "00000000" by {
      assert HexPadded(0, 6) == "000000";
    }
    TrimZeros(7, "0");
    assert "00000000" == Zeros(7) + "0";
  }

  function Zeros(n: nat): string {
    seq(n, _ => '0')
  }

  lemma {:induction false} TrimZeros(n: nat, s: string)
    requires s != [] && (s[0] != '0' || |s| == 1)
    ensures Trim(Zeros(n) + s) == s
  {
    var z := Zeros(n) + s;
    if n == 0 {
      assert z == s;
    } else {
      assert z[1..] == Zeros(n - 1) + s;
      TrimZeros(n - 1, s);
    }
  }

  lemma HexOf1f()
    ensures Hex(0x1f, false) == "1f"
  {
    assert HexPadded(0, 4) == "0000" by {
      assert HexPadded(0, 2) == "00";
    }
    assert HexPadded(0, 6) == "000000";
    assert HexPadded(1, 7) == "0000001";
    assert HexPadded(0x1f, 8) == "0000001f";
    TrimZeros(6, "1f");
    assert "0000001f" == Zeros(6) + "1f";
  }

  /** One more digit at the end. */
  lemma HexAppend(v: nat, k: nat, s: string, d: nat)
    requires HexPadded(v, k) == s && d < 16
    ensures HexPadded(16 * v + d, k + 1) == s + [HexDigit(d)]
  {
    assert (16 * v + d) / 16 == v && (16 * v + d) % 16 == d;
  }

  lemma HexOfTop()
    ensures Hex(0x4010_0000, true) == "40100000"
  {
    HexAppend(0, 0, "", 4);
    HexAppend(0x4, 1, "4", 0);
    HexAppend(0x40, 2, "40", 1);
    HexAppend(0x401, 3, "401", 0);
    HexAppend(0x4010, 4, "4010", 0);
    HexAppend(0x40100, 5, "40100", 0);
    HexAppend(0x401000, 6, "401000", 0);
    HexAppend(0x4010000, 7, "4010000", 0);
  }
}
