/**
 * The two pieces of Java's integer/text conversion the compiler relies on:
 * decimal rendering of an `int` (string concatenation, `Integer.toString`)
 * and `Integer.decode`, which turns the text of an integer literal into
 * its 32-bit value.
 */
module Numbers {
  import opened Ast

  const IntMin: int := -0x8000_0000
  const IntMax: int := 0x7FFF_FFFF

  function DigitChar(d: nat): (c: char)
    requires d < 10
    ensures '0' <= c <= '9' && c as int - '0' as int == d
  {
    ('0' as int + d) as char
  }

  predicate IsDecimalDigit(c: char) { '0' <= c <= '9' }

  /** Decimal text of a natural number, without leading zeros. */
  function NatToString(n: nat): (s: string)
    ensures |s| >= 1
    decreases n
  {
    if n < 10 then [DigitChar(n)] else NatToString(n / 10) + [DigitChar(n % 10)]
  }

  /** The decimal text is all digits, and it starts with `0` only for zero. */
  lemma {:induction false} NatToStringDigits(n: nat)
    ensures forall i | 0 <= i < |NatToString(n)| :: IsDecimalDigit(NatToString(n)[i])
    ensures NatToString(n)[0] == '0' <==> n == 0
    decreases n
  {
    if n >= 10 {
      NatToStringDigits(n / 10);
    }
  }

  /** `Integer.toString`: a leading minus sign for negative values. */
  function IntToString(n: int): (s: string)
    ensures |s| >= 1
  {
    if n < 0 then "-" + NatToString(-n) else NatToString(n)
  }

  /** `Character.digit(c, 36)` restricted to ASCII letters and digits; -1 otherwise. */
  function DigitValue(c: char): (d: int)
    ensures -1 <= d < 36
  {
    if '0' <= c <= '9' then c as int - '0' as int
    else if 'a' <= c <= 'z' then c as int - 'a' as int + 10
    else if 'A' <= c <= 'Z' then c as int - 'A' as int + 10
    else -1
  }

  /** The value of a non-empty string of digits in the given radix, or None. */
  function ParseDigits(s: string, radix: nat): (r: Option<nat>)
    requires 2 <= radix <= 36
    ensures r.Some? ==> |s| > 0
    decreases |s|
  {
    if |s| == 0 then None
    else
      var d := DigitValue(s[|s| - 1]);
      if d < 0 || d >= radix then None
      else if |s| == 1 then Some(d)
      else
        var prefix := ParseDigits(s[..|s| - 1], radix);
        if prefix.None? then None
        else
          var shifted: nat := prefix.value * radix;
          Some(shifted + d)
  }

  /** A string has a value exactly when it is non-empty and every character is a digit of the radix. */
  lemma {:induction false} ParseDigitsDefined(s: string, radix: nat)
    requires 2 <= radix <= 36
    ensures ParseDigits(s, radix).Some? <==> |s| > 0 && forall i | 0 <= i < |s| :: 0 <= DigitValue(s[i]) < radix
    decreases |s|
  {
    if |s| > 1 {
      var init := s[..|s| - 1];
      ParseDigitsDefined(init, radix);
      assert forall i | 0 <= i < |init| :: init[i] == s[i];
    }
  }

  predicate HasPrefixAt(s: string, i: nat, p: string) {
    i + |p| <= |s| && s[i..i + |p|] == p
  }

  /**
   * `Integer.decode`: an optional sign, then `0x`, `0X` or `#` for
   * hexadecimal, a leading `0` (followed by more text) for octal, otherwise
   * decimal; None where Java throws NumberFormatException (no digits, a
   * misplaced sign, a digit outside the radix, a value outside 32 bits).
   */
  function Decode(s: string): (r: Option<int>)
    ensures r.Some? ==> IntMin <= r.value <= IntMax
  {
    if |s| == 0 then None
    else
      var negative := s[0] == '-';
      var i: nat := if s[0] == '-' || s[0] == '+' then 1 else 0;
      var radix: nat :=
        if HasPrefixAt(s, i, "0x") || HasPrefixAt(s, i, "0X") || HasPrefixAt(s, i, "#") then 16
        else if HasPrefixAt(s, i, "0") && |s| > 1 + i then 8
        else 10;
      var j: nat :=
        if HasPrefixAt(s, i, "0x") || HasPrefixAt(s, i, "0X") then i + 2
        else if radix != 10 then i + 1
        else i;
      if HasPrefixAt(s, j, "-") || HasPrefixAt(s, j, "+") then None
      else if j > |s| then None
      else match ParseDigits(s[j..], radix)
        case None => None
        case Some(n) =>
          var v: int := if negative then -(n as int) else n;
          if IntMin <= v <= IntMax then Some(v) else None
  }

  /** Decimal value of a string of decimal digits (0 for the empty string). */
  function DecimalValue(s: string): nat
    requires forall i | 0 <= i < |s| :: IsDecimalDigit(s[i])
    decreases |s|
  {
    if |s| == 0 then 0
    else DecimalValue(s[..|s| - 1]) * 10 + DigitOf(s[|s| - 1])
  }

  function DigitOf(c: char): nat
    requires IsDecimalDigit(c)
  {
    c as int - '0' as int
  }

  lemma {:induction false} ParseDecimalDigits(s: string)
    requires |s| > 0 && forall i | 0 <= i < |s| :: IsDecimalDigit(s[i])
    ensures ParseDigits(s, 10) == Some(DecimalValue(s))
    decreases |s|
  {
    if |s| > 1 {
      ParseDecimalDigits(s[..|s| - 1]);
    }
  }

  lemma {:induction false} NatToStringValue(n: nat)
    ensures (forall i | 0 <= i < |NatToString(n)| :: IsDecimalDigit(NatToString(n)[i])) &&
      DecimalValue(NatToString(n)) == n
    decreases n
  {
    NatToStringDigits(n);
    if n >= 10 {
      var s := NatToString(n / 10);
      NatToStringDigits(n / 10);
      NatToStringValue(n / 10);
      assert NatToString(n) == s + [DigitChar(n % 10)];
      assert (s + [DigitChar(n % 10)])[..|s|] == s;
    }
  }

  /** Decimal rendering is injective: distinct counters give distinct texts. */
  lemma NatToStringInjective(m: nat, n: nat)
    requires NatToString(m) == NatToString(n)
    ensures m == n
  {
    NatToStringValue(m);
    NatToStringValue(n);
  }

  /**
   * Every string of decimal digits decodes to a non-negative value (or fails
   * the 32-bit range check): an integer literal made only of digits, as the
   * lexer produces them, never yields a negative number.
   */
  lemma DigitsDecodeNonNegative(s: string)
    requires forall i | 0 <= i < |s| :: IsDecimalDigit(s[i])
    ensures Decode(s).Some? ==> Decode(s).value >= 0
  {
  }

  /**
   * Round trip: the decimal text of a natural number in the 32-bit range
   * decodes back to that number (a leading zero only occurs in "0", so the
   * octal reading never applies).
   */
  lemma DecodeNatToString(n: nat)
    requires n <= IntMax
    ensures Decode(NatToString(n)) == Some(n)
  {
    NatToStringValue(n);
    NatToStringDigits(n);
    DecodeDecimalText(NatToString(n));
  }

  /** Decimal text without a redundant leading zero decodes to its decimal value. */
  lemma DecodeDecimalText(s: string)
    requires |s| >= 1 && forall i | 0 <= i < |s| :: IsDecimalDigit(s[i])
    requires s[0] != '0' || |s| == 1
    requires DecimalValue(s) <= IntMax
    ensures Decode(s) == Some(DecimalValue(s))
  {
    ParseDecimalDigits(s);
    assert !HasPrefixAt(s, 0, "#");
    assert !HasPrefixAt(s, 0, "0x");
    assert !HasPrefixAt(s, 0, "0X");
    assert !(HasPrefixAt(s, 0, "0") && |s| > 1);
    assert !HasPrefixAt(s, 0, "-");
    assert !HasPrefixAt(s, 0, "+");
    assert s[0..] == s;
  }

  predicate IsOctalDigit(c: char) { '0' <= c <= '7' }

  /** Octal value of a string of octal digits (0 for the empty string). */
  function OctalValue(s: string): nat
    requires forall i | 0 <= i < |s| :: IsOctalDigit(s[i])
    decreases |s|
  {
    if |s| == 0 then 0
    else OctalValue(s[..|s| - 1]) * 8 + OctalDigitOf(s[|s| - 1])
  }

  function OctalDigitOf(c: char): nat
    requires IsOctalDigit(c)
  {
    c as int - '0' as int
  }

  lemma {:induction false} ParseOctalDigits(s: string)
    requires |s| > 0 && forall i | 0 <= i < |s| :: IsOctalDigit(s[i])
    ensures ParseDigits(s, 8) == Some(OctalValue(s))
    decreases |s|
  {
    if |s| > 1 {
      ParseOctalDigits(s[..|s| - 1]);
    }
  }

  /**
   * The octal reading: `0` followed by octal digits decodes to their base-8
   * value (when it fits in 32 bits), and `0` followed by anything that is
   * not a hexadecimal prefix and holds a character other than an octal
   * digit does not decode.
   */
  lemma DecodeOctalText(t: string)
    requires |t| >= 1
    ensures (forall i | 0 <= i < |t| :: IsOctalDigit(t[i])) && OctalValue(t) <= IntMax ==>
      Decode("0" + t) == Some(OctalValue(t))
    ensures t[0] != 'x' && t[0] != 'X' && (exists i | 0 <= i < |t| :: !IsOctalDigit(t[i])) ==>
      Decode("0" + t) == None
  {
    var s := "0" + t;
    assert s[1..] == t;
    assert HasPrefixAt(s, 0, "0");
    if t[0] != 'x' && t[0] != 'X' {
      assert !HasPrefixAt(s, 0, "0x") && !HasPrefixAt(s, 0, "0X") && !HasPrefixAt(s, 0, "#");
      ParseDigitsDefined(t, 8);
      if forall i | 0 <= i < |t| :: IsOctalDigit(t[i]) {
        ParseOctalDigits(t);
        assert !HasPrefixAt(s, 1, "-") && !HasPrefixAt(s, 1, "+");
      }
    }
  }

  /** A leading zero followed by more digits gives the octal reading: "017" is 15. */
  lemma DecodeLeadingZeroIsOctal()
    ensures Decode("017") == Some(15)
  {
    assert HasPrefixAt("017", 0, "0");
    assert "017"[1..] == "17" && "17"[..1] == "1";
    assert ParseDigits("1", 8) == Some(1);
    assert ParseDigits("17", 8) == Some(15);
  }

  /** In the octal reading a digit 8 is rejected: "08" does not decode. */
  lemma DecodeOctalRejectsEight()
    ensures Decode("08") == None
  {
    assert HasPrefixAt("08", 0, "0");
    assert "08"[1..] == "8";
  }
}
