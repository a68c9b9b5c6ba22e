/**
 Properties of the `parseInt` model: it inverts the decimal and hexadecimal
 renderings of an integer, it ignores leading white space and anything after
 the digits, and it answers NaN exactly when no digit sits where one is
 expected.
 */
module ParseIntProperties {
  import opened JsParseInt

  /** Reading back the digits of `n` gives `n`. */
  lemma {:induction false} ValueOfDigits(n: nat, radix: Radix)
    ensures ValueOf(Digits(n, radix), radix) == n
    decreases n
  {
    var ds := Digits(n, radix);
    if n < radix {
      assert ds[..0] == [];
    } else {
      var front := Digits(n / radix, radix);
      assert ds == front + [DigitChar(n % radix)];
      assert ds[..|ds| - 1] == front;
      ValueOfDigits(n / radix, radix);
    }
  }

  /** Leading white space does not change what `TrimStart` leaves. */
  lemma {:induction false} TrimStartSkipsWhiteSpace(ws: string, s: string)
    requires AllWhiteSpace(ws)
    ensures TrimStart(ws + s) == TrimStart(s)
    decreases |ws|
  {
    if ws != [] {
      assert IsWhiteSpace(ws[0]);
      assert (ws + s)[0] == ws[0];
      assert (ws + s)[1..] == ws[1..] + s;
      TrimStartSkipsWhiteSpace(ws[1..], s);
      assert TrimStart(ws + s) == TrimStart((ws + s)[1..]);
    } else {
      assert ws + s == s;
    }
  }

  /** A run of digits followed by a non-digit (or nothing) is exactly the
      digit prefix that `parseInt` reads. */
  lemma {:induction false} LeadingDigitsOfRun(ds: string, rest: string, radix: Radix)
    requires AllDigits(ds, radix)
    requires rest == [] || !IsDigit(rest[0], radix)
    ensures LeadingDigits(ds + rest, radix) == ds
    decreases |ds|
  {
    if ds == [] {
      assert ds + rest == rest;
    } else {
      assert (ds + rest)[0] == ds[0];
      assert (ds + rest)[1..] == ds[1..] + rest;
      LeadingDigitsOfRun(ds[1..], rest, radix);
      assert ds == [ds[0]] + ds[1..];
    }
  }

  /** `parseInt` ignores leading white space and line terminators. */
  lemma ParseIntIgnoresLeadingWhiteSpace(ws: string, s: string)
    requires AllWhiteSpace(ws)
    ensures ParseInt(ws + s) == ParseInt(s)
  {
    TrimStartSkipsWhiteSpace(ws, s);
  }

  /** Text that starts neither with white space nor with a sign is read
      as an unsigned magnitude. */
  lemma ParseIntOfUnsigned(u: string)
    requires u != [] && u[0] != '-' && u[0] != '+' && !IsWhiteSpace(u[0])
    ensures ParseInt(u) == Magnitude(u)
  {
  }

  /** A `-` before such text negates the magnitude read from it. */
  lemma ParseIntOfNegated(u: string)
    requires u != [] && u[0] != '-' && u[0] != '+' && !IsWhiteSpace(u[0])
    ensures Magnitude(u).NaN? ==> ParseInt("-" + u).NaN?
    ensures Magnitude(u).Int? ==> ParseInt("-" + u) == Int(-Magnitude(u).value)
  {
  }

  /** The unsigned decimal digits of `m`, followed by text that does not extend
      the number, are read back as `m`. */
  lemma MagnitudeOfDecimal(m: nat, rest: string)
    requires rest == [] || !IsDigit(rest[0], 10)
    requires m == 0 ==> rest == [] || (rest[0] != 'x' && rest[0] != 'X')
    ensures Magnitude(Digits(m, 10) + rest) == Int(m)
  {
    var ds := Digits(m, 10);
    var u := ds + rest;
    assert u[0] == ds[0];
    assert !HasHexPrefix(u) by {
      if |ds| == 1 && |u| >= 2 {
        assert u[1] == rest[0];
      } else if |u| >= 2 {
        assert u[1] == ds[1];
      }
    }
    LeadingDigitsOfRun(ds, rest, 10);
    ValueOfDigits(m, 10);
  }

  /** The decimal digits of a natural number, before any text that does
      not extend the number, parse back to it. */
  lemma ParseIntOfDigits(m: nat, rest: string)
    requires rest == [] || !IsDigit(rest[0], 10)
    requires m == 0 ==> rest == [] || (rest[0] != 'x' && rest[0] != 'X')
    ensures ParseInt(Digits(m, 10) + rest) == Int(m)
  {
    var ds := Digits(m, 10);
    var u := ds + rest;
    assert u[0] == ds[0];
    assert DigitValue(u[0]) < 10;
    MagnitudeOfDecimal(m, rest);
    ParseIntOfUnsigned(u);
  }

  /** ... and with a `-` before them, to its negation. */
  lemma ParseIntOfNegatedDigits(m: nat, rest: string)
    requires m > 0
    requires rest == [] || !IsDigit(rest[0], 10)
    ensures ParseInt("-" + (Digits(m, 10) + rest)) == Int(-(m as int))
  {
    var ds := Digits(m, 10);
    var u := ds + rest;
    assert u[0] == ds[0];
    assert DigitValue(u[0]) < 10;
    MagnitudeOfDecimal(m, rest);
    ParseIntOfNegated(u);
  }

  /** The decimal text of a negative integer is a `-` before the digits of
      its magnitude. */
  lemma NegativeDecimalText(n: int, rest: string)
    requires n < 0
    ensures ToDecimalString(n) + rest == "-" + (Digits(-n, 10) + rest)
  {
  }

  lemma ParseIntOfNegativeDecimal(n: int, rest: string)
    requires n < 0
    requires rest == [] || !IsDigit(rest[0], 10)
    ensures ParseInt(ToDecimalString(n) + rest) == Int(n)
  {
    var m: nat := -n;
    var text := ToDecimalString(n) + rest;
    NegativeDecimalText(n, rest);
    assert text == "-" + (Digits(m, 10) + rest);
    ParseIntOfNegatedDigits(m, rest);
  }

  lemma ParseIntOfNonNegativeDecimal(n: int, rest: string)
    requires n >= 0
    requires rest == [] || !IsDigit(rest[0], 10)
    requires n == 0 ==> rest == [] || (rest[0] != 'x' && rest[0] != 'X')
    ensures ParseInt(ToDecimalString(n) + rest) == Int(n)
  {
    var m: nat := n;
    ParseIntOfDigits(m, rest);
    assert ToDecimalString(n) == Digits(m, 10);
  }

  /** The decimal text of any integer, before any text that does not
      extend the number, parses back to that integer. */
  lemma ParseIntOfDecimalText(n: int, rest: string)
    requires rest == [] || !IsDigit(rest[0], 10)
    requires n == 0 ==> rest == [] || (rest[0] != 'x' && rest[0] != 'X')
    ensures ParseInt(ToDecimalString(n) + rest) == Int(n)
  {
    if n < 0 {
      ParseIntOfNegativeDecimal(n, rest);
    } else {
      ParseIntOfNonNegativeDecimal(n, rest);
    }
  }

  /** Round trip: the decimal text of any integer, after any white space and
      before any text that does not extend the number, parses back to it.
      So " 3" and "3abc" both parse as 3, and "-5" as -5. */
  lemma ParseIntOfDecimal(ws: string, n: int, rest: string)
    requires AllWhiteSpace(ws)
    requires rest == [] || !IsDigit(rest[0], 10)
    requires n == 0 ==> rest == [] || (rest[0] != 'x' && rest[0] != 'X')
    ensures ParseInt(ws + ToDecimalString(n) + rest) == Int(n)
  {
    var d := ToDecimalString(n);
    var text := d + rest;
    assert ws + d + rest == ws + text;
    ParseIntOfDecimalText(n, rest);
    ParseIntIgnoresLeadingWhiteSpace(ws, text);
  }

  /** Any run of decimal digits, leading zeros allowed, after white space
      and an optional sign and before text that does not extend it, is read
      as the value of that run, negated after `-`: "007" parses as 7 and
      "+3" as 3. The run must not begin a "0x" prefix. */
  lemma ParseIntOfDecimalDigits(ws: string, ds: string, rest: string)
    requires AllWhiteSpace(ws)
    requires ds != [] && AllDigits(ds, 10)
    requires rest == [] || !IsDigit(rest[0], 10)
    requires !HasHexPrefix(ds + rest)
    ensures ParseInt(ws + (ds + rest)) == Int(ValueOf(ds, 10))
    ensures ParseInt(ws + ("+" + (ds + rest))) == Int(ValueOf(ds, 10))
    ensures ParseInt(ws + ("-" + (ds + rest))) == Int(-(ValueOf(ds, 10) as int))
  {
    var u := ds + rest;
    SignedDecimalRun(ds, rest);
    ParseIntIgnoresLeadingWhiteSpace(ws, u);
    ParseIntIgnoresLeadingWhiteSpace(ws, "+" + u);
    ParseIntIgnoresLeadingWhiteSpace(ws, "-" + u);
  }

  /** The unsigned magnitude of a decimal run that does not begin "0x". */
  lemma MagnitudeOfDecimalRun(ds: string, rest: string)
    requires ds != [] && AllDigits(ds, 10)
    requires rest == [] || !IsDigit(rest[0], 10)
    requires !HasHexPrefix(ds + rest)
    ensures Magnitude(ds + rest) == Int(ValueOf(ds, 10))
  {
    LeadingDigitsOfRun(ds, rest, 10);
  }

  /** A decimal run without white space, with no sign, `+` or `-`. */
  lemma SignedDecimalRun(ds: string, rest: string)
    requires ds != [] && AllDigits(ds, 10)
    requires rest == [] || !IsDigit(rest[0], 10)
    requires !HasHexPrefix(ds + rest)
    ensures ParseInt(ds + rest) == Int(ValueOf(ds, 10))
    ensures ParseInt("+" + (ds + rest)) == Int(ValueOf(ds, 10))
    ensures ParseInt("-" + (ds + rest)) == Int(-(ValueOf(ds, 10) as int))
  {
    var u := ds + rest;
    assert u[0] == ds[0];
    MagnitudeOfDecimalRun(ds, rest);
    ParseIntOfUnsigned(u);
    ParseIntOfNegated(u);
    var plus := "+" + u;
    assert plus[0] == '+' && plus[1..] == u;
    assert TrimStart(plus) == plus;
    assert DropSign(plus) == u;
  }

  /** Leading zeros are skipped: "007" is 7. */
  lemma ParseIntLeadingZeros()
    ensures ParseInt("007") == Int(7)
  {
    var ds := "007";
    assert AllDigits(ds, 10);
    assert ds[..2] == "00" && "00"[..1] == "0" && "0"[..0] == [];
    assert ValueOf(ds, 10) == 7;
    ParseIntOfDecimalDigits("", ds, "");
    assert "" + (ds + "") == "007";
  }

  /** A `+` sign is accepted: "+3" is 3. */
  lemma ParseIntPlusSign()
    ensures ParseInt("+3") == Int(3)
  {
    var ds := "3";
    assert ds[..0] == [];
    assert ValueOf(ds, 10) == 3;
    ParseIntOfDecimalDigits("", ds, "");
    assert "" + ("+" + (ds + "")) == "+3";
  }

  /** Any non-empty run of hexadecimal digits, in either case and with or
      without leading zeros, after a "0x" or "0X" prefix and before text that
      does not extend it, is read as the value of that run. */
  lemma MagnitudeOfHex(prefix: string, ds: string, rest: string)
    requires prefix == "0x" || prefix == "0X"
    requires ds != [] && AllDigits(ds, 16)
    requires rest == [] || !IsDigit(rest[0], 16)
    ensures Magnitude(prefix + ds + rest) == Int(ValueOf(ds, 16))
  {
    var body := ds + rest;
    var u := prefix + body;
    assert prefix + ds + rest == u;
    assert u[0] == '0' && (u[1] == 'x' || u[1] == 'X');
    assert u[2..] == body;
    assert DropRadixPrefix(u) == body && RadixOf(u) == 16;
    LeadingDigitsOfRun(ds, rest, 16);
  }

  /** Since no radix is passed, "0x" or "0X" after the optional sign selects
      radix 16: any hexadecimal digits after the prefix are read in base 16,
      so "0xFF" parses as 255, "0x0a" as 10, "+0x1f" as 31 and "-0x1f" as -31. */
  lemma ParseIntOfHexDigits(prefix: string, ds: string, rest: string)
    requires prefix == "0x" || prefix == "0X"
    requires ds != [] && AllDigits(ds, 16)
    requires rest == [] || !IsDigit(rest[0], 16)
    ensures ParseInt(prefix + ds + rest) == Int(ValueOf(ds, 16))
    ensures ParseInt("+" + (prefix + ds + rest)) == Int(ValueOf(ds, 16))
    ensures ParseInt("-" + (prefix + ds + rest)) == Int(-(ValueOf(ds, 16) as int))
  {
    var u := prefix + ds + rest;
    assert u[0] == '0';
    MagnitudeOfHex(prefix, ds, rest);
    ParseIntOfUnsigned(u);
    ParseIntOfNegated(u);
    var plus := "+" + u;
    assert plus[0] == '+' && plus[1..] == u;
    assert TrimStart(plus) == plus;
    assert DropSign(plus) == u;
  }

  /** Round trip for hexadecimal text: the hexadecimal digits of `m` after
      "0x" or "0X" (optionally after `-`) parse back to `m` (or `-m`). */
  lemma ParseIntOfHex(prefix: string, m: nat, rest: string)
    requires prefix == "0x" || prefix == "0X"
    requires rest == [] || !IsDigit(rest[0], 16)
    ensures ParseInt(prefix + Digits(m, 16) + rest) == Int(m)
    ensures ParseInt("-" + (prefix + Digits(m, 16) + rest)) == Int(-(m as int))
  {
    ParseIntOfHexDigits(prefix, Digits(m, 16), rest);
    ValueOfDigits(m, 16);
  }

  /** Upper-case hexadecimal digits are read too: "0xFF" is 255. */
  lemma ParseIntHexUpperCase()
    ensures ParseInt("0xFF") == Int(255)
  {
    var ds := "FF";
    assert ds[..1] == "F" && "F"[..0] == [];
    assert ValueOf(ds, 16) == 255;
    ParseIntOfHexDigits("0x", ds, "");
    assert "0x" + ds + "" == "0xFF";
  }

  /** Leading zeros after the prefix are read too: "0x0a" is 10. */
  lemma ParseIntHexLeadingZero()
    ensures ParseInt("0x0a") == Int(10)
  {
    var ds := "0a";
    assert ds[..1] == "0" && "0"[..0] == [];
    assert ValueOf(ds, 16) == 10;
    ParseIntOfHexDigits("0x", ds, "");
    assert "0x" + ds + "" == "0x0a";
  }

  lemma ParseIntZero()
    ensures ParseInt("0") == Int(0)
  {
  }

  lemma ParseIntMinusFive()
    ensures ParseInt("-5") == Int(-5)
  {
  }

  lemma ParseIntTrailingLetters()
    ensures ParseInt("3abc") == Int(3)
  {
  }

  lemma ParseIntLeadingSpace()
    ensures ParseInt(" 3") == Int(3)
  {
  }

  lemma ParseIntFraction()
    ensures ParseInt("1.5") == Int(1)
  {
  }

  lemma ParseIntLetters()
    ensures ParseInt("abc") == NaN
  {
  }

  lemma ParseIntEmpty()
    ensures ParseInt("") == NaN
  {
  }

  lemma ParseIntBareHexPrefix()
    ensures ParseInt("0x") == NaN
  {
  }

  lemma ParseIntHexPrefix()
    ensures ParseInt("0x10") == Int(16)
  {
    assert Digits(1, 16) == "1";
    var s := "0x" + Digits(16, 16) + "";
    ParseIntOfHex("0x", 16, "");
    assert s == "0x10";
  }

  /** Inputs a leave form can carry, with what `parseInt` makes of them:
      the longest digit prefix after white space and a sign, NaN when there
      is none, and hexadecimal after "0x". */
  lemma ParseIntExamples()
    ensures ParseInt("0") == Int(0) && ParseInt("-5") == Int(-5)
    ensures ParseInt("3abc") == Int(3) && ParseInt(" 3") == Int(3) && ParseInt("1.5") == Int(1)
    ensures ParseInt("abc") == NaN && ParseInt("") == NaN && ParseInt("0x") == NaN
    ensures ParseInt("0x10") == Int(16)
  {
    ParseIntZero();
    ParseIntMinusFive();
    ParseIntTrailingLetters();
    ParseIntLeadingSpace();
    ParseIntFraction();
    ParseIntLetters();
    ParseIntEmpty();
    ParseIntBareHexPrefix();
    ParseIntHexPrefix();
  }
}
