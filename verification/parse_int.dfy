/**
 The global `parseInt` of ECMAScript (ECMA-262, section 19.2.5), called with
 one argument as the leave form does with the typed duration.

 With the radix argument left undefined the algorithm:
 - drops leading white space and line terminators,
 - takes an optional `+` or `-` sign,
 - switches to radix 16 when the rest starts with `0x` or `0X` (and drops
   that prefix), otherwise uses radix 10,
 - reads the longest prefix of digits of that radix, ignoring everything
   after it,
 - answers NaN when that prefix is empty, and sign times its value otherwise.

 The result is an unbounded integer: the rounding of very large values to a
 double is not modelled, and `-0` is represented by `Int(0)`.
 */
module JsParseInt {

  /** What `parseInt` can return: NaN or an integral number. */
  datatype Number = NaN | Int(value: int)

  /** The two radixes `parseInt` can pick when no radix is passed. */
  type Radix = r: nat | r == 10 || r == 16 witness 10

  /** The ECMAScript WhiteSpace and LineTerminator code points
      (tab, vertical tab, form feed, the Unicode space separators,
      the byte order mark, LF, CR, LS and PS). */
  predicate IsWhiteSpace(c: char) {
    || c == '\t' || c == '\U{000B}' || c == '\U{000C}' || c == ' '
    || c == '\U{00A0}' || c == '\U{1680}' || ('\U{2000}' <= c <= '\U{200A}')
    || c == '\U{202F}' || c == '\U{205F}' || c == '\U{3000}' || c == '\U{FEFF}'
    || c == '\n' || c == '\r' || c == '\U{2028}' || c == '\U{2029}'
  }

  /** The value of `c` as a digit of radix up to 36; 36 when it is no digit at all. */
  function DigitValue(c: char): (d: nat)
    ensures d <= 36
  {
    if '0' <= c <= '9' then c as int - '0' as int
    else if 'a' <= c <= 'z' then c as int - 'a' as int + 10
    else if 'A' <= c <= 'Z' then c as int - 'A' as int + 10
    else 36
  }

  predicate IsDigit(c: char, radix: Radix) {
    DigitValue(c) < radix
  }

  predicate AllDigits(ds: string, radix: Radix) {
    forall i :: 0 <= i < |ds| ==> IsDigit(ds[i], radix)
  }

  predicate AllWhiteSpace(ws: string) {
    forall i :: 0 <= i < |ws| ==> IsWhiteSpace(ws[i])
  }

  /** `s` without its leading white space (see `TrimStartSpec`). */
  function TrimStart(s: string): string {
    if s != [] && IsWhiteSpace(s[0]) then TrimStart(s[1..]) else s
  }

  /** `TrimStart` leaves the suffix of `s` that follows a run of white space
      and does not itself start with white space. */
  lemma {:induction false} TrimStartSpec(s: string)
    ensures var t := TrimStart(s);
      && |t| <= |s| && t == s[|s| - |t|..]
      && AllWhiteSpace(s[..|s| - |t|])
      && (t == [] || !IsWhiteSpace(t[0]))
  {
    if s != [] && IsWhiteSpace(s[0]) {
      TrimStartSpec(s[1..]);
      var t := TrimStart(s[1..]);
      assert s[1..][|s| - 1 - |t|..] == s[|s| - |t|..];
      var ws := s[..|s| - |t|];
      assert ws == [s[0]] + s[1..][..|s| - 1 - |t|];
      assert forall i :: 0 < i < |ws| ==> ws[i] == s[1..][..|s| - 1 - |t|][i - 1];
    } else {
      assert s[..0] == [];
    }
  }

  /** The longest prefix of `s` made of digits of `radix` (see `LeadingDigitsSpec`). */
  function LeadingDigits(s: string, radix: Radix): string {
    if s != [] && IsDigit(s[0], radix) then [s[0]] + LeadingDigits(s[1..], radix) else []
  }

  /** `LeadingDigits` is a prefix of `s`, made of digits, that no further
      digit of `s` extends. */
  lemma {:induction false} LeadingDigitsSpec(s: string, radix: Radix)
    ensures var d := LeadingDigits(s, radix);
      && |d| <= |s| && d == s[..|d|]
      && AllDigits(d, radix)
      && (|d| == |s| || !IsDigit(s[|d|], radix))
  {
    if s != [] && IsDigit(s[0], radix) {
      LeadingDigitsSpec(s[1..], radix);
      var rest := LeadingDigits(s[1..], radix);
      var d := [s[0]] + rest;
      assert d == s[..|d|] by {
        assert s == [s[0]] + s[1..];
      }
      assert forall i :: 0 < i < |d| ==> d[i] == rest[i - 1];
      assert |d| == |s| || s[|d|] == s[1..][|rest|];
    }
  }

  /** The mathematical value of a digit string, most significant digit first.
      Only applied to strings of digits of `radix`. */
  function ValueOf(ds: string, radix: Radix): nat {
    if ds == [] then 0
    else ValueOf(ds[..|ds| - 1], radix) * radix + DigitValue(ds[|ds| - 1])
  }

  /** The sign a trimmed text starts with: -1 after a `-`, 1 otherwise. */
  function SignOf(t: string): int {
    if t != [] && t[0] == '-' then -1 else 1
  }

  /** A trimmed text without its leading `+` or `-`, if any. */
  function DropSign(t: string): string {
    if t != [] && (t[0] == '-' || t[0] == '+') then t[1..] else t
  }

  predicate HasHexPrefix(u: string) {
    |u| >= 2 && u[0] == '0' && (u[1] == 'x' || u[1] == 'X')
  }

  /** The radix chosen for unsigned text: 16 after a "0x" or "0X" prefix. */
  function RadixOf(u: string): Radix {
    if HasHexPrefix(u) then 16 else 10
  }

  /** The unsigned text without its "0x" or "0X" prefix, if any. */
  function DropRadixPrefix(u: string): string {
    if HasHexPrefix(u) then u[2..] else u
  }

  /** The magnitude read from unsigned text: NaN when no digit follows. */
  function Magnitude(u: string): (m: Number)
    ensures m.Int? ==> m.value >= 0
  {
    var digits := LeadingDigits(DropRadixPrefix(u), RadixOf(u));
    if digits == [] then NaN else Int(ValueOf(digits, RadixOf(u)))
  }

  /** The text `parseInt` reads digits from: no leading white space, no sign. */
  function Unsigned(s: string): string {
    DropSign(TrimStart(s))
  }

  /** `parseInt(s)` with the radix argument omitted. It yields a number
      exactly when, after white space and an optional sign, a decimal digit
      follows, and, when that begins a "0x" or "0X" prefix, a hexadecimal
      digit follows the prefix; NaN otherwise. */
  function ParseInt(s: string): (n: Number)
    ensures n.Int? <==>
      var u := Unsigned(s);
      && u != [] && IsDigit(u[0], 10)
      && (HasHexPrefix(u) ==> |u| > 2 && IsDigit(u[2], 16))
  {
    var t := TrimStart(s);
    var m := Magnitude(DropSign(t));
    if m.NaN? then NaN else Int(SignOf(t) * m.value)
  }

  /** The lower-case digit of value `d`. */
  function DigitChar(d: nat): (c: char)
    requires d < 16
    ensures DigitValue(c) == d
  {
    if d < 10 then ('0' as int + d) as char else ('a' as int + d - 10) as char
  }

  /** The digits of `n` in `radix`, most significant first, without leading zeros. */
  function Digits(n: nat, radix: Radix): (ds: string)
    ensures |ds| > 0 && AllDigits(ds, radix)
    ensures ds[0] == '0' <==> n == 0
    decreases n
  {
    if n < radix then [DigitChar(n)]
    else Digits(n / radix, radix) + [DigitChar(n % radix)]
  }

  /** The plain decimal text of an integer: a `-` before the digits of a negative one. */
  function ToDecimalString(n: int): string {
    if n < 0 then "-" + Digits(-n, 10) else Digits(n, 10)
  }
}
