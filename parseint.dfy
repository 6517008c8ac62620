/** The global `parseInt(string)` with its radix argument omitted, as section
    19.2.5 of ECMA-262 defines it: leading white space and line terminators
    are skipped, one sign is read, a `0x`/`0X` prefix switches to radix 16,
    and the longest run of radix digits that follows is the value. Only the
    ASCII digits 0-9 (and, in radix 16, a-f and A-F) are radix digits; a
    numeral in any other script yields NaN. */
module Numerals {
  import opened Js
  import opened Text

  /** WhiteSpace (section 12.2: TAB, VT, FF, ZWNBSP and the Unicode category
      Zs) and LineTerminator (section 12.3) code points, which `TrimString`
      removes. */
  predicate IsStrWhiteSpace(c: char)
  {
    c == '\t' || c == '\n' || c == '\U{000B}' || c == '\U{000C}' || c == '\r' || c == ' '
    || c == '\U{00A0}' || c == '\U{1680}' || ('\U{2000}' <= c <= '\U{200A}')
    || c == '\U{2028}' || c == '\U{2029}' || c == '\U{202F}' || c == '\U{205F}'
    || c == '\U{3000}' || c == '\U{FEFF}'
  }

  /** The string with its leading white space removed. */
  function TrimStart(s: string): (r: string)
    ensures |r| <= |s| && r == s[|s| - |r|..]
    ensures r != [] ==> !IsStrWhiteSpace(r[0])
    ensures forall i :: 0 <= i < |s| - |r| ==> IsStrWhiteSpace(s[i])
  {
    if s != [] && IsStrWhiteSpace(s[0]) then TrimStart(s[1..]) else s
  }

  /** Value of `c` as a digit in radix `radix` (10 or 16), or -1. */
  function RadixDigit(c: char, radix: int): (v: int)
    ensures -1 <= v < radix || (radix != 16 && v < 10)
    ensures v >= 0 ==> v < 16
  {
    if '0' <= c <= '9' then ((c as int) - ('0' as int))
    else if radix == 16 && 'a' <= c <= 'f' then ((c as int) - ('a' as int) + 10)
    else if radix == 16 && 'A' <= c <= 'F' then ((c as int) - ('A' as int) + 10)
    else -1
  }

  predicate IsRadixDigit(c: char, radix: int)
  {
    0 <= RadixDigit(c, radix) < radix
  }

  /** The longest prefix of `s` made of radix digits. */
  function DigitRun(s: string, radix: int): (z: string)
    ensures |z| <= |s| && z == s[..|z|]
    ensures forall i :: 0 <= i < |z| ==> IsRadixDigit(z[i], radix)
    ensures |z| < |s| ==> !IsRadixDigit(s[|z|], radix)
  {
    if s != [] && IsRadixDigit(s[0], radix) then [s[0]] + DigitRun(s[1..], radix) else []
  }

  /** The mathematical value of a run of radix digits, most significant first. */
  function RunValue(z: string, radix: int): nat
    requires radix == 10 || radix == 16
    requires forall i :: 0 <= i < |z| ==> IsRadixDigit(z[i], radix)
  {
    if z == [] then 0
    else
      var high := RunValue(z[..|z| - 1], radix);
      assert IsRadixDigit(z[|z| - 1], radix);
      (if radix == 10 then 10 * high else 16 * high) + RadixDigit(z[|z| - 1], radix)
  }

  /** `parseInt(s)`. */
  function ParseInt(input: string): Num
  {
    ParseSigned(TrimStart(input))
  }

  /** Steps 4-7 on the trimmed string: one optional sign, then the numeral. */
  function ParseSigned(s: string): Num
  {
    if s != [] && s[0] == '-' then Negate(ParseUnsigned(s[1..]))
    else if s != [] && s[0] == '+' then ParseUnsigned(s[1..])
    else ParseUnsigned(s)
  }

  function Negate(v: Num): Num
  {
    match v
    case NaN => NaN
    case Int(n) => Int(-n)
  }

  /** Steps 8-16 without the sign: an optional `0x` prefix, then the digit run. */
  function ParseUnsigned(u: string): Num
  {
    if |u| >= 2 && u[0] == '0' && (u[1] == 'x' || u[1] == 'X') then ParseRun(u[2..], 16)
    else ParseRun(u, 10)
  }

  /** The value of the longest leading run of radix digits, or NaN when there is none. */
  function ParseRun(body: string, radix: int): Num
    requires radix == 10 || radix == 16
  {
    var z := DigitRun(body, radix);
    if z == [] then NaN else Int(RunValue(z, radix))
  }

  /** A string whose first character is not white space, not a sign and not
      an ASCII digit does not parse. */
  lemma ParseIntNoLeadingDigit(s: string)
    requires s != [] && !IsStrWhiteSpace(s[0]) && s[0] != '+' && s[0] != '-' && !IsAsciiDigit(s[0])
    ensures ParseInt(s) == NaN
  {
    assert TrimStart(s) == s;
    assert !IsRadixDigit(s[0], 10);
  }

  /** A string that starts with a decimal digit and has no `0x` prefix
      parses as its leading run of decimal digits. */
  lemma ParseIntLeadingDigit(s: string)
    requires s != [] && IsAsciiDigit(s[0])
    requires !(|s| >= 2 && s[0] == '0' && (s[1] == 'x' || s[1] == 'X'))
    ensures DigitRun(s, 10) != []
    ensures ParseInt(s) == Int(RunValue(DigitRun(s, 10), 10))
  {
    LeadingDigitRun(s);
    LeadingDigitDecimal(s);
  }

  /** A leading digit starts a non-empty digit run. */
  lemma LeadingDigitRun(s: string)
    requires s != [] && IsAsciiDigit(s[0])
    ensures DigitRun(s, 10) != []
  {
    assert IsRadixDigit(s[0], 10);
  }

  /** With no white space, no sign and no `0x` prefix in front, the string
      is read as one decimal run. */
  lemma LeadingDigitDecimal(s: string)
    requires s != [] && IsAsciiDigit(s[0])
    requires !(|s| >= 2 && s[0] == '0' && (s[1] == 'x' || s[1] == 'X'))
    ensures ParseInt(s) == ParseRun(s, 10)
  {
    LeadingDigitUntrimmed(s);
    LeadingDigitUnsigned(s);
  }

  /** Trimming leaves a string that starts with a digit alone. */
  lemma LeadingDigitUntrimmed(s: string)
    requires s != [] && IsAsciiDigit(s[0])
    ensures TrimStart(s) == s
  {
    assert !IsStrWhiteSpace(s[0]);
  }

  /** A string that starts with a digit has no sign to strip. */
  lemma LeadingDigitUnsigned(s: string)
    requires s != [] && IsAsciiDigit(s[0])
    ensures ParseSigned(s) == ParseUnsigned(s)
  {
    assert s[0] != '-' && s[0] != '+';
  }

  /** Decimal digits followed by anything that neither continues the numeral
      nor turns a lone `0` into a `0x` prefix parse to the number those digits
      denote. */
  lemma ParseIntDecimalPrefix(digits: string, rest: string)
    requires digits != [] && AllAsciiDigits(digits)
    requires rest == [] || (!IsAsciiDigit(rest[0]) && rest[0] != 'x' && rest[0] != 'X')
    ensures ParseInt(digits + rest) == Int(DigitsValue(digits))
  {
    var s := digits + rest;
    assert s[0] == digits[0];
    assert !(|s| >= 2 && s[0] == '0' && (s[1] == 'x' || s[1] == 'X')) by {
      if |s| >= 2 {
        if |digits| >= 2 {
          assert s[1] == digits[1];
          assert IsAsciiDigit(digits[1]);
        } else {
          assert s[1] == rest[0];
        }
      }
    }
    ParseIntLeadingDigit(s);
    DigitRunOfDigits(digits, rest);
    RunValueIsDigitsValue(digits);
  }

  lemma {:induction false} DigitRunOfDigits(digits: string, rest: string)
    requires AllAsciiDigits(digits)
    requires rest == [] || !IsAsciiDigit(rest[0])
    ensures DigitRun(digits + rest, 10) == digits
    decreases |digits|
  {
    if digits != [] {
      assert (digits + rest)[1..] == digits[1..] + rest;
      DigitRunOfDigits(digits[1..], rest);
    } else {
      assert digits + rest == rest;
    }
  }

  lemma {:induction false} RunValueIsDigitsValue(digits: string)
    requires AllAsciiDigits(digits)
    ensures forall i :: 0 <= i < |digits| ==> IsRadixDigit(digits[i], 10)
    ensures RunValue(digits, 10) == DigitsValue(digits)
    decreases |digits|
  {
    if digits != [] {
      RunValueIsDigitsValue(digits[..|digits| - 1]);
    }
  }
}
