/**
 * The JavaScript number conversions the browser token store relies on
 * (frontend/src/App.jsx): the expiry is computed as a number, written to
 * localStorage as String(number), read back as a string and compared after
 * the implicit Number(string) conversion; `expires_in` from the URL hash goes
 * through parseInt. Numbers are modelled as integers or NaN.
 */
module JsNumbers {
  import opened Common

  /** A JavaScript number that is an integer, or NaN. */
  datatype Num = Int(value: int) | NaN

  /** `a + b`: NaN is contagious. */
  function Add(a: Num, b: Num): (r: Num)
    ensures r.Int? <==> a.Int? && b.Int?
    ensures r.Int? ==> r.value == a.value + b.value
  {
    if a.Int? && b.Int? then Int(a.value + b.value) else NaN
  }

  /** `a * k` for an integer constant k. */
  function Scale(a: Num, k: int): (r: Num)
    ensures r.Int? <==> a.Int?
    ensures r.Int? ==> r.value == a.value * k
  {
    if a.Int? then Int(a.value * k) else NaN
  }

  /** `n > a`: every comparison with NaN is false. */
  predicate Greater(n: int, a: Num)
  {
    a.Int? && n > a.value
  }

  // ---------------------------------------------------------------------------
  // Digits
  // ---------------------------------------------------------------------------

  /** The value of c as a digit in the given radix, if it is one. */
  function DigitValue(c: char, radix: nat): (v: Option<nat>)
    requires radix == 10 || radix == 16
    ensures v.Some? ==> v.value < radix
  {
    if '0' <= c <= '9' then Some(c as int - '0' as int)
    else if radix == 16 && 'a' <= c <= 'f' then Some(c as int - 'a' as int + 10)
    else if radix == 16 && 'A' <= c <= 'F' then Some(c as int - 'A' as int + 10)
    else None
  }

  predicate AllDigits(s: string, radix: nat)
    requires radix == 10 || radix == 16
  {
    forall i :: 0 <= i < |s| ==> DigitValue(s[i], radix).Some?
  }

  /** The value of a digit string, most significant digit first. */
  function ValueIn(s: string, radix: nat): (n: nat)
    requires radix == 10 || radix == 16
    requires AllDigits(s, radix)
    decreases |s|
  {
    if s == [] then 0
    else ValueIn(s[..|s| - 1], radix) * radix + DigitValue(s[|s| - 1], radix).value
  }

  function DigitChar(d: nat): (c: char)
    requires d < 10
    ensures DigitValue(c, 10) == Some(d)
  {
    ('0' as int + d) as char
  }

  /** The shortest decimal numeral of n, as String(n) writes it. */
  function Decimal(n: nat): (s: string)
    ensures s != [] && AllDigits(s, 10)
    ensures s[0] != '-' && s[0] != '+'
    ensures |s| > 1 ==> s[0] != '0'
    decreases n
  {
    if n < 10 then [DigitChar(n)] else Decimal(n / 10) + [DigitChar(n % 10)]
  }

  /** Reading a numeral back gives the number it was written from. */
  lemma {:induction false} DecimalValue(n: nat)
    ensures ValueIn(Decimal(n), 10) == n
    decreases n
  {
    if n >= 10 {
      DecimalValue(n / 10);
      var s := Decimal(n);
      assert s[..|s| - 1] == Decimal(n / 10);
    }
  }

  // ---------------------------------------------------------------------------
  // String(number) and Number(string)
  // ---------------------------------------------------------------------------

  /** `String(x)`, which is also what localStorage.setItem stores for a number. */
  function ToString(x: Num): (s: string)
    ensures s != []
    ensures x.Int? && x.value >= 0 ==> AllDigits(s, 10)
    ensures x.Int? && x.value < 0 ==> s[0] == '-' && AllDigits(s[1..], 10)
  {
    match x
    case NaN => "NaN"
    case Int(i) => if i < 0 then "-" + Decimal(-i) else Decimal(i)
  }

  /**
   * `Number(s)` for the numerals String writes: an optional sign and decimal
   * digits, and "" (which is 0). Anything else is NaN here.
   */
  function Number(s: string): (r: Num)
    ensures s == "" ==> r == Int(0)
    ensures s != "" && AllDigits(s, 10) ==> r == Int(ValueIn(s, 10))
    ensures |s| > 1 && s[0] == '-' && AllDigits(s[1..], 10) ==> r == Int(-(ValueIn(s[1..], 10) as int))
  {
    if s == "" then Int(0)
    else if AllDigits(s, 10) then Int(ValueIn(s, 10))
    else if |s| > 1 && s[0] == '-' && AllDigits(s[1..], 10) then Int(-(ValueIn(s[1..], 10) as int))
    else if |s| > 1 && s[0] == '+' && AllDigits(s[1..], 10) then Int(ValueIn(s[1..], 10))
    else NaN
  }

  /** What String writes, Number reads back unchanged, NaN included. */
  lemma NumberOfToString(x: Num)
    ensures Number(ToString(x)) == x
  {
    match x
    case NaN =>
      assert !AllDigits("NaN", 10) by { assert DigitValue("NaN"[0], 10).None?; }
    case Int(i) =>
      if i < 0 {
        var s := ToString(x);
        DecimalValue(-i);
        assert s[1..] == Decimal(-i);
        assert !AllDigits(s, 10) by { assert DigitValue(s[0], 10).None?; }
      } else {
        DecimalValue(i);
      }
  }

  // ---------------------------------------------------------------------------
  // parseInt(string)
  // ---------------------------------------------------------------------------

  /** The white space and line terminators parseInt skips. */
  predicate IsJsSpace(c: char)
  {
    || c == ' ' || c == '\t' || c == '\n' || c == '\U{000B}' || c == '\U{000C}' || c == '\r'
    || c == '\U{00A0}' || c == '\U{1680}' || ('\U{2000}' <= c <= '\U{200A}')
    || c == '\U{2028}' || c == '\U{2029}' || c == '\U{202F}' || c == '\U{205F}'
    || c == '\U{3000}' || c == '\U{FEFF}'
  }

  /** s without its leading white space. */
  function TrimStart(s: string): (r: string)
    ensures |r| <= |s| && r == s[|s| - |r|..]
    ensures r != [] ==> !IsJsSpace(r[0])
    ensures forall i :: 0 <= i < |s| - |r| ==> IsJsSpace(s[i])
    decreases |s|
  {
    if s != [] && IsJsSpace(s[0]) then TrimStart(s[1..]) else s
  }

  /** The longest prefix of s made of digits of the radix. */
  function DigitRun(s: string, radix: nat): (r: string)
    requires radix == 10 || radix == 16
    ensures r <= s && AllDigits(r, radix)
    ensures |r| < |s| ==> DigitValue(s[|r|], radix).None?
    decreases |s|
  {
    if s != [] && DigitValue(s[0], radix).Some? then
      var rest := DigitRun(s[1..], radix);
      assert [s[0]] + rest <= s;
      [s[0]] + rest
    else []
  }

  /** The value of s when it has a non-empty leading run of digits of the radix, NaN otherwise. */
  function LeadingValue(s: string, radix: nat): (r: Num)
    requires radix == 10 || radix == 16
  {
    var run := DigitRun(s, radix);
    if run == [] then NaN else Int(ValueIn(run, radix))
  }

  /**
   * `parseInt(s)` with no radix: skip leading white space, take an optional
   * sign, read hexadecimal after "0x" or "0X" and decimal otherwise, and stop
   * at the first character that is not a digit; no digits at all is NaN.
   */
  function ParseInt(s: string): (r: Num)
    ensures TrimStart(s) == [] ==> r == NaN
    ensures r.Int? && r.value < 0 ==> TrimStart(s)[0] == '-'
  {
    var t := TrimStart(s);
    var negative := t != [] && t[0] == '-';
    var u := if t != [] && (t[0] == '-' || t[0] == '+') then t[1..] else t;
    if negative then Scale(Unsigned(u), -1) else Unsigned(u)
  }

  /** What parseInt reads after the sign: a hexadecimal numeral after "0x" or "0X", else a decimal one. */
  function Unsigned(u: string): (r: Num)
    ensures r.Int? ==> r.value >= 0
  {
    if |u| >= 2 && u[0] == '0' && (u[1] == 'x' || u[1] == 'X') then LeadingValue(u[2..], 16)
    else LeadingValue(u, 10)
  }

  /** A run of digits is read whole, and reading stops at the first non-digit. */
  lemma {:induction false} DigitRunOfDigits(s: string, rest: string, radix: nat)
    requires radix == 10 || radix == 16
    requires AllDigits(s, radix)
    requires rest == [] || DigitValue(rest[0], radix).None?
    ensures DigitRun(s + rest, radix) == s
    decreases |s|
  {
    if s == [] {
      assert s + rest == rest;
    } else {
      var t := s + rest;
      assert t[0] == s[0] && DigitValue(t[0], radix).Some?;
      assert t[1..] == s[1..] + rest;
      DigitRunOfDigits(s[1..], rest, radix);
      assert DigitRun(t, radix) == [s[0]] + DigitRun(t[1..], radix);
      assert s == [s[0]] + s[1..];
    }
  }

  /** parseInt of a numeral written by String is the number it was written from. */
  /** Leading white space is skipped whole. */
  lemma {:induction false} TrimStartOfSpaces(ws: string, s: string)
    requires forall i :: 0 <= i < |ws| ==> IsJsSpace(ws[i])
    ensures TrimStart(ws + s) == TrimStart(s)
    decreases |ws|
  {
    if ws == [] {
      assert ws + s == s;
    } else {
      assert (ws + s)[0] == ws[0] && (ws + s)[1..] == ws[1..] + s;
      TrimStartOfSpaces(ws[1..], s);
    }
  }

  /** parseInt ignores leading white space. */
  lemma {:induction false} ParseIntSkipsSpace(ws: string, s: string)
    requires forall i :: 0 <= i < |ws| ==> IsJsSpace(ws[i])
    ensures ParseInt(ws + s) == ParseInt(s)
  {
    TrimStartOfSpaces(ws, s);
  }

  /** An optional sign: '-' negates what follows, '+' and no sign keep it. */
  lemma {:induction false} ParseIntOfSigned(sign: string, u: string)
    requires sign == "" || sign == "-" || sign == "+"
    requires sign == "" ==> u == [] || (!IsJsSpace(u[0]) && u[0] != '-' && u[0] != '+')
    ensures ParseInt(sign + u) == if sign == "-" then Scale(Unsigned(u), -1) else Unsigned(u)
  {
    var s := sign + u;
    if sign == "" {
      assert s == u;
      assert TrimStart(s) == s;
    } else {
      assert s[0] == sign[0] && s[1..] == u;
      assert !IsJsSpace(s[0]);
      assert TrimStart(s) == s;
    }
  }

  /**
   * After the sign, parseInt reads the decimal digits and ignores whatever
   * follows the first non-digit (a "0" followed by 'x' or 'X' is the
   * hexadecimal prefix instead).
   */
  lemma {:induction false} UnsignedOfDigitsThen(d: string, rest: string)
    requires d != [] && AllDigits(d, 10)
    requires rest == [] || DigitValue(rest[0], 10).None?
    requires d == "0" && rest != [] ==> rest[0] != 'x' && rest[0] != 'X'
    ensures Unsigned(d + rest) == Int(ValueIn(d, 10))
  {
    var u := d + rest;
    assert u[0] == d[0];
    assert |u| >= 2 ==> u[1] == (if |d| >= 2 then d[1] else rest[0]);
    assert |d| >= 2 ==> DigitValue(d[1], 10).Some?;
    DigitRunOfDigits(d, rest, 10);
  }

  /** After "0x" or "0X", parseInt reads the hexadecimal digits up to the first other character. */
  lemma {:induction false} UnsignedOfHex(x: char, h: string, rest: string)
    requires x == 'x' || x == 'X'
    requires h != [] && AllDigits(h, 16)
    requires rest == [] || DigitValue(rest[0], 16).None?
    ensures Unsigned(['0', x] + h + rest) == Int(ValueIn(h, 16))
  {
    var u := ['0', x] + h + rest;
    assert u[0] == '0' && u[1] == x && u[2..] == h + rest;
    DigitRunOfDigits(h, rest, 16);
  }

  /** Without a digit after the sign, parseInt is NaN. */
  lemma {:induction false} UnsignedWithoutDigits(rest: string)
    requires rest == [] || DigitValue(rest[0], 10).None?
    ensures Unsigned(rest) == NaN
  {
    assert DigitRun(rest, 10) == [];
  }

  /** Together: parseInt of a signed numeral followed by other text. */
  lemma {:induction false} ParseIntOfDigitsThen(sign: string, d: string, rest: string)
    requires sign == "" || sign == "-" || sign == "+"
    requires d != [] && AllDigits(d, 10)
    requires rest == [] || DigitValue(rest[0], 10).None?
    requires d == "0" && rest != [] ==> rest[0] != 'x' && rest[0] != 'X'
    ensures ParseInt(sign + d + rest) == Scale(Int(ValueIn(d, 10)), if sign == "-" then -1 else 1)
  {
    assert sign + d + rest == sign + (d + rest);
    assert (d + rest)[0] == d[0] && DigitValue(d[0], 10).Some?;
    ParseIntOfSigned(sign, d + rest);
    UnsignedOfDigitsThen(d, rest);
  }

  lemma ParseIntOfDecimal(n: nat)
    ensures ParseInt(Decimal(n)) == Int(n)
  {
    var s := Decimal(n);
    assert !IsJsSpace(s[0]) by { assert DigitValue(s[0], 10).Some?; }
    assert TrimStart(s) == s;
    DigitRunOfDigits(s, [], 10);
    assert s + [] == s;
    DecimalValue(n);
  }
}
