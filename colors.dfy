/** Colours as the plugin stores and reads them: `parseColor` (a leading "#" is
    removed, the rest is read as a signed 32-bit hexadecimal `Int`, and
    `java.awt.Color(int)` keeps its low 24 bits) and the `"#%06X"` formatting
    that the settings dialogs write back. */
module Colors {
  import opened Common

  /** 2^24: one more than the largest 24-bit RGB value. */
  const RgbLimit: int := 0x100_0000

  /** A 24-bit RGB value, red in bits 16-23. */
  type Rgb = x: int | 0 <= x < 0x100_0000

  const IntMin: int := -0x8000_0000
  const IntMax: int := 0x7FFF_FFFF

  predicate IsHexDigit(c: char) {
    '0' <= c <= '9' || 'a' <= c <= 'f' || 'A' <= c <= 'F'
  }

  predicate IsUpperHexDigit(c: char) {
    '0' <= c <= '9' || 'A' <= c <= 'F'
  }

  predicate AllHexDigits(s: string) {
    forall i :: 0 <= i < |s| ==> IsHexDigit(s[i])
  }

  function DigitValue(c: char): (d: nat)
    requires IsHexDigit(c)
    ensures d < 16
  {
    if c <= '9' then c as int - '0' as int
    else if c <= 'F' then c as int - 'A' as int + 10
    else c as int - 'a' as int + 10
  }

  /** The value of a string of hexadecimal digits, most significant first. */
  function HexValue(s: string): nat
    requires AllHexDigits(s)
  {
    if s == [] then 0 else HexValue(s[..|s| - 1]) * 16 + DigitValue(s[|s| - 1])
  }

  /** `java.lang.Integer.parseInt(s, 16)`, which Kotlin's `String.toInt(16)` calls:
      an optional '-' or '+', at least one digit, and a value that fits a signed
      32-bit `Int`; anything else throws, modelled as `None`. */
  function ParseHexInt(s: string): (r: Option<int>)
    ensures r.Some? ==> IntMin <= r.value <= IntMax
    ensures r.Some? ==> |s| > 0
    // unsigned digits read as their value, when it fits
    ensures |s| > 0 && AllHexDigits(s) ==>
              r == (if HexValue(s) <= IntMax then Some(HexValue(s) as int) else None)
    // a leading sign followed by digits reads as the signed value, when it fits
    ensures |s| > 1 && s[0] == '-' && AllHexDigits(s[1..]) ==>
              r == (if IntMin <= -(HexValue(s[1..]) as int) then Some(-(HexValue(s[1..]) as int)) else None)
    ensures |s| > 1 && s[0] == '+' && AllHexDigits(s[1..]) ==>
              r == (if HexValue(s[1..]) <= IntMax then Some(HexValue(s[1..]) as int) else None)
    // any other character, or no digit at all, is rejected
    ensures (exists i :: 0 <= i < |s| && !IsHexDigit(s[i]) && !(i == 0 && (s[0] == '-' || s[0] == '+'))) ==> r.None?
    ensures s == "-" || s == "+" ==> r.None?
  {
    if |s| == 0 then None
    else
      var signed := s[0] == '-' || s[0] == '+';
      var digits := if signed then s[1..] else s;
      if |digits| == 0 || !AllHexDigits(digits) then None
      else
        var v: int := if s[0] == '-' then -(HexValue(digits) as int) else HexValue(digits);
        if IntMin <= v <= IntMax then Some(v) else None
  }

  /** Kotlin's `removePrefix`: drops one leading occurrence of `prefix`. */
  function RemovePrefix(s: string, prefix: string): (r: string)
    ensures prefix <= s ==> s == prefix + r
    ensures !(prefix <= s) ==> r == s
  {
    if prefix <= s then s[|prefix|..] else s
  }

  /** `parseColor`: `Color(hex.removePrefix("#").toInt(16))`, or `None` where
      the source catches an exception and returns null. */
  function ParseColor(hex: string): (r: Option<Rgb>)
    ensures r.Some? ==> |RemovePrefix(hex, "#")| > 0
  {
    match ParseHexInt(RemovePrefix(hex, "#"))
    case Some(v) => Some(v % RgbLimit)
    case None => None
  }

  /** An uppercase hexadecimal digit for a value below 16, as `%X` prints it. */
  function HexChar(d: nat): (c: char)
    requires d < 16
    ensures IsUpperHexDigit(c) && IsHexDigit(c) && DigitValue(c) == d
  {
    if d < 10 then (48 + d) as char else (55 + d) as char
  }

  function Pow16(n: nat): (p: nat)
    ensures p >= 1
  {
    if n == 0 then 1 else 16 * Pow16(n - 1)
  }

  /** The lowest `n` hexadecimal digits of `v`, zero-padded, most significant first. */
  function HexDigits(v: nat, n: nat): (s: string)
    ensures |s| == n
    ensures forall i :: 0 <= i < |s| ==> IsUpperHexDigit(s[i]) && IsHexDigit(s[i])
  {
    if n == 0 then [] else HexDigits(v / 16, n - 1) + [HexChar(v % 16)]
  }

  /** `String.format("#%06X", rgb)` for a value that fits 24 bits (the callers
      mask with `and 0xFFFFFF`): a "#" and exactly six uppercase hex digits. */
  function FormatColor(c: Rgb): (s: string)
    ensures |s| == 7 && s[0] == '#'
    ensures forall i :: 1 <= i < 7 ==> IsUpperHexDigit(s[i])
  {
    "#" + HexDigits(c, 6)
  }

  lemma ModOfShifted(v: nat, p: nat)
    requires p >= 1
    ensures (v / 16 % p) * 16 + v % 16 == v % (16 * p)
  {
    var q, r := v / 16, v % 16;
    var a, b := q / p, q % p;
    assert v == 16 * q + r;
    assert q == p * a + b;
    assert v == (16 * p) * a + (16 * b + r);
    assert 0 <= 16 * b + r < 16 * p;
    ModUnique(v, 16 * p, a, 16 * b + r);
  }

  lemma ModUnique(v: int, m: int, a: int, b: int)
    requires m > 0 && 0 <= b < m && v == m * a + b
    ensures v % m == b
  {
    var a', b' := v / m, v % m;
    assert m * a + b == m * a' + b';
    if a > a' {
      assert m * (a - a') == b' - b;
      MulAtLeast(m, a - a');
    } else if a < a' {
      assert m * (a' - a) == b - b';
      MulAtLeast(m, a' - a);
    }
  }

  lemma MulAtLeast(m: int, d: int)
    requires m > 0 && d >= 1
    ensures m * d >= m
  {
    assert m * d == m * (d - 1) + m;
  }

  /** Reading back printed digits gives the printed value modulo 16^n. */
  lemma {:induction false} HexValueOfDigits(v: nat, n: nat)
    ensures HexValue(HexDigits(v, n)) == v % Pow16(n)
  {
    if n > 0 {
      var s := HexDigits(v, n);
      assert s[..|s| - 1] == HexDigits(v / 16, n - 1);
      HexValueOfDigits(v / 16, n - 1);
      ModOfShifted(v, Pow16(n - 1));
    }
  }

  /** The formatted colour parses back to the same 24-bit value, so a colour written
      by a dialog is the colour the border service draws. */
  lemma FormatColorRoundTrip(c: Rgb)
    ensures ParseColor(FormatColor(c)) == Some(c)
  {
    var s := FormatColor(c);
    var digits := HexDigits(c, 6);
    assert s == "#" + digits;
    assert RemovePrefix(s, "#") == digits;
    HexValueOfDigits(c, 6);
    assert Pow16(6) == RgbLimit;
    assert HexValue(digits) == c;
    assert digits[0] != '-' && digits[0] != '+';
  }

  /** Any string of hex digits after an optional "#" reads as its value, reduced
      to 24 bits, as long as that value fits a signed 32-bit `Int`. */
  lemma ParseColorReadsHex(d: string)
    requires |d| > 0 && AllHexDigits(d) && HexValue(d) <= IntMax
    ensures ParseColor("#" + d) == Some(HexValue(d) % RgbLimit)
    ensures ParseColor(d) == Some(HexValue(d) % RgbLimit)
  {
    assert RemovePrefix("#" + d, "#") == d;
    assert !("#" <= d) by { assert IsHexDigit(d[0]); }
  }

  /** A signed string of hex digits after an optional "#" reads as the signed value
      in two's complement, reduced to 24 bits, when it fits a signed 32-bit `Int`. */
  lemma ParseColorReadsSigned(sign: char, d: string)
    requires sign == '-' || sign == '+'
    requires |d| > 0 && AllHexDigits(d)
    requires if sign == '-' then HexValue(d) <= -IntMin else HexValue(d) <= IntMax
    ensures var v: int := if sign == '-' then -(HexValue(d) as int) else HexValue(d);
            ParseColor("#" + ([sign] + d)) == Some(v % RgbLimit) && ParseColor([sign] + d) == Some(v % RgbLimit)
  {
    var t := [sign] + d;
    var v: int := if sign == '-' then -(HexValue(d) as int) else HexValue(d);
    assert t[0] == sign && t[1..] == d;
    assert ParseHexInt(t) == Some(v);
    assert RemovePrefix(t, "#") == t;
    assert RemovePrefix("#" + t, "#") == t;
  }

  /** Strings the source rejects give no colour instead of an exception: an empty
      value, a lone "#" or sign, a character after the optional "#" that is not a
      hex digit (a sign counts only in front), and a value beyond the signed 32-bit
      range. */
  lemma ParseColorRejects(s: string)
    ensures ParseColor("") == None && ParseColor("#") == None
    ensures ParseColor("#-") == None && ParseColor("+") == None
    ensures var t := RemovePrefix(s, "#");
            (exists i :: 0 <= i < |t| && !IsHexDigit(t[i]) && !(i == 0 && (t[0] == '-' || t[0] == '+')))
            ==> ParseColor(s) == None
    ensures ParseColor("-") == None && ParseColor("#+") == None
    ensures var t := RemovePrefix(s, "#");
            |t| > 0 && AllHexDigits(t) && HexValue(t) > IntMax ==> ParseColor(s) == None
    ensures var t := RemovePrefix(s, "#");
            |t| > 1 && (t[0] == '-' || t[0] == '+') && AllHexDigits(t[1..]) &&
            (if t[0] == '-' then HexValue(t[1..]) > -IntMin else HexValue(t[1..]) > IntMax)
            ==> ParseColor(s) == None
    ensures (exists i :: 0 <= i < |s| && !IsHexDigit(s[i]) && s[i] != '-' && s[i] != '+' && s[i] != '#')
            ==> ParseColor(s) == None
  {
    assert RemovePrefix("#+", "#") == "+";
    if exists i :: 0 <= i < |s| && !IsHexDigit(s[i]) && s[i] != '-' && s[i] != '+' && s[i] != '#' {
      var i :| 0 <= i < |s| && !IsHexDigit(s[i]) && s[i] != '-' && s[i] != '+' && s[i] != '#';
      var t := RemovePrefix(s, "#");
      if "#" <= s {
        assert t[i - 1] == s[i];
      }
      var k := if "#" <= s then i - 1 else i;
      assert 0 <= k < |t| && !IsHexDigit(t[k]) && t[k] != '-' && t[k] != '+';
      if |t| > 0 && (t[0] == '-' || t[0] == '+') {
        assert k > 0 && t[1..][k - 1] == t[k];
      }
    }
  }

  /** Eight digits lose their top byte: `Color(int)` keeps the low 24 bits. */
  lemma ParseColorDropsTopByte()
    ensures ParseColor("#12345678") == Some(0x345678)
  {
    assert "1"[..0] == "" && HexValue("1") == 1;
    assert "12"[..1] == "1" && HexValue("12") == 0x12;
    assert "123"[..2] == "12" && HexValue("123") == 0x123;
    assert "1234"[..3] == "123" && HexValue("1234") == 0x1234;
    assert "12345"[..4] == "1234" && HexValue("12345") == 0x12345;
    assert "123456"[..5] == "12345" && HexValue("123456") == 0x123456;
    assert "1234567"[..6] == "123456" && HexValue("1234567") == 0x1234567;
    assert "12345678"[..7] == "1234567" && HexValue("12345678") == 0x12345678;
    assert 0x12345678 % RgbLimit == 0x345678;
    assert RemovePrefix("#12345678", "#") == "12345678";
  }

  /** A negative number is taken in two's complement. */
  lemma ParseColorNegative()
    ensures ParseColor("-1") == Some(0xFFFFFF)
  {
    assert RemovePrefix("-1", "#") == "-1" by { assert "-1"[0] != '#'; }
    assert "-1"[1..] == "1" && "1"[..0] == "";
    assert HexValue("1") == 1;
    assert ParseHexInt("-1") == Some(-1);
  }

  /** A value beyond the signed 32-bit range, such as an ARGB string with
      alpha FF, makes `toInt` throw, so no colour results. */
  lemma ParseColorOverflow()
    ensures ParseColor("#FFFFFFFF") == None
  {
    assert HexValue("FFFFFFFF") == 0xFFFFFFFF by {
      assert "FFFFFFFF"[..7] == "FFFFFFF";
      assert "FFFFFFF"[..6] == "FFFFFF";
      assert "FFFFFF"[..5] == "FFFFF";
      assert "FFFFF"[..4] == "FFFF";
      assert "FFFF"[..3] == "FFF";
      assert "FFF"[..2] == "FF";
      assert "FF"[..1] == "F";
      assert "F"[..0] == "";
    }
    assert RemovePrefix("#FFFFFFFF", "#") == "FFFFFFFF";
  }

  /** Lower-case digits are read like upper-case ones. */
  lemma ParseColorLowerCase()
    ensures ParseColor("#ff6600") == Some(0xFF6600)
  {
    assert HexValue("ff6600") == 0xFF6600 by {
      assert "ff6600"[..5] == "ff660";
      assert "ff660"[..4] == "ff66";
      assert "ff66"[..3] == "ff6";
      assert "ff6"[..2] == "ff";
      assert "ff"[..1] == "f";
      assert "f"[..0] == "";
    }
    assert RemovePrefix("#ff6600", "#") == "ff6600";
  }

  /** The settings default `#FF6600` is what `"#%06X"` prints for 0xFF6600, so it
      parses back to that value. */
  lemma OrangeLiteral()
    ensures FormatColor(0xFF6600) == "#FF6600" && ParseColor("#FF6600") == Some(0xFF6600)
  {
    assert HexChar(15) == 'F' && HexChar(6) == '6' && HexChar(0) == '0';
    assert HexDigits(0, 0) == "";
    assert HexDigits(0xF, 1) == HexDigits(0, 0) + [HexChar(15)] == "F";
    assert HexDigits(0xFF, 2) == HexDigits(0xF, 1) + [HexChar(15)] == "FF";
    assert HexDigits(0xFF6, 3) == HexDigits(0xFF, 2) + [HexChar(6)] == "FF6";
    assert HexDigits(0xFF66, 4) == HexDigits(0xFF6, 3) + [HexChar(6)] == "FF66";
    assert HexDigits(0xFF660, 5) == HexDigits(0xFF66, 4) + [HexChar(0)] == "FF660";
    assert HexDigits(0xFF6600, 6) == HexDigits(0xFF660, 5) + [HexChar(0)] == "FF6600";
    FormatColorRoundTrip(0xFF6600);
  }

  /** The rule default `#FF0000` is what `"#%06X"` prints for 0xFF0000. */
  lemma RedLiteral()
    ensures FormatColor(0xFF0000) == "#FF0000" && ParseColor("#FF0000") == Some(0xFF0000)
  {
    assert HexChar(15) == 'F' && HexChar(0) == '0';
    assert HexDigits(0, 0) == "";
    assert HexDigits(0xF, 1) == HexDigits(0, 0) + [HexChar(15)] == "F";
    assert HexDigits(0xFF, 2) == HexDigits(0xF, 1) + [HexChar(15)] == "FF";
    assert HexDigits(0xFF0, 3) == HexDigits(0xFF, 2) + [HexChar(0)] == "FF0";
    assert HexDigits(0xFF00, 4) == HexDigits(0xFF0, 3) + [HexChar(0)] == "FF00";
    assert HexDigits(0xFF000, 5) == HexDigits(0xFF00, 4) + [HexChar(0)] == "FF000";
    assert HexDigits(0xFF0000, 6) == HexDigits(0xFF000, 5) + [HexChar(0)] == "FF0000";
    FormatColorRoundTrip(0xFF0000);
  }
}
