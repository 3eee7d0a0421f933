/** How long a bot record lives (main.ts:12) and when the sweep expires it
    (main.ts:112). The environment value goes through JavaScript's `parseInt`,
    which is modelled here because it decides what a configured lifetime means. */
module Lifetime {
  import opened Options

  /** What `parseInt` yields: an integer or NaN (precision is not modelled). */
  datatype Number = Int(i: int) | NaN

  const DefaultBotLifetimeMs: int := 20000

  /** ECMAScript WhiteSpace and LineTerminator code points, which `parseInt` skips. */
  predicate IsJsSpace(c: char) {
    || c == '\t' || c == '\n' || c == '\U{000B}' || c == '\U{000C}' || c == '\r' || c == ' '
    || c == '\U{00A0}' || c == '\U{1680}' || ('\U{2000}' <= c <= '\U{200A}')
    || c == '\U{2028}' || c == '\U{2029}' || c == '\U{202F}' || c == '\U{205F}'
    || c == '\U{3000}' || c == '\U{FEFF}'
  }

  /** The string without its leading white space. */
  function TrimStart(s: string): (r: string)
    ensures |r| <= |s| && r == s[|s| - |r|..]
    ensures r == [] || !IsJsSpace(r[0])
    ensures forall i :: 0 <= i < |s| - |r| ==> IsJsSpace(s[i])
  {
    if s != [] && IsJsSpace(s[0]) then TrimStart(s[1..]) else s
  }

  /** The value of a digit character in radix 36, or 36 for any other character. */
  function DigitValue(c: char): (d: nat)
    ensures d <= 36
  {
    if '0' <= c <= '9' then c as int - '0' as int
    else if 'a' <= c <= 'z' then c as int - 'a' as int + 10
    else if 'A' <= c <= 'Z' then c as int - 'A' as int + 10
    else 36
  }

  predicate IsDigit(c: char, radix: nat) {
    DigitValue(c) < radix
  }

  /** The length of the longest prefix of radix digits. */
  function DigitCount(s: string, radix: nat): (n: nat)
    ensures n <= |s|
    ensures forall i :: 0 <= i < n ==> IsDigit(s[i], radix)
    ensures n < |s| ==> !IsDigit(s[n], radix)
  {
    if s != [] && IsDigit(s[0], radix) then 1 + DigitCount(s[1..], radix) else 0
  }

  /** The number a string of radix digits denotes, most significant first. */
  function ValueOf(s: string, radix: nat): (v: int)
    requires forall i :: 0 <= i < |s| ==> IsDigit(s[i], radix)
  {
    if s == [] then 0
    else
      var init := s[..|s| - 1];
      assert forall i :: 0 <= i < |init| ==> init[i] == s[i];
      ValueOf(init, radix) * radix + DigitValue(s[|s| - 1])
  }

  /** The unsigned part of `parseInt`: an optional `0x`/`0X` prefix selects
      radix 16 (radix 10 otherwise), then the longest digit prefix is read;
      no digits at all gives NaN. */
  function ReadMagnitude(u: string): (r: Number)
    ensures r.Int? ==> |u| > 0 && IsDigit(u[0], 10)
  {
    var hex := |u| >= 2 && u[0] == '0' && (u[1] == 'x' || u[1] == 'X');
    var radix := if hex then 16 else 10;
    var w := if hex then u[2..] else u;
    var n := DigitCount(w, radix);
    if n == 0 then NaN else Int(ValueOf(w[..n], radix))
  }

  /** `parseInt(s)` with no radix: skip white space, take an optional sign,
      then read the magnitude. */
  function ParseInt(s: string): (r: Number)
    ensures r.Int? ==> var t := TrimStart(s);
      |t| > 0 && (IsDigit(t[0], 10) || t[0] == '-' || t[0] == '+')
  {
    var t := TrimStart(s);
    var negative := |t| > 0 && t[0] == '-';
    var u := if |t| > 0 && (t[0] == '-' || t[0] == '+') then t[1..] else t;
    match ReadMagnitude(u)
    case NaN => NaN
    case Int(m) => Int(if negative then -m else m)
  }

  /** `BOT_LIFETIME_MS ? parseInt(BOT_LIFETIME_MS) : 20000`: an absent or empty
      setting gives the default, any other goes through `parseInt`. */
  function BotLifetimeMs(setting: Option<string>): (r: Number)
    ensures setting.None? ==> r == Int(DefaultBotLifetimeMs)
    ensures setting == Some("") ==> r == Int(DefaultBotLifetimeMs)
    ensures setting.Some? && setting.value != "" ==> r == ParseInt(setting.value)
  {
    match setting
    case None => Int(DefaultBotLifetimeMs)
    case Some(s) => if s == "" then Int(DefaultBotLifetimeMs) else ParseInt(s)
  }

  /** `age > BotLifetimeMs`; every comparison with NaN is false. */
  function Expired(age: int, lifetime: Number): (r: bool)
    ensures r ==> lifetime.Int?
    ensures lifetime.Int? ==> (r <==> lifetime.i < age)
  {
    lifetime.Int? && age > lifetime.i
  }

  /** A NaN lifetime expires nothing, whatever the age. */
  lemma NaNNeverExpires(age: int)
    ensures !Expired(age, NaN)
  {
  }

  /** The decimal numeral of `n`, the partner of `ParseInt`. */
  function DecimalString(n: nat): (r: string)
    ensures |r| >= 1
    ensures forall i :: 0 <= i < |r| ==> '0' <= r[i] <= '9'
  {
    if n < 10 then [('0' as int + n) as char]
    else DecimalString(n / 10) + [('0' as int + n % 10) as char]
  }

  lemma {:induction false} DecimalStringValue(n: nat)
    ensures forall i :: 0 <= i < |DecimalString(n)| ==> IsDigit(DecimalString(n)[i], 10)
    ensures ValueOf(DecimalString(n), 10) == n
  {
    var r := DecimalString(n);
    if n >= 10 {
      DecimalStringValue(n / 10);
      assert r[..|r| - 1] == DecimalString(n / 10);
    }
  }

  /** A numeral of more than one digit does not start with `0`. */
  lemma {:induction false} DecimalStringLeadingDigit(n: nat)
    ensures DecimalString(n)[0] == '0' ==> n == 0
  {
    if n >= 10 {
      DecimalStringLeadingDigit(n / 10);
      assert DecimalString(n)[0] == DecimalString(n / 10)[0];
    }
  }

  /** A decimal numeral is read as the number it denotes. */
  lemma MagnitudeOfNumeral(n: nat)
    ensures ReadMagnitude(DecimalString(n)) == Int(n)
  {
    var d := DecimalString(n);
    assert !(|d| >= 2 && d[0] == '0') by {
      DecimalStringLeadingDigit(n);
      if n < 10 {
        assert |d| == 1;
      }
    }
    var k := DigitCount(d, 10);
    assert k == |d| && d[..k] == d by {
      DecimalStringValue(n);
    }
    assert ValueOf(d[..k], 10) == n by {
      DecimalStringValue(n);
    }
  }

  /** `parseInt` reads back any decimal numeral it is given. */
  lemma ParseIntDecimal(n: nat)
    ensures ParseInt(DecimalString(n)) == Int(n)
  {
    var d := DecimalString(n);
    assert TrimStart(d) == d by {
      assert !IsJsSpace(d[0]);
    }
    MagnitudeOfNumeral(n);
  }

  /** A lifetime configured as a decimal number of milliseconds is that number. */
  lemma ConfiguredLifetime(n: nat)
    ensures BotLifetimeMs(Some(DecimalString(n))) == Int(n)
  {
    ParseIntDecimal(n);
  }

  /** An exponent is not read: a lifetime written `2e4` is 2 milliseconds. */
  lemma ParseIntStopsAtExponent()
    ensures ParseInt("2e4") == Int(2)
  {
    var s := "2e4";
    assert TrimStart(s) == s by {
      assert !IsJsSpace(s[0]);
    }
    assert DigitCount(s, 10) == 1 by {
      assert !IsDigit(s[1], 10);
      assert DigitCount(s[1..], 10) == 0;
    }
    assert ValueOf(s[..1], 10) == 2 by {
      assert s[..1] == "2";
      assert "2"[..0] == "";
    }
  }

  /** Text with no digit after the white space and the optional sign is NaN:
      an empty or blank setting, a lone sign, or a word. */
  lemma ParseIntWithoutDigits(s: string)
    requires var t := TrimStart(s);
      var u := if |t| > 0 && (t[0] == '-' || t[0] == '+') then t[1..] else t;
      u == [] || !IsDigit(u[0], 10)
    ensures ParseInt(s) == NaN
  {
    var t := TrimStart(s);
    var u := if |t| > 0 && (t[0] == '-' || t[0] == '+') then t[1..] else t;
    assert u != [] ==> u[0] != '0';
  }

  /** A sign before a decimal numeral: `-` negates it, `+` keeps it. */
  lemma ParseIntSigned(n: nat)
    ensures ParseInt("-" + DecimalString(n)) == Int(-(n as int))
    ensures ParseInt("+" + DecimalString(n)) == Int(n)
  {
    ParseIntAfterSign('-', n);
    ParseIntAfterSign('+', n);
    assert "-" + DecimalString(n) == ['-'] + DecimalString(n);
    assert "+" + DecimalString(n) == ['+'] + DecimalString(n);
  }

  lemma ParseIntAfterSign(sign: char, n: nat)
    requires sign == '-' || sign == '+'
    ensures ParseInt([sign] + DecimalString(n)) == Int(if sign == '-' then -(n as int) else n)
  {
    var d := DecimalString(n);
    var s := [sign] + d;
    assert TrimStart(s) == s by {
      assert !IsJsSpace(s[0]);
    }
    assert s[1..] == d;
    MagnitudeOfNumeral(n);
  }

  /** A `0x` or `0X` prefix switches to radix 16: the hexadecimal digits
      after it are read as the number they denote. */
  lemma ParseIntHex(x: char, h: string)
    requires x == 'x' || x == 'X'
    requires |h| > 0 && forall i :: 0 <= i < |h| ==> IsDigit(h[i], 16)
    ensures ParseInt(['0', x] + h) == Int(ValueOf(h, 16))
  {
    var t := ['0', x] + h;
    ParseIntUnsigned(t);
    MagnitudeOfHex(x, h);
  }

  /** Text with no leading white space or sign is read by the unsigned part alone. */
  lemma ParseIntUnsigned(t: string)
    requires |t| > 0 && !IsJsSpace(t[0]) && t[0] != '-' && t[0] != '+'
    ensures ParseInt(t) == ReadMagnitude(t)
  {
    assert TrimStart(t) == t;
  }

  /** The unsigned part reads a prefixed hexadecimal numeral in radix 16. */
  lemma MagnitudeOfHex(x: char, h: string)
    requires x == 'x' || x == 'X'
    requires |h| > 0 && forall i :: 0 <= i < |h| ==> IsDigit(h[i], 16)
    ensures ReadMagnitude(['0', x] + h) == Int(ValueOf(h, 16))
  {
    var u := ['0', x] + h;
    assert u[2..] == h;
    var k := DigitCount(h, 16);
    assert k == |h| && h[..k] == h;
  }
}
