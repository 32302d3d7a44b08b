/** The two JavaScript number operations the response enveloper relies on,
    over unbounded integers: the global `parseInt(string)` (no radix given)
    and `Math.ceil(a / b)`; plus the decimal rendering of a natural number
    that JavaScript uses for array indices and template literals. */
module JsNumber {
  import opened Values

  /** The characters `parseInt` skips before the number: the ECMAScript
      WhiteSpace and LineTerminator code points. */
  predicate IsJsWhitespace(c: char) {
    || c == ' ' || c == '\t' || c == '\n' || c == '\r'
    || c == '\U{000B}' || c == '\U{000C}' || c == '\U{00A0}' || c == '\U{1680}'
    || ('\U{2000}' <= c <= '\U{200A}')
    || c == '\U{2028}' || c == '\U{2029}' || c == '\U{202F}' || c == '\U{205F}'
    || c == '\U{3000}' || c == '\U{FEFF}'
  }

  /** The value of `c` as a digit of radix up to 36, or 36 when it is none. */
  function DigitValue(c: char): (d: nat)
    ensures d <= 36
  {
    if '0' <= c <= '9' then (c - '0') as nat
    else if 'a' <= c <= 'z' then (c - 'a') as nat + 10
    else if 'A' <= c <= 'Z' then (c - 'A') as nat + 10
    else 36
  }

  predicate IsDigit(c: char, radix: nat) {
    DigitValue(c) < radix
  }

  predicate AllDigits(s: string, radix: nat) {
    forall i :: 0 <= i < |s| ==> IsDigit(s[i], radix)
  }

  /** `s` with its leading whitespace removed. */
  function TrimStart(s: string): (r: string)
    ensures |r| <= |s|
    ensures r == [] || !IsJsWhitespace(r[0])
  {
    if |s| > 0 && IsJsWhitespace(s[0]) then TrimStart(s[1..]) else s
  }

  /** The longest prefix of `s` made of radix digits. */
  function DigitPrefix(s: string, radix: nat): (r: string)
    ensures |r| <= |s| && r == s[..|r|]
    ensures AllDigits(r, radix)
    ensures |r| == |s| || !IsDigit(s[|r|], radix)
  {
    if |s| > 0 && IsDigit(s[0], radix) then [s[0]] + DigitPrefix(s[1..], radix) else []
  }

  /** The number that the radix digits `ds` denote, most significant first. */
  function DigitsValue(ds: string, radix: nat): nat
    requires AllDigits(ds, radix)
  {
    if ds == [] then 0
    else DigitsValue(ds[..|ds| - 1], radix) * radix + DigitValue(ds[|ds| - 1])
  }

  /** JavaScript `parseInt(s)` with no radix argument: skip leading
      whitespace, take an optional sign, then read the unsigned part;
      `None` is `NaN`. */
  function ParseInt(s: string): (r: Option<int>)
    ensures TrimStart(s) == [] ==> r.None?
    ensures r.Some? ==> StartsNumber(TrimStart(s))
    ensures r.Some? && r.value < 0 ==> TrimStart(s)[0] == '-'
  {
    var t := TrimStart(s);
    if |t| > 0 && t[0] == '-' then Negate(ParseUnsigned(t[1..]))
    else if |t| > 0 && t[0] == '+' then ParseUnsigned(t[1..])
    else ParseUnsigned(t)
  }

  /** `t` starts with a decimal digit or a sign: the only starts from which
      `parseInt` reads a number. */
  predicate StartsNumber(t: string) {
    |t| > 0 && (IsDigit(t[0], 10) || t[0] == '-' || t[0] == '+')
  }

  /** The unsigned part of `parseInt`: radix 16 after a `0x`/`0X` prefix and
      radix 10 otherwise, converting the longest digit prefix; text after the
      digits is ignored, and no digits at all is `NaN` (`None`). */
  function ParseUnsigned(u: string): (r: Option<nat>)
    ensures r == None <==> DigitPrefix(u, 10) == [] || (HasHexPrefix(u) && DigitPrefix(u[2..], 16) == [])
  {
    if HasHexPrefix(u) then
      var digits := DigitPrefix(u[2..], 16);
      if digits == [] then None else Some(DigitsValue(digits, 16))
    else
      var digits := DigitPrefix(u, 10);
      if digits == [] then None else Some(DigitsValue(digits, 10))
  }

  predicate HasHexPrefix(u: string) {
    |u| >= 2 && u[0] == '0' && (u[1] == 'x' || u[1] == 'X')
  }

  function Negate(o: Option<nat>): Option<int> {
    match o
    case None => None
    case Some(v) => Some(-(v as int))
  }

  /** The decimal digit for `d`. */
  function DecimalDigit(d: nat): (c: char)
    requires d < 10
    ensures IsDigit(c, 10) && DigitValue(c) == d
  {
    ('0' as int + d) as char
  }

  /** The canonical decimal rendering of `n` (what `String(n)` gives). */
  function Render(n: nat): (s: string)
    ensures |s| > 0 && AllDigits(s, 10)
    ensures s[0] == '0' ==> n == 0
  {
    if n < 10 then [DecimalDigit(n)] else Render(n / 10) + [DecimalDigit(n % 10)]
  }

  /** The digits of `Render(n)` denote `n`. */
  lemma {:induction false} RenderValue(n: nat)
    ensures DigitsValue(Render(n), 10) == n
  {
    var s := Render(n);
    if n >= 10 {
      RenderValue(n / 10);
      assert s[..|s| - 1] == Render(n / 10);
    }
  }

  /** `parseInt` reads back a rendered number, and stops at anything after it
      that is not a digit; only after a bare `0` would an `x` or `X` start a
      hexadecimal number instead. */
  lemma ParseIntRender(n: nat, rest: string)
    requires rest == [] || (!IsDigit(rest[0], 10) && (n == 0 ==> rest[0] != 'x' && rest[0] != 'X'))
    ensures ParseInt(Render(n) + rest) == Some(n)
    ensures ParseInt("-" + Render(n) + rest) == Some(-(n as int))
  {
    var u := Render(n) + rest;
    ParseUnsignedRender(n, rest);
    assert u[0] == Render(n)[0];
    DecimalIsNotSpaceOrSign(u[0]);
    TrimStartStops(u);
    var v := "-" + u;
    assert v[0] == '-' && v[1..] == u;
    TrimStartStops(v);
    assert "-" + Render(n) + rest == v;
  }

  lemma DecimalIsNotSpaceOrSign(c: char)
    requires IsDigit(c, 10)
    ensures !IsJsWhitespace(c) && c != '-' && c != '+'
  {
  }

  lemma TrimStartStops(u: string)
    requires |u| > 0 && !IsJsWhitespace(u[0])
    ensures TrimStart(u) == u
  {
  }

  lemma ParseUnsignedRender(n: nat, rest: string)
    requires rest == [] || (!IsDigit(rest[0], 10) && (n == 0 ==> rest[0] != 'x' && rest[0] != 'X'))
    ensures ParseUnsigned(Render(n) + rest) == Some(n)
  {
    var s := Render(n);
    var u := s + rest;
    DigitPrefixOfDigits(s, rest, 10);
    RenderValue(n);
    if n > 0 {
      assert s[0] != '0';
    }
    if |s| >= 2 {
      assert u[1] == s[1];
    } else if |u| >= 2 {
      assert u[1] == rest[0];
    }
    assert !HasHexPrefix(u);
  }

  /** The digit prefix of all-digit `s` followed by a non-digit is `s` itself. */
  lemma {:induction false} DigitPrefixOfDigits(s: string, rest: string, radix: nat)
    requires AllDigits(s, radix)
    requires rest == [] || !IsDigit(rest[0], radix)
    ensures DigitPrefix(s + rest, radix) == s
  {
    if s != [] {
      assert (s + rest)[1..] == s[1..] + rest;
      DigitPrefixOfDigits(s[1..], rest, radix);
    }
  }

  /** Two numbers with the same rendering are equal. */
  lemma RenderInjective(a: nat, b: nat)
    requires Render(a) == Render(b)
    ensures a == b
  {
    RenderValue(a);
    RenderValue(b);
  }

  /** Leading whitespace does not change what `parseInt` reads. */
  lemma {:induction false} ParseIntSkipsWhitespace(ws: string, s: string)
    requires forall i :: 0 <= i < |ws| ==> IsJsWhitespace(ws[i])
    ensures ParseInt(ws + s) == ParseInt(s)
  {
    TrimStartSkips(ws, s);
  }

  lemma {:induction false} TrimStartSkips(ws: string, s: string)
    requires forall i :: 0 <= i < |ws| ==> IsJsWhitespace(ws[i])
    ensures TrimStart(ws + s) == TrimStart(s)
  {
    if ws != [] {
      assert (ws + s)[0] == ws[0] && IsJsWhitespace(ws[0]);
      assert (ws + s)[1..] == ws[1..] + s;
      assert TrimStart(ws + s) == TrimStart(ws[1..] + s);
      TrimStartSkips(ws[1..], s);
    } else {
      assert ws + s == s;
    }
  }

  /** `Math.ceil(a / b)` for a non-negative `a` and a non-zero `b` of either
      sign: the least integer not below the exact quotient. */
  function CeilDiv(a: nat, b: int): (r: int)
    requires b != 0
    ensures b > 0 ==> b * (r - 1) < a <= b * r
    ensures b < 0 ==> b * r <= a < b * (r - 1)
    ensures b > 0 ==> r >= 0
    ensures b < 0 ==> r <= 0
  {
    if b > 0 then
      var q := (a + b - 1) / b;
      assert a + b - 1 == b * q + (a + b - 1) % b;
      q
    else
      var q := a / (-b);
      assert a == (-b) * q + a % (-b);
      -q
  }
}
