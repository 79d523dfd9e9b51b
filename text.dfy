/** The string operations of the JavaScript runtime that the study code relies on:
    decimal rendering of a non-negative integer (`String(n)`, template literals),
    `parseInt`, the first match of the regular expression `/\d+/`,
    and `String.prototype.split` / `Array.prototype.join` on a one-character separator. */
module Text {
  import opened Wrappers

  predicate IsDigit(c: char) { '0' <= c <= '9' }

  predicate AllDigits(s: string) { forall i | 0 <= i < |s| :: IsDigit(s[i]) }

  function DigitChar(d: nat): (c: char)
    requires d < 10
    ensures IsDigit(c)
  {
    "0123456789"[d]
  }

  function DigitValue(c: char): (d: nat)
    requires IsDigit(c)
    ensures d < 10
  {
    c as int - '0' as int
  }

  /** Proof helper for `DigitsValueOfNatToString`: a rendered digit reads back as itself. */
  lemma DigitRoundTrip(d: nat)
    requires d < 10
    ensures DigitValue(DigitChar(d)) == d
  {
  }

  /** Decimal rendering of a non-negative integer, without leading zeros. */
  function NatToString(n: nat): (s: string)
    ensures |s| >= 1 && AllDigits(s)
    ensures n >= 10 ==> |s| >= 2
    decreases n
  {
    if n < 10 then [DigitChar(n)] else NatToString(n / 10) + [DigitChar(n % 10)]
  }

  /** The value of a string of decimal digits, leading zeros allowed. */
  function DigitsValue(s: string): nat
    requires AllDigits(s)
  {
    if s == [] then 0 else DigitsValue(s[..|s| - 1]) * 10 + DigitValue(s[|s| - 1])
  }

  /** The longest prefix of `s` made of decimal digits. */
  function LeadingDigits(s: string): (d: string)
    ensures AllDigits(d) && d <= s
    ensures |d| < |s| ==> !IsDigit(s[|d|])
  {
    if s == [] || !IsDigit(s[0]) then [] else [s[0]] + LeadingDigits(s[1..])
  }

  /** JavaScript's white space and line terminators, which `parseInt` skips before the
      number: tab, the vertical tab, form feed, space, no-break space, the byte order mark,
      the other space separators of Unicode, line feed, carriage return and the line and
      paragraph separators. */
  predicate IsJsSpace(c: char)
  {
    || c == '\t' || c == '\n' || c == '\U{000B}' || c == '\U{000C}' || c == '\r' || c == ' '
    || c == '\U{00A0}' || c == '\U{1680}' || ('\U{2000}' <= c <= '\U{200A}')
    || c == '\U{2028}' || c == '\U{2029}' || c == '\U{202F}' || c == '\U{205F}'
    || c == '\U{3000}' || c == '\U{FEFF}'
  }

  predicate AllJsSpace(s: string) { forall i | 0 <= i < |s| :: IsJsSpace(s[i]) }

  /** `s` without its leading white space: the longest suffix that does not start with it. */
  function TrimStart(s: string): (r: string)
    ensures |r| <= |s|
    ensures r == [] || !IsJsSpace(r[0])
  {
    if s != [] && IsJsSpace(s[0]) then TrimStart(s[1..]) else s
  }

  predicate IsHexDigit(c: char) { IsDigit(c) || 'a' <= c <= 'f' || 'A' <= c <= 'F' }

  predicate AllHexDigits(s: string) { forall i | 0 <= i < |s| :: IsHexDigit(s[i]) }

  function HexDigitValue(c: char): (d: nat)
    requires IsHexDigit(c)
    ensures d < 16
    ensures IsDigit(c) ==> d == DigitValue(c)
  {
    if IsDigit(c) then DigitValue(c)
    else if 'a' <= c <= 'f' then c as int - 'a' as int + 10
    else c as int - 'A' as int + 10
  }

  /** The value of a string of hexadecimal digits. */
  function HexValue(s: string): nat
    requires AllHexDigits(s)
  {
    if s == [] then 0 else HexValue(s[..|s| - 1]) * 16 + HexDigitValue(s[|s| - 1])
  }

  /** The longest prefix of `s` made of hexadecimal digits. */
  function LeadingHexDigits(s: string): (d: string)
    ensures AllHexDigits(d) && d <= s
    ensures |d| < |s| ==> !IsHexDigit(s[|d|])
  {
    if s == [] || !IsHexDigit(s[0]) then [] else [s[0]] + LeadingHexDigits(s[1..])
  }

  /** `s` starts with the prefix `0x` or `0X`. */
  predicate HexPrefixed(s: string)
  {
    |s| >= 2 && s[0] == '0' && (s[1] == 'x' || s[1] == 'X')
  }

  /** What `parseInt` reads after the sign: hexadecimal digits after a `0x` or `0X`
      prefix, decimal digits otherwise, as far as they go; `None` when there is no digit
      (also after a bare prefix). */
  function ParseMagnitude(u: string): (r: Option<nat>)
    ensures !HexPrefixed(u) ==> (r.None? <==> (u == [] || !IsDigit(u[0])))
    ensures HexPrefixed(u) ==> (r.None? <==> (|u| == 2 || !IsHexDigit(u[2])))
  {
    if HexPrefixed(u) then
      var h := LeadingHexDigits(u[2..]);
      if h == [] then None else Some(HexValue(h))
    else
      var d := LeadingDigits(u);
      if d == [] then None else Some(DigitsValue(d))
  }

  /** `parseInt(s)` without a radix, as section 19.2.5 of ECMA-262 defines it: leading
      white space is skipped, one `-` or `+` is read as the sign, a `0x` or `0X` prefix
      switches to base 16, and the digits up to the first character that is not one give
      the magnitude; `None` (NaN) when there is no digit. Negative zero is 0 here. */
  function ParseInt(s: string): (r: Option<int>)
    ensures r.Some? && r.value < 0 ==> TrimStart(s) != [] && TrimStart(s)[0] == '-'
    ensures r.Some? && TrimStart(s) != [] && TrimStart(s)[0] == '-' ==> r.value <= 0
  {
    ParseSigned(TrimStart(s))
  }

  /** `parseInt` after the white space: an optional sign, then the magnitude. */
  function ParseSigned(t: string): (r: Option<int>)
    ensures r.Some? && r.value < 0 ==> t != [] && t[0] == '-'
    ensures r.Some? && t != [] && t[0] == '-' ==> r.value <= 0
  {
    var negative := t != [] && t[0] == '-';
    var u := if t != [] && (t[0] == '-' || t[0] == '+') then t[1..] else t;
    match ParseMagnitude(u)
    case None => None
    case Some(m) => Some(Signed(negative, m))
  }

  function Signed(negative: bool, m: nat): int
  {
    if negative then -(m as int) else m
  }

  /** The first match of `/\d+/` in `s`, or `None` when `s` has no digit. */
  function FirstDigitRun(s: string): (r: Option<string>)
    ensures r.Some? ==> |r.value| >= 1 && AllDigits(r.value)
    ensures r.None? <==> AllNonDigits(s)
  {
    if s == [] then None
    else if IsDigit(s[0]) then Some(LeadingDigits(s))
    else FirstDigitRun(s[1..])
  }

  predicate AllNonDigits(s: string) { forall i | 0 <= i < |s| :: !IsDigit(s[i]) }

  /** `s.substring(1)`. */
  function DropFirst(s: string): (r: string)
    ensures s != [] ==> r == s[1..]
    ensures s == [] ==> r == []
  {
    if s == [] then [] else s[1..]
  }

  /** `s.split(sep)` for a one-character separator: the maximal separator-free pieces, in
      order; the result always has at least one element. */
  function Split(s: string, sep: char): (parts: seq<string>)
    ensures |parts| >= 1
  {
    if s == [] then [""]
    else
      var rest := Split(s[1..], sep);
      if s[0] == sep then [""] + rest else [[s[0]] + rest[0]] + rest[1..]
  }

  /** `parts.join(sep)`. */
  function Join(parts: seq<string>, sep: char): string
  {
    if parts == [] then ""
    else if |parts| == 1 then parts[0]
    else parts[0] + [sep] + Join(parts[1..], sep)
  }

  /** `s.includes(t)`. */
  predicate Contains(s: string, t: string)
  {
    t <= s || (s != [] && Contains(s[1..], t))
  }

  predicate Free(s: string, c: char) { forall i | 0 <= i < |s| :: s[i] != c }

  // ---------------------------------------------------------------------------
  // Lemmas

  lemma {:induction false} DigitsValueOfNatToString(n: nat)
    ensures DigitsValue(NatToString(n)) == n
    decreases n
  {
    var s := NatToString(n);
    if n < 10 {
      assert s[..0] == [];
      DigitRoundTrip(n);
    } else {
      DigitsValueOfNatToString(n / 10);
      assert s[..|s| - 1] == NatToString(n / 10);
      DigitRoundTrip(n % 10);
      assert DigitValue(s[|s| - 1]) == n % 10;
    }
  }

  lemma {:induction false} LeadingDigitsOfConcat(d: string, rest: string)
    requires AllDigits(d)
    requires rest == [] || !IsDigit(rest[0])
    ensures LeadingDigits(d + rest) == d
  {
    if d == [] {
      assert d + rest == rest;
    } else {
      assert (d + rest)[1..] == d[1..] + rest;
      LeadingDigitsOfConcat(d[1..], rest);
    }
  }

  /** `parseInt` of decimal digits followed by a character that is not one is their
      value, unless the digits are a lone `0` followed by `x` or `X` (a hexadecimal
      prefix). */
  lemma ParseIntOfDigits(d: string, rest: string)
    requires d != [] && AllDigits(d)
    requires rest == [] || !IsDigit(rest[0])
    requires !(d == "0" && rest != [] && (rest[0] == 'x' || rest[0] == 'X'))
    ensures ParseInt(d + rest) == Some(DigitsValue(d))
  {
    var s := d + rest;
    assert s[0] == d[0];
    assert TrimStart(s) == s;
    if |d| >= 2 {
      assert s[1] == d[1];
    } else if rest != [] {
      assert s[1] == rest[0];
    }
    assert !HexPrefixed(s);
    LeadingDigitsOfConcat(d, rest);
  }

  /** `parseInt(String(n))` gives back `n`, also when a suffix follows that does not
      start with a digit, `x` or `X`. */
  lemma ParseIntOfNatToString(n: nat, rest: string)
    requires rest == [] || (!IsDigit(rest[0]) && rest[0] != 'x' && rest[0] != 'X')
    ensures ParseInt(NatToString(n) + rest) == Some(n)
  {
    ParseIntOfDigits(NatToString(n), rest);
    DigitsValueOfNatToString(n);
  }

  /** Leading white space does not change what `parseInt` reads. */
  lemma ParseIntSkipsSpace(ws: string, s: string)
    requires AllJsSpace(ws)
    ensures ParseInt(ws + s) == ParseInt(s)
  {
    TrimStartAfterSpace(ws, s);
  }

  lemma {:induction false} TrimStartAfterSpace(ws: string, s: string)
    requires AllJsSpace(ws)
    ensures TrimStart(ws + s) == TrimStart(s)
    decreases |ws|
  {
    if ws != [] {
      assert (ws + s)[0] == ws[0] && (ws + s)[1..] == ws[1..] + s;
      TrimStartAfterSpace(ws[1..], s);
    } else {
      assert ws + s == s;
    }
  }

  /** After the white space, `+` changes nothing and `-` negates the magnitude. */
  lemma ParseIntSign(u: string)
    requires u == [] || (!IsJsSpace(u[0]) && u[0] != '-' && u[0] != '+')
    ensures ParseInt(['+'] + u) == ParseInt(u)
    ensures ParseInt(u).Some? <==> ParseInt(['-'] + u).Some?
    ensures ParseInt(u).Some? ==> ParseInt(u).value >= 0 && ParseInt(['-'] + u) == Some(-ParseInt(u).value)
  {
    TrimStartNoSpace(u);
    TrimStartNoSpace(['+'] + u);
    TrimStartNoSpace(['-'] + u);
    ParseSignedSign(u);
  }

  lemma TrimStartNoSpace(s: string)
    requires s == [] || !IsJsSpace(s[0])
    ensures TrimStart(s) == s
  {
  }

  lemma ParseSignedSign(u: string)
    requires u == [] || (u[0] != '-' && u[0] != '+')
    ensures ParseSigned(u) == (var m := ParseMagnitude(u); if m.None? then None else Some(m.value as int))
    ensures ParseSigned(['+'] + u) == ParseSigned(u)
    ensures ParseSigned(['-'] + u) == (var m := ParseMagnitude(u); if m.None? then None else Some(-(m.value as int)))
  {
    var plus, minus := ['+'] + u, ['-'] + u;
    assert plus[1..] == u && minus[1..] == u;
  }

  /** A `0x` or `0X` prefix makes the digits that follow hexadecimal. */
  lemma ParseIntHex(x: char, h: string, rest: string)
    requires x == 'x' || x == 'X'
    requires h != [] && AllHexDigits(h)
    requires rest == [] || !IsHexDigit(rest[0])
    ensures ParseInt(['0', x] + h + rest) == Some(HexValue(h))
  {
    var s := ['0', x] + h + rest;
    assert TrimStart(s) == s && HexPrefixed(s);
    assert s[2..] == h + rest;
    LeadingHexDigitsOfConcat(h, rest);
  }

  lemma {:induction false} LeadingHexDigitsOfConcat(h: string, rest: string)
    requires AllHexDigits(h)
    requires rest == [] || !IsHexDigit(rest[0])
    ensures LeadingHexDigits(h + rest) == h
  {
    if h == [] {
      assert h + rest == rest;
    } else {
      assert (h + rest)[1..] == h[1..] + rest;
      LeadingHexDigitsOfConcat(h[1..], rest);
    }
  }

  /** Readings where `parseInt` differs from reading bare digits: white space and a sign
      before the digits, and the hexadecimal prefix. */
  lemma ParseIntSpaceAndSign()
    ensures ParseInt(" 5") == Some(5) && ParseInt("+5") == Some(5) && ParseInt("-5") == Some(-5)
  {
    ParseIntSkipsSpace(" ", "5");
    ParseIntOfDigits("5", "");
    assert " " + "5" == " 5" && "5" + "" == "5";
    ParseIntSign("5");
    assert ['+'] + "5" == "+5" && ['-'] + "5" == "-5";
  }

  lemma ParseIntHexExample()
    ensures ParseInt("0x1F") == Some(31) && ParseInt("0x") == None
  {
    ParseIntHex('x', "1F", "");
    assert ['0', 'x'] + "1F" + "" == "0x1F";
    assert HexValue("1F") == 31 by {
      assert "1F"[..1] == "1" && "1"[..0] == "";
    }
    var bare := "0x";
    assert TrimStart(bare) == bare && HexPrefixed(bare) && bare[2..] == [];
  }


  lemma NatToStringInjective(a: nat, b: nat)
    requires NatToString(a) == NatToString(b)
    ensures a == b
  {
    DigitsValueOfNatToString(a);
    DigitsValueOfNatToString(b);
  }

  lemma {:induction false} FirstDigitRunAfterText(p: string, d: string)
    requires AllNonDigits(p) && d != [] && AllDigits(d)
    ensures FirstDigitRun(p + d) == Some(d)
  {
    if p == [] {
      assert p + d == d;
      LeadingDigitsOfConcat(d, []);
      assert d + [] == d;
    } else {
      assert (p + d)[1..] == p[1..] + d;
      FirstDigitRunAfterText(p[1..], d);
    }
  }

  lemma {:induction false} SplitFree(p: string, sep: char)
    requires Free(p, sep)
    ensures Split(p, sep) == [p]
  {
    if p != [] {
      SplitFree(p[1..], sep);
      assert [p[0]] + p[1..] == p;
    }
  }

  lemma {:induction false} SplitPieceThenRest(p: string, sep: char, t: string)
    requires Free(p, sep)
    ensures Split(p + [sep] + t, sep) == [p] + Split(t, sep)
  {
    if p == [] {
      assert p + [sep] + t == [sep] + t;
      assert ([sep] + t)[1..] == t;
    } else {
      assert (p + [sep] + t)[1..] == p[1..] + [sep] + t;
      SplitPieceThenRest(p[1..], sep, t);
      assert [p[0]] + p[1..] == p;
    }
  }

  /** Splitting a join recovers the pieces, provided no piece contains the separator. */
  lemma {:induction false} SplitJoin(parts: seq<string>, sep: char)
    requires |parts| >= 1
    requires forall i | 0 <= i < |parts| :: Free(parts[i], sep)
    ensures Split(Join(parts, sep), sep) == parts
  {
    if |parts| == 1 {
      SplitFree(parts[0], sep);
    } else {
      SplitJoin(parts[1..], sep);
      SplitPieceThenRest(parts[0], sep, Join(parts[1..], sep));
      assert [parts[0]] + parts[1..] == parts;
    }
  }

  lemma {:induction false} JoinFree(parts: seq<string>, sep: char, c: char)
    requires c != sep
    requires forall i | 0 <= i < |parts| :: Free(parts[i], c)
    ensures Free(Join(parts, sep), c)
  {
    if |parts| > 1 {
      JoinFree(parts[1..], sep, c);
    }
  }

  lemma NatToStringFree(n: nat, c: char)
    requires !IsDigit(c)
    ensures Free(NatToString(n), c)
  {
  }

  function Pow10(m: nat): (p: nat)
    ensures p >= 1
  {
    if m == 0 then 1 else 10 * Pow10(m - 1)
  }

  lemma {:induction false} DigitsValueBound(d: string)
    requires AllDigits(d)
    ensures DigitsValue(d) < Pow10(|d|)
    decreases |d|
  {
    if d != [] {
      DigitsValueBound(d[..|d| - 1]);
    }
  }

  /** The value of a digit string is its leading digit's place value plus the value of
      the remaining digits. */
  lemma {:induction false} DigitsValueLeading(d: string)
    requires |d| >= 1 && AllDigits(d)
    ensures DigitsValue(d) == DigitValue(d[0]) * Pow10(|d| - 1) + DigitsValue(d[1..])
    decreases |d|
  {
    var init := d[..|d| - 1];
    if |d| == 1 {
      assert init == [] && d[1..] == [];
    } else {
      DigitsValueLeading(init);
      var tail := d[1..];
      assert init[0] == d[0];
      assert init[1..] == tail[..|tail| - 1];
      assert tail[|tail| - 1] == d[|d| - 1];
      var L, X := DigitValue(d[0]), Pow10(|d| - 2);
      var a, b, c := DigitsValue(init), DigitsValue(init[1..]), DigitValue(d[|d| - 1]);
      assert DigitsValue(d) == a * 10 + c;
      assert DigitsValue(tail) == b * 10 + c;
      assert Pow10(|d| - 1) == 10 * X;
      PlaceValueStep(a, L, X, b, c);
    }
  }

  lemma PlaceValueStep(a: nat, l: nat, x: nat, b: nat, c: nat)
    requires a == l * x + b
    ensures a * 10 + c == l * (10 * x) + (b * 10 + c)
  {
  }

  lemma {:induction false} NatToStringLeadingNonZero(n: nat)
    requires n >= 1
    ensures DigitValue(NatToString(n)[0]) >= 1
    decreases n
  {
    if n >= 10 {
      NatToStringLeadingNonZero(n / 10);
    }
  }

  /** For `n >= 1`, `String(n)` is a leading digit `L >= 1` worth `L * P`, with
      `P <= n < 10 * P`, followed by digits worth `n - L * P`. */
  lemma NatToStringTail(n: nat)
    requires n >= 1
    ensures var s := NatToString(n);
      var P := Pow10(|s| - 1);
      var L := DigitValue(s[0]);
      1 <= L <= 9 && P <= n < 10 * P && DigitsValue(s[1..]) == n - L * P
  {
    var s := NatToString(n);
    DigitsValueOfNatToString(n);
    DigitsValueLeading(s);
    NatToStringLeadingNonZero(n);
    DigitsValueBound(s[1..]);
    var P := Pow10(|s| - 1);
    var L := DigitValue(s[0]);
    DigitTimes(L, P);
  }

  lemma {:induction false} DigitTimes(L: nat, P: nat)
    requires 1 <= L <= 9
    ensures P <= L * P <= 9 * P
  {
    if L > 1 {
      DigitTimes(L - 1, P);
      assert L * P == (L - 1) * P + P;
    }
  }
}
