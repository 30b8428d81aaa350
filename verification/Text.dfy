/** Strings as the JavaScript services build and read them: decimal numbers,
    fixed-width fields, prefixes, and the lexicographic order of `<`. */
module Text {
  predicate IsDigit(c: char) {
    '0' <= c <= '9'
  }

  predicate AllDigits(s: string) {
    forall i | 0 <= i < |s| :: IsDigit(s[i])
  }

  function Digit(d: nat): (c: char)
    requires d < 10
    ensures IsDigit(c)
  {
    ('0' as int + d) as char
  }

  /** `n.toString()` for a non-negative integer. */
  function Decimal(n: nat): (s: string)
    ensures AllDigits(s) && s != ""
  {
    if n < 10 then [Digit(n)] else Decimal(n / 10) + [Digit(n % 10)]
  }

  /** `Number(s)` for a string of digits. */
  function Number(s: string): nat
    requires AllDigits(s)
  {
    if s == "" then 0 else 10 * Number(s[..|s| - 1]) + (s[|s| - 1] as int - '0' as int)
  }

  /** `s.padStart(width, '0')`. */
  function PadZeros(s: string, width: nat): (p: string)
    requires AllDigits(s)
    ensures AllDigits(p)
    decreases width - |s|
  {
    if |s| >= width then s else PadZeros("0" + s, width)
  }

  /** Exactly `width` digits of `n`, as in the fields of an ISO date. */
  function Fixed(n: nat, width: nat): (s: string)
    ensures |s| == width && AllDigits(s)
  {
    if width == 0 then "" else Fixed(n / 10, width - 1) + [Digit(n % 10)]
  }

  function Pow10(width: nat): (p: nat)
    ensures p > 0
  {
    if width == 0 then 1 else 10 * Pow10(width - 1)
  }

  lemma {:induction false} NumberOfDecimal(n: nat)
    ensures Number(Decimal(n)) == n
  {
    if n >= 10 {
      NumberOfDecimal(n / 10);
      assert Decimal(n)[..|Decimal(n)| - 1] == Decimal(n / 10);
    } else {
      assert Decimal(n)[..0] == "";
    }
  }

  lemma {:induction false} NumberOfFixed(n: nat, width: nat)
    requires n < Pow10(width)
    ensures Number(Fixed(n, width)) == n
  {
    if width > 0 {
      NumberOfFixed(n / 10, width - 1);
      assert Fixed(n, width)[..width - 1] == Fixed(n / 10, width - 1);
    }
  }

  lemma {:induction false} LeadingZero(s: string)
    requires AllDigits(s)
    ensures Number("0" + s) == Number(s)
  {
    var t := "0" + s;
    if s == "" {
      assert t[..0] == "";
    } else {
      LeadingZero(s[..|s| - 1]);
      assert t[..|t| - 1] == "0" + s[..|s| - 1];
    }
  }

  lemma {:induction false} NumberOfPadded(s: string, width: nat)
    requires AllDigits(s)
    ensures Number(PadZeros(s, width)) == Number(s)
    decreases width - |s|
  {
    if |s| < width {
      LeadingZero(s);
      NumberOfPadded("0" + s, width);
    }
  }

  /** Text up to a separator that does not occur before it is determined by the whole. */
  lemma SplitAtSeparator(a: string, b: string, a': string, b': string, sep: char)
    requires sep !in a && sep !in a'
    requires a + [sep] + b == a' + [sep] + b'
    ensures a == a' && b == b'
  {
    var s, t := a + [sep] + b, a' + [sep] + b';
    assert s[|a|] == sep && t[|a'|] == sep;
    assert a == s[..|a|] && a' == t[..|a'|];
    assert b == s[|a| + 1..] && b' == t[|a'| + 1..];
  }

  predicate StartsWith(s: string, prefix: string) {
    prefix <= s
  }

  /** The order of `s < t` on JavaScript strings. */
  predicate LexLess(s: string, t: string) {
    t != "" && (s == "" || s[0] < t[0] || (s[0] == t[0] && LexLess(s[1..], t[1..])))
  }

  lemma {:induction false} LexConcat(a: string, c: string, b: string, d: string)
    requires |a| == |b|
    ensures LexLess(a + c, b + d) <==> LexLess(a, b) || (a == b && LexLess(c, d))
  {
    if a == "" {
      assert a + c == c && b + d == d;
    } else {
      assert (a + c)[1..] == a[1..] + c && (b + d)[1..] == b[1..] + d;
      LexConcat(a[1..], c, b[1..], d);
      assert a == [a[0]] + a[1..] && b == [b[0]] + b[1..];
    }
  }

  /** Fixed-width fields compare as text exactly as the numbers compare. */
  lemma {:induction false} FixedOrder(m: nat, n: nat, width: nat)
    requires m < Pow10(width) && n < Pow10(width)
    ensures LexLess(Fixed(m, width), Fixed(n, width)) <==> m < n
    ensures Fixed(m, width) == Fixed(n, width) <==> m == n
  {
    NumberOfFixed(m, width);
    NumberOfFixed(n, width);
    if width > 0 {
      FixedOrder(m / 10, n / 10, width - 1);
      LexConcat(Fixed(m / 10, width - 1), [Digit(m % 10)], Fixed(n / 10, width - 1), [Digit(n % 10)]);
    }
  }

  /** The characters `String.prototype.trim` removes. */
  predicate IsSpace(c: char) {
    var u := c as int;
    0x09 <= u <= 0x0D || u == 0x20 || u == 0xA0 || u == 0x1680 || 0x2000 <= u <= 0x200A
    || u == 0x2028 || u == 0x2029 || u == 0x202F || u == 0x205F || u == 0x3000 || u == 0xFEFF
  }

  function TrimStart(s: string): string {
    if s != "" && IsSpace(s[0]) then TrimStart(s[1..]) else s
  }

  function TrimEnd(s: string): string {
    if s != "" && IsSpace(s[|s| - 1]) then TrimEnd(s[..|s| - 1]) else s
  }

  function Trim(s: string): string {
    TrimEnd(TrimStart(s))
  }

  function LowerChar(c: char): char {
    if 'A' <= c <= 'Z' then (c as int + 32) as char else c
  }

  function UpperChar(c: char): char {
    if 'a' <= c <= 'z' then (c as int - 32) as char else c
  }

  /** Lower-casing of the ASCII letters; other characters stay. */
  function Lower(s: string): string {
    seq(|s|, i requires 0 <= i < |s| => LowerChar(s[i]))
  }

  function Upper(s: string): string {
    seq(|s|, i requires 0 <= i < |s| => UpperChar(s[i]))
  }

  lemma LowerTwice(s: string)
    ensures Lower(Lower(s)) == Lower(s)
  {
  }

  predicate AllSpaces(s: string) {
    forall i | 0 <= i < |s| :: IsSpace(s[i])
  }

  /** Nothing to trim at either end. */
  predicate Trimmed(s: string) {
    s != "" ==> !IsSpace(s[0]) && !IsSpace(s[|s| - 1])
  }

  lemma {:induction false} TrimStartOf(pad: string, rest: string)
    requires AllSpaces(pad) && (rest != "" ==> !IsSpace(rest[0]))
    ensures TrimStart(pad + rest) == rest
  {
    if pad == "" {
      assert pad + rest == rest;
    } else {
      assert (pad + rest)[1..] == pad[1..] + rest;
      TrimStartOf(pad[1..], rest);
    }
  }

  lemma {:induction false} TrimEndOf(rest: string, pad: string)
    requires AllSpaces(pad) && (rest != "" ==> !IsSpace(rest[|rest| - 1]))
    ensures TrimEnd(rest + pad) == rest
  {
    if pad == "" {
      assert rest + pad == rest;
    } else {
      assert (rest + pad)[..|rest + pad| - 1] == rest + pad[..|pad| - 1];
      TrimEndOf(rest, pad[..|pad| - 1]);
    }
  }

  /** Trimming takes exactly the white space around a text. */
  lemma {:induction false} TrimOf(before: string, core: string, after: string)
    requires AllSpaces(before) && AllSpaces(after) && Trimmed(core)
    ensures Trim(before + core + after) == core
  {
    if core == "" {
      var pad := before + after;
      assert before + core + after == pad == pad + "";
      TrimStartOf(pad, "");
    } else {
      assert before + core + after == before + (core + after);
      TrimStartOf(before, core + after);
      TrimEndOf(core, after);
    }
  }
}
