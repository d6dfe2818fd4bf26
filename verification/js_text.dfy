/**
 * The string and number primitives of JavaScript that the client relies on:
 * `trim`, `toLowerCase`, `includes`, `startsWith`, `split`, `join`,
 * `String(n)`, `parseInt`, `Number(s)`, `padStart`, and the truncating `%`.
 */
module JsText {
  import opened Wrappers

  /** The characters `String.prototype.trim` removes: WhiteSpace and LineTerminator. */
  predicate IsSpace(c: char)
  {
    c == ' ' || c == '\t' || c == '\n' || c == '\r' || c == '\U{000B}' || c == '\U{000C}'
    || c == '\U{00A0}' || c == '\U{1680}' || ('\U{2000}' <= c <= '\U{200A}') || c == '\U{2028}'
    || c == '\U{2029}' || c == '\U{202F}' || c == '\U{205F}' || c == '\U{3000}' || c == '\U{FEFF}'
  }

  /** JavaScript truthiness of a possibly-null string: present and non-empty. */
  predicate Truthy(s: Option<string>)
  {
    s.Some? && s.value != ""
  }

  predicate AllSpace(s: string)
  {
    forall i :: 0 <= i < |s| ==> IsSpace(s[i])
  }

  /** Index of the first non-space character (or |s|). */
  function StartIndex(s: string): (i: nat)
    ensures i <= |s|
    ensures forall k :: 0 <= k < i ==> IsSpace(s[k])
    ensures i < |s| ==> !IsSpace(s[i])
  {
    if |s| == 0 || !IsSpace(s[0]) then 0 else 1 + StartIndex(s[1..])
  }

  /** One past the index of the last non-space character (or 0). */
  function EndIndex(s: string): (j: nat)
    ensures j <= |s|
    ensures forall k :: j <= k < |s| ==> IsSpace(s[k])
    ensures j > 0 ==> !IsSpace(s[j - 1])
  {
    if |s| == 0 || !IsSpace(s[|s| - 1]) then |s| else EndIndex(s[..|s| - 1])
  }

  function TrimStart(s: string): (r: string)
    ensures |r| <= |s| && r == s[|s| - |r|..]
    ensures r == [] || !IsSpace(r[0])
    ensures AllSpace(s[..|s| - |r|])
  {
    s[StartIndex(s)..]
  }

  /** `s.trim()`: the text between the leading and the trailing white space. */
  function Trim(s: string): (r: string)
    ensures |r| <= |s|
    ensures r == [] || (!IsSpace(r[0]) && !IsSpace(r[|r| - 1]))
    ensures r == [] <==> AllSpace(s)
  {
    var t := TrimStart(s);
    var r := t[..EndIndex(t)];
    assert r == [] ==> AllSpace(s) by {
      if r == [] {
        assert t == [];
        assert s[..|s|] == s;
      }
    }
    r
  }

  lemma {:induction false} TrimIdempotent(s: string)
    ensures Trim(Trim(s)) == Trim(s)
  {
    var r := Trim(s);
    assert StartIndex(r) == 0;
    assert EndIndex(r) == |r| by {
      if |r| > 0 {
        assert !IsSpace(r[|r| - 1]);
      }
    }
    assert TrimStart(r) == r;
  }

  /** Lower-casing of one character: Latin A-Z and the Cyrillic capitals of Ukrainian. */
  function LowerChar(c: char): (d: char)
    ensures ('A' <= c <= 'Z') ==> d as int == c as int + 32
    ensures ('А' <= c <= 'Я') ==> d as int == c as int + 32
    ensures ('Ѐ' <= c <= 'Џ') ==> d as int == c as int + 80
    ensures c == 'Ґ' ==> d == 'ґ'
    ensures !('A' <= c <= 'Z') && !('Ѐ' <= c <= 'Я') && c != 'Ґ' ==> d == c
  {
    if 'A' <= c <= 'Z' || 'А' <= c <= 'Я' then (c as int + 32) as char
    else if 'Ѐ' <= c <= 'Џ' then (c as int + 80) as char
    else if c == 'Ґ' then 'ґ'
    else c
  }

  /** `s.toLowerCase()` */
  function ToLower(s: string): (r: string)
    ensures |r| == |s|
    ensures forall i :: 0 <= i < |s| ==> r[i] == LowerChar(s[i])
  {
    seq(|s|, i requires 0 <= i < |s| => LowerChar(s[i]))
  }

  /** `s.startsWith(p)` */
  predicate StartsWith(s: string, p: string)
  {
    |p| <= |s| && s[..|p|] == p
  }

  /** `s.includes(sub)` */
  predicate Contains(s: string, sub: string)
    decreases |s|
  {
    StartsWith(s, sub) || (|s| > 0 && Contains(s[1..], sub))
  }

  /** `s.indexOf(sep)`: the first position where `sep` occurs, if any (see `IndexOfFirst`). */
  function IndexOf(s: string, sep: string): (r: Option<nat>)
    ensures r.Some? ==> r.value + |sep| <= |s| && s[r.value..r.value + |sep|] == sep
    decreases |s|
  {
    if |s| < |sep| then None
    else if StartsWith(s, sep) then Some(0)
    else
      match IndexOf(s[1..], sep)
      case None => None
      case Some(i) =>
        assert s[i + 1..i + 1 + |sep|] == s[1..][i..i + |sep|];
        Some(i + 1)
  }

  /** The position `IndexOf` finds is where `sep` occurs first, and `None` means it never occurs. */
  lemma {:induction false} IndexOfFirst(s: string, sep: string)
    ensures IndexOf(s, sep).Some? ==> StartsWith(s[IndexOf(s, sep).value..], sep)
    ensures IndexOf(s, sep).Some? ==> forall k :: 0 <= k < IndexOf(s, sep).value ==> !StartsWith(s[k..], sep)
    ensures IndexOf(s, sep).None? ==> forall k :: 0 <= k <= |s| ==> !StartsWith(s[k..], sep)
    decreases |s|
  {
    assert s[0..] == s;
    if |s| < |sep| {
      assert forall k :: 0 <= k <= |s| ==> |s[k..]| < |sep|;
    } else if !StartsWith(s, sep) {
      IndexOfFirst(s[1..], sep);
      match IndexOf(s[1..], sep)
      case None =>
        assert forall k :: 1 <= k <= |s| ==> s[k..] == s[1..][k - 1..];
      case Some(i) =>
        assert forall k :: 1 <= k <= i + 1 ==> s[k..] == s[1..][k - 1..];
    }
  }

  /** `s.split(sep)` for a non-empty separator string. */
  function Split(s: string, sep: string): (r: seq<string>)
    requires |sep| > 0
    ensures |r| >= 1
    decreases |s|
  {
    match IndexOf(s, sep)
    case None => [s]
    case Some(i) => [s[..i]] + Split(s[i + |sep|..], sep)
  }

  /** `parts.join(sep)` */
  function Join(parts: seq<string>, sep: string): string
  {
    if |parts| == 0 then ""
    else if |parts| == 1 then parts[0]
    else parts[0] + sep + Join(parts[1..], sep)
  }

  lemma {:induction false} IndexOfCharAfterPrefix(p: string, c: char, rest: string)
    requires c !in p
    ensures IndexOf(p + [c] + rest, [c]) == Some(|p|)
  {
    if |p| == 0 {
      assert StartsWith([c] + rest, [c]);
    } else {
      var s := p + [c] + rest;
      assert s[1..] == p[1..] + [c] + rest;
      assert !StartsWith(s, [c]) by { assert s[0] == p[0]; }
      IndexOfCharAfterPrefix(p[1..], c, rest);
    }
  }

  lemma {:induction false} IndexOfCharAbsent(p: string, c: char)
    requires c !in p
    ensures IndexOf(p, [c]) == None
  {
    if |p| > 0 {
      assert !StartsWith(p, [c]) by { assert p[0] != c; }
      assert p[1..] == p[1..];
      IndexOfCharAbsent(p[1..], c);
    }
  }

  /**
   * Splitting a join on a one-character separator gives the parts back,
   * provided no part contains the separator.
   */
  lemma {:induction false} SplitJoin(parts: seq<string>, c: char)
    requires |parts| >= 1
    requires forall k :: 0 <= k < |parts| ==> c !in parts[k]
    ensures Split(Join(parts, [c]), [c]) == parts
  {
    if |parts| == 1 {
      IndexOfCharAbsent(parts[0], c);
    } else {
      var rest := Join(parts[1..], [c]);
      IndexOfCharAfterPrefix(parts[0], c, rest);
      var s := parts[0] + [c] + rest;
      assert s[..|parts[0]|] == parts[0];
      assert s[|parts[0]| + 1..] == rest;
      SplitJoin(parts[1..], c);
    }
  }

  function Digit(d: nat): (c: char)
    requires d < 10
    ensures '0' <= c <= '9' && c as int - '0' as int == d
  {
    ('0' as int + d) as char
  }

  predicate IsDigit(c: char) { '0' <= c <= '9' }

  function DigitValue(c: char): (d: nat)
    requires IsDigit(c)
    ensures d < 10
  {
    c as int - '0' as int
  }

  predicate AllDigits(s: string) { forall i :: 0 <= i < |s| ==> IsDigit(s[i]) }

  /** `String(n)` for a natural number: its decimal digits, no leading zeros. */
  function NatToString(n: nat): (r: string)
    ensures |r| >= 1 && AllDigits(r)
    ensures r[0] == '0' ==> n == 0
  {
    if n < 10 then [Digit(n)] else NatToString(n / 10) + [Digit(n % 10)]
  }

  /** `String(i)` for an integer. */
  function IntToString(i: int): (r: string)
    ensures |r| >= 1
    ensures i >= 0 ==> AllDigits(r)
    ensures i < 0 ==> r[0] == '-' && AllDigits(r[1..])
  {
    if i < 0 then "-" + NatToString(-i) else NatToString(i)
  }

  lemma IntToStringHasNo(i: int, c: char)
    requires !IsDigit(c) && c != '-'
    ensures c !in IntToString(i)
  {
  }

  /** The value of a string of decimal digits. */
  function DigitsValue(s: string): (n: nat)
    requires AllDigits(s)
  {
    if |s| == 0 then 0 else DigitsValue(s[..|s| - 1]) * 10 + DigitValue(s[|s| - 1])
  }

  /** The longest prefix of `s` made of decimal digits. */
  function DigitPrefix(s: string): (r: string)
    ensures AllDigits(r) && |r| <= |s| && r == s[..|r|]
    ensures |r| < |s| ==> !IsDigit(s[|r|])
  {
    if |s| == 0 || !IsDigit(s[0]) then "" else [s[0]] + DigitPrefix(s[1..])
  }

  lemma {:induction false} DigitsValueOfNat(n: nat)
    ensures DigitsValue(NatToString(n)) == n
  {
    if n >= 10 {
      var r := NatToString(n);
      assert r[..|r| - 1] == NatToString(n / 10);
      DigitsValueOfNat(n / 10);
    }
  }

  lemma {:induction false} DigitPrefixOfDigits(s: string)
    requires AllDigits(s)
    ensures DigitPrefix(s) == s
  {
    if |s| > 0 {
      DigitPrefixOfDigits(s[1..]);
    }
  }

  /**
   * `parseInt(s)`, called without a radix: leading white space, an optional
   * sign, then the leading decimal digits; NaN is `None`. Without a radix
   * JavaScript reads a `0x`/`0X` prefix as hexadecimal ("0x1A" gives 26),
   * where this reading stops at the `x` and gives 0.
   */
  function ParseInt(s: string): (r: Option<int>)
    ensures r.None? <==> DigitPrefix(StripSign(TrimStart(s))) == ""
  {
    var t := TrimStart(s);
    var negative := |t| > 0 && t[0] == '-';
    var digits := DigitPrefix(StripSign(t));
    if digits == "" then None
    else if negative then Some(-(DigitsValue(digits) as int))
    else Some(DigitsValue(digits))
  }

  function StripSign(t: string): string
  {
    if |t| > 0 && (t[0] == '-' || t[0] == '+') then t[1..] else t
  }

  /** `parseInt` reads back every integer `String` writes. */
  lemma ParseIntToString(i: int)
    ensures ParseInt(IntToString(i)) == Some(i)
  {
    var r := IntToString(i);
    var n: nat := if i < 0 then -i else i;
    assert StartIndex(r) == 0;
    assert TrimStart(r) == r;
    assert StripSign(r) == NatToString(n) by {
      if i < 0 {
        assert r[1..] == NatToString(n);
      }
    }
    DigitPrefixOfDigits(NatToString(n));
    DigitsValueOfNat(n);
  }

  /**
   * `Number(s)` for a string: blank text is 0, otherwise an optionally signed
   * run of decimal digits surrounded by white space; anything else is NaN (`None`).
   */
  function StringToNumber(s: string): (r: Option<int>)
    ensures AllSpace(s) ==> r == Some(0)
    ensures r.Some? && !AllSpace(s) ==> AllDigits(StripSign(Trim(s))) && |StripSign(Trim(s))| > 0
  {
    var t := Trim(s);
    var body := StripSign(t);
    if t == "" then Some(0)
    else if body == "" || !AllDigits(body) then None
    else if t[0] == '-' then Some(-(DigitsValue(body) as int))
    else Some(DigitsValue(body))
  }

  /** The text `String` writes for an integer has no surrounding white space. */
  lemma TrimIntToString(i: int)
    ensures Trim(IntToString(i)) == IntToString(i)
  {
    var r := IntToString(i);
    assert !IsSpace(r[0]);
    assert StartIndex(r) == 0;
    assert !IsSpace(r[|r| - 1]);
    assert EndIndex(r) == |r|;
  }

  /** Without its sign, the text of an integer is the text of its magnitude. */
  lemma StripSignIntToString(i: int)
    ensures StripSign(IntToString(i)) == NatToString(if i < 0 then -i else i)
  {
    if i < 0 {
      var r := IntToString(i);
      assert r[1..] == NatToString(-i);
    }
  }

  lemma {:induction false} StringToNumberOfInt(i: int)
    ensures StringToNumber(IntToString(i)) == Some(i)
  {
    var n: nat := if i < 0 then -i else i;
    TrimIntToString(i);
    StripSignIntToString(i);
    DigitsValueOfNat(n);
  }

  /** `str.padStart(width, fill)` */
  function PadStart(s: string, width: nat, fill: char): (r: string)
    ensures |r| == if |s| >= width then |s| else width
    ensures r[|r| - |s|..] == s
    ensures forall k :: 0 <= k < |r| - |s| ==> r[k] == fill
  {
    if |s| >= width then s else seq(width - |s|, _ => fill) + s
  }

  /** JavaScript's `a % b` for a positive divisor: the remainder takes the sign of `a`. */
  function JsRem(a: int, b: int): (r: int)
    requires b > 0
    ensures a >= 0 ==> 0 <= r < b && r == a % b
    ensures a < 0 ==> -b < r <= 0
  {
    if a >= 0 then a % b else -((-a) % b)
  }

  /** `Math.round(a / b * 100)` for a positive denominator (rounding half up). */
  function RoundPercent(a: int, b: int): (p: int)
    requires b > 0
    ensures 2 * b * p <= 200 * a + b < 2 * b * (p + 1)
    ensures 0 <= a <= b ==> 0 <= p <= 100
  {
    var x := 200 * a + b;
    var d := 2 * b;
    var p := x / d;
    assert x == d * p + x % d && 0 <= x % d < d;
    assert 0 <= a <= b ==> p <= 100 by {
      if 0 <= a <= b && p >= 101 {
        MulLe(d, 101, p);
      }
    }
    p
  }

  lemma MulLe(k: int, x: int, y: int)
    requires k >= 0 && x <= y
    ensures k * x <= k * y
  {
    assert k * y - k * x == k * (y - x);
  }

  /** A zero score is 0 percent. */
  lemma RoundPercentOfZero(b: int)
    requires b > 0
    ensures RoundPercent(0, b) == 0
  {
    var p := RoundPercent(0, b);
    if p >= 1 {
      MulLe(2 * b, 1, p);
    } else if p <= -1 {
      MulLe(2 * b, p + 1, 0);
    }
  }

  /** A full score is 100 percent. */
  lemma RoundPercentOfWhole(b: int)
    requires b > 0
    ensures RoundPercent(b, b) == 100
  {
    var p := RoundPercent(b, b);
    if p >= 101 {
      MulLe(2 * b, 101, p);
    } else if p <= 99 {
      MulLe(2 * b, p + 1, 100);
    }
  }

  /** `Math.round(a / b)` for a positive denominator. */
  function RoundDiv(a: int, b: int): (p: int)
    requires b > 0
    ensures 2 * b * p <= 2 * a + b < 2 * b * (p + 1)
  {
    (2 * a + b) / (2 * b)
  }
}
