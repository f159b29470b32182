/** The handful of JavaScript string operations the charts rely on: `trim`, `split`, `join`,
    `padStart`, `toString` of integers, `parseInt`, `toLowerCase` and the degree pattern
    `/^(\d+)°(\d+)'$/`. A string is a sequence of UTF-16 code units, here `seq<char>`. */
module JsString {
  import opened Wrappers
  import opened JsNumber

  /** The characters `String.prototype.trim` removes: WhiteSpace and LineTerminator. */
  predicate IsWhite(c: char)
  {
    || '\U{0009}' <= c <= '\U{000D}'   // tab, line feed, vertical tab, form feed, carriage return
    || c == '\U{0020}' || c == '\U{00A0}' || c == '\U{1680}'
    || '\U{2000}' <= c <= '\U{200A}'   // the typographic spaces
    || c == '\U{2028}' || c == '\U{2029}' || c == '\U{202F}' || c == '\U{205F}'
    || c == '\U{3000}' || c == '\U{FEFF}'
  }

  /** `trimStart`: drops the longest all-white prefix. */
  function TrimStart(s: string): (r: string)
    ensures |r| <= |s|
    ensures r == [] || !IsWhite(r[0])
    ensures forall i :: 0 <= i < |s| - |r| ==> IsWhite(s[i])
  {
    if |s| > 0 && IsWhite(s[0]) then TrimStart(s[1..]) else s
  }

  /** `trimEnd`: drops the longest all-white suffix. */
  function TrimEnd(s: string): (r: string)
    ensures |r| <= |s|
    ensures r == [] || !IsWhite(r[|r| - 1])
    ensures forall i :: |r| <= i < |s| ==> IsWhite(s[i])
  {
    if |s| > 0 && IsWhite(s[|s| - 1]) then TrimEnd(s[..|s| - 1]) else s
  }

  /** What `trimStart` keeps is a suffix of its input. */
  lemma {:induction false} TrimStartSuffix(s: string)
    ensures TrimStart(s) == s[|s| - |TrimStart(s)|..]
  {
    if |s| > 0 && IsWhite(s[0]) {
      TrimStartSuffix(s[1..]);
      assert s[1..][|s| - 1 - |TrimStart(s)|..] == s[|s| - |TrimStart(s)|..];
    }
  }

  /** What `trimEnd` keeps is a prefix of its input. */
  lemma {:induction false} TrimEndPrefix(s: string)
    ensures TrimEnd(s) == s[..|TrimEnd(s)|]
  {
    if |s| > 0 && IsWhite(s[|s| - 1]) {
      TrimEndPrefix(s[..|s| - 1]);
      assert s[..|s| - 1][..|TrimEnd(s)|] == s[..|TrimEnd(s)|];
    }
  }

  /** What `trimStart` keeps is a suffix, and what `trimEnd` keeps a prefix, of its input. */
  lemma TrimmedPieces(s: string)
    ensures TrimStart(s) == s[|s| - |TrimStart(s)|..]
    ensures TrimEnd(s) == s[..|TrimEnd(s)|]
  {
    TrimStartSuffix(s);
    TrimEndPrefix(s);
  }

  /** `trim` */
  function Trim(s: string): (r: string)
    ensures r == [] || (!IsWhite(r[0]) && !IsWhite(r[|r| - 1]))
  {
    TrimmedPieces(TrimStart(s));
    TrimEnd(TrimStart(s))
  }

  /** A string that neither starts nor ends with white space is its own trim. */
  lemma TrimNoop(s: string)
    requires s == [] || (!IsWhite(s[0]) && !IsWhite(s[|s| - 1]))
    ensures Trim(s) == s
  {
  }

  /** A string is blank (trims to "") exactly when all its characters are white. */
  lemma TrimEmptyIffAllWhite(s: string)
    ensures Trim(s) == "" <==> forall i :: 0 <= i < |s| ==> IsWhite(s[i])
  {
    TrimmedPieces(s);
    TrimmedPieces(TrimStart(s));
  }

  /** `indexOf` for one character: the first position of `c`, or -1. */
  function IndexOfChar(s: string, c: char): (i: int)
    ensures -1 <= i < |s|
    ensures i >= 0 ==> s[i] == c && c !in s[..i]
    ensures i == -1 <==> c !in s
  {
    if |s| == 0 then -1
    else if s[0] == c then 0
    else
      var j := IndexOfChar(s[1..], c);
      if j < 0 then -1 else j + 1
  }

  /** `s.replace(c, '')` for a one-character string pattern: only the first occurrence of `c`
      goes; a string without `c` is returned as it is. */
  function RemoveFirst(s: string, c: char): (r: string)
    ensures c !in s ==> r == s
    ensures c in s ==> |r| == |s| - 1 && multiset(r) + multiset{c} == multiset(s)
  {
    var i := IndexOfChar(s, c);
    if i < 0 then s
    else
      assert s == s[..i] + [c] + s[i + 1..];
      s[..i] + s[i + 1..]
  }

  /** `parts.join(sep)` */
  function Join(parts: seq<string>, sep: char): string
  {
    if |parts| == 0 then ""
    else if |parts| == 1 then parts[0]
    else parts[0] + [sep] + Join(parts[1..], sep)
  }

  /** `s.split(sep)` for a one-character separator: the pieces between separators, always
      at least one, none containing the separator, and joining back to `s`. */
  function Split(s: string, sep: char): (parts: seq<string>)
    ensures |parts| >= 1
    ensures forall k :: 0 <= k < |parts| ==> sep !in parts[k]
    ensures Join(parts, sep) == s
    decreases |s|
  {
    var i := IndexOfChar(s, sep);
    if i < 0 then [s]
    else
      var rest := Split(s[i + 1..], sep);
      assert s == s[..i] + [sep] + s[i + 1..];
      [s[..i]] + rest
  }

  /** Splitting a joined list gives the list back when no piece holds the separator. */
  lemma {:induction false} SplitJoin(parts: seq<string>, sep: char)
    requires |parts| >= 1
    requires forall k :: 0 <= k < |parts| ==> sep !in parts[k]
    ensures Split(Join(parts, sep), sep) == parts
  {
    if |parts| > 1 {
      var s := Join(parts, sep);
      assert s == parts[0] + [sep] + Join(parts[1..], sep);
      assert IndexOfChar(s, sep) == |parts[0]| by {
        IndexAfterFree(parts[0], sep, Join(parts[1..], sep));
      }
      assert s[..|parts[0]|] == parts[0];
      assert s[|parts[0]| + 1..] == Join(parts[1..], sep);
      SplitJoin(parts[1..], sep);
    }
  }

  lemma {:induction false} IndexAfterFree(a: string, c: char, b: string)
    requires c !in a
    ensures IndexOfChar(a + [c] + b, c) == |a|
  {
    if |a| > 0 {
      assert (a + [c] + b)[1..] == a[1..] + [c] + b;
      IndexAfterFree(a[1..], c, b);
    }
  }

  predicate IsDigit(c: char)
  {
    '0' <= c <= '9'
  }

  predicate AllDigits(s: string)
  {
    forall i :: 0 <= i < |s| ==> IsDigit(s[i])
  }

  function DigitChar(d: nat): (c: char)
    requires d < 10
    ensures IsDigit(c) && c as int - '0' as int == d
  {
    ('0' as int + d) as char
  }

  /** The decimal value of a string of digits, leading zeros allowed (`parseInt` on `\d+`). */
  function DigitsValue(s: string): nat
    requires AllDigits(s)
  {
    if s == [] then 0 else DigitsValue(s[..|s| - 1]) * 10 + (s[|s| - 1] as int - '0' as int)
  }

  /** `n.toString()` for a non-negative integer: decimal digits without leading zeros,
      reading back as `n`. */
  function NatToString(n: nat): (s: string)
    ensures |s| >= 1 && AllDigits(s) && DigitsValue(s) == n
    ensures |s| > 1 ==> s[0] != '0'
  {
    if n < 10 then [DigitChar(n)]
    else
      var s := NatToString(n / 10) + [DigitChar(n % 10)];
      assert s[..|s| - 1] == NatToString(n / 10);
      s
  }

  /** `i.toString()` for an integer. */
  function IntToString(i: int): (s: string)
    ensures i >= 0 ==> s == NatToString(i)
    ensures i < 0 ==> s == "-" + NatToString(-i)
  {
    if i < 0 then "-" + NatToString(-i) else NatToString(i)
  }

  function Repeat(c: char, n: nat): (r: string)
    ensures |r| == n && forall i :: 0 <= i < n ==> r[i] == c
  {
    if n == 0 then "" else [c] + Repeat(c, n - 1)
  }

  /** `s.padStart(width, fill)` with a one-character fill. */
  function PadStart(s: string, width: nat, fill: char): (r: string)
    ensures |r| == if |s| >= width then |s| else width
    ensures r[|r| - |s|..] == s
    ensures forall i :: 0 <= i < |r| - |s| ==> r[i] == fill
  {
    if |s| >= width then s else Repeat(fill, width - |s|) + s
  }

  /** Leading zeros do not change the value of a digit string. */
  lemma {:induction false} LeadingZeros(z: nat, s: string)
    requires AllDigits(s)
    ensures AllDigits(Repeat('0', z) + s)
    ensures DigitsValue(Repeat('0', z) + s) == DigitsValue(s)
  {
    var t := Repeat('0', z) + s;
    if s == [] {
      assert t == Repeat('0', z);
      AllZeros(z);
    } else {
      assert t[..|t| - 1] == Repeat('0', z) + s[..|s| - 1];
      LeadingZeros(z, s[..|s| - 1]);
    }
  }

  lemma {:induction false} AllZeros(z: nat)
    ensures AllDigits(Repeat('0', z)) && DigitsValue(Repeat('0', z)) == 0
  {
    if z > 0 {
      var t := Repeat('0', z);
      var u := t[..|t| - 1];
      assert u == Repeat('0', z - 1) by {
        assert forall i :: 0 <= i < |u| ==> u[i] == '0';
      }
      AllZeros(z - 1);
    }
  }

  /** `n.toString().padStart(2, '0')` reads back as `n`. */
  lemma PaddedNatValue(n: nat)
    ensures AllDigits(PadStart(NatToString(n), 2, '0'))
    ensures DigitsValue(PadStart(NatToString(n), 2, '0')) == n
  {
    var s := NatToString(n);
    if |s| < 2 {
      LeadingZeros(2 - |s|, s);
    }
  }

  /** The longest prefix of decimal digits. */
  function LeadingDigits(s: string): (d: string)
    ensures |d| <= |s| && d == s[..|d|] && AllDigits(d)
    ensures |d| < |s| ==> !IsDigit(s[|d|])
  {
    if |s| > 0 && IsDigit(s[0]) then [s[0]] + LeadingDigits(s[1..]) else ""
  }

  /** `parseInt(s)` with no radix: leading white space is skipped, an optional sign is read,
      then the longest run of decimal digits. `None` stands for the results this model does
      not represent: `NaN` (no digits) and a `0x`/`0X` hexadecimal prefix. */
  function ParseInt(s: string): (r: Option<int>)
    ensures r.Some? ==> exists k :: 0 <= k < |s| && IsDigit(s[k])
  {
    var t := TrimStart(s);
    var negative := |t| > 0 && t[0] == '-';
    var body := if |t| > 0 && (t[0] == '-' || t[0] == '+') then t[1..] else t;
    var digits := LeadingDigits(body);
    if digits == [] || (|body| >= 2 && body[0] == '0' && (body[1] == 'x' || body[1] == 'X')) then
      None
    else
      assert IsDigit(body[0]);
      TrimmedPieces(s);
      assert s[|s| - |body|] == body[0];
      Some(if negative then -(DigitsValue(digits) as int) else DigitsValue(digits))
  }

  /** `parseInt` of a string that starts with digits reads exactly those digits. */
  lemma ParseIntOfDigits(d: string, rest: string)
    requires |d| >= 1 && AllDigits(d) && (|rest| == 0 || !IsDigit(rest[0]))
    requires !(|d| == 1 && d[0] == '0' && |rest| > 0 && (rest[0] == 'x' || rest[0] == 'X'))
    ensures ParseInt(d + rest) == Some(DigitsValue(d) as int)
  {
    var s := d + rest;
    assert !IsWhite(s[0]);
    assert TrimStart(s) == s;
    LeadingDigitsOf(d, rest);
  }

  lemma {:induction false} LeadingDigitsOf(d: string, rest: string)
    requires AllDigits(d) && (|rest| == 0 || !IsDigit(rest[0]))
    ensures LeadingDigits(d + rest) == d
  {
    if |d| > 0 {
      assert (d + rest)[1..] == d[1..] + rest;
      LeadingDigitsOf(d[1..], rest);
    } else {
      assert d + rest == rest;
    }
  }

  /** The pattern `/^(\d+)°(\d+)'$/`: a degree run, `°`, a minute run, an ASCII apostrophe,
      nothing else. Gives the two captured runs read as decimal numbers. */
  function MatchDegreeMinute(s: string): (r: Option<(nat, nat)>)
    ensures r.Some? ==> exists k :: 1 <= k < |s| - 2 && s[k] == '°'
                                   && AllDigits(s[..k]) && AllDigits(s[k + 1..|s| - 1])
                                   && s[|s| - 1] == '\''
                                   && r.value == (DigitsValue(s[..k]), DigitsValue(s[k + 1..|s| - 1]))
  {
    if |s| < 4 || s[|s| - 1] != '\'' then None
    else
      var body := s[..|s| - 1];
      var k := IndexOfChar(body, '°');
      if k < 1 || k + 1 >= |body| then None
      else
        var d := body[..k];
        var m := body[k + 1..];
        if AllDigits(d) && AllDigits(m) then
          assert s[..k] == d && s[k + 1..|s| - 1] == m;
          Some((DigitsValue(d), DigitsValue(m)))
        else None
  }

  /** Every token of the form digits-°-digits-' matches, capturing those two values. */
  lemma MatchDegreeMinuteOf(d: string, m: string)
    requires |d| >= 1 && AllDigits(d) && |m| >= 1 && AllDigits(m)
    ensures MatchDegreeMinute(d + "°" + m + "'") == Some((DigitsValue(d), DigitsValue(m)))
  {
    var s := d + "°" + m + "'";
    var body := s[..|s| - 1];
    assert body == d + ['°'] + m;
    assert '°' !in d by {
      forall i | 0 <= i < |d| ensures d[i] != '°' { assert IsDigit(d[i]); }
    }
    IndexAfterFree(d, '°', m);
    assert body[..|d|] == d;
    assert body[|d| + 1..] == m;
  }

  /** `toLowerCase` restricted to ASCII letters, the only letters the aspect names carry. */
  function ToLowerAscii(s: string): (r: string)
    ensures |r| == |s|
    ensures forall i :: 0 <= i < |s| ==> r[i] == if 'A' <= s[i] <= 'Z' then (s[i] as int + 32) as char else s[i]
  {
    if s == [] then ""
    else [if 'A' <= s[0] <= 'Z' then (s[0] as int + 32) as char else s[0]] + ToLowerAscii(s[1..])
  }

  /** `Number.prototype.toFixed(1)`: the integer `n` of tenths closest to `x`, the larger on a
      tie, written with one decimal; a negative `x` gets a minus sign in front. */
  function ToFixed1(x: real): string
  {
    if x < 0.0 then "-" + TenthsText(Tenths(-x)) else TenthsText(Tenths(x))
  }

  /** `n` tenths as `units.d`. */
  function TenthsText(n: nat): string
  {
    NatToString(n / 10) + "." + [DigitChar(n % 10)]
  }

  function Tenths(x: real): (n: nat)
    requires x >= 0.0
  {
    Floor(10.0 * x + 0.5)
  }

  /** The tenths `toFixed(1)` writes are within half a tenth of `x`, and no other count of
      tenths is nearer; of two equally near, the larger is taken. */
  lemma TenthsNearest(x: real, m: int)
    requires x >= 0.0
    ensures -0.05 < Tenths(x) as real / 10.0 - x <= 0.05
    ensures Abs(Tenths(x) as real / 10.0 - x) <= Abs(m as real / 10.0 - x)
    ensures Abs(Tenths(x) as real / 10.0 - x) == Abs(m as real / 10.0 - x) ==> m <= Tenths(x)
  {
    var n := Tenths(x);
    assert n as real <= 10.0 * x + 0.5 < n as real + 1.0;
    if m < n {
      assert m as real <= n as real - 1.0;
    } else if m > n {
      assert m as real >= n as real + 1.0;
    }
  }

  /** The text reads back as the units before the point and the tenth digit after it. */
  lemma TenthsTextShape(n: nat)
    ensures var t := TenthsText(n);
      && |t| >= 3 && t[|t| - 2] == '.' && AllDigits(t[..|t| - 2]) && IsDigit(t[|t| - 1])
      && DigitsValue(t[..|t| - 2]) * 10 + (t[|t| - 1] as int - '0' as int) == n
  {
    var t := TenthsText(n);
    assert t[..|t| - 2] == NatToString(n / 10);
  }
}
