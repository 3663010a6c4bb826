/** The JavaScript string operations the dashboard relies on: case mapping
    (for the Latin letters of U+0000 to U+017F),
    `trim`, `includes`, `startsWith`, `slice`, `padStart`, `String(n)`,
    `parseInt(s, 10)` and the `<` order on strings. */
module JsText {
  import opened Wrappers

  /** A capital letter `toLowerCase` maps to one character: ASCII, the
      Latin-1 capitals except the multiplication sign, and the Latin
      Extended-A capitals (U+0100 to U+017E) other than the dotted capital I,
      whose lower case is two characters. */
  predicate IsCapital(c: char)
  {
    var n := c as int;
    ('A' <= c <= 'Z') || (0xC0 <= n <= 0xDE && n != 0xD7)
    || ((0x100 <= n <= 0x12F || 0x132 <= n <= 0x137 || 0x14A <= n <= 0x177) && n % 2 == 0)
    || ((0x139 <= n <= 0x148 || 0x179 <= n <= 0x17E) && n % 2 == 1)
    || n == 0x178
  }

  /** A small letter whose `toUpperCase` is the one capital `LowerChar`
      maps to it. */
  predicate IsSmall(c: char)
  {
    var n := c as int;
    ('a' <= c <= 'z') || (0xE0 <= n <= 0xFE && n != 0xF7)
    || ((0x101 <= n <= 0x12F || 0x133 <= n <= 0x137 || 0x14B <= n <= 0x177) && n % 2 == 1)
    || ((0x13A <= n <= 0x148 || 0x17A <= n <= 0x17E) && n % 2 == 0)
    || n == 0xFF
  }

  /** `toLowerCase` on one character: capitals take their small letter,
      every other character is unchanged. */
  function LowerChar(c: char): char
  {
    var n := c as int;
    if !IsCapital(c) then c
    else if n == 0x178 then 0xFF as char
    else if n < 0x100 then (n + 32) as char
    else (n + 1) as char
  }

  /** `toUpperCase` on one character: small letters take their capital,
      every other character is unchanged. */
  function UpperChar(c: char): char
  {
    var n := c as int;
    if !IsSmall(c) then c
    else if n == 0xFF then 0x178 as char
    else if n < 0x100 then (n - 32) as char
    else (n - 1) as char
  }

  /** The two mappings are inverse on the letters they change, and
      lower-casing is idempotent. */
  lemma CaseFacts(c: char)
    ensures IsCapital(c) ==> IsSmall(LowerChar(c)) && UpperChar(LowerChar(c)) == c
    ensures IsSmall(c) ==> IsCapital(UpperChar(c)) && LowerChar(UpperChar(c)) == c
    ensures !IsCapital(c) ==> LowerChar(c) == c
    ensures !IsSmall(c) ==> UpperChar(c) == c
    ensures LowerChar(LowerChar(c)) == LowerChar(c)
  {
    var n := c as int;
    if n < 0x80 {
    } else if n < 0x100 {
    } else if n < 0x138 {
    } else if n < 0x149 {
    } else if n < 0x178 {
    } else {
    }
  }

  function Lower(s: string): string
  {
    seq(|s|, i requires 0 <= i < |s| => LowerChar(s[i]))
  }

  function Upper(s: string): string
  {
    seq(|s|, i requires 0 <= i < |s| => UpperChar(s[i]))
  }

  /** `a || b` on strings: the empty string is falsy. */
  function OrElse(a: string, b: string): string
  {
    if a != "" then a else b
  }

  /** `s.charAt(0).toUpperCase() + s.slice(1)` */
  function Capitalize(s: string): string
  {
    if s == [] then [] else [UpperChar(s[0])] + s[1..]
  }

  /** The characters `\s` and `trim()` treat as white space. */
  predicate IsSpace(c: char)
  {
    c == ' ' || c == '\t' || c == '\n' || c == '\r' || c == '\U{000B}' || c == '\U{000C}' || c == '\U{00A0}'
    || c == '\U{1680}' || ('\U{2000}' <= c <= '\U{200A}') || c == '\U{2028}' || c == '\U{2029}'
    || c == '\U{202F}' || c == '\U{205F}' || c == '\U{3000}' || c == '\U{FEFF}'
  }

  /** `!s.trim()`: the string is empty after trimming. */
  predicate IsBlank(s: string)
  {
    forall i :: 0 <= i < |s| ==> IsSpace(s[i])
  }

  /** `s.replace(/\s/g, '-')` */
  function DashSpaces(s: string): string
  {
    seq(|s|, i requires 0 <= i < |s| => if IsSpace(s[i]) then '-' else s[i])
  }

  predicate OccursAt<T(==)>(s: seq<T>, sub: seq<T>, i: int)
  {
    0 <= i && i + |sub| <= |s| && s[i..i + |sub|] == sub
  }

  /** `s.includes(sub)` */
  predicate Includes<T(==)>(s: seq<T>, sub: seq<T>)
  {
    exists i :: 0 <= i <= |s| - |sub| && OccursAt(s, sub, i)
  }

  /** `s.startsWith(p)` */
  predicate StartsWith<T(==)>(s: seq<T>, p: seq<T>)
  {
    |p| <= |s| && s[..|p|] == p
  }

  lemma EmptyIncluded<T>(s: seq<T>)
    ensures Includes(s, [])
  {
    assert OccursAt(s, [], 0);
  }

  lemma PrefixIncluded<T>(s: seq<T>, p: seq<T>)
    requires StartsWith(s, p)
    ensures Includes(s, p)
  {
    assert OccursAt(s, p, 0);
  }

  /** Resolves a relative `slice` index the way JavaScript does. */
  function SliceIndex(len: nat, k: int): (r: nat)
    ensures r <= len
  {
    if k < 0 then (if len + k < 0 then 0 else len + k) else if k > len then len else k
  }

  /** `s.slice(start, end)`, negative indices counting from the end. */
  function JsSlice<T>(s: seq<T>, start: int, end: int): seq<T>
  {
    var from, to := SliceIndex(|s|, start), SliceIndex(|s|, end);
    if from < to then s[from..to] else []
  }

  predicate IsDigit(c: char)
  {
    '0' <= c <= '9'
  }

  predicate AllDigits(s: string)
  {
    forall i :: 0 <= i < |s| ==> IsDigit(s[i])
  }

  function DigitChar(d: nat): char
    requires d < 10
  {
    ('0' as int + d) as char
  }

  /** The decimal value of a string of digits. */
  function DigitsValue(s: string): nat
    requires AllDigits(s)
  {
    if s == [] then 0 else 10 * DigitsValue(s[..|s| - 1]) + (s[|s| - 1] as int - '0' as int)
  }

  /** `String(n)` for a non-negative integer. */
  function NatToString(n: nat): string
  {
    if n < 10 then [DigitChar(n)] else NatToString(n / 10) + [DigitChar(n % 10)]
  }

  /** `String(n)` */
  function IntToString(n: int): string
  {
    if n < 0 then "-" + NatToString(-n) else NatToString(n)
  }

  /** `s.padStart(2, '0')` */
  function Pad2(s: string): string
  {
    if |s| >= 2 then s else seq(2 - |s|, _ => '0') + s
  }

  lemma {:induction false} NatToStringDigits(n: nat)
    ensures AllDigits(NatToString(n)) && |NatToString(n)| >= 1
    ensures DigitsValue(NatToString(n)) == n
    ensures n < 10 ==> |NatToString(n)| == 1
    ensures 10 <= n < 100 ==> |NatToString(n)| == 2
    ensures 100 <= n < 1000 ==> |NatToString(n)| == 3
    ensures 1000 <= n < 10000 ==> |NatToString(n)| == 4
  {
    if n >= 10 {
      NatToStringDigits(n / 10);
      var s := NatToString(n);
      assert s[..|s| - 1] == NatToString(n / 10);
    }
  }

  /** Leading zeros do not change the value of a digit string. */
  lemma {:induction false} LeadingZero(s: string)
    requires AllDigits(s)
    ensures AllDigits("0" + s) && DigitsValue("0" + s) == DigitsValue(s)
  {
    if s != [] {
      var t := "0" + s;
      assert t[..|t| - 1] == "0" + s[..|s| - 1];
      LeadingZero(s[..|s| - 1]);
    }
  }

  /** `Pad2(String(n))` reads back as n. */
  lemma Pad2Digits(n: nat)
    requires n < 100
    ensures var p := Pad2(NatToString(n)); |p| == 2 && AllDigits(p) && DigitsValue(p) == n
  {
    NatToStringDigits(n);
    if n < 10 {
      assert Pad2(NatToString(n)) == "0" + NatToString(n);
      LeadingZero(NatToString(n));
    }
  }

  /** Length of the longest prefix of `s` made of digits. */
  function DigitRun(s: string): (n: nat)
    ensures n <= |s|
  {
    if s == [] || !IsDigit(s[0]) then 0 else 1 + DigitRun(s[1..])
  }

  lemma {:induction false} DigitRunDigits(s: string)
    ensures AllDigits(s[..DigitRun(s)])
  {
    if s != [] && IsDigit(s[0]) {
      DigitRunDigits(s[1..]);
      assert s[..DigitRun(s)] == [s[0]] + s[1..][..DigitRun(s[1..])];
    }
  }

  /** `parseInt(s, 10)` after the sign: the value of the leading digits, or NaN. */
  function ParseUnsignedPrefix(s: string): Option<nat>
  {
    var n := DigitRun(s);
    DigitRunDigits(s);
    if n == 0 then None else Some(DigitsValue(s[..n]))
  }

  /** `parseInt(s, 10)`: leading white space, an optional sign, then the longest
      run of digits; `None` is NaN. */
  function ParseInt(s: string): Option<int>
  {
    if s != [] && IsSpace(s[0]) then ParseInt(s[1..])
    else if s != [] && (s[0] == '-' || s[0] == '+') then
      match ParseUnsignedPrefix(s[1..])
      case None => None
      case Some(v) => var r: int := if s[0] == '-' then -(v as int) else v as int; Some(r)
    else
      match ParseUnsignedPrefix(s)
      case None => None
      case Some(v) => var r: int := v; Some(r)
  }

  lemma {:induction false} DigitRunAll(s: string)
    requires AllDigits(s)
    ensures DigitRun(s) == |s|
  {
    if s != [] {
      DigitRunAll(s[1..]);
    }
  }

  /** `parseInt` of a digit string is its value. */
  lemma ParseDigits(s: string)
    requires s != [] && AllDigits(s)
    ensures ParseInt(s) == Some(DigitsValue(s))
  {
    DigitRunAll(s);
    assert s[..|s|] == s;
  }

  /** `parseInt` of text that starts with a digit is a number. */
  lemma ParseLeadingDigit(s: string)
    requires s != [] && IsDigit(s[0])
    ensures ParseInt(s).Some?
  {
  }

  /** The `<` order JavaScript applies to two strings (code unit by code unit). */
  predicate StrLt(a: string, b: string)
  {
    if a == [] then b != []
    else if b == [] then false
    else if a[0] != b[0] then a[0] < b[0]
    else StrLt(a[1..], b[1..])
  }

  lemma {:induction false} StrLtIrreflexive(a: string)
    ensures !StrLt(a, a)
  {
    if a != [] {
      StrLtIrreflexive(a[1..]);
    }
  }

  lemma {:induction false} StrLtTransitive(a: string, b: string, c: string)
    requires StrLt(a, b) && StrLt(b, c)
    ensures StrLt(a, c)
  {
    if a != [] && b != [] && c != [] && a[0] == b[0] && b[0] == c[0] {
      StrLtTransitive(a[1..], b[1..], c[1..]);
    }
  }

  lemma {:induction false} StrLtTotal(a: string, b: string)
    requires a != b
    ensures StrLt(a, b) || StrLt(b, a)
  {
    if a != [] && b != [] && a[0] == b[0] {
      assert a == [a[0]] + a[1..] && b == [b[0]] + b[1..];
      StrLtTotal(a[1..], b[1..]);
    }
  }
}
