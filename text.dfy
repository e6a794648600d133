/**
  String primitives the JavaScript/TypeScript sources rely on: `String.prototype.trim`,
  `length` in UTF-16 code units, the `\d` character class, the relational operators on
  strings and decimal rendering of integers (`String(n)`, `padStart(2, "0")`).

  Strings are sequences of code points and compare in code-point order. JavaScript
  compares UTF-16 code units; the two orders differ only between a character above
  U+FFFF and one in U+E000 to U+FFFF.
 */
module Text {

  /* ---------------- trim ---------------- */

  /** The WhiteSpace and LineTerminator code points that `String.prototype.trim` removes. */
  predicate IsJsSpace(c: char) {
    || c == '\t' || c == '\n' || c == '\U{B}' || c == '\U{C}' || c == '\r' || c == ' '
    || c == '\U{A0}' || c == '\U{1680}' || ('\U{2000}' <= c <= '\U{200A}')
    || c == '\U{2028}' || c == '\U{2029}' || c == '\U{202F}' || c == '\U{205F}'
    || c == '\U{3000}' || c == '\U{FEFF}'
  }

  predicate AllSpace(s: string) {
    forall i :: 0 <= i < |s| ==> IsJsSpace(s[i])
  }

  /** The number of white-space characters `s` starts with. */
  function LeadSpace(s: string): (n: nat)
    ensures n <= |s|
    ensures forall i :: 0 <= i < n ==> IsJsSpace(s[i])
    ensures n == |s| || !IsJsSpace(s[n])
  {
    if s != [] && IsJsSpace(s[0]) then
      var n := LeadSpace(s[1..]);
      assert forall i :: 1 <= i <= n ==> s[i] == s[1..][i - 1];
      1 + n
    else 0
  }

  /** The number of white-space characters `s` ends with. */
  function TrailSpace(s: string): (n: nat)
    ensures n <= |s|
    ensures forall i :: |s| - n <= i < |s| ==> IsJsSpace(s[i])
    ensures n == |s| || !IsJsSpace(s[|s| - n - 1])
  {
    if s != [] && IsJsSpace(s[|s| - 1]) then
      var n := TrailSpace(s[..|s| - 1]);
      1 + n
    else 0
  }

  /** `s.trimStart()`: the suffix after the leading white space. */
  function TrimStart(s: string): string {
    s[LeadSpace(s)..]
  }

  /** `s.trimEnd()`: the prefix before the trailing white space. */
  function TrimEnd(s: string): string {
    s[..|s| - TrailSpace(s)]
  }

  /** `s.trim()`. */
  function Trim(s: string): (r: string)
    ensures |r| <= |s|
    ensures r == [] || (!IsJsSpace(r[0]) && !IsJsSpace(r[|r| - 1]))
  {
    var t := TrimStart(s);
    var n := TrailSpace(t);
    assert n < |t| ==> t[..|t| - n][0] == t[0] == s[LeadSpace(s)];
    TrimEnd(t)
  }

  /** The leading white space is determined by where the first non-space stands. */
  lemma {:induction false} LeadSpaceUnique(s: string, n: nat)
    requires n <= |s| && (forall i :: 0 <= i < n ==> IsJsSpace(s[i]))
    requires n == |s| || !IsJsSpace(s[n])
    ensures LeadSpace(s) == n
  {
  }

  lemma {:induction false} TrailSpaceUnique(s: string, n: nat)
    requires n <= |s| && (forall i :: |s| - n <= i < |s| ==> IsJsSpace(s[i]))
    requires n == |s| || !IsJsSpace(s[|s| - n - 1])
    ensures TrailSpace(s) == n
  {
  }

  /** The trimmed string is the slice of the input that starts after the leading white space
      and ends before the trailing white space. */
  lemma {:induction false} TrimIsSlice(s: string)
    ensures var i := LeadSpace(s);
            && i + |Trim(s)| <= |s| && Trim(s) == s[i..i + |Trim(s)|]
            && AllSpace(s[..i]) && AllSpace(s[i + |Trim(s)|..])
  {
    var i := LeadSpace(s);
    var t := s[i..];
    var n := TrailSpace(t);
    var j := i + (|t| - n);
    assert Trim(s) == t[..|t| - n] == s[i..j];
    forall k | 0 <= k < |s[..i]| ensures IsJsSpace(s[..i][k]) {
      assert s[..i][k] == s[k];
    }
    forall k | 0 <= k < |s[j..]| ensures IsJsSpace(s[j..][k]) {
      assert s[j..][k] == t[|t| - n + k];
    }
  }

  /** A string is trimmed to nothing exactly when every character of it is white space. */
  lemma {:induction false} TrimEmptyIff(s: string)
    ensures Trim(s) == [] <==> AllSpace(s)
  {
    var i := LeadSpace(s);
    if i < |s| {
      TrimIsSlice(s);
      assert !IsJsSpace(s[i]);
    }
  }

  /** Any split into white space, a part that neither starts nor ends with white space,
      and white space, trims to that middle part. */
  lemma {:induction false} TrimUnique(a: string, m: string, b: string)
    requires AllSpace(a) && AllSpace(b)
    requires m == [] || (!IsJsSpace(m[0]) && !IsJsSpace(m[|m| - 1]))
    ensures Trim(a + m + b) == m
  {
    var s := a + m + b;
    if m == [] {
      assert AllSpace(s) by {
        forall i | 0 <= i < |s| ensures IsJsSpace(s[i]) {
          if i < |a| { assert s[i] == a[i]; } else { assert s[i] == b[i - |a|]; }
        }
      }
      TrimEmptyIff(s);
    } else {
      assert s[|a|] == m[0];
      assert forall i :: 0 <= i < |a| ==> s[i] == a[i];
      LeadSpaceUnique(s, |a|);
      var t := s[|a|..];
      assert t == m + b;
      assert t[|t| - |b| - 1] == m[|m| - 1];
      assert forall i :: |t| - |b| <= i < |t| ==> t[i] == b[i - |m|];
      TrailSpaceUnique(t, |b|);
      assert t[..|t| - |b|] == m;
    }
  }

  /** A string without white space at either end is its own trim. */
  lemma {:induction false} TrimNoop(s: string)
    requires s == [] || (!IsJsSpace(s[0]) && !IsJsSpace(s[|s| - 1]))
    ensures Trim(s) == s
  {
    TrimUnique([], s, []);
    assert [] + s + [] == s;
  }

  /** Trimming twice is trimming once. */
  lemma {:induction false} TrimIdempotent(s: string)
    ensures Trim(Trim(s)) == Trim(s)
  {
    TrimNoop(Trim(s));
  }

  lemma SpaceConcat(a: string, b: string)
    requires AllSpace(a) && AllSpace(b)
    ensures AllSpace(a + b)
  {
    assert forall k :: |a| <= k < |a + b| ==> (a + b)[k] == b[k - |a|];
  }

  lemma Regroup(x: string, a: string, m: string, b: string, y: string)
    ensures x + (a + m + b) + y == (x + a) + m + (b + y)
  {
  }

  /** Surrounding a string with spaces does not change its trim. */
  lemma {:induction false} TrimPadded(s: string)
    ensures Trim(" " + s + " ") == Trim(s)
  {
    TrimIsSlice(s);
    var i := LeadSpace(s);
    var m := Trim(s);
    var pre, post := s[..i], s[i + |m|..];
    SpaceConcat(" ", pre);
    SpaceConcat(post, " ");
    assert s == pre + m + post;
    Regroup(" ", pre, m, post, " ");
    TrimUnique(" " + pre, m, post + " ");
  }

  /* ---------------- length ---------------- */

  /** The UTF-16 code units of one character: two for a character outside the Basic
      Multilingual Plane, which JavaScript stores as a surrogate pair, one otherwise. */
  function CodeUnits(c: char): nat {
    if c > '\U{FFFF}' then 2 else 1
  }

  /** `s.length`: JavaScript counts UTF-16 code units, not characters. */
  function Utf16Length(s: string): (n: nat)
    ensures |s| <= n <= 2 * |s|
  {
    if s == [] then 0 else CodeUnits(s[0]) + Utf16Length(s[1..])
  }

  /** The length of a concatenation is the sum of the lengths. */
  lemma {:induction false} Utf16LengthConcat(a: string, b: string)
    ensures Utf16Length(a + b) == Utf16Length(a) + Utf16Length(b)
  {
    if a != [] {
      assert (a + b)[1..] == a[1..] + b;
      Utf16LengthConcat(a[1..], b);
    } else {
      assert a + b == b;
    }
  }

  /** The length counts characters exactly when every character is in the Basic
      Multilingual Plane. */
  lemma {:induction false} Utf16LengthBmp(s: string)
    ensures Utf16Length(s) == |s| <==> forall i :: 0 <= i < |s| ==> s[i] <= '\U{FFFF}'
  {
    if s != [] {
      Utf16LengthBmp(s[1..]);
      assert forall i :: 1 <= i < |s| ==> s[i] == s[1..][i - 1];
    }
  }

  /** One character is one unit long below U+10000 and two units long above. */
  lemma {:induction false} OneCharacterLength(c: char)
    ensures Utf16Length([c]) == 1 <==> c <= '\U{FFFF}'
    ensures Utf16Length([c]) == 2 <==> c > '\U{FFFF}'
    ensures Utf16Length("\U{1F981}") == 2 && Utf16Length("A") == 1
  {
    assert [c][1..] == [];
    assert "\U{1F981}"[1..] == [] && "A"[1..] == [];
  }

  /* ---------------- \d and the date shape ---------------- */

  /** JavaScript's `\d` without the `u` flag: the ASCII digits only. */
  predicate IsDigit(c: char) {
    '0' <= c <= '9'
  }

  predicate AllDigits(s: string) {
    forall i :: 0 <= i < |s| ==> IsDigit(s[i])
  }

  /** `/^\d{4}-\d{2}-\d{2}$/.test(s)`: the calendar-date shape of ISO 8601 extended format
      (section 4.1.2.2 of ISO 8601:2004), checked by pattern only. `$` without the `m` flag
      matches only at the end of the input, so the string is exactly ten characters. */
  predicate IsDateShape(s: string) {
    && |s| == 10
    && AllDigits(s[..4]) && s[4] == '-'
    && AllDigits(s[5..7]) && s[7] == '-'
    && AllDigits(s[8..])
  }

  /* ---------------- string order ---------------- */

  /** JavaScript's `a < b` on strings: lexicographic on characters, a proper prefix first. */
  predicate Less(a: string, b: string) {
    if a == [] then b != []
    else if b == [] then false
    else if a[0] != b[0] then a[0] < b[0]
    else Less(a[1..], b[1..])
  }

  /** JavaScript's `a <= b` on strings, which is `!(b < a)`. */
  predicate LessEq(a: string, b: string) {
    !Less(b, a)
  }

  lemma {:induction false} LessIrreflexive(a: string)
    ensures !Less(a, a)
  {
    if a != [] { LessIrreflexive(a[1..]); }
  }

  lemma {:induction false} LessAsymmetric(a: string, b: string)
    ensures !(Less(a, b) && Less(b, a))
  {
    if a != [] && b != [] && a[0] == b[0] { LessAsymmetric(a[1..], b[1..]); }
  }

  /** Any two different strings are ordered one way or the other. */
  lemma {:induction false} LessTotal(a: string, b: string)
    ensures a == b || Less(a, b) || Less(b, a)
  {
    if a != [] && b != [] && a[0] == b[0] {
      LessTotal(a[1..], b[1..]);
      if a[1..] == b[1..] { assert a == [a[0]] + a[1..] && b == [b[0]] + b[1..]; }
    }
  }

  lemma {:induction false} LessTransitive(a: string, b: string, c: string)
    requires Less(a, b) && Less(b, c)
    ensures Less(a, c)
  {
    if a != [] && a[0] == b[0] && b[0] == c[0] {
      LessTransitive(a[1..], b[1..], c[1..]);
    }
  }

  /** `<=` on strings is a total order. */
  lemma LessEqTotalOrder(a: string, b: string, c: string)
    ensures LessEq(a, a)
    ensures LessEq(a, b) || LessEq(b, a)
    ensures LessEq(a, b) && LessEq(b, a) ==> a == b
    ensures LessEq(a, b) && LessEq(b, c) ==> LessEq(a, c)
  {
    LessIrreflexive(a);
    LessAsymmetric(a, b);
    LessTotal(a, b);
    LessTotal(a, c);
    if LessEq(a, b) && LessEq(b, c) && Less(c, a) {
      LessTotal(b, c);
      LessTotal(a, b);
      if Less(b, c) { LessTransitive(b, c, a); } else if Less(a, b) { LessTransitive(c, a, b); }
    }
  }

  /* ---------------- decimal rendering ---------------- */

  function DigitChar(d: nat): (c: char)
    requires d < 10
    ensures IsDigit(c)
  {
    "0123456789"[d]
  }

  function DigitValue(c: char): nat
    requires IsDigit(c)
  {
    c as nat - '0' as nat
  }

  lemma DigitRoundTrip(d: nat)
    requires d < 10
    ensures DigitValue(DigitChar(d)) == d
  {
  }

  /** `String(n)` for a natural number: its shortest decimal representation. */
  function NatToString(n: nat): (r: string)
    ensures |r| >= 1 && AllDigits(r)
    ensures r[0] == '0' ==> n == 0
  {
    if n < 10 then [DigitChar(n)] else NatToString(n / 10) + [DigitChar(n % 10)]
  }

  /** `String(y)` for any integer: a minus sign before a negative value. */
  function IntToString(y: int): string {
    if y < 0 then "-" + NatToString(-y) else NatToString(y)
  }

  /** The value of a string of decimal digits. */
  function ParseNat(s: string): nat
    requires AllDigits(s)
  {
    if s == [] then 0 else ParseNat(s[..|s| - 1]) * 10 + DigitValue(s[|s| - 1])
  }

  /** Reading back a rendered natural number gives the number. */
  lemma {:induction false} ParseNatToString(n: nat)
    ensures ParseNat(NatToString(n)) == n
  {
    var r := NatToString(n);
    if n >= 10 {
      assert r[..|r| - 1] == NatToString(n / 10);
      ParseNatToString(n / 10);
    }
  }

  /** Number of decimal digits of `n`. */
  function DigitCount(n: nat): (k: nat)
    ensures k >= 1
  {
    if n < 10 then 1 else 1 + DigitCount(n / 10)
  }

  lemma {:induction false} NatToStringLength(n: nat)
    ensures |NatToString(n)| == DigitCount(n)
  {
    if n >= 10 { NatToStringLength(n / 10); }
  }

  /** `String(n).padStart(2, "0")`. */
  function Pad2(n: nat): (r: string)
    ensures AllDigits(r)
  {
    var s := NatToString(n);
    if |s| < 2 then "0" + s else s
  }

  /** For 0..99 the padded form is two digits that read back as the number. */
  lemma Pad2TwoDigits(n: nat)
    requires n < 100
    ensures |Pad2(n)| == 2 && ParseNat(Pad2(n)) == n
  {
    ParseNatToString(n);
    NatToStringLength(n);
    if n >= 10 { assert DigitCount(n / 10) == 1; }
    var s := NatToString(n);
    if |s| < 2 {
      assert ("0" + s)[..1] == "0";
      assert ParseNat("0" + s) == ParseNat("0") * 10 + DigitValue(s[0]);
    }
  }

  /** Four-digit years render as four characters. */
  lemma FourDigits(n: nat)
    requires 1000 <= n <= 9999
    ensures |NatToString(n)| == 4
  {
    NatToStringLength(n);
    assert DigitCount(n / 1000) == 1;
    assert DigitCount(n / 100) == 2 by { assert n / 100 / 10 == n / 1000; }
    assert DigitCount(n / 10) == 3 by { assert n / 10 / 10 == n / 100; }
  }
}
