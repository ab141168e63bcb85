/**
 * The JavaScript string operations the application relies on: `trim`,
 * ASCII `toLowerCase`, `includes`, `split` on one character, the global
 * replacement of "**", `length` in UTF-16 code units, number-to-string
 * conversion and `parseInt` without a radix.
 */
module JsString {
  import opened Wrappers

  /** The characters `String.prototype.trim` removes (WhiteSpace and LineTerminator). */
  predicate IsWhitespace(c: char) {
    c == ' ' || c == '\t' || c == '\n' || c == '\r' || c == '\U{B}' || c == '\U{C}'
    || c == '\U{A0}' || c == '\U{1680}' || ('\U{2000}' <= c <= '\U{200A}')
    || c == '\U{2028}' || c == '\U{2029}' || c == '\U{202F}' || c == '\U{205F}'
    || c == '\U{3000}' || c == '\U{FEFF}'
  }

  /** Leading whitespace removed; what is removed is all whitespace. */
  function TrimStart(s: string): (r: string)
    ensures |r| <= |s| && r == s[|s| - |r|..]
    ensures r == [] || !IsWhitespace(r[0])
    ensures forall i :: 0 <= i < |s| - |r| ==> IsWhitespace(s[i])
  {
    if |s| > 0 && IsWhitespace(s[0]) then TrimStart(s[1..]) else s
  }

  /** Trailing whitespace removed; what is removed is all whitespace. */
  function TrimEnd(s: string): (r: string)
    ensures |r| <= |s| && r == s[..|r|]
    ensures r == [] || !IsWhitespace(r[|r| - 1])
    ensures forall i :: |r| <= i < |s| ==> IsWhitespace(s[i])
  {
    if |s| > 0 && IsWhitespace(s[|s| - 1]) then TrimEnd(s[..|s| - 1]) else s
  }

  /** `s.trim()`. */
  function Trim(s: string): (r: string)
    ensures |r| <= |s|
    ensures r == [] || (!IsWhitespace(r[0]) && !IsWhitespace(r[|r| - 1]))
  {
    TrimEnd(TrimStart(s))
  }

  /** A string with no whitespace at either end is its own trim. */
  lemma TrimOfTrimmed(s: string)
    requires s == [] || (!IsWhitespace(s[0]) && !IsWhitespace(s[|s| - 1]))
    ensures Trim(s) == s
  {
  }

  /** `trim` is idempotent. */
  lemma TrimIdempotent(s: string)
    ensures Trim(Trim(s)) == Trim(s)
  {
    TrimOfTrimmed(Trim(s));
  }

  predicate AllWhitespace(w: string) {
    forall i :: 0 <= i < |w| ==> IsWhitespace(w[i])
  }

  /** Trimming the start of a concatenation only reaches into `t` when `u` is all whitespace. */
  lemma {:induction false} TrimStartAppend(u: string, t: string)
    ensures TrimStart(u + t) == if TrimStart(u) == [] then TrimStart(t) else TrimStart(u) + t
  {
    if |u| > 0 && IsWhitespace(u[0]) {
      assert (u + t)[1..] == u[1..] + t;
      TrimStartAppend(u[1..], t);
    } else if |u| > 0 {
      assert (u + t)[0] == u[0];
    } else {
      assert u + t == t;
    }
  }

  /** Trailing whitespace appended is removed again by `TrimEnd`. */
  lemma {:induction false} TrimEndAppendWhitespace(x: string, w: string)
    requires AllWhitespace(w)
    ensures TrimEnd(x + w) == TrimEnd(x)
  {
    if w == [] {
      assert x + w == x;
    } else {
      var y := x + w;
      assert y[..|y| - 1] == x + w[..|w| - 1];
      TrimEndAppendWhitespace(x, w[..|w| - 1]);
    }
  }

  /** Whitespace padding on either side does not change the trim. */
  lemma TrimPadding(w1: string, s: string, w2: string)
    requires AllWhitespace(w1) && AllWhitespace(w2)
    ensures Trim(w1 + s + w2) == Trim(s)
  {
    assert w1 + s + w2 == w1 + (s + w2);
    TrimStartAppend(w1, s + w2);
    TrimStartAppend(s, w2);
    if TrimStart(s) == [] {
      TrimStartAppend(w2, []);
      assert w2 + [] == w2;
    } else {
      TrimEndAppendWhitespace(TrimStart(s), w2);
    }
  }

  /** Characters matched by `/[A-Z]/`, `/[a-z]/`, `/[0-9]/`. */
  predicate IsAsciiUpper(c: char) { 'A' <= c <= 'Z' }
  predicate IsAsciiLower(c: char) { 'a' <= c <= 'z' }
  predicate IsAsciiDigit(c: char) { '0' <= c <= '9' }

  function LowerChar(c: char): (r: char)
    ensures !IsAsciiUpper(r)
    ensures !IsAsciiUpper(c) ==> r == c
  {
    if IsAsciiUpper(c) then (c as int + 32) as char else c
  }

  /** `s.toLowerCase()` restricted to the ASCII letters. */
  function AsciiLower(s: string): (r: string)
    ensures |r| == |s|
    ensures forall i :: 0 <= i < |s| ==> r[i] == LowerChar(s[i])
  {
    if s == [] then [] else [LowerChar(s[0])] + AsciiLower(s[1..])
  }

  /** Lower-casing twice is lower-casing once. */
  lemma AsciiLowerIdempotent(s: string)
    ensures AsciiLower(AsciiLower(s)) == AsciiLower(s)
  {
  }

  /** Lower-casing keeps whitespace and non-whitespace apart, so it commutes with `trim`. */
  lemma {:induction false} TrimStartLower(s: string)
    ensures TrimStart(AsciiLower(s)) == AsciiLower(TrimStart(s))
  {
    if |s| > 0 {
      if IsWhitespace(s[0]) {
        TrimStartLowerSkip(s);
        TrimStartLower(s[1..]);
      } else {
        TrimStartLowerStop(s);
      }
    }
  }

  lemma TrimStartLowerSkip(s: string)
    requires |s| > 0 && IsWhitespace(s[0])
    ensures TrimStart(s) == TrimStart(s[1..])
    ensures TrimStart(AsciiLower(s)) == TrimStart(AsciiLower(s[1..]))
  {
    var l := AsciiLower(s);
    LowerCharWhitespace(s[0]);
    assert l[1..] == AsciiLower(s[1..]);
  }

  lemma TrimStartLowerStop(s: string)
    requires |s| > 0 && !IsWhitespace(s[0])
    ensures TrimStart(s) == s
    ensures TrimStart(AsciiLower(s)) == AsciiLower(s)
  {
    LowerCharWhitespace(s[0]);
  }

  lemma LowerCharWhitespace(c: char)
    ensures IsWhitespace(LowerChar(c)) == IsWhitespace(c)
  {
  }

  lemma {:induction false} TrimEndLower(s: string)
    ensures TrimEnd(AsciiLower(s)) == AsciiLower(TrimEnd(s))
  {
    if |s| > 0 {
      if IsWhitespace(s[|s| - 1]) {
        TrimEndLowerSkip(s);
        TrimEndLower(s[..|s| - 1]);
      } else {
        TrimEndLowerStop(s);
      }
    }
  }

  lemma TrimEndLowerSkip(s: string)
    requires |s| > 0 && IsWhitespace(s[|s| - 1])
    ensures TrimEnd(s) == TrimEnd(s[..|s| - 1])
    ensures TrimEnd(AsciiLower(s)) == TrimEnd(AsciiLower(s[..|s| - 1]))
  {
    var l := AsciiLower(s);
    LowerCharWhitespace(s[|s| - 1]);
    assert l[..|s| - 1] == AsciiLower(s[..|s| - 1]);
  }

  lemma TrimEndLowerStop(s: string)
    requires |s| > 0 && !IsWhitespace(s[|s| - 1])
    ensures TrimEnd(s) == s
    ensures TrimEnd(AsciiLower(s)) == AsciiLower(s)
  {
    LowerCharWhitespace(s[|s| - 1]);
  }

  lemma TrimLower(s: string)
    ensures Trim(AsciiLower(s)) == AsciiLower(Trim(s))
  {
    TrimStartLower(s);
    TrimEndLower(TrimStart(s));
  }

  predicate IsPrefix(p: string, s: string) {
    |p| <= |s| && s[..|p|] == p
  }

  /**
   * `s.indexOf(sub, from)`: the first position at or after `from` where
   * `sub` occurs, or -1.
   */
  function IndexOfFrom(s: string, sub: string, from: nat): (r: int)
    requires from <= |s|
    ensures r == -1 || (from <= r <= |s| && IsPrefix(sub, s[r..]))
    ensures forall k :: from <= k <= |s| && (r == -1 || k < r) ==> !IsPrefix(sub, s[k..])
    decreases |s| - from
  {
    if IsPrefix(sub, s[from..]) then from
    else if from == |s| then -1
    else IndexOfFrom(s, sub, from + 1)
  }

  /** `s.includes(sub)`. */
  function Includes(s: string, sub: string): (b: bool)
    ensures b <==> exists k :: 0 <= k <= |s| && IsPrefix(sub, s[k..])
  {
    IndexOfFrom(s, sub, 0) != -1
  }

  /** An occurrence at a known position makes `includes` true. */
  lemma IncludesAt(s: string, sub: string, k: nat)
    requires k <= |s| && IsPrefix(sub, s[k..])
    ensures Includes(s, sub)
  {
  }

  /** `s.split(c)` for a one-character separator. */
  function Split(s: string, c: char): (r: seq<string>)
    ensures |r| >= 1
    ensures forall i :: 0 <= i < |r| ==> c !in r[i]
  {
    if s == [] then [""]
    else if s[0] == c then [""] + Split(s[1..], c)
    else
      var rest := Split(s[1..], c);
      [[s[0]] + rest[0]] + rest[1..]
  }

  /** `parts.join(c)`. */
  function Join(parts: seq<string>, c: char): string
    requires |parts| >= 1
  {
    if |parts| == 1 then parts[0] else parts[0] + [c] + Join(parts[1..], c)
  }

  /** Splitting loses nothing: joining the pieces gives the string back. */
  lemma {:induction false} SplitJoin(s: string, c: char)
    ensures Join(Split(s, c), c) == s
  {
    if s == [] {
    } else if s[0] == c {
      SplitJoin(s[1..], c);
      assert s == [c] + s[1..];
    } else {
      SplitJoin(s[1..], c);
      var rest := Split(s[1..], c);
      if |rest| == 1 {
        assert s == [s[0]] + rest[0];
      } else {
        assert Join(rest, c) == rest[0] + [c] + Join(rest[1..], c);
        assert s == [s[0]] + s[1..];
      }
    }
  }

  /** Joining pieces that do not contain the separator and splitting again gives the pieces back. */
  lemma {:induction false} JoinSplit(parts: seq<string>, c: char)
    requires |parts| >= 1
    requires forall i :: 0 <= i < |parts| ==> c !in parts[i]
    ensures Split(Join(parts, c), c) == parts
    decreases |parts|, |parts[0]|
  {
    if |parts[0]| == 0 {
      if |parts| == 1 {
      } else {
        JoinSplit(parts[1..], c);
        assert Join(parts, c) == [c] + Join(parts[1..], c);
      }
    } else {
      var p0 := parts[0];
      var shorter := [p0[1..]] + parts[1..];
      assert c !in shorter[0];
      assert forall i :: 1 <= i < |shorter| ==> shorter[i] == parts[i];
      JoinSplit(shorter, c);
      if |parts| == 1 {
        assert Join(parts, c) == [p0[0]] + Join(shorter, c);
      } else {
        assert Join(shorter, c) == p0[1..] + [c] + Join(parts[1..], c);
        assert Join(parts, c) == [p0[0]] + Join(shorter, c);
      }
      assert p0 == [p0[0]] + p0[1..];
    }
  }

  /** `s.replace` of every "**" by nothing (a global regular expression), scanning left to right. */
  function RemoveDoubleStars(s: string): (r: string)
    ensures |r| <= |s|
    ensures forall i :: 0 <= i < |r| - 1 ==> !(r[i] == '*' && r[i + 1] == '*')
    ensures |s| > 0 && s[0] != '*' ==> |r| > 0 && r[0] == s[0]
  {
    if |s| >= 2 && s[0] == '*' && s[1] == '*' then RemoveDoubleStars(s[2..])
    else if s == [] then []
    else
      var rest := RemoveDoubleStars(s[1..]);
      var r := [s[0]] + rest;
      assert forall i :: 1 <= i < |r| ==> r[i] == rest[i - 1];
      r
  }

  /** Only asterisks are removed: every other character keeps its count. */
  lemma {:induction false} RemoveDoubleStarsKeepsOthers(s: string)
    ensures forall x :: x != '*' ==> multiset(RemoveDoubleStars(s))[x] == multiset(s)[x]
  {
    if |s| >= 2 && s[0] == '*' && s[1] == '*' {
      RemoveDoubleStarsKeepsOthers(s[2..]);
      assert s == [s[0], s[1]] + s[2..];
    } else if s != [] {
      RemoveDoubleStarsKeepsOthers(s[1..]);
      assert s == [s[0]] + s[1..];
    }
  }

  /** A character's width in UTF-16 code units. */
  function Utf16Units(c: char): nat {
    if c as int > 0xFFFF then 2 else 1
  }

  /** `s.length`: JavaScript counts UTF-16 code units, so a character outside the BMP counts twice. */
  function Utf16Length(s: string): (n: nat)
    ensures |s| <= n <= 2 * |s|
  {
    if s == [] then 0 else Utf16Units(s[0]) + Utf16Length(s[1..])
  }

  function DigitChar(d: nat): (c: char)
    requires d < 10
    ensures IsAsciiDigit(c) && c as int - '0' as int == d
  {
    ('0' as int + d) as char
  }

  /** The decimal form of a natural number, with no leading zero. */
  function NatToString(n: nat): (s: string)
    ensures |s| >= 1 && (forall i :: 0 <= i < |s| ==> IsAsciiDigit(s[i]))
    ensures |s| > 1 ==> s[0] != '0'
  {
    if n < 10 then [DigitChar(n)] else NatToString(n / 10) + [DigitChar(n % 10)]
  }

  /** `String(n)` / a template literal for an integer. */
  function IntToString(n: int): string {
    if n < 0 then "-" + NatToString(-n) else NatToString(n)
  }

  /** The value of a digit in base 10 or 16, or -1 when `c` is not such a digit. */
  function DigitValue(c: char, radix: nat): (v: int)
    ensures -1 <= v < radix || (radix != 10 && radix != 16)
  {
    if IsAsciiDigit(c) && (c as int - '0' as int) < radix then c as int - '0' as int
    else if radix == 16 && 'a' <= c <= 'f' then c as int - 'a' as int + 10
    else if radix == 16 && 'A' <= c <= 'F' then c as int - 'A' as int + 10
    else -1
  }

  /** The number of leading characters of `s` that are digits in `radix`. */
  function DigitPrefixLength(s: string, radix: nat): (k: nat)
    ensures k <= |s|
    ensures forall i :: 0 <= i < k ==> DigitValue(s[i], radix) >= 0
    ensures k < |s| ==> DigitValue(s[k], radix) < 0
  {
    if s != [] && DigitValue(s[0], radix) >= 0 then 1 + DigitPrefixLength(s[1..], radix) else 0
  }

  /** The value of a string of digits, most significant first. */
  function DigitsValue(s: string, radix: nat): (v: nat)
    requires forall i :: 0 <= i < |s| ==> DigitValue(s[i], radix) >= 0
    requires radix == 10 || radix == 16
  {
    if s == [] then 0
    else DigitsValue(s[..|s| - 1], radix) * radix + DigitValue(s[|s| - 1], radix) as nat
  }

  /** The digits after the sign: "0x"/"0X" selects base 16, otherwise base 10; `None` is NaN. */
  function ParseUnsigned(u: string): (r: Option<nat>)
    ensures r.Some? ==> |u| > 0 && IsHexOrDecimalDigit(u[0])
  {
    var hex := |u| >= 2 && u[0] == '0' && (u[1] == 'x' || u[1] == 'X');
    var radix := if hex then 16 else 10;
    var body := if hex then u[2..] else u;
    var k := DigitPrefixLength(body, radix);
    if k == 0 then None else Some(DigitsValue(body[..k], radix))
  }

  /**
   * `parseInt(s)` with no radix: leading whitespace skipped, an optional
   * sign, a "0x"/"0X" prefix selecting base 16, then the longest run of
   * digits; `None` stands for NaN (no digit at all).
   */
  function ParseInt(s: string): Option<int> {
    var t := TrimStart(s);
    var negative := |t| > 0 && t[0] == '-';
    var u := if |t| > 0 && (t[0] == '-' || t[0] == '+') then t[1..] else t;
    ApplySign(negative, ParseUnsigned(u))
  }

  /** The parsed magnitude with its sign applied; NaN stays NaN. */
  function ApplySign(negative: bool, magnitude: Option<nat>): (r: Option<int>)
    ensures r.Some? <==> magnitude.Some?
    ensures r.Some? ==> r.value == if negative then -(magnitude.value as int) else magnitude.value as int
  {
    match magnitude
    case None => None
    case Some(v) => Some(if negative then -(v as int) else v as int)
  }

  predicate IsHexOrDecimalDigit(c: char) {
    IsAsciiDigit(c) || ('a' <= c <= 'f') || ('A' <= c <= 'F')
  }

  lemma {:induction false} DigitsOfNat(n: nat)
    ensures DigitsValue(NatToString(n), 10) == n
  {
    if n >= 10 {
      DigitsOfNat(n / 10);
      var s := NatToString(n);
      assert s[..|s| - 1] == NatToString(n / 10);
    }
  }

  lemma ParseUnsignedOfNat(n: nat)
    ensures ParseUnsigned(NatToString(n)) == Some(n)
  {
    var digits := NatToString(n);
    DigitsOfNat(n);
    DigitPrefixOfDigits(digits);
    assert digits[..|digits|] == digits;
  }

  /** `parseInt(String(n)) === n` for every integer n. */
  lemma ParseIntOfIntToString(n: int)
    ensures ParseInt(IntToString(n)) == Some(n)
  {
    var m: nat := if n < 0 then -n else n;
    var digits := NatToString(m);
    ParseUnsignedOfNat(m);
    if n < 0 {
      ParseIntMinus(digits);
    } else {
      ParseIntUnsigned(digits);
    }
  }

  lemma ParseIntUnsigned(s: string)
    requires |s| > 0 && !IsWhitespace(s[0]) && s[0] != '-' && s[0] != '+'
    ensures ParseInt(s) == ApplySign(false, ParseUnsigned(s))
  {
    TrimStartKeeps(s);
  }

  lemma ParseIntMinus(u: string)
    ensures ParseInt("-" + u) == ApplySign(true, ParseUnsigned(u))
  {
    var s := "-" + u;
    assert s[0] == '-' && s[1..] == u;
    TrimStartKeeps(s);
  }

  lemma TrimStartKeeps(s: string)
    requires s == [] || !IsWhitespace(s[0])
    ensures TrimStart(s) == s
  {
  }

  lemma {:induction false} DigitPrefixOfDigits(s: string)
    requires forall i :: 0 <= i < |s| ==> IsAsciiDigit(s[i])
    ensures DigitPrefixLength(s, 10) == |s|
  {
    if s != [] {
      DigitPrefixOfDigits(s[1..]);
    }
  }
}
