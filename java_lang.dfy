/**
 * The pieces of java.lang that the client relies on, written out character by
 * character: `String.trim`, `Long.parseLong`, `Long.toString`,
 * `Boolean.valueOf`, `String.contains`, `String.replace` and the text Java
 * string concatenation inserts for a `null` reference.
 */
module JavaLang {
  import opened Wrappers

  /** A Java `String` reference: `None` is `null`. */
  type JString = Option<string>

  /** The text that `"..." + s` inserts for the reference `s`. */
  function Show(s: JString): (r: string)
    ensures s.Some? ==> r == s.value
    ensures s.None? ==> r == "null"
  {
    match s
    case None => "null"
    case Some(t) => t
  }

  // ---------------------------------------------------------------- trim

  /** Drops the leading characters `String.trim` strips (code points up to U+0020). */
  function TrimStart(s: string): (r: string)
    ensures |r| <= |s| && r == s[|s| - |r|..]
    ensures r == [] || r[0] > ' '
    ensures forall i :: 0 <= i < |s| - |r| ==> s[i] <= ' '
  {
    if s == [] || s[0] > ' ' then s else TrimStart(s[1..])
  }

  /** Drops the trailing characters `String.trim` strips. */
  function TrimEnd(s: string): (r: string)
    ensures |r| <= |s| && r == s[..|r|]
    ensures r == [] || r[|r| - 1] > ' '
    ensures forall i :: |r| <= i < |s| ==> s[i] <= ' '
  {
    if s == [] || s[|s| - 1] > ' ' then s else TrimEnd(s[..|s| - 1])
  }

  /** `String.trim`. */
  function Trim(s: string): (r: string)
  {
    TrimEnd(TrimStart(s))
  }

  /** Every character is one `trim` strips. */
  predicate IsBlank(s: string) {
    forall i :: 0 <= i < |s| ==> s[i] <= ' '
  }

  /** `s.trim().length() == 0` holds exactly when `s` is blank. */
  lemma TrimBlank(s: string)
    ensures Trim(s) == [] <==> IsBlank(s)
  {
    var t := TrimStart(s);
    assert Trim(s) == TrimEnd(t);
  }

  /** `trim` keeps a contiguous piece of its input that starts and ends with a visible character. */
  lemma TrimShape(s: string) returns (k: nat)
    ensures k + |Trim(s)| <= |s| && Trim(s) == s[k..k + |Trim(s)|]
    ensures Trim(s) != [] ==> Trim(s)[0] > ' ' && Trim(s)[|Trim(s)| - 1] > ' '
  {
    var t := TrimStart(s);
    var r := TrimEnd(t);
    assert Trim(s) == r;
    k := |s| - |t|;
    PrefixOfSuffix(s, t, r);
    if r != [] {
      assert r[0] == t[0];
    }
  }

  lemma PrefixOfSuffix(s: string, t: string, r: string)
    requires |t| <= |s| && t == s[|s| - |t|..]
    requires |r| <= |t| && r == t[..|r|]
    ensures r == s[|s| - |t|..|s| - |t| + |r|]
  {
  }

  /** `trim` removes exactly the padding around a text that starts and ends visibly. */
  lemma {:induction false} TrimPadded(before: string, t: string, after: string)
    requires forall i :: 0 <= i < |before| ==> before[i] <= ' '
    requires forall i :: 0 <= i < |after| ==> after[i] <= ' '
    requires t != [] && t[0] > ' ' && t[|t| - 1] > ' '
    ensures Trim(before + t + after) == t
  {
    TrimStartPadded(before, t + after);
    assert before + t + after == before + (t + after);
    TrimEndPadded(t, after);
  }

  lemma {:induction false} TrimStartPadded(before: string, rest: string)
    requires forall i :: 0 <= i < |before| ==> before[i] <= ' '
    requires rest != [] && rest[0] > ' '
    ensures TrimStart(before + rest) == rest
    decreases |before|
  {
    if before != [] {
      assert (before + rest)[1..] == before[1..] + rest;
      TrimStartPadded(before[1..], rest);
    } else {
      assert before + rest == rest;
    }
  }

  lemma {:induction false} TrimEndPadded(rest: string, after: string)
    requires forall i :: 0 <= i < |after| ==> after[i] <= ' '
    requires rest != [] && rest[|rest| - 1] > ' '
    ensures TrimEnd(rest + after) == rest
    decreases |after|
  {
    if after != [] {
      assert (rest + after)[..|rest + after| - 1] == rest + after[..|after| - 1];
      TrimEndPadded(rest, after[..|after| - 1]);
    } else {
      assert rest + after == rest;
    }
  }

  // ---------------------------------------------------------------- long

  const LONG_MIN: int := -0x8000_0000_0000_0000
  const LONG_MAX: int := 0x7fff_ffff_ffff_ffff

  /** The values of Java's `long`. */
  predicate IsLong(n: int) {
    LONG_MIN <= n <= LONG_MAX
  }

  /** A value a Java `long` variable or `Long` object can hold. */
  type Long = n: int | LONG_MIN <= n <= LONG_MAX

  predicate IsDigit(c: char) {
    '0' <= c <= '9'
  }

  predicate AllDigits(s: string) {
    forall i :: 0 <= i < |s| ==> IsDigit(s[i])
  }

  /** The number a string of decimal digits denotes. */
  function DigitsValue(s: string): nat
    requires AllDigits(s)
  {
    if s == [] then 0 else DigitsValue(s[..|s| - 1]) * 10 + (s[|s| - 1] as int - '0' as int)
  }

  /**
   * `Long.parseLong(s)` in radix 10: an optional sign followed by at least one
   * digit, denoting a value that fits a `long`; `None` where Java throws
   * NumberFormatException.
   */
  function ParseLong(s: string): (r: Option<int>)
    ensures r.Some? ==> IsLong(r.value)
    ensures r.Some? ==> |s| > 0 && AllDigits(if s[0] == '-' || s[0] == '+' then s[1..] else s)
  {
    if |s| > 0 && (s[0] == '-' || s[0] == '+') then
      if |s| > 1 && AllDigits(s[1..]) then
        var magnitude := DigitsValue(s[1..]);
        var v: int := if s[0] == '-' then -(magnitude as int) else magnitude;
        if IsLong(v) then Some(v) else None
      else
        None
    else if |s| > 0 && AllDigits(s) && IsLong(DigitsValue(s)) then
      Some(DigitsValue(s))
    else
      None
  }

  function DigitChar(d: nat): char
    requires d < 10
  {
    ('0' as int + d) as char
  }

  /** The decimal digits of a natural number, without leading zeros. */
  function DecimalDigits(n: nat): (r: string)
    ensures |r| > 0 && AllDigits(r)
    ensures r[0] == '0' ==> n == 0
  {
    if n < 10 then [DigitChar(n)] else DecimalDigits(n / 10) + [DigitChar(n % 10)]
  }

  /** `Long.toString(n)`. */
  function LongToString(n: int): string
  {
    if n < 0 then "-" + DecimalDigits(-n) else DecimalDigits(n)
  }

  lemma {:induction false} DigitsValueOfDecimal(n: nat)
    ensures DigitsValue(DecimalDigits(n)) == n
  {
    if n >= 10 {
      var d := DecimalDigits(n);
      assert d[..|d| - 1] == DecimalDigits(n / 10);
      DigitsValueOfDecimal(n / 10);
    }
  }

  /** `Long.parseLong(Long.toString(n)) == n` for every `long` value. */
  lemma ParseLongToString(n: int)
    requires IsLong(n)
    ensures ParseLong(LongToString(n)) == Some(n)
  {
    if n < 0 {
      assert LongToString(n)[1..] == DecimalDigits(-n);
      DigitsValueOfDecimal(-n);
    } else {
      DigitsValueOfDecimal(n);
    }
  }

  /** `Long.toString` never produces a sign or a leading zero for a non-negative value. */
  lemma LongToStringCanonical(n: int)
    requires n >= 0
    ensures AllDigits(LongToString(n)) && |LongToString(n)| > 0
    ensures LongToString(n)[0] == '0' ==> LongToString(n) == "0"
  {
    if n > 0 {
      assert LongToString(n)[0] != '0';
    }
  }

  // ---------------------------------------------------------------- boolean

  /** Case folding of `equalsIgnoreCase`, restricted to ASCII letters. */
  function ToLowerAscii(c: char): char {
    if 'A' <= c <= 'Z' then (c as int + 32) as char else c
  }

  predicate EqualsIgnoreCase(a: string, b: string) {
    |a| == |b| && forall i :: 0 <= i < |a| ==> ToLowerAscii(a[i]) == ToLowerAscii(b[i])
  }

  /** `Boolean.valueOf(s).toString()`: `"true"` exactly for a non-null `s` equal to "true" ignoring case. */
  function BooleanValueOf(s: JString): (r: string)
    ensures r == "true" || r == "false"
    ensures r == "true" <==> s.Some? && EqualsIgnoreCase(s.value, "true")
  {
    if s.Some? && EqualsIgnoreCase(s.value, "true") then "true" else "false"
  }

  // ---------------------------------------------------------------- search and replace

  predicate StartsWith(s: string, prefix: string) {
    |prefix| <= |s| && s[..|prefix|] == prefix
  }

  /** `s.contains(t)`. */
  predicate Contains(s: string, t: string)
    decreases |s|
  {
    StartsWith(s, t) || (|s| > 0 && Contains(s[1..], t))
  }

  /** `contains` finds `t` wherever it sits. */
  lemma {:induction false} ContainsAt(s: string, t: string, i: nat)
    requires i + |t| <= |s| && s[i..i + |t|] == t
    ensures Contains(s, t)
    decreases i
  {
    if i > 0 {
      assert s[1..][i - 1..i - 1 + |t|] == t;
      ContainsAt(s[1..], t, i - 1);
    }
  }

  /** Whatever `contains` finds occurs at some position. */
  lemma {:induction false} ContainsWitness(s: string, t: string) returns (i: nat)
    requires Contains(s, t)
    ensures i + |t| <= |s| && s[i..i + |t|] == t
    decreases |s|
  {
    if StartsWith(s, t) {
      i := 0;
    } else {
      var j := ContainsWitness(s[1..], t);
      i := j + 1;
      assert s[i..i + |t|] == s[1..][j..j + |t|];
    }
  }

  /** A string contains whatever one of its pieces contains. */
  lemma ContainsInfix(a: string, m: string, b: string, t: string)
    requires Contains(m, t)
    ensures Contains(a + m + b, t)
  {
    var j := ContainsWitness(m, t);
    var s := a + m + b;
    assert s[|a| + j..|a| + j + |t|] == m[j..j + |t|];
    ContainsAt(s, t, |a| + j);
  }

  /**
   * `s.replace(target, replacement)`: every occurrence of `target`, scanning
   * left to right without overlap, is replaced; an empty target inserts the
   * replacement before every character and at the end.
   */
  function Replace(s: string, target: string, replacement: string): string
    decreases |s|
  {
    if target == [] then
      replacement + (if s == [] then [] else [s[0]] + Replace(s[1..], target, replacement))
    else if |s| < |target| then
      s
    else if s[..|target|] == target then
      replacement + Replace(s[|target|..], target, replacement)
    else
      [s[0]] + Replace(s[1..], target, replacement)
  }

  /** A text in which the target does not occur comes back unchanged. */
  lemma {:induction false} ReplaceAbsent(s: string, target: string, replacement: string)
    requires target != [] && !Contains(s, target)
    ensures Replace(s, target, replacement) == s
    decreases |s|
  {
    if |s| >= |target| {
      assert !StartsWith(s, target);
      ReplaceAbsent(s[1..], target, replacement);
    }
  }

  /**
   * `replace` copies a leading piece of `n` characters in which no occurrence
   * of the target starts, and goes on with the rest.
   */
  lemma {:induction false} ReplaceSkip(s: string, n: nat, target: string, replacement: string)
    requires target != [] && n <= |s|
    requires forall i :: 0 <= i < n ==> !StartsWith(s[i..], target)
    ensures Replace(s, target, replacement) == s[..n] + Replace(s[n..], target, replacement)
    decreases n
  {
    if n == 0 {
      assert s[..0] == [] && s[0..] == s;
    } else if |s| < |target| {
      ReplaceShort(s, target, replacement);
      ReplaceShort(s[n..], target, replacement);
      assert s[..n] + s[n..] == s;
    } else {
      var rest := s[1..];
      assert !StartsWith(s, target) by {
        assert s[0..] == s;
      }
      ReplaceStep(s, target, replacement);
      NoMatchShift(s, n, target);
      ReplaceSkip(rest, n - 1, target, replacement);
      SkipJoined(s, n, Replace(s[n..], target, replacement));
    }
  }

  /** A leading piece without a match, seen from the second character. */
  lemma NoMatchShift(s: string, n: nat, target: string)
    requires 0 < n <= |s|
    requires forall i :: 0 <= i < n ==> !StartsWith(s[i..], target)
    ensures forall i :: 0 <= i < n - 1 ==> !StartsWith(s[1..][i..], target)
  {
    forall i | 0 <= i < n - 1
      ensures !StartsWith(s[1..][i..], target)
    {
      assert s[1..][i..] == s[i + 1..];
    }
  }

  lemma SkipJoined(s: string, n: nat, tail: string)
    requires 0 < n <= |s|
    ensures [s[0]] + (s[1..][..n - 1] + tail) == s[..n] + tail
    ensures s[1..][n - 1..] == s[n..]
  {
    assert [s[0]] + s[1..][..n - 1] == s[..n];
  }

  lemma ReplaceStep(s: string, target: string, replacement: string)
    requires target != [] && |s| >= |target| && !StartsWith(s, target)
    ensures Replace(s, target, replacement) == [s[0]] + Replace(s[1..], target, replacement)
  {
  }

  lemma ReplaceShort(s: string, target: string, replacement: string)
    requires target != [] && |s| < |target|
    ensures Replace(s, target, replacement) == s
  {
  }

  /** An occurrence at the very start is replaced, and the scan goes on after it. */
  lemma ReplaceHere(b: string, target: string, replacement: string)
    requires target != []
    ensures Replace(target + b, target, replacement) == replacement + Replace(b, target, replacement)
  {
    assert (target + b)[..|target|] == target;
    assert (target + b)[|target|..] == b;
  }

  /** Every character of a contained text occurs in the containing one. */
  lemma ContainedChars(s: string, t: string)
    ensures Contains(s, t) ==> forall c :: c in t ==> c in s
  {
    if Contains(s, t) {
      var i := ContainsWitness(s, t);
      forall c | c in t
        ensures c in s
      {
        var k :| 0 <= k < |t| && t[k] == c;
        assert s[i + k] == s[i..i + |t|][k];
      }
    }
  }

  /** A text lacking one of the target's characters does not contain the target. */
  lemma MissingCharNotContained(s: string, t: string, c: char)
    requires c in t && c !in s
    ensures !Contains(s, t)
  {
    ContainedChars(s, t);
  }

  /**
   * A character that cannot be part of the target splits the text: `replace`
   * works on each side separately.
   */
  lemma {:induction false} ReplaceAround(a: string, c: char, b: string, target: string, replacement: string)
    requires target != [] && c !in target
    ensures Replace(a + [c] + b, target, replacement)
         == Replace(a, target, replacement) + [c] + Replace(b, target, replacement)
    decreases |a|, 2
  {
    if |a + [c] + b| < |target| {
      ReplaceAroundShort(a, c, b, target, replacement);
    } else if a == [] {
      ReplaceAfterSeparator(c, b, target, replacement);
    } else {
      ReplaceAroundLong(a, c, b, target, replacement);
    }
  }

  lemma ReplaceAroundShort(a: string, c: char, b: string, target: string, replacement: string)
    requires target != [] && |a + [c] + b| < |target|
    ensures Replace(a + [c] + b, target, replacement)
         == Replace(a, target, replacement) + [c] + Replace(b, target, replacement)
  {
    ReplaceShort(a + [c] + b, target, replacement);
    ReplaceShort(a, target, replacement);
    ReplaceShort(b, target, replacement);
  }

  lemma {:induction false} ReplaceAroundLong(a: string, c: char, b: string, target: string, replacement: string)
    requires target != [] && c !in target && a != [] && |a + [c] + b| >= |target|
    ensures Replace(a + [c] + b, target, replacement)
         == Replace(a, target, replacement) + [c] + Replace(b, target, replacement)
    decreases |a|, 1
  {
    if StartsWith(a + [c] + b, target) {
      ReplaceAroundMatch(a, c, b, target, replacement);
    } else {
      ReplaceAroundNoMatch(a, c, b, target, replacement);
    }
  }

  /** An occurrence at the start lies before the separator and is replaced on both sides alike. */
  lemma {:induction false} ReplaceAroundMatch(a: string, c: char, b: string, target: string, replacement: string)
    requires target != [] && c !in target && StartsWith(a + [c] + b, target)
    ensures Replace(a + [c] + b, target, replacement)
         == Replace(a, target, replacement) + [c] + Replace(b, target, replacement)
    decreases |a|, 0
  {
    ReplaceBeforeSeparator(a, c, b, target, replacement);
    ReplaceAround(a[|target|..], c, b, target, replacement);
  }

  /** No occurrence at the start: the first character is copied on both sides alike. */
  lemma {:induction false} ReplaceAroundNoMatch(a: string, c: char, b: string, target: string, replacement: string)
    requires target != [] && c !in target && a != [] && |a + [c] + b| >= |target| && !StartsWith(a + [c] + b, target)
    ensures Replace(a + [c] + b, target, replacement)
         == Replace(a, target, replacement) + [c] + Replace(b, target, replacement)
    decreases |a|, 0
  {
    ReplaceAround(a[1..], c, b, target, replacement);
    ReplaceNoMatchBeforeSeparator(a, c, b, target, replacement);
  }

  lemma ReplaceAfterSeparator(c: char, b: string, target: string, replacement: string)
    requires target != [] && c !in target && |target| <= 1 + |b|
    ensures Replace([] + [c] + b, target, replacement) == [c] + Replace(b, target, replacement)
  {
    assert [] + [c] + b == [c] + b;
    assert !StartsWith([c] + b, target) by {
      assert ([c] + b)[0] == c;
    }
    ReplaceStep([c] + b, target, replacement);
    assert ([c] + b)[1..] == b;
  }

  /** An occurrence at the start of `a + [c] + b` lies within `a`. */
  lemma ReplaceBeforeSeparator(a: string, c: char, b: string, target: string, replacement: string)
    requires target != [] && c !in target && StartsWith(a + [c] + b, target)
    ensures |target| <= |a|
    ensures Replace(a + [c] + b, target, replacement) == replacement + Replace(a[|target|..] + [c] + b, target, replacement)
    ensures Replace(a, target, replacement) == replacement + Replace(a[|target|..], target, replacement)
  {
    var s := a + [c] + b;
    assert |a| >= |target| by {
      assert s[|a|] == c;
    }
    var rest := a[|target|..];
    assert s == target + (rest + [c] + b);
    ReplaceHere(rest + [c] + b, target, replacement);
    assert a == target + rest;
    ReplaceHere(rest, target, replacement);
  }

  lemma ReplaceNoMatchBeforeSeparator(a: string, c: char, b: string, target: string, replacement: string)
    requires target != [] && a != [] && |a + [c] + b| >= |target| && !StartsWith(a + [c] + b, target)
    ensures Replace(a + [c] + b, target, replacement) == [a[0]] + Replace(a[1..] + [c] + b, target, replacement)
    ensures Replace(a, target, replacement) == [a[0]] + Replace(a[1..], target, replacement)
  {
    var s := a + [c] + b;
    ReplaceStep(s, target, replacement);
    assert s[1..] == a[1..] + [c] + b;
    if |a| < |target| {
      ReplaceShort(a, target, replacement);
      ReplaceShort(a[1..], target, replacement);
      assert a == [a[0]] + a[1..];
    } else {
      assert !StartsWith(a, target) by {
        assert s[..|target|] == a[..|target|];
      }
      ReplaceStep(a, target, replacement);
    }
  }

  /** Joins strings with no separator, as `Collectors.joining()` does. */
  function Concat(parts: seq<string>): string
  {
    if parts == [] then [] else parts[0] + Concat(parts[1..])
  }

  /** Joins strings with a separator between neighbours, as `String.join` does. */
  function Join(parts: seq<string>, separator: string): string
  {
    if parts == [] then [] else if |parts| == 1 then parts[0] else parts[0] + separator + Join(parts[1..], separator)
  }
}
